/**
 How the writes of include/disk.hh are gathered into requests: a request is cut at a
 gap in the block numbers or when it has SG_IO_SIZE of data.
 */
module DiskBatches {
  import opened DiskMachine

  const BATCH: nat := 16      // SG_IO_SIZE / BSIZE

  datatype Write = Write(block: nat, buf: Block)

  /** Consecutive blocks, as handed to disk_writev. */
  datatype Run = Run(start: nat, data: seq<Block>)

  const NoRun := Run(0, [])

  /** Requests that are complete, and the one still being gathered. */
  datatype Batches = Batches(done: seq<Run>, open: Run)

  predicate Gap(b: Batches, w: Write) {
    b.open.data != [] && w.block != b.open.start + |b.open.data|
  }

  function Close(b: Batches): Batches {
    Batches(b.done + [b.open], NoRun)
  }

  function Extend(b: Batches, w: Write): Batches {
    b.(open := if b.open.data == [] then Run(w.block, [w.buf]) else Run(b.open.start, b.open.data + [w.buf]))
  }

  /** add_to_queue */
  function Next(b: Batches, w: Write): Batches {
    var b1 := Extend(if Gap(b, w) then Close(b) else b, w);
    if |b1.open.data| == BATCH then Close(b1) else b1
  }

  function Gather(ws: seq<Write>): Batches {
    if ws == [] then Batches([], NoRun) else Next(Gather(ws[..|ws| - 1]), ws[|ws| - 1])
  }

  /** All requests of a flush, in order. */
  function All(b: Batches): seq<Run> {
    if b.open.data == [] then b.done else b.done + [b.open]
  }

  lemma GatherMore(ws: seq<Write>, w: Write)
    ensures Gather(ws + [w]) == Next(Gather(ws), w)
  {
    assert (ws + [w])[..|ws|] == ws;
  }

  // ----------------------------------------------------------------------
  // The same on block numbers: the request of each write, and its place in it
  // ----------------------------------------------------------------------

  function Numbers(ws: seq<Write>): (bs: seq<nat>)
    ensures |bs| == |ws| && forall i :: 0 <= i < |ws| ==> bs[i] == ws[i].block
  {
    seq(|ws|, i requires 0 <= i < |ws| => ws[i].block)
  }

  /** How many blocks of its request come before write `i`. */
  function Off(bs: seq<nat>, i: nat): (o: nat)
    requires i < |bs|
    ensures o < BATCH && o <= bs[i] && o <= i
  {
    if i == 0 || bs[i] != bs[i - 1] + 1 || Off(bs, i - 1) == BATCH - 1 then 0 else Off(bs, i - 1) + 1
  }

  /** How many requests come before that of write `i`. */
  function BatchOf(bs: seq<nat>, i: nat): nat
    requires i < |bs|
  {
    if i == 0 then 0 else if Off(bs, i) == 0 then BatchOf(bs, i - 1) + 1 else BatchOf(bs, i - 1)
  }

  /** The last request is not full, so it waits for the flush. */
  predicate OpenEnd(bs: seq<nat>) {
    bs != [] && Off(bs, |bs| - 1) < BATCH - 1
  }

  lemma {:induction false} OffPrefix(bs: seq<nat>, cs: seq<nat>, i: nat)
    requires i < |bs| && bs <= cs
    ensures Off(bs, i) == Off(cs, i) && BatchOf(bs, i) == BatchOf(cs, i)
  {
    if i > 0 {
      OffPrefix(bs, cs, i - 1);
    }
  }

  /** Later writes are in later requests, or later in the same one. */
  lemma {:induction false} InOrder(bs: seq<nat>, i: nat, j: nat)
    requires i < j < |bs|
    ensures BatchOf(bs, i) < BatchOf(bs, j) || (BatchOf(bs, i) == BatchOf(bs, j) && Off(bs, i) < Off(bs, j))
    decreases j
  {
    if i < j - 1 {
      InOrder(bs, i, j - 1);
    }
  }

  /** One request holds no block twice. */
  lemma {:induction false} SameRequest(bs: seq<nat>, i: nat, j: nat)
    requires i < j < |bs| && BatchOf(bs, i) == BatchOf(bs, j)
    ensures bs[j] == bs[i] + (j - i)
    decreases j
  {
    InOrder(bs, i, j);
    if i < j - 1 {
      InOrder(bs, i, j - 1);
      SameRequest(bs, i, j - 1);
    }
  }

  /** The last write: where it went. */
  ghost predicate LastIs(b: Batches, bs: seq<nat>) {
    if bs == [] then b == Batches([], NoRun)
    else
      var i := |bs| - 1;
      if OpenEnd(bs) then
        |b.done| == BatchOf(bs, i) && |b.open.data| == Off(bs, i) + 1 && b.open.start + Off(bs, i) == bs[i]
      else
        |b.done| == BatchOf(bs, i) + 1 && b.open == NoRun
  }

  lemma NumbersMore(ws: seq<Write>)
    requires ws != []
    ensures Numbers(ws) == Numbers(ws[..|ws| - 1]) + [ws[|ws| - 1].block]
  {
  }

  lemma {:induction false} GatherLast(ws: seq<Write>)
    ensures LastIs(Gather(ws), Numbers(ws))
  {
    if ws != [] {
      var n := |ws| - 1;
      GatherLast(ws[..n]);
      NumbersMore(ws);
      var bs, bs' := Numbers(ws), Numbers(ws[..n]);
      if n > 0 {
        OffPrefix(bs', bs, n - 1);
      }
    }
  }

  /** A write extends the last request or starts a new one. */
  lemma NextAll(b: Batches, w: Write)
    requires b.open.data == [] ==> b.open == NoRun
    ensures var a, a' := All(b), All(Next(b, w));
            if b.open.data != [] && !Gap(b, w) then
              && |a'| == |a| == |b.done| + 1 && a'[..|b.done|] == a[..|b.done|]
              && a'[|b.done|] == Run(b.open.start, b.open.data + [w.buf])
            else
              a' == a + [Run(w.block, [w.buf])]
  {
  }

  /** Index `j` of request `k` is write `w`. */
  ghost predicate Holds(all: seq<Run>, k: nat, j: nat, w: Write) {
    k < |all| && j < |all[k].data| && all[k].data[j] == w.buf && all[k].start + j == w.block
  }

  lemma NextKeeps(b: Batches, w: Write, k: nat, j: nat, v: Write)
    requires (b.open.data == [] ==> b.open == NoRun) && Holds(All(b), k, j, v)
    ensures Holds(All(Next(b, w)), k, j, v)
  {
    NextAll(b, w);
    hide Next;
  }

  lemma NextHolds(b: Batches, w: Write)
    requires b.open.data != [] || b.open == NoRun
    ensures var b' := Next(b, w);
            if b'.open.data != [] then Holds(All(b'), |b'.done|, |b'.open.data| - 1, w)
            else b'.done != [] && Holds(All(b'), |b'.done| - 1, BATCH - 1, w)
  {
  }

  /** Write `i` is index Off of request BatchOf. */
  lemma {:induction false} GatherAt(ws: seq<Write>, i: nat)
    requires i < |ws|
    ensures Holds(All(Gather(ws)), BatchOf(Numbers(ws), i), Off(Numbers(ws), i), ws[i])
  {
    hide All, Next, Off, BatchOf, Holds;
    var n := |ws| - 1;
    if i < n {
      NumbersMore(ws);
      OffPrefix(Numbers(ws[..n]), Numbers(ws), i);
      GatherAt(ws[..n], i);
      GatherLast(ws[..n]);
      NextKeeps(Gather(ws[..n]), ws[n], BatchOf(Numbers(ws), i), Off(Numbers(ws), i), ws[i]);
    } else {
      GatherLast(ws[..n]);
      NextHolds(Gather(ws[..n]), ws[n]);
      GatherLast(ws);
    }
  }

  /** And nothing else is in a request. */
  lemma {:induction false} GatherFrom(ws: seq<Write>, k: nat, j: nat) returns (i: nat)
    requires k < |All(Gather(ws))| && j < |All(Gather(ws))[k].data|
    ensures i < |ws| && BatchOf(Numbers(ws), i) == k && Off(Numbers(ws), i) == j
  {
    var n := |ws| - 1;
    var bs, bs' := Numbers(ws), Numbers(ws[..n]);
    NumbersMore(ws);
    GatherLast(ws[..n]);
    NextAll(Gather(ws[..n]), ws[n]);
    if n > 0 {
      OffPrefix(bs', bs, n - 1);
    }
    var all' := All(Gather(ws[..n]));
    if k < |all'| && j < |all'[k].data| {
      i := GatherFrom(ws[..n], k, j);
      OffPrefix(bs', bs, i);
    } else {
      i := n;
    }
  }
}
