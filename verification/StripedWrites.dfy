/**
 When the writes that go through a block_queue leave on the disks what the same writes
 leave one at a time.
 */
module StripedWrites {
  import opened Options
  import opened DiskMachine
  import opened DiskStripes
  import opened DiskBatches
  import opened DiskQueue
  import opened QueueProgram
  import opened BlockSystem

  /** disk_write of each block, one at a time. */
  function OneAtATime(disks: nat, base: Contents, ws: seq<Write>): Contents
    requires disks > 0
  {
    if ws == [] then base
    else OneAtATime(disks, base, ws[..|ws| - 1])[Home(disks, ws[|ws| - 1].block) := ws[|ws| - 1].buf]
  }

  /** Whatever the disks do, after the flush they hold what one-at-a-time writes leave. */
  ghost predicate AlwaysRight(disks: nat, firsts: seq<nat>, ws: seq<Write>, base: Contents)
    requires FirstSlots(disks, firsts)
  {
    forall acts, h :: Exec(Program(disks, firsts, ws), base, acts) == Some(h) && Over(Program(disks, firsts, ws), h) ==>
      h.disk == OneAtATime(disks, base, ws)
  }

  // ----------------------------------------------------------------------
  // The conditions, on the writes
  // ----------------------------------------------------------------------

  /** The places the block queue gives to the blocks, on their disks. */
  function Places(disks: nat, bs: seq<nat>): (ps: seq<nat>)
    requires disks > 0
    ensures |ps| == |bs| && forall i :: 0 <= i < |bs| ==> ps[i] == Remap(disks, bs[i])
  {
    seq(|bs|, i requires 0 <= i < |bs| => Remap(disks, bs[i]))
  }

  /** Where the request of write `i` starts, if all writes go through one queue. */
  function RequestStart(disks: nat, bs: seq<nat>, i: nat): nat
    requires disks > 0 && i < |bs|
  {
    Remap(disks, bs[i]) - Off(Places(disks, bs), i)
  }

  /** There is one disk, or every block is on the first one and its request starts in the first stripe. */
  predicate WellPlaced(disks: nat, bs: seq<nat>)
    requires disks > 0
  {
    disks == 1 || forall i :: 0 <= i < |bs| ==> Dev(disks, bs[i]) == 0 && RequestStart(disks, bs, i) < STRIPE
  }

  /** Requests that are full or cut off before the flush. */
  function CompleteRequests(bs: seq<nat>): nat {
    if bs == [] then 0 else BatchOf(bs, |bs| - 1) + if OpenEnd(bs) then 0 else 1
  }

  /** The request of write `j` is issued without waiting for that of write `i`. */
  predicate Together(first: nat, bs: seq<nat>, i: nat, j: nat)
    requires i < |bs| && j < |bs|
  {
    !Apart(first, CompleteRequests(bs), BatchOf(bs, i), BatchOf(bs, j))
  }

  predicate LastWrite(bs: seq<nat>, j: nat) {
    j < |bs| && forall i :: j < i < |bs| ==> bs[i] != bs[j]
  }

  /** Write `j` is the last one of its block, and `i` an earlier one it is not kept apart from. */
  predicate Races(disks: nat, first: nat, ws: seq<Write>, i: nat, j: nat)
    requires disks > 0 && i < |ws| && j < |ws|
  {
    && ws[i].block == ws[j].block && LastWrite(Numbers(ws), j)
    && Together(first, Places(disks, Numbers(ws)), i, j)
  }

  /** No write of a block is under way together with the block's last one, with another value. */
  predicate NoRace(disks: nat, first: nat, ws: seq<Write>)
    requires disks > 0
  {
    forall i, j :: 0 <= i < j < |ws| && Races(disks, first, ws, i, j) ==> ws[i].buf == ws[j].buf
  }

  /** No write of a block is under way together with the block's last one. */
  predicate NoRewrite(disks: nat, first: nat, bs: seq<nat>)
    requires disks > 0
  {
    forall i, j :: 0 <= i < j < |bs| && bs[i] == bs[j] && LastWrite(bs, j) ==> !Together(first, Places(disks, bs), i, j)
  }

  // ----------------------------------------------------------------------
  // One-at-a-time writes
  // ----------------------------------------------------------------------

  lemma {:induction false} WrittenLast(disks: nat, base: Contents, ws: seq<Write>, j: nat)
    requires disks > 0 && LastWrite(Numbers(ws), j)
    ensures At(OneAtATime(disks, base, ws), Home(disks, ws[j].block)) == Some(ws[j].buf)
  {
    hide Home;
    var n := |ws| - 1;
    if j < n {
      forall i | j < i < n ensures Numbers(ws[..n])[i] != Numbers(ws[..n])[j] {
        assert Numbers(ws)[i] != Numbers(ws)[j];
      }
      assert Numbers(ws)[n] != Numbers(ws)[j];
      WrittenLast(disks, base, ws[..n], j);
      HomesDiffer(disks, ws[j].block, ws[n].block);
    }
  }

  lemma {:induction false} WrittenNowhere(disks: nat, base: Contents, ws: seq<Write>, p: Place)
    requires disks > 0 && forall i :: 0 <= i < |ws| ==> Home(disks, ws[i].block) != p
    ensures At(OneAtATime(disks, base, ws), p) == At(base, p)
  {
    if ws != [] {
      WrittenNowhere(disks, base, ws[..|ws| - 1], p);
    }
  }

  lemma {:induction false} LastWriteExists(bs: seq<nat>, i: nat) returns (j: nat)
    requires i < |bs|
    ensures i <= j && LastWrite(bs, j) && bs[j] == bs[i]
    decreases |bs| - i
  {
    if k :| i < k < |bs| && bs[k] == bs[i] {
      j := LastWriteExists(bs, k);
    } else {
      j := i;
    }
  }

  // ----------------------------------------------------------------------
  // All writes through the first queue
  // ----------------------------------------------------------------------

  predicate FirstDiskOnly(disks: nat, ws: seq<Write>)
    requires disks > 0
  {
    forall i :: 0 <= i < |ws| ==> Dev(disks, ws[i].block) == 0
  }

  function MappedAll(disks: nat, ws: seq<Write>): (ms: seq<Write>)
    requires disks > 0
    ensures |ms| == |ws| && forall i :: 0 <= i < |ws| ==> ms[i] == Mapped(disks, ws[i])
  {
    seq(|ws|, i requires 0 <= i < |ws| => Mapped(disks, ws[i]))
  }

  lemma MappedNumbers(disks: nat, ws: seq<Write>)
    requires disks > 0
    ensures Numbers(MappedAll(disks, ws)) == Places(disks, Numbers(ws))
  {
  }

  function FirstLine(disks: nat, first: nat, ws: seq<Write>): (s: Line)
    requires disks > 0
    ensures QOk(s.q)
  {
    LineOf(disks, first, Gather(MappedAll(disks, ws)))
  }

  lemma {:induction false} AfterFirst(disks: nat, firsts: seq<nat>, ws: seq<Write>)
    requires FirstSlots(disks, firsts) && FirstDiskOnly(disks, ws)
    ensures After(disks, firsts, ws) == Back(Start(firsts), 0, FirstLine(disks, firsts[0], ws))
  {
    hide Take, LineOf, Next, Dev;
    if ws == [] {
      StartLine(disks, firsts[0]);
    } else {
      var n := |ws| - 1;
      AfterFirst(disks, firsts, ws[..n]);
      assert MappedAll(disks, ws) == MappedAll(disks, ws[..n]) + [Mapped(disks, ws[n])];
      GatherMore(MappedAll(disks, ws[..n]), Mapped(disks, ws[n]));
      TakeIs(disks, firsts[0], Gather(MappedAll(disks, ws[..n])), Mapped(disks, ws[n]));
    }
  }

  lemma StartLine(disks: nat, first: nat)
    requires disks > 0 && first < DEPTH
    ensures LineOf(disks, first, Gather([])) == Line([], Fresh(first))
  {
  }

  lemma {:induction false} FlushFresh(disks: nat, cmds: seq<Cmd>, first: nat, n: nat)
    requires disks > 0 && first < DEPTH && n <= DEPTH
    ensures FlushSlots(disks, Line(cmds, Fresh(first)), n) == Line(cmds, Fresh(first))
  {
    if n > 0 {
      FlushFresh(disks, cmds, first, n - 1);
    }
  }

  lemma {:induction false} FlushFirst(disks: nat, firsts: seq<nat>, ws: seq<Write>, n: nat)
    requires FirstSlots(disks, firsts) && FirstDiskOnly(disks, ws) && 1 <= n <= disks
    ensures FlushQueues(disks, After(disks, firsts, ws), n)
            == Back(Start(firsts), 0, FlushSlots(disks, FirstLine(disks, firsts[0], ws), DEPTH))
  {
    hide FlushSlots, After, FirstLine, Fresh;
    AfterFirst(disks, firsts, ws);
    if n > 1 {
      FlushFirst(disks, firsts, ws, n - 1);
      var s := FlushSlots(disks, FirstLine(disks, firsts[0], ws), DEPTH);
      FlushFresh(disks, s.cmds, firsts[n - 1], DEPTH);
    }
  }

  lemma FirstProgram(disks: nat, firsts: seq<nat>, ws: seq<Write>)
    requires FirstSlots(disks, firsts) && FirstDiskOnly(disks, ws)
    ensures Program(disks, firsts, ws) == Whole(disks, firsts[0], Gather(MappedAll(disks, ws)))
  {
    hide FlushSlots, After, FlushQueues;
    FlushFirst(disks, firsts, ws, disks);
  }

  // ----------------------------------------------------------------------
  // Well-placed writes
  // ----------------------------------------------------------------------

  lemma PlacedFirst(disks: nat, ws: seq<Write>)
    requires disks > 0 && WellPlaced(disks, Numbers(ws))
    ensures FirstDiskOnly(disks, ws)
  {
    if disks == 1 {
      forall i | 0 <= i < |ws| ensures Dev(disks, ws[i].block) == 0 {
        OneDisk(ws[i].block);
      }
    } else {
      forall i | 0 <= i < |ws| ensures Dev(disks, ws[i].block) == 0 {
        assert Dev(disks, Numbers(ws)[i]) == 0;
      }
    }
  }

  /** The commands, when all writes go through the first queue. */
  function Cmds0(disks: nat, first: nat, ws: seq<Write>): seq<Cmd>
    requires disks > 0
  {
    Whole(disks, first, Gather(MappedAll(disks, ws)))
  }

  /** The position of the request of write `i`. */
  function PosOfWrite(disks: nat, first: nat, ws: seq<Write>, i: nat): nat
    requires disks > 0 && i < |ws|
  {
    PosOf(disks, first, Gather(MappedAll(disks, ws)), BatchOf(Places(disks, Numbers(ws)), i))
  }

  /** Index `j` of a request that starts in place lands at home. */
  lemma RunHome(disks: nat, w: Write, run: Run, j: nat)
    requires disks > 0 && j < |run.data| && run.start + j == Remap(disks, w.block)
    requires disks == 1 || (Dev(disks, w.block) == 0 && run.start < STRIPE)
    ensures var r := ToDisk(disks, run); Home(disks, w.block) == Place(r.dev, r.start + j)
  {
    QueuedHomeIff(disks, w.block, run.start, j);
  }

  lemma WellStart(disks: nat, ws: seq<Write>, i: nat)
    requires disks > 0 && WellPlaced(disks, Numbers(ws)) && i < |ws|
    ensures || disks == 1
            || (Dev(disks, ws[i].block) == 0
                && Remap(disks, ws[i].block) - Off(Places(disks, Numbers(ws)), i) < STRIPE)
  {
    hide Dev, Remap, Off;
    assert Numbers(ws)[i] == ws[i].block;
    assert disks == 1 || RequestStart(disks, Numbers(ws), i) < STRIPE;
  }

  lemma TouchesHome(disks: nat, first: nat, ws: seq<Write>, i: nat)
    requires disks > 0 && WellPlaced(disks, Numbers(ws)) && i < |ws|
    ensures var cmds, n, p := Cmds0(disks, first, ws), PosOfWrite(disks, first, ws, i), Home(disks, ws[i].block);
            Touches(cmds, n, p) && Value(cmds, n, p) == ws[i].buf
  {
    hide Whole, PosOf, Home, BatchOf, Gather, All, WellPlaced, Dev, Remap, Off;
    var ms := MappedAll(disks, ws);
    var bs := Places(disks, Numbers(ws));
    MappedNumbers(disks, ws);
    GatherAt(ms, i);
    var k, j := BatchOf(bs, i), Off(bs, i);
    WholeAt(disks, first, Gather(ms), k);
    WellStart(disks, ws, i);
    RunHome(disks, ws[i], All(Gather(ms))[k], j);
  }

  lemma TouchedBy(disks: nat, first: nat, ws: seq<Write>, n: nat, p: Place) returns (i: nat)
    requires disks > 0 && WellPlaced(disks, Numbers(ws)) && Touches(Cmds0(disks, first, ws), n, p)
    ensures i < |ws| && n == PosOfWrite(disks, first, ws, i) && p == Home(disks, ws[i].block)
    ensures Value(Cmds0(disks, first, ws), n, p) == ws[i].buf
  {
    hide Whole, PosOf, Home, BatchOf, Gather, All, WellPlaced, Dev, Remap, Off;
    var ms := MappedAll(disks, ws);
    var bs := Places(disks, Numbers(ws));
    MappedNumbers(disks, ws);
    var cmds := Cmds0(disks, first, ws);
    var k := WholeFrom(disks, first, Gather(ms), n);
    WholeAt(disks, first, Gather(ms), k);
    var j := p.at - cmds[n].req.start;
    i := GatherFrom(ms, k, j);
    GatherAt(ms, i);
    WellStart(disks, ws, i);
    RunHome(disks, ws[i], All(Gather(ms))[k], j);
  }

  lemma CompleteIs(disks: nat, ws: seq<Write>)
    requires disks > 0
    ensures |Gather(MappedAll(disks, ws)).done| == CompleteRequests(Places(disks, Numbers(ws)))
  {
    MappedNumbers(disks, ws);
    GatherLast(MappedAll(disks, ws));
  }

  /** Two writes of one block are in different requests, issued in order, and the later one waits for
      the earlier one exactly if they are not together. */
  lemma TwoWrites(disks: nat, first: nat, ws: seq<Write>, i: nat, j: nat)
    requires disks > 0 && i < j < |ws| && ws[i].block == ws[j].block
    ensures var cmds := Cmds0(disks, first, ws);
            var n, n' := PosOfWrite(disks, first, ws, i), PosOfWrite(disks, first, ws, j);
            n < n' <= |cmds| && (Waited(cmds, n, n') <==> !Together(first, Places(disks, Numbers(ws)), i, j))
  {
    hide Whole, PosOf, Apart, Gather, All, BatchOf, Off;
    var ms := MappedAll(disks, ws);
    var bs := Places(disks, Numbers(ws));
    MappedNumbers(disks, ws);
    InOrder(bs, i, j);
    if BatchOf(bs, i) == BatchOf(bs, j) {
      SameRequest(bs, i, j);
    }
    GatherAt(ms, j);
    CompleteIs(disks, ws);
    hide CompleteRequests;
    PosRises(disks, first, Gather(ms), BatchOf(bs, i), BatchOf(bs, j));
    WaitedIff(disks, first, Gather(ms), BatchOf(bs, i), BatchOf(bs, j));
  }

  /** The last write of a block is in the last request for its home. */
  lemma LastIsLast(disks: nat, first: nat, ws: seq<Write>, j: nat)
    requires disks > 0 && WellPlaced(disks, Numbers(ws)) && LastWrite(Numbers(ws), j)
    ensures LastFor(Cmds0(disks, first, ws), PosOfWrite(disks, first, ws, j), Home(disks, ws[j].block))
  {
    hide Cmds0, PosOfWrite, Home, WellPlaced;
    TouchesHome(disks, first, ws, j);
    var cmds, p := Cmds0(disks, first, ws), Home(disks, ws[j].block);
    forall n: nat | Touches(cmds, n, p) ensures n <= PosOfWrite(disks, first, ws, j) {
      var i := TouchedBy(disks, first, ws, n, p);
      HomesDiffer(disks, ws[i].block, ws[j].block);
      assert Numbers(ws)[i] == Numbers(ws)[j];
      if i < j {
        TwoWrites(disks, first, ws, i, j);
      }
    }
  }

  /** The requests one after the other leave what the writes leave one at a time. */
  lemma SequentialIsOneAtATime(disks: nat, first: nat, ws: seq<Write>, base: Contents, p: Place)
    requires disks > 0 && WellPlaced(disks, Numbers(ws))
    ensures Sequential(Cmds0(disks, first, ws), base, p) == At(OneAtATime(disks, base, ws), p)
  {
    hide Cmds0, PosOfWrite, Home, WellPlaced, Sequential, OneAtATime;
    var cmds := Cmds0(disks, first, ws);
    if i :| 0 <= i < |ws| && Home(disks, ws[i].block) == p {
      var j := LastWriteExists(Numbers(ws), i);
      LastIsLast(disks, first, ws, j);
      TouchesHome(disks, first, ws, j);
      SequentialIsLast(cmds, base, p, PosOfWrite(disks, first, ws, j));
      WrittenLast(disks, base, ws, j);
    } else {
      forall n: nat ensures !Touches(cmds, n, p) {
        if Touches(cmds, n, p) {
          var i := TouchedBy(disks, first, ws, n, p);
        }
      }
      SequentialIsBase(cmds, base, p);
      WrittenNowhere(disks, base, ws, p);
    }
  }

  lemma LastUnique(cmds: seq<Cmd>, m: nat, n: nat, p: Place)
    requires LastFor(cmds, m, p) && LastFor(cmds, n, p)
    ensures m == n
  {
  }

  /** Requests clash exactly where writes race. */
  lemma ClashIffRace(disks: nat, first: nat, ws: seq<Write>)
    requires disks > 0 && WellPlaced(disks, Numbers(ws))
    ensures (forall p :: NoClash(Cmds0(disks, first, ws), p)) <==> NoRace(disks, first, ws)
  {
    hide Cmds0, PosOfWrite, Home, WellPlaced, Together, LastWrite, Numbers;
    var cmds := Cmds0(disks, first, ws);
    if NoRace(disks, first, ws) {
      forall p, k: nat, n: nat | LastFor(cmds, n, p) && Touches(cmds, k, p) && !Waited(cmds, k, n)
        ensures Value(cmds, k, p) == Value(cmds, n, p)
      {
        NoRaceNoClash(disks, first, ws, k, n, p);
      }
    }
    if forall p :: NoClash(cmds, p) {
      forall i, j | 0 <= i < j < |ws| && Races(disks, first, ws, i, j) ensures ws[i].buf == ws[j].buf {
        var p := Home(disks, ws[i].block);
        LastIsLast(disks, first, ws, j);
        TouchesHome(disks, first, ws, i);
        TouchesHome(disks, first, ws, j);
        TwoWrites(disks, first, ws, i, j);
        assert NoClash(cmds, p);
      }
    }
  }

  lemma NoRaceNoClash(disks: nat, first: nat, ws: seq<Write>, k: nat, n: nat, p: Place)
    requires disks > 0 && WellPlaced(disks, Numbers(ws)) && NoRace(disks, first, ws)
    requires var cmds := Cmds0(disks, first, ws); LastFor(cmds, n, p) && Touches(cmds, k, p) && !Waited(cmds, k, n)
    ensures Value(Cmds0(disks, first, ws), k, p) == Value(Cmds0(disks, first, ws), n, p)
  {
    hide Cmds0, PosOfWrite, Home, WellPlaced, Together;
    var i := TouchedBy(disks, first, ws, k, p);
    var i' := TouchedBy(disks, first, ws, n, p);
    HomesDiffer(disks, ws[i].block, ws[i'].block);
    var j := LastWriteExists(Numbers(ws), i);
    LastIsLast(disks, first, ws, j);
    LastUnique(Cmds0(disks, first, ws), n, PosOfWrite(disks, first, ws, j), p);
    TouchesHome(disks, first, ws, j);
    if i < j {
      TwoWrites(disks, first, ws, i, j);
      assert Races(disks, first, ws, i, j);
    }
  }

  /** For well-placed writes: the disks hold what one-at-a-time writes leave, in every order of
      completion, exactly if no two different values race for a block. */
  lemma RightIffNoRace(disks: nat, firsts: seq<nat>, ws: seq<Write>, base: Contents)
    requires FirstSlots(disks, firsts) && WellPlaced(disks, Numbers(ws))
    ensures AlwaysRight(disks, firsts, ws, base) <==> NoRace(disks, firsts[0], ws)
  {
    hide Cmds0, WellPlaced, Sequential, OneAtATime, Exec, NoRace;
    var cmds := Cmds0(disks, firsts[0], ws);
    PlacedFirst(disks, ws);
    FirstProgram(disks, firsts, ws);
    assert cmds == Program(disks, firsts, ws) by { CmdsAre(disks, firsts[0], ws); }
    hide Program;
    ProgramSensible(disks, firsts, ws);
    SequentialIffNoClash(cmds, base);
    ClashIffRace(disks, firsts[0], ws);
    forall p ensures Sequential(cmds, base, p) == At(OneAtATime(disks, base, ws), p) {
      SequentialIsOneAtATime(disks, firsts[0], ws, base, p);
    }
    if AlwaysSequential(cmds, base) {
      forall acts, h | Exec(cmds, base, acts) == Some(h) && Over(cmds, h)
        ensures h.disk == OneAtATime(disks, base, ws)
      {
        forall p ensures At(h.disk, p) == At(OneAtATime(disks, base, ws), p) {
          assert At(h.disk, p) == Sequential(cmds, base, p);
        }
        SameContents(h.disk, OneAtATime(disks, base, ws));
      }
    }
  }

  lemma CmdsAre(disks: nat, first: nat, ws: seq<Write>)
    requires disks > 0
    ensures Cmds0(disks, first, ws) == Whole(disks, first, Gather(MappedAll(disks, ws)))
  {
  }

  lemma SameContents(a: Contents, b: Contents)
    requires forall p :: At(a, p) == At(b, p)
    ensures a == b
  {
    assert forall p :: p in a <==> At(a, p).Some?;
    assert forall p :: p in b <==> At(b, p).Some?;
  }

  /** For the disks as a flush leaves them. */
  lemma SettledRight(disks: nat, firsts: seq<nat>, ws: seq<Write>, base: Contents, disk: Contents)
    requires FirstSlots(disks, firsts) && WellPlaced(disks, Numbers(ws)) && NoRace(disks, firsts[0], ws)
    requires Settled(Program(disks, firsts, ws), base, disk)
    ensures disk == OneAtATime(disks, base, ws)
  {
    hide Cmds0, WellPlaced, Sequential, OneAtATime, NoRace, Settled;
    var cmds := Cmds0(disks, firsts[0], ws);
    PlacedFirst(disks, ws);
    FirstProgram(disks, firsts, ws);
    assert cmds == Program(disks, firsts, ws) by { CmdsAre(disks, firsts[0], ws); }
    hide Program;
    ClashIffRace(disks, firsts[0], ws);
    forall p ensures At(disk, p) == At(OneAtATime(disks, base, ws), p) {
      SettledIsSequential(cmds, base, disk, p);
      SequentialIsOneAtATime(disks, firsts[0], ws, base, p);
    }
    SameContents(disk, OneAtATime(disks, base, ws));
  }

  // ----------------------------------------------------------------------
  // Where writes go, through whatever queue
  // ----------------------------------------------------------------------

  lemma {:induction false} SharePrefix(disks: nat, ws: seq<Write>, n: nat, q: nat)
    requires disks > 0 && n <= |ws|
    ensures Share(disks, ws[..n], q) <= Share(disks, ws, q)
    decreases |ws|
  {
    hide Dev;
    if n < |ws| {
      SharePrefix(disks, ws[..|ws| - 1], n, q);
      assert ws[..|ws| - 1][..n] == ws[..n];
    } else {
      assert ws[..n] == ws;
    }
  }

  /** How many writes the queue of write `i` takes before it. */
  function ShareIndex(disks: nat, ws: seq<Write>, i: nat): nat
    requires disks > 0 && i < |ws|
  {
    |Share(disks, ws[..i], Dev(disks, ws[i].block))|
  }

  lemma ShareAt(disks: nat, ws: seq<Write>, i: nat)
    requires disks > 0 && i < |ws|
    ensures var s, x := Share(disks, ws, Dev(disks, ws[i].block)), ShareIndex(disks, ws, i);
            x < |s| && s[x] == Mapped(disks, ws[i])
  {
    hide Dev;
    SharePrefix(disks, ws, i + 1, Dev(disks, ws[i].block));
    assert ws[..i + 1][..i] == ws[..i];
  }

  lemma {:induction false} ShareFrom(disks: nat, ws: seq<Write>, q: nat, x: nat) returns (i: nat)
    requires disks > 0 && x < |Share(disks, ws, q)|
    ensures i < |ws| && Dev(disks, ws[i].block) == q && ShareIndex(disks, ws, i) == x
  {
    hide Dev;
    var n := |ws| - 1;
    if x < |Share(disks, ws[..n], q)| {
      i := ShareFrom(disks, ws[..n], q, x);
      assert ws[..n][..i] == ws[..i];
    } else {
      i := n;
    }
  }

  /** Where the request of write `i` starts on its disk. */
  function StartOf(disks: nat, ws: seq<Write>, i: nat): nat
    requires disks > 0 && i < |ws|
  {
    Remap(disks, ws[i].block) - OffsetOf(disks, ws, i)
  }

  function OffsetOf(disks: nat, ws: seq<Write>, i: nat): (o: nat)
    requires disks > 0 && i < |ws|
    ensures o < BATCH && o <= Remap(disks, ws[i].block)
  {
    ShareAt(disks, ws, i);
    Off(Numbers(Share(disks, ws, Dev(disks, ws[i].block))), ShareIndex(disks, ws, i))
  }

  function PlacementOf(disks: nat, ws: seq<Write>, i: nat): Place
    requires disks > 0 && i < |ws|
  {
    Placed(disks, StartOf(disks, ws, i), OffsetOf(disks, ws, i))
  }

  lemma LandsAt(disks: nat, firsts: seq<nat>, ws: seq<Write>, i: nat) returns (k: nat)
    requires FirstSlots(disks, firsts) && i < |ws|
    ensures var cmds, p := Program(disks, firsts, ws), PlacementOf(disks, ws, i);
            Touches(cmds, k, p) && Value(cmds, k, p) == ws[i].buf
  {
    hide Program, Gather, All, BatchOf, Dev, Remap, Off;
    var q, x := Dev(disks, ws[i].block), ShareIndex(disks, ws, i);
    var s := Share(disks, ws, q);
    ShareAt(disks, ws, i);
    GatherAt(s, x);
    var a, j := BatchOf(Numbers(s), x), Off(Numbers(s), x);
    DevBound(disks, ws[i].block);
    ProgramHas(disks, firsts, ws, q, a);
    k :| 0 <= k < |Program(disks, firsts, ws)|
         && Program(disks, firsts, ws)[k] == Issue(ToDisk(disks, Requests(disks, ws, q)[a]));
  }

  lemma DevBound(disks: nat, b: nat)
    requires disks > 0
    ensures Dev(disks, b) < disks
  {
  }

  lemma LandedFrom(disks: nat, firsts: seq<nat>, ws: seq<Write>, k: nat, p: Place) returns (i: nat)
    requires FirstSlots(disks, firsts) && Touches(Program(disks, firsts, ws), k, p)
    ensures i < |ws| && p == PlacementOf(disks, ws, i) && Value(Program(disks, firsts, ws), k, p) == ws[i].buf
  {
    hide Program, Gather, All, BatchOf, Dev, Remap, Off;
    var r := Program(disks, firsts, ws)[k].req;
    ProgramIssue(disks, firsts, ws, k);
    var q :| 0 <= q < disks && From(disks, r, Requests(disks, ws, q), 0);
    var a :| 0 <= a < |Requests(disks, ws, q)| && r == ToDisk(disks, Requests(disks, ws, q)[a]);
    var s, j := Share(disks, ws, q), p.at - r.start;
    var x := GatherFrom(s, a, j);
    i := ShareFrom(disks, ws, q, x);
    ShareAt(disks, ws, i);
    GatherAt(s, x);
  }

  /** There is always some order of completion. */
  lemma SomeRun(disks: nat, firsts: seq<nat>, ws: seq<Write>, base: Contents) returns (acts: seq<Act>, h: Hw)
    requires FirstSlots(disks, firsts) && ws != []
    ensures Exec(Program(disks, firsts, ws), base, acts) == Some(h) && Over(Program(disks, firsts, ws), h)
    ensures Settled(Program(disks, firsts, ws), base, h.disk)
  {
    hide Program, Exec, Settled, PlacementOf;
    var cmds, p := Program(disks, firsts, ws), PlacementOf(disks, ws, 0);
    var k := LandsAt(disks, firsts, ws, 0);
    var n := LastExists(cmds, p, k);
    ProgramSensible(disks, firsts, ws);
    LastCanWin(cmds, n, p);
    acts, h := WinnerWins(cmds, base, n, p, Value(cmds, n, p));
    ExecOk(cmds, base, acts);
    AllLanded(h, base);
  }

  lemma LastCanWin(cmds: seq<Cmd>, n: nat, p: Place)
    requires LastFor(cmds, n, p) && Sensible(cmds)
    ensures CanWin(cmds, n, p, Value(cmds, n, p))
  {
    forall m | 0 <= m < |cmds| && Touches(cmds, m, p) ensures !Waited(cmds, n, m) {
      assert m <= n;
    }
  }

  // ----------------------------------------------------------------------
  // Writes that are not well placed
  // ----------------------------------------------------------------------

  predicate DifferentBuffers(ws: seq<Write>) {
    forall i, j :: 0 <= i < j < |ws| ==> ws[i].buf != ws[j].buf
  }

  /** The last write of a block must land at the block's home. */
  lemma LastMustBeHome(disks: nat, firsts: seq<nat>, ws: seq<Write>, j: nat)
    requires FirstSlots(disks, firsts) && DifferentBuffers(ws) && AlwaysRight(disks, firsts, ws, map[])
    requires LastWrite(Numbers(ws), j)
    ensures PlacementOf(disks, ws, j) == Home(disks, ws[j].block)
  {
    hide Program, Exec, OneAtATime, PlacementOf, Home, LastWrite;
    assert j < |ws| by { LastInside(Numbers(ws), j); }
    var cmds, p := Program(disks, firsts, ws), Home(disks, ws[j].block);
    var acts, h := SomeRun(disks, firsts, ws, map[]);
    WrittenLast(disks, map[], ws, j);
    assert SettledAt(cmds, map[], h.disk, p);
    var k :| p in h.disk && CanWin(cmds, k, p, h.disk[p]);
    var i := LandedFrom(disks, firsts, ws, k, p);
  }

  lemma LastInside(bs: seq<nat>, j: nat)
    requires LastWrite(bs, j)
    ensures j < |bs|
  {
  }

  /** No write may land where none belongs. */
  lemma MustBeSomeHome(disks: nat, firsts: seq<nat>, ws: seq<Write>, i: nat) returns (j: nat)
    requires FirstSlots(disks, firsts) && AlwaysRight(disks, firsts, ws, map[]) && i < |ws|
    ensures j < |ws| && PlacementOf(disks, ws, i) == Home(disks, ws[j].block)
  {
    hide Program, Exec, OneAtATime, PlacementOf, Home;
    var cmds, p := Program(disks, firsts, ws), PlacementOf(disks, ws, i);
    var acts, h := SomeRun(disks, firsts, ws, map[]);
    var k := LandsAt(disks, firsts, ws, i);
    assert SettledAt(cmds, map[], h.disk, p);
    if j' :| 0 <= j' < |ws| && Home(disks, ws[j'].block) == p {
      j := j';
    } else {
      WrittenNowhere(disks, map[], ws, p);
      assert false;
    }
  }

  lemma OneShare(disks: nat, ws: seq<Write>, n: nat)
    requires disks > 0 && n <= |ws| && FirstDiskOnly(disks, ws)
    ensures Share(disks, ws[..n], 0) == MappedAll(disks, ws[..n])
  {
    hide Dev;
    if n > 0 {
      OneShare(disks, ws, n - 1);
      assert ws[..n][..n - 1] == ws[..n - 1];
    }
  }

  lemma OneStart(disks: nat, ws: seq<Write>, i: nat)
    requires disks > 0 && i < |ws| && FirstDiskOnly(disks, ws)
    ensures StartOf(disks, ws, i) == RequestStart(disks, Numbers(ws), i)
  {
    OneShare(disks, ws, |ws|);
    assert ws[..|ws|] == ws;
    OneShare(disks, ws, i);
    MappedNumbers(disks, ws);
  }

  /** Right for different buffers on empty disks, the writes are well placed. */
  lemma MustBeWellPlaced(disks: nat, firsts: seq<nat>, ws: seq<Write>)
    requires FirstSlots(disks, firsts) && DifferentBuffers(ws) && AlwaysRight(disks, firsts, ws, map[])
    ensures WellPlaced(disks, Numbers(ws))
  {
    hide AlwaysRight;
    if disks > 1 {
      forall i | 0 <= i < |ws| ensures Dev(disks, ws[i].block) == 0 {
        var j := LastNearStart(disks, firsts, ws, i);
      }
      forall i | 0 <= i < |ws| ensures RequestStart(disks, Numbers(ws), i) < STRIPE {
        OneStart(disks, ws, i);
        hide RequestStart, Off, Places;
        var j := LastNearStart(disks, firsts, ws, i);
        var j' := MustBeSomeHome(disks, firsts, ws, i);
        var s := StartOf(disks, ws, i);
        FirstOfTwo(disks, s);
      }
    }
  }

  lemma FirstOfTwo(disks: nat, s: nat)
    requires disks > 1 && s < 2 * STRIPE && Dev(disks, s) == 0
    ensures s < STRIPE
  {
    assert 1 % disks == 1;
  }

  lemma LastNearStart(disks: nat, firsts: seq<nat>, ws: seq<Write>, i: nat) returns (j: nat)
    requires FirstSlots(disks, firsts) && DifferentBuffers(ws) && AlwaysRight(disks, firsts, ws, map[]) && i < |ws|
    requires disks > 1
    ensures j < |ws| && ws[j].block == ws[i].block && Dev(disks, ws[i].block) == 0
    ensures Remap(disks, ws[i].block) < STRIPE + BATCH - 1
  {
    hide Dev, Remap, AlwaysRight;
    j := LastWriteExists(Numbers(ws), i);
    LastMustBeHome(disks, firsts, ws, j);
    QueuedHomeIff(disks, ws[j].block, StartOf(disks, ws, j), OffsetOf(disks, ws, j));
  }

  // ----------------------------------------------------------------------
  // The exact condition on the blocks written
  // ----------------------------------------------------------------------

  function Zip(bs: seq<nat>, bufs: seq<Block>): (ws: seq<Write>)
    requires |bs| == |bufs|
    ensures Numbers(ws) == bs
  {
    seq(|bs|, i requires 0 <= i < |bs| => Write(bs[i], bufs[i]))
  }

  /** Whatever is written to the blocks `bs`, on whatever disks, in whatever order it is completed,
      the disks hold what one-at-a-time writes leave: exactly if there is one disk, or all blocks are
      on the first one in requests that start in its first stripe, and no block is written again
      while an earlier write of it may be under way. */
  lemma RightIff(disks: nat, firsts: seq<nat>, bs: seq<nat>)
    requires FirstSlots(disks, firsts)
    ensures (forall bufs, base :: |bufs| == |bs| ==> AlwaysRight(disks, firsts, Zip(bs, bufs), base))
            <==> WellPlaced(disks, bs) && NoRewrite(disks, firsts[0], bs)
  {
    hide AlwaysRight, WellPlaced, Together;
    if forall bufs, base :: |bufs| == |bs| ==> AlwaysRight(disks, firsts, Zip(bs, bufs), base) {
      var bufs := seq(|bs|, i requires 0 <= i < |bs| => i);
      var ws := Zip(bs, bufs);
      assert AlwaysRight(disks, firsts, ws, map[]);
      MustBeWellPlaced(disks, firsts, ws);
      RightIffNoRace(disks, firsts, ws, map[]);
      forall i, j | 0 <= i < j < |bs| && bs[i] == bs[j] && LastWrite(bs, j)
        ensures !Together(firsts[0], Places(disks, bs), i, j)
      {
        assert !Races(disks, firsts[0], ws, i, j);
      }
    }
    if WellPlaced(disks, bs) && NoRewrite(disks, firsts[0], bs) {
      forall bufs: seq<Block>, base: Contents | |bufs| == |bs| ensures AlwaysRight(disks, firsts, Zip(bs, bufs), base) {
        RightIffNoRace(disks, firsts, Zip(bs, bufs), base);
      }
    }
  }

  /** One disk, no block written twice. */
  lemma DistinctRight(firsts: seq<nat>, ws: seq<Write>, base: Contents)
    requires FirstSlots(1, firsts) && forall i, j :: 0 <= i < j < |ws| ==> ws[i].block != ws[j].block
    ensures AlwaysRight(1, firsts, ws, base)
  {
    hide AlwaysRight;
    RightIffNoRace(1, firsts, ws, base);
  }

  // ----------------------------------------------------------------------
  // Examples
  // ----------------------------------------------------------------------

  /** One disk: a block written twice before another block may keep its first value.  With only the
      two writes, that depends on the slots: the flush waits for slot 0 before it issues slot 1, but
      issues slot 0 before it waits for slot 31. */
  lemma RaceExample(base: Contents)
    ensures !AlwaysRight(1, [0], [Write(0, 1), Write(0, 2), Write(9, 3)], base)
    ensures AlwaysRight(1, [0], [Write(0, 1), Write(0, 2)], base)
    ensures !AlwaysRight(1, [31], [Write(0, 1), Write(0, 2)], base)
  {
    hide AlwaysRight, NoRace;
    var ws, ws' := [Write(0, 1), Write(0, 2), Write(9, 3)], [Write(0, 1), Write(0, 2)];
    RightIffNoRace(1, [0], ws, base);
    RightIffNoRace(1, [0], ws', base);
    RightIffNoRace(1, [31], ws', base);
    ThreeRace();
    TwoRace();
  }

  lemma ThreeRace()
    ensures !NoRace(1, 0, [Write(0, 1), Write(0, 2), Write(9, 3)])
  {
    var ws := [Write(0, 1), Write(0, 2), Write(9, 3)];
    OneDiskPlaces(Numbers(ws));
    var bs: seq<nat> := [0, 0, 9];
    assert Numbers(ws) == bs;
    assert BatchOf(bs, 1) == 1 && BatchOf(bs, 2) == 2 && OpenEnd(bs);
    assert Races(1, 0, ws, 0, 1);
  }

  lemma TwoRace()
    ensures NoRace(1, 0, [Write(0, 1), Write(0, 2)]) && !NoRace(1, 31, [Write(0, 1), Write(0, 2)])
  {
    var ws := [Write(0, 1), Write(0, 2)];
    OneDiskPlaces(Numbers(ws));
    var bs: seq<nat> := [0, 0];
    assert Numbers(ws) == bs;
    assert BatchOf(bs, 0) == 0 && BatchOf(bs, 1) == 1 && OpenEnd(bs) && CompleteRequests(bs) == 1;
    hide BatchOf, Off, CompleteRequests, OpenEnd;
    assert Races(1, 31, ws, 0, 1);
    assert !Races(1, 0, ws, 0, 1);
  }

  lemma OneDiskPlaces(bs: seq<nat>)
    ensures Places(1, bs) == bs
  {
    forall i | 0 <= i < |bs| ensures Remap(1, bs[i]) == bs[i] {
      OneDisk(bs[i]);
    }
  }

  /** A queue that has gathered one request and issued none. */
  lemma {:induction false} FlushOnly(disks: nat, cmds: seq<Cmd>, first: nat, open: Run, n: nat)
    requires disks > 0 && first < DEPTH && n <= DEPTH && open.data != []
    ensures var s' := FlushSlots(disks, Line(cmds, Fresh(first).(b := Batches([], open))), n);
            if n <= first then s' == Line(cmds, Fresh(first).(b := Batches([], open)))
            else s' == Line(cmds + [Issue(ToDisk(disks, open)), Wait(|cmds|)],
                            Fresh(first).(b := Batches([open], NoRun)))
  {
    hide ToDisk;
    if n > 0 {
      FlushOnly(disks, cmds, first, open, n - 1);
    }
  }

  /** Two disks: block 16 is written over block 0. */
  lemma CollisionExample(firsts: seq<nat>, x: Block, y: Block, base: Contents, acts: seq<Act>, h: Hw)
    requires FirstSlots(2, firsts)
    requires var cmds := Program(2, firsts, [Write(0, x), Write(16, y)]);
             Exec(cmds, base, acts) == Some(h) && Over(cmds, h)
    ensures At(h.disk, Home(2, 0)) == Some(y) && At(h.disk, Home(2, 16)) == At(base, Home(2, 16))
  {
    var ws := [Write(0, x), Write(16, y)];
    var cmds := Program(2, firsts, ws);
    CollisionProgram(firsts, x, y);
    ExecOk(cmds, base, acts);
    AllLanded(h, base);
    hide Program, Exec;
    assert Touches(cmds, 0, Home(2, 0)) && Touches(cmds, 2, Home(2, 0)) && cmds[..2][1] == Wait(0);
    assert SettledAt(cmds, base, h.disk, Home(2, 0));
    assert SettledAt(cmds, base, h.disk, Home(2, 16));
  }

  lemma CollisionProgram(firsts: seq<nat>, x: Block, y: Block)
    requires FirstSlots(2, firsts)
    ensures Program(2, firsts, [Write(0, x), Write(16, y)]) ==
            [Issue(Req(0, 0, [x])), Wait(0), Issue(Req(0, 0, [y])), Wait(2)]
  {
    hide After, Fresh, FlushSlots, ToDisk;
    CollisionSystem(firsts, x, y);
    var q0, q1 := Fresh(firsts[0]).(b := Batches([], Run(0, [x]))), Fresh(firsts[1]).(b := Batches([], Run(0, [y])));
    var sys := System([], [q0, q1]);
    FlushOnly(2, [], firsts[0], Run(0, [x]), DEPTH);
    var s1 := FlushSlots(2, Line([], q0), DEPTH);
    FlushOnly(2, s1.cmds, firsts[1], Run(0, [y]), DEPTH);
    var sys1 := FlushQueues(2, sys, 1);
    assert FlushQueues(2, sys, 0) == sys && LineAt(sys, 0) == Line([], q0);
    assert sys1 == Back(sys, 0, s1);
    assert LineAt(sys1, 1) == Line(s1.cmds, q1);
    FirstRun(x);
    FirstRun(y);
  }

  lemma FirstRun(x: Block)
    ensures ToDisk(2, Run(0, [x])) == Req(0, 0, [x])
  {
  }

  lemma CollisionSystem(firsts: seq<nat>, x: Block, y: Block)
    requires FirstSlots(2, firsts)
    ensures After(2, firsts, [Write(0, x), Write(16, y)]) ==
            System([], [Fresh(firsts[0]).(b := Batches([], Run(0, [x]))),
                        Fresh(firsts[1]).(b := Batches([], Run(0, [y])))])
  {
    var ws := [Write(0, x), Write(16, y)];
    assert ws[..1][..0] == [] && ws[..1][0] == Write(0, x);
    assert After(2, firsts, ws[..1]) ==
           System([], [Fresh(firsts[0]).(b := Batches([], Run(0, [x]))), Fresh(firsts[1])]);
  }
}
