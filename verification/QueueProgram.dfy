/**
 The commands of one disk_queue from one flush to the next, in closed form: which
 requests it has waited for when it issues another.
 */
module QueueProgram {
  import opened Options
  import opened DiskMachine
  import opened DiskBatches
  import opened DiskQueue

  /** The slot of the k-th request since the last flush, which left `first` as the slot to fill. */
  function Slot(first: nat, k: nat): (i: nat)
    ensures i < DEPTH
  {
    (first + k) % DEPTH
  }

  lemma SlotArith(first: nat, k: nat)
    ensures Slot(first, k + DEPTH) == Slot(first, k)
    ensures Slot(first, k + 1) == (Slot(first, k) + 1) % DEPTH
  {
  }

  lemma SlotsDiffer(first: nat, j: nat, k: nat)
    requires j <= k < j + DEPTH
    ensures Slot(first, j) == Slot(first, k) <==> j == k
  {
  }

  /** The position of the k-th request among the commands, before the flush. */
  function Pos(k: nat): nat {
    if k < DEPTH then k else 2 * k - DEPTH + 1
  }

  function Before(k: nat): seq<Cmd> {
    if k < DEPTH then [] else [Wait(Pos(k - DEPTH))]
  }

  /** From the second round of slots on, each request waits for the one DEPTH places back. */
  function Cmds(disks: nat, runs: seq<Run>): (cmds: seq<Cmd>)
    requires disks > 0
    ensures |cmds| + |Before(|runs|)| == Pos(|runs|)
  {
    if runs == [] then []
    else
      var n := |runs| - 1;
      Cmds(disks, runs[..n]) + Before(n) + [Issue(ToDisk(disks, runs[n]))]
  }

  lemma CmdsMore(disks: nat, runs: seq<Run>, r: Run)
    requires disks > 0
    ensures Cmds(disks, runs + [r]) == Cmds(disks, runs) + Before(|runs|) + [Issue(ToDisk(disks, r))]
  {
    assert (runs + [r])[..|runs|] == runs;
  }

  /** What the slots hold after `m` requests. */
  function DcOf(first: nat, m: nat): (dc: seq<Option<nat>>)
    ensures |dc| == DEPTH
  {
    if m == 0 then seq(DEPTH, _ => None) else DcOf(first, m - 1)[Slot(first, m - 1) := Some(Pos(m - 1))]
  }

  /** The last DEPTH requests, each in its slot. */
  lemma {:induction false} DcAt(first: nat, m: nat, k: nat)
    requires k < m <= k + DEPTH
    ensures DcOf(first, m)[Slot(first, k)] == Some(Pos(k))
  {
    if k < m - 1 {
      DcAt(first, m - 1, k);
      SlotsDiffer(first, k, m - 1);
    }
  }

  lemma {:induction false} DcFrom(first: nat, m: nat, i: nat) returns (k: nat)
    requires i < DEPTH && DcOf(first, m)[i].Some?
    ensures k < m <= k + DEPTH && Slot(first, k) == i && DcOf(first, m)[i] == Some(Pos(k))
  {
    if Slot(first, m - 1) == i {
      k := m - 1;
    } else {
      k := DcFrom(first, m - 1, i);
      SlotArith(first, k);
    }
  }

  lemma DcNext(first: nat, m: nat)
    ensures DcOf(first, m)[Slot(first, m)] == if m < DEPTH then None else Some(Pos(m - DEPTH))
  {
    hide Slot, Pos, DcOf;
    if m >= DEPTH {
      SlotArith(first, m - DEPTH);
      DcAt(first, m, m - DEPTH);
    } else if DcOf(first, m)[Slot(first, m)].Some? {
      var k := DcFrom(first, m, Slot(first, m));
      SlotsDiffer(first, k, m);
    }
  }

  /** The queue with everything it has done, when it has gathered `b`. */
  function LineOf(disks: nat, first: nat, b: Batches): (s: Line)
    requires disks > 0
    ensures QOk(s.q)
  {
    Line(Cmds(disks, b.done), Q(DcOf(first, |b.done|), Slot(first, |b.done|), b))
  }

  lemma SubmitIs(disks: nat, first: nat, b: Batches)
    requires disks > 0 && b.open.data != []
    ensures Submit(disks, LineOf(disks, first, b)) == LineOf(disks, first, Close(b))
  {
    hide Slot, Pos, Cmds, ToDisk;
    var m, s := |b.done|, LineOf(disks, first, b);
    DcNext(first, m);
    SlotArith(first, m);
    CmdsMore(disks, b.done, b.open);
    var s1 := WaitSlot(s, s.q.idx);
    assert s1.cmds == Cmds(disks, b.done) + Before(m);
    var s2 := Send(disks, s1);
    assert |s1.cmds| == Pos(m);
    assert s2.q.dc == DcOf(first, m + 1);
  }

  lemma TakeIs(disks: nat, first: nat, b: Batches, w: Write)
    requires disks > 0
    ensures Take(disks, LineOf(disks, first, b), w) == LineOf(disks, first, Next(b, w))
  {
    hide Submit, Slot, Cmds, DcOf;
    var b1 := if Gap(b, w) then Close(b) else b;
    if Gap(b, w) {
      SubmitIs(disks, first, b);
    }
    var b2 := Extend(b1, w);
    if |b2.open.data| == BATCH {
      SubmitIs(disks, first, b2);
    }
  }

  // ----------------------------------------------------------------------
  // The flush
  // ----------------------------------------------------------------------

  ghost predicate OnlyWaits(cmds: seq<Cmd>, lo: nat) {
    forall k :: lo <= k < |cmds| ==> cmds[k].Wait?
  }

  lemma FlushOther(disks: nat, s: Line, i: nat)
    requires disks > 0 && QOk(s.q) && i < DEPTH && (i != s.q.idx || s.q.b.open.data == [])
    ensures FlushOne(disks, s, i, true) == WaitSlot(s, i)
  {
  }

  /** Before it comes to the slot being filled, a flush only waits: for what is in the slots below. */
  lemma {:induction false} FlushBelow(disks: nat, s: Line, n: nat)
    requires disks > 0 && QOk(s.q) && n <= s.q.idx
    ensures var s' := FlushSlots(disks, s, n);
            && s.cmds <= s'.cmds && OnlyWaits(s'.cmds, |s.cmds|) && s'.q.b == s.q.b && s'.q.idx == s.q.idx
            && (forall i :: n <= i < DEPTH ==> s'.q.dc[i] == s.q.dc[i])
            && forall x: nat ::
                 Wait(x) in s'.cmds <==> Wait(x) in s.cmds || exists i :: 0 <= i < n && s.q.dc[i] == Some(x)
  {
    hide FlushOne;
    if n > 0 {
      FlushBelow(disks, s, n - 1);
      FlushOther(disks, FlushSlots(disks, s, n - 1), n - 1);
    }
  }

  /** Then it issues what has been gathered, if anything. */
  function Sent(disks: nat, s: Line): (s': Line)
    requires disks > 0 && QOk(s.q)
    ensures QOk(s'.q)
  {
    if s.q.b.open.data == [] then s else Send(disks, WaitSlot(s, s.q.idx))
  }

  lemma FlushIdx(disks: nat, s: Line)
    requires disks > 0 && QOk(s.q)
    ensures FlushOne(disks, s, s.q.idx, true) == WaitSlot(Sent(disks, s), s.q.idx)
    ensures Sent(disks, s).q.b.open.data == [] && Sent(disks, s).q.idx == s.q.idx
  {
  }

  /** Afterwards it waits for the rest. */
  lemma {:induction false} FlushAbove(disks: nat, s: Line, n: nat)
    requires disks > 0 && QOk(s.q) && s.q.idx < n <= DEPTH
    ensures var s2, s' := Sent(disks, FlushSlots(disks, s, s.q.idx)), FlushSlots(disks, s, n);
            s2.cmds <= s'.cmds && OnlyWaits(s'.cmds, |s2.cmds|) && s'.q.b.open.data == [] && s'.q.idx == s.q.idx
  {
    hide FlushOne, Sent;
    if n > s.q.idx + 1 {
      FlushAbove(disks, s, n - 1);
      FlushOther(disks, FlushSlots(disks, s, n - 1), n - 1);
    } else {
      FlushBelow(disks, s, s.q.idx);
      FlushIdx(disks, FlushSlots(disks, s, s.q.idx));
    }
  }

  /** All commands of the queue up to the end of the flush. */
  function Whole(disks: nat, first: nat, b: Batches): seq<Cmd>
    requires disks > 0
  {
    FlushSlots(disks, LineOf(disks, first, b), DEPTH).cmds
  }

  /** The position of the k-th request, the one issued by the flush included. */
  function PosOf(disks: nat, first: nat, b: Batches, k: nat): nat
    requires disks > 0
  {
    if k < |b.done| then Pos(k)
    else |FlushSlots(disks, LineOf(disks, first, b), Slot(first, |b.done|)).cmds| + |Before(|b.done|)|
  }

  lemma {:induction false} CmdAt(disks: nat, runs: seq<Run>, k: nat)
    requires disks > 0 && k < |runs|
    ensures Pos(k) < |Cmds(disks, runs)| && Cmds(disks, runs)[Pos(k)] == Issue(ToDisk(disks, runs[k]))
    ensures Cmds(disks, runs)[..Pos(k)] == Cmds(disks, runs[..k]) + Before(k)
    decreases |runs|
  {
    hide Pos, Before, ToDisk;
    var n := |runs| - 1;
    if k < n {
      CmdAt(disks, runs[..n], k);
      assert runs[..n][..k] == runs[..k];
      assert Cmds(disks, runs)[..Pos(k)] == Cmds(disks, runs[..n])[..Pos(k)];
    }
  }

  lemma {:induction false} CmdFrom(disks: nat, runs: seq<Run>, p: nat) returns (k: nat)
    requires disks > 0 && p < |Cmds(disks, runs)| && Cmds(disks, runs)[p].Issue?
    ensures k < |runs| && p == Pos(k)
  {
    hide Pos, ToDisk;
    var n := |runs| - 1;
    if p < |Cmds(disks, runs[..n])| {
      k := CmdFrom(disks, runs[..n], p);
    } else {
      k := n;
    }
  }

  lemma {:induction false} WaitsIn(disks: nat, runs: seq<Run>, a: nat)
    requires disks > 0
    ensures Wait(Pos(a)) in Cmds(disks, runs) <==> a + DEPTH < |runs|
  {
    if runs != [] {
      var n := |runs| - 1;
      WaitsIn(disks, runs[..n], a);
      assert Wait(Pos(a)) in Before(n) <==> n >= DEPTH && Pos(a) == Pos(n - DEPTH);
      hide Cmds;
      assert Cmds(disks, runs) == Cmds(disks, runs[..n]) + Before(n) + [Issue(ToDisk(disks, runs[n]))] by {
        CmdsMore(disks, runs[..n], runs[n]);
        assert runs == runs[..n] + [runs[n]];
      }
    }
  }

  /** The queue as it stands when a flush has come to the slot being filled. */
  lemma Halfway(disks: nat, first: nat, b: Batches)
    requires disks > 0
    ensures var s, m := LineOf(disks, first, b), |b.done|;
            var s1 := FlushSlots(disks, s, s.q.idx);
            var mid := s1.cmds + Before(m);
            && s.cmds <= s1.cmds <= mid && OnlyWaits(s1.cmds, |s.cmds|) && OnlyWaits(mid, |s.cmds|)
            && WaitSlot(s1, s.q.idx).cmds == mid
            && forall a: nat :: a < m ==> (Wait(Pos(a)) in mid <==> a + DEPTH <= m || Slot(first, a) < Slot(first, m))
  {
    hide Cmds, Slot, Pos;
    var s, m := LineOf(disks, first, b), |b.done|;
    var s1 := FlushSlots(disks, s, s.q.idx);
    FlushBelow(disks, s, s.q.idx);
    DcNext(first, m);
    var mid := s1.cmds + Before(m);
    forall a: nat | a < m ensures Wait(Pos(a)) in mid <==> a + DEPTH <= m || Slot(first, a) < Slot(first, m) {
      HalfwayAt(disks, first, b, a);
    }
  }

  lemma PosDiffer(a: nat, b: nat)
    requires Pos(a) == Pos(b)
    ensures a == b
  {
  }

  lemma HalfwayAt(disks: nat, first: nat, b: Batches, a: nat)
    requires disks > 0 && a < |b.done|
    ensures var s, m := LineOf(disks, first, b), |b.done|;
            Wait(Pos(a)) in FlushSlots(disks, s, s.q.idx).cmds + Before(m)
            <==> a + DEPTH <= m || Slot(first, a) < Slot(first, m)
  {
    hide Cmds, Slot, Pos;
    var s, m := LineOf(disks, first, b), |b.done|;
    FlushBelow(disks, s, s.q.idx);
    WaitsIn(disks, b.done, a);
    var s1 := FlushSlots(disks, s, s.q.idx);
    assert Wait(Pos(a)) in s1.cmds + Before(m) <==> Wait(Pos(a)) in s1.cmds || Wait(Pos(a)) in Before(m);
    if m <= a + DEPTH {
      DcAt(first, m, a);
      if m == a + DEPTH {
        assert Wait(Pos(a)) in Before(m);
      } else if Wait(Pos(a)) in Before(m) {
        PosDiffer(a, m - DEPTH);
      }
      if i :| 0 <= i < s.q.idx && s.q.dc[i] == Some(Pos(a)) {
        var k := DcFrom(first, m, i);
        PosDiffer(a, k);
      }
    }
  }

  /** Request `k` is where PosOf says, and no request is elsewhere. */
  lemma WholeAt(disks: nat, first: nat, b: Batches, k: nat)
    requires disks > 0 && k < |All(b)|
    ensures var p := PosOf(disks, first, b, k);
            p < |Whole(disks, first, b)| && Whole(disks, first, b)[p] == Issue(ToDisk(disks, All(b)[k]))
  {
    hide Slot, Pos, ToDisk, FlushSlots, Cmds;
    var s := LineOf(disks, first, b);
    Halfway(disks, first, b);
    FlushAbove(disks, s, DEPTH);
    if k < |b.done| {
      CmdAt(disks, b.done, k);
    } else {
      FlushBelow(disks, s, s.q.idx);
    }
  }

  lemma WholeFrom(disks: nat, first: nat, b: Batches, p: nat) returns (k: nat)
    requires disks > 0 && p < |Whole(disks, first, b)| && Whole(disks, first, b)[p].Issue?
    ensures k < |All(b)| && p == PosOf(disks, first, b, k)
  {
    hide Slot, Pos, ToDisk, FlushSlots;
    var s := LineOf(disks, first, b);
    Halfway(disks, first, b);
    FlushAbove(disks, s, DEPTH);
    if p < |s.cmds| {
      k := CmdFrom(disks, b.done, p);
    } else {
      FlushBelow(disks, s, s.q.idx);
      k := |b.done|;
    }
  }

  /** Requests are issued in order. */
  lemma PosRises(disks: nat, first: nat, b: Batches, j: nat, k: nat)
    requires disks > 0 && j < k < |All(b)|
    ensures PosOf(disks, first, b, j) < PosOf(disks, first, b, k)
  {
    Halfway(disks, first, b);
    hide FlushSlots;
    CmdAt(disks, b.done, j);
  }

  /** Before request `k` of `m` complete ones and perhaps one left for the flush, the queue has waited
      for request `j`: it is DEPTH places back, or `k` is issued by the flush and the slot of `j` comes
      before its own. */
  predicate Apart(first: nat, m: nat, j: nat, k: nat) {
    j + DEPTH <= k || (k == m && Slot(first, j) < Slot(first, k))
  }

  lemma WaitedIff(disks: nat, first: nat, b: Batches, j: nat, k: nat)
    requires disks > 0 && j < k < |All(b)|
    ensures var p, p' := PosOf(disks, first, b, j), PosOf(disks, first, b, k);
            p' <= |Whole(disks, first, b)| && (Waited(Whole(disks, first, b), p, p') <==> Apart(first, |b.done|, j, k))
  {
    hide Slot, Pos, ToDisk, FlushSlots, Cmds;
    var s, m := LineOf(disks, first, b), |b.done|;
    var whole := Whole(disks, first, b);
    WholeAt(disks, first, b, k);
    Halfway(disks, first, b);
    FlushAbove(disks, s, DEPTH);
    if k < m {
      CmdAt(disks, b.done, k);
      WaitsIn(disks, b.done[..k], j);
      assert whole[..Pos(k)] == s.cmds[..Pos(k)];
      assert Wait(Pos(j)) in Before(k) <==> j + DEPTH == k by {
        if Wait(Pos(j)) in Before(k) { PosDiffer(j, k - DEPTH); }
      }
    } else {
      var mid := FlushSlots(disks, s, s.q.idx).cmds + Before(m);
      FlushBelow(disks, s, s.q.idx);
      assert whole[..|mid|] == mid;
    }
  }
}
