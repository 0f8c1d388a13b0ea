/**
 What bmap promises over whole runs.
 */
module BlockMapRuns {
  import opened Options
  import opened BlockMap

  /** Any consistent inode that nobody is working on; other allocated blocks belong elsewhere. */
  ghost predicate Init(s: State) {
    s.threads == map[] && ShapeOk(s.tree) && OwnersOk(s) && CacheOk(s)
  }

  ghost predicate IsRun(run: seq<State>) {
    && |run| > 0 && Init(run[0])
    && forall i :: 0 <= i < |run| - 1 ==> Next(run[i], run[i + 1])
  }

  /** For example, an inode without any block. */
  lemma EmptyInode() returns (s: State)
    ensures Init(s) && IsRun([s]) && forall sl :: IsSlot(sl) ==> Value(s.tree, sl) == 0
  {
    s := State(Tree(seq(NDIRECT + 2, _ => 0), None, map[]), map[], map[]);
  }

  lemma CallStep(s: State, s': State, u: Tid, bn: nat)
    requires Inv(s) && Call(s, s', u, bn)
    ensures Inv(s')
  {
    assert ThreadOk(s', s'.threads[u]) by { FirstOk(s', bn); }
    hide Value, Entry, ThreadOk, ShapeOk;
    forall w | w in s'.threads ensures ThreadOk(s', s'.threads[w]) {
      if w != u {
        ThreadSame(s, s', s.threads[w]);
      }
    }
    forall j, b | Pending(s, j, b) ensures Pending(s', j, b) {
      var w :| w in s.threads && s.threads[w].pc == Write(j, b);
      assert s'.threads[w].pc == Write(j, b);
    }
  }

  lemma FirstOk(s: State, bn: nat)
    ensures ThreadOk(s, Thread(bn, FirstPC(bn))) && forall b :: !Holds(FirstPC(bn), b)
  {
  }

  lemma {:induction false} RunKeepsInv(run: seq<State>, i: nat)
    requires IsRun(run) && i < |run|
    ensures Inv(run[i])
  {
    if i > 0 {
      RunKeepsInv(run, i - 1);
      assert Next(run[i - 1], run[i - 1 + 1]);
      hide Inv, StepBy, Call;
      var s, s' := run[i - 1], run[i];
      if u, bn :| Call(s, s', u, bn) {
        CallStep(s, s', u, bn);
      } else {
        var u, b :| u in s.threads && StepBy(s, s', u, b);
        StepKeepsInv(s, s', u, b);
      }
    }
  }

  // ----------------------------------------------------------------------
  // Ownership
  // ----------------------------------------------------------------------

  /** At every step the blocks allocated to the inode are those in its slots and those held by
      calls in flight, and each is in one place only. */
  lemma BlocksAccounted(run: seq<State>, i: nat, b: Blk)
    requires IsRun(run) && i < |run| && (b in run[i].owner ==> !run[i].owner[b].Elsewhere?)
    ensures var s := run[i];
            && (b in s.owner <==>
                  b != 0 && ((exists sl :: IsSlot(sl) && Value(s.tree, sl) == b)
                             || exists u :: u in s.threads && Holds(s.threads[u].pc, b)))
            && (forall x, y :: IsSlot(x) && IsSlot(y) && b != 0 && Value(s.tree, x) == b == Value(s.tree, y) ==> x == y)
            && (forall u, w | u in s.threads && w in s.threads ::
                  Holds(s.threads[u].pc, b) && Holds(s.threads[w].pc, b) ==> u == w)
            && (forall u, x :: u in s.threads && Holds(s.threads[u].pc, b) && IsSlot(x) ==> Value(s.tree, x) != b)
  {
    RunKeepsInv(run, i);
    hide IsRun, Value, ShapeOk, CacheOk, ThreadOk;
  }

  /** The cached indirect entries agree with the indirect block, except where the winner of a
      compare-and-swap has yet to store its entry. */
  lemma CacheAgrees(run: seq<State>, i: nat, j: nat)
    requires IsRun(run) && i < |run| && run[i].tree.iaddrs.Some? && j < NINDIRECT
    ensures var (c, d) := (Value(run[i].tree, Ind(j)), Entry(run[i].tree, TopAt(run[i].tree, NDIRECT), j));
            c == d || (d == 0 && Pending(run[i], j, c))
  {
    RunKeepsInv(run, i);
    hide IsRun, ShapeOk, OwnersOk, ThreadOk;
  }

  // ----------------------------------------------------------------------
  // Answers
  // ----------------------------------------------------------------------

  /** A filled slot stays as it is. */
  lemma StepKeepsValue(s: State, s': State, u: Tid, b: Blk, sl: Slot)
    requires Inv(s) && u in s.threads && StepBy(s, s', u, b) && IsSlot(sl) && Value(s.tree, sl) != 0
    ensures Value(s'.tree, sl) == Value(s.tree, sl)
  {
    ThreadAt(s, u);
    var pc := s.threads[u].pc;
    match pc
    case Alloc(x) =>
      NotInSlot(s, b);
      ZeroOk(s.tree, b);
    case Cas(x, a) =>
      if Value(s.tree, x) == 0 {
        CasHeld(s, u);
        OnWayIsSlot(s.threads[u].bn, x);
        PutOk(s, x, a);
        KeepsValue(s.tree, s'.tree, Some(x), sl);
      }
    case Cache(copy) =>
      if s.tree.iaddrs.None? {
        PublishOk(s.tree, copy);
      }
    case Write(j, a) =>
      HomeIsSlot(s.threads[u].bn);
      WriteOk(s, j, a);
    case Fill(x) =>
      if Value(s.tree, x) == 0 {
        FillKeepsValue(s, s', u, b, sl);
      }
    case _ =>
  }

  lemma FillKeepsValue(s: State, s': State, u: Tid, b: Blk, sl: Slot)
    requires Inv(s) && u in s.threads && s.threads[u].pc.Fill? && StepBy(s, s', u, b) && IsSlot(sl)
    requires Value(s.tree, sl) != 0
    requires Value(s.tree, s.threads[u].pc.sl) == 0
    ensures Value(s'.tree, sl) == Value(s.tree, sl)
  {
    ThreadAt(s, u);
    var bn, x := s.threads[u].bn, s.threads[u].pc.sl;
    OnWayIsSlot(bn, x);
    NotInSlot(s, b);
    ZeroOk(s.tree, b);
    SameTree(s.tree);
    hide Value, Entry, Home, OnWay, Put, ShapeOk, Zeros, ThreadOk;
    var t := Zeroed(s.tree, x, b);
    var mid := s.(tree := t);
    ReachedStays(s.tree, t, None, bn, x);
    OwnersSame(s, mid);
    PutOk(mid, x, b);
    KeepsValue(t, s'.tree, Some(x), sl);
  }

  lemma {:induction false} ValueForever(run: seq<State>, i: nat, j: nat, sl: Slot)
    requires IsRun(run) && i <= j < |run| && IsSlot(sl) && Value(run[i].tree, sl) != 0
    ensures Value(run[j].tree, sl) == Value(run[i].tree, sl)
    decreases j
  {
    hide Value, StepBy;
    if i < j {
      ValueForever(run, i, j - 1, sl);
      RunKeepsInv(run, j - 1);
      assert Next(run[j - 1], run[j - 1 + 1]);
      var s, s' := run[j - 1], run[j];
      if u, bn :| Call(s, s', u, bn) {
      } else {
        var u, b :| u in s.threads && StepBy(s, s', u, b);
        StepKeepsValue(s, s', u, b, sl);
      }
    }
  }

  /** Every call for one block number, whenever it returns, returns the same block, and the call's
      own slot holds it from then on. */
  lemma SameAnswer(run: seq<State>, i: nat, j: nat, u: Tid, w: Tid, a: Blk, b: Blk)
    requires IsRun(run) && i <= j < |run| && u in run[i].threads && w in run[j].threads
    requires run[i].threads[u].bn == run[j].threads[w].bn
    requires run[i].threads[u].pc == Done(a) && run[j].threads[w].pc == Done(b)
    ensures a == b && a != 0 && Home(run[i].threads[u].bn).Some?
    ensures Value(run[j].tree, Home(run[i].threads[u].bn).value) == a
  {
    RunKeepsInv(run, i);
    RunKeepsInv(run, j);
    ThreadAt(run[i], u);
    ThreadAt(run[j], w);
    var bn := run[i].threads[u].bn;
    HomeIsSlot(bn);
    ValueForever(run, i, j, Home(bn).value);
  }

  // ----------------------------------------------------------------------
  // Every call ends
  // ----------------------------------------------------------------------

  /** Steps that remain once the slot is known to be filled. */
  function Base(sl: Slot): nat {
    match sl
    case Top(i) => if i == NDIRECT then 11 else if i == NDIRECT + 1 then 6 else 0
    case Ind(_) => 1
    case Dbl(_) => 3
    case Leaf(_, _) => 0
  }

  /** The call that loses the race for the indirect block checks the cache once more. */
  function Extra(sl: Slot): nat {
    if sl == Top(NDIRECT) then 1 else 0
  }

  /** An upper bound on the steps a call has left. */
  function StepsLeft(t: Tree, x: Thread): nat {
    match x.pc
    case Look(sl) => Base(sl) + (if Value(t, sl) != 0 then 1 else if Locked(sl) then 3 else 5 + Extra(sl))
    case Alloc(sl) => Base(sl) + 4 + Extra(sl)
    case Cas(sl, _) => Base(sl) + 3 + Extra(sl)
    case Free(sl, _) => Base(sl) + 2 + Extra(sl)
    case Check => if t.iaddrs.Some? then 8 else if TopAt(t, NDIRECT) != 0 then 13 else 18
    case Load(_) => 10
    case Cache(_) => 9
    case Write(_, _) => 1
    case Fill(sl) => Base(sl) + 2
    case Done(_) => 0
    case Panic => 0
  }

  lemma AtMost18(t: Tree, x: Thread)
    ensures StepsLeft(t, x) <= 18
  {
  }

  lemma OnwardEnds(t: Tree, bn: nat, sl: Slot, b: Blk)
    requires OnWay(bn, sl)
    ensures StepsLeft(t, Thread(bn, Onward(bn, sl, b))) <= Base(sl)
    ensures StepsLeft(t, Thread(bn, Won(bn, sl, b))) <= Base(sl)
  {
    hide Value;
  }

  /** Each step of a call leaves it fewer, so it returns after at most 18, however often it loses a
      race. */
  lemma OwnStepEnds(s: State, s': State, u: Tid, b: Blk)
    requires Inv(s) && u in s.threads && StepBy(s, s', u, b)
    ensures u in s'.threads && StepsLeft(s'.tree, s'.threads[u]) < StepsLeft(s.tree, s.threads[u])
  {
    ThreadAt(s, u);
    var x := s.threads[u];
    match x.pc
    case Look(sl) => LookEnds(s, s', u);
    case Cas(sl, a) =>
      if Value(s.tree, sl) == 0 {
        OnwardEnds(s'.tree, x.bn, sl, a);
      }
    case Free(sl, a) => assert Value(s.tree, sl) != 0;
    case Fill(sl) => FillEnds(s, s', u, b);
    case Check => CheckEnds(s, s', u);
    case _ =>
  }

  lemma LookEnds(s: State, s': State, u: Tid)
    requires u in s.threads && s.threads[u].pc.Look? && ThreadOk(s, s.threads[u]) && StepBy(s, s', u, 0)
    ensures u in s'.threads && StepsLeft(s'.tree, s'.threads[u]) < StepsLeft(s.tree, s.threads[u])
  {
    var x := s.threads[u];
    OnwardEnds(s.tree, x.bn, x.pc.sl, Value(s.tree, x.pc.sl));
    hide Value, Home, Onward;
  }

  lemma CheckEnds(s: State, s': State, u: Tid)
    requires u in s.threads && s.threads[u].pc.Check? && ThreadOk(s, s.threads[u]) && StepBy(s, s', u, 0)
    ensures u in s'.threads && StepsLeft(s'.tree, s'.threads[u]) < StepsLeft(s.tree, s.threads[u])
  {
    assert Value(s.tree, Top(NDIRECT)) == TopAt(s.tree, NDIRECT);
  }

  lemma FillEnds(s: State, s': State, u: Tid, b: Blk)
    requires Inv(s) && u in s.threads && s.threads[u].pc.Fill? && StepBy(s, s', u, b)
    ensures u in s'.threads && StepsLeft(s'.tree, s'.threads[u]) < StepsLeft(s.tree, s.threads[u])
  {
    ThreadAt(s, u);
    var bn, x := s.threads[u].bn, s.threads[u].pc.sl;
    OnWayIsSlot(bn, x);
    if Value(s.tree, x) == 0 {
      NotInSlot(s, b);
      ZeroOk(s.tree, b);
      SameTree(s.tree);
      hide Value, Entry, Home, OnWay, Put, ShapeOk, Zeros, ThreadOk;
      var t := Zeroed(s.tree, x, b);
      var mid := s.(tree := t);
      ReachedStays(s.tree, t, None, bn, x);
      OwnersSame(s, mid);
      PutOk(mid, x, b);
    }
  }

  /** No step of another call leaves a call more to do. */
  lemma OthersDoNotDelay(s: State, s': State, u: Tid, b: Blk, w: Tid)
    requires Inv(s) && u in s.threads && StepBy(s, s', u, b) && w in s.threads && w != u
    ensures w in s'.threads && s'.threads[w] == s.threads[w]
    ensures StepsLeft(s'.tree, s.threads[w]) <= StepsLeft(s.tree, s.threads[w])
  {
    ThreadAt(s, w);
    StaysCached(s, s', u, b);
    hide StepBy, Inv, Home;
    var x := s.threads[w];
    if x.pc.Look? {
      OnWayIsSlot(x.bn, x.pc.sl);
      if Value(s.tree, x.pc.sl) != 0 {
        StepKeepsValue(s, s', u, b, x.pc.sl);
      }
    } else if x.pc.Check? {
      if TopAt(s.tree, NDIRECT) != 0 {
        assert Value(s.tree, Top(NDIRECT)) == TopAt(s.tree, NDIRECT);
        StepKeepsValue(s, s', u, b, Top(NDIRECT));
        assert Value(s'.tree, Top(NDIRECT)) == TopAt(s'.tree, NDIRECT);
      }
    }
  }

  lemma StaysCached(s: State, s': State, u: Tid, b: Blk)
    requires u in s.threads && StepBy(s, s', u, b)
    ensures s.tree.iaddrs.Some? ==> s'.tree.iaddrs.Some?
    ensures u in s'.threads && s'.threads == s.threads[u := s'.threads[u]]
  {
    hide Value, Entry;
  }

  // ----------------------------------------------------------------------
  // Calls over runs
  // ----------------------------------------------------------------------

  ghost predicate OwnStep(s: State, s': State, u: Tid) {
    u in s.threads && exists b :: StepBy(s, s', u, b)
  }

  /** The steps thread `u` makes from moment `i` to moment `j`. */
  ghost function OwnSteps(run: seq<State>, u: Tid, i: nat, j: nat): nat
    requires i <= j < |run|
  {
    if i == j then 0 else OwnSteps(run, u, i, j - 1) + if OwnStep(run[j - 1], run[j], u) then 1 else 0
  }

  ghost predicate Begins(s: State, s': State, u: Tid) {
    exists bn :: Call(s, s', u, bn)
  }

  /** Thread `u` begins no new call from moment `i` to moment `j`. */
  ghost predicate OneCall(run: seq<State>, u: Tid, i: nat, j: nat) {
    forall k :: i <= k < j && k + 1 < |run| ==> !Begins(run[k], run[k + 1], u)
  }

  lemma OneStep(s: State, s': State, u: Tid)
    requires Inv(s) && Next(s, s') && u in s.threads && !Begins(s, s', u)
    ensures u in s'.threads
    ensures StepsLeft(s'.tree, s'.threads[u]) + (if OwnStep(s, s', u) then 1 else 0) <= StepsLeft(s.tree, s.threads[u])
  {
    hide Inv, StepBy, StepsLeft;
    if OwnStep(s, s', u) {
      var b :| StepBy(s, s', u, b);
      OwnStepEnds(s, s', u, b);
    } else if w, bn :| Call(s, s', w, bn) {
      assert w != u;
    } else {
      var w, b :| w in s.threads && StepBy(s, s', w, b);
      OthersDoNotDelay(s, s', w, b, u);
    }
  }

  lemma {:induction false} StepsAddUp(run: seq<State>, u: Tid, i: nat, j: nat)
    requires IsRun(run) && i <= j < |run| && u in run[i].threads && OneCall(run, u, i, j)
    ensures u in run[j].threads
    ensures OwnSteps(run, u, i, j) + StepsLeft(run[j].tree, run[j].threads[u])
            <= StepsLeft(run[i].tree, run[i].threads[u])
    decreases j
  {
    hide Inv, StepBy, StepsLeft, Begins, OwnStep, Next, Init;
    if i < j {
      StepsAddUp(run, u, i, j - 1);
      RunKeepsInv(run, j - 1);
      assert Next(run[j - 1], run[j - 1 + 1]);
      assert !Begins(run[j - 1], run[j - 1 + 1], u);
      OneStep(run[j - 1], run[j], u);
    }
  }

  ghost predicate CanStep(s: State, u: Tid) {
    u in s.threads && exists b, s' :: StepBy(s, s', u, b)
  }

  lemma {:induction false} FreshBlock(xs: set<Blk>) returns (b: Blk)
    ensures b != 0 && forall x :: x in xs ==> x < b
    decreases |xs|
  {
    if xs == {} {
      b := 1;
    } else {
      var x :| x in xs;
      b := FreshBlock(xs - {x});
      assert forall y :: y in xs ==> y == x || y in xs - {x};
      if b <= x {
        b := x + 1;
      }
    }
  }

  /** An unfinished call can always take a step. */
  lemma UnfinishedCanStep(s: State, u: Tid)
    requires u in s.threads && !s.threads[u].pc.Done? && !s.threads[u].pc.Panic?
    ensures CanStep(s, u)
  {
    var b := FreshBlock(s.owner.Keys);
    var t, bn, pc := s.tree, s.threads[u].bn, s.threads[u].pc;
    var s' := match pc
      case Look(sl) =>
        To(s, u, if Value(t, sl) != 0 then Onward(bn, sl, Value(t, sl)) else if Locked(sl) then Fill(sl) else Alloc(sl))
      case Alloc(sl) => To(s, u, Cas(sl, b)).(tree := Zeroed(t, sl, b), owner := s.owner[b := HeldBy(u)])
      case Cas(sl, a) =>
        if Value(t, sl) == 0 then To(s, u, Won(bn, sl, a)).(tree := Put(t, sl, a), owner := s.owner[a := InSlot(sl)])
        else To(s, u, Free(sl, a))
      case Free(sl, a) => To(s, u, if sl == Top(NDIRECT) then Check else Look(sl)).(owner := s.owner - {a})
      case Check =>
        To(s, u, if t.iaddrs.None? then Look(Top(NDIRECT)) else if Home(bn).Some? then Look(Home(bn).value) else Panic)
      case Load(a) => To(s, u, Cache(if a in t.blocks then t.blocks[a] else []))
      case Cache(copy) => To(s, u, Check).(tree := if t.iaddrs.None? then t.(iaddrs := Some(copy)) else t)
      case Write(j, a) => To(s, u, Done(a)).(tree := SetEntry(t, TopAt(t, NDIRECT), j, a))
      case Fill(sl) =>
        if Value(t, sl) == 0 then
          To(s, u, Look(sl)).(tree := Put(Zeroed(t, sl, b), sl, b), owner := s.owner[b := InSlot(sl)])
        else To(s, u, Look(sl))
      case _ => s;
    assert StepBy(s, s', u, b);
  }

  /** From its call on, a call makes at most 18 steps of its own, whatever other calls do; and as long as
      it has not returned it has made fewer and can make another. */
  lemma CallReturns(run: seq<State>, u: Tid, i: nat, j: nat)
    requires IsRun(run) && i <= j < |run| && u in run[i].threads && OneCall(run, u, i, j)
    ensures u in run[j].threads && OwnSteps(run, u, i, j) <= 18
    ensures !run[j].threads[u].pc.Done? && !run[j].threads[u].pc.Panic? ==>
              OwnSteps(run, u, i, j) < 18 && CanStep(run[j], u)
  {
    StepsAddUp(run, u, i, j);
    AtMost18(run[i].tree, run[i].threads[u]);
    hide IsRun, OwnSteps, CanStep, Value;
    if !run[j].threads[u].pc.Done? && !run[j].threads[u].pc.Panic? {
      UnfinishedCanStep(run[j], u);
    }
  }
}
