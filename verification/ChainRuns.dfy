/**
 Every step of the chainhash protocol keeps the invariant, so it holds in every
 reachable state.
 */
module ChainRuns {
  import opened Options
  import opened ChainMemory
  import opened DirSpec
  import opened ChainProtocol
  import opened ChainInvariant
  import opened ChainSteps
  import opened ChainStores

  // ----------------------------------------------------------------------
  // What holding a lock means
  // ----------------------------------------------------------------------

  lemma ThreadAt(l: Layout, reserved: set<Name>, s: State, u: Tid)
    requires Inv(l, reserved, s) && u in s.threads
    ensures ThreadOk(l, reserved, s, s.threads[u])
  {
  }

  lemma Basics(l: Layout, reserved: set<Name>, s: State)
    requires Inv(l, reserved, s)
    ensures LayoutOk(l) && HistoryOk(l, s) && DirOk(reserved, s.dir) && LocksOk(s.threads)
    ensures |s.hist| > 0 && MemOk(l, s.mem) && Agrees(Snap(s.mem, s.dir, s.threads))
  {
    assert s.hist[|s.hist| - 1] in s.hist;
  }

  /** Only the holder of a name's bucket can owe it a store. */
  lemma OwerHolds(l: Layout, reserved: set<Name>, s: State, w: Tid, n: Name, v: Option<Val>)
    requires Inv(l, reserved, s) && w in s.threads && Owes(s.threads[w], n, v)
    ensures Home(l, n.tab, n.key) in s.threads[w].held
  {
    hide HistoryOk, DirOk, LocksOk, Passes, Plan, Atomic;
    ThreadAt(l, reserved, s, w);
    var e :| e in s.threads[w].pc.todo && Targets(e, n, v);
    assert TodoOk(l, s.mem, s.threads[w].held, e);
  }

  lemma NotPending(l: Layout, reserved: set<Name>, s: State, u: Tid, n: Name)
    requires Inv(l, reserved, s) && u in s.threads && !Half(s.threads[u]) && Home(l, n.tab, n.key) in s.threads[u].held
    ensures !Pending(s.threads, n) && Find(s.dir, n.tab, n.key) == Get(s.mem, n.tab, n.key)
  {
    hide Inv, HistoryOk;
    Basics(l, reserved, s);
    forall w, v | w in s.threads ensures !Owes(s.threads[w], n, v) {
      if Owes(s.threads[w], n, v) {
        OwerHolds(l, reserved, s, w, n, v);
      }
    }
    AgreesAt(Snap(s.mem, s.dir, s.threads), n);
  }

  lemma AgreesAt(x: Snap, n: Name)
    requires Agrees(x) && !Pending(x.threads, n)
    ensures Find(x.dir, n.tab, n.key) == Get(x.mem, n.tab, n.key)
  {
  }

  ghost predicate AllLocked(l: Layout, th: Thread)
    requires LayoutOk(l)
  {
    && Mutates(th.call) && th.held == Locks(l, th.call)
    && (th.pc.Decide? || th.pc.Commit?) && th.commit.None?
  }

  lemma KillAllowedIff(l: Layout, reserved: set<Name>, s: State, u: Tid)
    requires Inv(l, reserved, s) && u in s.threads && AllLocked(l, s.threads[u]) && s.threads[u].call.Kill?
    ensures Passes(s.mem, s.threads[u].call) <==> Allowed(s.dir, s.threads[u].call)
  {
    hide Inv, HistoryOk, Get, MemOk;
    Basics(l, reserved, s);
    var c := s.threads[u].call;
    LocksOfKill(l, c);
    forall k ensures Find(s.dir, c.t, k) == Get(s.mem, c.t, k) {
      NotPending(l, reserved, s, u, Name(c.t, k));
    }
    if Passes(s.mem, c) {
      forall n | n in s.dir.entries && n.tab == c.t ensures n.key == c.k && s.dir.entries[n] == c.v {
        assert Find(s.dir, n.tab, n.key).Some?;
        PresentByGet(l, s.mem, n);
      }
    } else if Allowed(s.dir, c) {
      forall x | x in s.mem.live && x in s.mem.items && s.mem.items[x].tab == c.t
        ensures s.mem.items[x].key == c.k && s.mem.items[x].val == c.v
      {
        GetEntry(l, s.mem, x, c.t, s.mem.items[x].key);
        assert Find(s.dir, c.t, s.mem.items[x].key).Some?;
      }
    }
  }

  lemma PresentByGet(l: Layout, m: Mem, n: Name)
    requires MemOk(l, m) && Get(m, n.tab, n.key).Some?
    ensures exists x :: Entry(m, x, n.tab, n.key) && m.items[x].val == Get(m, n.tab, n.key).value
  {
  }

  /** The checks a mutator makes under its locks are the checks of the atomic operation. */
  lemma AllowedIff(l: Layout, reserved: set<Name>, s: State, u: Tid)
    requires Inv(l, reserved, s) && u in s.threads && AllLocked(l, s.threads[u])
    ensures Passes(s.mem, s.threads[u].call) <==> Allowed(s.dir, s.threads[u].call)
  {
    hide Inv, HistoryOk, Get, MemOk, LockOrder, Locks;
    Basics(l, reserved, s);
    var c := s.threads[u].call;
    LockOrderOk(l, c);
    forall n | n in NamesOf(c) ensures Find(s.dir, n.tab, n.key) == Get(s.mem, n.tab, n.key) {
      NotPending(l, reserved, s, u, n);
    }
    match c
    case Insert(t, k, _) => assert Name(t, k) in NamesOf(c);
    case Remove(t, k, _) => assert Name(t, k) in NamesOf(c);
    case Rename(dst, kdst, _, src, ksrc, _, sub) =>
      assert Name(dst, kdst) in NamesOf(c) && Name(src, ksrc) in NamesOf(c);
    case Kill(_, _, _) => KillAllowedIff(l, reserved, s, u);
  }

  // ----------------------------------------------------------------------
  // History
  // ----------------------------------------------------------------------

  lemma ErasedAfter(l: Layout, s: State, s': State, bs: set<Bkt>, x: Ptr)
    requires HistoryOk(l, s) && Tick(l, s, s', bs) && x in s'.mem.items && x !in s'.mem.live
    ensures Erased(s', x)
  {
    hide HistoryOk, MemOk;
    Now(l, s);
    assert x in s.mem.items;
    assert ItemStep(s.mem, s'.mem, x, bs);
    var next := s.mem.items[x].next;
    if x in s.mem.live {
      LinkedAt(l, s.mem, x);
      assert s'.hist[|s.hist| - 1] == s.hist[|s.hist| - 1];
      if next != 0 {
        RecentTick(l, s, s', bs, |s.hist| - 1, next);
      }
    } else {
      assert s'.hist[s.last[x]] == s.hist[s.last[x]];
      if next != 0 {
        RecentTick(l, s, s', bs, s.last[x], next);
      }
    }
  }

  lemma HistoryAfter(l: Layout, s: State, s': State, bs: set<Bkt>)
    requires HistoryOk(l, s) && Tick(l, s, s', bs) && Agrees(Snap(s'.mem, s'.dir, s'.threads))
    requires forall x :: x in s'.last ==> x in s'.mem.items && x !in s'.mem.live
    ensures HistoryOk(l, s')
  {
    forall x | x in s'.mem.items && x !in s'.mem.live ensures Erased(s', x) {
      hide HistoryOk, Tick, Erased;
      ErasedAfter(l, s, s', bs, x);
    }
    hide Erased, MemOk, Agrees;
    forall x | x in s'.hist ensures MemOk(l, x.mem) && Agrees(x) {
      assert x in s.hist || x == Snap(s'.mem, s'.dir, s'.threads);
    }
  }

  // ----------------------------------------------------------------------
  // Steps without a store
  // ----------------------------------------------------------------------

  lemma AgreesSame(x: Snap, u: Tid, th: Thread)
    requires Agrees(x) && !Half(th) && (u in x.threads ==> !Half(x.threads[u]))
    ensures Agrees(x.(threads := x.threads[u := th]))
  {
    var threads' := x.threads[u := th];
    forall w, n, v ensures w in threads' && Owes(threads'[w], n, v) <==> w in x.threads && Owes(x.threads[w], n, v) {
    }
    forall n: Name ensures Pending(threads', n) <==> Pending(x.threads, n) {
      hide Owes, Half;
    }
  }

  ghost predicate Quiet(s: State, s': State, u: Tid, th: Thread) {
    && s' == After(s, s.mem, s.dir, u, th, s.last)
    && !Half(th) && (u in s.threads ==> !Half(s.threads[u]))
    && forall w :: w in s.threads && w != u ==> th.held !! s.threads[w].held
  }

  lemma QuietTick(l: Layout, reserved: set<Name>, s: State, s': State, u: Tid, th: Thread)
    requires Inv(l, reserved, s) && Quiet(s, s', u, th)
    ensures Tick(l, s, s', {})
  {
    hide Inv;
    Basics(l, reserved, s);
    hide MemOk;
    SameStep(l, s.mem);
  }

  /** A step that stores nothing keeps the invariant if its own thread is all right after it. */
  lemma QuietStep(l: Layout, reserved: set<Name>, s: State, s': State, u: Tid, th: Thread)
    requires Inv(l, reserved, s) && Quiet(s, s', u, th) && ThreadOk(l, reserved, s', th)
    ensures Inv(l, reserved, s')
  {
    hide Inv;
    Basics(l, reserved, s);
    hide MemOk, HistoryOk, ThreadOk;
    QuietTick(l, reserved, s, s', u, th);
    AgreesSame(Snap(s.mem, s.dir, s.threads), u, th);
    hide Agrees;
    assert forall x :: x in s.last ==> x in s.mem.items && x !in s.mem.live by { LastIsErased(l, s); }
    HistoryAfter(l, s, s', {});
    forall w | w in s'.threads ensures ThreadOk(l, reserved, s', s'.threads[w]) {
      if w != u {
        ThreadAt(l, reserved, s, w);
        ThreadTick(l, reserved, s, s', {}, s.threads[w]);
      }
    }
    assert Inv(l, reserved, s') by {
      InvFrom(l, reserved, s');
    }
  }

  lemma LastIsErased(l: Layout, s: State)
    requires HistoryOk(l, s)
    ensures forall x :: x in s.last ==> x in s.mem.items && x !in s.mem.live
  {
  }

  lemma InvFrom(l: Layout, reserved: set<Name>, s: State)
    requires LayoutOk(l) && HistoryOk(l, s) && DirOk(reserved, s.dir) && LocksOk(s.threads)
    requires forall u :: u in s.threads ==> ThreadOk(l, reserved, s, s.threads[u])
    ensures Inv(l, reserved, s)
  {
  }

  /** As above, for a thread that is all right in the state before. */
  lemma QuietMove(l: Layout, reserved: set<Name>, s: State, s': State, u: Tid, th: Thread)
    requires Inv(l, reserved, s) && Quiet(s, s', u, th) && ThreadOk(l, reserved, s, th)
    ensures Inv(l, reserved, s')
  {
    hide Inv, ThreadOk;
    Basics(l, reserved, s);
    QuietTick(l, reserved, s, s', u, th);
    ThreadTick(l, reserved, s, s', {}, th);
    QuietStep(l, reserved, s, s', u, th);
  }

  lemma StartStep(l: Layout, reserved: set<Name>, s: State, s': State, u: Tid, c: Call)
    requires Inv(l, reserved, s) && NextBy(l, reserved, s, Start(u, c), s')
    ensures Inv(l, reserved, s')
  {
    hide HistoryOk, CallOk, LockOrder, DirOk;
    var th := Thread(c, FirstPC(l, c), {}, |s.hist| - 1, None);
    if c.Rename? {
      AcquireOk(l, reserved, s, th.(pc := Begin));
    }
    QuietMove(l, reserved, s, s', u, th);
  }

  lemma MoveStep(l: Layout, reserved: set<Name>, s: State, s': State, u: Tid)
    requires Inv(l, reserved, s) && NextBy(l, reserved, s, Move(u), s')
    ensures Inv(l, reserved, s')
  {
    hide HistoryOk, DirOk, ThreadOk, Advance;
    MoveOk(l, reserved, s, s.threads[u]);
    MoveIsFree(l, reserved, s, s.threads[u]);
    QuietMove(l, reserved, s, s', u, Moved(l, s, s.threads[u]));
  }

  lemma MoveIsFree(l: Layout, reserved: set<Name>, s: State, th: Thread)
    requires LayoutOk(l) && LockFree(th.pc) && ThreadOk(l, reserved, s, th)
    ensures Idle(th) && !Half(th) && !Half(Moved(l, s, th))
  {
  }

  lemma TakeOk(l: Layout, reserved: set<Name>, s: State, th: Thread)
    requires LayoutOk(l) && ThreadOk(l, reserved, s, th) && th.pc.Acquire? && |th.pc.want| > 0
    ensures var rest := th.pc.want[1..];
            ThreadOk(l, reserved, s,
                     th.(pc := if rest == [] then Decide else Acquire(rest), held := th.held + {th.pc.want[0]}))
  {
    hide CallOk, LockOrder;
    var b, rest := th.pc.want[0], th.pc.want[1..];
    assert th.pc.want == [b] + rest;
    assert th.held + {b} + (set x | x in rest) == Locks(l, th.call);
  }

  lemma TakeStep(l: Layout, reserved: set<Name>, s: State, s': State, u: Tid)
    requires Inv(l, reserved, s) && NextBy(l, reserved, s, Take(u), s')
    ensures Inv(l, reserved, s')
  {
    hide HistoryOk, CallOk, DirOk, LockOrder;
    var th := s.threads[u];
    ThreadAt(l, reserved, s, u);
    hide Inv;
    Basics(l, reserved, s);
    hide MemOk, Agrees;
    var th' := s'.threads[u];
    assert ThreadOk(l, reserved, s, th') by {
      TakeOk(l, reserved, s, th);
    }
    assert Quiet(s, s', u, th') by {
      hide ThreadOk;
    }
    QuietMove(l, reserved, s, s', u, th');
  }

  lemma DropStep(l: Layout, reserved: set<Name>, s: State, s': State, u: Tid, b: Bkt)
    requires Inv(l, reserved, s) && NextBy(l, reserved, s, Drop(u, b), s')
    ensures Inv(l, reserved, s')
  {
    hide HistoryOk, CallOk, DirOk, LockOrder, Atomic;
    ThreadAt(l, reserved, s, u);
    hide Inv;
    Basics(l, reserved, s);
    hide MemOk, Agrees;
    var th' := s'.threads[u];
    assert ThreadOk(l, reserved, s, th');
    assert Quiet(s, s', u, th') by {
      hide ThreadOk;
    }
    QuietMove(l, reserved, s, s', u, th');
  }

  lemma ChooseStep(l: Layout, reserved: set<Name>, s: State, s': State, u: Tid, todo: seq<Todo>)
    requires Inv(l, reserved, s) && NextBy(l, reserved, s, Choose(u, todo), s')
    ensures Inv(l, reserved, s')
  {
    hide HistoryOk, CallOk, DirOk, LockOrder, Passes, Plan, Locks, TodosOk, Allowed, Effect;
    ThreadAt(l, reserved, s, u);
    hide Inv;
    Basics(l, reserved, s);
    hide Agrees;
    var th, th' := s.threads[u], s'.threads[u];
    assert Quiet(s, s', u, th') by {
      hide ThreadOk;
    }
    if Passes(s.mem, th.call) {
      assert Distinct(th.call) by { DistinctOf(reserved, th.call); }
      PlanOk(l, s.mem, th.call, todo);
      assert ThreadOk(l, reserved, s, th');
      QuietMove(l, reserved, s, s', u, th');
    } else {
      AllowedIff(l, reserved, s, u);
      Now(l, s);
      assert s'.hist[|s.hist| - 1] == s.hist[|s.hist| - 1];
      LockOrderOk(l, th.call);
      SomeLock(l, th.call);
      assert ThreadOk(l, reserved, s', th');
      QuietStep(l, reserved, s, s', u, th');
    }
  }

  lemma DistinctOf(reserved: set<Name>, c: Call)
    requires CallOk(reserved, c)
    ensures Distinct(c)
  {
  }

  lemma SomeLock(l: Layout, c: Call)
    requires LayoutOk(l) && LockOrder(l, c) != []
    ensures Locks(l, c) != {}
  {
    assert LockOrder(l, c)[0] in Locks(l, c);
  }

  // ----------------------------------------------------------------------
  // Stores
  // ----------------------------------------------------------------------

  lemma TargetHome(l: Layout, m: Mem, held: set<Bkt>, todo: seq<Todo>, e: Todo, n: Name, w: Option<Val>)
    requires LayoutOk(l) && TodosOk(l, m, held, todo) && e in todo && Targets(e, n, w)
    ensures Home(l, n.tab, n.key) in held
  {
    assert TodoOk(l, m, held, e);
  }

  /** The state a store is made in, and by whom. */
  ghost predicate Storing(l: Layout, reserved: set<Name>, s: State, u: Tid) {
    && Inv(l, reserved, s) && u in s.threads && s.threads[u].pc.Commit?
  }

  lemma StorerOk(l: Layout, reserved: set<Name>, s: State, u: Tid)
    requires Storing(l, reserved, s, u)
    ensures var th := s.threads[u];
            && LayoutOk(l) && MemOk(l, s.mem) && |s.hist| > 0 && th.since < |s.hist| && CallOk(reserved, th.call)
            && CommitOk(l, s, th) && Mutates(th.call) && th.pc.todo != []
            && TodosOk(l, s.mem, th.held, th.pc.todo) && TodoOk(l, s.mem, th.held, th.pc.todo[0])
  {
    Basics(l, reserved, s);
    hide MemOk, Passes, Plan, Atomic, TodoOk, Untouched;
    ThreadAt(l, reserved, s, u);
    assert s.threads[u].pc.todo[0] in s.threads[u].pc.todo;
  }

  /** A store takes an item off its chain only by erasing it. */
  lemma StoreLeaves(l: Layout, m: Mem, held: set<Bkt>, e: Todo, last: map<Ptr, nat>, now: nat)
    requires LayoutOk(l) && MemOk(l, m) && TodoOk(l, m, held, e)
    requires forall x :: x in last ==> x in m.items && x !in m.live
    ensures var m', last' := Perform(l, m, e), if e.DoErase? then last[e.x := now] else last;
            && (forall x :: x in last ==> x in last' && last'[x] == last[x])
            && (forall x :: x in m.live && x !in m'.live ==> x in last' && last'[x] == now)
            && (forall x :: x in last' ==> x in m'.items && x !in m'.live)
  {
    hide MemOk, Present;
    if m.top + 1 in m.items {
      LinkedAt(l, m, m.top + 1);
    }
  }

  lemma StoreTick(l: Layout, reserved: set<Name>, s: State, s': State, u: Tid)
    requires Storing(l, reserved, s, u) && NextBy(l, reserved, s, Apply(u), s')
    ensures Tick(l, s, s', s.threads[u].held)
    ensures forall x :: x in s'.last ==> x in s'.mem.items && x !in s'.mem.live
  {
    hide Inv, MemOk, MemStep, HistoryOk, CommitOk, Agrees, Effect, CallOk, TodoOk, Perform, DirOk, LocksOk;
    StorerOk(l, reserved, s, u);
    Basics(l, reserved, s);
    LastIsErased(l, s);
    var th := s.threads[u];
    StoreOk(l, s.mem, th.held, th.pc.todo[0]);
    StoreLeaves(l, s.mem, th.held, th.pc.todo[0], s.last, |s.hist| - 1);
  }

  lemma RestTodosOk(l: Layout, m: Mem, held: set<Bkt>, todo: seq<Todo>)
    requires LayoutOk(l) && MemOk(l, m) && TodosOk(l, m, held, todo) && |todo| > 1
    ensures TodosOk(l, Perform(l, m, todo[0]), held, todo[1..])
    ensures forall e :: e in todo[1..] ==> !e.DoKill?
  {
    hide MemOk, TodoOk, Perform;
    var rest := todo[1..];
    assert TodoOk(l, m, held, todo[0]) by { assert todo[0] in todo; }
    forall i | 0 <= i < |rest| ensures TodoOk(l, Perform(l, m, todo[0]), held, rest[i]) && !rest[i].DoKill? {
      assert rest[i] == todo[i + 1] && todo[i + 1] in todo;
      assert InOrder(todo[0], todo[i + 1]);
      RestOk(l, m, held, todo[0], todo[i + 1]);
    }
    forall i, j | 0 <= i < j < |rest| ensures InOrder(rest[i], rest[j]) {
      assert InOrder(todo[i + 1], todo[j + 1]);
    }
  }

  /** The directory's step, made together with the first store. */
  lemma Committed(l: Layout, reserved: set<Name>, s: State, s': State, u: Tid)
    requires Storing(l, reserved, s, u) && NextBy(l, reserved, s, Apply(u), s')
    ensures var th' := s'.threads[u];
            th'.commit.Some? && Atomic(s'.hist, th'.since, |s'.hist|, th'.call, th'.commit.value, true)
    ensures DirOk(reserved, s'.dir)
  {
    hide Inv, HistoryOk, MemOk, Allowed, Effect, Passes, Plan, TodosOk, TodoOk, Agrees, DirOk, Perform, CallOk, Locks,
         MemStep;
    var th := s.threads[u];
    StoreTick(l, reserved, s, s', u);
    StorerOk(l, reserved, s, u);
    Basics(l, reserved, s);
    if th.commit.None? {
      AllowedIff(l, reserved, s, u);
      EffectOk(reserved, s.dir, th.call);
      Now(l, s);
      assert s'.hist[|s.hist| - 1] == s.hist[|s.hist| - 1];
    } else {
      HistoryTick(l, s, s', th.held, th);
    }
  }

  lemma EffectOk(reserved: set<Name>, d: Dir, c: Call)
    requires DirOk(reserved, d) && CallOk(reserved, c) && Allowed(d, c)
    ensures DirOk(reserved, Effect(d, c))
  {
    DeadStaysEmpty(d, c);
  }

  /** Names a half-done mutator has not stored to yet keep their old values. */
  lemma RestUntouched(l: Layout, m: Mem, held: set<Bkt>, d: Dir, todo: seq<Todo>, i: nat)
    requires LayoutOk(l) && MemOk(l, m) && TodosOk(l, m, held, todo) && 0 < i < |todo| && Untouched(m, d, todo[i])
    ensures Untouched(Perform(l, m, todo[0]), d, todo[i])
  {
    hide MemOk, MemStep, Get, Perform, TodoOk;
    assert todo[0] in todo && InOrder(todo[0], todo[i]);
    StoreOk(l, m, held, todo[0]);
  }

  lemma TodoUntouched(l: Layout, reserved: set<Name>, s: State, u: Tid, i: nat)
    requires Storing(l, reserved, s, u) && i < |s.threads[u].pc.todo|
    ensures var th := s.threads[u];
            th.commit.Some? ==>
              th.commit.value < |s.hist| && Untouched(s.mem, s.hist[th.commit.value].dir, th.pc.todo[i])
    ensures s.threads[u].commit.None? ==> Untouched(s.mem, s.dir, s.threads[u].pc.todo[i])
  {
    hide Inv, MemOk, Passes, Plan, Get, Find, Allowed, Effect, LockOrder, Locks;
    StorerOk(l, reserved, s, u);
    var th := s.threads[u];
    var e := th.pc.todo[i];
    if th.commit.None? && !e.DoKill? {
      var w := if e.DoErase? then None else Some(e.v);
      TargetHome(l, s.mem, th.held, th.pc.todo, e, e.n, w);
      NotPending(l, reserved, s, u, e.n);
    }
  }

  lemma StorerAfter(l: Layout, reserved: set<Name>, s: State, s': State, u: Tid)
    requires Storing(l, reserved, s, u) && NextBy(l, reserved, s, Apply(u), s')
    ensures ThreadOk(l, reserved, s', s'.threads[u])
  {
    hide Inv, MemOk, Passes, Plan, TodoOk, Allowed, Effect, Perform, CallOk, MemStep, DirOk, LockOrder, TodosOk,
         Untouched, HistoryOk;
    StorerOk(l, reserved, s, u);
    Basics(l, reserved, s);
    Now(l, s);
    StoreTick(l, reserved, s, s', u);
    Committed(l, reserved, s, s', u);
    var th, th' := s.threads[u], s'.threads[u];
    if |th.pc.todo| > 1 {
      RestTodosOk(l, s.mem, th.held, th.pc.todo);
      var rest, d := th.pc.todo[1..], s'.hist[th'.commit.value].dir;
      forall i | 0 <= i < |rest| ensures Untouched(s'.mem, d, rest[i]) {
        TodoUntouched(l, reserved, s, u, i + 1);
        assert s'.hist[th'.commit.value] == s.hist[th'.commit.value];
        RestUntouched(l, s.mem, th.held, d, th.pc.todo, i + 1);
      }
    } else {
      LockOrderOk(l, th.call);
      SomeLock(l, th.call);
    }
  }

  /** Between the first store of a plan and the last, memory catches up name by name. */
  lemma AgreesLater(l: Layout, reserved: set<Name>, s: State, s': State, u: Tid)
    requires Storing(l, reserved, s, u) && NextBy(l, reserved, s, Apply(u), s') && s.threads[u].commit.Some?
    ensures Agrees(Snap(s'.mem, s'.dir, s'.threads))
  {
    hide Inv, HistoryOk, MemOk, MemStep, Get, Perform, TodoOk, CallOk, DirOk, LocksOk, TodosOk, Atomic, Untouched;
    StorerOk(l, reserved, s, u);
    Basics(l, reserved, s);
    var th, th' := s.threads[u], s'.threads[u];
    var e, rest := th.pc.todo[0], th.pc.todo[1..];
    assert th.pc.todo == [e] + rest;
    StoreOk(l, s.mem, th.held, e);
    hide CommitOk;
    forall n, w ensures Owes(th, n, w) <==> Targets(e, n, w) || Owes(th', n, w) {
      hide Targets;
    }
    forall w, n, v | w in s'.threads && Owes(s'.threads[w], n, v) ensures Find(s'.dir, n.tab, n.key) == v {
      assert Owes(s.threads[w], n, v);
    }
    forall n: Name | !Pending(s'.threads, n) ensures Find(s'.dir, n.tab, n.key) == Get(s'.mem, n.tab, n.key) {
      hide Targets, Owes, Half;
      if w :| Targets(e, n, w) {
        assert Owes(th, n, w);
      } else {
        forall w, v | w in s.threads ensures !Owes(s.threads[w], n, v) {
          assert w in s'.threads && !Owes(s'.threads[w], n, v);
        }
        assert !Pending(s.threads, n);
      }
    }
  }

  /** What the first store of a plan does to the directory, name by name. */
  ghost predicate Carries(d: Dir, d': Dir, todo: seq<Todo>, n: Name) {
    && (forall e, w :: e in todo && Targets(e, n, w) ==> Find(d', n.tab, n.key) == w)
    && ((forall e, w :: e in todo ==> !Targets(e, n, w)) ==> Find(d', n.tab, n.key) == Find(d, n.tab, n.key))
  }

  lemma FirstCarries(l: Layout, reserved: set<Name>, s: State, u: Tid, n: Name)
    requires Storing(l, reserved, s, u) && s.threads[u].commit.None?
    ensures var th := s.threads[u];
            && Carries(s.dir, Effect(s.dir, th.call), th.pc.todo, n) && th.pc.todo != []
            && Effect(s.dir, th.call).dead ==
               if th.pc.todo[0].DoKill? then s.dir.dead + {th.pc.todo[0].t} else s.dir.dead
  {
    hide Inv, MemOk, Get, TodoOk, CallOk, Effect, Passes, Plan, Find, Targets, LockOrder, Locks, NamesOf;
    StorerOk(l, reserved, s, u);
    var th := s.threads[u];
    LockOrderOk(l, th.call);
    DistinctOf(reserved, th.call);
    forall n' | n' in NamesOf(th.call) ensures Find(s.dir, n'.tab, n'.key) == Get(s.mem, n'.tab, n'.key) {
      NotPending(l, reserved, s, u, n');
    }
    PlanIsEffect(l, s.mem, s.dir, th.call, th.pc.todo, n);
  }

  /** The first store: the directory changes at once, memory on one name. */
  lemma AgreesFirst(l: Layout, reserved: set<Name>, s: State, s': State, u: Tid)
    requires Storing(l, reserved, s, u) && NextBy(l, reserved, s, Apply(u), s') && s.threads[u].commit.None?
    ensures Agrees(Snap(s'.mem, s'.dir, s'.threads))
  {
    hide Inv, HistoryOk, MemOk, MemStep, Get, Perform, TodoOk, TodosOk, CallOk, DirOk, Effect, CommitOk, Find, Targets;
    StorerOk(l, reserved, s, u);
    Basics(l, reserved, s);
    var th, th' := s.threads[u], s'.threads[u];
    var todo := th.pc.todo;
    var e, rest := todo[0], todo[1..];
    assert todo == [e] + rest;
    StoreOk(l, s.mem, th.held, e);
    forall n ensures Carries(s.dir, s'.dir, todo, n) {
      FirstCarries(l, reserved, s, u, n);
    }
    FirstCarries(l, reserved, s, u, Name(0, 0));
    forall w, n, v | w in s'.threads && Owes(s'.threads[w], n, v) ensures Find(s'.dir, n.tab, n.key) == v {
      assert Carries(s.dir, s'.dir, todo, n);
      if w != u {
        OwerHolds(l, reserved, s, w, n, v);
        forall e, v' | e in todo ensures !Targets(e, n, v') {
          if Targets(e, n, v') {
            TargetHome(l, s.mem, th.held, todo, e, n, v');
          }
        }
      }
    }
    forall n: Name | !Pending(s'.threads, n) ensures Find(s'.dir, n.tab, n.key) == Get(s'.mem, n.tab, n.key) {
      assert Carries(s.dir, s'.dir, todo, n);
      if w :| Targets(e, n, w) {
      } else {
        forall e', v | e' in todo ensures !Targets(e', n, v) {
          assert e' == e || (Targets(e', n, v) ==> Owes(th', n, v));
        }
        forall w, v | w in s.threads ensures !Owes(s.threads[w], n, v) {
          assert w in s'.threads && (w == u || !Owes(s'.threads[w], n, v));
        }
        assert !Pending(s.threads, n);
      }
    }
  }

  lemma ApplyStep(l: Layout, reserved: set<Name>, s: State, s': State, u: Tid)
    requires Inv(l, reserved, s) && NextBy(l, reserved, s, Apply(u), s')
    ensures Inv(l, reserved, s')
  {
    hide Inv;
    assert Storing(l, reserved, s, u);
    Basics(l, reserved, s);
    StoreTick(l, reserved, s, s', u);
    Committed(l, reserved, s, s', u);
    StorerAfter(l, reserved, s, s', u);
    if s.threads[u].commit.None? {
      AgreesFirst(l, reserved, s, s', u);
    } else {
      AgreesLater(l, reserved, s, s', u);
    }
    HistoryAfter(l, s, s', s.threads[u].held);
    hide HistoryOk, MemOk, Agrees, Tick, Storing, DirOk, ThreadOk, Atomic, Effect, Perform, Untouched;
    forall w | w in s'.threads ensures ThreadOk(l, reserved, s', s'.threads[w]) {
      if w != u {
        ThreadAt(l, reserved, s, w);
        ThreadTick(l, reserved, s, s', s.threads[u].held, s.threads[w]);
      }
    }
    InvFrom(l, reserved, s');
  }

  // ----------------------------------------------------------------------
  // Runs
  // ----------------------------------------------------------------------

  /** Every step of every thread keeps the invariant. */
  lemma StepKeepsInv(l: Layout, reserved: set<Name>, s: State, step: Step, s': State)
    requires Inv(l, reserved, s) && NextBy(l, reserved, s, step, s')
    ensures Inv(l, reserved, s')
  {
    hide Inv, NextBy;
    match step
    case Start(u, c) => StartStep(l, reserved, s, s', u, c);
    case Move(u) => MoveStep(l, reserved, s, s', u);
    case Take(u) => TakeStep(l, reserved, s, s', u);
    case Choose(u, todo) => ChooseStep(l, reserved, s, s', u, todo);
    case Apply(u) => ApplyStep(l, reserved, s, s', u);
    case Drop(u, b) => DropStep(l, reserved, s, s', u, b);
  }

  lemma InitInv(l: Layout, reserved: set<Name>, s: State)
    requires LayoutOk(l) && Init(l, reserved, s)
    ensures Inv(l, reserved, s)
  {
    hide MemOk;
    forall n: Name ensures Find(s.dir, n.tab, n.key) == Get(s.mem, n.tab, n.key) {
    }
  }

  ghost predicate IsRun(l: Layout, reserved: set<Name>, run: seq<State>) {
    && LayoutOk(l) && |run| > 0 && Init(l, reserved, run[0])
    && forall i :: 0 <= i < |run| - 1 ==> NextState(l, reserved, run[i], run[i + 1])
  }

  /** The invariant holds in every state of every run. */
  lemma {:induction false} RunKeepsInv(l: Layout, reserved: set<Name>, run: seq<State>, i: nat)
    requires IsRun(l, reserved, run) && i < |run|
    ensures Inv(l, reserved, run[i])
  {
    hide Inv, NextBy, Init;
    if i == 0 {
      InitInv(l, reserved, run[0]);
    } else {
      RunKeepsInv(l, reserved, run, i - 1);
      assert NextState(l, reserved, run[i - 1], run[i - 1 + 1]);
      var step :| NextBy(l, reserved, run[i - 1], step, run[i]);
      StepKeepsInv(l, reserved, run[i - 1], step, run[i]);
    }
  }
}
