/**
 A run of include/chainhash.hh in which lookups are not atomic: one thread looks for
 an entry under its old name and then under its new one, both between the two stores
 of a rename, and finds neither.
 */
module ChainExample {
  import opened Options
  import opened ChainMemory
  import opened DirSpec
  import opened ChainProtocol
  import opened ChainRuns

  /** The run goes on. */
  lemma Grow(l: Layout, reserved: set<Name>, run: seq<State>, step: Step, s: State)
    requires IsRun(l, reserved, run) && NextBy(l, reserved, run[|run| - 1], step, s)
    ensures IsRun(l, reserved, run + [s])
  {
    hide NextBy, Init;
    var run' := run + [s];
    forall i | 0 <= i < |run'| - 1 ensures NextState(l, reserved, run'[i], run'[i + 1]) {
      if i + 1 < |run| {
        assert NextState(l, reserved, run[i], run[i + 1]);
      } else {
        assert NextBy(l, reserved, run'[i], step, run'[i + 1]);
      }
    }
  }

  /** Thread 0 has called `c`, and only thread 1 beside it has called anything. */
  ghost predicate OnlyThese(s: State, c: Call) {
    s.threads.Keys <= {0, 1} && (0 in s.threads ==> s.threads[0].call == c)
  }

  ghost predicate AllOnlyThese(run: seq<State>, c: Call) {
    forall i :: 0 <= i < |run| ==> OnlyThese(run[i], c)
  }

  /** Thread `u` looks up a name whose bucket is empty, with no other thread in between. */
  lemma LookOnce(l: Layout, reserved: set<Name>, run: seq<State>, u: Tid, t: TableId, k: Key) returns (run': seq<State>)
    requires IsRun(l, reserved, run)
    requires var s := run[|run| - 1];
             && (u in s.threads ==> s.threads[u].pc.Done?) && |s.hist| == |run|
             && Head(s.mem, Home(l, t, k)) == 0 && 0 !in s.mem.items
    ensures IsRun(l, reserved, run') && |run'| == |run| + 3 && run < run'
    ensures var s, s' := run[|run| - 1], run'[|run'| - 1];
            && s'.mem == s.mem && s'.dir == s.dir && |s'.hist| == |run'| && s'.last == s.last
            && s'.threads == s.threads[u := Thread(Lookup(t, k), Done(Value(None)), {}, |run| - 1, None)]
    ensures forall c :: AllOnlyThese(run, c) && u == 1 ==> AllOnlyThese(run', c)
  {
    var s := run[|run| - 1];
    var th := Thread(Lookup(t, k), Enter, {}, |run| - 1, None);
    var s1 := After(s, s.mem, s.dir, u, th, s.last);
    Grow(l, reserved, run, Start(u, Lookup(t, k)), s1);
    var s2 := After(s1, s.mem, s.dir, u, th.(pc := Walk(0)), s.last);
    Grow(l, reserved, run + [s1], Move(u), s2);
    var s3 := After(s2, s.mem, s.dir, u, th.(pc := Done(Value(None))), s.last);
    Grow(l, reserved, run + [s1] + [s2], Move(u), s3);
    run' := run + [s1] + [s2] + [s3];
    assert s3.threads == s.threads[u := th.(pc := Done(Value(None)))];
  }

  /** Buckets of one entry's chain each, at the table's own address. */
  function OneBucketEach(): Layout {
    Layout(t => t, _ => 1, _ => 0)
  }

  const FULL := Mem(map[1 := Item(0, 0, 5, 7, 0)], map[0 := 1], {1}, {}, 1)
  const GONE := Mem(map[1 := Item(0, 0, 5, 7, 0)], map[0 := 0], {}, {}, 1)
  const BEFORE := Dir(map[Name(0, 5) := 7], {})
  const MOVE := Rename(1, 6, None, 0, 5, 7, None)

  lemma FullOk()
    ensures LayoutOk(OneBucketEach()) && MemOk(OneBucketEach(), FULL)
    ensures forall t, k :: Get(FULL, t, k) == Find(BEFORE, t, k)
    ensures Entry(FULL, 1, 0, 5) && !Present(FULL, 1, 6)
  {
    var l := OneBucketEach();
    assert forall x, t, k :: Entry(FULL, x, t, k) <==> x == 1 && t == 0 && k == 5;
    assert MemOk(l, FULL);
    GetEntry(l, FULL, 1, 0, 5);
  }

  lemma MovePlan()
    ensures var todo := [DoErase(Name(0, 5), 0, 1), DoPush(Name(1, 6), 7)];
            Passes(FULL, MOVE) && Plan(FULL, MOVE, todo)
  {
    FullOk();
    var todo := [DoErase(Name(0, 5), 0, 1), DoPush(Name(1, 6), 7)];
    assert Erases(FULL, todo[0], Name(0, 5));
    assert todo[2..] == [];
  }

  lemma FirstState() returns (s: State)
    ensures IsRun(OneBucketEach(), {}, [s]) && s == State(FULL, BEFORE, map[], [Snap(FULL, BEFORE, map[])], map[])
  {
    FullOk();
    s := State(FULL, BEFORE, map[], [Snap(FULL, BEFORE, map[])], map[]);
    assert Init(OneBucketEach(), {}, s);
  }

  /** The rename up to its checks. */
  lemma LockedRename() returns (run: seq<State>)
    ensures LayoutOk(OneBucketEach()) && IsRun(OneBucketEach(), {}, run) && |run| == 4 && run[0].dir == BEFORE
    ensures AllOnlyThese(run, MOVE)
    ensures var s := run[3];
            && s.mem == FULL && s.dir == BEFORE && |s.hist| == 4 && s.last == map[]
            && s.threads == map[0 := Thread(MOVE, Decide, {0, 1}, 0, None)]
  {
    hide Passes, Plan, MemOk;
    var l := OneBucketEach();
    var s0 := FirstState();
    assert LockOrder(l, MOVE) == [0, 1];
    var th := Thread(MOVE, Acquire([0, 1]), {}, 0, None);
    var s1 := After(s0, FULL, BEFORE, 0, th, map[]);
    run := [s0];
    Grow(l, {}, run, Start(0, MOVE), s1);
    hide IsRun, LockOrder;
    var s2 := After(s1, FULL, BEFORE, 0, th.(pc := Acquire([1]), held := {0}), map[]);
    assert [0, 1][1..] == [1] && {} + {0} == {0};
    Grow(l, {}, run + [s1], Take(0), s2);
    var s3 := After(s2, FULL, BEFORE, 0, th.(pc := Decide, held := {0, 1}), map[]);
    assert {0} + {1} == {0, 1} && [1][1..] == [];
    Grow(l, {}, run + [s1] + [s2], Take(0), s3);
    run := run + [s1] + [s2] + [s3];
    assert s3.threads == map[0 := th.(pc := Decide, held := {0, 1})];
  }

  /** The rename up to its first store. */
  lemma HalfRename() returns (run: seq<State>)
    ensures LayoutOk(OneBucketEach()) && IsRun(OneBucketEach(), {}, run) && |run| == 6 && run[0].dir == BEFORE
    ensures AllOnlyThese(run, MOVE)
    ensures var s := run[5];
            && s.mem == GONE && s.dir == Effect(BEFORE, MOVE) && |s.hist| == 6
            && s.threads == map[0 := Thread(MOVE, Commit([DoPush(Name(1, 6), 7)]), {0, 1}, 0, Some(4))]
  {
    hide IsRun, LayoutOk, AllOnlyThese, Passes, Plan, Effect;
    MovePlan();
    var run0 := LockedRename();
    run := FirstStore(run0, [DoErase(Name(0, 5), 0, 1), DoPush(Name(1, 6), 7)]);
  }

  lemma FirstStore(run: seq<State>, todo: seq<Todo>) returns (run': seq<State>)
    requires LayoutOk(OneBucketEach()) && IsRun(OneBucketEach(), {}, run) && |run| == 4
    requires todo == [DoErase(Name(0, 5), 0, 1), DoPush(Name(1, 6), 7)] && Passes(FULL, MOVE) && Plan(FULL, MOVE, todo)
    requires var s := run[3];
             && s.mem == FULL && s.dir == BEFORE && |s.hist| == 4 && s.last == map[]
             && s.threads == map[0 := Thread(MOVE, Decide, {0, 1}, 0, None)]
    ensures IsRun(OneBucketEach(), {}, run') && |run'| == 6 && run < run'
    ensures (AllOnlyThese(run, MOVE) ==> AllOnlyThese(run', MOVE))
    ensures var s := run'[5];
            && s.mem == GONE && s.dir == Effect(BEFORE, MOVE) && |s.hist| == 6
            && s.threads == map[0 := Thread(MOVE, Commit([DoPush(Name(1, 6), 7)]), {0, 1}, 0, Some(4))]
  {
    hide Passes, Plan, Effect, IsRun;
    var l, s := OneBucketEach(), run[3];
    var th := s.threads[0];
    var s1 := After(s, FULL, BEFORE, 0, th.(pc := Commit(todo)), map[]);
    Grow(l, {}, run, Choose(0, todo), s1);
    assert todo[1..] == [DoPush(Name(1, 6), 7)];
    assert Perform(l, FULL, todo[0]) == GONE;
    var s2 := After(s1, GONE, Effect(BEFORE, MOVE), 0,
                    th.(pc := Commit([DoPush(Name(1, 6), 7)]), commit := Some(4)), map[1 := 4]);
    Grow(l, {}, run + [s1], Apply(0), s2);
    run' := run + [s1] + [s2];
    assert s2.threads == map[0 := th.(pc := Commit([DoPush(Name(1, 6), 7)]), commit := Some(4))];
  }

  /** The directory at moment `t`, if call `c` takes effect at moment `p`. */
  function DirAt(d: Dir, c: Call, p: nat, t: nat): Dir {
    if t < p then d else Effect(d, c)
  }

  /** Lookup of `n`, called at moment `since`, returned nothing at moment `i`; with the call `c` taking
      effect at `p`, there is a moment in between at which that is right. */
  ghost predicate NothingThen(d: Dir, c: Call, p: nat, n: Name, since: nat, i: nat) {
    exists t :: since <= t <= i && Find(DirAt(d, c, p, t), n.tab, n.key) == None
  }

  lemma NoPointExplainsBoth(p: nat)
    ensures !(NothingThen(BEFORE, MOVE, p, Name(0, 5), 5, 8) && NothingThen(BEFORE, MOVE, p, Name(1, 6), 8, 11))
  {
    assert Find(BEFORE, 0, 5) == Some(7) && Find(Effect(BEFORE, MOVE), 1, 6) == Some(7);
  }

  /** A rename is the only operation that changes the directory, and thread 1 looks for the source and
      then for the destination, each time in vain: no single moment for the rename explains both. */
  lemma NeitherName() returns (l: Layout, run: seq<State>, c: Call)
    ensures LayoutOk(l) && IsRun(l, {}, run) && |run| == 12 && c.Rename? && Allowed(run[0].dir, c)
    ensures AllOnlyThese(run, c)
    ensures 1 in run[8].threads && run[8].threads[1] == Thread(Lookup(c.src, c.ksrc), Done(Value(None)), {}, 5, None)
    ensures 1 in run[11].threads && run[11].threads[1] == Thread(Lookup(c.dst, c.kdst), Done(Value(None)), {}, 8, None)
    ensures forall p :: !(NothingThen(run[0].dir, c, p, Name(c.src, c.ksrc), 5, 8)
                          && NothingThen(run[0].dir, c, p, Name(c.dst, c.kdst), 8, 11))
  {
    hide IsRun, LayoutOk, AllOnlyThese, NothingThen;
    l, c := OneBucketEach(), MOVE;
    var run0 := HalfRename();
    var run1 := LookOnce(l, {}, run0, 1, 0, 5);
    run := LookOnce(l, {}, run1, 1, 1, 6);
    assert run[8] == run1[8] && run[0] == run0[0];
    forall p: nat ensures !(NothingThen(run[0].dir, c, p, Name(c.src, c.ksrc), 5, 8)
                            && NothingThen(run[0].dir, c, p, Name(c.dst, c.kdst), 8, 11)) {
      NoPointExplainsBoth(p);
    }
  }
}
