/**
 What the chainhash protocol promises its callers, for every run of any number of
 threads.
 */
module ChainTheorems {
  import opened Options
  import opened ChainMemory
  import opened DirSpec
  import opened ChainProtocol
  import opened ChainInvariant
  import opened ChainSteps
  import opened ChainStores
  import opened ChainRuns

  // ----------------------------------------------------------------------
  // The recorded history is the run
  // ----------------------------------------------------------------------

  lemma {:induction false} HistoryIsRun(l: Layout, reserved: set<Name>, run: seq<State>, i: nat, j: nat)
    requires IsRun(l, reserved, run) && j <= i < |run|
    ensures |run[i].hist| == i + 1 && run[i].hist[j] == Snap(run[j].mem, run[j].dir, run[j].threads)
    decreases i
  {
    if i == 0 {
    } else {
      HistoryIsRun(l, reserved, run, i - 1, if j < i then j else i - 1);
      assert NextState(l, reserved, run[i - 1], run[i - 1 + 1]);
      var step :| NextBy(l, reserved, run[i - 1], step, run[i]);
      StepRecords(l, reserved, run[i - 1], step, run[i]);
    }
  }

  lemma StepRecords(l: Layout, reserved: set<Name>, s: State, step: Step, s': State)
    requires LayoutOk(l) && NextBy(l, reserved, s, step, s')
    ensures s'.hist == s.hist + [Snap(s'.mem, s'.dir, s'.threads)]
  {
    hide Passes, Plan, Effect, Perform, Advance, CallOk, LockOrder;
  }

  // ----------------------------------------------------------------------
  // Results
  // ----------------------------------------------------------------------

  /** In every state, memory gives each name the value the atomic directory gives it, unless
      a half-done rename or kill has yet to store to that name; the dead flags are equal. */
  lemma MemoryIsDirectory(l: Layout, reserved: set<Name>, run: seq<State>, i: nat, n: Name)
    requires IsRun(l, reserved, run) && i < |run|
    ensures Get(run[i].mem, n.tab, n.key) == Find(run[i].dir, n.tab, n.key) || Pending(run[i].threads, n)
    ensures run[i].mem.dead == run[i].dir.dead
  {
    RunKeepsInv(l, reserved, run, i);
    hide Inv, HistoryOk, MemOk, Get;
    Basics(l, reserved, run[i]);
  }

  /** Memory is out of date on `n`: a rename or kill whose first store came before moment `since`
      has still to store another value there. */
  ghost predicate Stale(x: State, since: nat, n: Name) {
    exists u, w :: u in x.threads && Owes(x.threads[u], n, w) && x.threads[u].commit.value < since
                   && w != Get(x.mem, n.tab, n.key)
  }

  /** The value lookup returns is what memory held for its key at some moment between call and
      return; and it is the directory's value at some moment between call and return, unless
      the call began in the middle of a rename or kill of that very name. */
  lemma LookupExplained(l: Layout, reserved: set<Name>, run: seq<State>, i: nat, u: Tid, r: Option<Val>)
    requires IsRun(l, reserved, run) && i < |run| && u in run[i].threads && run[i].threads[u].pc == Done(Value(r))
    ensures var th := run[i].threads[u];
            && th.call.Lookup?
            && exists j :: th.since <= j <= i && Get(run[j].mem, th.call.t, th.call.k) == r
                 && (Seen(run, th.since, j, Name(th.call.t, th.call.k))
                     || Stale(run[j], th.since, Name(th.call.t, th.call.k)))
  {
    RunKeepsInv(l, reserved, run, i);
    ThreadAt(l, reserved, run[i], u);
    hide Inv, HistoryOk, MemOk, Get, Find, IsRun, Stale, Seen;
    var th := run[i].threads[u];
    var j :| th.since <= j < |run[i].hist| && Get(run[i].hist[j].mem, th.call.t, th.call.k) == r;
    HistoryIsRun(l, reserved, run, i, i);
    HistoryIsRun(l, reserved, run, i, j);
    SeenIffNotStale(l, reserved, run, th.since, j, Name(th.call.t, th.call.k));
  }

  /** What memory holds for `n` at moment `j`, the directory held at some moment since `since`. */
  ghost predicate Seen(run: seq<State>, since: nat, j: nat, n: Name)
    requires j < |run|
  {
    exists j' :: since <= j' <= j && Find(run[j'].dir, n.tab, n.key) == Get(run[j].mem, n.tab, n.key)
  }

  /** Exactly when a reader's value is the directory's at some moment of its call: unless memory is
      out of date on the name since before the call. */
  lemma SeenIffNotStale(l: Layout, reserved: set<Name>, run: seq<State>, since: nat, j: nat, n: Name)
    requires IsRun(l, reserved, run) && since <= j < |run|
    ensures Seen(run, since, j, n) <==> !Stale(run[j], since, n)
  {
    hide IsRun, Get, Find;
    MemoryIsDirectory(l, reserved, run, j, n);
    if Stale(run[j], since, n) {
      var u, w :| u in run[j].threads && Owes(run[j].threads[u], n, w) && run[j].threads[u].commit.value < since
                  && w != Get(run[j].mem, n.tab, n.key);
      OwesCommit(run[j].threads[u], n, w);
      forall j' | since <= j' <= j ensures Find(run[j'].dir, n.tab, n.key) == w {
        OwedSince(l, reserved, run, run[j].threads[u].commit.value, j', j, u, n, w);
        OwedInDirectory(l, reserved, run, j', u, n, w);
      }
    } else if Find(run[j].dir, n.tab, n.key) != Get(run[j].mem, n.tab, n.key) {
      var u, w :| u in run[j].threads && Owes(run[j].threads[u], n, w);
      OwesCommit(run[j].threads[u], n, w);
      OldValue(l, reserved, run, j, u, n, w);
      OwedInDirectory(l, reserved, run, j, u, n, w);
    }
  }

  /** So a lookup that is called when no half-done rename or kill owes a store to its name returns the
      directory's value at some moment of the call. */
  lemma LookupAtRest(l: Layout, reserved: set<Name>, run: seq<State>, i: nat, u: Tid, r: Option<Val>)
    requires IsRun(l, reserved, run) && i < |run| && u in run[i].threads && run[i].threads[u].pc == Done(Value(r))
    requires var th := run[i].threads[u];
             th.call.Lookup? && th.since < |run| && !Pending(run[th.since].threads, Name(th.call.t, th.call.k))
    ensures var th := run[i].threads[u];
            exists j :: th.since <= j <= i && Find(run[j].dir, th.call.t, th.call.k) == r
  {
    hide IsRun, Get, Find, Stale, Seen, Pending;
    LookupExplained(l, reserved, run, i, u, r);
    var th := run[i].threads[u];
    var n := Name(th.call.t, th.call.k);
    var j :| th.since <= j <= i && Get(run[j].mem, n.tab, n.key) == r
             && (Seen(run, th.since, j, n) || Stale(run[j], th.since, n));
    NotStaleAtRest(l, reserved, run, th.since, j, n);
    SeenAt(run, th.since, j, n);
  }

  lemma NotStaleAtRest(l: Layout, reserved: set<Name>, run: seq<State>, since: nat, j: nat, n: Name)
    requires IsRun(l, reserved, run) && since <= j < |run| && !Pending(run[since].threads, n)
    ensures !Stale(run[j], since, n)
  {
    hide IsRun, Get;
    if Stale(run[j], since, n) {
      var u, w :| u in run[j].threads && Owes(run[j].threads[u], n, w) && run[j].threads[u].commit.value < since
                  && w != Get(run[j].mem, n.tab, n.key);
      OwesCommit(run[j].threads[u], n, w);
      OwedSince(l, reserved, run, run[j].threads[u].commit.value, since, j, u, n, w);
      assert false;
    }
  }

  lemma SeenAt(run: seq<State>, since: nat, j: nat, n: Name)
    requires j < |run| && Seen(run, since, j, n)
    ensures exists j' :: since <= j' <= j && Find(run[j'].dir, n.tab, n.key) == Get(run[j].mem, n.tab, n.key)
  {
  }

  /** Mutator `w`, half-done at moment `j`, owes `n` a store, and `v` is what the directory gave `n`
      just before its first store: what it gives until its last one, if it takes effect there. */
  ghost predicate Late(run: seq<State>, j: nat, w: Tid, n: Name, v: Option<Val>)
    requires j < |run|
  {
    && w in run[j].threads && (exists x :: Owes(run[j].threads[w], n, x))
    && run[j].threads[w].commit.Some? && run[j].threads[w].commit.value < j
    && Find(run[run[j].threads[w].commit.value].dir, n.tab, n.key) == v
  }

  /** Every lookup by itself is explained, if half-done mutators may take effect at their first store
      or at their last one. */
  lemma OneLookupExplained(l: Layout, reserved: set<Name>, run: seq<State>, i: nat, u: Tid, r: Option<Val>)
    requires IsRun(l, reserved, run) && i < |run| && u in run[i].threads && run[i].threads[u].pc == Done(Value(r))
    ensures var th := run[i].threads[u];
            && th.call.Lookup?
            && exists j :: th.since <= j <= i
                 && (Find(run[j].dir, th.call.t, th.call.k) == r
                     || exists w :: Late(run, j, w, Name(th.call.t, th.call.k), r))
  {
    hide IsRun, Get, Find, Stale, Seen;
    LookupExplained(l, reserved, run, i, u, r);
    var th := run[i].threads[u];
    var n := Name(th.call.t, th.call.k);
    var j :| th.since <= j <= i && Get(run[j].mem, n.tab, n.key) == r
             && (Seen(run, th.since, j, n) || Stale(run[j], th.since, n));
    MemoryIsDirectory(l, reserved, run, j, n);
    if Find(run[j].dir, n.tab, n.key) != r {
      var w, x :| w in run[j].threads && Owes(run[j].threads[w], n, x);
      OwesCommit(run[j].threads[w], n, x);
      OldValue(l, reserved, run, j, w, n, x);
      assert Late(run, j, w, n, r);
    }
  }

  lemma OwesCommit(th: Thread, n: Name, w: Option<Val>)
    requires Owes(th, n, w)
    ensures th.commit.Some? && th.pc.Commit?
  {
  }

  lemma OwedInDirectory(l: Layout, reserved: set<Name>, run: seq<State>, j: nat, u: Tid, n: Name, w: Option<Val>)
    requires IsRun(l, reserved, run) && j < |run| && u in run[j].threads && Owes(run[j].threads[u], n, w)
    ensures Find(run[j].dir, n.tab, n.key) == w
  {
    RunKeepsInv(l, reserved, run, j);
    hide Inv, IsRun, Owes, Find;
    Basics(l, reserved, run[j]);
  }

  /** From its first store on, a mutator owes every store it still owes later. */
  lemma {:induction false} OwedSince(l: Layout, reserved: set<Name>, run: seq<State>, c: nat, j': nat, j: nat,
                                     u: Tid, n: Name, w: Option<Val>)
    requires IsRun(l, reserved, run) && c < j' <= j < |run| && u in run[j].threads
    requires Owes(run[j].threads[u], n, w) && run[j].threads[u].commit == Some(c)
    ensures u in run[j'].threads && Owes(run[j'].threads[u], n, w)
    decreases j
  {
    hide Owes, NextBy, Init;
    if j' < j {
      RunKeepsInv(l, reserved, run, j - 1);
      HistoryIsRun(l, reserved, run, j - 1, j - 1);
      assert NextState(l, reserved, run[j - 1], run[j - 1 + 1]);
      var step :| NextBy(l, reserved, run[j - 1], step, run[j]);
      OwedBefore(l, reserved, run[j - 1], step, run[j], c, u, n, w);
      OwedSince(l, reserved, run, c, j', j - 1, u, n, w);
    }
  }

  lemma OwedBefore(l: Layout, reserved: set<Name>, s: State, step: Step, s': State, c: nat, u: Tid, n: Name,
                   w: Option<Val>)
    requires Inv(l, reserved, s) && NextBy(l, reserved, s, step, s') && c < |s.hist| - 1
    requires u in s'.threads && Owes(s'.threads[u], n, w) && s'.threads[u].commit == Some(c)
    ensures u in s.threads && Owes(s.threads[u], n, w) && s.threads[u].commit == Some(c)
  {
    hide HistoryOk, DirOk, LocksOk, CallOk, Passes, Plan, LockOrder, Effect, Perform, Advance, Targets;
    if step.u == u && u in s.threads {
      ThreadAt(l, reserved, s, u);
      hide Inv;
      OnlyApplyOwes(l, reserved, s, step, s');
      var todo := s.threads[u].pc.todo;
      assert forall e :: e in todo[1..] ==> e in todo;
    } else {
      hide Inv;
    }
  }

  /** A thread that owes stores after a step owed them before: it has just made one. */
  lemma OnlyApplyOwes(l: Layout, reserved: set<Name>, s: State, step: Step, s': State)
    requires LayoutOk(l) && NextBy(l, reserved, s, step, s') && step.u in s.threads
    requires ThreadOk(l, reserved, s, s.threads[step.u])
    requires step.u in s'.threads && Half(s'.threads[step.u]) && s'.threads[step.u].commit.value < |s.hist| - 1
    ensures step.Apply? && s.threads[step.u].pc.Commit? && s.threads[step.u].commit == s'.threads[step.u].commit
    ensures |s.threads[step.u].pc.todo| > 0 && s'.threads[step.u].pc.todo == s.threads[step.u].pc.todo[1..]
  {
    hide CallOk, Passes, Plan, LockOrder, Effect, Perform, Advance, CommitOk, DoneOk;
  }

  /** A name still owed a store has the value the directory gave it just before the mutator's
      first store. */
  lemma OldValue(l: Layout, reserved: set<Name>, run: seq<State>, j: nat, w: Tid, n: Name, v: Option<Val>)
    requires IsRun(l, reserved, run) && j < |run| && w in run[j].threads && Owes(run[j].threads[w], n, v)
    ensures var c := run[j].threads[w].commit.value;
            c < j && Get(run[j].mem, n.tab, n.key) == Find(run[c].dir, n.tab, n.key)
  {
    RunKeepsInv(l, reserved, run, j);
    ThreadAt(l, reserved, run[j], w);
    hide Inv, HistoryOk, MemOk, Get, Find, IsRun, TodosOk;
    HistoryIsRun(l, reserved, run, j, j);
    HistoryIsRun(l, reserved, run, j, run[j].threads[w].commit.value);
    var e :| e in run[j].threads[w].pc.todo && Targets(e, n, v);
  }

  /** Checks that failed on memory at moment `j` of a call would have failed on the directory
      at some moment of the call, unless it began in the middle of a rename or kill of a name
      it looked at. */
  lemma RefusalExplained(l: Layout, reserved: set<Name>, run: seq<State>, since: nat, j: nat, c: Call)
    requires IsRun(l, reserved, run) && since <= j < |run|
    requires (c.Insert? || c.Remove? || c.Kill?) && !Passes(run[j].mem, c)
    ensures (exists j' :: since <= j' <= j && !Allowed(run[j'].dir, c))
            || exists n: Name :: n.tab == c.t && (c.Kill? || n.key == c.k) && Stale(run[j], since, n)
  {
    RunKeepsInv(l, reserved, run, j);
    hide Inv, HistoryOk, MemOk, IsRun, Get, Stale;
    Basics(l, reserved, run[j]);
    var m, d := run[j].mem, run[j].dir;
    if c.t !in d.dead {
      var n := Name(c.t, c.k);
      if c.Kill? {
        var x :| x in m.live && x in m.items && m.items[x].tab == c.t
                 && (m.items[x].key != c.k || m.items[x].val != c.v);
        n := Name(c.t, m.items[x].key);
        GetEntry(l, m, x, c.t, n.key);
      }
      SeenIffNotStale(l, reserved, run, since, j, n);
      if !Stale(run[j], since, n) {
        var j' :| since <= j' <= j && Find(run[j'].dir, n.tab, n.key) == Get(m, n.tab, n.key);
        assert !Allowed(run[j'].dir, c);
      }
    }
  }

  /** A mutator that went through its locks acts on the directory in one atomic step between
      call and return: it succeeds exactly if the atomic operation is allowed there, and then
      has exactly its effect.  One that gave up before locking would have been refused by the
      atomic operation at some moment of the call, unless it began in the middle of a rename or
      kill of a name it looked at. */
  lemma MutatorExplained(l: Layout, reserved: set<Name>, run: seq<State>, i: nat, u: Tid, ok: bool)
    requires IsRun(l, reserved, run) && i < |run| && u in run[i].threads && run[i].threads[u].pc == Done(Outcome(ok))
    ensures var th := run[i].threads[u];
            && Mutates(th.call)
            && match th.commit
               case Some(j) =>
                 && th.since <= j < i && (ok <==> Allowed(run[j].dir, th.call))
                 && run[j + 1].dir == if ok then Effect(run[j].dir, th.call) else run[j].dir
               case None =>
                 && !ok && !th.call.Rename?
                 && ((exists j :: th.since <= j <= i && !Allowed(run[j].dir, th.call))
                     || exists j, n: Name :: th.since <= j <= i && n.tab == th.call.t
                          && (th.call.Kill? || n.key == th.call.k) && Stale(run[j], th.since, n))
  {
    hide Inv, HistoryOk, MemOk, IsRun, Passes, Allowed, Effect, CallOk, Stale;
    RunKeepsInv(l, reserved, run, i);
    ThreadAt(l, reserved, run[i], u);
    var th := run[i].threads[u];
    HistoryIsRun(l, reserved, run, i, i);
    match th.commit
    case Some(j) =>
      HistoryIsRun(l, reserved, run, i, j);
      HistoryIsRun(l, reserved, run, i, j + 1);
    case None =>
      var j :| th.since <= j < |run[i].hist| && !Passes(run[i].hist[j].mem, th.call);
      HistoryIsRun(l, reserved, run, i, j);
      RefusalExplained(l, reserved, run, th.since, j, th.call);
  }

  /** The directory changes only by allowed operations, each between its call and its return,
      and each call changes it at most once. */
  lemma DirectoryStep(l: Layout, reserved: set<Name>, run: seq<State>, i: nat)
    requires IsRun(l, reserved, run) && i + 1 < |run| && run[i + 1].dir != run[i].dir
    ensures exists u :: u in run[i].threads && u in run[i + 1].threads
                        && run[i].threads[u].commit.None? && run[i + 1].threads[u].commit == Some(i)
                        && run[i].threads[u].since <= i && Allowed(run[i].dir, run[i].threads[u].call)
                        && run[i + 1].dir == Effect(run[i].dir, run[i].threads[u].call)
  {
    hide Inv, Passes, Plan, Perform, Advance, CallOk, LockOrder, Allowed, Effect, HistoryOk, TodosOk, TodoOk, MemOk,
         Init;
    var s, s' := run[i], run[i + 1];
    RunKeepsInv(l, reserved, run, i);
    HistoryIsRun(l, reserved, run, i, i);
    assert NextState(l, reserved, run[i], run[i + 1]);
    hide IsRun;
    var step :| NextBy(l, reserved, s, step, s');
    assert step.Apply?;
    StorerOk(l, reserved, s, step.u);
    AllowedIff(l, reserved, s, step.u);
  }

  // ----------------------------------------------------------------------
  // Where full atomicity stops: readers can see a rename half-done
  // ----------------------------------------------------------------------

  /** After the first store of a rename a lock-free reader sees source and destination as they
      never are in the atomic directory: both gone, or both there.  What it sees is the state
      before the rename exactly if the destination already held the source's value; it is
      never the state after. */
  lemma HalfDoneRename(l: Layout, m: Mem, c: Call, todo: seq<Todo>)
    requires LayoutOk(l) && MemOk(l, m) && c.Rename? && Distinct(c) && Passes(m, c) && Plan(m, c, todo)
    ensures var m' := Perform(l, m, todo[0]);
            var (src, dst) := (Get(m', c.src, c.ksrc), Get(m', c.dst, c.kdst));
            && (if c.vpdst.Some? then src == dst == Some(c.vsrc) else src == dst == None)
            && (src == Get(m, c.src, c.ksrc) && dst == Get(m, c.dst, c.kdst) <==> c.vpdst == Some(c.vsrc))
            && !(src == None && dst == Some(c.vsrc))
  {
    PlanOk(l, m, c, todo);
    assert todo[0] in todo;
    StoreOk(l, m, Locks(l, c), todo[0]);
    hide MemOk, MemStep, Perform, TodosOk;
    if Present(m, c.dst, c.kdst) {
      assert Targets(todo[0], Name(c.dst, c.kdst), Some(c.vsrc));
      assert forall w :: !Targets(todo[0], Name(c.src, c.ksrc), w);
    } else {
      assert Targets(todo[0], Name(c.src, c.ksrc), None);
      assert forall w :: !Targets(todo[0], Name(c.dst, c.kdst), w);
    }
  }

  /** A rename over an existing destination, without a subdirectory: until its erase every name but the
      destination has its old value, and the erase completes it.  The destination's value is stored inside
      a write section that lasts until both stores are made, so for readers that wait for the section to
      end the rename takes effect at its erase. */
  lemma OverwriteAtErase(l: Layout, m: Mem, c: Call, todo: seq<Todo>)
    requires LayoutOk(l) && MemOk(l, m) && c.Rename? && Distinct(c) && Passes(m, c) && Plan(m, c, todo)
    requires c.vpdst.Some? && c.sub.None?
    ensures |todo| == 2
    ensures var m1 := Perform(l, m, todo[0]);
            forall n: Name :: n != Name(c.dst, c.kdst) ==> Get(m1, n.tab, n.key) == Get(m, n.tab, n.key)
    ensures var m2 := Perform(l, Perform(l, m, todo[0]), todo[1]);
            forall n: Name ::
              Get(m2, n.tab, n.key) ==
              if n == Name(c.src, c.ksrc) then None
              else if n == Name(c.dst, c.kdst) then Some(c.vsrc) else Get(m, n.tab, n.key)
  {
    var src, dst := Name(c.src, c.ksrc), Name(c.dst, c.kdst);
    PlanOk(l, m, c, todo);
    assert todo[2..] == [] && todo[0] in todo && todo[1] in todo;
    var m1 := Perform(l, m, todo[0]);
    StoreOk(l, m, Locks(l, c), todo[0]);
    RestOk(l, m, Locks(l, c), todo[0], todo[1]);
    StoreOk(l, m1, Locks(l, c), todo[1]);
    assert Targets(todo[0], dst, Some(c.vsrc)) && Targets(todo[1], src, None);
    assert forall n, w :: n != dst ==> !Targets(todo[0], n, w);
    assert forall n, w :: n != src ==> !Targets(todo[1], n, w);
    hide MemOk, MemStep, Perform, TodosOk, Get, Locks;
  }

  /** After the first store of a kill the table is dead, and a reader still finds its last entry. */
  lemma HalfDoneKill(l: Layout, m: Mem, c: Call, todo: seq<Todo>)
    requires LayoutOk(l) && MemOk(l, m) && c.Kill? && Passes(m, c) && Plan(m, c, todo)
    ensures var m' := Perform(l, m, todo[0]);
            c.t in m'.dead && Get(m', c.t, c.k) == Get(m, c.t, c.k) == Some(c.v)
  {
    PlanOk(l, m, c, todo);
    assert todo[0] in todo;
    StoreOk(l, m, Locks(l, c), todo[0]);
    GetEntry(l, m, todo[1].x, c.t, c.k);
    hide MemOk, MemStep, TodosOk;
    assert forall w :: !Targets(todo[0], Name(c.t, c.k), w);
  }

  /** For example: one entry, renamed into another table, is in neither after the first store. */
  lemma HalfDoneExample() returns (l: Layout, m: Mem, c: Call, todo: seq<Todo>)
    ensures LayoutOk(l) && MemOk(l, m) && c.Rename? && Distinct(c) && Passes(m, c) && Plan(m, c, todo)
    ensures Get(m, c.src, c.ksrc).Some?
    ensures Get(Perform(l, m, todo[0]), c.src, c.ksrc) == None && Get(Perform(l, m, todo[0]), c.dst, c.kdst) == None
  {
    l := Layout(t => t, _ => 1, _ => 0);
    m := Mem(map[1 := Item(0, 0, 5, 7, 0)], map[0 := 1], {1}, {}, 1);
    c := Rename(1, 6, None, 0, 5, 7, None);
    todo := [DoErase(Name(0, 5), 0, 1), DoPush(Name(1, 6), 7)];
    assert forall x, t, k :: Entry(m, x, t, k) <==> x == 1 && t == 0 && k == 5;
    assert MemOk(l, m);
    GetEntry(l, m, 1, 0, 5);
    assert Erases(m, todo[0], Name(0, 5)) by { assert Entry(m, 1, 0, 5); }
    assert todo[2..] == [];
    HalfDoneRename(l, m, c, todo);
  }

  // ----------------------------------------------------------------------
  // Killed tables
  // ----------------------------------------------------------------------

  /** Once killed, a table stays killed. */
  lemma {:induction false} DeadForever(l: Layout, reserved: set<Name>, run: seq<State>, i: nat, j: nat, t: TableId)
    requires IsRun(l, reserved, run) && i <= j < |run| && t in run[i].mem.dead
    ensures t in run[j].mem.dead
    decreases j
  {
    if i < j {
      DeadForever(l, reserved, run, i, j - 1, t);
      assert NextState(l, reserved, run[j - 1], run[j - 1 + 1]);
      var step :| NextBy(l, reserved, run[j - 1], step, run[j]);
      hide Passes, Plan, Effect, Advance, CallOk, LockOrder, Init;
    }
  }

  /** In every later state a killed table holds no name, and nothing on its chains but the last
      entry its killer is just about to unlink. */
  lemma DeadIsEmpty(l: Layout, reserved: set<Name>, run: seq<State>, i: nat, j: nat, t: TableId, k: Key)
    requires IsRun(l, reserved, run) && i <= j < |run| && t in run[i].mem.dead
    ensures Find(run[j].dir, t, k) == None
    ensures Present(run[j].mem, t, k) ==>
              exists u, e :: u in run[j].threads && Half(run[j].threads[u]) && e in run[j].threads[u].pc.todo
                             && e.DoErase? && e.n == Name(t, k)
  {
    DeadForever(l, reserved, run, i, j, t);
    RunKeepsInv(l, reserved, run, j);
    MemoryIsDirectory(l, reserved, run, j, Name(t, k));
    hide Inv, HistoryOk, MemOk, IsRun;
    Basics(l, reserved, run[j]);
    assert Find(run[j].dir, t, k) == None;
    if Present(run[j].mem, t, k) {
      var u, w :| u in run[j].threads && Owes(run[j].threads[u], Name(t, k), w);
      var e :| e in run[j].threads[u].pc.todo && Targets(e, Name(t, k), w);
    }
  }

  // ----------------------------------------------------------------------
  // Progress
  // ----------------------------------------------------------------------

  ghost predicate CanStep(l: Layout, reserved: set<Name>, s: State, u: Tid)
    requires LayoutOk(l)
  {
    exists step: Step, s': State :: step.u == u && !step.Start? && NextBy(l, reserved, s, step, s')
  }

  lemma LockedCanStep(l: Layout, reserved: set<Name>, s: State, u: Tid)
    requires Inv(l, reserved, s) && u in s.threads
    requires !s.threads[u].pc.Done? && !s.threads[u].pc.Acquire?
    ensures CanStep(l, reserved, s, u)
  {
    hide CanStep, HistoryOk, CallOk, Passes, Plan, LockOrder, DirOk, LocksOk;
    ThreadAt(l, reserved, s, u);
    hide Inv;
    Basics(l, reserved, s);
    hide MemOk, Agrees;
    var th := s.threads[u];
    if LockFree(th.pc) {
      MoverCanStep(l, reserved, s, u);
    } else if th.pc.Decide? {
      DeciderCanStep(l, reserved, s, u);
    } else if th.pc.Commit? {
      StorerCanStep(l, reserved, s, u);
    } else {
      ReleaserCanStep(l, reserved, s, u);
    }
  }

  lemma MoverCanStep(l: Layout, reserved: set<Name>, s: State, u: Tid)
    requires LayoutOk(l) && u in s.threads && LockFree(s.threads[u].pc)
    ensures CanStep(l, reserved, s, u)
  {
    hide Advance;
    var th := s.threads[u];
    var s' := After(s, s.mem, s.dir, u, th.(pc := Advance(l, s.mem, th.call, th.pc)), s.last);
    assert NextBy(l, reserved, s, Move(u), s');
  }

  lemma StorerCanStep(l: Layout, reserved: set<Name>, s: State, u: Tid)
    requires LayoutOk(l) && u in s.threads && s.threads[u].pc.Commit? && s.threads[u].pc.todo != [] && |s.hist| > 0
    ensures CanStep(l, reserved, s, u)
  {
    hide Perform, Effect;
    var th := s.threads[u];
    var e, rest := th.pc.todo[0], th.pc.todo[1..];
    var s' := After(s, Perform(l, s.mem, e), if th.commit.None? then Effect(s.dir, th.call) else s.dir, u,
                    th.(pc := if rest == [] then Release(true) else Commit(rest),
                        commit := if th.commit.None? then Some(|s.hist| - 1) else th.commit),
                    if e.DoErase? then s.last[e.x := |s.hist| - 1] else s.last);
    assert NextBy(l, reserved, s, Apply(u), s');
  }

  lemma ReleaserCanStep(l: Layout, reserved: set<Name>, s: State, u: Tid)
    requires LayoutOk(l) && u in s.threads && s.threads[u].pc.Release? && s.threads[u].held != {}
    ensures CanStep(l, reserved, s, u)
  {
    var th := s.threads[u];
    var b :| b in th.held;
    var held := th.held - {b};
    var s' := After(s, s.mem, s.dir, u,
                    th.(pc := if held == {} then Done(Outcome(th.pc.ok)) else th.pc, held := held), s.last);
    assert NextBy(l, reserved, s, Drop(u, b), s');
  }

  /** Once all locks are held the operation goes through: in particular remove_and_kill always
      finds its entry at the front of the bucket. */
  lemma DeciderCanStep(l: Layout, reserved: set<Name>, s: State, u: Tid)
    requires Inv(l, reserved, s) && u in s.threads && s.threads[u].pc.Decide?
    ensures CanStep(l, reserved, s, u)
  {
    hide CanStep, HistoryOk, CallOk, Passes, Plan, LockOrder, Effect, Allowed;
    ThreadAt(l, reserved, s, u);
    hide Inv;
    Basics(l, reserved, s);
    hide MemOk, Agrees, DirOk, LocksOk;
    var th := s.threads[u];
    var todo := [];
    if Passes(s.mem, th.call) {
      if th.call.Kill? {
        KillFindsEntry(l, reserved, s, u);
      }
      todo := PlanExists(l, s.mem, th.call);
    }
    ChooserCanStep(l, reserved, s, u, todo);
  }

  lemma ChooserCanStep(l: Layout, reserved: set<Name>, s: State, u: Tid, todo: seq<Todo>)
    requires LayoutOk(l) && u in s.threads && s.threads[u].pc.Decide? && |s.hist| > 0
    requires Passes(s.mem, s.threads[u].call) ==> Plan(s.mem, s.threads[u].call, todo)
    ensures CanStep(l, reserved, s, u)
  {
    hide Passes, Plan;
    var th := s.threads[u];
    var th' := if Passes(s.mem, th.call) then th.(pc := Commit(todo))
               else th.(pc := Release(false), commit := Some(|s.hist| - 1));
    assert NextBy(l, reserved, s, Choose(u, todo), After(s, s.mem, s.dir, u, th', s.last));
  }

  lemma KillFindsEntry(l: Layout, reserved: set<Name>, s: State, u: Tid)
    requires Inv(l, reserved, s) && u in s.threads && s.threads[u].pc.Decide?
    requires s.threads[u].call.Kill? && Passes(s.mem, s.threads[u].call)
    ensures Present(s.mem, s.threads[u].call.t, s.threads[u].call.k)
  {
    hide HistoryOk, LockOrder, Effect;
    ThreadAt(l, reserved, s, u);
    hide Inv;
    Basics(l, reserved, s);
    hide MemOk, Agrees;
    var c := s.threads[u].call;
    AllowedIff(l, reserved, s, u);
    LockOrderOk(l, c);
    assert Name(c.t, c.k) in NamesOf(c);
    NotPending(l, reserved, s, u, Name(c.t, c.k));
  }

  /** Among waiting threads, one that waits for the highest address. */
  lemma {:induction false} HighestWaiter(threads: map<Tid, Thread>, us: set<Tid>) returns (u: Tid)
    requires us != {} && forall w :: w in us ==> w in threads && threads[w].pc.Acquire? && threads[w].pc.want != []
    ensures u in us && forall w :: w in us ==> threads[w].pc.want[0] <= threads[u].pc.want[0]
    decreases |us|
  {
    u :| u in us;
    var rest := us - {u};
    assert forall w :: w in us ==> w == u || w in rest;
    if rest != {} {
      var v := HighestWaiter(threads, rest);
      if threads[u].pc.want[0] < threads[v].pc.want[0] {
        u := v;
      }
    }
  }

  /** No deadlock: while any call is unfinished, some unfinished call can take a step. */
  lemma NoDeadlock(l: Layout, reserved: set<Name>, run: seq<State>, i: nat, u: Tid)
    requires IsRun(l, reserved, run) && i < |run| && u in run[i].threads && !run[i].threads[u].pc.Done?
    ensures exists w :: w in run[i].threads && !run[i].threads[w].pc.Done? && CanStep(l, reserved, run[i], w)
  {
    RunKeepsInv(l, reserved, run, i);
    hide IsRun;
    SomeoneSteps(l, reserved, run[i], u);
  }

  lemma WaiterOk(l: Layout, reserved: set<Name>, s: State, w: Tid)
    requires Inv(l, reserved, s) && w in s.threads
    ensures var th := s.threads[w];
            && (th.pc.Done? ==> th.held == {})
            && (th.pc.Acquire? ==> th.pc.want != [] && forall b :: b in th.held ==> b < th.pc.want[0])
  {
    ThreadAt(l, reserved, s, w);
  }

  lemma SomeoneSteps(l: Layout, reserved: set<Name>, s: State, u: Tid)
    requires Inv(l, reserved, s) && u in s.threads && !s.threads[u].pc.Done?
    ensures LayoutOk(l) && exists w :: w in s.threads && !s.threads[w].pc.Done? && CanStep(l, reserved, s, w)
  {
    hide Inv, CanStep;
    Basics(l, reserved, s);
    hide HistoryOk, MemOk, Agrees, DirOk;
    if w :| w in s.threads && !s.threads[w].pc.Done? && !s.threads[w].pc.Acquire? {
      LockedCanStep(l, reserved, s, w);
    } else {
      forall w | w in s.threads
        ensures s.threads[w].pc.Done? ==> s.threads[w].held == {}
        ensures s.threads[w].pc.Acquire? ==>
                  s.threads[w].pc.want != [] && forall b :: b in s.threads[w].held ==> b < s.threads[w].pc.want[0]
      {
        WaiterOk(l, reserved, s, w);
      }
      var waiting := set w | w in s.threads && s.threads[w].pc.Acquire?;
      assert u in waiting;
      var h := HighestWaiter(s.threads, waiting);
      forall w | w in s.threads ensures s.threads[h].pc.want[0] !in s.threads[w].held {
        if s.threads[w].pc.Acquire? {
          assert w in waiting;
        }
      }
      FreeLock(l, reserved, s, h);
    }
  }

  lemma FreeLock(l: Layout, reserved: set<Name>, s: State, u: Tid)
    requires LayoutOk(l) && u in s.threads && s.threads[u].pc.Acquire? && |s.threads[u].pc.want| > 0
    requires forall w :: w in s.threads ==> s.threads[u].pc.want[0] !in s.threads[w].held
    ensures CanStep(l, reserved, s, u)
  {
    var th := s.threads[u];
    var b, rest := th.pc.want[0], th.pc.want[1..];
    var s' := After(s, s.mem, s.dir, u,
                    th.(pc := if rest == [] then Decide else Acquire(rest), held := th.held + {b}), s.last);
    assert NextBy(l, reserved, s, Take(u), s');
  }

  /** How far a call is from its end: phase, buckets left, steps left in the bucket. */
  datatype Rank = Rank(phase: nat, buckets: int, steps: nat)

  ghost predicate Below(r: Rank, r': Rank) {
    || r.phase < r'.phase
    || (r.phase == r'.phase && r.buckets < r'.buckets)
    || (r.phase == r'.phase && r.buckets == r'.buckets && r.steps < r'.steps)
  }

  ghost function RankOf(l: Layout, th: Thread): Rank
    requires LayoutOk(l)
  {
    match th.pc
    case Begin => Rank(9, 0, 0)
    case Enter => Rank(8, 0, 0)
    case Walk(at) => Rank(7, 0, at)
    case Scan(i, at) => Rank(7, if th.call.Kill? then l.size(th.call.t) - i else 0, 2 * at + 1)
    case ScanNext(i, at) => Rank(7, if th.call.Kill? then l.size(th.call.t) - i else 0, 2 * at)
    case Enum(i, at, _) => Rank(7, if th.call.Enumerate? then l.size(th.call.t) - i else 0, at)
    case Read(_) => Rank(6, 0, 0)
    case Acquire(want) => Rank(5, 0, |want|)
    case Decide => Rank(4, 0, 0)
    case Commit(todo) => Rank(3, 0, |todo|)
    case Release(_) => Rank(2, 0, |th.held|)
    case Done(_) => Rank(0, 0, 0)
  }

  /** A lock-free step brings its call closer to its end. */
  lemma MoveEnds(l: Layout, reserved: set<Name>, s: State, th: Thread)
    requires LayoutOk(l) && MemOk(l, s.mem) && LockFree(th.pc) && ThreadOk(l, reserved, s, th)
    ensures Below(RankOf(l, Moved(l, s, th)), RankOf(l, th)) && RankOf(l, th).buckets >= 0
  {
    hide CallOk, LockOrder, MemOk, MissedOrAhead, AbsentIn, PresentIn, Better;
    match th.pc
    case Walk(at) =>
      if at in s.mem.items { LinkedAt(l, s.mem, at); }
    case ScanNext(_, at) =>
      LinkedAt(l, s.mem, at);
    case Enum(_, at, _) =>
      if at in s.mem.items { LinkedAt(l, s.mem, at); }
    case _ =>
  }

  /** Every step of a call brings that call closer to its end, whatever other threads do to the
      chains meanwhile: lookups and enumerations never retry. */
  lemma StepsEnd(l: Layout, reserved: set<Name>, s: State, step: Step, s': State)
    requires Inv(l, reserved, s) && !step.Start? && NextBy(l, reserved, s, step, s')
    ensures step.u in s.threads && step.u in s'.threads
    ensures Below(RankOf(l, s'.threads[step.u]), RankOf(l, s.threads[step.u]))
    ensures RankOf(l, s.threads[step.u]).buckets >= 0
  {
    hide Inv, HistoryOk, MemOk, Agrees, DirOk, LocksOk, Passes, Plan, LockOrder, Effect, Perform, Advance, ThreadOk;
    Basics(l, reserved, s);
    if step.Move? {
      ThreadAt(l, reserved, s, step.u);
      MoveEnds(l, reserved, s, s.threads[step.u]);
      hide RankOf;
    } else {
      LockedStepEnds(l, reserved, s, step, s');
    }
  }

  lemma LockedStepEnds(l: Layout, reserved: set<Name>, s: State, step: Step, s': State)
    requires LayoutOk(l) && !step.Start? && !step.Move? && NextBy(l, reserved, s, step, s')
    ensures step.u in s.threads && step.u in s'.threads
    ensures Below(RankOf(l, s'.threads[step.u]), RankOf(l, s.threads[step.u]))
    ensures RankOf(l, s.threads[step.u]).buckets >= 0
  {
    hide NextBy, RankOf, Below;
    match step
    case Take(u) => TakeEnds(l, reserved, s, u, s');
    case Choose(u, todo) => ChooseEnds(l, reserved, s, u, todo, s');
    case Apply(u) => ApplyEnds(l, reserved, s, u, s');
    case Drop(u, b) => DropEnds(l, reserved, s, u, b, s');
  }

  lemma TakeEnds(l: Layout, reserved: set<Name>, s: State, u: Tid, s': State)
    requires LayoutOk(l) && NextBy(l, reserved, s, Take(u), s')
    ensures u in s.threads && u in s'.threads && Below(RankOf(l, s'.threads[u]), RankOf(l, s.threads[u]))
    ensures RankOf(l, s.threads[u]).buckets >= 0
  {
  }

  lemma ChooseEnds(l: Layout, reserved: set<Name>, s: State, u: Tid, todo: seq<Todo>, s': State)
    requires LayoutOk(l) && NextBy(l, reserved, s, Choose(u, todo), s')
    ensures u in s.threads && u in s'.threads && Below(RankOf(l, s'.threads[u]), RankOf(l, s.threads[u]))
    ensures RankOf(l, s.threads[u]).buckets >= 0
  {
    hide Passes, Plan;
  }

  lemma ApplyEnds(l: Layout, reserved: set<Name>, s: State, u: Tid, s': State)
    requires LayoutOk(l) && NextBy(l, reserved, s, Apply(u), s')
    ensures u in s.threads && u in s'.threads && Below(RankOf(l, s'.threads[u]), RankOf(l, s.threads[u]))
    ensures RankOf(l, s.threads[u]).buckets >= 0
  {
    hide Perform, Effect;
  }

  lemma DropEnds(l: Layout, reserved: set<Name>, s: State, u: Tid, b: Bkt, s': State)
    requires LayoutOk(l) && NextBy(l, reserved, s, Drop(u, b), s')
    ensures u in s.threads && u in s'.threads && Below(RankOf(l, s'.threads[u]), RankOf(l, s.threads[u]))
    ensures RankOf(l, s.threads[u]).buckets >= 0
  {
    var held := s.threads[u].held;
    assert |held - {b}| < |held|;
  }

  // ----------------------------------------------------------------------
  // Reading a directory with a cursor
  // ----------------------------------------------------------------------

  /** Thread `u` went through table `t`: it returned from enumerate in states `ends` of the run,
      starting without a cursor and passing each result to the next call. */
  ghost predicate Readdir(l: Layout, run: seq<State>, u: Tid, t: TableId, ends: seq<nat>) {
    && (forall j :: 0 <= j < |ends| ==> Returned(run, u, t, ends[j]))
    && (forall i, j :: 0 <= i < j < |ends| && j == i + 1 ==> Follows(run, u, ends[i], ends[j]))
    && (|ends| > 0 ==> Cursor(run, u, ends[0]).None?)
  }

  /** The call that returned in state `j` was given the result of the one that returned in state `i`. */
  ghost predicate Follows(run: seq<State>, u: Tid, i: nat, j: nat) {
    i < j && Cursor(run, u, j) == Result(run, u, i) && Result(run, u, i).Some?
  }

  ghost predicate Returned(run: seq<State>, u: Tid, t: TableId, i: nat) {
    && i < |run| && u in run[i].threads
    && run[i].threads[u].pc.Done? && run[i].threads[u].pc.res.Next?
    && run[i].threads[u].call.Enumerate? && run[i].threads[u].call.t == t
  }

  ghost function Cursor(run: seq<State>, u: Tid, i: nat): Option<Key> {
    if i < |run| && u in run[i].threads && run[i].threads[u].call.Enumerate? then run[i].threads[u].call.prev else None
  }

  ghost function Result(run: seq<State>, u: Tid, i: nat): Option<Key> {
    if i < |run| && u in run[i].threads && run[i].threads[u].pc.Done? && run[i].threads[u].pc.res.Next?
    then run[i].threads[u].pc.res.k else None
  }

  /** What one enumerate call returned, in terms of the run. */
  lemma EnumerateExplained(l: Layout, reserved: set<Name>, run: seq<State>, u: Tid, t: TableId, i: nat)
    requires IsRun(l, reserved, run) && Returned(run, u, t, i)
    ensures var (prev, r, since) := (Cursor(run, u, i), Result(run, u, i), run[i].threads[u].since);
            && (r.Some? ==> Beyond(l, t, prev, r.value)
                            && exists j :: since <= j <= i && Present(run[j].mem, t, r.value))
            && (forall k :: Beyond(l, t, prev, k) && (r.Some? ==> Precedes(l, t, k, r.value)) ==>
                              exists j :: since <= j <= i && !Present(run[j].mem, t, k))
  {
    RunKeepsInv(l, reserved, run, i);
    ThreadAt(l, reserved, run[i], u);
    hide Inv, HistoryOk, MemOk, Present, IsRun, Beyond, Precedes;
    var th := run[i].threads[u];
    HistoryIsRun(l, reserved, run, i, i);
    var r := Result(run, u, i);
    if r.Some? {
      var j :| th.since <= j < |run[i].hist| && Present(run[i].hist[j].mem, t, r.value);
      HistoryIsRun(l, reserved, run, i, j);
    }
    forall k | Beyond(l, t, th.call.prev, k) && (r.Some? ==> Precedes(l, t, k, r.value))
      ensures exists j :: th.since <= j <= i && !Present(run[j].mem, t, k)
    {
      assert AbsentIn(run[i].hist, th.since, |run[i].hist|, t, k);
      var j :| th.since <= j < |run[i].hist| && !Present(run[i].hist[j].mem, t, k);
      HistoryIsRun(l, reserved, run, i, j);
    }
  }

  /** Results strictly increase in (bucket, key), so no key is returned twice. */
  lemma {:induction false} ReaddirIncreases(l: Layout, reserved: set<Name>, run: seq<State>, u: Tid, t: TableId,
                                            ends: seq<nat>, i: nat, j: nat)
    requires IsRun(l, reserved, run) && Readdir(l, run, u, t, ends) && i < j < |ends|
    requires Result(run, u, ends[j]).Some?
    ensures Result(run, u, ends[i]).Some?
    ensures Precedes(l, t, Result(run, u, ends[i]).value, Result(run, u, ends[j]).value)
    ensures Result(run, u, ends[i]) != Result(run, u, ends[j])
    decreases j
  {
    hide IsRun, Cursor, Result, Returned, Present;
    assert LayoutOk(l) by { RunLayout(l, reserved, run); }
    EnumerateExplained(l, reserved, run, u, t, ends[j]);
    var p := j - 1;
    assert Follows(run, u, ends[p], ends[j]);
    if i < p {
      ReaddirIncreases(l, reserved, run, u, t, ends, i, j - 1);
    }
  }

  lemma RunLayout(l: Layout, reserved: set<Name>, run: seq<State>)
    requires IsRun(l, reserved, run)
    ensures LayoutOk(l)
  {
  }

  /** A key present from the first call to the last return is returned by one of the calls, as
      soon as the results have passed it or the directory has been read to its end. */
  lemma {:induction false} ReaddirComplete(l: Layout, reserved: set<Name>, run: seq<State>, u: Tid, t: TableId,
                                           ends: seq<nat>, first: nat, k: Key)
    requires IsRun(l, reserved, run) && Readdir(l, run, u, t, ends) && ends != []
    requires forall j :: 0 <= j < |ends| ==> u in run[ends[j]].threads && first <= run[ends[j]].threads[u].since
    requires forall j :: first <= j <= ends[|ends| - 1] && j < |run| ==> Present(run[j].mem, t, k)
    requires var r := Result(run, u, ends[|ends| - 1]); r.None? || !Precedes(l, t, r.value, k)
    ensures exists j :: 0 <= j < |ends| && Result(run, u, ends[j]) == Some(k)
    decreases |ends|
  {
    hide IsRun, Cursor, Result, Present, Readdir;
    RunLayout(l, reserved, run);
    var n := |ends| - 1;
    var last := ends[n];
    LastCall(l, run, u, t, ends);
    AllReturned(l, run, u, t, ends);
    EnumerateExplained(l, reserved, run, u, t, last);
    assert first <= run[last].threads[u].since;
    if Result(run, u, last) != Some(k) {
      assert !Beyond(l, t, Cursor(run, u, last), k);
      var ends' := ends[..n];
      assert ends'[n - 1] == ends[n - 1];
      forall j | 0 <= j < |ends'| ensures u in run[ends'[j]].threads && first <= run[ends'[j]].threads[u].since {
        assert ends'[j] == ends[j];
      }
      ReaddirComplete(l, reserved, run, u, t, ends', first, k);
    }
  }

  lemma AllReturned(l: Layout, run: seq<State>, u: Tid, t: TableId, ends: seq<nat>)
    requires Readdir(l, run, u, t, ends)
    ensures forall j :: 0 <= j < |ends| ==> Returned(run, u, t, ends[j])
  {
    hide Returned, Cursor, Result;
  }

  /** The last call of a listing, and the listing without it. */
  lemma LastCall(l: Layout, run: seq<State>, u: Tid, t: TableId, ends: seq<nat>)
    requires Readdir(l, run, u, t, ends) && ends != []
    ensures var n := |ends| - 1;
            && Returned(run, u, t, ends[n])
            && (if n == 0 then Cursor(run, u, ends[n]).None?
                else Follows(run, u, ends[n - 1], ends[n]) && Readdir(l, run, u, t, ends[..n])
                     && Returned(run, u, t, ends[n - 1]))
  {
    hide Returned, Cursor, Result, Follows;
    var n := |ends| - 1;
    if n > 0 {
      var i, j := n - 1, n;
      assert Follows(run, u, ends[i], ends[j]);
      Shorter(l, run, u, t, ends, n);
    }
  }

  lemma Shorter(l: Layout, run: seq<State>, u: Tid, t: TableId, ends: seq<nat>, n: nat)
    requires Readdir(l, run, u, t, ends) && n <= |ends|
    ensures Readdir(l, run, u, t, ends[..n])
  {
    hide Returned, Cursor, Result, Follows;
    var ends' := ends[..n];
    forall j | 0 <= j < |ends'| ensures Returned(run, u, t, ends'[j]) {
      assert ends'[j] == ends[j];
    }
    forall i, j | 0 <= i < j < |ends'| && j == i + 1 ensures Follows(run, u, ends'[i], ends'[j]) {
      assert ends'[i] == ends[i] && ends'[j] == ends[j];
      assert Follows(run, u, ends[i], ends[j]);
    }
  }
}
