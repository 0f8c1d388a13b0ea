/**
 The steps that store nothing keep every thread's knowledge: other threads' steps
 never spoil what a thread knows, and each lock-free step establishes what the next
 point of the code relies on.
 */
module ChainSteps {
  import opened Options
  import opened ChainMemory
  import opened DirSpec
  import opened ChainProtocol
  import opened ChainInvariant

  // ----------------------------------------------------------------------
  // Other threads' steps
  // ----------------------------------------------------------------------

  /** Whatever was established about past moments stays established. */
  lemma HistoryTick(l: Layout, s: State, s': State, bs: set<Bkt>, th: Thread)
    requires Tick(l, s, s', bs)
    ensures forall i, ok :: Atomic(s.hist, th.since, |s.hist|, th.call, i, ok)
              ==> Atomic(s'.hist, th.since, |s'.hist|, th.call, i, ok)
    ensures RefusedIn(s.hist, th.since, |s.hist|, th.call) ==> RefusedIn(s'.hist, th.since, |s'.hist|, th.call)
    ensures forall t, k, r :: HoldsIn(s.hist, th.since, |s.hist|, t, k, r)
              ==> HoldsIn(s'.hist, th.since, |s'.hist|, t, k, r)
  {
    hide MemOk, MemStep, Allowed, Effect, Passes, Get;
    assert forall i :: 0 <= i < |s.hist| ==> s'.hist[i] == s.hist[i];
    if RefusedIn(s.hist, th.since, |s.hist|, th.call) {
      var i :| th.since <= i < |s.hist| && !Passes(s.hist[i].mem, th.call);
      assert s'.hist[i] == s.hist[i];
    }
    forall t, k, r | HoldsIn(s.hist, th.since, |s.hist|, t, k, r)
      ensures HoldsIn(s'.hist, th.since, |s'.hist|, t, k, r)
    {
      var i :| th.since <= i < |s.hist| && Get(s.hist[i].mem, t, k) == r;
      assert s'.hist[i] == s.hist[i];
    }
  }

  lemma EnumeratedTick(l: Layout, s: State, s': State, bs: set<Bkt>, since: nat, t: TableId, prev: Option<Key>,
                       r: Option<Key>)
    requires LayoutOk(l) && Tick(l, s, s', bs) && Enumerated(l, s.hist, since, |s.hist|, t, prev, r)
    ensures Enumerated(l, s'.hist, since, |s'.hist|, t, prev, r)
  {
    hide Tick, AbsentIn, PresentIn, Beyond, Precedes;
    if r.Some? {
      PresentTick(l, s, s', bs, since, t, r.value);
    }
    forall k | Beyond(l, t, prev, k) && (r.Some? ==> Precedes(l, t, k, r.value))
      ensures AbsentIn(s'.hist, since, |s'.hist|, t, k)
    {
      AbsentTick(l, s, s', bs, since, t, k);
    }
  }

  /** A table is not killed while one of its buckets is held by someone else. */
  lemma DeadTick(l: Layout, m: Mem, m': Mem, bs: set<Bkt>, t: TableId, k: Key)
    requires LayoutOk(l) && MemStep(l, m, m', bs) && Home(l, t, k) !in bs
    ensures t in m'.dead <==> t in m.dead
  {
    assert Owns(l, t, Home(l, t, k));
  }

  lemma KillPassesTick(l: Layout, m: Mem, m': Mem, bs: set<Bkt>, c: Call)
    requires LayoutOk(l) && MemOk(l, m) && MemOk(l, m') && MemStep(l, m, m', bs)
    requires c.Kill? && bs !! Locks(l, c) && Passes(m, c)
    ensures Passes(m', c)
  {
    hide MemOk, MemStep;
    LocksOfKill(l, c);
    DeadTick(l, m, m', bs, c.t, c.k);
    forall x | x in m'.live && x in m'.items && m'.items[x].tab == c.t
      ensures m'.items[x].key == c.k && m'.items[x].val == c.v
    {
      assert Entry(m', x, c.t, m'.items[x].key);
      EntryTick(l, m, m', bs, x, c.t, m'.items[x].key);
    }
  }

  lemma LocksOfKill(l: Layout, c: Call)
    requires LayoutOk(l) && c.Kill?
    ensures forall b :: Owns(l, c.t, b) <==> b in Locks(l, c)
    ensures forall k :: Owns(l, c.t, Home(l, c.t, k))
    ensures Rising(LockOrder(l, c))
  {
    forall b: Bkt ensures Owns(l, c.t, b) <==> b in Locks(l, c) {
      if Owns(l, c.t, b) {
        assert LockOrder(l, c)[b - l.base(c.t)] == b;
      }
    }
  }

  lemma {:induction false} InsertSortedOk(b: Bkt, s: seq<Bkt>)
    requires Rising(s) && b !in s
    ensures Rising(InsertSorted(b, s))
    ensures forall x :: x in InsertSorted(b, s) <==> x == b || x in s
  {
    if s != [] && s[0] < b {
      var rest := s[1..];
      InsertSortedOk(b, rest);
      var r := InsertSorted(b, rest);
      assert s == [s[0]] + rest;
      forall x | x in r ensures s[0] < x {
        if x != b {
          var i :| 0 <= i < |rest| && rest[i] == x;
          assert s[i + 1] == x;
        }
      }
      RisingMore(s[0], r);
    } else if s != [] {
      assert forall x :: x in s ==> b < x;
      RisingMore(b, s);
    }
  }

  lemma RisingMore(b: Bkt, s: seq<Bkt>)
    requires Rising(s) && forall x :: x in s ==> b < x
    ensures Rising([b] + s)
  {
    var s' := [b] + s;
    forall i, j | 0 <= i < j < |s'| ensures s'[i] < s'[j] {
      assert s'[j] == s[j - 1] && s[j - 1] in s;
    }
  }

  /** Sorting a list without repetitions gives the same buckets in rising order. */
  lemma {:induction false} SortOk(s: seq<Bkt>)
    requires forall i, j :: 0 <= i < j < |s| ==> s[i] != s[j]
    ensures Rising(Sort(s))
    ensures forall x :: x in Sort(s) <==> x in s
  {
    if s != [] {
      SortOk(s[1..]);
      assert s == [s[0]] + s[1..];
      InsertSortedOk(s[0], Sort(s[1..]));
    }
  }

  ghost function NamesOf(c: Call): set<Name> {
    match c
    case Insert(t, k, _) => {Name(t, k)}
    case Remove(t, k, _) => {Name(t, k)}
    case Rename(dst, kdst, _, src, ksrc, _, sub) =>
      {Name(dst, kdst), Name(src, ksrc)} + (if sub.Some? then {Name(sub.value.tab, sub.value.key)} else {})
    case Kill(t, k, _) => {Name(t, k)}
    case _ => {}
  }

  /** Each mutator locks the bucket of every name it touches, takes its locks in rising
      address order, and takes none twice. */
  lemma LockOrderOk(l: Layout, c: Call)
    requires LayoutOk(l) && Mutates(c)
    ensures LockOrder(l, c) != [] && Rising(LockOrder(l, c))
    ensures forall n :: n in NamesOf(c) ==> Home(l, n.tab, n.key) in Locks(l, c)
  {
    if c.Rename? {
      SortOk(RenameBuckets(l, c));
      assert Home(l, c.dst, c.kdst) in RenameBuckets(l, c);
    } else if c.Kill? {
      LocksOfKill(l, c);
    }
  }

  lemma PassesTick(l: Layout, m: Mem, m': Mem, bs: set<Bkt>, c: Call)
    requires LayoutOk(l) && MemOk(l, m) && MemOk(l, m') && MemStep(l, m, m', bs)
    requires Mutates(c) && bs !! Locks(l, c) && Passes(m, c)
    ensures Passes(m', c)
  {
    hide MemOk, MemStep, Get, LockOrder, Locks;
    LockOrderOk(l, c);
    forall n | n in NamesOf(c)
      ensures Get(m', n.tab, n.key) == Get(m, n.tab, n.key) && (n.tab in m'.dead <==> n.tab in m.dead)
    {
      PresentSame(l, m, m', bs, n.tab, n.key);
      DeadTick(l, m, m', bs, n.tab, n.key);
    }
    match c
    case Insert(t, k, _) => assert Name(t, k) in NamesOf(c);
    case Remove(t, k, _) => assert Name(t, k) in NamesOf(c);
    case Rename(dst, kdst, _, src, ksrc, _, sub) =>
      assert Name(dst, kdst) in NamesOf(c) && Name(src, ksrc) in NamesOf(c);
      assert sub.Some? ==> Name(sub.value.tab, sub.value.key) in NamesOf(c);
    case Kill(_, _, _) => KillPassesTick(l, m, m', bs, c);
  }

  lemma PlanTick(l: Layout, m: Mem, m': Mem, bs: set<Bkt>, c: Call, todo: seq<Todo>)
    requires LayoutOk(l) && MemOk(l, m) && MemOk(l, m') && MemStep(l, m, m', bs)
    requires Mutates(c) && bs !! Locks(l, c) && Plan(m, c, todo)
    ensures Plan(m', c, todo)
  {
    hide MemOk, MemStep, LockOrder, Locks, Entry, Before, Present;
    LockOrderOk(l, c);
    forall n | n in NamesOf(c) ensures Present(m', n.tab, n.key) <==> Present(m, n.tab, n.key) {
      PresentSame(l, m, m', bs, n.tab, n.key);
    }
    forall e, n | n in NamesOf(c) && Erases(m, e, n) ensures Erases(m', e, n) {
      EntryTick(l, m, m', bs, e.x, n.tab, n.key);
      BeforeTick(l, m, m', bs, e.prev, e.x, n.tab, n.key);
    }
    forall e, n, v | n in NamesOf(c) && Sets(m, e, n, v) ensures Sets(m', e, n, v) {
      EntryTick(l, m, m', bs, e.x, n.tab, n.key);
    }
    hide Erases, Sets;
    if c.Rename? {
      assert Name(c.dst, c.kdst) in NamesOf(c) && Name(c.src, c.ksrc) in NamesOf(c);
      assert c.sub.Some? ==> Name(c.sub.value.tab, c.sub.value.key) in NamesOf(c);
    } else {
      assert Name(c.t, c.k) in NamesOf(c);
    }
  }

  lemma CommitTick(l: Layout, s: State, s': State, bs: set<Bkt>, th: Thread)
    requires LayoutOk(l) && Tick(l, s, s', bs) && bs !! th.held
    requires th.pc.Commit? && Mutates(th.call) && CommitOk(l, s, th)
    ensures CommitOk(l, s', th)
  {
    hide MemOk, MemStep, Locks, Passes, Plan, TodoOk, Untouched, Allowed, Effect;
    forall e | e in th.pc.todo ensures TodoOk(l, s'.mem, th.held, e) {
      TodoTick(l, s.mem, s'.mem, bs, th.held, e);
    }
    if th.commit.None? {
      PassesTick(l, s.mem, s'.mem, bs, th.call);
      PlanTick(l, s.mem, s'.mem, bs, th.call, th.pc.todo);
    } else {
      HistoryTick(l, s, s', bs, th);
      assert s'.hist[th.commit.value] == s.hist[th.commit.value];
      forall e | e in th.pc.todo ensures Untouched(s'.mem, s'.hist[th.commit.value].dir, e) {
        assert TodoOk(l, s.mem, th.held, e) && Untouched(s.mem, s.hist[th.commit.value].dir, e);
        UntouchedTick(l, s.mem, s'.mem, bs, th.held, s.hist[th.commit.value].dir, e);
      }
    }
  }

  lemma UntouchedTick(l: Layout, m: Mem, m': Mem, bs: set<Bkt>, held: set<Bkt>, d: Dir, e: Todo)
    requires LayoutOk(l) && MemOk(l, m) && MemOk(l, m') && MemStep(l, m, m', bs) && bs !! held
    requires TodoOk(l, m, held, e) && Untouched(m, d, e)
    ensures Untouched(m', d, e)
  {
    hide MemOk, MemStep, Get, Present;
    if !e.DoKill? {
      PresentSame(l, m, m', bs, e.n.tab, e.n.key);
    }
  }

  /** No step of anybody else spoils what a thread knows. */
  lemma ThreadTick(l: Layout, reserved: set<Name>, s: State, s': State, bs: set<Bkt>, th: Thread)
    requires LayoutOk(l) && Tick(l, s, s', bs) && bs !! th.held && ThreadOk(l, reserved, s, th)
    ensures ThreadOk(l, reserved, s', th)
  {
    hide MemOk, MemStep, Locks, CommitOk, Atomic, EnumOk, OnChain, MissedOrAhead, Recent, Enumerated, HoldsIn,
         RefusedIn, CallOk;
    match th.pc
    case Walk(at) =>
      OnChainTick(l, s, s', bs, th.since, Home(l, th.call.t, th.call.k), at);
      MissedTick(l, s, s', bs, th.since, th.call.t, th.call.k, at);
    case Read(x) =>
      RecentTick(l, s, s', bs, th.since, x);
    case Scan(i, at) =>
      OnChainTick(l, s, s', bs, th.since, l.base(th.call.t) + i, at);
    case ScanNext(i, at) =>
      OnChainTick(l, s, s', bs, th.since, l.base(th.call.t) + i, at);
    case Enum(i, at, best) =>
      EnumTick(l, s, s', bs, th.since, th.call.t, th.call.prev, i, at, best);
    case Commit(_) =>
      CommitTick(l, s, s', bs, th);
    case Release(_) =>
      HistoryTick(l, s, s', bs, th);
    case Done(res) =>
      HistoryTick(l, s, s', bs, th);
      if res.Next? {
        EnumeratedTick(l, s, s', bs, th.since, th.call.t, th.call.prev, res.k);
      }
    case _ =>
  }

  // ----------------------------------------------------------------------
  // A thread's own lock-free steps
  // ----------------------------------------------------------------------

  lemma Now(l: Layout, s: State)
    requires HistoryOk(l, s)
    ensures |s.hist| > 0 && s.hist[|s.hist| - 1].mem == s.mem && s.hist[|s.hist| - 1].dir == s.dir && MemOk(l, s.mem)
    ensures forall x :: x in s.mem.items && x !in s.mem.live ==> Erased(s, x)
  {
    assert s.hist[|s.hist| - 1] in s.hist;
  }

  lemma RefusedNow(l: Layout, s: State, since: nat, c: Call)
    requires HistoryOk(l, s) && since < |s.hist| && !Passes(s.mem, c)
    ensures RefusedIn(s.hist, since, |s.hist|, c)
  {
    hide HistoryOk;
    Now(l, s);
  }

  lemma AbsentNow(l: Layout, s: State, since: nat, t: TableId, k: Key)
    requires HistoryOk(l, s) && since < |s.hist| && !Present(s.mem, t, k)
    ensures AbsentIn(s.hist, since, |s.hist|, t, k)
  {
    hide HistoryOk;
    Now(l, s);
  }

  /** The tables' bucket arrays do not overlap: an item in one of `t`'s buckets is `t`'s. */
  lemma ItemsTable(l: Layout, m: Mem, p: Ptr, t: TableId, b: Bkt)
    requires LayoutOk(l) && MemOk(l, m) && p in m.items && m.items[p].bkt == b && Owns(l, t, b)
    ensures m.items[p].tab == t && b == Home(l, t, m.items[p].key)
  {
    hide MemOk;
    LinkedAt(l, m, p);
    assert Owns(l, m.items[p].tab, Home(l, m.items[p].tab, m.items[p].key));
  }

  /** Starting at the head of its bucket, a walk has the whole chain in front of it. */
  lemma FromHead(l: Layout, s: State, since: nat, t: TableId, k: Key)
    requires LayoutOk(l) && HistoryOk(l, s) && since < |s.hist|
    ensures OnChain(s, since, Home(l, t, k), Head(s.mem, Home(l, t, k)))
    ensures MissedOrAhead(s, since, t, k, Head(s.mem, Home(l, t, k)))
  {
    hide HistoryOk, MemOk, Erased;
    Now(l, s);
    HeadAt(l, s.mem, Home(l, t, k));
    if Present(s.mem, t, k) {
      var y :| Entry(s.mem, y, t, k);
      LinkedAt(l, s.mem, y);
    } else {
      AbsentNow(l, s, since, t, k);
    }
  }

  lemma HeadOnChain(l: Layout, s: State, since: nat, b: Bkt)
    requires HistoryOk(l, s) && since < |s.hist|
    ensures OnChain(s, since, b, Head(s.mem, b))
  {
    hide HistoryOk, MemOk, Erased;
    Now(l, s);
    HeadAt(l, s.mem, b);
  }

  /** The successor of a recent item is recent, even when both have since been erased. */
  lemma NextOnChain(l: Layout, s: State, since: nat, b: Bkt, at: Ptr)
    requires HistoryOk(l, s) && since < |s.hist| && at != 0 && OnChain(s, since, b, at)
    ensures OnChain(s, since, b, s.mem.items[at].next)
  {
    hide HistoryOk, MemOk;
    Now(l, s);
    LinkedAt(l, s.mem, at);
  }

  /** Stepping over an item with another key loses nothing. */
  lemma StepOver(l: Layout, s: State, since: nat, t: TableId, k: Key, at: Ptr)
    requires LayoutOk(l) && HistoryOk(l, s) && since < |s.hist| && at != 0
    requires OnChain(s, since, Home(l, t, k), at) && MissedOrAhead(s, since, t, k, at) && s.mem.items[at].key != k
    ensures MissedOrAhead(s, since, t, k, s.mem.items[at].next)
  {
    hide HistoryOk, MemOk, Erased;
    Now(l, s);
    LinkedAt(l, s.mem, at);
    if Ahead(s.mem, t, k, at) {
      var y: Ptr :| Entry(s.mem, y, t, k) && y <= at;
      LinkedAt(l, s.mem, y);
    }
  }

  /** A walk that has run off the end has missed nothing that was there throughout. */
  lemma RanOff(l: Layout, s: State, since: nat, t: TableId, k: Key)
    requires HistoryOk(l, s) && MissedOrAhead(s, since, t, k, 0)
    ensures AbsentIn(s.hist, since, |s.hist|, t, k)
  {
    hide HistoryOk, MemOk, Erased;
    Now(l, s);
    if Ahead(s.mem, t, k, 0) {
      var y: Ptr :| Entry(s.mem, y, t, k) && y <= 0;
      LinkedAt(l, s.mem, y);
    }
  }

  /** A recent item was the live entry of its name, with its present value, at some moment
      since `since`. */
  lemma WasEntry(l: Layout, s: State, since: nat, x: Ptr) returns (i: nat)
    requires HistoryOk(l, s) && since < |s.hist| && Recent(s, since, x)
    ensures since <= i < |s.hist| && MemOk(l, s.hist[i].mem)
    ensures Entry(s.hist[i].mem, x, s.mem.items[x].tab, s.mem.items[x].key)
    ensures s.hist[i].mem.items[x].val == s.mem.items[x].val
  {
    hide MemOk;
    Now(l, s);
    i := if x in s.mem.live then |s.hist| - 1 else s.last[x];
    assert s.hist[i] in s.hist;
  }

  lemma WasPresent(l: Layout, s: State, since: nat, x: Ptr)
    requires HistoryOk(l, s) && since < |s.hist| && Recent(s, since, x)
    ensures PresentIn(s.hist, since, |s.hist|, s.mem.items[x].tab, s.mem.items[x].key)
  {
    hide HistoryOk;
    var i := WasEntry(l, s, since, x);
  }

  lemma HeldValue(l: Layout, s: State, since: nat, x: Ptr)
    requires HistoryOk(l, s) && since < |s.hist| && Recent(s, since, x)
    ensures HoldsIn(s.hist, since, |s.hist|, s.mem.items[x].tab, s.mem.items[x].key, Some(s.mem.items[x].val))
  {
    hide HistoryOk, MemOk;
    var i := WasEntry(l, s, since, x);
    GetEntry(l, s.hist[i].mem, x, s.mem.items[x].tab, s.mem.items[x].key);
  }

  ghost function Moved(l: Layout, s: State, th: Thread): Thread
    requires LayoutOk(l)
  {
    th.(pc := Advance(l, s.mem, th.call, th.pc))
  }

  lemma AcquireOk(l: Layout, reserved: set<Name>, s: State, th: Thread)
    requires LayoutOk(l) && Idle(th) && Mutates(th.call) && th.since < |s.hist| && CallOk(reserved, th.call)
    ensures ThreadOk(l, reserved, s, th.(pc := Acquire(LockOrder(l, th.call))))
  {
    LockOrderOk(l, th.call);
  }

  lemma EnterOk(l: Layout, reserved: set<Name>, s: State, th: Thread)
    requires LayoutOk(l) && HistoryOk(l, s) && ThreadOk(l, reserved, s, th) && th.pc.Enter?
    ensures ThreadOk(l, reserved, s, Moved(l, s, th))
  {
    hide HistoryOk, OnChain, MissedOrAhead, CallOk;
    match th.call
    case Lookup(t, k) => FromHead(l, s, th.since, t, k);
    case Insert(t, k, _) => FromHead(l, s, th.since, t, k);
    case Remove(t, k, _) => FromHead(l, s, th.since, t, k);
    case Kill(t, _, _) => HeadOnChain(l, s, th.since, l.base(t));
    case Enumerate(t, prev) => EnterEnum(l, s, th.since, t, prev, StartOffset(l, t, prev));
  }

  /** enumerate turns to bucket `i`, all earlier ones being done with. */
  lemma EnterEnum(l: Layout, s: State, since: nat, t: TableId, prev: Option<Key>, i: nat)
    requires LayoutOk(l) && HistoryOk(l, s) && since < |s.hist| && StartOffset(l, t, prev) <= i < l.size(t)
    requires forall k :: Beyond(l, t, prev, k) && Offset(l, t, k) < i ==> AbsentIn(s.hist, since, |s.hist|, t, k)
    ensures EnumOk(l, s, since, t, prev, i, Head(s.mem, l.base(t) + i), None)
  {
    hide HistoryOk, OnChain, MissedOrAhead, AbsentIn;
    HeadOnChain(l, s, since, l.base(t) + i);
    forall k | Beyond(l, t, prev, k) && Offset(l, t, k) == i
      ensures MissedOrAhead(s, since, t, k, Head(s.mem, l.base(t) + i))
    {
      FromHead(l, s, since, t, k);
    }
  }

  lemma WalkMoves(l: Layout, reserved: set<Name>, s: State, th: Thread)
    requires LayoutOk(l) && HistoryOk(l, s) && ThreadOk(l, reserved, s, th) && th.pc.Walk?
    ensures ThreadOk(l, reserved, s, Moved(l, s, th))
  {
    hide HistoryOk, MissedOrAhead, CallOk, MemOk, Erased, LockOrder, Get;
    var t, k, at := th.call.t, th.call.k, th.pc.at;
    Now(l, s);
    if at !in s.mem.items {
      RanOff(l, s, th.since, t, k);
      EndOfWalk(l, reserved, s, th);
    } else if s.mem.items[at].key == k {
      LinkedAt(l, s.mem, at);
      assert Owns(l, t, Home(l, t, k));
      ItemsTable(l, s.mem, at, t, Home(l, t, k));
      FoundByWalk(l, reserved, s, th);
    } else {
      LinkedAt(l, s.mem, at);
      NextOnChain(l, s, th.since, Home(l, t, k), at);
      StepOver(l, s, th.since, t, k, at);
    }
  }

  lemma EndOfWalk(l: Layout, reserved: set<Name>, s: State, th: Thread)
    requires LayoutOk(l) && HistoryOk(l, s) && ThreadOk(l, reserved, s, th) && th.pc.Walk?
    requires th.pc.at !in s.mem.items && AbsentIn(s.hist, th.since, |s.hist|, th.call.t, th.call.k)
    ensures ThreadOk(l, reserved, s, Moved(l, s, th))
  {
    hide HistoryOk, MemOk, CallOk, LockOrder, WalkOk;
    var i :| th.since <= i < |s.hist| && !Present(s.hist[i].mem, th.call.t, th.call.k);
    if th.call.Insert? {
      AcquireOk(l, reserved, s, th);
    } else if th.call.Lookup? {
      assert Get(s.hist[i].mem, th.call.t, th.call.k) == None;
    } else {
      assert !Passes(s.hist[i].mem, th.call);
    }
  }

  lemma FoundByWalk(l: Layout, reserved: set<Name>, s: State, th: Thread)
    requires LayoutOk(l) && HistoryOk(l, s) && ThreadOk(l, reserved, s, th) && th.pc.Walk?
    requires ReadOk(s, th.since, th.call.t, th.call.k, th.pc.at)
    ensures ThreadOk(l, reserved, s, Moved(l, s, th))
  {
    hide HistoryOk, MemOk, CallOk, LockOrder, WalkOk, Get;
    if th.call.Remove? {
      AcquireOk(l, reserved, s, th);
    } else if th.call.Insert? {
      HeldValue(l, s, th.since, th.pc.at);
      var i :| th.since <= i < |s.hist| && Get(s.hist[i].mem, th.call.t, th.call.k) == Some(s.mem.items[th.pc.at].val);
      assert !Passes(s.hist[i].mem, th.call);
    }
  }

  lemma ScanMoves(l: Layout, reserved: set<Name>, s: State, th: Thread)
    requires LayoutOk(l) && HistoryOk(l, s) && ThreadOk(l, reserved, s, th) && (th.pc.Scan? || th.pc.ScanNext?)
    ensures ThreadOk(l, reserved, s, Moved(l, s, th))
  {
    hide HistoryOk, MemOk, CallOk, LockOrder, Erased;
    var t, i, at := th.call.t, th.pc.i, th.pc.at;
    Now(l, s);
    assert Owns(l, t, l.base(t) + i);
    if th.pc.ScanNext? {
      NextOnChain(l, s, th.since, l.base(t) + i, at);
    } else if at !in s.mem.items {
      HeadOnChain(l, s, th.since, l.base(t) + i + 1);
      AcquireOk(l, reserved, s, th);
    } else if s.mem.items[at].key != th.call.k || s.mem.items[at].val != th.call.v {
      LinkedAt(l, s.mem, at);
      ItemsTable(l, s.mem, at, t, l.base(t) + i);
      var j := WasEntry(l, s, th.since, at);
      assert !Passes(s.hist[j].mem, th.call);
    } else {
      LinkedAt(l, s.mem, at);
    }
  }

  /** One item of enumerate's loop. */
  lemma EnumItem(l: Layout, s: State, since: nat, t: TableId, prev: Option<Key>, i: nat, at: Ptr, best: Option<Key>)
    requires LayoutOk(l) && HistoryOk(l, s) && since < |s.hist| && EnumOk(l, s, since, t, prev, i, at, best)
    requires at in s.mem.items
    ensures var it := s.mem.items[at];
            var best' := if Better(i, StartOffset(l, t, prev), prev, best, it.key) then Some(it.key) else best;
            EnumOk(l, s, since, t, prev, i, it.next, best')
  {
    hide HistoryOk, MemOk, Erased, MissedOrAhead, AbsentIn, PresentIn;
    Now(l, s);
    LinkedAt(l, s.mem, at);
    assert Owns(l, t, l.base(t) + i);
    ItemsTable(l, s.mem, at, t, l.base(t) + i);
    NextOnChain(l, s, since, l.base(t) + i, at);
    WasPresent(l, s, since, at);
    forall k | Beyond(l, t, prev, k) && Offset(l, t, k) == i && k != s.mem.items[at].key
               && MissedOrAhead(s, since, t, k, at)
      ensures MissedOrAhead(s, since, t, k, s.mem.items[at].next)
    {
      StepOver(l, s, since, t, k, at);
    }
  }

  lemma EnumMoves(l: Layout, reserved: set<Name>, s: State, th: Thread)
    requires LayoutOk(l) && HistoryOk(l, s) && ThreadOk(l, reserved, s, th) && th.pc.Enum?
    ensures ThreadOk(l, reserved, s, Moved(l, s, th))
  {
    hide HistoryOk, MemOk, CallOk, Erased, MissedOrAhead, AbsentIn, PresentIn;
    var t, prev, i, at, best := th.call.t, th.call.prev, th.pc.i, th.pc.at, th.pc.best;
    if at in s.mem.items {
      hide EnumOk;
      EnumItem(l, s, th.since, t, prev, i, at, best);
    } else {
      assert at == 0;
      forall k | Beyond(l, t, prev, k) && Offset(l, t, k) == i && !(best.Some? && best.value <= k)
        ensures AbsentIn(s.hist, th.since, |s.hist|, t, k)
      {
        RanOff(l, s, th.since, t, k);
      }
      if best.None? && i + 1 < l.size(t) {
        EnterEnum(l, s, th.since, t, prev, i + 1);
      }
    }
  }

  /** Every lock-free step leads to a point whose knowledge it establishes. */
  lemma MoveOk(l: Layout, reserved: set<Name>, s: State, th: Thread)
    requires LayoutOk(l) && HistoryOk(l, s) && ThreadOk(l, reserved, s, th) && LockFree(th.pc)
    ensures ThreadOk(l, reserved, s, Moved(l, s, th))
  {
    hide HistoryOk, MemOk, CallOk;
    match th.pc
    case Begin =>
      if th.call.t in s.mem.dead {
        RefusedNow(l, s, th.since, th.call);
      }
    case Enter => EnterOk(l, reserved, s, th);
    case Walk(_) => WalkMoves(l, reserved, s, th);
    case Read(x) => HeldValue(l, s, th.since, x);
    case Scan(_, _) => ScanMoves(l, reserved, s, th);
    case ScanNext(_, _) => ScanMoves(l, reserved, s, th);
    case Enum(_, _, _) => EnumMoves(l, reserved, s, th);
  }
}
