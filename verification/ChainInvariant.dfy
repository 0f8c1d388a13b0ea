/**
 What holds in every reachable state of the chainhash protocol: what each thread
 knows at each point of its code, how the locks are held, and how far memory may
 lag behind the atomic directory.
 */
module ChainInvariant {
  import opened Options
  import opened ChainMemory
  import opened DirSpec
  import opened ChainProtocol

  // ----------------------------------------------------------------------
  // Moments from `from` up to (not including) `to`
  // ----------------------------------------------------------------------

  ghost predicate AbsentIn(h: seq<Snap>, from: nat, to: nat, t: TableId, k: Key) {
    exists i :: from <= i < to <= |h| && !Present(h[i].mem, t, k)
  }

  ghost predicate PresentIn(h: seq<Snap>, from: nat, to: nat, t: TableId, k: Key) {
    exists i :: from <= i < to <= |h| && Present(h[i].mem, t, k)
  }

  ghost predicate HoldsIn(h: seq<Snap>, from: nat, to: nat, t: TableId, k: Key, r: Option<Val>) {
    exists i :: from <= i < to <= |h| && Get(h[i].mem, t, k) == r
  }

  ghost predicate RefusedIn(h: seq<Snap>, from: nat, to: nat, c: Call) {
    exists i :: from <= i < to <= |h| && !Passes(h[i].mem, c)
  }

  /** The call took effect, or was refused, atomically on the directory just after moment `i`. */
  ghost predicate Atomic(h: seq<Snap>, from: nat, to: nat, c: Call, i: nat, ok: bool) {
    && from <= i && i + 1 < to <= |h|
    && (ok <==> Allowed(h[i].dir, c))
    && h[i + 1].dir == if ok then Effect(h[i].dir, c) else h[i].dir
  }

  // ----------------------------------------------------------------------
  // Walks
  // ----------------------------------------------------------------------

  /** An item that was on its chain at some moment since `since`. */
  ghost predicate Recent(s: State, since: nat, p: Ptr) {
    p in s.mem.items && (p in s.mem.live || (p in s.last && since <= s.last[p]))
  }

  ghost predicate OnChain(s: State, since: nat, b: Bkt, at: Ptr) {
    at == 0 || (Recent(s, since, at) && s.mem.items[at].bkt == b)
  }

  /** A walk standing at `at` still has the live entry in front of it. */
  ghost predicate Ahead(m: Mem, t: TableId, k: Key, at: Ptr) {
    exists y: Ptr :: Entry(m, y, t, k) && y <= at
  }

  ghost predicate MissedOrAhead(s: State, since: nat, t: TableId, k: Key, at: Ptr) {
    AbsentIn(s.hist, since, |s.hist|, t, k) || Ahead(s.mem, t, k, at)
  }

  ghost predicate WalkOk(l: Layout, s: State, since: nat, t: TableId, k: Key, at: Ptr)
    requires LayoutOk(l)
  {
    OnChain(s, since, Home(l, t, k), at) && MissedOrAhead(s, since, t, k, at)
  }

  ghost predicate ReadOk(s: State, since: nat, t: TableId, k: Key, x: Ptr) {
    Recent(s, since, x) && s.mem.items[x].tab == t && s.mem.items[x].key == k
  }

  ghost predicate ScanOk(l: Layout, s: State, since: nat, t: TableId, i: nat, at: Ptr) {
    i < l.size(t) && OnChain(s, since, l.base(t) + i, at)
  }

  /** The order in which enumerate goes through keys: by bucket, then by key. */
  ghost predicate Precedes(l: Layout, t: TableId, k: Key, k': Key)
    requires LayoutOk(l)
  {
    Offset(l, t, k) < Offset(l, t, k') || (Offset(l, t, k) == Offset(l, t, k') && k < k')
  }

  ghost predicate Beyond(l: Layout, t: TableId, prev: Option<Key>, k: Key)
    requires LayoutOk(l)
  {
    prev.Some? ==> Precedes(l, t, prev.value, k)
  }

  ghost predicate EnumOk(l: Layout, s: State, since: nat, t: TableId, prev: Option<Key>, i: nat, at: Ptr,
                         best: Option<Key>)
    requires LayoutOk(l)
  {
    && StartOffset(l, t, prev) <= i < l.size(t) && OnChain(s, since, l.base(t) + i, at)
    && (forall k :: Beyond(l, t, prev, k) && Offset(l, t, k) < i ==> AbsentIn(s.hist, since, |s.hist|, t, k))
    && (forall k :: Beyond(l, t, prev, k) && Offset(l, t, k) == i ==>
          MissedOrAhead(s, since, t, k, at) || (best.Some? && best.value <= k))
    && (best.Some? ==> Beyond(l, t, prev, best.value) && Offset(l, t, best.value) == i
                       && PresentIn(s.hist, since, |s.hist|, t, best.value))
  }

  /** What a finished enumerate promises: its key was there, lies beyond the cursor, and every
      key it skipped was missing at some moment of the call. */
  ghost predicate Enumerated(l: Layout, h: seq<Snap>, from: nat, to: nat, t: TableId, prev: Option<Key>, r: Option<Key>)
    requires LayoutOk(l)
  {
    && (r.Some? ==> Beyond(l, t, prev, r.value) && PresentIn(h, from, to, t, r.value))
    && (forall k :: Beyond(l, t, prev, k) && (r.Some? ==> Precedes(l, t, k, r.value)) ==> AbsentIn(h, from, to, t, k))
  }

  // ----------------------------------------------------------------------
  // Stores still to make
  // ----------------------------------------------------------------------

  /** Store `e` will give name `n` the value `w`. */
  ghost predicate Targets(e: Todo, n: Name, w: Option<Val>) {
    match e
    case DoPush(n', v) => n' == n && w == Some(v)
    case DoErase(n', _, _) => n' == n && w == None
    case DoSet(n', _, v) => n' == n && w == Some(v)
    case DoKill(_) => false
  }

  ghost predicate TodoOk(l: Layout, m: Mem, held: set<Bkt>, e: Todo)
    requires LayoutOk(l)
  {
    match e
    case DoPush(n, v) => Home(l, n.tab, n.key) in held && !Present(m, n.tab, n.key)
    case DoErase(n, _, _) => Home(l, n.tab, n.key) in held && Erases(m, e, n)
    case DoSet(n, _, v) => Home(l, n.tab, n.key) in held && Sets(m, e, n, v)
    case DoKill(t) => forall b :: Owns(l, t, b) ==> b in held
  }

  /** Two stores of one plan: different names, and an erase comes after sets and kills only. */
  ghost predicate InOrder(e: Todo, e': Todo) {
    && !e'.DoKill?
    && (!e.DoKill? ==> e.n != e'.n)
    && (e'.DoErase? ==> e.DoSet? || e.DoKill?)
  }

  ghost predicate TodosOk(l: Layout, m: Mem, held: set<Bkt>, todo: seq<Todo>)
    requires LayoutOk(l)
  {
    && todo != []
    && (forall e :: e in todo ==> TodoOk(l, m, held, e))
    && (forall i, j :: 0 <= i < j < |todo| ==> InOrder(todo[i], todo[j]))
  }

  // ----------------------------------------------------------------------
  // Threads
  // ----------------------------------------------------------------------

  ghost function Locks(l: Layout, c: Call): set<Bkt>
    requires LayoutOk(l)
  {
    set b | b in LockOrder(l, c)
  }

  ghost predicate Rising(want: seq<Bkt>) {
    forall i, j :: 0 <= i < j < |want| ==> want[i] < want[j]
  }

  ghost predicate Idle(th: Thread) {
    th.held == {} && th.commit.None?
  }

  ghost predicate ByKey(c: Call) {
    c.Insert? || c.Remove? || c.Lookup?
  }

  ghost predicate Mutates(c: Call) {
    c.Insert? || c.Remove? || c.Rename? || c.Kill?
  }

  /** The name store `e` is for still has, in memory, the value it had in directory `d`. */
  ghost predicate Untouched(m: Mem, d: Dir, e: Todo) {
    !e.DoKill? ==> Get(m, e.n.tab, e.n.key) == Find(d, e.n.tab, e.n.key)
  }

  ghost predicate CommitOk(l: Layout, s: State, th: Thread)
    requires LayoutOk(l) && th.pc.Commit?
  {
    && th.held == Locks(l, th.call)
    && TodosOk(l, s.mem, th.held, th.pc.todo)
    && (match th.commit
        case None => Passes(s.mem, th.call) && Plan(s.mem, th.call, th.pc.todo)
        case Some(i) =>
          && Atomic(s.hist, th.since, |s.hist|, th.call, i, true)
          && (forall e :: e in th.pc.todo ==> !e.DoKill?)
          && forall e :: e in th.pc.todo ==> Untouched(s.mem, s.hist[i].dir, e))
  }

  ghost predicate DoneOk(l: Layout, s: State, th: Thread)
    requires LayoutOk(l) && th.pc.Done?
  {
    && th.held == {}
    && match th.pc.res
       case Outcome(ok) =>
         && Mutates(th.call)
         && (match th.commit
             case Some(i) => Atomic(s.hist, th.since, |s.hist|, th.call, i, ok)
             case None => !ok && !th.call.Rename? && RefusedIn(s.hist, th.since, |s.hist|, th.call))
       case Value(r) =>
         th.call.Lookup? && HoldsIn(s.hist, th.since, |s.hist|, th.call.t, th.call.k, r)
       case Next(r) =>
         th.call.Enumerate? && Enumerated(l, s.hist, th.since, |s.hist|, th.call.t, th.call.prev, r)
  }

  ghost predicate ThreadOk(l: Layout, reserved: set<Name>, s: State, th: Thread)
    requires LayoutOk(l)
  {
    && th.since < |s.hist| && CallOk(reserved, th.call)
    && match th.pc
       case Begin => Idle(th) && (th.call.Insert? || th.call.Kill?)
       case Enter => Idle(th) && !th.call.Rename?
       case Walk(at) => Idle(th) && ByKey(th.call) && WalkOk(l, s, th.since, th.call.t, th.call.k, at)
       case Read(x) => Idle(th) && th.call.Lookup? && ReadOk(s, th.since, th.call.t, th.call.k, x)
       case Scan(i, at) => Idle(th) && th.call.Kill? && ScanOk(l, s, th.since, th.call.t, i, at)
       case ScanNext(i, at) => Idle(th) && th.call.Kill? && ScanOk(l, s, th.since, th.call.t, i, at) && at != 0
       case Enum(i, at, best) =>
         Idle(th) && th.call.Enumerate? && EnumOk(l, s, th.since, th.call.t, th.call.prev, i, at, best)
       case Acquire(want) =>
         && Mutates(th.call) && th.commit.None? && want != [] && Rising(want)
         && th.held + (set b | b in want) == Locks(l, th.call)
         && forall b :: b in th.held ==> b < want[0]
       case Decide => Mutates(th.call) && th.commit.None? && th.held == Locks(l, th.call)
       case Commit(todo) => Mutates(th.call) && CommitOk(l, s, th)
       case Release(ok) =>
         && Mutates(th.call) && th.held != {} && th.held <= Locks(l, th.call)
         && th.commit.Some? && Atomic(s.hist, th.since, |s.hist|, th.call, th.commit.value, ok)
       case Done(_) => DoneOk(l, s, th)
  }

  // ----------------------------------------------------------------------
  // Memory against the directory
  // ----------------------------------------------------------------------

  /** A mutator that has made some but not all of its stores. */
  ghost predicate Half(th: Thread) {
    th.pc.Commit? && th.commit.Some?
  }

  ghost predicate Owes(th: Thread, n: Name, w: Option<Val>) {
    Half(th) && exists e :: e in th.pc.todo && Targets(e, n, w)
  }

  /** Some half-done mutator has still to store to name `n`. */
  ghost predicate Pending(threads: map<Tid, Thread>, n: Name) {
    exists u, w :: u in threads && Owes(threads[u], n, w)
  }

  /** Memory is the directory, except on pending names, where the store to come makes it so. */
  ghost predicate Agrees(x: Snap) {
    && (forall u, n, w :: u in x.threads && Owes(x.threads[u], n, w) ==> Find(x.dir, n.tab, n.key) == w)
    && (forall n: Name :: !Pending(x.threads, n) ==> Find(x.dir, n.tab, n.key) == Get(x.mem, n.tab, n.key))
    && x.dir.dead == x.mem.dead
  }

  /** How an erased item was left behind. */
  ghost predicate Erased(s: State, x: Ptr)
    requires x in s.mem.items
  {
    var i := s.mem.items[x];
    && x in s.last && s.last[x] < |s.hist|
    && Entry(s.hist[s.last[x]].mem, x, i.tab, i.key) && s.hist[s.last[x]].mem.items[x].val == i.val
    && (i.next != 0 ==> Recent(s, s.last[x], i.next))
  }

  ghost predicate HistoryOk(l: Layout, s: State) {
    && |s.hist| > 0 && s.hist[|s.hist| - 1] == Snap(s.mem, s.dir, s.threads)
    && (forall x :: x in s.hist ==> MemOk(l, x.mem) && Agrees(x))
    && (forall x :: x in s.last ==> x in s.mem.items && x !in s.mem.live)
    && (forall x :: x in s.mem.items && x !in s.mem.live ==> Erased(s, x))
  }

  ghost predicate DirOk(reserved: set<Name>, d: Dir) {
    DeadEmpty(d) && forall n :: n in reserved ==> n.tab in d.dead || n in d.entries
  }

  ghost predicate LocksOk(threads: map<Tid, Thread>) {
    forall u, w :: u in threads && w in threads && u != w ==> threads[u].held !! threads[w].held
  }

  ghost predicate Inv(l: Layout, reserved: set<Name>, s: State) {
    && LayoutOk(l) && HistoryOk(l, s) && DirOk(reserved, s.dir) && LocksOk(s.threads)
    && forall u :: u in s.threads ==> ThreadOk(l, reserved, s, s.threads[u])
  }

  // ----------------------------------------------------------------------
  // The passing of one moment
  // ----------------------------------------------------------------------

  /** From `s` to `s'` one moment passed, in which at most one store was made, in buckets `bs`. */
  ghost predicate Tick(l: Layout, s: State, s': State, bs: set<Bkt>) {
    && |s.hist| > 0 && MemOk(l, s.mem) && MemOk(l, s'.mem) && MemStep(l, s.mem, s'.mem, bs)
    && s'.hist == s.hist + [Snap(s'.mem, s'.dir, s'.threads)]
    && (forall x :: x in s.last ==> x in s'.last && s'.last[x] == s.last[x])
    && (forall x :: x in s.mem.live && x !in s'.mem.live ==> x in s'.last && s'.last[x] == |s.hist| - 1)
  }

  lemma RecentTick(l: Layout, s: State, s': State, bs: set<Bkt>, since: nat, p: Ptr)
    requires Tick(l, s, s', bs) && since < |s.hist| && Recent(s, since, p)
    ensures Recent(s', since, p) && s'.mem.items[p].bkt == s.mem.items[p].bkt
    ensures s'.mem.items[p].tab == s.mem.items[p].tab && s'.mem.items[p].key == s.mem.items[p].key
  {
    hide MemOk;
    assert ItemStep(s.mem, s'.mem, p, bs);
  }

  lemma AbsentTick(l: Layout, s: State, s': State, bs: set<Bkt>, since: nat, t: TableId, k: Key)
    requires Tick(l, s, s', bs) && AbsentIn(s.hist, since, |s.hist|, t, k)
    ensures AbsentIn(s'.hist, since, |s'.hist|, t, k)
  {
    hide MemOk, MemStep, Present;
    var i :| since <= i < |s.hist| && !Present(s.hist[i].mem, t, k);
    assert s'.hist[i] == s.hist[i];
  }

  lemma PresentTick(l: Layout, s: State, s': State, bs: set<Bkt>, since: nat, t: TableId, k: Key)
    requires Tick(l, s, s', bs) && PresentIn(s.hist, since, |s.hist|, t, k)
    ensures PresentIn(s'.hist, since, |s'.hist|, t, k)
  {
    hide MemOk, MemStep, Present;
    var i :| since <= i < |s.hist| && Present(s.hist[i].mem, t, k);
    assert s'.hist[i] == s.hist[i];
  }

  lemma MissedTick(l: Layout, s: State, s': State, bs: set<Bkt>, since: nat, t: TableId, k: Key, at: Ptr)
    requires Tick(l, s, s', bs) && since < |s.hist| && MissedOrAhead(s, since, t, k, at)
    ensures MissedOrAhead(s', since, t, k, at)
  {
    hide MemOk;
    if AbsentIn(s.hist, since, |s.hist|, t, k) {
      AbsentTick(l, s, s', bs, since, t, k);
    } else {
      var y: Ptr :| Entry(s.mem, y, t, k) && y <= at;
      if !Entry(s'.mem, y, t, k) {
        assert s'.hist[|s.hist|].mem == s'.mem;
        assert !Present(s'.mem, t, k);
      }
    }
  }

  lemma OnChainTick(l: Layout, s: State, s': State, bs: set<Bkt>, since: nat, b: Bkt, at: Ptr)
    requires Tick(l, s, s', bs) && since < |s.hist| && OnChain(s, since, b, at)
    ensures OnChain(s', since, b, at)
  {
    hide MemOk, MemStep;
    if at != 0 {
      RecentTick(l, s, s', bs, since, at);
    }
  }

  lemma EnumTick(l: Layout, s: State, s': State, bs: set<Bkt>, since: nat, t: TableId, prev: Option<Key>,
                 i: nat, at: Ptr, best: Option<Key>)
    requires LayoutOk(l) && Tick(l, s, s', bs) && since < |s.hist| && EnumOk(l, s, since, t, prev, i, at, best)
    ensures EnumOk(l, s', since, t, prev, i, at, best)
  {
    hide Tick, AbsentIn, PresentIn, MissedOrAhead, OnChain, Beyond;
    OnChainTick(l, s, s', bs, since, l.base(t) + i, at);
    forall k | Beyond(l, t, prev, k) && Offset(l, t, k) < i ensures AbsentIn(s'.hist, since, |s'.hist|, t, k) {
      AbsentTick(l, s, s', bs, since, t, k);
    }
    forall k | Beyond(l, t, prev, k) && Offset(l, t, k) == i && !(best.Some? && best.value <= k)
      ensures MissedOrAhead(s', since, t, k, at)
    {
      MissedTick(l, s, s', bs, since, t, k, at);
    }
    if best.Some? {
      PresentTick(l, s, s', bs, since, t, best.value);
    }
  }

  /** Entries in buckets nobody stored into stay exactly as they were. */
  lemma EntryTick(l: Layout, m: Mem, m': Mem, bs: set<Bkt>, x: Ptr, t: TableId, k: Key)
    requires LayoutOk(l) && MemOk(l, m) && MemOk(l, m') && MemStep(l, m, m', bs) && Home(l, t, k) !in bs
    ensures Entry(m', x, t, k) <==> Entry(m, x, t, k)
    ensures Entry(m, x, t, k) ==> m'.items[x] == m.items[x]
  {
    hide MemOk;
    if x in m.items {
      LinkedAt(l, m, x);
      assert ItemStep(m, m', x, bs);
    } else if x in m'.items {
      LinkedAt(l, m', x);
    }
  }

  lemma PresentSame(l: Layout, m: Mem, m': Mem, bs: set<Bkt>, t: TableId, k: Key)
    requires LayoutOk(l) && MemOk(l, m) && MemOk(l, m') && MemStep(l, m, m', bs) && Home(l, t, k) !in bs
    ensures Present(m', t, k) <==> Present(m, t, k)
    ensures Get(m', t, k) == Get(m, t, k)
  {
    hide MemOk, MemStep;
    forall x ensures Entry(m', x, t, k) <==> Entry(m, x, t, k)
             ensures Entry(m, x, t, k) ==> m'.items[x].val == m.items[x].val {
      EntryTick(l, m, m', bs, x, t, k);
    }
    SameGet(l, m, m', t, k);
  }

  lemma BeforeTick(l: Layout, m: Mem, m': Mem, bs: set<Bkt>, prev: Ptr, x: Ptr, t: TableId, k: Key)
    requires LayoutOk(l) && MemOk(l, m) && MemOk(l, m') && MemStep(l, m, m', bs) && Home(l, t, k) !in bs
    requires Entry(m, x, t, k) && Before(m, prev, x)
    ensures Before(m', prev, x)
  {
    hide MemOk;
    LinkedAt(l, m, x);
    assert ItemStep(m, m', x, bs);
    if prev != 0 {
      LinkedAt(l, m, prev);
      assert ItemStep(m, m', prev, bs);
    }
  }

  lemma TodoTick(l: Layout, m: Mem, m': Mem, bs: set<Bkt>, held: set<Bkt>, e: Todo)
    requires LayoutOk(l) && MemOk(l, m) && MemOk(l, m') && MemStep(l, m, m', bs) && bs !! held
    requires TodoOk(l, m, held, e)
    ensures TodoOk(l, m', held, e)
  {
    hide MemOk, MemStep, Present, Before;
    match e
    case DoPush(n, v) =>
      PresentSame(l, m, m', bs, n.tab, n.key);
    case DoErase(n, prev, x) =>
      EntryTick(l, m, m', bs, x, n.tab, n.key);
      BeforeTick(l, m, m', bs, prev, x, n.tab, n.key);
    case DoSet(n, x, v) =>
      EntryTick(l, m, m', bs, x, n.tab, n.key);
    case DoKill(t) =>
  }
}
