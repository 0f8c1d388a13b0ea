/**
 Threads running the operations of include/chainhash.hh against each other: the
 unlocked pre-checks, item-by-item lock-free walks, lock acquisitions, the checks
 made under the locks, every store and every release are separate steps, and any
 thread may take the next one.

 Beside the memory the state carries a directory that changes in one atomic step
 with a mutator's first store, and the history of both; these are only there
 to state and prove what the results mean.
 */
module ChainProtocol {
  import opened Options
  import opened ChainMemory
  import opened DirSpec

  type Tid = nat

  /** A store a mutator has decided on but not yet made. */
  datatype Todo =
    | DoPush(n: Name, v: Val)
    | DoErase(n: Name, prev: Ptr, x: Ptr)
    | DoSet(n: Name, x: Ptr, v: Val)
    | DoKill(t: TableId)

  datatype Result = Outcome(ok: bool) | Value(v: Option<Val>) | Next(k: Option<Key>)

  datatype PC =
    | Begin                                            // about to read dead_ without a lock
    | Enter                                            // about to read a chain's head
    | Walk(at: Ptr)                                    // lookup's loop, about to look at an item
    | Read(x: Ptr)                                     // found, about to read the value
    | Scan(i: nat, at: Ptr)                            // remove_and_kill's unlocked loop
    | ScanNext(i: nat, at: Ptr)
    | Enum(i: nat, at: Ptr, best: Option<Key>)         // enumerate's loop
    | Acquire(want: seq<Bkt>)
    | Decide                                           // all locks held
    | Commit(todo: seq<Todo>)
    | Release(ok: bool)
    | Done(res: Result)

  /** `since` is the moment of the call, `commit` the moment just before its effect. */
  datatype Thread = Thread(call: Call, pc: PC, held: set<Bkt>, since: nat, commit: Option<nat>)

  datatype Snap = Snap(mem: Mem, dir: Dir, threads: map<Tid, Thread>)

  /** `hist` are all moments so far, the present one last; `last` is the latest moment at
      which an erased item was still on its chain. */
  datatype State = State(mem: Mem, dir: Dir, threads: map<Tid, Thread>, hist: seq<Snap>, last: map<Ptr, nat>)

  // ----------------------------------------------------------------------
  // The buckets a call locks, in the order it locks them
  // ----------------------------------------------------------------------

  function InsertSorted(b: Bkt, s: seq<Bkt>): seq<Bkt> {
    if s == [] then [b]
    else if b <= s[0] then [b] + s
    else [s[0]] + InsertSorted(b, s[1..])
  }

  /** std::sort */
  function Sort(s: seq<Bkt>): seq<Bkt> {
    if s == [] then [] else InsertSorted(s[0], Sort(s[1..]))
  }

  /** The vector `buckets` of replace_from, before sorting. */
  function RenameBuckets(l: Layout, c: Call): seq<Bkt>
    requires c.Rename? && LayoutOk(l)
  {
    var bdst, bsrc := Home(l, c.dst, c.kdst), Home(l, c.src, c.ksrc);
    var sub := if c.sub.None? then []
               else
                 var bsub := Home(l, c.sub.value.tab, c.sub.value.key);
                 if bsub != bsrc && bsub != bdst then [bsub] else [];
    sub + (if bsrc != bdst then [bsrc] else []) + [bdst]
  }

  function LockOrder(l: Layout, c: Call): seq<Bkt>
    requires LayoutOk(l)
  {
    match c
    case Insert(t, k, _) => [Home(l, t, k)]
    case Remove(t, k, _) => [Home(l, t, k)]
    case Rename(_, _, _, _, _, _, _) => Sort(RenameBuckets(l, c))
    case Kill(t, _, _) => seq(l.size(t), i requires 0 <= i => l.base(t) + i)
    case _ => []
  }

  // ----------------------------------------------------------------------
  // Steps that only read
  // ----------------------------------------------------------------------

  function FirstPC(l: Layout, c: Call): PC
    requires LayoutOk(l)
  {
    match c
    case Insert(_, _, _) => Begin
    case Kill(_, _, _) => Begin
    case Rename(_, _, _, _, _, _, _) => Acquire(LockOrder(l, c))
    case _ => Enter
  }

  /** The first bucket enumerate looks at. */
  function StartOffset(l: Layout, t: TableId, prev: Option<Key>): nat
    requires LayoutOk(l)
  {
    if prev.Some? then Offset(l, t, prev.value) else 0
  }

  /** enumerate's test of an item against the cursor and the best key so far. */
  predicate Better(i: nat, start: nat, prev: Option<Key>, best: Option<Key>, k: Key) {
    && (prev.Some? && i == start ==> prev.value < k)
    && (best.Some? ==> k < best.value)
  }

  /** One step of a thread that holds no lock. */
  function Advance(l: Layout, m: Mem, c: Call, pc: PC): PC
    requires LayoutOk(l)
  {
    match pc
    case Begin =>
      if (c.Insert? || c.Kill?) && c.t in m.dead then Done(Outcome(false)) else Enter
    case Enter =>
      (match c
       case Lookup(t, k) => Walk(Head(m, Home(l, t, k)))
       case Insert(t, k, _) => Walk(Head(m, Home(l, t, k)))
       case Remove(t, k, _) => Walk(Head(m, Home(l, t, k)))
       case Kill(t, _, _) => Scan(0, Head(m, l.base(t)))
       case Enumerate(t, prev) => Enum(StartOffset(l, t, prev), Head(m, l.base(t) + StartOffset(l, t, prev)), None)
       case _ => pc)
    case Walk(at) =>
      if c.Insert? || c.Remove? || c.Lookup? then
        if at !in m.items then
          (if c.Lookup? then Done(Value(None))
           else if c.Remove? then Done(Outcome(false))
           else Acquire(LockOrder(l, c)))
        else if m.items[at].key == c.k then
          (if c.Lookup? then Read(at)
           else if c.Insert? then Done(Outcome(false))
           else Acquire(LockOrder(l, c)))
        else Walk(m.items[at].next)
      else pc
    case Read(x) => if x in m.items then Done(Value(Some(m.items[x].val))) else pc
    case Scan(i, at) =>
      if !c.Kill? then pc
      else if at !in m.items then
        (if i + 1 < l.size(c.t) then Scan(i + 1, Head(m, l.base(c.t) + i + 1)) else Acquire(LockOrder(l, c)))
      else if m.items[at].key != c.k || m.items[at].val != c.v then Done(Outcome(false))
      else ScanNext(i, at)
    case ScanNext(i, at) => if at in m.items then Scan(i, m.items[at].next) else pc
    case Enum(i, at, best) =>
      if !c.Enumerate? then pc
      else if at !in m.items then
        (if best.Some? then Done(Next(best))
         else if i + 1 < l.size(c.t) then Enum(i + 1, Head(m, l.base(c.t) + i + 1), None)
         else Done(Next(None)))
      else
        var i' := m.items[at];
        Enum(i, i'.next, if Better(i, StartOffset(l, c.t, c.prev), c.prev, best, i'.key) then Some(i'.key) else best)
    case _ => pc
  }

  predicate LockFree(pc: PC) {
    pc.Begin? || pc.Enter? || pc.Walk? || pc.Read? || pc.Scan? || pc.ScanNext? || pc.Enum?
  }

  // ----------------------------------------------------------------------
  // The checks and plans made under the locks
  // ----------------------------------------------------------------------

  /** The conditions the locked code tests, on memory. */
  ghost predicate Passes(m: Mem, c: Call) {
    match c
    case Insert(t, k, _) => t !in m.dead && Get(m, t, k).None?
    case Remove(t, k, only) => Get(m, t, k).Some? && (only.Some? ==> Get(m, t, k) == only)
    case Rename(dst, kdst, vpdst, src, ksrc, vsrc, sub) =>
      && dst !in m.dead && (sub.Some? ==> sub.value.tab !in m.dead)
      && Get(m, src, ksrc) == Some(vsrc) && Get(m, dst, kdst) == vpdst
    case Kill(t, k, v) =>
      t !in m.dead && forall x :: x in m.live && x in m.items && m.items[x].tab == t ==>
        m.items[x].key == k && m.items[x].val == v
    case _ => false
  }

  /** A store into the live item of a name. */
  ghost predicate Sets(m: Mem, e: Todo, n: Name, v: Val) {
    e.DoSet? && e.n == n && e.v == v && Entry(m, e.x, n.tab, n.key)
  }

  /** The removal of the live item of a name from behind its predecessor. */
  ghost predicate Erases(m: Mem, e: Todo, n: Name) {
    e.DoErase? && e.n == n && Entry(m, e.x, n.tab, n.key) && Before(m, e.prev, e.x)
  }

  /** The stores of replace_from's last loop. */
  ghost predicate SubPlan(m: Mem, sub: Option<Sub>, todo: seq<Todo>) {
    if sub.Some? && Present(m, sub.value.tab, sub.value.key) then
      |todo| == 1 && Sets(m, todo[0], Name(sub.value.tab, sub.value.key), sub.value.val)
    else todo == []
  }

  /** The stores the locked code makes, in order, once its checks have passed. */
  ghost predicate Plan(m: Mem, c: Call, todo: seq<Todo>) {
    match c
    case Insert(t, k, v) => todo == [DoPush(Name(t, k), v)]
    case Remove(t, k, _) => |todo| == 1 && Erases(m, todo[0], Name(t, k))
    case Rename(dst, kdst, _, src, ksrc, vsrc, sub) =>
      |todo| >= 2 && SubPlan(m, sub, todo[2..])
      && (if Present(m, dst, kdst) then
            Sets(m, todo[0], Name(dst, kdst), vsrc) && Erases(m, todo[1], Name(src, ksrc))
          else
            Erases(m, todo[0], Name(src, ksrc)) && todo[1] == DoPush(Name(dst, kdst), vsrc))
    case Kill(t, k, _) =>
      |todo| == 2 && todo[0] == DoKill(t) && Erases(m, todo[1], Name(t, k)) && todo[1].prev == 0
    case _ => false
  }

  function Perform(l: Layout, m: Mem, e: Todo): Mem
    requires LayoutOk(l)
  {
    match e
    case DoPush(n, v) => Push(l, m, n.tab, n.key, v)
    case DoErase(_, prev, x) => if x in m.items && (prev != 0 ==> prev in m.items) then Erase(m, prev, x) else m
    case DoSet(_, x, v) => if x in m.items then SetVal(m, x, v) else m
    case DoKill(t) => SetDead(m, t)
  }

  // ----------------------------------------------------------------------
  // The state machine
  // ----------------------------------------------------------------------

  /** Names that only remove_and_kill may take out of a table (the entry "..").  A kill
      names one of them, and no remove or rename does. */
  ghost predicate CallOk(reserved: set<Name>, c: Call) {
    && Distinct(c)
    && match c
       case Remove(t, k, _) => Name(t, k) !in reserved
       case Rename(dst, kdst, _, src, ksrc, _, _) => Name(src, ksrc) !in reserved && Name(dst, kdst) !in reserved
       case Kill(t, k, _) => Name(t, k) in reserved
       case _ => true
  }

  /** The next state: thread `u` becomes `th`, and the new moment is recorded. */
  function After(s: State, m: Mem, d: Dir, u: Tid, th: Thread, last: map<Ptr, nat>): State {
    var threads := s.threads[u := th];
    State(m, d, threads, s.hist + [Snap(m, d, threads)], last)
  }

  datatype Step =
    | Start(u: Tid, c: Call)
    | Move(u: Tid)
    | Take(u: Tid)
    | Choose(u: Tid, todo: seq<Todo>)
    | Apply(u: Tid)
    | Drop(u: Tid, b: Bkt)

  ghost predicate NextBy(l: Layout, reserved: set<Name>, s: State, step: Step, s': State)
    requires LayoutOk(l)
  {
    match step
    case Start(u, c) =>
      && (u in s.threads ==> s.threads[u].pc.Done?) && CallOk(reserved, c) && |s.hist| > 0
      && s' == After(s, s.mem, s.dir, u, Thread(c, FirstPC(l, c), {}, |s.hist| - 1, None), s.last)
    case Move(u) =>
      && u in s.threads && LockFree(s.threads[u].pc)
      && s' == After(s, s.mem, s.dir, u,
                     s.threads[u].(pc := Advance(l, s.mem, s.threads[u].call, s.threads[u].pc)), s.last)
    case Take(u) =>
      && u in s.threads && s.threads[u].pc.Acquire? && |s.threads[u].pc.want| > 0
      && var th := s.threads[u];
         var b, rest := th.pc.want[0], th.pc.want[1..];
         && (forall w :: w in s.threads ==> b !in s.threads[w].held)
         && s' == After(s, s.mem, s.dir, u,
                        th.(pc := if rest == [] then Decide else Acquire(rest), held := th.held + {b}), s.last)
    case Choose(u, todo) =>
      && u in s.threads && s.threads[u].pc.Decide? && |s.hist| > 0
      && var th := s.threads[u];
         if Passes(s.mem, th.call) then
           && Plan(s.mem, th.call, todo)
           && s' == After(s, s.mem, s.dir, u, th.(pc := Commit(todo)), s.last)
         else
           s' == After(s, s.mem, s.dir, u, th.(pc := Release(false), commit := Some(|s.hist| - 1)), s.last)
    case Apply(u) =>
      && u in s.threads && s.threads[u].pc.Commit? && |s.threads[u].pc.todo| > 0 && |s.hist| > 0
      && var th := s.threads[u];
         var e, rest := th.pc.todo[0], th.pc.todo[1..];
         s' == After(s, Perform(l, s.mem, e), if th.commit.None? then Effect(s.dir, th.call) else s.dir, u,
                     th.(pc := if rest == [] then Release(true) else Commit(rest),
                         commit := if th.commit.None? then Some(|s.hist| - 1) else th.commit),
                     if e.DoErase? then s.last[e.x := |s.hist| - 1] else s.last)
    case Drop(u, b) =>
      && u in s.threads && s.threads[u].pc.Release? && b in s.threads[u].held
      && var th := s.threads[u];
         var held := th.held - {b};
         s' == After(s, s.mem, s.dir, u,
                     th.(pc := if held == {} then Done(Outcome(th.pc.ok)) else th.pc, held := held), s.last)
  }

  ghost predicate NextState(l: Layout, reserved: set<Name>, s: State, s': State)
    requires LayoutOk(l)
  {
    exists step :: NextBy(l, reserved, s, step, s')
  }

  ghost predicate Init(l: Layout, reserved: set<Name>, s: State) {
    && MemOk(l, s.mem) && s.mem.live == s.mem.items.Keys
    && s.threads == map[] && s.hist == [Snap(s.mem, s.dir, s.threads)] && s.last == map[]
    && (forall t, k :: Find(s.dir, t, k) == Get(s.mem, t, k)) && s.dir.dead == s.mem.dead
    && DeadEmpty(s.dir) && forall n :: n in reserved ==> n.tab in s.dir.dead || n in s.dir.entries
  }
}
