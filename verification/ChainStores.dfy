/**
 The steps made under locks: the checks agree with the atomic directory, a plan
 always exists and carries out the operation's effect, and every single store keeps
 memory equal to the directory outside the names still pending.
 */
module ChainStores {
  import opened Options
  import opened ChainMemory
  import opened DirSpec
  import opened ChainProtocol
  import opened ChainInvariant
  import opened ChainSteps

  // ----------------------------------------------------------------------
  // Plans
  // ----------------------------------------------------------------------

  /** After one store of a plan the next ones are still good. */
  lemma RestOk(l: Layout, m: Mem, held: set<Bkt>, e: Todo, e': Todo)
    requires LayoutOk(l) && MemOk(l, m) && TodoOk(l, m, held, e) && TodoOk(l, m, held, e') && InOrder(e, e')
    ensures TodoOk(l, Perform(l, m, e), held, e')
  {
    hide MemOk;
    if e'.DoPush? {
      forall y ensures !Entry(Perform(l, m, e), y, e'.n.tab, e'.n.key) {
        assert !Entry(m, y, e'.n.tab, e'.n.key);
      }
    } else {
      LinkedAt(l, m, e'.x);
      if e'.DoErase? && e'.prev != 0 {
        LinkedAt(l, m, e'.prev);
      }
    }
  }

  /** One store: memory stays well formed, changes only inside the held buckets, and gives
      its name the wanted value and no other name a new one. */
  lemma StoreOk(l: Layout, m: Mem, held: set<Bkt>, e: Todo)
    requires LayoutOk(l) && MemOk(l, m) && TodoOk(l, m, held, e)
    ensures MemOk(l, Perform(l, m, e)) && MemStep(l, m, Perform(l, m, e), held)
    ensures forall n, w :: Targets(e, n, w) ==> Get(Perform(l, m, e), n.tab, n.key) == w
    ensures forall n: Name :: (forall w :: !Targets(e, n, w)) ==>
      Get(Perform(l, m, e), n.tab, n.key) == Get(m, n.tab, n.key)
    ensures Perform(l, m, e).dead == if e.DoKill? then m.dead + {e.t} else m.dead
  {
    hide MemOk, MemStep, Get, Present;
    match e
    case DoPush(n, v) =>
      PushOk(l, m, n.tab, n.key, v);
      PushStep(l, m, n.tab, n.key, v, held);
      forall n': Name
        ensures Get(Perform(l, m, e), n'.tab, n'.key) == if n' == n then Some(v) else Get(m, n'.tab, n'.key)
      {
        PushGet(l, m, n.tab, n.key, v, n'.tab, n'.key);
      }
      assert Targets(e, n, Some(v));
    case DoErase(n, prev, x) =>
      LinkedAt(l, m, x);
      EraseOk(l, m, prev, x);
      EraseStep(l, m, prev, x, held);
      forall n': Name
        ensures Get(Perform(l, m, e), n'.tab, n'.key) == if n' == n then None else Get(m, n'.tab, n'.key)
      {
        EraseGet(l, m, prev, x, n'.tab, n'.key);
      }
      assert Targets(e, n, None);
    case DoSet(n, x, v) =>
      LinkedAt(l, m, x);
      SetValOk(l, m, x, v);
      SetValStep(l, m, x, v, held);
      forall n': Name
        ensures Get(Perform(l, m, e), n'.tab, n'.key) == if n' == n then Some(v) else Get(m, n'.tab, n'.key)
      {
        SetValGet(l, m, x, v, n'.tab, n'.key);
      }
      assert Targets(e, n, Some(v));
    case DoKill(t) =>
      SetDeadStep(l, m, t, held);
      forall n': Name ensures Get(Perform(l, m, e), n'.tab, n'.key) == Get(m, n'.tab, n'.key) {
        SetDeadGet(l, m, t, n'.tab, n'.key);
      }
  }

  /** The stores of a plan are good, in any memory where the checks have passed. */
  lemma PlanOk(l: Layout, m: Mem, c: Call, todo: seq<Todo>)
    requires LayoutOk(l) && MemOk(l, m) && Mutates(c) && Distinct(c) && Passes(m, c) && Plan(m, c, todo)
    ensures TodosOk(l, m, Locks(l, c), todo)
  {
    hide MemOk, LockOrder, Locks, Entry, Before;
    LockOrderOk(l, c);
    match c
    case Insert(t, k, _) => assert Name(t, k) in NamesOf(c);
    case Remove(t, k, _) => assert Name(t, k) in NamesOf(c);
    case Rename(dst, kdst, _, src, ksrc, _, sub) =>
      assert Name(dst, kdst) in NamesOf(c) && Name(src, ksrc) in NamesOf(c);
      assert sub.Some? ==> Name(sub.value.tab, sub.value.key) in NamesOf(c);
      assert forall i :: 2 <= i < |todo| ==> todo[i] == todo[2..][i - 2];
    case Kill(t, k, _) =>
      assert Name(t, k) in NamesOf(c);
      LocksOfKill(l, c);
  }

  /** A plan does to the directory exactly what the operation is specified to do. */
  lemma PlanIsEffect(l: Layout, m: Mem, d: Dir, c: Call, todo: seq<Todo>, n: Name)
    requires MemOk(l, m) && Mutates(c) && Distinct(c) && Passes(m, c) && Plan(m, c, todo)
    requires forall n :: n in NamesOf(c) ==> Find(d, n.tab, n.key) == Get(m, n.tab, n.key)
    ensures forall e, w :: e in todo && Targets(e, n, w) ==> Find(Effect(d, c), n.tab, n.key) == w
    ensures (forall e, w :: e in todo ==> !Targets(e, n, w)) ==>
      Find(Effect(d, c), n.tab, n.key) == Find(d, n.tab, n.key)
    ensures Effect(d, c).dead == if todo[0].DoKill? then d.dead + {todo[0].t} else d.dead
  {
    hide MemOk, Entry, Before;
    match c
    case Insert(t, k, v) => assert Targets(todo[0], Name(t, k), Some(v));
    case Remove(t, k, _) => assert Targets(todo[0], Name(t, k), None);
    case Rename(dst, kdst, _, src, ksrc, vsrc, sub) => RenamePlanIsEffect(l, m, d, c, todo, n);
    case Kill(t, k, _) => assert Targets(todo[1], Name(t, k), None);
  }

  lemma RenamePlanIsEffect(l: Layout, m: Mem, d: Dir, c: Call, todo: seq<Todo>, n: Name)
    requires MemOk(l, m) && c.Rename? && Distinct(c) && Passes(m, c) && Plan(m, c, todo)
    requires forall n :: n in NamesOf(c) ==> Find(d, n.tab, n.key) == Get(m, n.tab, n.key)
    ensures forall e, w :: e in todo && Targets(e, n, w) ==> Find(Effect(d, c), n.tab, n.key) == w
    ensures (forall e, w :: e in todo ==> !Targets(e, n, w)) ==>
      Find(Effect(d, c), n.tab, n.key) == Find(d, n.tab, n.key)
    ensures Effect(d, c).dead == d.dead && !todo[0].DoKill?
  {
    hide MemOk, Entry, Before;
    RenameEffect(d, c, n.tab, n.key);
    var src, dst := Name(c.src, c.ksrc), Name(c.dst, c.kdst);
    assert src in NamesOf(c) && dst in NamesOf(c);
    assert forall i :: 2 <= i < |todo| ==> todo[i] == todo[2..][i - 2];
    if Present(m, c.dst, c.kdst) {
      assert Targets(todo[0], dst, Some(c.vsrc)) && Targets(todo[1], src, None);
    } else {
      assert Targets(todo[1], dst, Some(c.vsrc)) && Targets(todo[0], src, None);
    }
    if c.sub.Some? {
      var sub := Name(c.sub.value.tab, c.sub.value.key);
      assert sub in NamesOf(c);
      if Present(m, sub.tab, sub.key) {
        assert Targets(todo[2], sub, Some(c.sub.value.val));
      }
    }
  }

  // ----------------------------------------------------------------------
  // Plans exist
  // ----------------------------------------------------------------------

  lemma EraserExists(l: Layout, m: Mem, n: Name) returns (e: Todo)
    requires MemOk(l, m) && Present(m, n.tab, n.key)
    ensures Erases(m, e, n)
  {
    hide MemOk;
    var x :| Entry(m, x, n.tab, n.key);
    PredecessorExists(l, m, x);
    var prev :| Before(m, prev, x);
    e := DoErase(n, prev, x);
  }

  lemma SetterExists(m: Mem, n: Name, v: Val) returns (e: Todo)
    requires Present(m, n.tab, n.key)
    ensures Sets(m, e, n, v)
  {
    var x :| Entry(m, x, n.tab, n.key);
    e := DoSet(n, x, v);
  }

  /** remove_and_kill's assertion: the front of the key's bucket is the one entry left. */
  lemma FrontIsTheEntry(l: Layout, m: Mem, c: Call, x: Ptr)
    requires LayoutOk(l) && MemOk(l, m) && c.Kill? && Passes(m, c) && Entry(m, x, c.t, c.k)
    ensures Head(m, Home(l, c.t, c.k)) == x && m.items[x].val == c.v && Before(m, 0, x)
  {
    hide MemOk;
    LinkedAt(l, m, x);
    var b := Home(l, c.t, c.k);
    HeadAt(l, m, b);
    var y := Head(m, b);
    assert Owns(l, c.t, b);
    ItemsTable(l, m, y, c.t, b);
    assert Entry(m, y, c.t, c.k);
    UniqueEntry(l, m, x, y, c.t, c.k);
  }

  lemma PlanExists(l: Layout, m: Mem, c: Call) returns (todo: seq<Todo>)
    requires LayoutOk(l) && MemOk(l, m) && Mutates(c) && Passes(m, c)
    requires c.Kill? ==> Present(m, c.t, c.k)
    ensures Plan(m, c, todo)
  {
    hide MemOk, Entry, Before;
    match c
    case Insert(t, k, v) => todo := [DoPush(Name(t, k), v)];
    case Remove(t, k, _) =>
      var e := EraserExists(l, m, Name(t, k));
      todo := [e];
    case Rename(dst, kdst, _, src, ksrc, vsrc, sub) =>
      var e := EraserExists(l, m, Name(src, ksrc));
      if Present(m, dst, kdst) {
        var d := SetterExists(m, Name(dst, kdst), vsrc);
        todo := [d, e];
      } else {
        todo := [e, DoPush(Name(dst, kdst), vsrc)];
      }
      if sub.Some? && Present(m, sub.value.tab, sub.value.key) {
        var z := SetterExists(m, Name(sub.value.tab, sub.value.key), sub.value.val);
        todo := todo + [z];
        assert todo[2..] == [z];
      }
    case Kill(t, k, _) =>
      var x :| Entry(m, x, t, k);
      FrontIsTheEntry(l, m, c, x);
      todo := [DoKill(t), DoErase(Name(t, k), 0, x)];
  }
}
