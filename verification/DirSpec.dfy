/**
 What the directory operations of include/chainhash.hh promise, as single steps on
 a map from names to values and a set of killed tables.
 */
module DirSpec {
  import opened Options
  import opened ChainMemory

  datatype Name = Name(tab: TableId, key: Key)

  /** All tables at once: their entries, and which of them have been killed. */
  datatype Dir = Dir(entries: map<Name, Val>, dead: set<TableId>)

  /** The third table of a directory rename: its entry `key` is set to `val`. */
  datatype Sub = Sub(tab: TableId, key: Key, val: Val)

  datatype Call =
    | Insert(t: TableId, k: Key, v: Val)
    | Remove(t: TableId, k: Key, only: Option<Val>)     // both overloads of remove
    | Rename(dst: TableId, kdst: Key, vpdst: Option<Val>, src: TableId, ksrc: Key, vsrc: Val, sub: Option<Sub>)
    | Kill(t: TableId, k: Key, v: Val)                  // remove_and_kill
    | Lookup(t: TableId, k: Key)
    | Enumerate(t: TableId, prev: Option<Key>)

  function Find(d: Dir, t: TableId, k: Key): Option<Val> {
    if Name(t, k) in d.entries then Some(d.entries[Name(t, k)]) else None
  }

  /** Table `t` holds nothing but k -> v. */
  ghost predicate OnlyEntry(d: Dir, t: TableId, k: Key, v: Val) {
    forall n :: n in d.entries && n.tab == t ==> n.key == k && d.entries[n] == v
  }

  /** The checks each mutator makes under its locks. */
  ghost predicate Allowed(d: Dir, c: Call) {
    match c
    case Insert(t, k, v) => t !in d.dead && Find(d, t, k).None?
    case Remove(t, k, only) => Find(d, t, k).Some? && (only.Some? ==> Find(d, t, k) == only)
    case Rename(dst, kdst, vpdst, src, ksrc, vsrc, sub) =>
      && dst !in d.dead && (sub.Some? ==> sub.value.tab !in d.dead)
      && Find(d, src, ksrc) == Some(vsrc) && Find(d, dst, kdst) == vpdst
    case Kill(t, k, v) => t !in d.dead && OnlyEntry(d, t, k, v)
    case _ => false
  }

  function SetIfPresent(m: map<Name, Val>, n: Name, v: Val): map<Name, Val> {
    if n in m then m[n := v] else m
  }

  /** Source gone, destination set: a rename without its subdirectory part. */
  function MovedEntry(d: Dir, c: Call): Dir
    requires c.Rename?
  {
    d.(entries := d.entries[Name(c.dst, c.kdst) := c.vsrc] - {Name(c.src, c.ksrc)})
  }

  /** The effect of a mutator whose checks pass. */
  function Effect(d: Dir, c: Call): Dir {
    match c
    case Insert(t, k, v) => d.(entries := d.entries[Name(t, k) := v])
    case Remove(t, k, _) => d.(entries := d.entries - {Name(t, k)})
    case Rename(_, _, _, _, _, _, sub) =>
      var moved := MovedEntry(d, c);
      if sub.None? then moved
      else moved.(entries := SetIfPresent(moved.entries, Name(sub.value.tab, sub.value.key), sub.value.val))
    case Kill(t, k, _) => d.(entries := d.entries - {Name(t, k)}, dead := d.dead + {t})
    case _ => d
  }

  /** What callers of rename must respect: source, destination and subdirectory entries
      are three different names. */
  predicate Distinct(c: Call) {
    c.Rename? ==>
      && Name(c.dst, c.kdst) != Name(c.src, c.ksrc)
      && (c.sub.Some? ==>
            && Name(c.sub.value.tab, c.sub.value.key) != Name(c.src, c.ksrc)
            && Name(c.sub.value.tab, c.sub.value.key) != Name(c.dst, c.kdst))
  }

  /** Killed tables are empty. */
  ghost predicate DeadEmpty(d: Dir) {
    forall n :: n in d.entries ==> n.tab !in d.dead
  }

  /** Once a table is dead and empty, no operation brings it back or puts a name in it. */
  lemma DeadStaysEmpty(d: Dir, c: Call)
    requires DeadEmpty(d) && Allowed(d, c)
    ensures DeadEmpty(Effect(d, c)) && d.dead <= Effect(d, c).dead
  {
  }

  /** Looked up name by name: a rename removes the source, sets the destination, sets the
      subdirectory's entry when it exists, and leaves every other name alone. */
  lemma RenameEffect(d: Dir, c: Call, t: TableId, k: Key)
    requires c.Rename? && Distinct(c)
    ensures Find(Effect(d, c), t, k) ==
            if t == c.src && k == c.ksrc then None
            else if t == c.dst && k == c.kdst then Some(c.vsrc)
            else if c.sub.Some? && t == c.sub.value.tab && k == c.sub.value.key && Find(d, t, k).Some?
            then Some(c.sub.value.val)
            else Find(d, t, k)
  {
  }

  /** What the comment at the head of replace_from says about the tables afterwards. */
  ghost predicate Documented(d: Dir, c: Call)
    requires c.Rename?
  {
    && Find(d, c.src, c.ksrc) == None
    && Find(d, c.dst, c.kdst) == Some(c.vsrc)
    && (c.sub.Some? ==> Find(d, c.sub.value.tab, c.sub.value.key) == Some(c.sub.value.val))
  }

  /** The code does what its comment says exactly for three different names (a subdirectory entry
      may be the destination only if it is to get the same value) and an existing subdirectory
      entry: it overwrites that entry, but never creates it. */
  lemma RenameAsDocumented(d: Dir, c: Call)
    requires c.Rename?
    ensures Documented(Effect(d, c), c) <==>
            && Name(c.dst, c.kdst) != Name(c.src, c.ksrc)
            && (c.sub.Some? ==>
                  var n := Name(c.sub.value.tab, c.sub.value.key);
                  && n != Name(c.src, c.ksrc)
                  && if n == Name(c.dst, c.kdst) then c.sub.value.val == c.vsrc else n in d.entries)
  {
    if c.sub.Some? {
      var n := Name(c.sub.value.tab, c.sub.value.key);
      var moved := d.entries[Name(c.dst, c.kdst) := c.vsrc] - {Name(c.src, c.ksrc)};
      assert n in moved <==> n != Name(c.src, c.ksrc) && (n == Name(c.dst, c.kdst) || n in d.entries);
    }
  }
}
