/**
 The bodies of include/chainhash.hh as they run while no other thread interferes
 (under the bucket locks): tables with bucket chains that loops search and change
 in place.  Tables given to one call may be the same object, and keys of one call
 may share a bucket or even an item.
 */
module ChainTable {
  import opened Options
  import opened ChainMemory
  import opened DirSpec

  datatype Entry = Entry(key: Key, val: Val)

  /** A chain holds each key at most once. */
  ghost predicate Unique(c: seq<Entry>) {
    forall i, j :: 0 <= i < j < |c| ==> c[i].key != c[j].key
  }

  function FindIn(c: seq<Entry>, k: Key): Option<Val> {
    if c == [] then None else if c[0].key == k then Some(c[0].val) else FindIn(c[1..], k)
  }

  lemma {:induction false} FindAt(c: seq<Entry>, i: nat)
    requires Unique(c) && i < |c|
    ensures FindIn(c, c[i].key) == Some(c[i].val)
  {
    if i > 0 {
      FindAt(c[1..], i - 1);
    }
  }

  lemma {:induction false} FindNowhere(c: seq<Entry>, k: Key)
    ensures FindIn(c, k) == None <==> forall i :: 0 <= i < |c| ==> c[i].key != k
  {
    if c != [] {
      FindNowhere(c[1..], k);
      assert forall i :: 0 < i < |c| ==> c[i] == c[1..][i - 1];
    }
  }

  lemma {:induction false} FindSomewhere(c: seq<Entry>, k: Key) returns (i: nat)
    requires FindIn(c, k).Some?
    ensures i < |c| && c[i] == Entry(k, FindIn(c, k).value)
  {
    if c[0].key == k {
      i := 0;
    } else {
      i := FindSomewhere(c[1..], k);
      i := i + 1;
    }
  }

  function Without(c: seq<Entry>, i: nat): seq<Entry>
    requires i < |c|
  {
    c[..i] + c[i + 1..]
  }

  /** Taking the item at `i` out of a chain removes its key and no other. */
  lemma {:induction false} FindWithout(c: seq<Entry>, i: nat, k: Key)
    requires Unique(c) && i < |c|
    ensures Unique(Without(c, i))
    ensures FindIn(Without(c, i), k) == if k == c[i].key then None else FindIn(c, k)
  {
    var c' := Without(c, i);
    forall j, j' | 0 <= j < j' < |c'| ensures c'[j].key != c'[j'].key {
      assert c'[j] == c[if j < i then j else j + 1] && c'[j'] == c[if j' < i then j' else j' + 1];
    }
    if i == 0 {
      assert c' == c[1..];
      if k == c[0].key {
        FindNowhere(c[1..], k);
      }
    } else {
      FindWithout(c[1..], i - 1, k);
      assert c'[1..] == Without(c[1..], i - 1);
    }
  }

  /** Overwriting the value of the item at `i` changes what its key has and nothing else. */
  lemma {:induction false} FindUpdated(c: seq<Entry>, i: nat, v: Val, k: Key)
    requires Unique(c) && i < |c|
    ensures Unique(c[i := c[i].(val := v)])
    ensures FindIn(c[i := c[i].(val := v)], k) == if k == c[i].key then Some(v) else FindIn(c, k)
  {
    var c' := c[i := c[i].(val := v)];
    forall j | 0 <= j < |c'| ensures c'[j].key == c[j].key {
    }
    if i > 0 {
      FindUpdated(c[1..], i - 1, v, k);
      assert c'[1..] == c[1..][i - 1 := c[i].(val := v)];
    }
  }

  /** Index of a key in a chain: the loop every operation starts with.  `i` is the length of the
      chain if the key is not there. */
  method Search(c: seq<Entry>, k: Key) returns (i: nat)
    ensures i <= |c|
    ensures i < |c| ==> c[i].key == k
    ensures i == |c| <==> FindIn(c, k).None?
  {
    i := 0;
    while i < |c| && c[i].key != k
      invariant i <= |c| && forall j :: 0 <= j < i ==> c[j].key != k
    {
      i := i + 1;
    }
    FindNowhere(c, k);
  }

  class Table {
    const nbuckets: nat
    const hash: Key -> nat
    var dead: bool
    var chains: seq<seq<Entry>>

    ghost predicate Valid()
      reads this
    {
      && nbuckets > 0 && |chains| == nbuckets
      && (forall b :: 0 <= b < nbuckets ==> Unique(chains[b]))
      && forall b, i :: 0 <= b < nbuckets && 0 <= i < |chains[b]| ==> hash(chains[b][i].key) % nbuckets == b
    }

    function Slot(k: Key): (b: nat)
      requires nbuckets > 0
      ensures b < nbuckets
    {
      hash(k) % nbuckets
    }

    ghost function Get(k: Key): Option<Val>
      requires Valid()
      reads this
    {
      FindIn(chains[Slot(k)], k)
    }

    constructor (nbuckets: nat, hash: Key -> nat)
      requires nbuckets > 0
      ensures Valid() && !dead && this.nbuckets == nbuckets && this.hash == hash
      ensures forall k :: Get(k) == None
    {
      this.nbuckets := nbuckets;
      this.hash := hash;
      dead := false;
      chains := seq(nbuckets, _ => []);
    }

    method Lookup(k: Key) returns (v: Option<Val>)
      requires Valid()
      ensures v == Get(k)
    {
      var c := chains[Slot(k)];
      var i := Search(c, k);
      if i == |c| {
        return None;
      }
      FindAt(c, i);
      return Some(c[i].val);
    }

    /** One chain is replaced by one that differs in key `k` only. */
    method Store(b: nat, c: seq<Entry>, ghost k: Key, ghost r: Option<Val>)
      requires Valid() && b == Slot(k) && Unique(c)
      requires forall i :: 0 <= i < |c| ==> Slot(c[i].key) == b
      requires forall k' :: FindIn(c, k') == if k' == k then r else FindIn(chains[b], k')
      modifies `chains
      ensures Valid() && forall k' :: Get(k') == if k' == k then r else old(Get(k'))
      ensures chains == old(chains)[b := c]
    {
      chains := chains[b := c];
    }

    /** chain.push_front(new item(k, v)) */
    method PushFront(k: Key, v: Val)
      requires Valid() && Get(k) == None
      modifies `chains
      ensures Valid() && forall k' :: Get(k') == if k' == k then Some(v) else old(Get(k'))
    {
      var c := chains[Slot(k)];
      FindNowhere(c, k);
      Store(Slot(k), [Entry(k, v)] + c, k, Some(v));
    }

    /** chain.erase_after of the item in front of index `i` */
    method EraseAt(b: nat, i: nat, ghost k: Key)
      requires Valid() && b < nbuckets && i < |chains[b]| && chains[b][i].key == k
      modifies `chains
      ensures Valid() && forall k' :: Get(k') == if k' == k then None else old(Get(k'))
    {
      var c := chains[b];
      forall k' ensures Unique(Without(c, i)) && FindIn(Without(c, i), k') == if k' == k then None else FindIn(c, k') {
        FindWithout(c, i, k');
      }
      Store(b, Without(c, i), k, None);
    }

    /** i.val = v */
    method SetAt(b: nat, i: nat, v: Val, ghost k: Key)
      requires Valid() && b < nbuckets && i < |chains[b]| && chains[b][i].key == k
      modifies `chains
      ensures Valid() && forall k' :: Get(k') == if k' == k then Some(v) else old(Get(k'))
      ensures SameKeys(old(chains), chains)
    {
      var c := chains[b];
      var c' := c[i := c[i].(val := v)];
      forall k' ensures Unique(c') && FindIn(c', k') == if k' == k then Some(v) else FindIn(c, k') {
        FindUpdated(c, i, v, k');
      }
      Store(b, c', k, Some(v));
    }

    method Insert(k: Key, v: Val, ghost world: map<TableId, Table>, ghost d: Dir, ghost t: TableId) returns (ok: bool)
      requires Shows(world, d) && t in world && world[t] == this
      modifies `chains
      ensures ok <==> Allowed(d, Call.Insert(t, k, v))
      ensures Shows(world, if ok then Effect(d, Call.Insert(t, k, v)) else d)
    {
      var found := Lookup(k);
      if dead || found.Some? {
        return false;
      }
      var c := chains[Slot(k)];
      var i := Search(c, k);
      if dead || i < |c| {
        return false;
      }
      PushFront(k, v);
      return true;
    }

    /** Both overloads: `only` is the value the entry must have, if one is given. */
    method Remove(k: Key, only: Option<Val>, ghost world: map<TableId, Table>, ghost d: Dir, ghost t: TableId)
      returns (ok: bool)
      requires Shows(world, d) && t in world && world[t] == this
      modifies `chains
      ensures ok <==> Allowed(d, Call.Remove(t, k, only))
      ensures Shows(world, if ok then Effect(d, Call.Remove(t, k, only)) else d)
    {
      var found := Lookup(k);
      if found.None? {
        return false;
      }
      var c := chains[Slot(k)];
      FindNowhere(c, k);
      var i := 0;
      while i < |c| && !(c[i].key == k && (only.None? || c[i].val == only.value))
        invariant i <= |c| && forall j :: 0 <= j < i ==> !(c[j].key == k && (only.None? || c[j].val == only.value))
      {
        i := i + 1;
      }
      if i == |c| {
        var j := FindSomewhere(c, k);
        return false;
      }
      FindAt(c, i);
      EraseAt(Slot(k), i, k);
      return true;
    }

    /** erase_after, as all tables see it. */
    method EraseName(b: nat, i: nat, ghost n: Name, ghost world: map<TableId, Table>, ghost d: Dir)
      requires Shows(world, d) && n.tab in world && world[n.tab] == this
      requires b < nbuckets && i < |chains[b]| && chains[b][i].key == n.key
      modifies `chains
      ensures Shows(world, d.(entries := d.entries - {n}))
    {
      EraseAt(b, i, n.key);
    }

    /** The overwrite of an item's value, as all tables see it. */
    method SetName(b: nat, i: nat, v: Val, ghost n: Name, ghost world: map<TableId, Table>, ghost d: Dir)
      requires Shows(world, d) && n.tab in world && world[n.tab] == this
      requires b < nbuckets && i < |chains[b]| && chains[b][i].key == n.key
      modifies `chains
      ensures Shows(world, d.(entries := d.entries[n := v])) && SameKeys(old(chains), chains)
    {
      SetAt(b, i, v, n.key);
    }

    /** push_front, as all tables see it. */
    method PushName(k: Key, v: Val, ghost n: Name, ghost world: map<TableId, Table>, ghost d: Dir)
      requires Shows(world, d) && n.tab in world && world[n.tab] == this && n.key == k && Find(d, n.tab, k).None?
      modifies `chains
      ensures Shows(world, d.(entries := d.entries[n := v]))
    {
      PushFront(k, v);
    }

    /** replace_from's last loop: this is the subdirectory's table. */
    method SetSubdir(k: Key, v: Val, ghost t: TableId, ghost world: map<TableId, Table>, ghost d: Dir)
      requires Shows(world, d) && t in world && world[t] == this
      modifies `chains
      ensures Shows(world, d.(entries := SetIfPresent(d.entries, Name(t, k), v)))
    {
      var c := chains[Slot(k)];
      var i := Search(c, k);
      if i < |c| {
        SetName(Slot(k), i, v, Name(t, k), world, d);
      }
    }

    /** rename: the destination is in this table. */
    method ReplaceFrom(kdst: Key, vpdst: Option<Val>, src: Table, ksrc: Key, vsrc: Val,
                       subdir: Table?, ksub: Key, vsub: Val,
                       ghost world: map<TableId, Table>, ghost d: Dir, ghost c: Call) returns (ok: bool)
      requires c.Rename? && c.kdst == kdst && c.vpdst == vpdst && c.ksrc == ksrc && c.vsrc == vsrc
      requires c.dst in world && world[c.dst] == this && c.src in world && world[c.src] == src
      requires if subdir == null then c.sub == None
               else c.sub.Some? && c.sub.value.tab in world && world[c.sub.value.tab] == subdir
                    && c.sub.value == Sub(c.sub.value.tab, ksub, vsub)
      requires Shows(world, d)
      modifies this, src, subdir
      ensures ok <==> Allowed(d, c)
      ensures Shows(world, if ok then Effect(d, c) else d)
    {
      if dead {
        return false;
      }
      if subdir != null && subdir.dead {
        return false;
      }
      var csrc := src.chains[src.Slot(ksrc)];
      var isrc := Search(csrc, ksrc);
      if isrc == |csrc| {
        return false;
      }
      FindAt(csrc, isrc);
      if csrc[isrc].val != vsrc {
        return false;
      }
      var cdst := chains[Slot(kdst)];
      var idst := Search(cdst, kdst);
      if idst < |cdst| {
        FindAt(cdst, idst);
        if vpdst.None? || cdst[idst].val != vpdst.value {
          return false;
        }
      } else if vpdst.Some? {
        return false;
      }
      MoveEntry(kdst, idst, src, ksrc, isrc, vsrc, world, d, c);
      if subdir != null {
        subdir.SetSubdir(ksub, vsub, c.sub.value.tab, world, MovedEntry(d, c));
      }
      return true;
    }

    /** The stores on destination and source, in the order the two branches make them. */
    method MoveEntry(kdst: Key, idst: nat, src: Table, ksrc: Key, isrc: nat, vsrc: Val,
                     ghost world: map<TableId, Table>, ghost d: Dir, ghost c: Call)
      requires Shows(world, d) && c.Rename? && c.kdst == kdst && c.ksrc == ksrc && c.vsrc == vsrc
      requires c.dst in world && world[c.dst] == this && c.src in world && world[c.src] == src
      requires isrc < |src.chains[src.Slot(ksrc)]| && src.chains[src.Slot(ksrc)][isrc].key == ksrc
      requires idst < |chains[Slot(kdst)]| ==> chains[Slot(kdst)][idst].key == kdst
      requires idst >= |chains[Slot(kdst)]| ==> Find(d, c.dst, kdst).None?
      modifies `chains, src`chains
      ensures Shows(world, MovedEntry(d, c))
    {
      ghost var ndst, nsrc := Name(c.dst, kdst), Name(c.src, ksrc);
      if idst < |chains[Slot(kdst)]| {
        SetName(Slot(kdst), idst, vsrc, ndst, world, d);
        src.EraseName(src.Slot(ksrc), isrc, nsrc, world, d.(entries := d.entries[ndst := vsrc]));
      } else {
        assert src.Get(ksrc).Some? by { FindAt(src.chains[src.Slot(ksrc)], isrc); }
        assert ndst != nsrc;
        src.EraseName(src.Slot(ksrc), isrc, nsrc, world, d);
        PushName(kdst, vsrc, ndst, world, d.(entries := d.entries - {nsrc}));
        assert (d.entries - {nsrc})[ndst := vsrc] == d.entries[ndst := vsrc] - {nsrc};
      }
    }

    /** The loops of remove_and_kill: every item is k -> v. */
    method HoldsOnly(k: Key, v: Val) returns (only: bool)
      requires Valid()
      ensures only <==> forall k' :: Get(k').Some? ==> k' == k && Get(k') == Some(v)
    {
      only := true;
      for i := 0 to nbuckets
        invariant only <==> forall b, j :: 0 <= b < i && 0 <= j < |chains[b]| ==> chains[b][j] == Entry(k, v)
      {
        for j := 0 to |chains[i]|
          invariant only <==>
            && (forall b, j :: 0 <= b < i && 0 <= j < |chains[b]| ==> chains[b][j] == Entry(k, v))
            && (forall j' :: 0 <= j' < j ==> chains[i][j'] == Entry(k, v))
        {
          if chains[i][j].key != k || chains[i][j].val != v {
            only := false;
          }
        }
      }
      EntriesAreItems(k, v);
    }

    lemma EntriesAreItems(k: Key, v: Val)
      requires Valid()
      ensures (forall b, j :: 0 <= b < nbuckets && 0 <= j < |chains[b]| ==> chains[b][j] == Entry(k, v))
         <==> (forall k' :: Get(k').Some? ==> k' == k && Get(k') == Some(v))
    {
      if forall b, j :: 0 <= b < nbuckets && 0 <= j < |chains[b]| ==> chains[b][j] == Entry(k, v) {
        forall k' | Get(k').Some? ensures k' == k && Get(k') == Some(v) {
          var i := FindSomewhere(chains[Slot(k')], k');
        }
      } else {
        var b, j :| 0 <= b < nbuckets && 0 <= j < |chains[b]| && chains[b][j] != Entry(k, v);
        FindAt(chains[b], j);
        assert Get(chains[b][j].key) == Some(chains[b][j].val);
      }
    }

    /** dead_ = true */
    method MarkDead(ghost world: map<TableId, Table>, ghost d: Dir, ghost t: TableId)
      requires Shows(world, d) && t in world && world[t] == this
      modifies `dead
      ensures Shows(world, d.(dead := d.dead + {t}))
    {
      dead := true;
    }

    method KillFront(k: Key, ghost v: Val, ghost world: map<TableId, Table>, ghost d: Dir, ghost t: TableId)
      requires Shows(world, d) && t in world && world[t] == this
      requires |chains[Slot(k)]| > 0 && chains[Slot(k)][0].key == k
      modifies this
      ensures Shows(world, Effect(d, Call.Kill(t, k, v)))
    {
      MarkDead(world, d, t);
      EraseName(Slot(k), 0, Name(t, k), world, d.(dead := d.dead + {t}));
    }

    /** rmdir: a live table is never without its last entry. */
    method RemoveAndKill(k: Key, v: Val, ghost world: map<TableId, Table>, ghost d: Dir, ghost t: TableId)
      returns (killed: bool)
      requires Shows(world, d) && t in world && world[t] == this
      requires !dead ==> exists k' :: Get(k').Some?
      modifies this
      ensures killed <==> Allowed(d, Call.Kill(t, k, v))
      ensures Shows(world, if killed then Effect(d, Call.Kill(t, k, v)) else d)
    {
      if dead {
        return false;
      }
      ghost var k' :| Get(k').Some?;
      killed := HoldsOnly(k, v);
      ShowsOnly(world, d, t, k, v);
      if !killed {
        return false;
      }
      killed := HoldsOnly(k, v);
      assert k' == k;
      FrontIsLast(k, v);
      KillFront(k, v, world, d, t);
    }

    lemma FrontIsLast(k: Key, v: Val)
      requires Valid() && Get(k).Some?
      requires forall k' :: Get(k').Some? ==> k' == k && Get(k') == Some(v)
      ensures |chains[Slot(k)]| > 0 && chains[Slot(k)][0] == Entry(k, v)
    {
      EntriesAreItems(k, v);
      var i := FindSomewhere(chains[Slot(k)], k);
    }

    /** The order of a directory listing: by bucket, then by key. */
    predicate Precedes(k: Key, k': Key)
      requires nbuckets > 0
    {
      Slot(k) < Slot(k') || (Slot(k) == Slot(k') && k < k')
    }

    /** The next key after the cursor in listing order. */
    method Enumerate(prev: Option<Key>) returns (out: Option<Key>)
      requires Valid()
      ensures out.Some? ==> Get(out.value).Some? && (prev.Some? ==> Precedes(prev.value, out.value))
      ensures forall k :: Get(k).Some? && (prev.Some? ==> Precedes(prev.value, k)) ==>
                out.Some? && (k == out.value || Precedes(out.value, k))
    {
      var prevbucket := prev.Some?;
      var start := if prev.Some? then Slot(prev.value) else 0;
      out := None;
      for i := start to nbuckets
        invariant prevbucket <==> prev.Some? && i == start
        invariant out.None?
        invariant forall k :: Get(k).Some? && (prev.Some? ==> Precedes(prev.value, k)) ==> Slot(k) >= i
      {
        var c := chains[i];
        for j := 0 to |c|
          invariant out.Some? ==>
            Get(out.value).Some? && Slot(out.value) == i && (prevbucket ==> prev.value < out.value)
          invariant forall j' :: 0 <= j' < j && (prevbucket ==> prev.value < c[j'].key) ==>
            out.Some? && out.value <= c[j'].key
        {
          if (!prevbucket || prev.value < c[j].key) && (out.None? || c[j].key < out.value) {
            FindAt(c, j);
            out := Some(c[j].key);
          }
        }
        forall k | Get(k).Some? && Slot(k) == i && (prevbucket ==> prev.value < k)
          ensures out.Some? && out.value <= k
        {
          var j := FindSomewhere(c, k);
        }
        if out.Some? {
          return;
        }
        prevbucket := false;
      }
    }
  }

  ghost predicate SameKeys(c: seq<seq<Entry>>, c': seq<seq<Entry>>) {
    && |c'| == |c| && (forall b :: 0 <= b < |c| ==> |c'[b]| == |c[b]|)
    && forall b, j :: 0 <= b < |c| && 0 <= j < |c[b]| ==> c'[b][j].key == c[b][j].key
  }

  /** The tables of `world` hold what directory `d` says, and are different tables. */
  ghost predicate Shows(world: map<TableId, Table>, d: Dir)
    reads world.Values
  {
    && (forall t, u :: t in world && u in world && world[t] == world[u] ==> t == u)
    && (forall t :: t in world ==> world[t].Valid() && (t in d.dead <==> world[t].dead))
    && (forall t, k :: t in world ==> Find(d, t, k) == world[t].Get(k))
  }

  lemma ShowsOnly(world: map<TableId, Table>, d: Dir, t: TableId, k: Key, v: Val)
    requires Shows(world, d) && t in world
    ensures OnlyEntry(d, t, k, v) <==> forall k' :: world[t].Get(k').Some? ==> k' == k && world[t].Get(k') == Some(v)
  {
    if OnlyEntry(d, t, k, v) {
      forall k' | world[t].Get(k').Some? ensures k' == k && world[t].Get(k') == Some(v) {
        assert Find(d, t, k') == world[t].Get(k');
      }
    } else {
      var n :| n in d.entries && n.tab == t && !(n.key == k && d.entries[n] == v);
      assert Find(d, t, n.key) == world[t].Get(n.key);
    }
  }
}
