/**
 The memory of include/chainhash.hh: bucket chains of items linked by next
 pointers, as lock-free readers see them.  Items are only ever pushed at the
 front of a chain, so an item's address stands for its age, and an erased item
 keeps its next pointer for readers that are still standing on it.

 Four stores change this memory: push_front, erase_after, the overwrite of an
 item's value, and the dead flag.
 */
module ChainMemory {
  import opened Options

  type Key = nat      // any totally ordered key type
  type Val = nat
  type TableId = nat
  type Ptr = nat      // item address; 0 ends a chain
  type Bkt = nat      // bucket address

  /** Where the buckets of each table lie in memory, and the hash function. */
  datatype Layout = Layout(base: TableId -> nat, size: TableId -> nat, hash: Key -> nat)

  /** Bucket `b` is in table `t`'s array. */
  ghost predicate Owns(l: Layout, t: TableId, b: Bkt) {
    l.base(t) <= b < l.base(t) + l.size(t)
  }

  ghost predicate LayoutOk(l: Layout) {
    && (forall t :: l.size(t) > 0)
    && (forall t, u, b :: Owns(l, t, b) && Owns(l, u, b) ==> t == u)
  }

  /** hash(k) % nbuckets_ */
  function Offset(l: Layout, t: TableId, k: Key): nat
    requires l.size(t) > 0
  {
    l.hash(k) % l.size(t)
  }

  /** &buckets_[hash(k) % nbuckets_] */
  function Home(l: Layout, t: TableId, k: Key): Bkt
    requires l.size(t) > 0
  {
    l.base(t) + Offset(l, t, k)
  }

  datatype Item = Item(bkt: Bkt, tab: TableId, key: Key, val: Val, next: Ptr)

  /** `live` are the items on a chain; the others have been erased. */
  datatype Mem = Mem(items: map<Ptr, Item>, heads: map<Bkt, Ptr>, live: set<Ptr>, dead: set<TableId>, top: Ptr)

  function Head(m: Mem, b: Bkt): Ptr {
    if b in m.heads then m.heads[b] else 0
  }

  // ----------------------------------------------------------------------
  // Chains
  // ----------------------------------------------------------------------

  /** One item: its successor is older and in the same bucket, and no live item of the
      bucket lies between the two. */
  ghost predicate Linked(l: Layout, m: Mem, p: Ptr)
    requires p in m.items
  {
    var i := m.items[p];
    && 0 < p <= m.top && i.next < p
    && l.size(i.tab) > 0 && i.bkt == Home(l, i.tab, i.key)
    && (i.next != 0 ==> i.next in m.items && m.items[i.next].bkt == i.bkt)
    && (p in m.live && i.next != 0 ==> i.next in m.live)
    && forall y :: y in m.live && y in m.items && m.items[y].bkt == i.bkt && y < p ==> y <= i.next
  }

  ghost predicate HeadOk(m: Mem, b: Bkt) {
    && (Head(m, b) != 0 ==> Head(m, b) in m.live && Head(m, b) in m.items && m.items[Head(m, b)].bkt == b)
    && forall y :: y in m.live && y in m.items && m.items[y].bkt == b ==> y <= Head(m, b)
  }

  /** Item `x` is the live entry for key `k` of table `t`. */
  ghost predicate Entry(m: Mem, x: Ptr, t: TableId, k: Key) {
    x in m.live && x in m.items && m.items[x].tab == t && m.items[x].key == k
  }

  ghost predicate Present(m: Mem, t: TableId, k: Key) {
    exists x :: Entry(m, x, t, k)
  }

  ghost predicate MemOk(l: Layout, m: Mem) {
    && m.live <= m.items.Keys
    && (forall p :: p in m.items ==> Linked(l, m, p))
    && (forall b :: HeadOk(m, b))
    && (forall x, y, t, k :: Entry(m, x, t, k) && Entry(m, y, t, k) ==> x == y)
  }

  // ----------------------------------------------------------------------
  // The stores
  // ----------------------------------------------------------------------

  /** chain.push_front(new item(k, v)) */
  function Push(l: Layout, m: Mem, t: TableId, k: Key, v: Val): Mem
    requires l.size(t) > 0
  {
    var b, p := Home(l, t, k), m.top + 1;
    m.(items := m.items[p := Item(b, t, k, v, Head(m, b))], heads := m.heads[b := p],
       live := m.live + {p}, top := p)
  }

  /** `prev` is before_begin() (0) or the live item in front of `x`. */
  ghost predicate Before(m: Mem, prev: Ptr, x: Ptr) {
    && x in m.live && x in m.items
    && (if prev == 0 then Head(m, m.items[x].bkt) == x
        else prev in m.live && prev in m.items && m.items[prev].next == x)
  }

  /** chain.erase_after(prev): one store that routes the chain around `x`. */
  function Erase(m: Mem, prev: Ptr, x: Ptr): Mem
    requires x in m.items && (prev != 0 ==> prev in m.items)
  {
    var next := m.items[x].next;
    if prev == 0 then m.(heads := m.heads[m.items[x].bkt := next], live := m.live - {x})
    else m.(items := m.items[prev := m.items[prev].(next := next)], live := m.live - {x})
  }

  /** i.val = v */
  function SetVal(m: Mem, x: Ptr, v: Val): Mem
    requires x in m.items
  {
    m.(items := m.items[x := m.items[x].(val := v)])
  }

  /** dead_ = true */
  function SetDead(m: Mem, t: TableId): Mem {
    m.(dead := m.dead + {t})
  }

  lemma LinkedAt(l: Layout, m: Mem, p: Ptr)
    requires MemOk(l, m) && p in m.items
    ensures Linked(l, m, p)
  {
  }

  lemma HeadAt(l: Layout, m: Mem, b: Bkt)
    requires MemOk(l, m)
    ensures HeadOk(m, b)
  {
  }

  lemma UniqueEntry(l: Layout, m: Mem, x: Ptr, y: Ptr, t: TableId, k: Key)
    requires MemOk(l, m) && Entry(m, x, t, k) && Entry(m, y, t, k)
    ensures x == y
  {
  }

  lemma LiveItems(l: Layout, m: Mem)
    requires MemOk(l, m)
    ensures m.live <= m.items.Keys
  {
  }

  lemma PushLinked(l: Layout, m: Mem, t: TableId, k: Key, v: Val, q: Ptr)
    requires MemOk(l, m) && l.size(t) > 0 && q in Push(l, m, t, k, v).items
    ensures Linked(l, Push(l, m, t, k, v), q)
  {
    hide MemOk;
    LiveItems(l, m);
    if q != m.top + 1 {
      LinkedAt(l, m, q);
    } else {
      HeadAt(l, m, Home(l, t, k));
      if Head(m, Home(l, t, k)) != 0 {
        LinkedAt(l, m, Head(m, Home(l, t, k)));
      }
    }
  }

  lemma PushHead(l: Layout, m: Mem, t: TableId, k: Key, v: Val, c: Bkt)
    requires MemOk(l, m) && l.size(t) > 0
    ensures HeadOk(Push(l, m, t, k, v), c)
  {
    hide MemOk;
    HeadAt(l, m, c);
    if Head(m, c) != 0 {
      LinkedAt(l, m, Head(m, c));
    }
    var m' := Push(l, m, t, k, v);
    forall y | y in m'.live && y in m'.items && m'.items[y].bkt == c ensures y <= Head(m', c) {
      if y != m.top + 1 {
        LinkedAt(l, m, y);
      }
    }
  }

  lemma PushOk(l: Layout, m: Mem, t: TableId, k: Key, v: Val)
    requires MemOk(l, m) && l.size(t) > 0 && !Present(m, t, k)
    ensures MemOk(l, Push(l, m, t, k, v))
  {
    hide Linked, HeadOk;
    var m' := Push(l, m, t, k, v);
    forall q | q in m'.items ensures Linked(l, m', q) {
      PushLinked(l, m, t, k, v, q);
    }
    forall c ensures HeadOk(m', c) {
      PushHead(l, m, t, k, v, c);
    }
    forall x, y, t', k' | Entry(m', x, t', k') && Entry(m', y, t', k') ensures x == y {
      assert x != m'.top ==> Entry(m, x, t', k');
      assert y != m'.top ==> Entry(m, y, t', k');
    }
  }

  /** Only one live item has `x` as its successor. */
  lemma OnlyPredecessor(l: Layout, m: Mem, prev: Ptr, x: Ptr, q: Ptr)
    requires MemOk(l, m) && Before(m, prev, x) && q in m.live && q in m.items && m.items[q].next == x
    ensures q == prev
  {
    hide MemOk;
    LinkedAt(l, m, q);
    LinkedAt(l, m, x);
    HeadAt(l, m, m.items[x].bkt);
    if prev != 0 {
      LinkedAt(l, m, prev);
    }
  }

  lemma EraseLinked(l: Layout, m: Mem, prev: Ptr, x: Ptr, q: Ptr)
    requires MemOk(l, m) && Before(m, prev, x) && q in m.items
    ensures q in Erase(m, prev, x).items && Linked(l, Erase(m, prev, x), q)
  {
    hide MemOk;
    LinkedAt(l, m, q);
    LinkedAt(l, m, x);
    if q in m.live && m.items[q].next == x {
      OnlyPredecessor(l, m, prev, x, q);
    }
  }

  lemma EraseHead(l: Layout, m: Mem, prev: Ptr, x: Ptr, c: Bkt)
    requires MemOk(l, m) && Before(m, prev, x)
    ensures HeadOk(Erase(m, prev, x), c)
  {
    hide MemOk;
    LinkedAt(l, m, x);
    HeadAt(l, m, c);
    HeadAt(l, m, m.items[x].bkt);
    if prev != 0 {
      LinkedAt(l, m, prev);
    }
  }

  lemma EraseOk(l: Layout, m: Mem, prev: Ptr, x: Ptr)
    requires MemOk(l, m) && Before(m, prev, x)
    ensures MemOk(l, Erase(m, prev, x))
  {
    hide Linked, HeadOk;
    var m' := Erase(m, prev, x);
    forall q | q in m'.items ensures Linked(l, m', q) {
      EraseLinked(l, m, prev, x, q);
    }
    forall c ensures HeadOk(m', c) {
      EraseHead(l, m, prev, x, c);
    }
    forall y, z, t, k | Entry(m', y, t, k) && Entry(m', z, t, k) ensures y == z {
      assert Entry(m, y, t, k) && Entry(m, z, t, k);
    }
  }

  lemma SetValOk(l: Layout, m: Mem, x: Ptr, v: Val)
    requires MemOk(l, m) && x in m.items
    ensures MemOk(l, SetVal(m, x, v))
  {
    var m' := SetVal(m, x, v);
    forall q | q in m'.items ensures Linked(l, m', q) {
      assert Linked(l, m, q);
    }
    forall c ensures HeadOk(m', c) {
      assert HeadOk(m, c);
    }
    forall y, z, t, k | Entry(m', y, t, k) && Entry(m', z, t, k) ensures y == z {
      assert Entry(m, y, t, k) && Entry(m, z, t, k);
    }
  }

  // ----------------------------------------------------------------------
  // The map a memory holds
  // ----------------------------------------------------------------------

  /** The value memory holds for a name, if any. */
  ghost function Get(m: Mem, t: TableId, k: Key): Option<Val> {
    if Present(m, t, k) then
      var x :| Entry(m, x, t, k);
      Some(m.items[x].val)
    else None
  }

  lemma GetEntry(l: Layout, m: Mem, x: Ptr, t: TableId, k: Key)
    requires MemOk(l, m) && Entry(m, x, t, k)
    ensures Get(m, t, k) == Some(m.items[x].val)
  {
    var y :| Entry(m, y, t, k) && Get(m, t, k) == Some(m.items[y].val);
    UniqueEntry(l, m, x, y, t, k);
  }

  lemma PushGet(l: Layout, m: Mem, t: TableId, k: Key, v: Val, t': TableId, k': Key)
    requires MemOk(l, m) && l.size(t) > 0 && !Present(m, t, k)
    ensures Get(Push(l, m, t, k, v), t', k') == if t' == t && k' == k then Some(v) else Get(m, t', k')
  {
    hide MemOk;
    var m' := Push(l, m, t, k, v);
    PushOk(l, m, t, k, v);
    if t' == t && k' == k {
      GetEntry(l, m', m'.top, t, k);
    } else {
      forall x | Entry(m, x, t', k') ensures Entry(m', x, t', k') && m'.items[x].val == m.items[x].val {
        LinkedAt(l, m, x);
      }
      SameGet(l, m, m', t', k');
    }
  }

  /** Two memories with the same live entries for a name hold the same value for it. */
  lemma SameGet(l: Layout, m: Mem, m': Mem, t: TableId, k: Key)
    requires MemOk(l, m) && MemOk(l, m')
    requires forall x :: Entry(m, x, t, k) ==> Entry(m', x, t, k) && m'.items[x].val == m.items[x].val
    requires forall x :: Entry(m', x, t, k) ==> Entry(m, x, t, k)
    ensures Get(m', t, k) == Get(m, t, k)
  {
    hide MemOk;
    if Present(m, t, k) {
      var x :| Entry(m, x, t, k);
      GetEntry(l, m, x, t, k);
      GetEntry(l, m', x, t, k);
    }
  }

  lemma EraseGet(l: Layout, m: Mem, prev: Ptr, x: Ptr, t': TableId, k': Key)
    requires MemOk(l, m) && Before(m, prev, x)
    ensures var i := m.items[x];
            Get(Erase(m, prev, x), t', k') == if t' == i.tab && k' == i.key then None else Get(m, t', k')
  {
    hide MemOk;
    var m' := Erase(m, prev, x);
    EraseOk(l, m, prev, x);
    if t' == m.items[x].tab && k' == m.items[x].key {
      forall y | Entry(m', y, t', k') ensures false {
        assert Entry(m, y, t', k') && Entry(m, x, t', k');
        UniqueEntry(l, m, x, y, t', k');
      }
    } else {
      SameGet(l, m, m', t', k');
    }
  }

  lemma SetValGet(l: Layout, m: Mem, x: Ptr, v: Val, t': TableId, k': Key)
    requires MemOk(l, m) && x in m.live && x in m.items
    ensures var i := m.items[x];
            Get(SetVal(m, x, v), t', k') == if t' == i.tab && k' == i.key then Some(v) else Get(m, t', k')
  {
    hide MemOk;
    var m' := SetVal(m, x, v);
    SetValOk(l, m, x, v);
    if t' == m.items[x].tab && k' == m.items[x].key {
      GetEntry(l, m', x, t', k');
    } else {
      SameGet(l, m, m', t', k');
    }
  }

  /** Every live item has a predecessor to erase it after. */
  lemma PredecessorExists(l: Layout, m: Mem, x: Ptr)
    requires MemOk(l, m) && x in m.live
    ensures exists prev :: Before(m, prev, x)
  {
    hide MemOk;
    LiveItems(l, m);
    LinkedAt(l, m, x);
    HeadAt(l, m, m.items[x].bkt);
    if Head(m, m.items[x].bkt) == x {
      assert Before(m, 0, x);
    } else {
      var prev := FindPredecessor(l, m, x, Head(m, m.items[x].bkt));
    }
  }

  lemma {:induction false} FindPredecessor(l: Layout, m: Mem, x: Ptr, q: Ptr) returns (prev: Ptr)
    requires MemOk(l, m) && x in m.live && x in m.items && q in m.live && q in m.items
    requires x < q && m.items[q].bkt == m.items[x].bkt
    ensures Before(m, prev, x)
    decreases q
  {
    hide MemOk;
    LinkedAt(l, m, q);
    LinkedAt(l, m, x);
    prev := q;
    if m.items[q].next != x {
      prev := FindPredecessor(l, m, x, m.items[q].next);
    }
  }

  // ----------------------------------------------------------------------
  // What any one store may do, seen from outside the buckets it works on
  // ----------------------------------------------------------------------

  /** Memory `m` became `m'` by a store inside the buckets `bs`. */
  ghost predicate MemStep(l: Layout, m: Mem, m': Mem, bs: set<Bkt>) {
    && (forall p :: p in m.items ==> ItemStep(m, m', p, bs))
    && (forall p :: p in m'.items && p !in m.items ==> p in m'.live && m'.items[p].bkt in bs)
    && (forall p :: p in m'.live && p in m.items ==> p in m.live)
    && (forall b :: b !in bs ==> Head(m', b) == Head(m, b))
    && (forall y, t, k :: Entry(m, y, t, k) ==> Entry(m', y, t, k) || !Present(m', t, k))
    && m.dead <= m'.dead
    && (forall t, b :: t in m'.dead && t !in m.dead && Owns(l, t, b) ==> b in bs)
  }

  ghost predicate ItemStep(m: Mem, m': Mem, p: Ptr, bs: set<Bkt>)
    requires p in m.items
  {
    && p in m'.items
    && m'.items[p].bkt == m.items[p].bkt && m'.items[p].tab == m.items[p].tab && m'.items[p].key == m.items[p].key
    && (p !in m.live || p !in m'.live || m.items[p].bkt !in bs ==> m'.items[p] == m.items[p])
    && (m.items[p].bkt !in bs ==> (p in m'.live <==> p in m.live))
  }

  lemma SameStep(l: Layout, m: Mem)
    ensures MemStep(l, m, m, {})
  {
  }

  lemma PushStep(l: Layout, m: Mem, t: TableId, k: Key, v: Val, bs: set<Bkt>)
    requires MemOk(l, m) && l.size(t) > 0 && Home(l, t, k) in bs
    ensures MemStep(l, m, Push(l, m, t, k, v), bs)
  {
    hide MemOk;
    var m' := Push(l, m, t, k, v);
    if m.top + 1 in m.items {
      LinkedAt(l, m, m.top + 1);
    }
    forall p | p in m.items ensures ItemStep(m, m', p, bs) {
      LinkedAt(l, m, p);
    }
    forall y, t', k' | Entry(m, y, t', k') ensures Entry(m', y, t', k') {
      LinkedAt(l, m, y);
    }
  }

  lemma EraseStep(l: Layout, m: Mem, prev: Ptr, x: Ptr, bs: set<Bkt>)
    requires MemOk(l, m) && Before(m, prev, x) && m.items[x].bkt in bs
    ensures MemStep(l, m, Erase(m, prev, x), bs)
  {
    hide MemOk;
    var m' := Erase(m, prev, x);
    LinkedAt(l, m, x);
    if prev != 0 {
      LinkedAt(l, m, prev);
    }
    forall y, t, k | Entry(m, y, t, k) && !Entry(m', y, t, k) ensures !Present(m', t, k) {
      forall z | Entry(m', z, t, k) ensures false {
        assert Entry(m, z, t, k);
        UniqueEntry(l, m, y, z, t, k);
      }
    }
  }

  lemma SetValStep(l: Layout, m: Mem, x: Ptr, v: Val, bs: set<Bkt>)
    requires MemOk(l, m) && x in m.live && x in m.items && m.items[x].bkt in bs
    ensures MemStep(l, m, SetVal(m, x, v), bs)
  {
    hide MemOk;
    var m' := SetVal(m, x, v);
    forall y, t, k | Entry(m, y, t, k) ensures Entry(m', y, t, k) {
    }
  }

  lemma SetDeadStep(l: Layout, m: Mem, t: TableId, bs: set<Bkt>)
    requires MemOk(l, m) && forall b :: Owns(l, t, b) ==> b in bs
    ensures MemStep(l, m, SetDead(m, t), bs) && MemOk(l, SetDead(m, t))
  {
    var m' := SetDead(m, t);
    assert forall x, t', k' :: Entry(m, x, t', k') <==> Entry(m', x, t', k');
    forall p | p in m'.items ensures Linked(l, m', p) {
      LinkedAt(l, m, p);
    }
    forall b ensures HeadOk(m', b) {
      HeadAt(l, m, b);
    }
  }

  lemma SetDeadGet(l: Layout, m: Mem, t: TableId, t': TableId, k': Key)
    requires MemOk(l, m) && MemOk(l, SetDead(m, t))
    ensures Get(SetDead(m, t), t', k') == Get(m, t', k')
  {
    hide MemOk;
    SameGet(l, m, SetDead(m, t), t', k');
  }
}
