/**
 Which cells a reader of attic/bonsai.c can reach from the root at each moment of an
 operation: exactly those the last link store left in the tree.
 */
module BonsaiReach {
  import opened BonsaiTree
  import opened BonsaiHeap
  import opened BonsaiStores

  // ----------------------------------------------------------------------
  // Reachable cells
  // ----------------------------------------------------------------------

  /** `path` follows child pointers from `p` to `x`. */
  ghost predicate LinkPath(h: Heap, p: Ptr, x: Ptr, path: seq<Ptr>)
    decreases |path|
  {
    && |path| > 0 && path[0] == p && p in h
    && if |path| == 1 then p == x
       else (path[1] == h[p].l || path[1] == h[p].r) && LinkPath(h, path[1], x, path[1..])
  }

  ghost predicate Reachable(h: Heap, p: Ptr, x: Ptr) {
    exists path :: LinkPath(h, p, x, path)
  }

  lemma ReachStep(h: Heap, p: Ptr, x: Ptr)
    ensures Reachable(h, p, x) <==> p in h && (p == x || Reachable(h, h[p].l, x) || Reachable(h, h[p].r, x))
  {
    if path :| LinkPath(h, p, x, path) {
      if |path| > 1 {
        assert LinkPath(h, path[1], x, path[1..]);
      }
    }
    if p in h && p == x {
      assert LinkPath(h, p, x, [p]);
    }
    if p in h {
      ReachOn(h, p, h[p].l, x);
      ReachOn(h, p, h[p].r, x);
    }
  }

  lemma ReachOn(h: Heap, p: Ptr, q: Ptr, x: Ptr)
    requires p in h && (q == h[p].l || q == h[p].r)
    ensures Reachable(h, q, x) ==> Reachable(h, p, x)
  {
    if path :| LinkPath(h, q, x, path) {
      assert ([p] + path)[1..] == path;
      assert LinkPath(h, p, x, [p] + path);
    }
  }

  /** From the root of a tree in memory, exactly the tree's cells can be reached. */
  lemma {:induction false} ReachableIsAddrs(h: Heap, s: Shape, x: Ptr)
    requires Rep(h, s) && 0 !in h
    ensures Reachable(h, PtrOf(s), x) <==> x in Addrs(s)
  {
    ReachStep(h, PtrOf(s), x);
    if s.At? {
      ReachableIsAddrs(h, s.l, x);
      ReachableIsAddrs(h, s.r, x);
    }
  }

  // ----------------------------------------------------------------------
  // The published tree at each moment
  // ----------------------------------------------------------------------

  /** How many of the first `t` stores there are up to the last one that sets a link. */
  function LastLink(acts: seq<Act>, t: nat): (n: nat)
    requires t <= |acts|
    ensures n <= t
  {
    if t == 0 then 0 else if acts[t - 1].SetChild? then t else LastLink(acts, t - 1)
  }

  lemma {:induction false} LastLinkPrefix(a: seq<Act>, b: seq<Act>, t: nat)
    requires t <= |a|
    ensures LastLink(a + b, t) == LastLink(a, t)
  {
    if t > 0 {
      LastLinkPrefix(a, b, t - 1);
    }
  }

  lemma {:induction false} LastLinkSame(acts: seq<Act>, a: nat, t: nat)
    requires a <= t <= |acts| && forall i :: a <= i < t ==> !acts[i].SetChild?
    ensures LastLink(acts, t) == LastLink(acts, a)
    decreases t
  {
    if a < t {
      LastLinkSame(acts, a, t - 1);
    }
  }

  /** Each cell is in `now` as often as it was in `s` or was allocated, less the times it was freed. */
  ghost predicate AddsUp(s: Shape, acts: seq<Act>, now: Shape) {
    forall x :: Uses(now, x) + Frees(acts, x) == Uses(s, x) + Allocs(acts, x)
  }

  /** After `t` stores the memory below the old pointer to `s` is the tree `now`, which has changed only
      by what was allocated and freed up to the last link store. */
  ghost predicate Published(h: Heap, s: Shape, acts: seq<Act>, t: nat, now: Shape)
    requires t <= |acts|
  {
    && Rep(Run(h, acts[..t]), now) && PtrOf(now) == PtrOf(s)
    && AddsUp(s, acts[..LastLink(acts, t)], now)
  }

  lemma StartPublished(h: Heap, s: Shape, acts: seq<Act>)
    requires Rep(h, s)
    ensures Published(h, s, acts, 0, s)
  {
    assert acts[..0] == [];
  }

  /** Allocation and freeing publish nothing. */
  lemma {:induction false} QuietPublished(h: Heap, brk: nat, s: Shape, acts: seq<Act>, a: nat, t: nat, now: Shape)
    requires a <= t <= |acts| && Published(h, s, acts, a, now) && Below(h, brk)
    requires forall i :: a <= i < t ==> acts[i].New? || acts[i].Free?
    requires forall p: Ptr :: Allocs(acts, p) <= if p > brk then 1 else 0
    ensures Published(h, s, acts, t, now)
    decreases t
  {
    if a < t {
      QuietPublished(h, brk, s, acts, a, t - 1, now);
      RunMore(h, acts, t - 1);
      var g := Run(h, acts[..t - 1]);
      if acts[t - 1].New? {
        NewIsFresh(h, brk, acts, t - 1);
      }
      RepAddrs(g, now);
      RepFrame(g, Do(g, acts[t - 1]), now);
    }
  }

  /** What is published below a node, seen from the node. */
  lemma PublishedUp(h: Heap, brk: nat, s: Shape, left: bool, acts: seq<Act>, t: nat, sub: Shape) returns (now: Shape)
    requires s.At? && Rep(h, s) && Unshared(s) && Below(h, brk) && t <= |acts|
    requires var d := if left then s.l else s.r;
             Published(h, d, acts, t, sub) && forall i :: 0 <= i < |acts| ==> KnownAct(acts[i], Addrs(d), brk)
    ensures Published(h, s, acts, t, now)
  {
    var d, e := if left then s.l else s.r, if left then s.r else s.l;
    var g := Run(h, acts[..t]);
    UnsharedParts(s);
    CellKept(h, acts, t, s.p, Addrs(d), brk);
    RepAddrs(h, e);
    forall x | x in Addrs(e) ensures x in g && g[x] == h[x] {
      CellKept(h, acts, t, x, Addrs(d), brk);
    }
    RepFrame(h, g, e);
    now := if left then s.(l := sub) else s.(r := sub);
  }

  lemma PublishedLonger(h: Heap, s: Shape, a: seq<Act>, b: seq<Act>, t: nat, now: Shape)
    requires t <= |a| && Published(h, s, a, t, now)
    ensures Published(h, s, a + b, t, now)
  {
    LastLinkPrefix(a, b, t);
    assert (a + b)[..t] == a[..t] && (a + b)[..LastLink(a, t)] == a[..LastLink(a, t)];
  }

  lemma NoCounts(acts: seq<Act>, x: Ptr)
    requires forall i :: 0 <= i < |acts| ==> acts[i].SetChild? || acts[i].SetSize?
    ensures Allocs(acts, x) == 0 && Frees(acts, x) == 0
  {
    if acts != [] {
      NoCounts(acts[1..], x);
    }
  }

  /** The tree after node `s` has been given the child that `c` built. */
  function Given(s: Shape, left: bool, c: Out, size: int): Shape
    requires s.At?
  {
    if left then s.(l := c.s, size := size) else s.(r := c.s, size := size)
  }

  lemma GivenAddsUp(s: Shape, left: bool, c: Out, brk: nat, size: int, link: Act)
    requires s.At? && link.SetChild?
    requires var d := if left then s.l else s.r; forall x :: Accounts(Uses(d, x), brk, c, x)
    ensures AddsUp(s, c.acts + [link], Given(s, left, c, size))
  {
    var d := if left then s.l else s.r;
    forall x
      ensures Uses(Given(s, left, c, size), x) + Frees(c.acts + [link], x) == Uses(s, x) + Allocs(c.acts + [link], x)
    {
      CountsConcat(c.acts, [link], x);
      NoCounts([link], x);
      assert Accounts(Uses(d, x), brk, c, x);
    }
  }

  /** tree_node in place: the link store publishes what `c` built. */
  lemma InPlacePublished(h: Heap, brk: nat, s: Shape, left: bool, c: Out, size: int, t: nat) returns (now: Shape)
    requires s.At? && Rep(h, s) && Unshared(s) && Rep(Run(h, c.acts), c.s) && s.p !in Addrs(c.s)
    requires Below(h, brk) && Confined(c, Addrs(if left then s.l else s.r), brk)
    requires var d := if left then s.l else s.r; forall x :: Accounts(Uses(d, x), brk, c, x)
    requires |c.acts| < t <= |c.acts| + 2
    ensures Published(h, s, c.acts + [SetChild(s.p, left, PtrOf(c.s)), SetSize(s.p, size)], t, now)
  {
    var e, d := if left then s.r else s.l, if left then s.l else s.r;
    var link, count := SetChild(s.p, left, PtrOf(c.s)), SetSize(s.p, size);
    var acts, n, g := c.acts + [link, count], |c.acts|, Run(h, c.acts);
    UnsharedParts(s);
    RepAddrs(h, e);
    assert c.acts[..n] == c.acts;
    CellKept(h, c.acts, n, s.p, Addrs(d), brk);
    forall x | x in Addrs(e) ensures x in g && g[x] == h[x] {
      CellKept(h, c.acts, n, x, Addrs(d), brk);
    }
    assert acts[..n] == c.acts && acts[..n + 1] == c.acts + [link];
    RunMore(h, acts, n);
    RunMore(h, acts, n + 1);
    var g' := Run(h, acts[..t]);
    RepFrame(h, g', e);
    RepFrame(g, g', c.s);
    now := Given(s, left, c, if t == n + 1 then s.size else size);
    GivenAddsUp(s, left, c, brk, now.size, link);
    assert LastLink(acts, n + 1) == n + 1 && LastLink(acts, t) == n + 1;
  }

  /** One level of the recursion of tree_insert and tree_remove. */
  lemma StepPublished(h: Heap, brk: nat, s: Shape, left: bool, c: Out, key: nat, removing: bool, t: nat, sub: Shape)
    returns (now: Shape)
    requires s.At? && Good(h, brk) && Rep(h, s) && Unshared(s) && Sized(Erase(s)) && Sized(Erase(c.s))
    requires var d := if left then s.l else s.r;
             && Sound(h, c, Addrs(d), key, removing) && Confined(c, Addrs(d), brk)
             && (forall x :: Accounts(Uses(d, x), brk, c, x))
             && Published(h, d, c.acts, if t < |c.acts| then t else |c.acts|, sub)
    requires Sized(Erase(s.l)) && Sized(Erase(s.r))
    requires var l, r := if left then c.s else s.l, if left then s.r else c.s;
             var o := After(c, TreeBalance(c.brk, s.p, s.kv, l, r, left, true));
             t <= |o.acts| && forall p: Ptr :: Allocs(o.acts, p) <= if p > brk then 1 else 0
    ensures var l, r := if left then c.s else s.l, if left then s.r else c.s;
            Published(h, s, After(c, TreeBalance(c.brk, s.p, s.kv, l, r, left, true)).acts, t, now)
  {
    hide Published, TreeBalance, Sound;
    var l, r := if left then c.s else s.l, if left then s.r else c.s;
    var d := if left then s.l else s.r;
    var b := TreeBalance(c.brk, s.p, s.kv, l, r, left, true);
    if t <= |c.acts| || Rotates(l, r) {
      var t' := if t < |c.acts| then t else |c.acts|;
      now := PublishedUp(h, brk, s, left, c.acts, t', sub);
      PublishedLonger(h, s, c.acts, b.acts, t', now);
      if t > |c.acts| {
        BalanceLinks(c.brk, s.p, s.kv, l, r, left, true);
        QuietPublished(h, brk, s, c.acts + b.acts, t', t, now);
      }
    } else {
      BalanceKeeps(c.brk, s.p, s.kv, l, r, left, true);
      SoundRep(h, c, Addrs(d), key, removing);
      assert s.p !in Addrs(c.s) by {
        UnsharedParts(s);
        RepAddrs(h, s);
        UsesIsAddrs(d, s.p);
        assert Accounts(Uses(d, s.p), brk, c, s.p);
        StaysOut(Uses(d, s.p), brk, c, s.p);
      }
      now := InPlacePublished(h, brk, s, left, c, b.s.size, t);
    }
  }

  lemma SoundRep(h: Heap, o: Out, touched: set<Ptr>, key: nat, removing: bool)
    requires Sound(h, o, touched, key, removing)
    ensures Rep(Run(h, o.acts), o.s)
  {
  }

  lemma {:induction false} InsertPublished(h: Heap, brk: nat, s: Shape, kv: Pair, t: nat) returns (now: Shape)
    requires Good(h, brk) && Rep(h, s) && Unshared(s) && Sized(Erase(s)) && Ordered(Erase(s))
    requires t <= |TreeInsert(brk, s, kv).acts|
    ensures Published(h, s, TreeInsert(brk, s, kv).acts, t, now)
    decreases s
  {
    hide Published, Sound, Confined;
    ErasedParts(s);
    var o := TreeInsert(brk, s, kv);
    forall p: Ptr ensures Allocs(o.acts, p) <= if p > brk then 1 else 0 {
      InsertAccounts(brk, s, kv, p);
    }
    if s.Nil? || kv.key == s.kv.key {
      now := s;
      StartPublished(h, s, o.acts);
      QuietPublished(h, brk, s, o.acts, 0, t, s);
    } else {
      var left := kv.key < s.kv.key;
      var d := if left then s.l else s.r;
      var c := TreeInsert(brk, d, kv);
      UnsharedParts(s);
      InsertSound(h, brk, d, kv);
      KnownSelf(d, brk);
      InsertConfined(brk, d, kv, Addrs(d), brk);
      forall x ensures Accounts(Uses(d, x), brk, c, x) {
        InsertAccounts(brk, d, kv, x);
      }
      InsertKeys(Erase(d), kv);
      var sub := InsertPublished(h, brk, d, kv, if t < |c.acts| then t else |c.acts|);
      now := StepPublished(h, brk, s, left, c, kv.key, false, t, sub);
    }
  }

  lemma {:induction false} RemovePublished(h: Heap, brk: nat, s: Shape, key: nat, t: nat) returns (now: Shape)
    requires Good(h, brk) && Rep(h, s) && Unshared(s) && Sized(Erase(s)) && Ordered(Erase(s))
    requires t <= |TreeRemove(brk, s, key).acts|
    ensures Published(h, s, TreeRemove(brk, s, key).acts, t, now)
    decreases s
  {
    hide Published, Sound, Confined;
    ErasedParts(s);
    var o := TreeRemove(brk, s, key);
    forall p: Ptr ensures Allocs(o.acts, p) <= if p > brk then 1 else 0 {
      RemoveAccounts(brk, s, key, p);
    }
    if s.Nil? || key == s.kv.key {
      now := s;
      if s.At? {
        DelprimeLinks(brk, s.l, s.r);
        NoLinksThen(TreeDelprime(brk, s.l, s.r), TreeDelprime(brk, s.l, s.r), s.p);
      }
      StartPublished(h, s, o.acts);
      QuietPublished(h, brk, s, o.acts, 0, t, s);
    } else {
      var left := key < s.kv.key;
      var d := if left then s.l else s.r;
      var c := TreeRemove(brk, d, key);
      UnsharedParts(s);
      RemoveSound(h, brk, d, key);
      KnownSelf(d, brk);
      RemoveConfined(brk, d, key, Addrs(d), brk);
      forall x ensures Accounts(Uses(d, x), brk, c, x) {
        RemoveAccounts(brk, d, key, x);
      }
      RemoveKeys(Erase(d), key);
      var sub := RemovePublished(h, brk, d, key, if t < |c.acts| then t else |c.acts|);
      now := StepPublished(h, brk, s, left, c, key, true, t, sub);
    }
  }

  // ----------------------------------------------------------------------
  // Where links are stored
  // ----------------------------------------------------------------------

  /** Store `t` sets a link of a cell of the tree `s` that has not been freed. */
  ghost predicate LinksOld(s: Shape, acts: seq<Act>, t: nat)
    requires t < |acts|
  {
    acts[t].SetChild? ==> acts[t].n in Addrs(s) && Frees(acts[..t + 1], acts[t].n) == 0
  }

  lemma StepLinksOld(brk: nat, s: Shape, left: bool, c: Out, t: nat)
    requires s.At? && Unshared(s) && s.p <= brk && Sized(Erase(s.l)) && Sized(Erase(s.r)) && Sized(Erase(c.s))
    requires var d := if left then s.l else s.r;
             Accounts(Uses(d, s.p), brk, c, s.p) && (t < |c.acts| ==> LinksOld(d, c.acts, t))
    requires var l, r := if left then c.s else s.l, if left then s.r else c.s;
             t < |After(c, TreeBalance(c.brk, s.p, s.kv, l, r, left, true)).acts|
    ensures var l, r := if left then c.s else s.l, if left then s.r else c.s;
            LinksOld(s, After(c, TreeBalance(c.brk, s.p, s.kv, l, r, left, true)).acts, t)
  {
    hide TreeBalance;
    var l, r := if left then c.s else s.l, if left then s.r else c.s;
    var d := if left then s.l else s.r;
    var b := TreeBalance(c.brk, s.p, s.kv, l, r, left, true);
    var acts := c.acts + b.acts;
    if t < |c.acts| {
      assert acts[..t + 1] == c.acts[..t + 1];
    } else if Rotates(l, r) {
      BalanceLinks(c.brk, s.p, s.kv, l, r, left, true);
    } else {
      BalanceKeeps(c.brk, s.p, s.kv, l, r, left, true);
      if acts[t].SetChild? {
        assert acts[..t + 1] == c.acts + [acts[t]];
        CountsConcat(c.acts, [acts[t]], s.p);
        NoCounts([acts[t]], s.p);
        UnsharedParts(s);
        UsesIsAddrs(d, s.p);
      }
    }
  }

  lemma {:induction false} InsertLinksOld(h: Heap, brk: nat, s: Shape, kv: Pair, t: nat)
    requires Good(h, brk) && Rep(h, s) && Unshared(s) && Sized(Erase(s))
    requires t < |TreeInsert(brk, s, kv).acts|
    ensures LinksOld(s, TreeInsert(brk, s, kv).acts, t)
    decreases s
  {
    ErasedParts(s);
    if s.At? && kv.key != s.kv.key {
      var left := kv.key < s.kv.key;
      var d := if left then s.l else s.r;
      var c := TreeInsert(brk, d, kv);
      UnsharedParts(s);
      RepAddrs(h, s);
      InsertAccounts(brk, d, kv, s.p);
      if t < |c.acts| {
        InsertLinksOld(h, brk, d, kv, t);
      }
      InsertSized(d, kv, brk);
      StepLinksOld(brk, s, left, c, t);
    }
  }

  lemma InsertSized(s: Shape, kv: Pair, brk: nat)
    requires Sized(Erase(s))
    ensures Sized(Erase(TreeInsert(brk, s, kv).s))
  {
  }

  lemma RemoveSized(s: Shape, key: nat, brk: nat)
    requires Sized(Erase(s))
    ensures Sized(Erase(TreeRemove(brk, s, key).s))
  {
  }

  lemma {:induction false} RemoveLinksOld(h: Heap, brk: nat, s: Shape, key: nat, t: nat)
    requires Good(h, brk) && Rep(h, s) && Unshared(s) && Sized(Erase(s))
    requires t < |TreeRemove(brk, s, key).acts|
    ensures LinksOld(s, TreeRemove(brk, s, key).acts, t)
    decreases s
  {
    ErasedParts(s);
    if s.At? {
      if key == s.kv.key {
        DelprimeLinks(brk, s.l, s.r);
        NoLinksThen(TreeDelprime(brk, s.l, s.r), TreeDelprime(brk, s.l, s.r), s.p);
      } else {
        var left := key < s.kv.key;
        var d := if left then s.l else s.r;
        var c := TreeRemove(brk, d, key);
        UnsharedParts(s);
        RepAddrs(h, s);
        RemoveAccounts(brk, d, key, s.p);
        if t < |c.acts| {
          RemoveLinksOld(h, brk, d, key, t);
        }
        RemoveSized(d, key, brk);
        StepLinksOld(brk, s, left, c, t);
      }
    }
  }
}
