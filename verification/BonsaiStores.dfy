/**
 Which stores of attic/bonsai.c a search for the operation's own key can notice: a
 store that changes a link is made only when the key's fate is sealed.  Everything
 before it is allocation, freeing and size fields.
 */
module BonsaiStores {
  import opened BonsaiTree
  import opened BonsaiHeap

  ghost predicate SameLinks(h: Heap, h': Heap) {
    forall q :: q in h ==> q in h' && h'[q].kv == h[q].kv && h'[q].l == h[q].l && h'[q].r == h[q].r
  }

  lemma SameLinksFindable(h: Heap, h': Heap, p: Ptr, k: nat)
    requires SameLinks(h, h') && Closed(h) && Closed(h') && (p in h || p == 0)
    ensures Findable(h, p, k) == Findable(h', p, k)
  {
    forall path ensures SearchPath(h, p, k, path) <==> SearchPath(h', p, k, path) {
      SameLinksSameSearch(h, h', p, k, path);
    }
  }

  lemma {:induction false} RunMore(h: Heap, acts: seq<Act>, t: nat)
    requires t < |acts|
    ensures Run(h, acts[..t + 1]) == Do(Run(h, acts[..t]), acts[t])
  {
    assert acts[..t + 1] == acts[..t] + [acts[t]];
    RunConcat(h, acts[..t], [acts[t]]);
    assert [acts[t]][1..] == [];
  }

  // ----------------------------------------------------------------------
  // Link stores
  // ----------------------------------------------------------------------

  /** Nothing but allocation and freeing. */
  ghost predicate NoLinks(acts: seq<Act>) {
    forall i :: 0 <= i < |acts| ==> acts[i].New? || acts[i].Free?
  }

  lemma NoLinksThen(a: Out, b: Out, n: Ptr)
    requires NoLinks(a.acts) && NoLinks(b.acts)
    ensures NoLinks(After(a, b).acts) && NoLinks(ThenFree(a, n).acts)
  {
  }

  lemma AllocLinks(brk: nat, kv: Pair, l: Shape, r: Shape)
    ensures NoLinks(AllocNode(brk, kv, l, r).acts)
  {
  }

  lemma SingleLinks(brk: nat, kv: Pair, l: Shape, r: Shape, n: Ptr)
    ensures r.At? ==> NoLinks(ThenFree(TreeSingleLeft(brk, kv, l, r), n).acts)
    ensures l.At? ==> NoLinks(ThenFree(TreeSingleRight(brk, kv, l, r), n).acts)
  {
  }

  lemma DoubleLinks(tl: Out, tr: Out, s: Shape, n: Ptr)
    requires NoLinks(tl.acts) && NoLinks(tr.acts) && s.At?
    ensures s.l.At? ==> NoLinks(ThenFree(TreeDoubleLeft(tl, tr, s), n).acts)
    ensures s.r.At? ==> NoLinks(ThenFree(TreeDoubleRight(tl, tr, s), n).acts)
  {
  }

  predicate Rotates(l: Shape, r: Shape) {
    SizeOf(l) + SizeOf(r) >= 2 && (SizeOf(r) > 4 * SizeOf(l) || SizeOf(l) > 4 * SizeOf(r))
  }

  lemma BalanceKeeps(brk: nat, n: Ptr, kv: Pair, l: Shape, r: Shape, leftreplace: bool, inplace: bool)
    requires Sized(Erase(l)) && Sized(Erase(r)) && !Rotates(l, r)
    ensures TreeBalance(brk, n, kv, l, r, leftreplace, inplace) == TreeNode(brk, n, kv, l, r, leftreplace, inplace)
  {
  }

  /** tree_balance stores a link only if it keeps the node in place. */
  lemma {:induction false} BalanceLinks(brk: nat, n: Ptr, kv: Pair, l: Shape, r: Shape, leftreplace: bool,
                                        inplace: bool)
    requires Sized(Erase(l)) && Sized(Erase(r)) && (Rotates(l, r) || !inplace)
    ensures NoLinks(TreeBalance(brk, n, kv, l, r, leftreplace, inplace).acts)
    decreases Count(Erase(l)) + Count(Erase(r)), 1
  {
    var ln, rn := SizeOf(l), SizeOf(r);
    if ln + rn >= 2 && rn > 4 * ln {
      LeftLinks(brk, n, kv, l, r, leftreplace, inplace);
    } else if ln + rn >= 2 && ln > 4 * rn {
      RightLinks(brk, n, kv, l, r, leftreplace, inplace);
    }
  }

  lemma {:induction false} LeftLinks(brk: nat, n: Ptr, kv: Pair, l: Shape, r: Shape, leftreplace: bool, inplace: bool)
    requires Sized(Erase(l)) && Sized(Erase(r)) && SizeOf(l) + SizeOf(r) >= 2 && SizeOf(r) > 4 * SizeOf(l)
    ensures NoLinks(TreeBalance(brk, n, kv, l, r, leftreplace, inplace).acts)
    decreases Count(Erase(l)) + Count(Erase(r)), 0
  {
    hide NoLinks, TreeSingleLeft, TreeDoubleLeft, ThenFree;
    InnerChild(l, r);
    if SizeOf(r.l) >= SizeOf(r.r) {
      ErasedParts(r);
      ErasedParts(r.l);
      var tl := AllocNode(brk, kv, l, r.l.l);
      var tr := TreeBalance(tl.brk, r.p, r.kv, r.l.r, r.r, false, false);
      BalanceLinks(tl.brk, r.p, r.kv, r.l.r, r.r, false, false);
      AllocLinks(brk, kv, l, r.l.l);
      DoubleLinks(tl, tr, r, n);
    } else {
      SingleLinks(brk, kv, l, r, n);
    }
  }

  lemma {:induction false} RightLinks(brk: nat, n: Ptr, kv: Pair, l: Shape, r: Shape, leftreplace: bool, inplace: bool)
    requires Sized(Erase(l)) && Sized(Erase(r)) && SizeOf(l) + SizeOf(r) >= 2 && SizeOf(l) > 4 * SizeOf(r)
    ensures NoLinks(TreeBalance(brk, n, kv, l, r, leftreplace, inplace).acts)
    decreases Count(Erase(l)) + Count(Erase(r)), 0
  {
    hide NoLinks, TreeSingleRight, TreeDoubleRight, ThenFree;
    InnerChild(r, l);
    if SizeOf(l.r) >= SizeOf(l.l) {
      ErasedParts(l);
      ErasedParts(l.r);
      var tl := TreeBalance(brk, l.p, l.kv, l.l, l.r.l, false, false);
      var tr := AllocNode(tl.brk, kv, l.r.r, r);
      BalanceLinks(brk, l.p, l.kv, l.l, l.r.l, false, false);
      AllocLinks(tl.brk, kv, l.r.r, r);
      DoubleLinks(tl, tr, l, n);
    } else {
      SingleLinks(brk, kv, l, r, n);
    }
  }

  lemma {:induction false} DelminLinks(brk: nat, s: Shape)
    requires s.At? && Sized(Erase(s))
    ensures NoLinks(TreeDelmin(brk, s).acts)
    decreases s
  {
    ErasedParts(s);
    if s.l.At? {
      DelminLinks(brk, s.l);
      var c := TreeDelmin(brk, s.l);
      BalanceLinks(c.brk, s.p, s.kv, c.s, s.r, true, false);
      NoLinksThen(c, TreeBalance(c.brk, s.p, s.kv, c.s, s.r, true, false), 0);
    }
  }

  lemma DelprimeLinks(brk: nat, l: Shape, r: Shape)
    requires Sized(Erase(l)) && Sized(Erase(r))
    ensures NoLinks(TreeDelprime(brk, l, r).acts)
  {
    if l.At? && r.At? {
      var c, min := TreeDelmin(brk, r), TreeMin(r);
      DelminLinks(brk, r);
      BalanceLinks(c.brk, min.p, min.kv, l, c.s, false, false);
      NoLinksThen(c, TreeBalance(c.brk, min.p, min.kv, l, c.s, false, false), 0);
    }
  }

  // ----------------------------------------------------------------------
  // A link store settles the key
  // ----------------------------------------------------------------------

  /** After each store to a link, a search for `key` from `p` ends as after the operation. */
  ghost predicate Settles(h: Heap, acts: seq<Act>, p: Ptr, key: nat, removing: bool) {
    forall t :: 0 <= t < |acts| && acts[t].SetChild? ==> Findable(Run(h, acts[..t + 1]), p, key) == !removing
  }

  /** Cells that are neither in `a` nor new keep their contents throughout. */
  lemma {:induction false} CellKept(h: Heap, acts: seq<Act>, t: nat, x: Ptr, a: set<Ptr>, brk: nat)
    requires t <= |acts| && x in h && x !in a && x <= brk
    requires forall i :: 0 <= i < |acts| ==> KnownAct(acts[i], a, brk)
    ensures x in Run(h, acts[..t]) && Run(h, acts[..t])[x] == h[x]
  {
    if t > 0 {
      CellKept(h, acts, t - 1, x, a, brk);
      RunMore(h, acts, t - 1);
      assert KnownAct(acts[t - 1], a, brk);
    }
  }

  /** The stores below a node, seen from the node. */
  lemma SettlesUp(h: Heap, s: Shape, left: bool, acts: seq<Act>, brk: nat, key: nat, removing: bool)
    requires s.At? && Rep(h, s) && Unshared(s) && Below(h, brk) && (left <==> key < s.kv.key) && key != s.kv.key
    requires var d := if left then s.l else s.r;
             && Settles(h, acts, PtrOf(d), key, removing)
             && forall i :: 0 <= i < |acts| ==> KnownAct(acts[i], Addrs(d), brk)
    ensures Settles(h, acts, s.p, key, removing)
  {
    var d := if left then s.l else s.r;
    UnsharedParts(s);
    forall t | 0 <= t < |acts| && acts[t].SetChild? ensures Findable(Run(h, acts[..t + 1]), s.p, key) == !removing {
      var g := Run(h, acts[..t + 1]);
      CellKept(h, acts, t + 1, s.p, Addrs(d), brk);
      FindStep(g, s.p, key);
    }
  }

  lemma SettlesConcat(h: Heap, a: seq<Act>, b: seq<Act>, p: Ptr, key: nat, removing: bool)
    requires Settles(h, a, p, key, removing) && Settles(Run(h, a), b, p, key, removing)
    ensures Settles(h, a + b, p, key, removing)
  {
    var c := a + b;
    forall t | 0 <= t < |c| && c[t].SetChild? ensures Findable(Run(h, c[..t + 1]), p, key) == !removing {
      if t < |a| {
        assert c[..t + 1] == a[..t + 1];
      } else {
        assert c[..t + 1] == a + b[..t + 1 - |a|];
        RunConcat(h, a, b[..t + 1 - |a|]);
      }
    }
  }

  /** tree_balance in place around a child that holds what the operation leaves. */
  lemma BalanceSettles(h: Heap, brk: nat, n: Ptr, kv: Pair, l: Shape, r: Shape, left: bool, key: nat, removing: bool)
    requires Good(h, brk) && Rep(h, l) && Rep(h, r) && Sized(Erase(l)) && Sized(Erase(r))
    requires n in h && h[n].kv == kv && n !in Addrs(l) && n !in Addrs(r)
    requires (left <==> key < kv.key) && key != kv.key
    requires var d := if left then l else r; Ordered(Erase(d)) && (key in Keys(Erase(d)) <==> !removing)
    ensures Settles(h, TreeBalance(brk, n, kv, l, r, left, true).acts, n, key, removing)
  {
    if Rotates(l, r) {
      BalanceLinks(brk, n, kv, l, r, left, true);
    } else {
      BalanceKeeps(brk, n, kv, l, r, left, true);
      var acts := TreeNode(brk, n, kv, l, r, left, true).acts;
      var d := if left then l else r;
      RunMore(h, acts, 0);
      var g := Run(h, acts[..1]);
      RepAddrs(h, d);
      RepFrame(h, g, d);
      FindStep(g, n, key);
      FindableIsMember(g, d, key);
    }
  }

  /** One level of the recursion of tree_insert and tree_remove. */
  lemma StepSettles(h: Heap, brk: nat, s: Shape, left: bool, c: Out, key: nat, removing: bool)
    requires s.At? && Good(h, brk) && Rep(h, s) && Unshared(s) && Sized(Erase(s))
    requires (left <==> key < s.kv.key) && key != s.kv.key && Sized(Erase(c.s)) && Ordered(Erase(c.s))
    requires key in Keys(Erase(c.s)) <==> !removing
    requires var d := if left then s.l else s.r;
             && Sound(h, c, Addrs(d), key, removing) && Confined(c, Addrs(d), brk)
             && Accounts(Uses(d, s.p), brk, c, s.p) && Settles(h, c.acts, PtrOf(d), key, removing)
    ensures Sized(Erase(s.l)) && Sized(Erase(s.r))
    ensures var l, r := if left then c.s else s.l, if left then s.r else c.s;
            Settles(h, After(c, TreeBalance(c.brk, s.p, s.kv, l, r, left, true)).acts, s.p, key, removing)
  {
    ErasedParts(s);
    UnsharedParts(s);
    RepAddrs(h, s);
    var d, e := if left then s.l else s.r, if left then s.r else s.l;
    var l, r := if left then c.s else s.l, if left then s.r else c.s;
    var g := Run(h, c.acts);
    RepKept(h, g, e, Addrs(d));
    UsesIsAddrs(d, s.p);
    StaysOut(Uses(d, s.p), brk, c, s.p);
    assert g[s.p] == h[s.p];
    BalanceSettles(g, c.brk, s.p, s.kv, l, r, left, key, removing);
    SettlesUp(h, s, left, c.acts, brk, key, removing);
    SettlesConcat(h, c.acts, TreeBalance(c.brk, s.p, s.kv, l, r, left, true).acts, s.p, key, removing);
  }

  lemma KnownSelf(s: Shape, brk: nat)
    ensures KnownShape(s, Addrs(s), brk)
  {
  }

  lemma {:induction false} InsertSettles(h: Heap, brk: nat, s: Shape, kv: Pair)
    requires Good(h, brk) && Rep(h, s) && Unshared(s) && Sized(Erase(s)) && Ordered(Erase(s))
    ensures Settles(h, TreeInsert(brk, s, kv).acts, PtrOf(s), kv.key, false)
    decreases s
  {
    ErasedParts(s);
    if s.At? && kv.key != s.kv.key {
      var left := kv.key < s.kv.key;
      var d := if left then s.l else s.r;
      var c := TreeInsert(brk, d, kv);
      UnsharedParts(s);
      InsertSettles(h, brk, d, kv);
      InsertSound(h, brk, d, kv);
      InsertKeys(Erase(d), kv);
      InsertAccounts(brk, d, kv, s.p);
      KnownSelf(d, brk);
      InsertConfined(brk, d, kv, Addrs(d), brk);
      StepSettles(h, brk, s, left, c, kv.key, false);
    }
  }

  lemma {:induction false} RemoveSettles(h: Heap, brk: nat, s: Shape, key: nat)
    requires Good(h, brk) && Rep(h, s) && Unshared(s) && Sized(Erase(s)) && Ordered(Erase(s))
    ensures Settles(h, TreeRemove(brk, s, key).acts, PtrOf(s), key, true)
    decreases s
  {
    ErasedParts(s);
    if s.At? {
      if key == s.kv.key {
        DelprimeLinks(brk, s.l, s.r);
        NoLinksThen(TreeDelprime(brk, s.l, s.r), TreeDelprime(brk, s.l, s.r), s.p);
      } else {
        var left := key < s.kv.key;
        var d := if left then s.l else s.r;
        var c := TreeRemove(brk, d, key);
        UnsharedParts(s);
        RemoveSettles(h, brk, d, key);
        RemoveSound(h, brk, d, key);
        RemoveKeys(Erase(d), key);
        RemoveAccounts(brk, d, key, s.p);
        KnownSelf(d, brk);
        RemoveConfined(brk, d, key, Addrs(d), brk);
        StepSettles(h, brk, s, left, c, key, true);
      }
    }
  }

  // ----------------------------------------------------------------------
  // All other stores
  // ----------------------------------------------------------------------

  lemma {:induction false} RunAllocates(h: Heap, acts: seq<Act>, x: Ptr)
    ensures x in Run(h, acts) <==> x in h || Allocs(acts, x) > 0
    decreases |acts|
  {
    if acts != [] {
      RunAllocates(Do(h, acts[0]), acts[1..], x);
    }
  }

  /** A cell is fresh when it is filled. */
  lemma NewIsFresh(h: Heap, brk: nat, acts: seq<Act>, t: nat)
    requires t < |acts| && acts[t].New? && Below(h, brk)
    requires Allocs(acts, acts[t].p) <= if acts[t].p > brk then 1 else 0
    ensures acts[t].p !in Run(h, acts[..t])
  {
    var p := acts[t].p;
    assert acts == acts[..t] + ([acts[t]] + acts[t + 1..]);
    CountsConcat(acts[..t], [acts[t]] + acts[t + 1..], p);
    assert Allocs([acts[t]] + acts[t + 1..], p) >= 1;
    RunAllocates(h, acts[..t], p);
  }

  /** Each store leaves all links alone or settles the key. */
  ghost predicate Clear(h: Heap, acts: seq<Act>, root: Ptr, key: nat, removing: bool)
    decreases |acts|
  {
    acts == [] ||
    var h' := Do(h, acts[0]);
    (SameLinks(h, h') || Findable(h', root, key) == !removing) && Clear(h', acts[1..], root, key, removing)
  }

  lemma {:induction false} ClearFrom(h: Heap, brk: nat, acts: seq<Act>, t: nat, root: Ptr, key: nat, removing: bool)
    requires t <= |acts| && Below(h, brk) && Settles(h, acts, root, key, removing)
    requires forall p: Ptr :: Allocs(acts, p) <= if p > brk then 1 else 0
    ensures Clear(Run(h, acts[..t]), acts[t..], root, key, removing)
    decreases |acts| - t
  {
    if t < |acts| {
      ClearFrom(h, brk, acts, t + 1, root, key, removing);
      RunMore(h, acts, t);
      assert acts[t..][1..] == acts[t + 1..];
      var g := Run(h, acts[..t]);
      if acts[t].New? {
        NewIsFresh(h, brk, acts, t);
      }
      assert !acts[t].SetChild? ==> SameLinks(g, Do(g, acts[t]));
    }
  }
}
