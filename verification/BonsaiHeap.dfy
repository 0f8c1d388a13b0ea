/**
 The tree of attic/bonsai.c in memory: nodes are cells addressed by pointers, a
 single writer changes them store by store, replaced nodes are handed to the
 delayed-free list, and readers walk the cells with no lock at all.

 Every store the writer makes is recorded in a ghost trace.  Each store is
 proved, when it is made, to leave every search that may be in progress with the
 outcome it had, so the guarantees about readers hold between any two stores.
 */
module BonsaiHeap {
  import opened BonsaiTree

  type Ptr = nat  // 0 is the null pointer

  datatype Cell = Cell(kv: Pair, size: int, l: Ptr, r: Ptr)

  type Heap = map<Ptr, Cell>

  /** What a reader can see: the cells and the published root. */
  datatype Memory = Memory(heap: Heap, root: Ptr)

  // ----------------------------------------------------------------------
  // Cells that form a tree
  // ----------------------------------------------------------------------

  /** A tree whose nodes carry the address they live at. */
  datatype Shape = Nil | At(p: Ptr, kv: Pair, size: int, l: Shape, r: Shape)

  ghost function Erase(s: Shape): Tree {
    if s.Nil? then Leaf else Node(s.kv, s.size, Erase(s.l), Erase(s.r))
  }

  ghost function Addrs(s: Shape): set<Ptr> {
    if s.Nil? then {} else Addrs(s.l) + {s.p} + Addrs(s.r)
  }

  function PtrOf(s: Shape): Ptr {
    if s.Nil? then 0 else s.p
  }

  /** SIZE */
  function SizeOf(s: Shape): int {
    if s.Nil? then 0 else s.size
  }

  function CellOf(s: Shape): Cell
    requires s.At?
  {
    Cell(s.kv, s.size, PtrOf(s.l), PtrOf(s.r))
  }

  /** The cells at and below PtrOf(s) are the tree `s`. */
  ghost predicate Rep(h: Heap, s: Shape) {
    s.At? ==> s.p != 0 && s.p in h && h[s.p] == CellOf(s) && Rep(h, s.l) && Rep(h, s.r)
  }

  ghost predicate Closed(h: Heap) {
    && 0 !in h
    && forall p :: p in h ==> (h[p].l == 0 || h[p].l in h) && (h[p].r == 0 || h[p].r in h)
  }

  ghost predicate SameCells(h: Heap, h': Heap, a: set<Ptr>) {
    forall p :: p in a && p in h ==> p in h' && h'[p] == h[p]
  }

  lemma {:induction false} RepFrame(h: Heap, h': Heap, s: Shape)
    requires Rep(h, s) && SameCells(h, h', Addrs(s))
    ensures Rep(h', s)
  {
    if s.At? {
      RepFrame(h, h', s.l);
      RepFrame(h, h', s.r);
    }
  }

  lemma {:induction false} RepAddrs(h: Heap, s: Shape)
    requires Rep(h, s)
    ensures Addrs(s) <= h.Keys && (PtrOf(s) == 0 || PtrOf(s) in h)
  {
    if s.At? {
      RepAddrs(h, s.l);
      RepAddrs(h, s.r);
    }
  }

  // ----------------------------------------------------------------------
  // Searches, on any cells whatever
  // ----------------------------------------------------------------------

  /** The pointer tree_find follows out of cell `p`. */
  function Next(h: Heap, p: Ptr, k: nat): Ptr
    requires p in h
  {
    if k < h[p].kv.key then h[p].l else h[p].r
  }

  /** `path` is a walk of tree_find from `p` that ends at a cell holding `k`. */
  ghost predicate SearchPath(h: Heap, p: Ptr, k: nat, path: seq<Ptr>)
    decreases |path|
  {
    && |path| > 0 && path[0] == p && p in h
    && if h[p].kv.key == k then |path| == 1 else SearchPath(h, Next(h, p, k), k, path[1..])
  }

  /** tree_find started at `p` on these cells would find `k`. */
  ghost predicate Findable(h: Heap, p: Ptr, k: nat) {
    exists path :: SearchPath(h, p, k, path)
  }

  lemma FindStep(h: Heap, p: Ptr, k: nat)
    ensures Findable(h, p, k) <==> p in h && (h[p].kv.key == k || Findable(h, Next(h, p, k), k))
  {
    if Findable(h, p, k) {
      var path :| SearchPath(h, p, k, path);
      if h[p].kv.key != k {
        assert SearchPath(h, Next(h, p, k), k, path[1..]);
      }
    }
    if p in h && h[p].kv.key == k {
      assert SearchPath(h, p, k, [p]);
    } else if p in h && Findable(h, Next(h, p, k), k) {
      var path :| SearchPath(h, Next(h, p, k), k, path);
      assert ([p] + path)[1..] == path;
      assert SearchPath(h, p, k, [p] + path);
    }
  }

  /** On cells that form a search tree, a search finds exactly the stored keys. */
  lemma {:induction false} FindableIsMember(h: Heap, s: Shape, k: nat)
    requires Rep(h, s) && Ordered(Erase(s)) && 0 !in h
    ensures Findable(h, PtrOf(s), k) <==> k in Keys(Erase(s))
  {
    FindStep(h, PtrOf(s), k);
    if s.At? {
      FindableIsMember(h, s.l, k);
      FindableIsMember(h, s.r, k);
      MemberSplit(Erase(s), k);
    }
  }

  lemma MemberSplit(t: Tree, k: nat)
    requires t.Node? && Ordered(t)
    ensures k in Keys(t) <==>
            k == t.kv.key || (if k < t.kv.key then k in Keys(t.left) else k in Keys(t.right))
  {
    assert t.kv in Pairs(t);
  }

  // ----------------------------------------------------------------------
  // What one store may change
  // ----------------------------------------------------------------------

  /** How the outcome of a search for `k` may change under an operation on `key`:
      not at all for other keys, and only towards the operation's effect for `key`. */
  predicate MayBecome(before: bool, after: bool, k: nat, key: nat, removing: bool) {
    if k != key then before == after
    else if removing then after ==> before
    else before ==> after
  }

  /** From every cell, live or long replaced, searches keep their outcome. */
  ghost predicate Evolves(h: Heap, h': Heap, key: nat, removing: bool) {
    && h.Keys <= h'.Keys && Closed(h')
    && forall p, k :: p in h || p == 0 ==>
         MayBecome(Findable(h, p, k), Findable(h', p, k), k, key, removing)
  }

  ghost predicate Step(m: Memory, m': Memory, key: nat, removing: bool) {
    && Evolves(m.heap, m'.heap, key, removing) && (m'.root == 0 || m'.root in m'.heap)
    && forall k :: MayBecome(Findable(m.heap, m.root, k), Findable(m'.heap, m'.root, k), k, key, removing)
  }

  lemma {:induction false} SameLinksSameSearch(h: Heap, h': Heap, p: Ptr, k: nat, path: seq<Ptr>)
    requires Closed(h) && (p in h || p == 0) && 0 !in h'
    requires forall q :: q in h ==> q in h' && h'[q].kv == h[q].kv && h'[q].l == h[q].l && h'[q].r == h[q].r
    ensures SearchPath(h, p, k, path) <==> SearchPath(h', p, k, path)
    decreases |path|
  {
    if |path| > 0 && path[0] == p && p in h && h[p].kv.key != k {
      SameLinksSameSearch(h, h', Next(h, p, k), k, path[1..]);
    }
  }

  /** Allocating a cell, or changing size fields, disturbs no search. */
  lemma SameLinksEvolve(h: Heap, h': Heap, key: nat, removing: bool)
    requires Closed(h) && Closed(h')
    requires forall q :: q in h ==> q in h' && h'[q].kv == h[q].kv && h'[q].l == h[q].l && h'[q].r == h[q].r
    ensures Evolves(h, h', key, removing)
  {
    forall p, k | p in h || p == 0
      ensures Findable(h, p, k) == Findable(h', p, k)
    {
      forall path ensures SearchPath(h, p, k, path) <==> SearchPath(h', p, k, path) {
        SameLinksSameSearch(h, h', p, k, path);
      }
    }
  }

  /** The child pointer of a cell on the given side. */
  function Child(c: Cell, left: bool): Ptr {
    if left then c.l else c.r
  }

  function WithChild(c: Cell, left: bool, p: Ptr): Cell {
    if left then c.(l := p) else c.(r := p)
  }

  /** Swinging one child pointer of `n` keeps a search it keeps for the two children. */
  lemma {:induction false} SwingKeepsSearch(h: Heap, n: Ptr, left: bool, c: Ptr, p: Ptr, k: nat, path: seq<Ptr>)
    requires n in h
    requires Findable(h, Child(h[n], left), k) ==> Findable(h[n := WithChild(h[n], left, c)], c, k)
    requires SearchPath(h, p, k, path)
    ensures Findable(h[n := WithChild(h[n], left, c)], p, k)
    decreases |path|
  {
    var h' := h[n := WithChild(h[n], left, c)];
    FindStep(h, p, k);
    FindStep(h', p, k);
    if h[p].kv.key != k && !(p == n && (left <==> k < h[p].kv.key)) {
      SwingKeepsSearch(h, n, left, c, Next(h, p, k), k, path[1..]);
    }
  }

  /** Tree `d` holds what can be found from `c`, up to the operation's own key. */
  ghost predicate Replaces(h: Heap, c: Ptr, d: Shape, key: nat, removing: bool) {
    forall k :: MayBecome(Findable(h, c, k), k in Keys(Erase(d)), k, key, removing)
  }

  /** An in-place store of a child pointer disturbs no search that is under way. */
  lemma SwingEvolves(h: Heap, n: Ptr, left: bool, d: Shape, key: nat, removing: bool)
    requires Closed(h) && n in h
    requires Rep(h, d) && n !in Addrs(d) && Ordered(Erase(d))
    requires Replaces(h, Child(h[n], left), d, key, removing)
    ensures Evolves(h, h[n := WithChild(h[n], left, PtrOf(d))], key, removing)
  {
    var c := PtrOf(d);
    var h' := h[n := WithChild(h[n], left, c)];
    var b := Child(h[n], left);
    RepAddrs(h, d);
    RepFrame(h, h', d);
    forall p, k | p in h || p == 0
      ensures MayBecome(Findable(h, p, k), Findable(h', p, k), k, key, removing)
    {
      FindableIsMember(h, d, k);
      FindableIsMember(h', d, k);
      assert MayBecome(Findable(h, b, k), Findable(h', c, k), k, key, removing);
      if Findable(h, p, k) && !(k == key && removing) {
        var path :| SearchPath(h, p, k, path);
        SwingKeepsSearch(h, n, left, c, p, k, path);
      }
      if Findable(h', p, k) && !(k == key && !removing) {
        var path :| SearchPath(h', p, k, path);
        assert h'[n := WithChild(h'[n], left, b)] == h;
        SwingKeepsSearch(h', n, left, b, p, k, path);
      }
    }
  }

  lemma EvolvesTransitive(a: Heap, b: Heap, c: Heap, key: nat, removing: bool)
    requires Evolves(a, b, key, removing) && Evolves(b, c, key, removing)
    ensures Evolves(a, c, key, removing)
  {
    forall p, k | p in a || p == 0
      ensures MayBecome(Findable(a, p, k), Findable(c, p, k), k, key, removing)
    {
      assert MayBecome(Findable(a, p, k), Findable(b, p, k), k, key, removing);
      assert MayBecome(Findable(b, p, k), Findable(c, p, k), k, key, removing);
    }
  }

  // ----------------------------------------------------------------------
  // The writer as a list of stores
  // ----------------------------------------------------------------------

  datatype Act =
    | New(p: Ptr, cell: Cell)                    // fill a fresh cell
    | SetChild(n: Ptr, left: bool, c: Ptr)       // n->l = c or n->r = c
    | SetSize(n: Ptr, size: int)                 // n->size = size
    | Free(n: Ptr)                               // rcu_free_node

  function Do(h: Heap, a: Act): Heap {
    match a
    case New(p, cell) => h[p := cell]
    case SetChild(n, left, c) => if n in h then h[n := WithChild(h[n], left, c)] else h
    case SetSize(n, size) => if n in h then h[n := h[n].(size := size)] else h
    case Free(_) => h
  }

  function Run(h: Heap, acts: seq<Act>): Heap
    decreases |acts|
  {
    if acts == [] then h else Run(Do(h, acts[0]), acts[1..])
  }

  /** No store of the list disturbs a search that is under way when it happens. */
  ghost predicate Safe(h: Heap, acts: seq<Act>, key: nat, removing: bool)
    decreases |acts|
  {
    acts == [] || (Evolves(h, Do(h, acts[0]), key, removing) && Safe(Do(h, acts[0]), acts[1..], key, removing))
  }

  lemma {:induction false} RunConcat(h: Heap, a: seq<Act>, b: seq<Act>)
    ensures Run(h, a + b) == Run(Run(h, a), b)
    decreases |a|
  {
    if a == [] {
      assert a + b == b;
    } else {
      assert (a + b)[1..] == a[1..] + b;
      RunConcat(Do(h, a[0]), a[1..], b);
    }
  }

  lemma {:induction false} SafeConcat(h: Heap, a: seq<Act>, b: seq<Act>, key: nat, removing: bool)
    requires Safe(h, a, key, removing) && Safe(Run(h, a), b, key, removing)
    ensures Safe(h, a + b, key, removing)
    decreases |a|
  {
    if a == [] {
      assert a + b == b;
    } else {
      assert (a + b)[1..] == a[1..] + b;
      SafeConcat(Do(h, a[0]), a[1..], b, key, removing);
    }
  }

  lemma {:induction false} SafeEvolves(h: Heap, acts: seq<Act>, key: nat, removing: bool)
    requires Closed(h) && Safe(h, acts, key, removing)
    ensures Evolves(h, Run(h, acts), key, removing)
    decreases |acts|
  {
    if acts != [] {
      SafeEvolves(Do(h, acts[0]), acts[1..], key, removing);
      EvolvesTransitive(h, Do(h, acts[0]), Run(h, acts), key, removing);
    }
  }

  /** What a writer function returns: the subtree, the allocator's position, its stores. */
  datatype Out = Out(s: Shape, brk: nat, acts: seq<Act>)

  function AllocNode(brk: nat, kv: Pair, l: Shape, r: Shape): Out {
    var s := At(brk + 1, kv, SizeOf(l) + SizeOf(r) + 1, l, r);
    Out(s, brk + 1, [New(s.p, CellOf(s))])
  }

  function TreeSingleLeft(brk: nat, kv: Pair, l: Shape, r: Shape): Out
    requires r.At?
  {
    var a := AllocNode(brk, kv, l, r.l);
    var t := AllocNode(a.brk, r.kv, a.s, r.r);
    Out(t.s, t.brk, a.acts + t.acts + [Free(r.p)])
  }

  function TreeSingleRight(brk: nat, kv: Pair, l: Shape, r: Shape): Out
    requires l.At?
  {
    var a := AllocNode(brk, kv, l.r, r);
    var t := AllocNode(a.brk, l.kv, l.l, a.s);
    Out(t.s, t.brk, a.acts + t.acts + [Free(l.p)])
  }

  /** tree_double_left: `tl` and `tr` are the two halves it builds. */
  function TreeDoubleLeft(tl: Out, tr: Out, r: Shape): Out
    requires r.At? && r.l.At?
  {
    var t := AllocNode(tr.brk, r.l.kv, tl.s, tr.s);
    Out(t.s, t.brk, tl.acts + tr.acts + t.acts + [Free(r.l.p)])
  }

  /** tree_double_right */
  function TreeDoubleRight(tl: Out, tr: Out, l: Shape): Out
    requires l.At? && l.r.At?
  {
    var t := AllocNode(tr.brk, l.r.kv, tl.s, tr.s);
    Out(t.s, t.brk, tl.acts + tr.acts + t.acts + [Free(l.r.p)])
  }

  function TreeNode(brk: nat, n: Ptr, kv: Pair, l: Shape, r: Shape, leftreplace: bool, inplace: bool): Out {
    if inplace then
      var size := 1 + SizeOf(l) + SizeOf(r);
      Out(At(n, kv, size, l, r), brk,
          [SetChild(n, leftreplace, if leftreplace then PtrOf(l) else PtrOf(r)), SetSize(n, size)])
    else
      var t := AllocNode(brk, kv, l, r);
      Out(t.s, t.brk, t.acts + [Free(n)])
  }

  lemma ErasedParts(s: Shape)
    ensures SizeOf(s) == Size(Erase(s)) && (s.At? <==> Erase(s).Node?)
    ensures s.At? ==> Erase(s).left == Erase(s.l) && Erase(s).right == Erase(s.r) && Erase(s).kv == s.kv
    ensures s.At? && Sized(Erase(s)) ==> Sized(Erase(s.l)) && Sized(Erase(s.r))
    ensures s.At? ==> Count(Erase(s)) == Count(Erase(s.l)) + Count(Erase(s.r)) + 1
  {
  }

  /** BonsaiTree.LongSideHasInner for trees in memory. */
  lemma InnerChild(short: Shape, long: Shape)
    requires Sized(Erase(short)) && Sized(Erase(long))
    ensures SizeOf(short) + SizeOf(long) >= 2 && SizeOf(long) > 4 * SizeOf(short) ==>
              && long.At?
              && (SizeOf(long.l) >= SizeOf(long.r) ==> long.l.At?)
              && (SizeOf(long.r) >= SizeOf(long.l) ==> long.r.At?)
  {
    LongSideHasInner(Erase(short), Erase(long));
    if long.At? {
      assert SizeOf(long.l) == Size(Erase(long.l)) && SizeOf(long.r) == Size(Erase(long.r));
    }
  }

  function ThenFree(t: Out, n: Ptr): Out {
    t.(acts := t.acts + [Free(n)])
  }

  /** tree_balance; `n` is the node being rebuilt and `kv` its contents. */
  function TreeBalance(brk: nat, n: Ptr, kv: Pair, l: Shape, r: Shape, leftreplace: bool, inplace: bool): Out
    requires Sized(Erase(l)) && Sized(Erase(r))
    decreases Count(Erase(l)) + Count(Erase(r))
  {
    InnerChild(l, r);
    InnerChild(r, l);
    var ln, rn := SizeOf(l), SizeOf(r);
    if ln + rn < 2 then TreeNode(brk, n, kv, l, r, leftreplace, inplace)
    else if rn > 4 * ln then
      if SizeOf(r.l) < SizeOf(r.r) then ThenFree(TreeSingleLeft(brk, kv, l, r), n)
      else
        ErasedParts(r);
        ErasedParts(r.l);
        var tl := AllocNode(brk, kv, l, r.l.l);
        var tr := TreeBalance(tl.brk, r.p, r.kv, r.l.r, r.r, false, false);
        ThenFree(TreeDoubleLeft(tl, tr, r), n)
    else if ln > 4 * rn then
      if SizeOf(l.r) < SizeOf(l.l) then ThenFree(TreeSingleRight(brk, kv, l, r), n)
      else
        ErasedParts(l);
        ErasedParts(l.r);
        var tl := TreeBalance(brk, l.p, l.kv, l.l, l.r.l, false, false);
        var tr := AllocNode(tl.brk, kv, l.r.r, r);
        ThenFree(TreeDoubleRight(tl, tr, l), n)
    else TreeNode(brk, n, kv, l, r, leftreplace, inplace)
  }

  // ----------------------------------------------------------------------
  // Refinement: addresses aside, the writer computes the functional tree
  // ----------------------------------------------------------------------

  lemma AllocRefines(brk: nat, kv: Pair, l: Shape, r: Shape)
    ensures Erase(AllocNode(brk, kv, l, r).s) == Alloc(kv, Erase(l), Erase(r))
  {
  }

  lemma {:induction false} BalanceRefines(brk: nat, n: Ptr, kv: Pair, l: Shape, r: Shape, leftreplace: bool,
                                          inplace: bool)
    requires Sized(Erase(l)) && Sized(Erase(r))
    ensures Erase(TreeBalance(brk, n, kv, l, r, leftreplace, inplace).s) == Balance(kv, Erase(l), Erase(r))
    decreases Count(Erase(l)) + Count(Erase(r)), 1
  {
    ErasedParts(l);
    ErasedParts(r);
    var ln, rn := SizeOf(l), SizeOf(r);
    if ln + rn >= 2 && rn > 4 * ln {
      LeftRefines(brk, n, kv, l, r, leftreplace, inplace);
    } else if ln + rn >= 2 && ln > 4 * rn {
      RightRefines(brk, n, kv, l, r, leftreplace, inplace);
    }
  }

  lemma {:induction false} LeftRefines(brk: nat, n: Ptr, kv: Pair, l: Shape, r: Shape, leftreplace: bool, inplace: bool)
    requires Sized(Erase(l)) && Sized(Erase(r))
    requires SizeOf(l) + SizeOf(r) >= 2 && SizeOf(r) > 4 * SizeOf(l)
    ensures Erase(TreeBalance(brk, n, kv, l, r, leftreplace, inplace).s) == Balance(kv, Erase(l), Erase(r))
    decreases Count(Erase(l)) + Count(Erase(r)), 0
  {
    hide Sized;
    InnerChild(l, r);
    ErasedParts(l);
    ErasedParts(r);
    ErasedParts(r.l);
    ErasedParts(r.r);
    if SizeOf(r.l) < SizeOf(r.r) {
      AllocRefines(brk, kv, l, r.l);
    } else {
      BalanceRefines(brk + 1, r.p, r.kv, r.l.r, r.r, false, false);
      DoubleLeftRefines(brk, n, kv, l, r, leftreplace, inplace);
    }
  }

  lemma DoubleLeftRefines(brk: nat, n: Ptr, kv: Pair, l: Shape, r: Shape, leftreplace: bool, inplace: bool)
    requires Sized(Erase(l)) && Sized(Erase(r)) && r.At? && r.l.At?
    requires SizeOf(l) + SizeOf(r) >= 2 && SizeOf(r) > 4 * SizeOf(l) && SizeOf(r.l) >= SizeOf(r.r)
    requires Sized(Erase(r.l.r)) && Sized(Erase(r.r))
    requires Erase(TreeBalance(brk + 1, r.p, r.kv, r.l.r, r.r, false, false).s)
             == Balance(r.kv, Erase(r.l.r), Erase(r.r))
    ensures Erase(TreeBalance(brk, n, kv, l, r, leftreplace, inplace).s) == Balance(kv, Erase(l), Erase(r))
  {
    hide Sized;
    ErasedParts(l);
    ErasedParts(r);
    ErasedParts(r.l);
    ErasedParts(r.r);
    var tr := TreeBalance(brk + 1, r.p, r.kv, r.l.r, r.r, false, false);
    DoubleRefines(brk, kv, l, r, tr, Balance(r.kv, Erase(r.l.r), Erase(r.r)));
  }

  lemma DoubleRefines(brk: nat, kv: Pair, l: Shape, r: Shape, tr: Out, half: Tree)
    requires r.At? && r.l.At? && Erase(tr.s) == half && Erase(r).left == Erase(r.l)
    ensures Erase(TreeDoubleLeft(AllocNode(brk, kv, l, r.l.l), tr, r).s) == DoubleLeft(kv, Erase(l), Erase(r), half)
  {
    AllocRefines(brk, kv, l, r.l.l);
    AllocRefines(tr.brk, r.l.kv, AllocNode(brk, kv, l, r.l.l).s, tr.s);
  }

  lemma {:induction false} RightRefines(brk: nat, n: Ptr, kv: Pair, l: Shape, r: Shape, leftreplace: bool,
                                        inplace: bool)
    requires Sized(Erase(l)) && Sized(Erase(r))
    requires SizeOf(l) + SizeOf(r) >= 2 && SizeOf(l) > 4 * SizeOf(r)
    ensures Erase(TreeBalance(brk, n, kv, l, r, leftreplace, inplace).s) == Balance(kv, Erase(l), Erase(r))
    decreases Count(Erase(l)) + Count(Erase(r)), 0
  {
    hide Sized;
    InnerChild(r, l);
    ErasedParts(l);
    ErasedParts(r);
    ErasedParts(l.l);
    ErasedParts(l.r);
    if SizeOf(l.r) < SizeOf(l.l) {
      AllocRefines(brk, kv, l.r, r);
    } else {
      var tl := TreeBalance(brk, l.p, l.kv, l.l, l.r.l, false, false);
      var half := Balance(l.kv, Erase(l.l), Erase(l.r.l));
      assert Erase(tl.s) == half by {
        BalanceRefines(brk, l.p, l.kv, l.l, l.r.l, false, false);
      }
      DoubleRightRefines(kv, l, r, tl, half);
    }
  }

  lemma DoubleRightRefines(kv: Pair, l: Shape, r: Shape, tl: Out, half: Tree)
    requires l.At? && l.r.At? && Erase(tl.s) == half && Erase(l).right == Erase(l.r)
    ensures Erase(TreeDoubleRight(tl, AllocNode(tl.brk, kv, l.r.r, r), l).s)
            == DoubleRight(kv, Erase(l), Erase(r), half)
  {
    var tr := AllocNode(tl.brk, kv, l.r.r, r);
    AllocRefines(tl.brk, kv, l.r.r, r);
    AllocRefines(tr.brk, l.r.kv, tl.s, tr.s);
  }

  // ----------------------------------------------------------------------
  // Conservation of cells, counted address by address
  // ----------------------------------------------------------------------

  ghost function Uses(s: Shape, x: Ptr): nat {
    if s.Nil? then 0 else Uses(s.l, x) + (if s.p == x then 1 else 0) + Uses(s.r, x)
  }

  ghost function Allocs(acts: seq<Act>, x: Ptr): nat {
    if acts == [] then 0
    else (if acts[0].New? && acts[0].p == x then 1 else 0) + Allocs(acts[1..], x)
  }

  ghost function Frees(acts: seq<Act>, x: Ptr): nat {
    if acts == [] then 0
    else (if acts[0].Free? && acts[0].n == x then 1 else 0) + Frees(acts[1..], x)
  }

  lemma {:induction false} CountsConcat(a: seq<Act>, b: seq<Act>, x: Ptr)
    ensures Allocs(a + b, x) == Allocs(a, x) + Allocs(b, x)
    ensures Frees(a + b, x) == Frees(a, x) + Frees(b, x)
  {
    if a == [] {
      assert a + b == b;
    } else {
      assert (a + b)[1..] == a[1..] + b;
      CountsConcat(a[1..], b, x);
    }
  }

  /** For one address: cells in use before plus cells allocated are cells in use after
      plus cells freed, and each address above brk is allocated exactly once. */
  ghost predicate Accounts(used: int, brk: nat, o: Out, x: Ptr) {
    && brk <= o.brk && Allocs(o.acts, x) == (if brk < x <= o.brk then 1 else 0)
    && used + Allocs(o.acts, x) == Uses(o.s, x) + Frees(o.acts, x)
  }

  lemma AllocAccounts(brk: nat, kv: Pair, l: Shape, r: Shape, x: Ptr)
    ensures Accounts(Uses(l, x) + Uses(r, x), brk, AllocNode(brk, kv, l, r), x)
  {
    var o := AllocNode(brk, kv, l, r);
    assert o.acts[1..] == [];
    assert Allocs(o.acts, x) == if o.s.p == x then 1 else 0;
    assert Frees(o.acts, x) == 0;
  }

  lemma FreeAccounts(used: int, brk: nat, o: Out, n: Ptr, x: Ptr)
    requires Accounts(used, brk, o, x)
    ensures Accounts(used + if n == x then 1 else 0, brk, ThenFree(o, n), x)
  {
    CountsConcat(o.acts, [Free(n)], x);
    assert [Free(n)][1..] == [];
  }

  /** Two stretches of stores, the second working on the first's tree and `other` cells. */
  lemma ThenAccounts(used: int, brk: nat, a: Out, other: int, b: Out, x: Ptr)
    requires Accounts(used, brk, a, x) && Accounts(Uses(a.s, x) + other, a.brk, b, x)
    ensures Accounts(used + other, brk, Out(b.s, b.brk, a.acts + b.acts), x)
  {
    CountsConcat(a.acts, b.acts, x);
  }

  lemma NodeAccounts(brk: nat, n: Ptr, kv: Pair, l: Shape, r: Shape, leftreplace: bool, inplace: bool, x: Ptr)
    ensures Accounts(Uses(l, x) + Uses(r, x) + (if n == x then 1 else 0), brk,
                     TreeNode(brk, n, kv, l, r, leftreplace, inplace), x)
  {
    if inplace {
      var o := TreeNode(brk, n, kv, l, r, leftreplace, inplace);
      assert o.acts == [o.acts[0]] + [o.acts[1]];
      CountsConcat([o.acts[0]], [o.acts[1]], x);
      assert [o.acts[0]][1..] == [] && [o.acts[1]][1..] == [];
    } else {
      AllocAccounts(brk, kv, l, r, x);
      FreeAccounts(Uses(l, x) + Uses(r, x), brk, AllocNode(brk, kv, l, r), n, x);
    }
  }

  lemma SingleLeftAccounts(brk: nat, kv: Pair, l: Shape, r: Shape, x: Ptr)
    requires r.At?
    ensures Accounts(Uses(l, x) + Uses(r, x), brk, TreeSingleLeft(brk, kv, l, r), x)
  {
    var a := AllocNode(brk, kv, l, r.l);
    var t := AllocNode(a.brk, r.kv, a.s, r.r);
    AllocAccounts(brk, kv, l, r.l, x);
    AllocAccounts(a.brk, r.kv, a.s, r.r, x);
    ThenAccounts(Uses(l, x) + Uses(r.l, x), brk, a, Uses(r.r, x), t, x);
    FreeAccounts(Uses(l, x) + Uses(r.l, x) + Uses(r.r, x), brk, Out(t.s, t.brk, a.acts + t.acts), r.p, x);
  }

  lemma SingleRightAccounts(brk: nat, kv: Pair, l: Shape, r: Shape, x: Ptr)
    requires l.At?
    ensures Accounts(Uses(l, x) + Uses(r, x), brk, TreeSingleRight(brk, kv, l, r), x)
  {
    var a := AllocNode(brk, kv, l.r, r);
    var t := AllocNode(a.brk, l.kv, l.l, a.s);
    AllocAccounts(brk, kv, l.r, r, x);
    AllocAccounts(a.brk, l.kv, l.l, a.s, x);
    ThenAccounts(Uses(l.r, x) + Uses(r, x), brk, a, Uses(l.l, x), t, x);
    FreeAccounts(Uses(l.r, x) + Uses(r, x) + Uses(l.l, x), brk, Out(t.s, t.brk, a.acts + t.acts), l.p, x);
  }

  lemma DoubleAccounts(used: int, used': int, brk: nat, tl: Out, tr: Out, kv: Pair, n: Ptr, x: Ptr)
    requires Accounts(used, brk, tl, x) && Accounts(used', tl.brk, tr, x)
    ensures var t := AllocNode(tr.brk, kv, tl.s, tr.s);
            Accounts(used + used' + (if n == x then 1 else 0), brk,
                     Out(t.s, t.brk, tl.acts + tr.acts + t.acts + [Free(n)]), x)
  {
    var t := AllocNode(tr.brk, kv, tl.s, tr.s);
    AllocAccounts(tr.brk, kv, tl.s, tr.s, x);
    CountsConcat(tl.acts, tr.acts, x);
    CountsConcat(tl.acts + tr.acts, t.acts, x);
    FreeAccounts(used + used', brk, Out(t.s, t.brk, tl.acts + tr.acts + t.acts), n, x);
  }

  lemma {:induction false} BalanceAccounts(brk: nat, n: Ptr, kv: Pair, l: Shape, r: Shape,
                                           leftreplace: bool, inplace: bool, x: Ptr)
    requires Sized(Erase(l)) && Sized(Erase(r))
    ensures Accounts(Uses(l, x) + Uses(r, x) + (if n == x then 1 else 0), brk,
                     TreeBalance(brk, n, kv, l, r, leftreplace, inplace), x)
    decreases Count(Erase(l)) + Count(Erase(r)), 1
  {
    var ln, rn := SizeOf(l), SizeOf(r);
    if ln + rn >= 2 && rn > 4 * ln {
      LeftAccounts(brk, n, kv, l, r, leftreplace, inplace, x);
    } else if ln + rn >= 2 && ln > 4 * rn {
      RightAccounts(brk, n, kv, l, r, leftreplace, inplace, x);
    } else {
      NodeAccounts(brk, n, kv, l, r, leftreplace, inplace, x);
    }
  }

  lemma {:induction false} LeftAccounts(brk: nat, n: Ptr, kv: Pair, l: Shape, r: Shape,
                                        leftreplace: bool, inplace: bool, x: Ptr)
    requires Sized(Erase(l)) && Sized(Erase(r))
    requires SizeOf(l) + SizeOf(r) >= 2 && SizeOf(r) > 4 * SizeOf(l)
    ensures Accounts(Uses(l, x) + Uses(r, x) + (if n == x then 1 else 0), brk,
                     TreeBalance(brk, n, kv, l, r, leftreplace, inplace), x)
    decreases Count(Erase(l)) + Count(Erase(r)), 0
  {
    InnerChild(l, r);
    var used := Uses(l, x) + Uses(r, x);
    if SizeOf(r.l) < SizeOf(r.r) {
      SingleLeftAccounts(brk, kv, l, r, x);
      FreeAccounts(used, brk, TreeSingleLeft(brk, kv, l, r), n, x);
    } else {
      ErasedParts(r);
      ErasedParts(r.l);
      var tl := AllocNode(brk, kv, l, r.l.l);
      var tr := TreeBalance(tl.brk, r.p, r.kv, r.l.r, r.r, false, false);
      AllocAccounts(brk, kv, l, r.l.l, x);
      BalanceAccounts(tl.brk, r.p, r.kv, r.l.r, r.r, false, false, x);
      var used' := Uses(r.l.r, x) + Uses(r.r, x) + if r.p == x then 1 else 0;
      DoubleAccounts(Uses(l, x) + Uses(r.l.l, x), used', brk, tl, tr, r.l.kv, r.l.p, x);
      assert Uses(r.l, x) == Uses(r.l.l, x) + (if r.l.p == x then 1 else 0) + Uses(r.l.r, x);
      FreeAccounts(used, brk, TreeDoubleLeft(tl, tr, r), n, x);
    }
  }

  lemma {:induction false} RightAccounts(brk: nat, n: Ptr, kv: Pair, l: Shape, r: Shape,
                                         leftreplace: bool, inplace: bool, x: Ptr)
    requires Sized(Erase(l)) && Sized(Erase(r))
    requires SizeOf(l) + SizeOf(r) >= 2 && SizeOf(l) > 4 * SizeOf(r)
    ensures Accounts(Uses(l, x) + Uses(r, x) + (if n == x then 1 else 0), brk,
                     TreeBalance(brk, n, kv, l, r, leftreplace, inplace), x)
    decreases Count(Erase(l)) + Count(Erase(r)), 0
  {
    InnerChild(r, l);
    var used := Uses(l, x) + Uses(r, x);
    if SizeOf(l.r) < SizeOf(l.l) {
      SingleRightAccounts(brk, kv, l, r, x);
      FreeAccounts(used, brk, TreeSingleRight(brk, kv, l, r), n, x);
    } else {
      ErasedParts(l);
      ErasedParts(l.r);
      var tl := TreeBalance(brk, l.p, l.kv, l.l, l.r.l, false, false);
      var tr := AllocNode(tl.brk, kv, l.r.r, r);
      BalanceAccounts(brk, l.p, l.kv, l.l, l.r.l, false, false, x);
      AllocAccounts(tl.brk, kv, l.r.r, r, x);
      var used' := Uses(l.l, x) + Uses(l.r.l, x) + if l.p == x then 1 else 0;
      DoubleAccounts(used', Uses(l.r.r, x) + Uses(r, x), brk, tl, tr, l.r.kv, l.r.p, x);
      assert Uses(l.r, x) == Uses(l.r.l, x) + (if l.r.p == x then 1 else 0) + Uses(l.r.r, x);
      FreeAccounts(used, brk, TreeDoubleRight(tl, tr, l), n, x);
    }
  }

  // ----------------------------------------------------------------------
  // Every store is safe, and the stores build the tree that is returned
  // ----------------------------------------------------------------------

  ghost predicate Below(h: Heap, brk: nat) {
    forall p :: p in h ==> p <= brk
  }

  /** Heaps a writer works on: pointers stay inside, addresses above brk are free. */
  ghost predicate Good(h: Heap, brk: nat) {
    Closed(h) && Below(h, brk)
  }

  /** Running the stores of `o` on `h` is safe throughout, builds the tree `o.s`, and
      changes no cell outside `touched`. */
  ghost predicate Sound(h: Heap, o: Out, touched: set<Ptr>, key: nat, removing: bool) {
    && Safe(h, o.acts, key, removing)
    && Good(Run(h, o.acts), o.brk) && Rep(Run(h, o.acts), o.s)
    && SameCells(h, Run(h, o.acts), h.Keys - touched)
  }

  lemma RepKept(h: Heap, h': Heap, s: Shape, touched: set<Ptr>)
    requires Rep(h, s) && SameCells(h, h', h.Keys - touched) && Addrs(s) !! touched
    ensures Rep(h', s)
  {
    RepAddrs(h, s);
    RepFrame(h, h', s);
  }

  lemma SafeOne(h: Heap, a: Act, key: nat, removing: bool)
    requires Evolves(h, Do(h, a), key, removing)
    ensures Run(h, [a]) == Do(h, a) && Safe(h, [a], key, removing)
  {
    assert [a][1..] == [];
  }

  lemma AllocSound(h: Heap, brk: nat, kv: Pair, l: Shape, r: Shape, key: nat, removing: bool)
    requires Good(h, brk) && Rep(h, l) && Rep(h, r)
    ensures Sound(h, AllocNode(brk, kv, l, r), {}, key, removing)
  {
    var o := AllocNode(brk, kv, l, r);
    var h' := Do(h, o.acts[0]);
    RepAddrs(h, l);
    RepAddrs(h, r);
    SameLinksEvolve(h, h', key, removing);
    SafeOne(h, o.acts[0], key, removing);
    RepFrame(h, h', l);
    RepFrame(h, h', r);
  }

  /** Two stretches of stores, one after the other. */
  lemma SoundThen(h: Heap, a: Out, b: Out, touched: set<Ptr>, touched': set<Ptr>, key: nat, removing: bool)
    requires Sound(h, a, touched, key, removing)
    requires Sound(Run(h, a.acts), b, touched', key, removing)
    ensures Sound(h, Out(b.s, b.brk, a.acts + b.acts), touched + touched', key, removing)
  {
    RunConcat(h, a.acts, b.acts);
    SafeConcat(h, a.acts, b.acts, key, removing);
  }

  lemma FreeSound(h: Heap, a: Out, n: Ptr, touched: set<Ptr>, key: nat, removing: bool)
    requires Sound(h, a, touched, key, removing)
    ensures Sound(h, ThenFree(a, n), touched, key, removing)
  {
    var g := Run(h, a.acts);
    SameLinksEvolve(g, g, key, removing);
    SafeOne(g, Free(n), key, removing);
    SafeConcat(h, a.acts, [Free(n)], key, removing);
    RunConcat(h, a.acts, [Free(n)]);
  }

  lemma SingleLeftSound(h: Heap, brk: nat, kv: Pair, l: Shape, r: Shape, key: nat, removing: bool)
    requires Good(h, brk) && Rep(h, l) && Rep(h, r) && r.At?
    ensures Sound(h, TreeSingleLeft(brk, kv, l, r), {}, key, removing)
  {
    var a := AllocNode(brk, kv, l, r.l);
    AllocSound(h, brk, kv, l, r.l, key, removing);
    RepKept(h, Run(h, a.acts), r.r, {});
    var t := AllocNode(a.brk, r.kv, a.s, r.r);
    AllocSound(Run(h, a.acts), a.brk, r.kv, a.s, r.r, key, removing);
    SoundThen(h, a, t, {}, {}, key, removing);
    FreeSound(h, Out(t.s, t.brk, a.acts + t.acts), r.p, {}, key, removing);
  }

  lemma SingleRightSound(h: Heap, brk: nat, kv: Pair, l: Shape, r: Shape, key: nat, removing: bool)
    requires Good(h, brk) && Rep(h, l) && Rep(h, r) && l.At?
    ensures Sound(h, TreeSingleRight(brk, kv, l, r), {}, key, removing)
  {
    var a := AllocNode(brk, kv, l.r, r);
    AllocSound(h, brk, kv, l.r, r, key, removing);
    RepKept(h, Run(h, a.acts), l.l, {});
    var t := AllocNode(a.brk, l.kv, l.l, a.s);
    AllocSound(Run(h, a.acts), a.brk, l.kv, l.l, a.s, key, removing);
    SoundThen(h, a, t, {}, {}, key, removing);
    FreeSound(h, Out(t.s, t.brk, a.acts + t.acts), l.p, {}, key, removing);
  }

  /** The halves of a double rotation, built one after the other, joined under `kv`. */
  lemma DoubleSound(h: Heap, tl: Out, tr: Out, kv: Pair, n: Ptr, key: nat, removing: bool)
    requires Sound(h, tl, {}, key, removing) && Sound(Run(h, tl.acts), tr, {}, key, removing)
    ensures var t := AllocNode(tr.brk, kv, tl.s, tr.s);
            Sound(h, Out(t.s, t.brk, tl.acts + tr.acts + t.acts + [Free(n)]), {}, key, removing)
  {
    var g := Run(h, tl.acts);
    var g' := Run(g, tr.acts);
    RepKept(g, g', tl.s, {});
    var t := AllocNode(tr.brk, kv, tl.s, tr.s);
    AllocSound(g', tr.brk, kv, tl.s, tr.s, key, removing);
    SoundThen(h, tl, tr, {}, {}, key, removing);
    RunConcat(h, tl.acts, tr.acts);
    var m := Out(tr.s, tr.brk, tl.acts + tr.acts);
    SoundThen(h, m, t, {}, {}, key, removing);
    FreeSound(h, Out(t.s, t.brk, m.acts + t.acts), n, {}, key, removing);
  }

  /** What tree_node asks before it may overwrite a child of `n`: the other child is in
      place, and the new child holds what the old one held up to the operation's key. */
  ghost predicate MayStore(h: Heap, n: Ptr, kv: Pair, l: Shape, r: Shape, leftreplace: bool, key: nat, removing: bool) {
    && n in h && h[n].kv == kv && n !in Addrs(l) && n !in Addrs(r)
    && (if leftreplace then h[n].r == PtrOf(r) else h[n].l == PtrOf(l))
    && Ordered(Erase(if leftreplace then l else r))
    && Replaces(h, Child(h[n], leftreplace), if leftreplace then l else r, key, removing)
  }

  lemma NodeSound(h: Heap, brk: nat, n: Ptr, kv: Pair, l: Shape, r: Shape, leftreplace: bool, key: nat, removing: bool)
    requires Good(h, brk) && Rep(h, l) && Rep(h, r) && MayStore(h, n, kv, l, r, leftreplace, key, removing)
    ensures Sound(h, TreeNode(brk, n, kv, l, r, leftreplace, true), {n}, key, removing)
  {
    var o := TreeNode(brk, n, kv, l, r, leftreplace, true);
    var d := if leftreplace then l else r;
    var h1 := Do(h, o.acts[0]);
    var h2 := Do(h1, o.acts[1]);
    RepAddrs(h, l);
    RepAddrs(h, r);
    SwingEvolves(h, n, leftreplace, d, key, removing);
    SameLinksEvolve(h1, h2, key, removing);
    SafeOne(h, o.acts[0], key, removing);
    SafeOne(h1, o.acts[1], key, removing);
    assert o.acts == [o.acts[0]] + [o.acts[1]];
    SafeConcat(h, [o.acts[0]], [o.acts[1]], key, removing);
    RunConcat(h, [o.acts[0]], [o.acts[1]]);
    RepFrame(h, h2, l);
    RepFrame(h, h2, r);
  }

  lemma {:induction false} BalanceSound(h: Heap, brk: nat, n: Ptr, kv: Pair, l: Shape, r: Shape,
                                        leftreplace: bool, inplace: bool, key: nat, removing: bool)
    requires Good(h, brk) && Rep(h, l) && Rep(h, r) && Sized(Erase(l)) && Sized(Erase(r))
    requires inplace ==> MayStore(h, n, kv, l, r, leftreplace, key, removing)
    ensures Sound(h, TreeBalance(brk, n, kv, l, r, leftreplace, inplace), {n}, key, removing)
    ensures !inplace ==> Sound(h, TreeBalance(brk, n, kv, l, r, leftreplace, inplace), {}, key, removing)
    decreases Count(Erase(l)) + Count(Erase(r)), 1
  {
    var ln, rn := SizeOf(l), SizeOf(r);
    if ln + rn >= 2 && rn > 4 * ln {
      LeftSound(h, brk, n, kv, l, r, leftreplace, inplace, key, removing);
    } else if ln + rn >= 2 && ln > 4 * rn {
      RightSound(h, brk, n, kv, l, r, leftreplace, inplace, key, removing);
    } else if inplace {
      NodeSound(h, brk, n, kv, l, r, leftreplace, key, removing);
    } else {
      AllocSound(h, brk, kv, l, r, key, removing);
      FreeSound(h, AllocNode(brk, kv, l, r), n, {}, key, removing);
    }
  }

  lemma {:induction false} LeftSound(h: Heap, brk: nat, n: Ptr, kv: Pair, l: Shape, r: Shape,
                                     leftreplace: bool, inplace: bool, key: nat, removing: bool)
    requires Good(h, brk) && Rep(h, l) && Rep(h, r) && Sized(Erase(l)) && Sized(Erase(r))
    requires SizeOf(l) + SizeOf(r) >= 2 && SizeOf(r) > 4 * SizeOf(l)
    ensures Sound(h, TreeBalance(brk, n, kv, l, r, leftreplace, inplace), {}, key, removing)
    decreases Count(Erase(l)) + Count(Erase(r)), 0
  {
    InnerChild(l, r);
    if SizeOf(r.l) < SizeOf(r.r) {
      SingleLeftSound(h, brk, kv, l, r, key, removing);
      FreeSound(h, TreeSingleLeft(brk, kv, l, r), n, {}, key, removing);
    } else {
      ErasedParts(r);
      ErasedParts(r.l);
      var tl := AllocNode(brk, kv, l, r.l.l);
      AllocSound(h, brk, kv, l, r.l.l, key, removing);
      var g := Run(h, tl.acts);
      RepKept(h, g, r, {});
      BalanceSound(g, tl.brk, r.p, r.kv, r.l.r, r.r, false, false, key, removing);
      var tr := TreeBalance(tl.brk, r.p, r.kv, r.l.r, r.r, false, false);
      DoubleSound(h, tl, tr, r.l.kv, r.l.p, key, removing);
      FreeSound(h, TreeDoubleLeft(tl, tr, r), n, {}, key, removing);
    }
  }

  lemma {:induction false} RightSound(h: Heap, brk: nat, n: Ptr, kv: Pair, l: Shape, r: Shape,
                                      leftreplace: bool, inplace: bool, key: nat, removing: bool)
    requires Good(h, brk) && Rep(h, l) && Rep(h, r) && Sized(Erase(l)) && Sized(Erase(r))
    requires SizeOf(l) + SizeOf(r) >= 2 && SizeOf(l) > 4 * SizeOf(r)
    ensures Sound(h, TreeBalance(brk, n, kv, l, r, leftreplace, inplace), {}, key, removing)
    decreases Count(Erase(l)) + Count(Erase(r)), 0
  {
    InnerChild(r, l);
    if SizeOf(l.r) < SizeOf(l.l) {
      SingleRightSound(h, brk, kv, l, r, key, removing);
      FreeSound(h, TreeSingleRight(brk, kv, l, r), n, {}, key, removing);
    } else {
      ErasedParts(l);
      ErasedParts(l.r);
      BalanceSound(h, brk, l.p, l.kv, l.l, l.r.l, false, false, key, removing);
      var tl := TreeBalance(brk, l.p, l.kv, l.l, l.r.l, false, false);
      var g := Run(h, tl.acts);
      RepKept(h, g, l, {});
      RepKept(h, g, r, {});
      var tr := AllocNode(tl.brk, kv, l.r.r, r);
      AllocSound(g, tl.brk, kv, l.r.r, r, key, removing);
      DoubleSound(h, tl, tr, l.r.kv, l.r.p, key, removing);
      FreeSound(h, TreeDoubleRight(tl, tr, l), n, {}, key, removing);
    }
  }

  // ----------------------------------------------------------------------
  // Insert and remove
  // ----------------------------------------------------------------------

  function TreeInsert(brk: nat, s: Shape, kv: Pair): (o: Out)
    requires Sized(Erase(s))
    ensures Erase(o.s) == Insert(Erase(s), kv)
  {
    ErasedParts(s);
    if s.Nil? then AllocNode(brk, kv, Nil, Nil)
    else if kv.key == s.kv.key then Out(s, brk, [])
    else if kv.key < s.kv.key then
      var c := TreeInsert(brk, s.l, kv);
      BalanceRefines(c.brk, s.p, s.kv, c.s, s.r, true, true);
      After(c, TreeBalance(c.brk, s.p, s.kv, c.s, s.r, true, true))
    else
      var c := TreeInsert(brk, s.r, kv);
      BalanceRefines(c.brk, s.p, s.kv, s.l, c.s, false, true);
      After(c, TreeBalance(c.brk, s.p, s.kv, s.l, c.s, false, true))
  }

  /** The stores of `b` made after those of `a`. */
  function After(a: Out, b: Out): Out {
    Out(b.s, b.brk, a.acts + b.acts)
  }

  function TreeMin(s: Shape): (m: Shape)
    requires s.At?
    ensures m.At? && m.kv == Min(Erase(s))
  {
    if s.l.Nil? then s else TreeMin(s.l)
  }

  function TreeDelmin(brk: nat, s: Shape): (o: Out)
    requires s.At? && Sized(Erase(s))
    ensures Erase(o.s) == DelMin(Erase(s))
  {
    ErasedParts(s);
    if s.l.Nil? then Out(s.r, brk, [])
    else
      var c := TreeDelmin(brk, s.l);
      BalanceRefines(c.brk, s.p, s.kv, c.s, s.r, true, false);
      After(c, TreeBalance(c.brk, s.p, s.kv, c.s, s.r, true, false))
  }

  function TreeDelprime(brk: nat, l: Shape, r: Shape): (o: Out)
    requires Sized(Erase(l)) && Sized(Erase(r))
    ensures Erase(o.s) == DelPrime(Erase(l), Erase(r))
  {
    if l.Nil? then Out(r, brk, [])
    else if r.Nil? then Out(l, brk, [])
    else
      var c, min := TreeDelmin(brk, r), TreeMin(r);
      BalanceRefines(c.brk, min.p, min.kv, l, c.s, false, false);
      After(c, TreeBalance(c.brk, min.p, min.kv, l, c.s, false, false))
  }

  function TreeRemove(brk: nat, s: Shape, key: nat): (o: Out)
    requires Sized(Erase(s))
    ensures Erase(o.s) == Remove(Erase(s), key)
  {
    ErasedParts(s);
    if s.Nil? then Out(Nil, brk, [])
    else if key < s.kv.key then
      var c := TreeRemove(brk, s.l, key);
      BalanceRefines(c.brk, s.p, s.kv, c.s, s.r, true, true);
      After(c, TreeBalance(c.brk, s.p, s.kv, c.s, s.r, true, true))
    else if key > s.kv.key then
      var c := TreeRemove(brk, s.r, key);
      BalanceRefines(c.brk, s.p, s.kv, s.l, c.s, false, true);
      After(c, TreeBalance(c.brk, s.p, s.kv, s.l, c.s, false, true))
    else ThenFree(TreeDelprime(brk, s.l, s.r), s.p)
  }

  lemma {:induction false} InsertAccounts(brk: nat, s: Shape, kv: Pair, x: Ptr)
    requires Sized(Erase(s))
    ensures Accounts(Uses(s, x), brk, TreeInsert(brk, s, kv), x)
  {
    ErasedParts(s);
    if s.Nil? {
      AllocAccounts(brk, kv, Nil, Nil, x);
    } else if kv.key < s.kv.key {
      InsertAccounts(brk, s.l, kv, x);
      var c := TreeInsert(brk, s.l, kv);
      BalanceAccounts(c.brk, s.p, s.kv, c.s, s.r, true, true, x);
      ThenAccounts(Uses(s.l, x), brk, c, Uses(s.r, x) + (if s.p == x then 1 else 0),
                   TreeBalance(c.brk, s.p, s.kv, c.s, s.r, true, true), x);
    } else if kv.key > s.kv.key {
      InsertAccounts(brk, s.r, kv, x);
      var c := TreeInsert(brk, s.r, kv);
      BalanceAccounts(c.brk, s.p, s.kv, s.l, c.s, false, true, x);
      ThenAccounts(Uses(s.r, x), brk, c, Uses(s.l, x) + (if s.p == x then 1 else 0),
                   TreeBalance(c.brk, s.p, s.kv, s.l, c.s, false, true), x);
    }
  }

  lemma {:induction false} DelminAccounts(brk: nat, s: Shape, x: Ptr)
    requires s.At? && Sized(Erase(s))
    ensures Accounts(Uses(s, x) - (if TreeMin(s).p == x then 1 else 0), brk, TreeDelmin(brk, s), x)
  {
    ErasedParts(s);
    if s.l.At? {
      DelminAccounts(brk, s.l, x);
      var c := TreeDelmin(brk, s.l);
      BalanceAccounts(c.brk, s.p, s.kv, c.s, s.r, true, false, x);
      ThenAccounts(Uses(s.l, x) - (if TreeMin(s.l).p == x then 1 else 0), brk, c,
                   Uses(s.r, x) + (if s.p == x then 1 else 0),
                   TreeBalance(c.brk, s.p, s.kv, c.s, s.r, true, false), x);
    }
  }

  lemma DelprimeAccounts(brk: nat, l: Shape, r: Shape, x: Ptr)
    requires Sized(Erase(l)) && Sized(Erase(r))
    ensures Accounts(Uses(l, x) + Uses(r, x), brk, TreeDelprime(brk, l, r), x)
  {
    if l.At? && r.At? {
      var c, min := TreeDelmin(brk, r), TreeMin(r);
      DelminAccounts(brk, r, x);
      BalanceAccounts(c.brk, min.p, min.kv, l, c.s, false, false, x);
      ThenAccounts(Uses(r, x) - (if min.p == x then 1 else 0), brk, c,
                   Uses(l, x) + (if min.p == x then 1 else 0),
                   TreeBalance(c.brk, min.p, min.kv, l, c.s, false, false), x);
    }
  }

  lemma {:induction false} RemoveAccounts(brk: nat, s: Shape, key: nat, x: Ptr)
    requires Sized(Erase(s))
    ensures Accounts(Uses(s, x), brk, TreeRemove(brk, s, key), x)
  {
    ErasedParts(s);
    if s.Nil? {
    } else if key < s.kv.key {
      RemoveAccounts(brk, s.l, key, x);
      var c := TreeRemove(brk, s.l, key);
      BalanceAccounts(c.brk, s.p, s.kv, c.s, s.r, true, true, x);
      ThenAccounts(Uses(s.l, x), brk, c, Uses(s.r, x) + (if s.p == x then 1 else 0),
                   TreeBalance(c.brk, s.p, s.kv, c.s, s.r, true, true), x);
    } else if key > s.kv.key {
      RemoveAccounts(brk, s.r, key, x);
      var c := TreeRemove(brk, s.r, key);
      BalanceAccounts(c.brk, s.p, s.kv, s.l, c.s, false, true, x);
      ThenAccounts(Uses(s.r, x), brk, c, Uses(s.l, x) + (if s.p == x then 1 else 0),
                   TreeBalance(c.brk, s.p, s.kv, s.l, c.s, false, true), x);
    } else {
      DelprimeAccounts(brk, s.l, s.r, x);
      FreeAccounts(Uses(s.l, x) + Uses(s.r, x), brk, TreeDelprime(brk, s.l, s.r), s.p, x);
    }
  }

  /** No cell occurs twice in the tree. */
  ghost predicate Unshared(s: Shape) {
    forall x :: Uses(s, x) <= 1
  }

  lemma {:induction false} UsesIsAddrs(s: Shape, x: Ptr)
    ensures x in Addrs(s) <==> Uses(s, x) > 0
  {
    if s.At? {
      UsesIsAddrs(s.l, x);
      UsesIsAddrs(s.r, x);
    }
  }

  lemma UnsharedParts(s: Shape)
    requires s.At? && Unshared(s)
    ensures Unshared(s.l) && Unshared(s.r) && Addrs(s.l) !! Addrs(s.r)
    ensures s.p !in Addrs(s.l) && s.p !in Addrs(s.r)
  {
    forall x ensures Uses(s.l, x) <= 1 && Uses(s.r, x) <= 1 && (x in Addrs(s.l) ==> x !in Addrs(s.r)) {
      assert Uses(s, x) <= 1;
      UsesIsAddrs(s.l, x);
      UsesIsAddrs(s.r, x);
    }
    assert Uses(s, s.p) <= 1;
    UsesIsAddrs(s.l, s.p);
    UsesIsAddrs(s.r, s.p);
  }

  /** A cell that existed before and was not part of the tree is not part of the result. */
  lemma StaysOut(used: int, brk: nat, o: Out, x: Ptr)
    requires Accounts(used, brk, o, x) && used == 0 && x <= brk
    ensures x !in Addrs(o.s)
  {
    UsesIsAddrs(o.s, x);
  }

  /** After the stores of `c` below it, the old child pointer of a node may be replaced
      by the tree `c` built. */
  lemma ReplacesOld(h: Heap, old_: Shape, c: Out, key: nat, removing: bool)
    requires Closed(h) && Rep(h, old_) && Ordered(Erase(old_)) && Ordered(Erase(c.s))
    requires Safe(h, c.acts, key, removing)
    requires Keys(Erase(c.s)) == if removing then Keys(Erase(old_)) - {key} else Keys(Erase(old_)) + {key}
    ensures Replaces(Run(h, c.acts), PtrOf(old_), c.s, key, removing)
  {
    var g := Run(h, c.acts);
    SafeEvolves(h, c.acts, key, removing);
    RepAddrs(h, old_);
    forall k ensures MayBecome(Findable(g, PtrOf(old_), k), k in Keys(Erase(c.s)), k, key, removing) {
      FindableIsMember(h, old_, k);
      assert MayBecome(Findable(h, PtrOf(old_), k), Findable(g, PtrOf(old_), k), k, key, removing);
    }
  }

  lemma InsertKeys(t: Tree, kv: Pair)
    requires Sized(t) && Ordered(t)
    ensures Ordered(Insert(t, kv)) && Keys(Insert(t, kv)) == Keys(t) + {kv.key}
  {
    InsertContents(t, kv);
    if kv.key !in Keys(t) {
      assert forall p :: p in Pairs(Insert(t, kv)) <==> p in Pairs(t) || p == kv;
      assert kv in Pairs(Insert(t, kv));
    }
  }

  lemma RemoveKeys(t: Tree, key: nat)
    requires Sized(t) && Ordered(t)
    ensures Ordered(Remove(t, key)) && Keys(Remove(t, key)) == Keys(t) - {key}
  {
    RemoveContents(t, key);
  }

  lemma {:induction false} InsertSound(h: Heap, brk: nat, s: Shape, kv: Pair)
    requires Good(h, brk) && Rep(h, s) && Unshared(s) && Sized(Erase(s)) && Ordered(Erase(s))
    ensures Sound(h, TreeInsert(brk, s, kv), Addrs(s), kv.key, false)
    decreases s
  {
    ErasedParts(s);
    RepAddrs(h, s);
    if s.Nil? {
      AllocSound(h, brk, kv, Nil, Nil, kv.key, false);
    } else if kv.key == s.kv.key {
    } else {
      var left := kv.key < s.kv.key;
      var d := if left then s.l else s.r;
      var c := TreeInsert(brk, d, kv);
      UnsharedParts(s);
      InsertSound(h, brk, d, kv);
      InsertKeys(Erase(d), kv);
      InsertAccounts(brk, d, kv, s.p);
      StepUp(h, brk, s, left, c, kv.key, false);
    }
  }

  /** One level of the recursion of tree_insert and tree_remove: the child on one side has
      been rebuilt by `c`, and `s` is rebalanced in place around it. */
  lemma StepUp(h: Heap, brk: nat, s: Shape, left: bool, c: Out, key: nat, removing: bool)
    requires s.At? && Good(h, brk) && Rep(h, s) && Unshared(s) && Sized(Erase(s)) && Ordered(Erase(s))
    requires Sound(h, c, Addrs(if left then s.l else s.r), key, removing)
    requires Sized(Erase(c.s)) && Ordered(Erase(c.s))
    requires Accounts(Uses(if left then s.l else s.r, s.p), brk, c, s.p)
    requires Keys(Erase(c.s)) == if removing then Keys(Erase(if left then s.l else s.r)) - {key}
                                 else Keys(Erase(if left then s.l else s.r)) + {key}
    ensures Sized(Erase(s.l)) && Sized(Erase(s.r))
    ensures var l, r := if left then c.s else s.l, if left then s.r else c.s;
            Sound(h, After(c, TreeBalance(c.brk, s.p, s.kv, l, r, left, true)), Addrs(s), key, removing)
  {
    ErasedParts(s);
    UnsharedParts(s);
    RepAddrs(h, s);
    var d, e := if left then s.l else s.r, if left then s.r else s.l;
    var l, r := if left then c.s else s.l, if left then s.r else c.s;
    var g := Run(h, c.acts);
    RepKept(h, g, e, Addrs(d));
    UsesIsAddrs(d, s.p);
    StaysOut(Uses(d, s.p), brk, c, s.p);
    ReplacesOld(h, d, c, key, removing);
    assert g[s.p] == h[s.p];
    BalanceSound(g, c.brk, s.p, s.kv, l, r, left, true, key, removing);
    SoundThen(h, c, TreeBalance(c.brk, s.p, s.kv, l, r, left, true), Addrs(d), {s.p}, key, removing);
    assert Addrs(d) + {s.p} <= Addrs(s);
  }

  lemma {:induction false} DelminSound(h: Heap, brk: nat, s: Shape, key: nat, removing: bool)
    requires s.At? && Good(h, brk) && Rep(h, s) && Sized(Erase(s))
    ensures Sound(h, TreeDelmin(brk, s), {}, key, removing)
    decreases s
  {
    ErasedParts(s);
    if s.l.At? {
      DelminSound(h, brk, s.l, key, removing);
      var c := TreeDelmin(brk, s.l);
      var g := Run(h, c.acts);
      RepKept(h, g, s.r, {});
      BalanceSound(g, c.brk, s.p, s.kv, c.s, s.r, true, false, key, removing);
      SoundThen(h, c, TreeBalance(c.brk, s.p, s.kv, c.s, s.r, true, false), {}, {}, key, removing);
    }
  }

  lemma DelprimeSound(h: Heap, brk: nat, l: Shape, r: Shape, key: nat, removing: bool)
    requires Good(h, brk) && Rep(h, l) && Rep(h, r) && Sized(Erase(l)) && Sized(Erase(r))
    ensures Sound(h, TreeDelprime(brk, l, r), {}, key, removing)
  {
    if l.At? && r.At? {
      var c, min := TreeDelmin(brk, r), TreeMin(r);
      DelminSound(h, brk, r, key, removing);
      var g := Run(h, c.acts);
      RepKept(h, g, l, {});
      BalanceSound(g, c.brk, min.p, min.kv, l, c.s, false, false, key, removing);
      SoundThen(h, c, TreeBalance(c.brk, min.p, min.kv, l, c.s, false, false), {}, {}, key, removing);
    }
  }

  lemma {:induction false} RemoveSound(h: Heap, brk: nat, s: Shape, key: nat)
    requires Good(h, brk) && Rep(h, s) && Unshared(s) && Sized(Erase(s)) && Ordered(Erase(s))
    ensures Sound(h, TreeRemove(brk, s, key), Addrs(s), key, true)
    decreases s
  {
    ErasedParts(s);
    RepAddrs(h, s);
    if s.Nil? {
    } else if key == s.kv.key {
      DelprimeSound(h, brk, s.l, s.r, key, true);
      FreeSound(h, TreeDelprime(brk, s.l, s.r), s.p, {}, key, true);
    } else {
      var left := key < s.kv.key;
      var d := if left then s.l else s.r;
      var c := TreeRemove(brk, d, key);
      UnsharedParts(s);
      RemoveSound(h, brk, d, key);
      RemoveKeys(Erase(d), key);
      RemoveAccounts(brk, d, key, s.p);
      StepUp(h, brk, s, left, c, key, true);
    }
  }

  // ----------------------------------------------------------------------
  // The writer stores, into and of, no cell it was not given
  // ----------------------------------------------------------------------

  /** One of the cells `a`, or a cell allocated since brk was the limit. */
  ghost predicate Inside(p: Ptr, a: set<Ptr>, brk: nat) {
    p in a || p > brk
  }

  ghost predicate Known(p: Ptr, a: set<Ptr>, brk: nat) {
    p == 0 || Inside(p, a, brk)
  }

  ghost predicate KnownAct(act: Act, a: set<Ptr>, brk: nat) {
    match act
    case New(p, cell) => p > brk && Known(cell.l, a, brk) && Known(cell.r, a, brk)
    case SetChild(n, _, c) => Inside(n, a, brk) && Known(c, a, brk)
    case SetSize(n, _) => Inside(n, a, brk)
    case Free(n) => Inside(n, a, brk)
  }

  ghost predicate KnownShape(s: Shape, a: set<Ptr>, brk: nat) {
    forall p :: p in Addrs(s) ==> Inside(p, a, brk)
  }

  ghost predicate Confined(o: Out, a: set<Ptr>, brk: nat) {
    && brk <= o.brk && KnownShape(o.s, a, brk)
    && forall i :: 0 <= i < |o.acts| ==> KnownAct(o.acts[i], a, brk)
  }

  lemma KnownRoot(s: Shape, a: set<Ptr>, brk: nat)
    requires KnownShape(s, a, brk)
    ensures Known(PtrOf(s), a, brk)
  {
    if s.At? {
      assert s.p in Addrs(s);
    }
  }

  lemma AllocConfined(at: nat, kv: Pair, l: Shape, r: Shape, a: set<Ptr>, brk: nat)
    requires brk <= at && KnownShape(l, a, brk) && KnownShape(r, a, brk)
    ensures Confined(AllocNode(at, kv, l, r), a, brk)
  {
    KnownRoot(l, a, brk);
    KnownRoot(r, a, brk);
  }

  lemma AfterConfined(o: Out, b: Out, a: set<Ptr>, brk: nat)
    requires Confined(o, a, brk) && Confined(b, a, brk)
    ensures Confined(After(o, b), a, brk)
  {
  }

  lemma FreeConfined(o: Out, n: Ptr, a: set<Ptr>, brk: nat)
    requires Confined(o, a, brk) && Inside(n, a, brk)
    ensures Confined(ThenFree(o, n), a, brk)
  {
  }

  lemma SubConfined(s: Shape, a: set<Ptr>, brk: nat)
    requires s.At? && KnownShape(s, a, brk)
    ensures KnownShape(s.l, a, brk) && KnownShape(s.r, a, brk) && Inside(s.p, a, brk)
  {
    assert s.p in Addrs(s);
  }

  lemma SingleConfined(at: nat, kv: Pair, l: Shape, r: Shape, a: set<Ptr>, brk: nat)
    requires brk <= at && KnownShape(l, a, brk) && KnownShape(r, a, brk)
    ensures r.At? ==> Confined(TreeSingleLeft(at, kv, l, r), a, brk)
    ensures l.At? ==> Confined(TreeSingleRight(at, kv, l, r), a, brk)
  {
    if r.At? {
      SubConfined(r, a, brk);
      var o := AllocNode(at, kv, l, r.l);
      AllocConfined(at, kv, l, r.l, a, brk);
      AllocConfined(o.brk, r.kv, o.s, r.r, a, brk);
    }
    if l.At? {
      SubConfined(l, a, brk);
      var o := AllocNode(at, kv, l.r, r);
      AllocConfined(at, kv, l.r, r, a, brk);
      AllocConfined(o.brk, l.kv, l.l, o.s, a, brk);
    }
  }

  lemma DoubleConfined(tl: Out, tr: Out, kv: Pair, n: Ptr, a: set<Ptr>, brk: nat)
    requires Confined(tl, a, brk) && Confined(tr, a, brk) && Inside(n, a, brk)
    ensures var t := AllocNode(tr.brk, kv, tl.s, tr.s);
            Confined(Out(t.s, t.brk, tl.acts + tr.acts + t.acts + [Free(n)]), a, brk)
  {
    var t := AllocNode(tr.brk, kv, tl.s, tr.s);
    AllocConfined(tr.brk, kv, tl.s, tr.s, a, brk);
    AfterConfined(tl, tr, a, brk);
    AfterConfined(After(tl, tr), t, a, brk);
    FreeConfined(After(After(tl, tr), t), n, a, brk);
  }

  lemma {:induction false} BalanceConfined(at: nat, n: Ptr, kv: Pair, l: Shape, r: Shape,
                                           leftreplace: bool, inplace: bool, a: set<Ptr>, brk: nat)
    requires Sized(Erase(l)) && Sized(Erase(r))
    requires brk <= at && KnownShape(l, a, brk) && KnownShape(r, a, brk) && Inside(n, a, brk)
    ensures Confined(TreeBalance(at, n, kv, l, r, leftreplace, inplace), a, brk)
    decreases Count(Erase(l)) + Count(Erase(r)), 1
  {
    var ln, rn := SizeOf(l), SizeOf(r);
    if ln + rn >= 2 && rn > 4 * ln {
      LeftConfined(at, n, kv, l, r, leftreplace, inplace, a, brk);
    } else if ln + rn >= 2 && ln > 4 * rn {
      RightConfined(at, n, kv, l, r, leftreplace, inplace, a, brk);
    } else {
      AllocConfined(at, kv, l, r, a, brk);
      KnownRoot(l, a, brk);
      KnownRoot(r, a, brk);
    }
  }

  lemma {:induction false} LeftConfined(at: nat, n: Ptr, kv: Pair, l: Shape, r: Shape,
                                        leftreplace: bool, inplace: bool, a: set<Ptr>, brk: nat)
    requires Sized(Erase(l)) && Sized(Erase(r))
    requires SizeOf(l) + SizeOf(r) >= 2 && SizeOf(r) > 4 * SizeOf(l)
    requires brk <= at && KnownShape(l, a, brk) && KnownShape(r, a, brk) && Inside(n, a, brk)
    ensures Confined(TreeBalance(at, n, kv, l, r, leftreplace, inplace), a, brk)
    decreases Count(Erase(l)) + Count(Erase(r)), 0
  {
    InnerChild(l, r);
    if SizeOf(r.l) < SizeOf(r.r) {
      SingleConfined(at, kv, l, r, a, brk);
      FreeConfined(TreeSingleLeft(at, kv, l, r), n, a, brk);
    } else {
      ErasedParts(r);
      ErasedParts(r.l);
      SubConfined(r, a, brk);
      SubConfined(r.l, a, brk);
      var tl := AllocNode(at, kv, l, r.l.l);
      AllocConfined(at, kv, l, r.l.l, a, brk);
      BalanceConfined(tl.brk, r.p, r.kv, r.l.r, r.r, false, false, a, brk);
      var tr := TreeBalance(tl.brk, r.p, r.kv, r.l.r, r.r, false, false);
      DoubleConfined(tl, tr, r.l.kv, r.l.p, a, brk);
      FreeConfined(TreeDoubleLeft(tl, tr, r), n, a, brk);
    }
  }

  lemma {:induction false} RightConfined(at: nat, n: Ptr, kv: Pair, l: Shape, r: Shape,
                                         leftreplace: bool, inplace: bool, a: set<Ptr>, brk: nat)
    requires Sized(Erase(l)) && Sized(Erase(r))
    requires SizeOf(l) + SizeOf(r) >= 2 && SizeOf(l) > 4 * SizeOf(r)
    requires brk <= at && KnownShape(l, a, brk) && KnownShape(r, a, brk) && Inside(n, a, brk)
    ensures Confined(TreeBalance(at, n, kv, l, r, leftreplace, inplace), a, brk)
    decreases Count(Erase(l)) + Count(Erase(r)), 0
  {
    InnerChild(r, l);
    if SizeOf(l.r) < SizeOf(l.l) {
      SingleConfined(at, kv, l, r, a, brk);
      FreeConfined(TreeSingleRight(at, kv, l, r), n, a, brk);
    } else {
      ErasedParts(l);
      ErasedParts(l.r);
      SubConfined(l, a, brk);
      SubConfined(l.r, a, brk);
      BalanceConfined(at, l.p, l.kv, l.l, l.r.l, false, false, a, brk);
      var tl := TreeBalance(at, l.p, l.kv, l.l, l.r.l, false, false);
      var tr := AllocNode(tl.brk, kv, l.r.r, r);
      AllocConfined(tl.brk, kv, l.r.r, r, a, brk);
      DoubleConfined(tl, tr, l.r.kv, l.r.p, a, brk);
      FreeConfined(TreeDoubleRight(tl, tr, l), n, a, brk);
    }
  }

  lemma {:induction false} InsertConfined(at: nat, s: Shape, kv: Pair, a: set<Ptr>, brk: nat)
    requires Sized(Erase(s)) && brk <= at && KnownShape(s, a, brk)
    ensures Confined(TreeInsert(at, s, kv), a, brk)
  {
    ErasedParts(s);
    if s.Nil? {
      AllocConfined(at, kv, Nil, Nil, a, brk);
    } else if kv.key < s.kv.key {
      SubConfined(s, a, brk);
      InsertConfined(at, s.l, kv, a, brk);
      var c := TreeInsert(at, s.l, kv);
      BalanceConfined(c.brk, s.p, s.kv, c.s, s.r, true, true, a, brk);
    } else if kv.key > s.kv.key {
      SubConfined(s, a, brk);
      InsertConfined(at, s.r, kv, a, brk);
      var c := TreeInsert(at, s.r, kv);
      BalanceConfined(c.brk, s.p, s.kv, s.l, c.s, false, true, a, brk);
    }
  }

  lemma {:induction false} DelminConfined(at: nat, s: Shape, a: set<Ptr>, brk: nat)
    requires s.At? && Sized(Erase(s)) && brk <= at && KnownShape(s, a, brk)
    ensures Confined(TreeDelmin(at, s), a, brk) && Inside(TreeMin(s).p, a, brk)
  {
    ErasedParts(s);
    SubConfined(s, a, brk);
    if s.l.At? {
      DelminConfined(at, s.l, a, brk);
      var c := TreeDelmin(at, s.l);
      BalanceConfined(c.brk, s.p, s.kv, c.s, s.r, true, false, a, brk);
    }
  }

  lemma {:induction false} RemoveConfined(at: nat, s: Shape, key: nat, a: set<Ptr>, brk: nat)
    requires Sized(Erase(s)) && brk <= at && KnownShape(s, a, brk)
    ensures Confined(TreeRemove(at, s, key), a, brk)
  {
    ErasedParts(s);
    if s.At? {
      SubConfined(s, a, brk);
      if key < s.kv.key {
        RemoveConfined(at, s.l, key, a, brk);
        var c := TreeRemove(at, s.l, key);
        BalanceConfined(c.brk, s.p, s.kv, c.s, s.r, true, true, a, brk);
      } else if key > s.kv.key {
        RemoveConfined(at, s.r, key, a, brk);
        var c := TreeRemove(at, s.r, key);
        BalanceConfined(c.brk, s.p, s.kv, s.l, c.s, false, true, a, brk);
      } else if s.l.At? && s.r.At? {
        DelminConfined(at, s.r, a, brk);
        var c, min := TreeDelmin(at, s.r), TreeMin(s.r);
        BalanceConfined(c.brk, min.p, min.kv, s.l, c.s, false, false, a, brk);
      }
    }
  }
}
