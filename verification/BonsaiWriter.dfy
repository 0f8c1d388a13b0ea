/**
 attic/bonsai.c statement by statement: a mutable heap of nodes, the writer's
 recursive procedures reading and overwriting it through pointers.  Each is proved
 to make exactly the stores of its counterpart in BonsaiHeap, in the same order.
 The ghost parameters name the tree a pointer leads to.
 */
module BonsaiWriter {
  import opened BonsaiTree
  import opened BonsaiHeap
  import T = BonsaiTree
  import H = BonsaiHeap
  import R = BonsaiReaders

  class Bonsai {
    var heap: Heap
    var brk: nat            // addresses above this one are free
    var root: Ptr
    ghost var log: seq<Act> // every store and free so far

    constructor ()
      ensures heap == map[] && brk == 0 && root == 0 && log == []
    {
      heap, brk, root, log := map[], 0, 0, [];
    }

    function SizeAt(p: Ptr): int
      requires p == 0 || p in heap
      reads this
    {
      if p == 0 then 0 else heap[p].size
    }

    method Store(a: Act)
      modifies this`heap, this`log
      ensures heap == Do(old(heap), a) && log == old(log) + [a]
    {
      heap := Do(heap, a);
      log := log + [a];
    }

    method AllocNode(kv: Pair, l: Ptr, r: Ptr, ghost sl: Shape, ghost sr: Shape) returns (p: Ptr)
      requires Good(heap, brk) && Rep(heap, sl) && Rep(heap, sr) && l == PtrOf(sl) && r == PtrOf(sr)
      modifies this`heap, this`brk, this`log
      ensures var o := H.AllocNode(old(brk), kv, sl, sr);
              p == PtrOf(o.s) && heap == Run(old(heap), o.acts) && brk == o.brk && log == old(log) + o.acts
    {
      RepAddrs(heap, sl);
      RepAddrs(heap, sr);
      p := brk + 1;
      brk := p;
      var cell := Cell(kv, SizeAt(l) + SizeAt(r) + 1, l, r);
      ghost var h := heap;
      Store(New(p, cell));
      assert [New(p, cell)][1..] == [];
      assert Run(h, [New(p, cell)]) == Do(h, New(p, cell));
    }

    method TreeSingleLeft(kv: Pair, l: Ptr, r: Ptr, ghost sl: Shape, ghost sr: Shape) returns (t: Ptr)
      requires Good(heap, brk) && Rep(heap, sl) && Rep(heap, sr) && l == PtrOf(sl) && r == PtrOf(sr) && sr.At?
      modifies this`heap, this`brk, this`log
      ensures var o := H.TreeSingleLeft(old(brk), kv, sl, sr);
              t == PtrOf(o.s) && heap == Run(old(heap), o.acts) && brk == o.brk && log == old(log) + o.acts
    {
      ghost var h := heap;
      ghost var oa := H.AllocNode(brk, kv, sl, sr.l);
      ghost var ot := H.AllocNode(oa.brk, sr.kv, oa.s, sr.r);
      AllocSound(h, brk, kv, sl, sr.l, 0, false);
      var a := AllocNode(kv, l, heap[r].l, sl, sr.l);
      RepKept(h, heap, sr, {});
      t := AllocNode(heap[r].kv, a, heap[r].r, oa.s, sr.r);
      RunConcat(h, oa.acts, ot.acts);
      RunConcat(h, oa.acts + ot.acts, [Free(r)]);
      Store(Free(r));
      assert [Free(r)][1..] == [];
    }

    method TreeSingleRight(kv: Pair, l: Ptr, r: Ptr, ghost sl: Shape, ghost sr: Shape) returns (t: Ptr)
      requires Good(heap, brk) && Rep(heap, sl) && Rep(heap, sr) && l == PtrOf(sl) && r == PtrOf(sr) && sl.At?
      modifies this`heap, this`brk, this`log
      ensures var o := H.TreeSingleRight(old(brk), kv, sl, sr);
              t == PtrOf(o.s) && heap == Run(old(heap), o.acts) && brk == o.brk && log == old(log) + o.acts
    {
      ghost var h := heap;
      ghost var oa := H.AllocNode(brk, kv, sl.r, sr);
      ghost var ot := H.AllocNode(oa.brk, sl.kv, sl.l, oa.s);
      AllocSound(h, brk, kv, sl.r, sr, 0, false);
      var a := AllocNode(kv, heap[l].r, r, sl.r, sr);
      RepKept(h, heap, sl, {});
      t := AllocNode(heap[l].kv, heap[l].l, a, sl.l, oa.s);
      RunConcat(h, oa.acts, ot.acts);
      RunConcat(h, oa.acts + ot.acts, [Free(l)]);
      Store(Free(l));
      assert [Free(l)][1..] == [];
    }

    method TreeDoubleLeft(n: Ptr, l: Ptr, r: Ptr, ghost sl: Shape, ghost sr: Shape) returns (t: Ptr)
      requires Good(heap, brk) && Rep(heap, sl) && Rep(heap, sr) && l == PtrOf(sl) && r == PtrOf(sr) && n in heap
      requires Sized(Erase(sl)) && Sized(Erase(sr)) && sr.At? && sr.l.At?
      requires Sized(Erase(sr.l.r)) && Sized(Erase(sr.r))
      modifies this`heap, this`brk, this`log
      ensures var tl := H.AllocNode(old(brk), old(heap)[n].kv, sl, sr.l.l);
              var o := H.TreeDoubleLeft(tl, H.TreeBalance(tl.brk, sr.p, sr.kv, sr.l.r, sr.r, false, false), sr);
              t == PtrOf(o.s) && heap == Run(old(heap), o.acts) && brk == o.brk && log == old(log) + o.acts
      decreases Count(Erase(sl)) + Count(Erase(sr)), 0
    {
      hide H.TreeBalance, Balance;
      ghost var h := heap;
      ghost var ol := H.AllocNode(brk, h[n].kv, sl, sr.l.l);
      ghost var or := H.TreeBalance(ol.brk, sr.p, sr.kv, sr.l.r, sr.r, false, false);
      ErasedParts(sr);
      ErasedParts(sr.l);
      DoubleLeftStages(h, brk, ol, or, h[n].kv, sl, sr);
      var tl := AllocNode(heap[n].kv, l, heap[heap[r].l].l, sl, sr.l.l);
      var tr := TreeBalance(r, heap[heap[r].l].r, heap[r].r, false, false, sr.l.r, sr.r);
      t := AllocNode(heap[heap[r].l].kv, tl, tr, ol.s, or.s);
      Store(Free(heap[r].l));
    }

    method TreeDoubleRight(n: Ptr, l: Ptr, r: Ptr, ghost sl: Shape, ghost sr: Shape) returns (t: Ptr)
      requires Good(heap, brk) && Rep(heap, sl) && Rep(heap, sr) && l == PtrOf(sl) && r == PtrOf(sr) && n in heap
      requires Sized(Erase(sl)) && Sized(Erase(sr)) && sl.At? && sl.r.At?
      requires Sized(Erase(sl.l)) && Sized(Erase(sl.r.l))
      modifies this`heap, this`brk, this`log
      ensures var tl := H.TreeBalance(old(brk), sl.p, sl.kv, sl.l, sl.r.l, false, false);
              var o := H.TreeDoubleRight(tl, H.AllocNode(tl.brk, old(heap)[n].kv, sl.r.r, sr), sl);
              t == PtrOf(o.s) && heap == Run(old(heap), o.acts) && brk == o.brk && log == old(log) + o.acts
      decreases Count(Erase(sl)) + Count(Erase(sr)), 0
    {
      hide H.TreeBalance, Balance;
      ghost var h := heap;
      ghost var ol := H.TreeBalance(brk, sl.p, sl.kv, sl.l, sl.r.l, false, false);
      ghost var or := H.AllocNode(ol.brk, h[n].kv, sl.r.r, sr);
      ErasedParts(sl);
      ErasedParts(sl.r);
      DoubleRightStages(h, brk, ol, or, n, h[n].kv, sl, sr);
      var tl := TreeBalance(l, heap[l].l, heap[heap[l].r].l, false, false, sl.l, sl.r.l);
      var tr := AllocNode(heap[n].kv, heap[heap[l].r].r, r, sl.r.r, sr);
      t := AllocNode(heap[heap[l].r].kv, tl, tr, ol.s, or.s);
      Store(Free(heap[l].r));
    }

    method TreeNode(n: Ptr, l: Ptr, r: Ptr, leftreplace: bool, inplace: bool, ghost sl: Shape, ghost sr: Shape)
      returns (t: Ptr)
      requires Good(heap, brk) && Rep(heap, sl) && Rep(heap, sr) && l == PtrOf(sl) && r == PtrOf(sr)
      requires n in heap
      modifies this`heap, this`brk, this`log
      ensures var o := H.TreeNode(old(brk), n, old(heap)[n].kv, sl, sr, leftreplace, inplace);
              t == PtrOf(o.s) && heap == Run(old(heap), o.acts) && brk == o.brk && log == old(log) + o.acts
    {
      ghost var h := heap;
      RepAddrs(h, sl);
      RepAddrs(h, sr);
      if inplace {
        var size := 1 + SizeAt(l) + SizeAt(r);
        ghost var o := H.TreeNode(brk, n, heap[n].kv, sl, sr, leftreplace, inplace);
        Store(SetChild(n, leftreplace, if leftreplace then l else r));
        Store(SetSize(n, size));
        t := n;
        assert o.acts == [o.acts[0]] + [o.acts[1]];
        RunConcat(h, [o.acts[0]], [o.acts[1]]);
        assert [o.acts[0]][1..] == [] && [o.acts[1]][1..] == [];
      } else {
        t := AllocNode(heap[n].kv, l, r, sl, sr);
        RunConcat(h, H.AllocNode(old(brk), h[n].kv, sl, sr).acts, [Free(n)]);
        Store(Free(n));
        assert [Free(n)][1..] == [];
      }
    }

    method TreeBalance(n: Ptr, l: Ptr, r: Ptr, leftreplace: bool, inplace: bool, ghost sl: Shape, ghost sr: Shape)
      returns (t: Ptr)
      requires Good(heap, brk) && Rep(heap, sl) && Rep(heap, sr) && l == PtrOf(sl) && r == PtrOf(sr)
      requires Sized(Erase(sl)) && Sized(Erase(sr)) && n in heap
      modifies this`heap, this`brk, this`log
      ensures var o := H.TreeBalance(old(brk), n, old(heap)[n].kv, sl, sr, leftreplace, inplace);
              t == PtrOf(o.s) && heap == Run(old(heap), o.acts) && brk == o.brk && log == old(log) + o.acts
      decreases Count(Erase(sl)) + Count(Erase(sr)), 2
    {
      var ln, rn := SizeAt(l), SizeAt(r);
      if ln + rn >= 2 && rn > 4 * ln {
        t := RotateLeft(n, l, r, leftreplace, inplace, sl, sr);
      } else if ln + rn >= 2 && ln > 4 * rn {
        t := RotateRight(n, l, r, leftreplace, inplace, sl, sr);
      } else {
        t := TreeNode(n, l, r, leftreplace, inplace, sl, sr);
      }
    }

    /** The branch of tree_balance for a right side that is too long. */
    method RotateLeft(n: Ptr, l: Ptr, r: Ptr, ghost leftreplace: bool, ghost inplace: bool, ghost sl: Shape,
                      ghost sr: Shape)
      returns (t: Ptr)
      requires Good(heap, brk) && Rep(heap, sl) && Rep(heap, sr) && l == PtrOf(sl) && r == PtrOf(sr)
      requires Sized(Erase(sl)) && Sized(Erase(sr)) && n in heap
      requires SizeOf(sl) + SizeOf(sr) >= 2 && SizeOf(sr) > 4 * SizeOf(sl)
      modifies this`heap, this`brk, this`log
      ensures var o := H.TreeBalance(old(brk), n, old(heap)[n].kv, sl, sr, leftreplace, inplace);
              t == PtrOf(o.s) && heap == Run(old(heap), o.acts) && brk == o.brk && log == old(log) + o.acts
      decreases Count(Erase(sl)) + Count(Erase(sr)), 1
    {
      InnerChild(sl, sr);
      ErasedParts(sr);
      RepAddrs(heap, sr);
      if SizeAt(heap[r].l) < SizeAt(heap[r].r) {
        RunFree(heap, H.TreeSingleLeft(brk, heap[n].kv, sl, sr), n);
        t := TreeSingleLeft(heap[n].kv, l, r, sl, sr);
      } else {
        ErasedParts(sr.l);
        ghost var tl := H.AllocNode(brk, heap[n].kv, sl, sr.l.l);
        RunFree(heap, H.TreeDoubleLeft(tl, H.TreeBalance(tl.brk, sr.p, sr.kv, sr.l.r, sr.r, false, false), sr), n);
        t := TreeDoubleLeft(n, l, r, sl, sr);
      }
      Store(Free(n));
    }

    /** The branch of tree_balance for a left side that is too long. */
    method RotateRight(n: Ptr, l: Ptr, r: Ptr, ghost leftreplace: bool, ghost inplace: bool, ghost sl: Shape,
                       ghost sr: Shape)
      returns (t: Ptr)
      requires Good(heap, brk) && Rep(heap, sl) && Rep(heap, sr) && l == PtrOf(sl) && r == PtrOf(sr)
      requires Sized(Erase(sl)) && Sized(Erase(sr)) && n in heap
      requires SizeOf(sl) + SizeOf(sr) >= 2 && SizeOf(sl) > 4 * SizeOf(sr)
      modifies this`heap, this`brk, this`log
      ensures var o := H.TreeBalance(old(brk), n, old(heap)[n].kv, sl, sr, leftreplace, inplace);
              t == PtrOf(o.s) && heap == Run(old(heap), o.acts) && brk == o.brk && log == old(log) + o.acts
      decreases Count(Erase(sl)) + Count(Erase(sr)), 1
    {
      InnerChild(sr, sl);
      ErasedParts(sl);
      RepAddrs(heap, sl);
      if SizeAt(heap[l].r) < SizeAt(heap[l].l) {
        RunFree(heap, H.TreeSingleRight(brk, heap[n].kv, sl, sr), n);
        t := TreeSingleRight(heap[n].kv, l, r, sl, sr);
      } else {
        ErasedParts(sl.r);
        ghost var tl := H.TreeBalance(brk, sl.p, sl.kv, sl.l, sl.r.l, false, false);
        RunFree(heap, H.TreeDoubleRight(tl, H.AllocNode(tl.brk, heap[n].kv, sl.r.r, sr), sl), n);
        t := TreeDoubleRight(n, l, r, sl, sr);
      }
      Store(Free(n));
    }

    method TreeInsert(n: Ptr, kv: Pair, ghost s: Shape) returns (t: Ptr)
      requires Good(heap, brk) && Rep(heap, s) && n == PtrOf(s)
      requires Unshared(s) && Sized(Erase(s)) && Ordered(Erase(s))
      modifies this`heap, this`brk, this`log
      ensures var o := H.TreeInsert(old(brk), s, kv);
              t == PtrOf(o.s) && heap == Run(old(heap), o.acts) && brk == o.brk && log == old(log) + o.acts
      decreases s
    {
      hide H.AllocNode, Do, H.TreeBalance, Balance, T.Insert, Safe, Sound, Rep, Sized, Ordered, Uses, Erase;
      NodeFacts(heap, s);
      if n == 0 {
        t := AllocNode(kv, 0, 0, Nil, Nil);
      } else if kv.key == heap[n].kv.key {
        t := n;
      } else if kv.key < heap[n].kv.key {
        ghost var o := H.TreeInsert(brk, s.l, kv);
        InsertSound(heap, brk, s.l, kv);
        LeftBuilt(heap, brk, s, true, o, kv.key, false, H.TreeBalance(o.brk, s.p, s.kv, o.s, s.r, true, true));
        var c := TreeInsert(heap[n].l, kv, s.l);
        ghost var b := H.TreeBalance(o.brk, s.p, s.kv, o.s, s.r, true, true);
        t := TreeBalance(n, c, heap[n].r, true, true, o.s, s.r);
        assert log == old(log) + o.acts + b.acts;
        assert H.TreeInsert(old(brk), s, kv) == After(o, b);
      } else {
        ghost var o := H.TreeInsert(brk, s.r, kv);
        InsertSound(heap, brk, s.r, kv);
        LeftBuilt(heap, brk, s, false, o, kv.key, false, H.TreeBalance(o.brk, s.p, s.kv, s.l, o.s, false, true));
        var c := TreeInsert(heap[n].r, kv, s.r);
        ghost var b := H.TreeBalance(o.brk, s.p, s.kv, s.l, o.s, false, true);
        t := TreeBalance(n, heap[n].l, c, false, true, s.l, o.s);
        assert log == old(log) + o.acts + b.acts;
        assert H.TreeInsert(old(brk), s, kv) == After(o, b);
      }
    }

    method TreeMin(n: Ptr, ghost s: Shape) returns (m: Ptr)
      requires Closed(heap) && Rep(heap, s) && s.At? && n == s.p
      ensures m == H.TreeMin(s).p && m in heap && heap[m].kv == H.TreeMin(s).kv
      decreases s
    {
      if heap[n].l == 0 {
        m := n;
      } else {
        m := TreeMin(heap[n].l, s.l);
      }
    }

    method TreeDelmin(n: Ptr, ghost s: Shape) returns (t: Ptr)
      requires Good(heap, brk) && Rep(heap, s) && s.At? && n == s.p && Sized(Erase(s))
      modifies this`heap, this`brk, this`log
      ensures var o := H.TreeDelmin(old(brk), s);
              t == PtrOf(o.s) && heap == Run(old(heap), o.acts) && brk == o.brk && log == old(log) + o.acts
      decreases s
    {
      hide H.TreeBalance, Balance, DelMin, Safe, Count;
      ErasedParts(s);
      if heap[n].l == 0 {
        t := heap[n].r;
      } else {
        ghost var h, o := heap, H.TreeDelmin(brk, s.l);
        DelminSound(h, brk, s.l, 0, false);
        var c := TreeDelmin(heap[n].l, s.l);
        RepKept(h, heap, s, {});
        t := TreeBalance(n, c, heap[n].r, true, false, o.s, s.r);
        RunConcat(h, o.acts, H.TreeBalance(o.brk, s.p, s.kv, o.s, s.r, true, false).acts);
      }
    }

    method TreeDelprime(l: Ptr, r: Ptr, ghost sl: Shape, ghost sr: Shape) returns (t: Ptr)
      requires Good(heap, brk) && Rep(heap, sl) && Rep(heap, sr) && l == PtrOf(sl) && r == PtrOf(sr)
      requires Sized(Erase(sl)) && Sized(Erase(sr))
      modifies this`heap, this`brk, this`log
      ensures var o := H.TreeDelprime(old(brk), sl, sr);
              t == PtrOf(o.s) && heap == Run(old(heap), o.acts) && brk == o.brk && log == old(log) + o.acts
    {
      hide H.TreeBalance, H.TreeDelmin, H.TreeMin, Balance, DelMin, Min, Safe, Count;
      if l == 0 {
        t := r;
      } else if r == 0 {
        t := l;
      } else {
        ghost var h, o, m := heap, H.TreeDelmin(brk, sr), H.TreeMin(sr);
        var min := TreeMin(r, sr);
        DelminSound(h, brk, sr, 0, false);
        var c := TreeDelmin(r, sr);
        RepKept(h, heap, sl, {});
        t := TreeBalance(min, l, c, false, false, sl, o.s);
        RunConcat(h, o.acts, H.TreeBalance(o.brk, m.p, m.kv, sl, o.s, false, false).acts);
      }
    }

    method TreeRemove(n: Ptr, key: nat, ghost s: Shape) returns (t: Ptr)
      requires Good(heap, brk) && Rep(heap, s) && n == PtrOf(s)
      requires Unshared(s) && Sized(Erase(s)) && Ordered(Erase(s))
      modifies this`heap, this`brk, this`log
      ensures var o := H.TreeRemove(old(brk), s, key);
              t == PtrOf(o.s) && heap == Run(old(heap), o.acts) && brk == o.brk && log == old(log) + o.acts
      decreases s
    {
      hide H.TreeBalance, H.TreeDelprime, Balance, T.Remove, Safe, Sound, Rep, Sized, Ordered, Uses, Erase;
      NodeFacts(heap, s);
      if n == 0 {
        t := 0;
      } else if key < heap[n].kv.key {
        ghost var o := H.TreeRemove(brk, s.l, key);
        RemoveSound(heap, brk, s.l, key);
        LeftBuilt(heap, brk, s, true, o, key, true, H.TreeBalance(o.brk, s.p, s.kv, o.s, s.r, true, true));
        var c := TreeRemove(heap[n].l, key, s.l);
        t := TreeBalance(n, c, heap[n].r, true, true, o.s, s.r);
      } else if key > heap[n].kv.key {
        ghost var o := H.TreeRemove(brk, s.r, key);
        RemoveSound(heap, brk, s.r, key);
        LeftBuilt(heap, brk, s, false, o, key, true, H.TreeBalance(o.brk, s.p, s.kv, s.l, o.s, false, true));
        var c := TreeRemove(heap[n].r, key, s.r);
        t := TreeBalance(n, heap[n].l, c, false, true, s.l, o.s);
      } else {
        RunFree(heap, H.TreeDelprime(brk, s.l, s.r), s.p);
        t := TreeDelprime(heap[n].l, heap[n].r, s.l, s.r);
        Store(Free(n));
      }
    }

    /** This heap is the one of a writer between operations. */
    ghost predicate Is(w: R.Writer)
      reads this
    {
      heap == w.mem.heap && root == w.mem.root && brk == w.brk && log == w.log
    }

    /** root = tree_insert(root, kv) */
    method Insert(kv: Pair, ghost w: R.Writer)
      requires Is(w) && R.Ready(w)
      modifies this
      ensures Is(R.Finish(w, InsertOp(kv))) && R.Ready(R.Finish(w, InsertOp(kv)))
    {
      R.OwnedIsUnshared(w);
      var t := TreeInsert(root, kv, w.shape);
      root := t;
      R.FinishReady(w, InsertOp(kv));
    }

    /** root = tree_remove(root, key) */
    method Remove(key: nat, ghost w: R.Writer)
      requires Is(w) && R.Ready(w)
      modifies this
      ensures Is(R.Finish(w, RemoveOp(key))) && R.Ready(R.Finish(w, RemoveOp(key)))
    {
      R.OwnedIsUnshared(w);
      var t := TreeRemove(root, key, w.shape);
      root := t;
      R.FinishReady(w, RemoveOp(key));
    }
  }

  lemma NodeFacts(h: Heap, s: Shape)
    requires Closed(h) && Rep(h, s) && Unshared(s) && Sized(Erase(s)) && Ordered(Erase(s))
    ensures Rep(h, Nil) && (s.At? ==> s.p != 0 && s.p in h && h[s.p] == CellOf(s) && Rep(h, s.l) && Rep(h, s.r))
    ensures s.At? ==> && Sized(Erase(s.l)) && Sized(Erase(s.r)) && Ordered(Erase(s.l)) && Ordered(Erase(s.r))
                      && Unshared(s.l) && Unshared(s.r)
  {
    ErasedParts(s);
    if s.At? {
      UnsharedParts(s);
    }
  }

  /** The heap once the child on one side has been rebuilt by `o`: the node itself and its
      other side are as they were. */
  lemma LeftBuilt(h: Heap, brk: nat, s: Shape, left: bool, o: Out, key: nat, removing: bool, b: Out)
    requires s.At? && Rep(h, s) && Unshared(s)
    requires Sound(h, o, Addrs(if left then s.l else s.r), key, removing)
    ensures var g := Run(h, o.acts);
            && Good(g, o.brk) && Rep(g, o.s) && Rep(g, if left then s.r else s.l)
            && s.p in g && g[s.p] == CellOf(s)
            && Run(h, After(o, b).acts) == Run(g, b.acts)
  {
    UnsharedParts(s);
    RepAddrs(h, s);
    RepKept(h, Run(h, o.acts), if left then s.r else s.l, Addrs(if left then s.l else s.r));
    RunConcat(h, o.acts, b.acts);
  }

  lemma RunThree(h: Heap, a: seq<Act>, b: seq<Act>, c: seq<Act>, f: Act)
    ensures Run(h, a + b + c + [f]) == Do(Run(Run(Run(h, a), b), c), f)
  {
    RunConcat(h, a, b);
    RunConcat(h, a + b, c);
    RunConcat(h, a + b + c, [f]);
    assert [f][1..] == [];
  }

  /** The heaps a double rotation passes through, and what it can still read in them. */
  lemma DoubleLeftStages(h: Heap, brk: nat, ol: Out, or: Out, kv: Pair, sl: Shape, sr: Shape)
    requires Good(h, brk) && Rep(h, sl) && Rep(h, sr) && sr.At? && sr.l.At?
    requires Sized(Erase(sr.l.r)) && Sized(Erase(sr.r))
    requires ol == H.AllocNode(brk, kv, sl, sr.l.l)
    requires or == H.TreeBalance(ol.brk, sr.p, sr.kv, sr.l.r, sr.r, false, false)
    ensures var g := Run(h, ol.acts);
            var g' := Run(g, or.acts);
            var ot := H.AllocNode(or.brk, sr.l.kv, ol.s, or.s);
            var f := Run(g', ot.acts);
            && Good(g, ol.brk) && Rep(g, sr) && Rep(g, sr.l)
            && Good(g', or.brk) && Rep(g', sr) && Rep(g', sr.l) && Rep(g', ol.s) && Rep(g', or.s)
            && Rep(f, sr)
            && Run(h, H.TreeDoubleLeft(ol, or, sr).acts) == Do(f, Free(sr.l.p))
  {
    var g := Run(h, ol.acts);
    var g' := Run(g, or.acts);
    var ot := H.AllocNode(or.brk, sr.l.kv, ol.s, or.s);
    AllocSound(h, brk, kv, sl, sr.l.l, 0, false);
    RepKept(h, g, sr, {});
    BalanceSound(g, ol.brk, sr.p, sr.kv, sr.l.r, sr.r, false, false, 0, false);
    RepKept(g, g', sr, {});
    RepKept(g, g', ol.s, {});
    AllocSound(g', or.brk, sr.l.kv, ol.s, or.s, 0, false);
    RepKept(g', Run(g', ot.acts), sr, {});
    RunThree(h, ol.acts, or.acts, ot.acts, Free(sr.l.p));
  }

  lemma DoubleRightStages(h: Heap, brk: nat, ol: Out, or: Out, n: Ptr, kv: Pair, sl: Shape, sr: Shape)
    requires Good(h, brk) && Rep(h, sl) && Rep(h, sr) && sl.At? && sl.r.At? && n in h
    requires Sized(Erase(sl.l)) && Sized(Erase(sl.r.l))
    requires ol == H.TreeBalance(brk, sl.p, sl.kv, sl.l, sl.r.l, false, false)
    requires or == H.AllocNode(ol.brk, kv, sl.r.r, sr)
    ensures var g := Run(h, ol.acts);
            var g' := Run(g, or.acts);
            var ot := H.AllocNode(or.brk, sl.r.kv, ol.s, or.s);
            var f := Run(g', ot.acts);
            && Good(g, ol.brk) && Rep(g, sl) && Rep(g, sl.r) && Rep(g, sr) && n in g && g[n] == h[n]
            && Good(g', or.brk) && Rep(g', sl) && Rep(g', sl.r) && Rep(g', ol.s) && Rep(g', or.s)
            && Rep(f, sl)
            && Run(h, H.TreeDoubleRight(ol, or, sl).acts) == Do(f, Free(sl.r.p))
  {
    var g := Run(h, ol.acts);
    var g' := Run(g, or.acts);
    var ot := H.AllocNode(or.brk, sl.r.kv, ol.s, or.s);
    BalanceSound(h, brk, sl.p, sl.kv, sl.l, sl.r.l, false, false, 0, false);
    RepKept(h, g, sl, {});
    RepKept(h, g, sr, {});
    AllocSound(g, ol.brk, kv, sl.r.r, sr, 0, false);
    RepKept(g, g', sl, {});
    RepKept(g, g', ol.s, {});
    AllocSound(g', or.brk, sl.r.kv, ol.s, or.s, 0, false);
    RepKept(g', Run(g', ot.acts), sl, {});
    RunThree(h, ol.acts, or.acts, ot.acts, Free(sl.r.p));
  }

  lemma RunFree(h: Heap, o: Out, n: Ptr)
    ensures Run(h, ThenFree(o, n).acts) == Run(h, o.acts)
  {
    RunConcat(h, o.acts, [Free(n)]);
    assert [Free(n)][1..] == [];
  }
}
