/**
 Delayed frees of attic/bonsai.c, moment by moment: which cells can still be reached
 from the root after they have been handed to the delayed-free list, and until when.
 */
module BonsaiFrees {
  import opened BonsaiTree
  import opened BonsaiHeap
  import opened BonsaiStores
  import opened BonsaiReach
  import opened BonsaiReaders

  // ----------------------------------------------------------------------
  // The moments of one operation
  // ----------------------------------------------------------------------

  /** Memory after `n` of the operation's stores; the last one is the store to the root. */
  function MemAt(w: Writer, op: Op, n: nat): Memory
    requires Sized(Erase(w.shape)) && n <= |Moments(w, op)|
  {
    MemoryAt(w.mem, Moments(w, op), n)
  }

  lemma {:induction false} StoresAt(m: Memory, acts: seq<Act>, op: Op, i: nat)
    ensures |Stores(m, acts, op)| == |acts|
    ensures i < |acts| ==> Stores(m, acts, op)[i].mem == Memory(Run(m.heap, acts[..i + 1]), m.root)
    decreases |acts|
  {
    if acts != [] {
      var m' := Memory(Do(m.heap, acts[0]), m.root);
      StoresAt(m', acts[1..], op, if i == 0 then 0 else i - 1);
      if i < |acts| {
        assert acts[..i + 1][1..] == acts[1..][..i];
        assert i > 0 ==> Stores(m, acts, op)[i] == Stores(m', acts[1..], op)[i - 1];
      }
    }
  }

  lemma MemIs(w: Writer, op: Op, n: nat)
    requires Ready(w)
    ensures |Moments(w, op)| == |Perform(w, op).acts| + 1
    ensures n <= |Perform(w, op).acts| ==>
      MemAt(w, op, n) == Memory(Run(w.mem.heap, Perform(w, op).acts[..n]), w.mem.root)
    ensures n == |Moments(w, op)| ==> MemAt(w, op, n) == Finish(w, op).mem
  {
    hide Perform;
    StoresAt(w.mem, Perform(w, op).acts, op, if n == 0 then 0 else n - 1);
  }

  /** The stores up to the last one, among the first `n`, that sets a child pointer or the root. */
  function Linked(w: Writer, op: Op, n: nat): (p: nat)
    requires Sized(Erase(w.shape))
    ensures p <= |Perform(w, op).acts|
  {
    var acts := Perform(w, op).acts;
    if n > |acts| then |acts| else LastLink(acts, n)
  }

  ghost predicate ReachableAt(w: Writer, op: Op, n: nat, x: Ptr)
    requires Sized(Erase(w.shape)) && n <= |Moments(w, op)|
  {
    Reachable(MemAt(w, op, n).heap, MemAt(w, op, n).root, x)
  }

  /** The published tree after `n` stores. */
  ghost predicate PublishedAs(w: Writer, op: Op, n: nat, now: Shape)
    requires Sized(Erase(w.shape)) && n <= |Moments(w, op)|
  {
    && Rep(MemAt(w, op, n).heap, now) && MemAt(w, op, n).root == PtrOf(now) && 0 !in MemAt(w, op, n).heap
    && AddsUp(w.shape, Perform(w, op).acts[..Linked(w, op, n)], now)
  }

  lemma {:induction false} NoNull(h: Heap, acts: seq<Act>, t: nat)
    requires 0 !in h && t <= |acts| && forall i :: 0 <= i < |acts| && acts[i].New? ==> acts[i].p != 0
    ensures 0 !in Run(h, acts[..t])
  {
    if t > 0 {
      NoNull(h, acts, t - 1);
      RunMore(h, acts, t - 1);
    }
  }

  lemma PublishedShape(w: Writer, op: Op, n: nat) returns (now: Shape)
    requires Ready(w) && n <= |Moments(w, op)|
    ensures PublishedAs(w, op, n, now)
  {
    MemIs(w, op, n);
    PerformSound(w, op);
    OwnedIsUnshared(w);
    var o, h := Perform(w, op), w.mem.heap;
    if n > |o.acts| {
      now := o.s;
      assert o.acts[..|o.acts|] == o.acts;
      forall x ensures Accounts(Uses(w.shape, x), w.brk, o, x) {
        PerformAccounts(w, op, x);
      }
    } else {
      match op {
        case InsertOp(kv) => now := InsertPublished(h, w.brk, w.shape, kv, n);
        case RemoveOp(key) => now := RemovePublished(h, w.brk, w.shape, key, n);
      }
      PerformConfined(w, op);
      forall i | 0 <= i < |o.acts| && o.acts[i].New? ensures o.acts[i].p != 0 {
        assert KnownAct(o.acts[i], Addrs(w.shape), w.brk);
      }
      NoNull(h, o.acts, n);
    }
  }

  /** At every moment the cells that can be reached from the root are exactly those that were in the tree
      or have been allocated, and have not been freed, as of the last link store. */
  lemma ReachableExactly(w: Writer, op: Op, n: nat, x: Ptr)
    requires Ready(w) && n <= |Moments(w, op)|
    ensures var done := Perform(w, op).acts[..Linked(w, op, n)];
            ReachableAt(w, op, n, x) <==> Uses(w.shape, x) + Allocs(done, x) > Frees(done, x)
  {
    var now := PublishedShape(w, op, n);
    ReachableIsAddrs(MemAt(w, op, n).heap, now, x);
    UsesIsAddrs(now, x);
  }

  // ----------------------------------------------------------------------
  // Freed cells
  // ----------------------------------------------------------------------

  /** A cell is allocated at most once, and not if it was there before. */
  lemma Once(w: Writer, op: Op, x: Ptr)
    requires Ready(w)
    ensures var acts := Perform(w, op).acts; Uses(w.shape, x) + Allocs(acts, x) <= 1 && Frees(acts, x) <= 1
  {
    PerformAccounts(w, op, x);
    assert Uses(w.shape, x) + Frees(w.log, x) == if 1 <= x <= w.brk then 1 else 0;
    FinishOwned(w, op, x);
  }

  lemma CountsSplit(acts: seq<Act>, p: nat, x: Ptr)
    requires p <= |acts|
    ensures Allocs(acts, x) == Allocs(acts[..p], x) + Allocs(acts[p..], x)
    ensures Frees(acts, x) == Frees(acts[..p], x) + Frees(acts[p..], x)
  {
    assert acts == acts[..p] + acts[p..];
    CountsConcat(acts[..p], acts[p..], x);
  }

  lemma {:induction false} Counted(acts: seq<Act>, a: nat, x: Ptr)
    requires a < |acts|
    ensures acts[a] == Free(x) ==> Frees(acts, x) >= 1
    ensures acts[a].New? && acts[a].p == x ==> Allocs(acts, x) >= 1
    decreases |acts|
  {
    if a > 0 {
      Counted(acts[1..], a - 1, x);
    }
  }

  lemma FreedOnce(acts: seq<Act>, a: nat, p: nat, x: Ptr)
    requires a < |acts| && acts[a] == Free(x) && p <= |acts| && Frees(acts, x) <= 1
    ensures Frees(acts[..p], x) == if a < p then 1 else 0
  {
    CountsSplit(acts, p, x);
    if a < p {
      Counted(acts[..p], a, x);
    } else {
      Counted(acts[p..], a - p, x);
    }
  }

  lemma AllocatedOnce(acts: seq<Act>, a: nat, p: nat, x: Ptr)
    requires a < |acts| && acts[a].New? && acts[a].p == x && p <= |acts| && Allocs(acts, x) <= 1
    ensures Allocs(acts[..p], x) == if a < p then 1 else 0
  {
    CountsSplit(acts, p, x);
    if a < p {
      Counted(acts[..p], a, x);
    } else {
      Counted(acts[p..], a - p, x);
    }
  }

  lemma {:induction false} AllocatedAt(acts: seq<Act>, x: Ptr) returns (b: nat)
    requires Allocs(acts, x) > 0
    ensures b < |acts| && acts[b].New? && acts[b].p == x
    decreases |acts|
  {
    if acts[0].New? && acts[0].p == x {
      b := 0;
    } else {
      var c := AllocatedAt(acts[1..], x);
      b := c + 1;
    }
  }

  /** A child pointer or the root is stored after store `a` and within the first `n`. */
  ghost predicate LinkBetween(w: Writer, op: Op, a: nat, n: nat)
    requires Sized(Erase(w.shape))
  {
    var acts := Perform(w, op).acts;
    n > |acts| || exists i :: a < i < n && i < |acts| && acts[i].SetChild?
  }

  lemma {:induction false} LastLinkIs(acts: seq<Act>, a: nat, n: nat)
    requires a < n <= |acts| && !acts[a].SetChild?
    ensures LastLink(acts, n) > a <==> exists i :: a < i < n && acts[i].SetChild?
    ensures LastLink(acts, n) <= a ==> LastLink(acts, n) == LastLink(acts, a)
    decreases n
  {
    if a < n - 1 {
      LastLinkIs(acts, a, n - 1);
    }
  }

  lemma LinkedIs(w: Writer, op: Op, a: nat, n: nat)
    requires Sized(Erase(w.shape)) && a < |Perform(w, op).acts| && a < n && !Perform(w, op).acts[a].SetChild?
    ensures Linked(w, op, n) > a <==> LinkBetween(w, op, a, n)
    ensures Linked(w, op, n) <= a ==> Linked(w, op, n) == Linked(w, op, a)
  {
    hide Perform;
    if n <= |Perform(w, op).acts| {
      LastLinkIs(Perform(w, op).acts, a, n);
    }
  }

  /** A cell freed by store `a` can be reached at a later moment `n` of the operation exactly if it could
      when it was freed and no child pointer or root has been stored since.  When it is freed, a cell that
      was in the tree can be reached; one allocated by the operation can exactly if a link has been stored
      since its allocation. */
  lemma FreedReachableIff(w: Writer, op: Op, a: nat, n: nat, x: Ptr)
    requires Ready(w) && a < |Perform(w, op).acts| && Perform(w, op).acts[a] == Free(x) && a < n <= |Moments(w, op)|
    ensures ReachableAt(w, op, n, x) <==> ReachableAt(w, op, a, x) && !LinkBetween(w, op, a, n)
    ensures x in Addrs(w.shape) ==> ReachableAt(w, op, a, x)
    ensures x !in Addrs(w.shape) ==>
              exists b :: 0 <= b < |Perform(w, op).acts| && Allocates(Perform(w, op).acts[b], x)
                          && (ReachableAt(w, op, a, x) <==> LinkBetween(w, op, b, a))
  {
    hide Perform, Moments, ReachableAt, LinkBetween, Linked;
    var acts := Perform(w, op).acts;
    var p, q := Linked(w, op, n), Linked(w, op, a);
    Once(w, op, x);
    ReachableExactly(w, op, n, x);
    ReachableExactly(w, op, a, x);
    LinkedIs(w, op, a, n);
    assert q <= a by { LinkedSmall(w, op, a); }
    FreedOnce(acts, a, p, x);
    FreedOnce(acts, a, q, x);
    CountsSplit(acts, p, x);
    UsesIsAddrs(w.shape, x);
    if x !in Addrs(w.shape) {
      var b := FreedAllocated(w, op, a, x);
    }
  }

  predicate Allocates(act: Act, x: Ptr) {
    act.New? && act.p == x
  }

  lemma LinkedSmall(w: Writer, op: Op, a: nat)
    requires Sized(Erase(w.shape)) && a <= |Perform(w, op).acts|
    ensures Linked(w, op, a) <= a
  {
  }

  lemma FreedAllocated(w: Writer, op: Op, a: nat, x: Ptr) returns (b: nat)
    requires Ready(w) && a < |Perform(w, op).acts| && Perform(w, op).acts[a] == Free(x) && x !in Addrs(w.shape)
    requires a <= |Moments(w, op)|
    ensures b < |Perform(w, op).acts| && Allocates(Perform(w, op).acts[b], x)
    ensures ReachableAt(w, op, a, x) <==> LinkBetween(w, op, b, a)
  {
    hide Perform, Moments, ReachableAt, LinkBetween, Linked;
    var acts := Perform(w, op).acts;
    UsesIsAddrs(w.shape, x);
    PerformAccounts(w, op, x);
    Once(w, op, x);
    Counted(acts, a, x);
    b := AllocatedAt(acts, x);
    var q := Linked(w, op, a);
    LinkedSmall(w, op, a);
    ReachableExactly(w, op, a, x);
    FreedOnce(acts, a, q, x);
    AllocatedOnce(acts, b, q, x);
    if b < a {
      LinkedIs(w, op, b, a);
    } else {
      assert !LinkBetween(w, op, b, a) by { NoLinkBack(w, op, b, a); }
    }
  }

  lemma NoLinkBack(w: Writer, op: Op, b: nat, a: nat)
    requires Sized(Erase(w.shape)) && a <= b && a <= |Perform(w, op).acts|
    ensures !LinkBetween(w, op, b, a)
  {
  }

  // ----------------------------------------------------------------------
  // Readers
  // ----------------------------------------------------------------------

  /** The cells freed by earlier operations, and those freed by this one before the last link store among
      the first `n` stores. */
  ghost function Gone(w: Writer, op: Op, n: nat): set<Ptr>
    requires Sized(Erase(w.shape))
  {
    set x: Ptr | 1 <= x <= Finish(w, op).brk && Frees(w.log + Perform(w, op).acts[..Linked(w, op, n)], x) > 0
  }

  /** The cells that can be reached at some moment from `n` to the end of the operation. */
  ghost predicate SeenFrom(w: Writer, op: Op, n: nat, x: Ptr)
    requires Sized(Erase(w.shape))
  {
    exists m :: n <= m <= |Moments(w, op)| && ReachableAt(w, op, m, x)
  }

  ghost function Unseen(w: Writer, op: Op, n: nat): set<Ptr>
    requires Sized(Erase(w.shape))
  {
    set x: Ptr | 1 <= x <= Finish(w, op).brk && !SeenFrom(w, op, n, x)
  }

  lemma HeapRange(w: Writer, op: Op, n: nat, x: Ptr)
    requires Ready(w) && n <= |Moments(w, op)| && x in MemAt(w, op, n).heap
    ensures 1 <= x <= Finish(w, op).brk
  {
    hide Perform;
    MemIs(w, op, n);
    FinishReady(w, op);
    var acts := Perform(w, op).acts;
    if n <= |acts| {
      RunAllocates(w.mem.heap, acts[..n], x);
      CountsSplit(acts, n, x);
      RunAllocates(w.mem.heap, acts, x);
    }
  }

  /** Whatever can be reached has its children within reach. */
  lemma ChildrenSeen(w: Writer, op: Op, n: nat, m: nat, v: Ptr)
    requires Ready(w) && n <= m <= |Moments(w, op)| && ReachableAt(w, op, m, v)
    ensures var h := MemAt(w, op, m).heap;
            v in h && (h[v].l == 0 || SeenFrom(w, op, n, h[v].l)) && (h[v].r == 0 || SeenFrom(w, op, n, h[v].r))
  {
    var h := MemAt(w, op, m).heap;
    var now := PublishedShape(w, op, m);
    hide Perform, Moments, MemAt;
    ReachableIsAddrs(h, now, v);
    ChildrenInTree(h, now, v);
    ReachableIsAddrs(h, now, h[v].l);
    ReachableIsAddrs(h, now, h[v].r);
    assert h[v].l in Addrs(now) ==> ReachableAt(w, op, m, h[v].l);
    assert h[v].r in Addrs(now) ==> ReachableAt(w, op, m, h[v].r);
  }

  /** A link is stored only into a cell that can be reached, before and after. */
  lemma TargetReachable(w: Writer, op: Op, t: nat)
    requires Ready(w) && t < |Perform(w, op).acts| && Perform(w, op).acts[t].SetChild?
    ensures t + 1 <= |Moments(w, op)|
    ensures ReachableAt(w, op, t, Perform(w, op).acts[t].n) && ReachableAt(w, op, t + 1, Perform(w, op).acts[t].n)
  {
    var acts := Perform(w, op).acts;
    var v := acts[t].n;
    OwnedIsUnshared(w);
    match op {
      case InsertOp(kv) => InsertLinksOld(w.mem.heap, w.brk, w.shape, kv, t);
      case RemoveOp(key) => RemoveLinksOld(w.mem.heap, w.brk, w.shape, key, t);
    }
    hide Perform, ReachableAt;
    MemIs(w, op, t);
    ReachableExactly(w, op, t, v);
    ReachableExactly(w, op, t + 1, v);
    UsesIsAddrs(w.shape, v);
    LinkedSmall(w, op, t);
    NoEarlierFree(acts, Linked(w, op, t), t + 1, v);
    NoEarlierFree(acts, Linked(w, op, t + 1), t + 1, v);
  }

  lemma NoEarlierFree(acts: seq<Act>, p: nat, q: nat, x: Ptr)
    requires p <= q <= |acts| && Frees(acts[..q], x) == 0
    ensures Frees(acts[..p], x) == 0
  {
    CountsSplit(acts[..q], p, x);
    assert acts[..q][..p] == acts[..p];
  }

  ghost predicate SameChildren(w: Writer, op: Op, m: nat, v: Ptr)
    requires Sized(Erase(w.shape)) && m < |Moments(w, op)|
  {
    var h, h' := MemAt(w, op, m).heap, MemAt(w, op, m + 1).heap;
    v in h ==> v in h' && h'[v].l == h[v].l && h'[v].r == h[v].r
  }

  /** Every other cell keeps its links from one store to the next. */
  lemma LinksKept(w: Writer, op: Op, m: nat, v: Ptr)
    requires Ready(w) && m < |Moments(w, op)|
    requires var acts := Perform(w, op).acts; m < |acts| && acts[m].SetChild? ==> acts[m].n != v
    ensures SameChildren(w, op, m, v)
  {
    hide Perform;
    MemIs(w, op, m);
    MemIs(w, op, m + 1);
    var acts := Perform(w, op).acts;
    if m < |acts| {
      RunMore(w.mem.heap, acts, m);
      if acts[m].New? {
        PerformAccounts(w, op, acts[m].p);
        NewIsFresh(w.mem.heap, w.brk, acts, m);
      }
    } else {
      assert acts[..m] == acts;
    }
  }

  /** A cell that is within reach at some moment from `n` on has only such children, at every moment. */
  lemma {:induction false} LinksSeen(w: Writer, op: Op, n: nat, m: nat, seen: nat, v: Ptr)
    requires Ready(w) && n <= m <= |Moments(w, op)| && n <= seen <= |Moments(w, op)|
    requires v in MemAt(w, op, m).heap && ReachableAt(w, op, seen, v)
    ensures var h := MemAt(w, op, m).heap;
            (h[v].l == 0 || SeenFrom(w, op, n, h[v].l)) && (h[v].r == 0 || SeenFrom(w, op, n, h[v].r))
    decreases if m <= seen then seen - m else m - seen
  {
    hide Perform, Moments, MemAt, ReachableAt, SeenFrom;
    MemIs(w, op, m);
    var acts := Perform(w, op).acts;
    if m == seen {
      ChildrenSeen(w, op, n, m, v);
    } else if m < seen {
      if m < |acts| && acts[m].SetChild? && acts[m].n == v {
        TargetReachable(w, op, m);
        ChildrenSeen(w, op, n, m, v);
      } else {
        LinksKept(w, op, m, v);
        LinksSeen(w, op, n, m + 1, seen, v);
      }
    } else {
      if m - 1 < |acts| && acts[m - 1].SetChild? && acts[m - 1].n == v {
        TargetReachable(w, op, m - 1);
        ChildrenSeen(w, op, n, m, v);
      } else {
        ReachableThere(w, op, seen, m - 1, v);
        LinksKept(w, op, m - 1, v);
        LinksSeen(w, op, n, m - 1, seen, v);
      }
    }
  }

  /** Cells stay where they are. */
  lemma {:induction false} ReachableThere(w: Writer, op: Op, seen: nat, m: nat, v: Ptr)
    requires Ready(w) && seen <= m <= |Moments(w, op)| && ReachableAt(w, op, seen, v)
    ensures v in MemAt(w, op, m).heap
    decreases m
  {
    hide Perform, Moments, ReachableAt, SeenFrom;
    if seen == m {
      ChildrenSeen(w, op, seen, seen, v);
    } else {
      ReachableThere(w, op, seen, m - 1, v);
      MemIs(w, op, m - 1);
      MemIs(w, op, m);
      var acts := Perform(w, op).acts;
      if m <= |acts| {
        RunMore(w.mem.heap, acts, m - 1);
      } else {
        assert acts[..m - 1] == acts;
      }
    }
  }

  lemma UnseenAvoided(w: Writer, op: Op, n: nat, m: nat)
    requires Ready(w) && n <= m <= |Moments(w, op)|
    ensures Avoids(MemAt(w, op, m).heap, Unseen(w, op, n)) && MemAt(w, op, m).root !in Unseen(w, op, n)
  {
    hide Perform, Moments, ReachableAt;
    var h, root := MemAt(w, op, m).heap, MemAt(w, op, m).root;
    forall v | v in h && v !in Unseen(w, op, n) ensures h[v].l !in Unseen(w, op, n) && h[v].r !in Unseen(w, op, n) {
      HeapRange(w, op, m, v);
      var seen :| n <= seen <= |Moments(w, op)| && ReachableAt(w, op, seen, v);
      LinksSeen(w, op, n, m, seen, v);
    }
    if root != 0 {
      RootReachable(w, op, m);
    }
  }

  lemma RootReachable(w: Writer, op: Op, m: nat)
    requires Ready(w) && m <= |Moments(w, op)| && MemAt(w, op, m).root != 0
    ensures ReachableAt(w, op, m, MemAt(w, op, m).root)
  {
    var now := PublishedShape(w, op, m);
    ReachableIsAddrs(MemAt(w, op, m).heap, now, PtrOf(now));
  }

  /** What is gone at moment `n` is not seen again. */
  lemma GoneUnseen(w: Writer, op: Op, n: nat, x: Ptr)
    requires Ready(w) && n <= |Moments(w, op)| && x in Gone(w, op, n)
    ensures x in Unseen(w, op, n)
  {
    hide Perform, Moments, ReachableAt;
    var acts := Perform(w, op).acts;
    Once(w, op, x);
    assert Uses(w.shape, x) + Frees(w.log, x) == if 1 <= x <= w.brk then 1 else 0;
    PerformAccounts(w, op, x);
    CountsConcat(w.log, acts[..Linked(w, op, n)], x);
    forall m | n <= m <= |Moments(w, op)| ensures !ReachableAt(w, op, m, x) {
      ReachableExactly(w, op, m, x);
      LinkedRises(w, op, n, m);
      CountsSplit(acts, Linked(w, op, m), x);
      CountsSplit(acts[..Linked(w, op, m)], Linked(w, op, n), x);
      assert acts[..Linked(w, op, m)][..Linked(w, op, n)] == acts[..Linked(w, op, n)];
    }
  }

  lemma {:induction false} LastLinkRises(acts: seq<Act>, n: nat, m: nat)
    requires n <= m <= |acts|
    ensures LastLink(acts, n) <= LastLink(acts, m)
    decreases m
  {
    if n < m {
      LastLinkRises(acts, n, m - 1);
    }
  }

  lemma LinkedRises(w: Writer, op: Op, n: nat, m: nat)
    requires Sized(Erase(w.shape)) && n <= m
    ensures Linked(w, op, n) <= Linked(w, op, m)
  {
    hide Perform;
    if m <= |Perform(w, op).acts| {
      LastLinkRises(Perform(w, op).acts, n, m);
    }
  }

  lemma UnseenFreed(w: Writer, op: Op, n: nat)
    requires Ready(w) && n <= |Moments(w, op)|
    ensures Unseen(w, op, n) <= FreedBy(Finish(w, op))
  {
    hide Perform, Moments, ReachableAt, Finish;
    forall x | x in Unseen(w, op, n) ensures x in FreedBy(Finish(w, op)) {
      var end := |Moments(w, op)|;
      assert !ReachableAt(w, op, end, x);
      NotInTheEnd(w, op, x);
    }
  }

  lemma NotInTheEnd(w: Writer, op: Op, x: Ptr)
    requires Ready(w) && 1 <= x <= Finish(w, op).brk && !ReachableAt(w, op, |Moments(w, op)|, x)
    ensures x in FreedBy(Finish(w, op))
  {
    MemIs(w, op, |Moments(w, op)|);
    FinishReady(w, op);
    var w' := Finish(w, op);
    hide Perform, Moments;
    RepAddrs(w'.mem.heap, w'.shape);
    ReachableIsAddrs(w'.mem.heap, w'.shape, x);
    UsesIsAddrs(w'.shape, x);
    assert Uses(w'.shape, x) + Frees(w'.log, x) == 1;
  }

  /** A reader that starts at any moment of an operation never dereferences a cell that was handed to the
      delayed-free list before the last link store, in this operation or before, whatever the writer does
      next; so such cells may be recycled once the readers running at that store are gone. */
  lemma ReaderNeverTouchesGone(w: Writer, op: Op, ops: seq<Op>, i: nat, j: nat, k: nat, beats: seq<Beat>)
    requires Ready(w) && i <= |Moments(w, op)| && i <= j <= |MomentsFrom(w, [op] + ops)|
    requires Writes(beats) == MomentsFrom(w, [op] + ops)[i..j]
    ensures var m := MemAt(w, op, i);
            forall n :: 0 <= n < |Visits(m, At_(m.root), k, beats)| ==>
              Visits(m, At_(m.root), k, beats)[n] !in Gone(w, op, i)
  {
    hide Moments, Finish, Visits, Gone, Avoids;
    var dead, w', tr := Unseen(w, op, i), Finish(w, op), Moments(w, op);
    FinishReady(w, op);
    assert ([op] + ops)[0] == op && ([op] + ops)[1..] == ops;
    assert MomentsFrom(w, [op] + ops) == tr + MomentsFrom(w', ops);
    MemIs(w, op, |tr|);
    UnseenAvoided(w, op, i, |tr|);
    UnseenAvoided(w, op, i, i);
    UnseenFreed(w, op, i);
    RunAvoids(w', ops, dead);
    forall n | i <= n < |tr| ensures Avoids(tr[n].mem.heap, dead) && tr[n].mem.root !in dead {
      UnseenAvoided(w, op, i, n + 1);
    }
    var m := MemAt(w, op, i);
    VisitsAvoid(m, At_(m.root), k, beats, dead);
    forall x | x in Gone(w, op, i) ensures x in dead {
      GoneUnseen(w, op, i, x);
    }
  }

  // ----------------------------------------------------------------------
  // An example
  // ----------------------------------------------------------------------

  const K1 := Pair(1, 0)
  const K2 := Pair(2, 0)
  const K3 := Pair(3, 0)
  const K10 := Pair(10, 0)
  const K20 := Pair(20, 0)

  const CELL3 := At(3, K2, 1, Nil, Nil)
  const CELL2 := At(2, K1, 2, Nil, CELL3)
  const CELL4 := At(4, K20, 1, Nil, Nil)
  const TREE := At(1, K10, 4, CELL2, CELL4)
  const HEAP: Heap := map[1 := CellOf(TREE), 2 := CellOf(CELL2), 3 := CellOf(CELL3), 4 := CellOf(CELL4)]
  const WRITER := Writer(Memory(HEAP, 1), 4, TREE, [])

  lemma WriterReady()
    ensures Ready(WRITER)
  {
    assert Valid(Erase(TREE)) by { TreeValid(); }
    assert Rep(HEAP, CELL3) && Rep(HEAP, CELL2) && Rep(HEAP, CELL4);
    forall x: Ptr ensures Uses(TREE, x) == if 1 <= x <= 4 then 1 else 0 {
      TreeUses(x);
    }
  }

  lemma TreeUses(x: Ptr)
    ensures Uses(TREE, x) == if 1 <= x <= 4 then 1 else 0
  {
    assert Uses(CELL3, x) == if x == 3 then 1 else 0;
    assert Uses(CELL2, x) == if 2 <= x <= 3 then 1 else 0;
    assert Uses(CELL4, x) == if x == 4 then 1 else 0;
  }

  lemma TreeValid()
    ensures Valid(Erase(TREE))
  {
    var t3 := Node(K2, 1, Leaf, Leaf);
    var t2 := Node(K1, 2, Leaf, t3);
    var t4 := Node(K20, 1, Leaf, Leaf);
    assert Erase(CELL3) == t3 && Erase(CELL2) == t2 && Erase(CELL4) == t4;
    assert Valid(t3) && Valid(t4);
    assert Pairs(t3) == {K2} && Pairs(t2) == {K1, K2} && Pairs(t4) == {K20};
    assert Valid(t2);
  }

  const ACTS := [
    New(5, Cell(K3, 1, 0, 0)), SetChild(3, false, 5), SetSize(3, 2),
    New(6, Cell(K1, 1, 0, 0)), New(7, Cell(K2, 3, 6, 5)),
    Free(3), Free(2), SetChild(1, true, 7), SetSize(1, 5)]

  const CELL5 := At(5, K3, 1, Nil, Nil)
  const CELL3A := At(3, K2, 2, Nil, CELL5)
  const CELL6 := At(6, K1, 1, Nil, Nil)
  const CELL7 := At(7, K2, 3, CELL6, CELL5)

  lemma LowActs()
    ensures Sized(Erase(CELL3)) && TreeInsert(4, CELL3, K3) == Out(CELL3A, 5, ACTS[..3])
  {
    var c := TreeInsert(4, Nil, K3);
    assert c == Out(CELL5, 5, ACTS[..1]);
    var b := TreeBalance(5, 3, K2, Nil, CELL5, false, true);
    assert b == Out(CELL3A, 5, ACTS[1..3]);
    assert c.acts + b.acts == ACTS[..3];
  }

  lemma MiddleActs()
    ensures Sized(Erase(CELL2)) && TreeInsert(4, CELL2, K3) == Out(CELL7, 7, ACTS[..7])
  {
    LowActs();
    assert SizeOf(CELL3A.l) == 0 && SizeOf(CELL3A.r) == 1;
    var b := TreeBalance(5, 2, K1, Nil, CELL3A, false, true);
    assert b == ThenFree(TreeSingleLeft(5, K1, Nil, CELL3A), 2);
    assert b == Out(CELL7, 7, ACTS[3..7]);
    assert ACTS[..3] + ACTS[3..7] == ACTS[..7];
  }

  lemma AllActs()
    ensures Sized(Erase(TREE)) && Perform(WRITER, InsertOp(K3)).acts == ACTS
  {
    TreeValid();
    MiddleActs();
    var b := TreeBalance(7, 1, K10, CELL7, CELL4, true, true);
    assert b.acts == ACTS[7..];
    assert ACTS[..7] + ACTS[7..] == ACTS;
  }

  lemma MidHeap()
    ensures var h := Run(HEAP, ACTS[..7]);
            1 in h && 2 in h && 3 in h && h[1] == HEAP[1] && h[2] == HEAP[2] && h[3].kv == K2
  {
    var a := ACTS[..7];
    for t := 0 to 7
      invariant var h := Run(HEAP, a[..t]);
                1 in h && 2 in h && 3 in h && h[1] == HEAP[1] && h[2] == HEAP[2] && h[3].kv == K2
    {
      RunMore(HEAP, a, t);
    }
    assert a[..7] == a;
  }

  lemma ThreeReads(m: Memory)
    requires m.root == 1 && 1 in m.heap && 2 in m.heap && 3 in m.heap
    requires m.heap[1] == CellOf(TREE) && m.heap[2] == CellOf(CELL2) && m.heap[3].kv == K2
    ensures Visits(m, At_(m.root), 2, [Read, Read, Read]) == [1, 2, 3]
  {
    assert [Read, Read, Read][1..] == [Read, Read] && [Read, Read][1..] == [Read];
    assert Look(m.heap, 1, 2) == At_(2) && Look(m.heap, 2, 2) == At_(3);
  }

  /** For example: inserting 3 frees cells 3 and 2 while they are still linked.  A reader that starts after
      both frees, looking for 2, visits them; once the root's link is stored, they are out of reach, with
      two stores still to come. */
  lemma FreedStillVisited()
    ensures Ready(WRITER)
    ensures var acts := Perform(WRITER, InsertOp(K3)).acts;
            && |acts| == 9 && acts[5] == Free(3) && acts[6] == Free(2) && |Moments(WRITER, InsertOp(K3))| == 10
            && (forall x :: x == 2 || x == 3 ==>
                  ReachableAt(WRITER, InsertOp(K3), 7, x) && !ReachableAt(WRITER, InsertOp(K3), 8, x))
    ensures |Moments(WRITER, InsertOp(K3))| == 10 &&
            var m := MemAt(WRITER, InsertOp(K3), 7);
            Visits(m, At_(m.root), 2, [Read, Read, Read]) == [1, 2, 3]
  {
    WriterReady();
    AllActs();
    var op := InsertOp(K3);
    hide Perform, Moments, Visits, ReachableAt;
    MemIs(WRITER, op, 7);
    FreedReachableIff(WRITER, op, 5, 7, 3);
    FreedReachableIff(WRITER, op, 5, 8, 3);
    FreedReachableIff(WRITER, op, 6, 7, 2);
    FreedReachableIff(WRITER, op, 6, 8, 2);
    assert ACTS[7].SetChild?;
    MidHeap();
    ThreeReads(MemAt(WRITER, op, 7));
  }
}
