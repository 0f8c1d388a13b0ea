/**
 The balanced search tree of attic/bonsai.c read as a value: every node is an
 immutable record and the rotations build new records.  The size field is kept
 as data, exactly as the code keeps it, and is proved to be the node count.

 The heap layout, the in-place stores and the delayed frees are in BonsaiHeap.
 */
module BonsaiTree {
  import opened Options

  // WEIGHT is 4: a side may have up to four times the nodes of its sibling.

  datatype Pair = Pair(key: nat, val: nat)

  datatype Tree = Leaf | Node(kv: Pair, size: int, left: Tree, right: Tree)

  // ----------------------------------------------------------------------
  // What a tree means
  // ----------------------------------------------------------------------

  ghost function Pairs(t: Tree): set<Pair> {
    if t.Leaf? then {} else Pairs(t.left) + {t.kv} + Pairs(t.right)
  }

  ghost function Keys(t: Tree): set<nat> {
    set p | p in Pairs(t) :: p.key
  }

  /** The finite map a search tree stores. */
  ghost function Map(t: Tree): map<nat, nat> {
    map k | k in Keys(t) :: ValueAt(t, k)
  }

  ghost function ValueAt(t: Tree, k: nat): nat
    requires k in Keys(t)
  {
    var p :| p in Pairs(t) && p.key == k;
    p.val
  }

  ghost function Count(t: Tree): nat {
    if t.Leaf? then 0 else 1 + Count(t.left) + Count(t.right)
  }

  ghost function Height(t: Tree): nat {
    if t.Leaf? then 0
    else 1 + if Height(t.left) < Height(t.right) then Height(t.right) else Height(t.left)
  }

  ghost predicate AllBelow(t: Tree, k: nat) {
    forall p :: p in Pairs(t) ==> p.key < k
  }

  ghost predicate AllAbove(t: Tree, k: nat) {
    forall p :: p in Pairs(t) ==> k < p.key
  }

  /** Search order. */
  ghost predicate Ordered(t: Tree) {
    t.Node? ==>
      && Ordered(t.left) && Ordered(t.right)
      && AllBelow(t.left, t.kv.key) && AllAbove(t.right, t.kv.key)
  }

  /** The SIZE macro. */
  function Size(t: Tree): int {
    if t.Leaf? then 0 else t.size
  }

  /** Every size field holds the number of nodes below it. */
  ghost predicate Sized(t: Tree) {
    t.Node? ==> Sized(t.left) && Sized(t.right) && t.size == Count(t)
  }

  /** Two sibling sizes that tree_balance leaves alone. */
  predicate InBalance(a: int, b: int) {
    a + b < 2 || (a <= 4 * b && b <= 4 * a)
  }

  ghost predicate Balanced(t: Tree) {
    t.Node? ==>
      && Balanced(t.left) && Balanced(t.right)
      && InBalance(Count(t.left), Count(t.right))
  }

  /** What every tree that reaches a caller satisfies. */
  ghost predicate Valid(t: Tree) {
    Ordered(t) && Sized(t) && Balanced(t)
  }

  /** How far apart sibling sizes may be for one tree_balance call to repair them. */
  predicate Repairable(a: int, b: int) {
    && (b <= 5 * a + 1 || b <= 4 * a + 4)
    && (a <= 5 * b + 1 || a <= 4 * b + 4)
  }

  // ----------------------------------------------------------------------
  // The code
  // ----------------------------------------------------------------------

  /** tree_find */
  function Find(t: Tree, key: nat): Option<Pair> {
    if t.Leaf? then None
    else if t.kv.key == key then Some(t.kv)
    else if key < t.kv.key then Find(t.left, key)
    else Find(t.right, key)
  }

  /** tree_find_gt */
  function FindGt(t: Tree, key: nat): Option<Pair> {
    if t.Leaf? then None
    else if t.kv.key > key then
      var r := FindGt(t.left, key);
      if r.None? then Some(t.kv) else r
    else FindGt(t.right, key)
  }

  /** alloc_node */
  function Alloc(kv: Pair, l: Tree, r: Tree): Tree {
    Node(kv, Size(l) + Size(r) + 1, l, r)
  }

  function SingleLeft(kv: Pair, l: Tree, r: Tree): Tree
    requires r.Node?
  {
    Alloc(r.kv, Alloc(kv, l, r.left), r.right)
  }

  function SingleRight(kv: Pair, l: Tree, r: Tree): Tree
    requires l.Node?
  {
    Alloc(l.kv, l.left, Alloc(kv, l.right, r))
  }

  /** tree_double_left; `half` is r rebuilt around the outer part of its left child. */
  function DoubleLeft(kv: Pair, l: Tree, r: Tree, half: Tree): Tree
    requires r.Node? && r.left.Node?
  {
    Alloc(r.left.kv, Alloc(kv, l, r.left.left), half)
  }

  /** tree_double_right; `half` is l rebuilt around the outer part of its right child. */
  function DoubleRight(kv: Pair, l: Tree, r: Tree, half: Tree): Tree
    requires l.Node? && l.right.Node?
  {
    Alloc(l.right.kv, half, Alloc(kv, l.right.right, r))
  }

  /** A side more than WEIGHT times longer than its sibling has a node, and when
      its inner child is at least as long as its outer child that is a node too. */
  lemma LongSideHasInner(short: Tree, long: Tree)
    requires Sized(short) && Sized(long)
    ensures Size(short) + Size(long) >= 2 && Size(long) > 4 * Size(short) ==>
              && long.Node?
              && (Size(long.left) >= Size(long.right) ==> long.left.Node?)
              && (Size(long.right) >= Size(long.left) ==> long.right.Node?)
  {
    if long.Node? {
      assert Sized(long.left) && Sized(long.right);
    }
  }

  /** tree_balance.  Exact sizes are what keeps it away from null children:
      the longer side has a node, and a double rotation finds its inner child. */
  function Balance(kv: Pair, l: Tree, r: Tree): Tree
    requires Sized(l) && Sized(r)
    decreases Count(l) + Count(r)
  {
    var ln, rn := Size(l), Size(r);
    LongSideHasInner(l, r);
    LongSideHasInner(r, l);
    if ln + rn < 2 then Alloc(kv, l, r)
    else if rn > 4 * ln then
      if Size(r.left) < Size(r.right) then SingleLeft(kv, l, r)
      else
        assert Sized(r.left);
        DoubleLeft(kv, l, r, Balance(r.kv, r.left.right, r.right))
    else if ln > 4 * rn then
      if Size(l.right) < Size(l.left) then SingleRight(kv, l, r)
      else
        assert Sized(l.right);
        DoubleRight(kv, l, r, Balance(l.kv, l.left, l.right.left))
    else Alloc(kv, l, r)
  }

  /** tree_insert */
  function Insert(t: Tree, kv: Pair): Tree
    requires Sized(t)
    ensures Sized(Insert(t, kv))
  {
    if t.Leaf? then Alloc(kv, Leaf, Leaf)
    else if kv.key == t.kv.key then t
    else if kv.key < t.kv.key then
      BalanceSizes(t.kv, Insert(t.left, kv), t.right);
      Balance(t.kv, Insert(t.left, kv), t.right)
    else
      BalanceSizes(t.kv, t.left, Insert(t.right, kv));
      Balance(t.kv, t.left, Insert(t.right, kv))
  }

  /** tree_min */
  function Min(t: Tree): Pair
    requires t.Node?
  {
    if t.left.Leaf? then t.kv else Min(t.left)
  }

  /** tree_delmin */
  function DelMin(t: Tree): Tree
    requires t.Node? && Sized(t)
    ensures Sized(DelMin(t))
  {
    if t.left.Leaf? then t.right
    else
      BalanceSizes(t.kv, DelMin(t.left), t.right);
      Balance(t.kv, DelMin(t.left), t.right)
  }

  /** tree_delprime */
  function DelPrime(l: Tree, r: Tree): Tree
    requires Sized(l) && Sized(r)
    ensures Sized(DelPrime(l, r))
  {
    if l.Leaf? then r
    else if r.Leaf? then l
    else
      BalanceSizes(Min(r), l, DelMin(r));
      Balance(Min(r), l, DelMin(r))
  }

  /** tree_remove */
  function Remove(t: Tree, key: nat): Tree
    requires Sized(t)
    ensures Sized(Remove(t, key))
  {
    if t.Leaf? then Leaf
    else if key < t.kv.key then
      BalanceSizes(t.kv, Remove(t.left, key), t.right);
      Balance(t.kv, Remove(t.left, key), t.right)
    else if key > t.kv.key then
      BalanceSizes(t.kv, t.left, Remove(t.right, key));
      Balance(t.kv, t.left, Remove(t.right, key))
    else DelPrime(t.left, t.right)
  }

  // ----------------------------------------------------------------------
  // Rebalancing keeps sizes, contents and search order
  // ----------------------------------------------------------------------

  lemma AllocKeeps(kv: Pair, l: Tree, r: Tree)
    ensures Sized(l) && Sized(r) ==> Sized(Alloc(kv, l, r))
    ensures Count(Alloc(kv, l, r)) == Count(l) + Count(r) + 1
    ensures Pairs(Alloc(kv, l, r)) == Pairs(l) + {kv} + Pairs(r)
    ensures Ordered(Alloc(kv, l, r)) <==>
            Ordered(l) && Ordered(r) && AllBelow(l, kv.key) && AllAbove(r, kv.key)
  {
  }

  lemma {:induction false} BalanceSizes(kv: Pair, l: Tree, r: Tree)
    requires Sized(l) && Sized(r)
    ensures Sized(Balance(kv, l, r))
    ensures Count(Balance(kv, l, r)) == Count(l) + Count(r) + 1
    decreases Count(l) + Count(r)
  {
    AllocKeeps(kv, l, r);
    var ln, rn := Size(l), Size(r);
    if ln + rn < 2 {
    } else if rn > 4 * ln {
      assert Sized(r.left) && Sized(r.right);
      if Size(r.left) < Size(r.right) {
        AllocKeeps(kv, l, r.left);
        AllocKeeps(r.kv, Alloc(kv, l, r.left), r.right);
      } else {
        AllocKeeps(kv, l, r.left.left);
        BalanceSizes(r.kv, r.left.right, r.right);
        AllocKeeps(r.left.kv, Alloc(kv, l, r.left.left), Balance(r.kv, r.left.right, r.right));
      }
    } else if ln > 4 * rn {
      assert Sized(l.left) && Sized(l.right);
      if Size(l.right) < Size(l.left) {
        AllocKeeps(kv, l.right, r);
        AllocKeeps(l.kv, l.left, Alloc(kv, l.right, r));
      } else {
        AllocKeeps(kv, l.right.right, r);
        BalanceSizes(l.kv, l.left, l.right.left);
        AllocKeeps(l.right.kv, Balance(l.kv, l.left, l.right.left), Alloc(kv, l.right.right, r));
      }
    }
  }

  ghost function InOrder(t: Tree): seq<Pair> {
    if t.Leaf? then [] else InOrder(t.left) + [t.kv] + InOrder(t.right)
  }

  ghost predicate Sorted(s: seq<Pair>) {
    forall i, j :: 0 <= i < j < |s| ==> s[i].key < s[j].key
  }

  lemma {:induction false} BalanceKeepsInOrder(kv: Pair, l: Tree, r: Tree)
    requires Sized(l) && Sized(r)
    ensures InOrder(Balance(kv, l, r)) == InOrder(l) + [kv] + InOrder(r)
    decreases Count(l) + Count(r), 1
  {
    var ln, rn := Size(l), Size(r);
    if ln + rn >= 2 && rn > 4 * ln {
      LeftKeepsInOrder(kv, l, r);
    } else if ln + rn >= 2 && ln > 4 * rn {
      RightKeepsInOrder(kv, l, r);
    }
  }

  lemma {:induction false} LeftKeepsInOrder(kv: Pair, l: Tree, r: Tree)
    requires Sized(l) && Sized(r) && Size(l) + Size(r) >= 2 && Size(r) > 4 * Size(l)
    ensures InOrder(Balance(kv, l, r)) == InOrder(l) + [kv] + InOrder(r)
    decreases Count(l) + Count(r), 0
  {
    LongSideHasInner(l, r);
    if Size(r.left) >= Size(r.right) {
      assert Sized(r.left) && Sized(r.right);
      BalanceKeepsInOrder(r.kv, r.left.right, r.right);
      DoubleLeftKeepsInOrder(kv, l, r, Balance(r.kv, r.left.right, r.right));
    }
  }

  lemma {:induction false} RightKeepsInOrder(kv: Pair, l: Tree, r: Tree)
    requires Sized(l) && Sized(r) && Size(l) + Size(r) >= 2 && Size(l) > 4 * Size(r)
    ensures InOrder(Balance(kv, l, r)) == InOrder(l) + [kv] + InOrder(r)
    decreases Count(l) + Count(r), 0
  {
    LongSideHasInner(r, l);
    if Size(l.right) >= Size(l.left) {
      assert Sized(l.left) && Sized(l.right);
      BalanceKeepsInOrder(l.kv, l.left, l.right.left);
      DoubleRightKeepsInOrder(kv, l, r, Balance(l.kv, l.left, l.right.left));
    }
  }

  lemma DoubleLeftKeepsInOrder(kv: Pair, l: Tree, r: Tree, half: Tree)
    requires r.Node? && r.left.Node?
    requires InOrder(half) == InOrder(r.left.right) + [r.kv] + InOrder(r.right)
    ensures InOrder(DoubleLeft(kv, l, r, half)) == InOrder(l) + [kv] + InOrder(r)
  {
    assert InOrder(r) == InOrder(r.left.left) + [r.left.kv] + InOrder(half);
  }

  lemma DoubleRightKeepsInOrder(kv: Pair, l: Tree, r: Tree, half: Tree)
    requires l.Node? && l.right.Node?
    requires InOrder(half) == InOrder(l.left) + [l.kv] + InOrder(l.right.left)
    ensures InOrder(DoubleRight(kv, l, r, half)) == InOrder(l) + [kv] + InOrder(r)
  {
    assert InOrder(l) == InOrder(half) + [l.right.kv] + InOrder(l.right.right);
  }

  lemma {:induction false} InOrderPairs(t: Tree)
    ensures Pairs(t) == set p | p in InOrder(t)
  {
    if t.Node? {
      InOrderPairs(t.left);
      InOrderPairs(t.right);
    }
  }

  ghost predicate SplitSorted(a: seq<Pair>, kv: Pair, b: seq<Pair>) {
    && Sorted(a) && Sorted(b)
    && (forall p :: p in a ==> p.key < kv.key) && (forall p :: p in b ==> kv.key < p.key)
  }

  lemma SortedSplits(a: seq<Pair>, kv: Pair, b: seq<Pair>)
    requires Sorted(a + [kv] + b)
    ensures SplitSorted(a, kv, b)
  {
    var s := a + [kv] + b;
    assert forall i :: 0 <= i < |a| ==> s[i] == a[i] && s[i].key < s[|a|].key;
    assert forall i :: 0 <= i < |b| ==> s[|a| + 1 + i] == b[i] && s[|a|].key < s[|a| + 1 + i].key;
  }

  lemma SplitsSorted(a: seq<Pair>, kv: Pair, b: seq<Pair>)
    requires SplitSorted(a, kv, b)
    ensures Sorted(a + [kv] + b)
  {
    var s, n := a + [kv] + b, |a|;
    forall i, j | 0 <= i < j < |s| ensures s[i].key < s[j].key {
      if i < n {
        assert s[i] == a[i] && a[i] in a;
      } else if n < i {
        assert s[i] == b[i - n - 1];
      }
      if n < j {
        assert s[j] == b[j - n - 1] && b[j - n - 1] in b;
      }
    }
  }

  lemma SortedParts(a: seq<Pair>, kv: Pair, b: seq<Pair>)
    ensures Sorted(a + [kv] + b) <==> SplitSorted(a, kv, b)
  {
    hide Sorted, SplitSorted;
    if Sorted(a + [kv] + b) {
      SortedSplits(a, kv, b);
    }
    if SplitSorted(a, kv, b) {
      SplitsSorted(a, kv, b);
    }
  }

  lemma {:induction false} InOrderSorted(t: Tree)
    ensures Ordered(t) <==> Sorted(InOrder(t))
  {
    if t.Node? {
      InOrderSorted(t.left);
      InOrderSorted(t.right);
      InOrderPairs(t.left);
      InOrderPairs(t.right);
      SortedParts(InOrder(t.left), t.kv, InOrder(t.right));
      assert AllBelow(t.left, t.kv.key) <==> forall p :: p in InOrder(t.left) ==> p.key < t.kv.key;
      assert AllAbove(t.right, t.kv.key) <==> forall p :: p in InOrder(t.right) ==> t.kv.key < p.key;
    }
  }

  /** A rebalanced node holds the same pairs in the same search order. */
  lemma BalanceKeepsContents(kv: Pair, l: Tree, r: Tree)
    requires Sized(l) && Sized(r)
    ensures Pairs(Balance(kv, l, r)) == Pairs(l) + {kv} + Pairs(r)
    ensures Ordered(Balance(kv, l, r)) <==>
            Ordered(l) && Ordered(r) && AllBelow(l, kv.key) && AllAbove(r, kv.key)
  {
    var b, plain := Balance(kv, l, r), Alloc(kv, l, r);
    BalanceKeepsInOrder(kv, l, r);
    assert InOrder(plain) == InOrder(b);
    InOrderPairs(b);
    InOrderPairs(plain);
    InOrderSorted(b);
    InOrderSorted(plain);
  }

  // ----------------------------------------------------------------------
  // Insert and delete as operations on the stored pairs
  // ----------------------------------------------------------------------

  lemma {:induction false} InsertContents(t: Tree, kv: Pair)
    requires Sized(t) && Ordered(t)
    ensures Ordered(Insert(t, kv))
    ensures Pairs(Insert(t, kv)) == if kv.key in Keys(t) then Pairs(t) else Pairs(t) + {kv}
  {
    if t.Leaf? {
    } else if kv.key < t.kv.key {
      InsertContents(t.left, kv);
      BalanceKeepsContents(t.kv, Insert(t.left, kv), t.right);
    } else if kv.key > t.kv.key {
      InsertContents(t.right, kv);
      BalanceKeepsContents(t.kv, t.left, Insert(t.right, kv));
    } else {
      assert t.kv in Pairs(t);
    }
  }

  lemma {:induction false} DelMinContents(t: Tree)
    requires t.Node? && Sized(t) && Ordered(t)
    ensures Ordered(DelMin(t))
    ensures Pairs(t) == Pairs(DelMin(t)) + {Min(t)}
    ensures AllAbove(DelMin(t), Min(t).key)
  {
    if t.left.Node? {
      var l := DelMin(t.left);
      DelMinContents(t.left);
      BalanceKeepsContents(t.kv, l, t.right);
      assert Min(t) in Pairs(t.left);
    }
  }

  ghost function Without(s: set<Pair>, key: nat): set<Pair> {
    set p | p in s && p.key != key
  }

  lemma {:induction false} DelPrimeContents(l: Tree, r: Tree, key: nat)
    requires Sized(l) && Sized(r) && Ordered(l) && Ordered(r) && AllBelow(l, key) && AllAbove(r, key)
    ensures Ordered(DelPrime(l, r))
    ensures Pairs(DelPrime(l, r)) == Pairs(l) + Pairs(r)
  {
    if l.Node? && r.Node? {
      DelMinContents(r);
      BalanceKeepsContents(Min(r), l, DelMin(r));
      assert Min(r) in Pairs(r);
    }
  }

  lemma {:induction false} RemoveContents(t: Tree, key: nat)
    requires Sized(t) && Ordered(t)
    ensures Ordered(Remove(t, key))
    ensures Pairs(Remove(t, key)) == Without(Pairs(t), key)
  {
    if t.Leaf? {
    } else if key < t.kv.key {
      RemoveContents(t.left, key);
      BalanceKeepsContents(t.kv, Remove(t.left, key), t.right);
    } else if key > t.kv.key {
      RemoveContents(t.right, key);
      BalanceKeepsContents(t.kv, t.left, Remove(t.right, key));
    } else {
      DelPrimeContents(t.left, t.right, key);
    }
  }

  // ----------------------------------------------------------------------
  // The weight bound
  // ----------------------------------------------------------------------

  lemma AllocBalanced(kv: Pair, l: Tree, r: Tree)
    requires Balanced(l) && Balanced(r) && InBalance(Count(l), Count(r))
    ensures Balanced(Alloc(kv, l, r))
  {
  }

  /** Sizes around a single rotation: `a` beside a node with children `inner` < `outer`. */
  lemma SingleRotationSizes(a: int, inner: int, outer: int)
    requires 0 <= a && 0 <= inner < outer && InBalance(inner, outer)
    requires a + inner + outer >= 1 && inner + outer + 1 > 4 * a
    requires Repairable(a, inner + outer + 1)
    ensures InBalance(a, inner) && InBalance(a + inner + 1, outer)
  {
  }

  /** Sizes around a double rotation: the inner child splits into `near` and `far`,
      and `far` is rebalanced against `outer`. */
  lemma DoubleRotationSizes(a: int, near: int, far: int, outer: int)
    requires 0 <= a && 0 <= near && 0 <= far && 0 <= outer <= near + far + 1
    requires InBalance(near, far) && InBalance(near + far + 1, outer)
    requires near + far + outer + 2 > 4 * a
    requires Repairable(a, near + far + outer + 2)
    ensures InBalance(a, near) && Repairable(far, outer)
    ensures InBalance(a + near + 1, far + outer + 1)
  {
  }

  /** The double rotation rebalances one of its halves; this is what makes one
      tree_balance call enough. */
  lemma {:induction false} BalanceRestoresBound(kv: Pair, l: Tree, r: Tree)
    requires Sized(l) && Sized(r) && Balanced(l) && Balanced(r)
    requires Repairable(Count(l), Count(r))
    ensures Balanced(Balance(kv, l, r))
    decreases Count(l) + Count(r), 2
  {
    LongSideHasInner(l, r);
    LongSideHasInner(r, l);
    var ln, rn := Size(l), Size(r);
    if ln + rn >= 2 && rn > 4 * ln {
      RotateLeftBound(kv, l, r);
    } else if ln + rn >= 2 && ln > 4 * rn {
      RotateRightBound(kv, l, r);
    } else {
      AllocBalanced(kv, l, r);
    }
  }

  lemma {:induction false} RotateLeftBound(kv: Pair, l: Tree, r: Tree)
    requires Sized(l) && Sized(r) && Balanced(l) && Balanced(r)
    requires Repairable(Count(l), Count(r))
    requires Count(l) + Count(r) >= 2 && Count(r) > 4 * Count(l)
    ensures Balanced(Balance(kv, l, r))
    decreases Count(l) + Count(r), 1
  {
    LongSideHasInner(l, r);
    NodeParts(r);
    if Size(r.left) < Size(r.right) {
      SingleRotationSizes(Count(l), Count(r.left), Count(r.right));
      DoubleBound(kv, l, r.left, r.kv, r.right);
    } else {
      DoubleLeftBound(kv, l, r);
    }
  }

  lemma {:induction false} DoubleLeftBound(kv: Pair, l: Tree, r: Tree)
    requires Sized(l) && Sized(r) && Balanced(l) && Balanced(r)
    requires Repairable(Count(l), Count(r)) && Count(r) > 4 * Count(l)
    requires r.Node? && r.left.Node? && Sized(r.left) && Sized(r.right) && Count(r.left) >= Count(r.right)
    ensures Balanced(DoubleLeft(kv, l, r, Balance(r.kv, r.left.right, r.right)))
    decreases Count(l) + Count(r), 0
  {
    var rl, rr := r.left, r.right;
    NodeParts(r);
    NodeParts(rl);
    DoubleRotationSizes(Count(l), Count(rl.left), Count(rl.right), Count(rr));
    DoubleLeftFrom(kv, l, rl.left, rl.kv, rl.right, r.kv, rr);
  }

  lemma {:induction false} DoubleLeftFrom(kv: Pair, a: Tree, near: Tree, mid: Pair, far: Tree, top: Pair, outer: Tree)
    requires Sized(near) && Sized(far) && Sized(outer)
    requires Balanced(a) && Balanced(near) && Balanced(far) && Balanced(outer)
    requires InBalance(Count(a), Count(near)) && Repairable(Count(far), Count(outer))
    requires InBalance(Count(a) + Count(near) + 1, Count(far) + Count(outer) + 1)
    ensures Balanced(Alloc(mid, Alloc(kv, a, near), Balance(top, far, outer)))
    decreases Count(far) + Count(outer), 3
  {
    BalanceRestoresBound(top, far, outer);
    BalanceSizes(top, far, outer);
    DoubleBound(kv, a, near, mid, Balance(top, far, outer));
  }

  lemma {:induction false} RotateRightBound(kv: Pair, l: Tree, r: Tree)
    requires Sized(l) && Sized(r) && Balanced(l) && Balanced(r)
    requires Repairable(Count(l), Count(r))
    requires Count(l) + Count(r) >= 2 && Count(l) > 4 * Count(r)
    ensures Balanced(Balance(kv, l, r))
    decreases Count(l) + Count(r), 1
  {
    LongSideHasInner(r, l);
    NodeParts(l);
    if Size(l.right) < Size(l.left) {
      SingleRotationSizes(Count(r), Count(l.right), Count(l.left));
      DoubleBoundRight(l.left, l.kv, kv, l.right, r);
    } else {
      DoubleRightBound(kv, l, r);
    }
  }

  lemma {:induction false} DoubleRightBound(kv: Pair, l: Tree, r: Tree)
    requires Sized(l) && Sized(r) && Balanced(l) && Balanced(r)
    requires Repairable(Count(l), Count(r)) && Count(l) > 4 * Count(r)
    requires l.Node? && l.right.Node? && Sized(l.left) && Sized(l.right) && Count(l.right) >= Count(l.left)
    ensures Balanced(DoubleRight(kv, l, r, Balance(l.kv, l.left, l.right.left)))
    decreases Count(l) + Count(r), 0
  {
    var ll, lr := l.left, l.right;
    NodeParts(l);
    NodeParts(lr);
    DoubleRotationSizes(Count(r), Count(lr.right), Count(lr.left), Count(ll));
    DoubleRightFrom(ll, l.kv, lr.left, lr.kv, lr.right, kv, r);
  }

  lemma {:induction false} DoubleRightFrom(outer: Tree, top: Pair, far: Tree, mid: Pair, near: Tree, kv: Pair, a: Tree)
    requires Sized(near) && Sized(far) && Sized(outer)
    requires Balanced(a) && Balanced(near) && Balanced(far) && Balanced(outer)
    requires InBalance(Count(a), Count(near)) && Repairable(Count(far), Count(outer))
    requires InBalance(Count(a) + Count(near) + 1, Count(far) + Count(outer) + 1)
    ensures Balanced(Alloc(mid, Balance(top, outer, far), Alloc(kv, near, a)))
    decreases Count(far) + Count(outer), 3
  {
    BalanceRestoresBound(top, outer, far);
    BalanceSizes(top, outer, far);
    DoubleBoundRight(Balance(top, outer, far), mid, kv, near, a);
  }

  lemma NodeParts(t: Tree)
    requires t.Node? && Sized(t) && Balanced(t)
    ensures Sized(t.left) && Sized(t.right) && Balanced(t.left) && Balanced(t.right)
    ensures Size(t.left) == Count(t.left) && Size(t.right) == Count(t.right)
    ensures Size(t) == Count(t) == Count(t.left) + Count(t.right) + 1
    ensures InBalance(Count(t.left), Count(t.right))
  {
  }

  lemma DoubleBound(kv: Pair, a: Tree, b: Tree, mid: Pair, c: Tree)
    requires Balanced(a) && Balanced(b) && Balanced(c)
    requires InBalance(Count(a), Count(b)) && InBalance(Count(a) + Count(b) + 1, Count(c))
    ensures Balanced(Alloc(mid, Alloc(kv, a, b), c))
  {
    AllocKeeps(kv, a, b);
    AllocBalanced(kv, a, b);
    AllocBalanced(mid, Alloc(kv, a, b), c);
  }

  lemma DoubleBoundRight(a: Tree, mid: Pair, kv: Pair, b: Tree, c: Tree)
    requires Balanced(a) && Balanced(b) && Balanced(c)
    requires InBalance(Count(b), Count(c)) && InBalance(Count(a), Count(b) + Count(c) + 1)
    ensures Balanced(Alloc(mid, a, Alloc(kv, b, c)))
  {
    AllocKeeps(kv, b, c);
    AllocBalanced(kv, b, c);
    AllocBalanced(mid, a, Alloc(kv, b, c));
  }

  lemma {:induction false} InsertBalanced(t: Tree, kv: Pair)
    requires Sized(t) && Balanced(t)
    ensures Balanced(Insert(t, kv))
    ensures Count(t) <= Count(Insert(t, kv)) <= Count(t) + 1
  {
    if t.Leaf? {
      AllocBalanced(kv, Leaf, Leaf);
    } else if kv.key < t.kv.key {
      InsertBalanced(t.left, kv);
      BalanceRestoresBound(t.kv, Insert(t.left, kv), t.right);
      BalanceSizes(t.kv, Insert(t.left, kv), t.right);
    } else if kv.key > t.kv.key {
      InsertBalanced(t.right, kv);
      BalanceRestoresBound(t.kv, t.left, Insert(t.right, kv));
      BalanceSizes(t.kv, t.left, Insert(t.right, kv));
    }
  }

  lemma {:induction false} DelMinBalanced(t: Tree)
    requires t.Node? && Sized(t) && Balanced(t)
    ensures Balanced(DelMin(t))
    ensures Count(DelMin(t)) == Count(t) - 1
  {
    if t.left.Node? {
      DelMinBalanced(t.left);
      BalanceRestoresBound(t.kv, DelMin(t.left), t.right);
      BalanceSizes(t.kv, DelMin(t.left), t.right);
    }
  }

  lemma {:induction false} RemoveBalanced(t: Tree, key: nat)
    requires Sized(t) && Balanced(t)
    ensures Balanced(Remove(t, key))
    ensures Count(t) - 1 <= Count(Remove(t, key)) <= Count(t)
  {
    if t.Leaf? {
    } else if key < t.kv.key {
      RemoveBalanced(t.left, key);
      BalanceRestoresBound(t.kv, Remove(t.left, key), t.right);
      BalanceSizes(t.kv, Remove(t.left, key), t.right);
    } else if key > t.kv.key {
      RemoveBalanced(t.right, key);
      BalanceRestoresBound(t.kv, t.left, Remove(t.right, key));
      BalanceSizes(t.kv, t.left, Remove(t.right, key));
    } else if t.left.Node? && t.right.Node? {
      DelMinBalanced(t.right);
      BalanceRestoresBound(Min(t.right), t.left, DelMin(t.right));
      BalanceSizes(Min(t.right), t.left, DelMin(t.right));
    }
  }

  /** x to the n, for the height bound. */
  function Power(x: nat, n: nat): nat {
    if n == 0 then 1 else x * Power(x, n - 1)
  }

  /** The weight bound makes the tree logarithmic: each child has at most four
      fifths of the nodes, so height h needs (5/4)^(h-1) nodes. */
  lemma {:induction false} HeightBound(t: Tree)
    requires t.Node? && Balanced(t)
    ensures Power(5, Height(t) - 1) <= Count(t) * Power(4, Height(t) - 1)
  {
    var c := if Height(t.left) < Height(t.right) then t.right else t.left;
    if c.Node? {
      HeightBound(c);
      var h := Height(t) - 1;
      assert 5 * Count(c) <= 4 * Count(t);
      ScaleBound(Power(5, h - 1), Power(4, h - 1), Count(c), Count(t));
    }
  }

  lemma ScaleBound(p5: nat, p4: nat, c: nat, n: nat)
    requires p5 <= c * p4 && 5 * c <= 4 * n
    ensures 5 * p5 <= n * (4 * p4)
  {
    assert (5 * c) * p4 <= (4 * n) * p4;
  }

  // ----------------------------------------------------------------------
  // Lookups
  // ----------------------------------------------------------------------

  lemma {:induction false} UniqueKeys(t: Tree, p: Pair, q: Pair)
    requires Ordered(t) && p in Pairs(t) && q in Pairs(t) && p.key == q.key
    ensures p == q
  {
    if p in Pairs(t.left) && q in Pairs(t.left) {
      UniqueKeys(t.left, p, q);
    } else if p in Pairs(t.right) && q in Pairs(t.right) {
      UniqueKeys(t.right, p, q);
    }
  }

  lemma MapIsPairs(t: Tree, p: Pair)
    requires Ordered(t)
    ensures p in Pairs(t) <==> p.key in Map(t) && Map(t)[p.key] == p.val
  {
    if p.key in Keys(t) {
      var q :| q in Pairs(t) && q.key == p.key && q.val == ValueAt(t, p.key);
      if p in Pairs(t) {
        UniqueKeys(t, p, q);
      }
    }
  }

  lemma {:induction false} FindIsMember(t: Tree, key: nat)
    requires Ordered(t)
    ensures Find(t, key).None? ==> forall p :: p in Pairs(t) ==> p.key != key
    ensures Find(t, key).Some? ==> Find(t, key).value in Pairs(t) && Find(t, key).value.key == key
  {
    if t.Node? {
      if key < t.kv.key {
        FindIsMember(t.left, key);
      } else if key > t.kv.key {
        FindIsMember(t.right, key);
      }
    }
  }

  /** tree_find is lookup in the stored map. */
  lemma FindAgreesWithMap(t: Tree, key: nat)
    requires Ordered(t)
    ensures Find(t, key) == if key in Map(t) then Some(Pair(key, Map(t)[key])) else None
  {
    FindIsMember(t, key);
    if Find(t, key).Some? {
      MapIsPairs(t, Find(t, key).value);
    }
  }

  lemma {:induction false} FindGtIsLeast(t: Tree, key: nat)
    requires Ordered(t)
    ensures FindGt(t, key).None? ==> forall p :: p in Pairs(t) ==> p.key <= key
    ensures FindGt(t, key).Some? ==>
              && FindGt(t, key).value in Pairs(t) && key < FindGt(t, key).value.key
              && forall p :: p in Pairs(t) && key < p.key ==> FindGt(t, key).value.key <= p.key
  {
    if t.Node? {
      if t.kv.key > key {
        FindGtIsLeast(t.left, key);
      } else {
        FindGtIsLeast(t.right, key);
      }
    }
  }

  /** tree_find_gt returns the entry with the least greater key, or nothing when no key is greater. */
  lemma FindGtAgreesWithMap(t: Tree, key: nat)
    requires Ordered(t)
    ensures FindGt(t, key).None? <==> forall k :: k in Map(t) ==> k <= key
    ensures FindGt(t, key).Some? ==>
              var p := FindGt(t, key).value;
              && p.key in Map(t) && Map(t)[p.key] == p.val && key < p.key
              && forall k :: k in Map(t) && key < k ==> p.key <= k
  {
    FindGtIsLeast(t, key);
    if FindGt(t, key).Some? {
      MapIsPairs(t, FindGt(t, key).value);
    }
  }

  // ----------------------------------------------------------------------
  // Whole runs
  // ----------------------------------------------------------------------

  lemma InsertIsMapInsert(t: Tree, kv: Pair)
    requires Valid(t)
    ensures Valid(Insert(t, kv))
    ensures Map(Insert(t, kv)) == if kv.key in Map(t) then Map(t) else Map(t)[kv.key := kv.val]
  {
    var u := Insert(t, kv);
    InsertContents(t, kv);
    InsertBalanced(t, kv);
    forall k, v ensures Holds(Map(u), k, v) <==> Pair(k, v) in Pairs(u) {
      MapIsPairs(u, Pair(k, v));
    }
    forall k, v ensures Holds(Map(t), k, v) <==> Pair(k, v) in Pairs(t) {
      MapIsPairs(t, Pair(k, v));
    }
    SameMap(Map(u), if kv.key in Map(t) then Map(t) else Map(t)[kv.key := kv.val]);
  }

  lemma RemoveIsMapRemove(t: Tree, key: nat)
    requires Valid(t)
    ensures Valid(Remove(t, key))
    ensures Map(Remove(t, key)) == Map(t) - {key}
  {
    var u := Remove(t, key);
    RemoveContents(t, key);
    RemoveBalanced(t, key);
    forall k, v ensures Holds(Map(u), k, v) <==> Pair(k, v) in Pairs(u) {
      MapIsPairs(u, Pair(k, v));
    }
    forall k, v ensures Holds(Map(t), k, v) <==> Pair(k, v) in Pairs(t) {
      MapIsPairs(t, Pair(k, v));
    }
    SameMap(Map(u), Map(t) - {key});
  }

  ghost predicate Holds(m: map<nat, nat>, k: nat, v: nat) {
    k in m && m[k] == v
  }

  lemma SameMap(m: map<nat, nat>, n: map<nat, nat>)
    requires forall k, v :: Holds(m, k, v) <==> Holds(n, k, v)
    ensures m == n
  {
    forall k | k in m ensures k in n && n[k] == m[k] {
      assert Holds(m, k, m[k]);
    }
    forall k | k in n ensures k in m {
      assert Holds(n, k, n[k]);
    }
  }

  datatype Op = InsertOp(kv: Pair) | RemoveOp(key: nat)

  /** A run of writer operations on an initially empty tree. */
  function RunTree(ops: seq<Op>): (t: Tree)
    ensures Sized(t)
  {
    if ops == [] then Leaf
    else
      var t := RunTree(ops[..|ops| - 1]);
      match ops[|ops| - 1]
      case InsertOp(kv) => Insert(t, kv)
      case RemoveOp(key) => Remove(t, key)
  }

  /** The same run on a finite map: insert-if-absent and delete. */
  function RunMap(ops: seq<Op>): map<nat, nat> {
    if ops == [] then map[]
    else
      var m := RunMap(ops[..|ops| - 1]);
      match ops[|ops| - 1]
      case InsertOp(kv) => if kv.key in m then m else m[kv.key := kv.val]
      case RemoveOp(key) => m - {key}
  }

  /** Every tree reached from empty is ordered, exactly sized and within the weight
      bound at every node, stores the map the operations describe, and is logarithmic. */
  lemma {:induction false} RunsStayBalanced(ops: seq<Op>)
    ensures Valid(RunTree(ops)) && Map(RunTree(ops)) == RunMap(ops)
    ensures RunTree(ops).Node? ==>
              var t := RunTree(ops);
              Power(5, Height(t) - 1) <= Count(t) * Power(4, Height(t) - 1)
  {
    hide Insert, Remove, Balance, Power, Height;
    if ops != [] {
      RunsStayBalanced(ops[..|ops| - 1]);
      match ops[|ops| - 1] {
        case InsertOp(kv) => InsertIsMapInsert(RunTree(ops[..|ops| - 1]), kv);
        case RemoveOp(key) => RemoveIsMapRemove(RunTree(ops[..|ops| - 1]), key);
      }
      if RunTree(ops).Node? {
        HeightBound(RunTree(ops));
      }
    }
  }
}
