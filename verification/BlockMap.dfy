/**
 bmap of attic/fs.cc: any number of threads look up block numbers of one inode and
 allocate missing blocks.  Every load, allocation, compare-and-swap, free and write to
 an index block is a step of its own.
 */
module BlockMap {
  import opened Options

  type Blk = nat       // disk block address; 0 is none
  type Tid = nat

  const NDIRECT: nat := 10
  const NINDIRECT: nat := 1024      // BSIZE / sizeof(u32)

  /** The inode in memory (addrs, and iaddrs once it is loaded) and the index blocks on disk. */
  datatype Tree = Tree(addrs: seq<Blk>, iaddrs: Option<seq<Blk>>, blocks: map<Blk, seq<Blk>>)

  /** The places a block address can be in. */
  datatype Slot =
    | Top(i: nat)               // addrs[i]
    | Ind(j: nat)               // entry of the indirect block
    | Dbl(i: nat)               // entry of the doubly-indirect block
    | Leaf(i: nat, j: nat)      // entry of the block that Dbl(i) names

  predicate IsSlot(sl: Slot) {
    match sl
    case Top(i) => i < NDIRECT + 2
    case Ind(j) => j < NINDIRECT
    case Dbl(i) => i < NINDIRECT
    case Leaf(i, j) => i < NINDIRECT && j < NINDIRECT
  }

  function Entry(t: Tree, b: Blk, j: nat): Blk {
    if b != 0 && b in t.blocks && j < |t.blocks[b]| then t.blocks[b][j] else 0
  }

  function TopAt(t: Tree, i: nat): Blk {
    if i < |t.addrs| then t.addrs[i] else 0
  }

  /** The address in a slot, 0 if there is none. */
  function Value(t: Tree, sl: Slot): Blk {
    match sl
    case Top(i) => TopAt(t, i)
    case Ind(j) =>
      if t.iaddrs.Some? then (if j < |t.iaddrs.value| then t.iaddrs.value[j] else 0)
      else Entry(t, TopAt(t, NDIRECT), j)
    case Dbl(i) => Entry(t, TopAt(t, NDIRECT + 1), i)
    case Leaf(i, j) => Entry(t, Entry(t, TopAt(t, NDIRECT + 1), i), j)
  }

  function Zeros(): seq<Blk> {
    seq(NINDIRECT, _ => 0)
  }

  /** The slot of block number `bn`; None where bmap panics. */
  function Home(bn: nat): Option<Slot> {
    if bn < NDIRECT then Some(Top(bn))
    else if bn - NDIRECT < NINDIRECT then Some(Ind(bn - NDIRECT))
    else
      var n := bn - NDIRECT - NINDIRECT;
      if n >= NINDIRECT * NINDIRECT then None else Some(Leaf(n / NINDIRECT, n % NINDIRECT))
  }

  /** Where a call is.  A Cas and a Free carry the block the call has allocated. */
  datatype PC =
    | Look(sl: Slot)                  // about to load the slot
    | Alloc(sl: Slot)
    | Cas(sl: Slot, b: Blk)
    | Free(sl: Slot, b: Blk)
    | Check                           // retry1: is iaddrs loaded?
    | Load(b: Blk)                    // about to copy the indirect block
    | Cache(copy: seq<Blk>)           // about to publish the copy
    | Write(j: nat, b: Blk)           // about to store the entry in the indirect block
    | Fill(sl: Slot)                  // about to lock the index block and fill the entry
    | Done(b: Blk)
    | Panic

  datatype Thread = Thread(bn: nat, pc: PC)

  /** Who has an allocated block. */
  datatype Owner = InSlot(sl: Slot) | HeldBy(u: Tid) | Elsewhere

  datatype State = State(tree: Tree, threads: map<Tid, Thread>, owner: map<Blk, Owner>)

  // ----------------------------------------------------------------------
  // Steps
  // ----------------------------------------------------------------------

  function FirstPC(bn: nat): PC {
    match Home(bn)
    case None => Panic
    case Some(Ind(_)) => Check
    case Some(Leaf(_, _)) => Look(Top(NDIRECT + 1))
    case Some(sl) => Look(sl)
  }

  /** Where a call goes once it knows that `sl` holds `b`. */
  function Onward(bn: nat, sl: Slot, b: Blk): PC {
    var home := Home(bn);
    if home == Some(sl) then Done(b)
    else if sl == Top(NDIRECT) then Load(b)
    else if sl == Top(NDIRECT + 1) && home.Some? && home.value.Leaf? then Look(Dbl(home.value.i))
    else if sl.Dbl? && home.Some? then Look(home.value)
    else Panic
  }

  /** Entries of the doubly-indirect blocks are filled under the buffer's write lock, the others by
      compare-and-swap. */
  predicate Locked(sl: Slot) {
    sl.Dbl? || sl.Leaf?
  }

  function SetTop(t: Tree, i: nat, b: Blk): Tree {
    if i < |t.addrs| then t.(addrs := t.addrs[i := b]) else t
  }

  function SetEntry(t: Tree, blk: Blk, j: nat, b: Blk): Tree {
    if blk in t.blocks && j < |t.blocks[blk]| then
      var was: seq<Blk> := t.blocks[blk];
      var now: seq<Blk> := was[j := b];
      t.(blocks := t.blocks[blk := now])
    else t
  }

  /** The store a successful compare-and-swap or a fill makes. */
  function Put(t: Tree, sl: Slot, b: Blk): Tree {
    match sl
    case Top(i) => SetTop(t, i, b)
    case Ind(j) =>
      if t.iaddrs.Some? && j < |t.iaddrs.value| then t.(iaddrs := Some(t.iaddrs.value[j := b])) else t
    case Dbl(i) => SetEntry(t, TopAt(t, NDIRECT + 1), i, b)
    case Leaf(i, j) => SetEntry(t, Entry(t, TopAt(t, NDIRECT + 1), i), j, b)
  }

  /** Index blocks are allocated zeroed. */
  predicate IsIndex(sl: Slot) {
    sl == Top(NDIRECT) || sl == Top(NDIRECT + 1) || sl.Dbl?
  }

  /** balloc: some block that is not allocated, zeroed if it is to be an index block */
  predicate Fresh(s: State, b: Blk) {
    b != 0 && b !in s.owner
  }

  function Zeroed(t: Tree, sl: Slot, b: Blk): Tree {
    if IsIndex(sl) then t.(blocks := t.blocks[b := Zeros()]) else t
  }

  /** After the compare-and-swap: the winner of an indirect entry still has to store it on disk. */
  function Won(bn: nat, sl: Slot, b: Blk): PC {
    if sl.Ind? then Write(sl.j, b) else Onward(bn, sl, b)
  }

  function To(s: State, u: Tid, pc: PC): State
    requires u in s.threads
  {
    s.(threads := s.threads[u := s.threads[u].(pc := pc)])
  }

  /** One step of thread `u`; `b` is the block balloc returns, if the step allocates. */
  ghost predicate StepBy(s: State, s': State, u: Tid, b: Blk)
    requires u in s.threads
  {
    var t, bn := s.tree, s.threads[u].bn;
    match s.threads[u].pc
    case Look(sl) =>
      s' == To(s, u, if Value(t, sl) != 0 then Onward(bn, sl, Value(t, sl))
                     else if Locked(sl) then Fill(sl) else Alloc(sl))
    case Alloc(sl) =>
      Fresh(s, b) && s' == To(s, u, Cas(sl, b)).(tree := Zeroed(t, sl, b), owner := s.owner[b := HeldBy(u)])
    case Cas(sl, a) =>
      if Value(t, sl) == 0 then
        s' == To(s, u, Won(bn, sl, a)).(tree := Put(t, sl, a), owner := s.owner[a := InSlot(sl)])
      else s' == To(s, u, Free(sl, a))
    case Free(sl, a) =>
      s' == To(s, u, if sl == Top(NDIRECT) then Check else Look(sl)).(owner := s.owner - {a})
    case Check =>
      s' == To(s, u, if t.iaddrs.None? then Look(Top(NDIRECT))
                     else if Home(bn).Some? then Look(Home(bn).value) else Panic)
    case Load(a) =>
      s' == To(s, u, Cache(if a in t.blocks then t.blocks[a] else []))
    case Cache(copy) =>
      s' == To(s, u, Check).(tree := if t.iaddrs.None? then t.(iaddrs := Some(copy)) else t)
    case Write(j, a) =>
      s' == To(s, u, Done(a)).(tree := SetEntry(t, TopAt(t, NDIRECT), j, a))
    case Fill(sl) =>
      if Value(t, sl) == 0 then
        && Fresh(s, b)
        && s' == To(s, u, Look(sl)).(tree := Put(Zeroed(t, sl, b), sl, b), owner := s.owner[b := InSlot(sl)])
      else s' == To(s, u, Look(sl))
    case _ => false
  }

  ghost predicate Call(s: State, s': State, u: Tid, bn: nat) {
    && (u in s.threads ==> s.threads[u].pc.Done? || s.threads[u].pc.Panic?)
    && s' == s.(threads := s.threads[u := Thread(bn, FirstPC(bn))])
  }

  ghost predicate Next(s: State, s': State) {
    (exists u, bn :: Call(s, s', u, bn)) || exists u, b :: u in s.threads && StepBy(s, s', u, b)
  }

  // ----------------------------------------------------------------------
  // What holds at every step
  // ----------------------------------------------------------------------

  /** Every non-zero slot has its block to itself, and owned blocks are where their owner says. */
  ghost predicate OwnersOk(s: State) {
    && 0 !in s.owner
    && (forall sl :: IsSlot(sl) && Value(s.tree, sl) != 0 ==>
          Value(s.tree, sl) in s.owner && s.owner[Value(s.tree, sl)] == InSlot(sl))
    && (forall b :: b in s.owner && s.owner[b].InSlot? ==> IsSlot(s.owner[b].sl) && Value(s.tree, s.owner[b].sl) == b)
    && (forall b :: b in s.owner && s.owner[b].HeldBy? ==>
          s.owner[b].u in s.threads && Holds(s.threads[s.owner[b].u].pc, b))
    && (forall u, b :: u in s.threads && Holds(s.threads[u].pc, b) ==> b in s.owner && s.owner[b] == HeldBy(u))
  }

  ghost predicate Holds(pc: PC, b: Blk) {
    (pc.Cas? || pc.Free?) && pc.b == b
  }

  ghost predicate IndexOk(t: Tree, b: Blk) {
    b != 0 ==> b in t.blocks && |t.blocks[b]| == NINDIRECT
  }

  ghost predicate ShapeOk(t: Tree) {
    && |t.addrs| == NDIRECT + 2
    && IndexOk(t, TopAt(t, NDIRECT)) && IndexOk(t, TopAt(t, NDIRECT + 1))
    && (forall i :: 0 <= i < NINDIRECT ==> IndexOk(t, Value(t, Dbl(i))))
    && (t.iaddrs.Some? ==> |t.iaddrs.value| == NINDIRECT && TopAt(t, NDIRECT) != 0)
  }

  /** Some call has won entry `j` and not stored it yet. */
  ghost predicate Pending(s: State, j: nat, b: Blk) {
    exists u :: u in s.threads && s.threads[u].pc == Write(j, b)
  }

  /** The cached entries are those on disk, except where the winner's store is pending. */
  ghost predicate CacheOk(s: State) {
    s.tree.iaddrs.Some? ==>
      forall j :: 0 <= j < NINDIRECT ==>
        var (c, d) := (Value(s.tree, Ind(j)), Entry(s.tree, TopAt(s.tree, NDIRECT), j));
        c == d || (d == 0 && Pending(s, j, c))
  }

  /** A slot on the way to the home of `bn`. */
  predicate OnWay(bn: nat, sl: Slot) {
    match Home(bn)
    case None => false
    case Some(home) =>
      || sl == home
      || (home.Ind? && sl == Top(NDIRECT))
      || (home.Leaf? && (sl == Top(NDIRECT + 1) || sl == Dbl(home.i)))
  }

  /** The slots above it are filled. */
  ghost predicate Reached(t: Tree, sl: Slot) {
    match sl
    case Top(_) => true
    case Ind(_) => t.iaddrs.Some?
    case Dbl(_) => TopAt(t, NDIRECT + 1) != 0
    case Leaf(i, _) => Value(t, Dbl(i)) != 0
  }

  ghost predicate ThreadOk(s: State, x: Thread) {
    var t := s.tree;
    match x.pc
    case Look(sl) => OnWay(x.bn, sl) && Reached(t, sl)
    case Alloc(sl) => OnWay(x.bn, sl) && Reached(t, sl) && !Locked(sl)
    case Cas(sl, b) =>
      && OnWay(x.bn, sl) && Reached(t, sl) && !Locked(sl) && b != 0
      && (IsIndex(sl) ==> b in t.blocks && t.blocks[b] == Zeros())
    case Free(sl, b) => OnWay(x.bn, sl) && Reached(t, sl) && !Locked(sl) && Value(t, sl) != 0
    case Check => Home(x.bn).Some? && Home(x.bn).value.Ind?
    case Load(b) => Home(x.bn).Some? && Home(x.bn).value.Ind? && b != 0 && TopAt(t, NDIRECT) == b
    case Cache(copy) =>
      && Home(x.bn).Some? && Home(x.bn).value.Ind? && TopAt(t, NDIRECT) != 0
      && (t.iaddrs.None? ==> TopAt(t, NDIRECT) in t.blocks && copy == t.blocks[TopAt(t, NDIRECT)])
    case Write(j, b) => t.iaddrs.Some? && Home(x.bn) == Some(Ind(j)) && b != 0 && Value(t, Ind(j)) == b
    case Fill(sl) => OnWay(x.bn, sl) && Reached(t, sl) && Locked(sl)
    case Done(b) => Home(x.bn).Some? && b != 0 && Value(t, Home(x.bn).value) == b
    case Panic => Home(x.bn).None?
  }

  ghost predicate Inv(s: State) {
    && ShapeOk(s.tree) && OwnersOk(s) && CacheOk(s)
    && forall u :: u in s.threads ==> ThreadOk(s, s.threads[u])
  }

  // ----------------------------------------------------------------------
  // Other threads' steps
  // ----------------------------------------------------------------------

  lemma OnWayIsSlot(bn: nat, sl: Slot)
    requires OnWay(bn, sl)
    ensures IsSlot(sl)
  {
  }

  lemma HomeIsSlot(bn: nat)
    requires Home(bn).Some?
    ensures IsSlot(Home(bn).value) && OnWay(bn, Home(bn).value)
  {
  }

  /** The tree changed in slot `at` at most, which was empty. */
  ghost predicate Grew(t: Tree, t': Tree, at: Option<Slot>) {
    && (forall sl :: IsSlot(sl) && Some(sl) != at ==> Value(t', sl) == Value(t, sl))
    && (at.Some? ==> Value(t, at.value) == 0)
    && (t.iaddrs.Some? ==> t'.iaddrs.Some?)
    && (t'.iaddrs.None? && TopAt(t, NDIRECT) != 0 && TopAt(t, NDIRECT) in t.blocks ==>
          TopAt(t, NDIRECT) in t'.blocks && t'.blocks[TopAt(t, NDIRECT)] == t.blocks[TopAt(t, NDIRECT)])
  }

  ghost predicate SameBlock(t: Tree, t': Tree, b: Blk) {
    b in t.blocks ==> b in t'.blocks && t'.blocks[b] == t.blocks[b]
  }

  lemma KeepsValue(t: Tree, t': Tree, at: Option<Slot>, sl: Slot)
    requires Grew(t, t', at) && IsSlot(sl) && Value(t, sl) != 0
    ensures Value(t', sl) == Value(t, sl)
  {
  }

  /** No step spoils what another call knows. */
  lemma OtherThread(s: State, s': State, at: Option<Slot>, x: Thread)
    requires ThreadOk(s, x) && Grew(s.tree, s'.tree, at)
    requires x.pc.Cas? ==> SameBlock(s.tree, s'.tree, x.pc.b)
    ensures ThreadOk(s', x)
  {
    hide Grew, Value, Home;
    var t, t' := s.tree, s'.tree;
    match x.pc
    case Look(sl) => ReachedStays(t, t', at, x.bn, sl);
    case Alloc(sl) => ReachedStays(t, t', at, x.bn, sl);
    case Cas(sl, b) => ReachedStays(t, t', at, x.bn, sl);
    case Free(sl, b) =>
      ReachedStays(t, t', at, x.bn, sl);
      OnWayIsSlot(x.bn, sl);
      KeepsValue(t, t', at, sl);
    case Load(b) => TopStays(t, t', at);
    case Cache(copy) => CacheStays(t, t', at, copy);
    case Write(j, b) =>
      HomeIsSlot(x.bn);
      KeepsValue(t, t', at, Ind(j));
      CachedStays(t, t', at);
    case Fill(sl) => ReachedStays(t, t', at, x.bn, sl);
    case Done(b) =>
      HomeIsSlot(x.bn);
      KeepsValue(t, t', at, Home(x.bn).value);
    case _ =>
  }

  lemma CachedStays(t: Tree, t': Tree, at: Option<Slot>)
    requires Grew(t, t', at) && t.iaddrs.Some?
    ensures t'.iaddrs.Some?
  {
  }

  lemma TopStays(t: Tree, t': Tree, at: Option<Slot>)
    requires Grew(t, t', at)
    ensures TopAt(t, NDIRECT) != 0 ==> TopAt(t', NDIRECT) == TopAt(t, NDIRECT)
    ensures TopAt(t, NDIRECT + 1) != 0 ==> TopAt(t', NDIRECT + 1) == TopAt(t, NDIRECT + 1)
  {
    assert Value(t, Top(NDIRECT)) == TopAt(t, NDIRECT) && Value(t', Top(NDIRECT)) == TopAt(t', NDIRECT);
    assert Value(t, Top(NDIRECT + 1)) == TopAt(t, NDIRECT + 1) && Value(t', Top(NDIRECT + 1)) == TopAt(t', NDIRECT + 1);
  }

  lemma ReachedStays(t: Tree, t': Tree, at: Option<Slot>, bn: nat, sl: Slot)
    requires Grew(t, t', at) && OnWay(bn, sl) && Reached(t, sl)
    ensures Reached(t', sl)
  {
    OnWayIsSlot(bn, sl);
    hide Value, OnWay;
    TopStays(t, t', at);
    if sl.Leaf? {
      KeepsValue(t, t', at, Dbl(sl.i));
    }
  }

  lemma CacheStays(t: Tree, t': Tree, at: Option<Slot>, copy: seq<Blk>)
    requires Grew(t, t', at) && TopAt(t, NDIRECT) != 0
    requires t.iaddrs.None? ==> TopAt(t, NDIRECT) in t.blocks && copy == t.blocks[TopAt(t, NDIRECT)]
    ensures TopAt(t', NDIRECT) != 0
    ensures t'.iaddrs.None? ==> TopAt(t', NDIRECT) in t'.blocks && copy == t'.blocks[TopAt(t', NDIRECT)]
  {
    hide Value;
    TopStays(t, t', at);
  }

  // ----------------------------------------------------------------------
  // What the stores do to the tree
  // ----------------------------------------------------------------------

  /** No block sits in two slots. */
  lemma SlotsDiffer(s: State, a: Slot, b: Slot)
    requires OwnersOk(s) && IsSlot(a) && IsSlot(b) && a != b
    ensures Value(s.tree, a) == 0 || Value(s.tree, a) != Value(s.tree, b)
  {
    hide Value;
  }

  ghost predicate InNoSlot(t: Tree, b: Blk) {
    b != 0 && forall sl :: IsSlot(sl) ==> Value(t, sl) != b
  }

  lemma NotInSlot(s: State, b: Blk)
    requires OwnersOk(s) && b != 0 && (b in s.owner ==> !s.owner[b].InSlot?)
    ensures InNoSlot(s.tree, b)
  {
    hide Value;
  }

  lemma ZeroOk(t: Tree, b: Blk)
    requires ShapeOk(t) && InNoSlot(t, b)
    ensures var t' := t.(blocks := t.blocks[b := Zeros()]);
            Grew(t, t', None) && ShapeOk(t') && InNoSlot(t', b) && forall a :: a != b ==> SameBlock(t, t', a)
  {
    var t' := t.(blocks := t.blocks[b := Zeros()]);
    assert Value(t, Top(NDIRECT)) != b && Value(t, Top(NDIRECT + 1)) != b;
    forall sl | IsSlot(sl) ensures Value(t', sl) == Value(t, sl) {
      match sl
      case Leaf(i, j) => assert Value(t, Dbl(i)) != b;
      case _ =>
    }
    forall i | 0 <= i < NINDIRECT ensures IndexOk(t', Value(t', Dbl(i))) {
      assert IndexOk(t, Value(t, Dbl(i)));
    }
  }

  /** The store of a new block changes its own slot and no other. */
  ghost predicate PutsOnly(t: Tree, sl: Slot, b: Blk) {
    var t' := Put(t, sl, b);
    && Value(t', sl) == b && Grew(t, t', Some(sl)) && ShapeOk(t')
    && forall a :: InNoSlot(t, a) ==> SameBlock(t, t', a)
  }

  ghost predicate MayPut(s: State, sl: Slot, b: Blk) {
    && ShapeOk(s.tree) && OwnersOk(s) && IsSlot(sl) && Value(s.tree, sl) == 0
    && Reached(s.tree, sl) && InNoSlot(s.tree, b)
    && (IsIndex(sl) ==> b in s.tree.blocks && s.tree.blocks[b] == Zeros())
  }

  lemma PutTop(s: State, i: nat, b: Blk)
    requires MayPut(s, Top(i), b)
    ensures PutsOnly(s.tree, Top(i), b)
  {
    var t, t' := s.tree, Put(s.tree, Top(i), b);
    forall sl | IsSlot(sl) && sl != Top(i) ensures Value(t', sl) == Value(t, sl) {
      match sl
      case Leaf(x, j) => assert Value(t', Dbl(x)) == Value(t, Dbl(x));
      case _ =>
    }
    forall x | 0 <= x < NINDIRECT ensures IndexOk(t', Value(t', Dbl(x))) {
      assert IndexOk(t, Value(t, Dbl(x)));
    }
  }

  lemma PutInd(s: State, j: nat, b: Blk)
    requires MayPut(s, Ind(j), b)
    ensures PutsOnly(s.tree, Ind(j), b)
  {
    var t, t' := s.tree, Put(s.tree, Ind(j), b);
    forall sl | IsSlot(sl) && sl != Ind(j) ensures Value(t', sl) == Value(t, sl) {
    }
    forall x | 0 <= x < NINDIRECT ensures IndexOk(t', Value(t', Dbl(x))) {
      assert IndexOk(t, Value(t, Dbl(x)));
    }
  }

  lemma PutDbl(s: State, i: nat, b: Blk)
    requires MayPut(s, Dbl(i), b)
    ensures PutsOnly(s.tree, Dbl(i), b)
  {
    var t, t' := s.tree, Put(s.tree, Dbl(i), b);
    var top := TopAt(t, NDIRECT + 1);
    assert Value(t, Top(NDIRECT + 1)) == top && Value(t, Top(NDIRECT)) == TopAt(t, NDIRECT);
    SlotsDiffer(s, Top(NDIRECT), Top(NDIRECT + 1));
    forall x | 0 <= x < NINDIRECT ensures IndexOk(t', Value(t', Dbl(x))) && Value(t, Dbl(x)) != top
      ensures x != i ==> Value(t', Dbl(x)) == Value(t, Dbl(x)) {
      assert IndexOk(t, Value(t, Dbl(x)));
      SlotsDiffer(s, Dbl(x), Top(NDIRECT + 1));
    }
    forall sl | IsSlot(sl) && sl != Dbl(i) ensures Value(t', sl) == Value(t, sl) {
      match sl
      case Leaf(x, j) =>
        assert Value(t, Dbl(x)) != top;
        assert x != i ==> Value(t', Dbl(x)) == Value(t, Dbl(x));
      case _ =>
    }
  }

  lemma PutLeaf(s: State, i: nat, j: nat, b: Blk)
    requires MayPut(s, Leaf(i, j), b)
    ensures PutsOnly(s.tree, Leaf(i, j), b)
  {
    var t, t' := s.tree, Put(s.tree, Leaf(i, j), b);
    var blk := Value(t, Dbl(i));
    assert IndexOk(t, blk);
    assert Value(t, Top(NDIRECT + 1)) == TopAt(t, NDIRECT + 1) && Value(t, Top(NDIRECT)) == TopAt(t, NDIRECT);
    SlotsDiffer(s, Top(NDIRECT), Dbl(i));
    SlotsDiffer(s, Top(NDIRECT + 1), Dbl(i));
    forall x | 0 <= x < NINDIRECT
      ensures IndexOk(t', Value(t', Dbl(x))) && Value(t', Dbl(x)) == Value(t, Dbl(x))
      ensures (x != i ==> Value(t, Dbl(x)) != blk)
    {
      assert IndexOk(t, Value(t, Dbl(x)));
      if x != i {
        SlotsDiffer(s, Dbl(x), Dbl(i));
      }
    }
    forall sl | IsSlot(sl) && sl != Leaf(i, j) ensures Value(t', sl) == Value(t, sl) {
      match sl
      case Leaf(x, y) =>
        assert Value(t', Dbl(x)) == Value(t, Dbl(x)) && (x != i ==> Value(t, Dbl(x)) != blk);
      case _ =>
    }
  }

  lemma PutOk(s: State, sl: Slot, b: Blk)
    requires MayPut(s, sl, b)
    ensures PutsOnly(s.tree, sl, b)
  {
    hide MayPut, PutsOnly;
    match sl
    case Top(i) => PutTop(s, i, b);
    case Ind(j) => PutInd(s, j, b);
    case Dbl(i) => PutDbl(s, i, b);
    case Leaf(i, j) => PutLeaf(s, i, j, b);
  }

  /** Publishing the copied indirect block changes no slot. */
  lemma PublishOk(t: Tree, copy: seq<Blk>)
    requires ShapeOk(t) && t.iaddrs.None? && TopAt(t, NDIRECT) != 0 && copy == t.blocks[TopAt(t, NDIRECT)]
    ensures var t' := t.(iaddrs := Some(copy)); Grew(t, t', None) && ShapeOk(t') && t'.blocks == t.blocks
  {
    var t' := t.(iaddrs := Some(copy));
    forall sl | IsSlot(sl) ensures Value(t', sl) == Value(t, sl) {
    }
    forall x | 0 <= x < NINDIRECT ensures IndexOk(t', Value(t', Dbl(x))) {
      assert IndexOk(t, Value(t, Dbl(x)));
    }
  }

  /** Storing a cached entry on disk changes no slot. */
  lemma WriteOk(s: State, j: nat, b: Blk)
    requires ShapeOk(s.tree) && OwnersOk(s) && s.tree.iaddrs.Some? && j < NINDIRECT
    ensures var t' := SetEntry(s.tree, TopAt(s.tree, NDIRECT), j, b);
            && Grew(s.tree, t', None) && ShapeOk(t') && t'.addrs == s.tree.addrs && t'.iaddrs == s.tree.iaddrs
            && (forall a :: InNoSlot(s.tree, a) ==> SameBlock(s.tree, t', a))
            && forall x :: 0 <= x < NINDIRECT ==>
                 Entry(t', TopAt(t', NDIRECT), x) == if x == j then b else Entry(s.tree, TopAt(s.tree, NDIRECT), x)
  {
    var t, top := s.tree, TopAt(s.tree, NDIRECT);
    var t' := SetEntry(t, top, j, b);
    assert Value(t, Top(NDIRECT + 1)) == TopAt(t, NDIRECT + 1) && Value(t, Top(NDIRECT)) == top;
    SlotsDiffer(s, Top(NDIRECT + 1), Top(NDIRECT));
    forall x | 0 <= x < NINDIRECT
      ensures IndexOk(t', Value(t', Dbl(x))) && Value(t', Dbl(x)) == Value(t, Dbl(x)) && Value(t, Dbl(x)) != top {
      assert IndexOk(t, Value(t, Dbl(x)));
      SlotsDiffer(s, Dbl(x), Top(NDIRECT));
    }
    forall sl | IsSlot(sl) ensures Value(t', sl) == Value(t, sl) {
      match sl
      case Leaf(x, y) => assert Value(t', Dbl(x)) == Value(t, Dbl(x)) && Value(t, Dbl(x)) != top;
      case _ =>
    }
  }

  // ----------------------------------------------------------------------
  // Steps keep the invariant
  // ----------------------------------------------------------------------

  lemma ThreadAt(s: State, u: Tid)
    requires Inv(s) && u in s.threads
    ensures ThreadOk(s, s.threads[u])
  {
  }

  lemma CasHeld(s: State, u: Tid)
    requires Inv(s) && u in s.threads && (s.threads[u].pc.Cas? || s.threads[u].pc.Free?)
    ensures s.threads[u].pc.b in s.owner && s.owner[s.threads[u].pc.b] == HeldBy(u)
    ensures InNoSlot(s.tree, s.threads[u].pc.b)
  {
    hide Value;
    var b := s.threads[u].pc.b;
    assert Holds(s.threads[u].pc, b);
    NotInSlot(s, b);
  }

  lemma TopNot(t: Tree, b: Blk)
    requires InNoSlot(t, b)
    ensures TopAt(t, NDIRECT) != b
  {
    assert Value(t, Top(NDIRECT)) == TopAt(t, NDIRECT);
  }

  /** A step that changes only its own thread: no store, no allocation. */
  lemma LocalStep(s: State, s': State, u: Tid, pc: PC)
    requires Inv(s) && u in s.threads && s' == To(s, u, pc) && ThreadOk(s', s'.threads[u])
    requires !s.threads[u].pc.Write? && forall b :: Holds(pc, b) <==> Holds(s.threads[u].pc, b)
    ensures Inv(s')
  {
    hide Value, Entry, ThreadOk, ShapeOk;
    forall w | w in s'.threads ensures ThreadOk(s', s'.threads[w]) {
      if w != u {
        ThreadSame(s, s', s.threads[w]);
      }
    }
    PendingKept(s, s', u);
  }

  lemma ThreadSame(s: State, s': State, x: Thread)
    requires ThreadOk(s, x) && s'.tree == s.tree
    ensures ThreadOk(s', x)
  {
  }

  /** Stores that were pending for other calls are still pending. */
  lemma PendingKept(s: State, s': State, u: Tid)
    requires u in s.threads
    requires (forall w :: w in s.threads && w != u ==> w in s'.threads && s'.threads[w] == s.threads[w])
    requires !s.threads[u].pc.Write?
    ensures forall j, b :: Pending(s, j, b) ==> Pending(s', j, b)
  {
    forall j, b | Pending(s, j, b) ensures Pending(s', j, b) {
      var w :| w in s.threads && s.threads[w].pc == Write(j, b);
      assert s'.threads[w].pc == Write(j, b);
    }
  }

  /** The other threads after a step that changed the tree. */
  lemma Others(s: State, s': State, u: Tid, at: Option<Slot>)
    requires Inv(s) && u in s.threads && Grew(s.tree, s'.tree, at)
    requires forall b :: InNoSlot(s.tree, b) && b in s.owner && s.owner[b] != HeldBy(u) ==>
      SameBlock(s.tree, s'.tree, b)
    requires u in s'.threads && s'.threads == s.threads[u := s'.threads[u]] && ThreadOk(s', s'.threads[u])
    ensures forall w :: w in s'.threads ==> ThreadOk(s', s'.threads[w])
  {
    hide Grew, SameBlock, InNoSlot, ThreadOk, ShapeOk, CacheOk, Value;
    forall w | w in s'.threads ensures ThreadOk(s', s'.threads[w]) {
      if w != u {
        ThreadAt(s, w);
        if s.threads[w].pc.Cas? {
          CasHeld(s, w);
        }
        OtherThread(s, s', at, s.threads[w]);
      }
    }
  }

  lemma AllocStep(s: State, s': State, u: Tid, b: Blk)
    requires Inv(s) && u in s.threads && s.threads[u].pc.Alloc? && StepBy(s, s', u, b)
    ensures Inv(s')
  {
    var sl := s.threads[u].pc.sl;
    ThreadAt(s, u);
    NotInSlot(s, b);
    ZeroOk(s.tree, b);
    SameTree(s.tree);
    hide Value, Entry, Home, Zeros, ShapeOk;
    assert Grew(s.tree, s'.tree, None);
    assert ThreadOk(s', s'.threads[u]) by { AllocOwn(s, s', u, b); }
    Others(s, s', u, None);
    hide ThreadOk;
    assert OwnersOk(s') by { OwnersHold(s, s', u, b); }
    PendingKept(s, s', u);
    TopNot(s.tree, b);
    CacheKept(s, s', b);
  }

  lemma SameTree(t: Tree)
    ensures Grew(t, t, None)
  {
  }

  lemma AllocOwn(s: State, s': State, u: Tid, b: Blk)
    requires u in s.threads && s.threads[u].pc.Alloc? && ThreadOk(s, s.threads[u]) && Grew(s.tree, s'.tree, None)
    requires b != 0
    requires var sl := s.threads[u].pc.sl;
             s'.tree == Zeroed(s.tree, sl, b) && u in s'.threads && s'.threads[u] == s.threads[u].(pc := Cas(sl, b))
    ensures ThreadOk(s', s'.threads[u])
  {
    hide Home, Value;
    ReachedStays(s.tree, s'.tree, None, s.threads[u].bn, s.threads[u].pc.sl);
  }

  /** A fresh block goes to its holder. */
  lemma OwnersHold(s: State, s': State, u: Tid, b: Blk)
    requires OwnersOk(s) && Fresh(s, b) && u in s.threads && s'.owner == s.owner[b := HeldBy(u)]
    requires (forall sl :: IsSlot(sl) ==> Value(s'.tree, sl) == Value(s.tree, sl))
    requires u in s'.threads && s'.threads == s.threads[u := s'.threads[u]]
    requires (forall a :: !Holds(s.threads[u].pc, a)) && (forall a :: Holds(s'.threads[u].pc, a) <==> a == b)
    ensures OwnersOk(s')
  {
    hide Value;
  }

  /** Index block contents that matter to the cache are as before. */
  lemma CacheKept(s: State, s': State, b: Blk)
    requires CacheOk(s) && ShapeOk(s.tree) && s'.tree.iaddrs == s.tree.iaddrs && s'.tree.addrs == s.tree.addrs
    requires TopAt(s.tree, NDIRECT) != 0 ==> SameBlock(s.tree, s'.tree, TopAt(s.tree, NDIRECT))
    requires forall j, a :: Pending(s, j, a) ==> Pending(s', j, a)
    ensures CacheOk(s')
  {
    if s.tree.iaddrs.Some? {
      forall j | 0 <= j < NINDIRECT
        ensures Value(s'.tree, Ind(j)) == Value(s.tree, Ind(j))
        ensures Entry(s'.tree, TopAt(s'.tree, NDIRECT), j) == Entry(s.tree, TopAt(s.tree, NDIRECT), j)
      {
      }
    }
  }

  lemma LookStep(s: State, s': State, u: Tid, b: Blk)
    requires Inv(s) && u in s.threads && s.threads[u].pc.Look? && StepBy(s, s', u, b)
    ensures Inv(s')
  {
    ThreadAt(s, u);
    var x := s.threads[u];
    OnwardOk(s, x.bn, x.pc.sl);
    hide Inv, Value, Home, OnWay, Reached, Onward;
    LocalStep(s, s', u, s'.threads[u].pc);
  }

  /** Knowing that a slot is filled, a call knows enough to go on. */
  lemma OnwardOk(s: State, bn: nat, sl: Slot)
    requires OnWay(bn, sl) && Reached(s.tree, sl)
    ensures Value(s.tree, sl) != 0 ==>
              ThreadOk(s, Thread(bn, Onward(bn, sl, Value(s.tree, sl)))) && !Onward(bn, sl, Value(s.tree, sl)).Write?
              && forall a :: !Holds(Onward(bn, sl, Value(s.tree, sl)), a)
  {
  }

  lemma CheckStep(s: State, s': State, u: Tid, b: Blk)
    requires Inv(s) && u in s.threads && (s.threads[u].pc.Check? || s.threads[u].pc.Load?) && StepBy(s, s', u, b)
    ensures Inv(s')
  {
    ThreadAt(s, u);
    assert ShapeOk(s.tree);
    LocalStep(s, s', u, s'.threads[u].pc);
  }

  lemma FreeStep(s: State, s': State, u: Tid, b: Blk)
    requires Inv(s) && u in s.threads && s.threads[u].pc.Free? && StepBy(s, s', u, b)
    ensures Inv(s')
  {
    ThreadAt(s, u);
    CasHeld(s, u);
    hide Value, Entry, ShapeOk;
    forall w | w in s'.threads ensures ThreadOk(s', s'.threads[w]) {
      if w != u {
        hide ThreadOk;
        ThreadSame(s, s', s.threads[w]);
      }
    }
    hide ThreadOk;
    PendingKept(s, s', u);
    OwnersDrop(s, s', u);
  }

  lemma OwnersDrop(s: State, s': State, u: Tid)
    requires OwnersOk(s) && u in s.threads && s.threads[u].pc.Free? && s'.owner == s.owner - {s.threads[u].pc.b}
    requires s'.tree == s.tree && u in s'.threads && s'.threads == s.threads[u := s'.threads[u]]
    requires forall a :: !Holds(s'.threads[u].pc, a)
    ensures OwnersOk(s')
  {
    hide Value;
    var b := s.threads[u].pc.b;
    assert Holds(s.threads[u].pc, b);
    forall w, a | w in s'.threads && Holds(s'.threads[w].pc, a) ensures a in s'.owner && s'.owner[a] == HeldBy(w) {
      assert w != u && s.owner[a] == HeldBy(w);
    }
  }

  /** A block comes into its slot. */
  lemma OwnersPut(s: State, s': State, u: Tid, sl: Slot, b: Blk)
    requires OwnersOk(s) && IsSlot(sl) && b != 0 && Value(s.tree, sl) == 0 && Value(s'.tree, sl) == b
    requires forall x :: IsSlot(x) && x != sl ==> Value(s'.tree, x) == Value(s.tree, x)
    requires s'.owner == s.owner[b := InSlot(sl)] && (b in s.owner ==> s.owner[b] == HeldBy(u)) && InNoSlot(s.tree, b)
    requires u in s.threads && u in s'.threads && s'.threads == s.threads[u := s'.threads[u]]
    requires (forall a :: !Holds(s'.threads[u].pc, a)) && (forall a :: Holds(s.threads[u].pc, a) ==> a == b)
    ensures OwnersOk(s')
  {
    hide Value;
    forall w, a | w in s'.threads && Holds(s'.threads[w].pc, a) ensures a in s'.owner && s'.owner[a] == HeldBy(w) {
      assert w != u && s.owner[a] == HeldBy(w);
    }
  }

  /** A new entry in the cache is pending until it is on disk; other new blocks leave it alone. */
  lemma CachePut(s: State, s': State, u: Tid, sl: Slot, b: Blk)
    requires CacheOk(s) && ShapeOk(s.tree) && OwnersOk(s) && IsSlot(sl) && Value(s.tree, sl) == 0 && Reached(s.tree, sl)
    requires s'.tree == Put(s.tree, sl, b) && u in s.threads && u in s'.threads
    requires sl.Ind? ==> s'.threads[u].pc == Write(sl.j, b)
    requires forall j, a :: Pending(s, j, a) ==> Pending(s', j, a)
    ensures CacheOk(s')
  {
    var t, t' := s.tree, s'.tree;
    if t.iaddrs.Some? {
      var top := TopAt(t, NDIRECT);
      assert Value(t, Top(NDIRECT)) == top && Value(t, Top(NDIRECT + 1)) == TopAt(t, NDIRECT + 1);
      SlotsDiffer(s, Top(NDIRECT), Top(NDIRECT + 1));
      if sl.Leaf? {
        SlotsDiffer(s, Top(NDIRECT), Dbl(sl.i));
      }
      forall j | 0 <= j < NINDIRECT
        ensures var (c, d) := (Value(t', Ind(j)), Entry(t', TopAt(t', NDIRECT), j));
                c == d || (d == 0 && Pending(s', j, c))
      {
        assert Entry(t', TopAt(t', NDIRECT), j) == Entry(t, top, j);
        if sl == Ind(j) {
          assert Pending(s', j, b);
        }
      }
    }
  }

  lemma WonOk(s: State, bn: nat, sl: Slot, b: Blk)
    requires OnWay(bn, sl) && Reached(s.tree, sl) && b != 0 && Value(s.tree, sl) == b && IsSlot(sl)
    ensures ThreadOk(s, Thread(bn, Won(bn, sl, b))) && forall a :: !Holds(Won(bn, sl, b), a)
  {
  }

  lemma CasStep(s: State, s': State, u: Tid, b: Blk)
    requires Inv(s) && u in s.threads && s.threads[u].pc.Cas? && StepBy(s, s', u, b)
    ensures Inv(s')
  {
    ThreadAt(s, u);
    CasHeld(s, u);
    var bn, sl, a := s.threads[u].bn, s.threads[u].pc.sl, s.threads[u].pc.b;
    OnWayIsSlot(bn, sl);
    hide Value, Entry, Home, OnWay, Put, Won, ShapeOk;
    if Value(s.tree, sl) == 0 {
      PutOk(s, sl, a);
      assert s'.tree == Put(s.tree, sl, a);
      ReachedStays(s.tree, s'.tree, Some(sl), bn, sl);
      WonOk(s', bn, sl, a);
      Others(s, s', u, Some(sl));
      OwnersPut(s, s', u, sl, a);
      PendingKept(s, s', u);
      assert sl.Ind? ==> s'.threads[u].pc == Write(sl.j, a) by { WonInd(bn, sl, a); }
      CachePut(s, s', u, sl, a);
    } else {
      LocalStep(s, s', u, Free(sl, a));
    }
  }

  lemma WonInd(bn: nat, sl: Slot, b: Blk)
    ensures sl.Ind? ==> Won(bn, sl, b) == Write(sl.j, b)
  {
  }

  lemma FillStep(s: State, s': State, u: Tid, b: Blk)
    requires Inv(s) && u in s.threads && s.threads[u].pc.Fill? && StepBy(s, s', u, b)
    ensures Inv(s')
  {
    ThreadAt(s, u);
    var bn, sl := s.threads[u].bn, s.threads[u].pc.sl;
    OnWayIsSlot(bn, sl);
    if Value(s.tree, sl) == 0 {
      NotInSlot(s, b);
      ZeroOk(s.tree, b);
      SameTree(s.tree);
      hide Value, Entry, Home, OnWay, Put, ShapeOk, Zeros;
      var t := Zeroed(s.tree, sl, b);
      var mid := s.(tree := t);
      assert Grew(s.tree, t, None) && ShapeOk(t) && InNoSlot(t, b);
      ReachedStays(s.tree, t, None, bn, sl);
      assert OwnersOk(mid) by { OwnersSame(s, mid); }
      PutOk(mid, sl, b);
      assert s'.tree == Put(t, sl, b);
      GrewBoth(s.tree, t, s'.tree, sl);
      ReachedStays(s.tree, s'.tree, Some(sl), bn, sl);
      assert ThreadOk(s', s'.threads[u]);
      forall a | InNoSlot(s.tree, a) && a in s.owner ensures SameBlock(s.tree, s'.tree, a) {
        NoSlotStays(s.tree, t, a);
        assert SameBlock(s.tree, t, a) && SameBlock(t, s'.tree, a);
      }
      Others(s, s', u, Some(sl));
      hide ThreadOk;
      OwnersPut(s, s', u, sl, b);
      PendingKept(s, s', u);
      TopNot(s.tree, b);
      CacheKept(s, mid, b);
      CachePut(mid, s', u, sl, b);
    } else {
      hide Value, Home, OnWay;
      LocalStep(s, s', u, Look(sl));
    }
  }

  lemma OwnersSame(s: State, s': State)
    requires OwnersOk(s) && s'.owner == s.owner && s'.threads == s.threads
    requires forall sl :: IsSlot(sl) ==> Value(s'.tree, sl) == Value(s.tree, sl)
    ensures OwnersOk(s')
  {
    hide Value;
  }

  lemma NoSlotStays(t: Tree, t': Tree, b: Blk)
    requires Grew(t, t', None) && InNoSlot(t, b)
    ensures InNoSlot(t', b)
  {
    hide Value;
  }

  lemma GrewBoth(t: Tree, t1: Tree, t2: Tree, sl: Slot)
    requires Grew(t, t1, None) && Grew(t1, t2, Some(sl)) && IsSlot(sl)
    ensures Grew(t, t2, Some(sl))
  {
    assert Value(t1, Top(NDIRECT)) == Value(t, Top(NDIRECT));
    assert TopAt(t1, NDIRECT) == TopAt(t, NDIRECT);
    hide Value;
  }

  lemma CacheStep(s: State, s': State, u: Tid, b: Blk)
    requires Inv(s) && u in s.threads && s.threads[u].pc.Cache? && StepBy(s, s', u, b)
    ensures Inv(s')
  {
    ThreadAt(s, u);
    var t := s.tree;
    if t.iaddrs.None? {
      PublishOk(t, s.threads[u].pc.copy);
      hide Value, Home;
      Others(s, s', u, None);
      OwnersLocal(s, s', u);
      assert CacheOk(s') by { Published(s'.tree); }
    } else {
      hide Value, Home;
      LocalStep(s, s', u, Check);
    }
  }

  lemma Published(t: Tree)
    requires ShapeOk(t) && t.iaddrs.Some? && t.iaddrs.value == t.blocks[TopAt(t, NDIRECT)]
    ensures forall j :: 0 <= j < NINDIRECT ==> Value(t, Ind(j)) == Entry(t, TopAt(t, NDIRECT), j)
  {
  }

  lemma OwnersLocal(s: State, s': State, u: Tid)
    requires OwnersOk(s) && s'.owner == s.owner && u in s.threads && u in s'.threads
    requires s'.threads == s.threads[u := s'.threads[u]]
    requires forall a :: !Holds(s.threads[u].pc, a) && !Holds(s'.threads[u].pc, a)
    requires forall sl :: IsSlot(sl) ==> Value(s'.tree, sl) == Value(s.tree, sl)
    ensures OwnersOk(s')
  {
    hide Value;
  }

  lemma WriteStep(s: State, s': State, u: Tid, b: Blk)
    requires Inv(s) && u in s.threads && s.threads[u].pc.Write? && StepBy(s, s', u, b)
    ensures Inv(s')
  {
    hide Value, Entry, Home, Inv, OwnersOk, ShapeOk, CacheOk, InNoSlot, SetEntry;
    ThreadAt(s, u);
    InvParts(s);
    var bn, j, a := s.threads[u].bn, s.threads[u].pc.j, s.threads[u].pc.b;
    HomeIsSlot(bn);
    WriteOk(s, j, a);
    assert Value(s'.tree, Ind(j)) == Value(s.tree, Ind(j));
    Others(s, s', u, None);
    hide ThreadOk;
    OwnersLocal(s, s', u);
    WrittenCache(s, s', u, j, a);
    InvTogether(s');
  }

  lemma InvParts(s: State)
    requires Inv(s)
    ensures ShapeOk(s.tree) && OwnersOk(s) && CacheOk(s)
  {
  }

  lemma InvTogether(s: State)
    requires ShapeOk(s.tree) && OwnersOk(s) && CacheOk(s) && forall u :: u in s.threads ==> ThreadOk(s, s.threads[u])
    ensures Inv(s)
  {
  }

  lemma WrittenCache(s: State, s': State, u: Tid, j: nat, a: Blk)
    requires CacheOk(s) && s.tree.iaddrs.Some? && u in s.threads && s.threads[u].pc == Write(j, a)
    requires Value(s.tree, Ind(j)) == a
    requires forall w :: w in s.threads && w != u ==> w in s'.threads && s'.threads[w] == s.threads[w]
    requires forall x :: 0 <= x < NINDIRECT ==> Value(s'.tree, Ind(x)) == Value(s.tree, Ind(x))
    requires forall x :: 0 <= x < NINDIRECT ==>
               Entry(s'.tree, TopAt(s'.tree, NDIRECT), x) ==
               if x == j then a else Entry(s.tree, TopAt(s.tree, NDIRECT), x)
    ensures CacheOk(s')
  {
    hide Value, Entry;
    forall x | 0 <= x < NINDIRECT
      ensures var (c, d) := (Value(s'.tree, Ind(x)), Entry(s'.tree, TopAt(s'.tree, NDIRECT), x));
              c == d || (d == 0 && Pending(s', x, c))
    {
      var c := Value(s.tree, Ind(x));
      if x != j && Pending(s, x, c) {
        var w :| w in s.threads && s.threads[w].pc == Write(x, c);
        assert s'.threads[w].pc == Write(x, c);
      }
    }
  }

  /** Every step of every call keeps the invariant. */
  lemma StepKeepsInv(s: State, s': State, u: Tid, b: Blk)
    requires Inv(s) && u in s.threads && StepBy(s, s', u, b)
    ensures Inv(s')
  {
    hide Inv;
    match s.threads[u].pc
    case Look(_) => LookStep(s, s', u, b);
    case Alloc(_) => AllocStep(s, s', u, b);
    case Cas(_, _) => CasStep(s, s', u, b);
    case Free(_, _) => FreeStep(s, s', u, b);
    case Check => CheckStep(s, s', u, b);
    case Load(_) => CheckStep(s, s', u, b);
    case Cache(_) => CacheStep(s, s', u, b);
    case Write(_, _) => WriteStep(s, s', u, b);
    case Fill(_) => FillStep(s, s', u, b);
    case _ =>
  }
}
