/**
 itrunc of attic/fs.cc: shortening a file frees every data block beyond the new end
 and every index block that lies wholly beyond it, in place, with or without the
 cached copy of the indirect block.
 */
module Truncate {
  import opened Options
  import opened BlockMap

  const BSIZE: nat := 4096

  /** BLOCKROUNDUP */
  function RoundUp(offset: nat): nat {
    (offset + BSIZE - 1) / BSIZE
  }

  /** The first file block that needs this slot. */
  function First(sl: Slot): nat {
    match sl
    case Top(i) => if i <= NDIRECT then i else NDIRECT + NINDIRECT
    case Ind(j) => NDIRECT + j
    case Dbl(i) => NDIRECT + NINDIRECT + i * NINDIRECT
    case Leaf(i, j) => NDIRECT + NINDIRECT + i * NINDIRECT + j
  }

  /** File block `bn`'s own slot is the last one it needs. */
  lemma FirstOfHome(bn: nat)
    requires Home(bn).Some?
    ensures First(Home(bn).value) == bn
  {
  }

  /** `n` blocks before the cut, seen from file block `from` on. */
  function Within(from: nat, offset: nat): nat {
    if offset >= from * BSIZE then RoundUp(offset - from * BSIZE) else 0
  }

  lemma WithinIs(from: nat, offset: nat)
    ensures Within(from, offset) == if RoundUp(offset) <= from then 0 else RoundUp(offset) - from
  {
  }

  // ----------------------------------------------------------------------
  // What has been cleared so far
  // ----------------------------------------------------------------------

  /** No block is in two slots. */
  ghost predicate Distinct(t: Tree) {
    forall a, b :: IsSlot(a) && IsSlot(b) && a != b && Value(t, a) != 0 ==> Value(t, a) != Value(t, b)
  }

  /** Trees that bmap leaves behind, whatever calls ran, are fit for truncation. */
  lemma LeftByBmap(s: State)
    requires BlockMap.Inv(s)
    ensures ShapeOk(s.tree) && Distinct(s.tree)
  {
    forall a, b | IsSlot(a) && IsSlot(b) && a != b && Value(s.tree, a) != 0
      ensures Value(s.tree, a) != Value(s.tree, b)
    {
      hide Value;
      SlotsDiffer(s, a, b);
    }
  }

  ghost predicate NoRepeats(s: seq<Blk>) {
    forall i, j :: 0 <= i < j < |s| ==> s[i] != s[j]
  }

  /** From `was` to `now`, slots at or beyond the cut were emptied and nothing else changed, and
      exactly their blocks were freed, each once. */
  ghost predicate Cleared(was: Tree, now: Tree, freed: seq<Blk>, cut: nat) {
    && (forall sl :: IsSlot(sl) ==> Value(now, sl) == Value(was, sl) || (Value(now, sl) == 0 && First(sl) >= cut))
    && (forall sl :: IsSlot(sl) && Value(was, sl) != 0 && Value(now, sl) == 0 ==> Value(was, sl) in freed)
    && (forall b :: b in freed ==> b != 0 && exists sl :: IsSlot(sl) && Value(was, sl) == b && Value(now, sl) == 0)
    && NoRepeats(freed)
  }

  /** Every slot that serves only blocks at or beyond the cut is empty, every other as it was. */
  ghost predicate Truncated(was: Tree, now: Tree, cut: nat) {
    forall sl :: IsSlot(sl) ==> Value(now, sl) == if First(sl) >= cut then 0 else Value(was, sl)
  }

  lemma ClearSlot(was: Tree, now: Tree, now': Tree, freed: seq<Blk>, cut: nat, sl: Slot)
    requires Distinct(was) && Cleared(was, now, freed, cut) && IsSlot(sl) && Value(now, sl) != 0 && First(sl) >= cut
    requires Value(now', sl) == 0 && forall x :: IsSlot(x) && x != sl ==> Value(now', x) == Value(now, x)
    ensures Cleared(was, now', freed + [Value(now, sl)], cut)
  {
    hide Value, First;
    var b := Value(now, sl);
    assert Value(was, sl) == b;
    forall c | c in freed + [b] ensures c != 0 && exists x :: IsSlot(x) && Value(was, x) == c && Value(now', x) == 0 {
      if c in freed {
        var x :| IsSlot(x) && Value(was, x) == c && Value(now, x) == 0;
        assert Value(now', x) == 0;
      } else {
        assert Value(was, sl) == c && Value(now', sl) == 0;
      }
    }
    assert b !in freed by {
      forall x | IsSlot(x) && Value(was, x) == b ensures Value(now, x) != 0 {
        assert x == sl;
      }
    }
  }

  lemma StillDistinct(was: Tree, now: Tree, freed: seq<Blk>, cut: nat)
    requires Distinct(was) && Cleared(was, now, freed, cut)
    ensures Distinct(now)
  {
    hide Value, First;
  }

  lemma NothingCleared(t: Tree, cut: nat)
    ensures Cleared(t, t, [], cut)
  {
    hide Value;
  }

  // ----------------------------------------------------------------------
  // What the stores do to the tree
  // ----------------------------------------------------------------------

  ghost predicate Empties(t: Tree, t': Tree, sl: Slot) {
    && ShapeOk(t') && Value(t', sl) == 0 && forall x :: IsSlot(x) && x != sl ==> Value(t', x) == Value(t, x)
  }

  /** Nothing hangs below the slot any more. */
  ghost predicate Bare(t: Tree, sl: Slot) {
    match sl
    case Top(i) =>
      && (i == NDIRECT ==> t.iaddrs.None? && forall j :: 0 <= j < NINDIRECT ==> Value(t, Ind(j)) == 0)
      && (i == NDIRECT + 1 ==> forall x :: 0 <= x < NINDIRECT ==> Value(t, Dbl(x)) == 0)
    case Dbl(i) => forall j :: 0 <= j < NINDIRECT ==> Value(t, Leaf(i, j)) == 0
    case _ => true
  }

  lemma EmptyTop(t: Tree, i: nat)
    requires ShapeOk(t) && i < NDIRECT + 2 && Bare(t, Top(i))
    ensures Empties(t, SetTop(t, i, 0), Top(i))
  {
    var t' := SetTop(t, i, 0);
    forall x | 0 <= x < NINDIRECT ensures Value(t', Dbl(x)) == Value(t, Dbl(x)) && IndexOk(t', Value(t', Dbl(x))) {
      assert IndexOk(t, Value(t, Dbl(x)));
    }
    forall sl | IsSlot(sl) && sl != Top(i) ensures Value(t', sl) == Value(t, sl) {
      match sl
      case Leaf(x, j) => assert Value(t', Dbl(x)) == Value(t, Dbl(x));
      case Ind(j) => assert i == NDIRECT ==> Value(t, Ind(j)) == 0;
      case _ =>
    }
  }

  lemma EmptyInd(t: Tree, j: nat)
    requires ShapeOk(t) && Distinct(t) && j < NINDIRECT && t.iaddrs.None? && TopAt(t, NDIRECT) != 0
    ensures Empties(t, SetEntry(t, TopAt(t, NDIRECT), j, 0), Ind(j))
  {
    var top := TopAt(t, NDIRECT);
    var t' := SetEntry(t, top, j, 0);
    assert Value(t, Top(NDIRECT)) == top && Value(t, Top(NDIRECT + 1)) == TopAt(t, NDIRECT + 1)
           && TopAt(t, NDIRECT + 1) != top;
    forall x | 0 <= x < NINDIRECT
      ensures Value(t', Dbl(x)) == Value(t, Dbl(x)) && IndexOk(t', Value(t', Dbl(x))) && Value(t, Dbl(x)) != top {
      assert IndexOk(t, Value(t, Dbl(x)));
      assert Value(t, Top(NDIRECT)) != Value(t, Dbl(x));
    }
    forall sl | IsSlot(sl) && sl != Ind(j) ensures Value(t', sl) == Value(t, sl) {
      match sl
      case Leaf(x, y) => assert Value(t', Dbl(x)) == Value(t, Dbl(x)) && Value(t, Dbl(x)) != top;
      case _ =>
    }
  }

  lemma EmptyDbl(t: Tree, i: nat)
    requires ShapeOk(t) && Distinct(t) && i < NINDIRECT && TopAt(t, NDIRECT + 1) != 0 && Bare(t, Dbl(i))
    ensures Empties(t, SetEntry(t, TopAt(t, NDIRECT + 1), i, 0), Dbl(i))
  {
    var top := TopAt(t, NDIRECT + 1);
    var t' := SetEntry(t, top, i, 0);
    assert Value(t, Top(NDIRECT + 1)) == top && Value(t, Top(NDIRECT)) == TopAt(t, NDIRECT) && TopAt(t, NDIRECT) != top;
    forall x | 0 <= x < NINDIRECT
      ensures (x != i ==> Value(t', Dbl(x)) == Value(t, Dbl(x))) && IndexOk(t', Value(t', Dbl(x)))
      ensures Value(t, Dbl(x)) != top
    {
      assert IndexOk(t, Value(t, Dbl(x)));
      assert Value(t, Top(NDIRECT + 1)) != Value(t, Dbl(x));
    }
    forall sl | IsSlot(sl) && sl != Dbl(i) ensures Value(t', sl) == Value(t, sl) {
      match sl
      case Leaf(x, y) =>
        assert x != i ==> Value(t', Dbl(x)) == Value(t, Dbl(x));
        assert x == i ==> Value(t, Leaf(i, y)) == 0;
        assert Value(t, Dbl(x)) != top;
      case _ =>
    }
  }

  lemma EmptyLeaf(t: Tree, i: nat, j: nat)
    requires ShapeOk(t) && Distinct(t) && i < NINDIRECT && j < NINDIRECT && Value(t, Dbl(i)) != 0
    ensures Empties(t, SetEntry(t, Value(t, Dbl(i)), j, 0), Leaf(i, j))
  {
    var blk := Value(t, Dbl(i));
    var t' := SetEntry(t, blk, j, 0);
    assert IndexOk(t, blk);
    assert Value(t, Top(NDIRECT + 1)) == TopAt(t, NDIRECT + 1) && Value(t, Top(NDIRECT)) == TopAt(t, NDIRECT);
    assert blk != TopAt(t, NDIRECT) && blk != TopAt(t, NDIRECT + 1);
    forall x | 0 <= x < NINDIRECT
      ensures Value(t', Dbl(x)) == Value(t, Dbl(x)) && IndexOk(t', Value(t', Dbl(x)))
      ensures (x != i ==> Value(t, Dbl(x)) != blk)
    {
      assert IndexOk(t, Value(t, Dbl(x)));
      assert x != i ==> Value(t, Dbl(i)) != Value(t, Dbl(x));
    }
    forall sl | IsSlot(sl) && sl != Leaf(i, j) ensures Value(t', sl) == Value(t, sl) {
      match sl
      case Leaf(x, y) =>
        assert Value(t', Dbl(x)) == Value(t, Dbl(x)) && (x != i ==> Value(t, Dbl(x)) != blk);
      case _ =>
    }
  }

  /** Writing the cache back to the indirect block and dropping it changes no slot. */
  function WriteBack(t: Tree): Tree {
    Tree(t.addrs, None,
         if t.iaddrs.Some? && TopAt(t, NDIRECT) != 0 then t.blocks[TopAt(t, NDIRECT) := t.iaddrs.value] else t.blocks)
  }

  lemma WriteBackOk(t: Tree)
    requires ShapeOk(t) && Distinct(t)
    ensures ShapeOk(WriteBack(t)) && forall sl :: IsSlot(sl) ==> Value(WriteBack(t), sl) == Value(t, sl)
  {
    var t' := WriteBack(t);
    var top := TopAt(t, NDIRECT);
    assert Value(t, Top(NDIRECT)) == top && Value(t, Top(NDIRECT + 1)) == TopAt(t, NDIRECT + 1);
    assert top != 0 ==> TopAt(t, NDIRECT + 1) != top;
    forall x | 0 <= x < NINDIRECT
      ensures Value(t', Dbl(x)) == Value(t, Dbl(x)) && IndexOk(t', Value(t', Dbl(x)))
      ensures (top != 0 ==> Value(t, Dbl(x)) != top)
    {
      assert IndexOk(t, Value(t, Dbl(x)));
      assert top != 0 ==> Value(t, Top(NDIRECT)) != Value(t, Dbl(x));
    }
    forall sl | IsSlot(sl) ensures Value(t', sl) == Value(t, sl) {
      match sl
      case Leaf(x, y) => assert Value(t', Dbl(x)) == Value(t, Dbl(x)) && (top != 0 ==> Value(t, Dbl(x)) != top);
      case _ =>
    }
  }

  lemma SameCleared(was: Tree, now: Tree, now': Tree, freed: seq<Blk>, cut: nat)
    requires Cleared(was, now, freed, cut) && forall sl :: IsSlot(sl) ==> Value(now', sl) == Value(now, sl)
    ensures Cleared(was, now', freed, cut)
  {
    hide Value, First;
    forall b | b in freed ensures b != 0 && exists sl :: IsSlot(sl) && Value(was, sl) == b && Value(now', sl) == 0 {
      var sl :| IsSlot(sl) && Value(was, sl) == b && Value(now, sl) == 0;
      assert Value(now', sl) == 0;
    }
  }

  /** All stages done: every slot beyond the cut is empty, every other as before. */
  lemma AllCleared(was: Tree, mid: Tree, now: Tree, freed: seq<Blk>, cut: nat)
    requires Cleared(was, now, freed, cut)
    requires forall i :: cut <= i < NDIRECT + 2 && i != NDIRECT + 1 ==> Value(mid, Top(i)) == 0
    requires forall j :: 0 <= j < NINDIRECT && NDIRECT + j >= cut ==> Value(mid, Ind(j)) == 0
    requires forall sl :: IsSlot(sl) && (sl.Ind? || (sl.Top? && sl.i != NDIRECT + 1)) ==>
      Value(now, sl) == Value(mid, sl)
    requires cut <= NDIRECT + NINDIRECT ==> Value(now, Top(NDIRECT + 1)) == 0
    requires forall sl :: IsSlot(sl) && (sl.Dbl? || sl.Leaf?) && First(sl) >= cut ==> Value(now, sl) == 0
    ensures Truncated(was, now, cut)
  {
    hide Value;
    forall sl | IsSlot(sl) ensures Value(now, sl) == if First(sl) >= cut then 0 else Value(was, sl) {
      if First(sl) >= cut && (sl.Top? || sl.Ind?) {
        assert Value(now, sl) == 0;
      }
    }
  }

  // ----------------------------------------------------------------------
  // Index blocks that are kept without need
  // ----------------------------------------------------------------------

  /** `e` is an entry of the index block in slot `sl`. */
  predicate EntryOf(e: Slot, sl: Slot) {
    match sl
    case Top(i) => IsSlot(e) && ((i == NDIRECT && e.Ind?) || (i == NDIRECT + 1 && e.Dbl?))
    case Dbl(i) => IsSlot(e) && e.Leaf? && e.i == i
    case _ => false
  }

  /** No entry of the index block is in use. */
  ghost predicate NoEntries(t: Tree, sl: Slot) {
    forall e :: EntryOf(e, sl) ==> Value(t, e) == 0
  }

  /** An index block is freed exactly if it starts at or beyond the cut; so one without entries is kept
      exactly if it starts before the cut and none of its entries before the cut was in use. */
  lemma IndexBlockFreedIff(was: Tree, now: Tree, cut: nat, sl: Slot)
    requires Truncated(was, now, cut) && IsSlot(sl) && IsIndex(sl) && Value(was, sl) != 0
    ensures Value(now, sl) == 0 <==> First(sl) >= cut
    ensures Value(now, sl) == 0 ==> NoEntries(now, sl)
    ensures Value(now, sl) != 0 && NoEntries(now, sl)
            <==> First(sl) < cut && forall e :: EntryOf(e, sl) && First(e) < cut ==> Value(was, e) == 0
  {
    forall e | EntryOf(e, sl)
      ensures First(e) >= First(sl) && Value(now, e) == if First(e) >= cut then 0 else Value(was, e)
    {
    }
    hide Value, First, EntryOf;
    if forall e :: EntryOf(e, sl) && First(e) < cut ==> Value(was, e) == 0 {
      forall e | EntryOf(e, sl) ensures Value(now, e) == 0 {
      }
    }
    if NoEntries(now, sl) {
      forall e | EntryOf(e, sl) && First(e) < cut ensures Value(was, e) == 0 {
        assert Value(now, e) == 0;
      }
    }
  }

  /** For example: a file with block 15 only, cut to 12 blocks, keeps an indirect block without entries. */
  lemma KeptEmptyExample(offset: nat) returns (was: Tree)
    requires RoundUp(offset) == 12
    ensures ShapeOk(was) && Distinct(was) && Value(was, Home(15).value) != 0
    ensures forall now :: Truncated(was, now, RoundUp(offset)) ==>
      Value(now, Top(NDIRECT)) != 0 && NoEntries(now, Top(NDIRECT))
  {
    var entries: seq<Blk> := Zeros()[5 := 2];
    was := Tree(seq(NDIRECT + 2, _ => 0)[NDIRECT := 1], None, map[1 := entries]);
    assert forall sl :: IsSlot(sl) ==>
      Value(was, sl) == if sl == Top(NDIRECT) then 1 else if sl == Ind(5) then 2 else 0;
    forall now | Truncated(was, now, 12) ensures Value(now, Top(NDIRECT)) != 0 && NoEntries(now, Top(NDIRECT)) {
      IndexBlockFreedIff(was, now, 12, Top(NDIRECT));
    }
  }

  // ----------------------------------------------------------------------
  // itrunc
  // ----------------------------------------------------------------------

  class Inode {
    var addrs: seq<Blk>
    var iaddrs: Option<seq<Blk>>
    var blocks: map<Blk, seq<Blk>>    // index blocks, as the buffer cache has them
    var size: nat

    ghost function Now(): Tree
      reads this
    {
      Tree(addrs, iaddrs, blocks)
    }

    /** The tree with the cached copy out of the way. */
    ghost function View(): Tree
      reads this
    {
      Tree(addrs, None, blocks)
    }

    ghost predicate Doing(was: Tree, t: Tree, freed: seq<Blk>, cut: nat) {
      ShapeOk(t) && Distinct(t) && Distinct(was) && Cleared(was, t, freed, cut)
    }

    /** One slot emptied and its block freed. */
    lemma Emptied(was: Tree, t: Tree, t': Tree, freed: seq<Blk>, cut: nat, sl: Slot)
      requires Doing(was, t, freed, cut) && IsSlot(sl) && Value(t, sl) != 0 && First(sl) >= cut && Empties(t, t', sl)
      ensures Doing(was, t', freed + [Value(t, sl)], cut)
    {
      hide Value, First, Cleared, Distinct;
      ClearSlot(was, t, t', freed, cut, sl);
      StillDistinct(was, t', freed + [Value(t, sl)], cut);
    }

    method ClearDirect(cut: nat, freed0: seq<Blk>, ghost was: Tree) returns (freed: seq<Blk>)
      requires Doing(was, Now(), freed0, cut)
      modifies `addrs
      ensures Doing(was, Now(), freed, cut) && forall i :: cut <= i < NDIRECT ==> addrs[i] == 0
    {
      hide Cleared, Distinct, Empties;
      freed := freed0;
      var i := cut;
      while i < NDIRECT
        invariant cut <= i && Doing(was, Now(), freed, cut)
        invariant forall j :: cut <= j < i && j < NDIRECT ==> addrs[j] == 0
      {
        if addrs[i] != 0 {
          EmptyTop(Now(), i);
          Emptied(was, Now(), SetTop(Now(), i, 0), freed, cut, Top(i));
          freed := freed + [addrs[i]];
          addrs := addrs[i := 0];
        }
        i := i + 1;
      }
    }

    /** The loop over the entries of the indirect block. */
    method ClearEntries(start: nat, freed0: seq<Blk>, ghost was: Tree, ghost cut: nat) returns (freed: seq<Blk>)
      requires Doing(was, View(), freed0, cut) && addrs[NDIRECT] != 0 && NDIRECT + start >= cut
      modifies `blocks
      ensures Doing(was, View(), freed, cut)
      ensures forall j :: start <= j < NINDIRECT ==> Value(View(), Ind(j)) == 0
    {
      hide Cleared, Distinct, Empties;
      freed := freed0;
      var i := start;
      while i < NINDIRECT
        invariant start <= i && Doing(was, View(), freed, cut)
        invariant forall j :: start <= j < i && j < NINDIRECT ==> Value(View(), Ind(j)) == 0
      {
        var top := addrs[NDIRECT];
        var a := blocks[top];
        if a[i] != 0 {
          EmptyInd(View(), i);
          ghost var t := View();
          Emptied(was, t, SetEntry(t, top, i, 0), freed, cut, Ind(i));
          freed := freed + [a[i]];
          var a': seq<Blk> := a[i := 0];
          blocks := blocks[top := a'];
          assert View() == SetEntry(t, top, i, 0);
        }
        i := i + 1;
      }
    }

    method ClearIndirect(offset: nat, freed0: seq<Blk>, ghost was: Tree) returns (freed: seq<Blk>)
      requires Doing(was, Now(), freed0, RoundUp(offset))
      modifies `addrs, `iaddrs, `blocks
      ensures iaddrs.None? && Doing(was, Now(), freed, RoundUp(offset))
      ensures forall j :: 0 <= j < NINDIRECT && NDIRECT + j >= RoundUp(offset) ==> Value(Now(), Ind(j)) == 0
      ensures RoundUp(offset) <= NDIRECT ==> addrs[NDIRECT] == 0
      ensures forall i :: 0 <= i < NDIRECT + 2 && i != NDIRECT ==> addrs[i] == old(addrs[i])
    {
      hide Cleared, Distinct, Empties;
      freed := freed0;
      ghost var cut := RoundUp(offset);
      WithinIs(NDIRECT, offset);
      if addrs[NDIRECT] != 0 {
        var start := Within(NDIRECT, offset);
        WriteBackOk(Now());
        BackDoing(was, Now(), freed, cut);
        if iaddrs.Some? {
          blocks := blocks[addrs[NDIRECT] := iaddrs.value];
        }
        freed := ClearEntries(start, freed, was, cut);
        if start == 0 {
          EmptyTop(View(), NDIRECT);
          Emptied(was, View(), SetTop(View(), NDIRECT, 0), freed, cut, Top(NDIRECT));
          freed := freed + [addrs[NDIRECT]];
          addrs := addrs[NDIRECT := 0];
          EmptyIndirect(View());
        }
        if iaddrs.Some? {
          iaddrs := None;
        }
      } else {
        EmptyIndirect(Now());
      }
    }

    lemma EmptyIndirect(t: Tree)
      requires TopAt(t, NDIRECT) == 0 && t.iaddrs.None?
      ensures forall j :: 0 <= j < NINDIRECT ==> Value(t, Ind(j)) == 0
    {
    }

    lemma BackDoing(was: Tree, t: Tree, freed: seq<Blk>, cut: nat)
      requires Doing(was, t, freed, cut)
      ensures Doing(was, WriteBack(t), freed, cut)
    {
      hide Value, First;
      WriteBackOk(t);
      hide Cleared;
      SameCleared(was, t, WriteBack(t), freed, cut);
    }

    /** The inner loop, over the entries of the block that Dbl(i) names. */
    method ClearLeaves(i: nat, start: nat, freed0: seq<Blk>, ghost was: Tree, ghost cut: nat) returns (freed: seq<Blk>)
      requires Doing(was, View(), freed0, cut) && addrs[NDIRECT + 1] != 0 && i < NINDIRECT
      requires Value(View(), Dbl(i)) != 0 && First(Leaf(i, start)) >= cut
      modifies `blocks
      ensures Doing(was, View(), freed, cut)
      ensures forall j :: start <= j < NINDIRECT ==> Value(View(), Leaf(i, j)) == 0
      ensures forall sl :: IsSlot(sl) && !(sl.Leaf? && sl.i == i) ==> Value(View(), sl) == old(Value(View(), sl))
    {
      hide Cleared, Distinct, First;
      freed := freed0;
      var j := start;
      while j < NINDIRECT
        invariant start <= j && Doing(was, View(), freed, cut)
        invariant forall x :: start <= x < j && x < NINDIRECT ==> Value(View(), Leaf(i, x)) == 0
        invariant forall sl :: IsSlot(sl) && !(sl.Leaf? && sl.i == i) ==> Value(View(), sl) == old(Value(View(), sl))
      {
        assert Value(View(), Dbl(i)) != 0 && IndexOk(View(), Value(View(), Dbl(i)));
        var a1 := blocks[addrs[NDIRECT + 1]];
        var a2 := blocks[a1[i]];
        if a2[j] != 0 {
          ghost var t := View();
          freed := FreeLeaf(i, j, freed, was, cut, start);
          assert forall sl :: IsSlot(sl) && sl != Leaf(i, j) ==> Value(View(), sl) == Value(t, sl);
        }
        j := j + 1;
      }
    }

    method FreeLeaf(i: nat, j: nat, freed0: seq<Blk>, ghost was: Tree, ghost cut: nat,
                    ghost start: nat) returns (freed: seq<Blk>)
      requires Doing(was, View(), freed0, cut) && addrs[NDIRECT + 1] != 0 && i < NINDIRECT && j < NINDIRECT
      requires Value(View(), Dbl(i)) != 0 && Value(View(), Leaf(i, j)) != 0 && First(Leaf(i, start)) >= cut
      requires start <= j
      modifies `blocks
      ensures Doing(was, View(), freed, cut) && Empties(old(View()), View(), Leaf(i, j))
    {
      hide Cleared, Distinct;
      ghost var t := View();
      assert IndexOk(t, Value(t, Dbl(i)));
      EmptyLeaf(t, i, j);
      var a1 := blocks[addrs[NDIRECT + 1]];
      var a2 := blocks[a1[i]];
      Emptied(was, t, SetEntry(t, a1[i], j, 0), freed0, cut, Leaf(i, j));
      freed := freed0 + [a2[j]];
      var a': seq<Blk> := a2[j := 0];
      blocks := blocks[a1[i] := a'];
    }

    method FreeDbl(i: nat, freed0: seq<Blk>, ghost was: Tree, ghost cut: nat) returns (freed: seq<Blk>)
      requires Doing(was, View(), freed0, cut) && addrs[NDIRECT + 1] != 0 && i < NINDIRECT
      requires Value(View(), Dbl(i)) != 0 && Bare(View(), Dbl(i)) && First(Dbl(i)) >= cut
      modifies `blocks
      ensures Doing(was, View(), freed, cut) && Empties(old(View()), View(), Dbl(i))
    {
      hide Cleared, Distinct;
      ghost var t := View();
      EmptyDbl(t, i);
      var top := addrs[NDIRECT + 1];
      var a1 := blocks[top];
      Emptied(was, t, SetEntry(t, top, i, 0), freed0, cut, Dbl(i));
      freed := freed0 + [a1[i]];
      var a': seq<Blk> := a1[i := 0];
      blocks := blocks[top := a'];
    }

    /** Nothing beyond the cut hangs below the first `n` entries of the doubly-indirect block. */
    ghost predicate DoneUpTo(t: Tree, n: nat, cut: nat) {
      forall sl :: IsSlot(sl) && (sl.Dbl? || sl.Leaf?) && sl.i < n && First(sl) >= cut ==> Value(t, sl) == 0
    }

    /** Entries before bno / NINDIRECT lie before the cut; the one there starts before it exactly if
        bno % NINDIRECT is not 0. */
    lemma Beyond(i: nat, j: nat, offset: nat)
      requires j < NINDIRECT
      ensures var (cut, bno) := (RoundUp(offset), Within(NDIRECT + NINDIRECT, offset));
              && (i < bno / NINDIRECT ==> First(Leaf(i, j)) < cut && First(Dbl(i)) < cut)
              && (i == bno / NINDIRECT ==> (First(Leaf(i, j)) >= cut <==> j >= bno % NINDIRECT))
              && (i == bno / NINDIRECT ==> (First(Dbl(i)) >= cut <==> bno % NINDIRECT == 0))
              && (i > bno / NINDIRECT ==> First(Leaf(i, j)) >= cut && First(Dbl(i)) >= cut)
              && (bno == 0 <==> cut <= NDIRECT + NINDIRECT)
    {
      WithinIs(NDIRECT + NINDIRECT, offset);
    }

    /** One turn of the outer loop. */
    method ClearDbl(i: nat, offset: nat, freed0: seq<Blk>, ghost was: Tree) returns (freed: seq<Blk>)
      requires Doing(was, View(), freed0, RoundUp(offset)) && addrs[NDIRECT + 1] != 0
      requires Within(NDIRECT + NINDIRECT, offset) / NINDIRECT <= i < NINDIRECT && DoneUpTo(View(), i, RoundUp(offset))
      modifies `blocks
      ensures Doing(was, View(), freed, RoundUp(offset)) && DoneUpTo(View(), i + 1, RoundUp(offset))
      ensures forall sl :: IsSlot(sl) && !sl.Leaf? && !sl.Dbl? ==> Value(View(), sl) == old(Value(View(), sl))
    {
      hide Cleared, Distinct;
      freed := freed0;
      ghost var cut := RoundUp(offset);
      var bno := Within(NDIRECT + NINDIRECT, offset);
      var a1 := blocks[addrs[NDIRECT + 1]];
      forall j: nat | j < NINDIRECT
        ensures First(Leaf(i, j)) >= cut <==> i > bno / NINDIRECT || j >= bno % NINDIRECT
        ensures First(Dbl(i)) >= cut <==> i > bno / NINDIRECT || bno % NINDIRECT == 0
      {
        Beyond(i, j, offset);
      }
      assert First(Leaf(i, 0)) == First(Dbl(i));
      if a1[i] == 0 {
        return;
      }
      var start := if i == bno / NINDIRECT then bno % NINDIRECT else 0;
      assert First(Leaf(i, start)) >= cut;
      hide First, RoundUp, Within;
      freed := ClearLeaves(i, start, freed, was, cut);
      if start == 0 {
        freed := FreeDbl(i, freed, was, cut);
      }
    }

    method ClearDouble(offset: nat, freed0: seq<Blk>, ghost was: Tree) returns (freed: seq<Blk>)
      requires iaddrs.None? && Doing(was, View(), freed0, RoundUp(offset))
      modifies `addrs, `blocks
      ensures Doing(was, View(), freed, RoundUp(offset)) && DoneUpTo(View(), NINDIRECT, RoundUp(offset))
      ensures RoundUp(offset) <= NDIRECT + NINDIRECT ==> addrs[NDIRECT + 1] == 0
      ensures forall sl :: IsSlot(sl) && (sl.Ind? || (sl.Top? && sl.i != NDIRECT + 1)) ==>
        Value(View(), sl) == old(Value(View(), sl))
    {
      hide Cleared, Distinct, RoundUp, Within, First;
      freed := freed0;
      ghost var cut := RoundUp(offset);
      if addrs[NDIRECT + 1] != 0 {
        var bno := Within(NDIRECT + NINDIRECT, offset);
        var i := bno / NINDIRECT;
        NothingBefore(View(), offset);
        Beyond(0, 0, offset);
        while i < NINDIRECT
          invariant bno / NINDIRECT <= i && Doing(was, View(), freed, cut) && DoneUpTo(View(), i, cut)
          invariant addrs == old(addrs)
          invariant forall sl :: IsSlot(sl) && !sl.Leaf? && !sl.Dbl? ==> Value(View(), sl) == old(Value(View(), sl))
        {
          freed := ClearDbl(i, offset, freed, was);
          i := i + 1;
        }
        if bno == 0 {
          AllBeyond(View(), offset);
          EmptyTop(View(), NDIRECT + 1);
          FirstTop(cut);
          Emptied(was, View(), SetTop(View(), NDIRECT + 1, 0), freed, cut, Top(NDIRECT + 1));
          freed := freed + [addrs[NDIRECT + 1]];
          addrs := addrs[NDIRECT + 1 := 0];
        }
      } else {
        NoDouble(View());
      }
    }

    lemma NoDouble(t: Tree)
      requires TopAt(t, NDIRECT + 1) == 0
      ensures forall sl :: IsSlot(sl) && (sl.Dbl? || sl.Leaf?) ==> Value(t, sl) == 0
    {
    }

    lemma FirstTop(cut: nat)
      requires cut <= NDIRECT + NINDIRECT
      ensures First(Top(NDIRECT + 1)) >= cut
    {
    }

    lemma NothingBefore(t: Tree, offset: nat)
      ensures DoneUpTo(t, Within(NDIRECT + NINDIRECT, offset) / NINDIRECT, RoundUp(offset))
    {
      hide Value;
      forall sl | IsSlot(sl) && (sl.Dbl? || sl.Leaf?) && sl.i < Within(NDIRECT + NINDIRECT, offset) / NINDIRECT
        ensures First(sl) < RoundUp(offset)
      {
        Beyond(sl.i, if sl.Leaf? then sl.j else 0, offset);
      }
    }

    lemma AllBeyond(t: Tree, offset: nat)
      requires DoneUpTo(t, NINDIRECT, RoundUp(offset)) && Within(NDIRECT + NINDIRECT, offset) == 0
      ensures forall x :: 0 <= x < NINDIRECT ==> Value(t, Dbl(x)) == 0
    {
      hide Value;
      forall x | 0 <= x < NINDIRECT ensures Value(t, Dbl(x)) == 0 {
        Beyond(x, 0, offset);
        assert IsSlot(Dbl(x));
      }
    }

    /** Truncation to `offset`: with `cut` the number of blocks that remain, every slot that only
        serves blocks beyond is emptied, every other is left as it was, and exactly the blocks that
        were in the emptied slots are freed, each once.  A file no longer than `offset` is left alone. */
    method Itrunc(offset: nat) returns (freed: seq<Blk>)
      requires ShapeOk(Now()) && Distinct(Now())
      modifies this
      ensures ShapeOk(Now()) && Distinct(Now())
      ensures old(size) <= offset ==> freed == [] && Now() == old(Now()) && size == old(size)
      ensures old(size) > offset ==> size == offset && Cleared(old(Now()), Now(), freed, RoundUp(offset))
      ensures old(size) > offset ==> Truncated(old(Now()), Now(), RoundUp(offset)) && iaddrs.None?
      ensures old(size) > offset ==>
                forall bn :: 0 <= bn && Home(bn).Some? ==>
                  Value(Now(), Home(bn).value) == if bn < RoundUp(offset) then old(Value(Now(), Home(bn).value)) else 0
    {
      freed := [];
      if size <= offset {
        return;
      }
      hide Cleared, Distinct;
      ghost var was, cut := Now(), RoundUp(offset);
      NothingCleared(was, cut);
      freed := ClearDirect(RoundUp(offset), freed, was);
      freed := ClearIndirect(offset, freed, was);
      ghost var mid := View();
      freed := ClearDouble(offset, freed, was);
      size := offset;
      AllCleared(was, mid, Now(), freed, cut);
      forall bn | 0 <= bn && Home(bn).Some?
        ensures Value(Now(), Home(bn).value) == if bn < cut then Value(was, Home(bn).value) else 0
      {
        HomeIsSlot(bn);
        FirstOfHome(bn);
      }
    }
  }
}
