/**
 Whole runs of attic/bonsai.c: one writer performing any sequence of inserts and
 removes, store by store, and any number of readers that take their steps between
 any two stores.
 */
module BonsaiReaders {
  import opened BonsaiTree
  import opened BonsaiHeap
  import opened BonsaiStores

  // ----------------------------------------------------------------------
  // The writer
  // ----------------------------------------------------------------------

  /** The writer between two operations: memory, allocator position, the published tree
      and every store made so far. */
  datatype Writer = Writer(mem: Memory, brk: nat, shape: Shape, log: seq<Act>)

  const START := Writer(Memory(map[], 0), 0, Nil, [])

  /** Addresses 1..brk are the cells; each is in the tree once or was freed once. */
  ghost predicate Owned(w: Writer) {
    forall x: Ptr :: Uses(w.shape, x) + Frees(w.log, x) == if 1 <= x <= w.brk then 1 else 0
  }

  ghost predicate Ready(w: Writer) {
    && Good(w.mem.heap, w.brk) && Rep(w.mem.heap, w.shape) && w.mem.root == PtrOf(w.shape)
    && Valid(Erase(w.shape)) && Owned(w)
    && forall x :: x in w.mem.heap <==> 1 <= x <= w.brk
  }

  /** The stores of one operation, before the caller publishes the new root. */
  function Perform(w: Writer, op: Op): Out
    requires Sized(Erase(w.shape))
  {
    match op
    case InsertOp(kv) => TreeInsert(w.brk, w.shape, kv)
    case RemoveOp(key) => TreeRemove(w.brk, w.shape, key)
  }

  function Finish(w: Writer, op: Op): Writer
    requires Sized(Erase(w.shape))
  {
    var o := Perform(w, op);
    Writer(Memory(Run(w.mem.heap, o.acts), PtrOf(o.s)), o.brk, o.s, w.log + o.acts)
  }

  function OpKey(op: Op): nat {
    match op
    case InsertOp(kv) => kv.key
    case RemoveOp(key) => key
  }

  ghost function KeysAfter(keys: set<nat>, op: Op): set<nat> {
    if op.RemoveOp? then keys - {op.key} else keys + {op.kv.key}
  }

  lemma OwnedIsUnshared(w: Writer)
    requires Owned(w)
    ensures Unshared(w.shape)
  {
    forall x ensures Uses(w.shape, x) <= 1 {
      assert Uses(w.shape, x) + Frees(w.log, x) <= 1;
    }
  }

  lemma PerformSound(w: Writer, op: Op)
    requires Ready(w)
    ensures Sound(w.mem.heap, Perform(w, op), Addrs(w.shape), OpKey(op), op.RemoveOp?)
    ensures Valid(Erase(Perform(w, op).s))
    ensures Keys(Erase(Perform(w, op).s)) == KeysAfter(Keys(Erase(w.shape)), op)
  {
    OwnedIsUnshared(w);
    match op {
      case InsertOp(kv) =>
        InsertSound(w.mem.heap, w.brk, w.shape, kv);
        InsertIsMapInsert(Erase(w.shape), kv);
        InsertKeys(Erase(w.shape), kv);
      case RemoveOp(key) =>
        RemoveSound(w.mem.heap, w.brk, w.shape, key);
        RemoveIsMapRemove(Erase(w.shape), key);
        RemoveKeys(Erase(w.shape), key);
    }
  }

  lemma PerformAccounts(w: Writer, op: Op, x: Ptr)
    requires Sized(Erase(w.shape))
    ensures Accounts(Uses(w.shape, x), w.brk, Perform(w, op), x)
  {
    match op {
      case InsertOp(kv) => InsertAccounts(w.brk, w.shape, kv, x);
      case RemoveOp(key) => RemoveAccounts(w.brk, w.shape, key, x);
    }
  }

  lemma FinishOwned(w: Writer, op: Op, x: Ptr)
    requires Ready(w)
    ensures var w' := Finish(w, op);
            && Uses(w'.shape, x) + Frees(w'.log, x) == (if 1 <= x <= w'.brk then 1 else 0)
            && (x in w'.mem.heap <==> 1 <= x <= w'.brk)
            && Frees(w'.log, x) == Frees(w.log, x) + Frees(Perform(w, op).acts, x)
  {
    var o := Perform(w, op);
    assert Uses(w.shape, x) + Frees(w.log, x) == if 1 <= x <= w.brk then 1 else 0;
    PerformAccounts(w, op, x);
    CountsConcat(w.log, o.acts, x);
    RunAllocates(w.mem.heap, o.acts, x);
  }

  lemma FinishReady(w: Writer, op: Op)
    requires Ready(w)
    ensures Ready(Finish(w, op))
  {
    PerformSound(w, op);
    forall x: Ptr ensures var w' := Finish(w, op);
      && Uses(w'.shape, x) + Frees(w'.log, x) == (if 1 <= x <= w'.brk then 1 else 0)
      && (x in w'.mem.heap <==> 1 <= x <= w'.brk)
    {
      FinishOwned(w, op, x);
    }
  }

  /** Each operation frees exactly the cells it makes unreachable, each of them once:
      a cell is freed by this operation just when it was not freed before and is not
      in the new tree, and no cell is ever freed twice. */
  lemma FreesExactlyTheUnreachable(w: Writer, op: Op, x: Ptr)
    requires Ready(w) && 1 <= x <= Finish(w, op).brk
    ensures Frees(Perform(w, op).acts, x) == 1 <==>
            Frees(w.log, x) == 0 && x !in Addrs(Finish(w, op).shape)
    ensures Frees(Finish(w, op).log, x) <= 1
    ensures x in Addrs(Finish(w, op).shape) ==> Frees(Finish(w, op).log, x) == 0
  {
    FinishOwned(w, op, x);
    UsesIsAddrs(Finish(w, op).shape, x);
  }

  // ----------------------------------------------------------------------
  // Memory after every store
  // ----------------------------------------------------------------------

  /** Memory at one moment, with the operation whose store produced it. */
  datatype Moment = Moment(mem: Memory, op: Op)

  function Stores(m: Memory, acts: seq<Act>, op: Op): seq<Moment>
    decreases |acts|
  {
    if acts == [] then []
    else
      var m' := Memory(Do(m.heap, acts[0]), m.root);
      [Moment(m', op)] + Stores(m', acts[1..], op)
  }

  /** All the moments of one operation; the last is the store to the root. */
  function Moments(w: Writer, op: Op): seq<Moment>
    requires Sized(Erase(w.shape))
  {
    Stores(w.mem, Perform(w, op).acts, op) + [Moment(Finish(w, op).mem, op)]
  }

  /** The store from `m` to `m'` leaves all links alone, or settles the operation's key. */
  ghost predicate Telling(m: Memory, m': Memory, key: nat, removing: bool) {
    (SameLinks(m.heap, m'.heap) && m.root == m'.root) || Findable(m'.heap, m'.root, key) == !removing
  }

  ghost predicate GoodStore(m: Memory, moment: Moment) {
    && Step(m, moment.mem, OpKey(moment.op), moment.op.RemoveOp?)
    && Telling(m, moment.mem, OpKey(moment.op), moment.op.RemoveOp?)
  }

  /** Consecutive moments, each reached by a store that disturbs no search. */
  ghost predicate Smooth(first: Memory, tr: seq<Moment>)
    decreases |tr|
  {
    tr == [] || (GoodStore(first, tr[0]) && Smooth(tr[0].mem, tr[1..]))
  }

  lemma {:induction false} SmoothConcat(first: Memory, a: seq<Moment>, b: seq<Moment>)
    requires Smooth(first, a) && Smooth(if a == [] then first else a[|a| - 1].mem, b)
    ensures Smooth(first, a + b)
    decreases |a|
  {
    if a == [] {
      assert a + b == b;
    } else {
      assert (a + b)[1..] == a[1..] + b;
      assert a[1..] != [] ==> a[1..][|a| - 2] == a[|a| - 1];
      SmoothConcat(a[0].mem, a[1..], b);
    }
  }

  lemma {:induction false} StoresSmooth(m: Memory, acts: seq<Act>, op: Op)
    requires Safe(m.heap, acts, OpKey(op), op.RemoveOp?) && (m.root == 0 || m.root in m.heap)
    requires Clear(m.heap, acts, m.root, OpKey(op), op.RemoveOp?)
    ensures Smooth(m, Stores(m, acts, op))
    ensures var tr := Stores(m, acts, op);
            (if tr == [] then m else tr[|tr| - 1].mem) == Memory(Run(m.heap, acts), m.root)
    decreases |acts|
  {
    if acts != [] {
      var m' := Memory(Do(m.heap, acts[0]), m.root);
      assert Evolves(m.heap, m'.heap, OpKey(op), op.RemoveOp?);
      StoresSmooth(m', acts[1..], op);
      assert Stores(m, acts, op)[1..] == Stores(m', acts[1..], op);
    }
  }

  lemma PerformClear(w: Writer, op: Op)
    requires Ready(w)
    ensures Clear(w.mem.heap, Perform(w, op).acts, w.mem.root, OpKey(op), op.RemoveOp?)
  {
    var o, h := Perform(w, op), w.mem.heap;
    OwnedIsUnshared(w);
    match op {
      case InsertOp(kv) => InsertSettles(h, w.brk, w.shape, kv);
      case RemoveOp(key) => RemoveSettles(h, w.brk, w.shape, key);
    }
    forall p: Ptr ensures Allocs(o.acts, p) <= if p > w.brk then 1 else 0 {
      PerformAccounts(w, op, p);
    }
    ClearFrom(h, w.brk, o.acts, 0, w.mem.root, OpKey(op), op.RemoveOp?);
    assert o.acts[0..] == o.acts && Run(h, o.acts[..0]) == h;
  }

  /** Publishing the new root is a harmless store too. */
  lemma RootStore(w: Writer, op: Op)
    requires Ready(w)
    ensures Step(Memory(Finish(w, op).mem.heap, w.mem.root), Finish(w, op).mem, OpKey(op), op.RemoveOp?)
    ensures Telling(Memory(Finish(w, op).mem.heap, w.mem.root), Finish(w, op).mem, OpKey(op), op.RemoveOp?)
  {
    var o, h := Perform(w, op), w.mem.heap;
    var g := Run(h, o.acts);
    PerformSound(w, op);
    SameLinksEvolve(g, g, OpKey(op), op.RemoveOp?);
    RepAddrs(g, o.s);
    FindableIsMember(g, o.s, OpKey(op));
    ReplacesOld(h, w.shape, o, OpKey(op), op.RemoveOp?);
    forall k ensures MayBecome(Findable(g, w.mem.root, k), Findable(g, PtrOf(o.s), k), k, OpKey(op), op.RemoveOp?) {
      FindableIsMember(g, o.s, k);
      assert MayBecome(Findable(g, PtrOf(w.shape), k), k in Keys(Erase(o.s)), k, OpKey(op), op.RemoveOp?);
    }
  }

  lemma MomentsSmooth(w: Writer, op: Op)
    requires Ready(w)
    ensures Smooth(w.mem, Moments(w, op))
  {
    var o := Perform(w, op);
    PerformSound(w, op);
    PerformClear(w, op);
    RepAddrs(w.mem.heap, w.shape);
    StoresSmooth(w.mem, o.acts, op);
    RootStore(w, op);
    SmoothConcat(w.mem, Stores(w.mem, o.acts, op), [Moment(Finish(w, op).mem, op)]);
  }

  // ----------------------------------------------------------------------
  // Published key sets
  // ----------------------------------------------------------------------

  lemma {:induction false} SmoothReaches(first: Memory, tr: seq<Moment>, i: nat, op: Op, k: nat)
    requires Smooth(first, tr) && i < |tr| && (forall j :: 0 <= j < |tr| ==> tr[j].op == op)
    ensures MayBecome(Findable(first.heap, first.root, k), Findable(tr[i].mem.heap, tr[i].mem.root, k),
                      k, OpKey(op), op.RemoveOp?)
    ensures MayBecome(Findable(tr[i].mem.heap, tr[i].mem.root, k),
                      Findable(tr[|tr| - 1].mem.heap, tr[|tr| - 1].mem.root, k), k, OpKey(op), op.RemoveOp?)
    decreases |tr|
  {
    assert tr[0].op == op;
    if |tr| > 1 {
      assert forall j :: 0 <= j < |tr| - 1 ==> tr[1..][j].op == op;
      SmoothReaches(tr[0].mem, tr[1..], if i == 0 then 0 else i - 1, op, k);
      assert Smooth(tr[0].mem, tr[1..]);
      assert tr[1..][0] == tr[1];
    }
  }

  lemma {:induction false} StoresOp(m: Memory, acts: seq<Act>, op: Op)
    ensures forall j :: 0 <= j < |Stores(m, acts, op)| ==> Stores(m, acts, op)[j].op == op
    decreases |acts|
  {
    if acts != [] {
      StoresOp(Memory(Do(m.heap, acts[0]), m.root), acts[1..], op);
    }
  }

  /** What a reader starting at this moment can find. */
  ghost predicate Publishes(m: Memory, keys: set<nat>) {
    forall k :: Findable(m.heap, m.root, k) <==> k in keys
  }

  /** After every single store the published tree has the operation's before-set of keys
      or its after-set, never anything else. */
  lemma EveryStorePublishesBeforeOrAfter(w: Writer, op: Op, i: nat)
    requires Ready(w) && i < |Moments(w, op)|
    ensures Publishes(Moments(w, op)[i].mem, Keys(Erase(w.shape))) ||
            Publishes(Moments(w, op)[i].mem, Keys(Erase(Finish(w, op).shape)))
    ensures Publishes(Finish(w, op).mem, Keys(Erase(Finish(w, op).shape)))
  {
    var tr, w' := Moments(w, op), Finish(w, op);
    var before, after, m := Keys(Erase(w.shape)), Keys(Erase(w'.shape)), tr[i].mem;
    FinishReady(w, op);
    PerformSound(w, op);
    MomentsSmooth(w, op);
    StoresOp(w.mem, Perform(w, op).acts, op);
    assert tr[|tr| - 1].mem == w'.mem;
    forall k ensures MayBecome(k in before, Findable(m.heap, m.root, k), k, OpKey(op), op.RemoveOp?)
             ensures MayBecome(Findable(m.heap, m.root, k), k in after, k, OpKey(op), op.RemoveOp?)
             ensures Findable(w'.mem.heap, w'.mem.root, k) <==> k in after {
      FindableIsMember(w.mem.heap, w.shape, k);
      FindableIsMember(w'.mem.heap, w'.shape, k);
      SmoothReaches(w.mem, tr, i, op, k);
    }
    if Findable(m.heap, m.root, OpKey(op)) == (OpKey(op) in after) {
      assert Publishes(m, after);
    } else {
      assert Publishes(m, before);
    }
  }

  // ----------------------------------------------------------------------
  // Readers
  // ----------------------------------------------------------------------

  /** A tree_find in progress: about to look at a cell, or finished. */
  datatype Search = At_(pos: Ptr) | Found(kv: Pair) | Missed

  /** One step of tree_find on the memory as it is now. */
  function Look(h: Heap, p: Ptr, k: nat): Search {
    if p !in h then Missed
    else if h[p].kv.key == k then Found(h[p].kv)
    else At_(Next(h, p, k))
  }

  /** What happens next: a store by the writer, or a step of the reader. */
  datatype Beat = Write(moment: Moment) | Read

  /** The search after an interleaving of writer stores and reader steps. */
  function Watch(m: Memory, s: Search, k: nat, beats: seq<Beat>): Search
    decreases |beats|
  {
    if beats == [] then s
    else match beats[0]
      case Write(moment) => Watch(moment.mem, s, k, beats[1..])
      case Read => Watch(m, if s.At_? then Look(m.heap, s.pos, k) else s, k, beats[1..])
  }

  function Writes(beats: seq<Beat>): seq<Moment> {
    if beats == [] then []
    else (if beats[0].Write? then [beats[0].moment] else []) + Writes(beats[1..])
  }

  /** `k` can, or cannot, be found from the root now and after each of the stores to come. */
  ghost predicate Throughout(m: Memory, beats: seq<Beat>, k: nat, found: bool)
    decreases |beats|
  {
    && Findable(m.heap, m.root, k) == found
    && (beats != [] ==> Throughout(if beats[0].Write? then beats[0].moment.mem else m, beats[1..], k, found))
  }

  /** Where the search stands decides how it will end. */
  ghost predicate WillFind(m: Memory, s: Search, k: nat) {
    match s
    case At_(p) => Findable(m.heap, p, k)
    case Found(kv) => kv.key == k
    case Missed => false
  }

  ghost predicate WillMiss(m: Memory, s: Search, k: nat) {
    match s
    case At_(p) => (p == 0 || p in m.heap) && !Findable(m.heap, p, k)
    case Found(_) => false
    case Missed => true
  }

  /** While the root's answer for `k` stays `found`, so does the answer from anywhere. */
  lemma StoreKeepsSearch(m: Memory, moment: Moment, p: Ptr, k: nat, found: bool)
    requires GoodStore(m, moment) && Closed(m.heap) && (p == 0 || p in m.heap)
    requires Findable(m.heap, p, k) == found
    requires Findable(moment.mem.heap, moment.mem.root, k) == found
    ensures Findable(moment.mem.heap, p, k) == found
  {
    var key, removing := OpKey(moment.op), moment.op.RemoveOp?;
    assert MayBecome(Findable(m.heap, p, k), Findable(moment.mem.heap, p, k), k, key, removing);
    if k == key && removing == found {
      SameLinksFindable(m.heap, moment.mem.heap, p, k);
    }
  }

  lemma {:induction false} SearchFinds(m: Memory, s: Search, k: nat, beats: seq<Beat>)
    requires Smooth(m, Writes(beats)) && WillFind(m, s, k)
    requires Throughout(m, beats, k, true) && Closed(m.heap)
    ensures Watch(m, s, k, beats) != Missed
    ensures Watch(m, s, k, beats).Found? ==> Watch(m, s, k, beats).kv.key == k
    decreases |beats|
  {
    if beats != [] {
      match beats[0] {
        case Write(moment) =>
          assert Writes(beats)[1..] == Writes(beats[1..]);
          assert GoodStore(m, moment);
          if s.At_? {
            FindStep(m.heap, s.pos, k);
            StoreKeepsSearch(m, moment, s.pos, k, true);
          }
          SearchFinds(moment.mem, s, k, beats[1..]);
        case Read =>
          assert Writes(beats) == Writes(beats[1..]);
          if s.At_? {
            FindStep(m.heap, s.pos, k);
            SearchFinds(m, Look(m.heap, s.pos, k), k, beats[1..]);
          } else {
            SearchFinds(m, s, k, beats[1..]);
          }
      }
    }
  }

  lemma {:induction false} SearchMisses(m: Memory, s: Search, k: nat, beats: seq<Beat>)
    requires Smooth(m, Writes(beats)) && WillMiss(m, s, k) && Closed(m.heap)
    requires Throughout(m, beats, k, false)
    ensures !Watch(m, s, k, beats).Found?
    decreases |beats|
  {
    if beats != [] {
      match beats[0] {
        case Write(moment) =>
          assert Writes(beats)[1..] == Writes(beats[1..]);
          assert GoodStore(m, moment);
          if s.At_? {
            StoreKeepsSearch(m, moment, s.pos, k, false);
          }
          SearchMisses(moment.mem, s, k, beats[1..]);
        case Read =>
          assert Writes(beats) == Writes(beats[1..]);
          if s.At_? {
            FindStep(m.heap, s.pos, k);
            SearchMisses(m, Look(m.heap, s.pos, k), k, beats[1..]);
          } else {
            SearchMisses(m, s, k, beats[1..]);
          }
      }
    }
  }

  // ----------------------------------------------------------------------
  // Readers of whole runs
  // ----------------------------------------------------------------------

  lemma StartReady()
    ensures Ready(START)
  {
  }

  /** The writer after performing `ops`. */
  function RunFrom(w: Writer, ops: seq<Op>): (w': Writer)
    requires Sized(Erase(w.shape))
    ensures Sized(Erase(w'.shape))
    decreases |ops|
  {
    if ops == [] then w else RunFrom(Finish(w, ops[0]), ops[1..])
  }

  /** Memory after every store of the whole run. */
  function MomentsFrom(w: Writer, ops: seq<Op>): seq<Moment>
    requires Sized(Erase(w.shape))
    decreases |ops|
  {
    if ops == [] then [] else Moments(w, ops[0]) + MomentsFrom(Finish(w, ops[0]), ops[1..])
  }

  function MemoryAt(first: Memory, tr: seq<Moment>, i: nat): Memory
    requires i <= |tr|
  {
    if i == 0 then first else tr[i - 1].mem
  }

  lemma {:induction false} RunIsSmooth(w: Writer, ops: seq<Op>)
    requires Ready(w)
    ensures Ready(RunFrom(w, ops)) && Smooth(w.mem, MomentsFrom(w, ops))
    decreases |ops|
  {
    if ops != [] {
      FinishReady(w, ops[0]);
      MomentsSmooth(w, ops[0]);
      RunIsSmooth(Finish(w, ops[0]), ops[1..]);
      SmoothConcat(w.mem, Moments(w, ops[0]), MomentsFrom(Finish(w, ops[0]), ops[1..]));
    }
  }

  lemma {:induction false} SmoothPart(first: Memory, tr: seq<Moment>, i: nat, j: nat)
    requires Smooth(first, tr) && i <= j <= |tr|
    ensures Smooth(if i == 0 then first else tr[i - 1].mem, tr[i..j])
    ensures i > 0 ==> var m := tr[i - 1].mem; Closed(m.heap) && (m.root == 0 || m.root in m.heap)
    decreases |tr|
  {
    if i > 0 {
      SmoothPart(tr[0].mem, tr[1..], i - 1, j - 1);
      assert tr[1..][i - 1..j - 1] == tr[i..j];
    } else if j > 0 {
      SmoothPart(tr[0].mem, tr[1..], 0, j - 1);
      assert tr[0..j][1..] == tr[1..][0..j - 1];
    }
  }

  /** `k` can be found from the root after store `n` of the run. */
  ghost predicate PublishedAt(w: Writer, ops: seq<Op>, n: nat, k: nat)
    requires Sized(Erase(w.shape)) && n <= |MomentsFrom(w, ops)|
  {
    var m := MemoryAt(w.mem, MomentsFrom(w, ops), n);
    Findable(m.heap, m.root, k)
  }

  lemma {:induction false} ThroughoutAll(m: Memory, beats: seq<Beat>, k: nat, found: bool)
    requires Findable(m.heap, m.root, k) == found
    requires forall n :: 0 <= n < |Writes(beats)| ==>
      Findable(Writes(beats)[n].mem.heap, Writes(beats)[n].mem.root, k) == found
    ensures Throughout(m, beats, k, found)
    decreases |beats|
  {
    if beats != [] {
      if beats[0].Write? {
        assert Writes(beats)[0] == beats[0].moment && Writes(beats)[1..] == Writes(beats[1..]);
        assert forall n :: 0 <= n < |Writes(beats[1..])| ==> Writes(beats[1..])[n] == Writes(beats)[n + 1];
        ThroughoutAll(beats[0].moment.mem, beats[1..], k, found);
      } else {
        assert Writes(beats) == Writes(beats[1..]);
        ThroughoutAll(m, beats[1..], k, found);
      }
    }
  }

  lemma WindowThroughout(w: Writer, ops: seq<Op>, i: nat, j: nat, k: nat, beats: seq<Beat>, found: bool)
    requires Ready(w)
    requires i <= j <= |MomentsFrom(w, ops)| && Writes(beats) == MomentsFrom(w, ops)[i..j]
    requires forall n :: i <= n <= j ==> PublishedAt(w, ops, n, k) == found
    ensures Throughout(MemoryAt(w.mem, MomentsFrom(w, ops), i), beats, k, found)
  {
    hide MomentsFrom;
    var tr := MomentsFrom(w, ops);
    assert PublishedAt(w, ops, i, k) == found;
    forall n | 0 <= n < |Writes(beats)|
      ensures Findable(Writes(beats)[n].mem.heap, Writes(beats)[n].mem.root, k) == found
    {
      assert PublishedAt(w, ops, i + n + 1, k) == found;
      assert Writes(beats)[n] == tr[i + n];
    }
    ThroughoutAll(MemoryAt(w.mem, tr, i), beats, k, found);
  }

  /** A lock-free tree_find that starts at any moment of any run, and takes its steps
      between any of the stores that follow, never misses a key that can be found from
      the root at every moment of its call, even if removing it has begun. */
  lemma ReaderNeverMisses(w: Writer, ops: seq<Op>, i: nat, j: nat, k: nat, beats: seq<Beat>)
    requires Ready(w)
    requires i <= j <= |MomentsFrom(w, ops)| && Writes(beats) == MomentsFrom(w, ops)[i..j]
    requires forall n :: i <= n <= j ==> PublishedAt(w, ops, n, k)
    ensures var m := MemoryAt(w.mem, MomentsFrom(w, ops), i);
            var end := Watch(m, At_(m.root), k, beats);
            end != Missed && (end.Found? ==> end.kv.key == k)
  {
    RunIsSmooth(w, ops);
    SmoothPart(w.mem, MomentsFrom(w, ops), i, j);
    WindowThroughout(w, ops, i, j, k, beats, true);
    assert PublishedAt(w, ops, i, k);
    var m := MemoryAt(w.mem, MomentsFrom(w, ops), i);
    SearchFinds(m, At_(m.root), k, beats);
  }

  /** Nor does it find a key that cannot be found from the root at any moment of its call. */
  lemma ReaderNeverInvents(w: Writer, ops: seq<Op>, i: nat, j: nat, k: nat, beats: seq<Beat>)
    requires Ready(w)
    requires i <= j <= |MomentsFrom(w, ops)| && Writes(beats) == MomentsFrom(w, ops)[i..j]
    requires forall n :: i <= n <= j ==> !PublishedAt(w, ops, n, k)
    ensures var m := MemoryAt(w.mem, MomentsFrom(w, ops), i);
            !Watch(m, At_(m.root), k, beats).Found?
  {
    RunIsSmooth(w, ops);
    SmoothPart(w.mem, MomentsFrom(w, ops), i, j);
    WindowThroughout(w, ops, i, j, k, beats, false);
    RepAddrs(w.mem.heap, w.shape);
    assert !PublishedAt(w, ops, i, k);
    var m := MemoryAt(w.mem, MomentsFrom(w, ops), i);
    SearchMisses(m, At_(m.root), k, beats);
  }

  lemma {:induction false} FoundHasKey(m: Memory, s: Search, k: nat, beats: seq<Beat>)
    requires s.Found? ==> s.kv.key == k
    ensures Watch(m, s, k, beats).Found? ==> Watch(m, s, k, beats).kv.key == k
    decreases |beats|
  {
    if beats != [] {
      match beats[0] {
        case Write(moment) => FoundHasKey(moment.mem, s, k, beats[1..]);
        case Read => FoundHasKey(m, if s.At_? then Look(m.heap, s.pos, k) else s, k, beats[1..]);
      }
    }
  }

  /** So every finished tree_find, whatever inserts and removes of its key it overlaps, gives the
      answer that is right at some moment of its call. */
  lemma ReaderRightAtSomeMoment(w: Writer, ops: seq<Op>, i: nat, j: nat, k: nat, beats: seq<Beat>) returns (n: nat)
    requires Ready(w)
    requires i <= j <= |MomentsFrom(w, ops)| && Writes(beats) == MomentsFrom(w, ops)[i..j]
    requires var m := MemoryAt(w.mem, MomentsFrom(w, ops), i); !Watch(m, At_(m.root), k, beats).At_?
    ensures i <= n <= j
    ensures var m := MemoryAt(w.mem, MomentsFrom(w, ops), i);
            var end := Watch(m, At_(m.root), k, beats);
            (end.Found? <==> PublishedAt(w, ops, n, k)) && (end.Found? ==> end.kv.key == k)
  {
    hide MomentsFrom, Watch, Findable;
    var m := MemoryAt(w.mem, MomentsFrom(w, ops), i);
    FoundHasKey(m, At_(m.root), k, beats);
    var found := Watch(m, At_(m.root), k, beats).Found?;
    if n' :| i <= n' <= j && PublishedAt(w, ops, n', k) == found {
      n := n';
    } else if found {
      ReaderNeverInvents(w, ops, i, j, k, beats);
      assert false;
    } else {
      ReaderNeverMisses(w, ops, i, j, k, beats);
      assert false;
    }
  }

  // ----------------------------------------------------------------------
  // Delayed frees
  // ----------------------------------------------------------------------

  /** No cell outside `dead` points into it. */
  ghost predicate Avoids(h: Heap, dead: set<Ptr>) {
    forall p :: p in h && p !in dead ==> h[p].l !in dead && h[p].r !in dead
  }

  ghost predicate AllAvoid(tr: seq<Moment>, dead: set<Ptr>) {
    forall i :: 0 <= i < |tr| ==> Avoids(tr[i].mem.heap, dead) && tr[i].mem.root !in dead
  }

  ghost function FreedBy(w: Writer): set<Ptr> {
    set x: Ptr | 1 <= x <= w.brk && Frees(w.log, x) > 0
  }

  lemma {:induction false} StoresAvoid(m: Memory, acts: seq<Act>, op: Op, a: set<Ptr>, brk: nat, dead: set<Ptr>)
    requires Avoids(m.heap, dead) && m.root !in dead && 0 !in dead
    requires forall p :: p in dead ==> p !in a && p <= brk
    requires forall i :: 0 <= i < |acts| ==> KnownAct(acts[i], a, brk)
    ensures AllAvoid(Stores(m, acts, op), dead) && Avoids(Run(m.heap, acts), dead)
    decreases |acts|
  {
    if acts != [] {
      assert KnownAct(acts[0], a, brk);
      StoresAvoid(Memory(Do(m.heap, acts[0]), m.root), acts[1..], op, a, brk, dead);
    }
  }

  /** The cells freed by earlier operations stay out of reach during the next one. */
  lemma MomentsAvoid(w: Writer, op: Op, dead: set<Ptr>)
    requires Ready(w) && dead <= FreedBy(w)
    requires Avoids(w.mem.heap, dead) && w.mem.root !in dead
    ensures AllAvoid(Moments(w, op), dead) && dead <= FreedBy(Finish(w, op))
    ensures Avoids(Finish(w, op).mem.heap, dead) && Finish(w, op).mem.root !in dead
  {
    hide Perform;
    var o, w' := Perform(w, op), Finish(w, op);
    forall p | p in dead ensures p !in Addrs(w.shape) && p <= w.brk && p !in Addrs(o.s) {
      DeadStaysOut(w, op, p);
    }
    PerformConfined(w, op);
    StoresAvoid(w.mem, o.acts, op, Addrs(w.shape), w.brk, dead);
    KnownRoot(o.s, Addrs(w.shape), w.brk);
    forall p | p in dead ensures p in FreedBy(w') {
      FinishOwned(w, op, p);
      PerformAccounts(w, op, p);
    }
  }

  lemma PerformConfined(w: Writer, op: Op)
    requires Ready(w)
    ensures Confined(Perform(w, op), Addrs(w.shape), w.brk)
  {
    KnownSelf(w.shape, w.brk);
    match op {
      case InsertOp(kv) => InsertConfined(w.brk, w.shape, kv, Addrs(w.shape), w.brk);
      case RemoveOp(key) => RemoveConfined(w.brk, w.shape, key, Addrs(w.shape), w.brk);
    }
  }

  lemma DeadStaysOut(w: Writer, op: Op, p: Ptr)
    requires Ready(w) && p in FreedBy(w)
    ensures p !in Addrs(w.shape) && p <= w.brk && p !in Addrs(Perform(w, op).s)
  {
    FinishOwned(w, op, p);
    assert Uses(w.shape, p) + Frees(w.log, p) <= 1;
    UsesIsAddrs(w.shape, p);
    UsesIsAddrs(Perform(w, op).s, p);
  }

  lemma ReadyAvoids(w: Writer)
    requires Ready(w)
    ensures Avoids(w.mem.heap, FreedBy(w)) && w.mem.root !in FreedBy(w)
  {
    var h := w.mem.heap;
    forall p | p in h && p !in FreedBy(w) ensures h[p].l !in FreedBy(w) && h[p].r !in FreedBy(w) {
      assert Uses(w.shape, p) + Frees(w.log, p) == 1;
      UsesIsAddrs(w.shape, p);
      ChildrenInTree(h, w.shape, p);
      UsesIsAddrs(w.shape, h[p].l);
      UsesIsAddrs(w.shape, h[p].r);
      assert Uses(w.shape, h[p].l) + Frees(w.log, h[p].l) <= 1;
      assert Uses(w.shape, h[p].r) + Frees(w.log, h[p].r) <= 1;
    }
    if w.shape.At? {
      assert w.shape.p in Addrs(w.shape);
      UsesIsAddrs(w.shape, w.shape.p);
      assert Uses(w.shape, w.shape.p) + Frees(w.log, w.shape.p) <= 1;
    }
  }

  lemma {:induction false} ChildrenInTree(h: Heap, s: Shape, p: Ptr)
    requires Rep(h, s) && p in Addrs(s)
    ensures p in h && (h[p].l == 0 || h[p].l in Addrs(s)) && (h[p].r == 0 || h[p].r in Addrs(s))
    decreases s
  {
    if p == s.p {
      assert s.l.At? ==> s.l.p in Addrs(s.l);
      assert s.r.At? ==> s.r.p in Addrs(s.r);
    } else if p in Addrs(s.l) {
      ChildrenInTree(h, s.l, p);
    } else {
      ChildrenInTree(h, s.r, p);
    }
  }

  lemma AvoidConcat(a: seq<Moment>, b: seq<Moment>, dead: set<Ptr>)
    requires AllAvoid(a, dead) && AllAvoid(b, dead)
    ensures AllAvoid(a + b, dead)
  {
  }

  lemma {:induction false} RunAvoids(w: Writer, ops: seq<Op>, dead: set<Ptr>)
    requires Ready(w) && dead <= FreedBy(w)
    requires Avoids(w.mem.heap, dead) && w.mem.root !in dead
    ensures AllAvoid(MomentsFrom(w, ops), dead)
    decreases |ops|
  {
    if ops != [] {
      MomentsAvoid(w, ops[0], dead);
      FinishReady(w, ops[0]);
      RunAvoids(Finish(w, ops[0]), ops[1..], dead);
      AvoidConcat(Moments(w, ops[0]), MomentsFrom(Finish(w, ops[0]), ops[1..]), dead);
    }
  }

  /** Every cell the reader dereferences. */
  function Visits(m: Memory, s: Search, k: nat, beats: seq<Beat>): seq<Ptr>
    decreases |beats|
  {
    if beats == [] then []
    else match beats[0]
      case Write(moment) => Visits(moment.mem, s, k, beats[1..])
      case Read =>
        if s.At_? then [s.pos] + Visits(m, Look(m.heap, s.pos, k), k, beats[1..])
        else Visits(m, s, k, beats[1..])
  }

  lemma {:induction false} VisitsAvoid(m: Memory, s: Search, k: nat, beats: seq<Beat>, dead: set<Ptr>)
    requires Avoids(m.heap, dead) && AllAvoid(Writes(beats), dead) && (s.At_? ==> s.pos !in dead)
    ensures forall i :: 0 <= i < |Visits(m, s, k, beats)| ==> Visits(m, s, k, beats)[i] !in dead
    decreases |beats|
  {
    if beats != [] {
      match beats[0] {
        case Write(moment) =>
          assert Writes(beats)[0] == moment && Writes(beats)[1..] == Writes(beats[1..]);
          assert forall i :: 0 <= i < |Writes(beats[1..])| ==> Writes(beats[1..])[i] == Writes(beats)[i + 1];
          VisitsAvoid(moment.mem, s, k, beats[1..], dead);
        case Read =>
          assert Writes(beats) == Writes(beats[1..]);
          VisitsAvoid(m, if s.At_? then Look(m.heap, s.pos, k) else s, k, beats[1..], dead);
      }
    }
  }

  /** A reader that starts after an operation has returned never dereferences a cell
      that was handed to the delayed-free list before, whatever the writer does next;
      so such cells may be recycled once the readers running at that time are gone. */
  lemma ReaderNeverTouchesFreed(w: Writer, ops: seq<Op>, i: nat, j: nat, k: nat, beats: seq<Beat>)
    requires Ready(w)
    requires i <= j <= |MomentsFrom(w, ops)| && Writes(beats) == MomentsFrom(w, ops)[i..j]
    ensures var m := MemoryAt(w.mem, MomentsFrom(w, ops), i);
            forall n :: 0 <= n < |Visits(m, At_(m.root), k, beats)| ==>
              Visits(m, At_(m.root), k, beats)[n] !in FreedBy(w)
  {
    var dead := FreedBy(w);
    ReadyAvoids(w);
    RunAvoids(w, ops, dead);
    var m := MemoryAt(w.mem, MomentsFrom(w, ops), i);
    VisitsAvoid(m, At_(m.root), k, beats, dead);
  }
}
