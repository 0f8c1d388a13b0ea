/**
 The disks below include/disk.hh.  Requests are issued, and now and then the issuer
 waits for one of them to be complete; in between, the blocks of all requests under
 way reach the disks one by one in any order.
 */
module DiskMachine {
  import opened Options

  type Block = nat

  datatype Place = Place(dev: nat, at: nat)

  type Contents = map<Place, Block>

  /** Consecutive blocks of one disk, in units of BSIZE. */
  datatype Req = Req(dev: nat, start: nat, data: seq<Block>)

  /** What the issuer does: a request is named by its position among the commands. */
  datatype Cmd = Issue(req: Req) | Wait(k: nat)

  /** The commands so far, which blocks (request, index) have reached the disks, and the disks. */
  datatype Hw = Hw(cmds: seq<Cmd>, landed: set<(nat, nat)>, disk: Contents)

  function At(disk: Contents, p: Place): Option<Block> {
    if p in disk then Some(disk[p]) else None
  }

  /** Command `k` is a request with an index `j` that goes to `p`. */
  predicate Hits(cmds: seq<Cmd>, k: nat, j: nat, p: Place) {
    k < |cmds| && cmds[k].Issue? && j < |cmds[k].req.data| && p == Place(cmds[k].req.dev, cmds[k].req.start + j)
  }

  predicate Touches(cmds: seq<Cmd>, k: nat, p: Place) {
    && k < |cmds| && cmds[k].Issue? && p.dev == cmds[k].req.dev
    && cmds[k].req.start <= p.at < cmds[k].req.start + |cmds[k].req.data|
  }

  function Value(cmds: seq<Cmd>, k: nat, p: Place): Block
    requires Touches(cmds, k, p)
  {
    cmds[k].req.data[p.at - cmds[k].req.start]
  }

  predicate Complete(h: Hw, k: nat)
    requires k < |h.cmds| && h.cmds[k].Issue?
  {
    forall j :: 0 <= j < |h.cmds[k].req.data| ==> (k, j) in h.landed
  }

  /** The issuer can go on with command `c`. */
  predicate Enabled(h: Hw, c: Cmd) {
    c.Wait? ==> c.k < |h.cmds| && h.cmds[c.k].Issue? && Complete(h, c.k)
  }

  function Do(h: Hw, c: Cmd): Hw {
    h.(cmds := h.cmds + [c])
  }

  predicate CanLand(h: Hw, k: nat, j: nat) {
    k < |h.cmds| && h.cmds[k].Issue? && j < |h.cmds[k].req.data| && (k, j) !in h.landed
  }

  function Land(h: Hw, k: nat, j: nat): Hw
    requires CanLand(h, k, j)
  {
    var r := h.cmds[k].req;
    h.(landed := h.landed + {(k, j)}, disk := h.disk[Place(r.dev, r.start + j) := r.data[j]])
  }

  // ----------------------------------------------------------------------
  // What is on the disks at any moment
  // ----------------------------------------------------------------------

  /** The issuer waited for `k` before command `n`. */
  predicate Waited(cmds: seq<Cmd>, k: nat, n: nat)
    requires n <= |cmds|
  {
    Wait(k) in cmds[..n]
  }

  /** Block (k, j) may have been the last to reach `p`. */
  ghost predicate MayBeLast(h: Hw, k: nat, j: nat, p: Place) {
    && Hits(h.cmds, k, j, p) && (k, j) in h.landed && At(h.disk, p) == Some(h.cmds[k].req.data[j])
    && forall k', j' :: (k', j') in h.landed && Hits(h.cmds, k', j', p) ==> !Waited(h.cmds, k, k')
  }

  ghost predicate Untouched(h: Hw, p: Place) {
    forall k, j :: (k, j) in h.landed ==> !Hits(h.cmds, k, j, p)
  }

  ghost predicate Explained(h: Hw, base: Contents, p: Place) {
    if Untouched(h, p) then At(h.disk, p) == At(base, p)
    else exists k, j :: MayBeLast(h, k, j, p)
  }

  ghost predicate HwOk(h: Hw, base: Contents) {
    && (forall k, j :: (k, j) in h.landed ==> k < |h.cmds| && h.cmds[k].Issue? && j < |h.cmds[k].req.data|)
    && (forall k: nat :: Wait(k) in h.cmds ==> k < |h.cmds| && h.cmds[k].Issue? && Complete(h, k))
    && (forall p :: Explained(h, base, p))
  }

  lemma StartOk(base: Contents)
    ensures HwOk(Hw([], {}, base), base)
  {
  }

  lemma WaitedMore(cmds: seq<Cmd>, c: Cmd, k: nat, n: nat)
    requires n <= |cmds|
    ensures Waited(cmds + [c], k, n) == Waited(cmds, k, n)
  {
    assert (cmds + [c])[..n] == cmds[..n];
  }

  lemma DoOk(h: Hw, base: Contents, c: Cmd)
    requires HwOk(h, base) && Enabled(h, c)
    ensures HwOk(Do(h, c), base)
  {
    var h' := Do(h, c);
    forall k: nat | Wait(k) in h'.cmds ensures k < |h'.cmds| && h'.cmds[k].Issue? && Complete(h', k) {
      if Wait(k) in h.cmds {
        assert Complete(h, k);
      }
    }
    forall p ensures Explained(h', base, p) {
      assert Explained(h, base, p);
      if Untouched(h, p) {
        assert Untouched(h', p);
      } else {
        var k, j :| MayBeLast(h, k, j, p);
        forall k', j' | (k', j') in h'.landed && Hits(h'.cmds, k', j', p) ensures !Waited(h'.cmds, k, k') {
          assert Hits(h.cmds, k', j', p);
          WaitedMore(h.cmds, c, k, k');
        }
        assert MayBeLast(h', k, j, p);
      }
    }
  }

  lemma LandOk(h: Hw, base: Contents, k: nat, j: nat)
    requires HwOk(h, base) && CanLand(h, k, j)
    ensures HwOk(Land(h, k, j), base)
  {
    var h' := Land(h, k, j);
    forall i: nat | Wait(i) in h'.cmds ensures i < |h'.cmds| && h'.cmds[i].Issue? && Complete(h', i) {
      assert Complete(h, i);
    }
    forall p ensures Explained(h', base, p) {
      assert Explained(h, base, p);
      if Hits(h.cmds, k, j, p) {
        assert Wait(k) !in h.cmds by { assert !Complete(h, k); }
        assert MayBeLast(h', k, j, p);
      } else if Untouched(h, p) {
        assert Untouched(h', p);
      } else {
        var k', j' :| MayBeLast(h, k', j', p);
        assert MayBeLast(h', k', j', p);
      }
    }
  }

  // ----------------------------------------------------------------------
  // What is on the disks in the end
  // ----------------------------------------------------------------------

  /** Request `k` holds value `v` for `p`, and no request issued after waiting for it does. */
  ghost predicate CanWin(cmds: seq<Cmd>, k: nat, p: Place, v: Block) {
    && Touches(cmds, k, p) && Value(cmds, k, p) == v
    && forall n :: 0 <= n < |cmds| && Touches(cmds, n, p) ==> !Waited(cmds, k, n)
  }

  /** Everything has reached the disks. */
  ghost predicate Settled(cmds: seq<Cmd>, base: Contents, disk: Contents) {
    forall p :: SettledAt(cmds, base, disk, p)
  }

  ghost predicate SettledAt(cmds: seq<Cmd>, base: Contents, disk: Contents, p: Place) {
    if forall k: nat :: !Touches(cmds, k, p) then At(disk, p) == At(base, p)
    else exists k :: p in disk && CanWin(cmds, k, p, disk[p])
  }

  ghost predicate AllComplete(h: Hw) {
    forall k :: 0 <= k < |h.cmds| && h.cmds[k].Issue? ==> Complete(h, k)
  }

  lemma AllLanded(h: Hw, base: Contents)
    requires HwOk(h, base) && AllComplete(h)
    ensures Settled(h.cmds, base, h.disk)
  {
    forall p ensures SettledAt(h.cmds, base, h.disk, p) {
      assert Explained(h, base, p);
      if i: nat :| Touches(h.cmds, i, p) {
        assert Complete(h, i) && Hits(h.cmds, i, p.at - h.cmds[i].req.start, p);
        var k, j :| MayBeLast(h, k, j, p);
        forall n | 0 <= n < |h.cmds| && Touches(h.cmds, n, p) ensures !Waited(h.cmds, k, n) {
          assert Complete(h, n) && Hits(h.cmds, n, p.at - h.cmds[n].req.start, p);
        }
        assert CanWin(h.cmds, k, p, h.disk[p]);
      } else {
        forall k, j | (k, j) in h.landed ensures !Hits(h.cmds, k, j, p) {
          assert !Touches(h.cmds, k, p);
        }
      }
    }
  }

  /** The requests carried out one at a time, in the order of issue. */
  function Sequential(cmds: seq<Cmd>, base: Contents, p: Place): Option<Block> {
    if cmds == [] then At(base, p)
    else if Touches(cmds, |cmds| - 1, p) then Some(Value(cmds, |cmds| - 1, p))
    else Sequential(cmds[..|cmds| - 1], base, p)
  }

  ghost predicate LastFor(cmds: seq<Cmd>, n: nat, p: Place) {
    Touches(cmds, n, p) && forall k: nat :: Touches(cmds, k, p) ==> k <= n
  }

  /** The last request for a place decides what one-at-a-time requests leave there. */
  lemma {:induction false} SequentialIsLast(cmds: seq<Cmd>, base: Contents, p: Place, n: nat)
    requires LastFor(cmds, n, p)
    ensures Sequential(cmds, base, p) == Some(Value(cmds, n, p))
  {
    if n < |cmds| - 1 {
      var cmds' := cmds[..|cmds| - 1];
      assert Touches(cmds', n, p);
      forall k: nat | Touches(cmds', k, p) ensures k <= n {
        assert Touches(cmds, k, p);
      }
      SequentialIsLast(cmds', base, p, n);
    }
  }

  lemma {:induction false} SequentialIsBase(cmds: seq<Cmd>, base: Contents, p: Place)
    requires forall k: nat :: !Touches(cmds, k, p)
    ensures Sequential(cmds, base, p) == At(base, p)
  {
    if cmds != [] {
      var cmds' := cmds[..|cmds| - 1];
      forall k: nat ensures !Touches(cmds', k, p) {
        assert !Touches(cmds, k, p);
      }
      SequentialIsBase(cmds', base, p);
    }
  }

  lemma {:induction false} LastExists(cmds: seq<Cmd>, p: Place, k: nat) returns (n: nat)
    requires Touches(cmds, k, p)
    ensures k <= n && LastFor(cmds, n, p)
    decreases |cmds| - k
  {
    if k': nat :| Touches(cmds, k', p) && k < k' {
      n := LastExists(cmds, p, k');
    } else {
      n := k;
    }
  }

  /** Requests that may be under way together with the last one for a place agree with it. */
  ghost predicate NoClash(cmds: seq<Cmd>, p: Place) {
    forall k: nat, n: nat :: LastFor(cmds, n, p) && Touches(cmds, k, p) && !Waited(cmds, k, n) ==>
      Value(cmds, k, p) == Value(cmds, n, p)
  }

  /** Without clashes, any completion order leaves what one-at-a-time requests leave. */
  lemma SettledIsSequential(cmds: seq<Cmd>, base: Contents, disk: Contents, p: Place)
    requires Settled(cmds, base, disk) && NoClash(cmds, p)
    ensures At(disk, p) == Sequential(cmds, base, p)
  {
    assert SettledAt(cmds, base, disk, p);
    if i: nat :| Touches(cmds, i, p) {
      var k :| p in disk && CanWin(cmds, k, p, disk[p]);
      var n := LastExists(cmds, p, k);
      SequentialIsLast(cmds, base, p, n);
    } else {
      SequentialIsBase(cmds, base, p);
    }
  }

  // ----------------------------------------------------------------------
  // All orders of completion
  // ----------------------------------------------------------------------

  datatype Act = DoCmd | DoLand(k: nat, j: nat)

  /** The commands `cmds` carried out in order, with blocks reaching the disks in between as `acts`
      says; None if that is not a possible course of events. */
  function Exec(cmds: seq<Cmd>, base: Contents, acts: seq<Act>): Option<Hw> {
    if acts == [] then Some(Hw([], {}, base))
    else
      var before := Exec(cmds, base, acts[..|acts| - 1]);
      if before.None? then None
      else
        var h := before.value;
        match acts[|acts| - 1]
        case DoCmd =>
          if |h.cmds| < |cmds| && Enabled(h, cmds[|h.cmds|]) then Some(Do(h, cmds[|h.cmds|])) else None
        case DoLand(k, j) =>
          if CanLand(h, k, j) then Some(Land(h, k, j)) else None
  }

  ghost predicate Over(cmds: seq<Cmd>, h: Hw) {
    h.cmds == cmds && AllComplete(h)
  }

  lemma {:induction false} ExecOk(cmds: seq<Cmd>, base: Contents, acts: seq<Act>)
    requires Exec(cmds, base, acts).Some?
    ensures HwOk(Exec(cmds, base, acts).value, base)
  {
    if acts == [] {
      StartOk(base);
    } else {
      ExecOk(cmds, base, acts[..|acts| - 1]);
      var h := Exec(cmds, base, acts[..|acts| - 1]).value;
      match acts[|acts| - 1]
      case DoCmd => DoOk(h, base, cmds[|h.cmds|]);
      case DoLand(k, j) => LandOk(h, base, k, j);
    }
  }

  lemma Then(acts: seq<Act>, a: Act)
    ensures (acts + [a])[..|acts + [a]| - 1] == acts && (acts + [a])[|acts + [a]| - 1] == a
  {
  }

  /** Blocks `i` onwards of request `n` reach the disk, except `skip`. */
  lemma {:induction false} LandAll(cmds: seq<Cmd>, base: Contents, acts: seq<Act>, h: Hw, n: nat, i: nat,
                                   skip: Option<nat>)
    returns (acts': seq<Act>, h': Hw)
    requires Exec(cmds, base, acts) == Some(h) && n < |h.cmds| && h.cmds[n].Issue? && i <= |h.cmds[n].req.data|
    requires forall j: nat :: (n, j) in h.landed ==> j < i
    ensures Exec(cmds, base, acts') == Some(h') && h'.cmds == h.cmds
    ensures forall k: nat, j: nat :: (k, j) in h'.landed <==>
              (k, j) in h.landed || (k == n && i <= j < |h.cmds[n].req.data| && Some(j) != skip)
    ensures forall p :: !Touches(h.cmds, n, p) ==> At(h'.disk, p) == At(h.disk, p)
    decreases |h.cmds[n].req.data| - i
  {
    if i == |h.cmds[n].req.data| {
      acts', h' := acts, h;
    } else if skip == Some(i) {
      acts', h' := LandAll(cmds, base, acts, h, n, i + 1, skip);
    } else {
      Then(acts, DoLand(n, i));
      var h1 := Land(h, n, i);
      acts', h' := LandAll(cmds, base, acts + [DoLand(n, i)], h1, n, i + 1, skip);
      forall p | !Touches(h.cmds, n, p) ensures At(h'.disk, p) == At(h.disk, p) {
        assert At(h1.disk, p) == At(h.disk, p);
      }
    }
  }

  /** The first `n` commands are over, except that block `j` of request `k` is kept back while
      `kept`; when it is not, it was the last to reach `p`. */
  ghost predicate Held(cmds: seq<Cmd>, n: nat, k: nat, j: nat, p: Place, h: Hw, kept: bool)
    requires n <= |cmds| && Hits(cmds, k, j, p)
  {
    && h.cmds == cmds[..n]
    && (forall i: nat, x: nat :: (i, x) in h.landed <==>
          i < n && cmds[i].Issue? && x < |cmds[i].req.data| && ((i, x) != (k, j) || !kept))
    && (!kept ==> k < n && At(h.disk, p) == Some(cmds[k].req.data[j]))
  }

  /** Waits are for requests issued before. */
  ghost predicate Sensible(cmds: seq<Cmd>) {
    forall n :: 0 <= n < |cmds| && cmds[n].Wait? ==> cmds[n].k < n && cmds[cmds[n].k].Issue?
  }

  /** The kept-back block reaches the disk. */
  lemma LetGo(cmds: seq<Cmd>, base: Contents, acts: seq<Act>, h: Hw, n: nat, k: nat, j: nat, p: Place)
    returns (acts': seq<Act>, h': Hw)
    requires n <= |cmds| && k < n && Hits(cmds, k, j, p)
    requires Exec(cmds, base, acts) == Some(h) && Held(cmds, n, k, j, p, h, true)
    ensures Exec(cmds, base, acts') == Some(h') && Held(cmds, n, k, j, p, h', false)
  {
    Then(acts, DoLand(k, j));
    acts', h' := acts + [DoLand(k, j)], Land(h, k, j);
  }

  /** One more command is carried out, and its blocks land. */
  lemma OneMore(cmds: seq<Cmd>, base: Contents, acts: seq<Act>, h: Hw, n: nat, k: nat, j: nat, p: Place, kept: bool)
    returns (acts': seq<Act>, h': Hw)
    requires n < |cmds| && Hits(cmds, k, j, p) && Sensible(cmds)
    requires Exec(cmds, base, acts) == Some(h) && Held(cmds, n, k, j, p, h, kept)
    requires if kept then cmds[n] != Wait(k) else !Touches(cmds, n, p)
    ensures Exec(cmds, base, acts') == Some(h') && Held(cmds, n + 1, k, j, p, h', kept)
  {
    var c := cmds[n];
    assert Enabled(h, c);
    assert cmds[..n + 1] == cmds[..n] + [c];
    Then(acts, DoCmd);
    var h1, acts1 := Do(h, c), acts + [DoCmd];
    assert Exec(cmds, base, acts1) == Some(h1);
    if c.Wait? {
      acts', h' := acts1, h1;
    } else {
      hide Exec;
      acts', h' := LandAll(cmds, base, acts1, h1, n, 0, if n == k then Some(j) else None);
      assert !Touches(cmds, n, p) ==> !Touches(h1.cmds, n, p);
    }
  }

  lemma {:induction false} HoldBack(cmds: seq<Cmd>, base: Contents, n: nat, k: nat, j: nat, p: Place)
    returns (acts: seq<Act>, h: Hw)
    requires n <= |cmds| && Hits(cmds, k, j, p) && Sensible(cmds)
    requires forall i :: 0 <= i < |cmds| && Touches(cmds, i, p) ==> !Waited(cmds, k, i)
    ensures Exec(cmds, base, acts) == Some(h) && Held(cmds, n, k, j, p, h, !Waited(cmds, k, n))
  {
    if n == 0 {
      acts, h := [], Hw([], {}, base);
    } else {
      acts, h := HoldBack(cmds, base, n - 1, k, j, p);
      assert cmds[..n] == cmds[..n - 1] + [cmds[n - 1]];
      assert Waited(cmds, k, n) <==> Waited(cmds, k, n - 1) || cmds[n - 1] == Wait(k);
      hide Exec, Held;
      if !Waited(cmds, k, n - 1) && cmds[n - 1] == Wait(k) {
        acts, h := LetGo(cmds, base, acts, h, n - 1, k, j, p);
      }
      acts, h := OneMore(cmds, base, acts, h, n - 1, k, j, p, !Waited(cmds, k, n));
    }
  }

  /** Whatever can win does win in some order of completion. */
  lemma WinnerWins(cmds: seq<Cmd>, base: Contents, k: nat, p: Place, v: Block) returns (acts: seq<Act>, h: Hw)
    requires CanWin(cmds, k, p, v) && Sensible(cmds)
    ensures Exec(cmds, base, acts) == Some(h) && Over(cmds, h) && At(h.disk, p) == Some(v)
  {
    var j := p.at - cmds[k].req.start;
    acts, h := HoldBack(cmds, base, |cmds|, k, j, p);
    assert cmds[..|cmds|] == cmds;
    if !Waited(cmds, k, |cmds|) {
      acts, h := LetGo(cmds, base, acts, h, |cmds|, k, j, p);
    }
  }

  ghost predicate AlwaysSequential(cmds: seq<Cmd>, base: Contents) {
    forall acts, h, p :: Exec(cmds, base, acts) == Some(h) && Over(cmds, h) ==>
      At(h.disk, p) == Sequential(cmds, base, p)
  }

  /** Every order of completion gives what one-at-a-time requests give exactly if no request that
      may be under way together with the last one for a place disagrees with it. */
  lemma SequentialIffNoClash(cmds: seq<Cmd>, base: Contents)
    requires Sensible(cmds)
    ensures AlwaysSequential(cmds, base) <==> forall p :: NoClash(cmds, p)
  {
    if forall p :: NoClash(cmds, p) {
      forall acts, h, p | Exec(cmds, base, acts) == Some(h) && Over(cmds, h)
        ensures At(h.disk, p) == Sequential(cmds, base, p)
      {
        ExecOk(cmds, base, acts);
        AllLanded(h, base);
        SettledIsSequential(cmds, base, h.disk, p);
      }
    } else {
      var p :| !NoClash(cmds, p);
      var k: nat, n: nat :| LastFor(cmds, n, p) && Touches(cmds, k, p) && !Waited(cmds, k, n)
                            && Value(cmds, k, p) != Value(cmds, n, p);
      ClashWins(cmds, k, n, p);
      var acts, h := WinnerWins(cmds, base, k, p, Value(cmds, k, p));
      SequentialIsLast(cmds, base, p, n);
    }
  }

  lemma ClashWins(cmds: seq<Cmd>, k: nat, n: nat, p: Place)
    requires LastFor(cmds, n, p) && Touches(cmds, k, p) && !Waited(cmds, k, n)
    ensures CanWin(cmds, k, p, Value(cmds, k, p))
  {
    forall i | 0 <= i < |cmds| && Touches(cmds, i, p) ensures !Waited(cmds, k, i) {
      assert cmds[..i] <= cmds[..n];
    }
  }
}
