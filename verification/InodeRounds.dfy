/**
 The life of an inode of attic/fs.cc: rounds of concurrent bmap calls, and truncations
 in between.
 */
module InodeRounds {
  import opened BlockMap
  import BlockMapRuns
  import opened Truncate

  /** All calls have returned. */
  ghost predicate AtRest(s: State) {
    forall u :: u in s.threads ==> s.threads[u].pc.Done? || s.threads[u].pc.Panic?
  }

  lemma RestIsInit(s: State)
    requires Inv(s) && AtRest(s)
    ensures BlockMapRuns.Init(s.(threads := map[]))
  {
    hide Value, Entry, ShapeOk, ThreadOk;
  }

  /** The blocks that truncation freed belong to nobody any more. */
  function Released(s: State, now: Tree, freed: seq<Blk>): State {
    State(now, map[], s.owner - (set b | b in freed))
  }

  /** What a truncation leaves, bmap can start from. */
  lemma TruncatedIsInit(s: State, now: Tree, freed: seq<Blk>, cut: nat)
    requires BlockMapRuns.Init(s) && ShapeOk(now) && now.iaddrs.None?
    requires Truncated(s.tree, now, cut) && Cleared(s.tree, now, freed, cut)
    ensures BlockMapRuns.Init(Released(s, now, freed))
  {
    hide Value, First, Entry, ShapeOk;
    var s' := Released(s, now, freed);
    forall sl | IsSlot(sl) && Value(now, sl) != 0
      ensures Value(now, sl) in s'.owner && s'.owner[Value(now, sl)] == InSlot(sl)
    {
      var b := Value(now, sl);
      assert Value(s.tree, sl) == b && s.owner[b] == InSlot(sl);
    }
    forall b | b in s'.owner && s'.owner[b].InSlot? ensures IsSlot(s'.owner[b].sl) && Value(now, s'.owner[b].sl) == b {
      assert s.owner[b] == s'.owner[b];
    }
  }

  datatype Round =
    | Calls(run: seq<State>)                             // bmap calls that all return
    | Cut(now: Tree, freed: seq<Blk>, cut: nat)          // itrunc of a longer file

  /** Round `r` takes the inode from `s` to `s'`. */
  ghost predicate Takes(s: State, r: Round, s': State) {
    match r
    case Calls(run) =>
      && BlockMapRuns.IsRun(run) && run[0] == s && AtRest(run[|run| - 1])
      && s' == run[|run| - 1].(threads := map[])
    case Cut(now, freed, cut) =>
      && ShapeOk(now) && now.iaddrs.None? && Truncated(s.tree, now, cut) && Cleared(s.tree, now, freed, cut)
      && s' == Released(s, now, freed)
  }

  /** After any number of rounds the inode is consistent: every block it owns is in one slot, and every
      block in a slot is its own. */
  lemma {:induction false} RoundsKeepInit(rounds: seq<Round>, states: seq<State>, n: nat)
    requires |states| == |rounds| + 1 && n <= |rounds| && BlockMapRuns.Init(states[0])
    requires forall i :: 0 <= i < |rounds| ==> Takes(states[i], rounds[i], states[i + 1])
    ensures BlockMapRuns.Init(states[n]) && Distinct(states[n].tree)
    decreases n
  {
    hide Value, ShapeOk, CacheOk;
    if n > 0 {
      RoundsKeepInit(rounds, states, n - 1);
      assert Takes(states[n - 1], rounds[n - 1], states[n]);
      match rounds[n - 1] {
        case Calls(run) =>
          BlockMapRuns.RunKeepsInv(run, |run| - 1);
          RestIsInit(run[|run| - 1]);
        case Cut(now, freed, cut) =>
          TruncatedIsInit(states[n - 1], now, freed, cut);
      }
    }
    assert BlockMap.Inv(states[n]);
    LeftByBmap(states[n]);
  }
}
