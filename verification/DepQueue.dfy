/**
 The dependency-aware work queue of attic/wqsh.cc.  Items that have been handed to
 the work queue run on other cores and may finish at any moment, also while the
 scheduler is looking.
 */
module DepQueue {
  import opened Options

  /** What an item waits for and what it provides, by symbolic name. */
  datatype Work = Work(needs: seq<int>, satisfies: seq<int>)

  datatype Event = Start(i: nat) | Finish(i: nat)

  const MAX: nat := 100         // dwq::max
  const MAX_NAMES: nat := 10    // dwork::max

  /** The most recent item before `di` that provides `x`. */
  function Provider(da: seq<Work>, di: nat, x: int): (p: Option<nat>)
    requires di <= |da|
    ensures p.Some? ==> p.value < di && x in da[p.value].satisfies
  {
    if di == 0 then None
    else if x in da[di - 1].satisfies then Some(di - 1)
    else Provider(da, di - 1, x)
  }

  /** No item after the provider and before `di` provides the name. */
  lemma {:induction false} ProviderIsLast(da: seq<Work>, di: nat, x: int, i: nat)
    requires di <= |da| && i < di && x in da[i].satisfies
    ensures Provider(da, di, x).Some? && i <= Provider(da, di, x).value
  {
    if x !in da[di - 1].satisfies {
      ProviderIsLast(da, di - 1, x, i);
    }
  }

  /** The name has no earlier provider, or the most recent one is done. */
  ghost predicate Available(da: seq<Work>, done: seq<bool>, di: nat, x: int)
    requires di <= |da| == |done|
  {
    Provider(da, di, x).Some? ==> done[Provider(da, di, x).value]
  }

  ghost predicate Ready(da: seq<Work>, done: seq<bool>, di: nat)
    requires di < |da| == |done|
  {
    forall j :: 0 <= j < |da[di].needs| ==> Available(da, done, di, da[di].needs[j])
  }

  /** Done items stay done. */
  ghost predicate Later(done: seq<bool>, done': seq<bool>) {
    |done'| == |done| && forall i :: 0 <= i < |done| && done[i] ==> done'[i]
  }

  /** The first unfinished item can always run. */
  lemma FirstUnfinishedIsReady(da: seq<Work>, done: seq<bool>, di: nat)
    requires di < |da| == |done| && forall i :: 0 <= i < di ==> done[i]
    ensures Ready(da, done, di)
  {
  }

  // ----------------------------------------------------------------------
  // The log of a run
  // ----------------------------------------------------------------------

  /** Every item starts once at most, after the most recent earlier providers of all its needs have
      finished, and finishes after it started. */
  ghost predicate InOrder(da: seq<Work>, log: seq<Event>) {
    && (forall a, b :: 0 <= a < b < |log| ==> log[a] != log[b])
    && (forall a :: 0 <= a < |log| && log[a].Start? ==> log[a].i < |da| && Prepared(da, log[..a], log[a].i))
    && (forall a :: 0 <= a < |log| && log[a].Finish? ==> Start(log[a].i) in log[..a])
  }

  ghost predicate Prepared(da: seq<Work>, log: seq<Event>, di: nat)
    requires di < |da|
  {
    forall j :: 0 <= j < |da[di].needs| ==>
      var p := Provider(da, di, da[di].needs[j]); p.Some? ==> Finish(p.value) in log
  }

  lemma InOrderMore(da: seq<Work>, log: seq<Event>, e: Event)
    requires InOrder(da, log) && e !in log
    requires if e.Start? then e.i < |da| && Prepared(da, log, e.i) else Start(e.i) in log
    ensures InOrder(da, log + [e])
  {
    var log' := log + [e];
    forall a | 0 <= a < |log'| ensures log'[..a] == if a < |log| then log[..a] else log {
    }
  }

  /** Later items are nobody's providers before. */
  lemma {:induction false} ProviderBefore(da: seq<Work>, w: Work, di: nat, x: int)
    requires di <= |da|
    ensures Provider(da + [w], di, x) == Provider(da, di, x)
  {
    if di > 0 {
      ProviderBefore(da, w, di - 1, x);
    }
  }

  lemma PushKeepsOrder(da: seq<Work>, w: Work, log: seq<Event>)
    requires InOrder(da, log)
    ensures InOrder(da + [w], log)
  {
    var da' := da + [w];
    forall a | 0 <= a < |log| && log[a].Start? ensures Prepared(da', log[..a], log[a].i) {
      var di := log[a].i;
      assert Prepared(da, log[..a], di) && da'[di] == da[di];
      forall j | 0 <= j < |da'[di].needs|
        ensures var p := Provider(da', di, da'[di].needs[j]); p.Some? ==> Finish(p.value) in log[..a]
      {
        ProviderBefore(da, w, di, da[di].needs[j]);
      }
    }
  }

  class Dwq {
    var da: seq<Work>
    var started: seq<bool>
    var done: seq<bool>
    ghost var log: seq<Event>

    ghost predicate Valid()
      reads this
    {
      && |started| == |da| && |done| == |da| && |da| < MAX && InOrder(da, log)
      && (forall i :: 0 <= i < |da| ==> |da[i].needs| <= MAX_NAMES && |da[i].satisfies| <= MAX_NAMES)
      && (forall i :: 0 <= i < |da| ==> (started[i] <==> Start(i) in log) && (done[i] <==> Finish(i) in log))
      && forall e :: e in log ==> e.i < |da|
    }

    constructor ()
      ensures Valid() && da == [] && log == []
    {
      da, started, done, log := [], [], [], [];
    }

    method Push(w: Work)
      requires Valid() && |da| + 1 < MAX && |w.needs| <= MAX_NAMES && |w.satisfies| <= MAX_NAMES
      modifies `da, `started, `done
      ensures Valid() && da == old(da) + [w] && started == old(started) + [false] && done == old(done) + [false]
    {
      hide InOrder;
      PushKeepsOrder(da, w, log);
      assert Start(|da|) !in log && Finish(|da|) !in log;
      da, started, done := da + [w], started + [false], done + [false];
    }

    /** Other cores at work: started items may finish. */
    method Elsewhere()
      requires Valid()
      modifies `done, `log
      ensures Valid() && Later(old(done), done) && old(log) <= log
      ensures forall e :: e in log && e.Start? ==> e in old(log)
    {
      var n: nat := *;
      while n > 0
        invariant Valid() && Later(old(done), done) && old(log) <= log
        invariant forall e :: e in log && e.Start? ==> e in old(log)
      {
        n := n - 1;
        var i: int := *;
        if 0 <= i < |da| && started[i] && !done[i] {
          FinishItem(i);
        }
      }
    }

    /** dwork::gogo, when the command has returned */
    method FinishItem(i: nat)
      requires Valid() && i < |da| && started[i] && !done[i]
      modifies `done, `log
      ensures Valid() && done == old(done)[i := true] && log == old(log) + [Finish(i)]
    {
      InOrderMore(da, log, Finish(i));
      done := done[i := true];
      log := log + [Finish(i)];
    }

    method AllDone() returns (b: bool)
      requires Valid()
      ensures b <==> forall i :: 0 <= i < |da| ==> done[i]
    {
      var ndone := 0;
      for i := 0 to |da|
        invariant ndone <= i && (ndone == i <==> forall j :: 0 <= j < i ==> done[j])
      {
        if done[i] {
          ndone := ndone + 1;
        }
      }
      return ndone >= |da|;
    }

    /** Since then items may have finished, and none has started. */
    ghost predicate Since(done0: seq<bool>, log0: seq<Event>)
      reads this
    {
      Later(done0, done) && log0 <= log && forall e :: e in log && e.Start? ==> e in log0
    }

    /** The innermost loop: what `ready` says about name `x` after looking at item `i` too. */
    method LookForName(i: nat, x: int, r0: bool, ghost before: seq<bool>) returns (r: bool)
      requires Valid() && i < |da| && Later(before, done) && Tracks(da, i, x, r0, before, done)
      modifies `done, `log
      ensures Valid() && Since(old(done), old(log)) && Tracks(da, i + 1, x, r, before, done)
    {
      hide InOrder, Provider;
      r := r0;
      for k := 0 to |da[i].satisfies|
        invariant Valid() && Since(old(done), old(log))
        invariant if x in da[i].satisfies[..k] then (r ==> done[i]) && (before[i] ==> r)
                  else Tracks(da, i, x, r, before, done)
      {
        ghost var was := done;
        Elsewhere();
        TracksLater(da, i, x, r, before, was, done);
        if x == da[i].satisfies[k] {
          r := done[i];
        }
      }
      assert da[i].satisfies[..|da[i].satisfies|] == da[i].satisfies;
      NextItem(da, i, x);
    }

    /** The two inner loops: all names the item needs, against item `i`. */
    method LookAtItem(i: nat, needs: seq<int>, ready: array<bool>, ghost before: seq<bool>)
      requires Valid() && i < |da| && ready.Length == |needs| && Later(before, done)
      requires forall j :: 0 <= j < |needs| ==> Tracks(da, i, needs[j], ready[j], before, done)
      modifies `done, `log, ready
      ensures Valid() && Since(old(done), old(log))
      ensures forall j :: 0 <= j < |needs| ==> Tracks(da, i + 1, needs[j], ready[j], before, done)
    {
      hide InOrder, Tracks, Provider;
      for j := 0 to |needs|
        invariant Valid() && Since(old(done), old(log)) && Later(before, done)
        invariant forall x :: 0 <= x < j ==> Tracks(da, i + 1, needs[x], ready[x], before, done)
        invariant forall x :: j <= x < |needs| ==> Tracks(da, i, needs[x], ready[x], before, done)
      {
        ghost var was := done;
        var r := LookForName(i, needs[j], ready[j], before);
        forall x | 0 <= x < |needs| && x != j
          ensures Tracks(da, if x < j then i + 1 else i, needs[x], ready[x], before, done)
        {
          TracksLater(da, if x < j then i + 1 else i, needs[x], ready[x], before, was, done);
        }
        ready[j] := r;
      }
    }

    /** Items finish while the loops run.  The answer is yes only if the item is ready by then, and
        is yes if it was ready already at the call. */
    method CanRun(di: nat) returns (b: bool)
      requires Valid() && di < |da|
      modifies `done, `log
      ensures Valid() && Since(old(done), old(log))
      ensures (b ==> Ready(da, done, di)) && (Ready(da, old(done), di) ==> b)
    {
      hide InOrder, Provider;
      var w := da[di];
      var ready := new bool[|w.needs|];
      for j := 0 to |w.needs|
        invariant forall x :: 0 <= x < j ==> ready[x]
        modifies ready
      {
        ready[j] := true;
      }
      forall j | 0 <= j < |w.needs| ensures Tracks(da, 0, w.needs[j], ready[j], done, done) {
        TracksNothing(da, w.needs[j], done);
      }
      for i := 0 to di
        invariant Valid() && Since(old(done), old(log))
        invariant forall j :: 0 <= j < |w.needs| ==> Tracks(da, i, w.needs[j], ready[j], old(done), done)
      {
        LookAtItem(i, w.needs, ready, old(done));
      }
      for j := 0 to |w.needs|
        invariant forall x :: 0 <= x < j ==> ready[x]
        modifies {}
      {
        if !ready[j] {
          assert !Available(da, old(done), di, w.needs[j]);
          return false;
        }
      }
      return true;
    }

    /** Starts item `i` if it can run. */
    method TryStart(i: nat)
      requires Valid() && i < |da|
      modifies `started, `done, `log
      ensures Valid() && Later(old(done), done) && old(log) <= log
      ensures (forall j :: 0 <= j < i ==> old(done)[j]) ==> started[i]
      ensures forall j :: 0 <= j < |da| && old(started)[j] ==> started[j]
    {
      if !done[i] && !started[i] {
        if forall j :: 0 <= j < i ==> done[j] {
          FirstUnfinishedIsReady(da, done, i);
        }
        var b := CanRun(i);
        if b {
          StartItem(i);
        }
      }
      if done[i] && !started[i] {
        FinishedWasStarted(i);
      }
    }

    lemma FinishedWasStarted(i: nat)
      requires Valid() && i < |da| && done[i]
      ensures started[i]
    {
      var a :| 0 <= a < |log| && log[a] == Finish(i);
      assert Start(i) in log[..a];
    }

    /** wq_push */
    method StartItem(i: nat)
      requires Valid() && i < |da| && !started[i] && Ready(da, done, i)
      modifies `started, `log
      ensures Valid() && started == old(started)[i := true] && log == old(log) + [Start(i)]
    {
      assert Prepared(da, log, i) by { ReadyIsPrepared(i); }
      InOrderMore(da, log, Start(i));
      started := started[i := true];
      log := log + [Start(i)];
    }

    lemma ReadyIsPrepared(i: nat)
      requires Valid() && i < |da| && Ready(da, done, i)
      ensures Prepared(da, log, i)
    {
      hide InOrder;
      forall j | 0 <= j < |da[i].needs|
        ensures var p := Provider(da, i, da[i].needs[j]); p.Some? ==> Finish(p.value) in log
      {
        assert Available(da, done, i, da[i].needs[j]);
      }
    }

    /** wq_trywork, and whatever other cores do meanwhile: if items are under way, one finishes. */
    method TryWork()
      requires Valid()
      modifies `done, `log
      ensures Valid() && Since(old(done), old(log))
      ensures (exists i :: 0 <= i < |da| && started[i] && !old(done)[i]) ==> Unfinished(done) < Unfinished(old(done))
    {
      hide InOrder;
      if i :| 0 <= i < |da| && started[i] && !done[i] {
        FinishItem(i);
        FewerUnfinished(old(done), i);
      }
      ghost var was := done;
      Elsewhere();
      NoMoreUnfinished(was, done);
    }

    /** The scheduler's loop: it comes to an end, with every item done, and all items started once
        and in order. */
    method Run()
      requires Valid()
      modifies this
      ensures Valid() && da == old(da) && (forall i :: 0 <= i < |da| ==> done[i]) && old(log) <= log
    {
      hide InOrder;
      var finished := AllDone();
      while !finished
        invariant Valid() && da == old(da) && old(log) <= log
        invariant finished <==> forall i :: 0 <= i < |da| ==> done[i]
        decreases Unfinished(done), !finished
      {
        ghost var before := done;
        StartAll();
        NoMoreUnfinished(before, done);
        if forall i :: 0 <= i < |da| && started[i] ==> done[i] {
          SomeoneFinished(before);
        }
        ghost var was := done;
        TryWork();
        NoMoreUnfinished(was, done);
        finished := AllDone();
      }
    }

    /** One pass over the items. */
    method StartAll()
      requires Valid()
      modifies `started, `done, `log
      ensures Valid() && Later(old(done), done) && old(log) <= log
      ensures forall j :: 0 <= j < |da| && (forall x :: 0 <= x < j ==> old(done)[x]) ==> started[j]
    {
      hide InOrder;
      for i := 0 to |da|
        invariant Valid() && Later(old(done), done) && old(log) <= log
        invariant forall j :: 0 <= j < i && (forall x :: 0 <= x < j ==> old(done)[x]) ==> started[j]
      {
        TryStart(i);
      }
    }

    /** While any item is unfinished, some item is under way or can run. */
    lemma SomethingToDo()
      requires Valid() && exists i :: 0 <= i < |da| && !done[i]
      ensures exists i :: 0 <= i < |da| && !done[i] && (started[i] || Ready(da, done, i))
    {
      hide InOrder;
      var m := FirstUnfinished(done, 0);
      FirstUnfinishedIsReady(da, done, m);
    }

    /** Something has moved: the first item that was unfinished is under way or done by now. */
    lemma SomeoneFinished(before: seq<bool>)
      requires Valid() && Later(before, done) && (exists i :: 0 <= i < |da| && !before[i])
      requires forall j :: 0 <= j < |da| && (forall x :: 0 <= x < j ==> before[x]) ==> started[j]
      requires forall i :: 0 <= i < |da| && started[i] ==> done[i]
      ensures Unfinished(done) < Unfinished(before)
    {
      hide InOrder;
      var m := FirstUnfinished(before, 0);
      FewerUnfinished(before, m);
      NoMoreUnfinished(before[m := true], done);
    }
  }

  /** What `ready` says about a name after looking at the first `i` items: it holds only if the name
      is available now, and does if it was available before. */
  ghost predicate Tracks(da: seq<Work>, i: nat, x: int, r: bool, before: seq<bool>, now: seq<bool>)
    requires i <= |da| == |before| == |now|
  {
    (r ==> Available(da, now, i, x)) && (Available(da, before, i, x) ==> r)
  }

  lemma TracksLater(da: seq<Work>, i: nat, x: int, r: bool, before: seq<bool>, now: seq<bool>, now': seq<bool>)
    requires i <= |da| == |before| == |now| && Later(now, now')
    ensures Tracks(da, i, x, r, before, now) ==> Tracks(da, i, x, r, before, now')
  {
    hide Provider;
  }

  /** Item `i` is the most recent provider if it provides the name at all. */
  lemma NextItem(da: seq<Work>, i: nat, x: int)
    requires i < |da|
    ensures Provider(da, i + 1, x) == if x in da[i].satisfies then Some(i) else Provider(da, i, x)
  {
  }

  lemma TracksNothing(da: seq<Work>, x: int, done: seq<bool>)
    requires |da| == |done|
    ensures Tracks(da, 0, x, true, done, done)
  {
  }

  function Unfinished(done: seq<bool>): nat {
    if done == [] then 0 else (if done[0] then 0 else 1) + Unfinished(done[1..])
  }

  lemma {:induction false} FewerUnfinished(done: seq<bool>, i: nat)
    requires i < |done| && !done[i]
    ensures Unfinished(done[i := true]) < Unfinished(done)
  {
    if i == 0 {
      assert done[i := true][1..] == done[1..];
    } else {
      assert done[i := true][1..] == done[1..][i - 1 := true];
      FewerUnfinished(done[1..], i - 1);
    }
  }

  lemma {:induction false} NoMoreUnfinished(done: seq<bool>, done': seq<bool>)
    requires Later(done, done')
    ensures Unfinished(done') <= Unfinished(done)
  {
    if done != [] {
      NoMoreUnfinished(done[1..], done'[1..]);
    }
  }

  lemma {:induction false} FirstUnfinished(done: seq<bool>, from: nat) returns (m: nat)
    requires (exists i :: from <= i < |done| && !done[i]) && forall i :: 0 <= i < from && i < |done| ==> done[i]
    ensures m < |done| && !done[m] && forall i :: 0 <= i < m ==> done[i]
    decreases |done| - from
  {
    if !done[from] {
      m := from;
    } else {
      m := FirstUnfinished(done, from + 1);
    }
  }
}
