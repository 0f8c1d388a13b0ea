/**
 block_queue of include/disk.hh as commands to the disks: writes spread over one queue
 per disk, and a flush of all queues in turn.
 */
module BlockSystem {
  import opened Options
  import opened DiskMachine
  import opened DiskStripes
  import opened DiskBatches
  import opened DiskQueue

  /** The queues and the commands they have sent since the last flush. */
  datatype System = System(cmds: seq<Cmd>, qs: seq<Q>)

  predicate Fits(disks: nat, sys: System) {
    disks > 0 && |sys.qs| == disks && forall q :: 0 <= q < disks ==> QOk(sys.qs[q])
  }

  /** The slot each queue fills next, after a flush. */
  predicate FirstSlots(disks: nat, firsts: seq<nat>) {
    disks > 0 && |firsts| == disks && forall q :: 0 <= q < disks ==> firsts[q] < DEPTH
  }

  function Mapped(disks: nat, w: Write): Write
    requires disks > 0
  {
    Write(Remap(disks, w.block), w.buf)
  }

  function LineAt(sys: System, q: nat): Line
    requires q < |sys.qs|
  {
    Line(sys.cmds, sys.qs[q])
  }

  function Back(sys: System, q: nat, s: Line): System
    requires q < |sys.qs|
  {
    System(s.cmds, sys.qs[q := s.q])
  }

  /** block_queue::write */
  function Put(disks: nat, sys: System, w: Write): (sys': System)
    requires Fits(disks, sys)
    ensures Fits(disks, sys')
  {
    var q := Dev(disks, w.block);
    Back(sys, q, Take(disks, LineAt(sys, q), Mapped(disks, w)))
  }

  function Start(firsts: seq<nat>): System
    requires forall q :: 0 <= q < |firsts| ==> firsts[q] < DEPTH
  {
    System([], seq(|firsts|, q requires 0 <= q < |firsts| => Fresh(firsts[q])))
  }

  function After(disks: nat, firsts: seq<nat>, ws: seq<Write>): (sys: System)
    requires FirstSlots(disks, firsts)
    ensures Fits(disks, sys)
  {
    if ws == [] then Start(firsts) else Put(disks, After(disks, firsts, ws[..|ws| - 1]), ws[|ws| - 1])
  }

  /** block_queue::flush, up to queue `n` */
  function FlushQueues(disks: nat, sys: System, n: nat): (sys': System)
    requires Fits(disks, sys) && n <= disks
    ensures Fits(disks, sys')
  {
    if n == 0 then sys
    else
      var sys1 := FlushQueues(disks, sys, n - 1);
      Back(sys1, n - 1, FlushSlots(disks, LineAt(sys1, n - 1), DEPTH))
  }

  /** Everything the block queue tells the disks, from one flush to the next. */
  function Program(disks: nat, firsts: seq<nat>, ws: seq<Write>): seq<Cmd>
    requires FirstSlots(disks, firsts)
  {
    FlushQueues(disks, After(disks, firsts, ws), disks).cmds
  }

  lemma AfterMore(disks: nat, firsts: seq<nat>, ws: seq<Write>, w: Write)
    requires FirstSlots(disks, firsts)
    ensures After(disks, firsts, ws + [w]) == Put(disks, After(disks, firsts, ws), w)
  {
    assert (ws + [w])[..|ws|] == ws;
  }

  // ----------------------------------------------------------------------
  // What every step keeps
  // ----------------------------------------------------------------------

  ghost predicate Tracked(sys: System, k: nat) {
    Wait(k) in sys.cmds || exists q :: 0 <= q < |sys.qs| && Some(k) in sys.qs[q].dc
  }

  ghost predicate Closed(disks: nat, sys: System, r: Req)
    requires disks > 0
  {
    exists q :: 0 <= q < |sys.qs| && From(disks, r, sys.qs[q].b.done, 0)
  }

  /** Every request is in a slot or was waited for; the requests issued are those the queues have
      closed. */
  ghost predicate SysOk(disks: nat, sys: System)
    ensures SysOk(disks, sys) ==> Fits(disks, sys)
  {
    && Fits(disks, sys) && Sensible(sys.cmds)
    && (forall q :: 0 <= q < disks ==> Sound(sys.cmds, sys.qs[q]))
    && (forall k: nat :: k < |sys.cmds| && sys.cmds[k].Issue? ==>
          Tracked(sys, k) && Closed(disks, sys, sys.cmds[k].req))
    && (forall q, a :: 0 <= q < disks && 0 <= a < |sys.qs[q].b.done| ==>
          Issued(disks, sys.qs[q].b.done[a], sys.cmds, 0))
  }

  lemma SoundMore(cmds: seq<Cmd>, cmds': seq<Cmd>, q: Q)
    requires Sound(cmds, q) && cmds <= cmds' && Sensible(cmds')
    ensures Sound(cmds', q)
  {
  }

  /** A step of one queue. */
  lemma LineStep(disks: nat, sys: System, q: nat, s: Line)
    requires SysOk(disks, sys) && q < disks && Sound(s.cmds, s.q) && Leads(disks, LineAt(sys, q), s)
    ensures SysOk(disks, Back(sys, q, s))
  {
    hide From, Issued, ToDisk;
    var sys' := Back(sys, q, s);
    forall x | 0 <= x < disks ensures Sound(sys'.cmds, sys'.qs[x]) {
      if x != q {
        SoundMore(sys.cmds, s.cmds, sys.qs[x]);
      }
    }
    forall k: nat | k < |s.cmds| && s.cmds[k].Issue? ensures Tracked(sys', k) {
      StepTracked(disks, sys, q, s, k);
    }
    forall k: nat | k < |s.cmds| && s.cmds[k].Issue? ensures Closed(disks, sys', s.cmds[k].req) {
      StepClosed(disks, sys, q, s, k);
    }
    forall x, a | 0 <= x < disks && 0 <= a < |sys'.qs[x].b.done|
      ensures Issued(disks, sys'.qs[x].b.done[a], sys'.cmds, 0)
    {
      if x == q && a >= |sys.qs[q].b.done| {
        IssuedMore(disks, s.q.b.done[a], s.cmds, s.cmds, |sys.cmds|, 0);
      } else {
        assert Issued(disks, sys.qs[x].b.done[a], sys.cmds, 0);
        IssuedMore(disks, sys.qs[x].b.done[a], sys.cmds, s.cmds, 0, 0);
      }
    }
  }

  lemma StepTracked(disks: nat, sys: System, q: nat, s: Line, k: nat)
    requires SysOk(disks, sys) && q < disks && Leads(disks, LineAt(sys, q), s)
    requires k < |s.cmds| && s.cmds[k].Issue?
    ensures Tracked(Back(sys, q, s), k)
  {
    hide Sound, From, Issued;
    var sys' := Back(sys, q, s);
    if k < |sys.cmds| && Some(k) !in sys.qs[q].dc {
      assert Tracked(sys, k);
      if Wait(k) in sys.cmds {
        assert Wait(k) in s.cmds;
      } else {
        var x :| 0 <= x < disks && Some(k) in sys.qs[x].dc;
        assert sys'.qs[x] == sys.qs[x];
      }
    } else {
      assert Known(k, s.q.dc, s.cmds);
      assert sys'.qs[q] == s.q;
    }
  }

  lemma StepClosed(disks: nat, sys: System, q: nat, s: Line, k: nat)
    requires SysOk(disks, sys) && q < disks && Leads(disks, LineAt(sys, q), s)
    requires k < |s.cmds| && s.cmds[k].Issue?
    ensures Closed(disks, Back(sys, q, s), s.cmds[k].req)
  {
    hide Sound, From, Issued, ToDisk;
    var sys', r := Back(sys, q, s), s.cmds[k].req;
    if k < |sys.cmds| {
      assert Closed(disks, sys, r);
      var x :| 0 <= x < disks && From(disks, r, sys.qs[x].b.done, 0);
      if x == q {
        FromMore(disks, r, sys.qs[q].b.done, s.q.b.done, 0, 0);
      }
      assert From(disks, r, sys'.qs[x].b.done, 0);
    } else {
      FromMore(disks, r, s.q.b.done, s.q.b.done, |sys.qs[q].b.done|, 0);
      assert From(disks, r, sys'.qs[q].b.done, 0);
    }
  }

  // ----------------------------------------------------------------------
  // Each queue gathers its share
  // ----------------------------------------------------------------------

  /** The writes that fall to queue `q`, at their places there. */
  function Share(disks: nat, ws: seq<Write>, q: nat): seq<Write>
    requires disks > 0
  {
    if ws == [] then []
    else
      var w := ws[|ws| - 1];
      Share(disks, ws[..|ws| - 1], q) + if Dev(disks, w.block) == q then [Mapped(disks, w)] else []
  }

  lemma {:induction false} AfterOk(disks: nat, firsts: seq<nat>, ws: seq<Write>)
    requires FirstSlots(disks, firsts)
    ensures var sys := After(disks, firsts, ws);
            SysOk(disks, sys) && forall q :: 0 <= q < disks ==> sys.qs[q].b == Gather(Share(disks, ws, q))
  {
    hide Take, Leads, Sound, Next;
    if ws == [] {
      StartOk(disks, firsts);
    } else {
      var n, w := |ws| - 1, ws[|ws| - 1];
      AfterOk(disks, firsts, ws[..n]);
      var sys, d := After(disks, firsts, ws[..n]), Dev(disks, w.block);
      SoundAt(disks, sys, d);
      TakeLeads(disks, LineAt(sys, d), Mapped(disks, w));
      LineStep(disks, sys, d, Take(disks, LineAt(sys, d), Mapped(disks, w)));
      hide SysOk;
      TakeGathers(disks, LineAt(sys, d), Mapped(disks, w));
      GatherMore(Share(disks, ws[..n], d), Mapped(disks, w));
      forall q | 0 <= q < disks ensures After(disks, firsts, ws).qs[q].b == Gather(Share(disks, ws, q)) {
        assert q != d ==> Share(disks, ws, q) == Share(disks, ws[..n], q);
      }
    }
  }

  lemma StartOk(disks: nat, firsts: seq<nat>)
    requires FirstSlots(disks, firsts)
    ensures SysOk(disks, Start(firsts)) && forall q :: 0 <= q < disks ==> Start(firsts).qs[q].b == Gather([])
  {
  }

  lemma SoundAt(disks: nat, sys: System, q: nat)
    requires SysOk(disks, sys) && q < disks
    ensures Sound(sys.cmds, sys.qs[q])
  {
  }

  /** When a queue has been flushed, its slots are empty and all it gathered is closed. */
  ghost predicate Flushed(q: Q, q': Q) {
    QOk(q') && q'.idx == q.idx && q'.b.done == All(q.b) && forall i :: 0 <= i < DEPTH ==> q'.dc[i] == None
  }

  lemma {:induction false} FlushOk(disks: nat, sys: System, n: nat)
    requires SysOk(disks, sys) && n <= disks
    ensures var sys' := FlushQueues(disks, sys, n);
            && SysOk(disks, sys')
            && (forall q :: 0 <= q < n ==> Flushed(sys.qs[q], sys'.qs[q]))
            && (forall q :: n <= q < disks ==> sys'.qs[q] == sys.qs[q])
  {
    hide SysOk, Leads, Sound, FlushSlots;
    if n > 0 {
      FlushOk(disks, sys, n - 1);
      var sys1 := FlushQueues(disks, sys, n - 1);
      SoundAt(disks, sys1, n - 1);
      FlushLeads(disks, LineAt(sys1, n - 1), DEPTH);
      LineStep(disks, sys1, n - 1, FlushSlots(disks, LineAt(sys1, n - 1), DEPTH));
    }
  }

  /** The requests that the share of queue `q` is gathered into. */
  function Requests(disks: nat, ws: seq<Write>, q: nat): seq<Run>
    requires disks > 0
  {
    All(Gather(Share(disks, ws, q)))
  }

  ghost predicate Wanted(disks: nat, ws: seq<Write>, r: Req)
    requires disks > 0
  {
    exists q :: 0 <= q < disks && From(disks, r, Requests(disks, ws, q), 0)
  }

  lemma FinalQueue(disks: nat, firsts: seq<nat>, ws: seq<Write>, q: nat)
    requires FirstSlots(disks, firsts) && q < disks
    ensures var sys' := FlushQueues(disks, After(disks, firsts, ws), disks);
            && SysOk(disks, sys') && sys'.qs[q].b.done == Requests(disks, ws, q)
            && (forall k: nat :: Some(k) !in sys'.qs[q].dc) && sys'.qs[q].idx == After(disks, firsts, ws).qs[q].idx
  {
    hide SysOk, After, FlushQueues, Share, Gather, All;
    AfterOk(disks, firsts, ws);
    FlushOk(disks, After(disks, firsts, ws), disks);
    assert Flushed(After(disks, firsts, ws).qs[q], FlushQueues(disks, After(disks, firsts, ws), disks).qs[q]);
  }

  /** At the end every request has been waited for, and belongs to some queue's share. */
  lemma ProgramIssue(disks: nat, firsts: seq<nat>, ws: seq<Write>, k: nat)
    requires FirstSlots(disks, firsts) && k < |Program(disks, firsts, ws)| && Program(disks, firsts, ws)[k].Issue?
    ensures Wait(k) in Program(disks, firsts, ws) && Wanted(disks, ws, Program(disks, firsts, ws)[k].req)
  {
    hide From, Issued, Sound, Requests, After, FlushQueues, ToDisk;
    var sys' := FlushQueues(disks, After(disks, firsts, ws), disks);
    FinalQueue(disks, firsts, ws, 0);
    assert Tracked(sys', k) && Closed(disks, sys', sys'.cmds[k].req);
    if x :| 0 <= x < disks && Some(k) in sys'.qs[x].dc {
      FinalQueue(disks, firsts, ws, x);
    }
    var q :| 0 <= q < disks && From(disks, sys'.cmds[k].req, sys'.qs[q].b.done, 0);
    FinalQueue(disks, firsts, ws, q);
  }

  /** Every request of a share is issued. */
  lemma ProgramHas(disks: nat, firsts: seq<nat>, ws: seq<Write>, q: nat, a: nat)
    requires FirstSlots(disks, firsts) && q < disks && a < |Requests(disks, ws, q)|
    ensures Issued(disks, Requests(disks, ws, q)[a], Program(disks, firsts, ws), 0)
  {
    hide From, Issued, Sound, Requests, After, FlushQueues, ToDisk;
    FinalQueue(disks, firsts, ws, q);
  }

  lemma ProgramSensible(disks: nat, firsts: seq<nat>, ws: seq<Write>)
    requires FirstSlots(disks, firsts)
    ensures Sensible(Program(disks, firsts, ws))
  {
    hide After, FlushQueues;
    FinalQueue(disks, firsts, ws, 0);
  }
}
