/**
 disk_queue of include/disk.hh: contiguous writes gathered into one scatter-gather
 request, over AHCI_QUEUE_DEPTH slots that each have at most one request under way.
 All queues send their requests to the same disks, which carry them out in their own
 time.
 */
module DiskQueue {
  import opened Options
  import opened DiskMachine
  import opened DiskStripes
  import opened DiskBatches

  const DEPTH: nat := 32      // AHCI_QUEUE_DEPTH

  // ----------------------------------------------------------------------
  // What a queue does, as commands to the disks
  // ----------------------------------------------------------------------

  /** A queue: the request under way in each slot, the slot that is being filled, and what has been
      gathered since the last flush. */
  datatype Q = Q(dc: seq<Option<nat>>, idx: nat, b: Batches)

  /** A queue and the commands so far. */
  datatype Line = Line(cmds: seq<Cmd>, q: Q)

  predicate QOk(q: Q) {
    |q.dc| == DEPTH && q.idx < DEPTH
  }

  function Fresh(first: nat): (q: Q)
    requires first < DEPTH
    ensures QOk(q)
  {
    Q(seq(DEPTH, _ => None), first, Batches([], NoRun))
  }

  /** disk_writev: the request goes where its first block is mapped. */
  function ToDisk(disks: nat, run: Run): Req
    requires disks > 0
  {
    Req(Dev(disks, run.start), Remap(disks, run.start), run.data)
  }

  /** disk_completion::wait on slot `i`, if a request is under way there */
  function WaitSlot(s: Line, i: nat): (s': Line)
    requires QOk(s.q) && i < DEPTH
    ensures QOk(s'.q)
  {
    if s.q.dc[i].None? then s else Line(s.cmds + [Wait(s.q.dc[i].value)], s.q.(dc := s.q.dc[i := None]))
  }

  function Send(disks: nat, s: Line): (s': Line)
    requires disks > 0 && QOk(s.q)
    ensures QOk(s'.q)
  {
    Line(s.cmds + [Issue(ToDisk(disks, s.q.b.open))], s.q.(dc := s.q.dc[s.q.idx := Some(|s.cmds|)], b := Close(s.q.b)))
  }

  /** flush_queue */
  function FlushOne(disks: nat, s: Line, i: nat, sync: bool): (s': Line)
    requires disks > 0 && QOk(s.q) && i < DEPTH
    ensures QOk(s'.q)
  {
    var s1 := if i == s.q.idx && s.q.b.open.data != [] then Send(disks, WaitSlot(s, i)) else s;
    if sync then WaitSlot(s1, i) else s1
  }

  /** flush_queue of the slot being filled, and on to the next slot */
  function Submit(disks: nat, s: Line): (s': Line)
    requires disks > 0 && QOk(s.q)
    ensures QOk(s'.q)
  {
    var s1 := FlushOne(disks, s, s.q.idx, false);
    s1.(q := s1.q.(idx := (s1.q.idx + 1) % DEPTH))
  }

  /** add_to_queue */
  function Take(disks: nat, s: Line, w: Write): (s': Line)
    requires disks > 0 && QOk(s.q)
    ensures QOk(s'.q)
  {
    var s1 := if Gap(s.q.b, w) then Submit(disks, s) else s;
    var s2 := s1.(q := s1.q.(b := Extend(s1.q.b, w)));
    if |s2.q.b.open.data| == BATCH then Submit(disks, s2) else s2
  }

  /** flush, up to slot `n` */
  function FlushSlots(disks: nat, s: Line, n: nat): (s': Line)
    requires disks > 0 && QOk(s.q) && n <= DEPTH
    ensures QOk(s'.q)
  {
    if n == 0 then s else FlushOne(disks, FlushSlots(disks, s, n - 1), n - 1, true)
  }

  lemma TakeGathers(disks: nat, s: Line, w: Write)
    requires disks > 0 && QOk(s.q)
    ensures Take(disks, s, w).q.b == Next(s.q.b, w)
  {
  }

  // ----------------------------------------------------------------------
  // What every step of a queue keeps
  // ----------------------------------------------------------------------

  /** The slots name requests, and waits are for requests issued before. */
  ghost predicate Sound(cmds: seq<Cmd>, q: Q)
    ensures Sound(cmds, q) ==> QOk(q)
  {
    && QOk(q) && Sensible(cmds)
    && forall i :: 0 <= i < DEPTH && q.dc[i].Some? ==> q.dc[i].value < |cmds| && cmds[q.dc[i].value].Issue?
  }

  /** Request `r` is one of `done` from `lo` on. */
  ghost predicate From(disks: nat, r: Req, done: seq<Run>, lo: nat)
    requires disks > 0
  {
    exists a :: lo <= a < |done| && r == ToDisk(disks, done[a])
  }

  /** `run` is issued by one of `cmds` from `lo` on. */
  ghost predicate Issued(disks: nat, run: Run, cmds: seq<Cmd>, lo: nat)
    requires disks > 0
  {
    exists k :: lo <= k < |cmds| && cmds[k] == Issue(ToDisk(disks, run))
  }

  ghost predicate Known(k: nat, dc: seq<Option<nat>>, cmds: seq<Cmd>) {
    Some(k) in dc || Wait(k) in cmds
  }

  /** The steps from `s` to `s'` add commands only; the requests they issue are those they close, and
      every one issued or in a slot is waited for or in a slot. */
  ghost predicate Leads(disks: nat, s: Line, s': Line)
    requires disks > 0
  {
    && s.cmds <= s'.cmds && s.q.b.done <= s'.q.b.done
    && (forall k :: |s.cmds| <= k < |s'.cmds| && s'.cmds[k].Issue? ==>
          From(disks, s'.cmds[k].req, s'.q.b.done, |s.q.b.done|))
    && (forall a :: |s.q.b.done| <= a < |s'.q.b.done| ==> Issued(disks, s'.q.b.done[a], s'.cmds, |s.cmds|))
    && (forall k: nat :: k < |s'.cmds| && s'.cmds[k].Issue? && (k < |s.cmds| ==> Some(k) in s.q.dc) ==>
          Known(k, s'.q.dc, s'.cmds))
  }

  lemma FromMore(disks: nat, r: Req, done: seq<Run>, done': seq<Run>, lo: nat, lo': nat)
    requires disks > 0 && From(disks, r, done, lo) && done <= done' && lo' <= lo
    ensures From(disks, r, done', lo')
  {
    var a :| lo <= a < |done| && r == ToDisk(disks, done[a]);
    assert done'[a] == done[a];
  }

  lemma IssuedMore(disks: nat, run: Run, cmds: seq<Cmd>, cmds': seq<Cmd>, lo: nat, lo': nat)
    requires disks > 0 && Issued(disks, run, cmds, lo) && cmds <= cmds' && lo' <= lo
    ensures Issued(disks, run, cmds', lo')
  {
    var k :| lo <= k < |cmds| && cmds[k] == Issue(ToDisk(disks, run));
    assert cmds'[k] == cmds[k];
  }

  lemma LeadsOn(disks: nat, s: Line, s': Line, s'': Line)
    requires disks > 0 && Leads(disks, s, s') && Leads(disks, s', s'')
    ensures Leads(disks, s, s'')
  {
    hide From, Issued, ToDisk;
    var d, d', d'' := s.q.b.done, s'.q.b.done, s''.q.b.done;
    forall k | |s.cmds| <= k < |s''.cmds| && s''.cmds[k].Issue? ensures From(disks, s''.cmds[k].req, d'', |d|) {
      if k < |s'.cmds| {
        FromMore(disks, s'.cmds[k].req, d', d'', |d|, |d|);
      } else {
        FromMore(disks, s''.cmds[k].req, d'', d'', |d'|, |d|);
      }
    }
    forall a | |d| <= a < |d''| ensures Issued(disks, d''[a], s''.cmds, |s.cmds|) {
      if a < |d'| {
        IssuedMore(disks, d'[a], s'.cmds, s''.cmds, |s.cmds|, |s.cmds|);
      } else {
        IssuedMore(disks, d''[a], s''.cmds, s''.cmds, |s'.cmds|, |s.cmds|);
      }
    }
    forall k: nat | k < |s''.cmds| && s''.cmds[k].Issue? && (k < |s.cmds| ==> Some(k) in s.q.dc)
      ensures Known(k, s''.q.dc, s''.cmds)
    {
      if k < |s'.cmds| {
        assert s''.cmds[k] == s'.cmds[k] && Known(k, s'.q.dc, s'.cmds);
        assert Wait(k) in s'.cmds ==> Wait(k) in s''.cmds;
      }
    }
  }

  lemma WaitLeads(disks: nat, s: Line, i: nat)
    requires disks > 0 && Sound(s.cmds, s.q) && i < DEPTH
    ensures var s' := WaitSlot(s, i); Sound(s'.cmds, s'.q) && Leads(disks, s, s') && s'.q.dc == s.q.dc[i := None]
  {
    var s' := WaitSlot(s, i);
    forall k: nat | k < |s'.cmds| && s'.cmds[k].Issue? && (k < |s.cmds| ==> Some(k) in s.q.dc)
      ensures Known(k, s'.q.dc, s'.cmds)
    {
      var x :| 0 <= x < DEPTH && s.q.dc[x] == Some(k);
      assert x != i ==> s'.q.dc[x] == Some(k);
      assert x == i ==> s'.cmds[|s.cmds|] == Wait(k);
    }
  }

  lemma SendLeads(disks: nat, s: Line)
    requires disks > 0 && Sound(s.cmds, s.q) && s.q.dc[s.q.idx].None?
    ensures var s' := Send(disks, s); Sound(s'.cmds, s'.q) && Leads(disks, s, s')
  {
    var s' := Send(disks, s);
    assert s'.q.b.done[|s.q.b.done|] == s.q.b.open;
    assert s'.cmds[|s.cmds|] == Issue(ToDisk(disks, s'.q.b.done[|s.q.b.done|]));
    assert Issued(disks, s'.q.b.done[|s.q.b.done|], s'.cmds, |s.cmds|);
    assert From(disks, s'.cmds[|s.cmds|].req, s'.q.b.done, |s.q.b.done|);
    forall k: nat | k < |s'.cmds| && s'.cmds[k].Issue? && (k < |s.cmds| ==> Some(k) in s.q.dc)
      ensures Known(k, s'.q.dc, s'.cmds)
    {
      if k < |s.cmds| {
        var x :| 0 <= x < DEPTH && s.q.dc[x] == Some(k);
        assert s'.q.dc[x] == Some(k);
      } else {
        assert s'.q.dc[s.q.idx] == Some(k);
      }
    }
  }

  lemma SameLeads(disks: nat, s: Line, s': Line)
    requires disks > 0 && s.cmds == s'.cmds && s.q.dc == s'.q.dc && s.q.b.done == s'.q.b.done
    ensures Leads(disks, s, s')
  {
  }

  lemma FlushOneLeads(disks: nat, s: Line, i: nat, sync: bool)
    requires disks > 0 && Sound(s.cmds, s.q) && i < DEPTH
    ensures var s' := FlushOne(disks, s, i, sync);
            && Sound(s'.cmds, s'.q) && Leads(disks, s, s') && (sync ==> s'.q.dc[i] == None)
            && s'.q.idx == s.q.idx
            && s'.q.b == (if i == s.q.idx && s.q.b.open.data != [] then Close(s.q.b) else s.q.b)
            && forall j :: 0 <= j < DEPTH && j != i ==> s'.q.dc[j] == s.q.dc[j]
  {
    hide Leads, Sound;
    var s1 := s;
    SameLeads(disks, s, s);
    if i == s.q.idx && s.q.b.open.data != [] {
      WaitLeads(disks, s, i);
      var s0 := WaitSlot(s, i);
      SendLeads(disks, s0);
      s1 := Send(disks, s0);
      LeadsOn(disks, s, s0, s1);
    }
    if sync {
      WaitLeads(disks, s1, i);
      LeadsOn(disks, s, s1, WaitSlot(s1, i));
    }
  }

  lemma SubmitLeads(disks: nat, s: Line)
    requires disks > 0 && Sound(s.cmds, s.q)
    ensures var s' := Submit(disks, s); Sound(s'.cmds, s'.q) && Leads(disks, s, s')
  {
    hide Leads, FlushOne;
    FlushOneLeads(disks, s, s.q.idx, false);
    var s1 := FlushOne(disks, s, s.q.idx, false);
    SameLeads(disks, s1, Submit(disks, s));
    LeadsOn(disks, s, s1, Submit(disks, s));
  }

  lemma TakeLeads(disks: nat, s: Line, w: Write)
    requires disks > 0 && Sound(s.cmds, s.q)
    ensures var s' := Take(disks, s, w); Sound(s'.cmds, s'.q) && Leads(disks, s, s')
  {
    hide Leads, Submit;
    var s1 := s;
    SameLeads(disks, s, s);
    if Gap(s.q.b, w) {
      SubmitLeads(disks, s);
      s1 := Submit(disks, s);
    }
    var s2 := s1.(q := s1.q.(b := Extend(s1.q.b, w)));
    SameLeads(disks, s1, s2);
    LeadsOn(disks, s, s1, s2);
    if |s2.q.b.open.data| == BATCH {
      SubmitLeads(disks, s2);
      LeadsOn(disks, s, s2, Submit(disks, s2));
    }
  }

  /** A flush issues what is left and waits for everything. */
  lemma {:induction false} FlushLeads(disks: nat, s: Line, n: nat)
    requires disks > 0 && Sound(s.cmds, s.q) && n <= DEPTH
    ensures var s' := FlushSlots(disks, s, n);
            && Sound(s'.cmds, s'.q) && Leads(disks, s, s') && s'.q.idx == s.q.idx
            && (forall i :: 0 <= i < n ==> s'.q.dc[i] == None)
            && (forall i :: n <= i < DEPTH ==> s'.q.dc[i] == s.q.dc[i])
            && s'.q.b == if s.q.idx < n && s.q.b.open.data != [] then Close(s.q.b) else s.q.b
  {
    hide Leads, Sound, FlushOne;
    if n == 0 {
      SameLeads(disks, s, s);
    } else {
      FlushLeads(disks, s, n - 1);
      var s1 := FlushSlots(disks, s, n - 1);
      FlushOneLeads(disks, s1, n - 1, true);
      LeadsOn(disks, s, s1, FlushOne(disks, s1, n - 1, true));
    }
  }

  // ----------------------------------------------------------------------
  // The code
  // ----------------------------------------------------------------------

  /** The disks shared by all queues. */
  class Disks {
    const disks: nat
    var hw: Hw
    ghost var base: Contents          // the disks at the last flush

    ghost predicate Valid()
      reads this
    {
      disks > 0 && HwOk(hw, base)
    }

    constructor (disks: nat, contents: Contents)
      requires disks > 0
      ensures Valid() && this.disks == disks && base == contents && hw == Hw([], {}, contents)
    {
      this.disks := disks;
      hw, base := Hw([], {}, contents), contents;
      new;
      StartOk(contents);
    }

    /** The disks go on by themselves: any blocks of requests under way reach them. */
    method Meanwhile()
      requires Valid()
      modifies `hw
      ensures Valid() && hw.cmds == old(hw.cmds)
    {
      var n: nat := *;
      while n > 0
        invariant Valid() && hw.cmds == old(hw.cmds)
      {
        n := n - 1;
        var k: nat, j: nat := *, *;
        if CanLand(hw, k, j) {
          LandOk(hw, base, k, j);
          hw := Land(hw, k, j);
        }
      }
    }

    /** disk_completion::wait: returns when request `k` is complete. */
    method WaitFor(k: nat)
      requires Valid() && k < |hw.cmds| && hw.cmds[k].Issue?
      modifies `hw
      ensures Valid() && hw.cmds == old(hw.cmds) + [Wait(k)] && Complete(hw, k)
    {
      Meanwhile();
      var j := 0;
      while j < |hw.cmds[k].req.data|
        invariant Valid() && hw.cmds == old(hw.cmds)
        invariant j <= |hw.cmds[k].req.data|
        invariant forall x :: 0 <= x < j ==> (k, x) in hw.landed
      {
        if CanLand(hw, k, j) {
          LandOk(hw, base, k, j);
          hw := Land(hw, k, j);
        }
        j := j + 1;
      }
      DoOk(hw, base, Wait(k));
      hw := Do(hw, Wait(k));
    }

    /** When everything is on the disks, the account starts anew. */
    method Restart()
      requires Valid() && AllComplete(hw)
      modifies this
      ensures Valid() && hw == Hw([], {}, old(hw.disk)) && base == hw.disk
      ensures Settled(old(hw.cmds), old(base), hw.disk)
    {
      AllLanded(hw, base);
      StartOk(hw.disk);
      hw, base := Hw([], {}, hw.disk), hw.disk;
    }

    /** disk_writev, asynchronous */
    method Writev(run: Run)
      requires Valid()
      modifies `hw
      ensures Valid() && hw.cmds == old(hw.cmds) + [Issue(ToDisk(disks, run))]
    {
      Meanwhile();
      DoOk(hw, base, Issue(ToDisk(disks, run)));
      hw := Do(hw, Issue(ToDisk(disks, run)));
    }
  }

  class Queue {
    const io: Disks
    var iovec: seq<seq<Block>>        // gathered buffers, one vector per slot
    var start: seq<nat>               // first block of each vector
    var dc: seq<Option<nat>>          // the request under way in each slot
    var idx: nat                      // the slot that is being filled
    ghost var done: seq<Run>          // what has been handed to disk_writev since the last flush

    /** Only the current slot holds buffers. */
    ghost predicate Shape()
      reads this
    {
      && |iovec| == DEPTH && |start| == DEPTH && |dc| == DEPTH && idx < DEPTH
      && (forall i :: 0 <= i < DEPTH && i != idx ==> iovec[i] == [])
    }

    /** Nothing is gathered and no request is in a slot. */
    ghost predicate Quiet()
      reads this
    {
      Shape() && forall i :: 0 <= i < DEPTH ==> dc[i] == None && iovec[i] == []
    }

    ghost function View(): (q: Q)
      requires Shape()
      reads this
      ensures QOk(q)
    {
      Q(dc, idx, Batches(done, if iovec[idx] == [] then NoRun else Run(start[idx], iovec[idx])))
    }

    ghost predicate Valid()
      reads this, io
    {
      io.Valid() && Shape() && Sound(io.hw.cmds, View()) && |iovec[idx]| < BATCH
    }

    ghost function State(): (s: Line)
      requires Shape()
      reads this, io
      ensures QOk(s.q)
    {
      Line(io.hw.cmds, View())
    }

    constructor (io: Disks)
      requires io.Valid() && Sensible(io.hw.cmds)
      ensures Valid() && this.io == io && View() == Fresh(0)
    {
      this.io := io;
      iovec := seq(DEPTH, _ => []);
      start := seq(DEPTH, _ => 0);
      dc := seq(DEPTH, _ => None);
      idx, done := 0, [];
    }

    /** Waits for the request in slot `i`, if there is one. */
    method WaitDone(i: nat)
      requires io.Valid() && Shape() && Sound(io.hw.cmds, View()) && i < DEPTH
      modifies io`hw, `dc
      ensures io.Valid() && Shape() && State() == WaitSlot(old(State()), i)
    {
      if dc[i].Some? {
        io.WaitFor(dc[i].value);
      }
      dc := dc[i := None];
      assert old(dc[i]).None? ==> dc == old(dc);
    }

    /** Hands the gathered buffers to disk_writev. */
    method SendSlot()
      requires io.Valid() && Shape() && dc[idx] == None && iovec[idx] != []
      modifies io`hw, `dc, `iovec, `done
      ensures io.Valid() && Shape() && State() == Send(io.disks, old(State())) && iovec[idx] == []
    {
      hide HwOk;
      io.Writev(Run(start[idx], iovec[idx]));
      dc := dc[idx := Some(|io.hw.cmds| - 1)];
      done := done + [Run(start[idx], iovec[idx])];
      iovec := iovec[idx := []];
    }

    method FlushQueue(i: nat, sync: bool)
      requires io.Valid() && Shape() && Sound(io.hw.cmds, View()) && i < DEPTH
      modifies io`hw, `dc, `iovec, `done
      ensures io.Valid() && Shape() && State() == FlushOne(io.disks, old(State()), i, sync) && iovec[i] == []
      ensures Sound(io.hw.cmds, View()) && (sync ==> dc[i] == None)
    {
      hide Sound, HwOk, Leads, Send;
      FlushOneLeads(io.disks, State(), i, sync);
      if iovec[i] != [] {
        WaitLeads(io.disks, State(), i);
        WaitDone(i);
        SendLeads(io.disks, State());
        SendSlot();
      }
      if sync {
        WaitDone(i);
      }
    }

    /** A full or interrupted batch goes to the disks, and the next slot is filled. */
    method SubmitSlot()
      requires io.Valid() && Shape() && Sound(io.hw.cmds, View())
      modifies io`hw, `dc, `iovec, `done, `idx
      ensures Valid() && State() == Submit(io.disks, old(State())) && iovec[idx] == []
    {
      hide HwOk, FlushOne;
      SubmitLeads(io.disks, State());
      FlushQueue(idx, false);
      idx := (idx + 1) % DEPTH;
    }

    method AddToQueue(buf: Block, block: nat)
      requires Valid()
      modifies this, io`hw
      ensures Valid() && State() == Take(io.disks, old(State()), Write(block, buf))
    {
      hide HwOk, Submit, Sound;
      TakeLeads(io.disks, State(), Write(block, buf));
      if iovec[idx] != [] && block != start[idx] + |iovec[idx]| {
        SubmitSlot();
      }
      ghost var s1 := State();
      iovec := iovec[idx := iovec[idx] + [buf]];
      if |iovec[idx]| == 1 {
        start := start[idx := block];
      }
      assert State() == s1.(q := s1.q.(b := Extend(s1.q.b, Write(block, buf))));
      ExtendSound(s1, Write(block, buf));
      if |iovec[idx]| == BATCH {
        SubmitSlot();
      }
    }

    /** Everything gathered goes to the disks, and is there on return. */
    method Flush()
      requires Valid()
      modifies this, io`hw
      ensures Valid() && State() == FlushSlots(io.disks, old(State()), DEPTH)
      ensures Quiet()
    {
      hide HwOk, Sound, FlushOne;
      for i := 0 to DEPTH
        invariant io.Valid() && Shape() && Sound(io.hw.cmds, View()) && idx == old(idx)
        invariant State() == FlushSlots(io.disks, old(State()), i)
        invariant forall j :: 0 <= j < i ==> dc[j] == None && iovec[j] == []
      {
        FlushOneLeads(io.disks, State(), i, true);
        FlushQueue(i, true);
      }
    }

    /** The disks' account starts anew. */
    ghost method Restart()
      requires io.Valid() && Quiet() && Sensible(io.hw.cmds)
      modifies `done
      ensures Valid() && Quiet() && View() == Fresh(idx)
    {
      done := [];
      assert dc == seq(DEPTH, _ => None);
    }
  }

  lemma ExtendSound(s: Line, w: Write)
    requires Sound(s.cmds, s.q)
    ensures Sound(s.cmds, s.q.(b := Extend(s.q.b, w)))
  {
  }
}
