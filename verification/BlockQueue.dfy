/**
 block_queue of include/disk.hh: writes spread over one queue per disk, all of which
 send their requests to the same disks.
 */
module BlockQueue {
  import opened DiskMachine
  import opened DiskStripes
  import opened DiskBatches
  import opened DiskQueue
  import opened BlockSystem
  import opened StripedWrites

  class Blocks {
    const io: Disks
    const dqueue: seq<Queue>
    ghost var taken: seq<Write>       // writes since the last flush, in file system block numbers
    ghost var firsts: seq<nat>        // the slot each queue filled at the last flush

    ghost predicate Separate() {
      && |dqueue| == io.disks > 0
      && (forall i, j :: 0 <= i < j < |dqueue| ==> dqueue[i] != dqueue[j])
      && forall i :: 0 <= i < |dqueue| ==> dqueue[i].io == io
    }

    /** The queues and the commands sent are those of `sys`. */
    ghost predicate Matches(sys: System)
      reads io, dqueue
    {
      && io.hw.cmds == sys.cmds && |sys.qs| == |dqueue|
      && forall i :: 0 <= i < |dqueue| ==> dqueue[i].Shape() && dqueue[i].View() == sys.qs[i]
    }

    ghost predicate Valid()
      reads this, io, dqueue
    {
      && Separate() && io.Valid() && FirstSlots(io.disks, firsts)
      && (forall i :: 0 <= i < |dqueue| ==> dqueue[i].Valid())
      && Matches(After(io.disks, firsts, taken))
    }

    constructor (io: Disks)
      requires io.Valid() && io.hw.cmds == []
      ensures Valid() && this.io == io && taken == [] && forall q :: 0 <= q < |firsts| ==> firsts[q] == 0
    {
      var qs: seq<Queue> := [];
      while |qs| < io.disks
        invariant |qs| <= io.disks && io.Valid() && io.hw.cmds == []
        invariant forall i :: 0 <= i < |qs| ==>
          fresh(qs[i]) && qs[i].io == io && qs[i].Valid() && qs[i].View() == Fresh(0)
        invariant forall i, j :: 0 <= i < j < |qs| ==> qs[i] != qs[j]
      {
        var q := new Queue(io);
        qs := qs + [q];
      }
      this.io, dqueue, taken := io, qs, [];
      firsts := seq(io.disks, _ => 0);
    }

    ghost predicate Working(sys: System)
      reads this, io, dqueue
    {
      && Separate() && io.Valid() && SysOk(io.disks, sys) && Matches(sys)
      && forall i :: 0 <= i < |dqueue| ==> |dqueue[i].iovec[dqueue[i].idx]| < BATCH
    }

    method TakeNext(dev: nat, buf: Block, place: nat, ghost sys: System)
      requires Working(sys) && dev < |dqueue|
      modifies dqueue[dev], io`hw
      ensures Working(Back(sys, dev, Take(io.disks, LineAt(sys, dev), Write(place, buf))))
    {
      hide Take, HwOk, Sound, SysOk, Leads;
      SoundAt(io.disks, sys, dev);
      TakeLeads(io.disks, LineAt(sys, dev), Write(place, buf));
      LineStep(io.disks, sys, dev, Take(io.disks, LineAt(sys, dev), Write(place, buf)));
      dqueue[dev].AddToQueue(buf, place);
    }

    lemma WorkingValid(sys: System)
      requires Working(sys)
      ensures forall i :: 0 <= i < |dqueue| ==> dqueue[i].Valid()
    {
      hide Take, HwOk, Sound, SysOk;
      forall i | 0 <= i < |dqueue| ensures dqueue[i].Valid() {
        SoundAt(io.disks, sys, i);
      }
    }

    method WriteBlock(buf: Block, b: nat)
      requires Valid()
      modifies this, dqueue, io
      ensures Valid() && taken == old(taken) + [Write(b, buf)] && firsts == old(firsts) && io.base == old(io.base)
    {
      hide Take, HwOk, Sound, SysOk, After, Dev, Remap;
      var dev := Dev(|dqueue|, b);
      DevBound(|dqueue|, b);
      ghost var w := Write(b, buf);
      ghost var sys := After(io.disks, firsts, taken);
      AfterOk(io.disks, firsts, taken);
      AfterMore(io.disks, firsts, taken, w);
      TakeNext(dev, buf, Remap(|dqueue|, b), sys);
      WorkingValid(Put(io.disks, sys, w));
      taken := taken + [w];
    }

    method FlushNext(n: nat, ghost sys: System)
      requires Working(sys) && n < |dqueue|
      modifies dqueue[n], io`hw
      ensures Working(Back(sys, n, FlushSlots(io.disks, LineAt(sys, n), DEPTH))) && dqueue[n].Quiet()
    {
      hide FlushSlots, HwOk, Sound, SysOk, Leads;
      SoundAt(io.disks, sys, n);
      FlushLeads(io.disks, LineAt(sys, n), DEPTH);
      LineStep(io.disks, sys, n, FlushSlots(io.disks, LineAt(sys, n), DEPTH));
      dqueue[n].Flush();
    }

    method FlushAll()
      requires Valid()
      modifies dqueue, io`hw
      ensures Separate() && io.Valid() && forall i :: 0 <= i < |dqueue| ==> dqueue[i].Quiet()
      ensures Matches(FlushQueues(io.disks, After(io.disks, firsts, taken), io.disks))
    {
      hide FlushSlots, HwOk, Sound, SysOk, After;
      ghost var sys := After(io.disks, firsts, taken);
      AfterOk(io.disks, firsts, taken);
      for n := 0 to |dqueue|
        invariant Working(FlushQueues(io.disks, sys, n))
        invariant forall i :: 0 <= i < n ==> dqueue[i].Quiet()
      {
        FlushNext(n, FlushQueues(io.disks, sys, n));
      }
    }

    /** Everything taken is on the disks; for writes that are well placed and do not race, as if they
        had been written one at a time. */
    method Flush()
      requires Valid()
      modifies this, dqueue, io
      ensures Valid() && taken == [] && io.base == io.hw.disk
      ensures forall q :: 0 <= q < |firsts| ==> firsts[q] == After(io.disks, old(firsts), old(taken)).qs[q].idx
      ensures Settled(Program(io.disks, old(firsts), old(taken)), old(io.base), io.hw.disk)
      ensures WellPlaced(io.disks, Numbers(old(taken))) && NoRace(io.disks, old(firsts)[0], old(taken)) ==>
                io.hw.disk == OneAtATime(io.disks, old(io.base), old(taken))
    {
      hide After, FlushQueues, HwOk, Sound, Settled, WellPlaced, NoRace, OneAtATime, AllComplete, SysOk, Requests;
      FlushAll();
      AllWaited(io.hw, io.base, io.disks, firsts, taken);
      io.Restart();
      if WellPlaced(io.disks, Numbers(taken)) && NoRace(io.disks, firsts[0], taken) {
        SettledRight(io.disks, firsts, taken, old(io.base), io.hw.disk);
      }
      forall q | 0 <= q < |dqueue| ensures dqueue[q].idx == After(io.disks, firsts, taken).qs[q].idx {
        FinalQueue(io.disks, firsts, taken, q);
        assert dqueue[q].View() == FlushQueues(io.disks, After(io.disks, firsts, taken), io.disks).qs[q];
      }
      NewRound();
    }

    /** All queues start anew, each at the slot it has come to. */
    ghost method NewRound()
      requires Separate() && io.Valid() && io.hw.cmds == [] && forall i :: 0 <= i < |dqueue| ==> dqueue[i].Quiet()
      modifies this, dqueue`done
      ensures Valid() && taken == [] && forall i :: 0 <= i < |firsts| ==> firsts[i] == dqueue[i].idx
    {
      for n := 0 to |dqueue|
        invariant Separate() && io.Valid() && io.hw.cmds == [] && forall i :: 0 <= i < |dqueue| ==> dqueue[i].Quiet()
        invariant forall i :: 0 <= i < n ==> dqueue[i].Valid() && dqueue[i].View() == Fresh(dqueue[i].idx)
      {
        dqueue[n].Restart();
      }
      taken := [];
      firsts := seq(|dqueue|, i requires 0 <= i < |dqueue| reads this, dqueue => dqueue[i].idx);
    }
  }

  /** A flush waits for every request. */
  lemma AllWaited(h: Hw, base: Contents, disks: nat, firsts: seq<nat>, ws: seq<Write>)
    requires HwOk(h, base) && FirstSlots(disks, firsts) && h.cmds == Program(disks, firsts, ws)
    ensures AllComplete(h)
  {
    hide Program;
    forall k: nat | k < |h.cmds| && h.cmds[k].Issue? ensures Complete(h, k) {
      ProgramIssue(disks, firsts, ws, k);
    }
  }
}
