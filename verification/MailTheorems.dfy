/**
 What the mail spool promises: messages are delivered exactly once, intact, to the
 recipient on their envelope, and EXIT ends every queue-manager thread after all
 earlier mail.
 */
module MailTheorems {
  import opened MailFraming
  import opened MailSpool
  import opened MailInvariant
  import opened MailSteps

  ghost predicate IsRun(c: Config, run: seq<State>) {
    && |run| > 0 && Init(c, run[0])
    && forall i :: 0 <= i < |run| - 1 ==> NextState(c, run[i], run[i + 1])
  }

  ghost predicate NextState(c: Config, s: State, s': State) {
    exists step :: NextBy(c, s, step, s')
  }

  lemma InitInv(c: Config, s: State)
    requires Init(c, s)
    ensures Inv(c, s)
  {
  }

  lemma {:induction false} RunKeepsInv(c: Config, run: seq<State>, i: nat)
    requires IsRun(c, run) && i < |run|
    ensures Inv(c, run[i])
  {
    hide Inv, NextBy, Init;
    if i == 0 {
      InitInv(c, run[0]);
    } else {
      RunKeepsInv(c, run, i - 1);
      assert NextState(c, run[i - 1], run[i - 1 + 1]);
      var step :| NextBy(c, run[i - 1], step, run[i]);
      StepKeepsInv(c, run[i - 1], step, run[i]);
    }
  }

  // ----------------------------------------------------------------------
  // Delivery
  // ----------------------------------------------------------------------

  /** No process ever fails: every exclusive create finds its name free and every file that is
      opened is there. */
  lemma NobodyDies(c: Config, run: seq<State>, i: nat)
    requires IsRun(c, run) && i < |run|
    ensures forall p :: p in run[i].enqs ==> !run[i].enqs[p].pc.EDied?
    ensures forall w :: w in run[i].wrks ==> NoDeath(run[i].wrks[w])
  {
    RunKeepsInv(c, run, i);
    hide IsRun, Inv;
    forall p | p in run[i].enqs ensures !run[i].enqs[p].pc.EDied? {
      EnqAt(c, run[i], p);
    }
    forall w | w in run[i].wrks ensures NoDeath(run[i].wrks[w]) {
      WrkAt(c, run[i], w);
      WrkLives(c, run[i], w, run[i].wrks[w]);
    }
  }

  /** The renames into mess/ and new/ never replace an existing message. */
  lemma RenamesOverwriteNothing(c: Config, run: seq<State>, i: nat)
    requires IsRun(c, run) && i < |run|
    ensures forall p :: p in run[i].enqs && run[i].enqs[p].pc.EFiled? ==>
              PidFile(p) in run[i].fs.dir && Mess(run[i].enqs[p].pc.i) !in run[i].fs.dir
    ensures forall w :: w in run[i].wrks && run[i].wrks[w].child.Child? && run[i].wrks[w].child.pc.CName? ==>
              var ch := run[i].wrks[w].child;
              Tmp(ch.r, ch.pid, ch.q) in run[i].fs.dir && New(ch.r, ch.pc.t) !in run[i].fs.dir
  {
    RunKeepsInv(c, run, i);
    hide IsRun, Inv, FsOk, FsSane, LogOk, PidsOk;
    var s := run[i];
    forall p | p in s.enqs && s.enqs[p].pc.EFiled? ensures PidFile(p) in s.fs.dir && Mess(s.enqs[p].pc.i) !in s.fs.dir {
      EnqAt(c, s, p);
      MessIsFree(s, p, s.enqs[p].pc.i);
    }
    forall w | w in s.wrks && s.wrks[w].child.Child? && s.wrks[w].child.pc.CName?
      ensures var ch := s.wrks[w].child; Tmp(ch.r, ch.pid, ch.q) in s.fs.dir && New(ch.r, ch.pc.t) !in s.fs.dir
    {
      WrkAt(c, s, w);
      NewIsFree(s, s.wrks[w].child, s.wrks[w].child.pc.t);
    }
  }

  /** Every delivery made went to the recipient on the envelope, no message was delivered twice,
      and every file in a mailbox is a delivered message, byte for byte. */
  lemma DeliveriesAreRight(c: Config, run: seq<State>, i: nat)
    requires IsRun(c, run) && i < |run|
    ensures var s := run[i];
            && (forall d :: d in s.log ==> d.r == d.m.rcpt)
            && (forall a, b :: 0 <= a < b < |s.log| ==> s.log[a].m.uid != s.log[b].m.uid)
            && (forall r, j :: New(r, j) in s.fs.dir ==>
                  exists d :: d in s.log && d.r == r && d.m.rcpt == r && Content(s.fs, s.fs.dir[New(r, j)]) == d.m.body)
  {
    RunKeepsInv(c, run, i);
    hide IsRun;
    var s := run[i];
    forall r, j | New(r, j) in s.fs.dir
      ensures exists d :: d in s.log && d.r == r && d.m.rcpt == r && Content(s.fs, s.fs.dir[New(r, j)]) == d.m.body
    {
      assert NameOk(s, New(r, j));
      var d :| d in s.log && d.r == r && d.i == j && s.fs.data[j] == d.m.body;
    }
  }

  /** The moment of delivery: the new mailbox file holds exactly the message in hand. */
  lemma DeliveryMoment(c: Config, s: State, step: Step, s': State)
    requires Inv(c, s) && NextBy(c, s, step, s') && s'.log != s.log
    ensures exists d :: s'.log == s.log + [d] && New(d.m.rcpt, d.i) !in s.fs.dir
                        && At(s'.fs, New(d.m.rcpt, d.i), d.i) && s'.fs.data[d.i] == d.m.body
  {
    hide Inv, FsOk, FsSane, LogOk, PidsOk, WrkOk, EnqStep, WrkStep, SendExit;
    OnlyChildrenLog(c, s, step, s');
    var w := step.w;
    var ch := s.wrks[w].child;
    WrkAt(c, s, w);
    WorkingOn(c, s, w, s.wrks[w]);
    NamedOk(c, s, s', w);
    NewIsFree(s, ch, ch.pc.t);
    var d := Delivery(s.wrks[w].pc.m, ch.r, ch.pc.t);
    assert s'.log == s.log + [d];
  }

  lemma OnlyChildrenLog(c: Config, s: State, step: Step, s': State)
    requires NextBy(c, s, step, s') && s'.log != s.log
    ensures step.DoChild? && s.wrks[step.w].child.pc.CName?
  {
    hide EnqStep, WrkStep;
    if step.DoEnq? {
      EnqDoesNotLog(s, s', step.p, step.i, step.k);
    } else if step.DoWrk? {
      WrkDoesNotLog(c, s, s', step.w, step.pid, step.k);
    }
  }

  lemma EnqDoesNotLog(s: State, s': State, p: Pid, i: Ino, k: nat)
    requires p in s.enqs && EnqStep(s, s', p, i, k)
    ensures s'.log == s.log
  {
  }

  lemma WrkDoesNotLog(c: Config, s: State, s': State, w: Wid, pid: Pid, k: nat)
    requires w in s.wrks && WrkStep(c, s, s', w, pid, k)
    ensures s'.log == s.log
  {
    hide OpenStep, FeedStep, RemoveStep, LeaveStep, DeliverStep, Dequeue;
    var pc := s.wrks[w].pc;
    if pc.WWait? {
      DequeueDoesNotLog(c, s, s', w);
    } else if pc.WMsg? {
      DeliverDoesNotLog(c, s, s', w, pid);
    } else if pc.WGot? || pc.WEnvelope? || pc.WRcpt? {
      OpenDoesNotLog(s, s', w);
    } else if pc.WDelivered? || pc.WClosed? || pc.WHalf? {
      RemoveDoesNotLog(s, s', w);
    } else if pc.WCascade? || pc.WLeave? {
      LeaveDoesNotLog(s, s', w);
    } else {
      FeedDoesNotLog(s, s', w, k);
    }
  }

  lemma DequeueDoesNotLog(c: Config, s: State, s': State, w: Wid)
    requires w in s.wrks && s.wrks[w].pc.WWait? && Dequeue(c, s, s', w)
    ensures s'.log == s.log
  {
  }

  lemma DeliverDoesNotLog(c: Config, s: State, s': State, w: Wid, pid: Pid)
    requires w in s.wrks && s.wrks[w].pc.WMsg? && DeliverStep(c, s, s', w, pid)
    ensures s'.log == s.log
  {
    hide Encode64;
  }

  lemma OpenDoesNotLog(s: State, s': State, w: Wid)
    requires w in s.wrks && (s.wrks[w].pc.WGot? || s.wrks[w].pc.WEnvelope? || s.wrks[w].pc.WRcpt?) && OpenStep(s, s', w)
    ensures s'.log == s.log
  {
  }

  lemma FeedDoesNotLog(s: State, s': State, w: Wid, k: nat)
    requires w in s.wrks
    requires (s.wrks[w].pc.WStop? || s.wrks[w].pc.WSpawned? || s.wrks[w].pc.WPipe? || s.wrks[w].pc.WAnswer?)
    requires FeedStep(s, s', w, k)
    ensures s'.log == s.log
  {
  }

  lemma RemoveDoesNotLog(s: State, s': State, w: Wid)
    requires w in s.wrks && (s.wrks[w].pc.WDelivered? || s.wrks[w].pc.WClosed? || s.wrks[w].pc.WHalf?)
    requires RemoveStep(s, s', w)
    ensures s'.log == s.log
  {
  }

  lemma LeaveDoesNotLog(s: State, s': State, w: Wid)
    requires w in s.wrks && (s.wrks[w].pc.WCascade? || s.wrks[w].pc.WLeave?) && LeaveStep(s, s', w)
    ensures s'.log == s.log
  {
  }

  /** Every notified message is waiting in the socket, or in the hands of one thread, or has been
      delivered; and it is still undelivered while it waits. */
  lemma NotifiedIsSomewhere(c: Config, run: seq<State>, i: nat, u: nat)
    requires IsRun(c, run) && i < |run| && u in run[i].place && !run[i].place[u].Writer?
    ensures var s := run[i];
            match s.place[u]
            case Queued =>
              !Logged(s.log, u) && exists k :: 0 <= k < |s.sock| && s.sock[k].Mail? && s.sock[k].m.uid == u
            case Handler(w) => w in s.wrks && InHand(s.wrks[w].pc).Some? && InHand(s.wrks[w].pc).value.uid == u
            case _ => Logged(s.log, u)
  {
    RunKeepsInv(c, run, i);
    hide IsRun;
    var s := run[i];
    assert PlaceOk(s, u);
    if s.place[u].Queued? {
      var k :| 0 <= k < |s.sock| && s.sock[k].Mail? && s.sock[k].m.uid == u;
      assert s.sock[k] in s.sock && NoteOk(s, s.sock[k]);
    }
  }

  // ----------------------------------------------------------------------
  // EXIT
  // ----------------------------------------------------------------------

  /** Threads that have taken a control message from the socket. */
  ghost predicate Leaving(pc: WrkPC) {
    pc.WCascade? || pc.WLeave? || pc.WGone?
  }

  ghost function Leavers(s: State): set<Wid> {
    set w | w in s.wrks && Leaving(s.wrks[w].pc)
  }

  ghost function Exit2s(sock: seq<Note>): nat {
    if sock == [] then 0 else (if sock[0] == Exit2 then 1 else 0) + Exit2s(sock[1..])
  }

  lemma {:induction false} Exit2sAppend(sock: seq<Note>, n: Note)
    ensures Exit2s(sock + [n]) == Exit2s(sock) + if n == Exit2 then 1 else 0
  {
    if sock == [] {
      assert sock + [n] == [n];
    } else {
      Exit2sAppend(sock[1..], n);
      assert (sock + [n])[1..] == sock[1..] + [n];
    }
  }

  lemma {:induction false} Exit2sNone(sock: seq<Note>)
    ensures Exit2s(sock) == 0 <==> Exit2 !in sock
  {
    if sock != [] {
      Exit2sNone(sock[1..]);
    }
  }

  ghost predicate NoControl(s: State) {
    Exit !in s.sock && Exit2 !in s.sock && Leavers(s) == {}
  }

  /** EXIT is still at position `k` of the queue; everything notified before it is in front. */
  ghost predicate ExitWaits(s: State, k: nat) {
    && k < |s.sock| && s.sock[k] == Exit && Leavers(s) == {}
    && (forall j :: 0 <= j < |s.sock| && j != k ==> s.sock[j].Mail?)
    && forall j :: k < j < |s.sock| ==> s.sock[j].m.uid !in s.early
  }

  ghost function Left(pc: WrkPC): nat {
    if pc.WCascade? then pc.left else 0
  }

  /** Thread `b` has taken EXIT: the control messages in the queue, those it has yet to send and
      the threads that took one add up to all threads. */
  ghost predicate ExitTaken(c: Config, s: State, b: Wid) {
    && b in s.wrks && Leaving(s.wrks[b].pc) && Exit !in s.sock
    && (forall w :: w in s.wrks && w != b ==> !s.wrks[w].pc.WCascade?)
    && Exit2s(s.sock) + Left(s.wrks[b].pc) + |Leavers(s)| == c.nthread
    && forall n :: n in s.sock && n.Mail? ==> n.m.uid !in s.early
  }

  ghost predicate ExitOk(c: Config, s: State) {
    && c.nthread > 0 && (forall w: Wid :: w in s.wrks <==> w < c.nthread)
    && (if !s.exiting then NoControl(s)
        else (exists k :: ExitWaits(s, k)) || exists b :: ExitTaken(c, s, b))
    && (s.exiting ==> forall u :: u in s.early ==> u in s.place && !s.place[u].Writer?)
  }

  /** A step that neither sends nor takes a notification. */
  ghost predicate Neutral(s: State, s': State) {
    && s'.sock == s.sock && s'.exiting == s.exiting && s'.early == s.early && s'.wrks.Keys == s.wrks.Keys
    && (forall w :: w in s.wrks ==> SameLeaving(s.wrks[w].pc, s'.wrks[w].pc))
    && StaysNotified(s, s')
  }

  ghost predicate SameLeaving(pc: WrkPC, pc': WrkPC) {
    && (Leaving(pc') <==> Leaving(pc)) && Left(pc') == Left(pc) && (pc'.WCascade? ==> pc.WCascade?)
  }

  ghost predicate StaysNotified(s: State, s': State) {
    forall u :: u in s.place && !s.place[u].Writer? ==> u in s'.place && !s'.place[u].Writer?
  }

  lemma NeutralExit(c: Config, s: State, s': State)
    requires ExitOk(c, s) && Neutral(s, s')
    ensures ExitOk(c, s')
  {
    assert Leavers(s') == Leavers(s);
    if s.exiting {
      if k :| ExitWaits(s, k) {
        assert ExitWaits(s', k);
      } else {
        var b :| ExitTaken(c, s, b);
        assert SameLeaving(s.wrks[b].pc, s'.wrks[b].pc);
        assert ExitTaken(c, s', b);
      }
    }
  }

  lemma EnqIsNeutral(s: State, s': State, p: Pid, i: Ino, k: nat)
    requires p in s.enqs && EnqStep(s, s', p, i, k)
    ensures if s.enqs[p].pc.EMoved? then Neutral(s, s'.(sock := s.sock)) else Neutral(s, s')
  {
  }

  /** Only thread `w` and its child, their pipes, files and the log change. */
  ghost predicate OneThread(s: State, s': State, w: Wid) {
    && w in s.wrks && w in s'.wrks && s'.wrks == s.wrks[w := s'.wrks[w]]
    && s'.sock == s.sock && s'.exiting == s.exiting && s'.early == s.early
  }

  lemma OneThreadNeutral(s: State, s': State, w: Wid)
    requires OneThread(s, s', w) && SameLeaving(s.wrks[w].pc, s'.wrks[w].pc) && StaysNotified(s, s')
    ensures Neutral(s, s')
  {
  }

  lemma DeliverIsNeutral(c: Config, s: State, s': State, w: Wid, pid: Pid)
    requires w in s.wrks && s.wrks[w].pc.WMsg? && DeliverStep(c, s, s', w, pid)
    ensures Neutral(s, s')
  {
    hide Encode64, FreePid, Neutral, Content;
    assert OneThread(s, s', w);
    assert StaysNotified(s, s');
    OneThreadNeutral(s, s', w);
  }

  lemma WrkIsNeutral(c: Config, s: State, s': State, w: Wid, pid: Pid, k: nat)
    requires w in s.wrks && WrkStep(c, s, s', w, pid, k) && !s.wrks[w].pc.WWait?
    requires s.wrks[w].pc.WCascade? ==> s.wrks[w].pc.left == 0
    ensures Neutral(s, s')
  {
    if s.wrks[w].pc.WMsg? {
      hide DeliverStep, Neutral;
      DeliverIsNeutral(c, s, s', w, pid);
    } else {
      hide WrkStep, StaysNotified, Neutral, SameLeaving, OneThread;
      OnlyForward(c, s, s', w, pid, k);
      WrkShape(c, s, s', w, pid, k);
      OneThreadNeutral(s, s', w);
    }
  }

  lemma WrkShape(c: Config, s: State, s': State, w: Wid, pid: Pid, k: nat)
    requires w in s.wrks && WrkStep(c, s, s', w, pid, k) && !s.wrks[w].pc.WWait? && !s.wrks[w].pc.WMsg?
    requires s.wrks[w].pc.WCascade? ==> s.wrks[w].pc.left == 0
    ensures OneThread(s, s', w) && SameLeaving(s.wrks[w].pc, s'.wrks[w].pc)
  {
    hide OpenStep, RemoveStep, LeaveStep, FeedStep, Dequeue, DeliverStep, OneThread, SameLeaving;
    var pc := s.wrks[w].pc;
    if pc.WGot? || pc.WEnvelope? || pc.WRcpt? {
      assert OpenStep(s, s', w);
      OpenShape(s, s', w);
    } else if pc.WDelivered? || pc.WClosed? || pc.WHalf? {
      assert RemoveStep(s, s', w);
      RemoveShape(s, s', w);
    } else if pc.WCascade? || pc.WLeave? {
      assert LeaveStep(s, s', w);
      LeaveShape(s, s', w);
    } else {
      assert FeedStep(s, s', w, k);
      FeedShape(s, s', w, k);
    }
  }

  lemma OpenShape(s: State, s': State, w: Wid)
    requires w in s.wrks && (s.wrks[w].pc.WGot? || s.wrks[w].pc.WEnvelope? || s.wrks[w].pc.WRcpt?) && OpenStep(s, s', w)
    ensures OneThread(s, s', w) && SameLeaving(s.wrks[w].pc, s'.wrks[w].pc)
  {
    OneThreadBy(s, s', w, s'.wrks[w]);
  }

  lemma FeedShape(s: State, s': State, w: Wid, k: nat)
    requires w in s.wrks
    requires (s.wrks[w].pc.WStop? || s.wrks[w].pc.WSpawned? || s.wrks[w].pc.WPipe? || s.wrks[w].pc.WAnswer?)
    requires FeedStep(s, s', w, k)
    ensures OneThread(s, s', w) && SameLeaving(s.wrks[w].pc, s'.wrks[w].pc)
  {
    OneThreadBy(s, s', w, s'.wrks[w]);
  }

  lemma RemoveShape(s: State, s': State, w: Wid)
    requires w in s.wrks && (s.wrks[w].pc.WDelivered? || s.wrks[w].pc.WClosed? || s.wrks[w].pc.WHalf?)
    requires RemoveStep(s, s', w)
    ensures OneThread(s, s', w) && SameLeaving(s.wrks[w].pc, s'.wrks[w].pc)
  {
    OneThreadBy(s, s', w, s'.wrks[w]);
  }

  lemma LeaveShape(s: State, s': State, w: Wid)
    requires w in s.wrks && (s.wrks[w].pc == WCascade(0) || s.wrks[w].pc.WLeave?) && LeaveStep(s, s', w)
    ensures OneThread(s, s', w) && SameLeaving(s.wrks[w].pc, s'.wrks[w].pc)
  {
    OneThreadBy(s, s', w, s'.wrks[w]);
  }

  lemma OneThreadBy(s: State, s': State, w: Wid, x: Wrk)
    requires w in s.wrks && s'.wrks == s.wrks[w := x] && s'.sock == s.sock && s'.exiting == s.exiting
    requires s'.early == s.early
    requires (InHand(s.wrks[w].pc).Some? && (InHand(x.pc).Some? || x.pc.WWait? || x.pc.WDied?))
          || (s.wrks[w].pc == WCascade(0) && x.pc.WLeave?) || (s.wrks[w].pc.WLeave? && (x.pc.WLeave? || x.pc.WGone?))
    ensures OneThread(s, s', w) && SameLeaving(s.wrks[w].pc, s'.wrks[w].pc)
  {
  }

  lemma OnlyForward(c: Config, s: State, s': State, w: Wid, pid: Pid, k: nat)
    requires w in s.wrks && WrkStep(c, s, s', w, pid, k) && !s.wrks[w].pc.WMsg?
    ensures StaysNotified(s, s')
  {
  }

  lemma ChildIsNeutral(c: Config, s: State, s': State, w: Wid, t: Ino, k: nat)
    requires w in s.wrks && s.wrks[w].child.Child? && ChildStep(c, s, s', w, t, k)
    ensures Neutral(s, s')
  {
    hide ChildStep, Neutral;
    if s.wrks[w].child.pc.CCopy? {
      CopyShape(c, s, s', w, t, k);
    } else {
      ChildShape(c, s, s', w, t, k);
    }
    OneThreadNeutral(s, s', w);
  }

  lemma CopyShape(c: Config, s: State, s': State, w: Wid, t: Ino, k: nat)
    requires w in s.wrks && s.wrks[w].child.Child? && s.wrks[w].child.pc.CCopy? && ChildStep(c, s, s', w, t, k)
    ensures OneThread(s, s', w) && s'.wrks[w].pc == s.wrks[w].pc && s'.place == s.place
  {
    hide Input, Append, Content;
    assert s.wrks[w := s.wrks[w]] == s.wrks;
  }

  lemma ChildShape(c: Config, s: State, s': State, w: Wid, t: Ino, k: nat)
    requires w in s.wrks && s.wrks[w].child.Child? && !s.wrks[w].child.pc.CCopy? && ChildStep(c, s, s', w, t, k)
    ensures OneThread(s, s', w) && s'.wrks[w].pc == s.wrks[w].pc && s'.place == s.place
  {
    hide OneThread, Decode64, Create, Rename, Free, InHand;
    match s.wrks[w].child.pc
    case CWait => OneThreadIs(s, s', w, s'.wrks[w]);
    case CCreate(_) => OneThreadIs(s, s', w, s'.wrks[w]);
    case CName(_, _) => OneThreadIs(s, s', w, s'.wrks[w]);
    case CReply => OneThreadIs(s, s', w, s'.wrks[w]);
    case _ =>
  }

  lemma OneThreadIs(s: State, s': State, w: Wid, x: Wrk)
    requires w in s.wrks && s'.wrks == s.wrks[w := x]
    requires s'.sock == s.sock && s'.exiting == s.exiting && s'.early == s.early
    ensures OneThread(s, s', w) && w in s'.wrks && s'.wrks[w] == x
  {
  }

  /** A new notification goes behind EXIT, if EXIT has been sent. */
  lemma NotifyExit(c: Config, s: State, s': State, n: Note)
    requires ExitOk(c, s) && n.Mail? && (s.exiting ==> n.m.uid !in s.early)
    requires Neutral(s, s'.(sock := s.sock)) && s'.sock == s.sock + [n]
    ensures ExitOk(c, s')
  {
    var t := s'.(sock := s.sock);
    NeutralExit(c, s, t);
    assert Leavers(s') == Leavers(t);
    Exit2sAppend(s.sock, n);
    if s.exiting {
      if k :| ExitWaits(t, k) {
        assert ExitWaits(s', k);
      } else {
        var b :| ExitTaken(c, t, b);
        assert ExitTaken(c, s', b);
      }
    }
  }

  lemma SendExitOk(c: Config, s: State, s': State)
    requires ExitOk(c, s) && SendExit(s, s')
    ensures ExitOk(c, s')
  {
    assert Leavers(s') == Leavers(s);
    forall j | 0 <= j < |s.sock| ensures s'.sock[j].Mail? {
      assert s.sock[j] in s.sock;
    }
    assert ExitWaits(s', |s.sock|);
  }

  lemma TakeMailExit(c: Config, s: State, s': State, w: Wid)
    requires ExitOk(c, s) && w in s.wrks && s.wrks[w].pc.WWait? && Dequeue(c, s, s', w) && s.sock[0].Mail?
    ensures ExitOk(c, s')
  {
    assert Leavers(s') == Leavers(s);
    assert forall j :: 0 <= j < |s'.sock| ==> s'.sock[j] == s.sock[j + 1];
    assert StaysNotified(s, s');
    if s.exiting {
      if k: nat :| ExitWaits(s, k) {
        assert ExitWaits(s', k - 1);
      } else {
        var b :| ExitTaken(c, s, b);
        assert ExitTaken(c, s', b);
      }
    }
  }

  lemma TakeExit(c: Config, s: State, s': State, w: Wid)
    requires ExitOk(c, s) && w in s.wrks && s.wrks[w].pc.WWait? && Dequeue(c, s, s', w) && s.sock[0] == Exit
    ensures ExitOk(c, s')
  {
    assert s.sock[0] in s.sock;
    assert s.exiting && exists k :: ExitWaits(s, k);
    var k :| ExitWaits(s, k);
    assert k == 0;
    assert forall v :: v in s.wrks ==> v !in Leavers(s);
    assert Leavers(s') == {w};
    assert forall j :: 0 <= j < |s'.sock| ==> s'.sock[j] == s.sock[j + 1];
    Exit2sNone(s'.sock);
    assert ExitTaken(c, s', w);
  }

  lemma TakeExit2(c: Config, s: State, s': State, w: Wid)
    requires ExitOk(c, s) && w in s.wrks && s.wrks[w].pc.WWait? && Dequeue(c, s, s', w) && s.sock[0] == Exit2
    ensures ExitOk(c, s')
  {
    assert s.sock[0] in s.sock;
    assert s.exiting;
    forall k ensures !ExitWaits(s, k) {
    }
    var b :| ExitTaken(c, s, b);
    assert Leavers(s') == Leavers(s) + {w} && w !in Leavers(s);
    assert ExitTaken(c, s', b);
  }

  lemma CascadeExit(c: Config, s: State, s': State, w: Wid)
    requires ExitOk(c, s) && w in s.wrks && s.wrks[w].pc.WCascade? && s.wrks[w].pc.left > 0
    requires WrkStep(c, s, s', w, 0, 0)
    ensures ExitOk(c, s')
  {
    assert w in Leavers(s);
    var b :| ExitTaken(c, s, b);
    assert b == w;
    assert Leavers(s') == Leavers(s);
    Exit2sAppend(s.sock, Exit2);
    assert ExitTaken(c, s', b);
  }

  /** Every step keeps the account of control messages. */
  lemma StepKeepsExit(c: Config, s: State, step: Step, s': State)
    requires Inv(c, s) && ExitOk(c, s) && NextBy(c, s, step, s')
    ensures ExitOk(c, s')
  {
    hide ExitOk, Neutral, WrkStep, EnqStep, ChildStep, Inv, Dequeue;
    match step
    case DoSubmit(p, m) =>
      assert Neutral(s, s') by { SubmitIsNeutral(s, s', p, m); }
      NeutralExit(c, s, s');
    case DoEnq(p, i, k) =>
      EnqIsNeutral(s, s', p, i, k);
      if s.enqs[p].pc.EMoved? {
        WriterIsLate(c, s, s', p, i, k);
        NotifyExit(c, s, s', Mail(s.enqs[p].pc.i, s.enqs[p].m));
      } else {
        NeutralExit(c, s, s');
      }
    case DoExit => SendExitOk(c, s, s');
    case DoWrk(w, pid, k) => WrkKeepsExit(c, s, s', w, pid, k);
    case DoChild(w, t, k) =>
      ChildIsNeutral(c, s, s', w, t, k);
      NeutralExit(c, s, s');
    case DoRead(r, i) =>
      assert Neutral(s, s') by { ReadIsNeutral(s, s'); }
      NeutralExit(c, s, s');
  }

  lemma SubmitIsNeutral(s: State, s': State, p: Pid, m: Msg)
    requires Submit(s, s', p, m)
    ensures Neutral(s, s')
  {
  }

  lemma ReadIsNeutral(s: State, s': State)
    requires s' == s.(fs := s'.fs)
    ensures Neutral(s, s')
  {
  }

  lemma WriterIsLate(c: Config, s: State, s': State, p: Pid, i: Ino, k: nat)
    requires Inv(c, s) && ExitOk(c, s) && p in s.enqs && s.enqs[p].pc.EMoved? && EnqStep(s, s', p, i, k)
    ensures s.exiting ==> s.enqs[p].m.uid !in s.early
    ensures s'.sock == s.sock + [Mail(s.enqs[p].pc.i, s.enqs[p].m)]
  {
    EnqAt(c, s, p);
  }

  lemma WrkKeepsExit(c: Config, s: State, s': State, w: Wid, pid: Pid, k: nat)
    requires ExitOk(c, s) && w in s.wrks && WrkStep(c, s, s', w, pid, k)
    ensures ExitOk(c, s')
  {
    hide ExitOk, Neutral, Dequeue, DeliverStep;
    if s.wrks[w].pc.WWait? {
      assert s.sock != [] by { DequeueNeeds(c, s, s', w); }
      match s.sock[0]
      case Mail(_, _) => TakeMailExit(c, s, s', w);
      case Exit => TakeExit(c, s, s', w);
      case Exit2 => TakeExit2(c, s, s', w);
    } else if s.wrks[w].pc.WCascade? && s.wrks[w].pc.left > 0 {
      CascadeExit(c, s, s', w);
    } else {
      WrkIsNeutral(c, s, s', w, pid, k);
      NeutralExit(c, s, s');
    }
  }

  lemma DequeueNeeds(c: Config, s: State, s': State, w: Wid)
    requires w in s.wrks && s.wrks[w].pc.WWait? && Dequeue(c, s, s', w)
    ensures s.sock != []
  {
  }

  lemma {:induction false} RunKeepsExit(c: Config, run: seq<State>, i: nat)
    requires IsRun(c, run) && i < |run|
    ensures ExitOk(c, run[i])
  {
    hide Inv, NextBy, ExitOk;
    if i == 0 {
      InitExit(c, run[0]);
    } else {
      RunKeepsExit(c, run, i - 1);
      RunKeepsInv(c, run, i - 1);
      assert NextState(c, run[i - 1], run[i - 1 + 1]);
      var step :| NextBy(c, run[i - 1], step, run[i]);
      StepKeepsExit(c, run[i - 1], step, run[i]);
    }
  }

  lemma InitExit(c: Config, s: State)
    requires Init(c, s)
    ensures ExitOk(c, s)
  {
    assert Leavers(s) == {};
  }

  // ----------------------------------------------------------------------
  // One control message for each thread
  // ----------------------------------------------------------------------

  /** In the step from `s` to `s'`, thread `w` takes a control message from the socket and leaves. */
  ghost predicate Takes(s: State, s': State, w: Wid) {
    && w in s.wrks && s.wrks[w].pc.WWait? && s.sock != [] && !s.sock[0].Mail?
    && s'.sock == s.sock[1..] && w in s'.wrks && Leaving(s'.wrks[w].pc)
  }

  /** How many control messages thread `w` has taken by moment `i`. */
  ghost function ControlsTaken(run: seq<State>, i: nat, w: Wid): nat
    requires i < |run|
  {
    if i == 0 then 0 else ControlsTaken(run, i - 1, w) + if Takes(run[i - 1], run[i], w) then 1 else 0
  }

  ghost predicate TakesIff(s: State, s': State, w: Wid) {
    && w in s.wrks && w in s'.wrks
    && (Leaving(s'.wrks[w].pc) <==> Leaving(s.wrks[w].pc) || Takes(s, s', w))
    && (Takes(s, s', w) ==> !Leaving(s.wrks[w].pc))
  }

  lemma NeutralTakes(s: State, s': State, w: Wid)
    requires w in s.wrks && (Neutral(s, s') || (Neutral(s, s'.(sock := s.sock)) && |s'.sock| == |s.sock| + 1))
    ensures TakesIff(s, s', w)
  {
  }

  lemma DequeueTakes(c: Config, s: State, s': State, v: Wid, w: Wid)
    requires v in s.wrks && w in s.wrks && s.wrks[v].pc.WWait? && Dequeue(c, s, s', v)
    ensures TakesIff(s, s', w)
  {
  }

  lemma CascadeTakes(c: Config, s: State, s': State, v: Wid, w: Wid, pid: Pid, k: nat)
    requires v in s.wrks && w in s.wrks && s.wrks[v].pc.WCascade? && s.wrks[v].pc.left > 0
    requires WrkStep(c, s, s', v, pid, k)
    ensures TakesIff(s, s', w)
  {
  }

  lemma WrkTakes(c: Config, s: State, s': State, v: Wid, w: Wid, pid: Pid, k: nat)
    requires v in s.wrks && w in s.wrks && WrkStep(c, s, s', v, pid, k)
    ensures TakesIff(s, s', w)
  {
    hide Neutral, Dequeue, DeliverStep, TakesIff;
    if s.wrks[v].pc.WWait? {
      DequeueTakes(c, s, s', v, w);
    } else if s.wrks[v].pc.WCascade? && s.wrks[v].pc.left > 0 {
      CascadeTakes(c, s, s', v, w, pid, k);
    } else {
      WrkIsNeutral(c, s, s', v, pid, k);
      NeutralTakes(s, s', w);
    }
  }

  lemma StepTakes(c: Config, s: State, step: Step, s': State, w: Wid)
    requires Inv(c, s) && ExitOk(c, s) && NextBy(c, s, step, s') && w in s.wrks
    ensures TakesIff(s, s', w)
  {
    hide Neutral, WrkStep, EnqStep, ChildStep, Inv, TakesIff, ExitOk;
    match step
    case DoSubmit(p, m) =>
      SubmitIsNeutral(s, s', p, m);
      NeutralTakes(s, s', w);
    case DoEnq(p, i, k) =>
      EnqIsNeutral(s, s', p, i, k);
      if s.enqs[p].pc.EMoved? {
        WriterIsLate(c, s, s', p, i, k);
      }
      NeutralTakes(s, s', w);
    case DoExit => SendTakes(s, s', w);
    case DoWrk(v, pid, k) => WrkTakes(c, s, s', v, w, pid, k);
    case DoChild(v, t, k) =>
      ChildIsNeutral(c, s, s', v, t, k);
      NeutralTakes(s, s', w);
    case DoRead(r, i) =>
      ReadIsNeutral(s, s');
      NeutralTakes(s, s', w);
  }

  lemma SendTakes(s: State, s': State, w: Wid)
    requires w in s.wrks && SendExit(s, s')
    ensures TakesIff(s, s', w)
  {
  }

  /** A thread takes one control message, and leaves. */
  lemma {:induction false} TakenOnce(c: Config, run: seq<State>, i: nat, w: Wid)
    requires IsRun(c, run) && i < |run| && w < c.nthread
    ensures w in run[i].wrks && ControlsTaken(run, i, w) == if Leaving(run[i].wrks[w].pc) then 1 else 0
  {
    RunKeepsExit(c, run, i);
    assert w in run[i].wrks;
    hide Inv, NextBy, ExitOk;
    if i > 0 {
      TakenOnce(c, run, i - 1, w);
      RunKeepsInv(c, run, i - 1);
      RunKeepsExit(c, run, i - 1);
      assert NextState(c, run[i - 1], run[i - 1 + 1]);
      var step :| NextBy(c, run[i - 1], step, run[i]);
      StepTakes(c, run[i - 1], step, run[i], w);
    }
  }

  /** The set of all threads is no larger than the number of threads. */
  lemma {:induction false} BelowCount(ws: set<Wid>, n: nat)
    requires forall w :: w in ws ==> w < n
    ensures |ws| <= n && (|ws| == n ==> forall w: Wid :: w < n ==> w in ws)
  {
    if n > 0 {
      var rest := ws - {n - 1};
      BelowCount(rest, n - 1);
      if n - 1 in ws {
        assert ws == rest + {n - 1};
      } else {
        assert ws == rest;
      }
    }
  }

  /** When all threads are gone, each has taken exactly one control message, none is left over,
      and everything notified before EXIT has been delivered. */
  lemma AfterExit(c: Config, run: seq<State>, i: nat)
    requires IsRun(c, run) && i < |run| && forall w :: w in run[i].wrks ==> run[i].wrks[w].pc.WGone?
    ensures var s := run[i];
            && s.exiting && Exit !in s.sock && Exit2 !in s.sock
            && (forall w: Wid :: w in s.wrks <==> w < c.nthread)
            && (forall w :: w in s.wrks ==> ControlsTaken(run, i, w) == 1)
            && forall u :: u in s.early ==> Logged(s.log, u)
  {
    RunKeepsInv(c, run, i);
    RunKeepsExit(c, run, i);
    var s := run[i];
    forall w | w in s.wrks ensures ControlsTaken(run, i, w) == 1 {
      TakenOnce(c, run, i, w);
    }
    assert 0 in s.wrks && 0 in Leavers(s);
    forall k ensures !ExitWaits(s, k) {
    }
    var b :| ExitTaken(c, s, b);
    BelowCount(Leavers(s), c.nthread);
    assert forall w :: w in s.wrks ==> w in Leavers(s);
    assert Leavers(s) == s.wrks.Keys;
    AllCount(Leavers(s), c.nthread);
    Exit2sNone(s.sock);
    hide Inv, IsRun, FsOk, LogOk, PidsOk, SockOk;
    forall u | u in s.early ensures Logged(s.log, u) {
      EarlyIsFinished(c, s, b, u);
    }
  }

  lemma {:induction false} AllCount(ws: set<Wid>, n: nat)
    requires forall w: Wid :: w in ws <==> w < n
    ensures |ws| == n
  {
    if n > 0 {
      var rest := ws - {n - 1};
      AllCount(rest, n - 1);
      assert ws == rest + {n - 1};
    }
  }

  lemma EarlyIsFinished(c: Config, s: State, b: Wid, u: nat)
    requires Inv(c, s) && ExitTaken(c, s, b) && u in s.early && u in s.place && !s.place[u].Writer?
    requires forall w :: w in s.wrks ==> s.wrks[w].pc.WGone?
    ensures Logged(s.log, u)
  {
    assert PlaceOk(s, u);
    forall k | 0 <= k < |s.sock| && s.sock[k].Mail? ensures s.sock[k].m.uid != u {
      assert s.sock[k] in s.sock;
    }
  }
}
