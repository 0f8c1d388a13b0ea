/**
 After EXIT the queue manager comes to an end: as long as a thread is left, some
 thread or delivery process can go on, and each of their steps uses up a finite
 amount of work.
 */
module MailProgress {
  import opened Options
  import opened MailFraming
  import opened MailSpool
  import opened MailInvariant
  import opened MailSteps
  import opened MailTheorems

  // ----------------------------------------------------------------------
  // Work left
  // ----------------------------------------------------------------------

  function Minus(a: nat, b: nat): nat {
    if b <= a then a - b else 0
  }

  function ChildWork(x: Wrk, size: nat): nat {
    match x.child
    case NoChild => 0
    case Child(_, _, _, pc) =>
      match pc
      case CWait => if x.replies == 0 then size + 8 else 3
      case CCreate(_) => size + 7
      case CCopy(_, _, n) => Minus(size, n) + 6
      case CName(_, _) => 5
      case CReply => 4
      case CExit => 3
      case CDied => 0
  }

  function Work(x: Wrk): nat {
    match x.pc
    case WWait => 0
    case WGot(_, m) => 4 * |m.body| + 39
    case WEnvelope(_, m, _) => 4 * |m.body| + 38
    case WRcpt(_, m, _) => 4 * |m.body| + 37
    case WMsg(_, m, r, _) =>
      4 * |m.body| + (if x.child.NoChild? then 32 else if x.child.r != r then 36 else 30)
    case WStop(_, m, _, _) => 4 * |m.body| + (if x.child.Child? && x.child.pc.CWait? then 34 else 33)
    case WSpawned(_, m, _, _) => 9 + ChildWork(x, |m.body|)
    case WPipe(_, m, _, _, sent) => Minus(|m.body|, sent) + 10 + ChildWork(x, |m.body|)
    case WAnswer(_, m, _, _) => 9 + ChildWork(x, |m.body|)
    case WDelivered(_, _) => 3
    case WClosed(_, _) => 2
    case WHalf(_, _) => 1
    case WCascade(left) => 12 * left + 8
    case WLeave => if x.child.NoChild? then 1 else if !x.closed then 5 else if x.child.pc.CWait? then 4 else 3
    case WGone => 0
    case WDied => 0
  }

  function NoteWork(c: Config, n: Note): nat {
    match n
    case Mail(_, m) => 4 * |m.body| + 40
    case Exit => 12 * c.nthread + 20
    case Exit2 => 10
  }

  function SockWork(c: Config, sock: seq<Note>): nat {
    if sock == [] then 0 else NoteWork(c, sock[0]) + SockWork(c, sock[1..])
  }

  lemma {:induction false} SockWorkAppend(c: Config, sock: seq<Note>, n: Note)
    ensures SockWork(c, sock + [n]) == SockWork(c, sock) + NoteWork(c, n)
  {
    if sock == [] {
      assert sock + [n] == [n];
    } else {
      SockWorkAppend(c, sock[1..], n);
      assert (sock + [n])[1..] == sock[1..] + [n];
    }
  }

  function ThreadsWork(wrks: map<Wid, Wrk>, n: nat): nat {
    if n == 0 then 0
    else (if n - 1 in wrks then Work(wrks[n - 1]) else 0) + ThreadsWork(wrks, n - 1)
  }

  lemma {:induction false} ThreadsWorkUpdate(wrks: map<Wid, Wrk>, n: nat, w: Wid, x: Wrk)
    requires w in wrks
    ensures ThreadsWork(wrks[w := x], n) == ThreadsWork(wrks, n) + if w < n then Work(x) - Work(wrks[w]) else 0
  {
    hide Work;
    if n > 0 {
      ThreadsWorkUpdate(wrks, n - 1, w, x);
    }
  }

  /** All the work left to the queue manager. */
  function TotalWork(c: Config, s: State): nat {
    SockWork(c, s.sock) + ThreadsWork(s.wrks, c.nthread)
  }

  // ----------------------------------------------------------------------
  // Every step does some of it
  // ----------------------------------------------------------------------

  lemma OpenWorks(c: Config, s: State, s': State, w: Wid)
    requires w in s.wrks && (s.wrks[w].pc.WGot? || s.wrks[w].pc.WEnvelope? || s.wrks[w].pc.WRcpt?)
    requires OpenStep(s, s', w) && WrkOk(c, s, w, s.wrks[w]) && w in s'.wrks
    ensures Work(s'.wrks[w]) < Work(s.wrks[w])
  {
    hide Logged;
  }

  lemma DeliverWorks(c: Config, s: State, s': State, w: Wid, pid: Pid)
    requires w in s.wrks && s.wrks[w].pc.WMsg? && DeliverStep(c, s, s', w, pid) && WrkOk(c, s, w, s.wrks[w])
    ensures OneThread(s, s', w) && Work(s'.wrks[w]) < Work(s.wrks[w])
  {
    hide Logged, Encode64, FreePid;
  }

  lemma FeedWorks(c: Config, s: State, s': State, w: Wid, k: nat)
    requires w in s.wrks
    requires (s.wrks[w].pc.WStop? || s.wrks[w].pc.WSpawned? || s.wrks[w].pc.WPipe? || s.wrks[w].pc.WAnswer?)
    requires FeedStep(s, s', w, k) && WrkOk(c, s, w, s.wrks[w]) && w in s'.wrks
    ensures Work(s'.wrks[w]) < Work(s.wrks[w])
  {
    hide Logged, Encode64;
  }

  lemma RemoveWorks(s: State, s': State, w: Wid)
    requires w in s.wrks && (s.wrks[w].pc.WDelivered? || s.wrks[w].pc.WClosed? || s.wrks[w].pc.WHalf?)
    requires RemoveStep(s, s', w) && w in s'.wrks
    ensures Work(s'.wrks[w]) < Work(s.wrks[w])
  {
  }

  lemma LeaveWorks(c: Config, s: State, s': State, w: Wid)
    requires w in s.wrks && (s.wrks[w].pc.WCascade? || s.wrks[w].pc.WLeave?)
    requires LeaveStep(s, s', w) && WrkOk(c, s, w, s.wrks[w])
    ensures w in s'.wrks && s'.wrks == s.wrks[w := s'.wrks[w]]
    ensures if s'.sock == s.sock then Work(s'.wrks[w]) < Work(s.wrks[w])
            else s'.sock == s.sock + [Exit2] && Work(s'.wrks[w]) + 10 < Work(s.wrks[w])
  {
    if s.wrks[w].pc.WCascade? {
      hide WrkOk;
    } else {
      LeaverWorks(c, s, s', w);
    }
  }

  lemma LeaverWorks(c: Config, s: State, s': State, w: Wid)
    requires w in s.wrks && s.wrks[w].pc.WLeave? && LeaveStep(s, s', w) && WrkOk(c, s, w, s.wrks[w])
    ensures w in s'.wrks && s'.wrks == s.wrks[w := s'.wrks[w]] && s'.sock == s.sock
    ensures Work(s'.wrks[w]) < Work(s.wrks[w])
  {
    hide Running, Streaming, Handles, Logged;
  }

  lemma OneThreadWorks(c: Config, s: State, s': State, w: Wid)
    requires OneThread(s, s', w) && w < c.nthread && Work(s'.wrks[w]) < Work(s.wrks[w])
    ensures TotalWork(c, s') < TotalWork(c, s)
  {
    hide Work;
    ThreadsWorkUpdate(s.wrks, c.nthread, w, s'.wrks[w]);
  }

  lemma DequeueDrops(c: Config, s: State, s': State, w: Wid)
    requires w in s.wrks && s.wrks[w].pc.WWait? && Dequeue(c, s, s', w)
    ensures s.sock != [] && s'.sock == s.sock[1..] && w in s'.wrks && s'.wrks == s.wrks[w := s'.wrks[w]]
    ensures Work(s'.wrks[w]) < NoteWork(c, s.sock[0]) && Work(s.wrks[w]) == 0
  {
  }

  lemma DequeueWorks(c: Config, s: State, s': State, w: Wid)
    requires w in s.wrks && w < c.nthread && s.wrks[w].pc.WWait? && Dequeue(c, s, s', w)
    ensures TotalWork(c, s') < TotalWork(c, s)
  {
    hide Work, Dequeue, NoteWork;
    DequeueDrops(c, s, s', w);
    ThreadsWorkUpdate(s.wrks, c.nthread, w, s'.wrks[w]);
  }

  lemma CascadeWorks(c: Config, s: State, s': State, w: Wid)
    requires w in s.wrks && w < c.nthread && (s.wrks[w].pc.WCascade? || s.wrks[w].pc.WLeave?)
    requires LeaveStep(s, s', w) && WrkOk(c, s, w, s.wrks[w])
    ensures TotalWork(c, s') < TotalWork(c, s)
  {
    LeaveWorks(c, s, s', w);
    hide Work, LeaveStep;
    ThreadsWorkUpdate(s.wrks, c.nthread, w, s'.wrks[w]);
    if s'.sock != s.sock {
      SockWorkAppend(c, s.sock, Exit2);
    }
  }

  lemma WrkWorks(c: Config, s: State, s': State, w: Wid, pid: Pid, k: nat)
    requires Inv(c, s) && w in s.wrks && w < c.nthread && WrkStep(c, s, s', w, pid, k)
    ensures TotalWork(c, s') < TotalWork(c, s)
  {
    WrkAt(c, s, w);
    hide Inv, WrkOk, OpenStep, RemoveStep, LeaveStep, FeedStep, Dequeue, DeliverStep, OneThread, SameLeaving,
         TotalWork, FsOk, LogOk, PidsOk, FsSane;
    var pc := s.wrks[w].pc;
    if pc.WWait? {
      DequeueWorks(c, s, s', w);
    } else if pc.WCascade? || pc.WLeave? {
      CascadeWorks(c, s, s', w);
    } else {
      if pc.WMsg? {
        DeliverWorks(c, s, s', w, pid);
      } else if pc.WGot? || pc.WEnvelope? || pc.WRcpt? {
        OpenShape(s, s', w);
        assert w in s'.wrks by { OneThreadHas(s, s', w); }
        OpenWorks(c, s, s', w);
      } else if pc.WDelivered? || pc.WClosed? || pc.WHalf? {
        RemoveShape(s, s', w);
        assert w in s'.wrks by { OneThreadHas(s, s', w); }
        RemoveWorks(s, s', w);
      } else {
        FeedShape(s, s', w, k);
        assert w in s'.wrks by { OneThreadHas(s, s', w); }
        FeedWorks(c, s, s', w, k);
      }
      OneThreadWorks(c, s, s', w);
    }
  }

  lemma OneThreadHas(s: State, s': State, w: Wid)
    requires OneThread(s, s', w)
    ensures w in s'.wrks
  {
  }

  lemma CopyWorks(c: Config, s: State, s': State, w: Wid, t: Ino, k: nat)
    requires w in s.wrks && s.wrks[w].child.Child? && s.wrks[w].child.pc.CCopy?
    requires ChildStep(c, s, s', w, t, k) && WrkOk(c, s, w, s.wrks[w]) && w in s'.wrks
    ensures Work(s'.wrks[w]) < Work(s.wrks[w])
  {
    hide Logged, Encode64, Append;
  }

  lemma ChildWaitWorks(c: Config, s: State, s': State, w: Wid, t: Ino, k: nat)
    requires w in s.wrks && s.wrks[w].child.Child? && s.wrks[w].child.pc.CWait?
    requires ChildStep(c, s, s', w, t, k) && WrkOk(c, s, w, s.wrks[w]) && w in s'.wrks
    ensures Work(s'.wrks[w]) < Work(s.wrks[w])
  {
    hide Logged, Encode64, Decode64;
    if s.wrks[w].pipe != [] {
      HeaderIsLength(c, s, w, s.wrks[w]);
    } else {
      OnlyStoppedClosed(c, s, w, s.wrks[w]);
    }
  }

  lemma CreateWorks(c: Config, s: State, s': State, w: Wid, t: Ino, k: nat)
    requires w in s.wrks && s.wrks[w].child.Child? && s.wrks[w].child.pc.CCreate?
    requires ChildStep(c, s, s', w, t, k) && WrkOk(c, s, w, s.wrks[w]) && w in s'.wrks && FsOk(s) && PidsOk(s)
    ensures Work(s'.wrks[w]) < Work(s.wrks[w])
  {
    hide Logged, Encode64, FsOk, PidsOk, Create, WrkOk;
    TmpIsFree(s, w);
    WorkingOn(c, s, w, s.wrks[w]);
  }

  lemma OtherChildWorks(c: Config, s: State, s': State, w: Wid, t: Ino, k: nat)
    requires w in s.wrks && s.wrks[w].child.Child? && (s.wrks[w].child.pc.CName? || s.wrks[w].child.pc.CReply?)
    requires ChildStep(c, s, s', w, t, k) && WrkOk(c, s, w, s.wrks[w]) && w in s'.wrks
    ensures Work(s'.wrks[w]) < Work(s.wrks[w])
  {
    hide Logged, Encode64, Rename;
  }

  lemma ChildActs(c: Config, s: State, s': State, w: Wid, t: Ino, k: nat)
    requires w in s.wrks && s.wrks[w].child.Child? && ChildStep(c, s, s', w, t, k)
    ensures !s.wrks[w].child.pc.CExit? && !s.wrks[w].child.pc.CDied?
  {
  }

  lemma ChildWorks(c: Config, s: State, s': State, w: Wid, t: Ino, k: nat)
    requires Inv(c, s) && w in s.wrks && w < c.nthread && s.wrks[w].child.Child? && ChildStep(c, s, s', w, t, k)
    ensures TotalWork(c, s') < TotalWork(c, s)
  {
    WrkAt(c, s, w);
    hide Inv, WrkOk, ChildStep, OneThread, TotalWork, FsOk, LogOk, PidsOk, FsSane, Work;
    if s.wrks[w].child.pc.CCopy? {
      CopyShape(c, s, s', w, t, k);
      assert w in s'.wrks by { OneThreadHas(s, s', w); }
      CopyWorks(c, s, s', w, t, k);
    } else {
      ChildShape(c, s, s', w, t, k);
      assert w in s'.wrks by { OneThreadHas(s, s', w); }
      if s.wrks[w].child.pc.CWait? {
        ChildWaitWorks(c, s, s', w, t, k);
      } else if s.wrks[w].child.pc.CCreate? {
        CreateWorks(c, s, s', w, t, k);
      } else {
        assert s.wrks[w].child.pc.CName? || s.wrks[w].child.pc.CReply? by { ChildActs(c, s, s', w, t, k); }
        OtherChildWorks(c, s, s', w, t, k);
      }
    }
    OneThreadWorks(c, s, s', w);
  }

  /** Each step of a thread or delivery process uses up work. */
  lemma StepsEnd(c: Config, s: State, step: Step, s': State)
    requires Inv(c, s) && ExitOk(c, s) && NextBy(c, s, step, s') && (step.DoWrk? || step.DoChild?)
    ensures TotalWork(c, s') < TotalWork(c, s)
  {
    hide Inv, WrkStep, ChildStep, TotalWork;
    if step.DoWrk? {
      WrkWorks(c, s, s', step.w, step.pid, step.k);
    } else {
      ChildWorks(c, s, s', step.w, step.t, step.k);
    }
  }

  // ----------------------------------------------------------------------
  // Somebody can always go on
  // ----------------------------------------------------------------------

  ghost predicate Goes(c: Config, s: State, w: Wid) {
    exists step: Step, s': State :: (step.DoWrk? || step.DoChild?) && step.w == w && NextBy(c, s, step, s')
  }

  lemma {:induction false} FreshNat(xs: set<nat>) returns (n: nat)
    ensures forall x :: x in xs ==> x < n
    decreases |xs|
  {
    if xs == {} {
      n := 0;
    } else {
      var x :| x in xs;
      n := FreshNat(xs - {x});
      assert forall y :: y in xs ==> y == x || y in xs - {x};
      if n <= x {
        n := x + 1;
      }
    }
  }

  lemma FreeInode(fs: Fs) returns (i: Ino)
    ensures Free(fs, i)
  {
    var used: set<nat> := fs.dir.Values;
    i := FreshNat(used);
    forall n | n in fs.dir ensures fs.dir[n] != i {
      assert fs.dir[n] in fs.dir.Values;
    }
  }

  lemma FreePidExists(s: State) returns (p: Pid)
    ensures FreePid(s, p)
  {
    var ps: set<nat> := s.enqs.Keys;
    var cs: set<nat> := set w | w in s.wrks && s.wrks[w].child.Child? :: s.wrks[w].child.pid;
    p := FreshNat(ps + cs);
    forall w | w in s.wrks && s.wrks[w].child.Child? ensures s.wrks[w].child.pid != p {
      assert s.wrks[w].child.pid in cs;
    }
  }

  /** A thread with a message in hand: it or its delivery process can go on. */
  lemma BusyGoes(c: Config, s: State, w: Wid)
    requires Inv(c, s) && w in s.wrks && InHand(s.wrks[w].pc).Some?
    ensures Goes(c, s, w)
  {
    WrkAt(c, s, w);
    hide Inv, FsOk, FsSane, LogOk, PidsOk, WrkOk;
    var x := s.wrks[w];
    match x.pc
    case WGot(i, m) => OpenGoes(c, s, w);
    case WEnvelope(_, _, _) => OpenGoes(c, s, w);
    case WRcpt(_, _, _) => OpenGoes(c, s, w);
    case WMsg(_, _, _, _) => DeliverGoes(c, s, w);
    case WStop(_, _, _, _) => WaiterGoes(c, s, w);
    case WSpawned(_, _, _, _) => WaiterGoes(c, s, w);
    case WAnswer(_, _, _, _) => WaiterGoes(c, s, w);
    case WPipe(i, m, r, f, sent) => PipeGoes(c, s, w);
    case WDelivered(_, _) => RemoveGoes(c, s, w);
    case WClosed(_, _) => RemoveGoes(c, s, w);
    case WHalf(_, _) => RemoveGoes(c, s, w);
  }

  lemma GoesBy(c: Config, s: State, w: Wid, pid: Pid, k: nat, s': State)
    requires w in s.wrks && WrkStep(c, s, s', w, pid, k)
    ensures Goes(c, s, w)
  {
    hide WrkStep;
    assert NextBy(c, s, DoWrk(w, pid, k), s');
  }

  lemma ChildGoesBy(c: Config, s: State, w: Wid, t: Ino, k: nat, s': State)
    requires w in s.wrks && s.wrks[w].child.Child? && ChildStep(c, s, s', w, t, k)
    ensures Goes(c, s, w)
  {
    hide ChildStep;
    assert NextBy(c, s, DoChild(w, t, k), s');
  }

  lemma OpenGoes(c: Config, s: State, w: Wid)
    requires w in s.wrks && (s.wrks[w].pc.WGot? || s.wrks[w].pc.WEnvelope? || s.wrks[w].pc.WRcpt?)
    ensures Goes(c, s, w)
  {
    hide Goes;
    match s.wrks[w].pc
    case WGot(i, m) =>
      GoesBy(c, s, w, 0, 0, if Todo(i) !in s.fs.dir then WithPC(s, w, WDied)
                            else WithPC(s, w, WEnvelope(i, m, s.fs.dir[Todo(i)])));
    case WEnvelope(i, m, e) => GoesBy(c, s, w, 0, 0, WithPC(s, w, WRcpt(i, m, Content(s.fs, e))));
    case WRcpt(i, m, r) =>
      GoesBy(c, s, w, 0, 0, if Mess(i) !in s.fs.dir then WithPC(s, w, WDied)
                            else WithPC(s, w, WMsg(i, m, r, s.fs.dir[Mess(i)])));
  }

  lemma RemoveGoes(c: Config, s: State, w: Wid)
    requires w in s.wrks && (s.wrks[w].pc.WDelivered? || s.wrks[w].pc.WClosed? || s.wrks[w].pc.WHalf?)
    ensures Goes(c, s, w)
  {
    hide Goes, Unlink;
    match s.wrks[w].pc
    case WDelivered(i, m) => GoesBy(c, s, w, 0, 0, WithPC(s, w, WClosed(i, m)));
    case WClosed(i, m) => GoesBy(c, s, w, 0, 0, WithPC(s, w, WHalf(i, m)).(fs := Unlink(s.fs, Todo(i))));
    case WHalf(i, m) =>
      GoesBy(c, s, w, 0, 0,
             WithPC(s, w, WWait).(
               fs := Unlink(s.fs, Mess(i)), tag := s.tag - {i}, place := s.place[m.uid := Finished]));
  }

  lemma DeliverGoes(c: Config, s: State, w: Wid)
    requires w in s.wrks && s.wrks[w].pc.WMsg?
    ensures Goes(c, s, w)
  {
    hide Goes, Encode64, Content, FreePid;
    var x := s.wrks[w];
    var (i, m, r, f) := (x.pc.i, x.pc.m, x.pc.r, x.pc.f);
    var pid := FreePidExists(s);
    var x' := if !c.pool then x.(pc := WSpawned(i, m, r, f), child := Child(pid, r, 0, CCreate(None)))
              else if x.child.Child? && x.child.r != r then x.(pc := WStop(i, m, r, f), closed := true)
              else if x.child.NoChild? then Wrk(x.pc, Child(pid, r, 0, CWait), [], false, 0)
              else x.(pc := WPipe(i, m, r, f, 0), pipe := x.pipe + Encode64(|Content(s.fs, f)|));
    GoesBy(c, s, w, pid, 0, s.(wrks := s.wrks[w := x']));
  }

  lemma PipeGoes(c: Config, s: State, w: Wid)
    requires w in s.wrks && s.wrks[w].pc.WPipe?
    ensures Goes(c, s, w)
  {
    hide Goes, Content;
    var x := s.wrks[w];
    var (i, m, r, f, sent) := (x.pc.i, x.pc.m, x.pc.r, x.pc.f, x.pc.sent);
    var b := Content(s.fs, f);
    if sent < |b| {
      var x' := x.(pc := WPipe(i, m, r, f, sent + 1), pipe := x.pipe + b[sent..sent + 1]);
      GoesBy(c, s, w, 0, 1, s.(wrks := s.wrks[w := x']));
    } else {
      GoesBy(c, s, w, 0, 0, WithPC(s, w, WAnswer(i, m, r, f)));
    }
  }

  /** A thread that waits for its child: the child can go on, or has finished. */
  lemma WaiterGoes(c: Config, s: State, w: Wid)
    requires Inv(c, s) && w in s.wrks && (s.wrks[w].pc.WStop? || s.wrks[w].pc.WSpawned? || s.wrks[w].pc.WAnswer?)
    ensures Goes(c, s, w)
  {
    WrkAt(c, s, w);
    hide Inv, FsOk, FsSane, LogOk, PidsOk, Goes, Logged, Encode64;
    var x := s.wrks[w];
    if x.child.pc.CExit? {
      var (i, m, r, f) := (x.pc.i, x.pc.m, x.pc.r, x.pc.f);
      var pc := if x.pc.WStop? then WMsg(i, m, r, f) else WDelivered(i, m);
      GoesBy(c, s, w, 0, 0, s.(wrks := s.wrks[w := x.(pc := pc, child := NoChild)]));
    } else if x.pc.WAnswer? && x.replies > 0 {
      GoesBy(c, s, w, 0, 0, s.(wrks := s.wrks[w := x.(pc := WDelivered(x.pc.i, x.pc.m), replies := x.replies - 1)]));
    } else if x.child.pc.CWait? {
      HeaderGoes(c, s, w);
    } else if x.child.pc.CCopy? {
      CopyGoes(c, s, w);
    } else {
      ChildGoes(c, s, w);
    }
  }

  lemma HeaderGoes(c: Config, s: State, w: Wid)
    requires w in s.wrks && s.wrks[w].child.Child? && s.wrks[w].child.pc.CWait? && WrkOk(c, s, w, s.wrks[w])
    requires s.wrks[w].closed || (s.wrks[w].pc.WAnswer? && s.wrks[w].replies == 0)
    ensures Goes(c, s, w)
  {
    hide Goes, Logged, Decode64, Encode;
    var x := s.wrks[w];
    if |x.pipe| >= 8 {
      ChildGoesBy(c, s, w, 0, 0,
        s.(wrks := s.wrks[w :=
             x.(child := x.child.(pc := CCreate(Some(Decode64(x.pipe[..8])))), pipe := x.pipe[8..])]));
    } else {
      ChildGoesBy(c, s, w, 0, 0, WithChild(s, w, if x.pipe == [] then CExit else CDied));
    }
  }

  lemma CopyGoes(c: Config, s: State, w: Wid)
    requires w in s.wrks && s.wrks[w].child.Child? && s.wrks[w].child.pc.CCopy? && WrkOk(c, s, w, s.wrks[w])
    requires s.wrks[w].pc.WSpawned? || s.wrks[w].pc.WAnswer?
    ensures Goes(c, s, w)
  {
    hide Goes, Logged, Encode64, Append;
    var x, ch := s.wrks[w], s.wrks[w].child;
    var t, limit, n := ch.pc.t, ch.pc.limit, ch.pc.n;
    var inp := Input(s, w, limit, n);
    if (limit.Some? && n >= limit.value) || inp == [] {
      ChildGoesBy(c, s, w, 0, 0, WithChild(s, w, CName(t, limit)));
    } else {
      var x' := x.(child := ch.(pc := CCopy(t, limit, n + 1)), pipe := if limit.Some? then x.pipe[1..] else x.pipe);
      ChildGoesBy(c, s, w, 0, 1, s.(fs := Append(s.fs, t, inp[..1]), wrks := s.wrks[w := x']));
    }
  }

  lemma ChildGoes(c: Config, s: State, w: Wid)
    requires w in s.wrks && s.wrks[w].child.Child?
    requires s.wrks[w].child.pc.CCreate? || s.wrks[w].child.pc.CName? || s.wrks[w].child.pc.CReply?
    ensures Goes(c, s, w)
  {
    hide Goes, Create, Rename;
    var x, ch := s.wrks[w], s.wrks[w].child;
    match ch.pc
    case CCreate(limit) =>
      var t := FreeInode(s.fs);
      ChildGoesBy(c, s, w, t, 0,
        if Tmp(ch.r, ch.pid, ch.q) in s.fs.dir then WithChild(s, w, CDied)
        else WithChild(s, w, CCopy(t, limit, 0)).(fs := Create(s.fs, Tmp(ch.r, ch.pid, ch.q), t)));
    case CName(t, limit) =>
      ChildGoesBy(c, s, w, 0, 0,
        s.(fs := Rename(s.fs, Tmp(ch.r, ch.pid, ch.q), New(ch.r, t)),
           wrks := s.wrks[w := x.(child := Child(ch.pid, ch.r, ch.q + 1, if limit.Some? then CReply else CExit))],
           log := s.log + [Delivery(if InHand(x.pc).Some? then InHand(x.pc).value else NOBODY, ch.r, t)]));
    case CReply =>
      ChildGoesBy(c, s, w, 0, 0, s.(wrks := s.wrks[w := x.(child := ch.(pc := CWait), replies := x.replies + 1)]));
  }

  /** A thread on its way out can go on, or its delivery process can. */
  lemma LeaverGoes(c: Config, s: State, w: Wid)
    requires Inv(c, s) && w in s.wrks && (s.wrks[w].pc.WCascade? || s.wrks[w].pc.WLeave?)
    ensures Goes(c, s, w)
  {
    WrkAt(c, s, w);
    hide Inv, FsOk, FsSane, LogOk, PidsOk, Goes, Logged;
    var x := s.wrks[w];
    if x.pc.WCascade? {
      GoesBy(c, s, w, 0, 0,
             if x.pc.left == 0 then WithPC(s, w, WLeave)
             else WithPC(s, w, WCascade(x.pc.left - 1)).(sock := s.sock + [Exit2]));
    } else if x.child.NoChild? {
      GoesBy(c, s, w, 0, 0, WithPC(s, w, WGone));
    } else if !x.closed {
      GoesBy(c, s, w, 0, 0, s.(wrks := s.wrks[w := x.(closed := true)]));
    } else if x.child.pc.CExit? {
      GoesBy(c, s, w, 0, 0, s.(wrks := s.wrks[w := x.(child := NoChild)]));
    } else {
      HeaderGoes(c, s, w);
    }
  }

  lemma TakerGoes(c: Config, s: State, w: Wid)
    requires w in s.wrks && s.wrks[w].pc.WWait? && s.sock != []
    ensures Goes(c, s, w)
  {
    hide Goes;
    var rest := s.sock[1..];
    match s.sock[0]
    case Exit =>
      GoesBy(c, s, w, 0, 0, WithPC(s, w, WCascade(if c.nthread == 0 then 0 else c.nthread - 1)).(sock := rest));
    case Exit2 => GoesBy(c, s, w, 0, 0, WithPC(s, w, WLeave).(sock := rest));
    case Mail(i, m) =>
      GoesBy(c, s, w, 0, 0, WithPC(s, w, WGot(i, m)).(sock := rest, place := s.place[m.uid := Handler(w)]));
  }

  /** After EXIT, while a thread is left, some thread or its delivery process can go on. */
  lemma ExitProgress(c: Config, run: seq<State>, i: nat, w: Wid)
    requires IsRun(c, run) && i < |run| && run[i].exiting && w in run[i].wrks && !run[i].wrks[w].pc.WGone?
    ensures exists v :: v in run[i].wrks && Goes(c, run[i], v)
  {
    RunKeepsInv(c, run, i);
    RunKeepsExit(c, run, i);
    hide IsRun, Inv, Goes;
    var s := run[i];
    WrkAt(c, s, w);
    WrkLives(c, s, w, s.wrks[w]);
    hide WrkOk, FsOk, FsSane, LogOk, PidsOk;
    if InHand(s.wrks[w].pc).Some? {
      BusyGoes(c, s, w);
    } else if s.wrks[w].pc.WCascade? || s.wrks[w].pc.WLeave? {
      LeaverGoes(c, s, w);
    } else if s.sock != [] {
      TakerGoes(c, s, w);
    } else {
      var b :| ExitTaken(c, s, b);
      BelowCount(Leavers(s), c.nthread);
      assert w !in Leavers(s);
      assert s.wrks[b].pc.WCascade?;
      LeaverGoes(c, s, b);
    }
  }

  /** Before EXIT, while a notified message is undelivered or unfinished, some thread or its delivery
      process can go on. */
  lemma DeliveryProgress(c: Config, run: seq<State>, i: nat, u: nat)
    requires IsRun(c, run) && i < |run| && !run[i].exiting
    requires u in run[i].place && (run[i].place[u].Queued? || run[i].place[u].Handler?)
    ensures exists v :: v in run[i].wrks && Goes(c, run[i], v)
  {
    NotifiedIsSomewhere(c, run, i, u);
    RunKeepsInv(c, run, i);
    RunKeepsExit(c, run, i);
    hide IsRun, Inv, Goes;
    var s := run[i];
    var w: Wid := if s.place[u].Handler? then s.place[u].w else 0;
    assert w in s.wrks && w !in Leavers(s);
    WrkAt(c, s, w);
    WrkLives(c, s, w, s.wrks[w]);
    hide WrkOk, FsOk, FsSane, LogOk, PidsOk;
    if InHand(s.wrks[w].pc).Some? {
      BusyGoes(c, s, w);
    } else {
      TakerGoes(c, s, w);
    }
  }

  // ----------------------------------------------------------------------
  // How many steps are left
  // ----------------------------------------------------------------------

  /** A thread or delivery process takes `s` to `s'`. */
  ghost predicate QmanStep(c: Config, s: State, s': State) {
    exists step: Step :: (step.DoWrk? || step.DoChild?) && NextBy(c, s, step, s')
  }

  /** The steps of threads and delivery processes from moment `i` to moment `j`. */
  ghost function QmanSteps(c: Config, run: seq<State>, i: nat, j: nat): nat
    requires i <= j < |run|
  {
    if i == j then 0 else QmanSteps(c, run, i, j - 1) + if QmanStep(c, run[j - 1], run[j]) then 1 else 0
  }

  /** The work that enqueuers add in the step from `s` to `s'`. */
  ghost function Added(c: Config, s: State, s': State): nat {
    if QmanStep(c, s, s') then 0 else Minus(TotalWork(c, s'), TotalWork(c, s))
  }

  ghost function AddedSince(c: Config, run: seq<State>, i: nat, j: nat): nat
    requires i <= j < |run|
  {
    if i == j then 0 else AddedSince(c, run, i, j - 1) + Added(c, run[j - 1], run[j])
  }

  /** At any time, the steps still made are no more than the work there is and the work that arrives. */
  lemma {:induction false} StepsBounded(c: Config, run: seq<State>, i: nat, j: nat)
    requires IsRun(c, run) && i <= j < |run|
    ensures QmanSteps(c, run, i, j) + TotalWork(c, run[j]) <= TotalWork(c, run[i]) + AddedSince(c, run, i, j)
    decreases j
  {
    hide Inv, ExitOk, TotalWork, NextBy;
    if i < j {
      StepsBounded(c, run, i, j - 1);
      RunKeepsInv(c, run, j - 1);
      RunKeepsExit(c, run, j - 1);
      if QmanStep(c, run[j - 1], run[j]) {
        var step: Step :| (step.DoWrk? || step.DoChild?) && NextBy(c, run[j - 1], step, run[j]);
        StepsEnd(c, run[j - 1], step, run[j]);
      }
    }
  }

  /** All control messages have been sent. */
  ghost predicate AllSent(s: State) {
    s.exiting && Exit !in s.sock && forall w :: w in s.wrks ==> Left(s.wrks[w].pc) == 0
  }

  /** Mail behind the last control message. */
  ghost function Behind(sock: seq<Note>): seq<Note> {
    if sock == [] || !sock[|sock| - 1].Mail? then [] else Behind(sock[..|sock| - 1]) + [sock[|sock| - 1]]
  }

  lemma {:induction false} BehindSmall(c: Config, sock: seq<Note>)
    ensures SockWork(c, Behind(sock)) <= SockWork(c, sock)
  {
    hide NoteWork;
    if sock != [] {
      var n := |sock| - 1;
      BehindSmall(c, sock[..n]);
      assert sock == sock[..n] + [sock[n]];
      SockWorkAppend(c, sock[..n], sock[n]);
      SockWorkAppend(c, Behind(sock[..n]), sock[n]);
    }
  }

  /** The work in front of and including the last control message, and that of the threads. */
  ghost function ExitWork(c: Config, s: State): nat {
    BehindSmall(c, s.sock);
    TotalWork(c, s) - SockWork(c, Behind(s.sock))
  }

  /** As long as a control message is in the socket, taking the first note leaves what is behind. */
  lemma {:induction false} BehindRest(sock: seq<Note>)
    requires Exit2 in sock
    ensures Behind(sock[1..]) == Behind(sock)
  {
    var n := |sock| - 1;
    if sock[n].Mail? {
      assert sock == sock[..n] + [sock[n]];
      BehindRest(sock[..n]);
      assert sock[1..][..n - 1] == sock[..n][1..];
    }
  }

  /** A thread that still waits has a control message coming. */
  lemma ControlAhead(c: Config, s: State, w: Wid)
    requires ExitOk(c, s) && AllSent(s) && w in s.wrks && !Leaving(s.wrks[w].pc)
    ensures Exit2 in s.sock
  {
    var b :| ExitTaken(c, s, b);
    BelowCount(Leavers(s), c.nthread);
    assert w !in Leavers(s);
    Exit2sNone(s.sock);
  }

  lemma DequeueBehind(c: Config, s: State, s': State, w: Wid)
    requires ExitOk(c, s) && AllSent(s) && w in s.wrks && s.wrks[w].pc.WWait? && Dequeue(c, s, s', w)
    ensures AllSent(s') && Behind(s'.sock) == Behind(s.sock)
  {
    ControlAhead(c, s, w);
    BehindRest(s.sock);
    assert s.sock[0] in s.sock;
  }

  lemma NeutralSent(s: State, s': State)
    requires Neutral(s, s') && AllSent(s)
    ensures AllSent(s') && s'.sock == s.sock
  {
    forall w | w in s'.wrks ensures Left(s'.wrks[w].pc) == 0 {
      assert SameLeaving(s.wrks[w].pc, s'.wrks[w].pc);
    }
  }

  lemma WrkBehind(c: Config, s: State, s': State, w: Wid, pid: Pid, k: nat)
    requires ExitOk(c, s) && AllSent(s) && w in s.wrks && WrkStep(c, s, s', w, pid, k)
    ensures AllSent(s') && Behind(s'.sock) == Behind(s.sock)
  {
    hide Neutral, Dequeue, DeliverStep, ExitOk, Behind;
    if s.wrks[w].pc.WWait? {
      DequeueBehind(c, s, s', w);
    } else {
      assert Left(s.wrks[w].pc) == 0;
      WrkIsNeutral(c, s, s', w, pid, k);
      NeutralSent(s, s');
    }
  }

  lemma QmanBehind(c: Config, s: State, step: Step, s': State)
    requires Inv(c, s) && ExitOk(c, s) && AllSent(s) && NextBy(c, s, step, s') && (step.DoWrk? || step.DoChild?)
    ensures AllSent(s') && Behind(s'.sock) == Behind(s.sock) && ExitWork(c, s') < ExitWork(c, s)
  {
    hide Inv, ExitOk, AllSent, WrkStep, ChildStep, Neutral, TotalWork, Behind;
    StepsEnd(c, s, step, s');
    if step.DoWrk? {
      WrkBehind(c, s, s', step.w, step.pid, step.k);
    } else {
      ChildIsNeutral(c, s, s', step.w, step.t, step.k);
      NeutralSent(s, s');
    }
  }

  /** Whatever else happens adds at most mail behind the last control message. */
  lemma OtherBehind(c: Config, s: State, step: Step, s': State)
    requires Inv(c, s) && ExitOk(c, s) && AllSent(s) && NextBy(c, s, step, s') && !step.DoWrk? && !step.DoChild?
    ensures AllSent(s') && ExitWork(c, s') == ExitWork(c, s)
  {
    hide Inv, ExitOk, EnqStep, Behind, SockWork, ThreadsWork;
    match step
    case DoSubmit(p, m) =>
    case DoEnq(p, i, k) =>
      EnqThreads(s, s', p, i, k);
      if s.enqs[p].pc.EMoved? {
        WriterIsLate(c, s, s', p, i, k);
        MailBehind(c, s, s', Mail(s.enqs[p].pc.i, s.enqs[p].m));
      }
    case DoExit => assert false;
    case DoRead(r, i) =>
  }

  lemma EnqThreads(s: State, s': State, p: Pid, i: Ino, k: nat)
    requires p in s.enqs && EnqStep(s, s', p, i, k)
    ensures s'.wrks == s.wrks && s'.exiting == s.exiting && (!s.enqs[p].pc.EMoved? ==> s'.sock == s.sock)
  {
  }

  lemma MailBehind(c: Config, s: State, s': State, n: Note)
    requires AllSent(s) && n.Mail? && s'.sock == s.sock + [n] && s'.wrks == s.wrks && s'.exiting == s.exiting
    ensures AllSent(s') && ExitWork(c, s') == ExitWork(c, s)
  {
    assert (s.sock + [n])[..|s.sock|] == s.sock;
    SockWorkAppend(c, s.sock, n);
    SockWorkAppend(c, Behind(s.sock), n);
  }

  /** Once all control messages have been sent, the threads and delivery processes together make no
      more steps than there is work in front of the last of them, whatever enqueuers do. */
  lemma {:induction false} ExitBounded(c: Config, run: seq<State>, i: nat, j: nat)
    requires IsRun(c, run) && i <= j < |run| && AllSent(run[i])
    ensures AllSent(run[j]) && QmanSteps(c, run, i, j) + ExitWork(c, run[j]) <= ExitWork(c, run[i])
    decreases j
  {
    hide Inv, ExitOk, AllSent, ExitWork, NextBy;
    if i < j {
      ExitBounded(c, run, i, j - 1);
      RunKeepsInv(c, run, j - 1);
      RunKeepsExit(c, run, j - 1);
      if QmanStep(c, run[j - 1], run[j]) {
        var step: Step :| (step.DoWrk? || step.DoChild?) && NextBy(c, run[j - 1], step, run[j]);
        QmanBehind(c, run[j - 1], step, run[j]);
      } else {
        assert NextState(c, run[j - 1], run[j - 1 + 1]);
        var step :| NextBy(c, run[j - 1], step, run[j]);
        OtherBehind(c, run[j - 1], step, run[j]);
      }
    }
  }

  /** No thread or delivery process can go on. */
  ghost predicate AtRest(c: Config, s: State) {
    forall w :: w in s.wrks ==> !Goes(c, s, w)
  }

  /** EXIT: from the moment all control messages are sent, the steps of the queue manager are bounded;
      and when after EXIT none is left to make, every thread has terminated, having taken exactly one
      control message, none is left over, and all mail notified before EXIT has been delivered. */
  lemma ExitEnds(c: Config, run: seq<State>, i: nat, j: nat)
    requires IsRun(c, run) && i <= j < |run| && run[i].exiting
    ensures AllSent(run[i]) ==> QmanSteps(c, run, i, j) <= ExitWork(c, run[i])
    ensures AtRest(c, run[j]) ==>
              && (forall w: Wid :: w in run[j].wrks <==> w < c.nthread)
              && (forall w :: w in run[j].wrks ==> run[j].wrks[w].pc.WGone? && ControlsTaken(run, j, w) == 1)
              && Exit !in run[j].sock && Exit2 !in run[j].sock
              && forall u :: u in run[j].early ==> Logged(run[j].log, u)
  {
    hide Goes, AllSent, ExitWork, Inv, ExitOk, NextBy, Logged;
    if AllSent(run[i]) {
      ExitBounded(c, run, i, j);
    }
    if AtRest(c, run[j]) {
      ExitStays(c, run, i, j);
      forall w | w in run[j].wrks ensures run[j].wrks[w].pc.WGone? {
        if !run[j].wrks[w].pc.WGone? {
          ExitProgress(c, run, j, w);
          assert false;
        }
      }
      AfterExit(c, run, j);
    }
  }

  lemma {:induction false} ExitStays(c: Config, run: seq<State>, i: nat, j: nat)
    requires IsRun(c, run) && i <= j < |run| && run[i].exiting
    ensures run[j].exiting
    decreases j
  {
    hide Inv, ExitOk, NextBy;
    if i < j {
      ExitStays(c, run, i, j - 1);
      RunKeepsInv(c, run, j - 1);
      assert NextState(c, run[j - 1], run[j - 1 + 1]);
      var step :| NextBy(c, run[j - 1], step, run[j]);
      ExitKept(c, run[j - 1], step, run[j]);
    }
  }

  lemma ExitKept(c: Config, s: State, step: Step, s': State)
    requires NextBy(c, s, step, s') && s.exiting
    ensures s'.exiting
  {
    hide Neutral, WrkStep, EnqStep, ChildStep;
    match step
    case DoEnq(p, i, k) => EnqThreads(s, s', p, i, k);
    case DoWrk(w, pid, k) => WrkExiting(c, s, s', w, pid, k);
    case DoChild(w, t, k) =>
      ChildIsNeutral(c, s, s', w, t, k);
      NeutralExiting(s, s');
    case _ =>
  }

  lemma NeutralExiting(s: State, s': State)
    requires Neutral(s, s')
    ensures s'.exiting == s.exiting
  {
  }

  lemma WrkExiting(c: Config, s: State, s': State, w: Wid, pid: Pid, k: nat)
    requires w in s.wrks && WrkStep(c, s, s', w, pid, k)
    ensures s'.exiting == s.exiting
  {
    hide Neutral;
    if !s.wrks[w].pc.WWait? && !(s.wrks[w].pc.WCascade? && s.wrks[w].pc.left > 0) {
      hide WrkStep;
      WrkIsNeutral(c, s, s', w, pid, k);
      NeutralExiting(s, s');
    }
  }
}
