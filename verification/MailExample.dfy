/**
 A run of the mail spool in which a message that is notified after EXIT is delivered:
 one of two threads has taken EXIT and not yet sent EXIT2.
 */
module MailExample {
  import opened Options
  import opened MailSpool
  import opened MailInvariant
  import opened MailTheorems
  import opened MailProgress

  const TWO := Config(false, 2)
  const LATE := Msg(1, [], [])
  const IDLE := Wrk(WWait, NoChild, [], false, 0)

  /** The run goes on. */
  lemma Grow(c: Config, run: seq<State>, step: Step, s: State)
    requires IsRun(c, run) && NextBy(c, run[|run| - 1], step, s)
    ensures IsRun(c, run + [s])
  {
    hide NextBy, Init;
    var run' := run + [s];
    forall i | 0 <= i < |run'| - 1 ensures NextState(c, run'[i], run'[i + 1]) {
      if i + 1 < |run| {
        assert NextState(c, run[i], run[i + 1]);
      } else {
        assert NextBy(c, run'[i], step, run'[i + 1]);
      }
    }
  }

  const EMPTY := State(Fs(map[], map[]), [], map[], map[0 := IDLE, 1 := IDLE], map[], map[], [], false, {})

  /** Thread 0 has taken EXIT. */
  const LEAVING := EMPTY.(wrks := map[0 := IDLE.(pc := WCascade(1)), 1 := IDLE], exiting := true)

  lemma FirstExit(s: State, s': State)
    requires s.place == map[] && s.early == {} && s.sock == [] && !s.exiting
    requires s' == s.(sock := [Exit], exiting := true)
    ensures SendExit(s, s')
  {
    assert [] + [Exit] == [Exit];
  }

  lemma Exits() returns (run: seq<State>)
    ensures IsRun(TWO, run) && |run| == 3 && run[2] == LEAVING
    ensures run[1].exiting && run[1].place == map[]
  {
    assert forall w: Wid :: w in EMPTY.wrks <==> w == 0 || w == 1;
    assert Init(TWO, EMPTY);
    run := [EMPTY];
    var s1 := EMPTY.(sock := [Exit], exiting := true);
    FirstExit(EMPTY, s1);
    Grow(TWO, run, DoExit, s1);
    assert [Exit][1..] == [];
    assert LEAVING.wrks == s1.wrks[0 := IDLE.(pc := WCascade(1))];
    Grow(TWO, run + [s1], DoWrk(0, 0, 0), LEAVING);
    run := run + [s1] + [LEAVING];
  }

  const FILED := LEAVING.(
    fs := Fs(map[Mess(1) := 1, Todo(1) := 2], map[1 := [], 2 := []]), sock := [Mail(1, LATE)],
    enqs := map[0 := Enq(LATE, EDone)], tag := map[1 := 1], place := map[1 := Queued])

  /** A message is submitted, written and notified. */
  lemma Enqueues(run: seq<State>) returns (run': seq<State>)
    requires IsRun(TWO, run) && |run| == 3 && run[2] == LEAVING
    ensures IsRun(TWO, run') && |run'| == 10 && run < run' && run'[9] == FILED
  {
    var s3 := LEAVING.(enqs := map[0 := Enq(LATE, EStart)], place := map[1 := Writer(0)]);
    Grow(TWO, run, DoSubmit(0, LATE), s3);
    var s4 := s3.(
      fs := Fs(map[PidFile(0) := 1], map[1 := []]), enqs := map[0 := Enq(LATE, EWrite(1))], tag := map[1 := 1]);
    Grow(TWO, run + [s3], DoEnq(0, 1, 0), s4);
    var s5 := s4.(enqs := map[0 := Enq(LATE, EReady(1))]);
    Grow(TWO, run + [s3] + [s4], DoEnq(0, 0, 0), s5);
    run' := run + [s3] + [s4] + [s5];
    run' := Notifies(run');
  }

  const WRITTEN := LEAVING.(
    fs := Fs(map[PidFile(0) := 1], map[1 := []]), enqs := map[0 := Enq(LATE, EReady(1))],
    tag := map[1 := 1], place := map[1 := Writer(0)])

  lemma Notifies(run: seq<State>) returns (run': seq<State>)
    requires IsRun(TWO, run) && |run| == 6 && run[5] == WRITTEN
    ensures IsRun(TWO, run') && |run'| == 10 && run < run' && run'[9] == FILED
  {
    hide IsRun;
    var s6 := WRITTEN.(
      fs := Fs(map[PidFile(0) := 1, Todo(1) := 2], map[1 := [], 2 := []]),
      enqs := map[0 := Enq(LATE, EEnvelope(1, 2))]);
    Grow(TWO, run, DoEnq(0, 2, 0), s6);
    var s7 := s6.(enqs := map[0 := Enq(LATE, EFiled(1))]);
    Grow(TWO, run + [s6], DoEnq(0, 0, 0), s7);
    run' := run + [s6] + [s7];
    run' := Moves(run');
  }

  lemma Moves(run: seq<State>) returns (run': seq<State>)
    requires IsRun(TWO, run) && |run| == 8
    requires run[7] == WRITTEN.(
               fs := Fs(map[PidFile(0) := 1, Todo(1) := 2], map[1 := [], 2 := []]),
               enqs := map[0 := Enq(LATE, EFiled(1))])
    ensures IsRun(TWO, run') && |run'| == 10 && run < run' && run'[9] == FILED
  {
    hide IsRun, NextBy;
    var s7 := run[7];
    var s8 := s7.(fs := FILED.fs, enqs := map[0 := Enq(LATE, EMoved(1))]);
    MoveStep(s7, s8);
    Grow(TWO, run, DoEnq(0, 0, 0), s8);
    NotifyStep(s8);
    Grow(TWO, run + [s8], DoEnq(0, 0, 0), FILED);
    run' := run + [s8] + [FILED];
  }

  lemma MoveStep(s: State, s': State)
    requires s.fs == Fs(map[PidFile(0) := 1, Todo(1) := 2], map[1 := [], 2 := []])
    requires s.enqs == map[0 := Enq(LATE, EFiled(1))]
    requires s' == s.(fs := FILED.fs, enqs := map[0 := Enq(LATE, EMoved(1))])
    ensures NextBy(TWO, s, DoEnq(0, 0, 0), s')
  {
    assert (s.fs.dir - {PidFile(0)})[Mess(1) := 1] == FILED.fs.dir;
  }

  lemma NotifyStep(s: State)
    requires s == FILED.(sock := [], enqs := map[0 := Enq(LATE, EMoved(1))], place := map[1 := Writer(0)])
    ensures NextBy(TWO, s, DoEnq(0, 0, 0), FILED)
  {
    assert [] + [Mail(1, LATE)] == [Mail(1, LATE)];
  }

  /** The state with thread 1 as given. */
  function With1(x: Wrk): State {
    FILED.(sock := [], wrks := map[0 := IDLE.(pc := WCascade(1)), 1 := x], place := map[1 := Handler(1)])
  }

  /** Thread 1 takes the message and starts a delivery process. */
  lemma Handles(run: seq<State>) returns (run': seq<State>)
    requires IsRun(TWO, run) && |run| == 10 && run[9] == FILED
    ensures IsRun(TWO, run') && |run'| == 15 && run < run'
    ensures run'[14] == With1(IDLE.(pc := WSpawned(1, LATE, [], 1), child := Child(5, [], 0, CCreate(None))))
  {
    hide IsRun;
    var s1 := With1(IDLE.(pc := WGot(1, LATE)));
    assert [Mail(1, LATE)][1..] == [];
    Grow(TWO, run, DoWrk(1, 0, 0), s1);
    var s2 := With1(IDLE.(pc := WEnvelope(1, LATE, 2)));
    Grow(TWO, run + [s1], DoWrk(1, 0, 0), s2);
    run' := run + [s1] + [s2];
    run' := Spawns(run');
  }

  lemma Spawns(run: seq<State>) returns (run': seq<State>)
    requires IsRun(TWO, run) && |run| == 12 && run[11] == With1(IDLE.(pc := WEnvelope(1, LATE, 2)))
    ensures IsRun(TWO, run') && |run'| == 15 && run < run'
    ensures run'[14] == With1(IDLE.(pc := WSpawned(1, LATE, [], 1), child := Child(5, [], 0, CCreate(None))))
  {
    hide IsRun;
    var s3 := With1(IDLE.(pc := WRcpt(1, LATE, [])));
    Grow(TWO, run, DoWrk(1, 0, 0), s3);
    var s4 := With1(IDLE.(pc := WMsg(1, LATE, [], 1)));
    Grow(TWO, run + [s3], DoWrk(1, 0, 0), s4);
    run' := run + [s3] + [s4];
    var s5 := With1(IDLE.(pc := WSpawned(1, LATE, [], 1), child := Child(5, [], 0, CCreate(None))));
    SpawnStep(s4, s5);
    hide NextBy;
    Grow(TWO, run', DoWrk(1, 5, 0), s5);
    run' := run' + [s5];
  }

  lemma SpawnStep(s: State, s': State)
    requires s == With1(IDLE.(pc := WMsg(1, LATE, [], 1)))
    requires s' == With1(IDLE.(pc := WSpawned(1, LATE, [], 1), child := Child(5, [], 0, CCreate(None))))
    ensures NextBy(TWO, s, DoWrk(1, 5, 0), s')
  {
    assert s'.wrks == s.wrks[1 := s'.wrks[1]];
  }

  /** The process copies the message and names it. */
  lemma Delivers(run: seq<State>) returns (run': seq<State>)
    requires IsRun(TWO, run) && |run| == 15
    requires run[14] == With1(IDLE.(pc := WSpawned(1, LATE, [], 1), child := Child(5, [], 0, CCreate(None))))
    ensures IsRun(TWO, run') && |run'| == 18 && run < run' && run'[17].log == [Delivery(LATE, [], 3)]
  {
    hide IsRun, NextBy, Rename;
    var s, x := run[14], run[14].wrks[1];
    var fs := Fs(s.fs.dir[Tmp([], 5, 0) := 3], s.fs.data[3 := []]);
    var s1 := With1(x.(child := Child(5, [], 0, CCopy(3, None, 0)))).(fs := fs);
    CreateStep(s, s1, x);
    Grow(TWO, run, DoChild(1, 3, 0), s1);
    var s2 := With1(x.(child := Child(5, [], 0, CName(3, None)))).(fs := fs);
    CopyStep(s1, s2, x);
    Grow(TWO, run + [s1], DoChild(1, 0, 0), s2);
    var s3 := With1(x.(child := Child(5, [], 1, CExit))).(
      fs := Rename(fs, Tmp([], 5, 0), New([], 3)), log := [Delivery(LATE, [], 3)]);
    NameStep(s2, s3, x);
    Grow(TWO, run + [s1] + [s2], DoChild(1, 0, 0), s3);
    run' := run + [s1] + [s2] + [s3];
  }

  lemma CreateStep(s: State, s': State, x: Wrk)
    requires x == IDLE.(pc := WSpawned(1, LATE, [], 1), child := Child(5, [], 0, CCreate(None))) && s == With1(x)
    requires s' == With1(x.(child := Child(5, [], 0, CCopy(3, None, 0)))).(
               fs := Fs(s.fs.dir[Tmp([], 5, 0) := 3], s.fs.data[3 := []]))
    ensures NextBy(TWO, s, DoChild(1, 3, 0), s')
  {
    assert s'.wrks == s.wrks[1 := x.(child := Child(5, [], 0, CCopy(3, None, 0)))];
  }

  lemma CopyStep(s: State, s': State, x: Wrk)
    requires x.pc == WSpawned(1, LATE, [], 1) && Content(s.fs, 1) == []
    requires s == With1(x.(child := Child(5, [], 0, CCopy(3, None, 0)))).(fs := s.fs)
    requires s' == With1(x.(child := Child(5, [], 0, CName(3, None)))).(fs := s.fs)
    ensures NextBy(TWO, s, DoChild(1, 0, 0), s')
  {
    assert s'.wrks == s.wrks[1 := x.(child := Child(5, [], 0, CName(3, None)))];
  }

  lemma NameStep(s: State, s': State, x: Wrk)
    requires x.pc == WSpawned(1, LATE, [], 1)
    requires s == With1(x.(child := Child(5, [], 0, CName(3, None)))).(fs := s.fs)
    requires s' == With1(x.(child := Child(5, [], 1, CExit))).(
               fs := Rename(s.fs, Tmp([], 5, 0), New([], 3)), log := [Delivery(LATE, [], 3)])
    ensures NextBy(TWO, s, DoChild(1, 0, 0), s')
  {
    hide Rename;
    assert s'.wrks == s.wrks[1 := x.(child := Child(5, [], 1, CExit))];
    assert [] + [Delivery(LATE, [], 3)] == [Delivery(LATE, [], 3)];
  }

  /** A message that has not even been submitted when EXIT is sent is delivered all the same. */
  lemma LateMailDelivered() returns (run: seq<State>)
    ensures IsRun(TWO, run) && |run| == 18
    ensures run[1].exiting && run[1].place == map[] && Mail(1, LATE) in run[9].sock
    ensures Logged(run[17].log, LATE.uid)
  {
    hide IsRun;
    var run0 := Exits();
    var run1 := Enqueues(run0);
    var run2 := Handles(run1);
    run := Delivers(run2);
    assert run[9] == run1[9] && run[1] == run0[1];
    assert run[17].log[0] == Delivery(LATE, [], 3);
  }

  const ONE := Config(false, 1)
  const ALONE := EMPTY.(wrks := map[0 := IDLE])

  function Sole(pc: WrkPC): State {
    ALONE.(exiting := true, wrks := map[0 := IDLE.(pc := pc)])
  }

  /** The shortest run to the end: one thread, EXIT and nothing else. */
  lemma ShortestExit() returns (run: seq<State>)
    ensures IsRun(ONE, run) && |run| == 5 && run[1].exiting && AllSent(run[2]) && AtRest(ONE, run[4])
  {
    assert forall w: Wid :: w in ALONE.wrks <==> w == 0;
    assert Init(ONE, ALONE);
    var s1 := ALONE.(sock := [Exit], exiting := true);
    FirstExit(ALONE, s1);
    Grow(ONE, [ALONE], DoExit, s1);
    assert [Exit][1..] == [];
    assert Sole(WCascade(0)).wrks == s1.wrks[0 := IDLE.(pc := WCascade(0))];
    Grow(ONE, [ALONE] + [s1], DoWrk(0, 0, 0), Sole(WCascade(0)));
    run := Leaves([ALONE] + [s1] + [Sole(WCascade(0))]);
  }

  lemma Leaves(run: seq<State>) returns (run': seq<State>)
    requires IsRun(ONE, run) && |run| == 3 && run[2] == Sole(WCascade(0))
    ensures IsRun(ONE, run') && |run'| == 5 && run < run' && AtRest(ONE, run'[4])
  {
    hide IsRun;
    Grow(ONE, run, DoWrk(0, 0, 0), Sole(WLeave));
    Grow(ONE, run + [Sole(WLeave)], DoWrk(0, 0, 0), Sole(WGone));
    run' := run + [Sole(WLeave)] + [Sole(WGone)];
  }
}
