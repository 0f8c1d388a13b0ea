/**
 Every step of every process keeps the mail spool's invariant.
 */
module MailSteps {
  import opened Options
  import opened MailFraming
  import opened MailSpool
  import opened MailInvariant
  import opened MailFrame

  // ----------------------------------------------------------------------
  // The four file system operations
  // ----------------------------------------------------------------------

  ghost predicate FsSane(fs: Fs) {
    Injective(fs.dir) && forall n :: n in fs.dir ==> fs.dir[n] in fs.data
  }

  lemma Sane(c: Config, s: State)
    requires Inv(c, s)
    ensures FsSane(s.fs)
  {
  }

  lemma CreateFrame(fs: Fs, n: FName, i: Ino)
    requires FsSane(fs) && n !in fs.dir && Free(fs, i)
    ensures FsSane(Create(fs, n, i)) && forall m :: m != n ==> SameFile(fs, Create(fs, n, i), m)
    ensures At(Create(fs, n, i), n, i) && Create(fs, n, i).data[i] == []
  {
  }

  lemma AppendFrame(fs: Fs, n: FName, i: Ino, b: Bytes)
    requires FsSane(fs) && At(fs, n, i)
    ensures FsSane(Append(fs, i, b)) && forall m :: m != n ==> SameFile(fs, Append(fs, i, b), m)
    ensures At(Append(fs, i, b), n, i) && Append(fs, i, b).data[i] == fs.data[i] + b
  {
  }

  lemma RenameFrame(fs: Fs, a: FName, b: FName)
    requires FsSane(fs) && a in fs.dir && b !in fs.dir && a != b
    ensures FsSane(Rename(fs, a, b)) && forall m :: m != a && m != b ==> SameFile(fs, Rename(fs, a, b), m)
    ensures a !in Rename(fs, a, b).dir && At(Rename(fs, a, b), b, fs.dir[a])
    ensures Rename(fs, a, b).data == fs.data
  {
  }

  lemma UnlinkFrame(fs: Fs, n: FName)
    requires FsSane(fs)
    ensures FsSane(Unlink(fs, n)) && forall m :: m != n ==> SameFile(fs, Unlink(fs, n), m)
    ensures n !in Unlink(fs, n).dir
  {
  }

  /** What the other names and messages need from a step that works on inode `j`. */
  ghost predicate Keeps(s: State, s': State, touched: set<FName>, j: Ino) {
    && (forall n :: n !in touched ==> SameFile(s.fs, s'.fs, n))
    && (forall n :: n in touched && n in s.fs.dir && (n.PidFile? || n.Mess?) ==> s.fs.dir[n] == j)
    && (forall p :: p in s.enqs ==> p in s'.enqs)
    && (forall i :: i != j ==> (i in s'.tag <==> i in s.tag))
    && (j in s.tag && j !in s'.tag ==> Todo(j) !in s'.fs.dir && Mess(j) !in s'.fs.dir)
    && (forall w, r, p, q :: w in s.wrks && Tmp(r, p, q) !in touched && OwnsTmp(s.wrks[w], r, p, q)
          ==> w in s'.wrks && OwnsTmp(s'.wrks[w], r, p, q))
    && (forall d :: d in s.log ==> d in s'.log)
  }

  lemma NameKept(s: State, s': State, touched: set<FName>, j: Ino, n: FName)
    requires Keeps(s, s', touched, j) && n in s.fs.dir && n !in touched && NameOk(s, n) && n in s'.fs.dir
    ensures NameOk(s', n)
  {
    assert SameFile(s.fs, s'.fs, n);
  }

  lemma FsStep(s: State, s': State, touched: set<FName>, j: Ino)
    requires FsOk(s) && FsSane(s'.fs) && Keeps(s, s', touched, j)
    requires forall n :: n in touched && n in s'.fs.dir ==> NameOk(s', n)
    requires j in s'.tag ==> Linked(s'.fs, j) || (j in s.tag && touched == {})
    ensures FsOk(s')
  {
    hide NameOk, OwnsTmp, Mine;
    forall n | n in s'.fs.dir ensures NameOk(s', n) {
      if n !in touched {
        assert SameFile(s.fs, s'.fs, n) && n in s.fs.dir;
        NameKept(s, s', touched, j, n);
      }
    }
    forall i | i in s'.tag ensures Linked(s'.fs, i) {
      if i != j || (touched == {} && j in s.tag) {
        assert i in s.tag;
        var n :| n in s.fs.dir && s.fs.dir[n] == i && (n.PidFile? || n == Mess(i));
        assert NameOk(s, n) && s.fs.dir[n] in s.fs.data by { HasData(s, n); }
        assert SameFile(s.fs, s'.fs, n);
      }
    }
  }

  lemma HasData(s: State, n: FName)
    requires n in s.fs.dir && FsOk(s)
    ensures NameOk(s, n) && s.fs.dir[n] in s.fs.data
  {
    assert NameOk(s, n);
  }

  lemma EnqAt(c: Config, s: State, p: Pid)
    requires Inv(c, s) && p in s.enqs
    ensures EnqOk(s, p, s.enqs[p]) && EnqFresh(s, s.enqs[p]) && FsOk(s) && FsSane(s.fs)
  {
    Sane(c, s);
  }

  lemma WrkAt(c: Config, s: State, w: Wid)
    requires Inv(c, s) && w in s.wrks
    ensures WrkOk(c, s, w, s.wrks[w]) && FsOk(s) && FsSane(s.fs) && PidsOk(s) && LogOk(s)
  {
    Sane(c, s);
  }

  // ----------------------------------------------------------------------
  // Putting a step together
  // ----------------------------------------------------------------------

  lemma Parts(c: Config, s: State)
    requires Inv(c, s)
    ensures FsOk(s) && FsSane(s.fs) && PidsOk(s) && LogOk(s) && SockOk(s) && forall u :: u in s.place ==> PlaceOk(s, u)
  {
    Sane(c, s);
  }

  lemma Together(c: Config, s: State)
    requires FsOk(s) && PidsOk(s) && LogOk(s) && SockOk(s)
    requires forall p :: p in s.enqs ==> EnqOk(s, p, s.enqs[p]) && EnqFresh(s, s.enqs[p])
    requires forall w :: w in s.wrks ==> WrkOk(c, s, w, s.wrks[w])
    requires forall u :: u in s.place ==> PlaceOk(s, u)
    ensures Inv(c, s)
  {
  }

  lemma EnqStepInv(c: Config, s: State, s': State, a: Actor, p: Pid, x: Enq)
    requires Inv(c, s) && p in s.enqs && Stable(s, s', a) && Acts(s, a, Writer(p)) && a.cp == None
    requires a.p in {None, Some(p)}
    requires s'.enqs == s.enqs[p := x] && s'.wrks == s.wrks && s'.sock == s.sock && s'.log == s.log
    requires s'.place == s.place
    requires EnqOk(s', p, x) && EnqFresh(s', x) && FsOk(s') && x.m.uid == s.enqs[p].m.uid && !x.pc.EDone?
    ensures Inv(c, s')
  {
    hide Stable, EnqOk, EnqFresh, FsOk, NoteOk, WrkOk, Acts, Logged;
    forall q | q in s'.enqs ensures EnqOk(s', q, s'.enqs[q]) && EnqFresh(s', s'.enqs[q]) {
      if q != p {
        OtherEnq(c, s, s', a, Writer(p), q);
      }
    }
    forall w | w in s'.wrks ensures WrkOk(c, s', w, s'.wrks[w]) {
      OtherWrk(c, s, s', a, Writer(p), w);
    }
    forall n | n in s'.sock ensures NoteOk(s', n) {
      OtherNote(c, s, s', a, Writer(p), n);
    }
    forall u | u in s'.place ensures PlaceOk(s', u) {
      assert PlaceOk(s, u);
    }
  }

  lemma WrkStepInv(c: Config, s: State, s': State, a: Actor, w: Wid, x: Wrk)
    requires Inv(c, s) && w in s.wrks && Stable(s, s', a) && Acts(s, a, Handler(w)) && a.p == None
    requires a.cp.Some? ==> s.wrks[w].child.Child? && a.cp == Some(s.wrks[w].child.pid)
    requires s'.wrks == s.wrks[w := x] && s'.enqs == s.enqs && s'.sock == s.sock
    requires WrkOk(c, s', w, x) && FsOk(s') && PidsOk(s') && LogOk(s')
    requires forall u :: u in s'.place ==> PlaceOk(s', u)
    ensures Inv(c, s')
  {
    hide Stable, EnqOk, EnqFresh, FsOk, NoteOk, WrkOk, Acts, Logged, PlaceOk, LogOk;
    forall q | q in s'.enqs ensures EnqOk(s', q, s'.enqs[q]) && EnqFresh(s', s'.enqs[q]) {
      OtherEnq(c, s, s', a, Handler(w), q);
    }
    forall v | v in s'.wrks ensures WrkOk(c, s', v, s'.wrks[v]) {
      if v != w {
        OtherWrk(c, s, s', a, Handler(w), v);
      }
    }
    forall n | n in s'.sock ensures NoteOk(s', n) {
      OtherNote(c, s, s', a, Handler(w), n);
    }
  }

  // ----------------------------------------------------------------------
  // Enqueuers
  // ----------------------------------------------------------------------

  lemma FreeHasNoTodo(s: State, i: Ino)
    requires FsOk(s) && Free(s.fs, i)
    ensures i !in s.tag && Todo(i) !in s.fs.dir
  {
    assert Todo(i) in s.fs.dir ==> NameOk(s, Todo(i));
  }

  lemma EnqCreateMsg(c: Config, s: State, s': State, p: Pid, i: Ino, k: nat)
    requires Inv(c, s) && p in s.enqs && s.enqs[p].pc.EStart? && EnqStep(s, s', p, i, k)
    ensures Inv(c, s')
  {
    hide Inv, FsOk, FsSane, Create, Logged;
    EnqAt(c, s, p);
    var m := s.enqs[p].m;
    CreateFrame(s.fs, PidFile(p), i);
    FreeHasNoTodo(s, i);
    assert SameFile(s.fs, s'.fs, Todo(i));
    assert Linked(s'.fs, i) by { assert s'.fs.dir[PidFile(p)] == i; }
    FsStep(s, s', {PidFile(p)}, i);
    EnqStepInv(c, s, s', Actor(Some(m.uid), Some(i), Some(p), None), p, s'.enqs[p]);
  }

  /** A step that changes nothing but the enqueuer's own state. */
  lemma EnqClose(c: Config, s: State, s': State, p: Pid, x: Enq)
    requires Inv(c, s) && p in s.enqs && s' == s.(enqs := s.enqs[p := x])
    requires EnqOk(s, p, x) && EnqFresh(s, x) && x.m.uid == s.enqs[p].m.uid && !x.pc.EDone?
    ensures Inv(c, s')
  {
    hide Inv, FsOk, FsSane, Logged;
    EnqAt(c, s, p);
    FsStep(s, s', {}, 0);
    EnqStepInv(c, s, s', Actor(None, None, None, None), p, x);
  }

  /** A write to the message or envelope under construction. */
  lemma EnqAppend(c: Config, s: State, s': State, p: Pid, f: FName, i: Ino, j: Ino, b: Bytes)
    requires Inv(c, s) && p in s.enqs && s' == s.(fs := Append(s.fs, i, b))
    requires Writing(s, p, s.enqs[p].m, j) && f in {PidFile(p), Todo(j)} && At(s.fs, f, i)
    requires EnqOk(s', p, s.enqs[p]) && !s.enqs[p].pc.EDone?
    ensures Inv(c, s')
  {
    hide Inv, FsOk, FsSane, Append, Logged, EnqOk;
    EnqAt(c, s, p);
    var m := s.enqs[p].m;
    AppendFrame(s.fs, f, i, b);
    assert SameFile(s.fs, s'.fs, PidFile(p)) || f == PidFile(p);
    assert Linked(s'.fs, j) by { assert s'.fs.dir[PidFile(p)] == j; }
    FsStep(s, s', {f}, j);
    assert s'.enqs == s.enqs[p := s.enqs[p]];
    EnqStepInv(c, s, s', Actor(Some(m.uid), Some(j), Some(p), None), p, s.enqs[p]);
  }

  lemma EnqWriteMsg(c: Config, s: State, s': State, p: Pid, i: Ino, k: nat)
    requires Inv(c, s) && p in s.enqs && s.enqs[p].pc.EWrite? && EnqStep(s, s', p, i, k)
    ensures Inv(c, s')
  {
    hide Inv, FsOk, Logged;
    EnqAt(c, s, p);
    var m, j := s.enqs[p].m, s.enqs[p].pc.i;
    var n := |Content(s.fs, j)|;
    if n < |m.body| {
      AppendFrame(s.fs, PidFile(p), j, m.body[n..n + k]);
      assert m.body[..n] + m.body[n..n + k] == m.body[..n + k];
      EnqAppend(c, s, s', p, PidFile(p), j, j, m.body[n..n + k]);
    } else {
      EnqClose(c, s, s', p, s'.enqs[p]);
    }
  }

  lemma EnqCreateEnvelope(c: Config, s: State, s': State, p: Pid, i: Ino, k: nat)
    requires Inv(c, s) && p in s.enqs && s.enqs[p].pc.EReady? && EnqStep(s, s', p, i, k)
    ensures Inv(c, s')
  {
    hide Inv, FsOk, FsSane, Create, Logged;
    EnqAt(c, s, p);
    var m, j := s.enqs[p].m, s.enqs[p].pc.i;
    CreateFrame(s.fs, Todo(j), i);
    assert SameFile(s.fs, s'.fs, PidFile(p));
    assert Linked(s'.fs, j) by { assert s'.fs.dir[PidFile(p)] == j; }
    FsStep(s, s', {Todo(j)}, j);
    EnqStepInv(c, s, s', Actor(Some(m.uid), Some(j), Some(p), None), p, s'.enqs[p]);
  }

  lemma EnqWriteEnvelope(c: Config, s: State, s': State, p: Pid, i: Ino, k: nat)
    requires Inv(c, s) && p in s.enqs && s.enqs[p].pc.EEnvelope? && EnqStep(s, s', p, i, k)
    ensures Inv(c, s')
  {
    hide Inv, FsOk, Logged;
    EnqAt(c, s, p);
    var m, j, e := s.enqs[p].m, s.enqs[p].pc.i, s.enqs[p].pc.e;
    var n := |Content(s.fs, e)|;
    if n < |m.rcpt| {
      AppendFrame(s.fs, Todo(j), e, m.rcpt[n..n + k]);
      assert m.rcpt[..n] + m.rcpt[n..n + k] == m.rcpt[..n + k];
      EnqAppend(c, s, s', p, Todo(j), e, j, m.rcpt[n..n + k]);
    } else {
      EnqClose(c, s, s', p, s'.enqs[p]);
    }
  }

  /** The rename into mess/ never meets an existing file. */
  lemma MessIsFree(s: State, p: Pid, j: Ino)
    requires FsOk(s) && At(s.fs, PidFile(p), j)
    ensures Mess(j) !in s.fs.dir
  {
    assert Mess(j) in s.fs.dir ==> NameOk(s, Mess(j));
  }

  lemma EnqMove(c: Config, s: State, s': State, p: Pid, i: Ino, k: nat)
    requires Inv(c, s) && p in s.enqs && s.enqs[p].pc.EFiled? && EnqStep(s, s', p, i, k)
    ensures Inv(c, s')
  {
    hide Inv, FsOk, FsSane, Rename, Logged;
    EnqAt(c, s, p);
    var m, j := s.enqs[p].m, s.enqs[p].pc.i;
    MessIsFree(s, p, j);
    RenameFrame(s.fs, PidFile(p), Mess(j));
    assert SameFile(s.fs, s'.fs, Todo(j));
    assert Linked(s'.fs, j) by { assert s'.fs.dir[Mess(j)] == j; }
    FsStep(s, s', {PidFile(p), Mess(j)}, j);
    EnqStepInv(c, s, s', Actor(Some(m.uid), Some(j), Some(p), None), p, s'.enqs[p]);
  }

  lemma EnqNotify(c: Config, s: State, s': State, p: Pid, i: Ino, k: nat)
    requires Inv(c, s) && p in s.enqs && s.enqs[p].pc.EMoved? && EnqStep(s, s', p, i, k)
    ensures Inv(c, s')
  {
    hide Inv, FsSane, Logged, EnqOk, EnqFresh, WrkOk, NoteOk, FsOk, Holds, PlaceOk, SockOk;
    var m, j := s.enqs[p].m, s.enqs[p].pc.i;
    EnqAt(c, s, p);
    Parts(c, s);
    FsStep(s, s', {}, 0);
    var a := Actor(Some(m.uid), Some(j), None, None);
    assert Acts(s, a, Writer(p)) && Stable(s, s', a) && EnqOk(s', p, s'.enqs[p]) && EnqFresh(s', s'.enqs[p]) by {
      NotifyFacts(s, s', p);
    }
    forall q | q in s'.enqs ensures EnqOk(s', q, s'.enqs[q]) && EnqFresh(s', s'.enqs[q]) {
      if q != p {
        OtherEnq(c, s, s', a, Writer(p), q);
      }
    }
    forall w | w in s'.wrks ensures WrkOk(c, s', w, s'.wrks[w]) {
      OtherWrk(c, s, s', a, Writer(p), w);
    }
    NotifySock(c, s, s', p);
    forall u | u in s'.place ensures PlaceOk(s', u) {
      NotifyPlaces(c, s, s', p, u);
    }
    assert LogOk(s') && PidsOk(s') by {
      hide Stable, Acts;
    }
    Together(c, s');
  }

  ghost predicate Notified(s: State, s': State, p: Pid) {
    && p in s.enqs && s.enqs[p].pc.EMoved? && EnqOk(s, p, s.enqs[p]) && EnqFresh(s, s.enqs[p])
    && s' == s.(sock := s.sock + [Mail(s.enqs[p].pc.i, s.enqs[p].m)], enqs := s.enqs[p := Enq(s.enqs[p].m, EDone)],
                place := s.place[s.enqs[p].m.uid := Queued])
  }

  lemma NotifyFacts(s: State, s': State, p: Pid)
    requires Notified(s, s', p)
    ensures var a := Actor(Some(s.enqs[p].m.uid), Some(s.enqs[p].pc.i), None, None);
            Acts(s, a, Writer(p)) && Stable(s, s', a)
    ensures EnqOk(s', p, s'.enqs[p]) && EnqFresh(s', s'.enqs[p])
    ensures NoteOk(s', Mail(s.enqs[p].pc.i, s.enqs[p].m))
  {
    hide Logged;
  }

  lemma NotifySock(c: Config, s: State, s': State, p: Pid)
    requires Inv(c, s) && Notified(s, s', p)
    ensures SockOk(s')
  {
    var m, j := s.enqs[p].m, s.enqs[p].pc.i;
    NotifyFacts(s, s', p);
    var a := Actor(Some(m.uid), Some(j), None, None);
    assert EnqOk(s, p, s.enqs[p]);
    hide Stable, Acts, Logged, EnqFresh, WrkOk, FsOk, Filed, PlaceOk, LogOk, PidsOk;
    forall n | n in s'.sock ensures NoteOk(s', n) {
      if n in s.sock {
        OtherNote(c, s, s', a, Writer(p), n);
      }
    }
    forall x, y | 0 <= x < y < |s'.sock| && s'.sock[x].Mail? && s'.sock[y].Mail?
      ensures s'.sock[x].m.uid != s'.sock[y].m.uid
    {
      assert s.sock[x] in s.sock && NoteOk(s, s.sock[x]);
    }
  }

  lemma NotifyPlaces(c: Config, s: State, s': State, p: Pid, u: nat)
    requires Inv(c, s) && Notified(s, s', p) && u in s'.place
    ensures PlaceOk(s', u)
  {
    hide FsOk, LogOk, PidsOk, EnqFresh, WrkOk, Logged;
    if u == s.enqs[p].m.uid {
      assert s'.sock[|s.sock|] == Mail(s.enqs[p].pc.i, s.enqs[p].m);
    } else {
      assert PlaceOk(s, u);
      if s.place[u].Queued? {
        var k :| 0 <= k < |s.sock| && s.sock[k].Mail? && s.sock[k].m.uid == u;
        assert s'.sock[k] == s.sock[k];
      }
    }
  }

  lemma EnqKeepsInv(c: Config, s: State, s': State, p: Pid, i: Ino, k: nat)
    requires Inv(c, s) && p in s.enqs && EnqStep(s, s', p, i, k)
    ensures Inv(c, s')
  {
    EnqAt(c, s, p);
    hide Inv, FsOk, FsSane, Logged;
    match s.enqs[p].pc
    case EStart => EnqCreateMsg(c, s, s', p, i, k);
    case EWrite(_) => EnqWriteMsg(c, s, s', p, i, k);
    case EReady(_) => EnqCreateEnvelope(c, s, s', p, i, k);
    case EEnvelope(_, _) => EnqWriteEnvelope(c, s, s', p, i, k);
    case EFiled(_) => EnqMove(c, s, s', p, i, k);
    case EMoved(_) => EnqNotify(c, s, s', p, i, k);
  }

  // ----------------------------------------------------------------------
  // Queue-manager threads and delivery processes
  // ----------------------------------------------------------------------

  /** A step that changes nothing but the state of one thread, its child and their pipes. */
  lemma WrkLocal(c: Config, s: State, s': State, w: Wid, x: Wrk)
    requires Inv(c, s) && w in s.wrks && s' == s.(wrks := s.wrks[w := x]) && WrkOk(c, s, w, x)
    requires InHand(x.pc) == InHand(s.wrks[w].pc)
    requires x.child.Child? ==>
               if s.wrks[w].child.Child? then x.child.(pc := CWait) == s.wrks[w].child.(pc := CWait)
               else FreePid(s, x.child.pid)
    requires s.wrks[w].child.Child? && (s.wrks[w].child.pc.CCopy? || s.wrks[w].child.pc.CName?) ==>
               x.child.Child? && (x.child.pc.CCopy? || x.child.pc.CName?)
    ensures Inv(c, s')
  {
    hide Inv, FsOk, FsSane, Logged, WrkOk, LogOk, SockOk, NameOk;
    Parts(c, s);
    FsStep(s, s', {}, 0);
    assert WrkOk(c, s', w, x) by { WrkSame(c, s, s', w, x); }
    PlacesKept(s, s', w, x);
    assert LogOk(s') by { LogSame(s, s'); }
    WrkStepInv(c, s, s', Actor(None, None, None, None), w, x);
  }

  lemma WrkSame(c: Config, s: State, s': State, w: Wid, x: Wrk)
    requires WrkOk(c, s, w, x) && s'.fs == s.fs && s'.tag == s.tag && s'.place == s.place && s'.log == s.log
    ensures WrkOk(c, s', w, x)
  {
    hide Logged;
  }

  lemma LogSame(s: State, s': State)
    requires LogOk(s) && s'.log == s.log && s'.place == s.place
    ensures LogOk(s')
  {
  }

  lemma PlacesKept(s: State, s': State, w: Wid, x: Wrk)
    requires w in s.wrks && s'.wrks == s.wrks[w := x] && InHand(x.pc) == InHand(s.wrks[w].pc)
    requires s'.enqs == s.enqs && s'.sock == s.sock && s'.place == s.place && forall d :: d in s.log ==> d in s'.log
    requires forall u :: u in s.place ==> PlaceOk(s, u)
    ensures forall u :: u in s'.place ==> PlaceOk(s', u)
  {
    forall u | u in s'.place ensures PlaceOk(s', u) {
      assert PlaceOk(s, u);
    }
  }

  /** Reading the envelope and opening the message. */
  lemma WrkReads(c: Config, s: State, s': State, w: Wid, pid: Pid, k: nat)
    requires Inv(c, s) && w in s.wrks && WrkStep(c, s, s', w, pid, k)
    requires s.wrks[w].pc.WGot? || s.wrks[w].pc.WEnvelope? || s.wrks[w].pc.WRcpt?
    ensures Inv(c, s')
  {
    hide Inv, FsOk, FsSane, LogOk, PidsOk, Logged, Resting, Stopping, Running, Streaming;
    WrkAt(c, s, w);
    RestingPC(c, s.wrks[w], s'.wrks[w]);
    WrkLocal(c, s, s', w, s'.wrks[w]);
  }

  /** Waiting for a child or its answer, and leaving. */
  lemma WrkWaits(c: Config, s: State, s': State, w: Wid, pid: Pid, k: nat)
    requires Inv(c, s) && w in s.wrks && WrkStep(c, s, s', w, pid, k)
    requires s.wrks[w].pc.WStop? || s.wrks[w].pc.WSpawned? || s.wrks[w].pc.WAnswer?
    ensures Inv(c, s')
  {
    hide Inv, FsOk, FsSane, LogOk, PidsOk, Logged, Encode64, Handles;
    WrkAt(c, s, w);
    WrkLocal(c, s, s', w, s'.wrks[w]);
  }

  lemma WrkCloses(c: Config, s: State, s': State, w: Wid, pid: Pid, k: nat)
    requires Inv(c, s) && w in s.wrks && WrkStep(c, s, s', w, pid, k)
    requires s.wrks[w].pc.WDelivered? || s.wrks[w].pc.WLeave?
    ensures Inv(c, s')
  {
    hide Inv, FsOk, FsSane, LogOk, PidsOk, Logged, Running, Streaming, Handles;
    WrkAt(c, s, w);
    WrkLocal(c, s, s', w, s'.wrks[w]);
  }

  lemma WrkFeeds(c: Config, s: State, s': State, w: Wid, pid: Pid, k: nat)
    requires w in s.wrks && s.wrks[w].pc.WPipe? && WrkOk(c, s, w, s.wrks[w]) && WrkStep(c, s, s', w, pid, k)
    ensures w in s'.wrks && WrkOk(c, s, w, s'.wrks[w])
  {
    hide Logged, Encode64;
    var x := s.wrks[w];
    if x.pc.sent < |x.pc.m.body| {
      var m, n := x.pc.m, x.pc.sent;
      assert m.body[..n] + m.body[n..n + k] == m.body[..n + k];
      assert Encode64(|m.body|) + m.body[..n] + m.body[n..n + k] == Encode64(|m.body|) + m.body[..n + k];
      if x.child.pc.CCopy? {
        var got := s.fs.data[x.child.pc.t];
        assert got + x.pipe + m.body[n..n + k] == got + (x.pipe + m.body[n..n + k]);
      }
    }
  }

  lemma WrkPipes(c: Config, s: State, s': State, w: Wid, pid: Pid, k: nat)
    requires Inv(c, s) && w in s.wrks && s.wrks[w].pc.WPipe? && WrkStep(c, s, s', w, pid, k)
    ensures Inv(c, s')
  {
    hide Inv, FsOk, FsSane, LogOk, PidsOk, WrkOk;
    WrkAt(c, s, w);
    WrkFeeds(c, s, s', w, pid, k);
    WrkLocal(c, s, s', w, s'.wrks[w]);
  }

  ghost predicate NoDeath(x: Wrk) {
    !x.pc.WDied? && (x.child.Child? ==> !x.child.pc.CDied?)
  }

  /** Nothing ever dies: no exclusive create meets an existing file, no file that is opened is missing. */
  lemma WrkLives(c: Config, s: State, w: Wid, x: Wrk)
    requires WrkOk(c, s, w, x)
    ensures NoDeath(x)
  {
    hide Logged, Encode64;
  }

  lemma WrkDeliver(c: Config, s: State, s': State, w: Wid, pid: Pid)
    requires Inv(c, s) && w in s.wrks && s.wrks[w].pc.WMsg? && DeliverStep(c, s, s', w, pid)
    ensures Inv(c, s')
  {
    hide Inv, FsOk, FsSane, LogOk, PidsOk, Logged, Encode64, FreePid;
    WrkAt(c, s, w);
    WrkLocal(c, s, s', w, s'.wrks[w]);
  }

  lemma WrkUnlinkTodo(c: Config, s: State, s': State, w: Wid)
    requires Inv(c, s) && w in s.wrks && s.wrks[w].pc.WClosed? && WrkStep(c, s, s', w, 0, 0)
    ensures Inv(c, s')
  {
    hide Inv, FsOk, FsSane, Unlink, Logged, LogOk, NameOk, SockOk, PlaceOk, Resting, Running, Streaming, PidsOk;
    WrkAt(c, s, w);
    Parts(c, s);
    var i, m, x := s.wrks[w].pc.i, s.wrks[w].pc.m, s'.wrks[w];
    UnlinkFrame(s.fs, Todo(i));
    assert SameFile(s.fs, s'.fs, Mess(i));
    assert Linked(s'.fs, i) by { assert s'.fs.dir[Mess(i)] == i; }
    assert WrkOk(c, s', w, x) by { RestingPC(c, s.wrks[w], x); }
    hide WrkOk;
    FsStep(s, s', {Todo(i)}, i);
    LogSame(s, s');
    PlacesKept(s, s', w, x);
    PidsKept(s, s', w, x);
    WrkStepInv(c, s, s', Actor(Some(m.uid), Some(i), None, None), w, x);
  }

  lemma RestingPC(c: Config, x: Wrk, x': Wrk)
    requires Resting(c, x) && x' == x.(pc := x'.pc)
    ensures Resting(c, x')
  {
  }

  lemma PidsKept(s: State, s': State, w: Wid, x: Wrk)
    requires PidsOk(s) && w in s.wrks && s'.wrks == s.wrks[w := x]
    requires x.child.Child? ==> s.wrks[w].child.Child? && x.child.pid == s.wrks[w].child.pid
    ensures PidsOk(s')
  {
  }

  lemma WrkUnlinkMess(c: Config, s: State, s': State, w: Wid)
    requires Inv(c, s) && w in s.wrks && s.wrks[w].pc.WHalf? && WrkStep(c, s, s', w, 0, 0)
    ensures Inv(c, s')
  {
    hide Inv, FsOk, FsSane, Unlink, Logged, NameOk, SockOk, LogOk, PlaceOk, Resting, Running, Streaming, PidsOk;
    WrkAt(c, s, w);
    Parts(c, s);
    var i, m, x := s.wrks[w].pc.i, s.wrks[w].pc.m, s'.wrks[w];
    UnlinkFrame(s.fs, Mess(i));
    assert SameFile(s.fs, s'.fs, Todo(i));
    assert WrkOk(c, s', w, x) by { RestingPC(c, s.wrks[w], x); }
    FsStep(s, s', {Mess(i)}, i);
    FinishPlaces(s, s', w, i, m);
    PidsKept(s, s', w, x);
    hide WrkOk;
    WrkStepInv(c, s, s', Actor(Some(m.uid), Some(i), None, None), w, x);
  }

  lemma FinishPlaces(s: State, s': State, w: Wid, i: Ino, m: Msg)
    requires w in s.wrks && InHand(s.wrks[w].pc) == Some(m) && m.uid in s.place && s.place[m.uid] == Handler(w)
    requires Logged(s.log, m.uid) && LogOk(s)
    requires s'.wrks == s.wrks[w := s.wrks[w].(pc := WWait)] && s'.enqs == s.enqs && s'.sock == s.sock
    requires s'.log == s.log
    requires s'.place == s.place[m.uid := Finished]
    requires forall u :: u in s.place ==> PlaceOk(s, u)
    ensures LogOk(s') && forall u :: u in s'.place ==> PlaceOk(s', u)
  {
    hide Logged;
    forall u | u in s'.place ensures PlaceOk(s', u) {
      assert PlaceOk(s, u);
    }
  }

  // ----------------------------------------------------------------------
  // The socket
  // ----------------------------------------------------------------------

  ghost predicate ControlOnly(s: State, s': State) {
    && s' == s.(sock := s'.sock, exiting := s'.exiting, early := s'.early)
    && ((s.sock != [] && !s.sock[0].Mail? && s'.sock == s.sock[1..])
        || s'.sock == s.sock + [Exit] || s'.sock == s.sock + [Exit2])
  }

  /** Control messages come and go without touching anybody's message. */
  lemma ControlStep(c: Config, s: State, s': State)
    requires Inv(c, s) && ControlOnly(s, s')
    ensures Inv(c, s')
  {
    hide Inv, FsOk, FsSane, LogOk, WrkOk, EnqOk, EnqFresh, Logged, PlaceOk;
    Parts(c, s);
    forall p | p in s'.enqs ensures EnqOk(s', p, s'.enqs[p]) && EnqFresh(s', s'.enqs[p]) {
      EnqAt(c, s, p);
      EnqFrame(s, s', Actor(None, None, None, None), p, s.enqs[p]);
    }
    forall v | v in s'.wrks ensures WrkOk(c, s', v, s'.wrks[v]) {
      WrkAt(c, s, v);
      WrkSame(c, s, s', v, s.wrks[v]);
    }
    ControlSock(s, s');
    forall u | u in s'.place ensures PlaceOk(s', u) {
      PlaceControl(s, s', u);
    }
    FsStep(s, s', {}, 0);
    LogSame(s, s');
    Together(c, s');
  }

  lemma ControlSock(s: State, s': State)
    requires SockOk(s) && ControlOnly(s, s')
    ensures SockOk(s')
  {
    forall n | n in s'.sock ensures NoteOk(s', n) {
      if n in s.sock {
        assert NoteOk(s, n);
      }
    }
    if s.sock != [] && s'.sock == s.sock[1..] {
      assert forall a :: 0 <= a < |s'.sock| ==> s'.sock[a] == s.sock[a + 1];
    }
  }

  lemma PlaceControl(s: State, s': State, u: nat)
    requires u in s.place && PlaceOk(s, u) && ControlOnly(s, s')
    ensures PlaceOk(s', u)
  {
    if s.place[u].Queued? {
      var k :| 0 <= k < |s.sock| && s.sock[k].Mail? && s.sock[k].m.uid == u;
      if s.sock <= s'.sock {
        assert s'.sock[k] == s.sock[k];
      } else {
        assert s'.sock[k - 1] == s.sock[k];
      }
    }
  }

  lemma CascadingOk(c: Config, s: State, w: Wid, x: Wrk, x': Wrk)
    requires WrkOk(c, s, w, x) && x.pc.WCascade? && x' == x.(pc := x'.pc) && (x'.pc.WCascade? || x'.pc.WLeave?)
    ensures WrkOk(c, s, w, x')
  {
  }

  lemma WrkCascades(c: Config, s: State, s': State, w: Wid)
    requires Inv(c, s) && w in s.wrks && s.wrks[w].pc.WCascade? && WrkStep(c, s, s', w, 0, 0)
    ensures Inv(c, s')
  {
    hide Inv, FsOk, FsSane, LogOk, PidsOk, WrkOk;
    WrkAt(c, s, w);
    CascadingOk(c, s, w, s.wrks[w], s'.wrks[w]);
    var t := s.(wrks := s'.wrks);
    WrkLocal(c, s, t, w, s'.wrks[w]);
    if s.wrks[w].pc.left > 0 {
      ControlStep(c, t, s');
    }
  }

  lemma LeavingOk(c: Config, s: State, w: Wid, x: Wrk, x': Wrk)
    requires WrkOk(c, s, w, x) && x.pc.WWait? && x' == x.(pc := x'.pc) && (x'.pc.WCascade? || x'.pc.WLeave?)
    ensures WrkOk(c, s, w, x')
  {
  }

  lemma DequeueControl(c: Config, s: State, s': State, w: Wid)
    requires Inv(c, s) && w in s.wrks && s.wrks[w].pc.WWait? && Dequeue(c, s, s', w) && !s.sock[0].Mail?
    ensures Inv(c, s')
  {
    hide Inv, FsOk, FsSane, LogOk, PidsOk, WrkOk;
    WrkAt(c, s, w);
    LeavingOk(c, s, w, s.wrks[w], s'.wrks[w]);
    var t := s.(wrks := s'.wrks);
    WrkLocal(c, s, t, w, s'.wrks[w]);
    ControlStep(c, t, s');
  }

  /** A thread takes charge of the message at the head of the queue. */
  lemma DequeueMail(c: Config, s: State, s': State, w: Wid)
    requires Inv(c, s) && w in s.wrks && s.wrks[w].pc.WWait? && Dequeue(c, s, s', w) && s.sock[0].Mail?
    ensures Inv(c, s')
  {
    hide Inv, FsOk, FsSane, LogOk, WrkOk, EnqOk, EnqFresh, Logged, PlaceOk, Stable, Acts, SockOk, PidsOk;
    Parts(c, s);
    var i, m, x := s.sock[0].i, s.sock[0].m, s'.wrks[w];
    var a := Actor(Some(m.uid), Some(i), None, None);
    WrkAt(c, s, w);
    Taken(c, s, s', w);
    forall q | q in s'.enqs ensures EnqOk(s', q, s'.enqs[q]) && EnqFresh(s', s'.enqs[q]) {
      OtherEnq(c, s, s', a, Queued, q);
    }
    forall v | v in s'.wrks ensures WrkOk(c, s', v, s'.wrks[v]) {
      if v != w {
        OtherWrk(c, s, s', a, Queued, v);
      }
    }
    TakenSock(c, s, s', w);
    FsStep(s, s', {}, 0);
    PidsKept(s, s', w, x);
    Together(c, s');
  }

  lemma Taken(c: Config, s: State, s': State, w: Wid)
    requires w in s.wrks && s.wrks[w].pc.WWait? && Dequeue(c, s, s', w) && s.sock[0].Mail?
    requires SockOk(s) && WrkOk(c, s, w, s.wrks[w]) && LogOk(s) && forall u :: u in s.place ==> PlaceOk(s, u)
    ensures var (i, m) := (s.sock[0].i, s.sock[0].m);
            && Acts(s, Actor(Some(m.uid), Some(i), None, None), Queued)
            && Stable(s, s', Actor(Some(m.uid), Some(i), None, None))
    ensures WrkOk(c, s', w, s'.wrks[w]) && LogOk(s') && forall u :: u in s'.place ==> PlaceOk(s', u)
  {
    hide Logged;
    assert NoteOk(s, s.sock[0]);
    forall u | u in s'.place ensures PlaceOk(s', u) {
      assert u in s.place && PlaceOk(s, u);
      if s'.place[u].Queued? {
        var k :| 0 <= k < |s.sock| && s.sock[k].Mail? && s.sock[k].m.uid == u;
        assert s'.sock[k - 1] == s.sock[k];
      }
    }
  }

  lemma TakenSock(c: Config, s: State, s': State, w: Wid)
    requires Inv(c, s) && w in s.wrks && s.wrks[w].pc.WWait? && Dequeue(c, s, s', w) && s.sock[0].Mail?
    requires var (i, m) := (s.sock[0].i, s.sock[0].m);
             && Acts(s, Actor(Some(m.uid), Some(i), None, None), Queued)
             && Stable(s, s', Actor(Some(m.uid), Some(i), None, None))
    ensures SockOk(s')
  {
    hide Logged, Stable, Acts, FsOk, LogOk, PidsOk, WrkOk, EnqOk, EnqFresh, PlaceOk, NoteOk;
    var a := Actor(Some(s.sock[0].m.uid), Some(s.sock[0].i), None, None);
    assert forall k :: 0 <= k < |s'.sock| ==> s'.sock[k] == s.sock[k + 1];
    forall k | 0 <= k < |s'.sock| ensures NoteOk(s', s'.sock[k]) {
      assert s.sock[k + 1] in s.sock;
      OtherNote(c, s, s', a, Queued, s.sock[k + 1]);
    }
  }

  // ----------------------------------------------------------------------
  // Delivery processes
  // ----------------------------------------------------------------------

  /** A child that finds bytes in its pipe when it waits for a length finds the length of the
      message in hand. */
  lemma HeaderIsLength(c: Config, s: State, w: Wid, x: Wrk)
    requires WrkOk(c, s, w, x) && x.child.Child? && x.child.pc.CWait? && x.pipe != []
    ensures (x.pc.WPipe? || x.pc.WAnswer?) && |x.pipe| >= 8 && Decode64(x.pipe[..8]) == |x.pc.m.body|
    ensures x.pipe[8..] == x.pc.m.body[..(if x.pc.WPipe? then x.pc.sent else |x.pc.m.body|)]
  {
    hide Encode, Decode, Logged;
    var m := x.pc.m;
    LengthRoundTrip(|m.body|);
    var sent := if x.pc.WPipe? then x.pc.sent else |m.body|;
    assert x.pipe == Encode64(|m.body|) + m.body[..sent];
    assert x.pipe[..8] == Encode64(|m.body|);
  }

  lemma OnlyStoppedClosed(c: Config, s: State, w: Wid, x: Wrk)
    requires WrkOk(c, s, w, x) && x.child.Child? && x.closed && x.child.pc.CWait?
    ensures Stopping(c, x) && (x.pc.WStop? || x.pc.WLeave?)
  {
    hide Logged, Encode64, Handles;
  }

  /** Reading the length of the next message, or the end of the stream. */
  lemma ChildWaits(c: Config, s: State, s': State, w: Wid, t: Ino, k: nat)
    requires Inv(c, s) && w in s.wrks && s.wrks[w].child.Child? && s.wrks[w].child.pc.CWait?
    requires ChildStep(c, s, s', w, t, k)
    ensures Inv(c, s')
  {
    hide Inv, FsOk, FsSane, LogOk, PidsOk, Logged, Encode64, Decode64, Handles, Running;
    WrkAt(c, s, w);
    var x := s.wrks[w];
    if x.pipe != [] {
      HeaderIsLength(c, s, w, x);
      assert s'.wrks[w].child.pc == CCreate(Some(|x.pc.m.body|));
      assert s'.wrks[w].pipe == x.pc.m.body[..(if x.pc.WPipe? then x.pc.sent else |x.pc.m.body|)];
      assert x.replies == 0;
      assert WrkOk(c, s, w, s'.wrks[w]);
    } else {
      OnlyStoppedClosed(c, s, w, x);
      assert s'.wrks[w].child.pc.CExit?;
      assert Stopping(c, s'.wrks[w]);
      assert WrkOk(c, s, w, s'.wrks[w]);
    }
    WrkLocal(c, s, s', w, s'.wrks[w]);
  }

  lemma ChildReplies(c: Config, s: State, s': State, w: Wid, t: Ino, k: nat)
    requires Inv(c, s) && w in s.wrks && s.wrks[w].child.Child? && s.wrks[w].child.pc.CReply?
    requires ChildStep(c, s, s', w, t, k)
    ensures Inv(c, s')
  {
    hide Inv, FsOk, FsSane, LogOk, PidsOk, Logged, Encode64, Decode64, Handles;
    WrkAt(c, s, w);
    WrkLocal(c, s, s', w, s'.wrks[w]);
  }

  /** No temporary file of this process is left from an earlier message, or from an earlier
      process with its id. */
  lemma TmpIsFree(s: State, w: Wid)
    requires FsOk(s) && PidsOk(s) && w in s.wrks && s.wrks[w].child.Child? && s.wrks[w].child.pc.CCreate?
    ensures var ch := s.wrks[w].child; Tmp(ch.r, ch.pid, ch.q) !in s.fs.dir
  {
    var ch := s.wrks[w].child;
    assert Tmp(ch.r, ch.pid, ch.q) in s.fs.dir ==> NameOk(s, Tmp(ch.r, ch.pid, ch.q));
  }

  /** A thread whose child is at work on a message. */
  lemma WorkingOn(c: Config, s: State, w: Wid, x: Wrk)
    requires WrkOk(c, s, w, x) && x.child.Child? && (x.child.pc.CCreate? || x.child.pc.CCopy? || x.child.pc.CName?)
    ensures x.pc.WSpawned? || x.pc.WPipe? || x.pc.WAnswer?
    ensures Handles(s, w, x.pc.i, x.pc.m) && !Logged(s.log, x.pc.m.uid) && x.child.r == x.pc.m.rcpt
  {
  }

  /** A step of the child on its temporary file. */
  lemma TmpStep(c: Config, s: State, s': State, w: Wid, x: Wrk, t: Ino)
    requires Inv(c, s) && w in s.wrks && s'.wrks == s.wrks[w := x] && s' == s.(fs := s'.fs, wrks := s'.wrks)
    requires s.wrks[w].child.Child? && x.child.Child? && x.child == s.wrks[w].child.(pc := x.child.pc)
    requires x.pc == s.wrks[w].pc
    requires x.child.pc.CCopy? && (s.wrks[w].child.pc.CCreate? || s.wrks[w].child.pc.CCopy?)
    requires var n := Tmp(x.child.r, x.child.pid, x.child.q);
             FsSane(s'.fs) && At(s'.fs, n, t) && forall n' :: n' != n ==> SameFile(s.fs, s'.fs, n')
    requires WrkOk(c, s', w, x)
    ensures Inv(c, s')
  {
    hide Inv, FsOk, FsSane, LogOk, WrkOk, Logged, PlaceOk, SockOk, PidsOk;
    Parts(c, s);
    WrkAt(c, s, w);
    WorkingOn(c, s, w, s.wrks[w]);
    var n, i, m := Tmp(x.child.r, x.child.pid, x.child.q), x.pc.i, x.pc.m;
    assert SameFile(s.fs, s'.fs, Mess(i));
    assert Linked(s'.fs, i) by { assert s'.fs.dir[Mess(i)] == i; }
    assert OwnsTmp(s'.wrks[w], n.r, n.p, n.q);
    FsStep(s, s', {n}, i);
    PidsKept(s, s', w, x);
    LogSame(s, s');
    PlacesKept(s, s', w, x);
    WrkStepInv(c, s, s', Actor(Some(m.uid), Some(i), None, Some(x.child.pid)), w, x);
  }

  lemma ChildCreates(c: Config, s: State, s': State, w: Wid, t: Ino, k: nat)
    requires Inv(c, s) && w in s.wrks && s.wrks[w].child.Child? && s.wrks[w].child.pc.CCreate?
    requires ChildStep(c, s, s', w, t, k)
    ensures Inv(c, s')
  {
    hide Inv, FsOk, FsSane, LogOk, Logged, Create, PidsOk, Encode64;
    WrkAt(c, s, w);
    var x, ch := s.wrks[w], s.wrks[w].child;
    TmpIsFree(s, w);
    WorkingOn(c, s, w, x);
    CreateFrame(s.fs, Tmp(ch.r, ch.pid, ch.q), t);
    assert SameFile(s.fs, s'.fs, Mess(x.pc.i)) && SameFile(s.fs, s'.fs, Todo(x.pc.i));
    TmpStep(c, s, s', w, s'.wrks[w], t);
  }

  /** The end of a copy: nothing was cut short. */
  lemma ChildEndsCopy(c: Config, s: State, s': State, w: Wid)
    requires Inv(c, s) && w in s.wrks && s.wrks[w].child.Child? && s.wrks[w].child.pc.CCopy?
    requires var (x, pc) := (s.wrks[w], s.wrks[w].child.pc);
             && ((pc.limit.Some? && pc.n >= pc.limit.value)
                 || (Input(s, w, pc.limit, pc.n) == [] && (pc.limit.None? || x.closed)))
             && s' == WithChild(s, w, CName(pc.t, pc.limit))
    ensures Inv(c, s')
  {
    hide Inv, FsOk, FsSane, LogOk, Logged, PidsOk, Encode64;
    WrkAt(c, s, w);
    WrkLocal(c, s, s', w, s'.wrks[w]);
  }

  lemma ChildCopies(c: Config, s: State, s': State, w: Wid, t: Ino, k: nat)
    requires Inv(c, s) && w in s.wrks && s.wrks[w].child.Child? && s.wrks[w].child.pc.CCopy?
    requires ChildStep(c, s, s', w, t, k)
    ensures Inv(c, s')
  {
    hide Inv, FsOk, FsSane, LogOk, Logged, Append, PidsOk, WrkOk;
    WrkAt(c, s, w);
    var pc := s.wrks[w].child.pc;
    if (pc.limit.Some? && pc.n >= pc.limit.value) || Input(s, w, pc.limit, pc.n) == [] {
      ChildEndsCopy(c, s, s', w);
    } else {
      ChunkOk(c, s, s', w, k);
      TmpStep(c, s, s', w, s'.wrks[w], pc.t);
    }
  }

  /** One read and write of the copy. */
  lemma ChunkOk(c: Config, s: State, s': State, w: Wid, k: nat)
    requires w in s.wrks && s.wrks[w].child.Child? && s.wrks[w].child.pc.CCopy? && WrkOk(c, s, w, s.wrks[w])
    requires FsSane(s.fs)
    requires var (x, pc) := (s.wrks[w], s.wrks[w].child.pc);
             var inp := Input(s, w, pc.limit, pc.n);
             && inp != [] && !(pc.limit.Some? && pc.n >= pc.limit.value)
    requires ChildStep(c, s, s', w, 0, k)
    ensures w in s'.wrks && s'.wrks == s.wrks[w := s'.wrks[w]] && WrkOk(c, s', w, s'.wrks[w])
    ensures var ch := s.wrks[w].child;
            var n := Tmp(ch.r, ch.pid, ch.q);
            FsSane(s'.fs) && At(s'.fs, n, ch.pc.t) && forall n' :: n' != n ==> SameFile(s.fs, s'.fs, n')
  {
    hide FsSane, Logged, Append, Encode64;
    var x, ch := s.wrks[w], s.wrks[w].child;
    var f, m := ch.pc.t, x.pc.m;
    WorkingOn(c, s, w, x);
    var got, inp := s.fs.data[f], Input(s, w, ch.pc.limit, ch.pc.n);
    AppendFrame(s.fs, Tmp(ch.r, ch.pid, ch.q), f, inp[..k]);
    assert SameFile(s.fs, s'.fs, Mess(x.pc.i)) && SameFile(s.fs, s'.fs, Todo(x.pc.i));
    if ch.pc.limit.Some? {
      assert got + inp[..k] + inp[k..] == got + inp;
    } else {
      assert inp[..k] == m.body[ch.pc.n..ch.pc.n + k];
      assert m.body[..ch.pc.n] + m.body[ch.pc.n..ch.pc.n + k] == m.body[..ch.pc.n + k];
    }
  }

  /** The rename into new/ never meets an existing file. */
  lemma NewIsFree(s: State, ch: Child, t: Ino)
    requires FsOk(s) && ch.Child? && TmpAt(s, ch, t)
    ensures New(ch.r, t) !in s.fs.dir
  {
    assert New(ch.r, t) in s.fs.dir ==> NameOk(s, New(ch.r, t));
  }

  lemma ChildNames(c: Config, s: State, s': State, w: Wid, t: Ino, k: nat)
    requires Inv(c, s) && w in s.wrks && s.wrks[w].child.Child? && s.wrks[w].child.pc.CName?
    requires ChildStep(c, s, s', w, t, k)
    ensures Inv(c, s')
  {
    hide Inv, FsOk, FsSane, LogOk, Logged, PidsOk, WrkOk, PlaceOk, SockOk, Rename;
    WrkAt(c, s, w);
    Parts(c, s);
    var x, ch := s.wrks[w], s.wrks[w].child;
    WorkingOn(c, s, w, x);
    var f, m, i := ch.pc.t, x.pc.m, x.pc.i;
    NamedOk(c, s, s', w);
    NewIsFree(s, ch, f);
    RenameFrame(s.fs, Tmp(ch.r, ch.pid, ch.q), New(ch.r, f));
    var d := Delivery(m, ch.r, f);
    assert s'.log == s.log + [d];
    NamedFs(c, s, s', w, i, f, d);
    NamedLog(s, s', m, d);
    PidsKept(s, s', w, s'.wrks[w]);
    PlacesKept(s, s', w, s'.wrks[w]);
    assert Stable(s, s', Actor(Some(m.uid), Some(i), None, Some(ch.pid)));
    WrkStepInv(c, s, s', Actor(Some(m.uid), Some(i), None, Some(ch.pid)), w, s'.wrks[w]);
  }

  lemma NamedOk(c: Config, s: State, s': State, w: Wid)
    requires w in s.wrks && s.wrks[w].child.Child? && s.wrks[w].child.pc.CName? && WrkOk(c, s, w, s.wrks[w])
    requires ChildStep(c, s, s', w, 0, 0) && FsOk(s) && FsSane(s.fs)
    ensures TmpAt(s, s.wrks[w].child, s.wrks[w].child.pc.t)
    ensures s.fs.data[s.wrks[w].child.pc.t] == s.wrks[w].pc.m.body
    ensures WrkOk(c, s', w, s'.wrks[w])
  {
    hide FsOk, FsSane, Encode64, Rename;
    var x, ch := s.wrks[w], s.wrks[w].child;
    var f := ch.pc.t;
    WorkingOn(c, s, w, x);
    NewIsFree(s, ch, f);
    RenameFrame(s.fs, Tmp(ch.r, ch.pid, ch.q), New(ch.r, f));
    assert SameFile(s.fs, s'.fs, Mess(x.pc.i)) && SameFile(s.fs, s'.fs, Todo(x.pc.i));
    var d := Delivery(x.pc.m, ch.r, f);
    assert s'.log == s.log + [d] && d in s'.log;
    assert Logged(s'.log, x.pc.m.uid);
  }

  lemma NamedFs(c: Config, s: State, s': State, w: Wid, i: Ino, f: Ino, d: Delivery)
    requires FsOk(s) && FsSane(s'.fs) && w in s.wrks && s.wrks[w].child.Child? && s.wrks[w].child.pc.CName?
    requires w in s'.wrks && s'.wrks == s.wrks[w := s'.wrks[w]] && s'.enqs == s.enqs && s'.tag == s.tag
    requires s'.log == s.log + [d]
    requires Filed(s.fs, i, d.m) && d.r == s.wrks[w].child.r && d.i == f
    requires var ch := s.wrks[w].child;
             && (forall n :: n != Tmp(ch.r, ch.pid, ch.q) && n != New(ch.r, f) ==> SameFile(s.fs, s'.fs, n))
             && Tmp(ch.r, ch.pid, ch.q) !in s'.fs.dir && At(s'.fs, New(ch.r, f), f) && s'.fs.data[f] == d.m.body
    ensures FsOk(s')
  {
    hide FsOk, FsSane;
    var ch := s.wrks[w].child;
    assert SameFile(s.fs, s'.fs, Mess(i));
    assert Linked(s'.fs, i) by { assert s'.fs.dir[Mess(i)] == i; }
    assert d in s'.log;
    FsStep(s, s', {Tmp(ch.r, ch.pid, ch.q), New(ch.r, f)}, i);
  }

  lemma NamedLog(s: State, s': State, m: Msg, d: Delivery)
    requires LogOk(s) && s'.log == s.log + [d] && s'.place == s.place && d.m == m && d.r == m.rcpt
    requires m.uid in s.place && !Logged(s.log, m.uid)
    ensures LogOk(s')
    ensures forall u: nat :: u != m.uid ==> SameUid(s, s', u)
  {
    forall u: nat | u != m.uid ensures Logged(s'.log, u) <==> Logged(s.log, u) {
      if Logged(s'.log, u) {
        var e :| e in s'.log && e.m.uid == u;
        assert e in s.log;
      }
    }
  }

  // ----------------------------------------------------------------------
  // New messages, and mail readers
  // ----------------------------------------------------------------------

  lemma SubmitStep(c: Config, s: State, s': State, p: Pid, m: Msg)
    requires Inv(c, s) && Submit(s, s', p, m) && Fits(m)
    ensures Inv(c, s')
  {
    hide Inv, FsOk, FsSane, LogOk, WrkOk, EnqOk, EnqFresh, NoteOk, PlaceOk, NameOk, Logged;
    Parts(c, s);
    var a := Actor(Some(m.uid), None, Some(p), None);
    assert Stable(s, s', a) && Acts(s, a, Writer(p));
    SubmittedOk(c, s, s', p, m);
    forall q | q in s'.enqs ensures EnqOk(s', q, s'.enqs[q]) && EnqFresh(s', s'.enqs[q]) {
      if q != p {
        OtherEnq(c, s, s', a, Writer(p), q);
      }
    }
    forall v | v in s'.wrks ensures WrkOk(c, s', v, s'.wrks[v]) {
      OtherWrk(c, s, s', a, Writer(p), v);
    }
    forall n | n in s'.sock ensures NoteOk(s', n) {
      OtherNote(c, s, s', a, Writer(p), n);
    }
    FsStep(s, s', {}, 0);
    Together(c, s');
  }

  lemma SubmittedOk(c: Config, s: State, s': State, p: Pid, m: Msg)
    requires Inv(c, s) && Submit(s, s', p, m) && Fits(m)
    ensures EnqOk(s', p, s'.enqs[p]) && EnqFresh(s', s'.enqs[p]) && LogOk(s')
    ensures forall u :: u in s'.place ==> PlaceOk(s', u)
  {
    hide WrkOk, NoteOk;
    assert PidFile(p) in s.fs.dir ==> NameOk(s, PidFile(p));
    if p in s.enqs {
      EnqAt(c, s, p);
    }
    forall u | u in s'.place && u != m.uid ensures PlaceOk(s', u) {
      assert PlaceOk(s, u);
    }
  }

  lemma ReadStep(c: Config, s: State, s': State, r: Bytes, i: Ino)
    requires Inv(c, s) && New(r, i) in s.fs.dir && s' == s.(fs := Unlink(s.fs, New(r, i)))
    ensures Inv(c, s')
  {
    hide Inv, FsOk, FsSane, LogOk, WrkOk, EnqOk, EnqFresh, NoteOk, PlaceOk, NameOk, Logged, Unlink;
    Parts(c, s);
    UnlinkFrame(s.fs, New(r, i));
    var a := Actor(None, None, None, None);
    assert Stable(s, s', a) && Acts(s, a, Finished);
    forall q | q in s'.enqs ensures EnqOk(s', q, s'.enqs[q]) && EnqFresh(s', s'.enqs[q]) {
      OtherEnq(c, s, s', a, Finished, q);
    }
    forall v | v in s'.wrks ensures WrkOk(c, s', v, s'.wrks[v]) {
      OtherWrk(c, s, s', a, Finished, v);
    }
    forall n | n in s'.sock ensures NoteOk(s', n) {
      OtherNote(c, s, s', a, Finished, n);
    }
    FreshTagLinked(s, s', r, i);
    LogSame(s, s');
    forall u | u in s'.place ensures PlaceOk(s', u) {
      PlaceSame(s, s', u);
    }
    Together(c, s');
  }

  lemma PlaceSame(s: State, s': State, u: nat)
    requires u in s.place && PlaceOk(s, u) && s' == s.(fs := s'.fs)
    ensures PlaceOk(s', u)
  {
  }

  lemma FreshTagLinked(s: State, s': State, r: Bytes, i: Ino)
    requires FsOk(s) && FsSane(s'.fs) && s' == s.(fs := s'.fs) && New(r, i) !in s'.fs.dir
    requires forall n :: n != New(r, i) ==> SameFile(s.fs, s'.fs, n)
    ensures FsOk(s')
  {
    hide FsSane, NameOk;
    forall k | k in s'.tag ensures Linked(s'.fs, k) {
      var n :| n in s.fs.dir && s.fs.dir[n] == k && (n.PidFile? || n == Mess(k));
      HasData(s, n);
      assert SameFile(s.fs, s'.fs, n);
    }
    FsStep(s, s', {New(r, i)}, 0);
  }

  // ----------------------------------------------------------------------
  // All steps
  // ----------------------------------------------------------------------

  lemma WrkKeepsInv(c: Config, s: State, s': State, w: Wid, pid: Pid, k: nat)
    requires Inv(c, s) && w in s.wrks && WrkStep(c, s, s', w, pid, k)
    ensures Inv(c, s')
  {
    WrkAt(c, s, w);
    WrkLives(c, s, w, s.wrks[w]);
    hide Inv, FsOk, FsSane, LogOk, PidsOk, WrkOk, DeliverStep, OpenStep, FeedStep, RemoveStep, LeaveStep;
    match s.wrks[w].pc
    case WWait =>
      if s.sock[0].Mail? {
        DequeueMail(c, s, s', w);
      } else {
        DequeueControl(c, s, s', w);
      }
    case WMsg(_, _, _, _) => WrkDeliver(c, s, s', w, pid);
    case WGot(_, _) => WrkReads(c, s, s', w, pid, k);
    case WEnvelope(_, _, _) => WrkReads(c, s, s', w, pid, k);
    case WRcpt(_, _, _) => WrkReads(c, s, s', w, pid, k);
    case WStop(_, _, _, _) => WrkWaits(c, s, s', w, pid, k);
    case WSpawned(_, _, _, _) => WrkWaits(c, s, s', w, pid, k);
    case WAnswer(_, _, _, _) => WrkWaits(c, s, s', w, pid, k);
    case WPipe(_, _, _, _, _) => WrkPipes(c, s, s', w, pid, k);
    case WDelivered(_, _) => WrkCloses(c, s, s', w, pid, k);
    case WLeave => WrkCloses(c, s, s', w, pid, k);
    case WClosed(_, _) => WrkUnlinkTodo(c, s, s', w);
    case WHalf(_, _) => WrkUnlinkMess(c, s, s', w);
    case WCascade(_) => WrkCascades(c, s, s', w);
    case _ =>
  }

  lemma ChildKeepsInv(c: Config, s: State, s': State, w: Wid, t: Ino, k: nat)
    requires Inv(c, s) && w in s.wrks && s.wrks[w].child.Child? && ChildStep(c, s, s', w, t, k)
    ensures Inv(c, s')
  {
    hide Inv;
    match s.wrks[w].child.pc
    case CWait => ChildWaits(c, s, s', w, t, k);
    case CCreate(_) => ChildCreates(c, s, s', w, t, k);
    case CCopy(_, _, _) => ChildCopies(c, s, s', w, t, k);
    case CName(_, _) => ChildNames(c, s, s', w, t, k);
    case CReply => ChildReplies(c, s, s', w, t, k);
    case _ =>
  }

  /** Every step of every process keeps the invariant. */
  lemma StepKeepsInv(c: Config, s: State, step: Step, s': State)
    requires Inv(c, s) && NextBy(c, s, step, s')
    ensures Inv(c, s')
  {
    hide Inv, EnqStep, WrkStep, ChildStep;
    match step
    case DoSubmit(p, m) => SubmitStep(c, s, s', p, m);
    case DoEnq(p, i, k) => EnqKeepsInv(c, s, s', p, i, k);
    case DoExit => ControlStep(c, s, s');
    case DoWrk(w, pid, k) => WrkKeepsInv(c, s, s', w, pid, k);
    case DoChild(w, t, k) => ChildKeepsInv(c, s, s', w, t, k);
    case DoRead(r, i) => ReadStep(c, s, s', r, i);
  }
}
