/**
 One process's step leaves alone what the other processes rely on, because file
 names are made from inode numbers and process ids that only it has.
 */
module MailFrame {
  import opened Options
  import opened MailSpool
  import opened MailInvariant

  /** Who is acting: on which message, message inode, as which enqueuer or delivery process. */
  datatype Actor = Actor(u: Option<nat>, i: Option<Ino>, p: Option<Pid>, cp: Option<Pid>)

  /** Names the actor may create, rename or remove, or write through. */
  ghost predicate Mine(a: Actor, n: FName) {
    match n
    case PidFile(p) => a.p == Some(p)
    case Todo(i) => a.i == Some(i)
    case Mess(i) => a.i == Some(i)
    case Tmp(_, p, _) => a.cp == Some(p)
    case New(_, _) => true
  }

  ghost predicate SameFile(fs: Fs, fs': Fs, n: FName) {
    && (n in fs'.dir <==> n in fs.dir)
    && (n in fs.dir && fs.dir[n] in fs.data ==>
          fs'.dir[n] == fs.dir[n] && fs.dir[n] in fs'.data && fs'.data[fs.dir[n]] == fs.data[fs.dir[n]])
  }

  ghost predicate Stable(s: State, s': State, a: Actor) {
    && (forall n :: !Mine(a, n) ==> SameFile(s.fs, s'.fs, n))
    && (forall u: nat :: Some(u) != a.u ==> SameUid(s, s', u))
    && (forall i: Ino :: Some(i) != a.i ==> (i in s'.tag <==> i in s.tag) && (i in s.tag ==> s'.tag[i] == s.tag[i]))
  }

  ghost predicate SameUid(s: State, s': State, u: nat) {
    && (u in s'.place <==> u in s.place) && (u in s.place ==> s'.place[u] == s.place[u])
    && (Logged(s'.log, u) <==> Logged(s.log, u))
  }

  /** The inode an enqueuer has in hand. */
  ghost predicate EnqIno(x: Enq, i: Ino) {
    match x.pc
    case EWrite(j) => j == i
    case EReady(j) => j == i
    case EEnvelope(j, _) => j == i
    case EFiled(j) => j == i
    case EMoved(j) => j == i
    case _ => false
  }

  lemma EnqFrame(s: State, s': State, a: Actor, p: Pid, x: Enq)
    requires Stable(s, s', a) && EnqOk(s, p, x) && EnqFresh(s, x)
    requires a.p != Some(p) && (!x.pc.EDone? ==> a.u != Some(x.m.uid)) && forall i: Ino :: EnqIno(x, i) ==>
      a.i != Some(i)
    ensures EnqOk(s', p, x) && EnqFresh(s', x)
  {
    assert SameFile(s.fs, s'.fs, PidFile(p));
    if !x.pc.EDone? {
      assert SameUid(s, s', x.m.uid);
    }
    if !x.pc.EStart? && !x.pc.EDone? {
      assert EnqIno(x, x.pc.i);
      assert SameFile(s.fs, s'.fs, Todo(x.pc.i)) && SameFile(s.fs, s'.fs, Mess(x.pc.i));
    }
  }

  lemma NoteFrame(s: State, s': State, a: Actor, n: Note)
    requires Stable(s, s', a) && NoteOk(s, n) && (n.Mail? ==> a.u != Some(n.m.uid) && a.i != Some(n.i))
    ensures NoteOk(s', n)
  {
    if n.Mail? {
      assert SameUid(s, s', n.m.uid);
      assert SameFile(s.fs, s'.fs, Todo(n.i)) && SameFile(s.fs, s'.fs, Mess(n.i));
    }
  }

  lemma WrkFrame(c: Config, s: State, s': State, a: Actor, w: Wid, x: Wrk)
    requires Stable(s, s', a) && WrkOk(c, s, w, x)
    requires InHand(x.pc).Some? ==> a.u != Some(x.pc.m.uid) && a.i != Some(x.pc.i)
    requires x.child.Child? ==> a.cp != Some(x.child.pid)
    ensures WrkOk(c, s', w, x)
  {
    if InHand(x.pc).Some? {
      assert SameUid(s, s', x.pc.m.uid);
      assert SameFile(s.fs, s'.fs, Todo(x.pc.i)) && SameFile(s.fs, s'.fs, Mess(x.pc.i));
      hide Logged;
      if x.child.Child? {
        assert SameFile(s.fs, s'.fs, Tmp(x.child.r, x.child.pid, x.child.q));
      }
    }
  }

  /** The actor has charge of its message (or brings a new one), and its inode holds that message
      (or is free). */
  ghost predicate Acts(s: State, a: Actor, pl: Place) {
    && (a.u.Some? && a.u.value in s.place ==> s.place[a.u.value] == pl)
    && (a.i.Some? ==> Free(s.fs, a.i.value) || (a.i.value in s.tag && a.u == Some(s.tag[a.i.value])))
  }

  lemma OtherEnq(c: Config, s: State, s': State, a: Actor, pl: Place, p: Pid)
    requires Inv(c, s) && Stable(s, s', a) && Acts(s, a, pl) && p in s.enqs && pl != Writer(p) && a.p != Some(p)
    ensures EnqOk(s', p, s.enqs[p]) && EnqFresh(s', s.enqs[p])
  {
    var x := s.enqs[p];
    assert EnqOk(s, p, x) && EnqFresh(s, x);
    hide Stable, Logged, NameOk;
    forall i: Ino | EnqIno(x, i) ensures a.i != Some(i) {
      assert i in s.tag && Linked(s.fs, i);
    }
    EnqFrame(s, s', a, p, x);
  }

  lemma OtherWrk(c: Config, s: State, s': State, a: Actor, pl: Place, w: Wid)
    requires Inv(c, s) && Stable(s, s', a) && Acts(s, a, pl) && w in s.wrks && pl != Handler(w)
    requires s.wrks[w].child.Child? ==> a.cp != Some(s.wrks[w].child.pid)
    ensures WrkOk(c, s', w, s.wrks[w])
  {
    var x := s.wrks[w];
    assert WrkOk(c, s, w, x);
    WrkHolds(c, s, w, x);
    hide Stable, Logged, NameOk, WrkOk;
    if InHand(x.pc).Some? {
      assert x.pc.i in s.tag && Linked(s.fs, x.pc.i);
    }
    WrkFrame(c, s, s', a, w, x);
  }

  lemma WrkHolds(c: Config, s: State, w: Wid, x: Wrk)
    requires WrkOk(c, s, w, x)
    ensures InHand(x.pc).Some? ==> Holds(s, x.pc.i, x.pc.m, Handler(w))
  {
  }

  lemma OtherNote(c: Config, s: State, s': State, a: Actor, pl: Place, n: Note)
    requires Inv(c, s) && Stable(s, s', a) && Acts(s, a, pl) && n in s.sock
    requires pl != Queued || (n.Mail? ==> a.u != Some(n.m.uid))
    ensures NoteOk(s', n)
  {
    assert NoteOk(s, n);
    hide Stable, Logged, NameOk;
    if n.Mail? {
      assert n.i in s.tag && Linked(s.fs, n.i);
    }
    NoteFrame(s, s', a, n);
  }
}
