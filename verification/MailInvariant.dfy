/**
 What holds in every reachable state of the mail spool: where each message is, which
 files belong to it, and what its delivery process has seen of it.
 */
module MailInvariant {
  import opened MailFraming
  import opened MailSpool

  // ----------------------------------------------------------------------
  // Files
  // ----------------------------------------------------------------------

  ghost predicate At(fs: Fs, n: FName, i: Ino) {
    n in fs.dir && fs.dir[n] == i && i in fs.data
  }

  ghost predicate Logged(log: seq<Delivery>, u: nat) {
    exists d :: d in log && d.m.uid == u
  }

  /** `i` holds message `m`, which `pl` has charge of. */
  ghost predicate Holds(s: State, i: Ino, m: Msg, pl: Place) {
    i in s.tag && s.tag[i] == m.uid && m.uid in s.place && s.place[m.uid] == pl
  }

  /** Message and envelope are in the spool, complete. */
  ghost predicate Filed(fs: Fs, i: Ino, m: Msg) {
    && At(fs, Mess(i), i) && fs.data[i] == m.body
    && Todo(i) in fs.dir && At(fs, Todo(i), fs.dir[Todo(i)]) && fs.data[fs.dir[Todo(i)]] == m.rcpt
  }

  ghost predicate Fits(m: Msg) {
    |m.body| < 0x1_0000_0000_0000_0000
  }

  // ----------------------------------------------------------------------
  // Enqueuers
  // ----------------------------------------------------------------------

  ghost predicate Writing(s: State, p: Pid, m: Msg, i: Ino) {
    Holds(s, i, m, Writer(p)) && At(s.fs, PidFile(p), i)
  }

  ghost predicate EnqOk(s: State, p: Pid, x: Enq) {
    match x.pc
    case EStart => PidFile(p) !in s.fs.dir && x.m.uid in s.place && s.place[x.m.uid] == Writer(p)
    case EWrite(i) => Writing(s, p, x.m, i) && Todo(i) !in s.fs.dir && s.fs.data[i] <= x.m.body
    case EReady(i) => Writing(s, p, x.m, i) && Todo(i) !in s.fs.dir && s.fs.data[i] == x.m.body
    case EEnvelope(i, e) =>
      Writing(s, p, x.m, i) && s.fs.data[i] == x.m.body && At(s.fs, Todo(i), e) && s.fs.data[e] <= x.m.rcpt
    case EFiled(i) =>
      && Writing(s, p, x.m, i) && s.fs.data[i] == x.m.body
      && Todo(i) in s.fs.dir && At(s.fs, Todo(i), s.fs.dir[Todo(i)]) && s.fs.data[s.fs.dir[Todo(i)]] == x.m.rcpt
    case EMoved(i) => PidFile(p) !in s.fs.dir && Holds(s, i, x.m, Writer(p)) && Filed(s.fs, i, x.m)
    case EDone => PidFile(p) !in s.fs.dir
    case EDied => false
  }

  ghost predicate EnqFresh(s: State, x: Enq) {
    x.pc.EDone? || (!Logged(s.log, x.m.uid) && Fits(x.m))
  }

  // ----------------------------------------------------------------------
  // Notifications
  // ----------------------------------------------------------------------

  ghost predicate NoteOk(s: State, n: Note) {
    n.Mail? ==> Holds(s, n.i, n.m, Queued) && Filed(s.fs, n.i, n.m) && !Logged(s.log, n.m.uid) && Fits(n.m)
  }

  // ----------------------------------------------------------------------
  // Queue-manager threads and their delivery processes
  // ----------------------------------------------------------------------

  ghost predicate TmpAt(s: State, ch: Child, t: Ino)
    requires ch.Child?
  {
    At(s.fs, Tmp(ch.r, ch.pid, ch.q), t)
  }

  /** Between messages: no child, or a pooled one waiting at an empty pipe. */
  ghost predicate Resting(c: Config, x: Wrk) {
    x.child.NoChild? || (c.pool && x.child.pc.CWait? && x.pipe == [] && !x.closed && x.replies == 0)
  }

  /** The old child has been told to go. */
  ghost predicate Stopping(c: Config, x: Wrk) {
    && c.pool && x.child.Child? && (x.child.pc.CWait? || x.child.pc.CExit?)
    && x.pipe == [] && x.closed && x.replies == 0
  }

  /** Unpooled: the child copies the message file to the mailbox. */
  ghost predicate Running(s: State, x: Wrk, m: Msg) {
    && x.child.Child? && x.child.r == m.rcpt
    && match x.child.pc
       case CCreate(None) => !Logged(s.log, m.uid)
       case CCopy(t, None, n) =>
         n <= |m.body| && TmpAt(s, x.child, t) && s.fs.data[t] == m.body[..n] && !Logged(s.log, m.uid)
       case CName(t, None) => TmpAt(s, x.child, t) && s.fs.data[t] == m.body && !Logged(s.log, m.uid)
       case CExit => Logged(s.log, m.uid)
       case _ => false
  }

  /** Pooled: what the thread has written is what the child has read plus what is in the pipe. */
  ghost predicate Streaming(s: State, x: Wrk, m: Msg, sent: nat) {
    && x.child.Child? && x.child.r == m.rcpt && !x.closed && sent <= |m.body|
    && match x.child.pc
       case CWait =>
         if x.replies == 0 then x.pipe == Encode64(|m.body|) + m.body[..sent] && !Logged(s.log, m.uid)
         else x.replies == 1 && x.pipe == [] && sent == |m.body| && Logged(s.log, m.uid)
       case CCreate(Some(n)) =>
         n == |m.body| && x.pipe == m.body[..sent] && x.replies == 0 && !Logged(s.log, m.uid)
       case CCopy(t, Some(n), got) =>
         && n == |m.body| && TmpAt(s, x.child, t) && |s.fs.data[t]| == got && s.fs.data[t] + x.pipe == m.body[..sent]
         && x.replies == 0 && !Logged(s.log, m.uid)
       case CName(t, Some(n)) =>
         && TmpAt(s, x.child, t) && s.fs.data[t] == m.body && x.pipe == [] && sent == |m.body|
         && x.replies == 0 && !Logged(s.log, m.uid)
       case CReply => x.pipe == [] && sent == |m.body| && x.replies == 0 && Logged(s.log, m.uid)
       case _ => false
  }

  ghost predicate Handles(s: State, w: Wid, i: Ino, m: Msg) {
    Holds(s, i, m, Handler(w)) && Filed(s.fs, i, m) && Fits(m)
  }

  ghost predicate WrkOk(c: Config, s: State, w: Wid, x: Wrk) {
    match x.pc
    case WWait => Resting(c, x)
    case WGot(i, m) => Handles(s, w, i, m) && Resting(c, x) && !Logged(s.log, m.uid)
    case WEnvelope(i, m, e) => Handles(s, w, i, m) && Resting(c, x) && !Logged(s.log, m.uid) && At(s.fs, Todo(i), e)
    case WRcpt(i, m, r) => Handles(s, w, i, m) && Resting(c, x) && !Logged(s.log, m.uid) && r == m.rcpt
    case WMsg(i, m, r, f) =>
      Handles(s, w, i, m) && Resting(c, x) && !Logged(s.log, m.uid) && r == m.rcpt && f == i
    case WStop(i, m, r, f) =>
      Handles(s, w, i, m) && Stopping(c, x) && !Logged(s.log, m.uid) && r == m.rcpt && f == i
    case WSpawned(i, m, r, f) => Handles(s, w, i, m) && !c.pool && Running(s, x, m) && f == i
    case WPipe(i, m, r, f, sent) => Handles(s, w, i, m) && c.pool && Streaming(s, x, m, sent) && f == i
    case WAnswer(i, m, r, f) => Handles(s, w, i, m) && c.pool && Streaming(s, x, m, |m.body|) && f == i
    case WDelivered(i, m) => Handles(s, w, i, m) && Resting(c, x) && Logged(s.log, m.uid)
    case WClosed(i, m) => Handles(s, w, i, m) && Resting(c, x) && Logged(s.log, m.uid)
    case WHalf(i, m) =>
      && Holds(s, i, m, Handler(w)) && At(s.fs, Mess(i), i) && Todo(i) !in s.fs.dir
      && Resting(c, x) && Logged(s.log, m.uid)
    case WCascade(_) => Resting(c, x)
    case WLeave => Resting(c, x) || Stopping(c, x)
    case WGone => x.child.NoChild?
    case WDied => false
  }

  // ----------------------------------------------------------------------
  // Everything together
  // ----------------------------------------------------------------------

  ghost predicate Injective(dir: map<FName, Ino>) {
    forall a, b :: a in dir && b in dir && dir[a] == dir[b] ==> a == b
  }

  /** The process whose temporary file this is. */
  ghost predicate OwnsTmp(x: Wrk, r: Bytes, p: Pid, q: nat) {
    x.child.Child? && x.child.pid == p && x.child.r == r && x.child.q == q && (x.child.pc.CCopy? || x.child.pc.CName?)
  }

  ghost predicate NameOk(s: State, n: FName)
    requires n in s.fs.dir
  {
    && s.fs.dir[n] in s.fs.data
    && match n
       case PidFile(p) => p in s.enqs
       case Todo(i) => i in s.tag
       case Mess(i) => s.fs.dir[n] == i && i in s.tag
       case Tmp(r, p, q) => exists w :: w in s.wrks && OwnsTmp(s.wrks[w], r, p, q)
       case New(r, i) => s.fs.dir[n] == i && exists d :: d in s.log && d.r == r && d.i == i && s.fs.data[i] == d.m.body
  }

  /** A message's inode has a name in pid/ or in mess/. */
  ghost predicate Linked(fs: Fs, i: Ino) {
    exists n :: n in fs.dir && fs.dir[n] == i && (n.PidFile? || n == Mess(i))
  }

  ghost predicate FsOk(s: State) {
    && Injective(s.fs.dir)
    && (forall n :: n in s.fs.dir ==> NameOk(s, n))
    && (forall i :: i in s.tag ==> Linked(s.fs, i))
  }

  ghost predicate PidsOk(s: State) {
    forall w, v :: w in s.wrks && v in s.wrks && w != v && s.wrks[w].child.Child? && s.wrks[v].child.Child?
      ==> s.wrks[w].child.pid != s.wrks[v].child.pid
  }

  /** Every delivery went to its envelope's recipient, and no message was delivered twice. */
  ghost predicate LogOk(s: State) {
    && (forall d :: d in s.log ==> d.r == d.m.rcpt && d.m.uid in s.place)
    && forall a, b :: 0 <= a < b < |s.log| ==> s.log[a].m.uid != s.log[b].m.uid
  }

  /** Each message is where its place says. */
  ghost predicate PlaceOk(s: State, u: nat)
    requires u in s.place
  {
    match s.place[u]
    case Writer(p) => p in s.enqs && s.enqs[p].m.uid == u && !s.enqs[p].pc.EDone?
    case Queued => exists k :: 0 <= k < |s.sock| && s.sock[k].Mail? && s.sock[k].m.uid == u
    case Handler(w) => w in s.wrks && InHand(s.wrks[w].pc).Some? && InHand(s.wrks[w].pc).value.uid == u
    case Finished => Logged(s.log, u)
  }

  ghost predicate SockOk(s: State) {
    && (forall n :: n in s.sock ==> NoteOk(s, n))
    && forall a, b :: 0 <= a < b < |s.sock| && s.sock[a].Mail? && s.sock[b].Mail? ==> s.sock[a].m.uid != s.sock[b].m.uid
  }

  ghost predicate Inv(c: Config, s: State) {
    && FsOk(s) && PidsOk(s) && LogOk(s) && SockOk(s)
    && (forall p :: p in s.enqs ==> EnqOk(s, p, s.enqs[p]) && EnqFresh(s, s.enqs[p]))
    && (forall w :: w in s.wrks ==> WrkOk(c, s, w, s.wrks[w]))
    && (forall u :: u in s.place ==> PlaceOk(s, u))
  }
}
