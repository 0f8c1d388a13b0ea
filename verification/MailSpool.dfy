/**
 The mail spool of bin/mail-enqueue.cc, bin/mail-qman.cc and bin/mail-deliver.cc:
 any number of enqueuers, queue-manager threads and delivery processes that share
 nothing but a file system, one datagram socket and the pipes between a queue-manager
 thread and its delivery process.  Every system call is a step of its own, reads and
 writes may be short, and an inode number may be used again as soon as its last name
 is gone.
 */
module MailSpool {
  import opened Options
  import opened MailFraming

  type Ino = nat
  type Pid = nat
  type Wid = nat

  /** A mail message.  The programs never see `uid`; it tells messages apart in the proofs. */
  datatype Msg = Msg(uid: nat, rcpt: Bytes, body: Bytes)

  const NOBODY := Msg(0, [], [])

  // ----------------------------------------------------------------------
  // The file system
  // ----------------------------------------------------------------------

  /** pid/<p>, todo/<i>, mess/<i> in the spool; <r>/tmp/<p>.<q> and <r>/new/<i> in the mail root. */
  datatype FName =
    | PidFile(p: Pid)
    | Todo(i: Ino)
    | Mess(i: Ino)
    | Tmp(r: Bytes, p: Pid, q: nat)
    | New(r: Bytes, i: Ino)

  datatype Fs = Fs(dir: map<FName, Ino>, data: map<Ino, Bytes>)

  /** An inode number no name refers to. */
  ghost predicate Free(fs: Fs, i: Ino) {
    forall n :: n in fs.dir ==> fs.dir[n] != i
  }

  /** open(n, O_CREAT|O_EXCL) of a name that does not exist, getting inode `i` */
  function Create(fs: Fs, n: FName, i: Ino): Fs {
    Fs(fs.dir[n := i], fs.data[i := []])
  }

  function Append(fs: Fs, i: Ino, b: Bytes): Fs {
    if i in fs.data then fs.(data := fs.data[i := fs.data[i] + b]) else fs
  }

  /** rename(a, b): whatever `b` named is gone. */
  function Rename(fs: Fs, a: FName, b: FName): Fs {
    if a in fs.dir then fs.(dir := (fs.dir - {a})[b := fs.dir[a]]) else fs
  }

  function Unlink(fs: Fs, n: FName): Fs {
    fs.(dir := fs.dir - {n})
  }

  function Content(fs: Fs, i: Ino): Bytes {
    if i in fs.data then fs.data[i] else []
  }

  // ----------------------------------------------------------------------
  // Processes
  // ----------------------------------------------------------------------

  /** spool_writer::queue */
  datatype EnqPC =
    | EStart
    | EWrite(i: Ino)              // pid/<p> open as inode i
    | EReady(i: Ino)              // message written and closed
    | EEnvelope(i: Ino, e: Ino)   // todo/<i> open as inode e
    | EFiled(i: Ino)              // envelope written and closed
    | EMoved(i: Ino)              // message renamed to mess/<i>
    | EDone
    | EDied

  datatype Enq = Enq(m: Msg, pc: EnqPC)

  /** maildir_writer::deliver inside a delivery process; `limit` is given in batch mode. */
  datatype ChildPC =
    | CWait
    | CCreate(limit: Option<nat>)
    | CCopy(t: Ino, limit: Option<nat>, n: nat)    // n bytes copied so far
    | CName(t: Ino, limit: Option<nat>)
    | CReply
    | CExit
    | CDied

  datatype Child = NoChild | Child(pid: Pid, r: Bytes, q: nat, pc: ChildPC)

  /** do_process, with deliverer::deliver unfolded.  `m` is the message in hand; the code
      only knows its inode number `i`. */
  datatype WrkPC =
    | WWait
    | WGot(i: Ino, m: Msg)
    | WEnvelope(i: Ino, m: Msg, e: Ino)
    | WRcpt(i: Ino, m: Msg, r: Bytes)
    | WMsg(i: Ino, m: Msg, r: Bytes, f: Ino)
    | WStop(i: Ino, m: Msg, r: Bytes, f: Ino)               // waiting for the old child to go
    | WSpawned(i: Ino, m: Msg, r: Bytes, f: Ino)            // unpooled: waiting for the child
    | WPipe(i: Ino, m: Msg, r: Bytes, f: Ino, sent: nat)    // pooled: feeding the child
    | WAnswer(i: Ino, m: Msg, r: Bytes, f: Ino)             // pooled: waiting for the result code
    | WDelivered(i: Ino, m: Msg)                            // about to close the message
    | WClosed(i: Ino, m: Msg)                               // about to unlink todo/<i>
    | WHalf(i: Ino, m: Msg)                                 // about to unlink mess/<i>
    | WCascade(left: nat)                                   // EXIT2 messages still to send
    | WLeave                                                // ~deliverer
    | WGone
    | WDied

  /** The message a thread is working on, if any. */
  function InHand(pc: WrkPC): Option<Msg> {
    match pc
    case WWait => None
    case WCascade(_) => None
    case WLeave => None
    case WGone => None
    case WDied => None
    case _ => Some(pc.m)
  }

  /** `pipe` and `replies` are what is in msgpipe and respipe; `closed` once this side closed them. */
  datatype Wrk = Wrk(pc: WrkPC, child: Child, pipe: Bytes, closed: bool, replies: nat)

  datatype Note = Mail(i: Ino, m: Msg) | Exit | Exit2

  /** Who has charge of a message. */
  datatype Place = Writer(p: Pid) | Queued | Handler(w: Wid) | Finished

  datatype Delivery = Delivery(m: Msg, r: Bytes, i: Ino)

  /** Below the programs' own state, bookkeeping the proofs need: which message an inode holds,
      who has each message, what has been delivered, and what was notified before EXIT. */
  datatype State = State(
    fs: Fs, sock: seq<Note>, enqs: map<Pid, Enq>, wrks: map<Wid, Wrk>,
    tag: map<Ino, nat>, place: map<nat, Place>, log: seq<Delivery>, exiting: bool, early: set<nat>)

  datatype Config = Config(pool: bool, nthread: nat)

  // ----------------------------------------------------------------------
  // Steps of an enqueuer
  // ----------------------------------------------------------------------

  /** A process id no running process has. */
  ghost predicate FreePid(s: State, p: Pid) {
    && (p in s.enqs ==> s.enqs[p].pc.EDone?)
    && forall w :: w in s.wrks && s.wrks[w].child.Child? ==> s.wrks[w].child.pid != p
  }

  ghost predicate Submit(s: State, s': State, p: Pid, m: Msg) {
    && FreePid(s, p) && m.uid !in s.place
    && s' == s.(enqs := s.enqs[p := Enq(m, EStart)], place := s.place[m.uid := Writer(p)])
  }

  ghost predicate EnqStep(s: State, s': State, p: Pid, i: Ino, k: nat)
    requires p in s.enqs
  {
    var m, pc := s.enqs[p].m, s.enqs[p].pc;
    match pc
    case EStart =>
      if PidFile(p) in s.fs.dir then s' == s.(enqs := s.enqs[p := Enq(m, EDied)])
      else
        && Free(s.fs, i)
        && s' == s.(fs := Create(s.fs, PidFile(p), i), enqs := s.enqs[p := Enq(m, EWrite(i))], tag := s.tag[i := m.uid])
    case EWrite(i) =>
      var n := |Content(s.fs, i)|;
      if n < |m.body| then
        0 < k <= |m.body| - n && s' == s.(fs := Append(s.fs, i, m.body[n..n + k]))
      else
        s' == s.(enqs := s.enqs[p := Enq(m, EReady(i))])
    case EReady(j) =>
      if Todo(j) in s.fs.dir then s' == s.(enqs := s.enqs[p := Enq(m, EDied)])
      else
        && Free(s.fs, i)
        && s' == s.(fs := Create(s.fs, Todo(j), i), enqs := s.enqs[p := Enq(m, EEnvelope(j, i))])
    case EEnvelope(j, e) =>
      var n := |Content(s.fs, e)|;
      if n < |m.rcpt| then
        0 < k <= |m.rcpt| - n && s' == s.(fs := Append(s.fs, e, m.rcpt[n..n + k]))
      else
        s' == s.(enqs := s.enqs[p := Enq(m, EFiled(j))])
    case EFiled(j) =>
      s' == s.(fs := Rename(s.fs, PidFile(p), Mess(j)), enqs := s.enqs[p := Enq(m, EMoved(j))])
    case EMoved(j) =>
      s' == s.(sock := s.sock + [Mail(j, m)], enqs := s.enqs[p := Enq(m, EDone)], place := s.place[m.uid := Queued])
    case _ => false
  }

  /** mail-enqueue --exit, once */
  ghost predicate SendExit(s: State, s': State) {
    && !s.exiting
    && s' == s.(sock := s.sock + [Exit], exiting := true,
                early := set u | u in s.place && !s.place[u].Writer?)
  }

  // ----------------------------------------------------------------------
  // Steps of a queue-manager thread
  // ----------------------------------------------------------------------

  function WithPC(s: State, w: Wid, pc: WrkPC): State
    requires w in s.wrks
  {
    s.(wrks := s.wrks[w := s.wrks[w].(pc := pc)])
  }

  ghost predicate Dequeue(c: Config, s: State, s': State, w: Wid)
    requires w in s.wrks && s.wrks[w].pc.WWait?
  {
    && s.sock != []
    && var rest := s.sock[1..];
       match s.sock[0]
       case Exit => s' == WithPC(s, w, WCascade(if c.nthread == 0 then 0 else c.nthread - 1)).(sock := rest)
       case Exit2 => s' == WithPC(s, w, WLeave).(sock := rest)
       case Mail(i, m) => s' == WithPC(s, w, WGot(i, m)).(sock := rest, place := s.place[m.uid := Handler(w)])
  }

  /** deliverer::deliver, from its beginning to the choice of a child. */
  ghost predicate DeliverStep(c: Config, s: State, s': State, w: Wid, pid: Pid)
    requires w in s.wrks && s.wrks[w].pc.WMsg?
  {
    var x := s.wrks[w];
    var (i, m, r, f) := (x.pc.i, x.pc.m, x.pc.r, x.pc.f);
    if !c.pool then
      && FreePid(s, pid)
      && s' == s.(wrks := s.wrks[w := x.(pc := WSpawned(i, m, r, f), child := Child(pid, r, 0, CCreate(None)))])
    else if x.child.Child? && x.child.r != r then
      s' == s.(wrks := s.wrks[w := x.(pc := WStop(i, m, r, f), closed := true)])
    else if x.child.NoChild? then
      && FreePid(s, pid)
      && s' == s.(wrks := s.wrks[w := Wrk(x.pc, Child(pid, r, 0, CWait), [], false, 0)])
    else
      s' == s.(wrks := s.wrks[w := x.(pc := WPipe(i, m, r, f, 0), pipe := x.pipe + Encode64(|Content(s.fs, f)|))])
  }

  /** get_recipient and open_message */
  ghost predicate OpenStep(s: State, s': State, w: Wid)
    requires w in s.wrks && (s.wrks[w].pc.WGot? || s.wrks[w].pc.WEnvelope? || s.wrks[w].pc.WRcpt?)
  {
    match s.wrks[w].pc
    case WGot(i, m) =>
      if Todo(i) !in s.fs.dir then s' == WithPC(s, w, WDied)
      else s' == WithPC(s, w, WEnvelope(i, m, s.fs.dir[Todo(i)]))
    case WEnvelope(i, m, e) => s' == WithPC(s, w, WRcpt(i, m, Content(s.fs, e)))
    case WRcpt(i, m, r) =>
      if Mess(i) !in s.fs.dir then s' == WithPC(s, w, WDied)
      else s' == WithPC(s, w, WMsg(i, m, r, s.fs.dir[Mess(i)]))
  }

  /** The rest of deliverer::deliver: feeding a child and waiting for it. */
  ghost predicate FeedStep(s: State, s': State, w: Wid, k: nat)
    requires w in s.wrks
    requires (s.wrks[w].pc.WStop? || s.wrks[w].pc.WSpawned? || s.wrks[w].pc.WPipe? || s.wrks[w].pc.WAnswer?)
  {
    var x := s.wrks[w];
    match x.pc
    case WStop(i, m, r, f) =>
      && x.child.Child? && x.child.pc.CExit?
      && s' == s.(wrks := s.wrks[w := x.(pc := WMsg(i, m, r, f), child := NoChild)])
    case WSpawned(i, m, r, f) =>
      && x.child.Child? && x.child.pc.CExit?
      && s' == s.(wrks := s.wrks[w := x.(pc := WDelivered(i, m), child := NoChild)])
    case WPipe(i, m, r, f, sent) =>
      var b := Content(s.fs, f);
      if sent < |b| then
        && 0 < k <= |b| - sent
        && s' == s.(wrks := s.wrks[w := x.(pc := WPipe(i, m, r, f, sent + k), pipe := x.pipe + b[sent..sent + k])])
      else s' == WithPC(s, w, WAnswer(i, m, r, f))
    case WAnswer(i, m, r, f) =>
      && x.replies > 0
      && s' == s.(wrks := s.wrks[w := x.(pc := WDelivered(i, m), replies := x.replies - 1)])
  }

  /** close and spool_reader::remove */
  ghost predicate RemoveStep(s: State, s': State, w: Wid)
    requires w in s.wrks && (s.wrks[w].pc.WDelivered? || s.wrks[w].pc.WClosed? || s.wrks[w].pc.WHalf?)
  {
    match s.wrks[w].pc
    case WDelivered(i, m) => s' == WithPC(s, w, WClosed(i, m))
    case WClosed(i, m) => s' == WithPC(s, w, WHalf(i, m)).(fs := Unlink(s.fs, Todo(i)))
    case WHalf(i, m) =>
      s' == WithPC(s, w, WWait).(fs := Unlink(s.fs, Mess(i)), tag := s.tag - {i}, place := s.place[m.uid := Finished])
  }

  /** exit_others and ~deliverer */
  ghost predicate LeaveStep(s: State, s': State, w: Wid)
    requires w in s.wrks && (s.wrks[w].pc.WCascade? || s.wrks[w].pc.WLeave?)
  {
    var x := s.wrks[w];
    match x.pc
    case WCascade(left) =>
      if left == 0 then s' == WithPC(s, w, WLeave)
      else s' == WithPC(s, w, WCascade(left - 1)).(sock := s.sock + [Exit2])
    case WLeave =>
      if x.child.NoChild? then s' == WithPC(s, w, WGone)
      else if !x.closed then s' == s.(wrks := s.wrks[w := x.(closed := true)])
      else x.child.pc.CExit? && s' == s.(wrks := s.wrks[w := x.(child := NoChild)])
  }

  ghost predicate WrkStep(c: Config, s: State, s': State, w: Wid, pid: Pid, k: nat)
    requires w in s.wrks
  {
    match s.wrks[w].pc
    case WWait => Dequeue(c, s, s', w)
    case WGot(_, _) => OpenStep(s, s', w)
    case WEnvelope(_, _, _) => OpenStep(s, s', w)
    case WRcpt(_, _, _) => OpenStep(s, s', w)
    case WMsg(_, _, _, _) => DeliverStep(c, s, s', w, pid)
    case WStop(_, _, _, _) => FeedStep(s, s', w, k)
    case WSpawned(_, _, _, _) => FeedStep(s, s', w, k)
    case WPipe(_, _, _, _, _) => FeedStep(s, s', w, k)
    case WAnswer(_, _, _, _) => FeedStep(s, s', w, k)
    case WDelivered(_, _) => RemoveStep(s, s', w)
    case WClosed(_, _) => RemoveStep(s, s', w)
    case WHalf(_, _) => RemoveStep(s, s', w)
    case WCascade(_) => LeaveStep(s, s', w)
    case WLeave => LeaveStep(s, s', w)
    case WGone => false
    case WDied => false
  }

  // ----------------------------------------------------------------------
  // Steps of a delivery process
  // ----------------------------------------------------------------------

  function WithChild(s: State, w: Wid, pc: ChildPC): State
    requires w in s.wrks && s.wrks[w].child.Child?
  {
    s.(wrks := s.wrks[w := s.wrks[w].(child := s.wrks[w].child.(pc := pc))])
  }

  /** What the process can still read: the rest of the message file on its standard input, or
      what is in the pipe. */
  function Input(s: State, w: Wid, limit: Option<nat>, n: nat): Bytes
    requires w in s.wrks
  {
    var x := s.wrks[w];
    if limit.Some? then x.pipe
    else if x.pc.WSpawned? && n <= |Content(s.fs, x.pc.f)| then Content(s.fs, x.pc.f)[n..]
    else []
  }

  ghost predicate ChildStep(c: Config, s: State, s': State, w: Wid, t: Ino, k: nat)
    requires w in s.wrks && s.wrks[w].child.Child?
  {
    var x := s.wrks[w];
    var ch := x.child;
    match ch.pc
    case CWait =>
      if |x.pipe| >= 8 then
        s' == s.(wrks := s.wrks[w := x.(child := ch.(pc := CCreate(Some(Decode64(x.pipe[..8])))), pipe := x.pipe[8..])])
      else
        x.closed && s' == WithChild(s, w, if x.pipe == [] then CExit else CDied)
    case CCreate(limit) =>
      if Tmp(ch.r, ch.pid, ch.q) in s.fs.dir then s' == WithChild(s, w, CDied)
      else
        && Free(s.fs, t)
        && s' == WithChild(s, w, CCopy(t, limit, 0)).(fs := Create(s.fs, Tmp(ch.r, ch.pid, ch.q), t))
    case CCopy(t, limit, n) =>
      var inp := Input(s, w, limit, n);
      if limit.Some? && n >= limit.value then s' == WithChild(s, w, CName(t, limit))
      else if inp != [] then
        && 0 < k <= |inp| && (limit.Some? ==> k <= limit.value - n)
        && s' == s.(fs := Append(s.fs, t, inp[..k]),
                    wrks := s.wrks[w := x.(child := ch.(pc := CCopy(t, limit, n + k)),
                                           pipe := if limit.Some? then x.pipe[k..] else x.pipe)])
      else (limit.None? || x.closed) && s' == WithChild(s, w, CName(t, limit))
    case CName(t, limit) =>
      s' == s.(fs := Rename(s.fs, Tmp(ch.r, ch.pid, ch.q), New(ch.r, t)),
                  wrks := s.wrks[w :=
                    x.(child := Child(ch.pid, ch.r, ch.q + 1, if limit.Some? then CReply else CExit))],
                  log := s.log + [Delivery(if InHand(x.pc).Some? then InHand(x.pc).value else NOBODY, ch.r, t)])
    case CReply =>
      s' == s.(wrks := s.wrks[w := x.(child := ch.(pc := CWait), replies := x.replies + 1)])
    case _ => false
  }

  // ----------------------------------------------------------------------
  // The whole system
  // ----------------------------------------------------------------------

  datatype Step =
    | DoSubmit(p: Pid, m: Msg)
    | DoEnq(p: Pid, i: Ino, k: nat)
    | DoExit
    | DoWrk(w: Wid, pid: Pid, k: nat)
    | DoChild(w: Wid, t: Ino, k: nat)
    | DoRead(r: Bytes, i: Ino)        // the recipient's mail reader removes a message

  ghost predicate NextBy(c: Config, s: State, step: Step, s': State) {
    match step
    case DoSubmit(p, m) => |m.body| < 0x1_0000_0000_0000_0000 && Submit(s, s', p, m)
    case DoEnq(p, i, k) => p in s.enqs && EnqStep(s, s', p, i, k)
    case DoExit => SendExit(s, s')
    case DoWrk(w, pid, k) => w in s.wrks && WrkStep(c, s, s', w, pid, k)
    case DoChild(w, t, k) => w in s.wrks && s.wrks[w].child.Child? && ChildStep(c, s, s', w, t, k)
    case DoRead(r, i) => New(r, i) in s.fs.dir && s' == s.(fs := Unlink(s.fs, New(r, i)))
  }

  ghost predicate Init(c: Config, s: State) {
    && c.nthread > 0
    && s.fs.dir == map[] && s.sock == [] && s.enqs == map[] && s.tag == map[] && s.place == map[] && s.log == []
    && !s.exiting && s.early == {}
    && (forall w: Wid :: w in s.wrks <==> w < c.nthread)
    && forall w :: w in s.wrks ==> s.wrks[w] == Wrk(WWait, NoChild, [], false, 0)
  }
}
