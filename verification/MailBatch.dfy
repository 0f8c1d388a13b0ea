/**
 The loops that move message bytes: xread (libutil/libutil.cc), copy_fd_n
 (libutil/shutil.cc) and the batch mode of mail-deliver and mail-enqueue, over streams
 whose reads may return less than asked for.
 */
module MailBatch {
  import opened MailFraming

  /** A file descriptor to read from: what is still to come. */
  class Stream {
    var data: Bytes

    /** read(2): some bytes, none only at the end of the stream. */
    method Read(n: nat) returns (b: Bytes)
      modifies `data
      ensures |b| <= Min(n, |old(data)|) && b == old(data)[..|b|] && data == old(data)[|b|..]
      ensures b == [] <==> n == 0 || old(data) == []
    {
      if n == 0 || data == [] {
        return [];
      }
      var k: nat :| 0 < k <= n && k <= |data|;
      b := data[..k];
      data := data[k..];
    }

    method XRead(n: nat) returns (b: Bytes)
      modifies `data
      ensures |b| == Min(n, |old(data)|) && b + data == old(data)
    {
      b := [];
      while |b| < n
        invariant |b| <= n && b + data == old(data)
        decreases n - |b|
      {
        var r := Read(n - |b|);
        if r == [] {
          break;
        }
        assert b + r + data == b + (r + data);
        b := b + r;
      }
    }
  }

  function Min(a: nat, b: nat): nat {
    if a < b then a else b
  }

  /** The mailbox (or spool) end: the messages written to it, the last one still open. */
  class Sink {
    var done: seq<Bytes>
    var open: Bytes
    var replies: nat
  }

  const BUF: nat := 4096

  /** Copies up to `limit` bytes, or up to the end of the stream when there is no limit. */
  method CopyFdN(dst: Sink, src: Stream, limit: nat) returns (res: nat)
    modifies src`data, dst`open
    ensures res == Min(limit, |old(src.data)|)
    ensures dst.open == old(dst.open) + old(src.data)[..res] && src.data == old(src.data)[res..]
  {
    res := 0;
    while res < limit
      invariant res <= limit && res <= |old(src.data)|
      invariant dst.open == old(dst.open) + old(src.data)[..res] && src.data == old(src.data)[res..]
      decreases limit - res
    {
      var b := src.Read(if limit - res < BUF then limit - res else BUF);
      if b == [] {
        return;
      }
      assert old(src.data)[..res + |b|] == old(src.data)[..res] + b;
      dst.open := dst.open + b;
      res := res + |b|;
    }
  }

  /** What a batch stream means: its messages, and whether it ends between messages.  A message
      cut short by the end of the stream is taken as it is. */
  function Parse(s: Bytes): (seq<Bytes>, bool)
    decreases |s|
  {
    if s == [] then ([], true)
    else if |s| < 8 then ([], false)
    else
      var n := Min(Decode64(s[..8]), |s| - 8);
      var (ms, ok) := Parse(s[8 + n..]);
      ([s[8..8 + n]] + ms, ok)
  }

  function Frame(m: Bytes): Bytes {
    Encode64(|m|) + m
  }

  function Frames(ms: seq<Bytes>): Bytes {
    if ms == [] then [] else Frame(ms[0]) + Frames(ms[1..])
  }

  /** do_batch_mode: one message per frame, one result code per message; false where the program
      stops with "short read of message length". */
  method BatchMode(fd: Stream, out: Sink) returns (ok: bool)
    requires out.open == []
    modifies fd`data, out
    ensures out.done == old(out.done) + Parse(old(fd.data)).0 && ok == Parse(old(fd.data)).1
    ensures out.replies - old(out.replies) == |Parse(old(fd.data)).0|
  {
    ghost var all := Parse(fd.data);
    while true
      invariant out.open == [] && out.replies - old(out.replies) == |out.done| - |old(out.done)|
      invariant out.done + Parse(fd.data).0 == old(out.done) + all.0 && Parse(fd.data).1 == all.1
      decreases |fd.data|
    {
      ghost var s := fd.data;
      var h := fd.XRead(8);
      if |h| == 0 {
        assert s == [];
        return true;
      }
      if |h| != 8 {
        return false;
      }
      assert h == s[..8] && fd.data == s[8..];
      var n := CopyFdN(out, fd, Decode64(h));
      assert out.open == s[8..8 + n] && fd.data == s[8 + n..];
      ghost var done := out.done;
      out.done, out.open := out.done + [out.open], [];
      assert done + Parse(s).0 == out.done + Parse(fd.data).0;
      out.replies := out.replies + 1;
    }
  }

  /** Whatever messages are framed and sent, the other side gets exactly those. */
  lemma {:induction false} FramingRoundTrip(ms: seq<Bytes>)
    requires forall m :: m in ms ==> |m| < 0x1_0000_0000_0000_0000
    ensures Parse(Frames(ms)) == (ms, true)
  {
    if ms != [] {
      var m, rest := ms[0], Frames(ms[1..]);
      var s := Frames(ms);
      LengthRoundTrip(|m|);
      assert s[..8] == Encode64(|m|) && s[8..8 + |m|] == m && s[8 + |m|..] == rest;
      FramingRoundTrip(ms[1..]);
      assert ms == [m] + ms[1..];
    }
  }
}
