/** Copying shell output into DataChannel frames through one reused buffer. */
module ShellOutput {
  import opened Wrappers
  import opened Frames
  import Lifecycle
  import opened Terminal

  const READ_BUFFER_BYTES := MAX_FRAME_BYTES - 1

  /** The master side of a PTY: what the shell will still write, what the reads have
    * delivered, and how many of them reported an error. */
  class Pty {
    var unread: seq<byte>
    ghost var delivered: seq<byte>
    ghost var errors: nat

    /** `Read` fills a prefix of the buffer of any length it likes, may use the rest of
      * the buffer as scratch space, and may fail at any time; without an error it
      * reads at least one byte. */
    method Read(buffer: array<byte>) returns (n: nat, failed: bool)
      modifies this, buffer
      ensures n <= buffer.Length && n <= |old(unread)|
      ensures buffer[..n] == old(unread)[..n]
      ensures unread == old(unread)[n..] && delivered == old(delivered) + old(unread)[..n]
      ensures n == 0 ==> failed
      ensures errors == old(errors) + if failed then 1 else 0
    {
      n :| n <= buffer.Length && n <= |unread|;
      var chunk := unread[..n];
      forall i | 0 <= i < n {
        buffer[i] := chunk[i];
      }
      unread := unread[n..];
      failed := *;
      failed := failed || n == 0;
      delivered := delivered + chunk;
      if failed {
        errors := errors + 1;
      }
    }
  }

  /** The DataChannel: the frames handed to `Send`, which keeps the slices it is given. */
  class Channel {
    const id: nat
    var sent: seq<array<byte>>

    method Send(frame: array<byte>)
      modifies this
      ensures sent == old(sent) + [frame]
    {
      sent := sent + [frame];
    }
  }

  /** What other goroutines may do to a session between two critical sections of the
    * copier: close it, but neither reopen it nor replace its channel. */
  method Interfere(session: Session)
    modifies session
    ensures old(session.closed) ==> session.closed
    ensures old(session.dc).Some? ==> session.dc == old(session.dc)
  {
    var close := *;
    session.closed := session.closed || close;
  }

  /** The steps of `Lifecycle` keep to what `Interfere` allows. */
  lemma InterferenceIsSound(l: Lifecycle.Life, s: Lifecycle.Step)
    requires Lifecycle.Can(l, s)
    ensures l.fields.closed ==> Lifecycle.Do(l, s).fields.closed
    ensures l.fields.dc.Some? ==> Lifecycle.Do(l, s).fields.dc == l.fields.dc
  {
  }

  /** A frame that carries its payload through the decoder. */
  ghost predicate PtyFrame(frame: array<byte>)
    reads frame
  {
    && 1 < frame.Length <= 65536 && frame[0] == 1
    && forall validText: bool :: DecodeFrame(frame[..], validText) == Ok(Frame(FRAME_PTY, frame[1..]))
  }

  /** The payloads of some frames, one after the other, as they are now. */
  ghost function Payloads(frames: seq<array<byte>>): seq<byte>
    reads frames
  {
    if frames == [] then []
    else
      var last := frames[|frames| - 1];
      Payloads(frames[..|frames| - 1]) + if last.Length == 0 then [] else last[1..]
  }

  lemma PayloadsAppend(frames: seq<array<byte>>, frame: array<byte>)
    requires frame.Length > 0
    ensures Payloads(frames + [frame]) == Payloads(frames) + frame[1..]
  {
    assert (frames + [frame])[..|frames|] == frames;
  }

  /** A new frame for the bytes just read: its own memory, not the buffer's. */
  method SendChunk(channel: Channel, buffer: array<byte>, n: nat)
    requires 0 < n <= buffer.Length && n < MAX_FRAME_BYTES
    modifies channel
    ensures |channel.sent| == |old(channel.sent)| + 1
    ensures channel.sent == old(channel.sent) + [channel.sent[|channel.sent| - 1]]
    ensures
      var frame := channel.sent[|channel.sent| - 1];
      fresh(frame) && PtyFrame(frame) && frame[1..] == buffer[..n]
  {
    var frame := new byte[1 + n];
    frame[0] := FRAME_PTY;
    forall i | 0 <= i < n {
      frame[1 + i] := buffer[i];
    }
    assert frame[1..] == buffer[..n];
    assert frame[..][1..] == frame[1..];
    channel.Send(frame);
  }

  /** The frames already handed over do not share memory with the buffer. */
  ghost predicate Separate(frames: seq<array<byte>>, buffer: array<byte>)
    reads frames
  {
    forall f | f in frames :: f != buffer && PtyFrame(f)
  }

  /** One round of the copying loop. */
  method CopyOnce(pty: Pty, session: Session, channel: Channel, buffer: array<byte>) returns (n: nat, failed: bool)
    requires session.dc == Some(channel.id) && buffer.Length < MAX_FRAME_BYTES
    requires Separate(channel.sent, buffer)
    modifies pty, session, channel, buffer
    ensures n <= |old(pty.unread)| && pty.unread == old(pty.unread)[n..] && (n == 0 ==> failed)
    ensures pty.delivered == old(pty.delivered) + old(pty.unread)[..n]
    ensures pty.errors == old(pty.errors) + if failed then 1 else 0
    ensures session.dc == Some(channel.id) && (old(session.closed) ==> session.closed)
    ensures Separate(channel.sent, buffer)
    ensures fresh(set f | f in channel.sent && f !in old(channel.sent))
    ensures Payloads(channel.sent) ==
      old(Payloads(channel.sent)) + if session.closed then [] else old(pty.unread)[..n]
  {
    n, failed := pty.Read(buffer);
    Interfere(session);
    if n > 0 {
      var dc, closed := session.dc, session.closed;
      if !closed && dc.Some? {
        ghost var before := channel.sent;
        SendChunk(channel, buffer, n);
        PayloadsAppend(before, channel.sent[|before|]);
      }
    }
  }

  /** What was sent is a prefix of what was read, and all of it unless closed. */
  predicate Faithful(sent: seq<byte>, read: seq<byte>, closed: bool) {
    sent <= read && (!closed ==> sent == read)
  }

  lemma FaithfulKept(sent: seq<byte>, read: seq<byte>, closed: bool, chunk: seq<byte>, closed': bool)
    requires Faithful(sent, read, closed) && (closed ==> closed')
    ensures Faithful(sent + if closed' then [] else chunk, read + chunk, closed')
  {
    assert sent + [] == sent;
  }

  lemma ReadOn(delivered: seq<byte>, unread: seq<byte>, n: nat)
    requires n <= |unread|
    ensures delivered + unread[..n] + unread[n..] == delivered + unread
  {
  }

  /** Copies until a read reports an error, and no longer. The frames sent then carry a
    * prefix of what all reads delivered, and all of it unless the session was closed
    * meanwhile. They are looked at when everything is over: the reuse of the buffer has
    * not altered any of them. */
  method CopyOutput(pty: Pty, session: Session, channel: Channel)
    requires session.dc == Some(channel.id) && channel.sent == [] && pty.delivered == []
    modifies pty, session, channel
    ensures pty.errors == old(pty.errors) + 1
    ensures forall f | f in channel.sent :: PtyFrame(f)
    ensures pty.delivered + pty.unread == old(pty.unread)
    ensures Faithful(Payloads(channel.sent), pty.delivered, session.closed)
  {
    var buffer := new byte[READ_BUFFER_BYTES];
    var failed := false;
    while !failed
      invariant pty.errors == old(pty.errors) + if failed then 1 else 0
      invariant pty.delivered + pty.unread == old(pty.unread)
      invariant session.dc == Some(channel.id)
      invariant Separate(channel.sent, buffer) && forall f | f in channel.sent :: fresh(f)
      invariant Faithful(Payloads(channel.sent), pty.delivered, session.closed)
      decreases !failed, |pty.unread|
    {
      ghost var before, unread := pty.delivered, pty.unread;
      ghost var sent, closed := Payloads(channel.sent), session.closed;
      var n;
      n, failed := CopyOnce(pty, session, channel, buffer);
      FaithfulKept(sent, before, closed, unread[..n], session.closed);
      ReadOn(before, unread, n);
    }
  }
}
