/** The length-prefixed messages on the daemon's local socket. */
module LocalApi {
  import opened Wrappers
  import opened Frames

  const MAX_MESSAGE_BYTES := 4096
  const PREFIX_BYTES := 4

  datatype ReadError = Eof | UnexpectedEof | InvalidLength

  // ---------------------------------------------------------------- the format

  /** `binary.BigEndian.PutUint32`. */
  function Uint32Bytes(n: nat): (r: seq<byte>)
    requires n < 0x1_0000_0000
    ensures |r| == PREFIX_BYTES
  {
    [(n / 0x100_0000) as byte, (n / 0x1_0000 % 0x100) as byte, (n / 0x100 % 0x100) as byte, (n % 0x100) as byte]
  }

  function Uint32Of(s: seq<byte>): nat
    requires |s| == PREFIX_BYTES
  {
    s[0] as int * 0x100_0000 + s[1] as int * 0x1_0000 + s[2] as int * 0x100 + s[3] as int
  }

  lemma Uint32RoundTrip(n: nat)
    requires n < 0x1_0000_0000
    ensures Uint32Of(Uint32Bytes(n)) == n
  {
    assert n / 0x1_0000 == n / 0x100 / 0x100 && n / 0x100_0000 == n / 0x1_0000 / 0x100;
  }

  /** An encoding that may be sent. */
  predicate Sendable(message: seq<byte>) {
    1 <= |message| <= MAX_MESSAGE_BYTES
  }

  type Message = m: seq<byte> | Sendable(m) witness [0]

  function Encode(message: Message): seq<byte> {
    Uint32Bytes(|message|) + message
  }

  function EncodeAll(messages: seq<Message>): seq<byte> {
    if messages == [] then [] else Encode(messages[0]) + EncodeAll(messages[1..])
  }

  /** `io.ReadFull` on a stream that ends after `s`: the error names the end of the
    * stream only if nothing at all could be read. */
  function ReadFullError(s: seq<byte>): ReadError {
    if s == [] then Eof else UnexpectedEof
  }

  /** The first message of a stream and what follows it. */
  function Decode(s: seq<byte>): Result<(seq<byte>, seq<byte>), ReadError> {
    if |s| < PREFIX_BYTES then Err(ReadFullError(s))
    else
      var length := Uint32Of(s[..PREFIX_BYTES]);
      var rest := s[PREFIX_BYTES..];
      if length == 0 || length > MAX_MESSAGE_BYTES then Err(InvalidLength)
      else if |rest| < length then Err(ReadFullError(rest))
      else Ok((rest[..length], rest[length..]))
  }

  /** The length that the first four bytes give, the highest byte first. */
  function LengthOf(s: seq<byte>): nat
    requires |s| >= 4
  {
    ((s[0] as int * 256 + s[1] as int) * 256 + s[2] as int) * 256 + s[3] as int
  }

  /** The format, byte by byte: a message is the bytes behind a length from 1 to 4096. */
  lemma DecodesExactly(s: seq<byte>)
    ensures
      match Decode(s)
      case Ok((message, rest)) =>
        |s| >= 4 && 1 <= LengthOf(s) <= 4096 && |message| == LengthOf(s) && s == s[..4] + message + rest
      case Err(InvalidLength) => |s| >= 4 && !(1 <= LengthOf(s) <= 4096)
      case Err(Eof) => s == [] || (|s| == 4 && 1 <= LengthOf(s) <= 4096)
      case Err(UnexpectedEof) =>
        0 < |s| < 4 || (|s| > 4 && 1 <= LengthOf(s) <= 4096 && |s| - 4 < LengthOf(s))
  {
  }

  /** A frame begins with the length of its message, the highest byte first. */
  lemma EncodesLength(message: Message)
    ensures LengthOf(Encode(message)) == |message| && Encode(message)[4..] == message
  {
    Uint32RoundTrip(|message|);
    assert Encode(message)[..4] == Uint32Bytes(|message|);
  }

  // ---------------------------------------------------------------- writing and reading, in place

  /** A connection: bytes written to it and not read yet; how often writing failed. */
  class Stream {
    var data: seq<byte>
    ghost var failures: nat

    /** Writing may fail after any part of the bytes. */
    method Write(bytes: seq<byte>) returns (ok: bool)
      modifies this
      ensures ok ==> data == old(data) + bytes
      ensures failures == old(failures) + if ok then 0 else 1
      ensures !ok ==> exists n: nat :: n <= |bytes| && data == old(data) + bytes[..n]
    {
      var n: nat :| n <= |bytes|;
      data := data + bytes[..n];
      ok := n == |bytes|;
      if !ok {
        failures := failures + 1;
      }
    }

    /** Reading yields at least one byte, and at most what is asked for and there. */
    method Read(max: nat) returns (bytes: seq<byte>)
      requires max > 0
      modifies this
      ensures old(data) == bytes + data && |bytes| <= max && failures == old(failures)
      ensures bytes == [] <==> old(data) == []
    {
      var n: nat :| n <= max && n <= |data| && (n == 0 <==> data == []);
      bytes := data[..n];
      data := data[n..];
    }
  }

  /** `io.ReadFull`, whatever the pieces in which the stream arrives. */
  method ReadFull(stream: Stream, buffer: array<byte>) returns (r: Result<(), ReadError>)
    modifies stream, buffer
    ensures stream.failures == old(stream.failures)
    ensures |old(stream.data)| >= buffer.Length ==>
      r == Ok(()) && old(stream.data) == buffer[..] + stream.data
    ensures |old(stream.data)| < buffer.Length ==>
      r == Err(ReadFullError(old(stream.data))) && stream.data == []
  {
    var filled := 0;
    while filled < buffer.Length
      invariant filled <= buffer.Length
      invariant old(stream.data) == buffer[..filled] + stream.data && stream.failures == old(stream.failures)
    {
      var piece := stream.Read(buffer.Length - filled);
      if piece == [] {
        return Err(if filled == 0 then Eof else UnexpectedEof);
      }
      ghost var before := buffer[..filled];
      forall i | 0 <= i < |piece| {
        buffer[filled + i] := piece[i];
      }
      filled := filled + |piece|;
      assert buffer[..filled] == before + piece;
    }
    assert buffer[..filled] == buffer[..];
    return Ok(());
  }

  /** `readJSON` up to the decoding of the payload. */
  method ReadMessage(stream: Stream) returns (r: Result<seq<byte>, ReadError>)
    modifies stream
    ensures stream.failures == old(stream.failures)
    ensures
      var decoded := Decode(old(stream.data));
      && r.Ok? == decoded.Ok?
      && (r.Ok? ==> r.value == decoded.value.0 && stream.data == decoded.value.1)
      && (r.Err? ==> r.error == decoded.error)
  {
    var prefix := new byte[PREFIX_BYTES];
    var read := ReadFull(stream, prefix);
    if read.Err? {
      return Err(read.error);
    }
    assert old(stream.data)[..PREFIX_BYTES] == prefix[..];
    assert old(stream.data)[PREFIX_BYTES..] == stream.data;
    var length := Uint32Of(prefix[..]);
    if length == 0 || length > MAX_MESSAGE_BYTES {
      return Err(InvalidLength);
    }
    var payload := new byte[length];
    ghost var rest := stream.data;
    read := ReadFull(stream, payload);
    if read.Err? {
      return Err(read.error);
    }
    assert rest[..length] == payload[..];
    return Ok(payload[..]);
  }

  /** `writeJSON` from the encoded payload on: nothing is written for a payload that is
    * empty or too long, and otherwise exactly its frame, or a part of it on failure. */
  method WriteMessage(stream: Stream, message: seq<byte>) returns (ok: bool)
    modifies stream
    ensures !(1 <= |message| <= 4096) ==> !ok && stream.data == old(stream.data)
    ensures ok ==> stream.data == old(stream.data) + Encode(message)
    ensures stream.failures == old(stream.failures) + if !ok && 1 <= |message| <= 4096 then 1 else 0
    ensures !ok && 1 <= |message| <= 4096 ==>
      exists n: nat :: n <= |Encode(message)| && stream.data == old(stream.data) + Encode(message)[..n]
  {
    if |message| == 0 || |message| > MAX_MESSAGE_BYTES {
      return false;
    }
    ghost var start := stream.data;
    ok := stream.Write(Uint32Bytes(|message|));
    if !ok {
      ghost var n: nat :| n <= PREFIX_BYTES && stream.data == start + Uint32Bytes(|message|)[..n];
      assert Encode(message)[..n] == Uint32Bytes(|message|)[..n];
      return;
    }
    ok := stream.Write(message);
    if !ok {
      ghost var n: nat :| n <= |message| && stream.data == start + Uint32Bytes(|message|) + message[..n];
      assert Encode(message)[..PREFIX_BYTES + n] == Uint32Bytes(|message|) + message[..n];
    } else {
      assert stream.data == start + Encode(message);
    }
  }

  // ---------------------------------------------------------------- round trip and truncation

  lemma DecodeEncoded(message: Message, rest: seq<byte>)
    ensures Decode(Encode(message) + rest) == Ok((message, rest))
  {
    var s := Encode(message) + rest;
    Uint32RoundTrip(|message|);
    assert s[..PREFIX_BYTES] == Uint32Bytes(|message|);
    assert s[PREFIX_BYTES..] == message + rest;
  }

  /** A proper part of a frame is an error; the end of the stream is named as such only
    * before the first byte, or between the length and the payload. */
  lemma DecodeTruncated(message: Message, k: nat)
    requires k < |Encode(message)|
    ensures Decode(Encode(message)[..k]) == Err(if k == 0 || k == PREFIX_BYTES then Eof else UnexpectedEof)
  {
    var s := Encode(message)[..k];
    if k >= PREFIX_BYTES {
      Uint32RoundTrip(|message|);
      assert s[..PREFIX_BYTES] == Uint32Bytes(|message|);
      assert s[PREFIX_BYTES..] == message[..k - PREFIX_BYTES];
    }
  }

  /** All messages of a stream up to the first error, and that error. */
  function DecodeAll(s: seq<byte>): (seq<seq<byte>>, ReadError)
    decreases |s|
  {
    match Decode(s)
    case Err(error) => ([], error)
    case Ok((message, rest)) =>
      var (messages, error) := DecodeAll(rest);
      ([message] + messages, error)
  }

  /** How many of the messages lie within the first `k` bytes of their encoding. */
  function Complete(messages: seq<Message>, k: nat): (n: nat)
    ensures n <= |messages|
  {
    if messages == [] || k < |Encode(messages[0])| then 0
    else 1 + Complete(messages[1..], k - |Encode(messages[0])|)
  }

  lemma DecodeAllCons(message: Message, rest: seq<byte>)
    ensures DecodeAll(Encode(message) + rest) == ([message] + DecodeAll(rest).0, DecodeAll(rest).1)
  {
    DecodeEncoded(message, rest);
  }

  lemma DecodeAllTruncated(message: Message, k: nat)
    requires k < |Encode(message)|
    ensures DecodeAll(Encode(message)[..k]).0 == []
    ensures DecodeAll(Encode(message)[..k]).1 == Eof || DecodeAll(Encode(message)[..k]).1 == UnexpectedEof
  {
    DecodeTruncated(message, k);
  }

  lemma CutCons(messages: seq<Message>, k: nat)
    requires messages != [] && k <= |EncodeAll(messages)|
    ensures
      var first := Encode(messages[0]);
      && (k < |first| ==> EncodeAll(messages)[..k] == first[..k])
      && (k >= |first| ==> EncodeAll(messages)[..k] == first + EncodeAll(messages[1..])[..k - |first|])
  {
  }

  /** The messages that are complete in the first `k` bytes, then the end or a part. */
  ghost predicate ReadsComplete(messages: seq<Message>, k: nat)
    requires k <= |EncodeAll(messages)|
  {
    var (read, error) := DecodeAll(EncodeAll(messages)[..k]);
    && read == messages[..Complete(messages, k)]
    && (error == Eof || error == UnexpectedEof)
    && (k == |EncodeAll(messages)| ==> read == messages && error == Eof)
  }

  lemma ReadsOneMore(messages: seq<Message>, k: nat)
    requires messages != [] && |Encode(messages[0])| <= k <= |EncodeAll(messages)|
    requires ReadsComplete(messages[1..], k - |Encode(messages[0])|)
    ensures ReadsComplete(messages, k)
  {
    var left := k - |Encode(messages[0])|;
    CutCons(messages, k);
    DecodeAllCons(messages[0], EncodeAll(messages[1..])[..left]);
    var n := Complete(messages[1..], left);
    assert messages[..1 + n] == [messages[0]] + messages[1..][..n];
    assert messages == [messages[0]] + messages[1..];
  }

  lemma ReadsNone(messages: seq<Message>, k: nat)
    requires messages != [] && k < |Encode(messages[0])|
    ensures k <= |EncodeAll(messages)| && ReadsComplete(messages, k)
  {
    CutCons(messages, k);
    DecodeAllTruncated(messages[0], k);
  }

  /** Reading a stream that was cut off anywhere yields exactly the messages that are
    * complete, in order, and then an error; it never yields anything else. */
  lemma {:induction false} NeverMisread(messages: seq<Message>, k: nat)
    requires k <= |EncodeAll(messages)|
    ensures ReadsComplete(messages, k)
  {
    if messages == [] {
    } else if k < |Encode(messages[0])| {
      ReadsNone(messages, k);
    } else {
      NeverMisread(messages[1..], k - |Encode(messages[0])|);
      ReadsOneMore(messages, k);
    }
  }

  /** Messages written one after the other, and as many read back, are the same, and
    * the stream is then at its end, unless a write fails. */
  method Transfer(stream: Stream, messages: seq<Message>) returns (written: bool, got: seq<seq<byte>>)
    requires stream.data == []
    modifies stream
    ensures written ==> got == messages && stream.data == []
    ensures written <==> stream.failures == old(stream.failures)
  {
    got := [];
    for i := 0 to |messages|
      invariant stream.data == EncodeAll(messages[..i]) && stream.failures == old(stream.failures)
    {
      EncodeAllAppend(messages[..i], messages[i]);
      assert messages[..i] + [messages[i]] == messages[..i + 1];
      written := WriteMessage(stream, messages[i]);
      if !written {
        return;
      }
    }
    assert messages[..|messages|] == messages[0..] == messages;
    for i := 0 to |messages|
      invariant got == messages[..i] && stream.data == EncodeAll(messages[i..])
      invariant stream.failures == old(stream.failures)
    {
      assert messages[i..][1..] == messages[i + 1..];
      DecodeEncoded(messages[i], EncodeAll(messages[i + 1..]));
      var message := ReadMessage(stream);
      got := got + [message.value];
    }
    written := true;
  }

  lemma {:induction false} EncodeAllAppend(messages: seq<Message>, m: Message)
    ensures EncodeAll(messages + [m]) == EncodeAll(messages) + Encode(m)
  {
    if messages == [] {
      assert messages + [m] == [m];
      assert EncodeAll([m]) == Encode(m) + EncodeAll([]);
    } else {
      assert (messages + [m])[1..] == messages[1..] + [m];
      EncodeAllAppend(messages[1..], m);
    }
  }
}
