/** The binary frames of the terminal DataChannel. */
module Frames {
  import opened Wrappers
  import opened CloseCauses

  newtype byte = x: int | 0 <= x < 0x100

  const MAX_FRAME_BYTES := 0x1_0000
  const MAX_ERROR_BYTES := 256
  const MAX_DIMENSION := 1000

  const FRAME_PTY: byte := 1
  const FRAME_RESIZE: byte := 2
  const FRAME_EXIT: byte := 3
  const FRAME_ERROR: byte := 4

  datatype Frame = Frame(kind: byte, data: seq<byte>)

  /** `binary.BigEndian.Uint16` of the two bytes at `at`. */
  function Uint16At(s: seq<byte>, at: nat): (n: nat)
    requires at + 2 <= |s|
    ensures n < 0x1_0000
  {
    s[at] as int * 0x100 + s[at + 1] as int
  }

  predicate ValidDimensions(columns: nat, rows: nat) {
    1 <= columns <= MAX_DIMENSION && 1 <= rows <= MAX_DIMENSION
  }

  /** `validText` stands for the library's UTF-8 check of the frame's data. */
  function DecodeFrame(data: seq<byte>, validText: bool): Result<Frame, ()> {
    if |data| == 0 || |data| > MAX_FRAME_BYTES then Err(())
    else
      var frame := Frame(data[0], data[1..]);
      if frame.kind == FRAME_PTY then Ok(frame)
      else if frame.kind == FRAME_RESIZE then
        if |frame.data| != 4 then Err(())
        else if !ValidDimensions(Uint16At(frame.data, 0), Uint16At(frame.data, 2)) then Err(())
        else Ok(frame)
      else if frame.kind == FRAME_EXIT then
        if |frame.data| != 5 then Err(()) else Ok(frame)
      else if frame.kind == FRAME_ERROR then
        if |frame.data| > MAX_ERROR_BYTES || !validText then Err(()) else Ok(frame)
      else Err(())
  }

  /** What a DataChannel message does to the session: the cause it is closed for,
    * if any. `ready`: a PTY exists and the session is not closed. `ioOk`: writing
    * to, or resizing, the PTY succeeds. */
  function Verdict(isText: bool, data: seq<byte>, ready: bool, ioOk: bool): Option<Cause> {
    if isText || |data| == 0 || |data| > MAX_FRAME_BYTES then Some(InvalidFrame)
    else if !ready then Some(TerminalUnavailable)
    else if data[0] == FRAME_PTY then
      if ioOk then None else Some(PtyWriteFailed)
    else if data[0] == FRAME_RESIZE then
      if |data| != 5 then Some(InvalidResize)
      else if !ValidDimensions(Uint16At(data, 1), Uint16At(data, 3)) || !ioOk then Some(InvalidResize)
      else None
    else Some(InvalidFrame)
  }

  /** What `message` asks of the PTY. */
  datatype PtyCall = Write(data: seq<byte>) | SetSize(columns: nat, rows: nat)

  function PtyCallFor(isText: bool, data: seq<byte>, ready: bool): Option<PtyCall> {
    if isText || |data| == 0 || |data| > MAX_FRAME_BYTES || !ready then None
    else if data[0] == FRAME_PTY then Some(Write(data[1..]))
    else if data[0] == FRAME_RESIZE && |data| == 5 && ValidDimensions(Uint16At(data, 1), Uint16At(data, 3)) then
      Some(SetSize(Uint16At(data, 1), Uint16At(data, 3)))
    else None
  }

  // ---------------------------------------------------------------- the formats, byte by byte

  /** A resize frame: its type, then columns and rows, the higher byte first. */
  predicate ResizeFrame(data: seq<byte>, columns: nat, rows: nat) {
    && |data| == 5 && data[0] == 2
    && data[1] as int * 256 + data[2] as int == columns
    && data[3] as int * 256 + data[4] as int == rows
  }

  /** What the protocol allows as a frame. */
  ghost predicate Allowed(data: seq<byte>, validText: bool) {
    && 1 <= |data| <= 65536
    && (|| data[0] == 1
        || (exists columns: nat, rows: nat ::
              1 <= columns <= 1000 && 1 <= rows <= 1000 && ResizeFrame(data, columns, rows))
        || (data[0] == 3 && |data| == 1 + 5)
        || (data[0] == 4 && |data| <= 1 + 256 && validText))
  }

  /** The decoder accepts exactly the frames that the protocol allows, and splits off
    * their first byte. */
  lemma DecodesExactly(data: seq<byte>, validText: bool)
    ensures DecodeFrame(data, validText).Ok? <==> Allowed(data, validText)
    ensures DecodeFrame(data, validText).Ok? ==> DecodeFrame(data, validText) == Ok(Frame(data[0], data[1..]))
  {
    if |data| == 5 && data[0] == 2 {
      var columns, rows := Uint16At(data[1..], 0), Uint16At(data[1..], 2);
      assert ResizeFrame(data, columns, rows);
    }
  }

  /** The shell of an open session gets exactly the payload of a PTY frame, and exactly the
    * dimensions of a resize frame; the session stays open exactly if it takes them. */
  lemma CallsExactly(isText: bool, data: seq<byte>, ready: bool, ioOk: bool, validText: bool)
    ensures
      var decoded, call := DecodeFrame(data, validText), PtyCallFor(isText, data, ready);
      && (Verdict(isText, data, ready, ioOk).None? <==> call.Some? && ioOk)
      && (forall bytes: seq<byte> ::
            call == Some(Write(bytes)) <==> !isText && ready && decoded == Ok(Frame(1, bytes)))
      && (forall columns: nat, rows: nat ::
            call == Some(SetSize(columns, rows)) <==>
              !isText && ready && decoded.Ok? && ResizeFrame(data, columns, rows))
  {
    if |data| == 5 && data[0] == 2 {
      assert Uint16At(data, 1) == Uint16At(data[1..], 0);
      assert Uint16At(data, 3) == Uint16At(data[1..], 2);
    }
  }

  /** What becomes of a DataChannel message, by the decoder: the session stays open
    * exactly for a PTY or a resize frame that a shell of an open session takes. */
  lemma VerdictExactly(isText: bool, data: seq<byte>, ready: bool, ioOk: bool, validText: bool)
    ensures
      var decoded := DecodeFrame(data, validText);
      Verdict(isText, data, ready, ioOk) ==
        if isText || !(1 <= |data| <= 65536) then Some(InvalidFrame)
        else if !ready then Some(TerminalUnavailable)
        else if data[0] == 1 then (if decoded.Ok? && ioOk then None else Some(PtyWriteFailed))
        else if data[0] == 2 then (if decoded.Ok? && ioOk then None else Some(InvalidResize))
        else Some(InvalidFrame)
  {
    DecodesExactly(data, validText);
    if |data| == 5 && data[0] == 2 {
      assert Uint16At(data, 1) == Uint16At(data[1..], 0);
      assert Uint16At(data, 3) == Uint16At(data[1..], 2);
    }
  }

  // ---------------------------------------------------------------- resizing

  /** `binary.BigEndian.PutUint16` into the two bytes at `at`. */
  method PutUint16(a: array<byte>, at: nat, value: nat)
    requires at + 2 <= a.Length && value < 0x1_0000
    modifies a
    ensures a[at] as int * 256 + a[at + 1] as int == value
    ensures forall i | 0 <= i < a.Length && i != at && i != at + 1 :: a[i] == old(a[i])
  {
    a[at] := (value / 0x100) as byte;
    a[at + 1] := (value % 0x100) as byte;
  }

  /** A resize frame comes back from the decoder with the dimensions put into it; other
    * dimensions are refused. */
  method EncodeResize(columns: nat, rows: nat) returns (frame: Option<array<byte>>)
    requires columns < 0x1_0000 && rows < 0x1_0000
    ensures frame.Some? <==> 1 <= columns <= 1000 && 1 <= rows <= 1000
    ensures frame.Some? ==> fresh(frame.value) && ResizeFrame(frame.value[..], columns, rows)
    ensures frame.Some? ==> forall validText: bool ::
      DecodeFrame(frame.value[..], validText) == Ok(Frame(2, frame.value[1..]))
  {
    if !ValidDimensions(columns, rows) {
      return None;
    }
    var a := new byte[5] [FRAME_RESIZE, 0, 0, 0, 0];
    PutUint16(a, 1, columns);
    PutUint16(a, 3, rows);
    assert a[..][1..] == a[1..];
    return Some(a);
  }

  /** The two validators of the repository agree: the session accepts a binary message
    * exactly if it decodes as a PTY or a resize frame, the two kinds that a browser
    * may send besides errors. */
  lemma VerdictMatchesDecoder(data: seq<byte>, validText: bool)
    ensures Verdict(false, data, true, true).None? <==>
      var decoded := DecodeFrame(data, validText);
      decoded.Ok? && (decoded.value.kind == FRAME_PTY || decoded.value.kind == FRAME_RESIZE)
  {
    if 0 < |data| <= MAX_FRAME_BYTES && data[0] == FRAME_RESIZE && |data| == 5 {
      assert Uint16At(data, 1) == Uint16At(data[1..], 0);
      assert Uint16At(data, 3) == Uint16At(data[1..], 2);
    }
  }
}
