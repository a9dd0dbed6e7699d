/**
 The framed wire protocol of src/protocol.rs: frames, their byte encoding, and the decoder that
 takes one frame at a time off the front of a growing buffer.

 `Encoding` and `DecodeOne` are the specification; `FrameCodec` is the codec itself, which appends to
 and consumes a `BytesMut` in place.
 */
module Protocol {
  import opened Wrappers
  import opened Sequences
  import opened Utf8
  import opened Text
  import opened Decimal

  type u16 = x: int | 0 <= x < 0x1_0000
  type u32 = x: int | 0 <= x < 0x1_0000_0000
  type u64 = x: int | 0 <= x < 0x1_0000_0000_0000_0000
  type i32 = x: int | -0x8000_0000 <= x < 0x8000_0000

  const HEADER_LEN: nat := 5
  const MAX_FRAME_SIZE: nat := 0x10_0000

  datatype SessionEntry = SessionEntry(
    id: Str, name: Str, ptyPath: Str, shellPid: u32, createdAt: u64, attached: bool, lastHeartbeat: u64)

  datatype Frame =
    | Data(bytes: seq<byte>)
    | Resize(cols: u16, rows: u16)
    | Exit(code: i32)
    | Detached
    | Ping
    | Pong
    | Env(vars: seq<(Str, Str)>)
    | NewSession(name: Str)
    | Attach(session: Str)
    | ListSessions
    | KillSession(session: Str)
    | KillServer
    | SessionCreated(id: Str)
    | SessionInfo(sessions: seq<SessionEntry>)
    | Ok
    | Error(message: Str)

  datatype DecodeError =
    | TooLarge(length: nat)
    | BadResize
    | BadExit
    | BadUtf8
    | UnknownType(code: byte)

  // ----- Fixed-width integers, big endian -----

  function BigEndian16(n: u16): (s: seq<byte>)
    ensures |s| == 2
  {
    [n / 0x100, n % 0x100]
  }

  function BigEndian32(n: u32): (s: seq<byte>)
    ensures |s| == 4
  {
    [n / 0x100_0000, n / 0x1_0000 % 0x100, n / 0x100 % 0x100, n % 0x100]
  }

  function FromBigEndian16(s: seq<byte>): u16
    requires |s| == 2
  {
    (s[0] as int) * 0x100 + s[1]
  }

  function FromBigEndian32(s: seq<byte>): u32
    requires |s| == 4
  {
    (s[0] as int) * 0x100_0000 + (s[1] as int) * 0x1_0000 + (s[2] as int) * 0x100 + s[3]
  }

  /** Two's complement. */
  function Unsigned(n: i32): u32 {
    if n < 0 then n + 0x1_0000_0000 else n
  }

  function Signed(n: u32): i32 {
    if n >= 0x8000_0000 then n - 0x1_0000_0000 else n
  }

  // ----- Text payloads -----

  function FormatVar(kv: (Str, Str)): (line: Str)
    ensures |line| > 0
  {
    AsciiValid([EQUALS]);
    ValidConcat(kv.0, [EQUALS]);
    ValidConcat(kv.0 + [EQUALS], kv.1);
    kv.0 + [EQUALS] + kv.1
  }

  function FormatVars(vars: seq<(Str, Str)>): (lines: seq<Str>)
    ensures |lines| == |vars|
    ensures forall k :: 0 <= k < |vars| ==> lines[k] == FormatVar(vars[k])
  {
    seq(|vars|, k requires 0 <= k < |vars| => FormatVar(vars[k]))
  }

  function EnvText(vars: seq<(Str, Str)>): Str {
    Join(FormatVars(vars), LF)
  }

  /** `line.split_once('=')`. */
  function ParseVar(line: Str): (r: Option<(Str, Str)>)
    ensures r.Some? ==> EQUALS !in r.value.0 && line == FormatVar(r.value)
    ensures r.None? <==> EQUALS !in line
  {
    var i := Find(line, EQUALS);
    if i == |line| then None
    else
      ValidSplit(line, i);
      Around(line, i);
      Some((line[..i], line[i + 1..]))
  }

  /** The `filter_map` over lines: a line without `=` is dropped. */
  function ParseVars(lines: seq<Str>): (vars: seq<(Str, Str)>)
    ensures forall k :: 0 <= k < |vars| ==> EQUALS !in vars[k].0 && FormatVar(vars[k]) in lines
  {
    if lines == [] then []
    else
      match ParseVar(lines[0])
      case None => ParseVars(lines[1..])
      case Some(kv) => [kv] + ParseVars(lines[1..])
  }

  function EnvOfText(text: Str): seq<(Str, Str)> {
    ParseVars(Lines(text))
  }

  const ZERO_TEXT: Str := Print(0)
  const ONE_TEXT: Str := Print(1)

  function Fields(e: SessionEntry): (fields: seq<Str>)
    ensures |fields| == 7
  {
    [e.id, e.name, e.ptyPath, Print(e.shellPid), Print(e.createdAt),
     if e.attached then ONE_TEXT else ZERO_TEXT, Print(e.lastHeartbeat)]
  }

  function FormatEntry(e: SessionEntry): (line: Str) {
    Join(Fields(e), TAB)
  }

  function FormatEntries(entries: seq<SessionEntry>): (lines: seq<Str>)
    ensures |lines| == |entries|
    ensures forall k :: 0 <= k < |entries| ==> lines[k] == FormatEntry(entries[k])
  {
    seq(|entries|, k requires 0 <= k < |entries| => FormatEntry(entries[k]))
  }

  function SessionText(entries: seq<SessionEntry>): Str {
    Join(FormatEntries(entries), LF)
  }

  /** `parse().unwrap_or(0)`. */
  function NumberOrZero(s: Str, max: nat): (n: nat)
    ensures n <= max
  {
    match Parse(s, max)
    case Some(n) => n
    case None => 0
  }

  function ParseEntry(line: Str): (r: Option<SessionEntry>)
    ensures r.Some? ==> TAB !in r.value.id && TAB !in r.value.name && TAB !in r.value.ptyPath
    ensures r.Some? && LF !in line ==> LF !in r.value.id && LF !in r.value.name && LF !in r.value.ptyPath
  {
    var parts: seq<Str> := Split(line, TAB);
    if |parts| == 7 then
      assert parts[0] in parts && parts[1] in parts && parts[2] in parts;
      Some(SessionEntry(parts[0], parts[1], parts[2],
                        NumberOrZero(parts[3], U32_MAX), NumberOrZero(parts[4], U64_MAX),
                        parts[5] == ONE_TEXT, NumberOrZero(parts[6], U64_MAX)))
    else None
  }

  function ParseEntries(lines: seq<Str>): (entries: seq<SessionEntry>)
    ensures forall e :: e in entries ==> TAB !in e.id && TAB !in e.name && TAB !in e.ptyPath
    ensures (forall l :: l in lines ==> LF !in l)
            ==> forall e :: e in entries ==> LF !in e.id && LF !in e.name && LF !in e.ptyPath
  {
    if lines == [] then []
    else
      assert lines[0] in lines && forall l :: l in lines[1..] ==> l in lines;
      match ParseEntry(lines[0])
      case None => ParseEntries(lines[1..])
      case Some(e) => [e] + ParseEntries(lines[1..])
  }

  function EntriesOfText(text: Str): seq<SessionEntry> {
    ParseEntries(Lines(text))
  }

  // ----- Whole frames -----

  function TypeCode(f: Frame): byte {
    match f
    case Data(_) => 0x01
    case Resize(_, _) => 0x02
    case Exit(_) => 0x03
    case Detached => 0x04
    case Ping => 0x05
    case Pong => 0x06
    case Env(_) => 0x07
    case NewSession(_) => 0x10
    case Attach(_) => 0x11
    case ListSessions => 0x12
    case KillSession(_) => 0x13
    case KillServer => 0x14
    case SessionCreated(_) => 0x20
    case SessionInfo(_) => 0x21
    case Ok => 0x22
    case Error(_) => 0x23
  }

  function Payload(f: Frame): seq<byte> {
    match f
    case Data(bytes) => bytes
    case Resize(cols, rows) => BigEndian16(cols) + BigEndian16(rows)
    case Exit(code) => BigEndian32(Unsigned(code))
    case Env(vars) => EnvText(vars)
    case NewSession(name) => name
    case Attach(session) => session
    case KillSession(session) => session
    case SessionCreated(id) => id
    case SessionInfo(sessions) => SessionText(sessions)
    case Error(message) => message
    case _ => []
  }

  /** The length field is the payload length cut to 32 bits; the 1 MiB limit is not checked. */
  function Framed(code: byte, payload: seq<byte>): seq<byte> {
    [code] + BigEndian32(|payload| % 0x1_0000_0000) + payload
  }

  function Encoding(f: Frame): seq<byte> {
    Framed(TypeCode(f), Payload(f))
  }

  function DecodePayload(code: byte, payload: seq<byte>): Result<Frame, DecodeError> {
    match code
    case 0x01 => Success(Data(payload))
    case 0x02 =>
      if |payload| != 4 then Failure(BadResize)
      else Success(Resize(FromBigEndian16(payload[..2]), FromBigEndian16(payload[2..])))
    case 0x03 =>
      if |payload| != 4 then Failure(BadExit)
      else Success(Exit(Signed(FromBigEndian32(payload))))
    case 0x04 => Success(Detached)
    case 0x05 => Success(Ping)
    case 0x06 => Success(Pong)
    case 0x07 => if Valid(payload) then Success(Env(EnvOfText(payload))) else Failure(BadUtf8)
    case 0x10 => if Valid(payload) then Success(NewSession(payload)) else Failure(BadUtf8)
    case 0x11 => if Valid(payload) then Success(Attach(payload)) else Failure(BadUtf8)
    case 0x12 => Success(ListSessions)
    case 0x13 => if Valid(payload) then Success(KillSession(payload)) else Failure(BadUtf8)
    case 0x14 => Success(KillServer)
    case 0x20 => if Valid(payload) then Success(SessionCreated(payload)) else Failure(BadUtf8)
    case 0x21 => if Valid(payload) then Success(SessionInfo(EntriesOfText(payload))) else Failure(BadUtf8)
    case 0x22 => Success(Ok)
    case 0x23 => if Valid(payload) then Success(Error(payload)) else Failure(BadUtf8)
    case _ => Failure(UnknownType(code))
  }

  /** What one call of `decode` finds at the front of the buffer, and the buffer it leaves. */
  datatype Decoded =
    | NeedMore
    | Item(frame: Frame, rest: seq<byte>)
    | Failed(error: DecodeError, rest: seq<byte>)

  function DecodeOne(src: seq<byte>): Decoded {
    if |src| < HEADER_LEN then NeedMore
    else
      var len := FromBigEndian32(src[1..5]);
      if len > MAX_FRAME_SIZE then Failed(TooLarge(len), src)
      else if |src| < HEADER_LEN + len then NeedMore
      else
        var rest := src[HEADER_LEN + len..];
        match DecodePayload(src[0], src[HEADER_LEN..HEADER_LEN + len])
        case Success(f) => Item(f, rest)
        case Failure(e) => Failed(e, rest)
  }

  /** The bytes of the Data frames, in order. */
  function DataBytes(frames: seq<Frame>): seq<byte> {
    if frames == [] then []
    else
      var n := |frames| - 1;
      DataBytes(frames[..n]) + if frames[n].Data? then frames[n].bytes else []
  }

  lemma DataBytesNext(frames: seq<Frame>, f: Frame)
    ensures DataBytes(frames + [f]) == if f.Data? then DataBytes(frames) + f.bytes else DataBytes(frames)
  {
    assert (frames + [f])[..|frames|] == frames;
  }

  lemma {:induction false} DataBytesConcat(a: seq<Frame>, b: seq<Frame>)
    ensures DataBytes(a + b) == DataBytes(a) + DataBytes(b)
    decreases |b|
  {
    if b == [] {
      assert a + b == a;
    } else {
      var n := |b| - 1;
      assert (a + b)[..|a| + n] == a + b[..n];
      DataBytesConcat(a, b[..n]);
    }
  }

  lemma DataBytesPrefix(a: seq<Frame>, b: seq<Frame>)
    requires a <= b
    ensures DataBytes(a) <= DataBytes(b)
  {
    assert b == a + b[|a|..];
    DataBytesConcat(a, b[|a|..]);
  }

  // ----- The codec -----

  /** A growable byte buffer, consumed from the front. */
  class BytesMut {
    var data: seq<byte>

    constructor ()
      ensures data == []
    {
      data := [];
    }

    method PutU8(b: byte)
      modifies this
      ensures data == old(data) + [b]
    {
      data := data + [b];
    }

    method PutU16(n: u16)
      modifies this
      ensures data == old(data) + BigEndian16(n)
    {
      data := data + BigEndian16(n);
    }

    method PutU32(n: u32)
      modifies this
      ensures data == old(data) + BigEndian32(n)
    {
      data := data + BigEndian32(n);
    }

    method ExtendFromSlice(s: seq<byte>)
      modifies this
      ensures data == old(data) + s
    {
      data := data + s;
    }

    method Advance(n: nat)
      requires n <= |data|
      modifies this
      ensures data == old(data)[n..]
    {
      data := data[n..];
    }

    method SplitTo(n: nat) returns (head: seq<byte>)
      requires n <= |data|
      modifies this
      ensures head == old(data)[..n] && data == old(data)[n..]
    {
      head := data[..n];
      data := data[n..];
    }
  }

  class FrameCodec {
    constructor () {}

    method EncodeEmpty(dst: BytesMut, code: byte)
      modifies dst
      ensures dst.data == old(dst.data) + Framed(code, [])
    {
      dst.PutU8(code);
      dst.PutU32(0);
    }

    method EncodeStr(dst: BytesMut, code: byte, s: Str)
      modifies dst
      ensures dst.data == old(dst.data) + Framed(code, s)
    {
      dst.PutU8(code);
      dst.PutU32(|s| % 0x1_0000_0000);
      dst.ExtendFromSlice(s);
    }

    static lemma Appended(before: seq<byte>, code: byte, payload: seq<byte>)
      ensures before + [code] + BigEndian32(|payload| % 0x1_0000_0000) + payload == before + Framed(code, payload)
    {
      hide BigEndian32;
    }

    /** Appends the frame's encoding and nothing else; never fails. */
    method Encode(frame: Frame, dst: BytesMut)
      modifies dst
      ensures dst.data == old(dst.data) + Encoding(frame)
    {
      hide BigEndian16, BigEndian32, EnvText, SessionText, Unsigned, Framed;
      ghost var before := dst.data;
      match frame {
        case Data(bytes) =>
          dst.PutU8(0x01);
          dst.PutU32(|bytes| % 0x1_0000_0000);
          dst.ExtendFromSlice(bytes);
          Appended(before, 0x01, bytes);
        case Resize(cols, rows) =>
          dst.PutU8(0x02);
          dst.PutU32(4);
          dst.PutU16(cols);
          dst.PutU16(rows);
          var size := BigEndian16(cols) + BigEndian16(rows);
          assert dst.data == before + [0x02] + BigEndian32(4) + size;
          Appended(before, 0x02, size);
        case Exit(code) =>
          dst.PutU8(0x03);
          dst.PutU32(4);
          dst.PutU32(Unsigned(code));
          Appended(before, 0x03, BigEndian32(Unsigned(code)));
        case Detached => EncodeEmpty(dst, 0x04);
        case Ping => EncodeEmpty(dst, 0x05);
        case Pong => EncodeEmpty(dst, 0x06);
        case Env(vars) => EncodeStr(dst, 0x07, EnvText(vars));
        case NewSession(name) => EncodeStr(dst, 0x10, name);
        case Attach(session) => EncodeStr(dst, 0x11, session);
        case ListSessions => EncodeEmpty(dst, 0x12);
        case KillSession(session) => EncodeStr(dst, 0x13, session);
        case KillServer => EncodeEmpty(dst, 0x14);
        case SessionCreated(id) => EncodeStr(dst, 0x20, id);
        case SessionInfo(sessions) => EncodeStr(dst, 0x21, SessionText(sessions));
        case Ok => EncodeEmpty(dst, 0x22);
        case Error(message) => EncodeStr(dst, 0x23, message);
      }
    }

    /**
     Takes at most one frame off the front of `src`. `src` is untouched when the frame is not complete
     and when the header announces too much; otherwise exactly the frame is gone, even if its payload is bad.
     */
    method Decode(src: BytesMut) returns (r: Result<Option<Frame>, DecodeError>)
      modifies src
      ensures match DecodeOne(old(src.data))
              case NeedMore => r == Success(None) && src.data == old(src.data)
              case Item(f, rest) => r == Success(Some(f)) && src.data == rest
              case Failed(e, rest) => r == Failure(e) && src.data == rest
    {
      if |src.data| < HEADER_LEN {
        return Success(None);
      }
      var code := src.data[0];
      var len := FromBigEndian32(src.data[1..5]);
      if len > MAX_FRAME_SIZE {
        return Failure(TooLarge(len));
      }
      if |src.data| < HEADER_LEN + len {
        return Success(None);
      }
      src.Advance(HEADER_LEN);
      var payload := src.SplitTo(len);
      assert payload == old(src.data)[HEADER_LEN..HEADER_LEN + len];
      assert src.data == old(src.data)[HEADER_LEN + len..];
      match DecodePayload(code, payload) {
        case Success(f) => r := Success(Some(f));
        case Failure(e) => r := Failure(e);
      }
    }
  }
}
