/**
 The wire, byte for byte: what every frame looks like and what every input is read as, with all the numbers written
 out. The types, the length field, the tables of text and their separators are what another implementation would have
 to know; `RoundTrip` only says that this one agrees with itself.
 */
module Wire {
  import opened Wrappers
  import opened Sequences
  import opened Utf8
  import opened Text
  import opened Decimal
  import opened Protocol

  // ----- What is written -----

  /** Four bytes as a number, the most significant first. */
  function Number32(a: byte, b: byte, c: byte, d: byte): nat {
    ((a as int * 256 + b) * 256 + c) * 256 + d
  }

  /** The frame type, the payload's length cut to 32 bits, and the payload. */
  predicate Carries(s: seq<byte>, code: byte, payload: seq<byte>) {
    && |s| == 5 + |payload| && s[0] == code && s[5..] == payload
    && Number32(s[1], s[2], s[3], s[4]) == |payload| % 4294967296
  }

  /** `key=value` lines with a line feed between them. */
  function VarLines(vars: seq<(Str, Str)>): seq<byte> {
    if vars == [] then []
    else
      var n := |vars| - 1;
      VarLines(vars[..n]) + (if n > 0 then [0x0A] else []) + (vars[n].0 + [0x3D] + vars[n].1)
  }

  /** Seven fields with tabs between them; `attached` is the digit 1 or 0. */
  function EntryLine(e: SessionEntry): seq<byte> {
    e.id + [0x09] + e.name + [0x09] + e.ptyPath + [0x09] + Print(e.shellPid) + [0x09] + Print(e.createdAt) + [0x09]
    + [if e.attached then 0x31 else 0x30] + [0x09] + Print(e.lastHeartbeat)
  }

  function EntryLines(entries: seq<SessionEntry>): seq<byte> {
    if entries == [] then []
    else
      var n := |entries| - 1;
      EntryLines(entries[..n]) + (if n > 0 then [0x0A] else []) + EntryLine(entries[n])
  }

  predicate Pair16(p: seq<byte>, first: u16, second: u16) {
    |p| == 4 && p[0] as int * 256 + p[1] == first && p[2] as int * 256 + p[3] == second
  }

  /** Two's complement. */
  predicate Signed32(p: seq<byte>, n: i32) {
    |p| == 4 && Number32(p[0], p[1], p[2], p[3]) == if n < 0 then n + 4294967296 else n
  }

  predicate WrittenAs(f: Frame, s: seq<byte>) {
    match f
    case Data(bytes) => Carries(s, 0x01, bytes)
    case Resize(cols, rows) => |s| >= 5 && Carries(s, 0x02, s[5..]) && Pair16(s[5..], cols, rows)
    case Exit(code) => |s| >= 5 && Carries(s, 0x03, s[5..]) && Signed32(s[5..], code)
    case Detached => Carries(s, 0x04, [])
    case Ping => Carries(s, 0x05, [])
    case Pong => Carries(s, 0x06, [])
    case Env(vars) => Carries(s, 0x07, VarLines(vars))
    case NewSession(name) => Carries(s, 0x10, name)
    case Attach(session) => Carries(s, 0x11, session)
    case ListSessions => Carries(s, 0x12, [])
    case KillSession(session) => Carries(s, 0x13, session)
    case KillServer => Carries(s, 0x14, [])
    case SessionCreated(id) => Carries(s, 0x20, id)
    case SessionInfo(sessions) => Carries(s, 0x21, EntryLines(sessions))
    case Ok => Carries(s, 0x22, [])
    case Error(message) => Carries(s, 0x23, message)
  }

  lemma JoinNone(sep: byte)
    ensures Join([], sep) == []
  {
  }

  lemma JoinOne(part: seq<byte>, sep: byte)
    ensures Join([part], sep) == part
  {
  }

  lemma {:induction false} JoinLast(parts: seq<seq<byte>>, last: seq<byte>, sep: byte)
    requires parts != []
    ensures Join(parts + [last], sep) == Join(parts, sep) + [sep] + last
    decreases |parts|
  {
    var all := parts + [last];
    hide Valid;
    if |parts| == 1 {
      assert all[1..] == [last];
    } else {
      assert all[1..] == parts[1..] + [last];
      JoinLast(parts[1..], last, sep);
    }
  }

  lemma {:induction false} VarLinesJoined(vars: seq<(Str, Str)>)
    ensures EnvText(vars) == VarLines(vars)
    decreases |vars|
  {
    hide Valid, Join;
    if vars == [] {
      assert FormatVars(vars) == [];
      JoinNone(LF);
    } else {
      var n := |vars| - 1;
      VarLinesJoined(vars[..n]);
      var lines, line := FormatVars(vars[..n]), FormatVar(vars[n]);
      assert FormatVars(vars) == lines + [line];
      if n == 0 {
        assert lines + [line] == [line];
        JoinOne(line, LF);
      } else {
        JoinLast(lines, line, LF);
      }
    }
  }

  lemma JoinUpTo(parts: seq<seq<byte>>, k: nat, sep: byte)
    requires 0 < k < |parts|
    ensures Join(parts[..k + 1], sep) == Join(parts[..k], sep) + [sep] + parts[k]
  {
    hide Join;
    TakeNext(parts, k);
    JoinLast(parts[..k], parts[k], sep);
  }

  lemma EntryLineJoined(e: SessionEntry)
    ensures FormatEntry(e) == EntryLine(e)
  {
    var f := Fields(e);
    assert Print(0) == [0x30] && Print(1) == [0x31];
    hide Valid, Print, Join;
    assert f[..1] == [f[0]] && f[..7] == f;
    JoinOne(f[0], TAB);
    JoinUpTo(f, 1, TAB);
    JoinUpTo(f, 2, TAB);
    JoinUpTo(f, 3, TAB);
    JoinUpTo(f, 4, TAB);
    JoinUpTo(f, 5, TAB);
    JoinUpTo(f, 6, TAB);
  }

  lemma {:induction false} EntryLinesJoined(entries: seq<SessionEntry>)
    ensures SessionText(entries) == EntryLines(entries)
    decreases |entries|
  {
    hide Valid, Join, FormatEntry, EntryLine;
    if entries == [] {
      assert FormatEntries(entries) == [];
      JoinNone(LF);
    } else {
      var n := |entries| - 1;
      EntryLinesJoined(entries[..n]);
      var lines, line := FormatEntries(entries[..n]), FormatEntry(entries[n]);
      assert FormatEntries(entries) == lines + [line];
      EntryLineJoined(entries[n]);
      if n == 0 {
        assert lines + [line] == [line];
        JoinOne(line, LF);
      } else {
        JoinLast(lines, line, LF);
      }
    }
  }

  lemma Length32(n: u32)
    ensures var s := BigEndian32(n); Number32(s[0], s[1], s[2], s[3]) == n
  {
    var p, q := n / 0x100, n / 0x1_0000;
    assert n == p * 0x100 + n % 0x100 && p == q * 0x100 + p % 0x100;
    assert q == q / 0x100 * 0x100 + q % 0x100 && q == p / 0x100 && q / 0x100 == n / 0x100_0000;
  }

  lemma FramedCarries(code: byte, payload: seq<byte>)
    ensures Carries(Framed(code, payload), code, payload)
  {
    Length32(|payload| % 0x1_0000_0000);
    hide BigEndian32;
  }

  /** Every frame, as it goes over the wire. */
  lemma WireFormat(f: Frame)
    ensures WrittenAs(f, Encoding(f))
  {
    hide Carries, EnvText, SessionText, VarLines, EntryLines, BigEndian32, Number32;
    FramedCarries(TypeCode(f), Payload(f));
    match f {
      case Env(vars) => VarLinesJoined(vars);
      case SessionInfo(sessions) => EntryLinesJoined(sessions);
      case Exit(code) => Length32(Unsigned(code));
      case _ =>
    }
  }

  // ----- What is read -----

  lemma {:induction false} JoinSplit(s: seq<byte>, sep: byte)
    ensures Join(Split(s, sep), sep) == s
    decreases |s|
  {
    var i := Find(s, sep);
    SplitOff(s, sep);
    hide Find, Split, Valid;
    if i == |s| {
      JoinOne(s, sep);
    } else {
      JoinSplit(s[i + 1..], sep);
      var rest := Split(s[i + 1..], sep);
      assert ([s[..i]] + rest)[1..] == rest;
      Around(s, i);
    }
  }

  /** A line that was ended by a line feed, without the carriage return that may come before that. */
  function Ended(line: seq<byte>): seq<byte> {
    if line != [] && line[|line| - 1] == 0x0D then line[..|line| - 1] else line
  }

  /** The lines of a text that is `pieces` with line feeds between: nothing after the last one is no line. */
  function LinesOf(pieces: seq<seq<byte>>): seq<seq<byte>>
    requires pieces != []
    decreases |pieces|
  {
    if |pieces| == 1 then (if pieces[0] == [] then [] else pieces)
    else [Ended(pieces[0])] + LinesOf(pieces[1..])
  }

  lemma EndedStripped(line: seq<byte>)
    ensures StripCr(line) == Ended(line)
  {
  }

  /** How any text falls into lines; every text is pieces with line feeds between (`JoinSplit`). */
  lemma {:induction false} LinesExactly(pieces: seq<seq<byte>>)
    requires pieces != [] && forall p :: p in pieces ==> 0x0A !in p
    ensures Lines(Join(pieces, 0x0A)) == LinesOf(pieces)
    decreases |pieces|
  {
    assert pieces[0] in pieces && forall p :: p in pieces[1..] ==> p in pieces;
    hide Valid;
    if |pieces| == 1 {
      FindUnique(pieces[0], LF, []);
    } else {
      hide Lines, StripCr, Ended;
      LinesExactly(pieces[1..]);
      LinesFirst(pieces[0], Join(pieces[1..], LF));
      EndedStripped(pieces[0]);
    }
  }

  /** The variables the lines give, in order: a key up to the first `=` and a value after it; other lines give none. */
  predicate VarsRead(lines: seq<seq<byte>>, vars: seq<(Str, Str)>)
    decreases |lines|
  {
    if lines == [] then vars == []
    else if 0x3D !in lines[0] then VarsRead(lines[1..], vars)
    else
      && vars != [] && 0x3D !in vars[0].0 && lines[0] == vars[0].0 + [0x3D] + vars[0].1
      && VarsRead(lines[1..], vars[1..])
  }

  lemma VarUnique(a: (Str, Str), b: (Str, Str))
    requires 0x3D !in a.0 && 0x3D !in b.0 && a.0 + [0x3D] + a.1 == b.0 + [0x3D] + b.1
    ensures a == b
  {
    hide Valid;
    FindUnique(a.0, EQUALS, a.1);
    FindUnique(b.0, EQUALS, b.1);
    var s := a.0 + [EQUALS] + a.1;
    assert s[..|a.0|] == a.0 && s[|a.0| + 1..] == a.1;
    assert s[..|b.0|] == b.0 && s[|b.0| + 1..] == b.1;
  }

  lemma {:induction false} VarsExactly(lines: seq<Str>, vars: seq<(Str, Str)>)
    ensures ParseVars(lines) == vars <==> VarsRead(lines, vars)
    decreases |lines|
  {
    hide Valid, ParseVar;
    if lines == [] {
    } else if 0x3D !in lines[0] {
      VarsExactly(lines[1..], vars);
    } else {
      var kv := ParseVar(lines[0]).value;
      var rest := ParseVars(lines[1..]);
      if vars != [] {
        VarsExactly(lines[1..], vars[1..]);
        assert [kv] + rest == vars <==> kv == vars[0] && rest == vars[1..];
        if VarsRead(lines, vars) {
          VarUnique(kv, vars[0]);
        }
      }
    }
  }

  /** A field that is a number within the limit, or anything else and counts as 0. */
  predicate NumberRead(s: seq<byte>, max: nat, n: nat) {
    (Numeral(s, n) && n <= max) || (n == 0 && forall m :: 0 <= m <= max ==> !Numeral(s, m))
  }

  /** An entry is read off a line of seven fields. */
  predicate EntryRead(line: seq<byte>, e: SessionEntry) {
    var fields := Split(line, 0x09);
    && |fields| == 7
    && e.id == fields[0] && e.name == fields[1] && e.ptyPath == fields[2]
    && NumberRead(fields[3], 4294967295, e.shellPid) && NumberRead(fields[4], 18446744073709551615, e.createdAt)
    && (e.attached <==> fields[5] == [0x31]) && NumberRead(fields[6], 18446744073709551615, e.lastHeartbeat)
  }

  /** The entries the lines give, in order; lines that do not have seven fields give none. */
  predicate EntriesRead(lines: seq<seq<byte>>, entries: seq<SessionEntry>)
    decreases |lines|
  {
    if lines == [] then entries == []
    else if |Split(lines[0], 0x09)| != 7 then EntriesRead(lines[1..], entries)
    else entries != [] && EntryRead(lines[0], entries[0]) && EntriesRead(lines[1..], entries[1..])
  }

  lemma NumberExactly(s: Str, max: nat, n: nat)
    ensures NumberOrZero(s, max) == n <==> NumberRead(s, max, n)
  {
    hide Parse, Numeral;
    forall m: nat ensures Parse(s, max) == Some(m) <==> Numeral(s, m) && m <= max {
      ParseExact(s, max, m);
    }
  }

  lemma EntryExactly(line: Str, e: SessionEntry)
    ensures ParseEntry(line) == Some(e) <==> EntryRead(line, e)
    ensures ParseEntry(line) == None <==> |Split(line, 0x09)| != 7
  {
    var fields := Split(line, TAB);
    assert Print(1) == [0x31];
    hide Valid, Split, NumberOrZero, NumberRead, Print;
    if |fields| == 7 {
      NumberExactly(fields[3], U32_MAX, e.shellPid);
      NumberExactly(fields[4], U64_MAX, e.createdAt);
      NumberExactly(fields[6], U64_MAX, e.lastHeartbeat);
    }
  }

  lemma EntryMissing(line: Str)
    requires |Split(line, 0x09)| != 7
    ensures ParseEntry(line) == None
  {
    hide Split;
  }

  lemma EntryPresent(line: Str)
    requires |Split(line, 0x09)| == 7
    ensures ParseEntry(line).Some?
  {
    hide Split;
  }

  lemma {:induction false} EntriesExactly(lines: seq<Str>, entries: seq<SessionEntry>)
    ensures ParseEntries(lines) == entries <==> EntriesRead(lines, entries)
    decreases |lines|
  {
    hide Valid, ParseEntry, EntryRead, Split;
    if lines == [] {
    } else if |Split(lines[0], 0x09)| != 7 {
      EntriesExactly(lines[1..], entries);
      EntryMissing(lines[0]);
    } else {
      EntryPresent(lines[0]);
      var e, rest := ParseEntry(lines[0]).value, ParseEntries(lines[1..]);
      if entries != [] {
        EntryExactly(lines[0], entries[0]);
        EntriesExactly(lines[1..], entries[1..]);
        assert [e] + rest == entries <==> e == entries[0] && rest == entries[1..];
      }
    }
  }

  /** What a payload of each type is read as. The types without a payload ignore theirs. */
  predicate ReadAs(code: byte, p: seq<byte>, f: Frame) {
    match f
    case Data(bytes) => code == 0x01 && p == bytes
    case Resize(cols, rows) => code == 0x02 && Pair16(p, cols, rows)
    case Exit(n) => code == 0x03 && Signed32(p, n)
    case Detached => code == 0x04
    case Ping => code == 0x05
    case Pong => code == 0x06
    case Env(vars) => code == 0x07 && Valid(p) && VarsRead(Lines(p), vars)
    case NewSession(name) => code == 0x10 && p == name
    case Attach(session) => code == 0x11 && p == session
    case ListSessions => code == 0x12
    case KillSession(session) => code == 0x13 && p == session
    case KillServer => code == 0x14
    case SessionCreated(id) => code == 0x20 && p == id
    case SessionInfo(sessions) => code == 0x21 && Valid(p) && EntriesRead(Lines(p), sessions)
    case Ok => code == 0x22
    case Error(message) => code == 0x23 && p == message
  }

  lemma Pair16Exactly(p: seq<byte>, cols: u16, rows: u16)
    requires |p| == 4
    ensures Resize(FromBigEndian16(p[..2]), FromBigEndian16(p[2..])) == Resize(cols, rows) <==> Pair16(p, cols, rows)
  {
  }

  lemma Signed32Exactly(p: seq<byte>, n: i32)
    requires |p| == 4
    ensures Signed(FromBigEndian32(p)) == n <==> Signed32(p, n)
  {
  }

  lemma NotFour(p: seq<byte>)
    requires |p| != 4
    ensures forall a, b :: !Pair16(p, a, b)
    ensures forall n :: !Signed32(p, n)
  {
  }

  lemma PayloadExactly(code: byte, p: seq<byte>, f: Frame)
    ensures DecodePayload(code, p) == Success(f) <==> ReadAs(code, p, f)
  {
    hide Valid, Pair16, Signed32, Signed, FromBigEndian16, FromBigEndian32, VarsRead, EntriesRead, Lines;
    match f {
      case Resize(cols, rows) =>
        if |p| == 4 {
          Pair16Exactly(p, cols, rows);
        } else {
          NotFour(p);
        }
      case Exit(n) =>
        if |p| == 4 {
          Signed32Exactly(p, n);
        } else {
          NotFour(p);
        }
      case Env(vars) =>
        if Valid(p) {
          VarsExactly(Lines(p), vars);
        }
      case SessionInfo(sessions) =>
        if Valid(p) {
          EntriesExactly(Lines(p), sessions);
        }
      case _ =>
    }
  }

  function Announced(s: seq<byte>): nat
    requires |s| >= 5
  {
    Number32(s[1], s[2], s[3], s[4])
  }

  /** A header has come, it announces no more than 1 MiB, and so many bytes have come. */
  predicate Whole(s: seq<byte>) {
    |s| >= 5 && Announced(s) <= 1048576 && |s| >= 5 + Announced(s)
  }

  /** Every input, exactly: when a frame is read off its front, and which one. */
  lemma ReadsExactly(s: seq<byte>, f: Frame, rest: seq<byte>)
    ensures DecodeOne(s) == Item(f, rest) <==>
      Whole(s) && rest == s[5 + Announced(s)..] && ReadAs(s[0], s[5..5 + Announced(s)], f)
    ensures DecodeOne(s) == NeedMore <==> |s| < 5 || (Announced(s) <= 1048576 && |s| < 5 + Announced(s))
  {
    hide DecodePayload, ReadAs;
    if Whole(s) {
      PayloadExactly(s[0], s[5..5 + Announced(s)], f);
    }
  }

  /** Why a payload is refused. */
  predicate BadPayload(code: byte, p: seq<byte>, e: DecodeError) {
    match e
    case TooLarge(_) => false
    case BadResize => code == 0x02 && |p| != 4
    case BadExit => code == 0x03 && |p| != 4
    case BadUtf8 => code in {0x07, 0x10, 0x11, 0x13, 0x20, 0x21, 0x23} && !Valid(p)
    case UnknownType(unknown) =>
      unknown == code && !(0x01 <= code <= 0x07) && !(0x10 <= code <= 0x14) && !(0x20 <= code <= 0x23)
  }

  lemma BadExactly(code: byte, p: seq<byte>, e: DecodeError)
    ensures DecodePayload(code, p) == Failure(e) <==> BadPayload(code, p, e)
  {
    hide Valid, EnvOfText, EntriesOfText, Signed, FromBigEndian16, FromBigEndian32;
  }

  /** And why an input is refused, with what is left of it: all of it if it announces too much, what follows it else. */
  lemma RefusesExactly(s: seq<byte>, e: DecodeError, rest: seq<byte>)
    ensures DecodeOne(s) == Failed(e, rest) <==>
      if |s| >= 5 && Announced(s) > 1048576 then e == TooLarge(Announced(s)) && rest == s
      else Whole(s) && rest == s[5 + Announced(s)..] && BadPayload(s[0], s[5..5 + Announced(s)], e)
  {
    hide DecodePayload, BadPayload;
    if Whole(s) {
      BadExactly(s[0], s[5..5 + Announced(s)], e);
    }
  }
}
