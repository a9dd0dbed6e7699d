/**
 When decoding gives back the frame that was encoded: the exact condition, for every frame.
 The length limit and two text conditions are all there is to it.
 */
module RoundTrip {
  import opened Wrappers
  import opened Utf8
  import opened Text
  import opened Decimal
  import opened Protocol

  predicate EndsInCr(s: seq<byte>) {
    s != [] && s[|s| - 1] == CR
  }

  predicate NoDelimiters(vars: seq<(Str, Str)>) {
    forall k :: 0 <= k < |vars| ==> EQUALS !in vars[k].0 && LF !in vars[k].0 && LF !in vars[k].1
  }

  /** The environments that survive the `k=v` line format. */
  predicate EnvClean(vars: seq<(Str, Str)>) {
    && NoDelimiters(vars)
    && forall k :: 0 <= k < |vars| - 1 ==> !EndsInCr(vars[k].1)
  }

  predicate EntryClean(e: SessionEntry) {
    && TAB !in e.id && TAB !in e.name && TAB !in e.ptyPath
    && LF !in e.id && LF !in e.name && LF !in e.ptyPath
  }

  predicate Faithful(f: Frame) {
    match f
    case Env(vars) => EnvClean(vars)
    case SessionInfo(sessions) => forall e :: e in sessions ==> EntryClean(e)
    case _ => true
  }

  /** The frames the wire carries unchanged. */
  predicate Deliverable(f: Frame) {
    |Payload(f)| <= MAX_FRAME_SIZE && Faithful(f)
  }

  // ----- Integers -----

  lemma BigEndian32RoundTrip(n: u32)
    ensures FromBigEndian32(BigEndian32(n)) == n
  {
    var p, q, r := n / 0x100, n / 0x1_0000, n / 0x100_0000;
    assert n == p * 0x100 + n % 0x100;
    assert q == p / 0x100 && p == q * 0x100 + p % 0x100;
    assert r == q / 0x100 && q == r * 0x100 + q % 0x100;
  }

  // ----- Environment -----

  lemma ParseFormatVar(kv: (Str, Str))
    requires EQUALS !in kv.0
    ensures ParseVar(FormatVar(kv)) == Some(kv)
  {
    FindUnique(kv.0, EQUALS, kv.1);
    var line := FormatVar(kv);
    assert line[..|kv.0|] == kv.0 && line[|kv.0| + 1..] == kv.1;
  }

  lemma {:induction false} ParseFormatVars(vars: seq<(Str, Str)>)
    requires forall k :: 0 <= k < |vars| ==> EQUALS !in vars[k].0
    ensures ParseVars(FormatVars(vars)) == vars
    decreases |vars|
  {
    if vars == [] {
    } else {
      ParseFormatVar(vars[0]);
      ParseFormatVars(vars[1..]);
      hide ParseVar, FormatVar, Valid;
      assert FormatVars(vars)[1..] == FormatVars(vars[1..]);
    }
  }

  /** What comes back for delimiter-free variables: every value but the last loses one trailing CR. */
  function CrTrimmed(vars: seq<(Str, Str)>): (r: seq<(Str, Str)>)
    ensures |r| == |vars|
    ensures forall k :: 0 <= k < |vars| ==>
      r[k] == (vars[k].0, if k == |vars| - 1 then vars[k].1 else StripCr(vars[k].1))
  {
    seq(|vars|, k requires 0 <= k < |vars| =>
      (vars[k].0, if k == |vars| - 1 then vars[k].1 else StripCr(vars[k].1)))
  }

  lemma StripCrOfVar(kv: (Str, Str))
    ensures StripCr(FormatVar(kv)) == FormatVar((kv.0, StripCr(kv.1)))
  {
    var line := FormatVar(kv);
    if EndsInCr(kv.1) {
      assert line[..|line| - 1] == kv.0 + [EQUALS] + kv.1[..|kv.1| - 1];
    }
  }

  lemma EnvTextReadsBack(vars: seq<(Str, Str)>)
    requires NoDelimiters(vars)
    ensures EnvOfText(EnvText(vars)) == CrTrimmed(vars)
  {
    var lines := FormatVars(vars);
    LinesJoin(lines);
    forall k | 0 <= k < |vars| ensures Stripped(lines)[k] == FormatVars(CrTrimmed(vars))[k] {
      StripCrOfVar(vars[k]);
    }
    assert Stripped(lines) == FormatVars(CrTrimmed(vars));
    ParseFormatVars(CrTrimmed(vars));
  }

  /** No line feed gets through `lines`, no `=` gets into a key. */
  lemma DecodedVarsLackDelimiters(text: Str)
    ensures NoDelimiters(EnvOfText(text))
  {
    var vars := EnvOfText(text);
    forall k | 0 <= k < |vars| ensures LF !in vars[k].0 && LF !in vars[k].1 {
      var line := FormatVar(vars[k]);
      assert line in Lines(text);
      assert forall b :: b in vars[k].0 || b in vars[k].1 ==> b in line;
    }
  }

  /** The environment round trip, exactly. */
  lemma EnvRoundTrip(vars: seq<(Str, Str)>)
    ensures EnvOfText(EnvText(vars)) == vars <==> EnvClean(vars)
  {
    DecodedVarsLackDelimiters(EnvText(vars));
    if NoDelimiters(vars) {
      EnvTextReadsBack(vars);
      var back := CrTrimmed(vars);
      if EnvClean(vars) {
        assert forall k :: 0 <= k < |vars| ==> back[k] == vars[k];
      } else {
        var k :| 0 <= k < |vars| - 1 && EndsInCr(vars[k].1);
        assert |back[k].1| < |vars[k].1|;
      }
    }
  }

  /** A value that ends in a carriage return loses it, unless it is the last. */
  lemma CarriageReturnLost() returns (vars: seq<(Str, Str)>)
    ensures |vars| == 2 && vars[0].1 == [49, CR] && vars[1].1 == [50, CR]
    ensures var back := EnvOfText(EnvText(vars));
            |back| == 2 && back[0] == (vars[0].0, [49]) && back[1] == vars[1]
  {
    var one: seq<byte>, two: seq<byte>, first: seq<byte>, second: seq<byte> := [49, CR], [50, CR], [65], [66];
    AsciiValid(one);
    AsciiValid(two);
    AsciiValid(first);
    AsciiValid(second);
    vars := [(first, one), (second, two)];
    EnvTextReadsBack(vars);
    assert StripCr(one) == [49];
  }

  // ----- Session listing -----

  lemma ZeroIsNotOne()
    ensures ZERO_TEXT != ONE_TEXT
  {
    ParsePrint(0, 1);
    ParsePrint(1, 1);
  }

  lemma {:induction false} JoinEnds(parts: seq<seq<byte>>, sep: byte)
    requires |parts| > 0 && parts[|parts| - 1] != []
    ensures Join(parts, sep) != []
    ensures Join(parts, sep)[|Join(parts, sep)| - 1] == parts[|parts| - 1][|parts[|parts| - 1]| - 1]
    decreases |parts|
  {
    if |parts| <= 1 {
    } else {
      JoinEnds(parts[1..], sep);
    }
  }

  lemma FieldsClean(e: SessionEntry)
    requires EntryClean(e)
    ensures forall f :: f in Fields(e) ==> TAB !in f && LF !in f
  {
    hide Valid, Print;
  }

  lemma ParseFormatEntry(e: SessionEntry)
    requires EntryClean(e)
    ensures LF !in FormatEntry(e) && FormatEntry(e) != [] && !EndsInCr(FormatEntry(e))
    ensures ParseEntry(FormatEntry(e)) == Some(e)
  {
    var fields := Fields(e);
    FieldsClean(e);
    hide Valid, Split, Join, Print, Find;
    SplitJoin(fields, TAB);
    JoinLacks(fields, TAB, LF);
    JoinEnds(fields, TAB);
    ParsePrint(e.shellPid, U32_MAX);
    ParsePrint(e.createdAt, U64_MAX);
    ParsePrint(e.lastHeartbeat, U64_MAX);
    ZeroIsNotOne();
  }

  lemma FormatCons(entries: seq<SessionEntry>)
    requires entries != []
    ensures FormatEntries(entries) == [FormatEntry(entries[0])] + FormatEntries(entries[1..])
  {
    hide FormatEntry;
  }

  lemma ParseCons(line: Str, rest: seq<Str>, e: SessionEntry)
    requires ParseEntry(line) == Some(e)
    ensures ParseEntries([line] + rest) == [e] + ParseEntries(rest)
  {
    hide ParseEntry;
    assert ([line] + rest)[1..] == rest;
  }

  lemma {:induction false} ParseFormatEntries(entries: seq<SessionEntry>)
    requires forall e :: e in entries ==> EntryClean(e)
    ensures ParseEntries(FormatEntries(entries)) == entries
    decreases |entries|
  {
    assert ParseEntries([]) == [] && FormatEntries([]) == [];
    hide ParseEntry, FormatEntry, EntryClean, ParseEntries, FormatEntries, Valid;
    if entries == [] {
    } else {
      assert entries[0] in entries && forall e :: e in entries[1..] ==> e in entries;
      ParseFormatEntry(entries[0]);
      ParseFormatEntries(entries[1..]);
      FormatCons(entries);
      ParseCons(FormatEntry(entries[0]), FormatEntries(entries[1..]), entries[0]);
      assert entries == [entries[0]] + entries[1..];
    }
  }

  /** The session listing round trip, exactly. A carriage return is harmless: every line ends in a digit. */
  lemma SessionInfoRoundTrip(entries: seq<SessionEntry>)
    ensures EntriesOfText(SessionText(entries)) == entries <==> forall e :: e in entries ==> EntryClean(e)
  {
    if forall e :: e in entries ==> EntryClean(e) {
      var lines := FormatEntries(entries);
      forall k | 0 <= k < |lines| ensures LF !in lines[k] && lines[k] != [] && StripCr(lines[k]) == lines[k] {
        assert entries[k] in entries;
        ParseFormatEntry(entries[k]);
      }
      LinesJoin(lines);
      assert Stripped(lines) == lines;
      ParseFormatEntries(entries);
    }
  }

  // ----- Frames -----

  lemma ResizeRoundTrip(cols: u16, rows: u16)
    ensures DecodePayload(0x02, Payload(Resize(cols, rows))) == Success(Resize(cols, rows))
  {
    hide EnvOfText, EntriesOfText, Valid;
    var p := Payload(Resize(cols, rows));
    assert p[..2] == BigEndian16(cols) && p[2..] == BigEndian16(rows);
  }

  lemma ExitRoundTrip(code: i32)
    ensures DecodePayload(0x03, Payload(Exit(code))) == Success(Exit(code))
  {
    hide EnvOfText, EntriesOfText, Valid;
    BigEndian32RoundTrip(Unsigned(code));
  }

  /** What an encoded frame says when it is read again. Only the two text tables can come back changed. */
  function Reread(f: Frame): Frame {
    match f
    case Env(vars) => Env(EnvOfText(EnvText(vars)))
    case SessionInfo(sessions) => SessionInfo(EntriesOfText(SessionText(sessions)))
    case _ => f
  }

  lemma PayloadRereads(f: Frame)
    ensures DecodePayload(TypeCode(f), Payload(f)) == Success(Reread(f))
  {
    hide EnvOfText, EnvText, EntriesOfText, SessionText, Valid, BigEndian16, BigEndian32;
    match f {
      case Resize(cols, rows) => ResizeRoundTrip(cols, rows);
      case Exit(code) => ExitRoundTrip(code);
      case _ =>
    }
  }

  lemma RereadFaithful(f: Frame)
    ensures Reread(f) == f <==> Faithful(f)
  {
    hide EnvOfText, EnvText, EntriesOfText, SessionText, EnvClean, EntryClean;
    match f {
      case Env(vars) => EnvRoundTrip(vars);
      case SessionInfo(sessions) => SessionInfoRoundTrip(sessions);
      case _ =>
    }
  }

  /** The decoder's view of an encoded frame with anything behind it. */
  lemma DecodeEncoding(f: Frame, rest: seq<byte>)
    ensures
      var s := Encoding(f) + rest;
      var len := |Payload(f)| % 0x1_0000_0000;
      && |s| >= HEADER_LEN + len && s[0] == TypeCode(f) && FromBigEndian32(s[1..5]) == len
      && s[HEADER_LEN..HEADER_LEN + len] == Payload(f)[..len]
      && s[HEADER_LEN + len..] == Payload(f)[len..] + rest
  {
    hide Payload, TypeCode;
    var len := |Payload(f)| % 0x1_0000_0000;
    BigEndian32RoundTrip(len);
    var s := Encoding(f) + rest;
    assert s == [TypeCode(f)] + BigEndian32(len) + (Payload(f) + rest);
    assert s[1..5] == BigEndian32(len);
    assert s[HEADER_LEN..] == Payload(f) + rest;
  }

  /** The limit the decoder sets, and the encoder does not check. */
  predicate Sendable(f: Frame) {
    |Payload(f)| <= MAX_FRAME_SIZE
  }

  /** A frame within the limit is taken off the front of the buffer whole, as it reads. */
  lemma SendableDecodes(f: Frame, rest: seq<byte>)
    requires Sendable(f)
    ensures DecodeOne(Encoding(f) + rest) == Item(Reread(f), rest)
  {
    hide DecodePayload, Payload, Encoding, TypeCode, Reread, FromBigEndian32;
    DecodeEncoding(f, rest);
    PayloadRereads(f);
    assert Payload(f)[..|Payload(f)|] == Payload(f) && Payload(f)[|Payload(f)|..] + rest == rest;
  }

  /** A deliverable frame at the front of the buffer is taken off whole and unchanged. */
  lemma DeliverableDecodes(f: Frame, rest: seq<byte>)
    requires Deliverable(f)
    ensures DecodeOne(Encoding(f) + rest) == Item(f, rest)
  {
    hide DecodeOne, Payload, Encoding, Reread, Faithful;
    SendableDecodes(f, rest);
    RereadFaithful(f);
  }

  /** What it takes for a frame to be found at the front of a buffer. */
  lemma ItemTaken(s: seq<byte>, f: Frame, rest: seq<byte>)
    requires DecodeOne(s) == Item(f, rest)
    ensures
      |s| >= HEADER_LEN &&
      var len := FromBigEndian32(s[1..5]);
      && len <= MAX_FRAME_SIZE && |s| >= HEADER_LEN + len && rest == s[HEADER_LEN + len..]
      && DecodePayload(s[0], s[HEADER_LEN..HEADER_LEN + len]) == Success(f)
  {
    hide DecodePayload, FromBigEndian32;
  }

  /** Nothing is left over only if the header tells the whole payload length. */
  lemma WholePayload(f: Frame, len: nat)
    requires len == |Payload(f)| % 0x1_0000_0000
    requires DecodeOne(Encoding(f) + []) == Item(f, [])
    ensures len == |Payload(f)| <= MAX_FRAME_SIZE
    ensures DecodePayload(TypeCode(f), Payload(f)) == Success(f)
  {
    hide DecodeOne, DecodePayload, Payload, Encoding, TypeCode, FromBigEndian32;
    DecodeEncoding(f, []);
    ItemTaken(Encoding(f) + [], f, []);
    assert |Payload(f)[len..] + []| == 0;
    assert Payload(f)[..len] == Payload(f);
  }

  /** The frame round trip, exactly: no frame outside `Deliverable` comes back, whatever its size. */
  lemma FrameRoundTrip(f: Frame)
    ensures DecodeOne(Encoding(f)) == Item(f, []) <==> Deliverable(f)
  {
    hide DecodeOne, DecodePayload, Payload, Encoding, TypeCode, Faithful, Reread;
    assert Encoding(f) + [] == Encoding(f);
    if Deliverable(f) {
      DeliverableDecodes(f, []);
    } else if DecodeOne(Encoding(f)) == Item(f, []) {
      WholePayload(f, |Payload(f)| % 0x1_0000_0000);
      PayloadRereads(f);
      RereadFaithful(f);
    }
  }

  // ----- Sizes of what is decoded -----

  /** Bytes of the lines, each with its line end. */
  function Weight(lines: seq<seq<byte>>): nat {
    if lines == [] then 0 else |lines[0]| + 1 + Weight(lines[1..])
  }

  lemma {:induction false} LinesWeight(s: seq<byte>)
    ensures Weight(Lines(s)) <= |s| + 1
    decreases |s|
  {
    if s == [] {
    } else {
      var i := Find(s, LF);
      if i == |s| {
        assert Lines(s) == [s] && Weight([s]) == |s| + 1;
      } else {
        LinesWeight(s[i + 1..]);
        var first, rest := StripCr(s[..i]), Lines(s[i + 1..]);
        assert Lines(s) == [first] + rest;
        hide Lines, StripCr, Find, Valid;
        assert ([first] + rest)[1..] == rest;
      }
    }
  }

  lemma {:induction false} JoinWeight(parts: seq<seq<byte>>, sep: byte)
    ensures |Join(parts, sep)| <= Weight(parts)
    decreases |parts|
  {
    if |parts| <= 1 {
    } else {
      JoinWeight(parts[1..], sep);
    }
  }

  lemma {:induction false} WeightBound(parts: seq<seq<byte>>, most: nat)
    requires forall p :: p in parts ==> |p| <= most
    ensures Weight(parts) <= |parts| * (most + 1)
    decreases |parts|
  {
    if parts == [] {
    } else {
      WeightBound(parts[1..], most);
      assert |parts| * (most + 1) == (most + 1) + |parts[1..]| * (most + 1);
    }
  }

  lemma {:induction false} VarsWeight(lines: seq<Str>)
    ensures Weight(FormatVars(ParseVars(lines))) <= Weight(lines)
    decreases |lines|
  {
    if lines == [] {
    } else {
      VarsWeight(lines[1..]);
      var kv := ParseVar(lines[0]);
      if kv.Some? {
        assert FormatVars(ParseVars(lines))[1..] == FormatVars(ParseVars(lines[1..]));
      }
    }
  }

  lemma {:induction false} SplitSizes(s: seq<byte>, sep: byte)
    ensures forall p :: p in Split(s, sep) ==> |p| <= |s|
    decreases |s|
  {
    hide Split, Find, Valid;
    SplitOff(s, sep);
    var i := Find(s, sep);
    if i == |s| {
    } else {
      SplitSizes(s[i + 1..], sep);
    }
  }

  lemma TextSizes(line: Str)
    ensures ParseEntry(line).Some? ==>
      var e := ParseEntry(line).value;
      |e.id| <= |line| && |e.name| <= |line| && |e.ptyPath| <= |line|
  {
    hide Split, Valid, Parse;
    SplitSizes(line, TAB);
    var parts := Split(line, TAB);
    if |parts| == 7 {
      assert parts[0] in parts && parts[1] in parts && parts[2] in parts;
    }
  }

  lemma FieldSizes(e: SessionEntry, most: nat)
    requires |e.id| <= most && |e.name| <= most && |e.ptyPath| <= most
    ensures forall f :: f in Fields(e) ==> |f| <= most + 20
  {
    hide Print, Valid;
    PrintWidths(e.shellPid);
    PrintWidths(e.createdAt);
    PrintWidths(e.lastHeartbeat);
    PrintWidths(0);
    PrintWidths(1);
  }

  lemma EntrySize(line: Str)
    ensures ParseEntry(line).Some? ==> |FormatEntry(ParseEntry(line).value)| + 1 <= 150 * (|line| + 1)
  {
    if ParseEntry(line).Some? {
      var e := ParseEntry(line).value;
      TextSizes(line);
      FieldSizes(e, |line|);
      hide ParseEntry, Fields, Valid, Join, Weight;
      JoinWeight(Fields(e), TAB);
      WeightBound(Fields(e), |line| + 20);
    }
  }

  lemma WeightCons(line: seq<byte>, rest: seq<seq<byte>>)
    ensures Weight([line] + rest) == |line| + 1 + Weight(rest)
  {
    assert ([line] + rest)[1..] == rest;
  }

  lemma {:induction false} EntriesWeight(lines: seq<Str>)
    ensures Weight(FormatEntries(ParseEntries(lines))) <= 150 * Weight(lines)
    decreases |lines|
  {
    if lines == [] {
    } else {
      hide ParseEntry, FormatEntry, FormatEntries;
      EntriesWeight(lines[1..]);
      EntrySize(lines[0]);
      if ParseEntry(lines[0]).Some? {
        FormatCons(ParseEntries(lines));
        WeightCons(FormatEntry(ParseEntries(lines)[0]), FormatEntries(ParseEntries(lines[1..])));
      }
    }
  }

  /** What a decoded table was read from. */
  lemma DecodedTable(code: byte, payload: seq<byte>, f: Frame)
    requires DecodePayload(code, payload) == Success(f)
    ensures f.Env? ==> Valid(payload) && f.vars == EnvOfText(payload)
    ensures f.SessionInfo? ==> Valid(payload) && f.sessions == EntriesOfText(payload)
    ensures !f.Env? && !f.SessionInfo? ==> |Payload(f)| <= |payload| + 4
  {
    hide EnvOfText, EntriesOfText, Valid, EnvText, SessionText;
    hide BigEndian16, BigEndian32, FromBigEndian16, FromBigEndian32;
  }

  /** What fits the decoder's limit decodes to a frame whose own payload is far below 4 GiB. */
  lemma DecodedSize(code: byte, payload: seq<byte>, f: Frame)
    requires |payload| <= MAX_FRAME_SIZE && DecodePayload(code, payload) == Success(f)
    ensures |Payload(f)| < 0x1000_0000
  {
    hide DecodePayload, Lines, ParseVars, ParseEntries, FormatVars, FormatEntries, Join, Weight, Valid;
    DecodedTable(code, payload, f);
    LinesWeight(payload);
    if f.Env? {
      VarsWeight(Lines(payload));
      JoinWeight(FormatVars(f.vars), LF);
    } else if f.SessionInfo? {
      EntriesWeight(Lines(payload));
      JoinWeight(FormatEntries(f.sessions), LF);
    }
  }
}
