/**
 The `str` operations the wire formats are built from: `find`, `rfind`, `split`, `join`, `lines`.
 */
module Text {
  import opened Utf8

  const TAB: byte := 9
  const LF: byte := 10
  const CR: byte := 13
  const EQUALS: byte := 61

  /** Index of the first `b` in `s`, or `|s|` when there is none. */
  function Find(s: seq<byte>, b: byte): (i: nat)
    ensures i <= |s| && b !in s[..i]
    ensures i < |s| ==> s[i] == b
    ensures i == |s| <==> b !in s
    decreases |s|
  {
    if s == [] || s[0] == b then 0 else 1 + Find(s[1..], b)
  }

  /** One more than the index of the last `b` in `s`, or 0 when there is none. */
  function FindLast(s: seq<byte>, b: byte): (i: nat)
    ensures i <= |s| && b !in s[i..]
    ensures i > 0 ==> s[i - 1] == b
    ensures i == 0 <==> b !in s
    decreases |s|
  {
    if s == [] || s[|s| - 1] == b then |s| else FindLast(s[..|s| - 1], b)
  }

  lemma FindUnique(a: seq<byte>, b: byte, c: seq<byte>)
    requires b !in a
    ensures Find(a + [b] + c, b) == |a|
    ensures Find(a, b) == |a|
  {
    assert (a + [b] + c)[|a|] == b;
  }

  lemma FindLastUnique(a: seq<byte>, b: byte, c: seq<byte>)
    requires b !in c
    ensures FindLast(a + [b] + c, b) == |a| + 1
  {
    var s := a + [b] + c;
    assert s[|a|] == b;
  }

  /** `s.split(sep)`: always at least one piece. */
  function Split(s: seq<byte>, sep: byte): (parts: seq<seq<byte>>)
    ensures |parts| > 0
    ensures forall p :: p in parts ==> sep !in p
    ensures forall p, b :: p in parts && b !in s ==> b !in p
    ensures Valid(s) && sep < 0x80 ==> forall p :: p in parts ==> Valid(p)
    decreases |s|
  {
    var i := Find(s, sep);
    if i == |s| then [s]
    else
      if Valid(s) && sep < 0x80 then
        ValidSplit(s, i);
        [s[..i]] + Split(s[i + 1..], sep)
      else
        [s[..i]] + Split(s[i + 1..], sep)
  }

  /** `parts.join(sep)` for a one-byte separator. */
  function Join(parts: seq<seq<byte>>, sep: byte): (s: seq<byte>)
    ensures (forall p :: p in parts ==> Valid(p)) && sep < 0x80 ==> Valid(s)
  {
    if parts == [] then []
    else if |parts| == 1 then parts[0]
    else
      var rest := Join(parts[1..], sep);
      assert (forall p :: p in parts ==> Valid(p)) && sep < 0x80 ==> Valid(parts[0] + [sep] + rest) by {
        if (forall p :: p in parts ==> Valid(p)) && sep < 0x80 {
          AsciiValid([sep]);
          ValidConcat(parts[0], [sep]);
          ValidConcat(parts[0] + [sep], rest);
        }
      }
      parts[0] + [sep] + rest
  }

  lemma SplitOff(s: seq<byte>, sep: byte)
    ensures var i := Find(s, sep);
            Split(s, sep) == if i == |s| then [s] else [s[..i]] + Split(s[i + 1..], sep)
  {
    hide Find, Valid;
  }

  lemma SplitFirst(first: seq<byte>, sep: byte, rest: seq<byte>)
    requires sep !in first
    ensures Split(first + [sep] + rest, sep) == [first] + Split(rest, sep)
  {
    var s := first + [sep] + rest;
    FindUnique(first, sep, rest);
    SplitOff(s, sep);
    hide Find, Split;
    assert s[..|first|] == first && s[|first| + 1..] == rest;
  }

  lemma {:induction false} SplitJoin(parts: seq<seq<byte>>, sep: byte)
    requires |parts| > 0
    requires forall p :: p in parts ==> sep !in p
    ensures Split(Join(parts, sep), sep) == parts
    decreases |parts|
  {
    hide Split, Find, Valid;
    assert parts[0] in parts;
    if |parts| == 1 {
      SplitOff(parts[0], sep);
      assert parts == [parts[0]];
    } else {
      assert forall p :: p in parts[1..] ==> p in parts;
      SplitJoin(parts[1..], sep);
      SplitFirst(parts[0], sep, Join(parts[1..], sep));
    }
  }

  lemma {:induction false} JoinLacks(parts: seq<seq<byte>>, sep: byte, b: byte)
    requires b != sep
    ensures b !in Join(parts, sep) <==> forall p :: p in parts ==> b !in p
    decreases |parts|
  {
    if |parts| <= 1 {
    } else {
      JoinLacks(parts[1..], sep, b);
      assert forall p :: p in parts <==> p == parts[0] || p in parts[1..];
    }
  }

  lemma TakeValid(s: seq<byte>, i: nat)
    requires i < |s| && s[i] < 0x80
    ensures Valid(s) ==> Valid(s[..i])
  {
    if Valid(s) {
      ValidSplit(s, i);
      hide Valid;
    }
  }

  function StripCr(line: seq<byte>): (r: seq<byte>)
    ensures Valid(line) ==> Valid(r)
    ensures r == line || r + [CR] == line
  {
    if line != [] && line[|line| - 1] == CR then
      TakeValid(line, |line| - 1);
      line[..|line| - 1]
    else line
  }

  /** `s.lines()`: a line feed ends a line and takes one carriage return before it along. */
  function Lines(s: seq<byte>): (lines: seq<seq<byte>>)
    ensures forall p :: p in lines ==> LF !in p
    ensures Valid(s) ==> forall p :: p in lines ==> Valid(p)
    decreases |s|
  {
    if s == [] then []
    else
      var i := Find(s, LF);
      if i == |s| then [s]
      else
        if Valid(s) then
          ValidSplit(s, i);
          [StripCr(s[..i])] + Lines(s[i + 1..])
        else
          [StripCr(s[..i])] + Lines(s[i + 1..])
  }

  /** What `lines` gives back for lines joined by line feeds. */
  function Stripped(lines: seq<seq<byte>>): (r: seq<seq<byte>>)
    ensures |r| == |lines|
    ensures forall k :: 0 <= k < |lines| ==> r[k] == if k == |lines| - 1 then lines[k] else StripCr(lines[k])
  {
    seq(|lines|, k requires 0 <= k < |lines| => if k == |lines| - 1 then lines[k] else StripCr(lines[k]))
  }

  lemma LinesFirst(first: seq<byte>, rest: seq<byte>)
    requires LF !in first
    ensures Lines(first + [LF] + rest) == [StripCr(first)] + Lines(rest)
  {
    FindUnique(first, LF, rest);
    hide Find, StripCr, Valid;
    var s := first + [LF] + rest;
    assert s[..|first|] == first && s[|first| + 1..] == rest;
  }

  lemma StrippedFirst(lines: seq<seq<byte>>)
    requires |lines| > 1
    ensures Stripped(lines) == [StripCr(lines[0])] + Stripped(lines[1..])
  {
    hide StripCr;
  }

  lemma LinesOfOne(line: seq<byte>)
    requires LF !in line && line != []
    ensures Lines(line) == [line]
  {
    FindUnique(line, LF, []);
  }

  lemma {:induction false} LinesJoin(lines: seq<seq<byte>>)
    requires forall p :: p in lines ==> LF !in p && p != []
    ensures Lines(Join(lines, LF)) == Stripped(lines)
    decreases |lines|
  {
    if |lines| > 1 {
      LinesJoin(lines[1..]);
      assert lines[0] in lines;
      LinesFirst(lines[0], Join(lines[1..], LF));
      StrippedFirst(lines);
      hide Lines, Stripped, StripCr, Valid;
    } else if |lines| == 1 {
      assert lines[0] in lines;
      LinesOfOne(lines[0]);
      assert Stripped(lines) == lines;
    }
  }
}
