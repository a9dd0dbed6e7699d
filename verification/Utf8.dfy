/**
 Byte strings and the well-formedness of UTF-8 (section 4 of RFC 3629).
 A Rust `String` is modelled as a `Str`: a byte sequence that is valid UTF-8.
 */
module Utf8 {
  import opened Sequences

  type byte = x: int | 0 <= x < 256

  predicate Tail(b: byte) {
    0x80 <= b <= 0xBF
  }

  predicate ThreeByteLead(a: byte, b: byte) {
    || (a == 0xE0 && 0xA0 <= b <= 0xBF)
    || (0xE1 <= a <= 0xEC && Tail(b))
    || (a == 0xED && 0x80 <= b <= 0x9F)
    || (0xEE <= a <= 0xEF && Tail(b))
  }

  predicate FourByteLead(a: byte, b: byte) {
    || (a == 0xF0 && 0x90 <= b <= 0xBF)
    || (0xF1 <= a <= 0xF3 && Tail(b))
    || (a == 0xF4 && 0x80 <= b <= 0x8F)
  }

  /** Number of bytes of the well-formed character at the front of `s`, or 0 if there is none. */
  function CharLength(s: seq<byte>): (n: nat)
    ensures n <= |s| && n <= 4
    ensures forall i :: 0 < i < n ==> Tail(s[i])
    ensures n > 1 ==> s[0] >= 0x80
  {
    if |s| >= 1 && s[0] <= 0x7F then 1
    else if |s| >= 2 && 0xC2 <= s[0] <= 0xDF && Tail(s[1]) then 2
    else if |s| >= 3 && ThreeByteLead(s[0], s[1]) && Tail(s[2]) then 3
    else if |s| >= 4 && FourByteLead(s[0], s[1]) && Tail(s[2]) && Tail(s[3]) then 4
    else 0
  }

  /** `String::from_utf8` accepts exactly these byte sequences. */
  predicate Valid(s: seq<byte>)
    decreases |s|
  {
    s == [] || (CharLength(s) > 0 && Valid(s[CharLength(s)..]))
  }

  type Str = s: seq<byte> | Valid(s)

  predicate Ascii(s: seq<byte>) {
    forall i :: 0 <= i < |s| ==> s[i] < 0x80
  }

  lemma CharLengthPrefix(a: seq<byte>, b: seq<byte>)
    requires CharLength(a) > 0
    ensures CharLength(a + b) == CharLength(a)
  {
    forall i | 0 <= i < CharLength(a) ensures (a + b)[i] == a[i] {}
  }

  lemma CharLengthTake(s: seq<byte>)
    ensures CharLength(s[..CharLength(s)]) == CharLength(s)
  {
    var n := CharLength(s);
    forall i | 0 <= i < n ensures s[..n][i] == s[i] {}
  }

  lemma {:induction false} ValidConcat(a: seq<byte>, b: seq<byte>)
    requires Valid(a) && Valid(b)
    ensures Valid(a + b)
    decreases |a|
  {
    hide CharLength;
    if a == [] {
      assert a + b == b;
    } else {
      var n := CharLength(a);
      ValidConcat(a[n..], b);
      CharLengthPrefix(a, b);
      assert (a + b)[n..] == a[n..] + b;
    }
  }

  lemma ValidHead(s: seq<byte>)
    requires Valid(s) && s != []
    ensures CharLength(s) > 0 && Valid(s[CharLength(s)..]) && Valid([])
  {
    hide CharLength;
  }

  /** A prefix that holds the first character is valid if what it holds after it is. */
  lemma ValidTake(s: seq<byte>, i: nat)
    requires 0 < CharLength(s) <= i <= |s| && Valid(s[CharLength(s)..i])
    ensures Valid(s[..i])
  {
    hide CharLength;
    var n := CharLength(s);
    CharLengthTake(s);
    CharLengthPrefix(s[..n], s[n..i]);
    TakeDrop(s, n, i);
  }

  lemma ValidFront(s: seq<byte>, i: nat)
    requires Valid(s) && s != [] && CharLength(s) <= i <= |s|
    requires Valid(s[CharLength(s)..][..i - CharLength(s)])
    ensures Valid(s[..i])
  {
    ValidHead(s);
    hide CharLength, Valid;
    TakeDrop(s, CharLength(s), i);
    ValidTake(s, i);
  }

  /** An ASCII byte is no part of a longer character. */
  lemma AsciiOutside(s: seq<byte>, i: nat)
    requires CharLength(s) > 0 && i < |s| && s[i] < 0x80
    ensures i == 0 ==> CharLength(s) == 1
    ensures i > 0 ==> CharLength(s) <= i
  {
    hide CharLength;
  }

  lemma {:induction false} ValidFrom(s: seq<byte>, i: nat)
    requires Valid(s) && i < |s| && s[i] < 0x80
    ensures Valid(s[i..])
    decreases |s|
  {
    hide CharLength, Valid;
    if i == 0 {
      assert s[0..] == s;
    } else {
      ValidHead(s);
      AsciiOutside(s, i);
      var n := CharLength(s);
      ValidFrom(s[n..], i - n);
      DropDrop(s, n, i);
    }
  }

  lemma {:induction false} ValidUpTo(s: seq<byte>, i: nat)
    requires Valid(s) && i < |s| && s[i] < 0x80
    ensures Valid(s[..i])
    decreases |s|
  {
    hide CharLength, Valid;
    ValidHead(s);
    AsciiOutside(s, i);
    if i == 0 {
      assert s[..0] == [];
    } else {
      ValidUpTo(s[CharLength(s)..], i - CharLength(s));
      ValidFront(s, i);
    }
  }

  /** Cutting around an ASCII byte leaves valid text on both sides. */
  lemma ValidSplit(s: seq<byte>, i: nat)
    requires Valid(s) && i < |s| && s[i] < 0x80
    ensures Valid(s[..i]) && Valid(s[i..]) && Valid(s[i + 1..])
  {
    ValidUpTo(s, i);
    ValidFrom(s, i);
    ValidHead(s[i..]);
    AsciiOutside(s[i..], 0);
    hide CharLength, Valid;
    DropDrop(s, i, i + 1);
  }

  lemma {:induction false} AsciiValid(s: seq<byte>)
    requires Ascii(s)
    ensures Valid(s)
    decreases |s|
  {
    if s == [] {
    } else {
      AsciiValid(s[1..]);
      assert CharLength(s) == 1;
    }
  }
}
