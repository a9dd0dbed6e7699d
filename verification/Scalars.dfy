/** What `Utf8.Valid` stands for: the texts it accepts are the encodings of sequences of Unicode scalar values. */
module Scalars {
  import opened Sequences
  import opened Utf8

  /** A code point that is not a surrogate. */
  predicate Scalar(c: nat) {
    c <= 0x10FFFF && !(0xD800 <= c <= 0xDFFF)
  }

  /** The encoding table of section 3 of RFC 3629: six bits to each byte after the first. */
  function Encode(c: nat): (s: seq<byte>)
    requires Scalar(c)
    ensures 1 <= |s| <= 4
  {
    if c <= 0x7F then [c]
    else if c <= 0x7FF then [0xC0 + c / 64, 0x80 + c % 64]
    else if c <= 0xFFFF then [0xE0 + c / 64 / 64, 0x80 + c / 64 % 64, 0x80 + c % 64]
    else [0xF0 + c / 64 / 64 / 64, 0x80 + c / 64 / 64 % 64, 0x80 + c / 64 % 64, 0x80 + c % 64]
  }

  predicate Scalars(cs: seq<nat>) {
    forall c :: c in cs ==> Scalar(c)
  }

  function EncodeAll(cs: seq<nat>): seq<byte>
    requires Scalars(cs)
  {
    if cs == [] then []
    else
      assert cs[0] in cs && forall c :: c in cs[1..] ==> c in cs;
      Encode(cs[0]) + EncodeAll(cs[1..])
  }

  lemma EncodedLength(c: nat)
    requires Scalar(c)
    ensures CharLength(Encode(c)) == |Encode(c)|
  {
    if 0x7F < c <= 0xFFFF {
      assert c / 64 == c / 64 / 64 * 64 + c / 64 % 64;
    } else if c > 0xFFFF {
      var d := c / 64;
      assert d / 64 == d / 64 / 64 * 64 + d / 64 % 64;
    }
  }

  /** The character at the front of a text, from its bytes. */
  function Front(s: seq<byte>): (c: nat)
    requires CharLength(s) > 0
  {
    match CharLength(s)
    case 1 => s[0]
    case 2 => (s[0] as int - 0xC0) * 64 + (s[1] - 0x80)
    case 3 => ((s[0] as int - 0xE0) * 64 + (s[1] - 0x80)) * 64 + (s[2] - 0x80)
    case _ => (((s[0] as int - 0xF0) * 64 + (s[1] - 0x80)) * 64 + (s[2] - 0x80)) * 64 + (s[3] - 0x80)
  }

  lemma FrontOfThree(s: seq<byte>)
    requires CharLength(s) == 3
    ensures Scalar(Front(s)) && Encode(Front(s)) == s[..3]
  {
    var c := Front(s);
    assert c / 64 == (s[0] as int - 0xE0) * 64 + (s[1] - 0x80) && c / 64 / 64 == s[0] as int - 0xE0;
  }

  lemma FrontOfFour(s: seq<byte>)
    requires CharLength(s) == 4
    ensures Scalar(Front(s)) && Encode(Front(s)) == s[..4]
  {
    var c := Front(s);
    assert c / 64 == ((s[0] as int - 0xF0) * 64 + (s[1] - 0x80)) * 64 + (s[2] - 0x80);
    assert c / 64 / 64 == (s[0] as int - 0xF0) * 64 + (s[1] - 0x80) && c / 64 / 64 / 64 == s[0] as int - 0xF0;
  }

  lemma FrontOfTwo(s: seq<byte>)
    requires CharLength(s) == 2
    ensures Scalar(Front(s)) && Encode(Front(s)) == s[..2]
  {
    assert Front(s) / 64 == s[0] as int - 0xC0;
  }

  lemma FrontEncodes(s: seq<byte>)
    requires CharLength(s) > 0
    ensures Scalar(Front(s)) && Encode(Front(s)) == s[..CharLength(s)]
  {
    if CharLength(s) == 2 {
      FrontOfTwo(s);
    } else if CharLength(s) == 3 {
      FrontOfThree(s);
    } else if CharLength(s) == 4 {
      FrontOfFour(s);
    }
  }

  lemma {:induction false} EncodingsValid(cs: seq<nat>)
    requires Scalars(cs)
    ensures Valid(EncodeAll(cs))
    decreases |cs|
  {
    if cs == [] {
    } else {
      assert cs[0] in cs && forall c :: c in cs[1..] ==> c in cs;
      hide Encode, CharLength;
      EncodedLength(cs[0]);
      EncodingsValid(cs[1..]);
      var s := Encode(cs[0]);
      assert s[|s|..] == [];
      ValidConcat(s, EncodeAll(cs[1..]));
    }
  }

  lemma {:induction false} ValidEncodes(s: seq<byte>) returns (cs: seq<nat>)
    requires Valid(s)
    ensures Scalars(cs) && EncodeAll(cs) == s
    decreases |s|
  {
    if s == [] {
      cs := [];
    } else {
      hide Encode, CharLength, Front;
      var n := CharLength(s);
      FrontEncodes(s);
      var rest := ValidEncodes(s[n..]);
      cs := [Front(s)] + rest;
      assert cs[1..] == rest;
      Halves(s, n);
    }
  }

  /** Valid text is exactly what encodes some scalar values: no surrogate, no overlong form, nothing cut short. */
  lemma ValidExactly(s: seq<byte>)
    ensures Valid(s) <==> exists cs :: Scalars(cs) && EncodeAll(cs) == s
  {
    hide Valid, EncodeAll;
    if Valid(s) {
      var cs := ValidEncodes(s);
    }
    if cs :| Scalars(cs) && EncodeAll(cs) == s {
      EncodingsValid(cs);
    }
  }
}
