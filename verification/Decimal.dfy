/**
 Decimal numbers as Rust prints them (`to_string`) and parses them (`str::parse` for an
 unsigned type): an optional `+`, at least one digit, no overflow on any prefix.
 */
module Decimal {
  import opened Wrappers
  import opened Sequences
  import opened Utf8

  const ZERO: byte := 48
  const PLUS: byte := 43
  const U16_MAX: nat := 0xFFFF
  const U32_MAX: nat := 0xFFFF_FFFF
  const U64_MAX: nat := 0xFFFF_FFFF_FFFF_FFFF

  predicate IsDigit(b: byte) {
    ZERO <= b <= ZERO + 9
  }

  predicate AllDigits(s: seq<byte>) {
    forall i :: 0 <= i < |s| ==> IsDigit(s[i])
  }

  function Print(n: nat): (s: Str)
    ensures |s| > 0 && AllDigits(s)
  {
    var last: byte := ZERO + n % 10;
    var s: seq<byte> := if n < 10 then [last] else Print(n / 10) + [last];
    AsciiValid(s);
    s
  }

  /** Folds the digits of `s` into `acc`, failing at the first non-digit or overflow. */
  function ParseDigits(s: seq<byte>, acc: nat, max: nat): (r: Option<nat>)
    requires acc <= max
    ensures r.Some? ==> r.value <= max
    decreases |s|
  {
    if s == [] then Some(acc)
    else if !IsDigit(s[0]) then None
    else
      var next := acc * 10 + (s[0] - ZERO);
      if next > max then None else ParseDigits(s[1..], next, max)
  }

  function Parse(s: seq<byte>, max: nat): (r: Option<nat>)
    ensures r.Some? ==> r.value <= max && s != []
  {
    if s == [] || s == [PLUS] then None
    else if s[0] == PLUS then ParseDigits(s[1..], 0, max)
    else ParseDigits(s, 0, max)
  }

  // ----- What text means a number -----

  function Pow10(k: nat): nat {
    if k == 0 then 1 else 10 * Pow10(k - 1)
  }

  /** Place values: the digit `k` places from the right is worth ten to the `k`. */
  function Value(digits: seq<byte>): (n: nat)
    requires forall b :: b in digits ==> 0x30 <= b <= 0x39
  {
    if digits == [] then 0
    else
      assert digits[0] in digits && forall b :: b in digits[1..] ==> b in digits;
      var digit: nat := digits[0] - 0x30;
      digit * Pow10(|digits| - 1) + Value(digits[1..])
  }

  /** A number as the source accepts it: digits, at least one, behind at most one plus sign. */
  predicate Numeral(s: seq<byte>, n: nat) {
    var digits := if s != [] && s[0] == 0x2B then s[1..] else s;
    digits != [] && (forall b :: b in digits ==> 0x30 <= b <= 0x39) && Value(digits) == n
  }

  lemma ShiftIn(acc: nat, digit: nat, k: nat)
    ensures acc * Pow10(k + 1) + digit * Pow10(k) == (acc * 10 + digit) * Pow10(k)
  {
    assert acc * (10 * Pow10(k)) == acc * 10 * Pow10(k);
  }

  lemma Pow10Positive(k: nat)
    ensures Pow10(k) >= 1
  {
  }

  lemma Grows(n: nat, k: nat)
    ensures n <= n * Pow10(k)
  {
    Pow10Positive(k);
  }

  /** Folding digits into `acc` means putting them behind its own, if that stays within the maximum. */
  lemma {:induction false} FoldIsValue(s: seq<byte>, acc: nat, max: nat, n: nat)
    requires acc <= max
    ensures ParseDigits(s, acc, max) == Some(n) <==>
      (forall b :: b in s ==> 0x30 <= b <= 0x39) && acc * Pow10(|s|) + Value(s) == n && n <= max
    decreases |s|
  {
    if s == [] {
    } else if IsDigit(s[0]) {
      var next, rest := acc * 10 + (s[0] - 0x30), s[1..];
      ShiftIn(acc, s[0] - 0x30, |rest|);
      assert forall b :: b in s <==> b == s[0] || b in rest;
      if next <= max {
        FoldIsValue(rest, next, max, n);
      } else {
        Grows(next, |rest|);
      }
    } else {
      assert s[0] in s;
    }
  }

  /** Exactly what `parse` accepts, and as which number. */
  lemma ParseExact(s: seq<byte>, max: nat, n: nat)
    ensures Parse(s, max) == Some(n) <==> Numeral(s, n) && n <= max
  {
    hide Value, ParseDigits;
    FoldIsValue(s, 0, max, n);
    if s != [] {
      FoldIsValue(s[1..], 0, max, n);
    }
  }

  // ----- Printing and parsing -----

  lemma ParseOneDigit(digit: byte, rest: seq<byte>, acc: nat, max: nat)
    requires IsDigit(digit) && acc * 10 + (digit - ZERO) <= max
    ensures ParseDigits([digit] + rest, acc, max) == ParseDigits(rest, acc * 10 + (digit - ZERO), max)
  {
    assert ([digit] + rest)[1..] == rest;
  }

  lemma PrintLast(n: nat, last: byte)
    requires last == ZERO + n % 10
    ensures Print(n) == if n < 10 then [last] else Print(n / 10) + [last]
  {
  }

  /** Parsing a printed number and then more digits resumes from that number: no prefix overflows. */
  lemma {:induction false} ParsePrintPrefix(n: nat, rest: seq<byte>, max: nat)
    requires n <= max
    ensures ParseDigits(Print(n) + rest, 0, max) == ParseDigits(rest, n, max)
    decreases n
  {
    var last: byte := ZERO + n % 10;
    ParseOneDigit(last, rest, n / 10, max);
    PrintLast(n, last);
    if n < 10 {
      assert n / 10 == 0;
    } else {
      hide Print, ParseDigits;
      ParsePrintPrefix(n / 10, [last] + rest, max);
      Assoc(Print(n / 10), [last], rest);
    }
  }

  lemma {:induction false} ParseFails(s: seq<byte>, t: seq<byte>, acc: nat, max: nat)
    requires acc <= max && ParseDigits(s, acc, max) == None
    ensures ParseDigits(s + t, acc, max) == None
    decreases |s|
  {
    assert (s + t)[1..] == s[1..] + t;
    if IsDigit(s[0]) && acc * 10 + (s[0] - ZERO) <= max {
      ParseFails(s[1..], t, acc * 10 + (s[0] - ZERO), max);
    }
  }

  lemma {:induction false} ParsePrintOverflow(n: nat, max: nat)
    requires n > max
    ensures ParseDigits(Print(n), 0, max) == None
    decreases n
  {
    if n < 10 {
    } else {
      var last: byte := ZERO + n % 10;
      if n / 10 <= max {
        ParsePrintPrefix(n / 10, [last], max);
      } else {
        ParsePrintOverflow(n / 10, max);
        ParseFails(Print(n / 10), [last], 0, max);
      }
    }
  }

  lemma {:induction false} ParsePrint(n: nat, max: nat)
    ensures Parse(Print(n), max) == if n <= max then Some(n) else None
  {
    assert IsDigit(Print(n)[0]);
    if n <= max {
      ParsePrintPrefix(n, [], max);
      assert Print(n) + [] == Print(n);
    } else {
      ParsePrintOverflow(n, max);
    }
  }

  /** A number is printed in the usual way: its digits, without a sign and without leading zeros. */
  lemma {:induction false} PrintExact(n: nat)
    ensures Numeral(Print(n), n) && (forall b :: b in Print(n) ==> 0x30 <= b <= 0x39)
    ensures Print(n)[0] == 0x30 <==> n == 0
    ensures n == 0 ==> |Print(n)| == 1
    decreases n
  {
    ParsePrint(n, n);
    ParseExact(Print(n), n, n);
    hide Numeral, Parse;
    if n >= 10 {
      PrintExact(n / 10);
    }
  }

  lemma {:induction false} PrintInjective(m: nat, n: nat)
    requires Print(m) == Print(n)
    ensures m == n
  {
    var max := if m < n then n else m;
    ParsePrint(m, max);
    ParsePrint(n, max);
  }

  lemma {:induction false} PrintLength(n: nat, k: nat)
    requires n < Pow10(k) && k > 0
    ensures |Print(n)| <= k
    decreases k
  {
    if n < 10 {
    } else {
      PrintLength(n / 10, k - 1);
    }
  }

  lemma PrintWidths(n: nat)
    ensures n <= U32_MAX ==> |Print(n)| <= 10
    ensures n <= U64_MAX ==> |Print(n)| <= 20
  {
    assert Pow10(5) == 100_000;
    assert Pow10(10) == 10_000_000_000 by {
      assert Pow10(8) == 100_000_000;
    }
    assert Pow10(15) == 1_000_000_000_000_000 by {
      assert Pow10(13) == 10_000_000_000_000;
    }
    assert Pow10(20) == 100_000_000_000_000_000_000 by {
      assert Pow10(18) == 1_000_000_000_000_000_000;
    }
    if n <= U32_MAX {
      PrintLength(n, 10);
    }
    if n <= U64_MAX {
      PrintLength(n, 20);
    }
  }
}
