/**
 Bytes, the decimal numbers that the text protocols print and scan, and a little arithmetic.
 */
module Octets {

  type Byte = b: int | 0 <= b < 256

  const NUL: Byte := 0
  const LF: Byte := 10
  const CR: Byte := 13
  const SPACE: Byte := 32
  const ZERO: Byte := 48

  predicate IsDigit(c: Byte) { ZERO <= c <= ZERO + 9 }

  /** `%d` of a number that is not negative. */
  function Digits(n: nat): (s: seq<Byte>)
    ensures s != [] && forall i :: 0 <= i < |s| ==> IsDigit(s[i])
  {
    if n < 10 then [ZERO + n] else Digits(n / 10) + [ZERO + n % 10]
  }

  /** How many digits a string starts with. */
  function DigitSpan(s: seq<Byte>): (n: nat)
    ensures n <= |s|
    ensures forall i :: 0 <= i < n ==> IsDigit(s[i])
    ensures n < |s| ==> !IsDigit(s[n])
  {
    if s == [] || !IsDigit(s[0]) then 0 else 1 + DigitSpan(s[1..])
  }

  function Value(s: seq<Byte>): nat
    requires forall i :: 0 <= i < |s| ==> IsDigit(s[i])
  {
    if s == [] then 0 else assert IsDigit(s[|s| - 1]); Value(s[..|s| - 1]) * 10 + (s[|s| - 1] - ZERO)
  }

  /** `getnum`, and the number reading of `sscanf`: leading digits, and what follows them. */
  function Scan(s: seq<Byte>): (nat, seq<Byte>) {
    var n := DigitSpan(s);
    (Value(s[..n]), s[n..])
  }

  lemma {:induction false} ValueOfDigits(n: nat)
    ensures Value(Digits(n)) == n
  {
    if n < 10 {
      assert [ZERO + n][..0] == [];
    } else {
      var d := Digits(n / 10);
      assert (d + [ZERO + n % 10])[..|d|] == d;
      ValueOfDigits(n / 10);
    }
  }

  lemma {:induction false} SpanOf(d: seq<Byte>, rest: seq<Byte>)
    requires forall i :: 0 <= i < |d| ==> IsDigit(d[i])
    requires rest == [] || !IsDigit(rest[0])
    ensures DigitSpan(d + rest) == |d|
  {
    if d == [] {
      assert d + rest == rest;
    } else {
      assert (d + rest)[0] == d[0] && (d + rest)[1..] == d[1..] + rest;
      SpanOf(d[1..], rest);
    }
  }

  /** A printed number, followed by anything but a digit, scans back. */
  lemma ScanDigits(n: nat, rest: seq<Byte>)
    requires rest == [] || !IsDigit(rest[0])
    ensures Scan(Digits(n) + rest) == (n, rest)
  {
    var d := Digits(n);
    SpanOf(d, rest);
    ValueOfDigits(n);
    assert (d + rest)[..|d|] == d && (d + rest)[|d|..] == rest;
  }

  /** Where the first `c` is, or the length. */
  function Find(s: seq<Byte>, c: Byte): (n: nat)
    ensures n <= |s|
    ensures forall i :: 0 <= i < n ==> s[i] != c
    ensures n < |s| ==> s[n] == c
  {
    if s == [] || s[0] == c then 0 else 1 + Find(s[1..], c)
  }

  lemma {:induction false} FindAfter(a: seq<Byte>, c: Byte, rest: seq<Byte>)
    requires c !in a
    ensures Find(a + [c] + rest, c) == |a|
  {
    var s := a + [c] + rest;
    if a != [] {
      assert s[1..] == a[1..] + [c] + rest && s[0] == a[0];
      FindAfter(a[1..], c, rest);
    }
  }

  function Min(a: int, b: int): int { if a < b then a else b }

  lemma Product(a: nat, b: nat, c: nat)
    requires a <= b
    ensures a * c <= b * c
  {}
}
