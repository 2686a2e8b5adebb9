/**
 The records of the rcp protocol scan back to what was printed.
 */
module RcpText {
  import opened Wrappers
  import opened Octets
  import opened Rcp

  lemma OctalBack(d: bv3)
    ensures Unoctal(Octal(d)) == Some(d)
  {
    if d == 0 {} else if d == 1 {} else if d == 2 {} else if d == 3 {}
    else if d == 4 {} else if d == 5 {} else if d == 6 {} else { assert d == 7; }
  }

  lemma ModeBack(m: Mode)
    ensures ParseMode(ModeText(m)) == Some(m)
  {
    OctalBack(m.s);
    OctalBack(m.u);
    OctalBack(m.g);
    OctalBack(m.o);
  }

  lemma ScanSpaceBack(n: nat, rest: seq<Byte>)
    ensures ScanSpace(Digits(n) + ([SPACE] + rest)) == Some((n, rest))
  {
    ScanDigits(n, [SPACE] + rest);
    assert ([SPACE] + rest)[1..] == rest;
  }

  lemma TimesBack(t: Times)
    ensures ParseTimes(TimesText(t)) == Some(t)
  {
    var s3 := Digits(t.a.usec);
    var s2 := Digits(t.a.sec) + ([SPACE] + s3);
    var s1 := Digits(t.m.usec) + ([SPACE] + s2);
    ScanSpaceBack(t.m.sec, s1);
    ScanSpaceBack(t.m.usec, s2);
    ScanSpaceBack(t.a.sec, s3);
    assert s3 == s3 + [];
    ScanDigits(t.a.usec, []);
  }

  lemma StampBack(t: Times)
    ensures Parse([T] + TimesText(t)) == Stamp(t)
  {
    assert ([T] + TimesText(t))[1..] == TimesText(t);
    TimesBack(t);
  }

  lemma MakeBack(c: Byte, m: Mode, size: nat, name: Name)
    requires c == C || c == D
    ensures Parse(MakeText(c, m, size, name)) == Make(c == D, m, size, name)
  {
    var s := MakeText(c, m, size, name);
    assert s[1..5] == ModeText(m);
    assert s[6..] == Digits(size) + ([SPACE] + name);
    ModeBack(m);
    ScanSpaceBack(size, name);
  }

  /** Printed numbers and modes contain no newline. */
  lemma NoNewline(t: Times, c: Byte, m: Mode, size: nat, name: Name)
    requires Legal(name) && (c == C || c == D)
    ensures LF !in [T] + TimesText(t)
    ensures LF !in MakeText(c, m, size, name)
  {
    DigitsPlain(t.m.sec);
    DigitsPlain(t.m.usec);
    DigitsPlain(t.a.sec);
    DigitsPlain(t.a.usec);
    DigitsPlain(size);
  }

  lemma DigitsPlain(n: nat)
    ensures LF !in Digits(n)
  {
    forall i | 0 <= i < |Digits(n)| ensures Digits(n)[i] != LF { assert IsDigit(Digits(n)[i]); }
  }

  /** A line at the front of the input is read whole. */
  lemma LineAtFront(line: seq<Byte>, rest: seq<Byte>)
    requires LF !in line
    ensures Find(line + [LF] + rest, LF) == |line|
    ensures (line + [LF] + rest)[..|line|] == line
    ensures (line + [LF] + rest)[..|line| + 1] == line + [LF]
    ensures (line + [LF] + rest)[|line| + 1..] == rest
  {
    FindAfter(line, LF, rest);
  }

  function Heard(io: Io, b: seq<Byte>, rest: seq<Byte>): Io { io.(inp := rest, tr := io.tr + [Got(b)]) }

  lemma ResponseOk(io: Io, rest: seq<Byte>)
    requires io.inp == OK + rest
    ensures Response(io) == (Heard(io, OK, rest), true)
  {
    assert io.inp[1..] == rest && io.inp[..1] == OK;
  }

  lemma ResponseErr(io: Io, msg: seq<Byte>, rest: seq<Byte>)
    requires io.inp == ErrText(msg) + rest && Legal(msg)
    ensures Response(io) == (Heard(io, ErrText(msg), rest), false)
  {
    var line := RCP + msg;
    LineAtFront(line, rest);
    assert io.inp[1..] == line + [LF] + rest;
    var n := |line|;
    assert io.inp[..n + 2] == ErrText(msg);
    assert io.inp[n + 2..] == rest;
  }
}
