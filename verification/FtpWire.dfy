/**
 The ASCII form of a file byte by byte, and what the receiving loops make of
 any stream.
 */
module FtpWire {
  import opened Octets
  import opened FtpAscii

  /** How many line feeds there are. */
  function Lines(f: seq<Byte>): nat
    decreases |f|
  {
    if f == [] then 0 else Lines(f[..|f| - 1]) + if f[|f| - 1] == LF then 1 else 0
  }

  /** Where byte `i` of the file begins on the wire. */
  function Place(f: seq<Byte>, i: nat): nat
    requires i <= |f|
  {
    i + Lines(f[..i])
  }

  lemma {:induction false} SendLength(f: seq<Byte>)
    ensures |Send(f)| == Place(f, |f|)
    decreases |f|
  {
    assert f[..|f|] == f;
    if f != [] {
      var a, c := f[..|f| - 1], f[|f| - 1];
      assert f == a + [c] && a[..|a|] == a;
      SendAppend(a, [c]);
      assert [c][1..] == [];
      SendLength(a);
    }
  }

  /** Byte by byte, a line feed goes out as CR LF and everything else as itself; and there is nothing more. */
  lemma SendAt(f: seq<Byte>, i: nat)
    requires i < |f|
    ensures var w, k, next := Send(f), Place(f, i), Place(f, i + 1);
      && next <= |w| == Place(f, |f|)
      && if f[i] == LF then next == k + 2 && w[k] == CR && w[k + 1] == LF else next == k + 1 && w[k] == f[i]
  {
    var a, c, b := f[..i], f[i], f[i + 1..];
    assert f == a + ([c] + b) && f[..i + 1] == a + [c] && (a + [c])[..i] == a && a[..i] == a;
    SendAppend(a, [c] + b);
    SendAppend([c], b);
    assert [c][1..] == [];
    SendLength(a);
    SendLength(f);
  }

  // ---------- receiving ----------

  /** A byte that is not written: a NUL after CR and, unless CRs are kept, a CR before a line feed. */
  predicate Omitted(w: seq<Byte>, i: nat, keep: bool)
    requires i < |w|
  {
    (w[i] == NUL && i > 0 && w[i - 1] == CR) || (!keep && w[i] == CR && i + 1 < |w| && w[i + 1] == LF)
  }

  function OmittedBefore(w: seq<Byte>, n: nat, keep: bool): nat
    requires n <= |w|
    decreases n
  {
    if n == 0 then 0 else OmittedBefore(w, n - 1, keep) + if Omitted(w, n - 1, keep) then 1 else 0
  }

  /** What is written for the bytes from `i` on. */
  function Later(w: seq<Byte>, i: nat, keep: bool): seq<Byte>
    requires i <= |w|
  {
    Received(if i == 0 then NUL else w[i - 1], w[i..], keep)
  }

  lemma LaterStep(w: seq<Byte>, i: nat, keep: bool)
    requires i < |w|
    ensures Later(w, i, keep) == (if Omitted(w, i, keep) then [] else [w[i]]) + Later(w, i + 1, keep)
  {
    assert w[i..][0] == w[i] && w[i..][1..] == w[i + 1..];
  }

  lemma {:induction false} LaterAt(w: seq<Byte>, i: nat, j: nat, keep: bool)
    requires i <= j <= |w|
    ensures OmittedBefore(w, i, keep) <= OmittedBefore(w, j, keep) <= OmittedBefore(w, i, keep) + (j - i)
    ensures var k := j - i - (OmittedBefore(w, j, keep) - OmittedBefore(w, i, keep));
      && k <= |Later(w, i, keep)| && Later(w, i, keep)[k..] == Later(w, j, keep)
    decreases j - i
  {
    if i < j {
      LaterStep(w, i, keep);
      LaterAt(w, i + 1, j, keep);
      OmittedMore(w, i, keep);
    }
  }

  lemma OmittedMore(w: seq<Byte>, i: nat, keep: bool)
    requires i < |w|
    ensures OmittedBefore(w, i + 1, keep) == OmittedBefore(w, i, keep) + if Omitted(w, i, keep) then 1 else 0
  {}

  /** Of any stream at all, exactly the bytes that are not omitted are written, in order. */
  lemma ReceivedAt(w: seq<Byte>, i: nat, keep: bool)
    requires i < |w|
    ensures var file, k := Received(NUL, w, keep), i - OmittedBefore(w, i, keep);
      && |file| == |w| - OmittedBefore(w, |w|, keep)
      && (!Omitted(w, i, keep) ==> 0 <= k < |file| && file[k] == w[i])
  {
    assert w[0..] == w;
    LaterAt(w, 0, |w|, keep);
    LaterAt(w, 0, i, keep);
    LaterStep(w, i, keep);
    if !Omitted(w, i, keep) {
      FirstOf(Later(w, 0, keep), i - OmittedBefore(w, i, keep), Later(w, i, keep), w[i]);
    }
  }

  lemma FirstOf(file: seq<Byte>, k: nat, rest: seq<Byte>, c: Byte)
    requires k <= |file| && file[k..] == rest && rest != [] && rest[0] == c
    ensures k < |file| && file[k] == c
  {}

  // ---------- the counts ----------

  function Crs(w: seq<Byte>): nat
    decreases |w|
  {
    if w == [] then 0 else Crs(w[..|w| - 1]) + if w[|w| - 1] == CR then 1 else 0
  }

  /** Line feeds that come after a CR. */
  function CrLfs(w: seq<Byte>): nat
    decreases |w|
  {
    if |w| <= 1 then 0 else CrLfs(w[..|w| - 1]) + if w[|w| - 1] == LF && w[|w| - 2] == CR then 1 else 0
  }

  lemma {:induction false} CountsMore(prev: Byte, p: seq<Byte>, c: Byte)
    ensures var last := if p == [] then prev else p[|p| - 1];
      && NotAfterCr(prev, p + [c]) == NotAfterCr(prev, p) + (if last != CR then 1 else 0)
      && BareLfs(prev, p + [c]) == BareLfs(prev, p) + (if c == LF && last != CR then 1 else 0)
    decreases |p|
  {
    var w := p + [c];
    if p == [] {
      assert w == [c] && w[1..] == [];
    } else {
      assert w[1..] == p[1..] + [c] && w[0] == p[0];
      CountsMore(p[0], p[1..], c);
    }
  }

  /** The client counts the line feeds that no CR precedes, and the server the bytes that no CR precedes. */
  lemma {:induction false} CountsAre(w: seq<Byte>)
    ensures BareLfs(NUL, w) + CrLfs(w) == Lines(w)
    ensures w != [] ==> NotAfterCr(NUL, w) + Crs(w[..|w| - 1]) == |w|
    decreases |w|
  {
    if w != [] {
      var p, c := w[..|w| - 1], w[|w| - 1];
      assert w == p + [c];
      CountsAre(p);
      CountsMore(NUL, p, c);
      if p != [] { assert w[|w| - 2] == p[|p| - 1]; }
    }
  }
}
