/**
 What netascii looks like on the wire: where each byte of the file goes, which
 streams are encodings at all, what decoding makes of any stream, and how the
 pairs lie in the blocks that are sent.
 */
module TftpWire {
  import opened Octets
  import opened Netascii
  import opened Tftp

  // ---------- where the bytes of a file go ----------

  /** How many bytes of the file are sent as two. */
  function Breaks(f: seq<Byte>): nat
    decreases |f|
  {
    if f == [] then 0
    else Breaks(f[..|f| - 1]) + if f[|f| - 1] == LF || f[|f| - 1] == CR then 1 else 0
  }

  /** Where byte `i` of the file begins on the wire. */
  function Place(f: seq<Byte>, i: nat): nat
    requires i <= |f|
  {
    i + Breaks(f[..i])
  }

  lemma {:induction false} EncodeAppend(a: seq<Byte>, b: seq<Byte>)
    ensures Encode(a + b) == Encode(a) + Encode(b)
    decreases |a|
  {
    if a == [] {
      assert a + b == b;
    } else {
      assert (a + b)[1..] == a[1..] + b;
      EncodeAppend(a[1..], b);
    }
  }

  lemma EncodeOne(c: Byte)
    ensures Encode([c]) == EncodeByte(c)
  {
    assert [c][1..] == [];
  }

  lemma {:induction false} EncodeLength(f: seq<Byte>)
    ensures |Encode(f)| == Place(f, |f|)
    decreases |f|
  {
    assert f[..|f|] == f;
    if f != [] {
      var a, c := f[..|f| - 1], f[|f| - 1];
      assert f == a + [c] && a[..|a|] == a;
      EncodeAppend(a, [c]);
      EncodeOne(c);
      EncodeLength(a);
    }
  }

  /**
   Byte by byte, each LF of the file stands on the wire as CR LF, each CR as CR
   NUL, and everything else as itself; and there is nothing more.
   */
  lemma EncodeAt(f: seq<Byte>, i: nat)
    requires i < |f|
    ensures var w, k, next := Encode(f), Place(f, i), Place(f, i + 1);
      && next <= |w| == Place(f, |f|)
      && (f[i] == LF ==> next == k + 2 && w[k] == CR && w[k + 1] == LF)
      && (f[i] == CR ==> next == k + 2 && w[k] == CR && w[k + 1] == NUL)
      && (f[i] != LF && f[i] != CR ==> next == k + 1 && w[k] == f[i])
  {
    var a, c, b := f[..i], f[i], f[i + 1..];
    assert f == a + ([c] + b) && f[..i + 1] == a + [c];
    assert (a + [c])[..i] == a && a[..i] == a;
    EncodeAppend(a, [c] + b);
    EncodeAppend([c], b);
    EncodeOne(c);
    EncodeLength(a);
    EncodeLength(f);
  }

  /** Every CR is followed by LF or NUL, and every LF comes after a CR. */
  predicate Paired(w: seq<Byte>) {
    && (forall i :: 0 <= i < |w| && w[i] == CR ==> i + 1 < |w| && (w[i + 1] == LF || w[i + 1] == NUL))
    && (forall i :: 0 <= i < |w| && w[i] == LF ==> i > 0 && w[i - 1] == CR)
  }

  lemma {:induction false} EncodePaired(f: seq<Byte>)
    ensures Paired(Encode(f))
    decreases |f|
  {
    if f != [] {
      var e, rest := EncodeByte(f[0]), Encode(f[1..]);
      EncodePaired(f[1..]);
      PairedJoin(e, rest);
    }
  }

  lemma PairedJoin(a: seq<Byte>, b: seq<Byte>)
    requires Paired(a) && Paired(b)
    ensures Paired(a + b)
  {
    var w := a + b;
    forall i | 0 <= i < |w| && w[i] == LF ensures i > 0 && w[i - 1] == CR {
      if i >= |a| { assert b[i - |a|] == LF; }
    }
    forall i | 0 <= i < |w| && w[i] == CR ensures i + 1 < |w| && (w[i + 1] == LF || w[i + 1] == NUL) {
      if i >= |a| { assert b[i - |a|] == CR; }
    }
  }

  /** The streams of such pairs are exactly the encodings, and each is that of the file it is decoded to. */
  lemma PairedIsEncoded(w: seq<Byte>)
    ensures Paired(w) <==> Encode(Decode(Sink([], -1), w).file) == w
  {
    if Paired(w) {
      PairedDecodes(Sink([], -1), w);
      assert [] + w == w;
    } else {
      EncodePaired(Decode(Sink([], -1), w).file);
    }
  }

  lemma {:induction false} PairedDecodes(s: Sink, w: seq<Byte>)
    requires Paired(w) && s.prev != CR
    ensures Encode(Decode(s, w).file) == Encode(s.file) + w
    decreases |w|
  {
    if w != [] {
      var n := if w[0] == CR then 2 else 1;
      var a, b := w[..n], w[n..];
      PairedTail(w, n);
      assert w == a + b;
      DecodeAppend(s, a, b);
      FirstPair(s, a);
      PairedDecodes(Decode(s, a), b);
      assert (Encode(s.file) + a) + b == Encode(s.file) + (a + b);
    }
  }

  lemma PairedTail(w: seq<Byte>, n: nat)
    requires Paired(w) && w != [] && n == if w[0] == CR then 2 else 1
    ensures n <= |w| && Paired(w[n..])
  {
    var b := w[n..];
    forall i | 0 <= i < |b| && b[i] == LF ensures i > 0 && b[i - 1] == CR {
      assert w[i + n] == LF && w[i + n - 1] == CR;
    }
    forall i | 0 <= i < |b| && b[i] == CR ensures i + 1 < |b| && (b[i + 1] == LF || b[i + 1] == NUL) {
      assert w[i + n] == CR;
    }
  }

  /** One byte that is neither CR nor LF, or one pair. */
  lemma FirstPair(s: Sink, a: seq<Byte>)
    requires s.prev != CR && a != [] && a[0] != LF
    requires if a[0] == CR then |a| == 2 && (a[1] == LF || a[1] == NUL) else |a| == 1
    ensures Encode(Decode(s, a).file) == Encode(s.file) + a && Decode(s, a).prev != CR
  {
    if a[0] != CR {
      assert a == [a[0]] && a[1..] == [];
      EncodeAppend(s.file, a);
      EncodeOne(a[0]);
    } else {
      var m := DecodeByte(s, CR);
      assert a == [CR, a[1]] && a[1..] == [a[1]] && a[1..][1..] == [];
      assert m.file == s.file + [CR] && m.file[..|m.file| - 1] == s.file;
      var c: Byte := if a[1] == LF then LF else CR;
      assert Decode(m, [a[1]]) == DecodeByte(m, a[1]);
      assert Decode(s, a).file == s.file + [c];
      EncodeAppend(s.file, [c]);
      EncodeOne(c);
    }
  }

  // ---------- what decoding makes of any stream ----------

  /** Byte `i` leaves nothing of its own in the file: a CR before LF, and a NUL after CR. */
  predicate Lost(w: seq<Byte>, i: nat)
    requires i < |w|
  {
    (w[i] == CR && i + 1 < |w| && w[i + 1] == LF) || (w[i] == NUL && i > 0 && w[i - 1] == CR)
  }

  function LostBefore(w: seq<Byte>, n: nat): nat
    requires n <= |w|
    decreases n
  {
    if n == 0 then 0 else LostBefore(w, n - 1) + if Lost(w, n - 1) then 1 else 0
  }

  lemma {:induction false} LostBounds(w: seq<Byte>, i: nat, n: nat)
    requires i <= n <= |w|
    ensures LostBefore(w, i) <= LostBefore(w, n) <= LostBefore(w, i) + (n - i) && LostBefore(w, i) <= i
    decreases n
  {
    if i < n { LostBounds(w, i, n - 1); } else if n > 0 { LostBounds(w, i - 1, n - 1); }
  }

  /** With one more byte, only the CR before a LF is lost that was not before. */
  lemma {:induction false} LostMore(p: seq<Byte>, c: Byte, n: nat)
    requires n <= |p|
    ensures var w := p + [c];
      LostBefore(w, n) == LostBefore(p, n) + if n == |p| > 0 && p[|p| - 1] == CR && c == LF then 1 else 0
    decreases n
  {
    if n > 0 { LostMore(p, c, n - 1); }
  }

  /** A byte that is not lost is in the file, after those before it that are not. */
  ghost predicate KeptAt(w: seq<Byte>, file: seq<Byte>, i: nat)
    requires i < |w|
  {
    var k := i - LostBefore(w, i);
    !Lost(w, i) ==> 0 <= k < |file| && file[k] == w[i]
  }

  /** Of any stream at all, exactly the bytes that are not lost get into the file, in order. */
  lemma {:induction false} DecodeAt(w: seq<Byte>)
    ensures var s := Decode(Sink([], -1), w);
      && s.prev == (if w == [] then -1 else w[|w| - 1])
      && |s.file| == |w| - LostBefore(w, |w|)
      && forall i :: 0 <= i < |w| ==> KeptAt(w, s.file, i)
    decreases |w|
  {
    if w != [] {
      var p, c := w[..|w| - 1], w[|w| - 1];
      assert w == p + [c];
      DecodeAt(p);
      var s, t := Decode(Sink([], -1), p), Decode(Sink([], -1), w);
      DecodeLast(Sink([], -1), p, c);
      LostMore(p, c, |p|);
      if s.prev == CR { CrIsKept(p); }
      forall i | 0 <= i < |w| ensures KeptAt(w, t.file, i) {
        if i < |p| {
          assert KeptAt(p, s.file, i);
          LostMore(p, c, i);
          if i + 1 < |p| {
            LostBounds(p, i + 1, |p| - 1);
            LostBounds(p, i, |p|);
          }
        }
      }
    }
  }

  /** A CR at the end is the last byte of the file. */
  lemma CrIsKept(p: seq<Byte>)
    requires p != [] && p[|p| - 1] == CR
    ensures !Lost(p, |p| - 1) && LostBefore(p, |p|) == LostBefore(p, |p| - 1) <= |p| - 1
  {
    LostBounds(p, |p| - 1, |p|);
  }

  // ---------- the blocks ----------

  /** Byte `j` of block `k` of a stream, counted over all blocks. */
  lemma BlockByte(e: seq<Byte>, k: nat, j: nat)
    requires j < SEGSIZE
    ensures SEGSIZE * k + j < |e| <==> j < |Chunk(e, k)|
    ensures j < |Chunk(e, k)| ==> Chunk(e, k)[j] == e[SEGSIZE * k + j]
  {
    ChunkAt(e, k);
    assert SEGSIZE * (k + 1) == SEGSIZE * k + SEGSIZE;
  }

  /** The byte after, which may be the first of the next block, and the one before. */
  function After(e: seq<Byte>, k: nat, j: nat): seq<Byte> {
    if j + 1 < |Chunk(e, k)| then [Chunk(e, k)[j + 1]]
    else if j + 1 == SEGSIZE && Chunk(e, k + 1) != [] then [Chunk(e, k + 1)[0]]
    else []
  }

  function Before(e: seq<Byte>, k: nat, j: nat): seq<Byte> {
    if 0 < j <= |Chunk(e, k)| then [Chunk(e, k)[j - 1]]
    else if j == 0 && k > 0 && |Chunk(e, k - 1)| == SEGSIZE then [Chunk(e, k - 1)[SEGSIZE - 1]]
    else []
  }

  /**
   In the blocks of a file sent in netascii every CR is followed by LF or NUL
   and every LF comes after a CR, also where a pair is cut by the end of a block.
   */
  lemma BlocksPaired(f: seq<Byte>, k: nat, j: nat)
    requires j < |Chunk(Wire(f, true), k)|
    ensures var e := Wire(f, true);
      && (Chunk(e, k)[j] == CR ==> After(e, k, j) == [LF] || After(e, k, j) == [NUL])
      && (Chunk(e, k)[j] == LF ==> Before(e, k, j) == [CR])
  {
    var e := Wire(f, true);
    EncodePaired(f);
    AfterBlock(e, k);
    BlockByte(e, k, j);
    if j + 1 < SEGSIZE {
      BlockByte(e, k, j + 1);
    } else {
      BlockByte(e, k + 1, 0);
    }
    if j > 0 {
      BlockByte(e, k, j - 1);
    } else if k > 0 {
      BlockByte(e, k - 1, SEGSIZE - 1);
      AfterBlock(e, k - 1);
    }
  }

  /** Where byte `i` of a file is in the blocks sent: at its place, whatever the block. */
  lemma SentAt(f: seq<Byte>, i: nat, convert: bool)
    requires i < |f|
    ensures var e, p := Wire(f, convert), if convert then Place(f, i) else i;
      var c := Chunk(e, p / SEGSIZE);
      && p % SEGSIZE < |c|
      && c[p % SEGSIZE] == if convert && f[i] == LF then CR else f[i]
  {
    var p := if convert then Place(f, i) else i;
    if convert { EncodeAt(f, i); }
    BlockByte(Wire(f, convert), p / SEGSIZE, p % SEGSIZE);
  }
}
