/**
 The Internet checksum of `libicmp/icmp_cksum.c` and the generic ICMP codec of
 `libicmp/icmp_echo.c`.  `big` says whether the host stores the high byte of a
 word first; the code loads and stores words in host order.
 */
module Icmp {
  import opened Octets

  type Word = w: int | 0 <= w < 0x10000

  const ONES: Word := 0xffff
  const MIN_LENGTH := 8         // ICMP_MINLEN
  const MAX_LENGTH := 0xffff
  const INT_MAX := 0x7fff_ffff

  function Load(big: bool, a: Byte, b: Byte): Word { if big then a * 256 + b else b * 256 + a }

  /** The bytes of a word in the order they are stored. */
  function Store(big: bool, w: Word): (Byte, Byte) { if big then (w / 256, w % 256) else (w % 256, w / 256) }

  /** A message as words; an odd byte at the end is padded with a zero byte. */
  function Words(big: bool, m: seq<Byte>): (ws: seq<Word>)
    ensures |ws| == (|m| + 1) / 2
    decreases |m|
  {
    if m == [] then [] else if |m| == 1 then [Load(big, m[0], 0)]
    else [Load(big, m[0], m[1])] + Words(big, m[2..])
  }

  function Wide(high: nat, low: nat): nat { high * 256 + low }

  /** The words are the pairs of bytes as the host stores them; a byte left over is followed by zero. */
  lemma {:induction false} WordAt(big: bool, m: seq<Byte>, i: nat)
    requires i < |Words(big, m)|
    ensures var second: Byte := if 2 * i + 1 < |m| then m[2 * i + 1] else 0;
      2 * i < |m| && Words(big, m)[i] == if big then Wide(m[2 * i], second) else Wide(second, m[2 * i])
    decreases i
  {
    if i > 0 {
      WordAt(big, m[2..], i - 1);
      assert m[2..][2 * (i - 1)] == m[2 * i];
    }
  }

  // ---------- one's complement sums, as section 1 of RFC 1071 has them ----------

  /** Addition with end-around carry. */
  function OnesAdd(a: Word, b: Word): Word { if a + b > ONES then a + b - ONES else a + b }

  function OnesSum(ws: seq<Word>): Word
    decreases |ws|
  {
    if ws == [] then 0 else OnesAdd(ws[0], OnesSum(ws[1..]))
  }

  /** The checksum: the complement of the sum. */
  function Checksum(big: bool, m: seq<Byte>): Word { ONES - OnesSum(Words(big, m)) }

  // ---------- what the code computes ----------

  function Sum(ws: seq<Word>): nat
    decreases |ws|
  {
    if ws == [] then 0 else ws[0] + Sum(ws[1..])
  }

  /** The value an end-around carry leaves of a sum. */
  function Fold(s: nat): Word { if s == 0 then 0 else (s - 1) % ONES + 1 }

  lemma FoldAdd(a: Word, s: nat)
    ensures OnesAdd(a, Fold(s)) == Fold(a + s)
  {
    if s > 0 {
      var q := (s - 1) / ONES;
      var f := Fold(s);
      assert s == q * ONES + f;
      var t := a + f;
      if t > ONES {
        assert a + s - 1 == (q + 1) * ONES + (t - ONES - 1);
      } else {
        assert a + s - 1 == q * ONES + (t - 1);
      }
    }
  }

  lemma {:induction false} OnesSumIsFold(ws: seq<Word>)
    ensures OnesSum(ws) == Fold(Sum(ws))
    decreases |ws|
  {
    if ws != [] {
      OnesSumIsFold(ws[1..]);
      FoldAdd(ws[0], Sum(ws[1..]));
    }
  }

  /** Two folds are enough for a sum that fits an `int`. */
  lemma TwoFolds(s: nat)
    requires s <= INT_MAX
    ensures var t := s / 0x10000 + s % 0x10000;
      t + t / 0x10000 <= INT_MAX && (t + t / 0x10000) % 0x10000 == Fold(s)
  {
    var h, l := s / 0x10000, s % 0x10000;
    var t := h + l;
    var u := t + t / 0x10000;
    assert t / 0x10000 == if t >= 0x10000 then 1 else 0;
    assert s == h * ONES + t;
    if s > 0 {
      if t >= 0x10000 {
        assert s - 1 == (h + 1) * ONES + (t - ONES - 1);
      } else {
        assert s - 1 == h * ONES + (t - 1);
      }
    }
  }

  lemma {:induction false} SumBound(ws: seq<Word>)
    ensures Sum(ws) <= |ws| * ONES
    decreases |ws|
  {
    if ws != [] { SumBound(ws[1..]); }
  }

  lemma {:induction false} SumSet(ws: seq<Word>, i: nat, w: Word)
    requires i < |ws|
    ensures Sum(ws[i := w]) == Sum(ws) - ws[i] + w
    decreases |ws|
  {
    if i == 0 {
      assert ws[i := w][1..] == ws[1..];
    } else {
      assert ws[i := w][1..] == ws[1..][i - 1 := w];
      SumSet(ws[1..], i - 1, w);
    }
  }

  lemma SumNext(big: bool, m: seq<Byte>)
    ensures m == [] ==> Sum(Words(big, m)) == 0
    ensures |m| == 1 ==> Sum(Words(big, m)) == Load(big, m[0], 0)
    ensures |m| >= 2 ==> Sum(Words(big, m)) == Load(big, m[0], m[1]) + Sum(Words(big, m[2..]))
  {
    if |m| == 1 {
      assert Words(big, m)[1..] == [];
    } else if |m| >= 2 {
      assert Words(big, m)[1..] == Words(big, m[2..]);
    }
  }

  /** The loop of `icmp_cksum`, with the odd byte; the sum always fits an `int`. */
  method AddWords(big: bool, buf: array<Byte>, from: nat, end: nat) returns (sum: nat)
    requires from <= end <= buf.Length && end - from <= MAX_LENGTH
    ensures sum == Sum(Words(big, buf[from..end])) <= INT_MAX
  {
    sum := 0;
    var wp, len := from, end - from;
    ghost var total := Sum(Words(big, buf[from..end]));
    SumBound(Words(big, buf[from..end]));
    while len > 1
      invariant from <= wp && len >= 0 && wp + len == end
      invariant sum + Sum(Words(big, buf[wp..end])) == total <= INT_MAX
    {
      ghost var rest := buf[wp..end];
      SumNext(big, rest);
      assert rest[2..] == buf[wp + 2..end] && rest[0] == buf[wp] && rest[1] == buf[wp + 1];
      sum := sum + Load(big, buf[wp], buf[wp + 1]);
      wp, len := wp + 2, len - 2;
    }
    SumNext(big, buf[wp..end]);
    if len == 1 {
      sum := sum + Load(big, buf[wp], 0);
    }
  }

  /** `icmp_cksum`. */
  method IcmpCksum(big: bool, buf: array<Byte>, from: nat, end: nat) returns (answer: Word)
    requires from <= end <= buf.Length && end - from <= MAX_LENGTH
    ensures answer == Checksum(big, buf[from..end])
  {
    var sum := AddWords(big, buf, from, end);
    TwoFolds(sum);
    OnesSumIsFold(Words(big, buf[from..end]));
    sum := sum / 0x10000 + sum % 0x10000;
    sum := sum + sum / 0x10000;
    answer := ONES - sum % 0x10000;
  }

  // ---------- the order of bytes does not matter ----------

  function Swap(w: Word): Word { (w % 256) * 256 + w / 256 }

  lemma SwapParts(h: Byte, l: Byte)
    ensures Swap(256 * h + l) == 256 * l + h
  {}

  lemma SwapAddParts(ah: Byte, al: Byte, bh: Byte, bl: Byte)
    ensures OnesAdd(256 * al + ah, 256 * bl + bh) == Swap(OnesAdd(256 * ah + al, 256 * bh + bl))
  {
    var c := if al + bl >= 256 then 1 else 0;
    var l, h := al + bl - 256 * c, ah + bh + c;
    if h < 256 {
      SwapParts(h, l);
    } else if l < 255 {
      // the carry goes around to the low byte
      SwapParts(h - 256, l + 1);
    } else {
      SwapParts(h - 255, 0);
    }
  }

  lemma SwapAdd(a: Word, b: Word)
    ensures OnesAdd(Swap(a), Swap(b)) == Swap(OnesAdd(a, b))
  {
    SwapAddParts(a / 256, a % 256, b / 256, b % 256);
  }

  lemma SwapLoad(x: Byte, y: Byte)
    ensures Load(true, x, y) == Swap(Load(false, x, y))
  {
    SwapParts(y, x);
  }

  lemma SumFirst(big: bool, x: Byte, y: Byte, m: seq<Byte>)
    requires m != [] && m[0] == x && y == if |m| == 1 then 0 else m[1]
    ensures OnesSum(Words(big, m))
         == OnesAdd(Load(big, x, y), OnesSum(Words(big, if |m| == 1 then [] else m[2..])))
  {
    var rest := if |m| == 1 then [] else m[2..];
    assert Words(big, m)[1..] == Words(big, rest);
  }

  lemma {:induction false} WordsSwap(m: seq<Byte>)
    ensures OnesSum(Words(true, m)) == Swap(OnesSum(Words(false, m)))
    decreases |m|
  {
    if m != [] {
      var rest := if |m| == 1 then [] else m[2..];
      var y: Byte := if |m| == 1 then 0 else m[1];
      WordsSwap(rest);
      SumFirst(true, m[0], y, m);
      SumFirst(false, m[0], y, m);
      SwapLoad(m[0], y);
      SwapAdd(Load(false, m[0], y), OnesSum(Words(false, rest)));
    }
  }

  lemma StoreParts(h: Byte, l: Byte)
    ensures Store(true, 256 * h + l) == (h, l) && Store(false, 256 * h + l) == (l, h)
  {}

  /** The complement of a swapped sum is stored as that of the sum on the other kind of host. */
  lemma StoreSwapped(s: Word)
    ensures Store(true, ONES - Swap(s)) == Store(false, ONES - s)
  {
    var h, l := s / 256, s % 256;
    StoreParts(255 - l, 255 - h);
    StoreParts(255 - h, 255 - l);
  }

  /** Hosts of either order store the same two bytes. */
  lemma SameBytes(m: seq<Byte>)
    ensures Store(true, Checksum(true, m)) == Store(false, Checksum(false, m))
  {
    WordsSwap(m);
    StoreSwapped(OnesSum(Words(false, m)));
  }

  // ---------- encoding and decoding ----------

  function Zeroed(m: seq<Byte>): seq<Byte>
    requires |m| >= 4
  {
    m[2 := 0][3 := 0]
  }

  function Stored(big: bool, m: seq<Byte>): Word
    requires |m| >= 4
  {
    Load(big, m[2], m[3])
  }

  /** The message carries the checksum that `icmp_generic_decode` computes. */
  predicate Accepts(big: bool, m: seq<Byte>)
    requires |m| >= MIN_LENGTH
  {
    Stored(big, m) == Checksum(big, Zeroed(m))
  }

  function Put(big: bool, m: seq<Byte>, at: nat, w: Word): seq<Byte>
    requires at + 2 <= |m|
  {
    m[at := Store(big, w).0][at + 1 := Store(big, w).1]
  }

  /** The header fields, with the checksum zero. */
  function Header(big: bool, m: seq<Byte>, kind: Byte, ident: Word, seqno: Word): seq<Byte>
    requires |m| >= MIN_LENGTH
  {
    Put(big, Put(big, Zeroed(m[0 := kind][1 := 0]), 6, seqno), 4, ident)
  }

  /** Storing the checksum changes one word. */
  lemma ChecksumWord(big: bool, m: seq<Byte>)
    requires |m| >= 4
    ensures Words(big, m) == Words(big, Zeroed(m))[1 := Stored(big, m)] && Words(big, Zeroed(m))[1] == 0
  {
    var z := Zeroed(m);
    assert z[2..][2..] == m[2..][2..];
    assert Words(big, m) == [Load(big, m[0], m[1])] + ([Stored(big, m)] + Words(big, m[2..][2..]));
    assert Words(big, z) == [Load(big, m[0], m[1])] + ([0] + Words(big, m[2..][2..]));
  }

  lemma StoreLoad(big: bool, w: Word)
    ensures Load(big, Store(big, w).0, Store(big, w).1) == w
  {}

  method PutWord(big: bool, buf: array<Byte>, at: nat, w: Word)
    requires at + 2 <= buf.Length
    modifies buf
    ensures buf[..] == Put(big, old(buf[..]), at, w)
  {
    buf[at], buf[at + 1] := Store(big, w).0, Store(big, w).1;
  }

  method WriteHeader(big: bool, buf: array<Byte>, kind: Byte, ident: Word, seqno: Word)
    requires buf.Length >= MIN_LENGTH
    modifies buf
    ensures buf[..] == Header(big, old(buf[..]), kind, ident, seqno) && buf[2] == buf[3] == 0
  {
    buf[0] := kind;
    buf[1] := 0;
    buf[2] := 0;
    buf[3] := 0;
    assert buf[..] == Zeroed(old(buf[..])[0 := kind][1 := 0]);
    PutWord(big, buf, 6, seqno);
    PutWord(big, buf, 4, ident);
    assert buf[..][2] == 0 && buf[..][3] == 0;
  }

  /** Where the fields of the header are. */
  lemma HeaderAt(big: bool, m: seq<Byte>, kind: Byte, ident: Word, seqno: Word)
    requires |m| >= MIN_LENGTH
    ensures var z := Header(big, m, kind, ident, seqno);
      && |z| == |m| && z[0] == kind && z[1] == 0 && z[8..] == m[8..]
      && (big ==> ident == Wide(z[4], z[5]) && seqno == Wide(z[6], z[7]))
      && (!big ==> ident == Wide(z[5], z[4]) && seqno == Wide(z[7], z[6]))
  {
    StoreLoad(big, ident);
    StoreLoad(big, seqno);
  }

  /** `icmp_generic_encode` writes the header and the checksum in place. */
  method Encode(big: bool, buf: array<Byte>, kind: Byte, ident: Word, seqno: Word) returns (r: int)
    requires buf.Length <= MAX_LENGTH
    modifies buf
    ensures buf.Length < MIN_LENGTH ==> r == -1 && buf[..] == old(buf[..])
    ensures buf.Length >= MIN_LENGTH ==>
      && r == 0 && buf[0] == kind && buf[1] == 0 && buf[8..] == old(buf[8..])
      && (big ==> ident == Wide(buf[4], buf[5]) && seqno == Wide(buf[6], buf[7]))
      && (!big ==> ident == Wide(buf[5], buf[4]) && seqno == Wide(buf[7], buf[6]))
      && Accepts(big, buf[..])
  {
    if buf.Length < MIN_LENGTH {
      return -1;
    }
    HeaderAt(big, buf[..], kind, ident, seqno);
    WriteHeader(big, buf, kind, ident, seqno);
    ghost var z := buf[..];
    assert buf[0..buf.Length] == z;
    var ck := IcmpCksum(big, buf, 0, buf.Length);
    PutWord(big, buf, 2, ck);
    assert z[2] == 0 && z[3] == 0;
    assert Zeroed(buf[..]) == z;
    StoreLoad(big, ck);
    return 0;
  }

  /** `icmp_generic_decode`: -1 too short, 1 checksum mismatch, 0 good; the checksum is recomputed in place. */
  method Decode(big: bool, buf: array<Byte>, n: nat) returns (r: int, hlen: nat)
    requires 0 < buf.Length && n <= buf.Length && n <= MAX_LENGTH
    modifies buf
    ensures hlen == old(buf[0]) % 16 * 4
    ensures r == -1 <==> n < hlen + MIN_LENGTH
    ensures r == -1 ==> buf[..] == old(buf[..])
    ensures r != -1 ==>
      && (r == if Accepts(big, old(buf[hlen..n])) then 0 else 1)
      && Zeroed(buf[hlen..n]) == Zeroed(old(buf[hlen..n])) && Accepts(big, buf[hlen..n])
  {
    hlen := buf[0] % 16 * 4;
    if n < hlen + MIN_LENGTH {
      return -1, hlen;
    }
    ghost var m := buf[hlen..n];
    var cksum := Load(big, buf[hlen + 2], buf[hlen + 3]);
    buf[hlen + 2], buf[hlen + 3] := 0, 0;
    assert buf[hlen..n] == Zeroed(m);
    var ck := IcmpCksum(big, buf, hlen, n);
    buf[hlen + 2], buf[hlen + 3] := Store(big, ck).0, Store(big, ck).1;
    StoreLoad(big, ck);
    assert Zeroed(buf[hlen..n]) == Zeroed(m);
    r := if ck != cksum then 1 else 0;
  }

  /** `s` and the complement of its fold add up to ones, and nothing else below ones does. */
  lemma Complement(s: nat, c: Word)
    ensures Fold(s + c) == ONES <==> c == ONES - Fold(s) || (c == ONES && s > 0 && Fold(s) == ONES)
  {
    var q := if s == 0 then 0 else (s - 1) / ONES;
    var f := Fold(s);
    assert s == q * ONES + f;
    if s + c > 0 {
      if f + c > ONES {
        assert s + c - 1 == (q + 1) * ONES + (f + c - ONES - 1);
      } else if f + c > 0 {
        assert s + c - 1 == q * ONES + (f + c - 1);
      }
    }
  }

  /**
   A message is accepted exactly when its one's complement sum is 0xffff, as
   section 1 of RFC 1071 has it, and its checksum field is not 0xffff where
   the code would have stored zero.
   */
  lemma AcceptsIffSumIsOnes(big: bool, m: seq<Byte>)
    requires |m| >= MIN_LENGTH
    ensures Accepts(big, m) <==>
      OnesSum(Words(big, m)) == ONES && !(Stored(big, m) == ONES && OnesSum(Words(big, Zeroed(m))) == ONES)
  {
    var z := Words(big, Zeroed(m));
    ChecksumWord(big, m);
    SumSet(z, 1, Stored(big, m));
    OnesSumIsFold(z);
    OnesSumIsFold(Words(big, m));
    Complement(Sum(z), Stored(big, m));
  }

  /** The two forms of zero. */
  predicate Zeros(w: Word, v: Word) { (w == 0 && v == ONES) || (w == ONES && v == 0) }

  lemma FoldEqualIff(s: nat, w: Word, v: Word)
    ensures Fold(s + w) == Fold(s + v) <==> w == v || (s > 0 && Zeros(w, v))
  {
    FoldStep(s, w);
    FoldStep(s, v);
  }

  lemma FoldStep(s: nat, w: Word)
    ensures Fold(s + w) == OnesAdd(w, Fold(s))
  {
    FoldAdd(w, s);
  }

  lemma FoldChange(z: seq<Word>, i: nat, w: Word)
    requires i < |z|
    ensures Fold(Sum(z)) == Fold(Sum(z[i := w])) <==> z[i] == w || (Zeros(z[i], w) && Sum(z[i := 0]) > 0)
  {
    SumSet(z, i, 0);
    SumSet(z, i, w);
    FoldEqualIff(Sum(z[i := 0]), z[i], w);
  }

  lemma AcceptsFold(big: bool, m: seq<Byte>)
    requires |m| >= MIN_LENGTH
    ensures Accepts(big, m) <==> Stored(big, m) == ONES - Fold(Sum(Words(big, Zeroed(m))))
  {
    OnesSumIsFold(Words(big, Zeroed(m)));
  }

  lemma ZeroedChange(big: bool, m: seq<Byte>, m': seq<Byte>, i: nat)
    requires |m| == |m'| >= MIN_LENGTH && i < |Words(big, m)| && i != 1
    requires Words(big, m') == Words(big, m)[i := Words(big, m')[i]]
    ensures Stored(big, m') == Stored(big, m)
    ensures Words(big, Zeroed(m))[i] == Words(big, m)[i]
    ensures Words(big, Zeroed(m')) == Words(big, Zeroed(m))[i := Words(big, m')[i]]
  {
    var z, z' := Words(big, Zeroed(m)), Words(big, Zeroed(m'));
    ChecksumWord(big, m);
    ChecksumWord(big, m');
    assert Stored(big, m) == Words(big, m)[1] && Stored(big, m') == Words(big, m')[1];
    assert z == Words(big, m)[1 := 0] && z' == Words(big, m')[1 := 0];
  }

  /**
   Any change of a single word other than the checksum is rejected, except
   0x0000 for 0xffff or the other way round when some other word is not zero.
   */
  lemma SingleWordChange(big: bool, m: seq<Byte>, m': seq<Byte>, i: nat)
    requires |m| == |m'| >= MIN_LENGTH && i < |Words(big, m)| && i != 1
    requires Words(big, m') == Words(big, m)[i := Words(big, m')[i]]
    requires Accepts(big, m)
    ensures var w, w' := Words(big, m)[i], Words(big, m')[i];
      Accepts(big, m') <==>
        w == w' || (Zeros(w, w') && Sum(Words(big, Zeroed(m))[i := 0]) > 0)
  {
    ZeroedChange(big, m, m', i);
    AcceptsFold(big, m);
    AcceptsFold(big, m');
    FoldChange(Words(big, Zeroed(m)), i, Words(big, m')[i]);
  }

  /** A changed checksum field is always rejected. */
  lemma ChecksumChange(big: bool, m: seq<Byte>, m': seq<Byte>)
    requires |m| == |m'| >= MIN_LENGTH && Zeroed(m) == Zeroed(m') && Accepts(big, m)
    ensures Accepts(big, m') <==> m' == m
  {
    if Accepts(big, m') {
      assert Stored(big, m) == Stored(big, m');
      assert m[2] == m'[2] && m[3] == m'[3];
      assert m == Zeroed(m)[2 := m[2]][3 := m[3]];
      assert m' == Zeroed(m')[2 := m[2]][3 := m[3]];
    }
  }
}
