/**
 The two 64-bit feedback ciphers of `libtelnet/enc_des.c`, byte by byte.

 DES is a foreign library call: it is a function-valued parameter `des` (key,
 block) throughout, so every statement holds for every block function.
 */
module Cipher {

  /** A byte, as bits to be xored. */
  type Bits = bv8

  type Block = s: seq<Bits> | |s| == 8 witness [0, 0, 0, 0, 0, 0, 0, 0]

  type Des = (Block, Block) -> Block

  type Index = n: int | 0 <= n <= 8

  datatype Mode = CFB | OFB

  const ZERO: Block := [0, 0, 0, 0, 0, 0, 0, 0]

  /** `struct stinfo`: the registers of one direction of one cipher. */
  datatype Stream = Stream(iv: Block, output: Block, feed: Block, index: Index)

  /** What `fb64_init` leaves: everything cleared, the index included. */
  const CLEARED := Stream(ZERO, ZERO, ZERO, 0)

  /** `fb64_stream_iv`: the feed register keeps its old contents. */
  function StreamIv(seed: Block, s: Stream): Stream {
    Stream(seed, seed, s.feed, 8)
  }

  /** `fb64_stream_key`: restart from the vector already stored. */
  function StreamKey(s: Stream): Stream {
    Stream(s.iv, s.iv, s.feed, 8)
  }

  /** The register the block function is applied to: ciphertext for CFB, key stream for OFB. */
  function Register(m: Mode, s: Stream): Block {
    if m.CFB? then s.output else s.feed
  }

  function Refill(des: Des, m: Mode, key: Block, s: Stream): (r: Stream)
    ensures r.index < 8
  {
    if s.index == 8 then s.(feed := des(key, Register(m, s)), index := 0) else s
  }

  /** Consume one position of the key stream; `cipher` is the ciphertext byte at that position. */
  function Shift(m: Mode, s: Stream, cipher: Bits): Stream
    requires s.index < 8
  {
    s.(output := if m.CFB? then s.output[s.index := cipher] else s.output, index := s.index + 1)
  }

  function EncByte(des: Des, m: Mode, key: Block, s: Stream, data: Bits): (Stream, Bits) {
    var r := Refill(des, m, key, s);
    var c := r.feed[r.index] ^ data;
    (Shift(m, r, c), c)
  }

  function DecByte(des: Des, m: Mode, key: Block, s: Stream, data: Bits): (Stream, Bits) {
    var r := Refill(des, m, key, s);
    (Shift(m, r, data), data ^ r.feed[r.index])
  }

  /** `decrypt (-1)`: give one byte back. */
  function BackUp(s: Stream): Stream {
    if s.index != 0 then s.(index := s.index - 1) else s
  }

  function Enc(des: Des, m: Mode, key: Block, s: Stream, data: seq<Bits>): (r: (Stream, seq<Bits>))
    ensures |r.1| == |data|
    decreases |data|
  {
    if data == [] then (s, [])
    else
      var (s1, c) := EncByte(des, m, key, s, data[0]);
      var (s2, cs) := Enc(des, m, key, s1, data[1..]);
      (s2, [c] + cs)
  }

  function Dec(des: Des, m: Mode, key: Block, s: Stream, data: seq<Bits>): (r: (Stream, seq<Bits>))
    ensures |r.1| == |data|
    decreases |data|
  {
    if data == [] then (s, [])
    else
      var (s1, c) := DecByte(des, m, key, s, data[0]);
      var (s2, cs) := Dec(des, m, key, s1, data[1..]);
      (s2, [c] + cs)
  }

  lemma XorCancels(a: Bits, b: Bits)
    ensures (a ^ b) ^ a == b
  {}

  /** The receiver undoes one byte and ends with the sender's registers. */
  lemma ByteRoundTrip(des: Des, m: Mode, key: Block, s: Stream, data: Bits)
    ensures DecByte(des, m, key, s, EncByte(des, m, key, s, data).1) == (EncByte(des, m, key, s, data).0, data)
  {
    var r := Refill(des, m, key, s);
    XorCancels(r.feed[r.index], data);
  }

  /** Decryption inverts encryption from equal registers, and leaves both ends with equal registers. */
  lemma {:induction false} RoundTrip(des: Des, m: Mode, key: Block, s: Stream, data: seq<Bits>)
    ensures Dec(des, m, key, s, Enc(des, m, key, s, data).1) == (Enc(des, m, key, s, data).0, data)
    decreases |data|
  {
    if data != [] {
      var (s1, c) := EncByte(des, m, key, s, data[0]);
      var (s2, cs) := Enc(des, m, key, s1, data[1..]);
      ByteRoundTrip(des, m, key, s, data[0]);
      RoundTrip(des, m, key, s1, data[1..]);
      assert ([c] + cs)[1..] == cs;
      assert [data[0]] + data[1..] == data;
    }
  }

  lemma EncFirst(des: Des, m: Mode, key: Block, s: Stream, x: Bits, rest: seq<Bits>)
    ensures var (t, c) := EncByte(des, m, key, s, x);
            && Enc(des, m, key, s, [x] + rest).0 == Enc(des, m, key, t, rest).0
            && Enc(des, m, key, s, [x] + rest).1 == [c] + Enc(des, m, key, t, rest).1
  {
    assert ([x] + rest)[0] == x && ([x] + rest)[1..] == rest;
  }

  lemma Regroup(a: seq<Bits>, b: seq<Bits>)
    requires a != []
    ensures a == [a[0]] + a[1..] && a + b == [a[0]] + (a[1..] + b)
  {}

  lemma Regroup3(c: Bits, x: seq<Bits>, y: seq<Bits>)
    ensures [c] + (x + y) == ([c] + x) + y
  {}

  /** How the data is cut into calls does not matter. */
  lemma {:induction false} EncSplit(des: Des, m: Mode, key: Block, s: Stream, a: seq<Bits>, b: seq<Bits>)
    ensures var (s1, ca) := Enc(des, m, key, s, a);
            && Enc(des, m, key, s, a + b).0 == Enc(des, m, key, s1, b).0
            && Enc(des, m, key, s, a + b).1 == ca + Enc(des, m, key, s1, b).1
    decreases |a|
  {
    if a == [] {
      assert a + b == b;
      assert [] + Enc(des, m, key, s, b).1 == Enc(des, m, key, s, b).1;
    } else {
      var t, c := EncByte(des, m, key, s, a[0]).0, EncByte(des, m, key, s, a[0]).1;
      EncSplit(des, m, key, t, a[1..], b);
      Regroup(a, b);
      EncFirst(des, m, key, s, a[0], a[1..]);
      EncFirst(des, m, key, s, a[0], a[1..] + b);
      var ca := Enc(des, m, key, t, a[1..]);
      Regroup3(c, ca.1, Enc(des, m, key, ca.0, b).1);
    }
  }

  /** Peeking at a byte and backing up is invisible, whatever byte was peeked. */
  lemma PeekIsInvisible(des: Des, m: Mode, key: Block, s: Stream, a: Bits, b: Bits)
    ensures DecByte(des, m, key, BackUp(DecByte(des, m, key, s, a).0), b) == DecByte(des, m, key, s, b)
  {
    var r := Refill(des, m, key, s);
    assert r.output[r.index := a][r.index := b] == r.output[r.index := b];
  }

  // ---------- the block equations of the comments ----------

  function XorBytes(v: seq<Bits>, d: seq<Bits>): (r: seq<Bits>)
    requires |d| <= |v|
    ensures |r| == |d|
  {
    if d == [] then [] else [v[0] ^ d[0]] + XorBytes(v[1..], d[1..])
  }

  /** O_n = D_n ^ V_n, V_{n+1} = DES(O_n) for CFB and DES(V_n) for OFB, from V_0 = `v`. */
  function BlockEquations(des: Des, m: Mode, key: Block, v: Block, data: seq<Bits>): (r: seq<Bits>)
    decreases |data|
  {
    if |data| <= 8 then XorBytes(v, data)
    else
      var o := XorBytes(v, data[..8]);
      o + BlockEquations(des, m, key, des(key, if m.CFB? then o else v), data[8..])
  }

  /** Inside one block the feed stays put and is xored onto the data. */
  lemma {:induction false} WithinBlock(des: Des, m: Mode, key: Block, s: Stream, data: seq<Bits>)
    requires s.index + |data| <= 8 && s.index < 8
    ensures var r := Enc(des, m, key, s, data);
            && r.0.feed == s.feed
            && r.0.index == s.index + |data|
            && r.1 == XorBytes(s.feed[s.index..], data)
    decreases |data|
  {
    if data != [] {
      var t := EncByte(des, m, key, s, data[0]).0;
      var rest := data[1..];
      if rest != [] {
        WithinBlock(des, m, key, t, rest);
      }
      assert s.feed[s.index..][1..] == t.feed[t.index..];
    }
  }

  /** Inside one CFB block the output register collects the ciphertext. */
  lemma {:induction false} WithinBlockOutput(des: Des, key: Block, s: Stream, data: seq<Bits>)
    requires s.index + |data| <= 8 && s.index < 8
    ensures var r := Enc(des, CFB, key, s, data);
            r.0.output[..s.index + |data|] == s.output[..s.index] + r.1
    decreases |data|
  {
    if data != [] {
      var t, c := EncByte(des, CFB, key, s, data[0]).0, EncByte(des, CFB, key, s, data[0]).1;
      assert t.output[..t.index] == s.output[..s.index] + [c];
      var rest := data[1..];
      var o := Enc(des, CFB, key, t, rest).1;
      if rest != [] {
        WithinBlockOutput(des, key, t, rest);
      } else {
        assert o == [];
      }
      assert s.output[..s.index] + [c] + o == s.output[..s.index] + ([c] + o);
    }
  }

  /** From a block boundary, encryption computes the block equations started at DES(register). */
  lemma {:induction false} MeetsBlockEquations(des: Des, m: Mode, key: Block, s: Stream, data: seq<Bits>)
    requires s.index == 8
    ensures Enc(des, m, key, s, data).1 == BlockEquations(des, m, key, des(key, Register(m, s)), data)
    decreases |data|
  {
    var v := des(key, Register(m, s));
    var r := Refill(des, m, key, s);
    if data == [] {
    } else {
      assert Enc(des, m, key, s, data) == Enc(des, m, key, r, data);
      if |data| <= 8 {
        WithinBlock(des, m, key, r, data);
        assert r.feed[0..] == v;
        assert Enc(des, m, key, r, data).1 == XorBytes(v, data);
      } else {
        var a, b := data[..8], data[8..];
        assert data == a + b;
        WithinBlock(des, m, key, r, a);
        EncSplit(des, m, key, r, a, b);
        var (s1, o) := Enc(des, m, key, r, a);
        assert r.feed[0..] == v && o == XorBytes(v, a);
        if m.CFB? {
          WithinBlockOutput(des, key, r, a);
          assert s1.output[..8] == s1.output && r.output[..0] + o == o;
        }
        MeetsBlockEquations(des, m, key, s1, b);
      }
    }
  }

  /** CFB meets its comment after `fb64_stream_iv`: V_0 = DES(iV). */
  lemma CfbMeetsComment(des: Des, key: Block, iv: Block, s: Stream, data: seq<Bits>)
    ensures Enc(des, CFB, key, StreamIv(iv, s), data).1 == BlockEquations(des, CFB, key, des(key, iv), data)
  {
    MeetsBlockEquations(des, CFB, key, StreamIv(iv, s), data);
  }

  /** With a new key the stream begins again from the vector stored: V_0 = DES(iV), and for OFB from the feed register. */
  lemma KeyRestarts(des: Des, m: Mode, key: Block, s: Stream, data: seq<Bits>)
    ensures Enc(des, m, key, StreamKey(s), data).1
      == BlockEquations(des, m, key, des(key, if m.CFB? then s.iv else s.feed), data)
    ensures StreamKey(s).iv == s.iv
  {
    MeetsBlockEquations(des, m, key, StreamKey(s), data);
  }

  /** Encrypting zeroes exposes the key stream. */
  lemma {:induction false} XorZero(v: seq<Bits>, z: seq<Bits>)
    requires |z| == |v| && forall i :: 0 <= i < |z| ==> z[i] == 0
    ensures XorBytes(v, z) == v
  {
    if z != [] {
      XorZero(v[1..], z[1..]);
      assert v[0] ^ 0 == v[0];
    }
  }

  /**
   OFB meets its comment (V_0 = DES(iV)) on all data exactly when the feed
   register left over from before already has the same block image as the
   vector: `fb64_stream_iv` never loads the vector into the feed register.
   */
  lemma OfbMeetsCommentIff(des: Des, key: Block, iv: Block, s: Stream)
    ensures (forall data :: Enc(des, OFB, key, StreamIv(iv, s), data).1 == BlockEquations(des, OFB, key, des(key, iv), data))
       <==> des(key, s.feed) == des(key, iv)
  {
    forall data
      ensures Enc(des, OFB, key, StreamIv(iv, s), data).1 == BlockEquations(des, OFB, key, des(key, s.feed), data)
    {
      MeetsBlockEquations(des, OFB, key, StreamIv(iv, s), data);
    }
    XorZero(des(key, s.feed), ZERO);
    XorZero(des(key, iv), ZERO);
    assert Enc(des, OFB, key, StreamIv(iv, s), ZERO).1 == des(key, s.feed);
    assert BlockEquations(des, OFB, key, des(key, iv), ZERO) == des(key, iv);
  }

  /** On first use OFB departs from its comment for every vector but zero, if the block function is injective. */
  lemma OfbDepartsFromComment(des: Des, key: Block, iv: Block)
    requires (forall a: Block, b: Block :: des(key, a) == des(key, b) ==> a == b) && iv != ZERO
    ensures exists data :: Enc(des, OFB, key, StreamIv(iv, CLEARED), data).1 != BlockEquations(des, OFB, key,
        des(key, iv), data)
  {
    OfbMeetsCommentIff(des, key, iv, CLEARED);
    assert des(key, CLEARED.feed) == des(key, iv) ==> CLEARED.feed == iv;
  }
}
