/**
 The read-ahead / write-behind buffers of `libinetutils/tftpsubs.c`, with the
 netascii conversion whose state crosses block boundaries.
 */
module Netascii {

  import opened Octets

  function EncodeByte(c: Byte): seq<Byte> {
    if c == LF then [CR, LF] else if c == CR then [CR, NUL] else [c]
  }

  /** The netascii form of a file: LF becomes CR LF, CR becomes CR NUL. */
  function Encode(f: seq<Byte>): seq<Byte> {
    if f == [] then [] else EncodeByte(f[0]) + Encode(f[1..])
  }

  /** The file written so far and the previous network byte (-1 before the first). */
  datatype Sink = Sink(file: seq<Byte>, prev: int)

  /** One byte from the network: CR LF overwrites the CR, the NUL of CR NUL is dropped. */
  function DecodeByte(s: Sink, c: Byte): Sink {
    if s.prev == CR && c == LF && s.file != [] then Sink(s.file[..|s.file| - 1] + [LF], c)
    else if s.prev == CR && c == NUL then Sink(s.file, c)
    else Sink(s.file + [c], c)
  }

  function Decode(s: Sink, net: seq<Byte>): Sink
    decreases |net|
  {
    if net == [] then s else Decode(DecodeByte(s, net[0]), net[1..])
  }

  lemma {:induction false} DecodeAppend(s: Sink, a: seq<Byte>, b: seq<Byte>)
    ensures Decode(s, a + b) == Decode(Decode(s, a), b)
    decreases |a|
  {
    if a == [] {
      assert a + b == b;
    } else {
      assert (a + b)[1..] == a[1..] + b;
      DecodeAppend(DecodeByte(s, a[0]), a[1..], b);
    }
  }

  /** A carriage return just seen is the last byte of the file, so it can be overwritten. */
  predicate Seekable(s: Sink) { s.prev == CR ==> s.file != [] && s.file[|s.file| - 1] == CR }

  lemma {:induction false} DecodeSeekable(s: Sink, net: seq<Byte>)
    requires Seekable(s)
    ensures Seekable(Decode(s, net))
    decreases |net|
  {
    if net != [] {
      DecodeSeekable(DecodeByte(s, net[0]), net[1..]);
    }
  }

  /** Decoding the encoded form of any file appends exactly that file. */
  lemma {:induction false} RoundTrip(s: Sink, f: seq<Byte>)
    requires s.prev != CR
    ensures Decode(s, Encode(f)).file == s.file + f
    decreases |f|
  {
    if f == [] {
      assert s.file + f == s.file;
    } else {
      var e := EncodeByte(f[0]);
      DecodeAppend(s, e, Encode(f[1..]));
      var s1 := Decode(s, e);
      assert s1.file == s.file + [f[0]] && s1.prev != CR by {
        if f[0] == LF || f[0] == CR {
          assert e == [CR, e[1]] && [CR, e[1]][1..] == [e[1]] && [e[1]][1..] == [];
          var m := DecodeByte(s, CR);
          assert m.file == s.file + [CR] && m.file[..|m.file| - 1] == s.file;
          assert Decode(m, [e[1]]) == DecodeByte(m, e[1]);
        } else {
          assert e[1..] == [];
        }
      }
      RoundTrip(s1, f[1..]);
      assert s1.file + f[1..] == s.file + f;
    }
  }
}

module Tftp {
  import opened Octets
  import opened Netascii

  const SEGSIZE := 512
  const BF_ALLOC := -3
  const BF_FREE := -2

  /** The bytes a file is sent as. */
  function Wire(f: seq<Byte>, convert: bool): seq<Byte> { if convert then Encode(f) else f }

  /** A block from the front of a stream, and what follows it. */
  function Head(r: seq<Byte>): seq<Byte> { r[..Min(SEGSIZE, |r|)] }

  function Tail(r: seq<Byte>): seq<Byte> { r[Min(SEGSIZE, |r|)..] }

  /** The stream from the k-th block on. */
  function From(e: seq<Byte>, k: nat): seq<Byte> { if k == 0 then e else Tail(From(e, k - 1)) }

  /** The k-th block of a stream. */
  function Chunk(e: seq<Byte>, k: nat): seq<Byte> { Head(From(e, k)) }

  lemma NextBlock(done: seq<Byte>, e: seq<Byte>, k: nat)
    requires done + From(e, k) == e
    ensures done + Chunk(e, k) + From(e, k + 1) == e
  {
    var c, rest := Chunk(e, k), From(e, k + 1);
    assert c + rest == From(e, k);
    assert (done + c) + rest == done + (c + rest);
  }

  lemma AfterBlock(e: seq<Byte>, k: nat)
    ensures |Chunk(e, k)| < SEGSIZE ==> From(e, k + 1) == []
    ensures |Chunk(e, k)| == SEGSIZE ==> |From(e, k + 1)| < |From(e, k)|
    ensures |Chunk(e, k)| <= SEGSIZE
  {}

  /** Blocks are consecutive pieces of SEGSIZE bytes; only the last is short, and those after it are empty. */
  lemma {:induction false} ChunkAt(e: seq<Byte>, k: nat)
    ensures From(e, k) == e[Min(SEGSIZE * k, |e|)..]
    ensures Chunk(e, k) == e[Min(SEGSIZE * k, |e|)..Min(SEGSIZE * (k + 1), |e|)]
  {
    if k > 0 { ChunkAt(e, k - 1); }
  }

  /** The unread part of the file and the conversion flags. */
  datatype Source = Source(tail: seq<Byte>, newline: bool, prevchar: int)

  /** One turn of the conversion loop of `read_ahead`; -1 at the end of the file. */
  function Next(s: Source): (int, Source) {
    if s.newline then (if s.prevchar == LF then LF else NUL, s.(newline := false))
    else if s.tail == [] then (-1, s)
    else
      var c := s.tail[0];
      if c == LF || c == CR then (CR, Source(s.tail[1..], true, c)) else (c, s.(tail := s.tail[1..]))
  }

  /** At most `n` turns: the bytes produced and what is left. */
  function Take(s: Source, n: nat): (seq<Byte>, Source)
    decreases n
  {
    if n == 0 then ([], s)
    else
      var (c, s1) := Next(s);
      if c == -1 then ([], s) else var (bs, s2) := Take(s1, n - 1); ([c] + bs, s2)
  }

  /** What is still to be sent. */
  function Rest(s: Source, convert: bool): seq<Byte> {
    if convert && s.newline then [if s.prevchar == LF then LF else NUL] + Encode(s.tail) else Wire(s.tail, convert)
  }

  lemma NextIsFirst(s: Source)
    ensures var (c, s1) := Next(s); var r := Rest(s, true);
            if c == -1 then r == [] && s1 == s else r == [c] + Rest(s1, true)
  {
    if !s.newline && s.tail != [] {
      assert Encode(s.tail) == EncodeByte(s.tail[0]) + Encode(s.tail[1..]);
    }
  }

  /** The loop produces the next bytes of the encoded file, whatever the flags say. */
  lemma {:induction false} TakeIsPrefix(s: Source, n: nat)
    ensures var (bs, s') := Take(s, n); var r := Rest(s, true); var m := Min(n, |r|);
            bs == r[..m] && Rest(s', true) == r[m..]
    decreases n
  {
    NextIsFirst(s);
    var (c, s1) := Next(s);
    if n != 0 && c != -1 {
      TakeIsPrefix(s1, n - 1);
    }
  }

  /** A file open for reading. */
  class InFile {
    const content: seq<Byte>
    var pos: nat

    constructor (content: seq<Byte>)
      ensures this.content == content && pos == 0
    {
      this.content := content;
      pos := 0;
    }

    /** `getc`; -1 at the end. */
    method Getc() returns (c: int)
      requires pos <= |content|
      modifies this
      ensures pos <= |content|
      ensures old(pos) == |content| ==> c == -1 && pos == old(pos)
      ensures old(pos) < |content| ==> c == content[old(pos)] && pos == old(pos) + 1
    {
      if pos == |content| { return -1; }
      c := content[pos];
      pos := pos + 1;
    }
  }

  /** A file open for writing. */
  class OutFile {
    var content: seq<Byte>
    var pos: nat

    constructor ()
      ensures content == [] && pos == 0
    {
      content := [];
      pos := 0;
    }

    method Putc(c: Byte)
      requires pos <= |content|
      modifies this
      ensures pos == old(pos) + 1 && pos <= |content|
      ensures content == old(content[..pos]) + [c] + (if old(pos) < |old(content)| then old(content[pos + 1..]) else [])
    {
      content := content[..pos] + [c] + if pos < |content| then content[pos + 1..] else [];
      pos := pos + 1;
    }

    /** `fseek (file, -1, SEEK_CUR)`. */
    method BackOne()
      requires 0 < pos
      modifies this
      ensures pos == old(pos) - 1 && content == old(content)
    {
      pos := pos - 1;
    }
  }

  /** The two buffers and the conversion flags. */
  class Buffers {
    var counter: seq<int>
    const buf0: array<Byte>
    const buf1: array<Byte>
    var nextone: int
    var current: int
    var newline: bool
    var prevchar: int

    ghost const stream: seq<Byte>    // everything a reader will hand out
    ghost var taken: nat             // blocks handed out by Readit
    ghost var filled: nat            // blocks read from the file
    ghost var accepted: seq<Byte>    // payloads given to Writeit
    ghost var flushed: seq<Byte>     // payloads written to the file

    ghost predicate Shape()
      reads this
    {
      && |counter| == 2 && 0 <= nextone < 2 && 0 <= current < 2
      && buf0 != buf1 && buf0.Length == SEGSIZE && buf1.Length == SEGSIZE
    }

    function Buf(i: int): array<Byte> { if i == 0 then buf0 else buf1 }

    // ---------- reading ----------

    ghost function View(f: InFile): Source
      requires f.pos <= |f.content|
      reads this, f
    {
      Source(f.content[f.pos..], newline, prevchar)
    }

    /** The conversion state stands exactly after the blocks filled so far. */
    ghost predicate Codec(f: InFile, convert: bool)
      reads this, f
    {
      Shape() && f.pos <= |f.content| && Rest(View(f), convert) == From(stream, filled)
    }

    /** Between calls: one buffer is handed out, and the other is free or holds the block after it. */
    ghost predicate ValidRead(f: InFile, convert: bool)
      reads this, f, buf0, buf1
    {
      && Codec(f, convert)
      && counter[current] != BF_FREE
      && if nextone == current
         then filled == taken + 1 && Holds(1 - current, Chunk(stream, taken))
         else filled == taken && counter[1 - current] == BF_FREE
    }

    ghost predicate Holds(i: int, block: seq<Byte>)
      requires Shape() && 0 <= i < 2
      reads this, buf0, buf1
    {
      counter[i] == |block| <= SEGSIZE && Buf(i)[..|block|] == block
    }

    /** `r_init`. */
    constructor Reader(f: InFile, convert: bool)
      requires f.pos == 0
      ensures ValidRead(f, convert) && taken == 0 && stream == Wire(f.content, convert)
      ensures fresh(buf0) && fresh(buf1)
    {
      newline := false;
      prevchar := -1;
      counter := [BF_ALLOC, BF_FREE];
      current := 0;
      nextone := 1;
      buf0 := new Byte[SEGSIZE];
      buf1 := new Byte[SEGSIZE];
      stream := Wire(f.content, convert);
      taken, filled, accepted, flushed := 0, 0, [], [];
      new;
      assert View(f).tail == f.content;
    }

    method NextByte(f: InFile) returns (c: int)
      requires f.pos <= |f.content|
      modifies this`newline, this`prevchar, f
      ensures f.pos <= |f.content| && (c, View(f)) == Next(old(View(f)))
    {
      if newline {
        c := if prevchar == LF then LF else NUL;
        newline := false;
      } else {
        c := f.Getc();
        if c == LF || c == CR {
          prevchar := c;
          c := CR;
          newline := true;
        }
      }
    }

    /** The conversion loop of `read_ahead`. */
    method FillConverted(f: InFile, b: array<Byte>) returns (n: nat)
      requires f.pos <= |f.content|
      modifies this`newline, this`prevchar, f, b
      ensures f.pos <= |f.content| && n <= b.Length
      ensures b[..n] == Take(old(View(f)), b.Length).0 && View(f) == Take(old(View(f)), b.Length).1
    {
      ghost var all := Take(View(f), b.Length);
      n := 0;
      while n < b.Length
        invariant n <= b.Length && f.pos <= |f.content|
        invariant all.0 == b[..n] + Take(View(f), b.Length - n).0
        invariant all.1 == Take(View(f), b.Length - n).1
      {
        ghost var done := b[..n];
        ghost var more := Take(Next(View(f)).1, b.Length - n - 1).0;
        var c := NextByte(f);
        if c == -1 {
          break;
        }
        b[n] := c;
        n := n + 1;
        assert b[..n] == done + [c] && done + ([c] + more) == done + [c] + more;
      }
      assert Take(View(f), b.Length - n) == ([], View(f));
    }

    /** The filling part of `read_ahead`: the next bytes of the stream, at most a block. */
    method Fill(f: InFile, convert: bool, b: array<Byte>) returns (n: nat)
      requires f.pos <= |f.content| && b.Length == SEGSIZE
      modifies this`newline, this`prevchar, f, b
      ensures f.pos <= |f.content|
      ensures var r := old(Rest(View(f), convert));
              n == |Head(r)| && b[..n] == Head(r) && Rest(View(f), convert) == Tail(r)
    {
      if convert {
        TakeIsPrefix(View(f), b.Length);
        n := FillConverted(f, b);
      } else {
        n := Min(SEGSIZE, |f.content| - f.pos);
        forall i | 0 <= i < n { b[i] := f.content[f.pos + i]; }
        f.pos := f.pos + n;
      }
    }

    /** `read_ahead`: nothing unless the next buffer is free; then that buffer gets the next block. */
    method ReadAhead(f: InFile, convert: bool)
      requires Codec(f, convert)
      modifies this`counter, this`nextone, this`newline, this`prevchar, this`filled, f, Buf(nextone)
      ensures Codec(f, convert)
      ensures old(counter[nextone]) != BF_FREE ==>
                counter == old(counter) && nextone == old(nextone) && filled == old(filled) && f.pos == old(f.pos)
                && Buf(nextone)[..] == old(Buf(nextone)[..])
      ensures old(counter[nextone]) == BF_FREE ==>
                && nextone == 1 - old(nextone) && filled == old(filled) + 1
                && Holds(old(nextone), Chunk(stream, old(filled)))
                && counter == old(counter)[old(nextone) := counter[old(nextone)]]
    {
      if counter[nextone] != BF_FREE { return; }
      var b := nextone;
      nextone := 1 - nextone;
      var n := Fill(f, convert, Buf(b));
      counter := counter[b := n];
      filled := filled + 1;
    }

    /** Reading ahead between calls changes nothing the caller of `readit` can see. */
    method ReadAheadBetween(f: InFile, convert: bool)
      requires ValidRead(f, convert)
      modifies this`counter, this`nextone, this`newline, this`prevchar, this`filled, f, Buf(nextone)
      ensures ValidRead(f, convert) && nextone == current
      ensures counter[current] == old(counter[current]) && Buf(current)[..] == old(Buf(current)[..])
    {
      ReadAhead(f, convert);
    }

    /** `readit`: the next block, whatever has been read ahead.  The buffer handed out is never a free one. */
    method Readit(f: InFile, convert: bool) returns (b: int, n: int)
      requires ValidRead(f, convert)
      modifies this, f, buf0, buf1
      ensures ValidRead(f, convert) && taken == old(taken) + 1
      ensures b == current && n == counter[current] != BF_FREE
      ensures Holds(b, Chunk(stream, old(taken)))
    {
      counter := counter[current := BF_FREE];
      current := 1 - current;
      if counter[current] == BF_FREE {
        ReadAhead(f, convert);
      }
      taken := taken + 1;
      b, n := current, counter[current];
    }

    // ---------- writing ----------

    /** The file holds exactly the payloads flushed so far, converted. */
    ghost predicate Written(f: OutFile, convert: bool)
      reads this, f
    {
      && Shape() && f.pos == |f.content|
      && if convert then Sink(f.content, prevchar) == Decode(Sink([], -1), flushed) else f.content == flushed
    }

    /** The payload of a full buffer; a count of 0 or -1 carries none. */
    ghost function Payload(i: int): seq<Byte>
      requires Shape() && 0 <= i < 2 && counter[i] <= SEGSIZE
      reads this, buf0, buf1
    {
      if counter[i] > 0 then Buf(i)[..counter[i]] else []
    }

    /** Between calls: one buffer is handed out, and the other is free or holds the last payload accepted. */
    ghost predicate ValidWrite(f: OutFile, convert: bool)
      reads this, f, buf0, buf1
    {
      && Written(f, convert)
      && counter[current] == BF_ALLOC
      && if nextone == current
         then counter[1 - current] == BF_FREE && accepted == flushed
         else -1 <= counter[1 - current] <= SEGSIZE && accepted == flushed + Payload(1 - current)
    }

    /** `w_init`. */
    constructor Writer(f: OutFile, convert: bool)
      requires f.content == [] && f.pos == 0
      ensures ValidWrite(f, convert) && accepted == []
      ensures fresh(buf0) && fresh(buf1)
    {
      newline := false;
      prevchar := -1;
      counter := [BF_ALLOC, BF_FREE];
      current := 0;
      nextone := 0;
      buf0 := new Byte[SEGSIZE];
      buf1 := new Byte[SEGSIZE];
      stream, taken, filled, accepted, flushed := [], 0, 0, [], [];
    }

    /** One turn of the conversion loop of `write_behind`. */
    method PutByte(f: OutFile, c: Byte)
      requires f.pos == |f.content| && Seekable(Sink(f.content, prevchar))
      modifies this`prevchar, f
      ensures f.pos == |f.content| && Seekable(Sink(f.content, prevchar))
      ensures Sink(f.content, prevchar) == DecodeByte(old(Sink(f.content, prevchar)), c)
    {
      if prevchar == CR && c == LF {
        f.BackOne();
        f.Putc(c);
      } else if prevchar == CR && c == NUL {
      } else {
        f.Putc(c);
      }
      prevchar := c;
    }

    /** The conversion loop of `write_behind`. */
    method PutAll(f: OutFile, b: array<Byte>, count: nat)
      requires f.pos == |f.content| && Seekable(Sink(f.content, prevchar)) && count <= b.Length
      modifies this`prevchar, f
      ensures f.pos == |f.content|
      ensures Sink(f.content, prevchar) == Decode(old(Sink(f.content, prevchar)), b[..count])
    {
      ghost var s0 := Sink(f.content, prevchar);
      var i := 0;
      while i < count
        invariant i <= count && f.pos == |f.content| && Seekable(Sink(f.content, prevchar))
        invariant Sink(f.content, prevchar) == Decode(s0, b[..i])
      {
        PutByte(f, b[i]);
        DecodeLast(s0, b[..i], b[i]);
        assert b[..i] + [b[i]] == b[..i + 1];
        i := i + 1;
      }
    }

    /** `write_behind`: flushes the oldest full buffer, if there is one. */
    method WriteBehind(f: OutFile, convert: bool) returns (r: int)
      requires Written(f, convert) && counter[nextone] <= SEGSIZE
      modifies this`counter, this`nextone, this`prevchar, this`flushed, f
      ensures Written(f, convert)
      ensures old(counter[nextone]) < -1 ==>
                r == 0 && counter == old(counter) && nextone == old(nextone) && flushed == old(flushed)
      ensures old(counter[nextone]) >= -1 ==>
                && r == (if old(counter[nextone]) <= 0 then -1 else old(counter[nextone]))
                && counter == old(counter)[old(nextone) := BF_FREE] && nextone == 1 - old(nextone)
                && flushed == old(flushed) + old(Payload(nextone))
    {
      if counter[nextone] < -1 { return 0; }
      var b, count := Buf(nextone), counter[nextone];
      counter := counter[nextone := BF_FREE];
      nextone := 1 - nextone;
      if count <= 0 {
        assert flushed + [] == flushed;
        return -1;
      }
      Flush(f, convert, b, count);
      return count;
    }

    method Flush(f: OutFile, convert: bool, b: array<Byte>, count: nat)
      requires Written(f, convert) && count <= b.Length
      modifies this`prevchar, this`flushed, f
      ensures Written(f, convert) && flushed == old(flushed) + b[..count]
    {
      if !convert {
        f.content := f.content + b[..count];
        f.pos := |f.content|;
      } else {
        DecodeSeekable(Sink([], -1), flushed);
        PutAll(f, b, count);
        DecodeAppend(Sink([], -1), flushed, b[..count]);
      }
      flushed := flushed + b[..count];
    }

    /** Flushing between calls loses and reorders nothing, and leaves nothing pending. */
    method WriteBehindBetween(f: OutFile, convert: bool) returns (r: int)
      requires ValidWrite(f, convert)
      modifies this`counter, this`nextone, this`prevchar, this`flushed, f
      ensures ValidWrite(f, convert) && flushed == accepted
    {
      r := WriteBehind(f, convert);
    }

    /** `writeit`: the payload in the current buffer is accepted, and another buffer handed out. */
    method Writeit(f: OutFile, ct: int, convert: bool) returns (r: int)
      requires ValidWrite(f, convert) && -1 <= ct <= SEGSIZE
      modifies this`counter, this`current, this`nextone, this`prevchar, this`flushed, this`accepted, f
      ensures ValidWrite(f, convert) && r == ct
      ensures accepted == old(accepted) + if ct > 0 then old(Buf(current)[..ct]) else []
    {
      ghost var was := accepted;
      counter := counter[current := ct];
      ghost var payload := Payload(current);
      current := 1 - current;
      if counter[current] != BF_FREE {
        var _ := WriteBehind(f, convert);
      }
      counter := counter[current := BF_ALLOC];
      accepted := was + payload;
      return ct;
    }
  }

  lemma DecodeLast(s: Sink, a: seq<Byte>, c: Byte)
    ensures Decode(s, a + [c]) == DecodeByte(Decode(s, a), c)
  {
    DecodeAppend(s, a, [c]);
    assert [c][1..] == [];
  }

  /** Once the payloads of a whole stream are flushed, the file written is the file read. */
  lemma Copied(w: Buffers, dst: OutFile, f: seq<Byte>, convert: bool)
    requires w.Written(dst, convert) && w.flushed == Wire(f, convert)
    ensures dst.content == f
  {
    if convert {
      RoundTrip(Sink([], -1), f);
    }
  }

  /** A packet arrives in the buffer the writer has handed out. */
  method Receive(packet: array<Byte>, n: int, w: Buffers, ghost dst: OutFile, ghost convert: bool)
    requires w.ValidWrite(dst, convert) && 0 <= n <= packet.Length == SEGSIZE
    requires packet != w.buf0 && packet != w.buf1
    modifies w.Buf(w.current)
    ensures w.ValidWrite(dst, convert) && w.Buf(w.current)[..n] == packet[..n]
  {
    var d := w.Buf(w.current);
    forall i | 0 <= i < n { d[i] := packet[i]; }
  }

  method Accept(packet: array<Byte>, n: int, w: Buffers, dst: OutFile, convert: bool)
    requires w.ValidWrite(dst, convert) && 0 <= n <= packet.Length == SEGSIZE
    requires packet != w.buf0 && packet != w.buf1
    modifies w, w.buf0, w.buf1, dst
    ensures w.ValidWrite(dst, convert) && w.accepted == old(w.accepted) + packet[..n]
  {
    Receive(packet, n, w, dst, convert);
    var _ := w.Writeit(dst, n, convert);
  }

  /** One DATA packet: the block read is accepted at the other end. */
  method SendBlock(r: Buffers, src: InFile, w: Buffers, dst: OutFile, convert: bool) returns (size: int)
    requires r.ValidRead(src, convert) && w.ValidWrite(dst, convert) && r != w
    requires {r.buf0, r.buf1} !! {w.buf0, w.buf1}
    modifies r, r.buf0, r.buf1, src, w, w.buf0, w.buf1, dst
    ensures r.ValidRead(src, convert) && w.ValidWrite(dst, convert) && r.taken == old(r.taken) + 1
    ensures size == |Chunk(r.stream, old(r.taken))|
    ensures w.accepted == old(w.accepted) + Chunk(r.stream, old(r.taken))
  {
    var b;
    b, size := r.Readit(src, convert);
    Accept(r.Buf(b), size, w, dst, convert);
  }

  /** The two ends after some blocks: the writer has accepted exactly what the reader has handed out. */
  ghost predicate Linked(r: Buffers, src: InFile, w: Buffers, dst: OutFile, convert: bool, blocks: nat)
    reads r, src, r.buf0, r.buf1, w, dst, w.buf0, w.buf1
  {
    && r != w && {r.buf0, r.buf1} !! {w.buf0, w.buf1}
    && r.ValidRead(src, convert) && w.ValidWrite(dst, convert)
    && r.taken == blocks && w.accepted + From(r.stream, blocks) == r.stream
  }

  /** Any number of extra `read_ahead` calls. */
  method ReadAheads(r: Buffers, src: InFile, w: Buffers, dst: OutFile, convert: bool, times: nat, ghost blocks: nat)
    requires Linked(r, src, w, dst, convert, blocks)
    modifies r, r.buf0, r.buf1, src
    ensures Linked(r, src, w, dst, convert, blocks)
  {
    for i := 0 to times
      invariant Linked(r, src, w, dst, convert, blocks)
    {
      r.ReadAheadBetween(src, convert);
    }
  }

  /** Any number of extra `write_behind` calls. */
  method WriteBehinds(r: Buffers, src: InFile, w: Buffers, dst: OutFile, convert: bool, times: nat, ghost blocks: nat)
    requires Linked(r, src, w, dst, convert, blocks)
    modifies w, dst
    ensures Linked(r, src, w, dst, convert, blocks)
  {
    for i := 0 to times
      invariant Linked(r, src, w, dst, convert, blocks)
    {
      var _ := w.WriteBehindBetween(dst, convert);
    }
  }

  /** One block goes across, and then the extra calls. */
  method Turn(r: Buffers, src: InFile, w: Buffers, dst: OutFile, convert: bool, block: nat, ahead: seq<nat>, behind: seq<nat>)
    returns (size: int)
    requires Linked(r, src, w, dst, convert, block)
    modifies r, r.buf0, r.buf1, src, w, w.buf0, w.buf1, dst
    ensures Linked(r, src, w, dst, convert, block + 1)
    ensures size == |Chunk(r.stream, block)|
  {
    size := SendLinked(r, src, w, dst, convert, block);
    ReadAheads(r, src, w, dst, convert, if block < |ahead| then ahead[block] else 0, block + 1);
    WriteBehinds(r, src, w, dst, convert, if block < |behind| then behind[block] else 0, block + 1);
  }

  method SendLinked(r: Buffers, src: InFile, w: Buffers, dst: OutFile, convert: bool, ghost block: nat) returns (size: int)
    requires Linked(r, src, w, dst, convert, block)
    modifies r, r.buf0, r.buf1, src, w, w.buf0, w.buf1, dst
    ensures Linked(r, src, w, dst, convert, block + 1)
    ensures size == |Chunk(r.stream, block)|
  {
    NextBlock(w.accepted, r.stream, block);
    size := SendBlock(r, src, w, dst, convert);
  }

  /** Blocks go across until a short one, with extra calls in between. */
  method Blocks(r: Buffers, src: InFile, w: Buffers, dst: OutFile, convert: bool, ahead: seq<nat>, behind: seq<nat>)
    requires Linked(r, src, w, dst, convert, 0)
    modifies r, r.buf0, r.buf1, src, w, w.buf0, w.buf1, dst
    ensures w.ValidWrite(dst, convert) && w.accepted == r.stream
  {
    var block, more := 0, true;
    ghost var left := r.stream;
    while more
      invariant Linked(r, src, w, dst, convert, block) && left == From(r.stream, block)
      invariant !more ==> left == []
      decreases more, |left|
    {
      var size := Turn(r, src, w, dst, convert, block, ahead, behind);
      AfterBlock(r.stream, block);
      more := size == SEGSIZE;
      block := block + 1;
      left := From(r.stream, block);
    }
    assert w.accepted + left == r.stream;
  }

  /**
   A whole transfer: all blocks, then one last `write_behind`.  `ahead[i]` and
   `behind[i]` say how many extra `read_ahead` and `write_behind` calls fall
   after block i; the copy is exact whatever they are.
   */
  method Transfer(src: InFile, dst: OutFile, convert: bool, ahead: seq<nat>, behind: seq<nat>)
    requires src.pos == 0 && dst.content == [] && dst.pos == 0
    modifies src, dst
    ensures dst.content == src.content
  {
    var r, w := Open(src, dst, convert);
    Blocks(r, src, w, dst, convert, ahead, behind);
    Finish(w, dst, src.content, convert);
  }

  method Open(src: InFile, dst: OutFile, convert: bool) returns (r: Buffers, w: Buffers)
    requires src.pos == 0 && dst.content == [] && dst.pos == 0
    ensures Linked(r, src, w, dst, convert, 0) && r.stream == Wire(src.content, convert)
    ensures fresh(r) && fresh(r.buf0) && fresh(r.buf1) && fresh(w) && fresh(w.buf0) && fresh(w.buf1)
  {
    r := new Buffers.Reader(src, convert);
    w := new Buffers.Writer(dst, convert);
    LinkedAtStart(r, src, w, dst, convert);
  }

  lemma LinkedAtStart(r: Buffers, src: InFile, w: Buffers, dst: OutFile, convert: bool)
    requires r != w && {r.buf0, r.buf1} !! {w.buf0, w.buf1}
    requires r.ValidRead(src, convert) && w.ValidWrite(dst, convert)
    requires r.taken == 0 && w.accepted == []
    ensures Linked(r, src, w, dst, convert, 0)
  {}

  method Finish(w: Buffers, dst: OutFile, ghost f: seq<Byte>, convert: bool)
    requires w.ValidWrite(dst, convert) && w.accepted == Wire(f, convert)
    modifies w, dst
    ensures dst.content == f
  {
    var _ := w.WriteBehindBetween(dst, convert);
    Copied(w, dst, f, convert);
  }
}
