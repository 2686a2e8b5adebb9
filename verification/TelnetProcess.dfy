/**
 The two ciphers of `libtelnet/enc_des.c` as they run: one record of registers
 for each direction of each cipher, changed in place, and the loops over a
 buffer.  Also the copying loops that build a suboption.
 */
module TelnetProcess {
  import opened Cipher
  import opened Telnet

  // ---------- one cipher ----------

  /** `done` and what encrypting `rest` from `s` gives make up the whole result. */
  ghost predicate Toward(des: Des, m: Mode, key: Block, s: Stream, rest: seq<Bits>, done: seq<Bits>, goal: (Stream,
                         seq<Bits>)) {
    var r := Enc(des, m, key, s, rest);
    r.0 == goal.0 && done + r.1 == goal.1
  }

  lemma TowardFirst(des: Des, m: Mode, key: Block, s: Stream, data: seq<Bits>, goal: (Stream, seq<Bits>))
    requires Enc(des, m, key, s, data) == goal
    ensures Toward(des, m, key, s, data, [], goal)
  {}

  lemma TowardNext(des: Des, m: Mode, key: Block, s: Stream, rest: seq<Bits>, done: seq<Bits>, goal: (Stream, seq<Bits>))
    requires rest != [] && Toward(des, m, key, s, rest, done, goal)
    ensures var (t, c) := EncByte(des, m, key, s, rest[0]); Toward(des, m, key, t, rest[1..], done + [c], goal)
  {
    var (t, c) := EncByte(des, m, key, s, rest[0]);
    var more := Enc(des, m, key, t, rest[1..]).1;
    assert done + [c] + more == done + ([c] + more);
  }

  lemma TowardEnd(des: Des, m: Mode, key: Block, s: Stream, done: seq<Bits>, goal: (Stream, seq<Bits>))
    requires Toward(des, m, key, s, [], done, goal)
    ensures s == goal.0 && done == goal.1
  {}

  lemma Cut(s: seq<Bits>, from: nat, to: nat)
    requires from <= to <= |s|
    ensures s == s[..from] + ([] + (s[from..to] + s[to..]))
  {}

  /** Storing over the first of `rest`. */
  lemma StoreNext(s: seq<Bits>, pre: seq<Bits>, done: seq<Bits>, rest: seq<Bits>, post: seq<Bits>, c: Bits)
    requires rest != [] && s == pre + (done + (rest + post))
    ensures var i := |pre| + |done|;
      i < |s| && s[i] == rest[0] && s[i := c] == pre + ((done + [c]) + (rest[1..] + post))
  {
    var i := |pre| + |done|;
    assert s[i := c] == s[..i] + [c] + s[i + 1..];
    assert s[..i] == pre + done && s[i + 1..] == rest[1..] + post;
  }

  /** `struct stinfo`: the registers of one direction of one cipher. */
  class StInfo {
    var iv: Block                      // str_iv
    const output: array<Bits>          // str_output
    const feed: array<Bits>            // str_feed
    var index: Index                   // str_index
    var key: Block                     // str_ikey

    function Repr(): set<object> { {this, output, feed} }

    /** The registers never move, so this is true of an object for good. */
    ghost predicate Valid() { output.Length == 8 && feed.Length == 8 && output != feed }

    ghost function View(): Stream
      reads this, output, feed
      requires Valid()
    {
      Stream(iv, output[..], feed[..], index)
    }

    constructor ()
      ensures Valid() && fresh(output) && fresh(feed) && View() == CLEARED && key == ZERO
    {
      iv, index, key := ZERO, 0, ZERO;
      output := new Bits[8](i => 0);
      feed := new Bits[8](i => 0);
    }

    /** `memmove` of a block into a register. */
    method Load(a: array<Bits>, b: Block)
      requires a.Length == 8
      modifies a
      ensures a[..] == b
    {
      forall i | 0 <= i < 8 { a[i] := b[i]; }
    }

    /** `fb64_stream_iv`. */
    method SetIv(seed: Block)
      requires Valid()
      modifies this`iv, this`index, output
      ensures View() == StreamIv(seed, old(View()))
    {
      iv := seed;
      Load(output, seed);
      index := 8;
    }

    /** `fb64_stream_key`. */
    method SetKey(k: Block)
      requires Valid()
      modifies this`key, this`index, output
      ensures key == k && View() == StreamKey(old(View()))
    {
      key := k;
      Load(output, iv);
      index := 8;
    }

    /** `if (index == sizeof (Block))`: the next block of the key stream. */
    method NextBlock(des: Des, m: Mode)
      requires Valid()
      modifies this`index, feed
      ensures View() == Refill(des, m, key, old(View()))
    {
      if index == 8 {
        var b := des(key, if m.CFB? then output[..] else feed[..]);
        Load(feed, b);
        index := 0;
      }
    }

    /** The register written and the index moved on, as both ciphers do it. */
    method Advance(m: Mode, cipher: Bits)
      requires Valid() && index < 8
      modifies this`index, output
      ensures View() == Shift(m, old(View()), cipher)
    {
      ghost var was := output[..];
      if m.CFB? {
        output[index] := cipher;
        assert output[..] == was[index := cipher];
      }
      index := index + 1;
    }

    /** One turn of the loops of `cfb64_encrypt` and `ofb64_encrypt`. */
    method EncryptByte(des: Des, m: Mode, data: Bits) returns (c: Bits)
      requires Valid()
      modifies this`index, output, feed
      ensures View() == EncByte(des, m, key, old(View()), data).0
      ensures c == EncByte(des, m, key, old(View()), data).1
    {
      NextBlock(des, m);
      c := feed[index] ^ data;
      Advance(m, c);
    }

    /** `cfb64_encrypt` and `ofb64_encrypt`: part of a buffer is encrypted in place. */
    method Encrypt(des: Des, m: Mode, buf: array<Bits>, from: nat, to: nat)
      requires Valid() && buf != output && buf != feed && from <= to <= buf.Length
      modifies this`index, output, feed, buf
      ensures View() == Enc(des, m, key, old(View()), old(buf[from..to])).0
      ensures buf[..] == old(buf[..from]) + (Enc(des, m, key, old(View()), old(buf[from..to])).1 + old(buf[to..]))
    {
      ghost var pre, post, done, rest := buf[..from], buf[to..], [], buf[from..to];
      ghost var goal := Enc(des, m, key, View(), rest);
      TowardFirst(des, m, key, View(), rest, goal);
      var i := from;
      Cut(buf[..], from, to);
      while i < to
        invariant i == from + |done| && i + |rest| == to && |pre| == from
        invariant buf[..] == pre + (done + (rest + post))
        invariant Toward(des, m, key, View(), rest, done, goal)
      {
        TowardNext(des, m, key, View(), rest, done, goal);
        var c := EncryptAt(des, m, buf, i, pre, done, rest, post);
        done, rest := done + [c], rest[1..];
        i := i + 1;
      }
      TowardEnd(des, m, key, View(), done, goal);
      assert rest + post == post;
    }

    /** A whole buffer. */
    method EncryptAll(des: Des, m: Mode, buf: array<Bits>)
      requires Valid() && buf != output && buf != feed
      modifies this`index, output, feed, buf
      ensures View() == Enc(des, m, key, old(View()), old(buf[..])).0
      ensures buf[..] == Enc(des, m, key, old(View()), old(buf[..])).1
    {
      assert buf[0..buf.Length] == buf[..] && buf[..0] == [] && buf[buf.Length..] == [];
      ghost var w := Enc(des, m, key, View(), buf[..]).1;
      Encrypt(des, m, buf, 0, buf.Length);
      assert [] + (w + []) == w;
    }

    /** The body of the loop. */
    method EncryptAt(des: Des, m: Mode, buf: array<Bits>, i: nat,
                     ghost pre: seq<Bits>, ghost done: seq<Bits>, ghost rest: seq<Bits>, ghost post: seq<Bits>)
      returns (c: Bits)
      requires Valid() && buf != output && buf != feed && rest != []
      requires i == |pre| + |done| && buf[..] == pre + (done + (rest + post))
      modifies this`index, output, feed, buf
      ensures View() == EncByte(des, m, key, old(View()), rest[0]).0
      ensures c == EncByte(des, m, key, old(View()), rest[0]).1
      ensures buf[..] == pre + ((done + [c]) + (rest[1..] + post))
    {
      ghost var was := buf[..];
      StoreNext(was, pre, done, rest, post, 0);
      c := EncryptByte(des, m, buf[i]);
      buf[i] := c;
      StoreNext(was, pre, done, rest, post, c);
      assert buf[..] == was[i := c];
    }

    /** `cfb64_decrypt` and `ofb64_decrypt` on a byte. */
    method Decrypt(des: Des, m: Mode, data: Bits) returns (c: Bits)
      requires Valid()
      modifies this`index, output, feed
      ensures View() == DecByte(des, m, key, old(View()), data).0
      ensures c == DecByte(des, m, key, old(View()), data).1
    {
      NextBlock(des, m);
      c := data ^ feed[index];
      Advance(m, data);
    }

    /** `decrypt (-1)` of either cipher: back up one byte. */
    method BackUpOne()
      requires Valid()
      modifies this`index
      ensures View() == BackUp(old(View()))
    {
      if index != 0 {
        index := index - 1;
      }
    }
  }

  lemma DoubleHead(cmd: Bits, arg: seq<Bits>)
    requires cmd != IAC
    ensures Double([TELOPT_ENCRYPT, cmd] + arg) == [TELOPT_ENCRYPT, cmd] + Double(arg)
  {
    var s := [TELOPT_ENCRYPT, cmd] + arg;
    assert s[1..] == [cmd] + arg && s[1..][1..] == arg;
  }

  /** The loops that copy a suboption's argument and double every IAC. */
  method SubBytes(cmd: Bits, arg: seq<Bits>) returns (p: seq<Bits>)
    requires cmd != IAC
    ensures p == Encode(Sub(cmd, arg))
  {
    ghost var head := [IAC, SB, TELOPT_ENCRYPT, cmd];
    p := [IAC, SB, TELOPT_ENCRYPT, cmd];
    var i := 0;
    assert arg[0..] == arg;
    while i < |arg|
      invariant i <= |arg| && p + Double(arg[i..]) == head + Double(arg)
    {
      assert arg[i..][0] == arg[i] && arg[i..][1..] == arg[i + 1..];
      ghost var before := p;
      p := p + [arg[i]];
      if arg[i] == IAC {
        p := p + [IAC];
      }
      assert p == before + if arg[i] == IAC then [IAC, IAC] else [arg[i]];
      i := i + 1;
    }
    assert p == head + Double(arg);
    p := p + [IAC, SE];
    DoubleHead(cmd, arg);
    assert p == [IAC, SB] + ([TELOPT_ENCRYPT, cmd] + Double(arg)) + [IAC, SE];
  }
}
