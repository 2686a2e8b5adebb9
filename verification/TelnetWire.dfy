/**
 What the receiving half makes of a stretch of the sender's bytes: the wire
 format of a message parses back to that message, and when both ends hold equal
 cipher registers the receiver ends the message with the sender's registers.
 */
module TelnetWire {
  import opened Wrappers
  import opened Cipher
  import opened Telnet

  /** The receiving half after reading `bytes`, with `key` installed for both types. */
  function Drain(des: Des, key: Block, rx: Rx, bytes: seq<Bits>): Rx
    decreases |bytes|
  {
    if bytes == [] then rx else Drain(des, key, RxByte(des, Pair(key, key), rx, bytes[0]).0, bytes[1..])
  }

  lemma {:induction false} DrainAppend(des: Des, key: Block, rx: Rx, a: seq<Bits>, b: seq<Bits>)
    ensures Drain(des, key, rx, a + b) == Drain(des, key, Drain(des, key, rx, a), b)
    decreases |a|
  {
    if a == [] {
      assert a + b == b;
    } else {
      assert (a + b)[1..] == a[1..] + b && (a + b)[0] == a[0];
      DrainAppend(des, key, RxByte(des, Pair(key, key), rx, a[0]).0, a[1..], b);
    }
  }

  lemma SeenGrows(rx: Rx, m: Msg)
    ensures RxMsg(rx, m).0.seen == rx.seen + [m]
    ensures RxMsg(rx, m).0.parser == rx.parser
    ensures RxMsg(rx, m).0.support == rx.support
  {}

  /** Reading only ever extends the list of messages seen. */
  lemma {:induction false} DrainSeen(des: Des, key: Block, rx: Rx, bytes: seq<Bits>)
    ensures rx.seen <= Drain(des, key, rx, bytes).seen
    decreases |bytes|
  {
    if bytes != [] {
      var r := RxByte(des, Pair(key, key), rx, bytes[0]);
      if r.1.Some? {
        var c := Decrypt(des, Pair(key, key), rx, bytes[0]);
        SeenGrows(c.0.(parser := ParseByte(rx.parser, c.1).0), r.1.value);
      }
      DrainSeen(des, key, r.0, bytes[1..]);
    }
  }

  // ---------- parsing what `Encode` printed ----------

  /** The parser state after bytes that complete no message. */
  function Quiet(p: Parser, bs: seq<Bits>): Option<Parser>
    decreases |bs|
  {
    if bs == [] then Some(p)
    else
      var (q, m) := ParseByte(p, bs[0]);
      if m.Some? then None else Quiet(q, bs[1..])
  }

  lemma {:induction false} QuietAppend(p: Parser, a: seq<Bits>, b: seq<Bits>)
    requires Quiet(p, a).Some?
    ensures Quiet(p, a + b) == Quiet(Quiet(p, a).value, b)
    decreases |a|
  {
    if a == [] {
      assert a + b == b;
    } else {
      assert (a + b)[1..] == a[1..] + b && (a + b)[0] == a[0];
      QuietAppend(ParseByte(p, a[0]).0, a[1..], b);
    }
  }

  lemma QuietOne(p: Parser, b: Bits)
    ensures Quiet(p, [b]) == var (q, m) := ParseByte(p, b); if m.Some? then None else Some(q)
  {
    assert [b][1..] == [];
  }

  lemma QuietTwo(p: Parser, a: Bits, b: Bits)
    requires ParseByte(p, a).1.None?
    ensures Quiet(p, [a, b]) == Quiet(ParseByte(p, a).0, [b])
  {
    assert [a, b][1..] == [b];
  }

  /** A doubled argument comes back single. */
  lemma {:induction false} QuietDouble(buf: seq<Bits>, s: seq<Bits>)
    ensures Quiet(Sb(buf), Double(s)) == Some(Sb(buf + s))
    decreases |s|
  {
    if s == [] {
      assert buf + s == buf;
    } else {
      var d := if s[0] == IAC then [IAC, IAC] else [s[0]];
      assert Quiet(Sb(buf), d) == Some(Sb(buf + [s[0]])) by {
        if s[0] == IAC {
          QuietTwo(Sb(buf), IAC, IAC);
          QuietOne(Se(buf), IAC);
        } else {
          QuietOne(Sb(buf), s[0]);
        }
      }
      QuietAppend(Sb(buf), d, Double(s[1..]));
      QuietDouble(buf + [s[0]], s[1..]);
      assert buf + [s[0]] + s[1..] == buf + s;
    }
  }

  /** All but the last byte of a message complete nothing; the last completes exactly that message. */
  lemma ParsesBack(m: Msg)
    ensures Encode(m) != []
    ensures var n := |Encode(m)| - 1;
            && Quiet(Idle, Encode(m)[..n]).Some?
            && ParseByte(Quiet(Idle, Encode(m)[..n]).value, Encode(m)[n]) == (Idle, Some(m))
  {
    match m
    case Data(b) =>
      assert [b][1..] == [] && Double([]) == [];
      if b == IAC {
        assert Encode(m)[..1] == [IAC] && [IAC][1..] == [];
      } else {
        assert Encode(m)[..0] == [];
      }
    case Sub(cmd, arg) =>
      var head, full := [IAC, SB], [TELOPT_ENCRYPT, cmd] + arg;
      var n := |Encode(m)| - 1;
      assert Quiet(Idle, head) == Some(Sb([])) by {
        QuietTwo(Idle, IAC, SB);
        QuietOne(Iac, SB);
      }
      assert Encode(m)[..n] == head + (Double(full) + [IAC]);
      QuietAppend(Idle, head, Double(full) + [IAC]);
      QuietDouble([], full);
      QuietAppend(Sb([]), Double(full), [IAC]);
      QuietOne(Sb(full), IAC);
      assert [] + full == full;
      assert full[2..] == arg;
  }

  // ---------- reading what was encrypted ----------

  /** The sender's registers and bytes for `bs`, when it uses the receiver's registers. */
  function Wire(des: Des, key: Block, rx: Rx, bs: seq<Bits>): (Rx, seq<Bits>) {
    match rx.input
    case None => (rx, bs)
    case Some(t) =>
      var f := rx.fb.Get(t);
      var (s, w) := Enc(des, t, key, f.stream, bs);
      (rx.(fb := rx.fb.Set(t, f.(stream := s))), w)
  }

  lemma WireByte(des: Des, key: Block, rx: Rx, b: Bits)
    ensures |Wire(des, key, rx, [b]).1| == 1
    ensures Decrypt(des, Pair(key, key), rx, Wire(des, key, rx, [b]).1[0]) == (Wire(des, key, rx, [b]).0, b)
  {
    if rx.input.Some? {
      var t := rx.input.value;
      var s := rx.fb.Get(t).stream;
      ByteRoundTrip(des, t, key, s, b);
      assert [b][1..] == [];
      var (s1, c) := EncByte(des, t, key, s, b);
      assert Enc(des, t, key, s1, []) == (s1, []);
      assert Enc(des, t, key, s, [b]) == (s1, [c] + []);
    }
  }

  lemma WireSplit(des: Des, key: Block, rx: Rx, a: seq<Bits>, b: seq<Bits>)
    ensures var (rx1, wa) := Wire(des, key, rx, a);
            var (rx2, wb) := Wire(des, key, rx1, b);
            Wire(des, key, rx, a + b) == (rx2, wa + wb)
  {
    if rx.input.Some? {
      var t := rx.input.value;
      EncSplit(des, t, key, rx.fb.Get(t).stream, a, b);
    }
  }

  lemma WireParser(des: Des, key: Block, rx: Rx, p: Parser, bs: seq<Bits>)
    ensures Wire(des, key, rx.(parser := p), bs) == (Wire(des, key, rx, bs).0.(parser := p), Wire(des, key, rx, bs).1)
    ensures Wire(des, key, rx, bs).0.input == rx.input
    ensures Wire(des, key, rx, bs).0.parser == rx.parser
  {}

  lemma {:induction false} DrainQuiet(des: Des, key: Block, rx: Rx, bs: seq<Bits>)
    requires Quiet(rx.parser, bs).Some?
    ensures Drain(des, key, rx, Wire(des, key, rx, bs).1)
         == Wire(des, key, rx, bs).0.(parser := Quiet(rx.parser, bs).value)
    decreases |bs|
  {
    if bs != [] {
      var b, rest := bs[0], bs[1..];
      assert bs == [b] + rest;
      var (rx1, w) := Wire(des, key, rx, [b]);
      WireSplit(des, key, rx, [b], rest);
      WireByte(des, key, rx, b);
      var p := ParseByte(rx.parser, b).0;
      var rx2 := rx1.(parser := p);
      WireParser(des, key, rx1, p, rest);
      WireParser(des, key, rx, rx.parser, [b]);
      var wr := Wire(des, key, rx1, rest).1;
      assert (w + wr)[0] == w[0] && (w + wr)[1..] == wr;
      DrainQuiet(des, key, rx2, rest);
    }
  }

  /** A whole message, encrypted with the receiver's own registers, is read back as that message. */
  lemma DrainMsg(des: Des, key: Block, rx: Rx, m: Msg)
    requires rx.parser == Idle
    ensures Drain(des, key, rx, Wire(des, key, rx, Encode(m)).1) == RxMsg(Wire(des, key, rx, Encode(m)).0, m).0
  {
    ParsesBack(m);
    var n := |Encode(m)| - 1;
    var a, b := Encode(m)[..n], Encode(m)[n];
    assert Encode(m) == a + [b];
    WireSplit(des, key, rx, a, [b]);
    DrainQuiet(des, key, rx, a);
    var (rx1, wa) := Wire(des, key, rx, a);
    var p := Quiet(Idle, a).value;
    WireParser(des, key, rx1, p, [b]);
    WireParser(des, key, rx, Idle, a);
    var (rx2, wb) := Wire(des, key, rx1, [b]);
    WireByte(des, key, rx1.(parser := p), b);
    DrainAppend(des, key, rx, wa, wb);
    assert wb == [wb[0]];
    assert rx2.(parser := p).(parser := Idle) == rx2;
  }
}
