/**
 Whole runs of two honest endpoints: reading a byte, installing the session key
 and obeying a command, in any order at either end.
 */
module TelnetSystem {
  import opened Wrappers
  import opened Cipher
  import opened Telnet
  import opened TelnetWire
  import opened TelnetSession
  import opened TelnetMoves

  // ---------- reading one byte ----------

  function Popped(y: Endpoint): Endpoint
    requires y.tx.out != []
  {
    y.(tx := y.tx.(out := y.tx.out[1..]))
  }

  /** Decryption only looks at the key of the type in use. */
  lemma SameKey(des: Des, key: Block, x: Endpoint, w: Bits)
    requires KeyInv(key, x, CFB) && KeyInv(key, x, OFB)
    ensures RxByte(des, x.key, x.rx, w) == RxByte(des, Pair(key, key), x.rx, w)
  {
    match x.rx.input
    case None =>
    case Some(CFB) =>
    case Some(OFB) =>
  }

  /** Reading a byte does not change what the receiver is going to be. */
  lemma AheadRead(des: Des, key: Block, x: Endpoint, y: Endpoint)
    requires y.tx.out != [] && RxInv(x.rx) && KeyInv(key, x, CFB) && KeyInv(key, x, OFB)
    ensures var r := RxByte(des, x.key, x.rx, y.tx.out[0]);
            && RxInv(r.0)
            && Ahead(des, key, Popped(y), x.(rx := r.0)) == Ahead(des, key, y, x)
            && r.0.seen <= Ahead(des, key, y, x).seen
            && r.0.seen == (if r.1.Some? then x.rx.seen + [r.1.value] else x.rx.seen)
            && r.0.support == x.rx.support
  {
    var w := y.tx.out[0];
    SameKey(des, key, x, w);
    RxInvByte(des, x.key, x.rx, w);
    NormByte(des, x.key, x.rx, w);
    NormByte(des, Pair(key, key), x.rx, w);
    var r := RxByte(des, x.key, x.rx, w);
    DrainSeen(des, key, Norm(r.0), y.tx.out[1..]);
    var c := Decrypt(des, x.key, x.rx, w);
    if r.1.Some? {
      SeenGrows(c.0.(parser := ParseByte(x.rx.parser, c.1).0), r.1.value);
    }
  }

  /** A stream of a type without a key stays as its vector left it. */
  lemma KeyRead(des: Des, key: Block, x: Endpoint, w: Bits, t: Mode)
    requires KeyInv(key, x, t)
    requires var i := RxByte(des, x.key, x.rx, w).0.input; i == Some(t) ==> x.key.Get(t) == key
    ensures KeyInv(key, x.(rx := RxByte(des, x.key, x.rx, w).0), t)
  {
    if x.key.Get(t) != key {
      var (rx1, c) := Decrypt(des, x.key, x.rx, w);
      assert rx1.fb.Get(t) == x.rx.fb.Get(t);
      var (p, m) := ParseByte(x.rx.parser, c);
      if m.Some? && m.value.Sub? {
        FreshMsg(rx1.(parser := p), m.value, t);
      }
    }
  }

  lemma FreshMsg(rx: Rx, m: Msg, t: Mode)
    requires m.Sub? && (t in rx.ived ==> FreshStream(rx.fb.Get(t).stream))
    ensures t in RxMsg(rx, m).0.ived ==> FreshStream(RxMsg(rx, m).0.fb.Get(t).stream)
  {
    if m.cmd == ENCRYPT_IS && m.arg != [] && TypeOf(m.arg[0]).Some? {
      FreshIs(rx, TypeOf(m.arg[0]).value, m.arg[1..], t);
    } else if m.cmd == ENCRYPT_ENC_KEYID && rx.mode.Some? {
      match (rx.mode.value, t)
      case (CFB, CFB) =>
      case (CFB, OFB) =>
      case (OFB, CFB) =>
      case (OFB, OFB) =>
    }
  }

  lemma FreshIs(rx: Rx, u: Mode, arg: seq<Bits>, t: Mode)
    requires t in rx.ived ==> FreshStream(rx.fb.Get(t).stream)
    ensures t in FbIs(rx, u, arg).0.ived ==> FreshStream(FbIs(rx, u, arg).0.fb.Get(t).stream)
    ensures FbIs(rx, u, arg) == (FbIs(rx.(remote := {}), u, arg).0.(remote := rx.remote), FbIs(rx, u, arg).1)
  {
    match (u, t)
    case (CFB, CFB) =>
    case (CFB, OFB) =>
    case (OFB, CFB) =>
    case (OFB, OFB) =>
  }

  /** The vector a message carries, or the answer to one: what the reader then holds in hand. */
  function IsHand(m: Option<Msg>): Option<Mode> {
    if m.None? then None
    else if IsFor(m.value, CFB) then Some(CFB)
    else if IsFor(m.value, OFB) then Some(OFB)
    else None
  }

  function ReplyHand(m: Option<Msg>): Option<Mode> {
    if m.None? then None
    else if ReplyFor(m.value, CFB) then Some(CFB)
    else if ReplyFor(m.value, OFB) then Some(OFB)
    else None
  }

  lemma FlightRead(from: Tx, a: Rx, b: Rx, m: Option<Msg>, t: Mode)
    requires a.seen <= from.sent && b.seen <= from.sent
    requires b.seen == (if m.Some? then a.seen + [m.value] else a.seen)
    ensures CountIs(Flight(from, a), t) == CountIs(Flight(from, b), t) + if IsHand(m) == Some(t) then 1 else 0
    ensures CountReply(Flight(from, a), t) == CountReply(Flight(from, b), t) + if ReplyHand(m) == Some(t) then 1 else 0
  {
    if m.Some? {
      var i := |a.seen|;
      assert from.sent[i] == b.seen[i] == m.value;
      assert Flight(from, a)[0] == m.value && Flight(from, a)[1..] == Flight(from, b);
    }
  }

  lemma FlightReads(from: Tx, a: Rx, b: Rx, m: Option<Msg>)
    requires a.seen <= from.sent && b.seen <= from.sent
    requires b.seen == (if m.Some? then a.seen + [m.value] else a.seen)
    ensures forall t :: CountIs(Flight(from, a), t) == CountIs(Flight(from, b), t) + if IsHand(m) == Some(t) then 1 else 0
    ensures forall t ::
      CountReply(Flight(from, a), t) == CountReply(Flight(from, b), t) + if ReplyHand(m) == Some(t) then 1 else 0
    ensures m.Some? ==> m.value in from.sent
  {
    forall t { FlightRead(from, a, b, m, t); }
    if m.Some? { assert from.sent[|a.seen|] == b.seen[|a.seen|]; }
  }

  /** What reading a byte means for y's stream. */
  lemma ReadFacts(des: Des, key: Block, x: Endpoint, y: Endpoint)
    requires Dir(des, key, y, x, None) && y.tx.out != []
    requires KeyInv(key, x, CFB) && KeyInv(key, x, OFB)
    ensures var r := RxByte(des, x.key, x.rx, y.tx.out[0]);
            && RxInv(r.0) && r.0.support == x.rx.support && r.0.seen <= y.tx.sent
            && r.0.seen == (if r.1.Some? then x.rx.seen + [r.1.value] else x.rx.seen)
            && Ahead(des, key, Popped(y), x.(rx := r.0)) == Ahead(des, key, y, x)
  {
    AheadRead(des, key, x, y);
  }

  /** Reading a byte keeps the invariant, and whatever message it completes is one the peer honestly sent. */
  lemma ReadByte(des: Des, key: Block, x: Endpoint, y: Endpoint)
    requires Inv(des, key, x, y, None, None) && y.tx.out != []
    requires var i := RxByte(des, x.key, x.rx, y.tx.out[0]).0.input; i.Some? ==> x.key.Get(i.value) == key
    ensures var r := RxByte(des, x.key, x.rx, y.tx.out[0]);
            && Inv(des, key, x.(rx := r.0), Popped(y), ReplyHand(r.1), IsHand(r.1))
            && (r.1.Some? ==> Honest(y, x, r.1.value))
  {
    var r := RxByte(des, x.key, x.rx, y.tx.out[0]);
    var x1, y1 := x.(rx := r.0), Popped(y);
    ReadFacts(des, key, x, y);
    FlightReads(y.tx, x.rx, r.0, r.1);
    KeyRead(des, key, x, y.tx.out[0], CFB);
    KeyRead(des, key, x, y.tx.out[0], OFB);
    ReadForward(des, key, x, x1, y, y1, ReplyHand(r.1));
    ReadBackward(des, key, x, x1, y, y1, IsHand(r.1));
  }

  lemma ReadForward(des: Des, key: Block, x: Endpoint, x1: Endpoint, y: Endpoint, y1: Endpoint, hand: Option<Mode>)
    requires Dir(des, key, x, y, None)
    requires x1 == x.(rx := x1.rx) && y1 == y.(tx := y.tx.(out := y1.tx.out))
    requires x1.rx.support == x.rx.support
    requires KeyInv(key, x1, CFB) && KeyInv(key, x1, OFB)
    requires forall t :: CountReply(Flight(y.tx, x.rx), t) ==
                         CountReply(Flight(y.tx, x1.rx), t) + if hand == Some(t) then 1 else 0
    ensures Dir(des, key, x1, y1, hand)
  {
    assert Flight(y1.tx, x1.rx) == Flight(y.tx, x1.rx);
    HonestTransfer(x, x1, y, y1);
  }

  lemma ReadBackward(des: Des, key: Block, x: Endpoint, x1: Endpoint, y: Endpoint, y1: Endpoint, hand: Option<Mode>)
    requires Dir(des, key, y, x, None)
    requires x1 == x.(rx := x1.rx) && y1 == y.(tx := y.tx.(out := y1.tx.out))
    requires x1.rx.support == x.rx.support && RxInv(x1.rx) && x1.rx.seen <= y.tx.sent
    requires Ahead(des, key, y1, x1) == Ahead(des, key, y, x)
    requires forall t :: CountIs(Flight(y.tx, x.rx), t) ==
                         CountIs(Flight(y.tx, x1.rx), t) + if hand == Some(t) then 1 else 0
    ensures Dir(des, key, y1, x1, hand)
  {
    assert Flight(y1.tx, x1.rx) == Flight(y.tx, x1.rx);
    AgreeOut(y.tx, y1.tx.out, Ahead(des, key, y1, x1));
    HonestTransfer(y, y1, x, x1);
  }

  // ---------- acting on what was read ----------

  predicate Harmless(m: Msg) { Inert(m) && (m.Sub? ==> m.cmd != ENCRYPT_SUPPORT) }

  lemma RepliesOf(rx: Rx, m: Msg)
    requires m.Sub? ==> m.cmd != ENCRYPT_IS
    ensures var r := RxMsg(rx, m).1; r == [] || (|r| == 1 && Harmless(r[0]))
  {}

  lemma ReplyToIs(rx: Rx, t: Mode, iv: Block)
    requires t in rx.support
    ensures RxMsg(rx, IsMsg(t, iv)).1 == [ReplyMsg(t, FB64_IV_OK)]
  {
    var m := IsMsg(t, iv);
    assert m.arg[1..] == [FB64_IV] + iv && m.arg[1..][1..] == iv;
  }

  /** What a byte makes the reader write: an answer to a vector, or something harmless. */
  lemma RepliesRead(des: Des, key: Block, x: Endpoint, y: Endpoint, w: Bits)
    requires var r := RxByte(des, x.key, x.rx, w); r.1.Some? ==> Honest(y, x, r.1.value)
    ensures var r := RxByte(des, x.key, x.rx, w);
            match IsHand(r.1)
            case Some(t) => r.2 == [ReplyMsg(t, FB64_IV_OK)] && r.1.value.cmd == ENCRYPT_IS
            case None => r.2 == [] || (|r.2| == 1 && Harmless(r.2[0]))
  {
    var r := RxByte(des, x.key, x.rx, w);
    if r.1.Some? {
      var c := Decrypt(des, x.key, x.rx, w);
      var rx2 := c.0.(parser := ParseByte(x.rx.parser, c.1).0);
      var m := r.1.value;
      if m.Sub? && m.cmd == ENCRYPT_IS {
        if HonestIs(y, x, m, CFB) {
          ReplyToIs(rx2, CFB, y.tx.fb.cfb.temp);
        } else {
          ReplyToIs(rx2, OFB, y.tx.fb.ofb.temp);
        }
      } else {
        RepliesOf(rx2, m);
      }
    }
  }

  lemma MoveTxMsg(des: Des, key: Block, x: Endpoint, y: Endpoint, m: Msg, rand: Rand)
    requires Inv(des, key, x, y, None, None)
    requires m.Sub? ==> m.cmd != ENCRYPT_REPLY && (m.cmd == ENCRYPT_SUPPORT ==> m == SupportMsg(y.rx.support))
    ensures var tx := TxMsg(des, x.key, x.tx, m, rand);
            tx.crossed || Inv(des, key, x.(tx := tx), y, None, None)
  {
    if m.Sub? && m.cmd == ENCRYPT_SUPPORT {
      MoveSupport(des, key, x, y, rand);
    } else if m.Sub? && m.cmd == ENCRYPT_REQSTART {
      MoveRequestStart(des, key, x, y, rand);
    } else if m.Sub? && m.cmd == ENCRYPT_REQEND {
      MoveEnd(des, key, x, y);
    } else if m.Sub? && m.cmd == ENCRYPT_DEC_KEYID {
      MoveDecKeyid(des, key, x, y, m.arg, rand);
    } else {
      assert x.(tx := x.tx) == x;
    }
  }

  /** `Receive` after the incoming half has moved to `rx`. */
  function React(des: Des, x: Endpoint, rx: Rx, m: Option<Msg>, replies: seq<Msg>, rand: Rand): Endpoint {
    var tx := NetWriteAll(des, x.key, x.tx, replies);
    Endpoint(x.key, if m.Some? then TxMsg(des, x.key, tx, m.value, rand) else tx, rx)
  }

  lemma ReactToIs(des: Des, key: Block, x: Endpoint, y: Endpoint, rx: Rx, m: Msg, t: Mode, rand: Rand)
    requires Inv(des, key, x.(rx := rx), y, None, Some(t)) && m.Sub? && m.cmd == ENCRYPT_IS
    ensures Inv(des, key, React(des, x, rx, Some(m), [ReplyMsg(t, FB64_IV_OK)], rand), y, None, None)
  {
    WriteReply(des, key, x.(rx := rx), y, t, None);
    ReactOne(des, x, rx, m, ReplyMsg(t, FB64_IV_OK), rand);
  }

  lemma ReactOne(des: Des, x: Endpoint, rx: Rx, m: Msg, reply: Msg, rand: Rand)
    requires m.Sub? && m.cmd == ENCRYPT_IS
    ensures React(des, x, rx, Some(m), [reply], rand) == x.(rx := rx, tx := NetWrite(des, x.key, x.tx, reply))
  {
    WriteOne(des, x.key, x.tx, reply);
  }

  lemma ReactToReply(des: Des, key: Block, x: Endpoint, y: Endpoint, rx: Rx, t: Mode, rand: Rand)
    requires Inv(des, key, x.(rx := rx), y, Some(t), None)
    ensures var x1 := React(des, x, rx, Some(ReplyMsg(t, FB64_IV_OK)), [], rand);
            x1.tx.crossed || Inv(des, key, x1, y, None, None)
  {
    MoveReply(des, key, x.(rx := rx), y, t, rand);
  }

  lemma ReactToOther(des: Des, key: Block, x: Endpoint, y: Endpoint, rx: Rx, m: Option<Msg>, replies: seq<Msg>, rand: Rand)
    requires Inv(des, key, x.(rx := rx), y, None, None)
    requires replies == [] || (|replies| == 1 && Harmless(replies[0]))
    requires m.Some? && m.value.Sub? ==>
               m.value.cmd != ENCRYPT_REPLY && (m.value.cmd == ENCRYPT_SUPPORT ==> m.value == SupportMsg(y.rx.support))
    ensures var x1 := React(des, x, rx, m, replies, rand);
            x1.tx.crossed || Inv(des, key, x1, y, None, None)
  {
    var xr := x.(rx := rx);
    var tx0 := NetWriteAll(des, x.key, x.tx, replies);
    if replies != [] {
      WriteOne(des, x.key, x.tx, replies[0]);
      assert replies == [replies[0]];
      WriteInert(des, key, xr, y, replies[0], None, None);
    }
    assert Inv(des, key, xr.(tx := tx0), y, None, None);
    if m.Some? {
      MoveTxMsg(des, key, xr.(tx := tx0), y, m.value, rand);
    }
  }

  /** An endpoint reads one byte of its peer's stream and reacts. */
  lemma MoveRead(des: Des, key: Block, x: Endpoint, y: Endpoint, rand: Rand)
    requires Inv(des, key, x, y, None, None) && y.tx.out != []
    requires var i := RxByte(des, x.key, x.rx, y.tx.out[0]).0.input; i.Some? ==> x.key.Get(i.value) == key
    ensures var x1 := Receive(des, x, y.tx.out[0], rand);
            x1.tx.crossed || Inv(des, key, x1, Popped(y), None, None)
  {
    var w := y.tx.out[0];
    var r := RxByte(des, x.key, x.rx, w);
    ReadByte(des, key, x, y);
    RepliesRead(des, key, x, y, w);
    if ReplyHand(r.1).Some? { ReplyRead(des, x.key, x.rx, w); }
    MoveReact(des, key, x, Popped(y), r.0, r.1, r.2, rand);
  }

  lemma MoveReact(des: Des, key: Block, x: Endpoint, y: Endpoint, rx: Rx, m: Option<Msg>, replies: seq<Msg>, rand: Rand)
    requires Inv(des, key, x.(rx := rx), y, ReplyHand(m), IsHand(m))
    requires m.Some? ==> Honest(y, x, m.value)
    requires match IsHand(m)
             case Some(t) => replies == [ReplyMsg(t, FB64_IV_OK)] && m.value.cmd == ENCRYPT_IS
             case None => replies == [] || (|replies| == 1 && Harmless(replies[0]))
    requires ReplyHand(m).Some? ==> replies == []
    ensures var x1 := React(des, x, rx, m, replies, rand);
            x1.tx.crossed || Inv(des, key, x1, y, None, None)
  {
    if IsHand(m).Some? {
      ReactToIs(des, key, x, y, rx, m.value, IsHand(m).value, rand);
    } else if ReplyHand(m).Some? {
      ReactToReply(des, key, x, y, rx, ReplyHand(m).value, rand);
    } else {
      ReactToOther(des, key, x, y, rx, m, replies, rand);
    }
  }

  lemma ReplyRead(des: Des, k: Pair<Block>, rx: Rx, w: Bits)
    requires var m := RxByte(des, k, rx, w).1; m.Some? && m.value.Sub? && m.value.cmd == ENCRYPT_REPLY
    ensures RxByte(des, k, rx, w).2 == []
  {}

  // ---------- commands ----------

  /** Whether input is decrypted automatically makes no difference to what the bytes in flight do. */
  lemma {:induction false} DrainAuto(des: Des, key: Block, rx: Rx, on: bool, bytes: seq<Bits>) returns (on': bool)
    ensures Drain(des, key, rx.(auto := on), bytes) == Drain(des, key, rx, bytes).(auto := on')
    decreases |bytes|
  {
    on' := on;
    if bytes != [] {
      var k := Pair(key, key);
      var a := RxByte(des, k, rx.(auto := on), bytes[0]).0;
      var b := RxByte(des, k, rx, bytes[0]).0;
      assert a == b.(auto := a.auto) by {
        var c := Decrypt(des, k, rx, bytes[0]);
        assert Decrypt(des, k, rx.(auto := on), bytes[0]) == (c.0.(auto := on), c.1);
        var p := ParseByte(rx.parser, c.1);
        if p.1.Some? { AutoMsg(c.0.(parser := p.0), on, p.1.value); }
      }
      on' := DrainAuto(des, key, b, a.auto, bytes[1..]);
    }
  }

  lemma AutoMsg(rx: Rx, on: bool, m: Msg)
    ensures RxMsg(rx.(auto := on), m).0 == RxMsg(rx, m).0.(auto := RxMsg(rx.(auto := on), m).0.auto)
  {
    if m.Sub? && m.cmd == ENCRYPT_IS && m.arg != [] && TypeOf(m.arg[0]).Some? {
      var rx0 := rx.(seen := rx.seen + [m], remote := rx.remote + {TypeOf(m.arg[0]).value});
      AutoFbIs(rx0, on, TypeOf(m.arg[0]).value, m.arg[1..]);
    }
  }

  lemma AutoFbIs(rx: Rx, on: bool, t: Mode, arg: seq<Bits>)
    ensures FbIs(rx.(auto := on), t, arg) == (FbIs(rx, t, arg).0.(auto := on), FbIs(rx, t, arg).1)
  {}

  lemma MoveAutoIn(des: Des, key: Block, x: Endpoint, y: Endpoint, on: bool)
    requires Inv(des, key, x, y, None, None)
    ensures Inv(des, key, x.(rx := x.rx.(auto := on)), y, None, None)
  {
    var x1 := x.(rx := x.rx.(auto := on));
    assert Norm(x1.rx) == Norm(x.rx).(auto := on);
    var on' := DrainAuto(des, key, Norm(x.rx), on, y.tx.out);
    AgreeAuto(y.tx, Ahead(des, key, y, x), on');
    HonestTransfer(x, x1, y, y);
    HonestTransfer(y, y, x, x1);
  }

  lemma AgreeAuto(tx: Tx, v: Rx, on: bool)
    requires Agree(tx, v)
    ensures Agree(tx, v.(auto := on))
  {
    assert AgreeType(tx, v.(auto := on), CFB);
    assert AgreeType(tx, v.(auto := on), OFB);
  }

  lemma MoveSendSupport(des: Des, key: Block, x: Endpoint, y: Endpoint)
    requires Inv(des, key, x, y, None, None)
    ensures Inv(des, key, SendSupport(des, x), y, None, None)
  {
    if !x.tx.supportSent {
      var m, q := SupportMsg(x.rx.support), RequestStart(x.rx);
      var x1 := x;
      if !x.tx.server && x.rx.auto {
        WriteTwo(des, x.key, x.tx, q, m);
        WriteInert(des, key, x, y, q, None, None);
        x1 := x.(tx := NetWrite(des, x.key, x.tx, q));
      } else {
        assert [] + [m] == [m];
        WriteOne(des, x.key, x.tx, m);
      }
      WriteInert(des, key, x1, y, m, None, None);
      var x2 := x1.(tx := NetWrite(des, x.key, x1.tx, m));
      MoveSettings(des, key, x2, y, x2.tx.(supportSent := true));
    }
  }

  lemma MoveObey(des: Des, key: Block, x: Endpoint, y: Endpoint, c: Command, rand: Rand)
    requires Inv(des, key, x, y, None, None)
    ensures var x1 := Obey(des, x, c, rand); x1.tx.crossed || Inv(des, key, x1, y, None, None)
  {
    match c
    case StartOut => if x.tx.mode.Some? { MoveStartOutput(des, key, x, y, x.tx.mode.value, rand); }
    case StopOut => MoveEnd(des, key, x, y);
    case AutoIn(on) => MoveAutoIn(des, key, x, y, on);
    case Support => MoveSendSupport(des, key, x, y);
    case SetType(m) => MoveSettings(des, key, x, y, x.tx.(mode := Some(m), support := x.tx.support + {m}));
    case AutoOut(on) => MoveSettings(des, key, x, y, x.tx.(auto := on));
    case _ => MoveWrite(des, key, x, y, c, rand);
  }

  /** The commands that only write. */
  lemma MoveWrite(des: Des, key: Block, x: Endpoint, y: Endpoint, c: Command, rand: Rand)
    requires Inv(des, key, x, y, None, None) && (c.Type? || c.StartIn? || c.StopIn?)
    ensures Inv(des, key, Obey(des, x, c, rand), y, None, None)
  {
    match c
    case Type(b) => WriteInert(des, key, x, y, Data(b), None, None);
    case StartIn => if x.rx.mode.Some? { WriteInert(des, key, x, y, RequestStart(x.rx), None, None); }
    case StopIn => WriteInert(des, key, x, y, REQUEST_END, None, None);
  }

  // ---------- runs ----------

  datatype Action = Read(rand: Rand) | Install(rand: Rand) | Order(c: Command, rand: Rand)

  /**
   A byte can be read when there is one; the key is installed once; and the
   byte that completes a START is read only after the key is there.
   */
  predicate Enabled(des: Des, key: Block, x: Endpoint, y: Endpoint, a: Action) {
    match a
    case Read(_) =>
      y.tx.out != [] && var i := RxByte(des, x.key, x.rx, y.tx.out[0]).0.input; i.Some? ==> x.key.Get(i.value) == key
    case Install(_) => x.key == Pair(ZERO, ZERO)
    case Order(_, _) => true
  }

  function Act(des: Des, key: Block, x: Endpoint, y: Endpoint, a: Action): (Endpoint, Endpoint)
    requires Enabled(des, key, x, y, a)
  {
    match a
    case Read(rand) => (Receive(des, x, y.tx.out[0], rand), Popped(y))
    case Install(rand) => (SessionKey(des, x, key, rand), y)
    case Order(c, rand) => (Obey(des, x, c, rand), y)
  }

  lemma FbSessionKey(des: Des, x: Endpoint, t: Mode, key: Block, rand: Rand, u: Mode)
    requires u != t
    ensures FbSession(des, x, t, key, rand).key.Get(u) == x.key.Get(u)
  {}

  /** Every enabled action of either endpoint keeps the invariant, or crosses the types. */
  lemma MoveAct(des: Des, key: Block, x: Endpoint, y: Endpoint, a: Action)
    requires Inv(des, key, x, y, None, None) && key != ZERO && Enabled(des, key, x, y, a)
    ensures var (x1, y1) := Act(des, key, x, y, a); x1.tx.crossed || Inv(des, key, x1, y1, None, None)
  {
    match a
    case Read(rand) => MoveRead(des, key, x, y, rand);
    case Install(rand) =>
      MoveFbSession(des, key, x, y, CFB, rand);
      FbSessionKey(des, x, CFB, key, rand, OFB);
      MoveFbSession(des, key, FbSession(des, x, CFB, key, rand), y, OFB, rand);
    case Order(c, rand) => MoveObey(des, key, x, y, c, rand);
  }
}
