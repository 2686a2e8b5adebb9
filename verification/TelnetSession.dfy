/**
 Two honest endpoints joined by two byte streams, under every interleaving.

 For each direction the invariant compares the sender with the receiver as it
 will be once it has read every byte still in flight.
 */
module TelnetSession {
  import opened Wrappers
  import opened Cipher
  import opened Telnet
  import opened TelnetWire

  // ---------- the receiver ahead of its key ----------

  function Blank(f: RxFb): RxFb { f.(stream := Stream(ZERO, ZERO, f.stream.feed, 0)) }

  /** The receiving half with the registers that no vector has reached yet wiped. */
  function Norm(rx: Rx): Rx {
    rx.(fb := Pair(if CFB in rx.ived then rx.fb.cfb else Blank(rx.fb.cfb),
                   if OFB in rx.ived then rx.fb.ofb else Blank(rx.fb.ofb)))
  }

  /** A type is only selected or in use once its stream has a vector, and a vector selects a type. */
  predicate RxInv(rx: Rx) {
    && RxInvType(rx, CFB)
    && RxInvType(rx, OFB)
  }

  predicate RxInvType(rx: Rx, t: Mode) {
    && (rx.mode == Some(t) || rx.input == Some(t) || !rx.fb.Get(t).state.Failed? ==> t in rx.ived)
    && (t in rx.ived ==> rx.mode.Some?)
  }

  /** What `encrypt_is` does with what `fb64_is` did. */
  function AfterIs(rx: Rx, reply: Msg, t: Mode): (Rx, seq<Msg>) {
    var ret := rx.fb.Get(t).state;
    if ret.Failed? then (rx.(auto := false), [reply])
    else (rx.(mode := Some(t)), [reply] + if ret == SUCCESS && rx.auto then [RequestStart(rx)] else [])
  }

  lemma OnIsIs(rx: Rx, arg: seq<Bits>, t: Mode)
    requires arg != [] && TypeOf(arg[0]) == Some(t)
    ensures var rx0 := rx.(remote := rx.remote + {t});
            var (rx1, reply) := FbIs(rx0, t, arg[1..]);
            OnIs(rx, arg) == if CanDecrypt(rx0, t) then AfterIs(rx1, reply, t) else (rx0, [])
  {}

  lemma AfterIsNorm(rx: Rx, reply: Msg, t: Mode)
    requires RxInv(if rx.fb.Get(t).state.Progress? then rx.(mode := Some(t)) else rx)
    ensures RxInv(AfterIs(rx, reply, t).0)
    ensures !rx.fb.Get(t).state.Failed? ==> t in rx.ived
  {
    match t
    case CFB =>
    case OFB =>
  }

  lemma AfterIsCommutes(rx: Rx, reply: Msg, t: Mode)
    requires rx.fb.Get(t).state.Progress? ==> t in rx.ived
    ensures AfterIs(Norm(rx), reply, t) == (Norm(AfterIs(rx, reply, t).0), AfterIs(rx, reply, t).1)
  {
    match t
    case CFB =>
    case OFB =>
  }

  lemma RxInvIs(rx: Rx, arg: seq<Bits>)
    requires RxInv(rx)
    ensures RxInv(OnIs(rx, arg).0)
    ensures OnIs(Norm(rx), arg) == (Norm(OnIs(rx, arg).0), OnIs(rx, arg).1)
  {
    if arg != [] && TypeOf(arg[0]).Some? {
      var t := TypeOf(arg[0]).value;
      var rx0 := rx.(remote := rx.remote + {t});
      var (rx1, reply) := FbIs(rx0, t, arg[1..]);
      assert Norm(rx).(remote := Norm(rx).remote + {t}) == Norm(rx0);
      RxInvFbIs(rx0, t, arg[1..]);
      OnIsIs(rx, arg, t);
      OnIsIs(Norm(rx), arg, t);
      AfterIsNorm(rx1, reply, t);
      AfterIsCommutes(rx1, reply, t);
    }
  }

  lemma RxInvFbIs(rx: Rx, t: Mode, arg: seq<Bits>)
    requires RxInv(rx)
    ensures var r := FbIs(rx, t, arg).0; RxInv(if r.fb.Get(t).state.Progress? then r.(mode := Some(t)) else r)
    ensures FbIs(Norm(rx), t, arg) == (Norm(FbIs(rx, t, arg).0), FbIs(rx, t, arg).1)
  {
    match t
    case CFB =>
    case OFB =>
  }

  lemma RxInvKeyid(rx: Rx, keyid: seq<Bits>)
    requires RxInv(rx)
    ensures RxInv(OnEncKeyid(rx, keyid).0)
    ensures OnEncKeyid(Norm(rx), keyid) == (Norm(OnEncKeyid(rx, keyid).0), OnEncKeyid(rx, keyid).1)
  {
    match rx.mode
    case None =>
    case Some(CFB) =>
    case Some(OFB) =>
  }

  /** Whatever message arrives, a type is in use only after its vector; and wiping commutes with it. */
  lemma RxInvMsg(rx: Rx, m: Msg)
    requires RxInv(rx)
    ensures RxInv(RxMsg(rx, m).0)
    ensures RxMsg(Norm(rx), m) == (Norm(RxMsg(rx, m).0), RxMsg(rx, m).1)
  {
    if m.Sub? {
      var rx0 := rx.(seen := rx.seen + [m]);
      assert Norm(rx).(seen := rx.seen + [m]) == Norm(rx0);
      if m.cmd == ENCRYPT_IS {
        RxInvIs(rx0, m.arg);
      } else if m.cmd == ENCRYPT_ENC_KEYID {
        RxInvKeyid(rx0, m.arg);
      }
    }
  }

  lemma RxInvByte(des: Des, key: Pair<Block>, rx: Rx, w: Bits)
    requires RxInv(rx)
    ensures RxInv(RxByte(des, key, rx, w).0)
    ensures RxInv(Norm(rx))
  {
    var (rx1, c) := Decrypt(des, key, rx, w);
    var (p, m) := ParseByte(rx.parser, c);
    if m.Some? { RxInvMsg(rx1.(parser := p), m.value); }
  }

  lemma NormByte(des: Des, key: Pair<Block>, rx: Rx, w: Bits)
    requires RxInv(rx)
    ensures var r := RxByte(des, key, rx, w);
            RxByte(des, key, Norm(rx), w) == (Norm(r.0), r.1, r.2)
  {
    var (rx1, c) := Decrypt(des, key, rx, w);
    assert Decrypt(des, key, Norm(rx), w) == (Norm(rx1), c);
    var (p, m) := ParseByte(rx.parser, c);
    var rx2 := rx1.(parser := p);
    assert Norm(rx1).(parser := p) == Norm(rx2);
    if m.Some? { RxInvMsg(rx2, m.value); }
  }

  // ---------- one direction ----------

  predicate Unsent(tx: Tx, t: Mode) { var s := tx.fb.Get(t).state; s.Failed? || s.noSendIv }

  predicate Waiting(tx: Tx, t: Mode) { var s := tx.fb.Get(t).state; s.Progress? && !s.noSendIv && s.noRecvIv }

  predicate Ready(tx: Tx, t: Mode) { var s := tx.fb.Get(t).state; s.Progress? && !s.noSendIv && !s.noRecvIv }

  /** The sender's registers of one type against those the receiver is going to have. */
  predicate AgreeType(tx: Tx, v: Rx, t: Mode) {
    var f, g := tx.fb.Get(t), v.fb.Get(t).stream;
    && g.feed == f.stream.feed
    && (Unsent(tx, t) ==> t !in v.ived)
    && (!Unsent(tx, t) ==> t in v.ived && t in v.remote && t in v.support)
    && (Waiting(tx, t) ==> g == StreamIv(f.temp, f.stream))
    && (Ready(tx, t) ==> g == f.stream)
    && (tx.output == Some(t) ==> Ready(tx, t))
  }

  predicate Agree(tx: Tx, v: Rx) {
    && v.parser == Idle
    && v.seen == tx.sent
    && v.input == tx.output
    && v.mode == tx.lastIv
    && RxInv(v)
    && AgreeType(tx, v, CFB)
    && AgreeType(tx, v, OFB)
  }

  /** The receiving half once everything in flight has been read. */
  function Ahead(des: Des, key: Block, x: Endpoint, y: Endpoint): Rx {
    Drain(des, key, Norm(y.rx), x.tx.out)
  }

  function Flight(from: Tx, to: Rx): seq<Msg> {
    if |to.seen| <= |from.sent| then from.sent[|to.seen|..] else []
  }

  predicate IsFor(m: Msg, t: Mode) { m.Sub? && m.cmd == ENCRYPT_IS && m.arg != [] && m.arg[0] == TypeByte(t) }

  predicate ReplyFor(m: Msg, t: Mode) { m.Sub? && m.cmd == ENCRYPT_REPLY && m.arg != [] && m.arg[0] == TypeByte(t) }

  function CountIs(ms: seq<Msg>, t: Mode): nat {
    if ms == [] then 0 else (if IsFor(ms[0], t) then 1 else 0) + CountIs(ms[1..], t)
  }

  function CountReply(ms: seq<Msg>, t: Mode): nat {
    if ms == [] then 0 else (if ReplyFor(ms[0], t) then 1 else 0) + CountReply(ms[1..], t)
  }

  lemma {:induction false} CountAppend(ms: seq<Msg>, m: Msg, t: Mode)
    ensures CountIs(ms + [m], t) == CountIs(ms, t) + if IsFor(m, t) then 1 else 0
    ensures CountReply(ms + [m], t) == CountReply(ms, t) + if ReplyFor(m, t) then 1 else 0
  {
    if ms != [] {
      assert (ms + [m])[0] == ms[0] && (ms + [m])[1..] == ms[1..] + [m];
      CountAppend(ms[1..], m, t);
    } else {
      assert (ms + [m])[1..] == [];
    }
  }

  /** Each vector under way is one IS going out, one answer coming back, or one of them in hand. */
  predicate Balance(x: Endpoint, y: Endpoint, hand: Option<Mode>, t: Mode) {
    CountIs(Flight(x.tx, y.rx), t) + CountReply(Flight(y.tx, x.rx), t) + (if hand == Some(t) then 1 else 0)
      == if Waiting(x.tx, t) then 1 else 0
  }

  /** What an honest endpoint puts into the messages that matter. */
  predicate Honest(x: Endpoint, y: Endpoint, m: Msg) {
    m.Sub? ==>
      && (m.cmd == ENCRYPT_IS ==> HonestIs(x, y, m, CFB) || HonestIs(x, y, m, OFB))
      && (m.cmd == ENCRYPT_REPLY ==> m == ReplyMsg(CFB, FB64_IV_OK) || m == ReplyMsg(OFB, FB64_IV_OK))
      && (m.cmd == ENCRYPT_SUPPORT ==> m == SupportMsg(x.rx.support))
  }

  predicate HonestIs(x: Endpoint, y: Endpoint, m: Msg, t: Mode) {
    m == IsMsg(t, x.tx.fb.Get(t).temp) && !Unsent(x.tx, t) && t in y.rx.support
  }

  ghost predicate HonestAll(x: Endpoint, y: Endpoint) { forall m :: m in x.tx.sent ==> Honest(x, y, m) }

  /** Honesty of what was sent looks at the vectors sent and at what the ends support. */
  lemma HonestTransfer(x: Endpoint, x1: Endpoint, y: Endpoint, y1: Endpoint)
    requires HonestAll(x, y) && x1.tx.sent == x.tx.sent
    requires x1.rx.support == x.rx.support && y1.rx.support == y.rx.support
    requires x1.tx.fb.cfb.temp == x.tx.fb.cfb.temp && (!Unsent(x.tx, CFB) ==> !Unsent(x1.tx, CFB))
    requires x1.tx.fb.ofb.temp == x.tx.fb.ofb.temp && (!Unsent(x.tx, OFB) ==> !Unsent(x1.tx, OFB))
    ensures HonestAll(x1, y1)
  {
    forall m | m in x1.tx.sent ensures Honest(x1, y1, m) { assert Honest(x, y, m); }
  }

  predicate FreshStream(s: Stream) { s.output == s.iv && s.index == 8 }

  /** The shared key is installed for `t`, or nothing of type `t` has been used yet. */
  predicate KeyInv(key: Block, x: Endpoint, t: Mode) {
    || x.key.Get(t) == key
    || (&& x.key.Get(t) == ZERO
        && Unsent(x.tx, t)
        && x.rx.input != Some(t)
        && (t in x.rx.ived ==> FreshStream(x.rx.fb.Get(t).stream)))
  }

  /** A type that has been started, or is to be started when the key arrives, is one both ends can use. */
  predicate NeedInv(x: Endpoint, y: Endpoint, t: Mode) {
    x.tx.fb.Get(t).needStart || !Unsent(x.tx, t) ==> CanEncrypt(x.tx, t) && t in y.rx.support
  }

  /** Direction x to y, where `hand` is a vector read and not yet answered, or an answer read and not yet used. */
  ghost predicate Dir(des: Des, key: Block, x: Endpoint, y: Endpoint, hand: Option<Mode>) {
    && Agree(x.tx, Ahead(des, key, x, y))
    && RxInv(y.rx)
    && y.rx.seen <= x.tx.sent
    && Balance(x, y, hand, CFB)
    && Balance(x, y, hand, OFB)
    && HonestAll(x, y)
    && x.tx.remote <= y.rx.support
    && KeyInv(key, x, CFB)
    && KeyInv(key, x, OFB)
    && NeedInv(x, y, CFB)
    && NeedInv(x, y, OFB)
    && !x.tx.crossed
  }

  ghost predicate Inv(des: Des, key: Block, x: Endpoint, y: Endpoint, xHand: Option<Mode>, yHand: Option<Mode>) {
    && Dir(des, key, x, y, xHand)
    && Dir(des, key, y, x, yHand)
  }

  // ---------- writing one message ----------

  predicate Keyed(key: Block, k: Pair<Block>, tx: Tx) { tx.output.Some? ==> k.Get(tx.output.value) == key }

  function WithStream(tx: Tx, t: Mode, s: Stream): Tx { tx.(fb := tx.fb.Set(t, tx.fb.Get(t).(stream := s))) }

  lemma AgreeAdvance(tx: Tx, v: Rx, t: Mode, s: Stream)
    requires Agree(tx, v) && tx.output == Some(t)
    ensures Agree(WithStream(tx, t, s), v.(fb := v.fb.Set(t, v.fb.Get(t).(stream := s))))
    ensures v.fb.Get(t).stream == tx.fb.Get(t).stream
  {
    match t
    case CFB => assert AgreeType(tx, v, CFB);
    case OFB => assert AgreeType(tx, v, OFB);
  }

  /** The sending half after a write, apart from the bytes and the record of the message. */
  function Advanced(des: Des, k: Pair<Block>, tx: Tx, m: Msg): Tx {
    match tx.output
    case None => tx
    case Some(t) => WithStream(tx, t, Enc(des, t, k.Get(t), tx.fb.Get(t).stream, Encode(m)).0)
  }

  /** Writing a message moves the sender's registers exactly as reading it will move the receiver's. */
  lemma WriteSync(des: Des, key: Block, k: Pair<Block>, tx: Tx, v: Rx, m: Msg)
    requires Agree(tx, v) && Keyed(key, k, tx)
    ensures var (v1, w) := Wire(des, key, v, Encode(m));
            && NetWrite(des, k, tx, m) == Advanced(des, k, tx, m).(out := tx.out + w, sent := tx.sent + [m])
            && Agree(Advanced(des, k, tx, m), v1)
  {
    if tx.output.Some? {
      var t := tx.output.value;
      AgreeAdvance(tx, v, t, Enc(des, t, key, tx.fb.Get(t).stream, Encode(m)).0);
    }
  }

  lemma NetWriteIs(des: Des, k: Pair<Block>, tx: Tx, m: Msg)
    ensures var w := NetWrite(des, k, tx, m);
            w == Advanced(des, k, tx, m).(out := w.out, sent := tx.sent + [m])
  {}

  /** Nothing but a register changes. */
  predicate SameButStreams(a: Tx, b: Tx) {
    && b == a.(fb := b.fb)
    && b.fb.cfb == a.fb.cfb.(stream := b.fb.cfb.stream)
    && b.fb.ofb == a.fb.ofb.(stream := b.fb.ofb.stream)
  }

  lemma AdvancedFrame(des: Des, k: Pair<Block>, tx: Tx, m: Msg)
    ensures SameButStreams(tx, Advanced(des, k, tx, m))
  {
    match tx.output
    case None =>
    case Some(CFB) =>
    case Some(OFB) =>
  }

  /** Messages whose arrival changes nothing the sender relies on. */
  predicate Inert(m: Msg) {
    m.Sub? ==> m.cmd != ENCRYPT_IS && m.cmd != ENCRYPT_REPLY && m.cmd != ENCRYPT_START && m.cmd != ENCRYPT_END
  }

  /** A key id changes the key id and the states only. */
  lemma KeyidFrame(rx: Rx, keyid: seq<Bits>)
    ensures var r := OnEncKeyid(rx, keyid).0;
      && r == rx.(keyid := r.keyid, fb := r.fb)
      && r.fb.cfb.stream == rx.fb.cfb.stream && r.fb.ofb.stream == rx.fb.ofb.stream
  {
    match rx.mode
    case None =>
    case Some(CFB) =>
    case Some(OFB) =>
  }

  lemma KeyidAgree(tx: Tx, v: Rx, m: Msg)
    requires Agree(tx, v) && m.Sub? && m.cmd == ENCRYPT_ENC_KEYID
    ensures Agree(tx.(sent := tx.sent + [m]), RxMsg(v, m).0)
  {
    RxInvMsg(v, m);
    KeyidFrame(v.(seen := v.seen + [m]), m.arg);
  }

  lemma InertAgree(tx: Tx, v: Rx, m: Msg)
    requires Agree(tx, v) && (Inert(m) || (m.Sub? && m.cmd == ENCRYPT_REPLY))
    ensures Agree(tx.(sent := tx.sent + [m]), RxMsg(v, m).0)
  {
    if m.Sub? && m.cmd == ENCRYPT_ENC_KEYID {
      KeyidAgree(tx, v, m);
    }
  }

  /** The receiver ahead, after one more message has been written. */
  lemma AheadWrite(des: Des, key: Block, x: Endpoint, y: Endpoint, m: Msg)
    requires Agree(x.tx, Ahead(des, key, x, y)) && Keyed(key, x.key, x.tx)
    ensures var v := Ahead(des, key, x, y);
            Ahead(des, key, x.(tx := NetWrite(des, x.key, x.tx, m)), y) == RxMsg(Wire(des, key, v, Encode(m)).0, m).0
  {
    var v := Ahead(des, key, x, y);
    WriteSync(des, key, x.key, x.tx, v, m);
    DrainAppend(des, key, Norm(y.rx), x.tx.out, Wire(des, key, v, Encode(m)).1);
    DrainMsg(des, key, v, m);
  }

  lemma FlightAppend(a: Tx, b: Tx, rx: Rx, m: Msg)
    requires b.sent == a.sent + [m] && rx.seen <= a.sent
    ensures Flight(b, rx) == Flight(a, rx) + [m]
  {}

  lemma KeyedBy(key: Block, x: Endpoint, v: Rx)
    requires Agree(x.tx, v) && KeyInv(key, x, CFB) && KeyInv(key, x, OFB)
    ensures Keyed(key, x.key, x.tx)
  {
    match x.tx.output
    case None =>
    case Some(CFB) => assert AgreeType(x.tx, v, CFB);
    case Some(OFB) => assert AgreeType(x.tx, v, OFB);
  }

  lemma HonestKept(x: Endpoint, x1: Endpoint, y: Endpoint, m: Msg)
    requires HonestAll(x, y)
    requires x1.rx == x.rx && x1.tx.sent == x.tx.sent + [m]
    requires x1.tx.fb.cfb == x.tx.fb.cfb.(stream := x1.tx.fb.cfb.stream)
    requires x1.tx.fb.ofb == x.tx.fb.ofb.(stream := x1.tx.fb.ofb.stream)
    requires Honest(x1, y, m)
    ensures HonestAll(x1, y)
  {
    forall m0 | m0 in x1.tx.sent ensures Honest(x1, y, m0) {
      if m0 in x.tx.sent {
        assert Honest(x, y, m0);
      }
    }
  }

  /** The direction x to y after x writes a message that is neither IS, START nor END. */
  lemma WriteForward(des: Des, key: Block, x: Endpoint, y: Endpoint, m: Msg, xh: Option<Mode>)
    requires Dir(des, key, x, y, xh) && Honest(x, y, m)
    requires Inert(m) || (m.Sub? && m.cmd == ENCRYPT_REPLY)
    ensures Dir(des, key, x.(tx := NetWrite(des, x.key, x.tx, m)), y, xh)
  {
    var x1 := x.(tx := NetWrite(des, x.key, x.tx, m));
    KeyedBy(key, x, Ahead(des, key, x, y));
    AheadAgrees(des, key, x, y, m);
    NetWriteIs(des, x.key, x.tx, m);
    AdvancedFrame(des, x.key, x.tx, m);
    BalanceForward(x, x1, y, m, xh);
    HonestKept(x, x1, y, m);
  }

  lemma AheadAgrees(des: Des, key: Block, x: Endpoint, y: Endpoint, m: Msg)
    requires Agree(x.tx, Ahead(des, key, x, y)) && Keyed(key, x.key, x.tx)
    requires Inert(m) || (m.Sub? && m.cmd == ENCRYPT_REPLY)
    ensures var x1 := x.(tx := NetWrite(des, x.key, x.tx, m)); Agree(x1.tx, Ahead(des, key, x1, y))
  {
    var v := Ahead(des, key, x, y);
    var x1 := x.(tx := NetWrite(des, x.key, x.tx, m));
    WriteSync(des, key, x.key, x.tx, v, m);
    AheadWrite(des, key, x, y, m);
    InertAgree(Advanced(des, x.key, x.tx, m), Wire(des, key, v, Encode(m)).0, m);
    AgreeOut(Advanced(des, x.key, x.tx, m).(sent := x1.tx.sent), x1.tx.out, Ahead(des, key, x1, y));
  }

  lemma AgreeOut(tx: Tx, out: seq<Bits>, v: Rx)
    requires Agree(tx, v)
    ensures Agree(tx.(out := out), v)
  {}

  lemma BalanceForward(x: Endpoint, x1: Endpoint, y: Endpoint, m: Msg, xh: Option<Mode>)
    requires y.rx.seen <= x.tx.sent && x1.tx.sent == x.tx.sent + [m] && x1.rx == x.rx
    requires x1.tx.fb.cfb.state == x.tx.fb.cfb.state && x1.tx.fb.ofb.state == x.tx.fb.ofb.state
    requires !IsFor(m, CFB) && !IsFor(m, OFB)
    requires Balance(x, y, xh, CFB) && Balance(x, y, xh, OFB)
    ensures Balance(x1, y, xh, CFB) && Balance(x1, y, xh, OFB)
  {
    FlightAppend(x.tx, x1.tx, y.rx, m);
    CountAppend(Flight(x.tx, y.rx), m, CFB);
    CountAppend(Flight(x.tx, y.rx), m, OFB);
  }

  /** The direction y to x only notices what x writes if it is an answer. */
  lemma WriteBackward(des: Des, key: Block, x: Endpoint, x1: Endpoint, y: Endpoint, m: Msg,
                      yh: Option<Mode>, yh1: Option<Mode>)
    requires Dir(des, key, y, x, yh)
    requires x1.rx == x.rx && x1.tx.sent == x.tx.sent + [m] && y.rx.seen <= x.tx.sent
    requires if yh1 == yh then !ReplyFor(m, CFB) && !ReplyFor(m, OFB)
             else yh.Some? && yh1 == None && m == ReplyMsg(yh.value, FB64_IV_OK)
    ensures Dir(des, key, y, x1, yh1)
  {
    BalanceBackward(x, x1, y, m, yh, yh1, CFB);
    BalanceBackward(x, x1, y, m, yh, yh1, OFB);
    HonestTransfer(y, y, x, x1);
  }

  lemma BalanceBackward(x: Endpoint, x1: Endpoint, y: Endpoint, m: Msg, yh: Option<Mode>, yh1: Option<Mode>, t: Mode)
    requires Balance(y, x, yh, t)
    requires x1.rx == x.rx && x1.tx.sent == x.tx.sent + [m] && y.rx.seen <= x.tx.sent
    requires if yh1 == yh then !ReplyFor(m, t) else yh.Some? && yh1 == None && m == ReplyMsg(yh.value, FB64_IV_OK)
    ensures Balance(y, x1, yh1, t)
  {
    FlightAppend(x.tx, x1.tx, y.rx, m);
    CountAppend(Flight(x.tx, y.rx), m, t);
  }

  /** Nor what else it does, as long as it writes nothing. */
  lemma Unnoticed(des: Des, key: Block, x: Endpoint, x1: Endpoint, y: Endpoint, yh: Option<Mode>)
    requires Dir(des, key, y, x, yh) && Norm(x1.rx) == Norm(x.rx) && x1.rx.seen == x.rx.seen && RxInv(x1.rx)
    requires x1.rx.support == x.rx.support && x1.tx.sent == x.tx.sent
    ensures Dir(des, key, y, x1, yh)
  {
    HonestTransfer(y, y, x, x1);
  }

  /** Any message that is neither IS, REPLY, START nor END may be written at any time. */
  lemma WriteInert(des: Des, key: Block, x: Endpoint, y: Endpoint, m: Msg, xh: Option<Mode>, yh: Option<Mode>)
    requires Inv(des, key, x, y, xh, yh) && Inert(m) && Honest(x, y, m)
    ensures Inv(des, key, x.(tx := NetWrite(des, x.key, x.tx, m)), y, xh, yh)
  {
    WriteForward(des, key, x, y, m, xh);
    WriteBackward(des, key, x, x.(tx := NetWrite(des, x.key, x.tx, m)), y, m, yh, yh);
  }

  /** The answer in hand is sent. */
  lemma WriteReply(des: Des, key: Block, x: Endpoint, y: Endpoint, t: Mode, xh: Option<Mode>)
    requires Inv(des, key, x, y, xh, Some(t))
    ensures Inv(des, key, x.(tx := NetWrite(des, x.key, x.tx, ReplyMsg(t, FB64_IV_OK))), y, xh, None)
  {
    var m := ReplyMsg(t, FB64_IV_OK);
    WriteForward(des, key, x, y, m, xh);
    WriteBackward(des, key, x, x.(tx := NetWrite(des, x.key, x.tx, m)), y, m, Some(t), None);
  }
}
