/**
 Every move an endpoint can make keeps the two-endpoint invariant.
 */
module TelnetMoves {
  import opened Wrappers
  import opened Cipher
  import opened Telnet
  import opened TelnetWire
  import opened TelnetSession

  // ---------- moves that touch no register ----------

  /** The phase of the outgoing cipher of one type is the same in both halves. */
  predicate SamePhase(a: Tx, b: Tx, t: Mode) {
    var f, g := a.fb.Get(t), b.fb.Get(t);
    && g.temp == f.temp && g.stream == f.stream
    && (Unsent(a, t) <==> Unsent(b, t))
    && (Waiting(a, t) <==> Waiting(b, t))
  }

  predicate Quiescent(a: Tx, b: Tx) {
    && SamePhase(a, b, CFB) && SamePhase(a, b, OFB)
    && b.output == a.output && b.out == a.out && b.sent == a.sent && b.lastIv == a.lastIv && b.crossed == a.crossed
  }

  lemma Neutral(des: Des, key: Block, x: Endpoint, tx: Tx, y: Endpoint, xh: Option<Mode>, yh: Option<Mode>)
    requires Inv(des, key, x, y, xh, yh)
    requires Quiescent(x.tx, tx) && tx.remote <= y.rx.support
    requires NeedInv(x.(tx := tx), y, CFB) && NeedInv(x.(tx := tx), y, OFB)
    ensures Inv(des, key, x.(tx := tx), y, xh, yh)
  {
    var x1 := x.(tx := tx);
    HonestTransfer(x, x1, y, y);
    NeutralAgree(x.tx, tx, Ahead(des, key, x, y));
    Unnoticed(des, key, x, x1, y, yh);
  }

  lemma NeutralAgree(a: Tx, b: Tx, v: Rx)
    requires Agree(a, v) && Quiescent(a, b)
    ensures Agree(b, v)
  {
    assert AgreeType(b, v, CFB);
    assert AgreeType(b, v, OFB);
  }

  /** Settings the ciphers do not look at; types may be enabled but not disabled. */
  lemma MoveSettings(des: Des, key: Block, x: Endpoint, y: Endpoint, tx: Tx)
    requires Inv(des, key, x, y, None, None)
    requires tx == x.tx.(mode := tx.mode, support := tx.support, auto := tx.auto,
                         supportSent := tx.supportSent, keyid := tx.keyid)
    requires x.tx.support <= tx.support
    ensures Inv(des, key, x.(tx := tx), y, None, None)
  {
    forall t ensures NeedInv(x.(tx := tx), y, t) { assert NeedInv(x, y, t); }
    Neutral(des, key, x, tx, y, None, None);
  }

  // ---------- START and END ----------

  lemma SwitchAgree(tx: Tx, v: Rx, m: Msg, t: Mode)
    requires Agree(tx, v) && m.Sub? && m.cmd == ENCRYPT_START
    requires Ready(tx, t) && tx.lastIv == Some(t)
    ensures Agree(tx.(sent := tx.sent + [m], output := Some(t)), RxMsg(v, m).0)
  {
    RxInvMsg(v, m);
    assert AgreeType(tx, v, t);
  }

  /** The receiver ahead of a START. */
  lemma SwitchAhead(des: Des, key: Block, x: Endpoint, y: Endpoint, t: Mode)
    requires Agree(x.tx, Ahead(des, key, x, y)) && Keyed(key, x.key, x.tx)
    requires Ready(x.tx, t) && x.tx.lastIv == Some(t)
    ensures var x1 := x.(tx := Switch(des, x.key, x.tx, t)); Agree(x1.tx, Ahead(des, key, x1, y))
  {
    var m := Sub(ENCRYPT_START, x.tx.keyid);
    var v := Ahead(des, key, x, y);
    var x1 := x.(tx := Switch(des, x.key, x.tx, t));
    WriteSync(des, key, x.key, x.tx, v, m);
    AdvancedFrame(des, x.key, x.tx, m);
    AheadWrite(des, key, x, y, m);
    var adv := Advanced(des, x.key, x.tx, m);
    SwitchAgree(adv, Wire(des, key, v, Encode(m)).0, m, t);
    SwitchFields(adv.(sent := adv.sent + [m], output := Some(t)), x1.tx, Ahead(des, key, x1, y));
  }

  lemma SwitchFrame(des: Des, k: Pair<Block>, tx: Tx, t: Mode)
    ensures var tx1 := Switch(des, k, tx, t);
            && tx1.sent == tx.sent + [Sub(ENCRYPT_START, tx.keyid)]
            && tx1.fb.cfb == tx.fb.cfb.(stream := tx1.fb.cfb.stream)
            && tx1.fb.ofb == tx.fb.ofb.(stream := tx1.fb.ofb.stream)
            && tx1.support == tx.support && tx1.remote == tx.remote
  {
    NetWriteIs(des, k, tx, Sub(ENCRYPT_START, tx.keyid));
    AdvancedFrame(des, k, tx, Sub(ENCRYPT_START, tx.keyid));
  }

  /** START is written in the old mode; what follows is in the new one, at both ends. */
  lemma MoveSwitch(des: Des, key: Block, x: Endpoint, y: Endpoint, t: Mode)
    requires Inv(des, key, x, y, None, None) && Ready(x.tx, t) && x.tx.lastIv == Some(t)
    ensures Inv(des, key, x.(tx := Switch(des, x.key, x.tx, t)), y, None, None)
  {
    var m := Sub(ENCRYPT_START, x.tx.keyid);
    KeyedBy(key, x, Ahead(des, key, x, y));
    var x1 := x.(tx := Switch(des, x.key, x.tx, t));
    SwitchAhead(des, key, x, y, t);
    SwitchFrame(des, x.key, x.tx, t);
    BalanceForward(x, x1, y, m, None);
    HonestKept(x, x1, y, m);
    WriteBackward(des, key, x, x1, y, m, None, None);
  }

  lemma SwitchFields(a: Tx, b: Tx, v: Rx)
    requires Agree(a, v) && b.fb == a.fb && b.output == a.output && b.sent == a.sent && b.lastIv == a.lastIv
    ensures Agree(b, v)
  {
    assert AgreeType(b, v, CFB);
    assert AgreeType(b, v, OFB);
  }

  lemma EndAgree(tx: Tx, v: Rx, m: Msg)
    requires Agree(tx, v) && m.Sub? && m.cmd == ENCRYPT_END
    ensures Agree(tx.(sent := tx.sent + [m], output := None), RxMsg(v, m).0)
  {
    RxInvMsg(v, m);
  }

  lemma MoveEnd(des: Des, key: Block, x: Endpoint, y: Endpoint)
    requires Inv(des, key, x, y, None, None)
    ensures Inv(des, key, x.(tx := SendEnd(des, x.key, x.tx)), y, None, None)
  {
    if x.tx.output.Some? {
      var m := Sub(ENCRYPT_END, []);
      var v := Ahead(des, key, x, y);
      KeyedBy(key, x, v);
      var x1 := x.(tx := SendEnd(des, x.key, x.tx));
      WriteSync(des, key, x.key, x.tx, v, m);
      AdvancedFrame(des, x.key, x.tx, m);
      AheadWrite(des, key, x, y, m);
      var adv := Advanced(des, x.key, x.tx, m);
      EndAgree(adv, Wire(des, key, v, Encode(m)).0, m);
      SwitchFields(adv.(sent := adv.sent + [m], output := None), x1.tx, Ahead(des, key, x1, y));
      BalanceForward(x, x1, y, m, None);
      HonestKept(x, x1, y, m);
      WriteBackward(des, key, x, x1, y, m, None, None);
    }
  }

  // ---------- a vector goes out ----------

  /** The bookkeeping of `SendIv`, apart from the message. */
  function Marked(tx: Tx, t: Mode, iv: Block, k: Block): Tx {
    var f := tx.fb.Get(t);
    tx.(fb := tx.fb.Set(t, f.(temp := iv, state := Begun(f.state).(noSendIv := false, noRecvIv := true))),
        log := tx.log + [IvSent(t, iv, k)],
        lastIv := Some(t))
  }

  lemma SendIvIs(des: Des, k: Pair<Block>, tx: Tx, t: Mode, iv: Block)
    requires tx.output != Some(t)
    ensures var m := IsMsg(t, iv); var w := NetWrite(des, k, tx, m);
            && SendIv(des, k, tx, t, iv) == Marked(Advanced(des, k, tx, m), t, iv, k.Get(t)).(out := w.out, sent := w.sent)
            && w.sent == tx.sent + [m]
  {
    match (tx.output, t)
    case (None, _) =>
    case (Some(CFB), OFB) =>
    case (Some(OFB), CFB) =>
  }

  lemma IvAgree(tx: Tx, v: Rx, t: Mode, iv: Block, k: Block)
    requires Agree(tx, v) && Unsent(tx, t) && t in v.support
    ensures Agree(Marked(tx, t, iv, k).(sent := tx.sent + [IsMsg(t, iv)]), RxMsg(v, IsMsg(t, iv)).0)
  {
    var m := IsMsg(t, iv);
    RxInvMsg(v, m);
    assert m.arg[1..] == [FB64_IV] + iv && m.arg[1..][1..] == iv;
    var v1 := RxMsg(v, m).0;
    var tx1 := Marked(tx, t, iv, k).(sent := tx.sent + [m]);
    match t
    case CFB =>
      assert AgreeType(tx1, v1, CFB);
      assert AgreeType(tx1, v1, OFB);
    case OFB =>
      assert AgreeType(tx1, v1, CFB);
      assert AgreeType(tx1, v1, OFB);
  }

  lemma IvBalance(x: Endpoint, x1: Endpoint, y: Endpoint, t: Mode, iv: Block)
    requires y.rx.seen <= x.tx.sent && x1.tx.sent == x.tx.sent + [IsMsg(t, iv)] && x1.rx == x.rx
    requires x1.tx.fb == Marked(x1.tx, t, iv, ZERO).fb && Unsent(x.tx, t)
    requires forall u :: u != t ==> x1.tx.fb.Get(u).state == x.tx.fb.Get(u).state
    requires Balance(x, y, None, CFB) && Balance(x, y, None, OFB)
    ensures Balance(x1, y, None, CFB) && Balance(x1, y, None, OFB)
  {
    var m := IsMsg(t, iv);
    FlightAppend(x.tx, x1.tx, y.rx, m);
    CountAppend(Flight(x.tx, y.rx), m, CFB);
    CountAppend(Flight(x.tx, y.rx), m, OFB);
  }

  lemma IvHonest(x: Endpoint, x1: Endpoint, y: Endpoint, t: Mode, iv: Block)
    requires HonestAll(x, y)
    requires Unsent(x.tx, t) && t in y.rx.support
    requires x1.rx == x.rx && x1.tx.sent == x.tx.sent + [IsMsg(t, iv)]
    requires x1.tx.fb.Get(t).temp == iv && !Unsent(x1.tx, t)
    requires forall u :: u != t ==> x1.tx.fb.Get(u).state == x.tx.fb.Get(u).state && x1.tx.fb.Get(u).temp == x.tx.fb.Get(u).temp
    ensures HonestAll(x1, y)
  {
    forall m0 | m0 in x1.tx.sent ensures Honest(x1, y, m0) {
      if m0 in x.tx.sent {
        assert Honest(x, y, m0);
      }
    }
  }

  lemma SendIvAhead(des: Des, key: Block, x: Endpoint, y: Endpoint, t: Mode, iv: Block)
    requires Agree(x.tx, Ahead(des, key, x, y)) && Keyed(key, x.key, x.tx)
    requires Unsent(x.tx, t) && t in y.rx.support
    ensures var m := IsMsg(t, iv);
            Agree(Marked(Advanced(des, x.key, x.tx, m), t, iv, x.key.Get(t)).(sent := x.tx.sent + [m]),
                  Ahead(des, key, x.(tx := NetWrite(des, x.key, x.tx, m)), y))
  {
    var m := IsMsg(t, iv);
    var v := Ahead(des, key, x, y);
    WriteSync(des, key, x.key, x.tx, v, m);
    AdvancedFrame(des, x.key, x.tx, m);
    DrainSupport(des, key, Norm(y.rx), x.tx.out);
    AheadWrite(des, key, x, y, m);
    IvAgree(Advanced(des, x.key, x.tx, m), Wire(des, key, v, Encode(m)).0, t, iv, x.key.Get(t));
  }

  lemma MarkedFrame(tx: Tx, adv: Tx, t: Mode, iv: Block, k: Block)
    requires SameButStreams(tx, adv)
    ensures var tx1 := Marked(adv, t, iv, k);
            && (forall u :: u != t ==> tx1.fb.Get(u) == tx.fb.Get(u).(stream := tx1.fb.Get(u).stream))
            && tx1.fb.Get(t).needStart == tx.fb.Get(t).needStart
            && tx1.fb.Get(t).temp == iv && Waiting(tx1, t)
  {
    match t
    case CFB =>
    case OFB =>
  }

  lemma MoveSendIv(des: Des, key: Block, x: Endpoint, y: Endpoint, t: Mode, iv: Block)
    requires Inv(des, key, x, y, None, None)
    requires Unsent(x.tx, t) && CanEncrypt(x.tx, t) && t in y.rx.support && x.key.Get(t) == key
    ensures Inv(des, key, x.(tx := SendIv(des, x.key, x.tx, t, iv)), y, None, None)
  {
    var m := IsMsg(t, iv);
    var v := Ahead(des, key, x, y);
    KeyedBy(key, x, v);
    assert AgreeType(x.tx, v, t);
    var x1 := x.(tx := SendIv(des, x.key, x.tx, t, iv));
    SendIvIs(des, x.key, x.tx, t, iv);
    SendIvAhead(des, key, x, y, t, iv);
    var adv := Advanced(des, x.key, x.tx, m);
    AdvancedFrame(des, x.key, x.tx, m);
    MarkedFrame(x.tx, adv, t, iv, key);
    SendIvForward(des, key, x, x1, y, t, iv, adv);
    WriteBackward(des, key, x, x1, y, m, None, None);
  }

  lemma SendIvForward(des: Des, key: Block, x: Endpoint, x1: Endpoint, y: Endpoint, t: Mode, iv: Block, adv: Tx)
    requires Dir(des, key, x, y, None)
    requires Unsent(x.tx, t) && CanEncrypt(x.tx, t) && t in y.rx.support && x.key.Get(t) == key
    requires x1 == x.(tx := x1.tx) && SameButStreams(x.tx, adv)
    requires x1.tx == Marked(adv, t, iv, key).(out := x1.tx.out, sent := x.tx.sent + [IsMsg(t, iv)])
    requires Agree(Marked(adv, t, iv, key).(sent := x.tx.sent + [IsMsg(t, iv)]), Ahead(des, key, x1, y))
    ensures Dir(des, key, x1, y, None)
  {
    MarkedFrame(x.tx, adv, t, iv, key);
    AgreeOut(Marked(adv, t, iv, key).(sent := x1.tx.sent), x1.tx.out, Ahead(des, key, x1, y));
    IvBalance(x, x1, y, t, iv);
    IvHonest(x, x1, y, t, iv);
  }

  lemma {:induction false} DrainSupport(des: Des, key: Block, rx: Rx, bytes: seq<Bits>)
    ensures Drain(des, key, rx, bytes).support == rx.support
    decreases |bytes|
  {
    if bytes != [] {
      var r := RxByte(des, Pair(key, key), rx, bytes[0]);
      if r.1.Some? {
        var c := Decrypt(des, Pair(key, key), rx, bytes[0]);
        SeenGrows(c.0.(parser := ParseByte(rx.parser, c.1).0), r.1.value);
      }
      DrainSupport(des, key, r.0, bytes[1..]);
    }
  }

  // ---------- the answer to a vector is used ----------

  lemma MoveIvOk(des: Des, key: Block, x: Endpoint, y: Endpoint, t: Mode)
    requires Inv(des, key, x, y, Some(t), None)
    ensures Inv(des, key, x.(tx := AcceptIvOk(x.tx, t)), y, None, None)
  {
    var x1 := x.(tx := AcceptIvOk(x.tx, t));
    var v := Ahead(des, key, x, y);
    assert Balance(x, y, Some(t), t);
    assert Waiting(x.tx, t);
    assert AgreeType(x.tx, v, t);
    IvOkAgree(x.tx, v, t);
    HonestTransfer(x, x1, y, y);
    Unnoticed(des, key, x, x1, y, None);
  }

  lemma IvOkAgree(tx: Tx, v: Rx, t: Mode)
    requires Agree(tx, v) && Waiting(tx, t)
    ensures Agree(AcceptIvOk(tx, t), v)
  {
    match t
    case CFB =>
      assert AgreeType(AcceptIvOk(tx, t), v, CFB);
      assert AgreeType(AcceptIvOk(tx, t), v, OFB);
    case OFB =>
      assert AgreeType(AcceptIvOk(tx, t), v, CFB);
      assert AgreeType(AcceptIvOk(tx, t), v, OFB);
  }

  // ---------- the handlers of the outgoing half ----------

  /** Without a key the start is only noted. */
  lemma MoveNeedStart(des: Des, key: Block, x: Endpoint, y: Endpoint, t: Mode)
    requires Inv(des, key, x, y, None, None) && CanEncrypt(x.tx, t) && Unsent(x.tx, t)
    ensures var f := x.tx.fb.Get(t);
            var tx := x.tx.(fb := x.tx.fb.Set(t, f.(needStart := true, state := Begun(f.state))));
            Inv(des, key, x.(tx := tx), y, None, None)
  {
    var f := x.tx.fb.Get(t);
    var tx := x.tx.(fb := x.tx.fb.Set(t, f.(needStart := true, state := Begun(f.state))));
    assert Quiescent(x.tx, tx) by {
      match t
      case CFB =>
      case OFB =>
    }
    Neutral(des, key, x, tx, y, None, None);
  }

  lemma MoveFbStart(des: Des, key: Block, x: Endpoint, y: Endpoint, t: Mode, rand: Rand)
    requires Inv(des, key, x, y, None, None) && CanEncrypt(x.tx, t)
    ensures var r := FbStart(des, x.key, x.tx, t, rand);
            && Inv(des, key, x.(tx := r.0), y, None, None)
            && (r.1 == SUCCESS ==> Ready(r.0, t))
  {
    var f := x.tx.fb.Get(t);
    if f.state.Progress? && !f.state.noSendIv {
      assert x.(tx := x.tx) == x;
    } else if !ValidKey(x.key.Get(t)) {
      MoveNeedStart(des, key, x, y, t);
    } else if rand(t).Some? {
      assert KeyInv(key, x, t);
      MoveSendIv(des, key, x, y, t, rand(t).value);
      SendIvState(des, x.key, x.tx, t, rand(t).value);
    } else {
      assert x.(tx := x.tx) == x;
    }
  }

  lemma SendIvState(des: Des, k: Pair<Block>, tx: Tx, t: Mode, iv: Block)
    ensures Waiting(SendIv(des, k, tx, t, iv), t)
  {
    match (tx.output, t)
    case (None, _) =>
    case (Some(CFB), _) =>
    case (Some(OFB), _) =>
  }

  lemma MoveStartOutput(des: Des, key: Block, x: Endpoint, y: Endpoint, t: Mode, rand: Rand)
    requires Inv(des, key, x, y, None, None)
    ensures var tx := StartOutput(des, x.key, x.tx, t, rand);
            tx.crossed || Inv(des, key, x.(tx := tx), y, None, None)
  {
    if CanEncrypt(x.tx, t) {
      MoveFbStart(des, key, x, y, t, rand);
      var (tx1, ret) := FbStart(des, x.key, x.tx, t, rand);
      if ret == SUCCESS && tx1.lastIv == Some(t) {
        MoveSwitch(des, key, x.(tx := tx1), y, t);
      }
    } else {
      assert x.(tx := x.tx) == x;
    }
  }

  lemma MoveEncKeyid(des: Des, key: Block, x: Endpoint, y: Endpoint, keyid: seq<Bits>)
    requires Inv(des, key, x, y, None, None)
    ensures Inv(des, key, x.(tx := SendEncKeyid(des, x.key, x.tx, keyid)), y, None, None)
  {
    MoveSettings(des, key, x, y, x.tx.(keyid := keyid));
    WriteInert(des, key, x.(tx := x.tx.(keyid := keyid)), y, Sub(ENCRYPT_ENC_KEYID, keyid), None, None);
  }

  lemma {:induction false} UsableFrom(tx: Tx, types: seq<Bits>, t: Mode)
    requires t in Usable(tx, types)
    ensures TypeByte(t) in types
  {
    if types != [] && TypeOf(types[0]) != Some(t) {
      UsableFrom(tx, types[1..], t);
    }
  }

  lemma {:induction false} UsableHas(tx: Tx, types: seq<Bits>, t: Mode)
    requires TypeByte(t) in types && t in tx.support
    ensures t in Usable(tx, types)
  {
    if types[0] != TypeByte(t) {
      UsableHas(tx, types[1..], t);
    }
  }

  lemma SupportList(s: set<Mode>, t: Mode)
    ensures TypeByte(t) in SupportMsg(s).arg <==> t in s
  {
    match t
    case CFB =>
    case OFB =>
  }

  lemma UsableIs(tx: Tx, s: set<Mode>)
    ensures (set t | t in Usable(tx, SupportMsg(s).arg)) == tx.support * s
  {
    var types := SupportMsg(s).arg;
    forall t ensures t in Usable(tx, types) <==> t in tx.support && t in s {
      SupportList(s, t);
      UsableSupported(tx, types);
      if t in Usable(tx, types) { UsableFrom(tx, types, t); }
      if t in tx.support && t in s { UsableHas(tx, types, t); }
    }
  }

  /** The types left standing by the peer's list are ones it can decrypt, and lose none already in use. */
  lemma MoveRemote(des: Des, key: Block, x: Endpoint, y: Endpoint)
    requires Inv(des, key, x, y, None, None)
    ensures var us := Usable(x.tx, SupportMsg(y.rx.support).arg);
            Inv(des, key, x.(tx := x.tx.(remote := set t | t in us)), y, None, None)
  {
    var tx0 := x.tx.(remote := x.tx.support * y.rx.support);
    UsableIs(x.tx, y.rx.support);
    RemoteNeeds(x, y, tx0, CFB);
    RemoteNeeds(x, y, tx0, OFB);
    Neutral(des, key, x, tx0, y, None, None);
  }

  lemma RemoteNeeds(x: Endpoint, y: Endpoint, tx: Tx, t: Mode)
    requires NeedInv(x, y, t) && tx == x.tx.(remote := x.tx.support * y.rx.support)
    ensures NeedInv(x.(tx := tx), y, t)
  {}

  lemma UsableSupported(tx: Tx, types: seq<Bits>)
    ensures forall t :: t in Usable(tx, types) ==> t in tx.support
  {}

  lemma MoveSupport(des: Des, key: Block, x: Endpoint, y: Endpoint, rand: Rand)
    requires Inv(des, key, x, y, None, None)
    ensures var tx := OnSupport(des, x.key, x.tx, SupportMsg(y.rx.support).arg, rand);
            tx.crossed || Inv(des, key, x.(tx := tx), y, None, None)
  {
    var us := Usable(x.tx, SupportMsg(y.rx.support).arg);
    var tx0 := x.tx.(remote := set t | t in us);
    MoveRemote(des, key, x, y);
    if us != [] {
      UsableSupported(x.tx, SupportMsg(y.rx.support).arg);
      MoveFirst(des, key, x.(tx := tx0), y, us[0], rand);
    }
  }

  /** The first usable type is started and becomes the type in use. */
  lemma MoveFirst(des: Des, key: Block, x: Endpoint, y: Endpoint, t: Mode, rand: Rand)
    requires Inv(des, key, x, y, None, None) && CanEncrypt(x.tx, t)
    ensures var (tx1, ret) := FbStart(des, x.key, x.tx, t, rand);
            var tx2 := tx1.(mode := Some(t));
            var tx3 := StartOutput(des, x.key, tx2, t, rand);
            && Inv(des, key, x.(tx := tx1), y, None, None)
            && Inv(des, key, x.(tx := tx2), y, None, None)
            && (tx3.crossed || Inv(des, key, x.(tx := tx3), y, None, None))
  {
    MoveFbStart(des, key, x, y, t, rand);
    var tx1 := FbStart(des, x.key, x.tx, t, rand).0;
    MoveSettings(des, key, x.(tx := tx1), y, tx1.(mode := Some(t)));
    MoveStartOutput(des, key, x.(tx := tx1.(mode := Some(t))), y, t, rand);
  }

  /** The answer to a vector, once it has been read: x holds it in hand. */
  lemma MoveReply(des: Des, key: Block, x: Endpoint, y: Endpoint, t: Mode, rand: Rand)
    requires Inv(des, key, x, y, Some(t), None)
    ensures var tx := OnReply(des, x.key, x.tx, ReplyMsg(t, FB64_IV_OK).arg, rand);
            tx.crossed || Inv(des, key, x.(tx := tx), y, None, None)
  {
    MoveIvOk(des, key, x, y, t);
    var tx0 := AcceptIvOk(x.tx, t);
    MoveEncKeyid(des, key, x.(tx := tx0), y, [0]);
    var tx1 := SendEncKeyid(des, x.key, tx0, [0]);
    MoveSettings(des, key, x.(tx := tx1), y, tx1.(mode := Some(t)));
    MoveStartOutput(des, key, x.(tx := tx1.(mode := Some(t))), y, t, rand);
    assert CanEncrypt(x.tx, t) by {
      assert Balance(x, y, Some(t), t);
      assert NeedInv(x, y, t);
    }
    ReplyIs(des, x.key, x.tx, t, rand);
  }

  lemma ReplyIs(des: Des, k: Pair<Block>, tx: Tx, t: Mode, rand: Rand)
    requires CanEncrypt(tx, t)
    ensures var tx2 := SendEncKeyid(des, k, AcceptIvOk(tx, t), [0]).(mode := Some(t));
            var r := OnReply(des, k, tx, ReplyMsg(t, FB64_IV_OK).arg, rand);
            r == tx2 || r == StartOutput(des, k, tx2, t, rand)
  {
    var arg := ReplyMsg(t, FB64_IV_OK).arg;
    assert arg[1..] == [FB64_IV_OK] && TypeOf(arg[0]) == Some(t);
    ReplyState(des, k, tx, t);
  }

  lemma ReplyState(des: Des, k: Pair<Block>, tx: Tx, t: Mode)
    ensures FbReply(des, k, tx, t, [FB64_IV_OK]) == SendEncKeyid(des, k, AcceptIvOk(tx, t), [0])
    ensures SendEncKeyid(des, k, AcceptIvOk(tx, t), [0]).fb.Get(t).state.Progress?
  {
    match (tx.output, t)
    case (None, _) =>
    case (Some(CFB), _) =>
    case (Some(OFB), _) =>
  }

  lemma MoveFbKeyid(des: Des, key: Block, x: Endpoint, y: Endpoint, t: Mode)
    requires Inv(des, key, x, y, None, None)
    ensures Inv(des, key, x.(tx := FbKeyid(x.tx, t)), y, None, None)
  {
    var tx := FbKeyid(x.tx, t);
    KeyidQuiescent(x.tx, t);
    Neutral(des, key, x, tx, y, None, None);
  }

  lemma KeyidQuiescent(tx: Tx, t: Mode)
    ensures Quiescent(tx, FbKeyid(tx, t))
  {
    if tx.keyid == [0] {
      var r := FbKeyid(tx, t);
      PhaseKept(tx, t, r.fb.Get(t).state, r.log);
    }
  }

  lemma PhaseKept(tx: Tx, t: Mode, s: Neg, log: seq<Event>)
    requires var was := tx.fb.Get(t).state;
      s.Progress? && if was.Failed? then s.noSendIv && s.noRecvIv else s.noSendIv == was.noSendIv && s.noRecvIv == was.noRecvIv
    ensures Quiescent(tx, tx.(fb := tx.fb.Set(t, tx.fb.Get(t).(state := s)), log := log))
  {
    match t
    case CFB =>
    case OFB =>
  }

  lemma MoveDecKeyid(des: Des, key: Block, x: Endpoint, y: Endpoint, keyid: seq<Bits>, rand: Rand)
    requires Inv(des, key, x, y, None, None)
    ensures var tx := OnDecKeyid(des, x.key, x.tx, keyid, rand);
            tx.crossed || Inv(des, key, x.(tx := tx), y, None, None)
  {
    assert x.(tx := x.tx) == x;
    if x.tx.mode.None? || !CanEncrypt(x.tx, x.tx.mode.value) || keyid == [] {
      MoveEncKeyid(des, key, x, y, []);
    } else {
      var t := x.tx.mode.value;
      if keyid != x.tx.keyid {
        var tx0 := x.tx.(keyid := keyid);
        MoveSettings(des, key, x, y, tx0);
        MoveFbKeyid(des, key, x.(tx := tx0), y, t);
        var tx1 := FbKeyid(tx0, t);
        MoveEncKeyid(des, key, x.(tx := tx1), y, tx1.keyid);
      } else {
        MoveFbKeyid(des, key, x, y, t);
        MoveStartOutput(des, key, x.(tx := FbKeyid(x.tx, t)), y, t, rand);
      }
    }
  }

  lemma MoveRequestStart(des: Des, key: Block, x: Endpoint, y: Endpoint, rand: Rand)
    requires Inv(des, key, x, y, None, None)
    ensures var tx := OnRequestStart(des, x.key, x.tx, rand);
            tx.crossed || Inv(des, key, x.(tx := tx), y, None, None)
  {
    match x.tx.mode
    case None => MoveSettings(des, key, x, y, x.tx.(auto := x.tx.auto || x.tx.server));
    case Some(t) => MoveStartOutput(des, key, x, y, t, rand);
  }

  // ---------- the session key ----------

  lemma NormSession(rx: Rx, t: Mode)
    requires t in rx.ived ==> FreshStream(rx.fb.Get(t).stream)
    ensures var g := rx.fb.Get(t);
            Norm(rx.(fb := rx.fb.Set(t, g.(stream := StreamKey(g.stream))))) == Norm(rx)
  {
    match t
    case CFB =>
    case OFB =>
  }

  /** Installing the key for one type, before the start it may set off. */
  function Keyless(e: Endpoint, t: Mode, k: Block): Endpoint {
    var f, g := e.tx.fb.Get(t), e.rx.fb.Get(t);
    Endpoint(e.key.Set(t, k),
             e.tx.(fb := e.tx.fb.Set(t, f.(needStart := false, stream := StreamKey(f.stream)))),
             e.rx.(fb := e.rx.fb.Set(t, g.(stream := StreamKey(g.stream)))))
  }

  lemma KeylessAgree(e: Endpoint, v: Rx, t: Mode, k: Block)
    requires Agree(e.tx, v) && Unsent(e.tx, t)
    ensures Agree(Keyless(e, t, k).tx, v)
  {
    assert AgreeType(e.tx, v, t);
    match t
    case CFB =>
      assert AgreeType(Keyless(e, t, k).tx, v, CFB);
      assert AgreeType(Keyless(e, t, k).tx, v, OFB);
    case OFB =>
      assert AgreeType(Keyless(e, t, k).tx, v, CFB);
      assert AgreeType(Keyless(e, t, k).tx, v, OFB);
  }

  lemma KeylessFrame(e: Endpoint, t: Mode, k: Block)
    requires RxInv(e.rx) && Unsent(e.tx, t)
    ensures var e1 := Keyless(e, t, k);
            && RxInv(e1.rx)
            && e1.rx == e.rx.(fb := e1.rx.fb)
            && (forall u :: Unsent(e1.tx, u) == Unsent(e.tx, u) && Waiting(e1.tx, u) == Waiting(e.tx, u))
            && (forall u :: e1.tx.fb.Get(u).temp == e.tx.fb.Get(u).temp)
            && (forall u :: e1.tx.fb.Get(u).needStart ==> e.tx.fb.Get(u).needStart)
            && (forall u :: u != t ==> e1.key.Get(u) == e.key.Get(u) && e1.rx.fb.Get(u) == e.rx.fb.Get(u))
  {
    match t
    case CFB =>
    case OFB =>
  }

  lemma MoveKeyless(des: Des, key: Block, x: Endpoint, y: Endpoint, t: Mode)
    requires Inv(des, key, x, y, None, None) && x.key.Get(t) == ZERO && key != ZERO
    ensures Inv(des, key, Keyless(x, t, key), y, None, None)
  {
    var x1 := Keyless(x, t, key);
    assert KeyInv(key, x, t);
    KeylessAgree(x, Ahead(des, key, x, y), t, key);
    KeylessFrame(x, t, key);
    NormSession(x.rx, t);
    HonestTransfer(x, x1, y, y);
    KeylessKeys(key, x, y, t, CFB);
    KeylessKeys(key, x, y, t, OFB);
    Unnoticed(des, key, x, x1, y, None);
  }

  lemma KeylessKeys(key: Block, x: Endpoint, y: Endpoint, t: Mode, u: Mode)
    requires RxInv(x.rx) && Unsent(x.tx, t) && KeyInv(key, x, u) && NeedInv(x, y, u)
    requires t in x.rx.ived ==> FreshStream(x.rx.fb.Get(t).stream)
    ensures KeyInv(key, Keyless(x, t, key), u) && NeedInv(Keyless(x, t, key), y, u)
  {
    KeylessFrame(x, t, key);
    if u == t { KeyStored(x.key, t, key); }
  }

  lemma KeyStored(k: Pair<Block>, t: Mode, key: Block)
    ensures k.Set(t, key).Get(t) == key
  {}

  lemma MoveFbSession(des: Des, key: Block, x: Endpoint, y: Endpoint, t: Mode, rand: Rand)
    requires Inv(des, key, x, y, None, None) && x.key.Get(t) == ZERO && key != ZERO
    ensures Inv(des, key, FbSession(des, x, t, key, rand), y, None, None)
  {
    MoveKeyless(des, key, x, y, t);
    if x.tx.fb.Get(t).needStart {
      assert NeedInv(x, y, t);
      MoveFbStart(des, key, Keyless(x, t, key), y, t, rand);
    }
  }
}
