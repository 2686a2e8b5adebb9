/**
 Runs in which a sender only ever starts one cipher type: those in which its
 user never changes the type, or in which the peer can decrypt one type only.
 In them no start goes out for a type other than that of the last vector.
 */
module TelnetSingle {
  import opened Wrappers
  import opened Cipher
  import opened Telnet
  import opened TelnetWire
  import opened TelnetSession
  import opened TelnetMoves
  import opened TelnetSystem

  function Other(t: Mode): Mode { if t.CFB? then OFB else CFB }

  /** Nothing of a type was ever started, or will be when the key arrives. */
  predicate Untouched(tx: Tx, t: Mode) { Unsent(tx, t) && !tx.fb.Get(t).needStart }

  /** Which type a SUPPORT list from a peer that can decrypt `dec` makes the sender use. */
  function First(support: set<Mode>, dec: set<Mode>): Option<Mode> {
    if CFB in support && CFB in dec then Some(CFB) else if OFB in support && OFB in dec then Some(OFB) else None
  }

  /** The sender only uses type `t` towards a peer that can decrypt `dec`. */
  predicate Single(tx: Tx, dec: set<Mode>, t: Mode) {
    && !tx.crossed && tx.remote <= dec
    && Untouched(tx, Other(t))
    && (tx.mode == Some(Other(t)) ==> Other(t) !in dec)
    && (Unsent(tx, t) || tx.lastIv == Some(t))
    && First(tx.support, dec) != Some(Other(t))
  }

  // ---------- what does not matter ----------

  /** The same as far as starting ciphers goes. */
  predicate SameStarts(a: Tx, b: Tx) {
    && b.crossed == a.crossed && b.remote == a.remote && b.mode == a.mode && b.lastIv == a.lastIv && b.support == a.support
    && b.fb.cfb.state == a.fb.cfb.state && b.fb.cfb.needStart == a.fb.cfb.needStart
    && b.fb.ofb.state == a.fb.ofb.state && b.fb.ofb.needStart == a.fb.ofb.needStart
  }

  lemma SingleSame(a: Tx, b: Tx, dec: set<Mode>, t: Mode)
    requires Single(a, dec, t) && SameStarts(a, b)
    ensures Single(b, dec, t)
  {
    match t
    case CFB =>
    case OFB =>
  }

  lemma WriteSame(des: Des, k: Pair<Block>, tx: Tx, m: Msg)
    ensures SameStarts(tx, NetWrite(des, k, tx, m))
  {
    match tx.output
    case None =>
    case Some(CFB) =>
    case Some(OFB) =>
  }

  lemma SingleWrite(des: Des, k: Pair<Block>, tx: Tx, m: Msg, dec: set<Mode>, t: Mode)
    requires Single(tx, dec, t)
    ensures Single(NetWrite(des, k, tx, m), dec, t)
  {
    WriteSame(des, k, tx, m);
    SingleSame(tx, NetWrite(des, k, tx, m), dec, t);
  }

  lemma {:induction false} SingleWrites(des: Des, k: Pair<Block>, tx: Tx, ms: seq<Msg>, dec: set<Mode>, t: Mode)
    requires Single(tx, dec, t)
    ensures Single(NetWriteAll(des, k, tx, ms), dec, t)
    ensures NetWriteAll(des, k, tx, ms).mode == tx.mode
    decreases |ms|
  {
    if ms != [] {
      WriteSame(des, k, tx, ms[0]);
      SingleWrite(des, k, tx, ms[0], dec, t);
      SingleWrites(des, k, NetWrite(des, k, tx, ms[0]), ms[1..], dec, t);
    }
  }

  // ---------- starting ----------

  /** Type `t` may change its own record as long as a vector sent is the last one. */
  lemma SingleType(a: Tx, b: Tx, dec: set<Mode>, t: Mode)
    requires Single(a, dec, t) && b.fb.Get(Other(t)) == a.fb.Get(Other(t))
    requires b.crossed == a.crossed && b.remote == a.remote && b.mode == a.mode && b.support == a.support
    requires Unsent(b, t) || b.lastIv == Some(t)
    ensures Single(b, dec, t)
  {}

  lemma SingleSendIv(des: Des, k: Pair<Block>, tx: Tx, iv: Block, dec: set<Mode>, t: Mode)
    requires Single(tx, dec, t)
    ensures Single(SendIv(des, k, tx, t, iv), dec, t)
  {
    var f := tx.fb.Get(t);
    var tx1 := tx.(fb := tx.fb.Set(t, f.(temp := iv, state := Begun(f.state).(noSendIv := false, noRecvIv := true))),
                   log := tx.log + [IvSent(t, iv, k.Get(t))], lastIv := Some(t));
    SingleType(tx, tx1, dec, t);
    SingleWrite(des, k, tx1, IsMsg(t, iv), dec, t);
  }

  lemma SingleStart(des: Des, k: Pair<Block>, tx: Tx, rand: Rand, dec: set<Mode>, t: Mode)
    requires Single(tx, dec, t)
    ensures Single(FbStart(des, k, tx, t, rand).0, dec, t)
    ensures FbStart(des, k, tx, t, rand).1 == SUCCESS ==> FbStart(des, k, tx, t, rand).0.lastIv == Some(t)
  {
    var f := tx.fb.Get(t);
    if f.state.Progress? && !f.state.noSendIv {
    } else if !ValidKey(k.Get(t)) {
      var tx1 := tx.(fb := tx.fb.Set(t, f.(needStart := true, state := Begun(f.state))));
      SingleType(tx, tx1, dec, t);
    } else if rand(t).Some? {
      SingleSendIv(des, k, tx, rand(t).value, dec, t);
      WriteSame(des, k, tx.(fb := tx.fb.Set(t, f.(temp := rand(t).value,
          state := Begun(f.state).(noSendIv := false, noRecvIv := true))),
        log := tx.log + [IvSent(t, rand(t).value, k.Get(t))], lastIv := Some(t)), IsMsg(t, rand(t).value));
    }
  }

  lemma SingleSwitch(des: Des, k: Pair<Block>, tx: Tx, dec: set<Mode>, t: Mode)
    requires Single(tx, dec, t) && tx.lastIv == Some(t)
    ensures Single(Switch(des, k, tx, t), dec, t)
  {
    var m := Sub(ENCRYPT_START, tx.keyid);
    SingleWrite(des, k, tx, m, dec, t);
    WriteSame(des, k, tx, m);
  }

  /** `encrypt_start_output` for the one type, or for one the peer cannot decrypt. */
  lemma SingleStartOutput(des: Des, k: Pair<Block>, tx: Tx, u: Mode, rand: Rand, dec: set<Mode>, t: Mode)
    requires Single(tx, dec, t) && (u == t || u !in dec)
    ensures Single(StartOutput(des, k, tx, u, rand), dec, t)
  {
    if CanEncrypt(tx, u) {
      SingleStart(des, k, tx, rand, dec, t);
      var r := FbStart(des, k, tx, t, rand);
      if r.1 == SUCCESS { SingleSwitch(des, k, r.0, dec, t); }
    }
  }

  lemma SingleMode(des: Des, k: Pair<Block>, tx: Tx, rand: Rand, dec: set<Mode>, t: Mode)
    requires Single(tx, dec, t) && tx.mode.Some?
    ensures Single(StartOutput(des, k, tx, tx.mode.value, rand), dec, t)
  {
    SingleStartOutput(des, k, tx, tx.mode.value, rand, dec, t);
  }

  // ---------- handlers ----------

  lemma UsableFirst(tx: Tx, dec: set<Mode>)
    ensures var us := Usable(tx, SupportMsg(dec).arg);
      if us == [] then First(tx.support, dec) == None else First(tx.support, dec) == Some(us[0])
  {
    UsableOne(tx, CFB);
    UsableOne(tx, OFB);
    var types := SupportMsg(dec).arg;
    if CFB in dec && OFB in dec {
      assert types == [TypeByte(CFB), TypeByte(OFB)] && types[1..] == [TypeByte(OFB)];
    } else if CFB in dec {
      assert types == [TypeByte(CFB)];
    } else if OFB in dec {
      assert types == [TypeByte(OFB)];
    }
  }

  lemma UsableOne(tx: Tx, t: Mode)
    ensures Usable(tx, [TypeByte(t)]) == if t in tx.support then [t] else []
  {
    assert [TypeByte(t)][1..] == [];
  }

  lemma SingleSupport(des: Des, k: Pair<Block>, tx: Tx, rand: Rand, dec: set<Mode>, t: Mode)
    requires Single(tx, dec, t)
    ensures Single(OnSupport(des, k, tx, SupportMsg(dec).arg, rand), dec, t)
  {
    var us := Usable(tx, SupportMsg(dec).arg);
    UsableFirst(tx, dec);
    UsableIs(tx, dec);
    var tx0 := tx.(remote := set u | u in us);
    SingleRemote(tx, tx0, dec, t);
    if us != [] { SingleBegin(des, k, tx0, rand, dec, t); }
  }

  lemma SingleRemote(a: Tx, b: Tx, dec: set<Mode>, t: Mode)
    requires Single(a, dec, t) && b == a.(remote := b.remote) && b.remote <= dec
    ensures Single(b, dec, t)
  {}

  /** The first usable type is started and becomes the type in use. */
  lemma SingleBegin(des: Des, k: Pair<Block>, tx: Tx, rand: Rand, dec: set<Mode>, t: Mode)
    requires Single(tx, dec, t)
    ensures var tx1 := FbStart(des, k, tx, t, rand).0;
      && Single(tx1, dec, t) && Single(tx1.(mode := Some(t)), dec, t)
      && Single(StartOutput(des, k, tx1.(mode := Some(t)), t, rand), dec, t)
  {
    SingleStart(des, k, tx, rand, dec, t);
    var tx1 := FbStart(des, k, tx, t, rand).0;
    SingleUse(tx1, dec, t);
    SingleStartOutput(des, k, tx1.(mode := Some(t)), t, rand, dec, t);
  }

  lemma SingleUse(tx: Tx, dec: set<Mode>, t: Mode)
    requires Single(tx, dec, t)
    ensures Single(tx.(mode := Some(t)), dec, t)
  {}

  lemma SingleEncKeyid(des: Des, k: Pair<Block>, tx: Tx, keyid: seq<Bits>, dec: set<Mode>, t: Mode)
    requires Single(tx, dec, t)
    ensures Single(SendEncKeyid(des, k, tx, keyid), dec, t) && SendEncKeyid(des, k, tx, keyid).mode == tx.mode
  {
    SingleSame(tx, tx.(keyid := keyid), dec, t);
    SingleWrite(des, k, tx.(keyid := keyid), Sub(ENCRYPT_ENC_KEYID, keyid), dec, t);
    WriteSame(des, k, tx.(keyid := keyid), Sub(ENCRYPT_ENC_KEYID, keyid));
  }

  lemma SingleReply(des: Des, k: Pair<Block>, tx: Tx, rand: Rand, dec: set<Mode>, t: Mode)
    requires Single(tx, dec, t) && Waiting(tx, t)
    ensures Single(OnReply(des, k, tx, ReplyMsg(t, FB64_IV_OK).arg, rand), dec, t)
  {
    var tx0 := AcceptIvOk(tx, t);
    SingleType(tx, tx0, dec, t);
    SingleEncKeyid(des, k, tx0, [0], dec, t);
    var tx1 := SendEncKeyid(des, k, tx0, [0]);
    assert Single(tx1.(mode := Some(t)), dec, t);
    SingleStartOutput(des, k, tx1.(mode := Some(t)), t, rand, dec, t);
    if CanEncrypt(tx, t) { ReplyIs(des, k, tx, t, rand); }
  }

  lemma SingleFbKeyid(tx: Tx, u: Mode, dec: set<Mode>, t: Mode)
    requires Single(tx, dec, t)
    ensures Single(FbKeyid(tx, u), dec, t) && FbKeyid(tx, u).mode == tx.mode
  {
    KeyidQuiescent(tx, u);
  }

  lemma SingleDecKeyid(des: Des, k: Pair<Block>, tx: Tx, keyid: seq<Bits>, rand: Rand, dec: set<Mode>, t: Mode)
    requires Single(tx, dec, t)
    ensures Single(OnDecKeyid(des, k, tx, keyid, rand), dec, t)
  {
    SingleEncKeyid(des, k, tx, [], dec, t);
    if tx.mode.Some? {
      var u := tx.mode.value;
      var tx0 := tx.(keyid := keyid);
      SingleSame(tx, tx0, dec, t);
      SingleFbKeyid(tx0, u, dec, t);
      SingleEncKeyid(des, k, FbKeyid(tx0, u), FbKeyid(tx0, u).keyid, dec, t);
      SingleFbKeyid(tx, u, dec, t);
      SingleMode(des, k, FbKeyid(tx, u), rand, dec, t);
    }
  }

  lemma SingleEnd(des: Des, k: Pair<Block>, tx: Tx, dec: set<Mode>, t: Mode)
    requires Single(tx, dec, t)
    ensures Single(SendEnd(des, k, tx), dec, t)
  {
    SingleWrite(des, k, tx, Sub(ENCRYPT_END, []), dec, t);
  }

  /** A message from an honest peer; an answer only to the vector under way. */
  lemma SingleTxMsg(des: Des, k: Pair<Block>, tx: Tx, m: Msg, rand: Rand, dec: set<Mode>, t: Mode)
    requires Single(tx, dec, t)
    requires m.Sub? && m.cmd == ENCRYPT_SUPPORT ==> m == SupportMsg(dec)
    requires m.Sub? && m.cmd == ENCRYPT_REPLY ==> m == ReplyMsg(t, FB64_IV_OK) && Waiting(tx, t)
    ensures Single(TxMsg(des, k, tx, m, rand), dec, t)
  {
    if m.Sub? {
      if m.cmd == ENCRYPT_SUPPORT {
        SingleSupport(des, k, tx, rand, dec, t);
      } else if m.cmd == ENCRYPT_REPLY {
        SingleReply(des, k, tx, rand, dec, t);
      } else if m.cmd == ENCRYPT_REQSTART {
        if tx.mode.Some? {
          SingleMode(des, k, tx, rand, dec, t);
        } else {
          SingleSame(tx, tx.(auto := tx.auto || tx.server), dec, t);
        }
      } else if m.cmd == ENCRYPT_REQEND {
        SingleEnd(des, k, tx, dec, t);
      } else if m.cmd == ENCRYPT_DEC_KEYID {
        SingleDecKeyid(des, k, tx, m.arg, rand, dec, t);
      }
    }
  }

  lemma SingleSession(des: Des, e: Endpoint, u: Mode, k: Block, rand: Rand, dec: set<Mode>, t: Mode)
    requires Single(e.tx, dec, t)
    ensures Single(FbSession(des, e, u, k, rand).tx, dec, t)
  {
    var f := e.tx.fb.Get(u);
    var tx := e.tx.(fb := e.tx.fb.Set(u, f.(needStart := false, stream := StreamKey(f.stream))));
    assert Single(tx, dec, t) by {
      match (t, u)
      case (CFB, CFB) =>
      case (CFB, OFB) =>
      case (OFB, CFB) =>
      case (OFB, OFB) =>
    }
    if f.needStart {
      assert u == t;
      SingleStart(des, e.key.Set(u, k), tx, rand, dec, t);
    }
  }

  lemma SingleObey(des: Des, e: Endpoint, c: Command, rand: Rand, dec: set<Mode>, t: Mode)
    requires Single(e.tx, dec, t) && (c.SetType? ==> Other(t) !in dec)
    ensures Single(Obey(des, e, c, rand).tx, dec, t)
  {
    match c
    case Type(b) => SingleWrite(des, e.key, e.tx, Data(b), dec, t);
    case StartOut => if e.tx.mode.Some? { SingleMode(des, e.key, e.tx, rand, dec, t); }
    case StopOut => SingleEnd(des, e.key, e.tx, dec, t);
    case StartIn => SingleWrite(des, e.key, e.tx, RequestStart(e.rx), dec, t);
    case StopIn => SingleWrite(des, e.key, e.tx, REQUEST_END, dec, t);
    case SetType(m) =>
    case AutoOut(on) => SingleSame(e.tx, e.tx.(auto := on), dec, t);
    case AutoIn(on) =>
    case Support =>
      var first := if !e.tx.server && e.rx.auto then [RequestStart(e.rx)] else [];
      var ms := first + [SupportMsg(e.rx.support)];
      SingleWrites(des, e.key, e.tx, ms, dec, t);
      SingleSame(NetWriteAll(des, e.key, e.tx, ms), NetWriteAll(des, e.key, e.tx, ms).(supportSent := true), dec, t);
  }

  // ---------- actions of two honest endpoints ----------

  /** What the sender does when it reads a byte. */
  lemma SingleRead(des: Des, key: Block, x: Endpoint, y: Endpoint, rand: Rand, t: Mode)
    requires Inv(des, key, x, y, None, None) && Enabled(des, key, x, y, Read(rand)) && Single(x.tx, y.rx.support, t)
    ensures Single(Receive(des, x, y.tx.out[0], rand).tx, y.rx.support, t)
  {
    var w := y.tx.out[0];
    var r := RxByte(des, x.key, x.rx, w);
    ReadByte(des, key, x, y);
    SingleWrites(des, x.key, x.tx, r.2, y.rx.support, t);
    if r.1.Some? {
      var m := r.1.value;
      if m.Sub? && m.cmd == ENCRYPT_REPLY {
        ReplyRead(des, x.key, x.rx, w);
        AnswerIs(des, key, x.(rx := r.0), Popped(y), m, t);
      }
      SingleTxMsg(des, x.key, NetWriteAll(des, x.key, x.tx, r.2), m, rand, y.rx.support, t);
    }
  }

  /** An honest answer is to the one vector under way. */
  lemma AnswerIs(des: Des, key: Block, x: Endpoint, y: Endpoint, m: Msg, t: Mode)
    requires m.Sub? && m.cmd == ENCRYPT_REPLY && Honest(y, x, m) && Single(x.tx, y.rx.support, t)
    requires Inv(des, key, x, y, ReplyHand(Some(m)), IsHand(Some(m)))
    ensures m == ReplyMsg(t, FB64_IV_OK) && Waiting(x.tx, t)
  {
    var u := if m == ReplyMsg(CFB, FB64_IV_OK) then CFB else OFB;
    assert ReplyHand(Some(m)) == Some(u);
    assert Balance(x, y, Some(u), u);
  }

  lemma RxMsgSupport(rx: Rx, m: Msg)
    ensures RxMsg(rx, m).0.support == rx.support
  {}

  lemma RxByteSupport(des: Des, k: Pair<Block>, rx: Rx, w: Bits)
    ensures RxByte(des, k, rx, w).0.support == rx.support
  {
    var (rx1, c) := Decrypt(des, k, rx, w);
    var (p, m) := ParseByte(rx.parser, c);
    if m.Some? { RxMsgSupport(rx1.(parser := p), m.value); }
  }

  lemma SupportConstant(des: Des, x: Endpoint, y: Endpoint, key: Block, a: Action)
    requires Enabled(des, key, x, y, a)
    ensures Act(des, key, x, y, a).0.rx.support == x.rx.support
    ensures Act(des, key, x, y, a).1.rx == y.rx
  {
    if a.Read? { RxByteSupport(des, x.key, x.rx, y.tx.out[0]); }
  }

  /** An action of the sender. */
  lemma SingleActs(des: Des, key: Block, x: Endpoint, y: Endpoint, a: Action, t: Mode)
    requires Inv(des, key, x, y, None, None) && Enabled(des, key, x, y, a) && Single(x.tx, y.rx.support, t)
    requires a.Order? && a.c.SetType? ==> Other(t) !in y.rx.support
    ensures Single(Act(des, key, x, y, a).0.tx, Act(des, key, x, y, a).1.rx.support, t)
  {
    match a
    case Read(rand) => SingleRead(des, key, x, y, rand, t);
    case Install(rand) =>
      SingleSession(des, x, CFB, key, rand, y.rx.support, t);
      SingleSession(des, FbSession(des, x, CFB, key, rand), OFB, key, rand, y.rx.support, t);
    case Order(c, rand) => SingleObey(des, x, c, rand, y.rx.support, t);
  }

  /** An action of its peer. */
  lemma SingleStays(des: Des, key: Block, x: Endpoint, y: Endpoint, a: Action, t: Mode)
    requires Enabled(des, key, y, x, a) && Single(x.tx, y.rx.support, t)
    ensures Single(Act(des, key, y, x, a).1.tx, Act(des, key, y, x, a).0.rx.support, t)
  {
    SupportConstant(des, y, x, key, a);
    match a
    case Read(_) => SingleSame(x.tx, Popped(x).tx, y.rx.support, t);
    case Install(_) =>
    case Order(_, _) =>
  }
}
