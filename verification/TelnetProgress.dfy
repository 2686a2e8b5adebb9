/**
 How one endpoint gets on with the negotiation when its peer is honest and
 nobody stops it: each message it reads makes it write the next one, and the
 last one installs the cipher.
 */
module TelnetProgress {
  import opened Wrappers
  import opened Cipher
  import opened Telnet
  import opened TelnetWire
  import opened TelnetSession
  import opened TelnetMoves
  import opened TelnetSystem
  import opened TelnetSingle

  const ENC := Sub(ENCRYPT_ENC_KEYID, [0])
  const DEC := Sub(ENCRYPT_DEC_KEYID, [0])
  const START := Sub(ENCRYPT_START, [0])

  predicate Is(m: Msg, cmd: Bits) { m.Sub? && m.cmd == cmd }

  // ---------- the settings and the state of the negotiation ----------

  /** What a sender has decided, without registers, bytes and history. */
  datatype View = View(
    server: bool, support: set<Mode>, remote: set<Mode>, mode: Option<Mode>, output: Option<Mode>, auto: bool,
    keyid: seq<Bits>, supportSent: bool, state: Pair<Neg>, need: Pair<bool>)

  function ViewOf(tx: Tx): View {
    View(tx.server, tx.support, tx.remote, tx.mode, tx.output, tx.auto, tx.keyid, tx.supportSent,
         Pair(tx.fb.cfb.state, tx.fb.ofb.state), Pair(tx.fb.cfb.needStart, tx.fb.ofb.needStart))
  }

  lemma ViewWrite(des: Des, k: Pair<Block>, tx: Tx, m: Msg)
    ensures ViewOf(NetWrite(des, k, tx, m)) == ViewOf(tx) && NetWrite(des, k, tx, m).sent == tx.sent + [m]
  {
    match tx.output
    case None =>
    case Some(CFB) =>
    case Some(OFB) =>
  }

  function WithIv(s: Neg): Neg { if s.Failed? then Progress(false, true, true) else Progress(false, true, s.noKeyid) }

  /** A vector is sent. */
  lemma ViewSendIv(des: Des, k: Pair<Block>, tx: Tx, t: Mode, iv: Block)
    ensures var v := ViewOf(tx);
      && ViewOf(SendIv(des, k, tx, t, iv)) == v.(state := v.state.Set(t, WithIv(v.state.Get(t))))
      && SendIv(des, k, tx, t, iv).sent == tx.sent + [IsMsg(t, iv)]
  {
    var f := tx.fb.Get(t);
    var s := WithIv(f.state);
    ViewWrite(des, k, tx.(fb := tx.fb.Set(t, f.(temp := iv, state := s)), log := tx.log + [IvSent(t, iv, k.Get(t))],
                          lastIv := Some(t)), IsMsg(t, iv));
  }

  lemma ViewSwitch(des: Des, k: Pair<Block>, tx: Tx, t: Mode)
    ensures ViewOf(Switch(des, k, tx, t)) == ViewOf(tx).(output := Some(t), mode := Some(t))
    ensures Switch(des, k, tx, t).sent == tx.sent + [Sub(ENCRYPT_START, tx.keyid)]
  {
    ViewWrite(des, k, tx, Sub(ENCRYPT_START, tx.keyid));
  }

  // ---------- the sender ----------

  /** Before the peer's SUPPORT. */
  predicate AtRest(v: View, t: Option<Mode>) {
    && v.mode == None && v.output == None && v.remote == {} && v.keyid == []
    && (t != Some(OFB) ==> v.state.cfb == Failed && !v.need.cfb)
    && (t != Some(CFB) ==> v.state.ofb == Failed && !v.need.ofb)
  }

  /** From then on; `hasKey` if the session key is there, `asked` if the cipher is to be started as soon as possible. */
  predicate Going(v: View, t: Mode, hasKey: bool, asked: bool) {
    var s := v.state.Get(t);
    && v.mode == Some(t) && t in v.support && t in v.remote && s.Progress? && (asked ==> v.auto)
    && (s.noSendIv ==> s.noRecvIv && v.need.Get(t) && !hasKey)
    && (if s.noRecvIv then s.noKeyid && v.keyid == [] else v.keyid == [0])
    && (v.output == None || (v.output == Some(t) && !s.noKeyid))
    && (!s.noKeyid && asked ==> v.output == Some(t))
  }

  /** The vector was accepted. */
  predicate Accepted(v: View, t: Mode) { v.state.Get(t).Progress? && !v.state.Get(t).noRecvIv }

  /** All of `t` is agreed. */
  predicate Agreed(v: View, t: Mode) { v.state.Get(t) == SUCCESS }

  /** `encrypt_start_output` starts the cipher if all is agreed, and otherwise does nothing. */
  lemma StartGoing(des: Des, k: Pair<Block>, tx: Tx, t: Mode, rand: Rand, hasKey: bool, asked: bool)
    requires Going(ViewOf(tx), t, hasKey, asked) && (hasKey <==> ValidKey(k.Get(t)))
    ensures var tx1 := StartOutput(des, k, tx, t, rand);
      && Going(ViewOf(tx1), t, hasKey, asked) && ViewOf(tx1).state == ViewOf(tx).state
      && if Agreed(ViewOf(tx), t) then tx1.sent == tx.sent + [START] && tx1.output == Some(t)
         else tx1.sent == tx.sent && ViewOf(tx1) == ViewOf(tx)
  {
    var (tx1, ret) := FbStart(des, k, tx, t, rand);
    StartUnsent(des, k, tx, t, rand, hasKey, asked);
    if ret == SUCCESS { ViewSwitch(des, k, tx1, t); }
  }

  lemma StartUnsent(des: Des, k: Pair<Block>, tx: Tx, t: Mode, rand: Rand, hasKey: bool, asked: bool)
    requires Going(ViewOf(tx), t, hasKey, asked) && (hasKey <==> ValidKey(k.Get(t)))
    ensures var (tx1, ret) := FbStart(des, k, tx, t, rand);
      ViewOf(tx1) == ViewOf(tx) && tx1.sent == tx.sent && ret == tx.fb.Get(t).state
  {
    match t
    case CFB =>
    case OFB =>
  }

  /** The first SUPPORT: the vector is sent, or will be when the key is there. */
  lemma BeginIdle(des: Des, k: Pair<Block>, tx: Tx, t: Mode, rand: Rand, asked: bool)
    requires ViewOf(tx).state.Get(t) == Failed && t in tx.support && t in tx.remote && tx.output == None && tx.keyid == []
    requires (asked ==> tx.auto) && rand(t).Some?
    ensures var hasKey := ValidKey(k.Get(t));
      var (tx1, ret) := FbStart(des, k, tx, t, rand);
      && !ret.Failed? && ret != SUCCESS && Going(ViewOf(tx1.(mode := Some(t))), t, hasKey, asked)
      && !Accepted(ViewOf(tx1), t) && (!hasKey ==> ViewOf(tx1).state.Get(t).noSendIv)
      && tx1.sent == if hasKey then tx.sent + [IsMsg(t, rand(t).value)] else tx.sent
  {
    if ValidKey(k.Get(t)) {
      ViewSendIv(des, k, tx, t, rand(t).value);
    }
  }

  lemma SupportIs(des: Des, k: Pair<Block>, tx: Tx, dec: set<Mode>, t: Mode, rand: Rand) returns (tx0: Tx)
    requires First(tx.support, dec) == Some(t)
    ensures tx0 == tx.(remote := tx0.remote) && t in tx0.remote
    ensures var (tx1, ret) := FbStart(des, k, tx0, t, rand);
      OnSupport(des, k, tx, SupportMsg(dec).arg, rand)
        == if ret.Failed? then tx1
           else if ret == SUCCESS then StartOutput(des, k, tx1.(mode := Some(t)), t, rand)
           else tx1.(mode := Some(t))
  {
    var us := Usable(tx, SupportMsg(dec).arg);
    UsableFirst(tx, dec);
    FirstIsUsed(us, t);
    tx0 := tx.(remote := set u | u in us);
  }

  /** The peer's SUPPORT, at first. */
  lemma SupportBegins(des: Des, k: Pair<Block>, tx: Tx, dec: set<Mode>, t: Mode, rand: Rand, asked: bool)
    requires First(tx.support, dec) == Some(t) && rand(t).Some? && AtRest(ViewOf(tx), Some(t)) && (asked ==> tx.auto)
    ensures var tx1 := OnSupport(des, k, tx, SupportMsg(dec).arg, rand);
      && Going(ViewOf(tx1), t, ValidKey(k.Get(t)), asked) && !Accepted(ViewOf(tx1), t)
      && (!ValidKey(k.Get(t)) ==> ViewOf(tx1).state.Get(t).noSendIv)
      && tx1.sent == if ValidKey(k.Get(t)) then tx.sent + [IsMsg(t, rand(t).value)] else tx.sent
  {
    var tx0 := SupportIs(des, k, tx, dec, t, rand);
    BeginIdle(des, k, tx0, t, rand, asked);
  }

  /** And again. */
  lemma SupportGoing(des: Des, k: Pair<Block>, tx: Tx, dec: set<Mode>, t: Mode, rand: Rand, asked: bool)
    requires First(tx.support, dec) == Some(t) && Going(ViewOf(tx), t, ValidKey(k.Get(t)), asked)
    ensures var tx1 := OnSupport(des, k, tx, SupportMsg(dec).arg, rand);
      && Going(ViewOf(tx1), t, ValidKey(k.Get(t)), asked) && ViewOf(tx1).state == ViewOf(tx).state
      && tx1.sent == if Agreed(ViewOf(tx), t) then tx.sent + [START] else tx.sent
  {
    var tx0 := SupportIs(des, k, tx, dec, t, rand);
    var tx1 := FbStart(des, k, tx0, t, rand).0;
    OfferedAgain(ViewOf(tx), tx0.remote, t, ValidKey(k.Get(t)), asked);
    StartUnsent(des, k, tx0, t, rand, ValidKey(k.Get(t)), asked);
    SameMode(tx1, t, ValidKey(k.Get(t)), asked);
    Resumes(des, k, tx1, t, rand, ValidKey(k.Get(t)), asked);
  }

  lemma SameMode(tx: Tx, t: Mode, hasKey: bool, asked: bool)
    requires Going(ViewOf(tx), t, hasKey, asked)
    ensures tx.(mode := Some(t)) == tx
  {}

  lemma Resumes(des: Des, k: Pair<Block>, tx: Tx, t: Mode, rand: Rand, hasKey: bool, asked: bool)
    requires Going(ViewOf(tx), t, hasKey, asked) && (hasKey <==> ValidKey(k.Get(t)))
    ensures var tx1 := if tx.fb.Get(t).state == SUCCESS then StartOutput(des, k, tx, t, rand) else tx;
      && Going(ViewOf(tx1), t, hasKey, asked) && ViewOf(tx1).state == ViewOf(tx).state
      && tx1.sent == if Agreed(ViewOf(tx), t) then tx.sent + [START] else tx.sent
  {
    StartGoing(des, k, tx, t, rand, hasKey, asked);
  }

  lemma OfferedAgain(v: View, remote: set<Mode>, t: Mode, hasKey: bool, asked: bool)
    requires Going(v, t, hasKey, asked) && t in remote
    ensures Going(v.(remote := remote), t, hasKey, asked)
  {}

  lemma FirstIsUsed(us: seq<Mode>, t: Mode)
    requires us != [] && us[0] == t
    ensures t in set u | u in us
  {}

  /** With no type in common nothing happens. */
  lemma SupportIdle(des: Des, k: Pair<Block>, tx: Tx, dec: set<Mode>, rand: Rand)
    requires First(tx.support, dec) == None
    ensures OnSupport(des, k, tx, SupportMsg(dec).arg, rand) == tx.(remote := {})
  {
    UsableFirst(tx, dec);
  }

  /** The answer to the vector: the key id is sent. */
  lemma ReplyGoing(des: Des, k: Pair<Block>, tx: Tx, t: Mode, rand: Rand, hasKey: bool, asked: bool)
    requires Going(ViewOf(tx), t, hasKey, asked) && Waiting(tx, t)
    ensures var tx1 := OnReply(des, k, tx, ReplyMsg(t, FB64_IV_OK).arg, rand);
      && Going(ViewOf(tx1), t, hasKey, asked) && Accepted(ViewOf(tx1), t) && tx1.sent == tx.sent + [ENC]
      && tx1.output == tx.output
  {
    var tx1 := SendEncKeyid(des, k, AcceptIvOk(tx, t), [0]);
    AcceptView(tx, t);
    KeyidSent(des, k, AcceptIvOk(tx, t));
    ReplyNotDone(des, k, tx, t, rand);
    assert ViewOf(tx1.(mode := Some(t))) == ViewOf(tx1);
  }

  lemma KeyidSent(des: Des, k: Pair<Block>, tx: Tx)
    ensures var tx1 := SendEncKeyid(des, k, tx, [0]);
      ViewOf(tx1) == ViewOf(tx).(keyid := [0]) && tx1.sent == tx.sent + [ENC]
  {
    ViewWrite(des, k, tx.(keyid := [0]), ENC);
  }

  /** As the key id is still to be confirmed, nothing is started yet. */
  lemma ReplyNotDone(des: Des, k: Pair<Block>, tx: Tx, t: Mode, rand: Rand)
    requires CanEncrypt(tx, t) && Waiting(tx, t) && tx.fb.Get(t).state.noKeyid
    ensures OnReply(des, k, tx, ReplyMsg(t, FB64_IV_OK).arg, rand)
      == SendEncKeyid(des, k, AcceptIvOk(tx, t), [0]).(mode := Some(t))
  {
    var arg := ReplyMsg(t, FB64_IV_OK).arg;
    assert arg[1..] == [FB64_IV_OK] && TypeOf(arg[0]) == Some(t);
    AcceptView(tx, t);
    KeyidSent(des, k, AcceptIvOk(tx, t));
  }

  lemma AcceptView(tx: Tx, t: Mode)
    requires Waiting(tx, t)
    ensures var v, tx0 := ViewOf(tx), AcceptIvOk(tx, t);
      && ViewOf(tx0) == v.(state := v.state.Set(t, v.state.Get(t).(noRecvIv := false))) && tx0.sent == tx.sent
  {}

  lemma DecKeyidIs(des: Des, k: Pair<Block>, tx: Tx, t: Mode, rand: Rand)
    requires tx.mode == Some(t) && CanEncrypt(tx, t) && tx.keyid == [0]
    ensures var tx0 := FbKeyid(tx, t);
      OnDecKeyid(des, k, tx, [0], rand)
        == if tx0.fb.Get(t).state == SUCCESS && tx0.auto then StartOutput(des, k, tx0, t, rand) else tx0
  {}

  /** The key id confirmed: if the cipher is to be started, START is the next message and the cipher is in use. */
  lemma ConfirmedStarts(des: Des, k: Pair<Block>, tx: Tx, t: Mode, rand: Rand, hasKey: bool, asked: bool)
    requires Going(ViewOf(tx), t, hasKey, asked) && Accepted(ViewOf(tx), t) && (hasKey <==> ValidKey(k.Get(t)))
    ensures var tx1 := OnDecKeyid(des, k, tx, [0], rand);
      && Going(ViewOf(tx1), t, hasKey, asked) && Agreed(ViewOf(tx1), t)
      && if tx.auto then tx1.output == Some(t) && tx1.sent == tx.sent + [START]
         else tx1.output == tx.output && tx1.sent == tx.sent
  {
    DecKeyidIs(des, k, tx, t, rand);
    KeyidView(tx, t);
    GoingConfirmed(ViewOf(tx), t, hasKey, asked);
    StartConfirmed(des, k, FbKeyid(tx, t), t, rand, hasKey, asked);
  }

  lemma GoingConfirmed(v: View, t: Mode, hasKey: bool, asked: bool)
    requires Going(v, t, hasKey, asked) && Accepted(v, t)
    ensures var w := v.(state := v.state.Set(t, v.state.Get(t).(noKeyid := false)));
      Going(w, t, hasKey, false) && Agreed(w, t) && (asked ==> w.auto)
  {}

  lemma StartConfirmed(des: Des, k: Pair<Block>, tx: Tx, t: Mode, rand: Rand, hasKey: bool, asked: bool)
    requires Going(ViewOf(tx), t, hasKey, false) && Agreed(ViewOf(tx), t) && (asked ==> tx.auto)
    requires hasKey <==> ValidKey(k.Get(t))
    ensures var tx1 := if tx.auto then StartOutput(des, k, tx, t, rand) else tx;
      && Going(ViewOf(tx1), t, hasKey, asked) && Agreed(ViewOf(tx1), t)
      && if tx.auto then tx1.output == Some(t) && tx1.sent == tx.sent + [START] else tx1 == tx
  {
    StartGoing(des, k, tx, t, rand, hasKey, false);
    StartKeepsAuto(des, k, tx, t, rand);
  }

  lemma StartKeepsAuto(des: Des, k: Pair<Block>, tx: Tx, t: Mode, rand: Rand)
    ensures StartOutput(des, k, tx, t, rand).auto == tx.auto
  {
    if rand(t).Some? { ViewSendIv(des, k, tx, t, rand(t).value); }
    ViewSwitch(des, k, FbStart(des, k, tx, t, rand).0, t);
  }

  lemma KeyidView(tx: Tx, t: Mode)
    requires tx.keyid == [0] && tx.fb.Get(t).state.Progress?
    ensures var v, tx0 := ViewOf(tx), FbKeyid(tx, t);
      && ViewOf(tx0) == v.(state := v.state.Set(t, v.state.Get(t).(noKeyid := false))) && tx0.sent == tx.sent
  {}

  /** A request to start: obeyed if all is agreed, and remembered by a server that has no type yet. */
  lemma RequestGoing(des: Des, k: Pair<Block>, tx: Tx, t: Mode, rand: Rand, hasKey: bool, asked: bool)
    requires Going(ViewOf(tx), t, hasKey, asked) && (hasKey <==> ValidKey(k.Get(t)))
    ensures var tx1 := OnRequestStart(des, k, tx, rand);
      && Going(ViewOf(tx1), t, hasKey, asked) && ViewOf(tx1).state == ViewOf(tx).state
      && if Agreed(ViewOf(tx), t) then tx1.output == Some(t) && tx1.sent == tx.sent + [START] else tx1.sent == tx.sent
  {
    StartGoing(des, k, tx, t, rand, hasKey, asked);
  }

  lemma RequestIdle(des: Des, k: Pair<Block>, tx: Tx, t: Option<Mode>, rand: Rand)
    requires AtRest(ViewOf(tx), t)
    ensures var tx1 := OnRequestStart(des, k, tx, rand);
      tx1.sent == tx.sent && ViewOf(tx1) == ViewOf(tx).(auto := tx.auto || tx.server)
  {}

  // ---------- the session key ----------

  /** The key for the type in use: the vector goes out if it was held back. */
  lemma KeyGoing(des: Des, e: Endpoint, t: Mode, key: Block, rand: Rand, asked: bool)
    requires Going(ViewOf(e.tx), t, false, asked) && ValidKey(key) && rand(t).Some?
    ensures var tx1 := FbSession(des, e, t, key, rand).tx;
      && Going(ViewOf(tx1), t, true, asked) && (Accepted(ViewOf(tx1), t) <==> Accepted(ViewOf(e.tx), t))
      && (Agreed(ViewOf(tx1), t) <==> Agreed(ViewOf(e.tx), t))
      && tx1.sent == if Unsent(e.tx, t) then e.tx.sent + [IsMsg(t, rand(t).value)] else e.tx.sent
  {
    var f := e.tx.fb.Get(t);
    var tx := e.tx.(fb := e.tx.fb.Set(t, f.(needStart := false, stream := StreamKey(f.stream))));
    NeedView(e.tx, tx, t);
    KeyStored(e.key, t, key);
    HeldBack(des, e.key.Set(t, key), tx, t, rand, f.needStart);
    if f.state.noSendIv {
      ViewSendIv(des, e.key.Set(t, key), tx, t, rand(t).value);
      GoingSent(ViewOf(e.tx), t, asked);
    } else {
      GoingKeyed(ViewOf(e.tx), t, asked);
    }
  }

  lemma HeldBack(des: Des, k: Pair<Block>, tx: Tx, t: Mode, rand: Rand, need: bool)
    requires ValidKey(k.Get(t)) && tx.fb.Get(t).state.Progress? && rand(t).Some? && (tx.fb.Get(t).state.noSendIv ==> need)
    ensures (if need then FbStart(des, k, tx, t, rand).0 else tx)
      == if tx.fb.Get(t).state.noSendIv then SendIv(des, k, tx, t, rand(t).value) else tx
  {}

  lemma NeedView(a: Tx, b: Tx, t: Mode)
    requires b == a.(fb := a.fb.Set(t, a.fb.Get(t).(needStart := false, stream := StreamKey(a.fb.Get(t).stream))))
    ensures ViewOf(b) == ViewOf(a).(need := ViewOf(a).need.Set(t, false)) && b.sent == a.sent
  {}

  /** The vector held back goes out. */
  lemma GoingSent(v: View, t: Mode, asked: bool)
    requires Going(v, t, false, asked) && v.state.Get(t).noSendIv
    ensures var w := v.(need := v.need.Set(t, false), state := v.state.Set(t, WithIv(v.state.Get(t))));
      Going(w, t, true, asked) && !Accepted(v, t) && !Accepted(w, t) && !Agreed(v, t) && !Agreed(w, t)
  {}

  /** Or none was. */
  lemma GoingKeyed(v: View, t: Mode, asked: bool)
    requires Going(v, t, false, asked) && !v.state.Get(t).noSendIv
    ensures Going(v.(need := v.need.Set(t, false)), t, true, asked)
  {}

  /** A type that nothing is to be sent for. */
  lemma KeyIdle(des: Des, e: Endpoint, t: Mode, key: Block, rand: Rand)
    requires !e.tx.fb.Get(t).needStart
    ensures var tx1 := FbSession(des, e, t, key, rand).tx; ViewOf(tx1) == ViewOf(e.tx) && tx1.sent == e.tx.sent
  {
    match t
    case CFB =>
    case OFB =>
  }

  // ---------- the receiver ----------

  predicate Decrypts(rx: Rx) { rx.mode.Some? && CanDecrypt(rx, rx.mode.value) }

  /** A vector is accepted. */
  lemma TakesVector(rx: Rx, u: Mode, iv: Block)
    requires u in rx.support
    ensures var r := RxMsg(rx, IsMsg(u, iv));
      && r.1 == [ReplyMsg(u, FB64_IV_OK)] && Decrypts(r.0)
      && r.0.keyid == rx.keyid && r.0.support == rx.support && r.0.auto == rx.auto
  {
    var m := IsMsg(u, iv);
    assert m.arg[1..] == [FB64_IV] + iv && m.arg[1..][1..] == iv;
  }

  /** The key id is confirmed, once. */
  lemma TakesKeyid(rx: Rx)
    requires Decrypts(rx)
    ensures var r := RxMsg(rx, ENC);
      && r.1 == (if rx.keyid == [0] then [] else [DEC]) && r.0.keyid == [0]
      && r.0.support == rx.support && r.0.auto == rx.auto && Decrypts(r.0)
  {}

  /** START is obeyed. */
  lemma TakesStart(rx: Rx, m: Msg)
    requires Decrypts(rx) && Is(m, ENCRYPT_START)
    ensures var r := RxMsg(rx, m);
      && r.1 == [] && r.0.input == rx.mode && Decrypts(r.0)
      && r.0.keyid == rx.keyid && r.0.support == rx.support && r.0.auto == rx.auto
  {}

  /** And other messages leave it alone. */
  lemma TakesOther(rx: Rx, m: Msg)
    requires m.Sub? ==> m.cmd != ENCRYPT_IS && m.cmd != ENCRYPT_START && m.cmd != ENCRYPT_ENC_KEYID
    ensures var r := RxMsg(rx, m);
      && r.1 == [] && r.0.mode == rx.mode && r.0.remote == rx.remote
      && r.0.keyid == rx.keyid && r.0.support == rx.support && r.0.auto == rx.auto
  {}
}
