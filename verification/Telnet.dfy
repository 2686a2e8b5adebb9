/**
 One telnet endpoint with the ENCRYPT option: `libtelnet/encrypt.c` and the
 `fb64_*` half of `libtelnet/enc_des.c`, on values.

 An endpoint is two independent halves: `Tx` is everything that encrypts and
 writes the outgoing byte stream, `Rx` everything that reads, decrypts and
 parses the incoming one.  The fields `sent`, `seen`, `log`, `ived`, `lastIv`
 and `crossed` are history: they record what happened and decide nothing.
 */
module Telnet {
  import opened Wrappers
  import opened Cipher

  datatype Pair<T> = Pair(cfb: T, ofb: T) {
    function Get(m: Mode): T { if m.CFB? then cfb else ofb }
    function Set(m: Mode, v: T): Pair<T> { if m.CFB? then Pair(v, ofb) else Pair(cfb, v) }
  }

  // ---------- bytes on the wire ----------

  const IAC: Bits := 255
  const SB: Bits := 250
  const SE: Bits := 240
  const TELOPT_ENCRYPT: Bits := 38

  const ENCRYPT_IS: Bits := 0
  const ENCRYPT_SUPPORT: Bits := 1
  const ENCRYPT_REPLY: Bits := 2
  const ENCRYPT_START: Bits := 3
  const ENCRYPT_END: Bits := 4
  const ENCRYPT_REQSTART: Bits := 5
  const ENCRYPT_REQEND: Bits := 6
  const ENCRYPT_ENC_KEYID: Bits := 7
  const ENCRYPT_DEC_KEYID: Bits := 8

  const FB64_IV: Bits := 1
  const FB64_IV_OK: Bits := 2
  const FB64_IV_BAD: Bits := 3

  /** One thing the stream carries: a data byte, or an ENCRYPT suboption. */
  datatype Msg = Data(b: Bits) | Sub(cmd: Bits, arg: seq<Bits>)

  function TypeByte(m: Mode): Bits { if m.CFB? then 1 else 2 }

  function TypeOf(b: Bits): Option<Mode> {
    if b == 1 then Some(CFB) else if b == 2 then Some(OFB) else None
  }

  function IsMsg(m: Mode, iv: Block): Msg { Sub(ENCRYPT_IS, [TypeByte(m), FB64_IV] + iv) }

  function ReplyMsg(m: Mode, code: Bits): Msg { Sub(ENCRYPT_REPLY, [TypeByte(m), code]) }

  function SupportMsg(types: set<Mode>): Msg {
    Sub(ENCRYPT_SUPPORT, (if CFB in types then [TypeByte(CFB)] else []) + (if OFB in types then [TypeByte(OFB)] else []))
  }

  /** Every IAC inside data or a suboption goes out doubled. */
  function Double(s: seq<Bits>): seq<Bits> {
    if s == [] then [] else (if s[0] == IAC then [IAC, IAC] else [s[0]]) + Double(s[1..])
  }

  function Encode(m: Msg): seq<Bits> {
    match m
    case Data(b) => Double([b])
    case Sub(cmd, arg) => [IAC, SB] + Double([TELOPT_ENCRYPT, cmd] + arg) + [IAC, SE]
  }

  /** The states TS_DATA, TS_IAC, TS_SB and TS_SE of `telrcv`, with the suboption buffer. */
  datatype Parser = Idle | Iac | Sb(buf: seq<Bits>) | Se(buf: seq<Bits>)

  function AfterIac(c: Bits): Parser { if c == SB then Sb([]) else Idle }

  /** `suboption`: only complete ENCRYPT suboptions mean anything here. */
  function SubOption(buf: seq<Bits>): Option<Msg> {
    if |buf| >= 2 && buf[0] == TELOPT_ENCRYPT then Some(Sub(buf[1], buf[2..])) else None
  }

  function ParseByte(p: Parser, c: Bits): (Parser, Option<Msg>) {
    match p
    case Idle => if c == IAC then (Iac, None) else (Idle, Some(Data(c)))
    case Iac => if c == IAC then (Idle, Some(Data(IAC))) else (AfterIac(c), None)
    case Sb(buf) => if c == IAC then (Se(buf), None) else (Sb(buf + [c]), None)
    case Se(buf) =>
      if c == SE then (Idle, SubOption(buf))
      else if c == IAC then (Sb(buf + [IAC]), None)
      else (AfterIac(c), SubOption(buf))
  }

  // ---------- negotiation state ----------

  /** The state word: FAILED, or the three bits NO_SEND_IV, NO_RECV_IV, NO_KEYID. */
  datatype Neg = Failed | Progress(noSendIv: bool, noRecvIv: bool, noKeyid: bool)

  const IN_PROGRESS := Progress(true, true, true)
  const SUCCESS := Progress(false, false, false)

  function Begun(s: Neg): (r: Neg)
    ensures r.Progress?
  {
    if s.Failed? then IN_PROGRESS else s
  }

  predicate ValidKey(key: Block) { key != ZERO }

  /** What happened to the outgoing cipher of one type. */
  datatype Event =
    | IvSent(m: Mode, iv: Block, key: Block)
    | IvOk(m: Mode)
    | KeyidZero(m: Mode)
    | Failure(m: Mode)
    | Started(m: Mode, iv: Block)

  datatype TxFb = TxFb(temp: Block, needStart: bool, state: Neg, stream: Stream)

  datatype Tx = Tx(
    server: bool,
    support: set<Mode>,          // I_SUPPORT_ENCRYPT
    remote: set<Mode>,           // remote_supports_decrypt
    mode: Option<Mode>,          // encrypt_mode
    output: Option<Mode>,        // encrypt_output
    auto: bool,                  // autoencrypt
    keyid: seq<Bits>,            // ki[0]
    supportSent: bool,           // str_suplen == 0
    fb: Pair<TxFb>,
    out: seq<Bits>,              // bytes written and not yet read by the peer
    sent: seq<Msg>,
    log: seq<Event>,
    lastIv: Option<Mode>,
    crossed: bool)

  datatype RxFb = RxFb(state: Neg, stream: Stream)

  datatype Rx = Rx(
    support: set<Mode>,          // I_SUPPORT_DECRYPT
    remote: set<Mode>,           // remote_supports_encrypt
    mode: Option<Mode>,          // decrypt_mode
    input: Option<Mode>,         // decrypt_input
    auto: bool,                  // autodecrypt
    keyid: seq<Bits>,            // ki[1]
    fb: Pair<RxFb>,
    parser: Parser,
    seen: seq<Msg>,
    ived: set<Mode>)

  datatype Endpoint = Endpoint(key: Pair<Block>, tx: Tx, rx: Rx)

  /** The random source may fail (`shishi_randomize`); one answer per type and step. */
  type Rand = Mode -> Option<Block>

  function InitTx(server: bool, support: set<Mode>): Tx {
    var f := TxFb(ZERO, false, Failed, CLEARED);
    Tx(server, support, {}, None, None, false, [], false, Pair(f, f), [], [], [], None, false)
  }

  function InitRx(support: set<Mode>): Rx {
    var f := RxFb(Failed, CLEARED);
    Rx(support, {}, None, None, false, [], Pair(f, f), Idle, [], {})
  }

  /** `encrypt_init` with every type but the disabled ones. */
  function Init(server: bool, enc: set<Mode>, dec: set<Mode>): Endpoint {
    Endpoint(Pair(ZERO, ZERO), InitTx(server, enc), InitRx(dec))
  }

  // ---------- the outgoing half ----------

  /** Bytes leave through `encrypt_output`, if one is installed. */
  function NetWrite(des: Des, key: Pair<Block>, tx: Tx, m: Msg): Tx {
    match tx.output
    case None => tx.(out := tx.out + Encode(m), sent := tx.sent + [m])
    case Some(t) =>
      var f := tx.fb.Get(t);
      var (s, wire) := Enc(des, t, key.Get(t), f.stream, Encode(m));
      tx.(out := tx.out + wire, sent := tx.sent + [m], fb := tx.fb.Set(t, f.(stream := s)))
  }

  function NetWriteAll(des: Des, key: Pair<Block>, tx: Tx, ms: seq<Msg>): Tx
    decreases |ms|
  {
    if ms == [] then tx else NetWriteAll(des, key, NetWrite(des, key, tx, ms[0]), ms[1..])
  }

  lemma WriteOne(des: Des, key: Pair<Block>, tx: Tx, a: Msg)
    ensures NetWriteAll(des, key, tx, [a]) == NetWrite(des, key, tx, a)
    ensures [] + [a] == [a]
  {
    assert [a][1..] == [];
  }

  lemma WriteTwo(des: Des, key: Pair<Block>, tx: Tx, a: Msg, b: Msg)
    ensures NetWriteAll(des, key, tx, [a] + [b]) == NetWrite(des, key, NetWrite(des, key, tx, a), b)
  {
    assert ([a] + [b])[1..] == [b];
    WriteOne(des, key, NetWrite(des, key, tx, a), b);
  }

  /** The part of `fb64_start` that makes a vector and sends it. */
  function SendIv(des: Des, key: Pair<Block>, tx: Tx, t: Mode, iv: Block): Tx {
    var f := tx.fb.Get(t);
    var s := Begun(f.state).(noSendIv := false, noRecvIv := true);
    var tx1 := tx.(fb := tx.fb.Set(t, f.(temp := iv, state := s)),
                   log := tx.log + [IvSent(t, iv, key.Get(t))],
                   lastIv := Some(t));
    NetWrite(des, key, tx1, IsMsg(t, iv))
  }

  /** `fb64_start` for DIR_ENCRYPT: the new half and the value returned. */
  function FbStart(des: Des, key: Pair<Block>, tx: Tx, t: Mode, rand: Rand): (Tx, Neg) {
    var f := tx.fb.Get(t);
    if f.state.Progress? && !f.state.noSendIv then (tx, f.state)
    else if !ValidKey(key.Get(t)) then
      (tx.(fb := tx.fb.Set(t, f.(needStart := true, state := Begun(f.state)))), Begun(f.state))
    else
      match rand(t)
      case None => (tx, Failed)
      case Some(iv) =>
        var tx1 := SendIv(des, key, tx, t, iv);
        (tx1, tx1.fb.Get(t).state)
  }

  predicate CanEncrypt(tx: Tx, t: Mode) { t in tx.support && t in tx.remote }

  /** The START record and the switch of `encrypt_output` in `encrypt_start_output`. */
  function Switch(des: Des, key: Pair<Block>, tx: Tx, t: Mode): Tx {
    NetWrite(des, key, tx, Sub(ENCRYPT_START, tx.keyid))
      .(output := Some(t), mode := Some(t), log := tx.log + [Started(t, tx.fb.Get(t).stream.iv)],
        crossed := tx.crossed || tx.lastIv != Some(t))
  }

  /** `encrypt_start_output`. */
  function StartOutput(des: Des, key: Pair<Block>, tx: Tx, t: Mode, rand: Rand): Tx {
    if !CanEncrypt(tx, t) then tx
    else
      var (tx1, ret) := FbStart(des, key, tx, t, rand);
      if ret != SUCCESS then tx1 else Switch(des, key, tx1, t)
  }

  /** `encrypt_send_end`. */
  function SendEnd(des: Des, key: Pair<Block>, tx: Tx): Tx {
    if tx.output.None? then tx
    else NetWrite(des, key, tx, Sub(ENCRYPT_END, [])).(output := None)
  }

  /** The types of a SUPPORT list that both sides can use, in order. */
  function Usable(tx: Tx, types: seq<Bits>): seq<Mode> {
    if types == [] then []
    else
      var rest := Usable(tx, types[1..]);
      match TypeOf(types[0])
      case Some(t) => if t in tx.support then [t] + rest else rest
      case None => rest
  }

  /** `encrypt_support`. */
  function OnSupport(des: Des, key: Pair<Block>, tx: Tx, types: seq<Bits>, rand: Rand): Tx {
    var us := Usable(tx, types);
    var tx0 := tx.(remote := set t | t in us);
    if us == [] then tx0
    else
      var (tx1, ret) := FbStart(des, key, tx0, us[0], rand);
      if ret.Failed? then tx1
      else
        var tx2 := tx1.(mode := Some(us[0]));
        if ret == SUCCESS then StartOutput(des, key, tx2, us[0], rand) else tx2
  }

  /** The FB64_IV_OK case of `fb64_reply`, up to the key id it sends. */
  function AcceptIvOk(tx: Tx, t: Mode): Tx {
    var f := tx.fb.Get(t);
    var s := Begun(f.state).(noRecvIv := false);
    tx.(fb := tx.fb.Set(t, f.(stream := StreamIv(f.temp, f.stream), state := s)), log := tx.log + [IvOk(t)])
  }

  /** `encrypt_send_keyid (DIR_ENCRYPT, ...)`. */
  function SendEncKeyid(des: Des, key: Pair<Block>, tx: Tx, keyid: seq<Bits>): Tx {
    NetWrite(des, key, tx.(keyid := keyid), Sub(ENCRYPT_ENC_KEYID, keyid))
  }

  /** `fb64_reply`. */
  function FbReply(des: Des, key: Pair<Block>, tx: Tx, t: Mode, arg: seq<Bits>): Tx {
    var f := tx.fb.Get(t);
    var failed := tx.log + [Failure(t)];
    if |arg| >= 1 && arg[0] == FB64_IV_OK then SendEncKeyid(des, key, AcceptIvOk(tx, t), [0])
    else if |arg| >= 1 && arg[0] == FB64_IV_BAD then
      tx.(fb := tx.fb.Set(t, TxFb(ZERO, f.needStart, Failed, StreamIv(ZERO, f.stream))), log := failed)
    else tx.(fb := tx.fb.Set(t, f.(state := Failed)), log := failed)
  }

  /** `encrypt_reply`. */
  function OnReply(des: Des, key: Pair<Block>, tx: Tx, arg: seq<Bits>, rand: Rand): Tx {
    if arg == [] then tx
    else
      match TypeOf(arg[0])
      case None => tx
      case Some(t) =>
        if !CanEncrypt(tx, t) then tx
        else
          var tx1 := FbReply(des, key, tx, t, arg[1..]);
          var ret := tx1.fb.Get(t).state;
          if ret.Failed? then tx1.(auto := false)
          else
            var tx2 := tx1.(mode := Some(t));
            if ret == SUCCESS && tx2.auto then StartOutput(des, key, tx2, t, rand) else tx2
  }

  /** `fb64_keyid` for DIR_ENCRYPT; a rejected key id empties ki[0]. */
  function FbKeyid(tx: Tx, t: Mode): Tx {
    if tx.keyid != [0] then tx.(keyid := [])
    else
      var f := tx.fb.Get(t);
      tx.(fb := tx.fb.Set(t, f.(state := Begun(f.state).(noKeyid := false))), log := tx.log + [KeyidZero(t)])
  }

  /** `encrypt_dec_keyid`: `encrypt_keyid` on ki[0]. */
  function OnDecKeyid(des: Des, key: Pair<Block>, tx: Tx, keyid: seq<Bits>, rand: Rand): Tx {
    if tx.mode.None? || !CanEncrypt(tx, tx.mode.value) then
      if keyid == [] then tx else SendEncKeyid(des, key, tx, [])
    else if keyid == [] then
      if tx.keyid == [] then tx else SendEncKeyid(des, key, tx, [])
    else if keyid != tx.keyid then
      var tx1 := FbKeyid(tx.(keyid := keyid), tx.mode.value);
      SendEncKeyid(des, key, tx1, tx1.keyid)
    else
      var tx1 := FbKeyid(tx, tx.mode.value);
      if tx1.fb.Get(tx.mode.value).state == SUCCESS && tx1.auto
      then StartOutput(des, key, tx1, tx.mode.value, rand) else tx1
  }

  /** `encrypt_request_start`. */
  function OnRequestStart(des: Des, key: Pair<Block>, tx: Tx, rand: Rand): Tx {
    match tx.mode
    case None => tx.(auto := tx.auto || tx.server)
    case Some(t) => StartOutput(des, key, tx, t, rand)
  }

  /** The suboptions that steer the outgoing half. */
  function TxMsg(des: Des, key: Pair<Block>, tx: Tx, m: Msg, rand: Rand): Tx {
    match m
    case Data(_) => tx
    case Sub(cmd, arg) =>
      if cmd == ENCRYPT_SUPPORT then OnSupport(des, key, tx, arg, rand)
      else if cmd == ENCRYPT_REPLY then OnReply(des, key, tx, arg, rand)
      else if cmd == ENCRYPT_REQSTART then OnRequestStart(des, key, tx, rand)
      else if cmd == ENCRYPT_REQEND then SendEnd(des, key, tx)
      else if cmd == ENCRYPT_DEC_KEYID then OnDecKeyid(des, key, tx, arg, rand)
      else tx
  }

  // ---------- the incoming half ----------

  predicate CanDecrypt(rx: Rx, t: Mode) { t in rx.support && t in rx.remote }

  function RequestStart(rx: Rx): Msg { Sub(ENCRYPT_REQSTART, rx.keyid) }

  const REQUEST_END := Sub(ENCRYPT_REQEND, [])

  /** `fb64_is`: the new half and the reply it sends. */
  function FbIs(rx: Rx, t: Mode, arg: seq<Bits>): (Rx, Msg) {
    var f := rx.fb.Get(t);
    if |arg| == 9 && arg[0] == FB64_IV then
      (rx.(fb := rx.fb.Set(t, RxFb(IN_PROGRESS, StreamIv(arg[1..], f.stream))), ived := rx.ived + {t}),
       ReplyMsg(t, FB64_IV_OK))
    else if |arg| >= 1 && arg[0] == FB64_IV then
      (rx.(fb := rx.fb.Set(t, f.(state := Failed))), ReplyMsg(t, FB64_IV_BAD))
    else (rx, ReplyMsg(t, FB64_IV_BAD))
  }

  /** `encrypt_is`. */
  function OnIs(rx: Rx, arg: seq<Bits>): (Rx, seq<Msg>) {
    if arg == [] then (rx, [])
    else
      match TypeOf(arg[0])
      case None => (rx, [])
      case Some(t) =>
        var rx0 := rx.(remote := rx.remote + {t});
        if !CanDecrypt(rx0, t) then (rx0, [])
        else
          var (rx1, reply) := FbIs(rx0, t, arg[1..]);
          var ret := rx1.fb.Get(t).state;
          if ret.Failed? then (rx1.(auto := false), [reply])
          else
            (rx1.(mode := Some(t)),
             [reply] + if ret == SUCCESS && rx1.auto then [RequestStart(rx1)] else [])
  }

  /** `encrypt_start`. */
  function OnStart(rx: Rx): (Rx, seq<Msg>) {
    if rx.mode.Some? && CanDecrypt(rx, rx.mode.value) then (rx.(input := rx.mode), [])
    else (rx, [REQUEST_END])
  }

  /** `encrypt_enc_keyid`: `encrypt_keyid` on ki[1], with `fb64_keyid` for DIR_DECRYPT. */
  function OnEncKeyid(rx: Rx, keyid: seq<Bits>): (Rx, seq<Msg>) {
    if rx.mode.None? || !CanDecrypt(rx, rx.mode.value) then
      if keyid == [] then (rx, []) else (rx.(keyid := []), [Sub(ENCRYPT_DEC_KEYID, [])])
    else if keyid == [] then
      if rx.keyid == [] then (rx, []) else (rx.(keyid := []), [Sub(ENCRYPT_DEC_KEYID, [])])
    else
      var f := rx.fb.Get(rx.mode.value);
      var rx1 := if keyid != [0] then rx.(keyid := [])
                 else rx.(keyid := [0], fb := rx.fb.Set(rx.mode.value, f.(state := Begun(f.state).(noKeyid := false))));
      (rx1, if keyid == rx.keyid then [] else [Sub(ENCRYPT_DEC_KEYID, rx1.keyid)])
  }

  /** A complete message: what it does to this half, and what it makes the endpoint write. */
  function RxMsg(rx: Rx, m: Msg): (Rx, seq<Msg>) {
    var rx0 := rx.(seen := rx.seen + [m]);
    match m
    case Data(_) => (rx0, [])
    case Sub(cmd, arg) =>
      if cmd == ENCRYPT_IS then OnIs(rx0, arg)
      else if cmd == ENCRYPT_START then OnStart(rx0)
      else if cmd == ENCRYPT_END then (rx0.(input := None), [])
      else if cmd == ENCRYPT_ENC_KEYID then OnEncKeyid(rx0, arg)
      else (rx0, [])
  }

  /** `decrypt_input` on one byte, if installed. */
  function Decrypt(des: Des, key: Pair<Block>, rx: Rx, w: Bits): (Rx, Bits) {
    match rx.input
    case None => (rx, w)
    case Some(t) =>
      var f := rx.fb.Get(t);
      var (s, c) := DecByte(des, t, key.Get(t), f.stream, w);
      (rx.(fb := rx.fb.Set(t, f.(stream := s))), c)
  }

  /** One turn of the loop of `telrcv`: the new half, the message completed, and its replies. */
  function RxByte(des: Des, key: Pair<Block>, rx: Rx, w: Bits): (Rx, Option<Msg>, seq<Msg>) {
    var (rx1, c) := Decrypt(des, key, rx, w);
    var (p, m) := ParseByte(rx.parser, c);
    var rx2 := rx1.(parser := p);
    match m
    case None => (rx2, None, [])
    case Some(msg) => var (rx3, replies) := RxMsg(rx2, msg); (rx3, m, replies)
  }

  // ---------- the endpoint ----------

  function Receive(des: Des, e: Endpoint, w: Bits, rand: Rand): Endpoint {
    var (rx, m, replies) := RxByte(des, e.key, e.rx, w);
    var tx := NetWriteAll(des, e.key, e.tx, replies);
    Endpoint(e.key, if m.Some? then TxMsg(des, e.key, tx, m.value, rand) else tx, rx)
  }

  /** `fb64_session` for one type. */
  function FbSession(des: Des, e: Endpoint, t: Mode, k: Block, rand: Rand): Endpoint {
    var key := e.key.Set(t, k);
    var f, g := e.tx.fb.Get(t), e.rx.fb.Get(t);
    var tx := e.tx.(fb := e.tx.fb.Set(t, f.(needStart := false, stream := StreamKey(f.stream))));
    var rx := e.rx.(fb := e.rx.fb.Set(t, g.(stream := StreamKey(g.stream))));
    Endpoint(key, if f.needStart then FbStart(des, key, tx, t, rand).0 else tx, rx)
  }

  /** `encrypt_session_key` with a DES key: each type in table order. */
  function SessionKey(des: Des, e: Endpoint, k: Block, rand: Rand): Endpoint {
    FbSession(des, FbSession(des, e, CFB, k, rand), OFB, k, rand)
  }

  /** `encrypt_send_support`. */
  function SendSupport(des: Des, e: Endpoint): Endpoint {
    if e.tx.supportSent then e
    else
      var first := if !e.tx.server && e.rx.auto then [RequestStart(e.rx)] else [];
      var tx := NetWriteAll(des, e.key, e.tx, first + [SupportMsg(e.rx.support)]);
      e.(tx := tx.(supportSent := true))
  }

  /** What a user or the program around it can ask for at any time. */
  datatype Command =
    | Type(data: Bits)                 // a byte typed
    | StartOut                         // encrypt start output
    | StopOut                          // encrypt stop output
    | StartIn                          // encrypt start input
    | StopIn                           // encrypt stop input
    | SetType(m: Mode)                 // encrypt type ... output
    | AutoOut(on: bool)
    | AutoIn(on: bool)
    | Support

  function Obey(des: Des, e: Endpoint, c: Command, rand: Rand): Endpoint {
    match c
    case Type(b) => e.(tx := NetWrite(des, e.key, e.tx, Data(b)))
    case StartOut => if e.tx.mode.None? then e else e.(tx := StartOutput(des, e.key, e.tx, e.tx.mode.value, rand))
    case StopOut => e.(tx := SendEnd(des, e.key, e.tx))
    case StartIn => if e.rx.mode.None? then e else e.(tx := NetWrite(des, e.key, e.tx, RequestStart(e.rx)))
    case StopIn => e.(tx := NetWrite(des, e.key, e.tx, REQUEST_END))
    case SetType(m) => e.(tx := e.tx.(mode := Some(m), support := e.tx.support + {m}))
    case AutoOut(on) => e.(tx := e.tx.(auto := on))
    case AutoIn(on) => e.(rx := e.rx.(auto := on))
    case Support => SendSupport(des, e)
  }
}
