/**
 One endpoint against an arbitrary peer: whatever bytes arrive, and whatever
 keys and commands are given in between, output is only ever encrypted after a
 complete negotiation of that type.
 */
module TelnetSafety {
  import opened Wrappers
  import opened Cipher
  import opened Telnet

  // ---------- what a history says about one type ----------

  /** The vector of the negotiation under way, whether its key was valid, and what has been agreed since. */
  datatype Monitor = Monitor(iv: Option<Block>, valid: bool, ok: bool, keyid: bool)

  function Mon(log: seq<Event>, t: Mode): Monitor {
    if log == [] then Monitor(None, false, false, false)
    else
      var mon := Mon(log[..|log| - 1], t);
      match log[|log| - 1]
      case IvSent(m, iv, key) => if m == t then Monitor(Some(iv), ValidKey(key), false, mon.keyid) else mon
      case IvOk(m) => if m == t then mon.(ok := mon.iv.Some?) else mon
      case KeyidZero(m) => if m == t then mon.(keyid := true) else mon
      case Failure(m) => if m == t then Monitor(None, false, false, false) else mon
      case Started(_, _) => mon
  }

  predicate Complete(mon: Monitor, iv: Block) { mon == Monitor(Some(iv), true, true, true) }

  predicate NoFailure(log: seq<Event>, t: Mode, from: nat) {
    forall n :: from <= n < |log| ==> log[n] != Failure(t)
  }

  /** No later vector of type `t` than the one at `i`. */
  predicate LastVector(log: seq<Event>, t: Mode, i: nat) {
    forall n :: i < n < |log| ==> !(log[n].IvSent? && log[n].m == t)
  }

  lemma {:induction false} VectorSent(log: seq<Event>, t: Mode) returns (i: nat)
    requires Mon(log, t).iv.Some?
    ensures i < |log| && log[i].IvSent? && log[i].m == t && log[i].iv == Mon(log, t).iv.value
    ensures Mon(log, t).valid == ValidKey(log[i].key)
    ensures NoFailure(log, t, i) && LastVector(log, t, i)
    ensures Mon(log, t).ok ==> exists j :: i < j < |log| && log[j] == IvOk(t)
  {
    var n := |log| - 1;
    if log[n].IvSent? && log[n].m == t {
      i := n;
    } else {
      i := VectorSent(log[..n], t);
      if Mon(log, t).ok {
        if log[n] == IvOk(t) {
        } else {
          var j :| i < j < n && log[..n][j] == IvOk(t);
          assert log[j] == IvOk(t);
        }
      }
      assert forall k :: 0 <= k < n ==> log[..n][k] == log[k];
    }
  }

  lemma {:induction false} KeyidAccepted(log: seq<Event>, t: Mode) returns (k: nat)
    requires Mon(log, t).keyid
    ensures k < |log| && log[k] == KeyidZero(t) && NoFailure(log, t, k)
  {
    var n := |log| - 1;
    if log[n] == KeyidZero(t) {
      k := n;
    } else {
      k := KeyidAccepted(log[..n], t);
      assert forall i :: 0 <= i < n ==> log[..n][i] == log[i];
    }
  }

  // ---------- the invariant of the outgoing half ----------

  predicate SafeType(tx: Tx, t: Mode) {
    var f, mon := tx.fb.Get(t), Mon(tx.log, t);
    f.state.Progress? ==>
      && (!f.state.noSendIv ==> mon.iv == Some(f.temp) && mon.valid)
      && (!f.state.noSendIv && !f.state.noRecvIv ==> mon.ok && f.stream.iv == f.temp)
      && (!f.state.noKeyid ==> mon.keyid)
  }

  /** Each START in the history follows a complete negotiation, with the vector negotiated. */
  predicate StartsJustified(log: seq<Event>) {
    forall n :: 0 <= n < |log| && log[n].Started? ==> Complete(Mon(log[..n], log[n].m), log[n].iv)
  }

  predicate OutputStarted(tx: Tx) {
    tx.output.Some? ==> exists n :: 0 <= n < |tx.log| && tx.log[n].Started? && tx.log[n].m == tx.output.value
  }

  predicate Safe(tx: Tx) {
    && SafeType(tx, CFB)
    && SafeType(tx, OFB)
    && StartsJustified(tx.log)
    && OutputStarted(tx)
  }

  lemma MonAppend(log: seq<Event>, e: Event, t: Mode)
    ensures Mon(log + [e], t) ==
            var mon := Mon(log, t);
            match e
            case IvSent(m, iv, key) => if m == t then Monitor(Some(iv), ValidKey(key), false, mon.keyid) else mon
            case IvOk(m) => if m == t then mon.(ok := mon.iv.Some?) else mon
            case KeyidZero(m) => if m == t then mon.(keyid := true) else mon
            case Failure(m) => if m == t then Monitor(None, false, false, false) else mon
            case Started(_, _) => mon
  {
    assert (log + [e])[..|log|] == log;
  }

  lemma LogAppend(log: seq<Event>, e: Event)
    requires StartsJustified(log)
    requires e.Started? ==> Complete(Mon(log, e.m), e.iv)
    ensures StartsJustified(log + [e])
  {
    var l := log + [e];
    forall n | 0 <= n < |l| && l[n].Started? ensures Complete(Mon(l[..n], l[n].m), l[n].iv) {
      if n < |log| {
        assert l[..n] == log[..n] && l[n] == log[n];
      } else {
        assert l[..n] == log;
      }
    }
  }

  lemma OutputKept(a: Tx, b: Tx, e: Event)
    requires OutputStarted(a) && b.log == a.log + [e] && (b.output == a.output || (e.Started? && b.output == Some(e.m)))
    ensures OutputStarted(b)
  {
    if b.output == a.output && a.output.Some? {
      var n :| 0 <= n < |a.log| && a.log[n].Started? && a.log[n].m == a.output.value;
      assert b.log[n] == a.log[n];
    } else {
      assert b.log[|a.log|] == e;
    }
  }

  lemma {:induction false} EncKeepsIv(des: Des, m: Mode, key: Block, s: Stream, data: seq<Bits>)
    ensures Enc(des, m, key, s, data).0.iv == s.iv
    decreases |data|
  {
    if data != [] {
      EncKeepsIv(des, m, key, EncByte(des, m, key, s, data[0]).0, data[1..]);
    }
  }

  /** Nothing the invariant looks at differs, but for registers other than the vector. */
  predicate SameNegotiation(a: Tx, b: Tx) {
    && b.log == a.log && b.output == a.output
    && b.fb.cfb == a.fb.cfb.(stream := b.fb.cfb.stream, needStart := b.fb.cfb.needStart)
    && b.fb.ofb == a.fb.ofb.(stream := b.fb.ofb.stream, needStart := b.fb.ofb.needStart)
    && b.fb.cfb.stream.iv == a.fb.cfb.stream.iv && b.fb.ofb.stream.iv == a.fb.ofb.stream.iv
  }

  lemma SafeSame(a: Tx, b: Tx)
    requires Safe(a) && SameNegotiation(a, b)
    ensures Safe(b)
  {
    assert SafeType(b, CFB);
    assert SafeType(b, OFB);
  }

  lemma NetWriteSame(des: Des, k: Pair<Block>, tx: Tx, m: Msg)
    ensures SameNegotiation(tx, NetWrite(des, k, tx, m))
  {
    if tx.output.Some? {
      var t := tx.output.value;
      EncKeepsIv(des, t, k.Get(t), tx.fb.Get(t).stream, Encode(m));
      match t
      case CFB =>
      case OFB =>
    }
  }

  lemma SafeWrite(des: Des, k: Pair<Block>, tx: Tx, m: Msg)
    requires Safe(tx)
    ensures Safe(NetWrite(des, k, tx, m))
    ensures SameNegotiation(tx, NetWrite(des, k, tx, m))
  {
    NetWriteSame(des, k, tx, m);
    SafeSame(tx, NetWrite(des, k, tx, m));
  }

  lemma {:induction false} SafeWrites(des: Des, k: Pair<Block>, tx: Tx, ms: seq<Msg>)
    requires Safe(tx)
    ensures Safe(NetWriteAll(des, k, tx, ms))
    decreases |ms|
  {
    if ms != [] {
      SafeWrite(des, k, tx, ms[0]);
      SafeWrites(des, k, NetWrite(des, k, tx, ms[0]), ms[1..]);
    }
  }

  /** A change of one type's negotiation together with the event that justifies it. */
  lemma SafeEvent(a: Tx, b: Tx, e: Event, t: Mode)
    requires Safe(a) && b.log == a.log + [e] && e.m == t && !e.Started?
    requires b.output == a.output
    requires forall u :: u != t ==> b.fb.Get(u) == a.fb.Get(u)
    requires SafeType(b, t)
    ensures Safe(b)
  {
    LogAppend(a.log, e);
    OutputKept(a, b, e);
    forall u ensures SafeType(b, u) {
      MonAppend(a.log, e, u);
      if u != t { assert SafeType(a, u); }
    }
  }

  lemma SafeSendIv(des: Des, k: Pair<Block>, tx: Tx, t: Mode, iv: Block)
    requires Safe(tx) && ValidKey(k.Get(t))
    ensures Safe(SendIv(des, k, tx, t, iv))
  {
    var f := tx.fb.Get(t);
    var e := IvSent(t, iv, k.Get(t));
    var tx1 := tx.(fb := tx.fb.Set(t, f.(temp := iv, state := Begun(f.state).(noSendIv := false, noRecvIv := true))),
                   log := tx.log + [e], lastIv := Some(t));
    MonAppend(tx.log, e, t);
    assert SafeType(tx, t);
    assert SafeType(tx1, t);
    SafeEvent(tx, tx1, e, t);
    SafeWrite(des, k, tx1, IsMsg(t, iv));
  }

  lemma SafeStart(des: Des, k: Pair<Block>, tx: Tx, t: Mode, rand: Rand)
    requires Safe(tx)
    ensures Safe(FbStart(des, k, tx, t, rand).0)
    ensures FbStart(des, k, tx, t, rand).1 == SUCCESS ==>
              FbStart(des, k, tx, t, rand).0 == tx && tx.fb.Get(t).state == SUCCESS
  {
    var f := tx.fb.Get(t);
    if f.state.Progress? && !f.state.noSendIv {
    } else if !ValidKey(k.Get(t)) {
      var tx1 := tx.(fb := tx.fb.Set(t, f.(needStart := true, state := Begun(f.state))));
      assert SafeType(tx, t);
      forall u ensures SafeType(tx1, u) { assert SafeType(tx, u); }
    } else if rand(t).Some? {
      SafeSendIv(des, k, tx, t, rand(t).value);
      SendIvWaits(des, k, tx, t, rand(t).value);
    }
  }

  lemma SendIvWaits(des: Des, k: Pair<Block>, tx: Tx, t: Mode, iv: Block)
    ensures SendIv(des, k, tx, t, iv).fb.Get(t).state != SUCCESS
  {
    match (tx.output, t)
    case (None, _) =>
    case (Some(CFB), _) =>
    case (Some(OFB), _) =>
  }

  /** START goes out only at the end of a complete negotiation. */
  lemma SafeSwitch(des: Des, k: Pair<Block>, tx: Tx, t: Mode)
    requires Safe(tx) && tx.fb.Get(t).state == SUCCESS
    ensures Safe(Switch(des, k, tx, t))
  {
    var e := Started(t, tx.fb.Get(t).stream.iv);
    var m := Sub(ENCRYPT_START, tx.keyid);
    assert SafeType(tx, t);
    SafeWrite(des, k, tx, m);
    var tx0, tx1 := NetWrite(des, k, tx, m), Switch(des, k, tx, t);
    LogAppend(tx.log, e);
    OutputKept(tx0, tx1, e);
    forall u ensures SafeType(tx1, u) {
      MonAppend(tx.log, e, u);
      assert SafeType(tx0, u);
    }
  }

  lemma SafeStartOutput(des: Des, k: Pair<Block>, tx: Tx, t: Mode, rand: Rand)
    requires Safe(tx)
    ensures Safe(StartOutput(des, k, tx, t, rand))
  {
    if CanEncrypt(tx, t) {
      SafeStart(des, k, tx, t, rand);
      if FbStart(des, k, tx, t, rand).1 == SUCCESS {
        SafeSwitch(des, k, tx, t);
      }
    }
  }

  lemma SafeEnd(des: Des, k: Pair<Block>, tx: Tx)
    requires Safe(tx)
    ensures Safe(SendEnd(des, k, tx))
  {
    if tx.output.Some? {
      SafeWrite(des, k, tx, Sub(ENCRYPT_END, []));
      var tx0 := NetWrite(des, k, tx, Sub(ENCRYPT_END, []));
      forall u ensures SafeType(tx0.(output := None), u) { assert SafeType(tx0, u); }
    }
  }

  lemma SafeFields(a: Tx, b: Tx)
    requires Safe(a) && b.fb == a.fb && b.log == a.log && b.output == a.output
    ensures Safe(b)
  {
    SafeSame(a, b);
  }

  lemma SafeSupport(des: Des, k: Pair<Block>, tx: Tx, types: seq<Bits>, rand: Rand)
    requires Safe(tx)
    ensures Safe(OnSupport(des, k, tx, types, rand))
  {
    var us := Usable(tx, types);
    var tx0 := tx.(remote := set t | t in us);
    SafeFields(tx, tx0);
    if us != [] {
      SafeStart(des, k, tx0, us[0], rand);
      var tx1 := FbStart(des, k, tx0, us[0], rand).0;
      SafeFields(tx1, tx1.(mode := Some(us[0])));
      SafeStartOutput(des, k, tx1.(mode := Some(us[0])), us[0], rand);
    }
  }

  lemma SafeIvOk(tx: Tx, t: Mode)
    requires Safe(tx)
    ensures Safe(AcceptIvOk(tx, t))
  {
    MonAppend(tx.log, IvOk(t), t);
    assert SafeType(tx, t);
    assert SafeType(AcceptIvOk(tx, t), t);
    SafeEvent(tx, AcceptIvOk(tx, t), IvOk(t), t);
  }

  lemma SafeEncKeyid(des: Des, k: Pair<Block>, tx: Tx, keyid: seq<Bits>)
    requires Safe(tx)
    ensures Safe(SendEncKeyid(des, k, tx, keyid))
  {
    SafeFields(tx, tx.(keyid := keyid));
    SafeWrite(des, k, tx.(keyid := keyid), Sub(ENCRYPT_ENC_KEYID, keyid));
  }

  lemma SafeFbReply(des: Des, k: Pair<Block>, tx: Tx, t: Mode, arg: seq<Bits>)
    requires Safe(tx)
    ensures Safe(FbReply(des, k, tx, t, arg))
  {
    if |arg| >= 1 && arg[0] == FB64_IV_OK {
      SafeIvOk(tx, t);
      SafeEncKeyid(des, k, AcceptIvOk(tx, t), [0]);
    } else {
      var tx1 := FbReply(des, k, tx, t, arg);
      assert tx1.fb.Get(t).state.Failed?;
      SafeEvent(tx, tx1, Failure(t), t);
    }
  }

  lemma SafeReply(des: Des, k: Pair<Block>, tx: Tx, arg: seq<Bits>, rand: Rand)
    requires Safe(tx)
    ensures Safe(OnReply(des, k, tx, arg, rand))
  {
    if arg != [] && TypeOf(arg[0]).Some? {
      var t := TypeOf(arg[0]).value;
      SafeFbReply(des, k, tx, t, arg[1..]);
      var tx1 := FbReply(des, k, tx, t, arg[1..]);
      SafeFields(tx1, tx1.(auto := false));
      SafeFields(tx1, tx1.(mode := Some(t)));
      SafeStartOutput(des, k, tx1.(mode := Some(t)), t, rand);
    }
  }

  lemma SafeFbKeyid(tx: Tx, t: Mode)
    requires Safe(tx)
    ensures Safe(FbKeyid(tx, t))
  {
    if tx.keyid != [0] {
      SafeFields(tx, tx.(keyid := []));
    } else {
      MonAppend(tx.log, KeyidZero(t), t);
      assert SafeType(tx, t);
      assert SafeType(FbKeyid(tx, t), t);
      SafeEvent(tx, FbKeyid(tx, t), KeyidZero(t), t);
    }
  }

  lemma SafeDecKeyid(des: Des, k: Pair<Block>, tx: Tx, keyid: seq<Bits>, rand: Rand)
    requires Safe(tx)
    ensures Safe(OnDecKeyid(des, k, tx, keyid, rand))
  {
    SafeEncKeyid(des, k, tx, []);
    if tx.mode.Some? {
      var t := tx.mode.value;
      SafeFields(tx, tx.(keyid := keyid));
      SafeFbKeyid(tx.(keyid := keyid), t);
      var tx1 := FbKeyid(tx.(keyid := keyid), t);
      SafeEncKeyid(des, k, tx1, tx1.keyid);
      SafeFbKeyid(tx, t);
      SafeStartOutput(des, k, FbKeyid(tx, t), t, rand);
    }
  }

  lemma SafeTxMsg(des: Des, k: Pair<Block>, tx: Tx, m: Msg, rand: Rand)
    requires Safe(tx)
    ensures Safe(TxMsg(des, k, tx, m, rand))
  {
    if m.Sub? {
      if m.cmd == ENCRYPT_SUPPORT {
        SafeSupport(des, k, tx, m.arg, rand);
      } else if m.cmd == ENCRYPT_REPLY {
        SafeReply(des, k, tx, m.arg, rand);
      } else if m.cmd == ENCRYPT_REQSTART {
        if tx.mode.None? {
          SafeFields(tx, tx.(auto := tx.auto || tx.server));
        } else {
          SafeStartOutput(des, k, tx, tx.mode.value, rand);
        }
      } else if m.cmd == ENCRYPT_REQEND {
        SafeEnd(des, k, tx);
      } else if m.cmd == ENCRYPT_DEC_KEYID {
        SafeDecKeyid(des, k, tx, m.arg, rand);
      }
    }
  }

  lemma SafeSession(des: Des, e: Endpoint, t: Mode, k: Block, rand: Rand)
    requires Safe(e.tx)
    ensures Safe(FbSession(des, e, t, k, rand).tx)
  {
    var f := e.tx.fb.Get(t);
    var tx := e.tx.(fb := e.tx.fb.Set(t, f.(needStart := false, stream := StreamKey(f.stream))));
    SafeSame(e.tx, tx);
    if f.needStart {
      SafeStart(des, e.key.Set(t, k), tx, t, rand);
    }
  }

  lemma SafeObey(des: Des, e: Endpoint, c: Command, rand: Rand)
    requires Safe(e.tx)
    ensures Safe(Obey(des, e, c, rand).tx)
  {
    match c
    case Type(b) => SafeWrite(des, e.key, e.tx, Data(b));
    case StartOut => if e.tx.mode.Some? { SafeStartOutput(des, e.key, e.tx, e.tx.mode.value, rand); }
    case StopOut => SafeEnd(des, e.key, e.tx);
    case StartIn => SafeWrite(des, e.key, e.tx, RequestStart(e.rx));
    case StopIn => SafeWrite(des, e.key, e.tx, REQUEST_END);
    case SetType(m) => SafeFields(e.tx, Obey(des, e, c, rand).tx);
    case AutoOut(on) => SafeFields(e.tx, Obey(des, e, c, rand).tx);
    case AutoIn(on) =>
    case Support =>
      var first := if !e.tx.server && e.rx.auto then [RequestStart(e.rx)] else [];
      var ms := first + [SupportMsg(e.rx.support)];
      SafeWrites(des, e.key, e.tx, ms);
      SafeFields(NetWriteAll(des, e.key, e.tx, ms), NetWriteAll(des, e.key, e.tx, ms).(supportSent := true));
  }

  // ---------- any run of one endpoint ----------

  datatype Input = Arrives(w: Bits, rand: Rand) | Session(k: Block, rand: Rand) | Order(c: Command, rand: Rand)

  function Feed(des: Des, e: Endpoint, i: Input): Endpoint {
    match i
    case Arrives(w, rand) => Receive(des, e, w, rand)
    case Session(k, rand) => SessionKey(des, e, k, rand)
    case Order(c, rand) => Obey(des, e, c, rand)
  }

  function FeedAll(des: Des, e: Endpoint, ins: seq<Input>): Endpoint
    decreases |ins|
  {
    if ins == [] then e else FeedAll(des, Feed(des, e, ins[0]), ins[1..])
  }

  lemma SafeFeed(des: Des, e: Endpoint, i: Input)
    requires Safe(e.tx)
    ensures Safe(Feed(des, e, i).tx)
  {
    match i
    case Arrives(w, rand) =>
      var r := RxByte(des, e.key, e.rx, w);
      SafeWrites(des, e.key, e.tx, r.2);
      if r.1.Some? {
        SafeTxMsg(des, e.key, NetWriteAll(des, e.key, e.tx, r.2), r.1.value, rand);
      }
    case Session(k, rand) =>
      SafeSession(des, e, CFB, k, rand);
      SafeSession(des, FbSession(des, e, CFB, k, rand), OFB, k, rand);
    case Order(c, rand) => SafeObey(des, e, c, rand);
  }

  lemma {:induction false} FeedSafe(des: Des, e: Endpoint, ins: seq<Input>)
    requires Safe(e.tx)
    ensures Safe(FeedAll(des, e, ins).tx)
    decreases |ins|
  {
    if ins != [] {
      SafeFeed(des, e, ins[0]);
      FeedSafe(des, Feed(des, e, ins[0]), ins[1..]);
    }
  }

  /**
   Against any peer: whenever START for a type was sent at `n`, a vector had
   been sent under a valid key at `i`, IV_OK arrived at `j` after it, key id 0
   was accepted at `k`, no failure came since, no newer vector was sent, and the
   cipher was started with exactly that vector.
   */
  lemma StartNeedsNegotiation(des: Des, server: bool, enc: set<Mode>, dec: set<Mode>, ins: seq<Input>, n: nat)
    returns (i: nat, j: nat, k: nat)
    requires var log := FeedAll(des, Init(server, enc, dec), ins).tx.log; n < |log| && log[n].Started?
    ensures var log := FeedAll(des, Init(server, enc, dec), ins).tx.log;
            var t := log[n].m;
            && i < j < n && k < n
            && log[i].IvSent? && log[i].m == t && log[i].iv == log[n].iv && ValidKey(log[i].key)
            && log[j] == IvOk(t) && log[k] == KeyidZero(t)
            && NoFailure(log[..n], t, i) && NoFailure(log[..n], t, k) && LastVector(log[..n], t, i)
  {
    var e := Init(server, enc, dec);
    FeedSafe(des, e, ins);
    var log := FeedAll(des, e, ins).tx.log;
    var t := log[n].m;
    i := VectorSent(log[..n], t);
    k := KeyidAccepted(log[..n], t);
    j :| i < j < |log[..n]| && log[..n][j] == IvOk(t);
  }

  /** Against any peer: output is encrypted with a type only if START for it was sent. */
  lemma OutputNeedsStart(des: Des, server: bool, enc: set<Mode>, dec: set<Mode>, ins: seq<Input>) returns (n: nat)
    requires FeedAll(des, Init(server, enc, dec), ins).tx.output.Some?
    ensures var tx := FeedAll(des, Init(server, enc, dec), ins).tx;
            n < |tx.log| && tx.log[n].Started? && tx.log[n].m == tx.output.value
  {
    FeedSafe(des, Init(server, enc, dec), ins);
    var tx := FeedAll(des, Init(server, enc, dec), ins).tx;
    n :| 0 <= n < |tx.log| && tx.log[n].Started? && tx.log[n].m == tx.output.value;
  }
}
