/**
 How far one endpoint has got, told from the messages it has sent and seen, and
 how each message from an honest peer, each command and the key take it on.
 */
module TelnetStage {
  import opened Wrappers
  import opened Cipher
  import opened Telnet
  import opened TelnetWire
  import opened TelnetSession
  import opened TelnetMoves
  import opened TelnetSystem
  import opened TelnetSingle
  import opened TelnetRuns
  import opened TelnetCrossing
  import opened TelnetProgress

  // ---------- what one endpoint has sent and seen ----------

  /** A message with command `cmd` is among them. */
  predicate Has(ms: seq<Msg>, cmd: Bits) { exists i :: 0 <= i < |ms| && Is(ms[i], cmd) }

  lemma HasMore(ms: seq<Msg>, m: Msg, cmd: Bits)
    ensures Has(ms + [m], cmd) <==> Has(ms, cmd) || Is(m, cmd)
  {
    if Has(ms, cmd) {
      var i :| 0 <= i < |ms| && Is(ms[i], cmd);
      assert (ms + [m])[i] == ms[i];
    }
    if Is(m, cmd) { assert (ms + [m])[|ms|] == m; }
    if Has(ms + [m], cmd) {
      var i :| 0 <= i < |ms + [m]| && Is((ms + [m])[i], cmd);
      if i < |ms| { assert ms[i] == (ms + [m])[i]; }
    }
  }

  /** Key ids and starts follow a vector, and the key id is zero. */
  predicate Ordered(sent: seq<Msg>) {
    forall i :: 0 <= i < |sent| && (Is(sent[i], ENCRYPT_ENC_KEYID) || Is(sent[i], ENCRYPT_START)) ==>
      (sent[i] == ENC || sent[i] == START) && Has(sent[..i], ENCRYPT_IS)
  }

  lemma OrderedMore(sent: seq<Msg>, m: Msg)
    requires Ordered(sent)
    requires Is(m, ENCRYPT_ENC_KEYID) || Is(m, ENCRYPT_START) ==> (m == ENC || m == START) && Has(sent, ENCRYPT_IS)
    ensures Ordered(sent + [m])
  {
    var all := sent + [m];
    forall i | 0 <= i < |all| && (Is(all[i], ENCRYPT_ENC_KEYID) || Is(all[i], ENCRYPT_START))
      ensures (all[i] == ENC || all[i] == START) && Has(all[..i], ENCRYPT_IS)
    {
      if i < |sent| {
        assert all[..i] == sent[..i] && all[i] == sent[i];
      } else {
        assert all[..i] == sent;
      }
    }
  }

  /** The sender of type `t`, if it has one, after what it has sent and seen. */
  predicate Stage(v: View, t: Option<Mode>, hasKey: bool, asked: bool, sent: seq<Msg>, seen: seq<Msg>) {
    && Ordered(sent)
    && if t.None? || !Has(seen, ENCRYPT_SUPPORT) then AtRest(v, t) && ENC !in sent && DEC !in seen
       else
         && Going(v, t.value, hasKey, asked)
         && (!v.state.Get(t.value).noSendIv ==> Has(sent, ENCRYPT_IS))
         && (ENC in sent <==> Accepted(v, t.value))
         && (DEC in seen ==> Agreed(v, t.value))
         && (v.output.Some? ==> START in sent)
  }

  /** The receiver. */
  predicate Receiving(rx: Rx, supportSent: bool, sent: seq<Msg>) {
    && (Has(rx.seen, ENCRYPT_IS) ==> Decrypts(rx))
    && (rx.keyid == [] || rx.keyid == [0])
    && (rx.keyid == [0] || ENC in rx.seen ==> DEC in sent)
    && (forall m :: m in sent && Is(m, ENCRYPT_DEC_KEYID) ==> m == DEC && ENC in rx.seen)
    && !Has(sent, ENCRYPT_REQEND)
    && (Has(sent, ENCRYPT_SUPPORT) ==> supportSent)
    && (supportSent ==> SupportMsg(rx.support) in sent)
  }

  predicate Local(e: Endpoint, t: Option<Mode>, asked: bool) {
    && Stage(ViewOf(e.tx), t, t.Some? && ValidKey(e.key.Get(t.value)), asked, e.tx.sent, e.rx.seen)
    && Receiving(e.rx, e.tx.supportSent, e.tx.sent)
  }

  /** What an honest peer's messages say, and what they rest on. */
  ghost predicate Rely(e: Endpoint, t: Option<Mode>, dec: set<Mode>, asked: bool, m: Msg) {
    && (Is(m, ENCRYPT_IS) ==> exists u, iv :: u in e.rx.support && m == IsMsg(u, iv))
    && (Is(m, ENCRYPT_REPLY) ==> t.Some? && m == ReplyMsg(t.value, FB64_IV_OK) && Waiting(e.tx, t.value))
    && (Is(m, ENCRYPT_SUPPORT) ==> m == SupportMsg(dec) && (asked && e.tx.mode == None ==> e.tx.auto))
    && (Is(m, ENCRYPT_DEC_KEYID) ==> m == DEC && ENC in e.tx.sent)
    && (Is(m, ENCRYPT_ENC_KEYID) || Is(m, ENCRYPT_START) ==> (m == ENC || m == START) && Has(e.rx.seen, ENCRYPT_IS))
    && !Is(m, ENCRYPT_REQEND)
  }

  /** How many messages a message can lead to: each is answered by one that leads to fewer. */
  function Weight(m: Msg): nat {
    if m.Data? then 1
    else if m.cmd == ENCRYPT_SUPPORT then 6
    else if m.cmd == ENCRYPT_IS then 5
    else if m.cmd == ENCRYPT_REPLY then 4
    else if m.cmd == ENCRYPT_ENC_KEYID then 3
    else if m.cmd == ENCRYPT_START then 1
    else 2
  }

  // ---------- a message is sent ----------

  /** The sender's own messages leave the receiver as it is. */
  lemma ReceivingSent(rx: Rx, supportSent: bool, sent: seq<Msg>, m: Msg)
    requires Receiving(rx, supportSent, sent)
    requires m.Sub? ==> m.cmd != ENCRYPT_DEC_KEYID && m.cmd != ENCRYPT_REQEND && m.cmd != ENCRYPT_SUPPORT
    ensures Receiving(rx, supportSent, sent + [m])
  {
    HasMore(sent, m, ENCRYPT_REQEND);
    HasMore(sent, m, ENCRYPT_SUPPORT);
  }

  /** And the receiver's the sender. */
  lemma StageSent(v: View, t: Option<Mode>, hasKey: bool, asked: bool, sent: seq<Msg>, seen: seq<Msg>, m: Msg)
    requires Stage(v, t, hasKey, asked, sent, seen)
    requires m.Sub? ==> m.cmd != ENCRYPT_ENC_KEYID && m.cmd != ENCRYPT_START
    ensures Stage(v, t, hasKey, asked, sent + [m], seen)
  {
    OrderedMore(sent, m);
    HasMore(sent, m, ENCRYPT_IS);
  }

  /** A message was seen that is not for the sender. */
  lemma StageSeen(v: View, t: Option<Mode>, hasKey: bool, asked: bool, sent: seq<Msg>, seen: seq<Msg>, m: Msg)
    requires Stage(v, t, hasKey, asked, sent, seen)
    requires m.Sub? ==> m.cmd != ENCRYPT_SUPPORT && m.cmd != ENCRYPT_DEC_KEYID
    ensures Stage(v, t, hasKey, asked, sent, seen + [m])
  {
    HasMore(seen, m, ENCRYPT_SUPPORT);
  }

  // ---------- messages for the sender ----------

  /** A vector, a key id or START. */
  predicate OfSender(m: Msg) { Is(m, ENCRYPT_IS) || Is(m, ENCRYPT_ENC_KEYID) || Is(m, ENCRYPT_START) }

  /** On `m` the sender says nothing or one thing of its own. */
  ghost predicate Says(a: seq<Msg>, b: seq<Msg>, m: Msg) {
    b == a || exists n :: OfSender(n) && b == a + [n] && Weight(n) < Weight(m)
  }

  lemma SaysOne(a: seq<Msg>, n: Msg, m: Msg)
    requires OfSender(n) && Weight(n) < Weight(m)
    ensures Says(a, a + [n], m)
  {}

  /** START after the key id was accepted. */
  lemma StageStart(v: View, w: View, t: Mode, hasKey: bool, asked: bool, sent: seq<Msg>, seen: seq<Msg>)
    requires Stage(v, Some(t), hasKey, asked, sent, seen) && Has(seen, ENCRYPT_SUPPORT) && Agreed(v, t)
    requires Going(w, t, hasKey, asked) && w.state == v.state
    ensures Stage(w, Some(t), hasKey, asked, sent + [START], seen)
  {
    OrderedMore(sent, START);
    HasMore(sent, START, ENCRYPT_IS);
  }

  lemma StageSame(v: View, w: View, t: Mode, hasKey: bool, asked: bool, sent: seq<Msg>, seen: seq<Msg>)
    requires Stage(v, Some(t), hasKey, asked, sent, seen) && Has(seen, ENCRYPT_SUPPORT)
    requires Going(w, t, hasKey, asked) && w.state == v.state && (w.output == v.output || START in sent)
    ensures Stage(w, Some(t), hasKey, asked, sent, seen)
  {}

  /** The key the sender has. */
  predicate HasKey(k: Pair<Block>, t: Option<Mode>) { t.Some? && ValidKey(k.Get(t.value)) }

  /** What never changes in a sender. */
  predicate SameSettings(a: Tx, b: Tx) { b.server == a.server && b.support == a.support && b.supportSent == a.supportSent }

  lemma StartSettings(des: Des, k: Pair<Block>, tx: Tx, t: Mode, rand: Rand)
    ensures SameSettings(tx, FbStart(des, k, tx, t, rand).0) && SameSettings(tx, StartOutput(des, k, tx, t, rand))
  {
    if rand(t).Some? { ViewSendIv(des, k, tx, t, rand(t).value); }
    ViewSwitch(des, k, FbStart(des, k, tx, t, rand).0, t);
  }

  lemma MsgSettings(des: Des, k: Pair<Block>, tx: Tx, m: Msg, rand: Rand)
    ensures SameSettings(tx, TxMsg(des, k, tx, m, rand))
  {
    if m.Sub? {
      if m.cmd == ENCRYPT_SUPPORT {
        SupportSettings(des, k, tx, m.arg, rand);
      } else if m.cmd == ENCRYPT_REPLY {
        ReplySettings(des, k, tx, m.arg, rand);
      } else if m.cmd == ENCRYPT_DEC_KEYID {
        KeyidSettings(des, k, tx, m.arg, rand);
      } else if tx.mode.Some? {
        StartSettings(des, k, tx, tx.mode.value, rand);
      }
    }
  }

  lemma SupportSettings(des: Des, k: Pair<Block>, tx: Tx, types: seq<Bits>, rand: Rand)
    ensures SameSettings(tx, OnSupport(des, k, tx, types, rand))
  {
    var us := Usable(tx, types);
    var tx0 := tx.(remote := set t | t in us);
    if us != [] {
      StartSettings(des, k, tx0, us[0], rand);
      StartSettings(des, k, FbStart(des, k, tx0, us[0], rand).0.(mode := Some(us[0])), us[0], rand);
    }
  }

  lemma ReplySettings(des: Des, k: Pair<Block>, tx: Tx, arg: seq<Bits>, rand: Rand)
    ensures SameSettings(tx, OnReply(des, k, tx, arg, rand))
  {
    if arg != [] && TypeOf(arg[0]).Some? {
      var t := TypeOf(arg[0]).value;
      var tx1 := FbReply(des, k, tx, t, arg[1..]);
      AnswerSettings(des, k, tx, t, arg[1..]);
      StartSettings(des, k, tx1.(mode := Some(t)), t, rand);
    }
  }

  lemma AnswerSettings(des: Des, k: Pair<Block>, tx: Tx, t: Mode, arg: seq<Bits>)
    ensures SameSettings(tx, FbReply(des, k, tx, t, arg))
  {
    EncSettings(des, k, AcceptIvOk(tx, t), [0]);
  }

  lemma KeyidSettings(des: Des, k: Pair<Block>, tx: Tx, keyid: seq<Bits>, rand: Rand)
    ensures SameSettings(tx, OnDecKeyid(des, k, tx, keyid, rand))
  {
    EncSettings(des, k, tx, []);
    if tx.mode.Some? {
      var t := tx.mode.value;
      var tx0, tx1 := FbKeyid(tx.(keyid := keyid), t), FbKeyid(tx, t);
      AcceptSettings(tx.(keyid := keyid), t);
      AcceptSettings(tx, t);
      EncSettings(des, k, tx0, tx0.keyid);
      StartSettings(des, k, tx1, t, rand);
    }
  }

  lemma AcceptSettings(tx: Tx, t: Mode)
    ensures SameSettings(tx, FbKeyid(tx, t)) && FbKeyid(tx, t).mode == tx.mode
  {}

  lemma EncSettings(des: Des, k: Pair<Block>, tx: Tx, keyid: seq<Bits>)
    ensures SameSettings(tx, SendEncKeyid(des, k, tx, keyid))
  {
    ViewWrite(des, k, tx.(keyid := keyid), Sub(ENCRYPT_ENC_KEYID, keyid));
  }

  lemma ReadsSupport(des: Des, k: Pair<Block>, tx: Tx, t: Option<Mode>, dec: set<Mode>, asked: bool, seen: seq<Msg>, rand: Rand)
    requires Stage(ViewOf(tx), t, HasKey(k, t), asked, tx.sent, seen)
    requires First(tx.support, dec) == t && (asked && tx.mode == None ==> tx.auto) && (forall u :: rand(u).Some?)
    ensures var tx1 := OnSupport(des, k, tx, SupportMsg(dec).arg, rand);
      && Stage(ViewOf(tx1), t, HasKey(k, t), asked, tx1.sent, seen + [SupportMsg(dec)])
      && Says(tx.sent, tx1.sent, SupportMsg(dec))
  {
    if t.None? {
      SupportIdle(des, k, tx, dec, rand);
    } else if !Has(seen, ENCRYPT_SUPPORT) {
      ReadsFirst(des, k, tx, t.value, dec, asked, seen, rand);
    } else {
      ReadsAgain(des, k, tx, t.value, dec, asked, seen, rand);
    }
  }

  lemma ReadsFirst(des: Des, k: Pair<Block>, tx: Tx, t: Mode, dec: set<Mode>, asked: bool, seen: seq<Msg>, rand: Rand)
    requires Stage(ViewOf(tx), Some(t), ValidKey(k.Get(t)), asked, tx.sent, seen) && !Has(seen, ENCRYPT_SUPPORT)
    requires First(tx.support, dec) == Some(t) && (asked ==> tx.auto) && rand(t).Some?
    ensures var tx1 := OnSupport(des, k, tx, SupportMsg(dec).arg, rand);
      && Stage(ViewOf(tx1), Some(t), ValidKey(k.Get(t)), asked, tx1.sent, seen + [SupportMsg(dec)])
      && Says(tx.sent, tx1.sent, SupportMsg(dec))
  {
    var tx1 := OnSupport(des, k, tx, SupportMsg(dec).arg, rand);
    SupportBegins(des, k, tx, dec, t, rand, asked);
    HasMore(seen, SupportMsg(dec), ENCRYPT_SUPPORT);
    StageBegins(ViewOf(tx1), t, ValidKey(k.Get(t)), asked, tx.sent, tx1.sent, rand(t).value, seen + [SupportMsg(dec)]);
    if ValidKey(k.Get(t)) { SaysOne(tx.sent, IsMsg(t, rand(t).value), SupportMsg(dec)); }
  }

  lemma StageBegins(v: View, t: Mode, hasKey: bool, asked: bool, sent: seq<Msg>, sent1: seq<Msg>, iv: Block, seen: seq<Msg>)
    requires Ordered(sent) && ENC !in sent && DEC !in seen && Has(seen, ENCRYPT_SUPPORT)
    requires Going(v, t, hasKey, asked) && !Accepted(v, t) && sent1 == if hasKey then sent + [IsMsg(t, iv)] else sent
    requires !hasKey ==> v.state.Get(t).noSendIv
    ensures Stage(v, Some(t), hasKey, asked, sent1, seen)
  {
    if hasKey {
      OrderedMore(sent, IsMsg(t, iv));
      HasMore(sent, IsMsg(t, iv), ENCRYPT_IS);
    }
  }

  lemma ReadsAgain(des: Des, k: Pair<Block>, tx: Tx, t: Mode, dec: set<Mode>, asked: bool, seen: seq<Msg>, rand: Rand)
    requires Stage(ViewOf(tx), Some(t), ValidKey(k.Get(t)), asked, tx.sent, seen) && Has(seen, ENCRYPT_SUPPORT)
    requires First(tx.support, dec) == Some(t)
    ensures var tx1 := OnSupport(des, k, tx, SupportMsg(dec).arg, rand);
      && Stage(ViewOf(tx1), Some(t), ValidKey(k.Get(t)), asked, tx1.sent, seen + [SupportMsg(dec)])
      && Says(tx.sent, tx1.sent, SupportMsg(dec))
  {
    var m := SupportMsg(dec);
    SupportGoing(des, k, tx, dec, t, rand, asked);
    StageSupported(ViewOf(tx), t, ValidKey(k.Get(t)), asked, tx.sent, seen, m);
    Restarted(tx, OnSupport(des, k, tx, m.arg, rand), t, ValidKey(k.Get(t)), asked, seen + [m], m);
  }

  lemma StageSupported(v: View, t: Mode, hasKey: bool, asked: bool, sent: seq<Msg>, seen: seq<Msg>, m: Msg)
    requires Stage(v, Some(t), hasKey, asked, sent, seen) && Has(seen, ENCRYPT_SUPPORT) && (m == DEC ==> Agreed(v, t))
    ensures Stage(v, Some(t), hasKey, asked, sent, seen + [m]) && Has(seen + [m], ENCRYPT_SUPPORT)
  {
    HasMore(seen, m, ENCRYPT_SUPPORT);
  }

  /** Started again if all is agreed. */
  lemma Restarted(tx: Tx, tx1: Tx, t: Mode, hasKey: bool, asked: bool, seen: seq<Msg>, m: Msg)
    requires Stage(ViewOf(tx), Some(t), hasKey, asked, tx.sent, seen) && Has(seen, ENCRYPT_SUPPORT)
    requires Going(ViewOf(tx1), t, hasKey, asked) && ViewOf(tx1).state == ViewOf(tx).state && Weight(m) > 1
    requires tx1.sent == if Agreed(ViewOf(tx), t) then tx.sent + [START] else tx.sent
    ensures Stage(ViewOf(tx1), Some(t), hasKey, asked, tx1.sent, seen) && Says(tx.sent, tx1.sent, m)
  {
    if Agreed(ViewOf(tx), t) {
      StageStart(ViewOf(tx), ViewOf(tx1), t, hasKey, asked, tx.sent, seen);
      SaysOne(tx.sent, START, m);
    }
  }

  lemma ReadsReply(des: Des, k: Pair<Block>, tx: Tx, t: Mode, asked: bool, seen: seq<Msg>, rand: Rand)
    requires Stage(ViewOf(tx), Some(t), ValidKey(k.Get(t)), asked, tx.sent, seen) && Waiting(tx, t)
    ensures var m := ReplyMsg(t, FB64_IV_OK);
      var tx1 := OnReply(des, k, tx, m.arg, rand);
      && Stage(ViewOf(tx1), Some(t), ValidKey(k.Get(t)), asked, tx1.sent, seen + [m]) && Says(tx.sent, tx1.sent, m)
  {
    var m := ReplyMsg(t, FB64_IV_OK);
    ReplyGoing(des, k, tx, t, rand, ValidKey(k.Get(t)), asked);
    var v, w := ViewOf(tx), ViewOf(OnReply(des, k, tx, m.arg, rand));
    Replied(v, w, t, ValidKey(k.Get(t)), asked, tx.sent, seen, m);
  }

  lemma Replied(v: View, w: View, t: Mode, hasKey: bool, asked: bool, sent: seq<Msg>, seen: seq<Msg>, m: Msg)
    requires Stage(v, Some(t), hasKey, asked, sent, seen) && v.state.Get(t).Progress?
    requires !Accepted(v, t) && !v.state.Get(t).noSendIv && Going(w, t, hasKey, asked) && Accepted(w, t)
    requires Is(m, ENCRYPT_REPLY) && (w.output.Some? ==> v.output.Some?)
    ensures Stage(w, Some(t), hasKey, asked, sent + [ENC], seen + [m]) && Says(sent, sent + [ENC], m)
  {
    HasMore(seen, m, ENCRYPT_SUPPORT);
    StageAccepted(v, w, t, hasKey, asked, sent, seen, m);
    SaysOne(sent, ENC, m);
  }

  /** The key id goes out once the vector is accepted. */
  lemma StageAccepted(v: View, w: View, t: Mode, hasKey: bool, asked: bool, sent: seq<Msg>, seen: seq<Msg>, m: Msg)
    requires Stage(v, Some(t), hasKey, asked, sent, seen) && Has(seen, ENCRYPT_SUPPORT) && Has(seen + [m], ENCRYPT_SUPPORT)
    requires !Accepted(v, t) && !v.state.Get(t).noSendIv && Going(w, t, hasKey, asked) && Accepted(w, t) && m != DEC
    requires w.output.Some? ==> START in sent
    ensures Stage(w, Some(t), hasKey, asked, sent + [ENC], seen + [m])
  {
    OrderedMore(sent, ENC);
    HasMore(sent, ENC, ENCRYPT_IS);
  }

  lemma ReadsConfirmation(des: Des, k: Pair<Block>, tx: Tx, t: Option<Mode>, asked: bool, seen: seq<Msg>, rand: Rand)
    requires Stage(ViewOf(tx), t, HasKey(k, t), asked, tx.sent, seen) && ENC in tx.sent
    ensures var tx1 := OnDecKeyid(des, k, tx, [0], rand);
      && Stage(ViewOf(tx1), t, HasKey(k, t), asked, tx1.sent, seen + [DEC]) && Says(tx.sent, tx1.sent, DEC)
  {
    var tx1 := OnDecKeyid(des, k, tx, [0], rand);
    ConfirmedStarts(des, k, tx, t.value, rand, HasKey(k, t), asked);
    HasMore(seen, DEC, ENCRYPT_SUPPORT);
    if tx.auto {
      OrderedMore(tx.sent, START);
      HasMore(tx.sent, START, ENCRYPT_IS);
      SaysOne(tx.sent, START, DEC);
    }
  }

  lemma ReadsRequest(des: Des, k: Pair<Block>, tx: Tx, t: Option<Mode>, asked: bool, seen: seq<Msg>, m: Msg, rand: Rand)
    requires Stage(ViewOf(tx), t, HasKey(k, t), asked, tx.sent, seen) && Is(m, ENCRYPT_REQSTART)
    ensures var tx1 := OnRequestStart(des, k, tx, rand);
      && Stage(ViewOf(tx1), t, HasKey(k, t), asked, tx1.sent, seen + [m]) && Says(tx.sent, tx1.sent, m)
  {
    HasMore(seen, m, ENCRYPT_SUPPORT);
    if t.None? || !Has(seen, ENCRYPT_SUPPORT) {
      RequestIdle(des, k, tx, t, rand);
    } else {
      RequestGoing(des, k, tx, t.value, rand, HasKey(k, t), asked);
      StageSupported(ViewOf(tx), t.value, HasKey(k, t), asked, tx.sent, seen, m);
      Restarted(tx, OnRequestStart(des, k, tx, rand), t.value, HasKey(k, t), asked, seen + [m], m);
    }
  }

  // ---------- a message is read ----------

  /** On `m` one message is sent, or none. */
  ghost predicate Answers(a: seq<Msg>, b: seq<Msg>, m: Msg) { b == a || exists n :: b == a + [n] && Weight(n) < Weight(m) }

  lemma AnswersOne(a: seq<Msg>, n: Msg, m: Msg)
    requires Weight(n) < Weight(m)
    ensures Answers(a, a + [n], m)
  {}

  /** What stays as it is when a message is read. */
  predicate Reads(a: Endpoint, b: Endpoint, m: Msg) {
    && b.key == a.key && SameSettings(a.tx, b.tx) && b.rx.support == a.rx.support && b.rx.auto == a.rx.auto
    && b.rx.seen == a.rx.seen + [m]
  }

  /** The receiver has seen a message that is not for it. */
  lemma ReceivingSeen(rx: Rx, rx1: Rx, supportSent: bool, sent: seq<Msg>, m: Msg)
    requires Receiving(rx, supportSent, sent)
    requires m.Sub? ==> m.cmd != ENCRYPT_IS && m.cmd != ENCRYPT_ENC_KEYID
    requires rx1.seen == rx.seen + [m] && rx1.mode == rx.mode && rx1.remote == rx.remote
    requires rx1.keyid == rx.keyid && rx1.support == rx.support
    ensures Receiving(rx1, supportSent, sent)
  {
    HasMore(rx.seen, m, ENCRYPT_IS);
  }

  lemma ReceivingSays(rx: Rx, supportSent: bool, a: seq<Msg>, b: seq<Msg>, m: Msg)
    requires Receiving(rx, supportSent, a) && Says(a, b, m)
    ensures Receiving(rx, supportSent, b) && Answers(a, b, m)
  {
    if b != a {
      var n :| OfSender(n) && b == a + [n] && Weight(n) < Weight(m);
      ReceivingSent(rx, supportSent, a, n);
      AnswersOne(a, n, m);
    }
  }

  /** What the sender makes of a message for it. */
  lemma SenderReads(des: Des, e: Endpoint, t: Option<Mode>, dec: set<Mode>, asked: bool, m: Msg, rand: Rand)
    requires Local(e, t, asked) && Rely(e, t, dec, asked, m) && First(e.tx.support, dec) == t && forall u :: rand(u).Some?
    requires m.Sub? && m.cmd != ENCRYPT_IS && m.cmd != ENCRYPT_ENC_KEYID && m.cmd != ENCRYPT_START
    ensures var tx1 := TxMsg(des, e.key, e.tx, m, rand);
      && Stage(ViewOf(tx1), t, HasKey(e.key, t), asked, tx1.sent, e.rx.seen + [m]) && Says(e.tx.sent, tx1.sent, m)
  {
    if m.cmd == ENCRYPT_SUPPORT {
      ReadsSupport(des, e.key, e.tx, t, dec, asked, e.rx.seen, rand);
    } else if m.cmd == ENCRYPT_REPLY {
      ReadsReply(des, e.key, e.tx, t.value, asked, e.rx.seen, rand);
    } else if m.cmd == ENCRYPT_DEC_KEYID {
      ReadsConfirmation(des, e.key, e.tx, t, asked, e.rx.seen, rand);
    } else if m.cmd == ENCRYPT_REQSTART {
      ReadsRequest(des, e.key, e.tx, t, asked, e.rx.seen, m, rand);
    } else {
      StageSeen(ViewOf(e.tx), t, HasKey(e.key, t), asked, e.tx.sent, e.rx.seen, m);
    }
  }

  lemma ReadsForSender(des: Des, e: Endpoint, t: Option<Mode>, dec: set<Mode>, asked: bool, m: Msg, rand: Rand)
    requires Local(e, t, asked) && Rely(e, t, dec, asked, m) && First(e.tx.support, dec) == t && forall u :: rand(u).Some?
    requires m.Sub? && m.cmd != ENCRYPT_IS && m.cmd != ENCRYPT_ENC_KEYID && m.cmd != ENCRYPT_START
    ensures var e1 := Handled(des, e, m, rand); Local(e1, t, asked) && Reads(e, e1, m) && Answers(e.tx.sent, e1.tx.sent, m)
  {
    TakesOther(e.rx, m);
    SeenGrows(e.rx, m);
    SenderReads(des, e, t, dec, asked, m, rand);
    var tx1 := TxMsg(des, e.key, e.tx, m, rand);
    MsgSettings(des, e.key, e.tx, m, rand);
    ReceivingSeen(e.rx, RxMsg(e.rx, m).0, e.tx.supportSent, e.tx.sent, m);
    ReceivingSays(RxMsg(e.rx, m).0, e.tx.supportSent, e.tx.sent, tx1.sent, m);
  }

  /** A vector is answered. */
  lemma ReadsVector(des: Des, e: Endpoint, t: Option<Mode>, asked: bool, u: Mode, iv: Block, rand: Rand)
    requires Local(e, t, asked) && u in e.rx.support
    ensures var m := IsMsg(u, iv);
      var e1 := Handled(des, e, m, rand); Local(e1, t, asked) && Reads(e, e1, m) && Answers(e.tx.sent, e1.tx.sent, m)
  {
    var m, n := IsMsg(u, iv), ReplyMsg(u, FB64_IV_OK);
    TakesVector(e.rx, u, iv);
    SeenGrows(e.rx, m);
    WriteOne(des, e.key, e.tx, n);
    ViewWrite(des, e.key, e.tx, n);
    StageSeen(ViewOf(e.tx), t, HasKey(e.key, t), asked, e.tx.sent, e.rx.seen, m);
    StageSent(ViewOf(e.tx), t, HasKey(e.key, t), asked, e.tx.sent, e.rx.seen + [m], n);
    ReceivingSent(e.rx, e.tx.supportSent, e.tx.sent, n);
    ReceivingVector(e.rx, RxMsg(e.rx, m).0, e.tx.supportSent, e.tx.sent + [n], m);
    AnswersOne(e.tx.sent, n, m);
  }

  lemma ReceivingVector(rx: Rx, rx1: Rx, supportSent: bool, sent: seq<Msg>, m: Msg)
    requires Receiving(rx, supportSent, sent) && Decrypts(rx1) && Is(m, ENCRYPT_IS)
    requires rx1.seen == rx.seen + [m] && rx1.keyid == rx.keyid && rx1.support == rx.support
    ensures Receiving(rx1, supportSent, sent)
  {}

  /** A key id is confirmed. */
  lemma ReadsKeyid(des: Des, e: Endpoint, t: Option<Mode>, asked: bool, rand: Rand)
    requires Local(e, t, asked) && Has(e.rx.seen, ENCRYPT_IS)
    ensures var e1 := Handled(des, e, ENC, rand);
      Local(e1, t, asked) && Reads(e, e1, ENC) && Answers(e.tx.sent, e1.tx.sent, ENC)
  {
    TakesKeyid(e.rx);
    SeenGrows(e.rx, ENC);
    StageSeen(ViewOf(e.tx), t, HasKey(e.key, t), asked, e.tx.sent, e.rx.seen, ENC);
    if e.rx.keyid != [0] {
      Confirms(des, e, RxMsg(e.rx, ENC).0, t, asked);
      WriteOne(des, e.key, e.tx, DEC);
    } else {
      ReceivingAgain(e.rx, RxMsg(e.rx, ENC).0, e.tx.supportSent, e.tx.sent);
    }
  }

  lemma Confirms(des: Des, e: Endpoint, rx1: Rx, t: Option<Mode>, asked: bool)
    requires Local(e, t, asked) && Decrypts(rx1)
    requires Stage(ViewOf(e.tx), t, HasKey(e.key, t), asked, e.tx.sent, e.rx.seen + [ENC])
    requires rx1.seen == e.rx.seen + [ENC] && rx1.keyid == [0] && rx1.support == e.rx.support && rx1.auto == e.rx.auto
    ensures var e1 := Endpoint(e.key, NetWrite(des, e.key, e.tx, DEC), rx1);
      Local(e1, t, asked) && Reads(e, e1, ENC) && Answers(e.tx.sent, e1.tx.sent, ENC)
  {
    ViewWrite(des, e.key, e.tx, DEC);
    StageSent(ViewOf(e.tx), t, HasKey(e.key, t), asked, e.tx.sent, e.rx.seen + [ENC], DEC);
    ReceivingConfirms(e.rx, rx1, e.tx.supportSent, e.tx.sent);
    AnswersOne(e.tx.sent, DEC, ENC);
  }

  lemma ReceivingAgain(rx: Rx, rx1: Rx, supportSent: bool, sent: seq<Msg>)
    requires Receiving(rx, supportSent, sent) && Decrypts(rx1) && rx.keyid == [0]
    requires rx1.seen == rx.seen + [ENC] && rx1.keyid == [0] && rx1.support == rx.support
    ensures Receiving(rx1, supportSent, sent)
  {}

  lemma ReceivingConfirms(rx: Rx, rx1: Rx, supportSent: bool, sent: seq<Msg>)
    requires Receiving(rx, supportSent, sent) && Decrypts(rx1)
    requires rx1.seen == rx.seen + [ENC] && rx1.keyid == [0] && rx1.support == rx.support
    ensures Receiving(rx1, supportSent, sent + [DEC])
  {
    HasMore(sent, DEC, ENCRYPT_REQEND);
    HasMore(sent, DEC, ENCRYPT_SUPPORT);
    HasMore(rx.seen, ENC, ENCRYPT_IS);
  }

  /** START and data change nothing here. */
  lemma ReadsStart(des: Des, e: Endpoint, t: Option<Mode>, asked: bool, m: Msg, rand: Rand)
    requires Local(e, t, asked) && (m.Data? || (Is(m, ENCRYPT_START) && Has(e.rx.seen, ENCRYPT_IS)))
    ensures var e1 := Handled(des, e, m, rand); Local(e1, t, asked) && Reads(e, e1, m) && Answers(e.tx.sent, e1.tx.sent, m)
  {
    if m.Sub? { TakesStart(e.rx, m); }
    SeenGrows(e.rx, m);
    HasMore(e.rx.seen, m, ENCRYPT_IS);
    StageSeen(ViewOf(e.tx), t, HasKey(e.key, t), asked, e.tx.sent, e.rx.seen, m);
  }

  /** Reading any message of an honest peer. */
  lemma MsgStep(des: Des, e: Endpoint, t: Option<Mode>, dec: set<Mode>, asked: bool, m: Msg, rand: Rand)
    requires Local(e, t, asked) && Rely(e, t, dec, asked, m) && First(e.tx.support, dec) == t && forall u :: rand(u).Some?
    ensures var e1 := Handled(des, e, m, rand); Local(e1, t, asked) && Reads(e, e1, m) && Answers(e.tx.sent, e1.tx.sent, m)
  {
    if Is(m, ENCRYPT_IS) {
      var u, iv :| u in e.rx.support && m == IsMsg(u, iv);
      ReadsVector(des, e, t, asked, u, iv, rand);
    } else if Is(m, ENCRYPT_ENC_KEYID) {
      ReadsKeyid(des, e, t, asked, rand);
    } else if m.Data? || m.cmd == ENCRYPT_START {
      ReadsStart(des, e, t, asked, m, rand);
    } else {
      ReadsForSender(des, e, t, dec, asked, m, rand);
    }
  }

  // ---------- automatic start ----------

  /** A request to start will reach the other end before SUPPORT does. */
  predicate WillAsk(y: Endpoint, k: nat) {
    || (!y.tx.supportSent && !y.tx.server && y.rx.auto)
    || exists i :: k <= i < |y.tx.sent| && Is(y.tx.sent[i], ENCRYPT_REQSTART) && !Has(y.tx.sent[..i], ENCRYPT_SUPPORT)
  }

  /** The sender is to start as soon as it can, or is a server that will be asked to in time. */
  predicate Asked(x: Endpoint, y: Endpoint) {
    x.tx.auto || (x.tx.server && !Has(x.rx.seen, ENCRYPT_SUPPORT) && WillAsk(y, |x.rx.seen|))
  }

  /** Automatic start is not given up, and a server that is asked remembers it. */
  lemma AutoKept(des: Des, e: Endpoint, t: Option<Mode>, dec: set<Mode>, asked: bool, m: Msg, rand: Rand)
    requires Local(e, t, asked) && Rely(e, t, dec, asked, m) && First(e.tx.support, dec) == t && forall u :: rand(u).Some?
    ensures var e1 := Handled(des, e, m, rand);
      asked && (e.tx.auto || (Is(m, ENCRYPT_REQSTART) && e.tx.server && !Has(e.rx.seen, ENCRYPT_SUPPORT))) ==> e1.tx.auto
  {
    MsgStep(des, e, t, dec, asked, m, rand);
    var e1 := Handled(des, e, m, rand);
    if asked && (t.None? || !Has(e1.rx.seen, ENCRYPT_SUPPORT)) {
      HasMore(e.rx.seen, m, ENCRYPT_SUPPORT);
      AutoAtRest(des, e, t, dec, m, rand);
    }
  }

  lemma AutoAtRest(des: Des, e: Endpoint, t: Option<Mode>, dec: set<Mode>, m: Msg, rand: Rand)
    requires AtRest(ViewOf(e.tx), t) && First(e.tx.support, dec) == t
    requires Is(m, ENCRYPT_SUPPORT) ==> m == SupportMsg(dec) && t.None?
    requires !Is(m, ENCRYPT_REPLY) && !Is(m, ENCRYPT_DEC_KEYID) && !Is(m, ENCRYPT_REQEND)
    requires |RxMsg(e.rx, m).1| <= 1
    ensures Handled(des, e, m, rand).tx.auto == (e.tx.auto || (Is(m, ENCRYPT_REQSTART) && e.tx.server))
  {
    var replies := RxMsg(e.rx, m).1;
    var tx := NetWriteAll(des, e.key, e.tx, replies);
    if replies != [] {
      assert replies == [replies[0]];
      WriteOne(des, e.key, e.tx, replies[0]);
      ViewWrite(des, e.key, e.tx, replies[0]);
    }
    assert ViewOf(tx) == ViewOf(e.tx);
    if Is(m, ENCRYPT_SUPPORT) {
      SupportIdle(des, e.key, tx, dec, rand);
    }
  }

  /** The peer goes on: what was to come still comes. */
  lemma AskedStays(x: Endpoint, y: Endpoint, x1: Endpoint, y1: Endpoint)
    requires Asked(x, y) && x1.tx.auto == x.tx.auto && x1.tx.server == x.tx.server && x1.rx.seen == x.rx.seen
    requires y.tx.sent <= y1.tx.sent && y1.tx.server == y.tx.server && (y.rx.auto ==> y1.rx.auto)
    requires y1.tx.supportSent == y.tx.supportSent || WillAsk(y1, |x.rx.seen|) || y.tx.server || !y.rx.auto
    ensures Asked(x1, y1)
  {
    if !x.tx.auto {
      if i :| |x.rx.seen| <= i < |y.tx.sent| && Is(y.tx.sent[i], ENCRYPT_REQSTART) && !Has(y.tx.sent[..i], ENCRYPT_SUPPORT) {
        assert y1.tx.sent[..i] == y.tx.sent[..i] && y1.tx.sent[i] == y.tx.sent[i];
      }
    }
  }

  /** The next message is read. */
  lemma AskedRead(x: Endpoint, x1: Endpoint, y: Endpoint, y1: Endpoint, m: Msg)
    requires Asked(x, y) && |x.rx.seen| < |y.tx.sent| && m == y.tx.sent[|x.rx.seen|]
    requires x1.rx.seen == x.rx.seen + [m] && x1.tx.server == x.tx.server && y1 == y.(tx := y.tx.(out := y1.tx.out))
    requires x.tx.auto || (Is(m, ENCRYPT_REQSTART) && x.tx.server && !Has(x.rx.seen, ENCRYPT_SUPPORT)) ==> x1.tx.auto
    requires Has(y.tx.sent, ENCRYPT_SUPPORT) ==> y.tx.supportSent
    ensures Asked(x1, y1)
    ensures Is(m, ENCRYPT_SUPPORT) ==> x.tx.auto
  {
    var k := |x.rx.seen|;
    HasMore(x.rx.seen, m, ENCRYPT_SUPPORT);
    if !x.tx.auto {
      if i :| k <= i < |y.tx.sent| && Is(y.tx.sent[i], ENCRYPT_REQSTART) && !Has(y.tx.sent[..i], ENCRYPT_SUPPORT) {
        if i > k {
          assert y.tx.sent[..i][k] == m;
          assert y1.tx.sent == y.tx.sent;
        }
      } else {
        assert !Has(y.tx.sent, ENCRYPT_SUPPORT);
      }
    }
  }

  // ---------- two endpoints ----------

  /** Both ends of one direction. */
  ghost predicate Going2(x: Endpoint, y: Endpoint, t: Option<Mode>, asked: bool) {
    && First(x.tx.support, y.rx.support) == t && Local(x, t, asked) && (asked ==> Asked(x, y))
  }

  /** The type the sender keeps to is the one it negotiates, if there is one. */
  predicate Keeps(t: Option<Mode>, u: Mode) { t.Some? ==> u == t.value }

  /** What a message says, by its place in what an honest peer has sent. */
  lemma Relied(x: Endpoint, y: Endpoint, t: Option<Mode>, asked: bool, m: Msg)
    requires Receiving(y.rx, y.tx.supportSent, y.tx.sent) && Ordered(y.tx.sent) && y.rx.seen <= x.tx.sent && Honest(y, x, m)
    requires |x.rx.seen| < |y.tx.sent| && m == y.tx.sent[|x.rx.seen|] && x.rx.seen == y.tx.sent[..|x.rx.seen|]
    requires asked ==> Asked(x, y)
    requires Is(m, ENCRYPT_REPLY) ==> t.Some? && m == ReplyMsg(t.value, FB64_IV_OK) && Waiting(x.tx, t.value)
    ensures Rely(x, t, y.rx.support, asked, m)
  {
    if Is(m, ENCRYPT_IS) {
      VectorIs(x, y, m);
    } else if asked && Is(m, ENCRYPT_SUPPORT) {
      AskedRead(x, x.(rx := x.rx.(seen := x.rx.seen + [m]), tx := x.tx.(auto := true)), y, y, m);
    }
  }

  lemma VectorIs(x: Endpoint, y: Endpoint, m: Msg)
    requires Honest(y, x, m) && Is(m, ENCRYPT_IS)
    ensures exists u, iv :: u in x.rx.support && m == IsMsg(u, iv)
  {
    var u := if HonestIs(y, x, m, CFB) then CFB else OFB;
    assert m == IsMsg(u, y.tx.fb.Get(u).temp);
  }

  /** What the message read next from an honest peer says. */
  lemma PeerRelied(des: Des, key: Block, x: Endpoint, y: Endpoint, t: Option<Mode>, u: Mode, asked: bool, x1: Endpoint, m: Msg)
    requires Inv(des, key, x, y, None, None) && Going2(x, y, t, asked) && Single(x.tx, y.rx.support, u) && Keeps(t, u)
    requires Receiving(y.rx, y.tx.supportSent, y.tx.sent) && Ordered(y.tx.sent)
    requires y.tx.out != [] && RxByte(des, x.key, x.rx, y.tx.out[0]).1 == Some(m) && x1.tx == x.tx
    requires var i := RxByte(des, x.key, x.rx, y.tx.out[0]).0.input; i.Some? ==> x.key.Get(i.value) == key
    requires x1.rx.seen == x.rx.seen && x1.rx.support == x.rx.support
    ensures |x.rx.seen| < |y.tx.sent| && m == y.tx.sent[|x.rx.seen|] && x.rx.seen == y.tx.sent[..|x.rx.seen|]
    ensures Rely(x1, t, y.rx.support, asked, m)
  {
    NextRead(des, key, x, y, m);
    if Is(m, ENCRYPT_REPLY) { ReplyRelied(des, key, x, y, t, u, asked, m); }
    Relied(x1, y, t, asked, m);
  }

  /** It is the next one sent. */
  lemma NextRead(des: Des, key: Block, x: Endpoint, y: Endpoint, m: Msg)
    requires Inv(des, key, x, y, None, None) && y.tx.out != [] && RxByte(des, x.key, x.rx, y.tx.out[0]).1 == Some(m)
    requires var i := RxByte(des, x.key, x.rx, y.tx.out[0]).0.input; i.Some? ==> x.key.Get(i.value) == key
    ensures |x.rx.seen| < |y.tx.sent| && m == y.tx.sent[|x.rx.seen|] && x.rx.seen == y.tx.sent[..|x.rx.seen|]
    ensures Honest(y, x, m)
  {
    var r := RxByte(des, x.key, x.rx, y.tx.out[0]);
    ReadFacts(des, key, x, y);
    ReadByte(des, key, x, y);
    assert r.0.seen[|x.rx.seen|] == m;
  }

  /** An answer is to the vector under way. */
  lemma ReplyRelied(des: Des, key: Block, x: Endpoint, y: Endpoint, t: Option<Mode>, u: Mode, asked: bool, m: Msg)
    requires Inv(des, key, x, y, None, None) && Local(x, t, asked) && Single(x.tx, y.rx.support, u) && Keeps(t, u)
    requires y.tx.out != [] && RxByte(des, x.key, x.rx, y.tx.out[0]).1 == Some(m) && Is(m, ENCRYPT_REPLY)
    requires var i := RxByte(des, x.key, x.rx, y.tx.out[0]).0.input; i.Some? ==> x.key.Get(i.value) == key
    ensures t.Some? && m == ReplyMsg(t.value, FB64_IV_OK) && Waiting(x.tx, t.value)
  {
    var r := RxByte(des, x.key, x.rx, y.tx.out[0]);
    ReadByte(des, key, x, y);
    AnswerIs(des, key, x.(rx := r.0), Popped(y), m, u);
  }

  // ---------- steps ----------

  /** Nobody stops, changes or gives up anything, and the random source works. */
  ghost predicate Gentle(a: Action) {
    && (forall u :: a.rand(u).Some?)
    && (a.Order? ==> !a.c.StopOut? && !a.c.StopIn? && !a.c.SetType? && (a.c.AutoOut? || a.c.AutoIn? ==> a.c.on))
  }

  /** One end has gone on: what it sent was added to, and its settings stay. */
  predicate GoesOn(a: Endpoint, b: Endpoint) {
    && a.tx.sent <= b.tx.sent && b.tx.server == a.tx.server && b.tx.support == a.tx.support
    && b.rx.support == a.rx.support && (a.rx.auto ==> b.rx.auto)
  }

  lemma ReceiveIs(des: Des, x: Endpoint, w: Bits, rand: Rand) returns (x0: Endpoint)
    ensures x0 == x.(rx := x0.rx) && x0.rx.seen == x.rx.seen && x0.rx.mode == x.rx.mode && x0.rx.remote == x.rx.remote
    ensures x0.rx.keyid == x.rx.keyid && x0.rx.support == x.rx.support && x0.rx.auto == x.rx.auto
    ensures var m := RxByte(des, x.key, x.rx, w).1;
      Receive(des, x, w, rand) == if m.Some? then Handled(des, x0, m.value, rand) else x0
  {
    var (rx1, c) := Decrypt(des, x.key, x.rx, w);
    x0 := x.(rx := rx1.(parser := ParseByte(x.rx.parser, c).0));
  }

  /** Registers and the parser do not matter here. */
  lemma LocalSame(a: Endpoint, b: Endpoint, t: Option<Mode>, asked: bool)
    requires Local(a, t, asked) && b.key == a.key && ViewOf(b.tx) == ViewOf(a.tx) && b.tx.sent == a.tx.sent
    requires b.rx.seen == a.rx.seen && b.rx.mode == a.rx.mode && b.rx.remote == a.rx.remote
    requires b.rx.keyid == a.rx.keyid && b.rx.support == a.rx.support
    ensures Local(b, t, asked)
  {}

  lemma AnswersExtend(a: seq<Msg>, b: seq<Msg>, m: Msg)
    requires Answers(a, b, m)
    ensures a <= b
  {}

  /** A byte that completes no message. */
  lemma QuietStep(x: Endpoint, x0: Endpoint, y: Endpoint, y1: Endpoint, t: Option<Mode>, asked: bool)
    requires Going2(x, y, t, asked) && x0 == x.(rx := x0.rx) && y1 == y.(tx := y.tx.(out := y1.tx.out))
    requires Local(x0, t, asked) && x0.rx.seen == x.rx.seen && x0.rx.support == x.rx.support && x0.rx.auto == x.rx.auto
    ensures Going2(x0, y1, t, asked) && GoesOn(x, x0)
  {
    if asked { AskedStays(x, y, x0, y1); }
  }

  /** A byte that completes one. */
  lemma WholeStep(des: Des, key: Block, x: Endpoint, x0: Endpoint, y: Endpoint, t: Option<Mode>, u: Mode, asked: bool,
                  m: Msg, rand: Rand)
    requires Inv(des, key, x, y, None, None) && Going2(x, y, t, asked) && Single(x.tx, y.rx.support, u) && Keeps(t, u)
    requires Receiving(y.rx, y.tx.supportSent, y.tx.sent) && Ordered(y.tx.sent)
    requires y.tx.out != [] && RxByte(des, x.key, x.rx, y.tx.out[0]).1 == Some(m) && forall v :: rand(v).Some?
    requires var i := RxByte(des, x.key, x.rx, y.tx.out[0]).0.input; i.Some? ==> x.key.Get(i.value) == key
    requires Going2(x0, y, t, asked) && GoesOn(x, x0) && x0.tx == x.tx && x0.rx.seen == x.rx.seen
    ensures var x1 := Handled(des, x0, m, rand);
      && Going2(x1, Popped(y), t, asked) && GoesOn(x, x1) && x1.tx.supportSent == x.tx.supportSent
  {
    PeerRelied(des, key, x, y, t, u, asked, x0, m);
    ReadMsgStep(des, x0, y, t, asked, m, rand);
  }

  /** One end reads a byte. */
  lemma ReadStep(des: Des, key: Block, x: Endpoint, y: Endpoint, t: Option<Mode>, u: Mode, asked: bool, rand: Rand)
    requires Inv(des, key, x, y, None, None) && Going2(x, y, t, asked) && Single(x.tx, y.rx.support, u) && Keeps(t, u)
    requires Receiving(y.rx, y.tx.supportSent, y.tx.sent) && Ordered(y.tx.sent)
    requires Enabled(des, key, x, y, Read(rand)) && forall v :: rand(v).Some?
    ensures var x1 := Receive(des, x, y.tx.out[0], rand);
      && Going2(x1, Popped(y), t, asked) && GoesOn(x, x1) && x1.tx.supportSent == x.tx.supportSent
  {
    var x0 := ReceiveIs(des, x, y.tx.out[0], rand);
    var m := RxByte(des, x.key, x.rx, y.tx.out[0]).1;
    LocalSame(x, x0, t, asked);
    QuietStep(x, x0, y, y, t, asked);
    QuietStep(x, x0, y, Popped(y), t, asked);
    if m.Some? { WholeStep(des, key, x, x0, y, t, u, asked, m.value, rand); }
  }

  lemma ReadMsgStep(des: Des, x: Endpoint, y: Endpoint, t: Option<Mode>, asked: bool, m: Msg, rand: Rand)
    requires Local(x, t, asked) && Rely(x, t, y.rx.support, asked, m) && First(x.tx.support, y.rx.support) == t
    requires |x.rx.seen| < |y.tx.sent| && m == y.tx.sent[|x.rx.seen|] && (asked ==> Asked(x, y))
    requires Receiving(y.rx, y.tx.supportSent, y.tx.sent) && y.tx.out != [] && forall v :: rand(v).Some?
    ensures var x1 := Handled(des, x, m, rand);
      && Going2(x1, Popped(y), t, asked) && GoesOn(x, x1) && x1.tx.supportSent == x.tx.supportSent
  {
    var x1 := Handled(des, x, m, rand);
    MsgStep(des, x, t, y.rx.support, asked, m, rand);
    AnswersExtend(x.tx.sent, x1.tx.sent, m);
    if asked {
      AutoKept(des, x, t, y.rx.support, asked, m, rand);
      AskedRead(x, x1, y, Popped(y), m);
    }
  }

  // ---------- commands and the key ----------

  /** A message of no consequence is sent: data, or a request to start. */
  lemma LocalSent(a: Endpoint, b: Endpoint, t: Option<Mode>, asked: bool, m: Msg)
    requires Local(a, t, asked) && b.key == a.key && ViewOf(b.tx) == ViewOf(a.tx) && b.tx.sent == a.tx.sent + [m]
    requires b.rx == a.rx && (m.Data? || m.cmd == ENCRYPT_REQSTART)
    ensures Local(b, t, asked)
  {
    StageSent(ViewOf(a.tx), t, HasKey(a.key, t), asked, a.tx.sent, a.rx.seen, m);
    ReceivingSent(a.rx, a.tx.supportSent, a.tx.sent, m);
  }

  /** SUPPORT is sent, after a request to start if there is one. */
  lemma SupportStep(des: Des, e: Endpoint, t: Option<Mode>, asked: bool)
    requires Local(e, t, asked)
    ensures var e1 := SendSupport(des, e);
      && Local(e1, t, asked) && GoesOn(e, e1) && e1.rx == e.rx && e1.tx.auto == e.tx.auto
      && (e1.tx.supportSent == e.tx.supportSent || WillAsk(e1, |e.tx.sent|) || e.tx.server || !e.rx.auto)
  {
    if !e.tx.supportSent {
      var q, m := RequestStart(e.rx), SupportMsg(e.rx.support);
      if !e.tx.server && e.rx.auto {
        var e0 := e.(tx := NetWrite(des, e.key, e.tx, q));
        WriteTwo(des, e.key, e.tx, q, m);
        ViewWrite(des, e.key, e.tx, q);
        LocalSent(e, e0, t, asked, q);
        SupportSent(des, e0, t, asked);
        assert SendSupport(des, e).tx.sent == e.tx.sent + [q] + [m];
        var all := SendSupport(des, e).tx.sent;
        assert all[|e.tx.sent|] == q && all[..|e.tx.sent|] == e.tx.sent;
      } else {
        assert [] + [m] == [m];
        WriteOne(des, e.key, e.tx, m);
        SupportSent(des, e, t, asked);
      }
    }
  }

  lemma SupportSent(des: Des, e: Endpoint, t: Option<Mode>, asked: bool)
    requires Local(e, t, asked)
    ensures var m := SupportMsg(e.rx.support);
      var e1 := e.(tx := NetWrite(des, e.key, e.tx, m).(supportSent := true));
      && Local(e1, t, asked) && e1.tx.sent == e.tx.sent + [m] && ViewOf(e1.tx) == ViewOf(e.tx).(supportSent := true)
  {
    var m := SupportMsg(e.rx.support);
    ViewWrite(des, e.key, e.tx, m);
    StageSent(ViewOf(e.tx), t, HasKey(e.key, t), asked, e.tx.sent, e.rx.seen, m);
    StageView(ViewOf(e.tx), ViewOf(e.tx).(supportSent := true), t, HasKey(e.key, t), asked, e.tx.sent + [m], e.rx.seen);
    HasMore(e.tx.sent, m, ENCRYPT_REQEND);
  }

  lemma StageView(v: View, w: View, t: Option<Mode>, hasKey: bool, asked: bool, sent: seq<Msg>, seen: seq<Msg>)
    requires Stage(v, t, hasKey, asked, sent, seen) && w == v.(supportSent := w.supportSent, auto := w.auto)
    requires v.auto ==> w.auto
    ensures Stage(w, t, hasKey, asked, sent, seen)
  {}

  /** A command that only writes. */
  lemma WriteStep(des: Des, e: Endpoint, t: Option<Mode>, asked: bool, m: Msg)
    requires Local(e, t, asked) && (m.Data? || m.cmd == ENCRYPT_REQSTART)
    ensures var e1 := e.(tx := NetWrite(des, e.key, e.tx, m));
      Local(e1, t, asked) && GoesOn(e, e1) && e1.tx.supportSent == e.tx.supportSent && e1.tx.auto == e.tx.auto
  {
    ViewWrite(des, e.key, e.tx, m);
    LocalSent(e, e.(tx := NetWrite(des, e.key, e.tx, m)), t, asked, m);
  }

  lemma AutoStep(e: Endpoint, t: Option<Mode>, asked: bool)
    requires Local(e, t, asked)
    ensures var e1 := e.(tx := e.tx.(auto := true)); Local(e1, t, asked) && GoesOn(e, e1)
    ensures var e2 := e.(rx := e.rx.(auto := true)); Local(e2, t, asked) && GoesOn(e, e2)
  {
    StageView(ViewOf(e.tx), ViewOf(e.tx).(auto := true), t, HasKey(e.key, t), asked, e.tx.sent, e.rx.seen);
  }

  /** A command that stops nothing. */
  lemma ObeyStep(des: Des, e: Endpoint, t: Option<Mode>, asked: bool, c: Command, rand: Rand)
    requires Local(e, t, asked) && Gentle(Order(c, rand))
    ensures var e1 := Obey(des, e, c, rand);
      && Local(e1, t, asked) && GoesOn(e, e1) && e1.rx.seen == e.rx.seen && (e.tx.auto ==> e1.tx.auto)
      && (e1.tx.supportSent == e.tx.supportSent || WillAsk(e1, |e.tx.sent|) || e.tx.server || !e.rx.auto)
  {
    match c
    case Type(b) => WriteStep(des, e, t, asked, Data(b));
    case StartOut => if e.tx.mode.Some? { StartStep(des, e, t, asked, rand); }
    case StartIn => if e.rx.mode.Some? { WriteStep(des, e, t, asked, RequestStart(e.rx)); }
    case AutoOut(_) => AutoStep(e, t, asked);
    case AutoIn(_) => AutoStep(e, t, asked);
    case Support => SupportStep(des, e, t, asked);
  }

  lemma StartStep(des: Des, e: Endpoint, t: Option<Mode>, asked: bool, rand: Rand)
    requires Local(e, t, asked) && e.tx.mode.Some?
    ensures var tx1 := StartOutput(des, e.key, e.tx, e.tx.mode.value, rand);
      && Local(e.(tx := tx1), t, asked) && e.tx.sent <= tx1.sent && SameSettings(e.tx, tx1) && tx1.auto == e.tx.auto
  {
    var tx1 := StartOutput(des, e.key, e.tx, t.value, rand);
    StartGoing(des, e.key, e.tx, t.value, rand, HasKey(e.key, t), asked);
    StartSettings(des, e.key, e.tx, t.value, rand);
    Restarted(e.tx, tx1, t.value, HasKey(e.key, t), asked, e.rx.seen, SupportMsg({}));
    ReceivingSays(e.rx, e.tx.supportSent, e.tx.sent, tx1.sent, SupportMsg({}));
    StartKeepsAuto(des, e.key, e.tx, t.value, rand);
  }

  /** The key arrives for one type. */
  lemma KeyStep(des: Des, e: Endpoint, m: Mode, key: Block, rand: Rand, t: Option<Mode>, asked: bool)
    requires Local(e, t, asked) && !ValidKey(e.key.Get(m)) && ValidKey(key) && rand(m).Some?
    requires t != Some(m) ==> !e.tx.fb.Get(m).needStart
    ensures var e1 := FbSession(des, e, m, key, rand);
      && Local(e1, t, asked) && KeyFrame(e, e1) && e1.key == e.key.Set(m, key)
      && (forall u :: u != m ==> e1.tx.fb.Get(u).needStart == e.tx.fb.Get(u).needStart)
  {
    var e1 := FbSession(des, e, m, key, rand);
    FbSessionFrame(des, e, m, key, rand);
    if t == Some(m) && Has(e.rx.seen, ENCRYPT_SUPPORT) {
      KeyGoing(des, e, m, key, rand, asked);
      if Unsent(e.tx, m) {
        OrderedMore(e.tx.sent, IsMsg(m, rand(m).value));
        HasMore(e.tx.sent, IsMsg(m, rand(m).value), ENCRYPT_IS);
        ReceivingSent(e.rx, e.tx.supportSent, e.tx.sent, IsMsg(m, rand(m).value));
      }
      KeyLocal(e, e1, m, asked);
    } else {
      KeyIdle(des, e, m, key, rand);
      KeyLocalIdle(e, e1, m, t, asked);
    }
  }

  /** What the key does not change. */
  predicate KeyFrame(a: Endpoint, b: Endpoint) {
    && a.tx.sent <= b.tx.sent && SameSettings(a.tx, b.tx) && b.tx.auto == a.tx.auto && SameReceiver(a.rx, b.rx)
  }

  predicate SameReceiver(a: Rx, b: Rx) {
    && b.seen == a.seen && b.mode == a.mode && b.remote == a.remote
    && b.keyid == a.keyid && b.support == a.support && b.auto == a.auto
  }

  lemma FbSessionFrame(des: Des, e: Endpoint, m: Mode, key: Block, rand: Rand)
    ensures var e1 := FbSession(des, e, m, key, rand);
      && KeyFrame(e, e1) && e1.key == e.key.Set(m, key)
      && forall u :: u != m ==> e1.tx.fb.Get(u).needStart == e.tx.fb.Get(u).needStart
  {
    var f := e.tx.fb.Get(m);
    var k := e.key.Set(m, key);
    var tx := e.tx.(fb := e.tx.fb.Set(m, f.(needStart := false, stream := StreamKey(f.stream))));
    if f.needStart { FbStartFrame(des, k, tx, m, rand); }
  }

  lemma FbStartFrame(des: Des, k: Pair<Block>, tx: Tx, m: Mode, rand: Rand)
    ensures var tx1 := FbStart(des, k, tx, m, rand).0;
      && tx.sent <= tx1.sent && SameSettings(tx, tx1) && tx1.auto == tx.auto
      && forall u :: u != m ==> tx1.fb.Get(u).needStart == tx.fb.Get(u).needStart
  {
    if rand(m).Some? { ViewSendIv(des, k, tx, m, rand(m).value); }
  }

  lemma KeyLocal(e: Endpoint, e1: Endpoint, t: Mode, asked: bool)
    requires Local(e, Some(t), asked) && Has(e.rx.seen, ENCRYPT_SUPPORT) && SameReceiver(e.rx, e1.rx)
    requires Going(ViewOf(e1.tx), t, true, asked) && ValidKey(e1.key.Get(t)) && Ordered(e1.tx.sent)
    requires Accepted(ViewOf(e1.tx), t) <==> Accepted(ViewOf(e.tx), t)
    requires Agreed(ViewOf(e1.tx), t) <==> Agreed(ViewOf(e.tx), t)
    requires Receiving(e.rx, e.tx.supportSent, e1.tx.sent) && e1.tx.supportSent == e.tx.supportSent
    requires e.tx.sent <= e1.tx.sent && (ENC in e1.tx.sent <==> ENC in e.tx.sent) && Has(e1.tx.sent, ENCRYPT_IS)
    requires e1.tx.output.Some? ==> START in e1.tx.sent
    ensures Local(e1, Some(t), asked)
  {}

  lemma KeyLocalIdle(e: Endpoint, e1: Endpoint, m: Mode, t: Option<Mode>, asked: bool)
    requires Local(e, t, asked) && SameReceiver(e.rx, e1.rx) && ViewOf(e1.tx) == ViewOf(e.tx) && e1.tx.sent == e.tx.sent
    requires t != Some(m) || !Has(e.rx.seen, ENCRYPT_SUPPORT)
    requires forall u :: u != m ==> e1.key.Get(u) == e.key.Get(u)
    ensures Local(e1, t, asked)
  {}

  /** The session key arrives. */
  lemma InstallStep(des: Des, e: Endpoint, key: Block, rand: Rand, t: Option<Mode>, u: Mode, dec: set<Mode>, asked: bool)
    requires Local(e, t, asked) && e.key == Pair(ZERO, ZERO) && ValidKey(key) && (forall v :: rand(v).Some?)
    requires Single(e.tx, dec, u) && Keeps(t, u)
    ensures Local(SessionKey(des, e, key, rand), t, asked) && KeyFrame(e, SessionKey(des, e, key, rand))
  {
    if t.None? || !Has(e.rx.seen, ENCRYPT_SUPPORT) {
      assert t != Some(OFB) ==> !e.tx.fb.cfb.needStart;
    }
    KeyStep(des, e, CFB, key, rand, t, asked);
    KeyStep(des, FbSession(des, e, CFB, key, rand), OFB, key, rand, t, asked);
  }
}
