/**
 What one endpoint says to any peer at all: the commands of its user, and the
 answers to what it cannot use.
 */
module TelnetRules {
  import opened Wrappers
  import opened Cipher
  import opened Telnet
  import opened TelnetProgress

  // ---------- commands ----------

  /** Every command says what it is for, and nothing else. */
  lemma CommandSays(des: Des, e: Endpoint, c: Command, rand: Rand)
    ensures var e1 := Obey(des, e, c, rand);
      && (c.Type? ==> e1.tx.sent == e.tx.sent + [Data(c.data)])
      && (c.StopIn? ==> e1.tx.sent == e.tx.sent + [Sub(ENCRYPT_REQEND, [])])
      && (c.StartIn? ==>
            e1.tx.sent == if e.rx.mode.Some? then e.tx.sent + [Sub(ENCRYPT_REQSTART, e.rx.keyid)] else e.tx.sent)
      && (c.StopOut? ==>
            e1.tx.output == None
            && e1.tx.sent == if e.tx.output.Some? then e.tx.sent + [Sub(ENCRYPT_END, [])] else e.tx.sent)
      && (c.AutoOut? ==> e1 == e.(tx := e.tx.(auto := c.on)))
      && (c.AutoIn? ==> e1 == e.(rx := e.rx.(auto := c.on)))
      && (c.SetType? ==> e1.tx.mode == Some(c.m) && c.m in e1.tx.support && e1.tx.sent == e.tx.sent)
  {
    match c
    case Type(b) => ViewWrite(des, e.key, e.tx, Data(b));
    case StartIn => ViewWrite(des, e.key, e.tx, RequestStart(e.rx));
    case StopIn => ViewWrite(des, e.key, e.tx, REQUEST_END);
    case StopOut => ViewWrite(des, e.key, e.tx, Sub(ENCRYPT_END, []));
    case _ =>
  }

  /** What can be decrypted is offered once; a client that decrypts automatically first asks to start. */
  lemma OfferSays(des: Des, e: Endpoint)
    ensures var e1, types := SendSupport(des, e), (if CFB in e.rx.support then [1 as Bits] else [])
        + (if OFB in e.rx.support then [2] else []);
      && e1.tx.supportSent && e1.rx == e.rx
      && e1.tx.sent == if e.tx.supportSent then e.tx.sent
           else (if !e.tx.server && e.rx.auto then e.tx.sent + [Sub(ENCRYPT_REQSTART, e.rx.keyid)] else e.tx.sent)
                + [Sub(ENCRYPT_SUPPORT, types)]
  {
    if !e.tx.supportSent {
      var q, m := RequestStart(e.rx), SupportMsg(e.rx.support);
      if !e.tx.server && e.rx.auto {
        WriteTwo(des, e.key, e.tx, q, m);
        ViewWrite(des, e.key, e.tx, q);
        ViewWrite(des, e.key, NetWrite(des, e.key, e.tx, q), m);
      } else {
        assert [] + [m] == [m];
        WriteOne(des, e.key, e.tx, m);
        ViewWrite(des, e.key, e.tx, m);
      }
    }
  }

  // ---------- the sender ----------

  /** A request to stop is obeyed: END is the last message, and what follows is in clear. */
  lemma StopsWhenAsked(des: Des, k: Pair<Block>, tx: Tx, arg: seq<Bits>, rand: Rand)
    ensures var tx1 := TxMsg(des, k, tx, Sub(ENCRYPT_REQEND, arg), rand);
      tx1.output == None && tx1.sent == if tx.output.Some? then tx.sent + [Sub(ENCRYPT_END, [])] else tx.sent
  {
    ViewWrite(des, k, tx, Sub(ENCRYPT_END, []));
  }

  /** A vector that was refused: the type has failed, and nothing is started automatically any more. */
  lemma RefusalGivesUp(des: Des, k: Pair<Block>, tx: Tx, t: Mode, arg: seq<Bits>, rand: Rand)
    requires CanEncrypt(tx, t) && (arg == [] || arg[0] != FB64_IV_OK)
    ensures var tx1 := OnReply(des, k, tx, [TypeByte(t)] + arg, rand);
      && tx1.fb.Get(t).state == Failed && !tx1.auto && tx1.sent == tx.sent && tx1.out == tx.out && tx1.output == tx.output
      && (arg != [] && arg[0] == FB64_IV_BAD ==> tx1.fb.Get(t).temp == ZERO && tx1.fb.Get(t).stream.iv == ZERO)
  {
    var all := [TypeByte(t)] + arg;
    assert all[1..] == arg && TypeOf(all[0]) == Some(t);
  }

  /** A key id other than the one sent is taken over if it is zero, and otherwise dropped; the answer says which. */
  lemma OtherKeyid(des: Des, k: Pair<Block>, tx: Tx, keyid: seq<Bits>, rand: Rand)
    requires keyid != tx.keyid && keyid != [] && tx.mode.Some? && CanEncrypt(tx, tx.mode.value)
    ensures var tx1 := OnDecKeyid(des, k, tx, keyid, rand);
      && tx1.keyid == (if keyid == [0] then [0] else []) && tx1.output == tx.output
      && tx1.sent == tx.sent + [Sub(ENCRYPT_ENC_KEYID, tx1.keyid)]
      && (keyid == [0] ==> tx1.fb.Get(tx.mode.value).state.Progress? && !tx1.fb.Get(tx.mode.value).state.noKeyid)
      && (keyid != [0] ==> tx1.fb.Get(tx.mode.value).state == tx.fb.Get(tx.mode.value).state)
  {
    var t := tx.mode.value;
    var tx0 := FbKeyid(tx.(keyid := keyid), t);
    ViewWrite(des, k, tx0, Sub(ENCRYPT_ENC_KEYID, tx0.keyid));
    KeyidState(tx.(keyid := keyid), t);
  }

  lemma KeyidState(tx: Tx, t: Mode)
    ensures var tx0 := FbKeyid(tx, t);
      && tx0.keyid == (if tx.keyid == [0] then [0] else []) && tx0.output == tx.output && tx0.sent == tx.sent
      && ViewOf(tx0).state == (if tx.keyid != [0] then ViewOf(tx).state
                               else ViewOf(tx).state.Set(t, Begun(tx.fb.Get(t).state).(noKeyid := false)))
  {}

  /** With no type in use, or an empty key id, the key id is withdrawn, if there is anything to withdraw. */
  lemma NoKeyid(des: Des, k: Pair<Block>, tx: Tx, keyid: seq<Bits>, rand: Rand)
    requires keyid == [] || tx.mode.None? || !CanEncrypt(tx, tx.mode.value)
    ensures var usable := tx.mode.Some? && CanEncrypt(tx, tx.mode.value);
      var tx1 := OnDecKeyid(des, k, tx, keyid, rand);
      if (usable && tx.keyid != []) || (!usable && keyid != [])
      then tx1.keyid == [] && tx1.sent == tx.sent + [Sub(ENCRYPT_ENC_KEYID, [])] && tx1.output == tx.output
      else tx1 == tx
  {
    ViewWrite(des, k, tx.(keyid := []), Sub(ENCRYPT_ENC_KEYID, []));
  }

  // ---------- the receiver ----------

  /** A vector of the wrong length is refused, and the type has failed. */
  lemma BadVector(rx: Rx, t: Mode, iv: seq<Bits>)
    requires t in rx.support && |iv| != 8
    ensures var (rx1, replies) := OnIs(rx, [TypeByte(t), FB64_IV] + iv);
      && replies == [Sub(ENCRYPT_REPLY, [TypeByte(t), FB64_IV_BAD])] && !rx1.auto
      && rx1.fb.Get(t).state == Failed && rx1.mode == rx.mode && rx1.input == rx.input
      && rx1.fb.Get(t).stream == rx.fb.Get(t).stream
  {
    var arg := [TypeByte(t), FB64_IV] + iv;
    assert arg[0] == TypeByte(t) && arg[1..] == [FB64_IV] + iv && TypeOf(arg[0]) == Some(t);
  }

  /** A type that cannot be decrypted is not answered. */
  lemma UnknownVector(rx: Rx, t: Mode, arg: seq<Bits>)
    requires t !in rx.support
    ensures OnIs(rx, [TypeByte(t)] + arg) == (rx.(remote := rx.remote + {t}), [])
  {
    assert TypeOf(([TypeByte(t)] + arg)[0]) == Some(t);
  }

  /** START and END: with a type that can be decrypted it is, without one the peer is asked to stop. */
  lemma StartAndEnd(rx: Rx, arg: seq<Bits>)
    ensures var (rx1, replies) := RxMsg(rx, Sub(ENCRYPT_START, arg));
      if rx.mode.Some? && rx.mode.value in rx.support && rx.mode.value in rx.remote
      then rx1.input == rx.mode && replies == []
      else rx1.input == rx.input && replies == [Sub(ENCRYPT_REQEND, [])]
    ensures RxMsg(rx, Sub(ENCRYPT_END, arg)).0.input == None && RxMsg(rx, Sub(ENCRYPT_END, arg)).1 == []
  {}

  /** Of key ids only zero is accepted, and the answer says what was, unless it was the one already there. */
  lemma KeyidAnswer(rx: Rx, keyid: seq<Bits>)
    ensures var (rx1, replies) := OnEncKeyid(rx, keyid);
      var usable := rx.mode.Some? && CanDecrypt(rx, rx.mode.value);
      && (usable && keyid == [0] ==> rx1.keyid == [0])
      && (usable && keyid == [0] ==> var s := rx1.fb.Get(rx.mode.value).state; s.Progress? && !s.noKeyid)
      && (keyid != [0] && (usable || keyid != []) ==> rx1.keyid == [])
      && (!usable && keyid != [] ==> rx1.keyid == [] && replies == [Sub(ENCRYPT_DEC_KEYID, [])])
      && (!usable && keyid == [] ==> rx1 == rx && replies == [])
      && (usable ==> replies == if keyid == rx.keyid then [] else [Sub(ENCRYPT_DEC_KEYID, rx1.keyid)])
  {}
}
