/**
 A run that goes out of sync: a sender negotiates CFB64, sends a vector for
 OFB64, and then starts CFB64.
 */
module TelnetCrossing {
  import opened Wrappers
  import opened Cipher
  import opened Telnet
  import opened TelnetWire
  import opened TelnetSession
  import opened TelnetMoves
  import opened TelnetSystem
  import opened TelnetSingle
  import opened TelnetRuns

  // ---------- reaching states ----------

  /** The system in which `x` is the first or the second end. */
  function Mk(first: bool, x: Endpoint, y: Endpoint): Sys { if first then Sys(x, y) else Sys(y, x) }

  ghost predicate Leads(des: Des, key: Block, s: Sys, s2: Sys) {
    exists ps :: Runs(des, key, s, ps) && Final(des, key, s, ps) == s2
  }

  lemma LeadsSelf(des: Des, key: Block, s: Sys)
    ensures Leads(des, key, s, s)
  {
    assert Runs(des, key, s, []) && Final(des, key, s, []) == s;
  }

  lemma LeadsFirst(des: Des, key: Block, s: Sys, p: Step, s2: Sys)
    requires CanStep(des, key, s, p) && Leads(des, key, Next(des, key, s, p), s2)
    ensures Leads(des, key, s, s2)
  {
    var ps :| Runs(des, key, Next(des, key, s, p), ps) && Final(des, key, Next(des, key, s, p), ps) == s2;
    var all := [p] + ps;
    assert all[1..] == ps;
    assert Runs(des, key, s, all) && Final(des, key, s, all) == s2;
  }

  lemma {:induction false} RunsThen(des: Des, key: Block, s: Sys, ps: seq<Step>, qs: seq<Step>)
    requires Runs(des, key, s, ps) && Runs(des, key, Final(des, key, s, ps), qs)
    ensures Runs(des, key, s, ps + qs) && Final(des, key, s, ps + qs) == Final(des, key, Final(des, key, s, ps), qs)
    decreases |ps|
  {
    if ps == [] {
      assert ps + qs == qs;
    } else {
      assert (ps + qs)[0] == ps[0] && (ps + qs)[1..] == ps[1..] + qs;
      RunsThen(des, key, Next(des, key, s, ps[0]), ps[1..], qs);
    }
  }

  lemma LeadsThen(des: Des, key: Block, s: Sys, s2: Sys, s3: Sys)
    requires Leads(des, key, s, s2) && Leads(des, key, s2, s3)
    ensures Leads(des, key, s, s3)
  {
    var ps :| Runs(des, key, s, ps) && Final(des, key, s, ps) == s2;
    var qs :| Runs(des, key, s2, qs) && Final(des, key, s2, qs) == s3;
    RunsThen(des, key, s, ps, qs);
  }

  /** One end does something that starts no wrong type. */
  lemma Does(des: Des, key: Block, first: bool, x: Endpoint, y: Endpoint, a: Action, x1: Endpoint, y1: Endpoint)
    requires Inv(des, key, x, y, None, None) && key != ZERO && Enabled(des, key, x, y, a)
    requires Act(des, key, x, y, a) == (x1, y1) && !x1.tx.crossed
    ensures Leads(des, key, Mk(first, x, y), Mk(first, x1, y1)) && Inv(des, key, x1, y1, None, None)
  {
    MoveAct(des, key, x, y, a);
    var s, p := Mk(first, x, y), Step(first, a);
    assert Next(des, key, s, p) == Mk(first, x1, y1);
    LeadsSelf(des, key, Mk(first, x1, y1));
    LeadsFirst(des, key, s, p, Mk(first, x1, y1));
  }

  // ---------- reading a message in clear ----------

  function Sent(y: Endpoint, out: seq<Bits>): Endpoint { y.(tx := y.tx.(out := out)) }

  function Parsing(x: Endpoint, p: Parser): Endpoint { x.(rx := x.rx.(parser := p)) }

  lemma QuietByte(des: Des, x: Endpoint, w: Bits, rand: Rand)
    requires x.rx.input == None && ParseByte(x.rx.parser, w).1 == None
    ensures Receive(des, x, w, rand) == Parsing(x, ParseByte(x.rx.parser, w).0)
    ensures RxByte(des, x.key, x.rx, w).0.input == None
  {}

  lemma {:induction false} ReadQuiet(des: Des, key: Block, first: bool, x: Endpoint, y: Endpoint, bytes: seq<Bits>,
                                     rest: seq<Bits>, rand: Rand)
    requires Inv(des, key, x, y, None, None) && key != ZERO && !x.tx.crossed
    requires x.rx.input == None && y.tx.out == bytes + rest && Quiet(x.rx.parser, bytes).Some?
    ensures var x1, y1 := Parsing(x, Quiet(x.rx.parser, bytes).value), Sent(y, rest);
      Leads(des, key, Mk(first, x, y), Mk(first, x1, y1)) && Inv(des, key, x1, y1, None, None)
    decreases |bytes|
  {
    if bytes == [] {
      assert bytes + rest == rest;
      LeadsSelf(des, key, Mk(first, x, y));
    } else {
      var w := bytes[0];
      assert y.tx.out[0] == w && y.tx.out[1..] == bytes[1..] + rest;
      QuietByte(des, x, w, rand);
      var x1, y1 := Parsing(x, ParseByte(x.rx.parser, w).0), Popped(y);
      Does(des, key, first, x, y, Read(rand), x1, y1);
      ReadQuiet(des, key, first, x1, y1, bytes[1..], rest, rand);
      var p := Quiet(x.rx.parser, bytes).value;
      LeadsThen(des, key, Mk(first, x, y), Mk(first, x1, y1), Mk(first, Parsing(x, p), Sent(y, rest)));
    }
  }

  /** The endpoint after a message has been read and handled. */
  function Handled(des: Des, x: Endpoint, m: Msg, rand: Rand): Endpoint {
    var (rx, replies) := RxMsg(x.rx, m);
    Endpoint(x.key, TxMsg(des, x.key, NetWriteAll(des, x.key, x.tx, replies), m, rand), rx)
  }

  lemma LastByte(des: Des, x: Endpoint, p: Parser, w: Bits, m: Msg, rand: Rand)
    requires x.rx.input == None && x.rx.parser == Idle && ParseByte(p, w) == (Idle, Some(m))
    ensures Receive(des, Parsing(x, p), w, rand) == Handled(des, x, m, rand)
    ensures RxByte(des, x.key, Parsing(x, p).rx, w).0 == RxMsg(x.rx, m).0
  {
    assert Parsing(x, p).rx.(parser := Idle) == x.rx;
  }

  /** The one message under way is read. */
  lemma ReadMsg(des: Des, key: Block, first: bool, x: Endpoint, y: Endpoint, m: Msg, rand: Rand)
    requires Inv(des, key, x, y, None, None) && key != ZERO && !x.tx.crossed
    requires x.rx.input == None && x.rx.parser == Idle && y.tx.out == Encode(m)
    requires RxMsg(x.rx, m).0.input == None && !Handled(des, x, m, rand).tx.crossed
    ensures var x1, y1 := Handled(des, x, m, rand), Sent(y, []);
      Leads(des, key, Mk(first, x, y), Mk(first, x1, y1)) && Inv(des, key, x1, y1, None, None)
  {
    var a, w, p := SplitLast(m);
    ReadQuiet(des, key, first, x, y, a, [w], rand);
    ReadLast(des, key, first, x, Sent(y, [w]), p, w, m, rand);
    LeadsThen(des, key, Mk(first, x, y), Mk(first, Parsing(x, p), Sent(y, [w])),
              Mk(first, Handled(des, x, m, rand), Sent(y, [])));
  }

  lemma SplitLast(m: Msg) returns (a: seq<Bits>, w: Bits, p: Parser)
    ensures Encode(m) == a + [w] && Quiet(Idle, a) == Some(p) && ParseByte(p, w) == (Idle, Some(m))
  {
    ParsesBack(m);
    var n := |Encode(m)| - 1;
    a, w := Encode(m)[..n], Encode(m)[n];
    p := Quiet(Idle, a).value;
  }

  lemma ReadLast(des: Des, key: Block, first: bool, x: Endpoint, y: Endpoint, p: Parser, w: Bits, m: Msg, rand: Rand)
    requires Inv(des, key, Parsing(x, p), y, None, None) && key != ZERO && y.tx.out == [w]
    requires x.rx.input == None && x.rx.parser == Idle && ParseByte(p, w) == (Idle, Some(m))
    requires RxMsg(x.rx, m).0.input == None && !Handled(des, x, m, rand).tx.crossed
    ensures var x1, y1 := Handled(des, x, m, rand), Sent(y, []);
      Leads(des, key, Mk(first, Parsing(x, p), y), Mk(first, x1, y1)) && Inv(des, key, x1, y1, None, None)
  {
    LastByte(des, x, p, w, m, rand);
    assert [w][1..] == [];
    Does(des, key, first, Parsing(x, p), y, Read(rand), Handled(des, x, m, rand), Sent(y, []));
  }

  // ---------- the stages of the run ----------

  /** Nothing is encrypted or half read, and nothing starts by itself. */
  predicate Plain(e: Endpoint, key: Block) {
    && e.key == Pair(key, key) && e.rx.parser == Idle && e.rx.input == None && e.tx.output == None
    && !e.tx.crossed && !e.tx.auto && !e.rx.auto
  }

  ghost predicate Ground(des: Des, key: Block, x: Endpoint, y: Endpoint) {
    && Inv(des, key, x, y, None, None) && key != ZERO && Plain(x, key) && Plain(y, key)
    && CFB in x.tx.support && OFB in x.tx.support && CFB in y.rx.support && OFB in y.rx.support
    && x.tx.fb.ofb.state == Failed
  }

  /** The peer's SUPPORT is under way. */
  ghost predicate Offered(des: Des, key: Block, x: Endpoint, y: Endpoint) {
    && Ground(des, key, x, y) && x.tx.out == [] && y.tx.out == Encode(SupportMsg(y.rx.support))
    && x.tx.fb.cfb.state == Failed && x.tx.keyid == [] && y.rx.keyid == []
  }

  /** A vector for CFB64 is under way. */
  ghost predicate VectorOut(des: Des, key: Block, x: Endpoint, y: Endpoint, iv: Block) {
    && Ground(des, key, x, y) && x.tx.out == Encode(IsMsg(CFB, iv)) && y.tx.out == []
    && x.tx.fb.cfb.state == Progress(false, true, true) && x.tx.remote == {CFB, OFB} && y.rx.keyid == []
  }

  /** Its answer is. */
  ghost predicate Answered(des: Des, key: Block, x: Endpoint, y: Endpoint) {
    && Ground(des, key, x, y) && x.tx.out == [] && y.tx.out == Encode(ReplyMsg(CFB, FB64_IV_OK))
    && x.tx.fb.cfb.state == Progress(false, true, true) && x.tx.remote == {CFB, OFB}
    && y.rx.keyid == [] && y.rx.mode == Some(CFB) && CFB in y.rx.remote
  }

  /** The key id is offered. */
  ghost predicate KeyidOut(des: Des, key: Block, x: Endpoint, y: Endpoint) {
    && Ground(des, key, x, y) && x.tx.out == Encode(Sub(ENCRYPT_ENC_KEYID, [0])) && y.tx.out == []
    && x.tx.fb.cfb.state == Progress(false, false, true) && x.tx.remote == {CFB, OFB}
    && x.tx.keyid == [0] && x.tx.mode == Some(CFB)
    && y.rx.keyid == [] && y.rx.mode == Some(CFB) && CFB in y.rx.remote
  }

  /** It is accepted. */
  ghost predicate KeyidBack(des: Des, key: Block, x: Endpoint, y: Endpoint) {
    && Ground(des, key, x, y) && x.tx.out == [] && y.tx.out == Encode(Sub(ENCRYPT_DEC_KEYID, [0]))
    && x.tx.fb.cfb.state == Progress(false, false, true) && x.tx.remote == {CFB, OFB}
    && x.tx.keyid == [0] && x.tx.mode == Some(CFB)
  }

  /** CFB64 is negotiated. */
  ghost predicate Negotiated(des: Des, key: Block, x: Endpoint, y: Endpoint) {
    Ground(des, key, x, y) && x.tx.fb.cfb.state == SUCCESS && x.tx.remote == {CFB, OFB}
  }

  /** And then a vector for OFB64 was sent, and the type set back. */
  ghost predicate Poised(des: Des, key: Block, x: Endpoint, y: Endpoint) {
    && Inv(des, key, x, y, None, None) && x.tx.fb.cfb.state == SUCCESS && x.tx.remote == {CFB, OFB}
    && CFB in x.tx.support && x.tx.lastIv == Some(OFB) && x.tx.mode == Some(CFB)
  }

  // ---------- from stage to stage ----------

  lemma ReadOffer(des: Des, key: Block, first: bool, x: Endpoint, y: Endpoint, rand: Rand, iv: Block)
    requires Offered(des, key, x, y) && rand(CFB) == Some(iv)
    ensures var x1, y1 := Handled(des, x, SupportMsg(y.rx.support), rand), Sent(y, []);
      Leads(des, key, Mk(first, x, y), Mk(first, x1, y1)) && VectorOut(des, key, x1, y1, iv)
  {
    var m := SupportMsg(y.rx.support);
    OfferTaken(des, x, y.rx.support, rand, iv);
    ReadMsg(des, key, first, x, y, m, rand);
  }

  lemma OfferTaken(des: Des, x: Endpoint, dec: set<Mode>, rand: Rand, iv: Block)
    requires CFB in x.tx.support && OFB in x.tx.support && CFB in dec && OFB in dec
    requires x.tx.fb.cfb.state == Failed && x.key.cfb != ZERO && rand(CFB) == Some(iv) && x.tx.output == None && x.tx.out == []
    ensures var x1 := Handled(des, x, SupportMsg(dec), rand);
      && x1.key == x.key && x1.rx == x.rx.(seen := x.rx.seen + [SupportMsg(dec)])
      && x1.tx.out == Encode(IsMsg(CFB, iv)) && x1.tx.fb.cfb.state == Progress(false, true, true)
      && x1.tx.fb.ofb == x.tx.fb.ofb && x1.tx.remote == {CFB, OFB} && x1.tx.mode == Some(CFB) && x1.tx.keyid == x.tx.keyid
      && x1.tx.support == x.tx.support && x1.tx.output == None && x1.tx.crossed == x.tx.crossed && x1.tx.auto == x.tx.auto
  {
    var tx0 := x.tx.(remote := {CFB, OFB});
    FirstVector(des, x.key, tx0, rand, iv);
    HandledOffer(des, x, dec, rand);
    OfferStarts(des, x.key, x.tx, tx0, dec, rand, iv);
  }

  lemma HandledOffer(des: Des, x: Endpoint, dec: set<Mode>, rand: Rand)
    ensures var m := SupportMsg(dec);
      Handled(des, x, m, rand) == Endpoint(x.key, OnSupport(des, x.key, x.tx, m.arg, rand), x.rx.(seen := x.rx.seen + [m]))
  {}

  lemma OfferStarts(des: Des, k: Pair<Block>, tx: Tx, tx0: Tx, dec: set<Mode>, rand: Rand, iv: Block)
    requires CFB in tx.support && OFB in tx.support && CFB in dec && OFB in dec && tx0 == tx.(remote := {CFB, OFB})
    requires FbStart(des, k, tx0, CFB, rand) == (SendIv(des, k, tx0, CFB, iv), Progress(false, true, true))
    ensures OnSupport(des, k, tx, SupportMsg(dec).arg, rand) == SendIv(des, k, tx0, CFB, iv).(mode := Some(CFB))
  {
    BothUsable(tx, dec);
    assert (set t | t in [CFB, OFB]) == {CFB, OFB};
  }

  lemma BothUsable(tx: Tx, dec: set<Mode>)
    requires CFB in tx.support && OFB in tx.support && CFB in dec && OFB in dec
    ensures Usable(tx, SupportMsg(dec).arg) == [CFB, OFB]
  {
    var types := SupportMsg(dec).arg;
    assert types == [TypeByte(CFB), TypeByte(OFB)] && types[1..] == [TypeByte(OFB)];
    UsableOne(tx, OFB);
  }

  lemma FirstVector(des: Des, k: Pair<Block>, tx: Tx, rand: Rand, iv: Block)
    requires tx.fb.cfb.state == Failed && k.cfb != ZERO && rand(CFB) == Some(iv) && tx.output == None && tx.out == []
    ensures var tx1 := SendIv(des, k, tx, CFB, iv);
      && FbStart(des, k, tx, CFB, rand) == (tx1, Progress(false, true, true))
      && tx1.out == Encode(IsMsg(CFB, iv)) && tx1.fb.cfb.state == Progress(false, true, true) && tx1.fb.ofb == tx.fb.ofb
      && tx1 == tx.(out := tx1.out, fb := tx1.fb, sent := tx1.sent, log := tx1.log, lastIv := tx1.lastIv)
  {
    assert [] + Encode(IsMsg(CFB, iv)) == Encode(IsMsg(CFB, iv));
  }

  lemma ReadVector(des: Des, key: Block, first: bool, x: Endpoint, y: Endpoint, rand: Rand, iv: Block)
    requires VectorOut(des, key, x, y, iv)
    ensures var x1, y1 := Sent(x, []), Handled(des, y, IsMsg(CFB, iv), rand);
      Leads(des, key, Mk(first, x, y), Mk(first, x1, y1)) && Answered(des, key, x1, y1)
  {
    VectorTaken(des, y, rand, iv);
    ReadMsg(des, key, !first, y, x, IsMsg(CFB, iv), rand);
  }

  /** The endpoint has written one more message, in clear, and is otherwise the same outwards. */
  predicate Wrote(a: Endpoint, b: Endpoint, m: Msg) {
    b.key == a.key && b.tx == a.tx.(out := a.tx.out + Encode(m), sent := a.tx.sent + [m])
  }

  lemma VectorTaken(des: Des, y: Endpoint, rand: Rand, iv: Block)
    requires CFB in y.rx.support && y.tx.output == None
    ensures var y1 := Handled(des, y, IsMsg(CFB, iv), rand);
      && Wrote(y, y1, ReplyMsg(CFB, FB64_IV_OK))
      && y1.rx.mode == Some(CFB) && CFB in y1.rx.remote && y1.rx.keyid == y.rx.keyid && y1.rx.support == y.rx.support
      && y1.rx.parser == y.rx.parser && y1.rx.input == y.rx.input && y1.rx.auto == y.rx.auto
  {
    var m := IsMsg(CFB, iv);
    assert m.arg[1..] == [FB64_IV] + iv && m.arg[1..][1..] == iv;
    WriteOne(des, y.key, y.tx, ReplyMsg(CFB, FB64_IV_OK));
  }

  lemma ReadAnswer(des: Des, key: Block, first: bool, x: Endpoint, y: Endpoint, rand: Rand)
    requires Answered(des, key, x, y)
    ensures var x1, y1 := Handled(des, x, ReplyMsg(CFB, FB64_IV_OK), rand), Sent(y, []);
      Leads(des, key, Mk(first, x, y), Mk(first, x1, y1)) && KeyidOut(des, key, x1, y1)
  {
    AnswerTaken(des, x, rand);
    ReadMsg(des, key, first, x, y, ReplyMsg(CFB, FB64_IV_OK), rand);
  }

  lemma AnswerTaken(des: Des, x: Endpoint, rand: Rand)
    requires CFB in x.tx.support && CFB in x.tx.remote && x.tx.output == None && !x.tx.auto && x.tx.out == []
    requires x.tx.fb.cfb.state == Progress(false, true, true)
    ensures var x1 := Handled(des, x, ReplyMsg(CFB, FB64_IV_OK), rand);
      && x1.key == x.key && x1.rx == x.rx.(seen := x.rx.seen + [ReplyMsg(CFB, FB64_IV_OK)])
      && x1.tx.out == Encode(Sub(ENCRYPT_ENC_KEYID, [0])) && x1.tx.fb.cfb.state == Progress(false, false, true)
      && x1.tx.fb.ofb == x.tx.fb.ofb && x1.tx.remote == x.tx.remote && x1.tx.mode == Some(CFB) && x1.tx.keyid == [0]
      && x1.tx.support == x.tx.support && x1.tx.output == None && x1.tx.crossed == x.tx.crossed && !x1.tx.auto
  {
    var m := ReplyMsg(CFB, FB64_IV_OK);
    assert m.arg[1..] == [FB64_IV_OK];
    assert NetWriteAll(des, x.key, x.tx, []) == x.tx;
    var tx0 := AcceptIvOk(x.tx, CFB);
    assert tx0.fb.cfb.state == Progress(false, false, true);
    var tx1 := SendEncKeyid(des, x.key, tx0, [0]);
    assert tx1.out == Encode(Sub(ENCRYPT_ENC_KEYID, [0]));
    assert OnReply(des, x.key, x.tx, m.arg, rand) == tx1.(mode := Some(CFB));
  }

  lemma ReadKeyid(des: Des, key: Block, first: bool, x: Endpoint, y: Endpoint, rand: Rand)
    requires KeyidOut(des, key, x, y)
    ensures var x1, y1 := Sent(x, []), Handled(des, y, Sub(ENCRYPT_ENC_KEYID, [0]), rand);
      Leads(des, key, Mk(first, x, y), Mk(first, x1, y1)) && KeyidBack(des, key, x1, y1)
  {
    KeyidTaken(des, y, rand);
    ReadMsg(des, key, !first, y, x, Sub(ENCRYPT_ENC_KEYID, [0]), rand);
  }

  lemma KeyidTaken(des: Des, y: Endpoint, rand: Rand)
    requires CFB in y.rx.support && CFB in y.rx.remote && y.rx.mode == Some(CFB) && y.rx.keyid == [] && y.tx.output == None
    ensures var y1 := Handled(des, y, Sub(ENCRYPT_ENC_KEYID, [0]), rand);
      && Wrote(y, y1, Sub(ENCRYPT_DEC_KEYID, [0])) && y1.rx.support == y.rx.support
      && y1.rx.parser == y.rx.parser && y1.rx.input == y.rx.input && y1.rx.auto == y.rx.auto
  {
    WriteOne(des, y.key, y.tx, Sub(ENCRYPT_DEC_KEYID, [0]));
  }

  lemma ReadAcceptance(des: Des, key: Block, first: bool, x: Endpoint, y: Endpoint, rand: Rand)
    requires KeyidBack(des, key, x, y)
    ensures var x1, y1 := Handled(des, x, Sub(ENCRYPT_DEC_KEYID, [0]), rand), Sent(y, []);
      Leads(des, key, Mk(first, x, y), Mk(first, x1, y1)) && Negotiated(des, key, x1, y1)
  {
    AcceptanceTaken(des, x, rand);
    ReadMsg(des, key, first, x, y, Sub(ENCRYPT_DEC_KEYID, [0]), rand);
  }

  lemma AcceptanceTaken(des: Des, x: Endpoint, rand: Rand)
    requires CFB in x.tx.support && CFB in x.tx.remote && x.tx.mode == Some(CFB) && x.tx.keyid == [0] && !x.tx.auto
    requires x.tx.fb.cfb.state == Progress(false, false, true)
    ensures var m := Sub(ENCRYPT_DEC_KEYID, [0]); var x1 := Handled(des, x, m, rand);
      && x1.key == x.key && x1.rx == x.rx.(seen := x.rx.seen + [m])
      && x1.tx.fb.cfb.state == SUCCESS && x1.tx.fb.ofb == x.tx.fb.ofb && x1.tx.remote == x.tx.remote
      && x1.tx.support == x.tx.support && x1.tx.output == x.tx.output && x1.tx.crossed == x.tx.crossed && !x1.tx.auto
  {
    assert NetWriteAll(des, x.key, x.tx, []) == x.tx;
    assert OnDecKeyid(des, x.key, x.tx, [0], rand) == FbKeyid(x.tx, CFB);
  }

  /** From CFB64 negotiated to a vector for OFB64 sent and the type set back. */
  lemma SendSecondVector(des: Des, key: Block, first: bool, x: Endpoint, y: Endpoint, rand: Rand,
                         iv: Block) returns (x3: Endpoint)
    requires Negotiated(des, key, x, y) && rand(OFB) == Some(iv)
    ensures Leads(des, key, Mk(first, x, y), Mk(first, x3, y)) && Poised(des, key, x3, y)
  {
    var x1 := x.(tx := x.tx.(mode := Some(OFB), support := x.tx.support + {OFB}));
    Does(des, key, first, x, y, Order(SetType(OFB), rand), x1, y);
    var x2 := x1.(tx := SendIv(des, x1.key, x1.tx, OFB, iv));
    SecondVector(des, x1, rand, iv);
    Does(des, key, first, x1, y, Order(StartOut, rand), x2, y);
    x3 := x2.(tx := x2.tx.(mode := Some(CFB), support := x2.tx.support + {CFB}));
    Does(des, key, first, x2, y, Order(SetType(CFB), rand), x3, y);
    LeadsThen(des, key, Mk(first, x, y), Mk(first, x1, y), Mk(first, x2, y));
    LeadsThen(des, key, Mk(first, x, y), Mk(first, x2, y), Mk(first, x3, y));
  }

  lemma SecondVector(des: Des, x: Endpoint, rand: Rand, iv: Block)
    requires OFB in x.tx.support && OFB in x.tx.remote && x.tx.mode == Some(OFB) && x.tx.output == None
    requires x.tx.fb.ofb.state == Failed && x.key.ofb != ZERO && rand(OFB) == Some(iv)
    ensures var tx := SendIv(des, x.key, x.tx, OFB, iv);
      && Obey(des, x, StartOut, rand) == x.(tx := tx)
      && tx.fb.cfb == x.tx.fb.cfb && tx.lastIv == Some(OFB) && tx.remote == x.tx.remote && tx.support == x.tx.support
      && tx.crossed == x.tx.crossed
  {
    var tx := SendIv(des, x.key, x.tx, OFB, iv);
    assert tx.fb.ofb.state == Progress(false, true, true);
    assert FbStart(des, x.key, x.tx, OFB, rand) == (tx, tx.fb.ofb.state);
  }

  /** The last step: CFB64 is started, and the two ends part. */
  lemma StartsWrongType(des: Des, key: Block, first: bool, x: Endpoint, y: Endpoint, rand: Rand) returns (x1: Endpoint)
    requires Poised(des, key, x, y)
    ensures Leads(des, key, Mk(first, x, y), Mk(first, x1, y)) && !InSync(des, key, x1, y)
  {
    x1 := x.(tx := Switch(des, x.key, x.tx, CFB));
    assert Obey(des, x, StartOut, rand) == x1;
    StartKeepsSyncIff(des, key, x, y, CFB);
    LeadsSelf(des, key, Mk(first, x1, y));
    LeadsFirst(des, key, Mk(first, x, y), Step(first, Order(StartOut, rand)), Mk(first, x1, y));
  }

  // ---------- from the start ----------

  lemma KeyInstalled(des: Des, e: Endpoint, key: Block, rand: Rand)
    requires !e.tx.fb.cfb.needStart && !e.tx.fb.ofb.needStart
    ensures var e1 := SessionKey(des, e, key, rand);
      && e1.key == Pair(key, key) && e1.tx == e.tx.(fb := e1.tx.fb) && e1.rx == e.rx.(fb := e1.rx.fb)
      && e1.tx.fb.cfb.state == e.tx.fb.cfb.state && e1.tx.fb.ofb.state == e.tx.fb.ofb.state
  {}

  /** Both types enabled and the key installed at the sending end. */
  lemma PrepareSender(des: Des, key: Block, first: bool, x: Endpoint, y: Endpoint, rand: Rand) returns (x3: Endpoint)
    requires Inv(des, key, x, y, None, None) && key != ZERO
    requires exists s, enc, dec :: x == Init(s, enc, dec)
    ensures Leads(des, key, Mk(first, x, y), Mk(first, x3, y)) && Inv(des, key, x3, y, None, None)
    ensures Plain(x3, key) && CFB in x3.tx.support && OFB in x3.tx.support && x3.tx.keyid == [] && x3.tx.out == []
    ensures x3.tx.fb.cfb.state == Failed && x3.tx.fb.ofb.state == Failed
  {
    var x1 := x.(tx := x.tx.(mode := Some(CFB), support := x.tx.support + {CFB}));
    Does(des, key, first, x, y, Order(SetType(CFB), rand), x1, y);
    var x2 := x1.(tx := x1.tx.(mode := Some(OFB), support := x1.tx.support + {OFB}));
    Does(des, key, first, x1, y, Order(SetType(OFB), rand), x2, y);
    LeadsThen(des, key, Mk(first, x, y), Mk(first, x1, y), Mk(first, x2, y));
    x3 := SessionKey(des, x2, key, rand);
    KeyInstalled(des, x2, key, rand);
    Does(des, key, first, x2, y, Install(rand), x3, y);
    LeadsThen(des, key, Mk(first, x, y), Mk(first, x2, y), Mk(first, x3, y));
  }

  /** The key installed at the peer, and its SUPPORT sent. */
  lemma Prepare(des: Des, key: Block, first: bool, x: Endpoint, y: Endpoint, rand: Rand) returns (x3: Endpoint, y2: Endpoint)
    requires Inv(des, key, x, y, None, None) && key != ZERO
    requires exists s, enc, dec :: x == Init(s, enc, dec)
    requires exists s, enc, dec :: y == Init(s, enc, dec) && CFB in dec && OFB in dec
    ensures Leads(des, key, Mk(first, x, y), Mk(first, x3, y2)) && Offered(des, key, x3, y2)
  {
    x3 := PrepareSender(des, key, first, x, y, rand);
    var y1 := SessionKey(des, y, key, rand);
    KeyInstalled(des, y, key, rand);
    Does(des, key, !first, y, x3, Install(rand), y1, x3);
    LeadsThen(des, key, Mk(first, x, y), Mk(first, x3, y), Mk(first, x3, y1));
    y2 := SendOffer(des, key, first, x3, y1, rand);
    LeadsThen(des, key, Mk(first, x, y), Mk(first, x3, y1), Mk(first, x3, y2));
  }

  lemma SendOffer(des: Des, key: Block, first: bool, x: Endpoint, y: Endpoint, rand: Rand) returns (y2: Endpoint)
    requires Ground(des, key, x, y) && x.tx.out == [] && y.tx.out == [] && !y.tx.supportSent
    requires x.tx.fb.cfb.state == Failed && x.tx.keyid == [] && y.rx.keyid == []
    ensures Leads(des, key, Mk(first, x, y), Mk(first, x, y2)) && Offered(des, key, x, y2)
  {
    y2 := SendSupport(des, y);
    OfferSent(des, y);
    Does(des, key, !first, y, x, Order(Support, rand), y2, x);
  }

  lemma OfferSent(des: Des, y: Endpoint)
    requires y.tx.output == None && y.tx.out == [] && !y.tx.supportSent && !y.rx.auto
    ensures var y1 := SendSupport(des, y); var m := SupportMsg(y.rx.support);
      y1 == y.(tx := y.tx.(out := Encode(m), sent := y.tx.sent + [m], supportSent := true))
  {
    var m := SupportMsg(y.rx.support);
    assert [] + [m] == [m] && [] + Encode(m) == Encode(m);
    WriteOne(des, y.key, y.tx, m);
  }

  /** Two fresh endpoints, one of which can decrypt both types, can be driven out of sync. */
  lemma GoesOutOfSync(des: Des, key: Block, first: bool, x: Endpoint, y: Endpoint) returns (x9: Endpoint, y9: Endpoint)
    requires Inv(des, key, x, y, None, None) && key != ZERO
    requires exists s, enc, dec :: x == Init(s, enc, dec)
    requires exists s, enc, dec :: y == Init(s, enc, dec) && CFB in dec && OFB in dec
    ensures Leads(des, key, Mk(first, x, y), Mk(first, x9, y9)) && !InSync(des, key, x9, y9)
  {
    var iv := ZERO;
    var rand: Rand := (m: Mode) => Some(iv);
    var s0 := Mk(first, x, y);
    var x1, y1 := Prepare(des, key, first, x, y, rand);
    ReadOffer(des, key, first, x1, y1, rand, iv);
    var x2, y2 := Handled(des, x1, SupportMsg(y1.rx.support), rand), Sent(y1, []);
    LeadsThen(des, key, s0, Mk(first, x1, y1), Mk(first, x2, y2));
    ReadVector(des, key, first, x2, y2, rand, iv);
    var x3, y3 := Sent(x2, []), Handled(des, y2, IsMsg(CFB, iv), rand);
    LeadsThen(des, key, s0, Mk(first, x2, y2), Mk(first, x3, y3));
    ReadAnswer(des, key, first, x3, y3, rand);
    var x4, y4 := Handled(des, x3, ReplyMsg(CFB, FB64_IV_OK), rand), Sent(y3, []);
    LeadsThen(des, key, s0, Mk(first, x3, y3), Mk(first, x4, y4));
    x9, y9 := Finish(des, key, first, x4, y4, rand, iv);
    LeadsThen(des, key, s0, Mk(first, x4, y4), Mk(first, x9, y9));
  }

  lemma Finish(des: Des, key: Block, first: bool, x: Endpoint, y: Endpoint, rand: Rand,
               iv: Block) returns (x9: Endpoint, y9: Endpoint)
    requires KeyidOut(des, key, x, y) && rand(OFB) == Some(iv)
    ensures Leads(des, key, Mk(first, x, y), Mk(first, x9, y9)) && !InSync(des, key, x9, y9)
  {
    var s0 := Mk(first, x, y);
    ReadKeyid(des, key, first, x, y, rand);
    var x1, y1 := Sent(x, []), Handled(des, y, Sub(ENCRYPT_ENC_KEYID, [0]), rand);
    ReadAcceptance(des, key, first, x1, y1, rand);
    var x2, y2 := Handled(des, x1, Sub(ENCRYPT_DEC_KEYID, [0]), rand), Sent(y1, []);
    LeadsThen(des, key, s0, Mk(first, x1, y1), Mk(first, x2, y2));
    var x3 := SendSecondVector(des, key, first, x2, y2, rand, iv);
    LeadsThen(des, key, s0, Mk(first, x2, y2), Mk(first, x3, y2));
    x9 := StartsWrongType(des, key, first, x3, y2, rand);
    y9 := y2;
    LeadsThen(des, key, s0, Mk(first, x3, y2), Mk(first, x9, y9));
  }

  /** A run from the start after which one direction is out of sync. */
  lemma OutOfSyncRun(des: Des, key: Block, enc: (set<Mode>, set<Mode>), dec: (set<Mode>, set<Mode>), first: bool)
    returns (ps: seq<Step>)
    requires key != ZERO && var d := if first then dec.1 else dec.0; CFB in d && OFB in d
    ensures Runs(des, key, Start(enc, dec), ps)
    ensures var s := Final(des, key, Start(enc, dec), ps);
      if first then !InSync(des, key, s.a, s.b) else !InSync(des, key, s.b, s.a)
  {
    var s := Start(enc, dec);
    StartInv(des, key, enc, dec);
    var x, y := if first then s.a else s.b, if first then s.b else s.a;
    assert Mk(first, x, y) == s;
    var x1, y1 := GoesOutOfSync(des, key, first, x, y);
    ps :| Runs(des, key, s, ps) && Final(des, key, s, ps) == Mk(first, x1, y1);
  }

  /**
   Exactly when two honest endpoints cannot be driven out of sync, whatever
   their users command: when neither can decrypt more than one type.
   */
  lemma AlwaysInSyncIff(des: Des, key: Block, enc: (set<Mode>, set<Mode>), dec: (set<Mode>, set<Mode>))
    requires key != ZERO
    ensures (forall ps :: Runs(des, key, Start(enc, dec), ps) ==> BothInSync(des, key, Final(des, key, Start(enc, dec), ps)))
       <==> !(CFB in dec.0 && OFB in dec.0) && !(CFB in dec.1 && OFB in dec.1)
  {
    if CFB in dec.1 && OFB in dec.1 {
      var ps := OutOfSyncRun(des, key, enc, dec, true);
      assert !BothInSync(des, key, Final(des, key, Start(enc, dec), ps));
    } else if CFB in dec.0 && OFB in dec.0 {
      var ps := OutOfSyncRun(des, key, enc, dec, false);
      assert !BothInSync(des, key, Final(des, key, Start(enc, dec), ps));
    } else {
      forall ps | Runs(des, key, Start(enc, dec), ps) ensures BothInSync(des, key, Final(des, key, Start(enc, dec), ps)) {
        SessionStaysInSync(des, key, enc, dec, ps);
      }
    }
  }
}
