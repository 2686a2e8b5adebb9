/**
 Runs of two honest endpoints: the two directions stay in sync, unless a cipher
 is started whose vector is not the last one sent.
 */
module TelnetRuns {
  import opened Wrappers
  import opened Cipher
  import opened Telnet
  import opened TelnetWire
  import opened TelnetSession
  import opened TelnetMoves
  import opened TelnetSystem
  import opened TelnetSingle

  datatype Sys = Sys(a: Endpoint, b: Endpoint)

  /** A step: which end acts, and what it does. */
  datatype Step = Step(first: bool, action: Action)

  predicate CanStep(des: Des, key: Block, s: Sys, p: Step) {
    if p.first then Enabled(des, key, s.a, s.b, p.action) else Enabled(des, key, s.b, s.a, p.action)
  }

  function Next(des: Des, key: Block, s: Sys, p: Step): Sys
    requires CanStep(des, key, s, p)
  {
    if p.first then var (a, b) := Act(des, key, s.a, s.b, p.action); Sys(a, b)
    else var (b, a) := Act(des, key, s.b, s.a, p.action); Sys(a, b)
  }

  /** Every step of `ps` can be taken in its turn. */
  predicate Runs(des: Des, key: Block, s: Sys, ps: seq<Step>)
    decreases |ps|
  {
    ps == [] || (CanStep(des, key, s, ps[0]) && Runs(des, key, Next(des, key, s, ps[0]), ps[1..]))
  }

  function Final(des: Des, key: Block, s: Sys, ps: seq<Step>): Sys
    requires Runs(des, key, s, ps)
    decreases |ps|
  {
    if ps == [] then s else Final(des, key, Next(des, key, s, ps[0]), ps[1..])
  }

  /** Neither end has started a type other than the one whose vector it sent last. */
  predicate Uncrossed(s: Sys) { !s.a.tx.crossed && !s.b.tx.crossed }

  /** And so it stays in every state of the run. */
  predicate NeverCrosses(des: Des, key: Block, s: Sys, ps: seq<Step>)
    requires Runs(des, key, s, ps)
    decreases |ps|
  {
    Uncrossed(s) && (ps == [] || NeverCrosses(des, key, Next(des, key, s, ps[0]), ps[1..]))
  }

  ghost predicate SysInv(des: Des, key: Block, s: Sys) { Inv(des, key, s.a, s.b, None, None) }

  lemma StepKeepsInv(des: Des, key: Block, s: Sys, p: Step)
    requires SysInv(des, key, s) && key != ZERO && CanStep(des, key, s, p) && Uncrossed(Next(des, key, s, p))
    ensures SysInv(des, key, Next(des, key, s, p))
  {
    if p.first {
      MoveAct(des, key, s.a, s.b, p.action);
    } else {
      MoveAct(des, key, s.b, s.a, p.action);
    }
  }

  lemma {:induction false} RunKeepsInv(des: Des, key: Block, s: Sys, ps: seq<Step>)
    requires SysInv(des, key, s) && key != ZERO && Runs(des, key, s, ps) && NeverCrosses(des, key, s, ps)
    ensures SysInv(des, key, Final(des, key, s, ps))
    decreases |ps|
  {
    if ps != [] {
      StepKeepsInv(des, key, s, ps[0]);
      RunKeepsInv(des, key, Next(des, key, s, ps[0]), ps[1..]);
    }
  }

  function Start(enc: (set<Mode>, set<Mode>), dec: (set<Mode>, set<Mode>)): Sys {
    Sys(Init(false, enc.0, dec.0), Init(true, enc.1, dec.1))
  }

  lemma StartInv(des: Des, key: Block, enc: (set<Mode>, set<Mode>), dec: (set<Mode>, set<Mode>))
    ensures SysInv(des, key, Start(enc, dec))
  {}

  /**
   The receiver, once it has read the bytes in flight, has seen exactly the
   messages sent, decrypts with the type the sender encrypts with, and holds the
   sender's registers for it.
   */
  predicate InSync(des: Des, key: Block, x: Endpoint, y: Endpoint) {
    var v := Drain(des, key, y.rx, x.tx.out);
    && y.rx.seen <= x.tx.sent
    && v.seen == x.tx.sent
    && v.parser == Idle
    && v.input == x.tx.output
    && (v.input.Some? ==> v.fb.Get(v.input.value).stream == x.tx.fb.Get(v.input.value).stream)
  }

  lemma {:induction false} DrainNorm(des: Des, key: Block, rx: Rx, bytes: seq<Bits>)
    requires RxInv(rx)
    ensures Drain(des, key, Norm(rx), bytes) == Norm(Drain(des, key, rx, bytes))
    decreases |bytes|
  {
    if bytes != [] {
      RxInvByte(des, Pair(key, key), rx, bytes[0]);
      NormByte(des, Pair(key, key), rx, bytes[0]);
      DrainNorm(des, key, RxByte(des, Pair(key, key), rx, bytes[0]).0, bytes[1..]);
    }
  }

  lemma AgreeInSync(tx: Tx, v: Rx)
    requires Agree(tx, Norm(v))
    ensures v.seen == tx.sent && v.parser == Idle && v.input == tx.output
    ensures v.input.Some? ==> v.fb.Get(v.input.value).stream == tx.fb.Get(v.input.value).stream
  {
    if v.input.Some? {
      match v.input.value
      case CFB => assert AgreeType(tx, Norm(v), CFB);
      case OFB => assert AgreeType(tx, Norm(v), OFB);
    }
  }

  lemma DirInSync(des: Des, key: Block, x: Endpoint, y: Endpoint)
    requires Dir(des, key, x, y, None)
    ensures InSync(des, key, x, y)
  {
    DrainNorm(des, key, y.rx, x.tx.out);
    AgreeInSync(x.tx, Drain(des, key, y.rx, x.tx.out));
  }

  ghost predicate BothInSync(des: Des, key: Block, s: Sys) { InSync(des, key, s.a, s.b) && InSync(des, key, s.b, s.a) }

  lemma InvInSync(des: Des, key: Block, s: Sys)
    requires SysInv(des, key, s)
    ensures BothInSync(des, key, s)
  {
    DirInSync(des, key, s.a, s.b);
    DirInSync(des, key, s.b, s.a);
  }

  /**
   START names no type, so the receiver takes the type of the last vector it
   was sent: a start keeps the two ends in sync exactly when it is for the type
   whose vector went out last.
   */
  lemma StartKeepsSyncIff(des: Des, key: Block, x: Endpoint, y: Endpoint, t: Mode)
    requires Inv(des, key, x, y, None, None) && Ready(x.tx, t)
    ensures InSync(des, key, x.(tx := Switch(des, x.key, x.tx, t)), y) <==> x.tx.lastIv == Some(t)
  {
    var x1 := x.(tx := Switch(des, x.key, x.tx, t));
    if x.tx.lastIv == Some(t) {
      MoveSwitch(des, key, x, y, t);
      DirInSync(des, key, x1, y);
    } else {
      SwitchInput(des, key, x, y, t);
      DrainNorm(des, key, y.rx, x1.tx.out);
    }
  }

  lemma StartMsg(v: Rx, tx: Tx, m: Msg, t: Mode)
    requires Agree(tx, v) && Ready(tx, t) && m.Sub? && m.cmd == ENCRYPT_START
    ensures RxMsg(v, m).0.input == tx.lastIv
  {
    assert AgreeType(tx, v, t);
    match v.mode.value
    case CFB => assert AgreeType(tx, v, CFB);
    case OFB => assert AgreeType(tx, v, OFB);
  }

  /** After START the receiver will be decrypting with the type of the last vector. */
  lemma SwitchInput(des: Des, key: Block, x: Endpoint, y: Endpoint, t: Mode)
    requires Dir(des, key, x, y, None) && Ready(x.tx, t)
    ensures Ahead(des, key, x.(tx := Switch(des, x.key, x.tx, t)), y).input == x.tx.lastIv
  {
    var m := Sub(ENCRYPT_START, x.tx.keyid);
    var v := Ahead(des, key, x, y);
    KeyedBy(key, x, v);
    AheadWrite(des, key, x, y, m);
    WriteSync(des, key, x.key, x.tx, v, m);
    AdvancedFrame(des, x.key, x.tx, m);
    StartMsg(Wire(des, key, v, Encode(m)).0, Advanced(des, x.key, x.tx, m), m, t);
  }

  // ---------- registers in use are never loaded ----------

  /** When the answer to a vector is used, the type it is for is not encrypting yet. */
  lemma VectorNotInUse(des: Des, key: Block, x: Endpoint, y: Endpoint, t: Mode)
    requires Inv(des, key, x, y, Some(t), None)
    ensures x.tx.output != Some(t)
  {
    assert Balance(x, y, Some(t), t) && AgreeType(x.tx, Ahead(des, key, x, y), t);
  }

  /** Nor when its key is installed. */
  lemma KeyNotInUse(des: Des, key: Block, x: Endpoint, y: Endpoint, t: Mode)
    requires Inv(des, key, x, y, None, None) && key != ZERO && x.key.Get(t) == ZERO
    ensures x.tx.output != Some(t)
  {
    assert KeyInv(key, x, t) && AgreeType(x.tx, Ahead(des, key, x, y), t);
  }

  // ---------- runs that never cross, by the commands given ----------

  /** The user of one end never changes the type of its output. */
  predicate NoSetType(ps: seq<Step>, first: bool) {
    forall i :: 0 <= i < |ps| && ps[i].first == first && ps[i].action.Order? ==> !ps[i].action.c.SetType?
  }

  /** The user of one end keeps to its type, or has no choice: the peer can decrypt one type at most. */
  predicate OneChoice(ps: seq<Step>, first: bool, dec: set<Mode>) {
    NoSetType(ps, first) || !(CFB in dec && OFB in dec)
  }

  /** Each end only uses one type towards the other. */
  predicate BothSingle(s: Sys, ta: Mode, tb: Mode) {
    Single(s.a.tx, s.b.rx.support, ta) && Single(s.b.tx, s.a.rx.support, tb)
  }

  /** The type of `t` is changed only where the peer can decrypt nothing else. */
  predicate Bound(p: Step, first: bool, dec: set<Mode>, t: Mode) {
    p.first == first && p.action.Order? && p.action.c.SetType? ==> Other(t) !in dec
  }

  lemma StepSingle(des: Des, key: Block, s: Sys, p: Step, ta: Mode, tb: Mode)
    requires SysInv(des, key, s) && CanStep(des, key, s, p) && BothSingle(s, ta, tb)
    requires Bound(p, true, s.b.rx.support, ta) && Bound(p, false, s.a.rx.support, tb)
    ensures var n := Next(des, key, s, p);
      BothSingle(n, ta, tb) && n.a.rx.support == s.a.rx.support && n.b.rx.support == s.b.rx.support
  {
    if p.first {
      SingleActs(des, key, s.a, s.b, p.action, ta);
      SingleStays(des, key, s.b, s.a, p.action, tb);
      SupportConstant(des, s.a, s.b, key, p.action);
    } else {
      SingleActs(des, key, s.b, s.a, p.action, tb);
      SingleStays(des, key, s.a, s.b, p.action, ta);
      SupportConstant(des, s.b, s.a, key, p.action);
    }
  }

  lemma {:induction false} RunNeverCrosses(des: Des, key: Block, s: Sys, ps: seq<Step>, ta: Mode, tb: Mode)
    requires SysInv(des, key, s) && key != ZERO && Runs(des, key, s, ps) && BothSingle(s, ta, tb)
    requires NoSetType(ps, true) || Other(ta) !in s.b.rx.support
    requires NoSetType(ps, false) || Other(tb) !in s.a.rx.support
    ensures NeverCrosses(des, key, s, ps)
    decreases |ps|
  {
    if ps != [] {
      StepSingle(des, key, s, ps[0], ta, tb);
      StepKeepsInv(des, key, s, ps[0]);
      RunNeverCrosses(des, key, Next(des, key, s, ps[0]), ps[1..], ta, tb);
    }
  }

  /** The one type a sender will use. */
  function Choice(enc: set<Mode>, dec: set<Mode>): Mode {
    match First(enc, dec)
    case Some(t) => t
    case None => if OFB in dec then OFB else CFB
  }

  lemma StartSingle(server: bool, enc: set<Mode>, dec: set<Mode>)
    ensures Single(InitTx(server, enc), dec, Choice(enc, dec))
    ensures !(CFB in dec && OFB in dec) ==> Other(Choice(enc, dec)) !in dec
  {}

  /**
   Two honest endpoints with the same valid key, any interleaving, any number
   of START/END cycles, any commands, as long as each user keeps to its cipher
   type or the peer can decrypt one type at most: both directions are in sync
   after every run.
   */
  lemma SessionStaysInSync(des: Des, key: Block, enc: (set<Mode>, set<Mode>), dec: (set<Mode>, set<Mode>), ps: seq<Step>)
    requires key != ZERO && Runs(des, key, Start(enc, dec), ps)
    requires OneChoice(ps, true, dec.1) && OneChoice(ps, false, dec.0)
    ensures BothInSync(des, key, Final(des, key, Start(enc, dec), ps))
  {
    var s := Start(enc, dec);
    StartInv(des, key, enc, dec);
    StartSingle(false, enc.0, dec.1);
    StartSingle(true, enc.1, dec.0);
    RunNeverCrosses(des, key, s, ps, Choice(enc.0, dec.1), Choice(enc.1, dec.0));
    RunKeepsInv(des, key, s, ps);
    InvInSync(des, key, Final(des, key, s, ps));
  }

  /** And with any commands at all, as long as every start is for the type of the last vector. */
  lemma UncrossedStaysInSync(des: Des, key: Block, enc: (set<Mode>, set<Mode>), dec: (set<Mode>, set<Mode>), ps: seq<Step>)
    requires key != ZERO && Runs(des, key, Start(enc, dec), ps) && NeverCrosses(des, key, Start(enc, dec), ps)
    ensures BothInSync(des, key, Final(des, key, Start(enc, dec), ps))
  {
    StartInv(des, key, enc, dec);
    RunKeepsInv(des, key, Start(enc, dec), ps);
    InvInSync(des, key, Final(des, key, Start(enc, dec), ps));
  }
}
