/**
 Two honest endpoints that nobody stops: once everything under way has been
 read, each cipher that was asked for is in use; and everything can be read.
 */
module TelnetSettles {
  import opened Wrappers
  import opened Cipher
  import opened Telnet
  import opened TelnetWire
  import opened TelnetSession
  import opened TelnetMoves
  import opened TelnetSystem
  import opened TelnetSingle
  import opened TelnetRuns
  import opened TelnetCrossing
  import opened TelnetProgress
  import opened TelnetStage

  /** One direction: the type to be negotiated, if there is one, the type kept to, and whether it is to be started. */
  datatype Plan = Plan(t: Option<Mode>, u: Mode, asked: bool)

  ghost predicate Side(x: Endpoint, y: Endpoint, p: Plan) {
    Going2(x, y, p.t, p.asked) && Keeps(p.t, p.u) && Single(x.tx, y.rx.support, p.u)
  }

  ghost predicate Together(des: Des, key: Block, s: Sys, pa: Plan, pb: Plan) {
    SysInv(des, key, s) && Side(s.a, s.b, pa) && Side(s.b, s.a, pb)
  }

  // ---------- every step ----------

  lemma WillAskEarlier(y: Endpoint, k: nat, j: nat)
    requires WillAsk(y, k) && j <= k
    ensures WillAsk(y, j)
  {}

  /** What the other end makes of an end that goes on. */
  lemma PeerStays(x: Endpoint, x1: Endpoint, y: Endpoint, y1: Endpoint, t: Option<Mode>, asked: bool)
    requires Going2(y, x, t, asked) && GoesOn(x, x1) && y.rx.seen <= x.tx.sent
    requires x1.tx.supportSent == x.tx.supportSent || WillAsk(x1, |x.tx.sent|) || x.tx.server || !x.rx.auto
    requires y1 == y.(tx := y.tx.(out := y1.tx.out))
    ensures Going2(y1, x1, t, asked)
  {
    LocalSame(y, y1, t, asked);
    if asked {
      if WillAsk(x1, |x.tx.sent|) { WillAskEarlier(x1, |x.tx.sent|, |y.rx.seen|); }
      AskedStays(y, x, y1, x1);
    }
  }

  /** The end that acts, towards the other. */
  lemma EndActs(des: Des, key: Block, x: Endpoint, y: Endpoint, px: Plan, py: Plan, a: Action)
    requires Inv(des, key, x, y, None, None) && key != ZERO && Side(x, y, px) && Side(y, x, py)
    requires Enabled(des, key, x, y, a) && Gentle(a)
    ensures var (x1, y1) := Act(des, key, x, y, a);
      && Going2(x1, y1, px.t, px.asked) && GoesOn(x, x1)
      && (x1.tx.supportSent == x.tx.supportSent || WillAsk(x1, |x.tx.sent|) || x.tx.server || !x.rx.auto)
  {
    match a
    case Read(rand) => ReadStep(des, key, x, y, px.t, px.u, px.asked, rand);
    case Install(rand) =>
      InstallStep(des, x, key, rand, px.t, px.u, y.rx.support, px.asked);
      if px.asked { AskedStays(x, y, SessionKey(des, x, key, rand), y); }
    case Order(c, rand) =>
      var x1 := Obey(des, x, c, rand);
      ObeyStep(des, x, px.t, px.asked, c, rand);
      if px.asked && !x1.tx.auto { AskedStays(x, y, x1, y); }
  }

  lemma EndStep(des: Des, key: Block, x: Endpoint, y: Endpoint, px: Plan, py: Plan, a: Action)
    requires Inv(des, key, x, y, None, None) && key != ZERO && Side(x, y, px) && Side(y, x, py)
    requires Enabled(des, key, x, y, a) && Gentle(a)
    ensures var (x1, y1) := Act(des, key, x, y, a);
      Inv(des, key, x1, y1, None, None) && Side(x1, y1, px) && Side(y1, x1, py)
  {
    var (x1, y1) := Act(des, key, x, y, a);
    MoveAct(des, key, x, y, a);
    SingleActs(des, key, x, y, a, px.u);
    SingleStays(des, key, y, x, a, py.u);
    EndActs(des, key, x, y, px, py, a);
    PeerStays(x, x1, y, y1, py.t, py.asked);
  }

  lemma StepTogether(des: Des, key: Block, s: Sys, p: Step, pa: Plan, pb: Plan)
    requires Together(des, key, s, pa, pb) && key != ZERO && CanStep(des, key, s, p) && Gentle(p.action)
    ensures Together(des, key, Next(des, key, s, p), pa, pb)
  {
    if p.first {
      EndStep(des, key, s.a, s.b, pa, pb, p.action);
    } else {
      EndStep(des, key, s.b, s.a, pb, pa, p.action);
    }
  }

  ghost predicate AllGentle(ps: seq<Step>) { forall i :: 0 <= i < |ps| ==> Gentle(ps[i].action) }

  lemma {:induction false} RunTogether(des: Des, key: Block, s: Sys, ps: seq<Step>, pa: Plan, pb: Plan)
    requires Together(des, key, s, pa, pb) && key != ZERO && Runs(des, key, s, ps) && AllGentle(ps)
    ensures Together(des, key, Final(des, key, s, ps), pa, pb)
    decreases |ps|
  {
    if ps != [] {
      StepTogether(des, key, s, ps[0], pa, pb);
      RunTogether(des, key, Next(des, key, s, ps[0]), ps[1..], pa, pb);
    }
  }

  // ---------- when everything has been read ----------

  predicate AllRead(s: Sys) { s.a.tx.out == [] && s.b.tx.out == [] }

  /** In one direction, with the key there and SUPPORT sent, a cipher asked for is in use at both ends. */
  lemma Settled(des: Des, key: Block, x: Endpoint, y: Endpoint, p: Plan)
    requires Inv(des, key, x, y, None, None) && Side(x, y, p) && Receiving(y.rx, y.tx.supportSent, y.tx.sent)
    requires x.tx.out == [] && y.tx.out == [] && key != ZERO
    requires p.t.Some? && p.asked && x.key == Pair(key, key) && y.tx.supportSent
    ensures x.tx.output == p.t && y.rx.input == p.t && START in x.tx.sent
  {
    var t := p.t.value;
    assert Ahead(des, key, x, y) == Norm(y.rx) && Ahead(des, key, y, x) == Norm(x.rx);
    assert y.rx.seen == x.tx.sent && x.rx.seen == y.tx.sent;
    assert Has(x.rx.seen, ENCRYPT_SUPPORT) by {
      var i :| 0 <= i < |y.tx.sent| && y.tx.sent[i] == SupportMsg(y.rx.support);
      assert Is(x.rx.seen[i], ENCRYPT_SUPPORT);
    }
    assert !Waiting(x.tx, t) by {
      assert Flight(x.tx, y.rx) == [] && Flight(y.tx, x.rx) == [];
      if t == CFB { assert Balance(x, y, None, CFB); } else { assert Balance(x, y, None, OFB); }
    }
    assert Accepted(ViewOf(x.tx), t);
    assert ENC in y.rx.seen && DEC in x.rx.seen;
  }

  /** The two ends as their users start them: with or without automatic start, for output and for input. */
  function Opening(enc: (set<Mode>, set<Mode>), dec: (set<Mode>, set<Mode>), out: (bool, bool), inp: (bool, bool)): Sys {
    Sys(Set(Start(enc, dec).a, out.0, inp.0), Set(Start(enc, dec).b, out.1, inp.1))
  }

  /** One end with its automatic start set. */
  function Set(e: Endpoint, out: bool, inp: bool): Endpoint { e.(tx := e.tx.(auto := out), rx := e.rx.(auto := inp)) }

  lemma SetInv(des: Des, key: Block, x: Endpoint, y: Endpoint, out: bool, inp: bool)
    requires Inv(des, key, x, y, None, None)
    ensures Inv(des, key, Set(x, out, inp), y, None, None)
  {
    var x1 := x.(rx := x.rx.(auto := inp));
    MoveAutoIn(des, key, x, y, inp);
    MoveSettings(des, key, x1, y, x1.tx.(auto := out));
  }

  lemma OpeningInv(des: Des, key: Block, enc: (set<Mode>, set<Mode>), dec: (set<Mode>, set<Mode>),
                   out: (bool, bool), inp: (bool, bool))
    ensures SysInv(des, key, Opening(enc, dec, out, inp))
  {
    var s := Start(enc, dec);
    StartInv(des, key, enc, dec);
    SetInv(des, key, s.a, s.b, out.0, inp.0);
    SetInv(des, key, s.b, Set(s.a, out.0, inp.0), out.1, inp.1);
  }

  /** An end before anything has happened. */
  lemma InitLocal(server: bool, enc: set<Mode>, dec: set<Mode>, out: bool, inp: bool, t: Option<Mode>, asked: bool)
    ensures Local(Set(Init(server, enc, dec), out, inp), t, asked)
  {}

  lemma OpeningSide(x: Endpoint, y: Endpoint, server: bool, enc: set<Mode>, dec: set<Mode>, out: bool, asked: bool)
    requires x.tx == InitTx(server, enc).(auto := out) && x.rx.seen == [] && y.rx.support == dec
    requires Local(x, First(enc, dec), asked)
    requires asked ==> out || (server && !y.tx.server && y.rx.auto && !y.tx.supportSent)
    ensures Side(x, y, Plan(First(enc, dec), Choice(enc, dec), asked))
  {
    StartSingle(server, enc, dec);
    SingleSame(InitTx(server, enc), x.tx, dec, Choice(enc, dec));
  }

  lemma OpeningTogether(des: Des, key: Block, enc: (set<Mode>, set<Mode>), dec: (set<Mode>, set<Mode>),
                        out: (bool, bool), inp: (bool, bool)) returns (pa: Plan, pb: Plan)
    ensures pa.t == First(enc.0, dec.1) && pb.t == First(enc.1, dec.0)
    ensures pa.asked == out.0 && pb.asked == (out.1 || inp.0)
    ensures Together(des, key, Opening(enc, dec, out, inp), pa, pb)
  {
    pa := Plan(First(enc.0, dec.1), Choice(enc.0, dec.1), out.0);
    pb := Plan(First(enc.1, dec.0), Choice(enc.1, dec.0), out.1 || inp.0);
    var s := Opening(enc, dec, out, inp);
    OpeningInv(des, key, enc, dec, out, inp);
    InitLocal(false, enc.0, dec.0, out.0, inp.0, pa.t, pa.asked);
    InitLocal(true, enc.1, dec.1, out.1, inp.1, pb.t, pb.asked);
    OpeningSide(s.a, s.b, false, enc.0, dec.1, out.0, pa.asked);
    OpeningSide(s.b, s.a, true, enc.1, dec.0, out.1, pb.asked);
  }

  /**
   Any run of two honest ends that nobody stops, with keys installed at any
   time: when everything has been read, each direction whose ends have a type in
   common and whose start was asked for, by its sender or by a client of a
   server, is encrypted with the first such type.
   */
  lemma NegotiationStarts(des: Des, key: Block, enc: (set<Mode>, set<Mode>), dec: (set<Mode>, set<Mode>),
                          out: (bool, bool), inp: (bool, bool), ps: seq<Step>)
    requires key != ZERO && Runs(des, key, Opening(enc, dec, out, inp), ps) && AllGentle(ps)
    requires AllRead(Final(des, key, Opening(enc, dec, out, inp), ps))
    ensures var s := Final(des, key, Opening(enc, dec, out, inp), ps);
      && (First(enc.0, dec.1).Some? && out.0 && s.a.key == Pair(key, key) && s.b.tx.supportSent ==>
            s.a.tx.output == s.b.rx.input == First(enc.0, dec.1))
      && (First(enc.1, dec.0).Some? && (out.1 || inp.0) && s.b.key == Pair(key, key) && s.a.tx.supportSent ==>
            s.b.tx.output == s.a.rx.input == First(enc.1, dec.0))
  {
    var pa, pb := OpeningTogether(des, key, enc, dec, out, inp);
    RunTogether(des, key, Opening(enc, dec, out, inp), ps, pa, pb);
    var s := Final(des, key, Opening(enc, dec, out, inp), ps);
    if pa.t.Some? && pa.asked && s.a.key == Pair(key, key) && s.b.tx.supportSent { Settled(des, key, s.a, s.b, pa); }
    if pb.t.Some? && pb.asked && s.b.key == Pair(key, key) && s.a.tx.supportSent { Settled(des, key, s.b, s.a, pb); }
  }

  // ---------- everything can be read ----------

  function Load(ms: seq<Msg>): nat
    decreases |ms|
  {
    if ms == [] then 0 else Weight(ms[0]) + Load(ms[1..])
  }

  lemma {:induction false} LoadMore(ms: seq<Msg>, m: Msg)
    ensures Load(ms + [m]) == Load(ms) + Weight(m)
    decreases |ms|
  {
    if ms == [] {
      assert ([m])[1..] == [];
    } else {
      assert (ms + [m])[1..] == ms[1..] + [m];
      LoadMore(ms[1..], m);
    }
  }

  /** What is under way: the weight of the messages, and the number of bytes. */
  function Loads(x: Endpoint, y: Endpoint): nat { Load(Flight(x.tx, y.rx)) + Load(Flight(y.tx, x.rx)) }

  function Bytes(x: Endpoint, y: Endpoint): nat { |x.tx.out| + |y.tx.out| }

  /** A message is read, and answered by a lighter one or not at all. */
  lemma LoadsDrop(x: Endpoint, x1: Endpoint, y: Endpoint, y1: Endpoint, m: Msg)
    requires x.rx.seen <= y.tx.sent && y.rx.seen <= x.tx.sent && |x.rx.seen| < |y.tx.sent| && m == y.tx.sent[|x.rx.seen|]
    requires x1.rx.seen == x.rx.seen + [m] && y1 == y.(tx := y.tx.(out := y1.tx.out)) && Answers(x.tx.sent, x1.tx.sent, m)
    ensures Loads(x1, y1) < Loads(x, y)
  {
    assert Flight(y.tx, x.rx)[0] == m && Flight(y.tx, x.rx)[1..] == Flight(y1.tx, x1.rx);
    if x1.tx.sent != x.tx.sent {
      var n :| x1.tx.sent == x.tx.sent + [n] && Weight(n) < Weight(m);
      assert Flight(x1.tx, y.rx) == Flight(x.tx, y.rx) + [n];
      LoadMore(Flight(x.tx, y.rx), n);
    }
    assert Flight(x1.tx, y1.rx) == Flight(x1.tx, y.rx);
  }

  /** Reading a byte leaves fewer or lighter messages, or fewer bytes. */
  lemma ReadDrops(des: Des, key: Block, x: Endpoint, y: Endpoint, px: Plan, py: Plan, rand: Rand)
    requires Inv(des, key, x, y, None, None) && Side(x, y, px) && Side(y, x, py)
    requires Enabled(des, key, x, y, Read(rand)) && forall v :: rand(v).Some?
    ensures var x1 := Receive(des, x, y.tx.out[0], rand);
      Loads(x1, Popped(y)) < Loads(x, y) || (Loads(x1, Popped(y)) == Loads(x, y) && Bytes(x1, Popped(y)) < Bytes(x, y))
  {
    var w := y.tx.out[0];
    var x0 := ReceiveIs(des, x, w, rand);
    var r := RxByte(des, x.key, x.rx, w);
    LocalSame(x, x0, px.t, px.asked);
    if r.1.Some? {
      PeerRelied(des, key, x, y, px.t, px.u, px.asked, x0, r.1.value);
      MsgStep(des, x0, px.t, y.rx.support, px.asked, r.1.value, rand);
      LoadsDrop(x, Handled(des, x0, r.1.value, rand), y, Popped(y), r.1.value);
    } else {
      assert Flight(x0.tx, Popped(y).rx) == Flight(x.tx, y.rx) && Flight(Popped(y).tx, x0.rx) == Flight(y.tx, x.rx);
    }
  }

  predicate KeysThere(s: Sys, key: Block) { s.a.key == Pair(key, key) && s.b.key == Pair(key, key) }

  /** What reading does not undo. */
  predicate Stays(s: Sys, n: Sys) {
    && n.a.key == s.a.key && n.b.key == s.b.key
    && n.a.tx.supportSent == s.a.tx.supportSent && n.b.tx.supportSent == s.b.tx.supportSent
  }

  lemma ReadStays(des: Des, key: Block, s: Sys, p: Step, pa: Plan, pb: Plan)
    requires Together(des, key, s, pa, pb) && key != ZERO && KeysThere(s, key) && p.action.Read? && Gentle(p.action)
    requires if p.first then s.b.tx.out != [] else s.a.tx.out != []
    ensures CanStep(des, key, s, p) && Together(des, key, Next(des, key, s, p), pa, pb)
    ensures var n := Next(des, key, s, p);
      Stays(s, n) && (Loads(n.a, n.b) < Loads(s.a, s.b)
                      || (Loads(n.a, n.b) == Loads(s.a, s.b) && Bytes(n.a, n.b) < Bytes(s.a, s.b)))
  {
    StepTogether(des, key, s, p, pa, pb);
    if p.first {
      ReadDrops(des, key, s.a, s.b, pa, pb, p.action.rand);
      ReadStep(des, key, s.a, s.b, pa.t, pa.u, pa.asked, p.action.rand);
    } else {
      ReadDrops(des, key, s.b, s.a, pb, pa, p.action.rand);
      ReadStep(des, key, s.b, s.a, pb.t, pb.u, pb.asked, p.action.rand);
    }
  }

  /** The next byte, of the stream preferred if it has one. */
  lemma ReadNext(des: Des, key: Block, s: Sys, pa: Plan, pb: Plan, rand: Rand, prefer: bool) returns (p: Step)
    requires Together(des, key, s, pa, pb) && key != ZERO && KeysThere(s, key) && !AllRead(s) && forall u :: rand(u).Some?
    ensures Gentle(p.action) && CanStep(des, key, s, p) && Together(des, key, Next(des, key, s, p), pa, pb)
    ensures var n := Next(des, key, s, p);
      Stays(s, n) && (Loads(n.a, n.b) < Loads(s.a, s.b)
                      || (Loads(n.a, n.b) == Loads(s.a, s.b) && Bytes(n.a, n.b) < Bytes(s.a, s.b)))
  {
    p := Step(if prefer then s.b.tx.out != [] else s.a.tx.out == [], Read(rand));
    ReadStays(des, key, s, p, pa, pb);
  }

  /** Once the keys are there, reading whatever there is comes to an end, whichever end reads first. */
  lemma {:induction false} ReadOut(des: Des, key: Block, s: Sys, pa: Plan, pb: Plan, rand: Rand, prefer: bool)
    returns (ps: seq<Step>)
    requires Together(des, key, s, pa, pb) && key != ZERO && KeysThere(s, key) && forall u :: rand(u).Some?
    ensures Runs(des, key, s, ps) && AllGentle(ps) && AllRead(Final(des, key, s, ps)) && Stays(s, Final(des, key, s, ps))
    decreases Loads(s.a, s.b), Bytes(s.a, s.b)
  {
    if AllRead(s) {
      return [];
    }
    var p := ReadNext(des, key, s, pa, pb, rand, prefer);
    var n := Next(des, key, s, p);
    var qs := ReadOut(des, key, n, pa, pb, rand, prefer);
    ps := RunMore(des, key, s, p, n, qs);
  }

  lemma RunMore(des: Des, key: Block, s: Sys, p: Step, n: Sys, qs: seq<Step>) returns (ps: seq<Step>)
    requires CanStep(des, key, s, p) && n == Next(des, key, s, p) && Runs(des, key, n, qs) && Gentle(p.action) && AllGentle(qs)
    ensures Runs(des, key, s, ps) && Final(des, key, s, ps) == Final(des, key, n, qs) && AllGentle(ps)
  {
    ps := [p] + qs;
    assert ps[1..] == qs;
  }

  /** From any state of an unstopped run with the keys there and both SUPPORTs sent, a run to encryption both ways. */
  lemma GoesThrough(des: Des, key: Block, enc: (set<Mode>, set<Mode>), dec: (set<Mode>, set<Mode>),
                    out: (bool, bool), inp: (bool, bool), ps: seq<Step>, rand: Rand, prefer: bool) returns (qs: seq<Step>)
    requires key != ZERO && Runs(des, key, Opening(enc, dec, out, inp), ps) && AllGentle(ps)
    requires KeysThere(Final(des, key, Opening(enc, dec, out, inp), ps), key) && forall u :: rand(u).Some?
    ensures var s := Final(des, key, Opening(enc, dec, out, inp), ps);
      && Runs(des, key, s, qs) && AllGentle(qs) && AllRead(Final(des, key, s, qs))
      && (First(enc.0, dec.1).Some? && out.0 && s.b.tx.supportSent ==>
            Final(des, key, s, qs).a.tx.output == Final(des, key, s, qs).b.rx.input == First(enc.0, dec.1))
      && (First(enc.1, dec.0).Some? && (out.1 || inp.0) && s.a.tx.supportSent ==>
            Final(des, key, s, qs).b.tx.output == Final(des, key, s, qs).a.rx.input == First(enc.1, dec.0))
  {
    var o := Opening(enc, dec, out, inp);
    var pa, pb := OpeningTogether(des, key, enc, dec, out, inp);
    RunTogether(des, key, o, ps, pa, pb);
    var s := Final(des, key, o, ps);
    qs := ReadOut(des, key, s, pa, pb, rand, prefer);
    RunsThen(des, key, o, ps, qs);
    NegotiationStarts(des, key, enc, dec, out, inp, ps + qs);
  }
}
