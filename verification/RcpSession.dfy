/**
 Whole rcp transfers: what each end says and hears whatever goes wrong, when the
 receiver's answers are those the sender waits for, and that then no
 interleaving of the two ends gets stuck.
 */
module RcpSession {
  import opened Wrappers
  import opened Octets
  import opened Rcp
  import opened RcpText
  import opened RcpTalk
  import opened RcpLink
  import opened RcpAnswers

  // ---------- what every conversation is ----------

  /** The bytes read are those written, and the sender's reads are the receiver's answers, one by one. */
  ghost predicate Matched(t: Talk) {
    t.r == Bytes(t.b, true) && Parts(t.a, false) == Parts(t.b, true)
  }

  /** The receiver reads what the sender writes; it gives `extra` answers too many, and without them all match. */
  ghost predicate Told(t: Talk) {
    && t.w == Bytes(t.a, true) && t.w == Bytes(t.b, false) && t.r == Bytes(t.a, false) && Solid(Parts(t.b, true))
    && |Parts(t.b, true)| == |Parts(t.a, false)| + t.extra && |Bytes(t.b, true)| >= |t.r| + t.extra
    && (t.extra == 0 ==> Matched(t))
  }

  /** Two answers can be under way at once, or never. */
  ghost predicate Timed(t: Talk, two: bool) {
    if two then Overlaps(Link(t.a, t.b, [], [])) else Paced(t.a, t.b) && Opens(t.b)
  }

  ghost predicate Sound(t: Talk, two: bool) {
    Told(t) && if t.extra == 0 then LockStep(t.a, t.b) && Timed(t, two) else Overlaps(Link(t.a, t.b, [], []))
  }

  lemma ToldJoin(x: Talk, y: Talk)
    requires Told(x) && Told(y)
    ensures Told(Join(x, y))
  {
    BytesAppend(x.a, y.a, true);
    BytesAppend(x.b, y.b, false);
    BytesAppend(x.b, y.b, true);
    BytesAppend(x.a, y.a, false);
    PartsAppend(x.a, y.a, false);
    PartsAppend(x.b, y.b, true);
  }

  lemma SoundJoin(x: Talk, y: Talk, i: bool, j: bool)
    requires Sound(x, i) && Sound(y, j)
    ensures Sound(Join(x, y), i || j)
  {
    ToldJoin(x, y);
    if x.extra + y.extra == 0 {
      LockStepJoin(x.a, x.b, y.a, y.b);
      if i {
        OverlapsFirst(x.a, x.b, y.a, y.b);
      } else if j {
        OverlapsSecond(x.a, x.b, y.a, y.b);
      } else {
        PacedJoin(x.a, x.b, y.a, y.b);
        OpensJoin(x.b, y.b);
      }
    } else if x.extra > 0 {
      OverlapsFirst(x.a, x.b, y.a, y.b);
    } else {
      OverlapsSecond(x.a, x.b, y.a, y.b);
    }
  }

  /** Traces of at most two events. */
  lemma Short(e: Event, f: Event, said: bool)
    ensures Parts([], said) == [] && Bytes([], said) == []
    ensures Parts([e], said) == if e.Said? == said then [e.b] else []
    ensures Bytes([e], said) == if e.Said? == said then e.b else []
    ensures Parts([e, f], said) == Parts([e], said) + Parts([f], said)
    ensures Bytes([e, f], said) == Bytes([e], said) + Bytes([f], said)
  {
    assert [e][1..] == [] && [f][1..] == [] && [e, f] == [e] + [f];
    FlatOne(e.b);
    PartsAppend([e], [f], said);
    BytesAppend([e], [f], said);
  }

  lemma SoundSilent(fs: Fs, k: nat, stamp: Option<Times>)
    ensures Sound(Silent(fs, k, stamp), false)
  {
    LockStepNothing();
  }

  lemma OneAnswer(a: seq<Event>, b: seq<Event>)
    requires |Parts(a, false)| <= 1
    ensures Paced(a, b)
  {}

  lemma SaidGot(x: seq<Byte>, y: seq<Byte>)
    ensures Parts([Said(x), Got(y)], true) == [x] && Parts([Said(x), Got(y)], false) == [y]
    ensures Bytes([Said(x), Got(y)], true) == x && Bytes([Said(x), Got(y)], false) == y
  {
    Short(Said(x), Got(y), true);
    Short(Said(x), Got(y), false);
    Short(Got(y), Got(y), true);
    Short(Got(y), Got(y), false);
  }

  lemma GotSaid(x: seq<Byte>, y: seq<Byte>)
    ensures Parts([Got(x), Said(y)], true) == [y] && Bytes([Got(x), Said(y)], true) == y && Bytes([Got(x), Said(y)], false) == x
  {
    Short(Got(x), Said(y), true);
    Short(Got(x), Said(y), false);
    Short(Said(y), Said(y), true);
    Short(Said(y), Said(y), false);
  }

  lemma ToldTurn(req: seq<Byte>, reply: seq<Byte>, fs: Fs, k: nat, stamp: Option<Times>)
    requires reply != []
    ensures Told(Turn(req, reply, fs, k, stamp))
  {
    SaidGot(req, reply);
    GotSaid(req, reply);
  }

  lemma SoundTurn(req: seq<Byte>, reply: seq<Byte>, fs: Fs, k: nat, stamp: Option<Times>)
    requires req != [] && reply != []
    ensures Sound(Turn(req, reply, fs, k, stamp), false)
  {
    LockStepTurn(req, reply);
    ToldTurn(req, reply, fs, k, stamp);
    var t := Turn(req, reply, fs, k, stamp);
    Short(Said(req), Got(reply), false);
    Short(Got(reply), Got(reply), false);
    OneAnswer(t.a, t.b);
    Short(Got(req), Got(req), true);
    Short(Got(req), Got(req), false);
    OpensOnce([Got(req)], reply, []);
    assert t.b == [Got(req)] + ([Said(reply)] + []);
  }

  lemma SoundNote(msg: seq<Byte>, fs: Fs, k: nat, stamp: Option<Times>)
    ensures Sound(Talk(msg, [], [Said(msg)], [Got(msg)], fs, k, stamp, 0), false)
  {
    LockStepNote(msg);
    Short(Said(msg), Said(msg), true);
    Short(Said(msg), Said(msg), false);
    Short(Got(msg), Got(msg), true);
    Short(Got(msg), Got(msg), false);
    OneAnswer([Said(msg)], [Got(msg)]);
  }

  lemma SoundStamp(env: Env, t: Times, fs: Fs, k: nat, stamp: Option<Times>)
    ensures Sound(StampTalk(env, t, fs, k, stamp), false)
  {
    SoundTurn(TLine(t), OK, fs, k, Some(t));
    SoundSilent(fs, k, stamp);
  }

  // ---------- files ----------

  lemma Short3(e: Event, f: Event, g: Event, said: bool)
    ensures Parts([e, f, g], said) == Parts([e, f], said) + Parts([g], said)
    ensures Bytes([e, f, g], said) == Bytes([e, f], said) + Bytes([g], said)
  {
    assert [e, f, g] == [e, f] + [g];
    PartsAppend([e, f], [g], said);
    BytesAppend([e, f], [g], said);
  }

  /** What is said and read in a few events, two of them said. */
  lemma TwoSaid(x: seq<Byte>, y: seq<Byte>, s: seq<Byte>)
    ensures Parts([Said(x), Said(y), Got(s)], true) == [x, y] && Parts([Said(x), Got(s), Said(y)], true) == [x, y]
    ensures Parts([Got(s), Said(x), Said(y)], true) == [x, y]
    ensures Bytes([Said(x), Said(y), Got(s)], true) == x + y && Bytes([Said(x), Got(s), Said(y)], true) == x + y
    ensures Bytes([Got(s), Said(x), Said(y)], true) == x + y
    ensures Bytes([Said(x), Said(y), Got(s)], false) == s && Bytes([Said(x), Got(s), Said(y)], false) == s
    ensures Bytes([Got(s), Said(x), Said(y)], false) == s
  {
    SaidSaidGot(x, y, s, true);
    SaidSaidGot(x, y, s, false);
  }

  lemma SaidSaidGot(x: seq<Byte>, y: seq<Byte>, s: seq<Byte>, said: bool)
    ensures Parts([Said(x), Said(y), Got(s)], said) == if said then [x, y] else [s]
    ensures Parts([Said(x), Got(s), Said(y)], said) == if said then [x, y] else [s]
    ensures Parts([Got(s), Said(x), Said(y)], said) == if said then [x, y] else [s]
    ensures Bytes([Said(x), Said(y), Got(s)], said) == if said then x + y else s
    ensures Bytes([Said(x), Got(s), Said(y)], said) == if said then x + y else s
    ensures Bytes([Got(s), Said(x), Said(y)], said) == if said then x + y else s
  {
    Short(Said(x), Said(y), said);
    Short(Said(y), Got(s), said);
    Short(Said(x), Got(s), said);
    Short(Got(s), Said(x), said);
    Short3(Said(x), Said(y), Got(s), said);
    Short3(Said(x), Got(s), Said(y), said);
    Short3(Got(s), Said(x), Said(y), said);
  }

  lemma ToldEnding(s: seq<Byte>, v: seq<Byte>, f: Fault, modeFails: bool)
    requires v != []
    ensures var b, x := Ending(s, v, f, modeFails), ErrText(f.msg);
            && Bytes(b, false) == s && Solid(Parts(b, true))
            && Parts(b, true) == (if !modeFails then [v] else if f.trunc then [v, x] else [x, v])
            && Bytes(b, true) == (if !modeFails then v else if f.trunc then v + x else x + v)
  {
    var x := ErrText(f.msg);
    if modeFails {
      TwoSaid(v, x, s);
      TwoSaid(x, v, s);
    } else {
      Short(Got(s), Said(v), true);
      Short(Got(s), Said(v), false);
      Short(Said(v), Got(s), true);
      Short(Said(v), Got(s), false);
    }
  }

  lemma ToldVerdict(s: seq<Byte>, v: seq<Byte>, f: Fault, modeFails: bool, y: Talk)
    requires v != [] && y.w == s && y.r == v && y.a == [Said(s), Got(v)] && y.b == Ending(s, v, f, modeFails)
    requires y.extra == if modeFails then 1 else 0
    ensures Told(y)
  {
    ToldTurn(s, v, y.fs, y.k, y.stamp);
    ToldEnding(s, v, f, modeFails);
    OneWaited(s, v);
  }

  lemma OneWaited(req: seq<Byte>, reply: seq<Byte>)
    ensures Parts([Said(req), Got(reply)], false) == [reply]
  {
    Short(Said(req), Got(reply), false);
    Short(Got(reply), Got(reply), false);
  }

  lemma ToldData(env: Env, n: Node, p: Path, fs: Fs, k: nat, stamp: Option<Times>)
    requires n.File?
    ensures Told(DataTalk(env, n, p, fs, k, stamp))
  {
    var v, s, d := Verdict(env.fault(k), |n.content|, stamp), Status(n), Payload(n);
    var t := DataTalk(env, n, p, fs, k, stamp);
    SoundNote(d, fs, k, stamp);
    var x := Talk(d, [], Saying(d), Getting(d), fs, k, stamp, 0);
    assert Told(x) by { Short(Said(d), Said(d), true); }
    var y := Turn(s, v, t.fs, t.k, t.stamp).(b := Ending(s, v, env.fault(k), ModeFails(env, n, p, fs, k)), extra := t.extra);
    ToldVerdict(s, v, env.fault(k), ModeFails(env, n, p, fs, k), y);
    ToldJoin(x, y);
    assert [] + v == v;
    assert t == Join(x, y);
  }

  lemma LockStepData(env: Env, n: Node, p: Path, fs: Fs, k: nat, stamp: Option<Times>)
    requires n.File? && !ModeFails(env, n, p, fs, k)
    ensures var t := DataTalk(env, n, p, fs, k, stamp); LockStep(t.a, t.b)
  {
    var f := env.fault(k);
    var v := Verdict(f, |n.content|, stamp);
    LockStepNote(Payload(n));
    LockStepNothing();
    LockStepVerdict(Status(n), v, f.trunc);
    var tail := if f.trunc then [Said(v), Got(Status(n))] else [Got(Status(n)), Said(v)];
    LockStepJoin(Saying(Payload(n)), Getting(Payload(n)), [Said(Status(n)), Got(v)], tail);
  }

  /** Truncating fails for a file without data, so that the receiver answers twice without reading in between. */
  predicate AnswersAtOnce(n: Node, f: Fault)
    requires n.File?
  {
    f.trunc && Payload(n) == []
  }

  lemma OpensEarly(d: seq<Byte>, s: seq<Byte>, v: seq<Byte>)
    requires d != []
    ensures Opens([Got(d)] + [Said(v), Got(s)])
  {
    Short(Got(d), Got(d), true);
    Short(Got(d), Got(d), false);
    Short(Got(s), Got(s), true);
    OpensOnce([Got(d)], v, [Got(s)]);
    assert [Said(v)] + [Got(s)] == [Said(v), Got(s)];
  }

  lemma ReadsFirst(pre: seq<Event>, s: seq<Byte>)
    requires Parts(pre, true) == [] && s != []
    ensures Parts(pre + [Got(s)], true) == [] && Bytes(pre + [Got(s)], false) != []
  {
    Short(Got(s), Got(s), true);
    Short(Got(s), Got(s), false);
    PartsAppend(pre, [Got(s)], true);
    BytesAppend(pre, [Got(s)], false);
  }

  lemma OpensLate(pre: seq<Event>, s: seq<Byte>, v: seq<Byte>)
    requires Parts(pre, true) == [] && s != []
    ensures Opens(pre + [Got(s), Said(v)])
  {
    ReadsFirst(pre, s);
    OpensOnce(pre + [Got(s)], v, []);
    assert pre + [Got(s)] + ([Said(v)] + []) == pre + [Got(s), Said(v)];
  }

  lemma TimedData(env: Env, n: Node, p: Path, fs: Fs, k: nat, stamp: Option<Times>)
    requires n.File? && !ModeFails(env, n, p, fs, k) && !AnswersAtOnce(n, env.fault(k))
    ensures Timed(DataTalk(env, n, p, fs, k, stamp), false)
  {
    var v, s, d := Verdict(env.fault(k), |n.content|, stamp), Status(n), Payload(n);
    OneVerdict(env, n, p, fs, k, stamp);
    if env.fault(k).trunc {
      OpensEarly(d, s, v);
    } else {
      Short(Got(d), Got(d), true);
      OpensLate(Getting(d), s, v);
    }
  }

  lemma OneVerdict(env: Env, n: Node, p: Path, fs: Fs, k: nat, stamp: Option<Times>)
    requires n.File?
    ensures var t := DataTalk(env, n, p, fs, k, stamp); Paced(t.a, t.b)
  {
    var v, s, d := Verdict(env.fault(k), |n.content|, stamp), Status(n), Payload(n);
    var t := DataTalk(env, n, p, fs, k, stamp);
    Short(Said(d), Said(d), false);
    Short(Said(s), Got(v), false);
    Short(Got(v), Got(v), false);
    PartsAppend(Saying(d), [Said(s), Got(v)], false);
    OneAnswer(t.a, t.b);
  }

  lemma TwoAtOnce(line: seq<Byte>, s: seq<Byte>, v: seq<Byte>)
    ensures Piles(Link([Said(line), Got(OK)] + [Said(s), Got(v)], [Got(line), Said(OK)] + [Said(v), Got(s)], [], []), 2)
  {
    var a, b := [Got(OK)] + [Said(s), Got(v)], [Got(s)];
    TwoWaits(s, v);
    PilesNow(Link(a, b, [], OK + v));
    PilesSaid(v, a, b, [], OK, 2);
    assert [] + OK == OK;
    PilesSaid(OK, a, [Said(v)] + b, [], [], 2);
    PilesGot(line, a, [Said(OK)] + ([Said(v)] + b), [], 2);
    PilesSent(line, a, [Got(line)] + ([Said(OK)] + ([Said(v)] + b)), 2);
    assert [Said(line)] + a == [Said(line), Got(OK)] + [Said(s), Got(v)];
    assert [Got(line)] + ([Said(OK)] + ([Said(v)] + b)) == [Got(line), Said(OK)] + [Said(v), Got(s)];
  }

  lemma TwoWaits(s: seq<Byte>, v: seq<Byte>)
    ensures Parts([Got(OK)] + [Said(s), Got(v)], false) == [OK, v] && Parts([Got(s)], true) == []
  {
    Short(Got(OK), Got(OK), false);
    OneWaited(s, v);
    PartsAppend([Got(OK)], [Said(s), Got(v)], false);
    Short(Got(s), Got(s), true);
  }

  /** An answer too many: it is under way together with the one that is waited for. */
  lemma VerdictSpills(s: seq<Byte>, v: seq<Byte>, f: Fault)
    ensures Piles(Link([Said(s), Got(v)], Ending(s, v, f, true), [], []), 1)
  {
    var a, x := [Got(v)], ErrText(f.msg);
    Short(Got(v), Got(v), false);
    Short(Got(s), Got(s), true);
    if f.trunc {
      PilesNow(Link(a, [Got(s)], s, v + x));
      PilesSaid(x, a, [Got(s)], s, v, 1);
      assert [] + v == v;
      PilesSaid(v, a, [Said(x)] + [Got(s)], s, [], 1);
      assert [Said(v)] + ([Said(x)] + [Got(s)]) == Ending(s, v, f, true);
    } else {
      PilesNow(Link(a, [], [], x + v));
      PilesSaid(v, a, [], [], x, 1);
      PilesGot(s, a, [Said(v)] + [], x, 1);
      assert [] + x == x;
      PilesSaid(x, a, [Got(s)] + ([Said(v)] + []), s, [], 1);
      assert [Said(x)] + ([Got(s)] + ([Said(v)] + [])) == Ending(s, v, f, true);
    }
    PilesSent(s, a, Ending(s, v, f, true), 1);
    assert [Said(s)] + a == [Said(s), Got(v)];
  }

  lemma SpilledData(env: Env, n: Node, p: Path, fs: Fs, k: nat, stamp: Option<Times>)
    requires n.File? && ModeFails(env, n, p, fs, k)
    ensures Sound(DataTalk(env, n, p, fs, k, stamp), false)
  {
    var f, s, d := env.fault(k), Status(n), Payload(n);
    var v := Verdict(f, |n.content|, stamp);
    ToldData(env, n, p, fs, k, stamp);
    ToldEnding(s, v, f, true);
    OneWaited(s, v);
    VerdictSpills(s, v, f);
    LockStepNothing();
    LockStepNote(d);
    Short(Said(d), Said(d), false);
    Short(Got(d), Got(d), true);
    OverlapsSecond(Saying(d), Getting(d), [Said(s), Got(v)], Ending(s, v, f, true));
  }

  lemma SoundFile(env: Env, n: Node, p: Path, fs: Fs, k: nat, stamp: Option<Times>)
    requires n.File?
    ensures Sound(FileTalk(env, n, p, fs, k, stamp), FileOverlaps(env, n, p, fs, k))
  {
    var line, f := CLine(n.mode, |n.content|, n.name), env.fault(k);
    if OpenFails(fs, p, f) {
      SoundTurn(line, ErrText(f.msg), fs, k + 1, stamp);
    } else {
      var c, d := Turn(line, OK, fs, k, stamp), DataTalk(env, n, p, fs, k, stamp);
      SoundTurn(line, OK, fs, k, stamp);
      if ModeFails(env, n, p, fs, k) {
        SpilledData(env, n, p, fs, k, stamp);
        SoundJoin(c, d, false, false);
        return;
      }
      ToldData(env, n, p, fs, k, stamp);
      LockStepData(env, n, p, fs, k, stamp);
      if AnswersAtOnce(n, f) {
        ToldJoin(c, d);
        LockStepJoin(c.a, c.b, d.a, d.b);
        TwoAtOnce(line, Status(n), Verdict(f, |n.content|, stamp));
        assert d.a == [Said(Status(n)), Got(Verdict(f, |n.content|, stamp))]
            && d.b == [Said(Verdict(f, |n.content|, stamp)), Got(Status(n))];
      } else {
        TimedData(env, n, p, fs, k, stamp);
        SoundJoin(c, d, false, false);
      }
    }
  }

  // ---------- trees ----------

  /** The file is accepted and answered twice at once. */
  predicate FileOverlaps(env: Env, n: Node, p: Path, fs: Fs, k: nat)
    requires n.File?
  {
    !OpenFails(fs, p, env.fault(k)) && AnswersAtOnce(n, env.fault(k))
  }

  /** Some accepted file without data cannot be truncated. */
  predicate NodeOverlaps(env: Env, n: Node, targ: Path, isdir: bool, fs: Fs, k: nat, stamp: Option<Times>)
    decreases n, 1
  {
    match n
    case Bad(_) => false
    case File(name, _, _, _, _) => FileOverlaps(env, n, Target(targ, isdir, name), fs, k)
    case Dir(name, mode, _, kids) =>
      var p := Target(targ, isdir, name);
      !DirFails(fs, p, env.fault(k)) && KidsOverlap(env, kids, p, MadeDir(env, fs, p, mode), k + 1, None)
  }

  predicate KidsOverlap(env: Env, ns: seq<Node>, targ: Path, fs: Fs, k: nat, stamp: Option<Times>)
    decreases ns, 0
  {
    && ns != []
    && (|| NodeOverlaps(env, ns[0], targ, true, fs, k, stamp)
        || var x := NodeTalk(env, ns[0], targ, true, fs, k, stamp); KidsOverlap(env, ns[1..], targ, x.fs, x.k, x.stamp))
  }

  /** Some accepted file has a mode that must be changed and cannot be, or some directory times that cannot be set. */
  predicate NodeSpills(env: Env, n: Node, targ: Path, isdir: bool, fs: Fs, k: nat, stamp: Option<Times>)
    decreases n, 1
  {
    match n
    case Bad(_) => false
    case File(name, _, _, _, _) =>
      var p := Target(targ, isdir, name); !OpenFails(fs, p, env.fault(k)) && ModeFails(env, n, p, fs, k)
    case Dir(name, mode, _, kids) =>
      var p := Target(targ, isdir, name);
      && !DirFails(fs, p, env.fault(k))
      && (((env.pflag || stamp.Some?) && env.fault(k).dirtime) || KidsSpill(env, kids, p, MadeDir(env, fs, p, mode),
          k + 1, None))
  }

  predicate KidsSpill(env: Env, ns: seq<Node>, targ: Path, fs: Fs, k: nat, stamp: Option<Times>)
    decreases ns, 0
  {
    && ns != []
    && (|| NodeSpills(env, ns[0], targ, true, fs, k, stamp)
        || var x := NodeTalk(env, ns[0], targ, true, fs, k, stamp); KidsSpill(env, ns[1..], targ, x.fs, x.k, x.stamp))
  }

  lemma {:induction false} SpillsIff(env: Env, n: Node, targ: Path, isdir: bool, fs: Fs, k: nat, stamp: Option<Times>)
    ensures NodeTalk(env, n, targ, isdir, fs, k, stamp).extra > 0 <==> NodeSpills(env, n, targ, isdir, fs, k, stamp)
    decreases n, 1
  {
    if n.Dir? {
      DirSpillsIff(env, n, Target(targ, isdir, n.name), fs, k, StampTalk(env, n.times, fs, k, stamp).stamp);
    }
  }

  lemma {:induction false} DirSpillsIff(env: Env, n: Node, p: Path, fs: Fs, k: nat, stamp: Option<Times>)
    requires n.Dir?
    ensures DirOrRefusal(env, n, p, fs, k, stamp).extra > 0 <==>
      && !DirFails(fs, p, env.fault(k))
      && ((stamp.Some? && env.fault(k).dirtime) || KidsSpill(env, n.kids, p, MadeDir(env, fs, p, n.mode), k + 1, None))
    decreases n, 0
  {
    KidsSpillIff(env, n.kids, p, MadeDir(env, fs, p, n.mode), k + 1, None);
  }

  lemma {:induction false} KidsSpillIff(env: Env, ns: seq<Node>, targ: Path, fs: Fs, k: nat, stamp: Option<Times>)
    ensures KidsTalk(env, ns, targ, fs, k, stamp).extra > 0 <==> KidsSpill(env, ns, targ, fs, k, stamp)
    decreases ns, 0
  {
    if ns != [] {
      var x := NodeTalk(env, ns[0], targ, true, fs, k, stamp);
      SpillsIff(env, ns[0], targ, true, fs, k, stamp);
      KidsSpillIff(env, ns[1..], targ, x.fs, x.k, x.stamp);
    }
  }

  /** What holds of every conversation, by induction over the tree. */
  lemma {:induction false} SoundNode(env: Env, n: Node, targ: Path, isdir: bool, fs: Fs, k: nat, stamp: Option<Times>)
    ensures Sound(NodeTalk(env, n, targ, isdir, fs, k, stamp), NodeOverlaps(env, n, targ, isdir, fs, k, stamp))
    decreases n, 2
  {
    if n.Bad? {
      SoundNote(ErrText(n.msg), fs, k, stamp);
    } else if n.File? {
      SoundFileNode(env, n, Target(targ, isdir, n.name), fs, k, stamp);
    } else {
      SoundDirNode(env, n, Target(targ, isdir, n.name), fs, k, stamp);
    }
  }

  lemma SoundFileNode(env: Env, n: Node, p: Path, fs: Fs, k: nat, stamp: Option<Times>)
    requires n.File?
    ensures var s := StampTalk(env, n.times, fs, k, stamp);
            Sound(Join(s, FileTalk(env, n, p, fs, k, s.stamp)), FileOverlaps(env, n, p, fs, k))
  {
    var s := StampTalk(env, n.times, fs, k, stamp);
    SoundStamp(env, n.times, fs, k, stamp);
    SoundFile(env, n, p, fs, k, s.stamp);
    SoundJoin(s, FileTalk(env, n, p, fs, k, s.stamp), false, FileOverlaps(env, n, p, fs, k));
  }

  lemma {:induction false} SoundDirNode(env: Env, n: Node, p: Path, fs: Fs, k: nat, stamp: Option<Times>)
    requires n.Dir?
    ensures var s := StampTalk(env, n.times, fs, k, stamp);
            Sound(Join(s, DirOrRefusal(env, n, p, fs, k, s.stamp)),
              !DirFails(fs, p, env.fault(k)) && KidsOverlap(env, n.kids, p, MadeDir(env, fs, p, n.mode), k + 1, None))
    decreases n, 1
  {
    var s := StampTalk(env, n.times, fs, k, stamp);
    var two := !DirFails(fs, p, env.fault(k)) && KidsOverlap(env, n.kids, p, MadeDir(env, fs, p, n.mode), k + 1, None);
    SoundStamp(env, n.times, fs, k, stamp);
    SoundDir(env, n, p, fs, k, s.stamp);
    SoundJoin(s, DirOrRefusal(env, n, p, fs, k, s.stamp), false, two);
  }

  lemma ClosingSpills(x: seq<Byte>)
    ensures Piles(Link([Said(ELINE), Got(OK)], [Got(ELINE), Said(OK), Said(x)], [], []), 1)
  {
    var a := [Got(OK)];
    Short(Got(OK), Got(OK), false);
    PilesNow(Link(a, [], [], OK + x));
    PilesSaid(x, a, [], [], OK, 1);
    assert [] + OK == OK;
    PilesSaid(OK, a, [Said(x)] + [], [], [], 1);
    PilesGot(ELINE, a, [Said(OK)] + ([Said(x)] + []), [], 1);
    PilesSent(ELINE, a, [Got(ELINE)] + ([Said(OK)] + ([Said(x)] + [])), 1);
    assert [Said(ELINE)] + a == [Said(ELINE), Got(OK)];
    assert [Got(ELINE)] + ([Said(OK)] + ([Said(x)] + [])) == [Got(ELINE), Said(OK), Said(x)];
  }

  lemma SoundClosing(f: Fault, late: bool, fs: Fs, k: nat)
    ensures Sound(Turn(ELINE, OK, fs, k, None).(b := Closing(f, late), extra := if late then 1 else 0), false)
  {
    SoundTurn(ELINE, OK, fs, k, None);
    if late {
      TwoSaid(OK, ErrText(f.msg), ELINE);
      OneWaited(ELINE, OK);
      ClosingSpills(ErrText(f.msg));
    } else {
      var t := Turn(ELINE, OK, fs, k, None);
      assert t.(b := Closing(f, false), extra := 0) == t;
    }
  }

  lemma {:induction false} SoundDir(env: Env, n: Node, p: Path, fs: Fs, k: nat, stamp: Option<Times>)
    requires n.Dir?
    ensures Sound(DirOrRefusal(env, n, p, fs, k, stamp),
      !DirFails(fs, p, env.fault(k)) && KidsOverlap(env, n.kids, p, MadeDir(env, fs, p, n.mode), k + 1, None))
    decreases n, 0
  {
    var f, line := env.fault(k), DLine(n.mode, n.name);
    if DirFails(fs, p, f) {
      SoundTurn(line, ErrText(f.msg), fs, k + 1, stamp);
    } else {
      var d := Turn(line, OK, MadeDir(env, fs, p, n.mode), k + 1, None);
      var c := KidsTalk(env, n.kids, p, d.fs, d.k, None);
      var late := stamp.Some? && f.dirtime;
      var e := Turn(ELINE, OK, ClosedDir(env, c.fs, p, n.mode, p !in fs, stamp, f), c.k, None)
               .(b := Closing(f, late), extra := if late then 1 else 0);
      var two := KidsOverlap(env, n.kids, p, d.fs, d.k, None);
      SoundTurn(line, OK, d.fs, d.k, None);
      SoundKids(env, n.kids, p, d.fs, d.k, None);
      SoundClosing(f, late, e.fs, e.k);
      SoundJoin(c, e, two, false);
      SoundJoin(d, Join(c, e), false, two);
    }
  }

  lemma {:induction false} SoundKids(env: Env, ns: seq<Node>, targ: Path, fs: Fs, k: nat, stamp: Option<Times>)
    ensures Sound(KidsTalk(env, ns, targ, fs, k, stamp), KidsOverlap(env, ns, targ, fs, k, stamp))
    decreases ns, 0
  {
    if ns == [] {
      SoundSilent(fs, k, stamp);
    } else {
      var x := NodeTalk(env, ns[0], targ, true, fs, k, stamp);
      var y := KidsTalk(env, ns[1..], targ, x.fs, x.k, x.stamp);
      SoundNode(env, ns[0], targ, true, fs, k, stamp);
      SoundKids(env, ns[1..], targ, x.fs, x.k, x.stamp);
      SoundJoin(x, y, NodeOverlaps(env, ns[0], targ, true, fs, k, stamp), KidsOverlap(env, ns[1..], targ, x.fs, x.k, x.stamp));
    }
  }

  // ---------- a whole transfer ----------

  /** The sending process: wait for the receiver, then send. */
  function Sender(n: Node, pflag: bool, io: Io): Io {
    var (io1, ok) := Response(io);
    if ok then Source(n, pflag, io1) else Die(io1)
  }

  /** Everything said when a tree is sent to a receiver. */
  function Session(env: Env, n: Node, targ: Path, fs: Fs): Talk {
    Join(Hello(fs), NodeTalk(env, n, targ, IsDir(fs, targ), fs, 0, None))
  }

  /** The receiver is ready. */
  function Hello(fs: Fs): Talk { Talk([], OK, [Got(OK)], [Said(OK)], fs, 0, None, 0) }

  /** The two processes before anything happened. */
  function Begin(env: Env, n: Node, targ: Path, fs: Fs): Link {
    var t := Session(env, n, targ, fs);
    Link(t.a, t.b, [], [])
  }

  lemma HelloTold(fs: Fs)
    ensures Told(Hello(fs))
  {
    Short(Got(OK), Got(OK), true);
    Short(Got(OK), Got(OK), false);
    Short(Said(OK), Said(OK), true);
    Short(Said(OK), Said(OK), false);
  }

  /**
   Whatever fails on either side: fed the answers it waits for, the sender
   writes exactly `t.w` and uses them up; fed `t.w`, the receiver reads all of it
   and says its side of the conversation.  It gives `t.extra` answers more than
   the sender waits for; without such, the sender's reads are the receiver's
   answers, one by one, and the two processes can run to their ends.
   */
  lemma RcpLockStep(env: Env, n: Node, targ: Path, fs: Fs)
    requires Sendable(n) && LegalFaults(env)
    ensures var t := Session(env, n, targ, fs);
            && Sender(n, env.pflag, Io(t.r, [], true)) == Io([], t.a, true)
            && Sink(env, targ, St(Io(t.w, [], true), fs, 0)) == St(Io([], t.b, true), t.fs, t.k)
            && Told(t) && (t.extra == 0 ==> LockStep(t.a, t.b))
  {
    SenderHolds(env, n, targ, fs);
    ReceiverHolds(env, n, targ, fs);
    SessionTold(env, n, targ, fs);
  }

  lemma SenderHolds(env: Env, n: Node, targ: Path, fs: Fs)
    requires LegalFaults(env)
    ensures var t := Session(env, n, targ, fs); Sender(n, env.pflag, Io(t.r, [], true)) == Io([], t.a, true)
  {
    var t := NodeTalk(env, n, targ, IsDir(fs, targ), fs, 0, None);
    var io0 := Io(OK + t.r, [], true);
    ResponseOk(io0, t.r);
    var io1 := Heard(io0, OK, t.r);
    assert t.r + [] == t.r;
    SourceTalks(env, n, targ, IsDir(fs, targ), fs, 0, None, io1, []);
    assert [] + [Got(OK)] == [Got(OK)];
  }

  lemma ReceiverHolds(env: Env, n: Node, targ: Path, fs: Fs)
    requires Sendable(n) && LegalFaults(env)
    ensures var t := Session(env, n, targ, fs);
            Sink(env, targ, St(Io(t.w, [], true), fs, 0)) == St(Io([], t.b, true), t.fs, t.k)
  {
    var t := NodeTalk(env, n, targ, IsDir(fs, targ), fs, 0, None);
    var st := St(Io(t.w, [Said(OK)], true), fs, 0);
    assert t.w + [] == t.w;
    SinkTalks(env, n, targ, IsDir(fs, targ), None, st, []);
    assert [] + [Said(OK)] == [Said(OK)] && [] + t.w == t.w;
  }

  lemma SessionTold(env: Env, n: Node, targ: Path, fs: Fs)
    ensures var t := Session(env, n, targ, fs); Told(t) && (t.extra == 0 ==> LockStep(t.a, t.b))
  {
    var t := NodeTalk(env, n, targ, IsDir(fs, targ), fs, 0, None);
    SoundNode(env, n, targ, IsDir(fs, targ), fs, 0, None);
    HelloTold(fs);
    ToldJoin(Hello(fs), t);
    if t.extra == 0 {
      LockStepHello();
      LockStepJoin([Got(OK)], [Said(OK)], t.a, t.b);
    }
  }

  /**
   The receiver answers what the sender waits for exactly when no accepted file
   has a mode that must be changed and cannot be, and no directory has times
   that cannot be set.
   */
  lemma RcpAnswersMatchIff(env: Env, n: Node, targ: Path, fs: Fs)
    requires Sendable(n) && LegalFaults(env)
    ensures var t := Session(env, n, targ, fs);
            var said := Sink(env, targ, St(Io(t.w, [], true), fs, 0)).io.tr;
            && (Bytes(said, true) == t.r <==> !NodeSpills(env, n, targ, IsDir(fs, targ), fs, 0, None))
            && |Parts(said, true)| == |Parts(t.a, false)| + t.extra
  {
    RcpLockStep(env, n, targ, fs);
    SpillsIff(env, n, targ, IsDir(fs, targ), fs, 0, None);
  }

  /**
   In every interleaving of what the ends say and hear, however far they got,
   both can go on to their ends, and the bytes on their way to the sender are
   the next answers it waits for, whole and in order: exactly when the receiver
   gives no answer too many.
   */
  lemma RcpNeverStuckIff(env: Env, n: Node, targ: Path, fs: Fs)
    requires Sendable(n) && LegalFaults(env)
    ensures (forall sched :: GoesOn(Begin(env, n, targ, fs), sched))
       <==> !NodeSpills(env, n, targ, IsDir(fs, targ), fs, 0, None)
  {
    var l := Begin(env, n, targ, fs);
    SpillsIff(env, n, targ, IsDir(fs, targ), fs, 0, None);
    RcpLockStep(env, n, targ, fs);
    if NodeSpills(env, n, targ, IsDir(fs, targ), fs, 0, None) {
      assert Replay(l, []) == Some(l);
      if Completes(l) { CompleteIsEven(l); }
      assert !GoesOn(l, []);
    } else {
      forall sched ensures GoesOn(l, sched) {
        NeverStuck(l, sched);
      }
    }
  }

  ghost predicate GoesOn(l: Link, sched: seq<bool>) {
    var m := Replay(l, sched);
    m.Some? ==> Completes(m.value) && Aligned(m.value)
  }

  lemma NeverStuck(l: Link, sched: seq<bool>)
    requires Completes(l) && Waits(l) == Answers(l) && Solid(Waits(l)) && l.up == []
    ensures GoesOn(l, sched)
  {
    if Replay(l, sched).Some? {
      AnyInterleaving(l, sched);
      var w := Waits(l);
      assert w[|w| - |Answers(l)|..] == w && w[..0] == [];
      AlignedAlways(l, sched);
    }
  }

  /**
   Two answers can be under way at once exactly when some file without data is
   accepted and cannot be truncated, so that the receiver answers twice without
   reading in between, or when it gives an answer too many.
   */
  lemma RcpTwoAnswersIff(env: Env, n: Node, targ: Path, fs: Fs)
    ensures Overlaps(Begin(env, n, targ, fs)) <==>
      || NodeOverlaps(env, n, targ, IsDir(fs, targ), fs, 0, None)
      || NodeSpills(env, n, targ, IsDir(fs, targ), fs, 0, None)
  {
    SpillsIff(env, n, targ, IsDir(fs, targ), fs, 0, None);
    SoundNode(env, n, targ, IsDir(fs, targ), fs, 0, None);
    HelloTimed(fs, NodeTalk(env, n, targ, IsDir(fs, targ), fs, 0, None),
               NodeOverlaps(env, n, targ, IsDir(fs, targ), fs, 0, None));
  }

  lemma HelloTimed(fs: Fs, t: Talk, two: bool)
    requires Sound(t, two)
    ensures var s := Join(Hello(fs), t); Overlaps(Link(s.a, s.b, [], [])) <==> two || t.extra > 0
  {
    var h := Hello(fs);
    HelloTold(fs);
    if two || t.extra > 0 {
      LockStepHello();
      OverlapsSecond(h.a, h.b, t.a, t.b);
    } else {
      ToldJoin(h, t);
      OneWait(h, t);
      NeverOverlaps(Link(h.a + t.a, h.b + t.b, [], []));
    }
  }

  lemma OneWait(h: Talk, t: Talk)
    requires h.a == [Got(OK)] && h.b == [Said(OK)] && Told(h) && h.extra == 0 && Sound(t, false) && t.extra == 0
    ensures Paced(h.a + t.a, h.b + t.b)
  {
    Short(Got(OK), Got(OK), false);
    OneAnswer(h.a, h.b);
    PacedJoin(h.a, h.b, t.a, t.b);
  }

  lemma NeverOverlaps(l: Link)
    requires Paced(l.a, l.b) && Balanced(l) && UnderWay(l) == 0
    ensures !Overlaps(l)
  {
    forall sched | Replay(l, sched).Some? ensures UnderWay(Replay(l, sched).value) < 2 {
      PacedAlways(l, sched);
    }
  }
}
