/**
 The conversation of the two ends, and the proof that each end, run on its own
 on what the other writes, holds exactly that conversation.
 */
module RcpTalk {
  import opened Wrappers
  import opened Octets
  import opened Rcp
  import opened RcpText

  /**
   A stretch of conversation: the bytes the sender writes and those it waits
   for, both traces, the receiver's files, fault counter and pending time stamp
   afterwards, and how many answers the receiver gives that nobody waits for.
   */
  datatype Talk = Talk(w: seq<Byte>, r: seq<Byte>, a: seq<Event>, b: seq<Event>, fs: Fs, k: nat,
      stamp: Option<Times>, extra: nat)

  function Join(x: Talk, y: Talk): Talk {
    Talk(x.w + y.w, x.r + y.r, x.a + y.a, x.b + y.b, y.fs, y.k, y.stamp, x.extra + y.extra)
  }

  function Silent(fs: Fs, k: nat, stamp: Option<Times>): Talk { Talk([], [], [], [], fs, k, stamp, 0) }

  /** One request and its answer. */
  function Turn(req: seq<Byte>, reply: seq<Byte>, fs: Fs, k: nat, stamp: Option<Times>): Talk {
    Talk(req, reply, [Said(req), Got(reply)], [Got(req), Said(reply)], fs, k, stamp, 0)
  }

  function StampTalk(env: Env, t: Times, fs: Fs, k: nat, stamp: Option<Times>): Talk {
    if env.pflag then Turn(TLine(t), OK, fs, k, Some(t)) else Silent(fs, k, stamp)
  }

  function Saying(b: seq<Byte>): seq<Event> { if b == [] then [] else [Said(b)] }

  function Getting(b: seq<Byte>): seq<Event> { if b == [] then [] else [Got(b)] }

  /** The answer to the data of a file. */
  function Verdict(f: Fault, size: nat, stamp: Option<Times>): seq<Byte> {
    if f.trunc || WriteFails(f, size) || (stamp.Some? && f.utime) then ErrText(f.msg) else OK
  }

  /** The mode of the file has to be changed, and cannot be. */
  predicate ModeFails(env: Env, n: Node, p: Path, fs: Fs, k: nat)
    requires n.File?
  {
    FinalMode(env, p in fs, n.mode).Some? && env.fault(k).chmod
  }

  /** The receiver after the data: failing to truncate or to set the mode is answered before the status is read. */
  function Ending(status: seq<Byte>, v: seq<Byte>, f: Fault, modeFails: bool): seq<Event> {
    if modeFails then
      if f.trunc then [Said(v), Said(ErrText(f.msg)), Got(status)] else [Said(ErrText(f.msg)), Got(status), Said(v)]
    else if f.trunc then [Said(v), Got(status)] else [Got(status), Said(v)]
  }

  /** The data, the sender's verdict on reading it, and the receiver's on writing it. */
  function DataTalk(env: Env, n: Node, p: Path, fs: Fs, k: nat, stamp: Option<Times>): Talk
    requires n.File?
  {
    var f := env.fault(k);
    var v := Verdict(f, |n.content|, stamp);
    Talk(Payload(n) + Status(n), v,
         Saying(Payload(n)) + [Said(Status(n)), Got(v)],
         Getting(Payload(n)) + Ending(Status(n), v, f, ModeFails(env, n, p, fs, k)),
         Written(env, fs, p, n.mode, Payload(n), stamp, f),
         k + 1,
         if WriteFails(f, |n.content|) || f.trunc then stamp else None,
         if ModeFails(env, n, p, fs, k) then 1 else 0)
  }

  function FileTalk(env: Env, n: Node, p: Path, fs: Fs, k: nat, stamp: Option<Times>): Talk
    requires n.File?
  {
    var line := CLine(n.mode, |n.content|, n.name);
    var f := env.fault(k);
    if OpenFails(fs, p, f) then Turn(line, ErrText(f.msg), fs, k + 1, stamp)
    else Join(Turn(line, OK, fs, k, stamp), DataTalk(env, n, p, fs, k, stamp))
  }

  function Target(targ: Path, isdir: bool, name: Name): Path { if isdir then targ + [name] else targ }

  /** Everything said about one node sent to a receiver whose target is `targ`. */
  function NodeTalk(env: Env, n: Node, targ: Path, isdir: bool, fs: Fs, k: nat, stamp: Option<Times>): Talk
    decreases n, 2
  {
    match n
    case Bad(msg) => Talk(ErrText(msg), [], [Said(ErrText(msg))], [Got(ErrText(msg))], fs, k, stamp, 0)
    case File(name, _, times, _, _) =>
      var s := StampTalk(env, times, fs, k, stamp);
      Join(s, FileTalk(env, n, Target(targ, isdir, name), fs, k, s.stamp))
    case Dir(name, mode, times, kids) =>
      var s := StampTalk(env, times, fs, k, stamp);
      Join(s, DirOrRefusal(env, n, Target(targ, isdir, name), fs, k, s.stamp))
  }

  function DirOrRefusal(env: Env, n: Node, p: Path, fs: Fs, k: nat, stamp: Option<Times>): Talk
    requires n.Dir?
    decreases n, 1
  {
    var f := env.fault(k);
    if DirFails(fs, p, f) then Turn(DLine(n.mode, n.name), ErrText(f.msg), fs, k + 1, stamp)
    else DirTalk(env, n, p, fs, k, stamp)
  }

  function DirTalk(env: Env, n: Node, p: Path, fs: Fs, k: nat, stamp: Option<Times>): Talk
    requires n.Dir?
    decreases n, 0
  {
    var d := Turn(DLine(n.mode, n.name), OK, MadeDir(env, fs, p, n.mode), k + 1, None);
    var c := KidsTalk(env, n.kids, p, d.fs, d.k, None);
    var late := stamp.Some? && env.fault(k).dirtime;
    var e := Turn(ELINE, OK, ClosedDir(env, c.fs, p, n.mode, p !in fs, stamp, env.fault(k)), c.k, None)
             .(b := Closing(env.fault(k), late), extra := if late then 1 else 0);
    Join(d, Join(c, e))
  }

  /** The receiver at the end of a directory whose times may fail to be set. */
  function Closing(f: Fault, late: bool): seq<Event> {
    if late then [Got(ELINE), Said(OK), Said(ErrText(f.msg))] else [Got(ELINE), Said(OK)]
  }

  function KidsTalk(env: Env, ns: seq<Node>, targ: Path, fs: Fs, k: nat, stamp: Option<Times>): Talk
    decreases ns, 0
  {
    if ns == [] then Silent(fs, k, stamp)
    else
      var x := NodeTalk(env, ns[0], targ, true, fs, k, stamp);
      Join(x, KidsTalk(env, ns[1..], targ, x.fs, x.k, x.stamp))
  }

  // ---------- what the theorems ask for ----------

  /** Names and messages are lines, sizes fit, and a failed read still sends as many bytes as announced. */
  predicate Sendable(n: Node)
    decreases n, 1
  {
    match n
    case Bad(msg) => Legal(msg)
    case File(name, _, _, content, error) =>
      Legal(name) && |content| <= SIZE_MAX && (error.Some? ==> Legal(error.value.msg))
    case Dir(name, _, _, kids) => Legal(name) && AllSendable(kids)
  }

  predicate AllSendable(ns: seq<Node>)
    decreases ns, 0
  {
    ns == [] || (Sendable(ns[0]) && AllSendable(ns[1..]))
  }

  /** Any pattern of faults, with messages that are lines. */
  ghost predicate LegalFaults(env: Env) { forall k :: Legal(env.fault(k).msg) }

  // ---------- the sender holds its side ----------

  function After(io: Io, tr: seq<Event>, rest: seq<Byte>): Io { io.(inp := rest, tr := io.tr + tr) }

  lemma AfterAfter(io: Io, x: seq<Event>, y: seq<Event>, r1: seq<Byte>, r2: seq<Byte>)
    ensures After(After(io, x, r1), y, r2) == After(io, x + y, r2)
    ensures After(io, [], io.inp) == io
  {
    assert io.tr + x + y == io.tr + (x + y);
    assert io.tr + [] == io.tr;
  }

  lemma AfterThree(io: Io, x: seq<Event>, y: seq<Event>, z: seq<Event>, r1: seq<Byte>, r2: seq<Byte>)
    ensures After(After(io, x + y, r1), z, r2) == After(io, x + (y + z), r2)
  {
    AfterAfter(io, x + y, z, r1, r2);
    assert x + y + z == x + (y + z);
  }

  lemma RequestOk(io: Io, req: seq<Byte>, rest: seq<Byte>)
    requires io.inp == OK + rest && req != []
    ensures Request(io, req) == (After(io, [Said(req), Got(OK)], rest), true)
  {
    ResponseOk(Say(io, req), rest);
    AfterAfter(io, [Said(req)], [Got(OK)], io.inp, rest);
    assert [Said(req)] + [Got(OK)] == [Said(req), Got(OK)];
  }

  lemma RequestErr(io: Io, req: seq<Byte>, msg: seq<Byte>, rest: seq<Byte>)
    requires io.inp == ErrText(msg) + rest && req != [] && Legal(msg)
    ensures Request(io, req) == (After(io, [Said(req), Got(ErrText(msg))], rest), false)
  {
    ResponseErr(Say(io, req), msg, rest);
    AfterAfter(io, [Said(req)], [Got(ErrText(msg))], io.inp, rest);
    assert [Said(req)] + [Got(ErrText(msg))] == [Said(req), Got(ErrText(msg))];
  }

  /** The sender's part of the data. */
  lemma SourceData(env: Env, n: Node, p: Path, fs: Fs, k: nat, stamp: Option<Times>, io: Io, rest: seq<Byte>)
    requires n.File? && LegalFaults(env)
    requires var t := DataTalk(env, n, p, fs, k, stamp); io.inp == t.r + rest
    ensures var t := DataTalk(env, n, p, fs, k, stamp);
            Response(Say(Say(io, Payload(n)), Status(n))).0 == After(io, t.a, rest)
  {
    var f := env.fault(k);
    var v := Verdict(f, |n.content|, stamp);
    var io1 := Say(Say(io, Payload(n)), Status(n));
    assert io1 == After(io, Saying(Payload(n)) + [Said(Status(n))], io.inp) by {
      if Payload(n) == [] {
        assert [] + [Said(Status(n))] == [Said(Status(n))];
      } else {
        AfterAfter(io, [Said(Payload(n))], [Said(Status(n))], io.inp, io.inp);
      }
    }
    if v == OK { ResponseOk(io1, rest); } else { ResponseErr(io1, f.msg, rest); }
    AfterAfter(io, Saying(Payload(n)) + [Said(Status(n))], [Got(v)], io.inp, rest);
    assert Saying(Payload(n)) + [Said(Status(n))] + [Got(v)] == Saying(Payload(n)) + [Said(Status(n)), Got(v)];
  }

  lemma SourceTaken(env: Env, n: Node, p: Path, fs: Fs, k: nat, stamp: Option<Times>, io: Io, io2: Io, rest: seq<Byte>)
    requires n.File? && LegalFaults(env)
    requires var line, d := CLine(n.mode, |n.content|, n.name), DataTalk(env, n, p, fs, k, stamp);
             io2 == After(io, [Said(line), Got(OK)], d.r + rest)
    ensures var line, d := CLine(n.mode, |n.content|, n.name), DataTalk(env, n, p, fs, k, stamp);
            Response(Say(Say(io2, Payload(n)), Status(n))).0 == After(io, [Said(line), Got(OK)] + d.a, rest)
  {
    var line, d := CLine(n.mode, |n.content|, n.name), DataTalk(env, n, p, fs, k, stamp);
    SourceData(env, n, p, fs, k, stamp, io2, rest);
    AfterAfter(io, [Said(line), Got(OK)], d.a, d.r + rest, rest);
  }

  lemma SourceFile(env: Env, n: Node, p: Path, fs: Fs, k: nat, stamp: Option<Times>, io: Io, rest: seq<Byte>)
    requires n.File? && LegalFaults(env)
    requires var t := FileTalk(env, n, p, fs, k, stamp); io.inp == t.r + rest
    ensures var t := FileTalk(env, n, p, fs, k, stamp);
            var (io2, ok2) := Request(io, CLine(n.mode, |n.content|, n.name));
            (if !ok2 then io2 else Response(Say(Say(io2, Payload(n)), Status(n))).0) == After(io, t.a, rest)
  {
    var line := CLine(n.mode, |n.content|, n.name);
    var f := env.fault(k);
    if OpenFails(fs, p, f) {
      RequestErr(io, line, f.msg, rest);
    } else {
      var d := DataTalk(env, n, p, fs, k, stamp);
      Assoc(OK, d.r, rest);
      RequestOk(io, line, d.r + rest);
      SourceTaken(env, n, p, fs, k, stamp, io, Request(io, line).0, rest);
    }
  }

  /** The optional T record. */
  lemma SourceStamp(env: Env, t: Times, fs: Fs, k: nat, stamp: Option<Times>, io: Io, rest: seq<Byte>)
    requires var s := StampTalk(env, t, fs, k, stamp); io.inp == s.r + rest
    ensures var s := StampTalk(env, t, fs, k, stamp);
            (if env.pflag then Request(io, TLine(t)) else (io, true)) == (After(io, s.a, rest), true)
  {
    if env.pflag {
      RequestOk(io, TLine(t), rest);
    } else {
      assert [] + rest == rest;
      AfterAfter(io, [], [], rest, rest);
    }
  }

  lemma Assoc(x: seq<Byte>, y: seq<Byte>, z: seq<Byte>)
    ensures x + y + z == x + (y + z)
  {}

  lemma AssocDir(line: seq<Byte>, w: seq<Byte>, rest: seq<Byte>)
    ensures line + (w + ELINE) + rest == line + (w + (ELINE + rest))
  {}

  lemma SourceStamped(n: Node, pflag: bool, io: Io, io1: Io)
    requires n.File? && (if pflag then Request(io, TLine(n.times)) else (io, true)) == (io1, true)
    ensures var (io2, ok2) := Request(io1, CLine(n.mode, |n.content|, n.name));
            Source(n, pflag, io) == if !ok2 then io2 else Response(Say(Say(io2, Payload(n)), Status(n))).0
  {}

  lemma SourceFileNode(env: Env, n: Node, p: Path, fs: Fs, k: nat, stamp: Option<Times>, io: Io, rest: seq<Byte>)
    requires n.File? && LegalFaults(env)
    requires var s := StampTalk(env, n.times, fs, k, stamp);
             io.inp == s.r + FileTalk(env, n, p, fs, k, s.stamp).r + rest
    ensures var s := StampTalk(env, n.times, fs, k, stamp);
            Source(n, env.pflag, io) == After(io, s.a + FileTalk(env, n, p, fs, k, s.stamp).a, rest)
  {
    var s := StampTalk(env, n.times, fs, k, stamp);
    var t := FileTalk(env, n, p, fs, k, s.stamp);
    Assoc(s.r, t.r, rest);
    SourceStamp(env, n.times, fs, k, stamp, io, t.r + rest);
    SourceStamped(n, env.pflag, io, After(io, s.a, t.r + rest));
    SourceFile(env, n, p, fs, k, s.stamp, After(io, s.a, t.r + rest), rest);
    AfterAfter(io, s.a, t.a, t.r + rest, rest);
  }

  lemma SourceDirRefused(env: Env, n: Node, p: Path, fs: Fs, k: nat, stamp: Option<Times>, io: Io, rest: seq<Byte>)
    requires n.Dir? && LegalFaults(env)
    requires var s := StampTalk(env, n.times, fs, k, stamp); io.inp == s.r + ErrText(env.fault(k).msg) + rest
    ensures var s := StampTalk(env, n.times, fs, k, stamp);
            Source(n, env.pflag, io)
              == After(io, s.a + [Said(DLine(n.mode, n.name)), Got(ErrText(env.fault(k).msg))], rest)
  {
    var s := StampTalk(env, n.times, fs, k, stamp);
    var msg := env.fault(k).msg;
    var r := ErrText(msg) + rest;
    assert s.r + ErrText(msg) + rest == s.r + r;
    SourceStamp(env, n.times, fs, k, stamp, io, r);
    RequestErr(After(io, s.a, r), DLine(n.mode, n.name), msg, rest);
    AfterAfter(io, s.a, [Said(DLine(n.mode, n.name)), Got(ErrText(msg))], r, rest);
  }

  lemma {:induction false} SourceDirTaken(env: Env, n: Node, p: Path, fs: Fs, k: nat, stamp: Option<Times>, io: Io,
                                          rest: seq<Byte>)
    requires n.Dir? && LegalFaults(env) && io.alive
    requires var s := StampTalk(env, n.times, fs, k, stamp);
             io.inp == s.r + DirTalk(env, n, p, fs, k, s.stamp).r + rest
    ensures var s := StampTalk(env, n.times, fs, k, stamp);
            Source(n, env.pflag, io) == After(io, s.a + DirTalk(env, n, p, fs, k, s.stamp).a, rest)
    decreases n, 1
  {
    var s := StampTalk(env, n.times, fs, k, stamp);
    var t := DirTalk(env, n, p, fs, k, s.stamp);
    Assoc(s.r, t.r, rest);
    SourceStamp(env, n.times, fs, k, stamp, io, t.r + rest);
    SourceDir(env, n, p, fs, k, s.stamp, After(io, s.a, t.r + rest), rest);
    AfterAfter(io, s.a, t.a, t.r + rest, rest);
  }

  /** Answered as in the conversation, the sender says its side of it and is left at its end. */
  lemma {:induction false} SourceTalks(env: Env, n: Node, targ: Path, isdir: bool, fs: Fs, k: nat,
                                       stamp: Option<Times>, io: Io, rest: seq<Byte>)
    requires LegalFaults(env) && io.alive
    requires io.inp == NodeTalk(env, n, targ, isdir, fs, k, stamp).r + rest
    ensures Source(n, env.pflag, io) == After(io, NodeTalk(env, n, targ, isdir, fs, k, stamp).a, rest)
    decreases n, 2
  {
    match n
    case Bad(msg) =>
      assert [] + rest == rest;
    case File(name, _, _, _, _) =>
      SourceFileNode(env, n, Target(targ, isdir, name), fs, k, stamp, io, rest);
    case Dir(name, _, _, _) =>
      var p := Target(targ, isdir, name);
      if DirFails(fs, p, env.fault(k)) {
        SourceDirRefused(env, n, p, fs, k, stamp, io, rest);
      } else {
        SourceDirTaken(env, n, p, fs, k, stamp, io, rest);
      }
  }

  lemma {:induction false} SourceDir(env: Env, n: Node, p: Path, fs: Fs, k: nat, stamp: Option<Times>, io: Io, rest: seq<Byte>)
    requires n.Dir? && LegalFaults(env) && io.alive
    requires var t := DirTalk(env, n, p, fs, k, stamp); io.inp == t.r + rest
    ensures var t := DirTalk(env, n, p, fs, k, stamp);
            var (io2, ok2) := Request(io, DLine(n.mode, n.name));
            ok2 && var io3 := SourceAll(n.kids, env.pflag, io2); io3.alive && Request(io3, ELINE).0 == After(io, t.a, rest)
    decreases n, 0
  {
    var line := DLine(n.mode, n.name);
    var fs1 := MadeDir(env, fs, p, n.mode);
    var c := KidsTalk(env, n.kids, p, fs1, k + 1, None);
    assert io.inp == OK + (c.r + (OK + rest));
    RequestOk(io, line, c.r + (OK + rest));
    var io2 := After(io, [Said(line), Got(OK)], c.r + (OK + rest));
    SourceKids(env, n.kids, p, fs1, k + 1, None, io2, OK + rest);
    AfterAfter(io, [Said(line), Got(OK)], c.a, c.r + (OK + rest), OK + rest);
    var io3 := After(io, [Said(line), Got(OK)] + c.a, OK + rest);
    RequestOk(io3, ELINE, rest);
    AfterAfter(io, [Said(line), Got(OK)] + c.a, [Said(ELINE), Got(OK)], OK + rest, rest);
    assert [Said(line), Got(OK)] + c.a + [Said(ELINE), Got(OK)] == [Said(line), Got(OK)] + (c.a + [Said(ELINE), Got(OK)]);
  }

  lemma {:induction false} SourceKids(env: Env, ns: seq<Node>, targ: Path, fs: Fs, k: nat, stamp: Option<Times>,
                                      io: Io, rest: seq<Byte>)
    requires LegalFaults(env) && io.alive
    requires var t := KidsTalk(env, ns, targ, fs, k, stamp); io.inp == t.r + rest
    ensures var t := KidsTalk(env, ns, targ, fs, k, stamp);
            SourceAll(ns, env.pflag, io) == After(io, t.a, rest)
    decreases ns, 0
  {
    if ns == [] {
      assert [] + rest == rest;
      AfterAfter(io, [], [], rest, rest);
    } else {
      var x := NodeTalk(env, ns[0], targ, true, fs, k, stamp);
      var y := KidsTalk(env, ns[1..], targ, x.fs, x.k, x.stamp);
      assert x.r + y.r + rest == x.r + (y.r + rest);
      SourceTalks(env, ns[0], targ, true, fs, k, stamp, io, y.r + rest);
      SourceKids(env, ns[1..], targ, x.fs, x.k, x.stamp, After(io, x.a, y.r + rest), rest);
      AfterAfter(io, x.a, y.a, y.r + rest, rest);
    }
  }

  // ---------- the receiver holds its side ----------

  function Moved(st: St, b: seq<Event>, rest: seq<Byte>, fs: Fs, k: nat): St { St(After(st.io, b, rest), fs, k) }

  /** A control line at the front of the input is parsed. */
  lemma ReadsLine(io: Io, line: seq<Byte>, rest: seq<Byte>)
    requires io.inp == line + [LF] + rest && LF !in line && line != []
    ensures Find(io.inp, LF) == |line| && io.inp[..|line|] == line
    ensures Get(io, |line| + 1) == After(io, [Got(line + [LF])], rest)
  {
    LineAtFront(line, rest);
  }

  lemma SaysAfter(io: Io, req: seq<Byte>, reply: seq<Byte>, rest: seq<Byte>)
    requires reply != []
    ensures Say(After(io, [Got(req)], rest), reply) == After(io, [Got(req), Said(reply)], rest)
  {
    assert io.tr + [Got(req)] + [Said(reply)] == io.tr + [Got(req), Said(reply)];
  }

  /** One turn of the receiver's loop. */
  lemma Goes(env: Env, targ: Path, isdir: bool, stamp: Option<Times>, st: St, set1: Option<Times>, st1: St)
    requires st.io.inp != [] && st.io.alive && SinkStep(env, targ, isdir, stamp, st) == Again(set1, st1)
    ensures SinkLoop(env, targ, isdir, stamp, st) == SinkLoop(env, targ, isdir, set1, st1)
  {}

  lemma SinkNote(env: Env, targ: Path, isdir: bool, stamp: Option<Times>, st: St, msg: seq<Byte>, rest: seq<Byte>)
    requires st.io.inp == ErrText(msg) + rest && Legal(msg) && st.io.alive
    ensures SinkStep(env, targ, isdir, stamp, st) == Again(stamp, Moved(st, [Got(ErrText(msg))], rest, st.fs, st.k))
  {
    ReadsLine(st.io, [1] + (RCP + msg), rest);
  }

  lemma SinkStamp(env: Env, t: Times, targ: Path, isdir: bool, stamp: Option<Times>, st: St, rest: seq<Byte>)
    requires st.io.inp == TLine(t) + rest && st.io.alive
    ensures SinkStep(env, targ, isdir, stamp, st) == Again(Some(t), Moved(st, [Got(TLine(t)), Said(OK)], rest, st.fs, st.k))
  {
    NoNewline(t, C, NO_MASK, 0, []);
    ReadsLine(st.io, [T] + TimesText(t), rest);
    StampBack(t);
    SaysAfter(st.io, TLine(t), OK, rest);
  }

  /** The optional T record. */
  lemma SinkStamped(env: Env, t: Times, targ: Path, isdir: bool, stamp: Option<Times>, st: St, rest: seq<Byte>)
    requires st.io.inp == StampTalk(env, t, st.fs, st.k, stamp).w + rest && st.io.alive
    ensures var s := StampTalk(env, t, st.fs, st.k, stamp);
            SinkLoop(env, targ, isdir, stamp, st) == SinkLoop(env, targ, isdir, s.stamp, Moved(st, s.b, rest, st.fs, st.k))
  {
    if env.pflag {
      SinkStamp(env, t, targ, isdir, stamp, st, rest);
      Goes(env, targ, isdir, stamp, st, Some(t), Moved(st, [Got(TLine(t)), Said(OK)], rest, st.fs, st.k));
    } else {
      assert [] + rest == rest;
      AfterAfter(st.io, [], [], rest, rest);
    }
  }

  /** The receiver reads the status of the sender's reading. */
  lemma HearsStatus(n: Node, io: Io, rest: seq<Byte>)
    requires n.File? && Sendable(n) && io.inp == Status(n) + rest
    ensures Response(io).0 == Heard(io, Status(n), rest)
  {
    if n.error.Some? { ResponseErr(io, n.error.value.msg, rest); } else { ResponseOk(io, rest); }
  }

  /** The receiver says yes and reads the data. */
  lemma ReadsData(io: Io, data: seq<Byte>, rest: seq<Byte>)
    requires io.inp == data + rest
    ensures Say(io, OK).inp == io.inp && io.inp[..|data|] == data
    ensures Get(Say(io, OK), |data|) == After(io, [Said(OK)] + Getting(data), rest)
  {
    if data == [] {
      assert [Said(OK)] + [] == [Said(OK)];
    } else {
      AfterAfter(io, [Said(OK)], [Got(data)], io.inp, rest);
    }
  }

  /** `SinkFile` on a file that is accepted and whose data is all there. */
  lemma SinkFileIs(env: Env, st: St, p: Path, omode: Mode, data: seq<Byte>, stamp: Option<Times>)
    requires !OpenFails(st.fs, p, env.fault(st.k)) && data <= st.io.inp
    ensures var f := env.fault(st.k);
            var io5 := Finishing(Get(Say(st.io, OK), |data|), FinalMode(env, p in st.fs, omode).Some?, f);
            io5.alive ==>
              SinkFile(env, st, p, omode, |data|, stamp) ==
                (St(if f.trunc then io5 else Say(io5, Verdict(f, |data|, stamp)),
                    Written(env, st.fs, p, omode, data, stamp, f), st.k + 1),
                 if WriteFails(f, |data|) || f.trunc then stamp else None)
  {
    assert Say(st.io, OK).inp == st.io.inp && st.io.inp[..|data|] == data;
  }

  /** The receiver's part of the data, after it has accepted the C record. */
  lemma SinkData(env: Env, n: Node, p: Path, st: St, stamp: Option<Times>, rest: seq<Byte>)
    requires n.File? && Sendable(n) && LegalFaults(env) && !OpenFails(st.fs, p, env.fault(st.k)) && st.io.alive
    requires st.io.inp == Payload(n) + (Status(n) + rest)
    ensures var t := DataTalk(env, n, p, st.fs, st.k, stamp);
            SinkFile(env, st, p, n.mode, |n.content|, stamp)
              == (Moved(st, [Said(OK)] + t.b, rest, t.fs, t.k), t.stamp)
  {
    var f := env.fault(st.k);
    var v := Verdict(f, |n.content|, stamp);
    var data, status := Payload(n), Status(n);
    SinkFileIs(env, st, p, n.mode, data, stamp);
    ReadsData(st.io, data, status + rest);
    SinkEnds(n, After(st.io, [Said(OK)] + Getting(data), status + rest), f, FinalMode(env, p in st.fs, n.mode).Some?, v, rest);
    var tail := Ending(status, v, f, ModeFails(env, n, p, st.fs, st.k));
    AfterThree(st.io, [Said(OK)], Getting(data), tail, status + rest, rest);
  }

  /** Failing to truncate or to set the mode is answered before the status is read, everything else after it. */
  lemma SinkEnds(n: Node, io: Io, f: Fault, modes: bool, v: seq<Byte>, rest: seq<Byte>)
    requires n.File? && Sendable(n) && io.inp == Status(n) + rest && v != [] && (f.trunc ==> v == ErrText(f.msg))
    ensures var io5 := Finishing(io, modes, f);
            && io5.alive == io.alive
            && (if f.trunc then io5 else Say(io5, v)) == After(io, Ending(Status(n), v, f, modes && f.chmod), rest)
  {
    var s := Status(n);
    var io3 := if f.trunc then Say(io, v) else io;
    var io4 := if modes && f.chmod then Say(io3, ErrText(f.msg)) else io3;
    HearsStatus(n, io4, rest);
    var first := (if f.trunc then [Said(v)] else []) + (if modes && f.chmod then [Said(ErrText(f.msg))] else []);
    assert io4.tr == io.tr + first;
    assert io.tr + first + [Got(s)] == io.tr + (first + [Got(s)]);
    assert io.tr + (first + [Got(s)]) + [Said(v)] == io.tr + (first + [Got(s)] + [Said(v)]);
    assert Ending(s, v, f, modes && f.chmod) == if f.trunc then first + [Got(s)] else first + [Got(s)] + [Said(v)];
  }

  /** A line that parses as a C or D record. */
  lemma StepMakes(env: Env, line: seq<Byte>, r: Rec, targ: Path, isdir: bool, stamp: Option<Times>, st: St, rest: seq<Byte>)
    requires line != [] && LF !in line && st.io.inp == line + [LF] + rest && st.io.alive
    requires Parse(line) == r && r.Make?
    ensures var st1 := Moved(st, [Got(line + [LF])], rest, st.fs, st.k);
            SinkStep(env, targ, isdir, stamp, st) ==
              if r.dir then SinkDir(env, st1, Target(targ, isdir, r.name), r.mode, stamp)
              else var (st2, set2) := SinkFile(env, st1, Target(targ, isdir, r.name), r.mode, r.size, stamp); Again(set2, st2)
  {
    ReadsLine(st.io, line, rest);
  }

  /** A C or D record at the front of the input. */
  lemma SinkMake(env: Env, c: Byte, mode: Mode, size: nat, name: Name, targ: Path, isdir: bool, stamp: Option<Times>,
                 st: St, rest: seq<Byte>)
    requires c == C || c == D
    requires Legal(name) && st.io.inp == MakeText(c, mode, size, name) + [LF] + rest && st.io.alive
    ensures var st1 := Moved(st, [Got(MakeText(c, mode, size, name) + [LF])], rest, st.fs, st.k);
            SinkStep(env, targ, isdir, stamp, st) ==
              if c == D then SinkDir(env, st1, Target(targ, isdir, name), mode, stamp)
              else var (st2, set2) := SinkFile(env, st1, Target(targ, isdir, name), mode, size, stamp); Again(set2, st2)
  {
    NoNewline(Times(Time(0, 0), Time(0, 0)), c, mode, size, name);
    MakeBack(c, mode, size, name);
    StepMakes(env, MakeText(c, mode, size, name), Make(c == D, mode, size, name), targ, isdir, stamp, st, rest);
  }

  lemma SinkFileRefused(env: Env, n: Node, targ: Path, isdir: bool, stamp: Option<Times>, st: St, rest: seq<Byte>)
    requires n.File? && Sendable(n) && LegalFaults(env) && st.io.alive
    requires OpenFails(st.fs, Target(targ, isdir, n.name), env.fault(st.k))
    requires st.io.inp == CLine(n.mode, |n.content|, n.name) + rest
    ensures var t := Turn(CLine(n.mode, |n.content|, n.name), ErrText(env.fault(st.k).msg), st.fs, st.k + 1, stamp);
            SinkStep(env, targ, isdir, stamp, st) == Again(t.stamp, Moved(st, t.b, rest, t.fs, t.k))
  {
    SinkMake(env, C, n.mode, |n.content|, n.name, targ, isdir, stamp, st, rest);
    SaysAfter(st.io, CLine(n.mode, |n.content|, n.name), ErrText(env.fault(st.k).msg), rest);
  }

  /** An accepted C record, once its line has been read. */
  lemma FileOutcome(env: Env, n: Node, p: Path, stamp: Option<Times>, st: St, st1: St, rest: seq<Byte>)
    requires n.File? && Sendable(n) && LegalFaults(env) && st.io.alive && !OpenFails(st.fs, p, env.fault(st.k))
    requires st1 == Moved(st, [Got(CLine(n.mode, |n.content|, n.name))],
                          DataTalk(env, n, p, st.fs, st.k, stamp).w + rest, st.fs, st.k)
    ensures var t := FileTalk(env, n, p, st.fs, st.k, stamp);
            SinkFile(env, st1, p, n.mode, |n.content|, stamp) == (Moved(st, t.b, rest, t.fs, t.k), t.stamp)
  {
    Assoc(Payload(n), Status(n), rest);
    SinkData(env, n, p, st1, stamp, rest);
    FileMoved(env, n, p, stamp, st, st1, rest);
  }

  lemma FileMoved(env: Env, n: Node, p: Path, stamp: Option<Times>, st: St, st1: St, rest: seq<Byte>)
    requires n.File? && !OpenFails(st.fs, p, env.fault(st.k))
    requires st1 == Moved(st, [Got(CLine(n.mode, |n.content|, n.name))], st1.io.inp, st.fs, st.k)
    ensures var d := DataTalk(env, n, p, st.fs, st.k, stamp);
            var t := FileTalk(env, n, p, st.fs, st.k, stamp);
            Moved(st1, [Said(OK)] + d.b, rest, d.fs, d.k) == Moved(st, t.b, rest, t.fs, t.k) && d.stamp == t.stamp
  {
    var line := CLine(n.mode, |n.content|, n.name);
    var d := DataTalk(env, n, p, st.fs, st.k, stamp);
    MovedTwice(st, [Got(line)], st1.io.inp, [Said(OK)] + d.b, rest, d.fs, d.k);
    Pair(Got(line), Said(OK), d.b);
  }

  lemma SinkFileTaken(env: Env, n: Node, targ: Path, isdir: bool, stamp: Option<Times>, st: St, rest: seq<Byte>, r1: seq<Byte>)
    requires n.File? && Sendable(n) && LegalFaults(env) && st.io.alive
    requires !OpenFails(st.fs, Target(targ, isdir, n.name), env.fault(st.k))
    requires r1 == DataTalk(env, n, Target(targ, isdir, n.name), st.fs, st.k, stamp).w + rest
    requires st.io.inp == CLine(n.mode, |n.content|, n.name) + r1
    ensures var t := FileTalk(env, n, Target(targ, isdir, n.name), st.fs, st.k, stamp);
            SinkStep(env, targ, isdir, stamp, st) == Again(t.stamp, Moved(st, t.b, rest, t.fs, t.k))
  {
    FileOutcome(env, n, Target(targ, isdir, n.name), stamp, st,
                Moved(st, [Got(CLine(n.mode, |n.content|, n.name))], r1, st.fs, st.k), rest);
    SinkMake(env, C, n.mode, |n.content|, n.name, targ, isdir, stamp, st, r1);
  }

  lemma SinkFileTalk(env: Env, n: Node, targ: Path, isdir: bool, stamp: Option<Times>, st: St, rest: seq<Byte>)
    requires n.File? && Sendable(n) && LegalFaults(env) && st.io.alive
    requires st.io.inp == FileTalk(env, n, Target(targ, isdir, n.name), st.fs, st.k, stamp).w + rest
    ensures var t := FileTalk(env, n, Target(targ, isdir, n.name), st.fs, st.k, stamp);
            SinkStep(env, targ, isdir, stamp, st) == Again(t.stamp, Moved(st, t.b, rest, t.fs, t.k))
  {
    var p := Target(targ, isdir, n.name);
    if OpenFails(st.fs, p, env.fault(st.k)) {
      SinkFileRefused(env, n, targ, isdir, stamp, st, rest);
    } else {
      var w, line := DataTalk(env, n, p, st.fs, st.k, stamp).w, CLine(n.mode, |n.content|, n.name);
      Assoc(line, w, rest);
      SinkFileTaken(env, n, targ, isdir, stamp, st, rest, w + rest);
    }
  }

  lemma SinkFileNode(env: Env, n: Node, targ: Path, isdir: bool, stamp: Option<Times>, st: St, rest: seq<Byte>)
    requires n.File? && Sendable(n) && LegalFaults(env) && st.io.alive
    requires st.io.inp == NodeTalk(env, n, targ, isdir, st.fs, st.k, stamp).w + rest
    ensures var t := NodeTalk(env, n, targ, isdir, st.fs, st.k, stamp);
            SinkLoop(env, targ, isdir, stamp, st) == SinkLoop(env, targ, isdir, t.stamp, Moved(st, t.b, rest, t.fs, t.k))
  {
    var s := StampTalk(env, n.times, st.fs, st.k, stamp);
    var t := FileTalk(env, n, Target(targ, isdir, n.name), st.fs, st.k, s.stamp);
    Assoc(s.w, t.w, rest);
    SinkStamped(env, n.times, targ, isdir, stamp, st, t.w + rest);
    var st1 := Moved(st, s.b, t.w + rest, st.fs, st.k);
    SinkFileTalk(env, n, targ, isdir, s.stamp, st1, rest);
    Goes(env, targ, isdir, s.stamp, st1, t.stamp, Moved(st1, t.b, rest, t.fs, t.k));
    AfterAfter(st.io, s.b, t.b, t.w + rest, rest);
  }

  lemma SinkEnd(env: Env, targ: Path, isdir: bool, stamp: Option<Times>, st: St, rest: seq<Byte>)
    requires st.io.inp == ELINE + rest && st.io.alive
    ensures SinkLoop(env, targ, isdir, stamp, st) == Moved(st, [Got(ELINE), Said(OK)], rest, st.fs, st.k)
  {
    ReadsLine(st.io, [E] + [], rest);
    SaysAfter(st.io, ELINE, OK, rest);
    assert Parse([E] + []) == End;
    assert SinkStep(env, targ, isdir, stamp, st) == Back(Moved(st, [Got(ELINE), Said(OK)], rest, st.fs, st.k));
  }

  lemma MadeDirIsDir(env: Env, fs: Fs, p: Path, mode: Mode, f: Fault)
    requires !DirFails(fs, p, f)
    ensures IsDir(MadeDir(env, fs, p, mode), p)
  {}

  /** `sink` called on a directory that exists: everything in it, up to the E record. */
  lemma {:induction false} SinkInto(env: Env, ns: seq<Node>, p: Path, st: St, rest: seq<Byte>)
    requires AllSendable(ns) && LegalFaults(env) && st.io.alive && IsDir(st.fs, p)
    requires st.io.inp == KidsTalk(env, ns, p, st.fs, st.k, None).w + (ELINE + rest)
    ensures var c := KidsTalk(env, ns, p, st.fs, st.k, None);
            Sink(env, p, st) == Moved(st, [Said(OK)] + (c.b + [Got(ELINE), Said(OK)]), rest, c.fs, c.k)
    decreases ns, 1
  {
    var c := KidsTalk(env, ns, p, st.fs, st.k, None);
    var st1 := Moved(st, [Said(OK)], st.io.inp, st.fs, st.k);
    SinkKids(env, ns, p, None, st1, ELINE + rest);
    SinkEnd(env, p, true, c.stamp, Moved(st1, c.b, ELINE + rest, c.fs, c.k), rest);
    AfterAfter(st.io, [Said(OK)], c.b, st.io.inp, ELINE + rest);
    AfterAfter(st.io, [Said(OK)] + c.b, [Got(ELINE), Said(OK)], ELINE + rest, rest);
    assert [Said(OK)] + c.b + [Got(ELINE), Said(OK)] == [Said(OK)] + (c.b + [Got(ELINE), Said(OK)]);
  }

  lemma SinkDirRefused(env: Env, n: Node, targ: Path, isdir: bool, stamp: Option<Times>, st: St, rest: seq<Byte>)
    requires n.Dir? && Sendable(n) && LegalFaults(env) && st.io.alive
    requires DirFails(st.fs, Target(targ, isdir, n.name), env.fault(st.k))
    requires st.io.inp == DLine(n.mode, n.name) + rest
    ensures var t := Turn(DLine(n.mode, n.name), ErrText(env.fault(st.k).msg), st.fs, st.k + 1, stamp);
            SinkStep(env, targ, isdir, stamp, st) == Again(t.stamp, Moved(st, t.b, rest, t.fs, t.k))
  {
    SinkMake(env, D, n.mode, 0, n.name, targ, isdir, stamp, st, rest);
    SaysAfter(st.io, DLine(n.mode, n.name), ErrText(env.fault(st.k).msg), rest);
  }

  /** The receiver accepts a directory, reads everything in it, and closes it. */
  lemma {:induction false} SinkDirTaken(env: Env, n: Node, p: Path, stamp: Option<Times>, st: St, rest: seq<Byte>)
    requires n.Dir? && Sendable(n) && LegalFaults(env) && st.io.alive && !DirFails(st.fs, p, env.fault(st.k))
    requires st.io.inp == KidsTalk(env, n.kids, p, MadeDir(env, st.fs, p, n.mode), st.k + 1, None).w + (ELINE + rest)
    ensures var c := KidsTalk(env, n.kids, p, MadeDir(env, st.fs, p, n.mode), st.k + 1, None);
            SinkDir(env, st, p, n.mode, stamp) ==
              Again(None, Moved(st, [Said(OK)] + (c.b + Closing(env.fault(st.k), stamp.Some? && env.fault(st.k).dirtime)), rest,
                                ClosedDir(env, c.fs, p, n.mode, p !in st.fs, stamp, env.fault(st.k)), c.k))
    decreases n, 0
  {
    MadeDirIsDir(env, st.fs, p, n.mode, env.fault(st.k));
    SinkInto(env, n.kids, p, St(st.io, MadeDir(env, st.fs, p, n.mode), st.k + 1), rest);
    var c := KidsTalk(env, n.kids, p, MadeDir(env, st.fs, p, n.mode), st.k + 1, None);
    ClosesLate(st.io, c.b, env.fault(st.k), rest);
    SinkDirIs(env, st, p, n.mode, stamp, Moved(st, [Said(OK)] + (c.b + Closing(env.fault(st.k), false)), rest, c.fs, c.k));
  }

  /** `SinkDir` where the directory is made and everything in it read. */
  lemma {:induction false} SinkDirIs(env: Env, st: St, p: Path, mode: Mode, stamp: Option<Times>, st2: St)
    requires !DirFails(st.fs, p, env.fault(st.k)) && st2.io.alive
    requires Sink(env, p, St(st.io, MadeDir(env, st.fs, p, mode), st.k + 1)) == st2
    ensures var f := env.fault(st.k);
            var io := if stamp.Some? && f.dirtime then Say(st2.io, ErrText(f.msg)) else st2.io;
            SinkDir(env, st, p, mode, stamp)
              == Again(None, St(io, ClosedDir(env, st2.fs, p, mode, p !in st.fs, stamp, f), st2.k))
  {}

  lemma ClosesLate(io: Io, b: seq<Event>, f: Fault, rest: seq<Byte>)
    ensures Say(After(io, [Said(OK)] + (b + Closing(f, false)), rest), ErrText(f.msg))
         == After(io, [Said(OK)] + (b + Closing(f, true)), rest)
  {
    var x := [Said(ErrText(f.msg))];
    assert Closing(f, true) == Closing(f, false) + x;
    assert io.tr + ([Said(OK)] + (b + Closing(f, false))) + x == io.tr + ([Said(OK)] + (b + (Closing(f, false) + x)));
  }

  /** An accepted D record, once its line has been read. */
  lemma {:induction false} DirOutcome(env: Env, n: Node, p: Path, stamp: Option<Times>, st: St, st1: St, rest: seq<Byte>)
    requires n.Dir? && Sendable(n) && LegalFaults(env) && st.io.alive && !DirFails(st.fs, p, env.fault(st.k))
    requires var c := KidsTalk(env, n.kids, p, MadeDir(env, st.fs, p, n.mode), st.k + 1, None);
             st1 == Moved(st, [Got(DLine(n.mode, n.name))], c.w + (ELINE + rest), st.fs, st.k)
    ensures var t := DirTalk(env, n, p, st.fs, st.k, stamp);
            SinkDir(env, st1, p, n.mode, stamp) == Again(None, Moved(st, t.b, rest, t.fs, t.k))
    decreases n, 1
  {
    SinkDirTaken(env, n, p, stamp, st1, rest);
    DirMoved(env, n, p, stamp, st, st1, rest);
  }

  lemma DirMoved(env: Env, n: Node, p: Path, stamp: Option<Times>, st: St, st1: St, rest: seq<Byte>)
    requires n.Dir? && st1 == Moved(st, [Got(DLine(n.mode, n.name))], st1.io.inp, st.fs, st.k)
    ensures var c := KidsTalk(env, n.kids, p, MadeDir(env, st.fs, p, n.mode), st.k + 1, None);
            var t := DirTalk(env, n, p, st.fs, st.k, stamp);
            Moved(st1, [Said(OK)] + (c.b + Closing(env.fault(st.k), stamp.Some? && env.fault(st.k).dirtime)), rest,
                  ClosedDir(env, c.fs, p, n.mode, p !in st.fs, stamp, env.fault(st.k)), c.k)
              == Moved(st, t.b, rest, t.fs, t.k)
  {
    DirTalkIs(env, n, p, st.fs, st.k, stamp);
    var c := KidsTalk(env, n.kids, p, MadeDir(env, st.fs, p, n.mode), st.k + 1, None);
    var t := DirTalk(env, n, p, st.fs, st.k, stamp);
    var b := [Said(OK)] + (c.b + Closing(env.fault(st.k), stamp.Some? && env.fault(st.k).dirtime));
    MovedTwice(st, [Got(DLine(n.mode, n.name))], st1.io.inp, b, rest, t.fs, t.k);
  }

  lemma MovedTwice(st: St, x: seq<Event>, r1: seq<Byte>, y: seq<Event>, r2: seq<Byte>, fs: Fs, k: nat)
    ensures Moved(Moved(st, x, r1, st.fs, st.k), y, r2, fs, k) == Moved(st, x + y, r2, fs, k)
  {
    AfterAfter(st.io, x, y, r1, r2);
  }

  /** What the receiver does in a directory's conversation. */
  lemma DirTalkIs(env: Env, n: Node, p: Path, fs: Fs, k: nat, stamp: Option<Times>)
    requires n.Dir?
    ensures var c := KidsTalk(env, n.kids, p, MadeDir(env, fs, p, n.mode), k + 1, None);
            var t := DirTalk(env, n, p, fs, k, stamp);
            && t.b == [Got(DLine(n.mode, n.name))]
                      + ([Said(OK)] + (c.b + Closing(env.fault(k), stamp.Some? && env.fault(k).dirtime)))
            && t.fs == ClosedDir(env, c.fs, p, n.mode, p !in fs, stamp, env.fault(k)) && t.k == c.k
  {
    var c := KidsTalk(env, n.kids, p, MadeDir(env, fs, p, n.mode), k + 1, None);
    Pair(Got(DLine(n.mode, n.name)), Said(OK), c.b + Closing(env.fault(k), stamp.Some? && env.fault(k).dirtime));
  }

  lemma Pair(x: Event, y: Event, b: seq<Event>)
    ensures [x] + ([y] + b) == [x, y] + b
  {}

  lemma {:induction false} SinkDirAccepted(env: Env, n: Node, targ: Path, isdir: bool, stamp: Option<Times>, st: St,
                                           rest: seq<Byte>, r1: seq<Byte>)
    requires n.Dir? && Sendable(n) && LegalFaults(env) && st.io.alive
    requires !DirFails(st.fs, Target(targ, isdir, n.name), env.fault(st.k))
    requires var p := Target(targ, isdir, n.name);
             r1 == KidsTalk(env, n.kids, p, MadeDir(env, st.fs, p, n.mode), st.k + 1, None).w + (ELINE + rest)
    requires st.io.inp == DLine(n.mode, n.name) + r1
    ensures var t := DirTalk(env, n, Target(targ, isdir, n.name), st.fs, st.k, stamp);
            SinkStep(env, targ, isdir, stamp, st) == Again(None, Moved(st, t.b, rest, t.fs, t.k))
    decreases n, 2
  {
    DirOutcome(env, n, Target(targ, isdir, n.name), stamp, st, Moved(st, [Got(DLine(n.mode, n.name))], r1, st.fs, st.k), rest);
    SinkMake(env, D, n.mode, 0, n.name, targ, isdir, stamp, st, r1);
  }

  /** A D record, refused or with everything up to its E record. */
  lemma {:induction false} SinkDirTalk(env: Env, n: Node, targ: Path, isdir: bool, stamp: Option<Times>, st: St,
                                       rest: seq<Byte>)
    requires n.Dir? && Sendable(n) && LegalFaults(env) && st.io.alive
    requires st.io.inp == DirOrRefusal(env, n, Target(targ, isdir, n.name), st.fs, st.k, stamp).w + rest
    ensures var t := DirOrRefusal(env, n, Target(targ, isdir, n.name), st.fs, st.k, stamp);
            SinkStep(env, targ, isdir, stamp, st) == Again(t.stamp, Moved(st, t.b, rest, t.fs, t.k))
    decreases n, 3
  {
    var p := Target(targ, isdir, n.name);
    if DirFails(st.fs, p, env.fault(st.k)) {
      SinkDirRefused(env, n, targ, isdir, stamp, st, rest);
    } else {
      var w, line := KidsTalk(env, n.kids, p, MadeDir(env, st.fs, p, n.mode), st.k + 1, None).w, DLine(n.mode, n.name);
      AssocDir(line, w, rest);
      SinkDirAccepted(env, n, targ, isdir, stamp, st, rest, w + (ELINE + rest));
    }
  }

  lemma {:induction false} SinkDirNode(env: Env, n: Node, targ: Path, isdir: bool, stamp: Option<Times>, st: St,
                                       rest: seq<Byte>)
    requires n.Dir? && Sendable(n) && LegalFaults(env) && st.io.alive
    requires st.io.inp == NodeTalk(env, n, targ, isdir, st.fs, st.k, stamp).w + rest
    ensures var t := NodeTalk(env, n, targ, isdir, st.fs, st.k, stamp);
            SinkLoop(env, targ, isdir, stamp, st) == SinkLoop(env, targ, isdir, t.stamp, Moved(st, t.b, rest, t.fs, t.k))
    decreases n, 4
  {
    var s := StampTalk(env, n.times, st.fs, st.k, stamp);
    var t := DirOrRefusal(env, n, Target(targ, isdir, n.name), st.fs, st.k, s.stamp);
    Assoc(s.w, t.w, rest);
    SinkStamped(env, n.times, targ, isdir, stamp, st, t.w + rest);
    var st1 := Moved(st, s.b, t.w + rest, st.fs, st.k);
    SinkDirTalk(env, n, targ, isdir, s.stamp, st1, rest);
    Goes(env, targ, isdir, s.stamp, st1, t.stamp, Moved(st1, t.b, rest, t.fs, t.k));
    AfterAfter(st.io, s.b, t.b, t.w + rest, rest);
  }

  /** Sent the conversation, the receiver says its side of it, and is ready for whatever comes next. */
  lemma {:induction false} SinkTalks(env: Env, n: Node, targ: Path, isdir: bool, stamp: Option<Times>, st: St, rest: seq<Byte>)
    requires Sendable(n) && LegalFaults(env) && st.io.alive
    requires st.io.inp == NodeTalk(env, n, targ, isdir, st.fs, st.k, stamp).w + rest
    ensures var t := NodeTalk(env, n, targ, isdir, st.fs, st.k, stamp);
            SinkLoop(env, targ, isdir, stamp, st) == SinkLoop(env, targ, isdir, t.stamp, Moved(st, t.b, rest, t.fs, t.k))
    decreases n, 5
  {
    match n
    case Bad(msg) =>
      SinkNote(env, targ, isdir, stamp, st, msg, rest);
      Goes(env, targ, isdir, stamp, st, stamp, Moved(st, [Got(ErrText(msg))], rest, st.fs, st.k));
    case File(_, _, _, _, _) => SinkFileNode(env, n, targ, isdir, stamp, st, rest);
    case Dir(_, _, _, _) => SinkDirNode(env, n, targ, isdir, stamp, st, rest);
  }

  lemma {:induction false} SinkKids(env: Env, ns: seq<Node>, targ: Path, stamp: Option<Times>, st: St, rest: seq<Byte>)
    requires AllSendable(ns) && LegalFaults(env) && st.io.alive
    requires st.io.inp == KidsTalk(env, ns, targ, st.fs, st.k, stamp).w + rest
    ensures var t := KidsTalk(env, ns, targ, st.fs, st.k, stamp);
            SinkLoop(env, targ, true, stamp, st) == SinkLoop(env, targ, true, t.stamp, Moved(st, t.b, rest, t.fs, t.k))
    decreases ns, 0
  {
    if ns == [] {
      assert [] + rest == rest;
      AfterAfter(st.io, [], [], rest, rest);
    } else {
      var x := NodeTalk(env, ns[0], targ, true, st.fs, st.k, stamp);
      var y := KidsTalk(env, ns[1..], targ, x.fs, x.k, x.stamp);
      assert x.w + y.w + rest == x.w + (y.w + rest);
      SinkTalks(env, ns[0], targ, true, stamp, st, y.w + rest);
      var st1 := Moved(st, x.b, y.w + rest, x.fs, x.k);
      SinkKids(env, ns[1..], targ, x.stamp, st1, rest);
      AfterAfter(st.io, x.b, y.b, y.w + rest, rest);
    }
  }
}
