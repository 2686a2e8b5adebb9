/**
 What an answer too many can do to a directory: the sender takes it for the
 answer to the next file and skips that file, while the receiver waits for its
 data.  In the end each waits for the other.
 */
module RcpDeadlock {
  import opened Wrappers
  import opened Octets
  import opened Rcp
  import opened RcpText
  import opened RcpTalk
  import opened RcpAnswers
  import opened RcpSession
  import opened RcpUnread

  /**
   Each end has read all that the other wrote, and waits: the sender for an
   answer, with which it would end, and the receiver for data, complaining only
   when the connection is closed.
   */
  ghost predicate Deadlock(env: Env, n: Node, targ: Path, fs: Fs, w: seq<Byte>, r: seq<Byte>, msg: seq<Byte>) {
    var a := Sender(n, env.pflag, Io(r, [], true));
    var b := Sink(env, targ, St(Io(w, [], true), fs, 0)).io;
    && a.inp == [] && !a.alive && Bytes(a.tr, true) == w && Sender(n, env.pflag, Io(r + OK, [], true)).alive
    && b.inp == [] && !b.alive && Bytes(b.tr, true) == r + ErrText(msg)
  }

  /** A directory in a directory, with something and then a file in it. */
  datatype Case = Case(outer: Name, inner: Name, mode: Mode, times: Times, first: Node, file: Node)

  function Inner(c: Case): Node { Dir(c.inner, c.mode, c.times, [c.first, c.file]) }

  function Outer(c: Case): Node { Dir(c.outer, c.mode, c.times, [Inner(c)]) }

  /** What is said about the first thing. */
  function FirstTalk(c: Case, env: Env, p: Path, fs: Fs): Talk { NodeTalk(env, c.first, p, true, fs, 2, None) }

  /**
   Both directories and the file are accepted, the file is longer than the two
   records that end the directories, and the receiver's last answer to the first
   thing is an error that is not waited for.
   */
  ghost predicate Fatal(c: Case, env: Env, p: Path, fs: Fs) {
    var q := p + [c.inner];
    var fs1 := MadeDir(env, fs, p, c.mode);
    var fs2 := MadeDir(env, fs1, q, c.mode);
    var t := FirstTalk(c, env, q, fs2);
    && !env.pflag && LegalFaults(env) && c.file.File? && |c.file.content| > |ELINE + ELINE| && Sendable(Outer(c))
    && !DirFails(fs, p, env.fault(0)) && !DirFails(fs1, q, env.fault(1))
    && !OpenFails(t.fs, q + [c.file.name], env.fault(t.k))
    && Bytes(t.b, true) == t.r + ErrText(env.fault(2).msg)
  }

  // ---------- the sender ----------

  function FileLine(c: Case): seq<Byte>
    requires c.file.File?
  {
    CLine(c.file.mode, |c.file.content|, c.file.name)
  }

  /** What the sender does in the inner directory: the file is skipped, and its acceptance taken for the answer to the end. */
  function InnerTrace(c: Case, t: Talk, msg: seq<Byte>): seq<Event>
    requires c.file.File?
  {
    [Said(DLine(c.mode, c.inner)), Got(OK)] + (t.a + ([Said(FileLine(c)), Got(ErrText(msg))] + [Said(ELINE), Got(OK)]))
  }

  lemma SkipsFile(c: Case, io: Io, msg: seq<Byte>, rest: seq<Byte>)
    requires c.file.File? && Legal(msg) && io.alive && io.inp == ErrText(msg) + (OK + rest)
    ensures var io1 := Source(c.file, false, io);
      io1.alive && Request(io1, ELINE).0 == After(io, [Said(FileLine(c)), Got(ErrText(msg))] + [Said(ELINE), Got(OK)], rest)
  {
    RequestErr(io, FileLine(c), msg, OK + rest);
    var io1 := After(io, [Said(FileLine(c)), Got(ErrText(msg))], OK + rest);
    RequestOk(io1, ELINE, rest);
    AfterAfter(io, [Said(FileLine(c)), Got(ErrText(msg))], [Said(ELINE), Got(OK)], OK + rest, rest);
  }

  lemma SendsInner(c: Case, env: Env, q: Path, fs2: Fs, io: Io, rest: seq<Byte>)
    requires !env.pflag && LegalFaults(env) && c.file.File? && io.alive
    requires io.inp == OK + (FirstTalk(c, env, q, fs2).r + (ErrText(env.fault(2).msg) + (OK + rest)))
    ensures Source(Inner(c), false, io) == After(io, InnerTrace(c, FirstTalk(c, env, q, fs2), env.fault(2).msg), rest)
  {
    var t, msg, line := FirstTalk(c, env, q, fs2), env.fault(2).msg, DLine(c.mode, c.inner);
    var r2 := ErrText(msg) + (OK + rest);
    RequestOk(io, line, t.r + r2);
    var io1 := After(io, [Said(line), Got(OK)], t.r + r2);
    SourceTalks(env, c.first, q, true, fs2, 2, None, io1, r2);
    var io2 := After(io1, t.a, r2);
    var end := [Said(FileLine(c)), Got(ErrText(msg))] + [Said(ELINE), Got(OK)];
    SkipsFile(c, io2, msg, rest);
    SendsTwo(c, io1, io2);
    AfterAfter(io1, t.a, end, r2, rest);
    AfterAfter(io, [Said(line), Got(OK)], t.a + end, t.r + r2, rest);
  }

  lemma SendsTwo(c: Case, io1: Io, io2: Io)
    requires io1.alive && io2.alive && Source(c.first, false, io1) == io2
    ensures SourceAll([c.first, c.file], false, io1) == Source(c.file, false, io2)
  {
    var ns := [c.first, c.file];
    assert ns[1..] == [c.file] && [c.file][1..] == [];
    assert SourceAll([c.file], false, io2) == SourceAll([], false, Source(c.file, false, io2));
  }

  lemma SendsOne(n: Node, io: Io)
    requires io.alive
    ensures SourceAll([n], false, io) == Source(n, false, io)
  {
    assert [n][1..] == [];
  }

  /** The answers the sender has had when it waits for the last. */
  function Answered(t: Talk, msg: seq<Byte>): seq<Byte> { OK + (OK + (OK + (t.r + (ErrText(msg) + OK)))) }

  function OuterTrace(c: Case, t: Talk, msg: seq<Byte>): seq<Event>
    requires c.file.File?
  {
    [Got(OK)] + ([Said(DLine(c.mode, c.outer)), Got(OK)] + InnerTrace(c, t, msg))
  }

  lemma SendsOuter(c: Case, env: Env, q: Path, fs2: Fs, rest: seq<Byte>)
    requires !env.pflag && LegalFaults(env) && c.file.File?
    ensures var t, msg := FirstTalk(c, env, q, fs2), env.fault(2).msg;
      Sender(Outer(c), false, Io(Answered(t, msg) + rest, [], true)) == Request(Io(rest, OuterTrace(c, t, msg), true), ELINE).0
  {
    var t, msg, line := FirstTalk(c, env, q, fs2), env.fault(2).msg, DLine(c.mode, c.outer);
    var r2 := OK + (t.r + (ErrText(msg) + (OK + rest)));
    var io := Io(OK + (OK + r2), [], true);
    assert Answered(t, msg) + rest == io.inp;
    ResponseOk(io, OK + r2);
    var io1 := After(io, [Got(OK)], OK + r2);
    RequestOk(io1, line, r2);
    var io2 := After(io1, [Said(line), Got(OK)], r2);
    SendsInner(c, env, q, fs2, io2, rest);
    SendsOne(Inner(c), io2);
    AfterAfter(io1, [Said(line), Got(OK)], InnerTrace(c, t, msg), r2, rest);
    AfterAfter(io, [Got(OK)], [Said(line), Got(OK)] + InnerTrace(c, t, msg), OK + r2, rest);
    assert [] + OuterTrace(c, t, msg) == OuterTrace(c, t, msg);
  }

  /** Without another answer the sender waits; with one it ends. */
  lemma SenderWaits(c: Case, env: Env, q: Path, fs2: Fs)
    requires !env.pflag && LegalFaults(env) && c.file.File?
    ensures var t, msg := FirstTalk(c, env, q, fs2), env.fault(2).msg;
      var r := Answered(t, msg);
      && Sender(Outer(c), false, Io(r, [], true)) == Io([], OuterTrace(c, t, msg) + [Said(ELINE)], false)
      && Sender(Outer(c), false, Io(r + OK, [], true)).alive
  {
    var t, msg := FirstTalk(c, env, q, fs2), env.fault(2).msg;
    SendsOuter(c, env, q, fs2, []);
    assert Answered(t, msg) + [] == Answered(t, msg);
    SendsOuter(c, env, q, fs2, OK);
    assert OK == OK + [];
    RequestOk(Io(OK, OuterTrace(c, t, msg), true), ELINE, []);
  }

  /** What it has written by then. */
  function SentSoFar(c: Case, t: Talk): seq<Byte>
    requires c.file.File?
  {
    DLine(c.mode, c.outer) + (DLine(c.mode, c.inner) + (t.w + (FileLine(c) + (ELINE + ELINE))))
  }

  lemma SentSoFarIs(c: Case, t: Talk, msg: seq<Byte>)
    requires c.file.File? && Told(t)
    ensures Bytes(OuterTrace(c, t, msg) + [Said(ELINE)], true) == SentSoFar(c, t)
  {
    var d, e, f := DLine(c.mode, c.outer), DLine(c.mode, c.inner), FileLine(c);
    BytesAppend(OuterTrace(c, t, msg), [Said(ELINE)], true);
    BytesThree([Got(OK)], [Said(d), Got(OK)], InnerTrace(c, t, msg), true);
    InnerWritten(c, t, msg);
    SaidGot(d, OK);
    Short(Got(OK), Said(ELINE), true);
    Short(Said(ELINE), Said(ELINE), true);
    NothingFirst(d + (e + (t.w + (f + ELINE))));
    Nested(d, e, t.w, f, ELINE, ELINE);
  }

  lemma InnerWritten(c: Case, t: Talk, msg: seq<Byte>)
    requires c.file.File? && Told(t)
    ensures Bytes(InnerTrace(c, t, msg), true) == DLine(c.mode, c.inner) + (t.w + (FileLine(c) + ELINE))
  {
    var e, f := DLine(c.mode, c.inner), FileLine(c);
    var skip, end := [Said(f), Got(ErrText(msg))], [Said(ELINE), Got(OK)];
    BytesThree([Said(e), Got(OK)], t.a, skip + end, true);
    BytesAppend(skip, end, true);
    SaidGot(e, OK);
    SaidGot(f, ErrText(msg));
    SaidGot(ELINE, OK);
  }

  lemma NothingFirst(s: seq<Byte>)
    ensures [] + s == s
  {}

  lemma Nested(d: seq<Byte>, e: seq<Byte>, w: seq<Byte>, f: seq<Byte>, x: seq<Byte>, y: seq<Byte>)
    ensures (d + (e + (w + (f + x)))) + y == d + (e + (w + (f + (x + y))))
  {
    assert (f + x) + y == f + (x + y);
    assert (w + (f + x)) + y == w + ((f + x) + y);
    assert (e + (w + (f + x))) + y == e + ((w + (f + x)) + y);
  }

  // ---------- the receiver ----------

  /** The file is accepted, and what ends the directories is taken for the start of its data. */
  lemma FileStalls(c: Case, env: Env, q: Path, stamp: Option<Times>, st: St)
    requires c.file.File? && Sendable(c.file) && |c.file.content| > |ELINE + ELINE| && st.io.alive
    requires !OpenFails(st.fs, q + [c.file.name], env.fault(st.k)) && st.io.inp == FileLine(c) + (ELINE + ELINE)
    ensures var io := SinkLoop(env, q, true, stamp, st).io;
      && !io.alive && io.inp == []
      && io.tr == st.io.tr + Stall(c, env.fault(st.k).msg)
  {
    var n, rest := c.file, ELINE + ELINE;
    SinkMake(env, C, n.mode, |n.content|, n.name, q, true, stamp, st, rest);
    var st1 := Moved(st, [Got(FileLine(c))], rest, st.fs, st.k);
    var r := SinkFile(env, st1, q + [n.name], n.mode, |n.content|, stamp);
    FileDies(env, st1, q + [n.name], n.mode, |n.content|, stamp);
    LoopEnds(env, q, true, stamp, st);
    assert st.io.tr + [Got(FileLine(c))] + [Said(OK)] + [Got(rest)] + [Said(ErrText(env.fault(st.k).msg))]
        == st.io.tr + Stall(c, env.fault(st.k).msg);
  }

  /** A file that is accepted and whose data never comes. */
  lemma FileDies(env: Env, st: St, p: Path, omode: Mode, size: nat, stamp: Option<Times>)
    requires !OpenFails(st.fs, p, env.fault(st.k)) && 0 < |st.io.inp| < size
    ensures var io := SinkFile(env, st, p, omode, size, stamp).0.io;
      && !io.alive && io.inp == []
      && io.tr == st.io.tr + [Said(OK)] + [Got(st.io.inp)] + [Said(ErrText(env.fault(st.k).msg))]
  {
    var inp := st.io.inp;
    assert inp[|inp|..] == [] && inp[..|inp|] == inp;
  }

  /** The inner directory. */
  lemma InnerStalls(c: Case, env: Env, q: Path, st: St)
    requires c.file.File? && Sendable(c.file) && Sendable(c.first) && LegalFaults(env) && |c.file.content| > |ELINE + ELINE|
    requires st.io.alive && IsDir(st.fs, q) && st.k == 2
    requires var t := FirstTalk(c, env, q, st.fs);
      !OpenFails(t.fs, q + [c.file.name], env.fault(t.k)) && st.io.inp == t.w + (FileLine(c) + (ELINE + ELINE))
    ensures var t := FirstTalk(c, env, q, st.fs);
      var io := Sink(env, q, st).io;
      && !io.alive && io.inp == []
      && io.tr == st.io.tr + ([Said(OK)] + (t.b + Stall(c, env.fault(t.k).msg)))
  {
    var t := FirstTalk(c, env, q, st.fs);
    var rest := FileLine(c) + (ELINE + ELINE);
    var st1 := Moved(st, [Said(OK)], st.io.inp, st.fs, st.k);
    SinkTalks(env, c.first, q, true, None, st1, rest);
    var st2 := Moved(st1, t.b, rest, t.fs, t.k);
    FileStalls(c, env, q, t.stamp, st2);
    Trace(st.io.tr, [Said(OK)], t.b, Stall(c, env.fault(t.k).msg));
  }

  lemma Trace(tr: seq<Event>, a: seq<Event>, b: seq<Event>, c: seq<Event>)
    ensures tr + a + b + c == tr + (a + (b + c))
  {}

  function Stall(c: Case, msg: seq<Byte>): seq<Event>
    requires c.file.File?
  {
    [Got(FileLine(c)), Said(OK), Got(ELINE + ELINE), Said(ErrText(msg))]
  }

  /** A directory record is accepted, and its contents never come to an end. */
  lemma {:induction false} DirStalls(env: Env, name: Name, mode: Mode, targ: Path, isdir: bool, stamp: Option<Times>,
                                     st: St, st1: St, rest: seq<Byte>)
    requires Legal(name) && st.io.alive && st.io.inp == DLine(mode, name) + rest
    requires st1 == Moved(st, [Got(DLine(mode, name))], rest, st.fs, st.k)
    requires var p := Target(targ, isdir, name);
      && !DirFails(st.fs, p, env.fault(st.k))
      && !Sink(env, p, St(st1.io, MadeDir(env, st.fs, p, mode), st.k + 1)).io.alive
    ensures var p := Target(targ, isdir, name);
      SinkLoop(env, targ, isdir, stamp, st) == Sink(env, p, St(st1.io, MadeDir(env, st.fs, p, mode), st.k + 1))
  {
    StepsInto(env, name, mode, targ, isdir, stamp, st, st1, rest);
    LoopDies(env, Target(targ, isdir, name), mode, targ, isdir, stamp, st, st1);
  }

  lemma LoopDies(env: Env, p: Path, mode: Mode, targ: Path, isdir: bool, stamp: Option<Times>, st: St, st1: St)
    requires st.io.alive && st.io.inp != [] && SinkStep(env, targ, isdir, stamp, st) == SinkDir(env, st1, p, mode, stamp)
    requires !DirFails(st1.fs, p, env.fault(st1.k))
        && !Sink(env, p, St(st1.io, MadeDir(env, st1.fs, p, mode), st1.k + 1)).io.alive
    ensures SinkLoop(env, targ, isdir, stamp, st) == Sink(env, p, St(st1.io, MadeDir(env, st1.fs, p, mode), st1.k + 1))
  {
    DirDies(env, p, mode, stamp, st1);
    LoopEnds(env, targ, isdir, stamp, st);
  }

  lemma StepsInto(env: Env, name: Name, mode: Mode, targ: Path, isdir: bool, stamp: Option<Times>, st: St, st1: St,
                  rest: seq<Byte>)
    requires Legal(name) && st.io.alive && st.io.inp == DLine(mode, name) + rest
    requires st1 == Moved(st, [Got(DLine(mode, name))], rest, st.fs, st.k)
    ensures st.io.inp != [] && SinkStep(env, targ, isdir, stamp, st)
        == SinkDir(env, st1, Target(targ, isdir, name), mode, stamp)
  {
    SinkMake(env, D, mode, 0, name, targ, isdir, stamp, st, rest);
  }

  lemma Trace2(tr: seq<Event>, a: seq<Event>, b: seq<Event>)
    ensures tr + a + b == tr + (a + b)
  {}

  /** A directory in which the receiver dies. */
  lemma DirDies(env: Env, p: Path, mode: Mode, stamp: Option<Times>, st: St)
    requires !DirFails(st.fs, p, env.fault(st.k))
    requires !Sink(env, p, St(st.io, MadeDir(env, st.fs, p, mode), st.k + 1)).io.alive
    ensures SinkDir(env, st, p, mode, stamp) == Back(Sink(env, p, St(st.io, MadeDir(env, st.fs, p, mode), st.k + 1)))
  {}

  /** The loop ends where its body does. */
  lemma LoopEnds(env: Env, targ: Path, isdir: bool, stamp: Option<Times>, st: St)
    requires st.io.inp != [] && st.io.alive
    ensures var r := SinkStep(env, targ, isdir, stamp, st);
      r.Back? || !r.st.io.alive ==> SinkLoop(env, targ, isdir, stamp, st) == r.st
  {}

  function OuterStall(c: Case, t: Talk, msg: seq<Byte>): seq<Event>
    requires c.file.File?
  {
    var inner := [Said(OK)] + ([Got(DLine(c.mode, c.inner))] + ([Said(OK)] + (t.b + Stall(c, msg))));
    [Said(OK)] + ([Got(DLine(c.mode, c.outer))] + inner)
  }

  /** The receiver in the outer directory. */
  lemma OuterStalls(c: Case, env: Env, p: Path, st: St)
    requires c.file.File? && Sendable(Inner(c)) && LegalFaults(env) && |c.file.content| > |ELINE + ELINE|
    requires st.io.alive && IsDir(st.fs, p) && st.k == 1 && !DirFails(st.fs, p + [c.inner], env.fault(1))
    requires var q := p + [c.inner];
      var fs2 := MadeDir(env, st.fs, q, c.mode);
      var t := FirstTalk(c, env, q, fs2);
      && !OpenFails(t.fs, q + [c.file.name], env.fault(t.k))
      && st.io.inp == DLine(c.mode, c.inner) + (t.w + (FileLine(c) + (ELINE + ELINE)))
    ensures var q := p + [c.inner];
      var t := FirstTalk(c, env, q, MadeDir(env, st.fs, q, c.mode));
      var io := Sink(env, p, st).io;
      && !io.alive && io.inp == []
      && io.tr == st.io.tr + ([Said(OK)] + ([Got(DLine(c.mode, c.inner))] + ([Said(OK)] + (t.b
          + Stall(c, env.fault(t.k).msg)))))
  {
    var q, line := p + [c.inner], DLine(c.mode, c.inner);
    var fs2 := MadeDir(env, st.fs, q, c.mode);
    var t := FirstTalk(c, env, q, fs2);
    var rest := t.w + (FileLine(c) + (ELINE + ELINE));
    var st1 := Moved(st, [Said(OK)], st.io.inp, st.fs, st.k);
    var b := [Said(OK)] + (t.b + Stall(c, env.fault(t.k).msg));
    MadeDirIsDir(env, st.fs, q, c.mode, env.fault(1));
    TwoSendable(c);
    var st2 := Moved(st1, [Got(line)], rest, st.fs, st.k);
    InnerStalls(c, env, q, St(st2.io, fs2, 2));
    DirStalls(env, c.inner, c.mode, p, true, None, st1, st2, rest);
    Trace(st.io.tr, [Said(OK)], [Got(line)], b);
  }

  lemma TwoSendable(c: Case)
    requires Sendable(Inner(c))
    ensures Legal(c.inner) && Sendable(c.first) && Sendable(c.file)
  {
    assert AllSendable([c.first, c.file]);
    assert [c.first, c.file][1..] == [c.file] && AllSendable([c.file]);
  }

  lemma OneSendable(c: Case)
    requires Sendable(Outer(c))
    ensures Legal(c.outer) && Sendable(Inner(c))
  {
    assert AllSendable([Inner(c)]);
  }

  lemma ReceiverWaits(c: Case, env: Env, targ: Path, fs: Fs)
    requires Fatal(c, env, Target(targ, IsDir(fs, targ), c.outer), fs)
    ensures var p := Target(targ, IsDir(fs, targ), c.outer);
      var t := TalkIn(c, env, p, fs);
      var io := Sink(env, targ, St(Io(SentSoFar(c, t), [], true), fs, 0)).io;
      !io.alive && io.inp == [] && io.tr == OuterStall(c, t, env.fault(t.k).msg)
  {
    var p, line := Target(targ, IsDir(fs, targ), c.outer), DLine(c.mode, c.outer);
    var fs1, t := MadeDir(env, fs, p, c.mode), TalkIn(c, env, p, fs);
    var rest := DLine(c.mode, c.inner) + (t.w + (FileLine(c) + (ELINE + ELINE)));
    var st := St(Io(SentSoFar(c, t), [Said(OK)], true), fs, 0);
    OneSendable(c);
    MadeDirIsDir(env, fs, p, c.mode, env.fault(0));
    var st1 := Moved(st, [Got(line)], rest, fs, 0);
    OuterStalls(c, env, p, St(st1.io, fs1, 1));
    var b := [Said(OK)] + ([Got(DLine(c.mode, c.inner))] + ([Said(OK)] + (t.b + Stall(c, env.fault(t.k).msg))));
    DirStalls(env, c.outer, c.mode, targ, IsDir(fs, targ), None, st, st1, rest);
    assert [] + [Said(OK)] == [Said(OK)];
    Trace2([Said(OK)], [Got(line)], b);
  }

  /** What is said about the first thing where it is going to be. */
  function TalkIn(c: Case, env: Env, p: Path, fs: Fs): Talk {
    var q := p + [c.inner];
    FirstTalk(c, env, q, MadeDir(env, MadeDir(env, fs, p, c.mode), q, c.mode))
  }

  lemma SaidSoFar(c: Case, t: Talk, m: seq<Byte>, msg: seq<Byte>)
    requires c.file.File? && Bytes(t.b, true) == t.r + ErrText(m)
    ensures Bytes(OuterStall(c, t, msg), true) == Answered(t, m) + ErrText(msg)
  {
    var d, e, x := [Got(DLine(c.mode, c.outer))], [Got(DLine(c.mode, c.inner))], Stall(c, msg);
    var rest := [Said(OK)] + (t.b + x);
    Short(Said(OK), Said(OK), true);
    Short(Got(DLine(c.mode, c.outer)), Said(OK), true);
    Short(Got(DLine(c.mode, c.inner)), Said(OK), true);
    StallSays(c, msg);
    BytesAppend(t.b, x, true);
    BytesAppend([Said(OK)], t.b + x, true);
    BytesAppend(e, rest, true);
    BytesAppend([Said(OK)], e + rest, true);
    BytesAppend(d, [Said(OK)] + (e + rest), true);
    BytesAppend([Said(OK)], d + ([Said(OK)] + (e + rest)), true);
    SameAnswers(t.r, ErrText(m), ErrText(msg));
  }

  lemma SameAnswers(r: seq<Byte>, x: seq<Byte>, y: seq<Byte>)
    ensures OK + ([] + (OK + ([] + (OK + ((r + x) + (OK + y)))))) == (OK + (OK + (OK + (r + (x + OK))))) + y
  {
    assert (r + x) + (OK + y) == (r + (x + OK)) + y;
  }

  lemma StallSays(c: Case, msg: seq<Byte>)
    requires c.file.File?
    ensures Bytes(Stall(c, msg), true) == OK + ErrText(msg)
  {
    var f, g, x := Got(FileLine(c)), Got(ELINE + ELINE), ErrText(msg);
    assert Stall(c, msg) == [f, Said(OK)] + [g, Said(x)];
    BytesAppend([f, Said(OK)], [g, Said(x)], true);
    Short(f, Said(OK), true);
    Short(g, Said(x), true);
    Short(Said(OK), Said(OK), true);
    Short(Said(x), Said(x), true);
  }

  /** Every such tree is never copied to the end. */
  lemma RcpDeadlock(c: Case, env: Env, targ: Path, fs: Fs)
    requires Fatal(c, env, Target(targ, IsDir(fs, targ), c.outer), fs)
    ensures var t := TalkIn(c, env, Target(targ, IsDir(fs, targ), c.outer), fs);
      Deadlock(env, Outer(c), targ, fs, SentSoFar(c, t), Answered(t, env.fault(2).msg), env.fault(t.k).msg)
  {
    var p := Target(targ, IsDir(fs, targ), c.outer);
    var q := p + [c.inner];
    var fs2 := MadeDir(env, MadeDir(env, fs, p, c.mode), q, c.mode);
    var t := TalkIn(c, env, p, fs);
    SoundNode(env, c.first, q, true, fs2, 2, None);
    SenderWaits(c, env, q, fs2);
    SentSoFarIs(c, t, env.fault(2).msg);
    ReceiverWaits(c, env, targ, fs);
    SaidSoFar(c, t, env.fault(2).msg, env.fault(t.k).msg);
  }
}
