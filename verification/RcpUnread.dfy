/**
 A file whose mode cannot be set: the receiver answers once more than the
 sender waits for, and the last answer is left unread.
 */
module RcpUnread {
  import opened Wrappers
  import opened Octets
  import opened Rcp
  import opened RcpText
  import opened RcpTalk
  import opened RcpAnswers
  import opened RcpSession

  /** The sender's side of a file that is accepted and then complained of. */
  function Complained(env: Env, n: Node, msg: seq<Byte>): seq<Event>
    requires n.File?
  {
    StampTalk(env, n.times, map[], 0, None).a
      + ([Said(CLine(n.mode, |n.content|, n.name)), Got(OK)] + (Saying(Payload(n)) + [Said(Status(n)), Got(ErrText(msg))]))
  }

  lemma SenderData(n: Node, io: Io, msg: seq<Byte>, y: seq<Byte>)
    requires n.File? && Legal(msg) && io.inp == ErrText(msg) + y
    ensures Response(Say(Say(io, Payload(n)), Status(n))).0
         == After(io, Saying(Payload(n)) + [Said(Status(n)), Got(ErrText(msg))], y)
  {
    var io1 := Say(Say(io, Payload(n)), Status(n));
    ResponseErr(io1, msg, y);
    assert io.tr + Saying(Payload(n)) + [Said(Status(n))] + [Got(ErrText(msg))]
        == io.tr + (Saying(Payload(n)) + [Said(Status(n)), Got(ErrText(msg))]);
    assert Say(io, Payload(n)).tr == io.tr + Saying(Payload(n));
  }

  /** The sender leaves `y`, whatever comes after the complaint. */
  lemma SourceLeaves(env: Env, n: Node, io: Io, msg: seq<Byte>, y: seq<Byte>)
    requires n.File? && Legal(msg)
    requires io.inp == StampTalk(env, n.times, map[], 0, None).r + (OK + (ErrText(msg) + y))
    ensures Source(n, env.pflag, io) == After(io, Complained(env, n, msg), y)
  {
    var s := StampTalk(env, n.times, map[], 0, None);
    var line := CLine(n.mode, |n.content|, n.name);
    var r2 := ErrText(msg) + y;
    var r1 := OK + r2;
    SourceStamp(env, n.times, map[], 0, None, io, r1);
    var io1 := After(io, s.a, r1);
    SourceStamped(n, env.pflag, io, io1);
    RequestOk(io1, line, r2);
    SenderData(n, After(io1, [Said(line), Got(OK)], r2), msg, y);
    var last := Saying(Payload(n)) + [Said(Status(n)), Got(ErrText(msg))];
    AfterAfter(io1, [Said(line), Got(OK)], last, r2, y);
    AfterAfter(io, s.a, [Said(line), Got(OK)] + last, r1, y);
  }

  lemma SenderLeaves(env: Env, n: Node, msg: seq<Byte>, y: seq<Byte>)
    requires n.File? && Legal(msg)
    ensures var r := StampTalk(env, n.times, map[], 0, None).r;
            Sender(n, env.pflag, Io(OK + (r + (OK + (ErrText(msg) + y))), [], true))
                == Io(y, [Got(OK)] + Complained(env, n, msg), true)
  {
    var r := StampTalk(env, n.times, map[], 0, None).r + (OK + (ErrText(msg) + y));
    var io0 := Io(OK + r, [], true);
    ResponseOk(io0, r);
    var io1 := Heard(io0, OK, r);
    assert io1 == After(io0, [Got(OK)], r);
    SourceLeaves(env, n, io1, msg, y);
    AfterAfter(io0, [Got(OK)], Complained(env, n, msg), r, y);
    assert [] + ([Got(OK)] + Complained(env, n, msg)) == [Got(OK)] + Complained(env, n, msg);
  }

  /** What the sender writes is what it writes when all goes well. */
  lemma SameWritten(env: Env, n: Node, msg: seq<Byte>, p: Path, fs: Fs, k: nat)
    requires n.File? && !OpenFails(fs, p, env.fault(k))
    ensures var s := StampTalk(env, n.times, fs, k, None);
            Bytes([Got(OK)] + Complained(env, n, msg), true) == s.w + FileTalk(env, n, p, fs, k, s.stamp).w
  {
    var line, d, st := CLine(n.mode, |n.content|, n.name), Payload(n), Status(n);
    var s := StampTalk(env, n.times, map[], 0, None);
    var data := Saying(d) + [Said(st), Got(ErrText(msg))];
    StampWritten(env, n.times);
    BytesAppend([Got(OK)], Complained(env, n, msg), true);
    BytesThree(s.a, [Said(line), Got(OK)], data, true);
    BytesAppend(Saying(d), [Said(st), Got(ErrText(msg))], true);
    SaidGot(line, OK);
    SaidGot(st, ErrText(msg));
    Short(Got(OK), Got(OK), true);
    Short(Said(d), Said(d), true);
    Join3(s.w, line, d + st);
  }

  lemma Join3(a: seq<Byte>, b: seq<Byte>, c: seq<Byte>)
    ensures [] + (a + (b + c)) == a + (b + c)
  {}

  lemma StampWritten(env: Env, t: Times)
    ensures var s := StampTalk(env, t, map[], 0, None); Bytes(s.a, true) == s.w
  {
    SoundStamp(env, t, map[], 0, None);
  }

  /** The receiver's answers to the data of such a file. */
  lemma DataAnswers(env: Env, n: Node, p: Path, fs: Fs, k: nat, stamp: Option<Times>)
    requires n.File? && ModeFails(env, n, p, fs, k)
    ensures Bytes(DataTalk(env, n, p, fs, k, stamp).b, true)
         == ErrText(env.fault(k).msg) + Verdict(env.fault(k), |n.content|, stamp)
  {
    var v, d := Verdict(env.fault(k), |n.content|, stamp), Payload(n);
    var last := Ending(Status(n), v, env.fault(k), true);
    BytesAppend(Getting(d), last, true);
    Short(Got(d), Got(d), true);
    ToldEnding(Status(n), v, env.fault(k), true);
  }

  lemma AnswersAppend(x: seq<Event>, line: seq<Byte>, z: seq<Event>)
    ensures Bytes([Said(OK)] + (x + ([Got(line), Said(OK)] + z)), true) == OK + (Bytes(x, true) + (OK + Bytes(z, true)))
  {
    BytesAppend([Said(OK)], x + ([Got(line), Said(OK)] + z), true);
    BytesAppend(x, [Got(line), Said(OK)] + z, true);
    BytesAppend([Got(line), Said(OK)], z, true);
    Short(Said(OK), Said(OK), true);
    Short(Got(line), Said(OK), true);
  }

  /** All its answers. */
  lemma AnswersGiven(env: Env, n: Node, p: Path, fs: Fs, k: nat)
    requires n.File? && !OpenFails(fs, p, env.fault(k)) && ModeFails(env, n, p, fs, k)
    ensures var s := StampTalk(env, n.times, fs, k, None);
            var v := Verdict(env.fault(k), |n.content|, s.stamp);
            Bytes([Said(OK)] + (s.b + FileTalk(env, n, p, fs, k, s.stamp).b), true)
                == OK + (s.r + (OK + (ErrText(env.fault(k).msg) + v)))
  {
    var s := StampTalk(env, n.times, fs, k, None);
    DataAnswers(env, n, p, fs, k, s.stamp);
    StampAnswers(env, n.times, fs, k);
    AnswersAppend(s.b, CLine(n.mode, |n.content|, n.name), DataTalk(env, n, p, fs, k, s.stamp).b);
  }

  lemma StampAnswers(env: Env, t: Times, fs: Fs, k: nat)
    ensures var s := StampTalk(env, t, fs, k, None); Bytes(s.b, true) == s.r && s.extra == 0
  {
    SoundStamp(env, t, fs, k, None);
  }

  /**
   A file sent on its own: the sender, on the receiver's answers, writes what
   the receiver was given, so the two processes run this way; and it leaves an
   answer unread exactly when the file is accepted and its mode cannot be set.
   */
  lemma RcpLeavesUnreadIff(env: Env, n: Node, targ: Path, fs: Fs)
    requires n.File? && Sendable(n) && LegalFaults(env)
    ensures var sent := Session(env, n, targ, fs).w;
            var said := Bytes(Sink(env, targ, St(Io(sent, [], true), fs, 0)).io.tr, true);
            var io := Sender(n, env.pflag, Io(said, [], true));
            var p := Target(targ, IsDir(fs, targ), n.name);
            && Bytes(io.tr, true) == sent && io.alive
            && (io.inp != [] <==> !OpenFails(fs, p, env.fault(0)) && ModeFails(env, n, p, fs, 0))
  {
    var p := Target(targ, IsDir(fs, targ), n.name);
    RcpLockStep(env, n, targ, fs);
    if !OpenFails(fs, p, env.fault(0)) && ModeFails(env, n, p, fs, 0) {
      LeavesVerdict(env, n, targ, fs);
    } else {
      assert Session(env, n, targ, fs).extra == 0;
    }
  }

  lemma LeavesVerdict(env: Env, n: Node, targ: Path, fs: Fs)
    requires n.File? && Sendable(n) && LegalFaults(env)
    requires var p := Target(targ, IsDir(fs, targ), n.name); !OpenFails(fs, p, env.fault(0)) && ModeFails(env, n, p, fs, 0)
    ensures var t := Session(env, n, targ, fs);
            var io := Sender(n, env.pflag, Io(Bytes(t.b, true), [], true));
            Bytes(io.tr, true) == t.w && io.alive && io.inp != []
  {
    var p := Target(targ, IsDir(fs, targ), n.name);
    var v := Verdict(env.fault(0), |n.content|, StampTalk(env, n.times, fs, 0, None).stamp);
    AnswersGiven(env, n, p, fs, 0);
    SenderLeaves(env, n, env.fault(0).msg, v);
    SameWritten(env, n, env.fault(0).msg, p, fs, 0);
    assert [] + NodeTalk(env, n, targ, IsDir(fs, targ), fs, 0, None).w == Session(env, n, targ, fs).w;
  }
}
