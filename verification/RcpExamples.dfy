/**
 Copies that go wrong, in the smallest cases.
 */
module RcpExamples {
  import opened Wrappers
  import opened Octets
  import opened Rcp
  import opened RcpTalk
  import opened RcpAnswers
  import opened RcpSession
  import opened RcpUnread
  import opened RcpDeadlock
  import opened RcpLoops

  const READ_ONLY := Mode(0, 4, 4, 4)

  const LONG_AGO := Times(Time(0, 0), Time(0, 0))

  const NO_FAULT := Fault(false, None, false, false, false, false, [])

  /** An empty directory to copy into. */
  const EMPTY: Fs := map[[] := DirEntry(Mode(0, 7, 7, 7), LONG_AGO)]

  /** A receiver without -p on which what `bad` says goes wrong with record number `k`. */
  function Receiver(k: nat, bad: Fault): Env {
    Env(false, NO_MASK, Time(0, 0), BUFSIZ, i => if i == k then bad else NO_FAULT)
  }

  /** A file that can only be read. */
  function ReadOnly(name: Byte, content: seq<Byte>): Node { File([name], READ_ONLY, LONG_AGO, content, None) }

  /** A read-only file whose mode cannot be set is answered once too often. */
  lemma AnswerTooMany() returns (env: Env, n: Node)
    ensures Sendable(n) && LegalFaults(env) && NodeSpills(env, n, [], true, EMPTY, 0, None)
    ensures var t := Session(env, n, [], EMPTY);
            Bytes(Sink(env, [], St(Io(t.w, [], true), EMPTY, 0)).io.tr, true) != t.r
  {
    env, n := Receiver(0, NO_FAULT.(chmod := true)), ReadOnly(97, []);
    RcpAnswersMatchIff(env, n, [], EMPTY);
  }

  /** An empty file that cannot be truncated has two answers under way, although all are waited for. */
  lemma TwoAnswers() returns (env: Env, n: Node)
    ensures !NodeSpills(env, n, [], true, EMPTY, 0, None) && Overlaps(Begin(env, n, [], EMPTY))
  {
    env, n := Receiver(0, NO_FAULT.(trunc := true)), ReadOnly(97, []);
    RcpTwoAnswersIff(env, n, [], EMPTY);
  }

  /** A file that can neither be truncated nor have its mode set: the answer too many is an error. */
  lemma LastIsError(env: Env, n: Node, q: Path, fs: Fs, k: nat)
    requires n.File? && !env.pflag && !OpenFails(fs, q + [n.name], env.fault(k))
    requires ModeFails(env, n, q + [n.name], fs, k) && env.fault(k).trunc
    ensures var t := NodeTalk(env, n, q, true, fs, k, None); Bytes(t.b, true) == t.r + ErrText(env.fault(k).msg)
  {
    var p, x, line := q + [n.name], ErrText(env.fault(k).msg), CLine(n.mode, |n.content|, n.name);
    var d := DataTalk(env, n, p, fs, k, None);
    DataAnswers(env, n, p, fs, k, None);
    assert d.r == x;
    GotSaid(line, OK);
    BytesAppend([Got(line), Said(OK)], d.b, true);
    TwoErrors(x);
    assert NodeTalk(env, n, q, true, fs, k, None) == Join(Silent(fs, k, None), Join(Turn(line, OK, fs, k, None), d));
    Empties([Got(line), Said(OK)] + d.b, OK + d.r);
  }

  lemma TwoErrors(x: seq<Byte>)
    ensures OK + (x + x) == (OK + x) + x
  {}

  lemma Empties(b: seq<Event>, r: seq<Byte>)
    ensures [] + b == b && [] + r == r
  {}

  /** Such a file, then one of five bytes, in a directory in a directory. */
  lemma Deadlocked() returns (c: Case, env: Env)
    ensures Fatal(c, env, [c.outer], EMPTY)
  {
    env := Receiver(2, NO_FAULT.(trunc := true, chmod := true));
    c := Case([100], [101], Mode(0, 7, 7, 7), LONG_AGO, ReadOnly(97, []), ReadOnly(98, [1, 2, 3, 4, 5]));
    var q := [c.outer] + [c.inner];
    TwoDirs(env, c);
    var fs2 := MadeDir(env, MadeDir(env, EMPTY, [c.outer], c.mode), q, c.mode);
    Fresh(env, c, q, fs2);
    LastIsError(env, c.first, q, fs2, 2);
    OneSendable2(c);
  }

  /** The two directories are made, and nothing is in them. */
  lemma TwoDirs(env: Env, c: Case)
    requires !env.pflag && !env.fault(0).open && !env.fault(1).open && c.first.File? && c.file.File?
    ensures var p, q := [c.outer], [c.outer] + [c.inner];
      var fs1 := MadeDir(env, EMPTY, p, c.mode);
      var fs2 := MadeDir(env, fs1, q, c.mode);
      && !DirFails(EMPTY, p, env.fault(0)) && !DirFails(fs1, q, env.fault(1)) && IsDir(fs2, q)
      && q + [c.first.name] !in fs2 && q + [c.file.name] !in fs2
  {
    var p, q := [c.outer], [c.outer] + [c.inner];
    assert Parent(p) == [] && Parent(q) == p && |p| == 1 && |q| == 2;
    var fs1 := MadeDir(env, EMPTY, p, c.mode);
    assert fs1.Keys == {[], p} && IsDir(fs1, p);
    var fs2 := MadeDir(env, fs1, q, c.mode);
    assert fs2.Keys == {[], p, q};
    assert |q + [c.first.name]| == 3 && |q + [c.file.name]| == 3;
  }

  /** Both files can be opened in the inner directory. */
  lemma Fresh(env: Env, c: Case, q: Path, fs2: Fs)
    requires IsDir(fs2, q) && c.first.File? && c.file.File? && c.first.name != c.file.name && !env.pflag
    requires q + [c.first.name] !in fs2 && q + [c.file.name] !in fs2
    requires !env.fault(2).open && !env.fault(3).open
    ensures !OpenFails(fs2, q + [c.first.name], env.fault(2))
    ensures var t := FirstTalk(c, env, q, fs2); t.k == 3 && !OpenFails(t.fs, q + [c.file.name], env.fault(t.k))
  {
    assert Parent(q + [c.first.name]) == q && Parent(q + [c.file.name]) == q;
    var t := FirstTalk(c, env, q, fs2);
    assert t.fs == Written(env, fs2, q + [c.first.name], c.first.mode, Payload(c.first), None, env.fault(2));
    assert (q + [c.first.name])[|q|] == c.first.name && (q + [c.file.name])[|q|] == c.file.name;
    StillThere(env, fs2, q + [c.first.name], c.first.mode, Payload(c.first), env.fault(2), q + [c.file.name]);
    StillThere(env, fs2, q + [c.first.name], c.first.mode, Payload(c.first), env.fault(2), q);
  }

  /** Nothing was made or unmade at `q`. */
  predicate Same(a: Fs, b: Fs, q: Path) { (q in a <==> q in b) && IsDir(a, q) == IsDir(b, q) }

  lemma SameOpened(env: Env, fs: Fs, p: Path, mode: Mode, q: Path)
    requires q != p
    ensures Same(fs, Opened(env, fs, p, mode), q)
  {}

  lemma SameChanged(env: Env, fs: Fs, p: Path, c: seq<Byte>, m: Mode, q: Path)
    ensures Same(fs, Modify(env, fs, p, c), q) && Same(fs, Chmod(fs, p, m), q)
  {}

  /** Writing a file makes no other, and unmakes no directory. */
  lemma StillThere(env: Env, fs: Fs, p: Path, mode: Mode, data: seq<Byte>, f: Fault, q: Path)
    requires q != p
    ensures Same(fs, Written(env, fs, p, mode, data, None, f), q)
  {
    var fs1 := Opened(env, fs, p, mode);
    SameOpened(env, fs, p, mode, q);
    var fs2 := Poured(env, fs1, p, data, f);
    SameChanged(env, fs1, p, Overlay(Content(fs1, p), data[..Reached(f, |data|)]), mode, q);
    SameSealed(env, fs2, p, mode, p in fs, |data|, f, q);
  }

  lemma SameSealed(env: Env, fs: Fs, p: Path, mode: Mode, existed: bool, size: nat, f: Fault, q: Path)
    ensures Same(fs, Sealed(env, fs, p, mode, existed, size, f), q)
  {
    SameChanged(env, fs, p, Resize(Content(fs, p), size), mode, q);
    var fs1 := if f.trunc then fs else Modify(env, fs, p, Resize(Content(fs, p), size));
    var m := FinalMode(env, existed, mode);
    if m.Some? { SameChanged(env, fs1, p, [], m.value, q); }
  }

  lemma OneSendable2(c: Case)
    requires Legal(c.outer) && Legal(c.inner) && Sendable(c.first) && Sendable(c.file)
    ensures Sendable(Outer(c))
  {
    assert [c.first, c.file][1..] == [c.file] && [c.file][1..] == [] && [Inner(c)][1..] == [];
    assert AllSendable([c.file]) && AllSendable([c.first, c.file]);
    assert Sendable(Inner(c)) && AllSendable([Inner(c)]);
  }
}
