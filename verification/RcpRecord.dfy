/**
 What one C or D record leaves behind, with any faults and whatever was there
 before.
 */
module RcpRecord {
  import opened Wrappers
  import opened Octets
  import opened Rcp
  import opened RcpText
  import opened RcpLoops

  // ---------- a file ----------

  /** The file has the data as far as it could be written, and behind that what was there, or NULs. */
  ghost predicate Holds(c: seq<Byte>, was: seq<Byte>, data: seq<Byte>, f: Fault) {
    var n := Reached(f, |data|);
    && n <= |data|
    && (forall i :: 0 <= i < |c| ==> c[i] == if i < n then data[i] else if i < |was| then was[i] else NUL)
    && |c| == if !f.trunc then |data| else if n < |was| then |was| else n
  }

  lemma HoldsAfter(was: seq<Byte>, data: seq<Byte>, f: Fault)
    ensures var n := Reached(f, |data|);
      var c := if n == 0 then was else Overlay(was, data[..n]);
      Holds(if f.trunc then c else Resize(c, |data|), was, data, f)
  {
    var n := Reached(f, |data|);
    assert |data[..n]| == n;
  }

  /** The mode of a file after a record that announced `omode`. */
  ghost predicate ModeAfter(env: Env, was: Option<Mode>, omode: Mode, f: Fault, m: Mode) {
    match was
    case Some(w) => m == if env.pflag && !f.chmod then omode else w
    case None =>
      if env.pflag then
        (if !f.chmod || omode == Writable(omode) then m == omode else m == Writable(omode))
      else
        (if !f.chmod || omode == Writable(omode) then m == Masked(omode, env.mask) else m == Masked(Writable(omode), env.mask))
  }

  /** With the time stamp if all went well, and otherwise dated now if it was made or written to. */
  ghost predicate TimesAfter(env: Env, was: Option<Times>, stamp: Option<Times>, data: seq<Byte>, f: Fault, t: Times) {
    var a := if was.Some? then was.value.a else env.now;
    if stamp.Some? && !WriteFails(f, |data|) && !f.trunc && !f.utime then t == stamp.value
    else if was.Some? && f.trunc && Reached(f, |data|) == 0 then t == was.value
    else t == Times(env.now, a)
  }

  /** Nothing but `p` changes, and the date of the directory it is made in. */
  ghost predicate OnlyAt(env: Env, a: Fs, b: Fs, p: Path) {
    forall q :: q != p ==> (q in a <==> q in b) && (q in a ==>
      b[q] == if p != [] && q == Parent(p) && p !in a && IsDir(a, q) then a[q].(times := Times(env.now, a[q].times.a)) else a[q])
  }

  lemma Mask(m: Mode)
    ensures Masked(m, NO_MASK) == m
  {
    NoBits(m.s);
    NoBits(m.u);
    NoBits(m.g);
    NoBits(m.o);
  }

  lemma NoBits(b: bv3)
    ensures b & !(0 as bv3) == b
  {}

  /** What the operations on modes do to each digit. */
  lemma ModeBits(m: Mode, mask: Mode)
    ensures var k := Masked(m, mask);
      && k.s & mask.s == 0 && k.u & mask.u == 0 && k.g & mask.g == 0 && k.o & mask.o == 0
      && k.s | (m.s & mask.s) == m.s && k.u | (m.u & mask.u) == m.u
      && k.g | (m.g & mask.g) == m.g && k.o | (m.o & mask.o) == m.o
    ensures var w := Writable(m); w == m.(u := w.u) && w.u & 2 == 2 && w.u & 5 == m.u & 5
    ensures OwnerAll(m) == m.(u := 7)
  {
    DigitBits(m.s, mask.s);
    DigitBits(m.u, mask.u);
    DigitBits(m.g, mask.g);
    DigitBits(m.o, mask.o);
  }

  lemma DigitBits(a: bv3, b: bv3)
    ensures (a & !b) & b == 0 && (a & !b) | (a & b) == a
    ensures (a | 2) & 2 == 2 && (a | 2) & 5 == a & 5
  {}

  /** The entry at `p`, step by step. */
  lemma OpenedEntry(env: Env, fs: Fs, p: Path, omode: Mode)
    requires !IsDir(fs, p)
    ensures var fs1 := Opened(env, fs, p, omode);
      && p in fs1 && OnlyAt(env, fs, fs1, p)
      && fs1[p] == if p in fs then fs[p] else
           FileEntry(if env.pflag then Writable(omode) else Masked(Writable(omode), env.mask), Times(env.now, env.now), [])
  {
    Mask(Writable(omode));
    if p != [] { assert |Parent(p)| < |p|; }
  }

  lemma PouredEntry(env: Env, fs: Fs, p: Path, data: seq<Byte>, f: Fault)
    requires p in fs && fs[p].FileEntry?
    ensures var n := Reached(f, |data|);
      Poured(env, fs, p, data, f) == if n == 0 then fs else
        fs[p := FileEntry(fs[p].mode, Times(env.now, fs[p].times.a), Overlay(fs[p].content, data[..n]))]
  {}

  lemma SealedEntry(env: Env, fs: Fs, p: Path, omode: Mode, existed: bool, size: nat, f: Fault)
    requires p in fs && fs[p].FileEntry?
    ensures Sealed(env, fs, p, omode, existed, size, f) == fs[p := FileEntry(
      if FinalMode(env, existed, omode).Some? && !f.chmod then FinalMode(env, existed, omode).value else fs[p].mode,
      if f.trunc then fs[p].times else Times(env.now, fs[p].times.a),
      if f.trunc then fs[p].content else Resize(fs[p].content, size))]
  {}

  lemma ModeIs(env: Env, fs: Fs, p: Path, omode: Mode, f: Fault, made: Mode)
    requires made == if p in fs then fs[p].mode else if env.pflag then Writable(omode) else Masked(Writable(omode), env.mask)
    ensures var fm := FinalMode(env, p in fs, omode);
      ModeAfter(env, if p in fs then Some(fs[p].mode) else None, omode, f, if fm.Some? && !f.chmod then fm.value else made)
  {}

  lemma DatedEntry(fs: Fs, p: Path, stamp: Option<Times>, wrerr: bool, f: Fault)
    requires p in fs
    ensures Dated(fs, p, stamp, wrerr, f)
      == fs[p := fs[p].(times := if stamp.Some? && !wrerr && !f.trunc && !f.utime then stamp.value else fs[p].times)]
  {}

  /** What the steps together make of a file that was opened. */
  function Steps(env: Env, e: Entry, fm: Option<Mode>, data: seq<Byte>, stamp: Option<Times>, f: Fault): Entry
    requires e.FileEntry?
  {
    var n := Reached(f, |data|);
    var now := Times(env.now, e.times.a);
    var c := if n == 0 then e.content else Overlay(e.content, data[..n]);
    FileEntry(
      if fm.Some? && !f.chmod then fm.value else e.mode,
      if stamp.Some? && !WriteFails(f, |data|) && !f.trunc && !f.utime then stamp.value
      else if f.trunc && n == 0 then e.times else now,
      if f.trunc then c else Resize(c, |data|))
  }

  /** Before the time stamp. */
  lemma StepsUndated(env: Env, fs1: Fs, p: Path, omode: Mode, existed: bool, data: seq<Byte>, f: Fault)
    requires p in fs1 && fs1[p].FileEntry?
    ensures Sealed(env, Poured(env, fs1, p, data, f), p, omode, existed, |data|, f)
      == fs1[p := Steps(env, fs1[p], FinalMode(env, existed, omode), data, None, f)]
  {
    PouredEntry(env, fs1, p, data, f);
    SealedEntry(env, Poured(env, fs1, p, data, f), p, omode, existed, |data|, f);
  }

  lemma StepsTaken(env: Env, fs: Fs, p: Path, omode: Mode, data: seq<Byte>, stamp: Option<Times>, f: Fault)
    requires !IsDir(fs, p)
    ensures var fs1 := Opened(env, fs, p, omode);
      p in fs1 && fs1[p].FileEntry?
      && Written(env, fs, p, omode, data, stamp, f)
        == fs1[p := Steps(env, fs1[p], FinalMode(env, p in fs, omode), data, stamp, f)]
  {
    OpenedEntry(env, fs, p, omode);
    StepsUndated(env, Opened(env, fs, p, omode), p, omode, p in fs, data, f);
    DatedEntry(Filled(env, fs, p, omode, data, f), p, stamp, WriteFails(f, |data|), f);
  }

  lemma TimesIs(env: Env, was: Option<Times>, e: Entry, fm: Option<Mode>, data: seq<Byte>, stamp: Option<Times>, f: Fault)
    requires e.FileEntry? && e.times == if was.Some? then was.value else Times(env.now, env.now)
    ensures TimesAfter(env, was, stamp, data, f, Steps(env, e, fm, data, stamp, f).times)
  {}

  /**
   Whatever was at its place, a C record that is accepted and whose data all
   comes leaves a file with the data, the mode and the times it is to have.
   */
  lemma FileAfter(env: Env, fs: Fs, p: Path, omode: Mode, data: seq<Byte>, stamp: Option<Times>, f: Fault)
    requires !OpenFails(fs, p, f)
    ensures var fs1 := Written(env, fs, p, omode, data, stamp, f);
      && OnlyAt(env, fs, fs1, p) && p in fs1 && fs1[p].FileEntry?
      && Holds(fs1[p].content, if p in fs then fs[p].content else [], data, f)
      && ModeAfter(env, if p in fs then Some(fs[p].mode) else None, omode, f, fs1[p].mode)
      && TimesAfter(env, if p in fs then Some(fs[p].times) else None, stamp, data, f, fs1[p].times)
  {
    var fs1 := Opened(env, fs, p, omode);
    OpenedEntry(env, fs, p, omode);
    StepsTaken(env, fs, p, omode, data, stamp, f);
    var e, fm := fs1[p], FinalMode(env, p in fs, omode);
    HoldsAfter(e.content, data, f);
    ModeIs(env, fs, p, omode, f, e.mode);
    TimesIs(env, if p in fs then Some(fs[p].times) else None, e, fm, data, stamp, f);
    OnlyThere(env, fs, fs1, fs1[p := Steps(env, e, fm, data, stamp, f)], p, Steps(env, e, fm, data, stamp, f));
  }

  lemma OnlyThere(env: Env, fs: Fs, fs1: Fs, fs2: Fs, p: Path, e: Entry)
    requires OnlyAt(env, fs, fs1, p) && fs2 == fs1[p := e]
    ensures OnlyAt(env, fs, fs2, p)
  {}

  /** The same of the record as `sink` obeys it; the data is read and, if the sender says so, the answer given. */
  lemma FileRecord(env: Env, st: St, p: Path, omode: Mode, size: nat, stamp: Option<Times>)
    requires !OpenFails(st.fs, p, env.fault(st.k)) && |st.io.inp| >= size
    requires SinkFile(env, st, p, omode, size, stamp).0.io.alive
    ensures var fs1 := SinkFile(env, st, p, omode, size, stamp).0.fs;
      var data, f := st.io.inp[..size], env.fault(st.k);
      && OnlyAt(env, st.fs, fs1, p) && p in fs1 && fs1[p].FileEntry?
      && Holds(fs1[p].content, if p in st.fs then st.fs[p].content else [], data, f)
      && ModeAfter(env, if p in st.fs then Some(st.fs[p].mode) else None, omode, f, fs1[p].mode)
      && TimesAfter(env, if p in st.fs then Some(st.fs[p].times) else None, stamp, data, f, fs1[p].times)
  {
    FileAfter(env, st.fs, p, omode, st.io.inp[..size], stamp, env.fault(st.k));
  }

  /** How many bytes the sender's status takes: it says that all was read, or a complaint. */
  ghost predicate StatusAhead(inp: seq<Byte>, status: seq<Byte>, rest: seq<Byte>) {
    inp == status + rest && (status == OK || exists msg :: Legal(msg) && status == ErrText(msg))
  }

  function Read(b: seq<Byte>): seq<Event> { if b == [] then [] else [Got(b)] }

  /**
   What is said about it: the record is accepted, and after the data each thing
   that fails is answered with an error: truncating and setting the mode at once,
   writing and setting the times instead of the acceptance.
   */
  lemma FileAnswers(env: Env, st: St, p: Path, omode: Mode, stamp: Option<Times>, data: seq<Byte>, status: seq<Byte>,
                    rest: seq<Byte>)
    requires st.io.alive && !OpenFails(st.fs, p, env.fault(st.k))
    requires st.io.inp == data + (status + rest) && StatusAhead(status + rest, status, rest)
    ensures var io, f := SinkFile(env, st, p, omode, |data|, stamp).0.io, env.fault(st.k);
      var no := [Said(ErrText(f.msg))];
      && io.alive && io.inp == rest
      && io.tr == st.io.tr + [Said(OK)] + Read(data) + (if f.trunc then no else [])
           + (if FinalMode(env, p in st.fs, omode).Some? && f.chmod then no else []) + [Got(status)]
           + (if f.trunc then [] else if WriteFails(f, |data|) || (stamp.Some? && f.utime) then no else [Said(OK)])
  {
    var f := env.fault(st.k);
    var modes := FinalMode(env, p in st.fs, omode).Some?;
    assert st.io.inp[..|data|] == data && st.io.inp[|data|..] == status + rest;
    var io2 := Get(Say(st.io, OK), |data|);
    DataRead(st.io, data, status + rest);
    FinishAnswers(io2, modes, f, status, rest);
    LastAnswer(env, st, p, omode, |data|, stamp, Finishing(io2, modes, f));
  }

  lemma DataRead(io: Io, data: seq<Byte>, rest: seq<Byte>)
    requires io.inp == data + rest
    ensures Get(Say(io, OK), |data|) == io.(inp := rest, tr := io.tr + [Said(OK)] + Read(data))
  {
    assert io.inp[..|data|] == data && io.inp[|data|..] == rest;
    assert io.tr + [Said(OK)] + [] == io.tr + [Said(OK)];
  }

  lemma FinishAnswers(io: Io, modes: bool, f: Fault, status: seq<Byte>, rest: seq<Byte>)
    requires io.alive && io.inp == status + rest && StatusAhead(status + rest, status, rest)
    ensures var r, no := Finishing(io, modes, f), [Said(ErrText(f.msg))];
      && r.alive && r.inp == rest
      && r.tr == io.tr + (if f.trunc then no else []) + (if modes && f.chmod then no else []) + [Got(status)]
  {
    var io3 := if f.trunc then Say(io, ErrText(f.msg)) else io;
    var io4 := if modes && f.chmod then Say(io3, ErrText(f.msg)) else io3;
    StatusRead(io4, status, rest);
    assert io.tr + [] == io.tr && io3.tr + [] == io3.tr;
  }

  /** The answer to the record. */
  lemma LastAnswer(env: Env, st: St, p: Path, omode: Mode, size: nat, stamp: Option<Times>, io5: Io)
    requires !OpenFails(st.fs, p, env.fault(st.k)) && |st.io.inp| >= size && io5.alive
    requires io5 == Finishing(Get(Say(st.io, OK), size), FinalMode(env, p in st.fs, omode).Some?, env.fault(st.k))
    ensures var f := env.fault(st.k);
      SinkFile(env, st, p, omode, size, stamp).0.io == io5.(tr := io5.tr
        + if f.trunc then [] else if WriteFails(f, size) || (stamp.Some? && f.utime) then [Said(ErrText(f.msg))] else [Said(OK)])
  {
    assert io5.tr + [] == io5.tr;
  }

  lemma StatusRead(io: Io, status: seq<Byte>, rest: seq<Byte>)
    requires io.alive && io.inp == status + rest && StatusAhead(status + rest, status, rest)
    ensures var io1 := Response(io).0; io1.alive && io1.inp == rest && io1.tr == io.tr + [Got(status)]
  {
    if status == OK {
      assert io.inp[0] == 0 && io.inp[1..] == rest && io.inp[..1] == status;
    } else {
      var msg :| Legal(msg) && status == ErrText(msg);
      LineAtFront(RCP + msg, rest);
      assert io.inp == [1] + ((RCP + msg) + [LF] + rest) && io.inp[1..] == (RCP + msg) + [LF] + rest;
      assert io.inp[|status|..] == rest && io.inp[..|status|] == status;
    }
  }

  /** Without faults: exactly the data, and nothing of what was there. */
  lemma ExactlyTheData(c: seq<Byte>, was: seq<Byte>, data: seq<Byte>, f: Fault)
    requires Holds(c, was, data, f) && !f.trunc && !WriteFails(f, |data|)
    ensures c == data
  {}

  /** A record that is refused changes nothing, is answered with an error, and its data is left to be read. */
  lemma Refused(env: Env, st: St, p: Path, omode: Mode, size: nat, stamp: Option<Times>)
    requires OpenFails(st.fs, p, env.fault(st.k))
    ensures var (st1, next) := SinkFile(env, st, p, omode, size, stamp);
      st1.fs == st.fs && st1.io.inp == st.io.inp && next == stamp
      && st1.io.tr == st.io.tr + [Said(ErrText(env.fault(st.k).msg))]
  {}

  /** Of a connection that breaks off, the buffers that were full are in the file, and the process ends. */
  lemma Dropped(env: Env, st: St, p: Path, omode: Mode, size: nat, stamp: Option<Times>)
    requires !OpenFails(st.fs, p, env.fault(st.k)) && |st.io.inp| < size && env.cnt > 0
    ensures var (st1, f, whole) := (SinkFile(env, st, p, omode, size, stamp).0, env.fault(st.k), Whole(env.cnt, |st.io.inp|));
      && !st1.io.alive && OnlyAt(env, st.fs, st1.fs, p) && p in st1.fs && st1.fs[p].FileEntry?
      && whole % env.cnt == 0 && whole <= |st.io.inp| < whole + env.cnt
      && Holds(st1.fs[p].content, if p in st.fs then st.fs[p].content else [], st.io.inp[..whole], f.(trunc := true))
  {
    var f, whole := env.fault(st.k), Whole(env.cnt, |st.io.inp|);
    WholeIs(env.cnt, |st.io.inp|);
    var fs1 := Opened(env, st.fs, p, omode);
    OpenedEntry(env, st.fs, p, omode);
    PouredEntry(env, fs1, p, st.io.inp[..whole], f);
    HoldsAfter(fs1[p].content, st.io.inp[..whole], f.(trunc := true));
    var fs2 := Poured(env, fs1, p, st.io.inp[..whole], f);
    OnlyThere(env, st.fs, fs1, fs2, p, fs2[p]);
  }

  lemma WholeIs(cnt: nat, n: nat)
    requires cnt > 0
    ensures Whole(cnt, n) % cnt == 0 && Whole(cnt, n) <= n < Whole(cnt, n) + cnt
  {
    var q := n / cnt;
    assert q * cnt + n % cnt == n;
    assert q * cnt + 0 == Whole(cnt, n);
    Remainder(q, cnt, 0);
  }

  // ---------- a directory ----------

  /**
   A D record that is accepted, with what `sink` does inside: the directory is
   there, made or as it was, before anything is put into it, and afterwards gets
   the times that were announced and, if it is new or with -p, the mode.
   */
  lemma DirRecord(env: Env, st: St, p: Path, mode: Mode, stamp: Option<Times>)
    requires !DirFails(st.fs, p, env.fault(st.k))
    ensures var made := MadeDir(env, st.fs, p, mode);
      var inside := Sink(env, p, St(st.io, made, st.k + 1));
      && IsDir(made, p) && OnlyAt(env, st.fs, made, p) && (p in st.fs && !env.pflag ==> made == st.fs)
      && (inside.io.alive && IsDir(inside.fs, p) ==>
        var r := SinkDir(env, st, p, mode, stamp);
        && r.Again? && r.stamp == None && r.st.io.inp == inside.io.inp
        && r.st.fs == inside.fs[p := DirEntry(
             if p !in st.fs || env.pflag then mode else inside.fs[p].mode,
             if stamp.Some? && !env.fault(st.k).dirtime then stamp.value else inside.fs[p].times)])
  {
    if p != [] { assert |Parent(p)| < |p|; }
  }

  // ---------- other records ----------

  /** A whole control line at the front of the input. */
  ghost predicate LineAhead(st: St, line: seq<Byte>, rest: seq<Byte>) {
    LF !in line && line != [] && st.io.inp == line + [LF] + rest && Find(st.io.inp, LF) == |line|
  }

  lemma {:induction false} LineStep(env: Env, targ: Path, isdir: bool, stamp: Option<Times>, st: St, line: seq<Byte>,
                                    rest: seq<Byte>)
    requires LineAhead(st, line, rest)
    ensures var io := Get(st.io, |line| + 1);
      io.inp == rest && SinkStep(env, targ, isdir, stamp, st) == Obeyed(env, targ, isdir, stamp, st.(io := io), Parse(line))
  {
    assert st.io.inp[..|line|] == line && st.io.inp[|line| + 1..] == rest;
  }

  lemma ParseIs(line: seq<Byte>)
    requires line != []
    ensures line[0] == 1 ==> Parse(line) == Note(false)
    ensures line[0] == 2 ==> Parse(line) == Note(true)
    ensures line[0] == E ==> Parse(line) == End
    ensures line[0] == T && ParseTimes(line[1..]).Some? ==> Parse(line) == Stamp(ParseTimes(line[1..]).value)
  {}

  lemma {:induction false} ObeyedIs(env: Env, targ: Path, isdir: bool, stamp: Option<Times>, st: St, rec: Rec)
    ensures var r := Obeyed(env, targ, isdir, stamp, st, rec);
      && (rec.Note? ==> r == if rec.fatal then Back(st.(io := Die(st.io))) else Again(stamp, st))
      && (rec.End? ==> r == Back(st.(io := Say(st.io, OK))))
      && (rec.Stamp? ==> r == Again(Some(rec.t), st.(io := Say(st.io, OK))))
      && (rec.Wrong? ==> r == Back(st.(io := Die(Say(st.io, ErrText([]))))))
  {}

  /**
   Complaints of the sender are passed over, or end the process if they are
   fatal; E returns; a stamp waits for its file; anything else is answered with
   an error and ends the process.  None of them touches a file.
   */
  lemma {:induction false} RecordRead(env: Env, targ: Path, isdir: bool, stamp: Option<Times>, st: St, line: seq<Byte>,
                                      rest: seq<Byte>)
    requires LineAhead(st, line, rest)
    ensures var r, io := SinkStep(env, targ, isdir, stamp, st), Get(st.io, |line| + 1);
      && io.inp == rest
      && (line[0] == 1 ==> r == Again(stamp, st.(io := io)))
      && (line[0] == 2 ==> r == Back(st.(io := Die(io))))
      && (line[0] == E ==> r == Back(st.(io := Say(io, OK))))
      && (line[0] == T && ParseTimes(line[1..]).Some? ==>
            r == Again(ParseTimes(line[1..]), st.(io := Say(io, OK))))
      && (Parse(line) == Wrong ==> r == Back(st.(io := Die(Say(io, ErrText([]))))))
  {
    LineStep(env, targ, isdir, stamp, st, line, rest);
    ParseIs(line);
    ObeyedIs(env, targ, isdir, stamp, st.(io := Get(st.io, |line| + 1)), Parse(line));
  }

  // ---------- the sender ----------

  /** A file whose record is accepted: its bytes and then whether they could all be read. */
  lemma FileSaid(n: Node, io: Io, rest: seq<Byte>)
    requires n.File? && io.alive && io.inp == OK + (OK + rest)
    ensures var data := Payload(n);
      Source(n, false, io) == io.(inp := rest, tr := io.tr
        + [Said(CLine(n.mode, |n.content|, n.name)), Got(OK)] + (if data == [] then [] else [Said(data)])
        + [Said(if n.error.Some? then ErrText(n.error.value.msg) else OK), Got(OK)])
  {
    var line := CLine(n.mode, |n.content|, n.name);
    var io1 := Say(io, line);
    assert io1.inp[0] == 0 && io1.inp[1..] == OK + rest && io1.inp[..1] == OK;
    var io2 := Request(io, line).0;
    assert io2.tr == io.tr + [Said(line), Got(OK)];
    var io3 := Say(Say(io2, Payload(n)), Status(n));
    assert io3.inp[0] == 0 && io3.inp[1..] == rest && io3.inp[..1] == OK;
  }

  /** What cannot be sent is complained of. */
  lemma BadSaid(msg: seq<Byte>, pflag: bool, io: Io)
    ensures Source(Bad(msg), pflag, io) == io.(tr := io.tr + [Said(ErrText(msg))])
  {}
}
