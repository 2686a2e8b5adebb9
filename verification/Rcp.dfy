/**
 The two ends of `rcp/rcp.c`: `source`/`rsource` print a tree as T, C, D and E
 records and file data, `sink` reads them back, and every request waits for a
 one-byte (or one-line) answer.

 Each end is modelled on its own, as a function of all the bytes it will
 receive; the order of its reads and writes is kept in a trace.
 */
module Rcp {
  import opened Wrappers
  import opened Octets

  // ---------- what is sent ----------

  type Name = seq<Byte>

  /** Room for the name or message in a record of at most BUFSIZ bytes. */
  const LINE_MAX := 8192 - 64

  /** Text that fits in one line of a C string. */
  predicate Legal(s: seq<Byte>) { LF !in s && NUL !in s && |s| <= LINE_MAX }

  /** Sizes the receiver's `int` can hold. */
  const SIZE_MAX := 0x7fff_ffff

  /** The twelve bits of RCP_MODEMASK, as the four octal digits printed by "%04o". */
  datatype Mode = Mode(s: bv3, u: bv3, g: bv3, o: bv3)

  function Writable(m: Mode): Mode { m.(u := m.u | 2) }          // | S_IWRITE
  function OwnerAll(m: Mode): Mode { m.(u := 7) }                // | S_IRWXU
  function Masked(m: Mode, mask: Mode): Mode {                   // & ~mask
    Mode(m.s & !mask.s, m.u & !mask.u, m.g & !mask.g, m.o & !mask.o)
  }

  const NO_MASK := Mode(0, 0, 0, 0)

  datatype Time = Time(sec: nat, usec: nat)
  datatype Times = Times(m: Time, a: Time)

  /**
   A read error: the message, which read failed, and what the buffer of the
   sending loop then holds and goes on being sent.  A read after the last is
   the `close`.
   */
  datatype ReadError = ReadError(msg: seq<Byte>, block: nat, stale: seq<Byte>)

  /** A tree to send.  `Bad` is a name that cannot be opened, listed or copied. */
  datatype Node =
    | Bad(msg: seq<Byte>)
    | File(name: Name, mode: Mode, times: Times, content: seq<Byte>, error: Option<ReadError>)
    | Dir(name: Name, mode: Mode, times: Times, kids: seq<Node>)

  /** Where reading stops, if it does. */
  function Good(e: ReadError): nat { e.block * |e.stale| }

  /** The bytes sent for a file: always as many as were announced. */
  function Payload(n: Node): (d: seq<Byte>)
    requires n.File?
    ensures |d| == |n.content|
  {
    if n.error.None? || n.error.value.stale == [] then n.content
    else
      var e := n.error.value;
      seq(|n.content|, i requires 0 <= i < |n.content| => if i < Good(e) then n.content[i] else e.stale[i % |e.stale|])
  }

  const T: Byte := 84
  const C: Byte := 67
  const D: Byte := 68
  const E: Byte := 69

  const OK: seq<Byte> := [0]
  const RCP: seq<Byte> := [114, 99, 112, 58, 32]     // "rcp: "

  function ErrText(msg: seq<Byte>): seq<Byte> { [1] + (RCP + msg) + [LF] }

  function Octal(d: bv3): Byte { ZERO + d as int }

  function ModeText(m: Mode): seq<Byte> { [Octal(m.s), Octal(m.u), Octal(m.g), Octal(m.o)] }

  function TimesText(t: Times): seq<Byte> {
    Digits(t.m.sec) + ([SPACE] + (Digits(t.m.usec) + ([SPACE] + (Digits(t.a.sec) + ([SPACE] + Digits(t.a.usec))))))
  }

  function TLine(t: Times): seq<Byte> { [T] + TimesText(t) + [LF] }

  function MakeText(c: Byte, m: Mode, size: nat, name: Name): seq<Byte> {
    [c] + ModeText(m) + ([SPACE] + (Digits(size) + ([SPACE] + name)))
  }

  function CLine(m: Mode, size: nat, name: Name): seq<Byte> { MakeText(C, m, size, name) + [LF] }

  function DLine(m: Mode, name: Name): seq<Byte> { MakeText(D, m, 0, name) + [LF] }

  const ELINE: seq<Byte> := [E] + [] + [LF]

  // ---------- one end of the connection ----------

  datatype Event = Said(b: seq<Byte>) | Got(b: seq<Byte>)

  /** The bytes still to be read, what has been read and written so far, and whether the process lives. */
  datatype Io = Io(inp: seq<Byte>, tr: seq<Event>, alive: bool)

  /** `write`; an empty write leaves no trace. */
  function Say(io: Io, b: seq<Byte>): Io { if b == [] then io else io.(tr := io.tr + [Said(b)]) }

  function Get(io: Io, n: nat): Io
    requires n <= |io.inp|
  {
    if n == 0 then io else io.(inp := io.inp[n..], tr := io.tr + [Got(io.inp[..n])])
  }

  function Die(io: Io): Io { io.(alive := false) }

  /** `response`: true for 0, false for an error line, and the process ends on anything else. */
  function Response(io: Io): (r: (Io, bool))
    ensures |r.0.inp| <= |io.inp|
  {
    if io.inp == [] then (Die(io), false)
    else if io.inp[0] == 0 then (Get(io, 1), true)
    else
      var n := Find(io.inp[1..], LF);
      if n + 1 == |io.inp| then (Die(io), false)
      else if io.inp[0] == 1 then (Get(io, n + 2), false)
      else (Die(Get(io, n + 2)), false)
  }

  function Request(io: Io, b: seq<Byte>): (Io, bool) { Response(Say(io, b)) }

  // ---------- the sender ----------

  function Status(n: Node): seq<Byte>
    requires n.File?
  {
    if n.error.Some? then ErrText(n.error.value.msg) else OK
  }

  /** `source` on one name, and `rsource`. */
  function Source(n: Node, pflag: bool, io: Io): Io
    decreases n
  {
    match n
    case Bad(msg) => Say(io, ErrText(msg))
    case File(name, mode, times, content, _) =>
      var (io1, ok1) := if pflag then Request(io, TLine(times)) else (io, true);
      if !ok1 then io1
      else
        var (io2, ok2) := Request(io1, CLine(mode, |content|, name));
        if !ok2 then io2 else Response(Say(Say(io2, Payload(n)), Status(n))).0
    case Dir(name, mode, times, kids) =>
      var (io1, ok1) := if pflag then Request(io, TLine(times)) else (io, true);
      if !ok1 then io1
      else
        var (io2, ok2) := Request(io1, DLine(mode, name));
        if !ok2 then io2
        else
          var io3 := SourceAll(kids, pflag, io2);
          if !io3.alive then io3 else Request(io3, ELINE).0
  }

  function SourceAll(ns: seq<Node>, pflag: bool, io: Io): Io
    decreases ns
  {
    if ns == [] || !io.alive then io else SourceAll(ns[1..], pflag, Source(ns[0], pflag, io))
  }

  // ---------- the receiver's file system ----------

  type Path = seq<Name>

  datatype Entry =
    | FileEntry(mode: Mode, times: Times, content: seq<Byte>)
    | DirEntry(mode: Mode, times: Times)

  type Fs = map<Path, Entry>

  predicate IsDir(fs: Fs, p: Path) { p in fs && fs[p].DirEntry? }

  function Parent(p: Path): Path
    requires p != []
  {
    p[..|p| - 1]
  }

  /**
   What can go wrong while one C or D record is being obeyed, and the message
   for it.  `room` is how many bytes of a file can be written, if not all.
   */
  datatype Fault = Fault(open: bool, room: Option<nat>, trunc: bool, utime: bool, dirtime: bool, chmod: bool, msg: seq<Byte>)

  /** The receiver's flags, umask, clock and buffer size, and the faults in the order the records come. */
  datatype Env = Env(pflag: bool, mask: Mode, now: Time, cnt: nat, fault: nat -> Fault)

  predicate WriteFails(f: Fault, size: nat) { f.room.Some? && f.room.value < size }

  /** How many of the first `n` bytes of the data get into the file. */
  function Reached(f: Fault, n: nat): nat { if WriteFails(f, n) then f.room.value else n }

  function Umask(env: Env): Mode { if env.pflag then NO_MASK else env.mask }

  /** A new entry: its times are now, and so is its directory's modification time. */
  function Create(env: Env, fs: Fs, p: Path, e: Entry): Fs {
    var fs1 := fs[p := e];
    if p != [] && IsDir(fs1, Parent(p))
    then var d := fs1[Parent(p)]; fs1[Parent(p) := d.(times := Times(env.now, d.times.a))]
    else fs1
  }

  function Chmod(fs: Fs, p: Path, m: Mode): Fs { if p in fs then fs[p := fs[p].(mode := m)] else fs }

  function Utimes(fs: Fs, p: Path, t: Times): Fs { if p in fs then fs[p := fs[p].(times := t)] else fs }

  predicate OpenFails(fs: Fs, p: Path, f: Fault) {
    f.open || IsDir(fs, p) || (p !in fs && (p == [] || !IsDir(fs, Parent(p))))
  }

  predicate MkdirFails(fs: Fs, p: Path, f: Fault) { f.open || p == [] || !IsDir(fs, Parent(p)) }

  /** A D record cannot be obeyed: something else is there, or nothing can be made there. */
  predicate DirFails(fs: Fs, p: Path, f: Fault) {
    (p in fs && !IsDir(fs, p)) || (p !in fs && MkdirFails(fs, p, f))
  }

  /** Whether `fchmod` is called, and with what. */
  function FinalMode(env: Env, existed: bool, omode: Mode): Option<Mode> {
    if env.pflag then if existed || omode != Writable(omode) then Some(omode) else None
    else if !existed && omode != Writable(omode) then Some(Masked(omode, env.mask)) else None
  }

  function Opened(env: Env, fs: Fs, p: Path, omode: Mode): Fs {
    if p in fs then fs
    else Create(env, fs, p, FileEntry(Masked(Writable(omode), Umask(env)), Times(env.now, env.now), []))
  }

  /** `d` written over the start of a file. */
  function Overlay(c: seq<Byte>, d: seq<Byte>): seq<Byte> { d + if |d| < |c| then c[|d|..] else [] }

  /** `ftruncate`. */
  function Resize(c: seq<Byte>, n: nat): seq<Byte> { if n <= |c| then c[..n] else c + seq(n - |c|, i => NUL) }

  function Content(fs: Fs, p: Path): seq<Byte> { if p in fs && fs[p].FileEntry? then fs[p].content else [] }

  /** New contents, with their date. */
  function Modify(env: Env, fs: Fs, p: Path, c: seq<Byte>): Fs {
    if p in fs && fs[p].FileEntry? then fs[p := fs[p].(content := c, times := Times(env.now, fs[p].times.a))] else fs
  }

  /** Data has been written, as far as it could be. */
  function Poured(env: Env, fs: Fs, p: Path, data: seq<Byte>, f: Fault): Fs {
    var n := Reached(f, |data|);
    if n == 0 then fs else Modify(env, fs, p, Overlay(Content(fs, p), data[..n]))
  }

  /** A file with its data in it after `ftruncate` and `fchmod`. */
  function Sealed(env: Env, fs: Fs, p: Path, omode: Mode, existed: bool, size: nat, f: Fault): Fs {
    var fs1 := if f.trunc then fs else Modify(env, fs, p, Resize(Content(fs, p), size));
    var fm := FinalMode(env, existed, omode);
    if fm.Some? && !f.chmod then Chmod(fs1, p, fm.value) else fs1
  }

  /** The file after its data has been written, truncated and its mode set. */
  function Filled(env: Env, fs: Fs, p: Path, omode: Mode, data: seq<Byte>, f: Fault): Fs {
    Sealed(env, Poured(env, Opened(env, fs, p, omode), p, data, f), p, omode, p in fs, |data|, f)
  }

  /** The time stamp is given to a file that was written without error. */
  function Dated(fs: Fs, p: Path, stamp: Option<Times>, wrerr: bool, f: Fault): Fs {
    if stamp.Some? && !wrerr && !f.trunc && !f.utime then Utimes(fs, p, stamp.value) else fs
  }

  /** And with its times set. */
  function Written(env: Env, fs: Fs, p: Path, omode: Mode, data: seq<Byte>, stamp: Option<Times>, f: Fault): Fs {
    Dated(Filled(env, fs, p, omode, data, f), p, stamp, WriteFails(f, |data|), f)
  }

  /** What a connection that breaks after `n` bytes leaves: the buffers that were full. */
  function Whole(cnt: nat, n: nat): nat { if cnt == 0 then 0 else n / cnt * cnt }

  lemma WholeFits(cnt: nat, n: nat)
    ensures Whole(cnt, n) <= n
  {}

  /** A directory made, or reused, for a D record. */
  function MadeDir(env: Env, fs: Fs, p: Path, mode: Mode): Fs {
    if p in fs then if env.pflag then Chmod(fs, p, mode) else fs
    else Create(env, fs, p, DirEntry(Masked(OwnerAll(mode), Umask(env)), Times(env.now, env.now)))
  }

  /** What is done to a directory after everything in it has arrived. */
  function ClosedDir(env: Env, fs: Fs, p: Path, mode: Mode, made: bool, stamp: Option<Times>, f: Fault): Fs {
    var fs1 := if stamp.Some? && !f.dirtime then Utimes(fs, p, stamp.value) else fs;
    if env.pflag || made then Chmod(fs1, p, mode) else fs1
  }

  // ---------- the receiver ----------

  datatype Rec =
    | Note(fatal: bool)
    | End
    | Stamp(t: Times)
    | Make(dir: bool, mode: Mode, size: nat, name: Name)
    | Wrong

  function Unoctal(c: Byte): Option<bv3> { if ZERO <= c <= ZERO + 7 then Some((c - ZERO) as bv3) else None }

  function ParseMode(s: seq<Byte>): Option<Mode>
    requires |s| == 4
  {
    var (a, b, c, d) := (Unoctal(s[0]), Unoctal(s[1]), Unoctal(s[2]), Unoctal(s[3]));
    if a.Some? && b.Some? && c.Some? && d.Some? then Some(Mode(a.value, b.value, c.value, d.value)) else None
  }

  /** A number, then a space. */
  function ScanSpace(s: seq<Byte>): Option<(nat, seq<Byte>)> {
    var (n, r) := Scan(s);
    if r != [] && r[0] == SPACE then Some((n, r[1..])) else None
  }

  function ParseTimes(s: seq<Byte>): Option<Times> {
    match ScanSpace(s)
    case None => None
    case Some((ms, r1)) =>
      match ScanSpace(r1)
      case None => None
      case Some((mu, r2)) =>
        match ScanSpace(r2)
        case None => None
        case Some((asec, r3)) =>
          var (au, r4) := Scan(r3);
          if r4 == [] then Some(Times(Time(ms, mu), Time(asec, au))) else None
  }

  /** A control line, without its newline. */
  function Parse(line: seq<Byte>): Rec {
    if line == [] then Wrong
    else if line[0] == 1 || line[0] == 2 then Note(line[0] == 2)
    else if line[0] == E then End
    else if line[0] == T then
      match ParseTimes(line[1..])
      case Some(t) => Stamp(t)
      case None => Wrong
    else if (line[0] == C || line[0] == D) && |line| >= 6 && line[5] == SPACE && ParseMode(line[1..5]).Some? then
      match ScanSpace(line[6..])
      case Some((size, name)) => Make(line[0] == D, ParseMode(line[1..5]).value, size, name)
      case None => Wrong
    else Wrong
  }

  datatype St = St(io: Io, fs: Fs, k: nat)

  /** A C record: open, read the data, finish the file, and answer.  Also gives the time stamp still pending. */
  function SinkFile(env: Env, st: St, p: Path, omode: Mode, size: nat, stamp: Option<Times>): (r: (St, Option<Times>))
    ensures |r.0.io.inp| <= |st.io.inp|
  {
    var f := env.fault(st.k);
    if OpenFails(st.fs, p, f) then (St(Say(st.io, ErrText(f.msg)), st.fs, st.k + 1), stamp)
    else
      var io1 := Say(st.io, OK);
      if |io1.inp| < size then
        WholeFits(env.cnt, |io1.inp|);
        (St(Die(Say(Get(io1, |io1.inp|), ErrText(f.msg))),
            Poured(env, Opened(env, st.fs, p, omode), p, io1.inp[..Whole(env.cnt, |io1.inp|)], f), st.k + 1), stamp)
      else
        var data := io1.inp[..size];
        var io5 := DataPhase(io1, size, FinalMode(env, p in st.fs, omode).Some?, f);
        if !io5.alive then (St(io5, Filled(env, st.fs, p, omode, data, f), st.k + 1), stamp)
        else
          var bad := WriteFails(f, size) || (stamp.Some? && f.utime);
          var io6 := if f.trunc then io5 else if bad then Say(io5, ErrText(f.msg)) else Say(io5, OK);
          (St(io6, Written(env, st.fs, p, omode, data, stamp, f), st.k + 1),
           if WriteFails(f, size) || f.trunc then stamp else None)
  }

  /** The data, what is said at once if truncating or changing the mode fails, and the sender's status. */
  function DataPhase(io: Io, size: nat, modes: bool, f: Fault): (r: Io)
    requires size <= |io.inp|
    ensures |r.inp| <= |io.inp|
  {
    Finishing(Get(io, size), modes, f)
  }

  function Finishing(io: Io, modes: bool, f: Fault): (r: Io)
    ensures |r.inp| <= |io.inp|
  {
    var io3 := if f.trunc then Say(io, ErrText(f.msg)) else io;
    var io4 := if modes && f.chmod then Say(io3, ErrText(f.msg)) else io3;
    Response(io4).0
  }

  /** `sink` on a target: announce, then obey records. */
  function Sink(env: Env, targ: Path, st: St): (r: St)
    ensures |r.io.inp| <= |st.io.inp|
    decreases |st.io.inp|, 2
  {
    SinkLoop(env, targ, IsDir(st.fs, targ), None, st.(io := Say(st.io, OK)))
  }

  /** The loop of `sink`; `stamp` is the time stamp waiting for its file or directory. */
  function SinkLoop(env: Env, targ: Path, isdir: bool, stamp: Option<Times>, st: St): (r: St)
    ensures |r.io.inp| <= |st.io.inp|
    decreases |st.io.inp|, 1
  {
    if st.io.inp == [] || !st.io.alive then st
    else
      match SinkStep(env, targ, isdir, stamp, st)
      case Back(st1) => st1
      case Again(set1, st1) => SinkLoop(env, targ, isdir, set1, st1)
  }

  /** The loop body: `Back` returns from `sink`, `Again` goes round. */
  datatype Outcome = Back(st: St) | Again(stamp: Option<Times>, st: St)

  function SinkStep(env: Env, targ: Path, isdir: bool, stamp: Option<Times>, st: St): (r: Outcome)
    ensures |r.st.io.inp| <= |st.io.inp| && (r.Again? ==> |r.st.io.inp| < |st.io.inp|)
    decreases |st.io.inp|, 0
  {
    var n := Find(st.io.inp, LF);
    if n == 0 || n == |st.io.inp| then Back(st.(io := Die(Say(st.io, ErrText([])))))
    else
      Obeyed(env, targ, isdir, stamp, st.(io := Get(st.io, n + 1)), Parse(st.io.inp[..n]))
  }

  /** What is done with a record. */
  function Obeyed(env: Env, targ: Path, isdir: bool, stamp: Option<Times>, st: St, rec: Rec): (r: Outcome)
    ensures |r.st.io.inp| <= |st.io.inp|
    decreases |st.io.inp|, 4
  {
    match rec
    case Note(fatal) => if fatal then Back(st.(io := Die(st.io))) else Again(stamp, st)
    case End => Back(st.(io := Say(st.io, OK)))
    case Wrong => Back(st.(io := Die(Say(st.io, ErrText([])))))
    case Stamp(t) => Again(Some(t), st.(io := Say(st.io, OK)))
    case Make(dir, mode, size, name) =>
      var p := if isdir then targ + [name] else targ;
      if dir then SinkDir(env, st, p, mode, stamp)
      else var (st1, next) := SinkFile(env, st, p, mode, size, stamp); Again(next, st1)
  }

  /** A D record: make the directory, `sink` into it, and then set its times and mode. */
  function SinkDir(env: Env, st: St, p: Path, mode: Mode, stamp: Option<Times>): (r: Outcome)
    ensures |r.st.io.inp| <= |st.io.inp|
    decreases |st.io.inp|, 3
  {
    var f := env.fault(st.k);
    if DirFails(st.fs, p, f) then Again(stamp, St(Say(st.io, ErrText(f.msg)), st.fs, st.k + 1))
    else
      var st2 := Sink(env, p, St(st.io, MadeDir(env, st.fs, p, mode), st.k + 1));
      if !st2.io.alive then Back(st2)
      else
        var io3 := if stamp.Some? && f.dirtime then Say(st2.io, ErrText(f.msg)) else st2.io;
        Again(None, St(io3, ClosedDir(env, st2.fs, p, mode, p !in st.fs, stamp, f), st2.k))
  }
}
