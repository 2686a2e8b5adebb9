/**
 The procedures of `rcp/rcp.c` as they run: `response`, `source`, `rsource` and
 `sink` on a connection and a file system that they change step by step.
 */
module RcpProcess {
  import opened Wrappers
  import opened Octets
  import opened Rcp
  import opened RcpAnswers
  import opened RcpLoops

  /** Read errors of a tree are those of a buffer of `cnt` bytes. */
  predicate Reads(n: Node, cnt: nat)
    decreases n, 1
  {
    match n
    case Bad(_) => true
    case File(_, _, _, _, error) => error.Some? ==> |error.value.stale| == cnt
    case Dir(_, _, _, kids) => AllRead(kids, cnt)
  }

  predicate AllRead(ns: seq<Node>, cnt: nat)
    decreases ns, 0
  {
    ns == [] || (Reads(ns[0], cnt) && AllRead(ns[1..], cnt))
  }

  /** The receiving buffer is a number of pieces. */
  predicate Buffered(env: Env) { env.cnt > 0 && env.cnt % BUFSIZ == 0 }

  class Peer {
    const cnt: nat                 // size of the sending buffer
    const takes: nat -> nat        // how much a read of the connection gets
    var inp: seq<Byte>             // still to be read
    var out: seq<Byte>             // written
    var alive: bool
    var fs: Fs
    var k: nat                     // records obeyed
    var offset: nat                // where the open file is written next
    ghost var tr: seq<Event>       // what was written and read: one event for each record, answer or run of data

    ghost predicate Valid()
      reads this
    {
      cnt > 0 && out == Bytes(tr, true)
    }

    constructor (cnt: nat, takes: nat -> nat, inp: seq<Byte>, fs: Fs)
      requires cnt > 0
      ensures Valid() && out == [] && View() == St(Io(inp, [], true), fs, 0) && this.cnt == cnt
    {
      this.cnt, this.takes := cnt, takes;
      this.inp, this.out, this.alive, this.fs, this.k, this.offset, this.tr := inp, [], true, fs, 0, 0, [];
    }

    ghost function IoView(): Io
      reads this
    {
      Io(inp, tr, alive)
    }

    ghost function View(): St
      reads this
    {
      St(IoView(), fs, k)
    }

    /** `write (rem, ...)`. */
    method Write(b: seq<Byte>)
      requires Valid()
      modifies this`out, this`tr
      ensures Valid() && IoView() == Say(old(IoView()), b)
    {
      out := out + b;
      Wrote(b);
    }

    /** The history of bytes just written. */
    ghost method Wrote(b: seq<Byte>)
      requires out == Bytes(tr, true) + b
      modifies this`tr
      ensures out == Bytes(tr, true) && IoView() == Say(old(IoView()), b)
    {
      if b != [] {
        BytesAppend(tr, [Said(b)], true);
        BytesOne(Said(b), true);
        tr := tr + [Said(b)];
      }
    }

    /** The history of bytes just read. */
    ghost method Took(b: seq<Byte>)
      requires out == Bytes(tr, true)
      modifies this`tr
      ensures out == Bytes(tr, true) && tr == old(tr) + if b == [] then [] else [Got(b)]
    {
      if b != [] {
        BytesAppend(tr, [Got(b)], true);
        BytesOne(Got(b), true);
        tr := tr + [Got(b)];
      }
    }

    /** `read (rem, ...)` of bytes that are there. */
    method Read(n: nat) returns (b: seq<Byte>)
      requires Valid() && n <= |inp|
      modifies this`tr, this`inp
      ensures Valid() && b == old(inp)[..n] && IoView() == Get(old(IoView()), n)
    {
      b := inp[..n];
      inp := inp[n..];
      Took(b);
    }

    /** The loop over the rest of an error line. */
    method LineEnd() returns (n: nat)
      requires inp != []
      ensures n == Find(inp[1..], LF)
    {
      n := 0;
      while n < |inp| - 1 && inp[n + 1] != LF
        invariant n <= |inp| - 1 && forall i :: 1 <= i <= n ==> inp[i] != LF
      {
        n := n + 1;
      }
      FindIs(inp[1..], LF, n);
    }

    /** `response`. */
    method GetResponse() returns (ok: bool)
      requires Valid()
      modifies this`tr, this`inp, this`alive
      ensures Valid() && IoView() == Response(old(IoView())).0 && ok == Response(old(IoView())).1
    {
      ok := false;
      if inp == [] {
        alive := false;
        return;
      }
      var resp := inp[0];
      if resp == 0 {
        var _ := Read(1);
        return true;
      }
      var n := LineEnd();
      if n + 1 == |inp| {
        alive := false;
        return;
      }
      var _ := Read(n + 2);
      if resp != 1 { alive := false; }
    }

    // ---------- source and rsource ----------

    method SendStamp(pflag: bool, t: Times) returns (ok: bool)
      requires Valid()
      modifies this`out, this`tr, this`inp, this`alive
      ensures Valid() && (IoView(), ok) == if pflag then Request(old(IoView()), TLine(t)) else (old(IoView()), true)
    {
      ok := true;
      if pflag {
        Write(TLine(t));
        ok := GetResponse();
      }
    }

    /** The loop of `source`: it keeps writing after an error, so that exactly the announced bytes go out. */
    method SendLoop(n: Node) returns (haderr: bool)
      requires n.File? && cnt > 0 && Reads(n, cnt)
      modifies this`out
      ensures out == old(out) + Payload(n)
      ensures haderr ==> n.error.Some?
      ensures n.error.Some? && Good(n.error.value) < |n.content| ==> haderr
    {
      haderr := false;
      var buf := new Byte[cnt];
      var size := |n.content|;
      var i: nat, j: nat := 0, 0;
      while i < size
        invariant i == Start(j, cnt) && out == old(out) + Payload(n)[..Min(i, size)]
        invariant haderr <==> n.error.Some? && n.error.value.block < j
        invariant buf.Length == cnt && fresh(buf) && (haderr ==> buf[..] == n.error.value.stale)
        decreases size - i
      {
        var amt := Min(cnt, size - i);
        haderr := SendBlock(n, j, i, amt, buf, haderr);
        assert Payload(n)[..i] + Payload(n)[i..i + amt] == Payload(n)[..i + amt];
        i, j := i + cnt, j + 1;
      }
      if n.error.Some? && n.error.value.block >= j {
        StartIs(j, cnt);
        Product(j, n.error.value.block, cnt);
      }
    }

    /** One turn of the loop. */
    method SendBlock(n: Node, j: nat, at: nat, amt: nat, buf: array<Byte>, failed: bool) returns (haderr: bool)
      requires n.File? && buf.Length == cnt > 0 && amt <= cnt && Reads(n, cnt)
      requires at == Start(j, cnt) && at + amt <= |n.content|
      requires failed <==> n.error.Some? && n.error.value.block < j
      requires failed ==> buf[..] == n.error.value.stale
      modifies this`out, buf
      ensures out == old(out) + Payload(n)[at..at + amt]
      ensures haderr <==> n.error.Some? && n.error.value.block < j + 1
      ensures haderr ==> buf[..] == n.error.value.stale
    {
      haderr := failed;
      BlockSent(n, j, cnt, amt, at);
      if !haderr {
        var ok := ReadBlock(n, j, at, buf, amt);
        haderr := !ok;
      }
      assert haderr ==> buf[..amt] == buf[..][..amt];
      out := out + buf[..amt];
    }

    /** The data of a file, and whether reading it and closing it went well. */
    method SendData(n: Node)
      requires Valid() && n.File? && Reads(n, cnt)
      modifies this`out, this`tr
      ensures Valid() && IoView() == Say(Say(old(IoView()), Payload(n)), Status(n))
    {
      var haderr := SendLoop(n);
      Wrote(Payload(n));
      if !haderr && n.error.Some? {
        haderr := true;            // `close` failed
      }
      if haderr {
        Write(ErrText(n.error.value.msg));
      } else {
        Write(OK);
      }
    }

    /** `source` for one name, and `rsource`. */
    method SendNode(n: Node, pflag: bool)
      requires Valid() && Reads(n, cnt)
      modifies this`out, this`tr, this`inp, this`alive
      ensures Valid() && IoView() == Source(n, pflag, old(IoView()))
      decreases n, 1
    {
      match n
      case Bad(msg) => Write(ErrText(msg));
      case File(name, mode, times, content, error) =>
        var ok := SendStamp(pflag, times);
        if !ok { return; }
        Write(CLine(mode, |content|, name));
        ok := GetResponse();
        if !ok { return; }
        SendData(n);
        ok := GetResponse();
      case Dir(name, mode, times, kids) =>
        var ok := SendStamp(pflag, times);
        if !ok { return; }
        Write(DLine(mode, name));
        ok := GetResponse();
        if !ok { return; }
        SendKids(kids, pflag);
        if !alive { return; }
        Write(ELINE);
        ok := GetResponse();
    }

    /** The `readdir` loop of `rsource`. */
    method SendKids(ns: seq<Node>, pflag: bool)
      requires Valid() && AllRead(ns, cnt)
      modifies this`out, this`tr, this`inp, this`alive
      ensures Valid() && IoView() == SourceAll(ns, pflag, old(IoView()))
      decreases ns, 0
    {
      var i := 0;
      while i < |ns| && alive
        invariant i <= |ns| && Valid() && AllRead(ns[i..], cnt)
        invariant SourceAll(ns, pflag, old(IoView())) == SourceAll(ns[i..], pflag, IoView())
      {
        assert ns[i..][0] == ns[i] && ns[i..][1..] == ns[i + 1..];
        SendNode(ns[i], pflag);
        i := i + 1;
      }
    }

    // ---------- sink: the data of a file ----------

    /** The inner loop: short reads until the piece is complete, or the connection is dropped. */
    method ReadPiece(buf: array<Byte>, at: nat, amt: nat) returns (ok: bool)
      requires at + amt <= buf.Length
      modifies this`inp, buf
      ensures ok <==> amt <= |old(inp)|
      ensures ok ==> inp == old(inp)[amt..] && buf[..at + amt] == old(buf[..at]) + old(inp)[..amt]
      ensures !ok ==> inp == []
    {
      var left, cp := amt, at;
      while left > 0
        invariant 0 <= left <= amt && cp + left == at + amt
        invariant amt - left <= |old(inp)| && inp == old(inp)[amt - left..]
        invariant buf[..cp] == old(buf[..at]) + old(inp)[..amt - left]
      {
        if inp == [] {
          return false;
        }
        var j := Min(left, |inp|);
        if 0 < takes(|inp|) < j { j := takes(|inp|); }
        CopyIn(buf, cp, inp[..j]);
        TakeMore(old(inp), amt - left, j, old(buf[..at]));
        left, cp, inp := left - j, cp + j, inp[j..];
      }
      return true;
    }

    /** `write` of a full buffer to the file; short when there is no room. */
    method WriteFile(env: Env, p: Path, piece: seq<Byte>, f: Fault) returns (j: nat)
      requires offset <= |Content(fs, p)| && !WriteFails(f, offset)
      modifies this`fs, this`offset
      ensures fs == DiskWrite(env, old(fs), p, old(offset), piece, f)
      ensures j == Reached(f, old(offset) + |piece|) - old(offset) && offset == old(offset) + j
    {
      j := Reached(f, offset + |piece|) - offset;
      if j > 0 {
        fs := Modify(env, fs, p, PutAt(Content(fs, p), offset, piece[..j]));
      }
      offset := offset + j;
    }

    /**
     The receiving loop of `sink`: pieces of BUFSIZ bytes fill a buffer, which
     is written out when full and once more at the end.  Whatever writes fail,
     exactly `size` bytes are read, unless the connection is dropped.
     */
    method ReceiveLoop(env: Env, p: Path, size: nat, f: Fault) returns (wrerr: bool, dropped: bool)
      requires Buffered(env) && IsFile(fs, p) && offset == 0
      modifies this`inp, this`fs, this`offset
      ensures dropped <==> |old(inp)| < size
      ensures !dropped ==> inp == old(inp)[size..] && fs == Poured(env, old(fs), p, old(inp)[..size], f)
      ensures !dropped ==> wrerr == WriteFails(f, size)
      ensures dropped ==> inp == [] && fs == Poured(env, old(fs), p, old(inp)[..Whole(env.cnt, |old(inp)|)], f)
    {
      ghost var all := inp;
      var buf := new Byte[env.cnt];
      assert all[..0] == [] && all[0..] == all;
      var count;
      count, wrerr, dropped := PieceLoop(env, p, size, fs, all, buf, f);
      if !dropped && count != 0 {
        wrerr := Flush(env, p, old(fs), all, size, buf, count, wrerr, f);
      }
    }

    /** The loop itself: what is left in the buffer at its end. */
    method PieceLoop(env: Env, p: Path, size: nat, ghost fs0: Fs, ghost all: seq<Byte>, buf: array<Byte>, f: Fault)
      returns (count: nat, wrerr: bool, dropped: bool)
      requires Buffered(env) && buf.Length == env.cnt && Progress(env, p, fs0, all, 0, 0, false, f)
      modifies this`inp, this`fs, this`offset, buf
      ensures dropped <==> |all| < size
      ensures dropped ==> inp == [] && fs == Poured(env, fs0, p, all[..Whole(env.cnt, |all|)], f)
      ensures !dropped ==> count <= buf.Length && Progress(env, p, fs0, all, size, count, wrerr, f)
      ensures !dropped ==> buf[..count] == all[size - count..size]
    {
      var i: nat := 0;
      count, wrerr, dropped := 0, false, false;
      ghost var q: nat, pos: nat := 0, 0;
      while i < size
        invariant At(i, size, pos, count, q, env.cnt)
        invariant count <= buf.Length && Progress(env, p, fs0, all, pos, count, wrerr, f)
        invariant buf[..count] == all[pos - count..pos]
      {
        var ok;
        ok, i, count, wrerr, pos, q := NextPiece(env, p, fs0, all, i, size, buf, count, wrerr, f, q);
        if !ok {
          return 0, false, true;
        }
      }
    }

    /** One turn of the loop: where it goes on, with the bytes read and the count of full buffers. */
    method NextPiece(env: Env, p: Path, ghost fs0: Fs, ghost all: seq<Byte>, i: nat, size: nat,
                     buf: array<Byte>, count: nat, wrerr: bool, f: Fault, ghost q: nat)
      returns (ok: bool, next: nat, left: nat, failed: bool, ghost pos: nat, ghost full: nat)
      requires Buffered(env) && buf.Length == env.cnt && i < size && At(i, size, i, count, q, env.cnt)
      requires Progress(env, p, fs0, all, i, count, wrerr, f) && buf[..count] == all[i - count..i]
      modifies this`inp, this`fs, this`offset, buf
      ensures next > i && (ok ==> At(next, size, pos, left, full, env.cnt)) && (ok <==> pos <= |all|)
      ensures !ok ==> |all| < size && inp == [] && fs == Poured(env, fs0, p, all[..Whole(env.cnt, |all|)], f)
      ensures ok ==> left <= buf.Length && Progress(env, p, fs0, all, pos, left, failed, f)
      ensures ok ==> buf[..left] == all[pos - left..pos]
    {
      var amt := if size - i < BUFSIZ then size - i else BUFSIZ;
      GridNext(i, count, q, env.cnt);
      if i + amt > |all| { WholeBuffers(env.cnt, q, |all|); }
      ok, left, failed := TakePiece(env, p, fs0, all, i, buf, count, amt, wrerr, f);
      next, pos, full := i + BUFSIZ, i + amt, if count + BUFSIZ == env.cnt then q + 1 else q;
    }

    /** `pos` bytes of `size` were read when the loop is at `i`. */
    ghost predicate At(i: nat, size: nat, pos: nat, count: nat, q: nat, cnt: nat) {
      pos <= size && if i < size then pos == i && Grid(i, count, q, cnt) else pos == size
    }

    /** A piece is read behind what the buffer holds, and a full buffer written out. */
    method TakePiece(env: Env, p: Path, ghost fs0: Fs, ghost all: seq<Byte>, ghost pos: nat,
                     buf: array<Byte>, count: nat, amt: nat, wrerr: bool, f: Fault)
      returns (ok: bool, left: nat, failed: bool)
      requires Progress(env, p, fs0, all, pos, count, wrerr, f)
      requires count + amt <= buf.Length && buf[..count] == all[pos - count..pos]
      modifies this`inp, this`fs, this`offset, buf
      ensures ok <==> pos + amt <= |all|
      ensures !ok ==> inp == [] && fs == old(fs)
      ensures ok ==> Progress(env, p, fs0, all, pos + amt, left, failed, f)
      ensures ok ==> left == (if count + amt == buf.Length then 0 else count + amt)
      ensures ok ==> buf[..left] == all[pos + amt - left..pos + amt]
    {
      ok := ReadPiece(buf, count, amt);
      left, failed := count + amt, wrerr;
      if ok {
        Pieces(all, pos, count, amt);
        if left == buf.Length {
          failed := Flush(env, p, fs0, all, pos + amt, buf, left, wrerr, f);
          left := 0;
        }
      }
    }

    /** `pos` bytes were read and all but the last `count` of them written, as far as they could be. */
    ghost predicate Progress(env: Env, p: Path, fs0: Fs, all: seq<Byte>, pos: nat, count: nat, wrerr: bool, f: Fault)
      reads this
    {
      && count <= pos <= |all| && inp == all[pos..] && IsFile(fs0, p)
      && fs == Poured(env, fs0, p, all[..pos - count], f) && wrerr == WriteFails(f, pos - count)
      && (!wrerr ==> offset == pos - count)
    }

    /** The buffer is written out, unless a write failed before. */
    method Flush(env: Env, p: Path, ghost fs0: Fs, ghost all: seq<Byte>, ghost pos: nat,
                 buf: array<Byte>, count: nat, wrerr: bool, f: Fault) returns (failed: bool)
      requires Progress(env, p, fs0, all, pos, count, wrerr, f)
      requires count <= buf.Length && buf[..count] == all[pos - count..pos]
      modifies this`fs, this`offset
      ensures Progress(env, p, fs0, all, pos, 0, failed, f)
    {
      if wrerr {
        PouredFull(env, fs0, p, all, pos - count, pos, f);
        return true;
      }
      PouredMore(env, fs0, p, all, pos - count, pos, f);
      var j := WriteFile(env, p, buf[..count], f);
      return j != count;
    }

    // ---------- sink: one file ----------

    /** `open (np, O_WRONLY | O_CREAT, mode)`. */
    method OpenFile(env: Env, p: Path, omode: Mode)
      requires !OpenFails(fs, p, env.fault(k))
      modifies this`fs, this`offset
      ensures fs == Opened(env, old(fs), p, omode) && IsFile(fs, p) && offset == 0
    {
      if p !in fs {
        fs := Create(env, fs, p, FileEntry(Masked(Writable(omode), Umask(env)), Times(env.now, env.now), []));
      }
      offset := 0;
    }

    /** The data of a file, or all there is of it. */
    method ReceiveData(env: Env, p: Path, size: nat, f: Fault) returns (wrerr: bool, dropped: bool)
      requires Valid() && Buffered(env) && IsFile(fs, p) && offset == 0
      modifies this`inp, this`fs, this`offset, this`tr
      ensures Valid() && (dropped <==> |old(inp)| < size) && (!dropped ==> wrerr == WriteFails(f, size))
      ensures IoView() == Get(old(IoView()), if dropped then |old(inp)| else size)
      ensures fs == Poured(env, old(fs), p, old(inp)[..if dropped then Whole(env.cnt, |old(inp)|) else size], f)
    {
      ghost var all := inp;
      wrerr, dropped := ReceiveLoop(env, p, size, f);
      assert all[..|all|] == all && all[|all|..] == [];
      Took(if dropped then all else all[..size]);
    }

    /** `ftruncate`, `fchmod` and the sender's status: what is said if one of the two fails. */
    method FinishFile(env: Env, p: Path, omode: Mode, existed: bool, size: nat, f: Fault)
      requires Valid() && IsFile(fs, p)
      modifies this`fs, this`out, this`tr, this`inp, this`alive
      ensures Valid()
      ensures fs == Sealed(env, old(fs), p, omode, existed, size, f)
      ensures IoView() == Finishing(old(IoView()), FinalMode(env, existed, omode).Some?, f)
    {
      if f.trunc {
        Write(ErrText(f.msg));
      } else {
        fs := Modify(env, fs, p, Resize(Content(fs, p), size));
      }
      var fm := FinalMode(env, existed, omode);
      if fm.Some? {
        if f.chmod {
          Write(ErrText(f.msg));
        } else {
          fs := Chmod(fs, p, fm.value);
        }
      }
      var _ := GetResponse();
    }

    /** The times are set, and the answer given unless it was already. */
    method DateFile(p: Path, stamp: Option<Times>, wrerr: bool, f: Fault) returns (next: Option<Times>)
      requires Valid()
      modifies this`fs, this`out, this`tr
      ensures Valid()
      ensures fs == Dated(old(fs), p, stamp, wrerr, f)
      ensures IoView() == (var io := old(IoView());
                           if f.trunc then io
                           else if wrerr || (stamp.Some? && f.utime) then Say(io, ErrText(f.msg)) else Say(io, OK))
      ensures next == if wrerr || f.trunc then stamp else None
    {
      next := stamp;
      var displayed := f.trunc;
      if stamp.Some? && !wrerr && !displayed {
        next := None;
        if f.utime {
          Write(ErrText(f.msg));
          displayed := true;
        } else {
          fs := Utimes(fs, p, stamp.value);
        }
      }
      if !displayed {
        if wrerr { Write(ErrText(f.msg)); } else { Write(OK); }
      }
    }

    /** The body of `sink` for a C record. */
    method ReceiveFile(env: Env, p: Path, omode: Mode, size: nat, stamp: Option<Times>) returns (next: Option<Times>)
      requires Valid() && Buffered(env)
      modifies this
      ensures Valid() && View() == SinkFile(env, old(View()), p, omode, size, stamp).0
      ensures next == SinkFile(env, old(View()), p, omode, size, stamp).1
    {
      var f := env.fault(k);
      if OpenFails(fs, p, f) {
        k := k + 1;
        Write(ErrText(f.msg));
        return stamp;
      }
      next := AcceptFile(env, p, omode, size, stamp, f);
    }

    /** The file is opened, and the record answered. */
    method Accept(env: Env, p: Path, omode: Mode)
      requires Valid() && !OpenFails(fs, p, env.fault(k))
      modifies this`fs, this`offset, this`k, this`out, this`tr
      ensures Valid() && IsFile(fs, p) && offset == 0
      ensures View() == St(Say(old(IoView()), OK), Opened(env, old(fs), p, omode), old(k) + 1)
    {
      OpenFile(env, p, omode);
      k := k + 1;
      Write(OK);
    }

    /** The rest of it, when the file can be opened. */
    method AcceptFile(env: Env, p: Path, omode: Mode, size: nat, stamp: Option<Times>, f: Fault) returns (next: Option<Times>)
      requires Valid() && Buffered(env) && f == env.fault(k) && !OpenFails(fs, p, f)
      modifies this
      ensures Valid() && View() == SinkFile(env, old(View()), p, omode, size, stamp).0
      ensures next == SinkFile(env, old(View()), p, omode, size, stamp).1
    {
      Accepted(env, View(), p, omode, size, stamp);
      var existed := p in fs;
      Accept(env, p, omode);
      next := FillFile(env, p, omode, existed, size, stamp, f);
    }

    /** The data and what is done with it, unless the connection is dropped. */
    method FillFile(env: Env, p: Path, omode: Mode, existed: bool, size: nat, stamp: Option<Times>, f: Fault)
      returns (next: Option<Times>)
      requires Valid() && Buffered(env) && IsFile(fs, p) && offset == 0
      modifies this`fs, this`offset, this`out, this`tr, this`inp, this`alive
      ensures Valid()
      ensures |old(inp)| < size ==>
        && IoView() == Die(Say(Get(old(IoView()), |old(inp)|), ErrText(f.msg))) && next == stamp
        && fs == Poured(env, old(fs), p, old(inp)[..Whole(env.cnt, |old(inp)|)], f)
      ensures |old(inp)| >= size ==>
        Completed(env, p, omode, existed, size, stamp, WriteFails(f, size), f,
                  Get(old(IoView()), size), Poured(env, old(fs), p, old(inp)[..size], f), next)
    {
      ghost var fs1, all := fs, inp;
      var wrerr, dropped := ReceiveData(env, p, size, f);
      if dropped {
        Write(ErrText(f.msg));
        alive := false;
        return stamp;
      }
      PouredContent(env, fs1, p, all[..size], f);
      next := CompleteFile(env, p, omode, existed, size, stamp, wrerr, f);
    }

    /** From `io` and `fs0`, with the data in the file, this is where it ends. */
    ghost predicate Completed(env: Env, p: Path, omode: Mode, existed: bool, size: nat, stamp: Option<Times>,
                              wrerr: bool, f: Fault, io0: Io, fs0: Fs, next: Option<Times>)
      reads this
    {
      var io := Finishing(io0, FinalMode(env, existed, omode).Some?, f);
      var fs1 := Sealed(env, fs0, p, omode, existed, size, f);
      if !io.alive then IoView() == io && fs == fs1 && next == stamp
      else
        && fs == Dated(fs1, p, stamp, wrerr, f) && (next == if wrerr || f.trunc then stamp else None)
        && IoView() == if f.trunc then io else if wrerr || (stamp.Some?
            && f.utime) then Say(io, ErrText(f.msg)) else Say(io, OK)
    }

    /** What is done with the data in the file. */
    method CompleteFile(env: Env, p: Path, omode: Mode, existed: bool, size: nat, stamp: Option<Times>, wrerr: bool, f: Fault)
      returns (next: Option<Times>)
      requires Valid() && IsFile(fs, p)
      modifies this`fs, this`out, this`tr, this`inp, this`alive
      ensures Valid()
      ensures Completed(env, p, omode, existed, size, stamp, wrerr, f, old(IoView()), old(fs), next)
    {
      FinishFile(env, p, omode, existed, size, f);
      if !alive {
        return stamp;
      }
      next := DateFile(p, stamp, wrerr, f);
    }

    /** `sink`: the recursive procedure, with its loop. */
    method RunSink(env: Env, targ: Path)
      requires Valid() && Buffered(env)
      modifies this
      ensures Valid() && View() == Sink(env, targ, old(View()))
      ensures |inp| <= |old(inp)|
      decreases |inp|, 2
    {
      var isdir := IsDir(fs, targ);
      var stamp: Option<Times> := None;
      Write(OK);
      ghost var goal := SinkLoop(env, targ, isdir, None, View());
      while inp != [] && alive
        invariant Valid() && |inp| <= |old(inp)|
        invariant goal == SinkLoop(env, targ, isdir, stamp, View())
        decreases |inp|
      {
        var back;
        stamp, back := Step(env, targ, isdir, stamp, |inp|);
        if back { return; }
      }
    }

    /** One turn of the loop. */
    method Step(env: Env, targ: Path, isdir: bool, stamp: Option<Times>, ghost bound: nat)
      returns (next: Option<Times>, back: bool)
      requires Valid() && Buffered(env) && |inp| == bound && inp != []
      modifies this
      ensures Valid() && |inp| <= bound && (!back ==> |inp| < bound)
      ensures SinkStep(env, targ, isdir, stamp, old(View())) == if back then Back(View()) else Again(next, View())
      decreases bound, 1
    {
      next, back := stamp, true;
      var n := Find(inp, LF);
      if n == 0 || n == |inp| {
        Write(ErrText([]));
        alive := false;
        return;
      }
      var line := inp[..n];
      var _ := Read(n + 1);
      next, back := Act(env, targ, isdir, stamp, Parse(line));
    }

    /** What is done with a record. */
    method Act(env: Env, targ: Path, isdir: bool, stamp: Option<Times>, rec: Rec) returns (next: Option<Times>, back: bool)
      requires Valid() && Buffered(env)
      modifies this
      ensures Valid() && |inp| <= |old(inp)|
      ensures Obeyed(env, targ, isdir, stamp, old(View()), rec) == if back then Back(View()) else Again(next, View())
      decreases |inp|, 5
    {
      if rec.Make? {
        var p := if isdir then targ + [rec.name] else targ;
        if rec.dir {
          next, back := ReceiveDir(env, p, rec.mode, stamp);
        } else {
          back := false;
          next := ReceiveFile(env, p, rec.mode, rec.size, stamp);
        }
      } else {
        next, back := Note(rec, stamp);
      }
    }

    /** A record that makes nothing. */
    method Note(rec: Rec, stamp: Option<Times>) returns (next: Option<Times>, back: bool)
      requires Valid() && !rec.Make?
      modifies this`out, this`tr, this`alive
      ensures Valid()
      ensures forall env, targ, isdir ::
        Obeyed(env, targ, isdir, stamp, old(View()), rec) == if back then Back(View()) else Again(next, View())
    {
      next, back := stamp, true;
      match rec
      case Note(fatal) => if fatal { alive := false; } else { back := false; }
      case End => Write(OK);
      case Wrong =>
        Write(ErrText([]));
        alive := false;
      case Stamp(t) =>
        Write(OK);
        next, back := Some(t), false;
    }

    /** `mkdir`, or what is done to a directory that is there. */
    method EnterDir(env: Env, p: Path, mode: Mode)
      modifies this`fs
      ensures fs == MadeDir(env, old(fs), p, mode)
    {
      if p in fs {
        if env.pflag { fs := Chmod(fs, p, mode); }
      } else {
        fs := Create(env, fs, p, DirEntry(Masked(OwnerAll(mode), Umask(env)), Times(env.now, env.now)));
      }
    }

    /** Times and mode of a directory, after everything in it. */
    method LeaveDir(env: Env, p: Path, mode: Mode, made: bool, stamp: Option<Times>, f: Fault)
      requires Valid()
      modifies this`fs, this`out, this`tr
      ensures Valid() && fs == ClosedDir(env, old(fs), p, mode, made, stamp, f)
      ensures IoView() == if stamp.Some? && f.dirtime then Say(old(IoView()), ErrText(f.msg)) else old(IoView())
    {
      if stamp.Some? {
        if f.dirtime {
          Write(ErrText(f.msg));
        } else {
          fs := Utimes(fs, p, stamp.value);
        }
      }
      if env.pflag || made { fs := Chmod(fs, p, mode); }
    }

    /** The body of `sink` for a D record. */
    method ReceiveDir(env: Env, p: Path, mode: Mode, stamp: Option<Times>) returns (next: Option<Times>, back: bool)
      requires Valid() && Buffered(env)
      modifies this
      ensures Valid() && |inp| <= |old(inp)|
      ensures SinkDir(env, old(View()), p, mode, stamp) == if back then Back(View()) else Again(next, View())
      decreases |inp|, 3
    {
      var f := env.fault(k);
      var had := p in fs;
      next, back := stamp, false;
      k := k + 1;
      if DirFails(fs, p, f) {
        Write(ErrText(f.msg));
        return;
      }
      EnterDir(env, p, mode);
      RunSink(env, p);
      if !alive {
        back := true;
        return;
      }
      LeaveDir(env, p, mode, !had, stamp, f);
      next := None;
    }
  }

  /** The two ways on for a file that is accepted. */
  lemma Accepted(env: Env, st: St, p: Path, omode: Mode, size: nat, stamp: Option<Times>)
    requires !OpenFails(st.fs, p, env.fault(st.k))
    ensures var f, io1, fs1 := env.fault(st.k), Say(st.io, OK), Opened(env, st.fs, p, omode);
      && (|st.io.inp| < size ==>
            Whole(env.cnt, |st.io.inp|) <= |st.io.inp| &&
            SinkFile(env, st, p, omode, size, stamp) ==
              (St(Die(Say(Get(io1, |io1.inp|), ErrText(f.msg))),
                  Poured(env, fs1, p, st.io.inp[..Whole(env.cnt, |st.io.inp|)], f), st.k + 1), stamp))
      && (|st.io.inp| >= size ==>
            var io := Finishing(Get(io1, size), FinalMode(env, p in st.fs, omode).Some?, f);
            var fs2 := Sealed(env, Poured(env, fs1, p, st.io.inp[..size], f), p, omode, p in st.fs, size, f);
            SinkFile(env, st, p, omode, size, stamp) ==
              if !io.alive then (St(io, fs2, st.k + 1), stamp)
              else
                (St(if f.trunc then io
                    else if WriteFails(f, size) || (stamp.Some? && f.utime) then Say(io, ErrText(f.msg)) else Say(io, OK),
                    Dated(fs2, p, stamp, WriteFails(f, size), f), st.k + 1),
                 if WriteFails(f, size) || f.trunc then stamp else None))
  {
    WholeFits(env.cnt, |st.io.inp|);
  }

  lemma BytesOne(e: Event, said: bool)
    ensures Bytes([e], said) == if e.Said? == said then e.b else []
  {
    var one := [e];
    assert one[1..] == [];
    PartsFirst(one, said);
    FlatOne(e.b);
  }

  lemma Pieces(all: seq<Byte>, pos: nat, count: nat, amt: nat)
    requires count <= pos && pos + amt <= |all|
    ensures all[pos - count..pos] + all[pos..][..amt] == all[pos - count..pos + amt] && all[pos..][amt..] == all[pos + amt..]
  {}

  lemma TakeMore(all: seq<Byte>, k: nat, j: nat, pre: seq<Byte>)
    requires k + j <= |all|
    ensures (pre + all[..k]) + all[k..][..j] == pre + all[..k + j] && all[k..][j..] == all[k + j..]
  {
    assert all[..k] + all[k..][..j] == all[..k + j];
  }

  lemma FindIs(s: seq<Byte>, c: Byte, n: nat)
    requires n <= |s| && (forall i :: 0 <= i < n ==> s[i] != c) && (n < |s| ==> s[n] == c)
    ensures Find(s, c) == n
  {}
}
