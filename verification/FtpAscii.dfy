/**
 ASCII transfers of `ftp/ftp.c` and `ftpd/ftpd.c`.  Client and server have
 loops of their own for sending, for receiving and for skipping to a restart
 point; each loop is proved against the functions below, and what a whole
 transfer gives follows from these.
 */
module FtpAscii {
  import opened Octets

  // ---------- the two directions ----------

  /** A line feed goes out as CR LF and every other byte as itself. */
  function Send(f: seq<Byte>): seq<Byte>
    decreases |f|
  {
    if f == [] then [] else (if f[0] == LF then [CR, LF] else [f[0]]) + Send(f[1..])
  }

  /** Receiving drops a NUL after a CR and, unless `keep`, a CR before a line feed. */
  predicate Dropped(prev: Byte, w: seq<Byte>, keep: bool)
    requires w != []
  {
    (w[0] == NUL && prev == CR) || (!keep && w[0] == CR && |w| > 1 && w[1] == LF)
  }

  /** What is written for `w` when the byte before it was `prev`. */
  function Received(prev: Byte, w: seq<Byte>, keep: bool): seq<Byte>
    decreases |w|
  {
    if w == [] then [] else (if Dropped(prev, w, keep) then [] else [w[0]]) + Received(w[0], w[1..], keep)
  }

  /** Line feeds without a CR before them. */
  function BareLfs(prev: Byte, w: seq<Byte>): nat
    decreases |w|
  {
    if w == [] then 0 else (if w[0] == LF && prev != CR then 1 else 0) + BareLfs(w[0], w[1..])
  }

  /** Bytes without a CR before them. */
  function NotAfterCr(prev: Byte, w: seq<Byte>): nat
    decreases |w|
  {
    if w == [] then 0 else (if prev != CR then 1 else 0) + NotAfterCr(w[0], w[1..])
  }

  /** `f` without the NULs that directly follow a CR. */
  function DropNuls(prev: Byte, f: seq<Byte>): (r: seq<Byte>)
    ensures |r| <= |f|
    decreases |f|
  {
    if f == [] then [] else (if f[0] == NUL && prev == CR then [] else [f[0]]) + DropNuls(f[0], f[1..])
  }

  predicate NoCrNul(f: seq<Byte>) {
    forall i :: 0 < i < |f| && f[i] == NUL ==> f[i - 1] != CR
  }

  // ---------- what a transfer gives ----------

  lemma {:induction false} TransferDropsNuls(prev: Byte, f: seq<Byte>)
    ensures Received(prev, Send(f), false) == DropNuls(prev, f)
    ensures prev != CR ==> BareLfs(prev, Send(f)) == 0
    ensures BareLfs(CR, Send(f)) == 0
    decreases |f|
  {
    if f != [] {
      var w := Send(f);
      var rest := Send(f[1..]);
      TransferDropsNuls(f[0], f[1..]);
      if f[0] == LF {
        assert w == [CR, LF] + rest;
        assert w[1..] == [LF] + rest && w[1..][1..] == rest;
      } else {
        assert w == [f[0]] + rest && w[1..] == rest;
        assert f[1..] != [] ==> rest[0] != LF;
      }
    }
  }

  lemma {:induction false} DropsNothingIff(prev: Byte, f: seq<Byte>)
    ensures DropNuls(prev, f) == f <==> NoCrNul([prev] + f)
    ensures |DropNuls(prev, f)| == |f| <==> NoCrNul([prev] + f)
    decreases |f|
  {
    if f != [] {
      DropsNothingIff(f[0], f[1..]);
      var g := [prev] + f;
      var h := [f[0]] + f[1..];
      assert h == f && g[1..] == f;
      assert forall i :: 0 < i < |g| ==> g[i] == f[i - 1];
      if NoCrNul(g) {
        forall i | 0 < i < |h| && h[i] == NUL ensures h[i - 1] != CR {
          assert g[i + 1] == NUL;
        }
        assert g[1] == f[0] && g[0] == prev;
        assert f == [f[0]] + f[1..];
      } else if f[0] == NUL && prev == CR {
        assert |DropNuls(prev, f)| < |f|;
      } else {
        var i :| 0 < i < |g| && g[i] == NUL && g[i - 1] == CR;
        assert i > 1 && h[i - 1] == NUL && h[i - 2] == CR;
        assert |DropNuls(f[0], f[1..])| < |f[1..]|;
      }
    }
  }

  /** An ASCII transfer gives the file back exactly when no CR in it is followed by NUL. */
  lemma TransferIsIdentityIff(f: seq<Byte>)
    ensures Received(NUL, Send(f), false) == f <==> NoCrNul(f)
    ensures |Received(NUL, Send(f), false)| == |f| <==> NoCrNul(f)
  {
    TransferDropsNuls(NUL, f);
    DropsNothingIff(NUL, f);
    var g := [NUL] + f;
    assert forall i :: 0 < i < |g| ==> g[i] == f[i - 1];
    if NoCrNul(f) {
      forall i | 0 < i < |g| && g[i] == NUL ensures g[i - 1] != CR {
        if i > 1 { assert f[i - 1] == NUL; }
      }
    }
    if NoCrNul(g) {
      forall i | 0 < i < |f| && f[i] == NUL ensures f[i - 1] != CR {
        assert g[i + 1] == NUL && g[i] == f[i - 1];
      }
    }
  }

  // ---------- the sending loops ----------

  /** The TYPE_A loop of `sendrequest` in the client. */
  method ClientSend(fin: seq<Byte>) returns (dout: seq<Byte>, bytes: nat)
    ensures dout == Send(fin) && bytes == |dout|
  {
    dout, bytes := [], 0;
    var i := 0;
    while i < |fin|
      invariant i <= |fin| && dout + Send(fin[i..]) == Send(fin) && bytes == |dout|
    {
      var c := fin[i];
      assert fin[i..][0] == c && fin[i..][1..] == fin[i + 1..];
      ghost var before := dout;
      if c == LF {
        dout := dout + [CR];
        bytes := bytes + 1;
      }
      dout := dout + [c];
      bytes := bytes + 1;
      assert dout == before + if c == LF then [CR, LF] else [c];
      i := i + 1;
    }
  }

  /** The loop of `send_data` in the server, which counts file bytes. */
  method ServerSend(fin: seq<Byte>) returns (dout: seq<Byte>, byteCount: nat)
    ensures dout == Send(fin) && byteCount == |fin|
  {
    dout, byteCount := [], 0;
    while byteCount < |fin|
      invariant byteCount <= |fin| && dout + Send(fin[byteCount..]) == Send(fin)
    {
      var c := fin[byteCount];
      assert fin[byteCount..][0] == c && fin[byteCount..][1..] == fin[byteCount + 1..];
      ghost var before := dout;
      byteCount := byteCount + 1;
      if c == LF {
        dout := dout + [CR];
      }
      dout := dout + [c];
      assert dout == before + if c == LF then [CR, LF] else [c];
    }
  }

  // ---------- the receiving loops ----------

  /** The byte before position `i`. */
  ghost function Before(w: seq<Byte>, i: nat): Byte
    requires i <= |w|
  {
    if i == 0 then NUL else w[i - 1]
  }

  /** What the first `i` bytes of `w` add to the file and to the counts. */
  ghost predicate Done(w: seq<Byte>, i: nat, keep: bool, file: seq<Byte>, bare: nat, count: nat)
    requires i <= |w|
  {
    && file + Received(Before(w, i), w[i..], keep) == Received(NUL, w, keep)
    && bare + BareLfs(Before(w, i), w[i..]) == BareLfs(NUL, w)
    && count + NotAfterCr(Before(w, i), w[i..]) == NotAfterCr(NUL, w)
  }

  /** Byte `i` is left out of the file. */
  ghost predicate Skipped(w: seq<Byte>, i: nat, keep: bool)
    requires i < |w|
  {
    (w[i] == NUL && Before(w, i) == CR) || (!keep && w[i] == CR && i + 1 < |w| && w[i + 1] == LF)
  }

  /** One byte further. */
  lemma Onward(w: seq<Byte>, i: nat, keep: bool, file: seq<Byte>, bare: nat, count: nat)
    requires i < |w| && Done(w, i, keep, file, bare, count)
    ensures Done(w, i + 1, keep,
      if Skipped(w, i, keep) then file else file + [w[i]],
      if w[i] == LF && Before(w, i) != CR then bare + 1 else bare,
      if Before(w, i) != CR then count + 1 else count)
  {
    assert w[i..][0] == w[i] && w[i..][1..] == w[i + 1..];
    var more := Received(w[i], w[i + 1..], keep);
    assert file + [w[i]] + more == file + ([w[i]] + more) && [] + more == more;
  }

  lemma AllDone(w: seq<Byte>, keep: bool, file: seq<Byte>, bare: nat, count: nat)
    requires Done(w, |w|, keep, file, bare, count)
    ensures file == Received(NUL, w, keep) && bare == BareLfs(NUL, w) && count == NotAfterCr(NUL, w)
  {}

  /** `getc`: the byte at `i`, or -1 at the end of the data. */
  method Getc(w: seq<Byte>, i: nat) returns (c: int, j: nat)
    requires i <= |w|
    ensures if i < |w| then c == w[i] && j == i + 1 else c == -1 && j == i
  {
    if i < |w| {
      c, j := w[i], i + 1;
    } else {
      c, j := -1, i;
    }
  }

  /** The TYPE_A loop of `recvrequest` in the client; `tcrflag` keeps CRs. */
  method ClientReceive(din: seq<Byte>, tcrflag: bool) returns (fout: seq<Byte>, bytes: nat, bareLfs: nat)
    ensures fout == Received(NUL, din, tcrflag)
    ensures bytes == |din|
    ensures bareLfs == BareLfs(NUL, din)
  {
    fout, bytes, bareLfs := [], 0, 0;
    var i: nat := 0;
    ghost var first := 0;
    assert din[0..] == din;
    while i < |din|
      invariant i <= |din| && bytes == i && Done(din, i, tcrflag, fout, bareLfs, first)
      invariant i < |din| ==> Before(din, i) != CR
    {
      ghost var start := i;
      var c: int := din[i];
      i := i + 1;
      Onward(din, start, tcrflag, fout, bareLfs, first);
      first := first + 1;
      if c == LF {
        bareLfs := bareLfs + 1;
      }
      var skip := false;
      while c == CR && !skip
        invariant start < i <= |din|
        invariant !skip ==> c == din[i - 1] && bytes == i - 1 && (c == NUL ==> Before(din, i - 1) != CR)
        invariant !skip ==>
          Done(din, i, tcrflag, if Skipped(din, i - 1, tcrflag) then fout else fout + [din[i - 1]], bareLfs, first)
        invariant skip ==> bytes == i && (i == |din| || Before(din, i) != CR)
        invariant skip ==> Done(din, i, tcrflag, fout, bareLfs, first)
        decreases !skip, |din| - i
      {
        ghost var file := if Skipped(din, i - 1, tcrflag) then fout else fout + [CR];
        if i < |din| { Onward(din, i, tcrflag, file, bareLfs, first); }
        bytes := bytes + 1;
        c, i := Getc(din, i);
        if c != LF || tcrflag {
          fout := fout + [CR];
          if c == NUL {
            bytes := bytes + 1;
            skip := true;
          } else if c == -1 {
            skip := true;
          }
        }
      }
      if !skip {
        fout := fout + [din[i - 1]];
        bytes := bytes + 1;
      }
    }
    AllDone(din, tcrflag, fout, bareLfs, first);
  }

  /** The TYPE_A loop of `receive_data` in the server. */
  method ServerReceive(instr: seq<Byte>) returns (outstr: seq<Byte>, byteCount: nat, bareLfs: nat)
    ensures outstr == Received(NUL, instr, false)
    ensures byteCount == NotAfterCr(NUL, instr)
    ensures bareLfs == BareLfs(NUL, instr)
  {
    outstr, byteCount, bareLfs := [], 0, 0;
    var i: nat := 0;
    assert instr[0..] == instr;
    while i < |instr|
      invariant i <= |instr| && Done(instr, i, false, outstr, bareLfs, byteCount)
      invariant i < |instr| ==> Before(instr, i) != CR
    {
      ghost var start := i;
      var c: int := instr[i];
      i := i + 1;
      Onward(instr, start, false, outstr, bareLfs, byteCount);
      byteCount := byteCount + 1;
      if c == LF {
        bareLfs := bareLfs + 1;
      }
      var skip := false;
      while c == CR && !skip
        invariant start < i <= |instr|
        invariant !skip ==> c == instr[i - 1] && (c == NUL ==> Before(instr, i - 1) != CR)
        invariant !skip ==>
          Done(instr, i, false, if Skipped(instr, i - 1, false) then outstr else outstr + [instr[i - 1]], bareLfs, byteCount)
        invariant skip ==> i == |instr| || Before(instr, i) != CR
        invariant skip ==> Done(instr, i, false, outstr, bareLfs, byteCount)
        decreases !skip, |instr| - i
      {
        ghost var file := if Skipped(instr, i - 1, false) then outstr else outstr + [CR];
        if i < |instr| { Onward(instr, i, false, file, bareLfs, byteCount); }
        c, i := Getc(instr, i);
        if c != LF {
          outstr := outstr + [CR];
          if c == NUL || c == -1 {
            skip := true;
          }
        }
      }
      if !skip {
        outstr := outstr + [instr[i - 1]];
      }
    }
    AllDone(instr, false, outstr, bareLfs, byteCount);
  }

  /** A file sent by the client and received by the server. */
  method Upload(f: seq<Byte>) returns (stored: seq<Byte>, bareLfs: nat)
    ensures stored == DropNuls(NUL, f) && bareLfs == 0
    ensures stored == f <==> NoCrNul(f)
  {
    var w, _ := ClientSend(f);
    var count;
    stored, count, bareLfs := ServerReceive(w);
    TransferDropsNuls(NUL, f);
    TransferIsIdentityIff(f);
  }

  /** A file sent by the server and received by the client with CR stripping. */
  method Download(f: seq<Byte>) returns (stored: seq<Byte>, bytes: nat, bareLfs: nat)
    ensures stored == DropNuls(NUL, f) && bareLfs == 0 && bytes == |Send(f)|
    ensures stored == f <==> NoCrNul(f)
  {
    var w, _ := ServerSend(f);
    stored, bytes, bareLfs := ClientReceive(w, false);
    TransferDropsNuls(NUL, f);
    TransferIsIdentityIff(f);
  }

  // ---------- restart ----------

  /** `k` is the fewest bytes of `f` whose sent form reaches `n` bytes. */
  ghost predicate StopsAt(f: seq<Byte>, n: nat, k: nat) {
    && k <= |f| && |Send(f[..k])| >= n
    && (k > 0 ==> |Send(f[..k - 1])| < n)
  }

  lemma {:induction false} SendAppend(a: seq<Byte>, b: seq<Byte>)
    ensures Send(a + b) == Send(a) + Send(b)
    decreases |a|
  {
    if a == [] {
      assert a + b == b;
    } else {
      assert (a + b)[0] == a[0] && (a + b)[1..] == a[1..] + b;
      SendAppend(a[1..], b);
    }
  }

  lemma SendNext(f: seq<Byte>, k: nat)
    requires k < |f|
    ensures |Send(f[..k + 1])| == |Send(f[..k])| + if f[k] == LF then 2 else 1
  {
    assert f[..k + 1] == f[..k] + [f[k]];
    SendAppend(f[..k], [f[k]]);
    assert [f[k]][1..] == [];
  }

  lemma SendMonotone(f: seq<Byte>, j: nat, k: nat)
    requires j <= k <= |f|
    ensures |Send(f[..j])| + (k - j) <= |Send(f[..k])|
    decreases k
  {
    if j < k {
      SendMonotone(f, j, k - 1);
      SendNext(f, k - 1);
    }
  }

  /** Two files with a common prefix that reaches `n` have one stopping point. */
  lemma SameStop(local: seq<Byte>, remote: seq<Byte>, n: nat, j: nat, k: nat)
    requires local <= remote && StopsAt(local, n, j) && StopsAt(remote, n, k)
    ensures j == k
  {
    assert remote[..j] == local[..j];
    if j < k {
      SendMonotone(remote, j, k - 1);
    } else if k < j {
      assert remote[..j - 1] == local[..j - 1];
      SendMonotone(remote, k, j - 1);
    }
  }

  /** The skip loop of `retrieve` in the server: fails when the file ends first. */
  method ServerSkip(f: seq<Byte>, n: nat) returns (ok: bool, k: nat)
    ensures ok <==> |Send(f)| >= n
    ensures ok ==> StopsAt(f, n, k)
  {
    k := 0;
    var i := 0;
    assert f[..|f|] == f;
    while true
      invariant k <= |f| && i == |Send(f[..k])| && (k > 0 ==> |Send(f[..k - 1])| < n)
      decreases |f| - k
    {
      var more := i < n;
      i := i + 1;
      if !more {
        SendMonotone(f, k, |f|);
        return true, k;
      }
      if k == |f| {
        return false, k;
      }
      SendNext(f, k);
      if f[k] == LF {
        i := i + 1;
      }
      k := k + 1;
    }
  }

  /** The skip loop of `recvrequest` in the client. */
  method ClientSkip(f: seq<Byte>, n: nat) returns (ok: bool, k: nat)
    ensures ok <==> |Send(f)| >= n
    ensures ok ==> StopsAt(f, n, k)
  {
    k := 0;
    assert f[..|f|] == f;
    var i := 0;
    while i < n
      invariant k <= |f| && i == |Send(f[..k])| && (k > 0 ==> |Send(f[..k - 1])| < n)
      decreases |f| - k
    {
      i := i + 1;
      if k == |f| {
        ok := false;
        return;
      }
      var ch := f[k];
      SendNext(f, k);
      k := k + 1;
      if ch == LF {
        i := i + 1;
      }
    }
    SendMonotone(f, k, |f|);
    ok := true;
  }

  /** Writing `data` at position `k` of a file. */
  function Overwrite(f: seq<Byte>, k: nat, data: seq<Byte>): seq<Byte>
    requires k <= |f|
  {
    f[..k] + data + if k + |data| <= |f| then f[k + |data|..] else []
  }

  /**
   A download resumed at offset `n` of the sent form onto a local prefix of the
   remote file: both ends skip the same file bytes, the finished file is the
   remote one when the part sent has no CR followed by NUL, and, as long as
   something was missing, only then.
   */
  method ResumedDownload(local: seq<Byte>, remote: seq<Byte>, n: nat)
    returns (ok: bool, file: seq<Byte>, skipped: nat)
    requires local <= remote
    ensures ok <==> |Send(local)| >= n
    ensures !ok ==> file == local
    ensures ok ==> StopsAt(local, n, skipped) && StopsAt(remote, n, skipped)
    ensures ok && NoCrNul(remote[skipped..]) ==> file == remote
    ensures ok && |local| < |remote| ==> (file == remote <==> NoCrNul(remote[skipped..]))
  {
    var sent, from := ServerSkip(remote, n);
    skipped := 0;
    ok, skipped := ClientSkip(local, n);
    file := local;
    assert remote[..|local|] == local && remote[..|remote|] == remote;
    SendMonotone(remote, |local|, |remote|);
    if ok {
      SameStop(local, remote, n, skipped, from);
      var w, _ := ServerSend(remote[from..]);
      var data, _, _ := ClientReceive(w, false);
      file := Overwrite(local, skipped, data);
      TransferDropsNuls(NUL, remote[from..]);
      TransferIsIdentityIff(remote[from..]);
      assert remote == remote[..from] + remote[from..] && local[..skipped] == remote[..from];
      assert data == remote[from..] ==> file == remote;
    } else {
      skipped := 0;
    }
  }
}
