/**
 The buffered loops of `rcp/rcp.c`: one that reads a file and writes it to the
 connection, and one that reads the connection and writes a file.
 */
module RcpLoops {
  import opened Wrappers
  import opened Octets
  import opened Rcp

  const BUFSIZ := 8192

  method CopyIn(buf: array<Byte>, at: nat, piece: seq<Byte>)
    requires at + |piece| <= buf.Length
    modifies buf
    ensures buf[..at + |piece|] == old(buf[..at]) + piece
  {
    forall i | 0 <= i < |piece| { buf[at + i] := piece[i]; }
  }

  // ---------- from a file to the connection ----------

  /** Where block `j` starts. */
  function Start(j: nat, cnt: nat): nat { if j == 0 then 0 else Start(j - 1, cnt) + cnt }

  lemma {:induction false} StartIs(j: nat, cnt: nat)
    ensures Start(j, cnt) == j * cnt
  {
    if j > 0 { StartIs(j - 1, cnt); }
  }

  lemma GoodBlock(n: Node, at: nat, amt: nat)
    requires n.File? && at + amt <= |n.content| && (n.error.Some? ==> at + amt <= Good(n.error.value))
    ensures Payload(n)[at..at + amt] == n.content[at..at + amt]
  {}

  lemma StaleBlock(n: Node, j: nat, at: nat, amt: nat)
    requires n.File? && n.error.Some? && n.error.value.stale != [] && at == j * |n.error.value.stale|
    requires at + amt <= |n.content| && amt <= |n.error.value.stale| && at >= Good(n.error.value)
    ensures Payload(n)[at..at + amt] == n.error.value.stale[..amt]
  {
    var e := n.error.value;
    forall i | 0 <= i < amt ensures Payload(n)[at + i] == e.stale[i] {
      Remainder(j, |e.stale|, i);
    }
  }

  /** What block `j` of a file sends: its own bytes, or from the failed read on what the buffer holds. */
  lemma BlockSent(n: Node, j: nat, cnt: nat, amt: nat, at: nat)
    requires n.File? && 0 < cnt && amt <= cnt && at == Start(j, cnt) && at + amt <= |n.content|
    requires n.error.Some? ==> |n.error.value.stale| == cnt
    ensures Payload(n)[at..at + amt] ==
      if n.error.None? || j < n.error.value.block then n.content[at..at + amt] else n.error.value.stale[..amt]
    ensures n.error.Some? && j >= n.error.value.block ==> at >= Good(n.error.value)
  {
    StartIs(j, cnt);
    if n.error.None? {
      GoodBlock(n, at, amt);
    } else if j < n.error.value.block {
      Product(j + 1, n.error.value.block, cnt);
      GoodBlock(n, at, amt);
    } else {
      Product(n.error.value.block, j, cnt);
      StaleBlock(n, j, at, amt);
    }
  }

  lemma Remainder(j: nat, cnt: nat, i: nat)
    requires i < cnt
    ensures (j * cnt + i) % cnt == i && (j * cnt + i) / cnt == j
  {
    var q := (j * cnt + i) / cnt;
    if q < j { Product(q + 1, j, cnt); } else if q > j { Product(j + 1, q, cnt); }
  }

  /** `read` on the file: block `j`, or a failure and whatever the buffer holds then. */
  method ReadBlock(n: Node, j: nat, at: nat, buf: array<Byte>, amt: nat) returns (ok: bool)
    requires n.File? && amt <= buf.Length && at + amt <= |n.content|
    requires n.error.Some? ==> |n.error.value.stale| == buf.Length
    modifies buf
    ensures ok <==> n.error.None? || j < n.error.value.block
    ensures ok ==> buf[..amt] == n.content[at..at + amt]
    ensures !ok ==> buf[..] == n.error.value.stale
  {
    ok := n.error.None? || j < n.error.value.block;
    if ok {
      CopyIn(buf, 0, n.content[at..at + amt]);
    } else {
      CopyIn(buf, 0, n.error.value.stale);
      assert buf[..] == buf[..buf.Length];
    }
  }

  // ---------- from the connection to a file ----------

  function PutAt(c: seq<Byte>, at: nat, d: seq<Byte>): seq<Byte>
    requires at <= |c|
  {
    c[..at] + d + if at + |d| < |c| then c[at + |d|..] else []
  }

  predicate IsFile(fs: Fs, p: Path) { p in fs && fs[p].FileEntry? }

  /** `write` to the file at offset `at`: as much of the piece as there is room for. */
  function DiskWrite(env: Env, fs: Fs, p: Path, at: nat, piece: seq<Byte>, f: Fault): Fs
    requires at <= |Content(fs, p)| && !WriteFails(f, at)
  {
    var j := Reached(f, at + |piece|) - at;
    if j == 0 then fs else Modify(env, fs, p, PutAt(Content(fs, p), at, piece[..j]))
  }

  lemma OverlayMore(c: seq<Byte>, d: seq<Byte>, a: nat, r: nat)
    requires a <= r <= |d|
    ensures a <= |Overlay(c, d[..a])| && PutAt(Overlay(c, d[..a]), a, d[a..r]) == Overlay(c, d[..r])
  {}

  lemma PouredContent(env: Env, fs: Fs, p: Path, d: seq<Byte>, f: Fault)
    requires IsFile(fs, p)
    ensures var g := Poured(env, fs, p, d, f);
      IsFile(g, p) && Content(g, p) == Overlay(Content(fs, p), d[..Reached(f, |d|)]) && p in g
  {
    assert Overlay(Content(fs, p), []) == Content(fs, p);
  }

  /** One more piece written. */
  lemma PouredMore(env: Env, fs: Fs, p: Path, d: seq<Byte>, a: nat, b: nat, f: Fault)
    requires IsFile(fs, p) && a <= b <= |d| && !WriteFails(f, a)
    ensures var g := Poured(env, fs, p, d[..a], f);
      a <= |Content(g, p)| && DiskWrite(env, g, p, a, d[a..b], f) == Poured(env, fs, p, d[..b], f)
  {
    PouredContent(env, fs, p, d[..a], f);
    var r := Reached(f, b);
    assert d[..a][..a] == d[..a] && d[..b][..r] == d[..r] && d[a..b][..r - a] == d[a..r];
    OverlayMore(Content(fs, p), d, a, r);
    if r == a {
      assert d[..a][..a] == d[..b][..r];
    }
  }

  /** After a failed write nothing more gets into the file. */
  lemma PouredFull(env: Env, fs: Fs, p: Path, d: seq<Byte>, a: nat, b: nat, f: Fault)
    requires a <= b <= |d| && WriteFails(f, a)
    ensures Poured(env, fs, p, d[..a], f) == Poured(env, fs, p, d[..b], f)
  {
    assert d[..a][..f.room.value] == d[..b][..f.room.value];
  }

  /** `i` bytes were read: `q` full buffers and `count` bytes. */
  predicate Grid(i: nat, count: nat, q: nat, cnt: nat) {
    i == Start(q, cnt) + count && count < cnt && i % BUFSIZ == 0 && count % BUFSIZ == 0
  }

  lemma GridNext(i: nat, count: nat, q: nat, cnt: nat)
    requires cnt % BUFSIZ == 0 && Grid(i, count, q, cnt)
    ensures count + BUFSIZ <= cnt
    ensures if count + BUFSIZ == cnt then Grid(i + BUFSIZ, 0, q + 1, cnt) else Grid(i + BUFSIZ, count + BUFSIZ, q, cnt)
  {}

  /** How many full buffers `n` bytes make. */
  lemma WholeBuffers(cnt: nat, q: nat, n: nat)
    requires 0 < cnt && Start(q, cnt) <= n < Start(q, cnt) + cnt
    ensures Whole(cnt, n) == Start(q, cnt)
  {
    StartIs(q, cnt);
    Remainder(q, cnt, n - q * cnt);
  }
}
