/**
 A tree sent without faults arrives as it was.
 */
module RcpTree {
  import opened Wrappers
  import opened Octets
  import opened Rcp
  import opened RcpTalk
  import opened RcpAnswers
  import opened RcpSession

  // ---------- the tree arrives ----------

  /** Nothing to complain about at either end. */
  predicate Clean(n: Node)
    decreases n, 1
  {
    match n
    case Bad(_) => false
    case File(_, _, _, _, error) => error.None?
    case Dir(_, _, _, kids) => AllClean(kids) && Distinct(kids)
  }

  predicate AllClean(ns: seq<Node>)
    decreases ns, 0
  {
    ns == [] || (Clean(ns[0]) && AllClean(ns[1..]))
  }

  function NameOf(n: Node): Name { if n.Bad? then [] else n.name }

  predicate Distinct(ns: seq<Node>) {
    forall i, j :: 0 <= i < j < |ns| ==> NameOf(ns[i]) != NameOf(ns[j])
  }

  ghost predicate NoFaults(env: Env) {
    forall k :: var f := env.fault(k);
      Legal(f.msg) && !f.open && f.room.None? && !f.trunc && !f.utime && !f.dirtime && !f.chmod
  }

  /** The times and mode a copy is to have: the original's with -p, and otherwise now and the umask. */
  function CopyTimes(env: Env, t: Times): Times { if env.pflag then t else Times(env.now, env.now) }

  function CopyMode(env: Env, m: Mode): Mode { if env.pflag then m else Masked(m, env.mask) }

  /** The files a tree is to become at `p`. */
  function Image(env: Env, n: Node, p: Path): Fs
    decreases n, 1
  {
    match n
    case Bad(_) => map[]
    case File(_, mode, times, content, _) => map[p := FileEntry(CopyMode(env, mode), CopyTimes(env, times), content)]
    case Dir(_, mode, times, kids) => ImageAll(env, kids, p)[p := DirEntry(mode, CopyTimes(env, times))]
  }

  function ImageAll(env: Env, ns: seq<Node>, p: Path): Fs
    decreases ns, 0
  {
    if ns == [] then map[] else Image(env, ns[0], p + [NameOf(ns[0])]) + ImageAll(env, ns[1..], p)
  }

  /** No file is at `p` or below it. */
  ghost predicate FreshAt(fs: Fs, p: Path) { forall q :: q in fs ==> !(p <= q) }

  /** A directory entry was added: only the modification time changes. */
  function Touch(env: Env, fs: Fs, d: Path): Fs {
    if IsDir(fs, d) then fs[d := fs[d].(times := Times(env.now, fs[d].times.a))] else fs
  }

  lemma {:induction false} ImageBelow(env: Env, n: Node, p: Path, q: Path)
    requires q in Image(env, n, p)
    ensures p <= q
    decreases n, 1
  {
    if n.Dir? && q != p {
      ImageAllBelow(env, n.kids, p, q);
    }
  }

  lemma {:induction false} ImageAllBelow(env: Env, ns: seq<Node>, p: Path, q: Path)
    requires q in ImageAll(env, ns, p)
    ensures p < q && exists i :: 0 <= i < |ns| && p + [NameOf(ns[i])] <= q
    decreases ns, 0
  {
    var p0 := p + [NameOf(ns[0])];
    if q in ImageAll(env, ns[1..], p) {
      ImageAllBelow(env, ns[1..], p, q);
      var i :| 0 <= i < |ns[1..]| && p + [NameOf(ns[1..][i])] <= q;
      assert ns[1..][i] == ns[i + 1];
    } else {
      ImageBelow(env, ns[0], p0, q);
      assert p0 == p + [NameOf(ns[0])] <= q;
      assert p < p0;
    }
  }

  lemma MaskedNothing(m: Mode)
    ensures Masked(m, NO_MASK) == m
  {
    AndAll(m.s);
    AndAll(m.u);
    AndAll(m.g);
    AndAll(m.o);
  }

  lemma AndAll(b: bv3)
    ensures b & !(0 as bv3) == b
  {}

  /**
   What a tree is to become where some of it may be already: a file that is
   there keeps its mode, a directory its mode and its other entries, unless -p
   gives them the original's; the contents are those sent.
   */
  function Merge(env: Env, n: Node, p: Path, fs: Fs): Fs
    decreases n, 1
  {
    match n
    case Bad(_) => map[]
    case File(_, mode, times, content, _) =>
      map[p := FileEntry(LandedMode(env, mode, fs, p), FileTimes(env, times, fs, p), content)]
    case Dir(_, mode, times, kids) =>
      MergeAll(env, kids, p, fs)[p := DirEntry(
        if p in fs && !env.pflag then fs[p].mode else mode,
        if env.pflag then times else if p in fs then AddedTimes(env, kids, fs, p) else Times(env.now, env.now))]
  }

  function MergeAll(env: Env, ns: seq<Node>, p: Path, fs: Fs): Fs
    decreases ns, 0
  {
    if ns == [] then map[] else Merge(env, ns[0], p + [NameOf(ns[0])], fs) + MergeAll(env, ns[1..], p, fs)
  }

  function LandedMode(env: Env, mode: Mode, fs: Fs, p: Path): Mode {
    if p in fs && !env.pflag then fs[p].mode else CopyMode(env, mode)
  }

  /** A file that was written to is dated; when it was last read is left. */
  function FileTimes(env: Env, t: Times, fs: Fs, p: Path): Times {
    if env.pflag then t else Times(env.now, if p in fs then fs[p].times.a else env.now)
  }

  /** Something new is made in the directory. */
  predicate Adds(ns: seq<Node>, p: Path, fs: Fs) {
    exists i :: 0 <= i < |ns| && p + [NameOf(ns[i])] !in fs
  }

  function AddedTimes(env: Env, ns: seq<Node>, fs: Fs, p: Path): Times
    requires p in fs
  {
    if Adds(ns, p, fs) then Times(env.now, fs[p].times.a) else fs[p].times
  }

  /** Nothing is in the way: no directory where a file is sent, and no file where a directory is. */
  predicate Accepts(fs: Fs, n: Node, p: Path)
    decreases n, 1
  {
    match n
    case Bad(_) => true
    case File(_, _, _, _, _) => !IsDir(fs, p)
    case Dir(_, _, _, kids) => (p in fs ==> IsDir(fs, p)) && AcceptsAll(fs, kids, p)
  }

  predicate AcceptsAll(fs: Fs, ns: seq<Node>, p: Path)
    decreases ns, 0
  {
    ns == [] || (Accepts(fs, ns[0], p + [NameOf(ns[0])]) && AcceptsAll(fs, ns[1..], p))
  }

  // ---------- what a merge looks at ----------

  /** The same files at `p` and below it. */
  ghost predicate SameBelow(a: Fs, b: Fs, p: Path) {
    forall q :: p <= q ==> (q in a <==> q in b) && (q in a ==> a[q] == b[q])
  }

  lemma SameAt(a: Fs, b: Fs, p: Path)
    requires SameBelow(a, b, p)
    ensures p in a <==> p in b
    ensures p in a ==> a[p] == b[p]
  {
    assert p <= p;
  }

  lemma {:induction false} MergeLocal(env: Env, n: Node, p: Path, a: Fs, b: Fs)
    requires SameBelow(a, b, p)
    ensures Merge(env, n, p, a) == Merge(env, n, p, b) && (Accepts(a, n, p) <==> Accepts(b, n, p))
    decreases n, 1
  {
    SameAt(a, b, p);
    if n.Dir? {
      forall name ensures SameBelow(a, b, p + [name]) { SameDeeper(a, b, p, name); }
      MergeAllLocal(env, n.kids, p, a, b);
    }
  }

  lemma SameDeeper(a: Fs, b: Fs, p: Path, name: Name)
    requires SameBelow(a, b, p)
    ensures SameBelow(a, b, p + [name])
  {
    forall q | p + [name] <= q ensures (q in a <==> q in b) && (q in a ==> a[q] == b[q]) {
      StrictlyBelow(p, name, q);
    }
  }

  lemma {:induction false} MergeAllLocal(env: Env, ns: seq<Node>, p: Path, a: Fs, b: Fs)
    requires forall i :: 0 <= i < |ns| ==> SameBelow(a, b, p + [NameOf(ns[i])])
    ensures MergeAll(env, ns, p, a) == MergeAll(env, ns, p, b) && (AcceptsAll(a, ns, p) <==> AcceptsAll(b, ns, p))
    ensures Adds(ns, p, a) <==> Adds(ns, p, b)
    decreases ns, 0
  {
    forall i | 0 <= i < |ns| ensures p + [NameOf(ns[i])] in a <==> p + [NameOf(ns[i])] in b {
      SameAt(a, b, p + [NameOf(ns[i])]);
    }
    if ns != [] {
      MergeLocal(env, ns[0], p + [NameOf(ns[0])], a, b);
      forall i | 0 <= i < |ns[1..]| ensures SameBelow(a, b, p + [NameOf(ns[1..][i])]) {
        assert ns[1..][i] == ns[i + 1];
      }
      MergeAllLocal(env, ns[1..], p, a, b);
    }
  }

  /** Where nothing is, merging gives the image. */
  lemma {:induction false} MergeFresh(env: Env, n: Node, p: Path, fs: Fs)
    requires FreshAt(fs, p)
    ensures Merge(env, n, p, fs) == Image(env, n, p) && Accepts(fs, n, p)
    decreases n, 1
  {
    assert p !in fs by { assert p <= p; }
    if n.Dir? { MergeAllFresh(env, n.kids, p, fs); }
  }

  lemma {:induction false} MergeAllFresh(env: Env, ns: seq<Node>, p: Path, fs: Fs)
    requires FreshAt(fs, p)
    ensures MergeAll(env, ns, p, fs) == ImageAll(env, ns, p) && AcceptsAll(fs, ns, p)
    decreases ns, 0
  {
    if ns != [] {
      forall q | q in fs ensures !(p + [NameOf(ns[0])] <= q) {
        if p + [NameOf(ns[0])] <= q { StrictlyBelow(p, NameOf(ns[0]), q); }
      }
      MergeFresh(env, ns[0], p + [NameOf(ns[0])], fs);
      MergeAllFresh(env, ns[1..], p, fs);
    }
  }

  lemma {:induction false} MergeBelow(env: Env, n: Node, p: Path, fs: Fs, q: Path)
    requires q in Merge(env, n, p, fs)
    ensures p <= q
    decreases n, 1
  {
    if n.Dir? && q != p {
      MergeAllBelow(env, n.kids, p, fs, q);
    }
  }

  lemma {:induction false} MergeAllBelow(env: Env, ns: seq<Node>, p: Path, fs: Fs, q: Path)
    requires q in MergeAll(env, ns, p, fs)
    ensures p < q
    decreases ns, 0
  {
    var p0 := p + [NameOf(ns[0])];
    if q in MergeAll(env, ns[1..], p, fs) {
      MergeAllBelow(env, ns[1..], p, fs, q);
    } else {
      MergeBelow(env, ns[0], p0, fs, q);
      assert p < p0;
    }
  }

  // ---------- a file ----------

  /** The directory is dated if something was made in it. */
  function Landing(env: Env, fs: Fs, p: Path): Fs
    requires p != []
  {
    if p in fs then fs else Touch(env, fs, Parent(p))
  }

  /** Data written without trouble over whatever was there. */
  lemma Overwritten(env: Env, fs: Fs, p: Path, data: seq<Byte>, f: Fault)
    requires p in fs && fs[p].FileEntry? && f.room.None?
    ensures var fs1 := Poured(env, fs, p, data, f);
      Modify(env, fs1, p, Resize(Content(fs1, p), |data|))
        == fs[p := FileEntry(fs[p].mode, Times(env.now, fs[p].times.a), data)]
  {
    assert data[..|data|] == data;
    var was := fs[p].content;
    assert Overlay(was, data)[..|data|] == data;
    if data == [] { assert Resize(was, 0) == []; }
  }

  /** A file sent without trouble. */
  lemma FileLands(env: Env, n: Node, p: Path, fs: Fs, stamp: Option<Times>, f: Fault)
    requires n.File? && !IsDir(fs, p) && p != [] && IsDir(fs, Parent(p)) && Parent(p) != p
    requires stamp == if env.pflag then Some(n.times) else None
    requires f.room.None? && !f.trunc && !f.utime && !f.chmod
    ensures p in Merge(env, n, p, fs)
    ensures Written(env, fs, p, n.mode, n.content, stamp, f) == Landing(env, fs, p)[p := Merge(env, n, p, fs)[p]]
  {
    MaskedNothing(Writable(n.mode));
    var fs1 := Opened(env, fs, p, n.mode);
    Overwritten(env, fs1, p, n.content, f);
  }

  lemma FileArrives(env: Env, n: Node, p: Path, fs: Fs, k: nat, stamp: Option<Times>)
    requires n.File? && Clean(n) && NoFaults(env)
    requires !IsDir(fs, p) && p != [] && IsDir(fs, Parent(p))
    requires stamp == if env.pflag then Some(n.times) else None
    ensures var t := FileTalk(env, n, p, fs, k, stamp);
            t.fs == Landing(env, fs, p) + Merge(env, n, p, fs) && t.stamp == None
  {
    var f := env.fault(k);
    assert FileTalk(env, n, p, fs, k, stamp).fs == Written(env, fs, p, n.mode, n.content, stamp, f);
    FileLands(env, n, p, fs, stamp, f);
    var m := Merge(env, n, p, fs);
    assert Landing(env, fs, p) + m == Landing(env, fs, p)[p := m[p]];
  }

  // ---------- a directory ----------

  /** A directory made, or found, before anything is put into it. */
  lemma DirMade(env: Env, fs: Fs, p: Path, mode: Mode)
    requires (p in fs ==> IsDir(fs, p)) && p != [] && IsDir(fs, Parent(p))
    ensures var fs1 := MadeDir(env, fs, p, mode);
      && IsDir(fs1, p) && fs1 == Landing(env, fs, p)[p := fs1[p]]
      && fs1[p].times == (if p in fs then fs[p].times else Times(env.now, env.now))
      && (p in fs && !env.pflag ==> fs1[p].mode == fs[p].mode)
  {}

  lemma MadeElsewhere(env: Env, fs: Fs, p: Path, mode: Mode, name: Name)
    requires (p in fs ==> IsDir(fs, p)) && p != [] && IsDir(fs, Parent(p))
    ensures SameBelow(fs, MadeDir(env, fs, p, mode), p + [name])
  {
    DirMade(env, fs, p, mode);
    var fs1 := MadeDir(env, fs, p, mode);
    forall q | p + [name] <= q ensures (q in fs <==> q in fs1) && (q in fs ==> fs[q] == fs1[q]) {
      StrictlyBelow(p, name, q);
    }
  }

  /** Closing it gives it the times and mode it is to have. */
  lemma ClosedEntry(env: Env, fs: Fs, p: Path, mode: Mode, made: bool, stamp: Option<Times>, f: Fault)
    requires IsDir(fs, p) && !f.dirtime
    ensures ClosedDir(env, fs, p, mode, made, stamp, f) == fs[p := DirEntry(
      if env.pflag || made then mode else fs[p].mode, if stamp.Some? then stamp.value else fs[p].times)]
  {}

  lemma DirClosed(env: Env, base: Fs, made: Fs, after: Fs, inside: Fs, p: Path, n: Node, f: Fault, stamp: Option<Times>, fs: Fs)
    requires n.Dir? && !f.dirtime && stamp == if env.pflag then Some(n.times) else None
    requires IsDir(made, p) && made == base[p := made[p]] && p !in inside && after == AfterAll(env, made, n.kids, p) + inside
    requires made[p].times == (if p in fs then fs[p].times else Times(env.now, env.now))
    requires p in fs && !env.pflag ==> made[p].mode == fs[p].mode
    requires Adds(n.kids, p, made) <==> Adds(n.kids, p, fs)
    requires inside == MergeAll(env, n.kids, p, fs)
    ensures ClosedDir(env, after, p, n.mode, p !in fs, stamp, f) == base + Merge(env, n, p, fs)
  {
    assert after == base[p := after[p]] + inside && after[p] == AfterAll(env, made, n.kids, p)[p];
    ClosedEntry(env, after, p, n.mode, p !in fs, stamp, f);
    PutInside(base, inside, p, after[p], Merge(env, n, p, fs)[p]);
  }

  lemma PutInside(base: Fs, inside: Fs, p: Path, d: Entry, e: Entry)
    ensures (base[p := d] + inside)[p := e] == base + inside[p := e]
  {}

  /** The directory after all its entries have been made. */
  function AfterAll(env: Env, fs: Fs, ns: seq<Node>, p: Path): Fs { if Adds(ns, p, fs) then Touch(env, fs, p) else fs }

  /** A tree sent without trouble is merged with what is there; nothing else changes but one date. */
  lemma {:induction false} NodeArrives(env: Env, n: Node, targ: Path, isdir: bool, fs: Fs, k: nat, stamp: Option<Times>)
    requires Clean(n) && NoFaults(env) && (env.pflag || stamp == None)
    requires var p := Target(targ, isdir, n.name); Accepts(fs, n, p) && p != [] && IsDir(fs, Parent(p))
    ensures var p := Target(targ, isdir, n.name);
            var t := NodeTalk(env, n, targ, isdir, fs, k, stamp);
            t.fs == Landing(env, fs, p) + Merge(env, n, p, fs) && t.stamp == None
    decreases n, 1
  {
    var p := Target(targ, isdir, n.name);
    var s := StampTalk(env, n.times, fs, k, stamp);
    if n.File? {
      FileArrives(env, n, p, fs, k, s.stamp);
    } else {
      DirArrives(env, n, p, fs, k, s.stamp);
    }
  }

  lemma StrictlyBelow(p: Path, name: Name, q: Path)
    requires p + [name] <= q
    ensures p <= q && p != q && |q| > |p|
  {
    assert q[..|p|] == (p + [name])[..|p|] == p;
  }

  lemma {:induction false} DirArrives(env: Env, n: Node, p: Path, fs: Fs, k: nat, stamp: Option<Times>)
    requires n.Dir? && Clean(n) && NoFaults(env)
    requires Accepts(fs, n, p) && p != [] && IsDir(fs, Parent(p))
    requires stamp == if env.pflag then Some(n.times) else None
    ensures var t := DirOrRefusal(env, n, p, fs, k, stamp);
            t.fs == Landing(env, fs, p) + Merge(env, n, p, fs) && t.stamp == None
    decreases n, 0
  {
    DirMade(env, fs, p, n.mode);
    var fs1 := MadeDir(env, fs, p, n.mode);
    forall i | 0 <= i < |n.kids| ensures SameBelow(fs, fs1, p + [NameOf(n.kids[i])]) {
      MadeElsewhere(env, fs, p, n.mode, NameOf(n.kids[i]));
    }
    MergeAllLocal(env, n.kids, p, fs, fs1);
    KidsArrive(env, n.kids, p, fs1, k + 1);
    var inside := MergeAll(env, n.kids, p, fs);
    assert p !in inside by { if p in inside { MergeAllBelow(env, n.kids, p, fs, p); } }
    var after := AfterAll(env, fs1, n.kids, p) + inside;
    DirClosed(env, Landing(env, fs, p), fs1, after, inside, p, n, env.fault(k), stamp, fs);
  }

  lemma {:induction false} KidsArrive(env: Env, ns: seq<Node>, p: Path, fs: Fs, k: nat)
    requires AllClean(ns) && Distinct(ns) && NoFaults(env) && IsDir(fs, p) && AcceptsAll(fs, ns, p)
    ensures var t := KidsTalk(env, ns, p, fs, k, None);
            t.fs == AfterAll(env, fs, ns, p) + MergeAll(env, ns, p, fs) && t.stamp == None
    decreases ns, 0
  {
    if ns != [] {
      var p0 := p + [NameOf(ns[0])];
      assert Parent(p0) == p;
      NodeArrives(env, ns[0], p, true, fs, k, None);
      var x := NodeTalk(env, ns[0], p, true, fs, k, None);
      var first := Merge(env, ns[0], p0, fs);
      assert x.fs == Landing(env, fs, p0) + first;
      assert p !in first by { if p in first { MergeBelow(env, ns[0], p0, fs, p); } }
      SiblingsSame(env, ns, ns[1..], p, fs, x.fs);
      MergeAllLocal(env, ns[1..], p, fs, x.fs);
      KidsArrive(env, ns[1..], p, x.fs, x.k);
      AddsMore(env, ns, p, fs, x.fs, first);
      MapsAppend(AfterAll(env, fs, ns, p), first, MergeAll(env, ns[1..], p, fs));
    }
  }

  /** The date of the directory after the first entry and the others. */
  lemma AddsMore(env: Env, ns: seq<Node>, p: Path, fs: Fs, fs1: Fs, first: Fs)
    requires ns != [] && IsDir(fs, p) && p !in first
    requires var p0 := p + [NameOf(ns[0])]; Parent(p0) == p && fs1 == Landing(env, fs, p0) + first
    requires Adds(ns[1..], p, fs) <==> Adds(ns[1..], p, fs1)
    ensures AfterAll(env, fs1, ns[1..], p) == AfterAll(env, fs, ns, p) + first
  {
    if Adds(ns[1..], p, fs) {
      var i :| 0 <= i < |ns[1..]| && p + [NameOf(ns[1..][i])] !in fs;
      assert ns[1..][i] == ns[i + 1];
    }
    if Adds(ns, p, fs) && p + [NameOf(ns[0])] in fs {
      var i :| 0 <= i < |ns| && p + [NameOf(ns[i])] !in fs;
      assert ns[1..][i - 1] == ns[i];
    }
  }

  lemma MapsAppend(a: Fs, b: Fs, c: Fs)
    ensures a + b + c == a + (b + c)
  {}

  /** The first entry does not disturb the places of the others. */
  lemma SiblingsSame(env: Env, ns: seq<Node>, rest: seq<Node>, p: Path, fs: Fs, fs1: Fs)
    requires ns != [] && rest == ns[1..] && Distinct(ns) && IsDir(fs, p)
    requires var p0 := p + [NameOf(ns[0])]; Parent(p0) == p && fs1 == Landing(env, fs, p0) + Merge(env, ns[0], p0, fs)
    ensures forall i :: 0 <= i < |rest| ==> SameBelow(fs, fs1, p + [NameOf(rest[i])])
    ensures Distinct(rest)
  {
    forall i | 0 <= i < |rest| ensures SameBelow(fs, fs1, p + [NameOf(rest[i])]) {
      assert rest[i] == ns[i + 1];
      SiblingSame(env, ns[0], p, fs, fs1, NameOf(ns[i + 1]));
    }
  }

  lemma SiblingSame(env: Env, n: Node, p: Path, fs: Fs, fs1: Fs, name: Name)
    requires name != NameOf(n) && IsDir(fs, p)
    requires var p0 := p + [NameOf(n)]; Parent(p0) == p && fs1 == Landing(env, fs, p0) + Merge(env, n, p0, fs)
    ensures SameBelow(fs, fs1, p + [name])
  {
    var p0 := p + [NameOf(n)];
    forall q | q in Merge(env, n, p0, fs) ensures !(p + [name] <= q) {
      MergeBelow(env, n, p0, fs, q);
      assert q[|p|] == NameOf(n) && (p + [name])[|p|] == name;
    }
    forall q | p + [name] <= q ensures (q in fs <==> q in fs1) && (q in fs ==> fs[q] == fs1[q]) {
      StrictlyBelow(p, name, q);
    }
  }

  /** Without faults the receiver gives no answer nobody waits for. */
  lemma {:induction false} NothingSpills(env: Env, n: Node, targ: Path, isdir: bool, fs: Fs, k: nat, stamp: Option<Times>)
    requires NoFaults(env)
    ensures NodeTalk(env, n, targ, isdir, fs, k, stamp).extra == 0
    ensures !NodeSpills(env, n, targ, isdir, fs, k, stamp)
    decreases n, 1
  {
    if n.Dir? {
      var p := Target(targ, isdir, n.name);
      KidsNeverSpill(env, n.kids, p, MadeDir(env, fs, p, n.mode), k + 1, None);
    }
    SpillsIff(env, n, targ, isdir, fs, k, stamp);
  }

  lemma {:induction false} KidsNeverSpill(env: Env, ns: seq<Node>, targ: Path, fs: Fs, k: nat, stamp: Option<Times>)
    requires NoFaults(env)
    ensures !KidsSpill(env, ns, targ, fs, k, stamp)
    decreases ns, 0
  {
    if ns != [] {
      var x := NodeTalk(env, ns[0], targ, true, fs, k, stamp);
      NothingSpills(env, ns[0], targ, true, fs, k, stamp);
      KidsNeverSpill(env, ns[1..], targ, x.fs, x.k, x.stamp);
    }
  }

  /**
   For every tree that both ends handle without trouble: the receiver, fed what
   the sender writes when it is fed the receiver's answers, merges the tree with
   what is there.
   */
  lemma RcpMergesTree(env: Env, n: Node, targ: Path, fs: Fs)
    requires Sendable(n) && Clean(n) && NoFaults(env)
    requires var p := Target(targ, IsDir(fs, targ), n.name); Accepts(fs, n, p) && p != [] && IsDir(fs, Parent(p))
    ensures var sent := Session(env, n, targ, fs).w;
            var st := Sink(env, targ, St(Io(sent, [], true), fs, 0));
            var p := Target(targ, IsDir(fs, targ), n.name);
            && sent == Bytes(Sender(n, env.pflag, Io(Bytes(st.io.tr, true), [], true)).tr, true)
            && st.fs == Landing(env, fs, p) + Merge(env, n, p, fs)
  {
    RcpLockStep(env, n, targ, fs);
    NothingSpills(env, n, targ, IsDir(fs, targ), fs, 0, None);
    NodeArrives(env, n, targ, IsDir(fs, targ), fs, 0, None);
  }

  /** And in a fresh place rebuilds it. */
  lemma RcpRebuildsTree(env: Env, n: Node, targ: Path, fs: Fs)
    requires Sendable(n) && Clean(n) && NoFaults(env)
    requires var p := Target(targ, IsDir(fs, targ), n.name); FreshAt(fs, p) && p != [] && IsDir(fs, Parent(p))
    ensures var sent := Session(env, n, targ, fs).w;
            var st := Sink(env, targ, St(Io(sent, [], true), fs, 0));
            var p := Target(targ, IsDir(fs, targ), n.name);
            && sent == Bytes(Sender(n, env.pflag, Io(Bytes(st.io.tr, true), [], true)).tr, true)
            && st.fs == Touch(env, fs, Parent(p)) + Image(env, n, p)
  {
    var p := Target(targ, IsDir(fs, targ), n.name);
    MergeFresh(env, n, p, fs);
    assert p !in fs by { assert p <= p; }
    RcpMergesTree(env, n, targ, fs);
  }
}
