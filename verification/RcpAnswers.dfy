/**
 The answers of the receiver in a conversation: which of them the sender reads
 where, and how many can be under way at a time.
 */
module RcpAnswers {
  import opened Wrappers
  import opened Octets
  import opened Rcp
  import opened RcpLink

  // ---------- what a trace writes and reads ----------

  /** The pieces written in a trace, or those read. */
  function Parts(tr: seq<Event>, said: bool): seq<seq<Byte>>
    decreases |tr|
  {
    if tr == [] then [] else (if tr[0].Said? == said then [tr[0].b] else []) + Parts(tr[1..], said)
  }

  function Flat(ps: seq<seq<Byte>>): seq<Byte>
    decreases |ps|
  {
    if ps == [] then [] else ps[0] + Flat(ps[1..])
  }

  /** The bytes written, or those read. */
  function Bytes(tr: seq<Event>, said: bool): seq<Byte> { Flat(Parts(tr, said)) }

  lemma {:induction false} FlatAppend(x: seq<seq<Byte>>, y: seq<seq<Byte>>)
    ensures Flat(x + y) == Flat(x) + Flat(y)
    decreases |x|
  {
    if x == [] {
      assert x + y == y;
    } else {
      assert (x + y)[1..] == x[1..] + y;
      FlatAppend(x[1..], y);
    }
  }

  lemma FlatOne(x: seq<Byte>)
    ensures Flat([x]) == x
  {
    var one := [x];
    assert one[1..] == [];
    assert x + Flat(one[1..]) == x;
  }

  lemma {:induction false} PartsAppend(x: seq<Event>, y: seq<Event>, said: bool)
    ensures Parts(x + y, said) == Parts(x, said) + Parts(y, said)
    decreases |x|
  {
    if x == [] {
      assert x + y == y;
    } else {
      assert (x + y)[1..] == x[1..] + y;
      PartsAppend(x[1..], y, said);
    }
  }

  lemma BytesAppend(x: seq<Event>, y: seq<Event>, said: bool)
    ensures Bytes(x + y, said) == Bytes(x, said) + Bytes(y, said)
  {
    PartsAppend(x, y, said);
    FlatAppend(Parts(x, said), Parts(y, said));
  }

  lemma BytesThree(x: seq<Event>, y: seq<Event>, z: seq<Event>, said: bool)
    ensures Bytes(x + (y + z), said) == Bytes(x, said) + (Bytes(y, said) + Bytes(z, said))
  {
    BytesAppend(x, y + z, said);
    BytesAppend(y, z, said);
  }

  lemma PartsFirst(tr: seq<Event>, said: bool)
    requires tr != []
    ensures Parts(tr, said) == if tr[0].Said? == said then [tr[0].b] + Parts(tr[1..], said) else Parts(tr[1..], said)
  {}

  lemma BytesFirst(tr: seq<Event>, said: bool)
    requires tr != []
    ensures Bytes(tr, said) == (if tr[0].Said? == said then tr[0].b else []) + Bytes(tr[1..], said)
  {
    PartsFirst(tr, said);
    if tr[0].Said? == said {
      assert Parts(tr, said)[1..] == Parts(tr[1..], said);
    } else {
      assert [] + Bytes(tr[1..], said) == Bytes(tr[1..], said);
    }
  }

  // ---------- each answer is read where it belongs ----------

  function Waits(l: Link): seq<seq<Byte>> { Parts(l.a, false) }

  function Answers(l: Link): seq<seq<Byte>> { Parts(l.b, true) }

  /** How many answers were written and not yet read, less those that will never be waited for. */
  function UnderWay(l: Link): int { |Waits(l)| - |Answers(l)| }

  predicate Solid(ps: seq<seq<Byte>>) { forall i :: 0 <= i < |ps| ==> ps[i] != [] }

  /** `up` is the first pieces of `w`, whole, and the others are `ans`. */
  ghost predicate Fits(w: seq<seq<Byte>>, ans: seq<seq<Byte>>, up: seq<Byte>) {
    && Solid(w)
    && |w| >= |ans|
    && w[|w| - |ans|..] == ans
    && Flat(w[..|w| - |ans|]) == up
  }

  /** The bytes coming up are the next answers the sender waits for, whole, and those after them are still to be written. */
  ghost predicate Aligned(l: Link) { Fits(Waits(l), Answers(l), l.up) }

  /** The first of the pieces under way is taken. */
  lemma TakeFirst(w: seq<seq<Byte>>, u: nat)
    requires 1 <= u <= |w|
    ensures Flat(w[..u]) == w[0] + Flat(w[1..][..u - 1]) && w[u..] == w[1..][u - 1..]
  {
    assert w[..u][1..] == w[1..][..u - 1];
  }

  /** One more piece is under way. */
  lemma AddOne(w: seq<seq<Byte>>, u: nat)
    requires u < |w|
    ensures Flat(w[..u + 1]) == Flat(w[..u]) + w[u] && w[u..] == [w[u]] + w[u + 1..]
  {
    assert w[..u + 1] == w[..u] + [w[u]];
    FlatAppend(w[..u], [w[u]]);
    FlatOne(w[u]);
  }

  lemma FitsRead(w: seq<seq<Byte>>, ans: seq<seq<Byte>>, up: seq<Byte>)
    requires Fits(w, ans, up) && w != [] && w[0] <= up
    ensures Fits(w[1..], ans, up[|w[0]|..])
  {
    var u := |w| - |ans|;
    if u > 0 { TakeFirst(w, u); }
  }

  lemma FitsWritten(w: seq<seq<Byte>>, ans: seq<seq<Byte>>, up: seq<Byte>)
    requires Fits(w, ans, up) && ans != []
    ensures Fits(w, ans[1..], up + ans[0])
  {
    var u := |w| - |ans|;
    AddOne(w, u);
    assert w[u] == w[u..][0] && w[u + 1..] == w[u..][1..];
  }

  lemma AlignedPlay(l: Link, sender: bool)
    requires Aligned(l) && Play(l, sender).Some?
    ensures Aligned(Play(l, sender).value)
  {
    if sender {
      PartsFirst(l.a, false);
      if l.a[0].Got? {
        assert Waits(l)[1..] == Parts(l.a[1..], false);
        FitsRead(Waits(l), Answers(l), l.up);
      }
    } else {
      PartsFirst(l.b, true);
      if l.b[0].Said? {
        assert Answers(l)[1..] == Parts(l.b[1..], true);
        FitsWritten(Waits(l), Answers(l), l.up);
      }
    }
  }

  lemma {:induction false} AlignedAlways(l: Link, sched: seq<bool>)
    requires Aligned(l) && Replay(l, sched).Some?
    ensures Aligned(Replay(l, sched).value)
    decreases |sched|
  {
    if sched != [] {
      AlignedPlay(l, sched[0]);
      AlignedAlways(Play(l, sched[0]).value, sched[1..]);
    }
  }

  // ---------- when at most one answer is under way ----------

  /** What the sender writes from its `k`-th last read on. */
  function SpeakFrom(a: seq<Event>, k: nat): nat
    requires 1 <= k <= |Parts(a, false)|
    decreases |a|
  {
    if a[0].Got? && |Parts(a, false)| == k then |Bytes(a, true)| else SpeakFrom(a[1..], k)
  }

  /** What the receiver reads from when only `n` of its answers are left. */
  function ListenFrom(b: seq<Event>, n: nat): nat
    requires n <= |Parts(b, true)|
    decreases |b|
  {
    if |Parts(b, true)| == n then |Bytes(b, false)| else ListenFrom(b[1..], n)
  }

  /** Before its answer with `n` left the receiver reads something written after the answer before that was read. */
  ghost predicate PacedAt(a: seq<Event>, b: seq<Event>, n: nat) {
    n <= |Parts(b, true)| && n + 2 <= |Parts(a, false)| ==> ListenFrom(b, n) < SpeakFrom(a, n + 2)
  }

  ghost predicate Paced(a: seq<Event>, b: seq<Event>) { forall n: nat :: PacedAt(a, b, n) }

  ghost predicate Balanced(l: Link) { |Bytes(l.a, true)| + |l.down| == |Bytes(l.b, false)| }

  lemma {:induction false} SpeakBound(a: seq<Event>, k: nat)
    requires 1 <= k <= |Parts(a, false)|
    ensures SpeakFrom(a, k) <= |Bytes(a, true)|
    decreases |a|
  {
    if !(a[0].Got? && |Parts(a, false)| == k) {
      SpeakBound(a[1..], k);
      BytesFirst(a, true);
    }
  }

  lemma PacedPlay(l: Link, sender: bool)
    requires Paced(l.a, l.b) && Balanced(l) && Play(l, sender).Some?
    ensures var m := Play(l, sender).value; Paced(m.a, m.b) && Balanced(m)
  {
    var m := Play(l, sender).value;
    if sender {
      BytesFirst(l.a, true);
    } else {
      BytesFirst(l.b, false);
    }
    forall n: nat ensures PacedAt(m.a, m.b, n) {
      assert PacedAt(l.a, l.b, n);
    }
  }

  lemma PacedOne(l: Link)
    requires Paced(l.a, l.b) && Balanced(l)
    ensures UnderWay(l) <= 1
  {
    var n := |Answers(l)|;
    if n + 2 <= |Waits(l)| {
      assert PacedAt(l.a, l.b, n);
      SpeakBound(l.a, n + 2);
    }
  }

  lemma {:induction false} PacedAlways(l: Link, sched: seq<bool>)
    requires Paced(l.a, l.b) && Balanced(l) && Replay(l, sched).Some?
    ensures UnderWay(Replay(l, sched).value) <= 1
    decreases |sched|
  {
    if sched == [] {
      PacedOne(l);
    } else {
      PacedPlay(l, sched[0]);
      PacedAlways(Play(l, sched[0]).value, sched[1..]);
    }
  }

  // ---------- conversations one after the other ----------

  lemma {:induction false} SpeakLater(x: seq<Event>, y: seq<Event>, k: nat)
    requires 1 <= k <= |Parts(y, false)|
    ensures |Parts(x + y, false)| >= k && SpeakFrom(x + y, k) == SpeakFrom(y, k)
    decreases |x|
  {
    PartsAppend(x, y, false);
    if x == [] {
      assert x + y == y;
    } else {
      assert (x + y)[0] == x[0] && (x + y)[1..] == x[1..] + y;
      PartsFirst(x, false);
      SpeakLater(x[1..], y, k);
    }
  }

  lemma {:induction false} SpeakEarlier(x: seq<Event>, y: seq<Event>, k: nat)
    requires |Parts(y, false)| < k <= |Parts(x, false)| + |Parts(y, false)|
    ensures |Parts(x + y, false)| >= k
    ensures SpeakFrom(x + y, k) == SpeakFrom(x, k - |Parts(y, false)|) + |Bytes(y, true)|
    decreases |x|
  {
    PartsAppend(x, y, false);
    BytesAppend(x, y, true);
    assert (x + y)[0] == x[0] && (x + y)[1..] == x[1..] + y;
    PartsFirst(x, false);
    if !(x[0].Got? && |Parts(x, false)| + |Parts(y, false)| == k) { SpeakEarlier(x[1..], y, k); }
  }

  lemma {:induction false} ListenLater(x: seq<Event>, y: seq<Event>, n: nat)
    requires n < |Parts(y, true)|
    ensures |Parts(x + y, true)| >= n && ListenFrom(x + y, n) == ListenFrom(y, n)
    decreases |x|
  {
    PartsAppend(x, y, true);
    if x == [] {
      assert x + y == y;
    } else {
      assert (x + y)[1..] == x[1..] + y;
      ListenLater(x[1..], y, n);
    }
  }

  lemma {:induction false} ListenEarlier(x: seq<Event>, y: seq<Event>, n: nat)
    requires |Parts(y, true)| <= n <= |Parts(x, true)| + |Parts(y, true)|
    ensures |Parts(x + y, true)| >= n
    ensures ListenFrom(x + y, n) == ListenFrom(x, n - |Parts(y, true)|) + |Bytes(y, false)|
    decreases |x|
  {
    PartsAppend(x, y, true);
    BytesAppend(x, y, false);
    if |Parts(x, true)| + |Parts(y, true)| > n {
      assert (x + y)[1..] == x[1..] + y;
      PartsFirst(x, true);
      ListenEarlier(x[1..], y, n);
    }
  }

  /** Something is read before the first answer. */
  predicate Opens(b: seq<Event>) {
    Parts(b, true) == [] || ListenFrom(b, |Parts(b, true)| - 1) < |Bytes(b, false)|
  }

  /** One answer, after something was read. */
  lemma OpensOnce(pre: seq<Event>, x: seq<Byte>, post: seq<Event>)
    requires Parts(pre, true) == [] && Parts(post, true) == [] && Bytes(pre, false) != []
    ensures Opens(pre + ([Said(x)] + post))
  {
    var one := [Said(x)];
    assert one[1..] == [];
    assert Parts(one, true) == [x] && Parts(one, false) == [];
    PartsAppend(one, post, true);
    ListenEarlier(one, post, 0);
    ListenLater(pre, one + post, 0);
    PartsAppend(pre, one + post, true);
    BytesAppend(one, post, false);
    BytesAppend(pre, one + post, false);
  }

  lemma OpensJoin(x: seq<Event>, y: seq<Event>)
    requires Opens(x) && Opens(y)
    ensures Opens(x + y)
  {
    PartsAppend(x, y, true);
    BytesAppend(x, y, false);
    var n := |Parts(x, true)| + |Parts(y, true)| - 1;
    if Parts(x, true) != [] {
      ListenEarlier(x, y, n);
    } else if Parts(y, true) != [] {
      ListenLater(x, y, n);
    }
  }

  /** The two ends of a conversation have as many answers, and the bytes one writes the other reads. */
  ghost predicate Even(a: seq<Event>, b: seq<Event>) {
    |Parts(a, false)| == |Parts(b, true)| && |Bytes(a, true)| == |Bytes(b, false)|
  }

  lemma PacedLater(xa: seq<Event>, xb: seq<Event>, ya: seq<Event>, yb: seq<Event>, n: nat)
    requires Even(xa, xb) && Even(ya, yb) && PacedAt(ya, yb, n) && n + 2 <= |Parts(ya, false)|
    ensures PacedAt(xa + ya, xb + yb, n)
  {
    SpeakLater(xa, ya, n + 2);
    ListenLater(xb, yb, n);
  }

  lemma PacedAcross(xa: seq<Event>, xb: seq<Event>, ya: seq<Event>, yb: seq<Event>, n: nat)
    requires Even(xa, xb) && Even(ya, yb) && Opens(yb) && n + 1 == |Parts(yb, true)|
    ensures PacedAt(xa + ya, xb + yb, n)
  {
    PartsAppend(xa, ya, false);
    if n + 2 <= |Parts(xa + ya, false)| {
      SpeakEarlier(xa, ya, n + 2);
      ListenLater(xb, yb, n);
    }
  }

  lemma PacedEarlier(xa: seq<Event>, xb: seq<Event>, ya: seq<Event>, yb: seq<Event>, n: nat)
    requires Even(xa, xb) && Even(ya, yb) && n >= |Parts(yb, true)| && PacedAt(xa, xb, n - |Parts(yb, true)|)
    ensures PacedAt(xa + ya, xb + yb, n)
  {
    PartsAppend(xa, ya, false);
    PartsAppend(xb, yb, true);
    if n <= |Parts(xb + yb, true)| && n + 2 <= |Parts(xa + ya, false)| {
      SpeakEarlier(xa, ya, n + 2);
      ListenEarlier(xb, yb, n);
    }
  }

  lemma PacedJoin(xa: seq<Event>, xb: seq<Event>, ya: seq<Event>, yb: seq<Event>)
    requires Paced(xa, xb) && Paced(ya, yb) && Opens(yb) && Even(xa, xb) && Even(ya, yb)
    ensures Paced(xa + ya, xb + yb)
  {
    forall n: nat ensures PacedAt(xa + ya, xb + yb, n) {
      if n + 2 <= |Parts(ya, false)| {
        assert PacedAt(ya, yb, n);
        PacedLater(xa, xb, ya, yb, n);
      } else if n < |Parts(yb, true)| {
        PacedAcross(xa, xb, ya, yb, n);
      } else {
        assert PacedAt(xa, xb, n - |Parts(yb, true)|);
        PacedEarlier(xa, xb, ya, yb, n);
      }
    }
  }

  // ---------- bytes on their way up ----------

  /** What the receiver has still to say and what is under way, less what the sender has still to hear. */
  function Surplus(l: Link): int { |Bytes(l.b, true)| + |l.up| - |Bytes(l.a, false)| }

  lemma {:induction false} SurplusStays(l: Link, sched: seq<bool>)
    requires Replay(l, sched).Some?
    ensures Surplus(Replay(l, sched).value) == Surplus(l)
    decreases |sched|
  {
    if sched != [] {
      if sched[0] { BytesFirst(l.a, false); } else { BytesFirst(l.b, true); }
      SurplusStays(Play(l, sched[0]).value, sched[1..]);
    }
  }

  /** Only traces that say as much as they hear can be completed. */
  lemma CompleteIsEven(l: Link)
    requires Completes(l)
    ensures Surplus(l) == 0
  {
    var sched :| Replay(l, sched) == Some(QUIET);
    SurplusStays(l, sched);
  }

  // ---------- two answers under way ----------

  ghost predicate Piles(l: Link, n: int) { exists sched :: Replay(l, sched).Some? && UnderWay(Replay(l, sched).value) >= n }

  /** From here on, in some interleaving, two answers are written before the sender reads any of them. */
  ghost predicate Overlaps(l: Link) { Piles(l, UnderWay(l) + 2) }

  lemma PilesNow(l: Link)
    ensures Piles(l, UnderWay(l))
  {
    assert Replay(l, []) == Some(l);
  }

  lemma PilesAfter(l: Link, sender: bool, l1: Link, n: int)
    requires Play(l, sender) == Some(l1) && Piles(l1, n)
    ensures Piles(l, n)
  {
    var s :| Replay(l1, s).Some? && UnderWay(Replay(l1, s).value) >= n;
    assert ([sender] + s)[1..] == s;
    assert Replay(l, [sender] + s) == Replay(l1, s);
  }

  /** The receiver goes on. */
  lemma PilesSaid(x: seq<Byte>, a: seq<Event>, b: seq<Event>, down: seq<Byte>, up: seq<Byte>, n: int)
    requires Piles(Link(a, b, down, up + x), n)
    ensures Piles(Link(a, [Said(x)] + b, down, up), n)
  {
    assert ([Said(x)] + b)[1..] == b;
    PilesAfter(Link(a, [Said(x)] + b, down, up), false, Link(a, b, down, up + x), n);
  }

  lemma PilesGot(x: seq<Byte>, a: seq<Event>, b: seq<Event>, up: seq<Byte>, n: int)
    requires Piles(Link(a, b, [], up), n)
    ensures Piles(Link(a, [Got(x)] + b, x, up), n)
  {
    assert ([Got(x)] + b)[1..] == b && x[|x|..] == [];
    PilesAfter(Link(a, [Got(x)] + b, x, up), false, Link(a, b, [], up), n);
  }

  /** The sender writes. */
  lemma PilesSent(x: seq<Byte>, a: seq<Event>, b: seq<Event>, n: int)
    requires Piles(Link(a, b, x, []), n)
    ensures Piles(Link([Said(x)] + a, b, [], []), n)
  {
    assert ([Said(x)] + a)[1..] == a && [] + x == x;
    PilesAfter(Link([Said(x)] + a, b, [], []), true, Link(a, b, x, []), n);
  }

  lemma OverlapsFirst(xa: seq<Event>, xb: seq<Event>, ya: seq<Event>, yb: seq<Event>)
    requires Overlaps(Link(xa, xb, [], []))
    ensures Overlaps(Link(xa + ya, xb + yb, [], []))
  {
    var l := Link(xa, xb, [], []);
    var n := UnderWay(l) + 2;
    var sched :| Replay(l, sched).Some? && UnderWay(Replay(l, sched).value) >= n;
    ReplayMore(l, sched, ya, yb);
    var m := Replay(l, sched).value;
    PartsAppend(m.a, ya, false);
    PartsAppend(m.b, yb, true);
    PartsAppend(xa, ya, false);
    PartsAppend(xb, yb, true);
    assert Replay(More(l, ya, yb), sched) == Some(More(m, ya, yb));
    assert UnderWay(More(m, ya, yb)) >= UnderWay(More(l, ya, yb)) + 2;
  }

  lemma OverlapsSecond(xa: seq<Event>, xb: seq<Event>, ya: seq<Event>, yb: seq<Event>)
    requires LockStep(xa, xb) && Overlaps(Link(ya, yb, [], [])) && |Parts(xa, false)| == |Parts(xb, true)|
    ensures Overlaps(Link(xa + ya, xb + yb, [], []))
  {
    var l, m := Link(xa, xb, [], []), Link(ya, yb, [], []);
    var s1 :| Replay(l, s1) == Some(QUIET);
    var s2 :| Replay(m, s2).Some? && UnderWay(Replay(m, s2).value) >= UnderWay(m) + 2;
    ReplayMore(l, s1, ya, yb);
    assert More(QUIET, ya, yb) == m;
    ReplayThen(More(l, ya, yb), s1, s2);
    PartsAppend(xa, ya, false);
    PartsAppend(xb, yb, true);
    assert UnderWay(Replay(More(l, ya, yb), s1 + s2).value) >= UnderWay(More(l, ya, yb)) + 2;
  }
}
