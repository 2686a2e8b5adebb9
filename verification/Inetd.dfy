/**
 The accounting of sockets and waited children in `inetd/inetd.c`: the
 dispatch part of `main`, `reapchild`, `retry`, `setup`, `close_sep` and
 `enter`.  The operating system's answers (descriptors, process ids, the time)
 are parameters.
 */
module Inetd {
  const CNT_INTVL := 60

  /** `struct servtab`, as far as the accounting goes. */
  datatype Sep = Sep(
    fd: int,             // open descriptor, or -1
    wait: int,           // 0 nowait; 1 wait; otherwise the child waited for
    stream: bool,
    forks: bool,         // not a built-in that runs in this process
    mux: bool,
    max: nat,
    count: nat,
    time: int)

  /** The descriptors that belong in `allsock`: open, and not handed to a child that is waited for. */
  function Watched(tab: seq<Sep>): set<int> {
    set i | 0 <= i < |tab| && tab[i].fd >= 0 && tab[i].wait <= 1 :: tab[i].fd
  }

  /** Two entries share neither a socket nor a waited child. */
  predicate Apart(a: Sep, b: Sep) {
    (a.fd >= 0 ==> a.fd != b.fd) && (a.wait > 1 ==> a.wait != b.wait)
  }

  predicate Fine(e: Sep, maxsock: int, children: set<int>) {
    && -1 <= e.fd && (e.fd >= 0 ==> e.fd <= maxsock)
    && 0 <= e.wait && (e.wait > 1 ==> e.fd >= 0 && e.wait in children)
  }

  ghost predicate Distinct(tab: seq<Sep>) {
    forall i, j {:trigger Apart(tab[i], tab[j])} :: 0 <= i < |tab| && 0 <= j < |tab| && i != j ==> Apart(tab[i], tab[j])
  }

  ghost predicate AllFine(tab: seq<Sep>, maxsock: int, children: set<int>) {
    forall i :: 0 <= i < |tab| ==> Fine(tab[i], maxsock, children)
  }

  /** `allsock` is exactly the watched descriptors and `nsock` is their number. */
  ghost predicate Accounts(tab: seq<Sep>, allsock: set<int>, nsock: int) {
    allsock == Watched(tab) && nsock == |allsock|
  }

  ghost predicate InOrder(tab: seq<Sep>, allsock: set<int>, nsock: int, maxsock: int, children: set<int>) {
    Distinct(tab) && Accounts(tab, allsock, nsock) && AllFine(tab, maxsock, children)
  }

  /** Open, and not handed to a child. */
  predicate Open(e: Sep) { e.fd >= 0 && e.wait <= 1 }

  function Part(e: Sep): set<int> { if Open(e) then {e.fd} else {} }

  /** `e` may stand in the place of entry `i`. */
  ghost predicate Fits(tab: seq<Sep>, i: nat, e: Sep) {
    forall j {:trigger Apart(e, tab[j])} :: 0 <= j < |tab| && j != i ==> Apart(e, tab[j]) && Apart(tab[j], e)
  }

  /** A descriptor that no entry has open. */
  predicate Unused(tab: seq<Sep>, fd: int) {
    fd >= 0 && forall i :: 0 <= i < |tab| ==> tab[i].fd != fd
  }

  predicate NoOneWaits(tab: seq<Sep>, pid: int) {
    forall i :: 0 <= i < |tab| ==> tab[i].wait != pid
  }

  lemma FitsIf(tab: seq<Sep>, i: nat, e: Sep)
    requires i < |tab| && Distinct(tab)
    requires e.fd == tab[i].fd || e.fd == -1 || Unused(tab, e.fd)
    requires e.wait == tab[i].wait || e.wait <= 1 || NoOneWaits(tab, e.wait)
    ensures Fits(tab, i, e)
  {
    forall j | 0 <= j < |tab| && j != i ensures Apart(e, tab[j]) && Apart(tab[j], e) {
      assert Apart(tab[i], tab[j]) && Apart(tab[j], tab[i]);
    }
  }

  lemma DistinctUpdate(tab: seq<Sep>, i: nat, e: Sep)
    requires i < |tab| && Distinct(tab) && Fits(tab, i, e)
    ensures Distinct(tab[i := e])
  {
    var t := tab[i := e];
    forall j, k | 0 <= j < |t| && 0 <= k < |t| && j != k ensures Apart(t[j], t[k]) {
      if j == i {
        assert Apart(e, tab[k]);
      } else if k == i {
        assert Apart(e, tab[j]);
      } else {
        assert Apart(tab[j], tab[k]);
      }
    }
  }

  lemma WatchedOnly(tab: seq<Sep>, i: nat)
    requires i < |tab| && Distinct(tab) && tab[i].fd >= 0
    ensures tab[i].fd in Watched(tab) <==> tab[i].wait <= 1
  {
    if tab[i].fd in Watched(tab) {
      var j :| 0 <= j < |tab| && tab[j].fd >= 0 && tab[j].wait <= 1 && tab[j].fd == tab[i].fd;
      if j != i { assert Apart(tab[i], tab[j]); }
    }
  }

  /** What changing one entry does to the watched descriptors. */
  lemma WatchedUpdate(tab: seq<Sep>, i: nat, e: Sep)
    requires i < |tab| && Distinct(tab) && Fits(tab, i, e)
    ensures Watched(tab[i := e]) == Watched(tab) - Part(tab[i]) + Part(e)
    ensures Part(e) !! Watched(tab) - Part(tab[i])
  {
    var t := tab[i := e];
    forall x | x in Watched(tab) - Part(tab[i]) ensures x in Watched(t) && x !in Part(e) {
      var j :| 0 <= j < |tab| && tab[j].fd >= 0 && tab[j].wait <= 1 && tab[j].fd == x;
      assert t[j] == tab[j] && Apart(e, tab[j]);
    }
    forall x | x in Watched(t) ensures x in Watched(tab) - Part(tab[i]) + Part(e) {
      var j :| 0 <= j < |t| && t[j].fd >= 0 && t[j].wait <= 1 && t[j].fd == x;
      if j != i { assert tab[j] == t[j] && Apart(tab[i], tab[j]); }
    }
    if e.fd >= 0 && e.wait <= 1 { assert t[i].fd in Watched(t); }
  }

  /** An entry becomes watched: `setup` and `reapchild`. */
  lemma WatchKeeps(tab: seq<Sep>, allsock: set<int>, nsock: int, i: nat, e: Sep)
    requires i < |tab| && Distinct(tab) && Fits(tab, i, e) && Accounts(tab, allsock, nsock)
    requires Part(tab[i]) == {} && Part(e) == {e.fd}
    ensures Accounts(tab[i := e], allsock + {e.fd}, nsock + 1)
  {
    WatchedUpdate(tab, i, e);
    assert allsock - {} == allsock;
    assert e.fd !in allsock;
  }

  /** A watched entry is handed to a child or closed. */
  lemma UnwatchKeeps(tab: seq<Sep>, allsock: set<int>, nsock: int, i: nat, e: Sep)
    requires i < |tab| && Distinct(tab) && Fits(tab, i, e) && Accounts(tab, allsock, nsock)
    requires Part(tab[i]) == {tab[i].fd} && Part(e) == {}
    ensures Accounts(tab[i := e], allsock - {tab[i].fd}, nsock - 1)
  {
    WatchedUpdate(tab, i, e);
    WatchedOnly(tab, i);
    assert allsock - {tab[i].fd} + {} == allsock - {tab[i].fd};
  }

  /** Neither watched more nor less. */
  lemma SameKeeps(tab: seq<Sep>, allsock: set<int>, nsock: int, i: nat, e: Sep)
    requires i < |tab| && Distinct(tab) && Fits(tab, i, e) && Accounts(tab, allsock, nsock)
    requires Part(tab[i]) == Part(e)
    ensures Accounts(tab[i := e], allsock, nsock)
  {
    WatchedUpdate(tab, i, e);
    if Part(e) != {} { WatchedOnly(tab, i); }
    assert allsock - Part(e) + Part(e) == allsock;
  }

  function Closed(e: Sep): Sep { e.(fd := -1, count := 0, wait := if e.wait > 1 then 1 else e.wait) }

  /**
   `close_sep` on an open entry keeps the accounts exactly when no child is
   being waited for: with one, `nsock` drops although the descriptor was not
   in `allsock`.
   */
  lemma CloseKeepsIff(tab: seq<Sep>, allsock: set<int>, nsock: int, i: nat)
    requires i < |tab| && Distinct(tab) && Accounts(tab, allsock, nsock) && tab[i].fd >= 0
    ensures Accounts(tab[i := Closed(tab[i])], allsock - {tab[i].fd}, nsock - 1) <==> tab[i].wait <= 1
  {
    FitsIf(tab, i, Closed(tab[i]));
    if tab[i].wait <= 1 {
      UnwatchKeeps(tab, allsock, nsock, i, Closed(tab[i]));
    } else {
      WatchedOnly(tab, i);
      assert allsock - {tab[i].fd} == allsock;
    }
  }

  /** The same for any entry: only an open one can have a waited child. */
  lemma CloseKeeps(tab: seq<Sep>, allsock: set<int>, nsock: int, maxsock: int, children: set<int>, i: nat)
    requires i < |tab| && Distinct(tab) && Accounts(tab, allsock, nsock) && AllFine(tab, maxsock, children)
    ensures var e := tab[i];
      var tab1 := tab[i := Closed(e)];
      && -1 !in allsock
      && (InOrder(tab1, allsock - {e.fd}, nsock - (if e.fd >= 0 then 1 else 0), maxsock, children) <==> e.wait <= 1)
  {
    var e := tab[i];
    assert Fine(e, maxsock, children);
    FitsIf(tab, i, Closed(e));
    DistinctUpdate(tab, i, Closed(e));
    if e.fd >= 0 {
      CloseKeepsIff(tab, allsock, nsock, i);
    } else {
      assert allsock - {e.fd} == allsock;
      SameKeeps(tab, allsock, nsock, i, Closed(e));
    }
  }

  // ---------- how often a service may be started ----------

  /** How many starts are let through in one interval; the first always is. */
  function Most(max: nat, toomany: nat): nat {
    var limit := if max > 0 && max + 1 < toomany then max + 1 else toomany;
    if limit <= 2 then 1 else limit - 1
  }

  /** A start that is counted as number `n` after the first is too many if it exceeds either limit. */
  lemma MostIs(max: nat, toomany: nat, n: nat)
    requires n > 0
    ensures n >= Most(max, toomany) <==> (max > 0 && n + 1 > max) || n + 1 >= toomany
  {}

  predicate Ordered(h: seq<int>) { forall i, j :: 0 <= i < j < |h| ==> h[i] <= h[j] }

  /** No more than `2 * m` starts in any CNT_INTVL seconds. */
  predicate Sparse(h: seq<int>, m: nat) {
    forall i, j :: 0 <= i && i + 2 * m <= j < |h| ==> h[j] - h[i] > CNT_INTVL
  }

  /**
   `h` holds the times at which a service was started since it was opened: the
   counter counts the last of them, from the one at the time stored.  Before
   those, `m` starts took more than an interval.
   */
  ghost predicate Window(e: Sep, h: seq<int>, m: nat) {
    var k := |h| - e.count;
    && 0 <= k && e.count <= m && (h != [] ==> e.count > 0)
    && (e.count > 0 ==> e.time == h[k])
    && (k > 0 ==> m <= k && h[k] - h[k - m] > CNT_INTVL)
    && (Ordered(h) ==> Sparse(h, m))
  }

  /** The start that has to be refused: as many as are let through, all in the interval that began with the first. */
  predicate Full(e: Sep, h: seq<int>, m: nat, now: int) {
    e.count == m && 0 < m <= |h| && now - h[|h| - m] <= CNT_INTVL
  }

  ghost predicate Paced(tab: seq<Sep>, hist: seq<seq<int>>, toomany: nat) {
    |hist| == |tab| && forall i {:trigger hist[i]} :: 0 <= i < |tab| ==> Window(tab[i], hist[i], Most(tab[i].max, toomany))
  }

  /** One more start. */
  lemma StartMore(e: Sep, h: seq<int>, m: nat, now: int, n: Sep)
    requires Window(e, h, m) && m > 0 && !Full(e, h, m, now)
    requires if e.count == m then n.count == 1 && n.time == now
             else n.count == e.count + 1 && n.time == if e.count == 0 then now else e.time
    ensures Window(n, h + [now], m)
  {
    var g := h + [now];
    var k := |g| - n.count;
    if Ordered(g) {
      assert Ordered(h) by {
        forall i, j | 0 <= i < j < |h| ensures h[i] <= h[j] { assert g[i] <= g[j]; }
      }
      forall i, j | 0 <= i && i + 2 * m <= j < |g| ensures g[j] - g[i] > CNT_INTVL {
        if j < |h| {
          assert h[j] - h[i] > CNT_INTVL;
        } else {
          assert g[k] - g[k - m] > CNT_INTVL;
          assert i < k - m ==> g[i] <= g[k - m];
          assert k < j ==> g[k] <= g[j];
        }
      }
    }
  }

  /** When a start is refused, with the clock never set back, the last `m` were all within the interval that ends now. */
  lemma RefusedInTime(e: Sep, h: seq<int>, m: nat, now: int)
    requires Full(e, h, m, now) && Ordered(h + [now])
    ensures m <= |h| && forall i :: |h| - m <= i < |h| ==> 0 <= now - h[i] <= CNT_INTVL
  {
    var g := h + [now];
    forall i | |h| - m <= i < |h| ensures 0 <= now - h[i] <= CNT_INTVL {
      assert g[i] == h[i] && g[|h|] == now && g[i] <= g[|h|];
      assert |h| - m < i ==> g[|h| - m] <= g[i];
    }
  }

  /** In any run of starts since a service was opened, `2 * m + 1` take more than the interval. */
  lemma RateLimited(e: Sep, h: seq<int>, m: nat, i: nat)
    requires Window(e, h, m) && Ordered(h) && i + 2 * m < |h|
    ensures h[i + 2 * m] - h[i] > CNT_INTVL
  {}

  /** A start that was asked for: the entry and its history then, the time, and whether the service was stopped instead. */
  datatype Try = Try(e: Sep, h: seq<int>, now: int, stopped: bool)

  /** It was stopped exactly if as many starts as are let through fell within the interval that began with the first. */
  ghost predicate Fair(d: Try, toomany: nat) {
    Window(d.e, d.h, Most(d.e.max, toomany)) && (d.stopped <==> Full(d.e, d.h, Most(d.e.max, toomany), d.now))
  }

  ghost predicate AllFair(tries: seq<Try>, toomany: nat) { forall i :: 0 <= i < |tries| ==> Fair(tries[i], toomany) }

  /** The counters are left alone. */
  predicate SameCount(a: Sep, b: Sep) { b == a.(fd := b.fd, wait := b.wait) }

  lemma PacedUpdate(tab: seq<Sep>, hist: seq<seq<int>>, toomany: nat, i: nat, e: Sep, h: seq<int>)
    requires Paced(tab, hist, toomany) && i < |tab| && e.max == tab[i].max && Window(e, h, Most(e.max, toomany))
    ensures Paced(tab[i := e], hist[i := h], toomany)
  {}

  lemma PacedSame(tab: seq<Sep>, hist: seq<seq<int>>, toomany: nat, i: nat, e: Sep)
    requires Paced(tab, hist, toomany) && i < |tab| && SameCount(tab[i], e)
    ensures Paced(tab[i := e], hist, toomany)
  {
    forall k | 0 <= k < |tab| ensures Window(tab[i := e][k], hist[k], Most(tab[i := e][k].max, toomany)) {
      assert Window(tab[k], hist[k], Most(tab[k].max, toomany));
    }
  }

  /** The tables are in order after an entry is watched. */
  lemma WatchInOrder(tab: seq<Sep>, allsock: set<int>, nsock: int, maxsock: int, children: set<int>, i: nat, e: Sep)
    requires InOrder(tab, allsock, nsock, maxsock, children) && i < |tab| && Fits(tab, i, e) && Fine(e, maxsock, children)
    requires !Open(tab[i]) && Open(e)
    ensures InOrder(tab[i := e], allsock + {e.fd}, nsock + 1, maxsock, children)
  {
    DistinctUpdate(tab, i, e);
    WatchKeeps(tab, allsock, nsock, i, e);
  }

  lemma UnwatchInOrder(tab: seq<Sep>, allsock: set<int>, nsock: int, maxsock: int, children: set<int>, i: nat, e: Sep)
    requires InOrder(tab, allsock, nsock, maxsock, children) && i < |tab| && Fits(tab, i, e) && Fine(e, maxsock, children)
    requires Open(tab[i]) && !Open(e)
    ensures InOrder(tab[i := e], allsock - {tab[i].fd}, nsock - 1, maxsock, children)
  {
    DistinctUpdate(tab, i, e);
    UnwatchKeeps(tab, allsock, nsock, i, e);
  }

  lemma SameInOrder(tab: seq<Sep>, allsock: set<int>, nsock: int, maxsock: int, children: set<int>, i: nat, e: Sep)
    requires InOrder(tab, allsock, nsock, maxsock, children) && i < |tab| && e.fd == tab[i].fd && e.wait == tab[i].wait
    ensures InOrder(tab[i := e], allsock, nsock, maxsock, children)
  {
    FitsIf(tab, i, e);
    DistinctUpdate(tab, i, e);
    SameKeeps(tab, allsock, nsock, i, e);
    assert Fine(tab[i], maxsock, children);
  }

  /** What the system makes of `setup`: a bound socket, one that could not be bound, or none. */
  datatype Outcome = Bound(fd: int) | Unbound | NoSocket

  /** An entry that `retry` sets up. */
  predicate Idle(e: Sep) { e.fd == -1 && !e.mux }

  function Opened(e: Sep, o: Outcome): Sep { if Idle(e) && o.Bound? then e.(fd := o.fd) else e }

  /** The services and operating system events that change the accounts. */
  datatype Op =
    | Entry(cp: Sep)                                            // a service is configured
    | Start(i: nat, o: Outcome)                                 // and set up
    | Alarm(outs: seq<Outcome>)                                 // the retry alarm
    | Ready(i: nat, accepted: bool, now: int, pid: int)         // a socket is readable
    | Exited(pid: int)                                          // a child is reaped
    | Shut(i: nat)                                              // a service is closed

  function Restored(e: Sep, pid: int): Sep { if e.wait == pid then e.(wait := 1) else e }

  class Server {
    var servtab: seq<Sep>
    var allsock: set<int>
    var nsock: int
    var maxsock: int
    var timingout: bool
    const toomany: nat
    var alarm: bool                    // the retry alarm is running
    var children: set<int>             // processes started and not yet reaped
    ghost var hist: seq<seq<int>>      // when each service was started since it was opened
    ghost var tries: seq<Try>          // all starts asked for

    ghost predicate Valid()
      reads this
    {
      && InOrder(servtab, allsock, nsock, maxsock, children)
      && (forall p :: p in children ==> p > 1)
      && (timingout <==> alarm) && Paced(servtab, hist, toomany)
    }

    /** Every service stopped so far was stopped for starting too often, and every one that did was stopped. */
    ghost predicate Just()
      reads this
    {
      AllFair(tries, toomany)
    }

    constructor (toomany: nat)
      ensures Valid() && Just() && servtab == [] && children == {}
    {
      servtab, allsock, nsock, maxsock, timingout, alarm := [], {}, 0, -1, false, false;
      this.toomany, children, hist, tries := toomany, {}, [], [];
      new;
      assert Watched(servtab) == {};
    }

    /** `enter`. */
    method Enter(cp: Sep)
      requires Valid() && 0 <= cp.wait <= 1 && cp.count == 0
      modifies this`servtab, this`hist
      ensures Valid() && servtab == [cp.(fd := -1)] + old(servtab) && hist == [[]] + old(hist)
    {
      EnterKeeps(servtab, cp.(fd := -1), maxsock, children);
      servtab, hist := [cp.(fd := -1)] + servtab, [[]] + hist;
    }

    /** An entry is changed to one that is watched. */
    method Watch(i: nat, e: Sep)
      requires Valid() && i < |servtab| && Fits(servtab, i, e) && Fine(e, maxsock, children)
      requires SameCount(servtab[i], e) && (servtab[i].fd < 0 || servtab[i].wait > 1) && Open(e)
      modifies this`servtab, this`allsock, this`nsock
      ensures Valid() && servtab == old(servtab)[i := e] && nsock == old(nsock) + 1
    {
      WatchInOrder(servtab, allsock, nsock, maxsock, children, i, e);
      PacedSame(servtab, hist, toomany, i, e);
      servtab, allsock, nsock := servtab[i := e], allsock + {e.fd}, nsock + 1;
    }

    /** A watched entry is changed to one that is not. */
    method Unwatch(i: nat, e: Sep)
      requires Valid() && i < |servtab| && Fits(servtab, i, e) && Fine(e, maxsock, children)
      requires SameCount(servtab[i], e) && Open(servtab[i]) && !Open(e)
      modifies this`servtab, this`allsock, this`nsock
      ensures Valid() && servtab == old(servtab)[i := e] && nsock == old(nsock) - 1
    {
      UnwatchInOrder(servtab, allsock, nsock, maxsock, children, i, e);
      PacedSame(servtab, hist, toomany, i, e);
      allsock := allsock - {servtab[i].fd};
      nsock := nsock - 1;
      servtab := servtab[i := e];
    }

    /** A start is counted; the socket and the child do not change. */
    method Record(i: nat, e: Sep, now: int)
      requires Valid() && i < |servtab| && e == servtab[i].(count := e.count, time := e.time)
      requires Window(e, hist[i] + [now], Most(e.max, toomany))
      modifies this`servtab, this`hist
      ensures Valid() && servtab == old(servtab)[i := e] && hist == old(hist)[i := old(hist)[i] + [now]]
    {
      SameInOrder(servtab, allsock, nsock, maxsock, children, i, e);
      PacedUpdate(servtab, hist, toomany, i, e, hist[i] + [now]);
      servtab, hist := servtab[i := e], hist[i := hist[i] + [now]];
    }

    /** `if (!timingout)`: a retry is scheduled, unless one is. */
    method Schedule()
      requires timingout <==> alarm
      modifies this`timingout, this`alarm
      ensures timingout && alarm
    {
      if !timingout {
        timingout := true;
        alarm := true;
      }
    }

    /** `setup`: a socket that cannot be bound is tried again later, one that cannot be made is not. */
    method Setup(i: nat, o: Outcome)
      requires Valid() && i < |servtab| && Idle(servtab[i]) && (o.Bound? ==> Unused(servtab, o.fd))
      modifies this`servtab, this`allsock, this`nsock, this`maxsock, this`timingout, this`alarm
      ensures Valid() && servtab == old(servtab)[i := Opened(old(servtab)[i], o)]
      ensures timingout <==> old(timingout) || o.Unbound?
    {
      match o
      case NoSocket =>
      case Unbound => Schedule();
      case Bound(fd) =>
        if fd > maxsock {
          maxsock := fd;
        }
        var e := servtab[i].(fd := fd);
        FitsIf(servtab, i, e);
        Watch(i, e);
    }

    /** `retry`: every closed entry that is not a TCPMUX service is set up again. */
    method Retry(outs: seq<Outcome>)
      requires Valid() && |outs| == |servtab|
      requires forall i :: 0 <= i < |outs| && outs[i].Bound? ==> Unused(servtab, outs[i].fd)
      requires forall i, j :: 0 <= i < j < |outs| && outs[i].Bound? ==> outs[i] != outs[j]
      modifies this`servtab, this`allsock, this`nsock, this`maxsock, this`timingout, this`alarm
      ensures Valid() && |servtab| == |outs|
      ensures forall i :: 0 <= i < |outs| ==> servtab[i] == Opened(old(servtab)[i], outs[i])
      ensures timingout <==> exists i :: 0 <= i < |outs| && Idle(old(servtab)[i]) && outs[i].Unbound?
    {
      timingout, alarm := false, false;
      ghost var was := servtab;
      var i := 0;
      while i < |servtab|
        invariant i <= |servtab| == |outs| && Valid()
        invariant forall k :: i <= k < |outs| ==> servtab[k] == was[k]
        invariant forall k :: 0 <= k < i ==> servtab[k] == Opened(was[k], outs[k])
        invariant timingout <==> exists k :: 0 <= k < i && Idle(was[k]) && outs[k].Unbound?
      {
        if servtab[i].fd == -1 && !servtab[i].mux {
          if outs[i].Bound? { StillUnused(was, servtab, outs, i); }
          Setup(i, outs[i]);
        }
        i := i + 1;
      }
    }

    /** The descriptor of an open entry is taken out of the set. */
    method Clear(e: Sep)
      requires -1 !in allsock && e.fd >= -1
      modifies this`allsock, this`nsock
      ensures allsock == old(allsock) - {e.fd} && nsock == old(nsock) - if e.fd >= 0 then 1 else 0
    {
      if e.fd >= 0 {
        nsock := nsock - 1;
        allsock := allsock - {e.fd};
      }
    }

    /** `close_sep`: the accounts are kept unless a child is waited for. */
    method CloseSep(i: nat)
      requires Valid() && i < |servtab|
      modifies this`servtab, this`allsock, this`nsock, this`hist
      ensures servtab == old(servtab)[i := Closed(old(servtab)[i])] && hist == old(hist)[i := []]
      ensures var e := old(servtab)[i]; allsock == old(allsock) - {e.fd} && nsock == old(nsock) - if e.fd >= 0 then 1 else 0
      ensures Valid() <==> old(servtab)[i].wait <= 1
    {
      var e := servtab[i];
      Clear(e);
      CloseKeeps(servtab, old(allsock), old(nsock), maxsock, children, i);
      e := e.(fd := -1, count := 0);
      if e.wait > 1 {
        e := e.(wait := 1);
      }
      assert e == Closed(servtab[i]);
      PacedUpdate(servtab, hist, toomany, i, e, []);
      servtab, hist := servtab[i := e], hist[i := []];
    }

    /**
     The body of the dispatch loop for entry `i`, whose descriptor `select`
     reported.  `accepted`: whether `accept` worked; `now`: the time; `pid`:
     what `fork` returns in the parent, a process id not in use or -1.
     */
    method Dispatch(i: nat, accepted: bool, now: int, pid: int)
      requires Valid() && i < |servtab| && servtab[i].fd in allsock
      requires pid == -1 || (pid > 1 && pid !in children)
      modifies this
      ensures Valid() && (old(Just()) ==> Just()) && |servtab| == |old(servtab)|
      ensures forall k :: 0 <= k < |servtab| && k != i ==> servtab[k] == old(servtab)[k] && hist[k] == old(hist)[k]
      ensures
        var e, h := old(servtab)[i], old(hist)[i];
        var starts := e.forks && (accepted || e.wait != 0 || !e.stream);
        var stops := starts && Full(e, h, Most(e.max, toomany), now);
        && (servtab[i].fd == if stops then -1 else e.fd)
        && tries == (if starts then old(tries) + [Try(e, h, now, stops)] else old(tries))
        && hist[i] == (if stops then [] else if starts then h + [now] else h)
        && children == (if starts && !stops && pid > 0 then old(children) + {pid} else old(children))
        && (servtab[i].wait == if pid in children && e.wait == 1 then pid else e.wait)
        && (stops ==> timingout)
    {
      var sep := servtab[i];
      WatchedHere(servtab, i);
      if sep.wait == 0 && sep.stream && !accepted {
        return;
      }
      if !sep.forks {
        return;
      }
      Serve(i, now, pid);
    }

    /** The service is started, or stopped for being started too often. */
    method Serve(i: nat, now: int, pid: int)
      requires Valid() && i < |servtab| && servtab[i].fd >= 0 && servtab[i].wait <= 1
      requires pid == -1 || (pid > 1 && pid !in children)
      modifies this
      ensures Valid() && (old(Just()) ==> Just()) && |servtab| == |old(servtab)|
      ensures
        var e, h := old(servtab)[i], old(hist)[i];
        var stops := Full(e, h, Most(e.max, toomany), now);
        && servtab == old(servtab)[i := servtab[i]] && hist == old(hist)[i := if stops then [] else h + [now]]
        && tries == old(tries) + [Try(e, h, now, stops)]
        && servtab[i].fd == (if stops then -1 else e.fd)
        && children == (if !stops && pid > 0 then old(children) + {pid} else old(children))
        && servtab[i].wait == (if pid in children && e.wait == 1 then pid else e.wait)
        && (stops ==> timingout)
    {
      var started, stop := Count(servtab[i], now, hist[i]);
      tries := tries + [Try(servtab[i], hist[i], now, stop)];
      if stop {
        Stop(i);
      } else {
        Record(i, started, now);
        if pid >= 0 {
          Hand(i, pid);
        }
      }
    }

    /** The service is closed for a while. */
    method Stop(i: nat)
      requires Valid() && i < |servtab| && servtab[i].wait <= 1
      modifies this`servtab, this`allsock, this`nsock, this`timingout, this`alarm, this`hist
      ensures Valid() && timingout && servtab == old(servtab)[i := Closed(old(servtab)[i])] && hist == old(hist)[i := []]
    {
      CloseSep(i);
      Schedule();
    }

    /** A child was started: if it is waited for, it has the socket. */
    method Hand(i: nat, pid: int)
      requires Valid() && i < |servtab| && servtab[i].fd >= 0 && servtab[i].wait <= 1 && pid > 1 && pid !in children
      modifies this`servtab, this`allsock, this`nsock, this`children
      ensures Valid() && children == old(children) + {pid}
      ensures servtab == old(servtab)[i := old(servtab)[i].(wait := if old(servtab)[i].wait != 0 then pid else 0)]
    {
      ChildrenGrow(servtab, maxsock, children, pid);
      children := children + {pid};
      if servtab[i].wait != 0 {
        var e := servtab[i].(wait := pid);
        FitsIf(servtab, i, e);
        Unwatch(i, e);
      }
    }

    /** How often the service was started lately, and whether that is too often. */
    method Count(sep: Sep, now: int, ghost h: seq<int>) returns (e: Sep, stop: bool)
      requires Window(sep, h, Most(sep.max, toomany))
      ensures e == sep.(count := e.count, time := e.time)
      ensures stop <==> Full(sep, h, Most(sep.max, toomany), now)
      ensures !stop ==> Window(e, h + [now], Most(sep.max, toomany))
      ensures !stop ==> e.count == if sep.count == Most(sep.max, toomany) then 1 else sep.count + 1
    {
      stop := false;
      e := sep.(count := sep.count + 1);
      if sep.count == 0 {
        e := e.(time := now);
      } else if (e.max > 0 && e.count > e.max) || e.count >= toomany {
        if now - e.time > CNT_INTVL {
          e := e.(time := now, count := 1);
        } else {
          stop := true;
        }
      }
      if !stop {
        StartMore(sep, h, Most(sep.max, toomany), now, e);
      }
    }

    /** `reapchild` for one process: the one entry that waits for it, if any, is watched again. */
    method Reap(pid: int)
      requires Valid() && pid in children
      modifies this`servtab, this`allsock, this`nsock, this`children
      ensures Valid() && children == old(children) - {pid} && |servtab| == |old(servtab)|
      ensures forall k :: 0 <= k < |servtab| ==> servtab[k] == Restored(old(servtab)[k], pid)
      ensures nsock == old(nsock) + if NoOneWaits(old(servtab), pid) then 0 else 1
    {
      ghost var was := servtab;
      var i := 0;
      while i < |servtab|
        invariant i <= |servtab| == |was| && Valid() && children == old(children)
        invariant forall k :: i <= k < |was| ==> servtab[k] == was[k]
        invariant forall k :: 0 <= k < i ==> servtab[k] == Restored(was[k], pid)
        invariant nsock == old(nsock) + if NoOneWaits(was[..i], pid) then 0 else 1
      {
        assert was[..i + 1] == was[..i] + [was[i]];
        if servtab[i].wait == pid {
          OnlyOneWaits(was, i, pid);
          var e := servtab[i].(wait := 1);
          FitsIf(servtab, i, e);
          Watch(i, e);
          assert was[..i + 1][i].wait == pid;
        }
        i := i + 1;
      }
      assert was[..i] == was;
      ChildrenShrink(servtab, maxsock, children, pid);
      children := children - {pid};
    }

    // ---------- any run ----------

    /** What the operating system can make happen now. */
    predicate Possible(op: Op)
      reads this
    {
      match op
      case Entry(cp) => 0 <= cp.wait <= 1 && cp.count == 0
      case Start(i, o) => i < |servtab| && Idle(servtab[i]) && (o.Bound? ==> Unused(servtab, o.fd))
      case Alarm(outs) =>
        && alarm && |outs| == |servtab|
        && (forall i :: 0 <= i < |outs| && outs[i].Bound? ==> Unused(servtab, outs[i].fd))
        && (forall i, j :: 0 <= i < j < |outs| && outs[i].Bound? ==> outs[i] != outs[j])
      case Ready(i, _, _, pid) => i < |servtab| && servtab[i].fd in allsock && (pid == -1 || (pid > 1 && pid !in children))
      case Exited(pid) => pid in children
      case Shut(i) => i < |servtab|
    }

    /**
     Any sequence of operations, up to the first that closes an entry a child of
     which is waited for: throughout, `allsock` is exactly the open descriptors
     of entries that no child has, `nsock` is its size, and a retry is scheduled
     whenever one is due; and a service is stopped exactly when it is started too
     often within an interval.
     */
    method Run(ops: seq<Op>) returns (n: nat, waited: bool)
      requires Valid() && Just()
      modifies this
      ensures Just()
      ensures n <= |ops| && (Valid() <==> !waited) && (!waited ==> n == |ops|)
      ensures waited ==> n > 0 && ops[n - 1].Shut?
    {
      n, waited := 0, false;
      while n < |ops| && !waited
        invariant Just() && n <= |ops| && (Valid() <==> !waited) && (waited ==> n > 0 && ops[n - 1].Shut?)
      {
        if Possible(ops[n]) {
          match ops[n] {
            case Entry(cp) => Enter(cp);
            case Start(i, o) => Setup(i, o);
            case Alarm(outs) => Retry(outs);
            case Ready(i, accepted, now, pid) => Dispatch(i, accepted, now, pid);
            case Exited(pid) => Reap(pid);
            case Shut(i) =>
              waited := servtab[i].wait > 1;
              CloseSep(i);
          }
        }
        n := n + 1;
      }
    }
  }

  /** A service closed while its child runs: no socket is left, and `nsock` is -1. */
  method ClosedWhileWaiting() returns (s: Server)
    ensures |s.servtab| == 1 && s.allsock == {} && s.nsock == -1 && !s.Valid()
  {
    s := new Server(40);
    s.Enter(Sep(-1, 1, false, true, false, 0, 0, 0));
    s.Setup(0, Bound(3));
    s.Dispatch(0, true, 0, 7);
    s.CloseSep(0);
  }

  lemma EnterKeeps(tab: seq<Sep>, e: Sep, maxsock: int, children: set<int>)
    requires Distinct(tab) && AllFine(tab, maxsock, children) && e.fd == -1 && 0 <= e.wait <= 1
    ensures Distinct([e] + tab) && AllFine([e] + tab, maxsock, children) && Watched([e] + tab) == Watched(tab)
  {
    var t := [e] + tab;
    assert forall i :: 1 <= i < |t| ==> t[i] == tab[i - 1];
    forall j, k | 0 <= j < |t| && 0 <= k < |t| && j != k ensures Apart(t[j], t[k]) {
      if j > 0 && k > 0 { assert Apart(tab[j - 1], tab[k - 1]); }
    }
    forall x | x in Watched(tab) ensures x in Watched(t) {
      var j :| 0 <= j < |tab| && tab[j].fd >= 0 && tab[j].wait <= 1 && tab[j].fd == x;
      assert t[j + 1] == tab[j];
    }
  }

  lemma WatchedHere(tab: seq<Sep>, i: nat)
    requires i < |tab| && Distinct(tab) && tab[i].fd in Watched(tab)
    ensures tab[i].fd >= 0 && tab[i].wait <= 1
  {
    WatchedOnly(tab, i);
  }

  lemma OnlyOneWaits(tab: seq<Sep>, i: nat, pid: int)
    requires i < |tab| && Distinct(tab) && tab[i].wait == pid > 1
    ensures NoOneWaits(tab[..i], pid)
  {
    forall j | 0 <= j < i ensures tab[..i][j].wait != pid {
      assert Apart(tab[j], tab[i]);
    }
  }

  lemma StillUnused(was: seq<Sep>, tab: seq<Sep>, outs: seq<Outcome>, i: nat)
    requires |was| == |tab| == |outs| && i < |outs| && outs[i].Bound? && Unused(was, outs[i].fd)
    requires forall j, k :: 0 <= j < k < |outs| && outs[j].Bound? ==> outs[j] != outs[k]
    requires forall k :: i <= k < |outs| ==> tab[k] == was[k]
    requires forall k :: 0 <= k < i ==> tab[k] == Opened(was[k], outs[k])
    ensures Unused(tab, outs[i].fd)
  {}

  lemma ChildrenGrow(tab: seq<Sep>, maxsock: int, children: set<int>, pid: int)
    requires AllFine(tab, maxsock, children) && pid > 1 && pid !in children
    ensures AllFine(tab, maxsock, children + {pid}) && NoOneWaits(tab, pid)
  {}

  lemma ChildrenShrink(tab: seq<Sep>, maxsock: int, children: set<int>, pid: int)
    requires AllFine(tab, maxsock, children) && NoOneWaits(tab, pid)
    ensures AllFine(tab, maxsock, children - {pid})
  {}
}
