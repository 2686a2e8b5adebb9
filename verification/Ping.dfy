/**
 The duplicate table and counters of `ping/libping.c`.
 */
module Ping {

  const SLOTS: nat := 128          // PING_CKTABSIZE
  const SEQ := 0x10000             // sequence numbers are 16 bits

  // ---------- the bits of the table ----------

  function Mask(k: nat): bv8
    requires k < 8
  {
    if k == 0 then 1 else if k == 1 then 2 else if k == 2 then 4 else if k == 3 then 8
    else if k == 4 then 16 else if k == 5 then 32 else if k == 6 then 64 else 128
  }

  /** `_PING_TST`. */
  function Bit(tab: seq<bv8>, b: nat): bool
    requires b / 8 < |tab|
  {
    tab[b / 8] & Mask(b % 8) != 0
  }

  lemma MasksApart(j: nat, k: nat)
    requires j < 8 && k < 8 && j != k
    ensures Mask(j) & Mask(k) == 0
  {}

  lemma SetOther(c: bv8, m: bv8, n: bv8)
    requires m & n == 0
    ensures (c | m) & n == c & n && (c & !m) & n == c & n
  {}

  lemma SetThis(c: bv8, k: nat)
    requires k < 8
    ensures (c | Mask(k)) & Mask(k) != 0 && (c & !Mask(k)) & Mask(k) == 0
  {}

  lemma ByteWritten(c: bv8, j: nat, k: nat)
    requires j < 8 && k < 8
    ensures (c | Mask(j)) & Mask(k) != 0 <==> j == k || c & Mask(k) != 0
    ensures (c & !Mask(j)) & Mask(k) != 0 <==> j != k && c & Mask(k) != 0
  {
    if j == k {
      SetThis(c, k);
    } else {
      MasksApart(j, k);
      SetOther(c, Mask(j), Mask(k));
    }
  }

  function Write(tab: seq<bv8>, b: nat, on: bool): seq<bv8>
    requires b / 8 < |tab|
  {
    tab[b / 8 := if on then tab[b / 8] | Mask(b % 8) else tab[b / 8] & !Mask(b % 8)]
  }

  /** Writing one bit leaves the others alone. */
  lemma BitWritten(tab: seq<bv8>, b: nat, on: bool, a: nat)
    requires b / 8 < |tab| && a / 8 < |tab|
    ensures Bit(Write(tab, b, on), a) == if a == b then on else Bit(tab, a)
  {
    if a / 8 == b / 8 {
      assert a == b <==> a % 8 == b % 8;
      ByteWritten(tab[b / 8], b % 8, a % 8);
    } else {
      assert Write(tab, b, on)[a / 8] == tab[a / 8];
    }
  }

  // ---------- open slots ----------

  /** A slot a request was sent in and no reply counted since it was cleared. */
  predicate IsOpen(tab: seq<bv8>, used: seq<bool>, b: nat)
    requires b < |used| && b / 8 < |tab|
  {
    used[b] && !Bit(tab, b)
  }

  function Open(tab: seq<bv8>, used: seq<bool>, n: nat): nat
    requires n <= |used| && n <= 8 * |tab|
  {
    if n == 0 then 0 else Open(tab, used, n - 1) + if IsOpen(tab, used, n - 1) then 1 else 0
  }

  /** Changing one slot changes the count by that slot. */
  lemma {:induction false} OpenChange(tab: seq<bv8>, used: seq<bool>, tab': seq<bv8>, used': seq<bool>, b: nat, n: nat)
    requires n <= |used| == |used'| && n <= 8 * |tab| && |tab| == |tab'| && b < |used| && b < 8 * |tab|
    requires forall a :: 0 <= a < n && a != b ==> IsOpen(tab, used, a) == IsOpen(tab', used', a)
    ensures Open(tab', used', n) == Open(tab, used, n) +
      if b < n then (if IsOpen(tab', used', b) then 1 else 0) - (if IsOpen(tab, used, b) then 1 else 0) else 0
  {
    if n > 0 { OpenChange(tab, used, tab', used', b, n - 1); }
  }

  lemma {:induction false} OpenNone(tab: seq<bv8>, used: seq<bool>, n: nat)
    requires n <= |used| && n <= 8 * |tab| && forall b :: 0 <= b < n ==> !used[b]
    ensures Open(tab, used, n) == 0
  {
    if n > 0 { OpenNone(tab, used, n - 1); }
  }

  /** The sequence number on the wire leads to the slot of its request. */
  lemma SlotOfSequence(n: nat)
    ensures (n % SEQ) % SLOTS == n % SLOTS
  {
    var q := n / SEQ;
    assert n == (q * 512) * SLOTS + n % SEQ;
  }

  // ---------- the counters ----------

  /** What happens: a request is sent, or `sendto` fails, or a reply to request `n` arrives. */
  datatype Event = Sent | Failed | Reply(n: nat)

  function Count(es: seq<Event>, e: Event -> bool): nat
    decreases |es|
  {
    if es == [] then 0 else Count(es[..|es| - 1], e) + if e(es[|es| - 1]) then 1 else 0
  }

  function Sends(es: seq<Event>): nat { Count(es, (e: Event) => e.Sent?) }

  function Failures(es: seq<Event>): nat { Count(es, (e: Event) => e.Failed?) }

  function Replies(es: seq<Event>): nat { Count(es, (e: Event) => e.Reply?) }

  lemma CountMore(es: seq<Event>, x: Event, e: Event -> bool)
    ensures Count(es + [x], e) == Count(es, e) + if e(x) then 1 else 0
  {
    assert (es + [x])[..|es|] == es;
  }

  /** Replies answer requests sent before. */
  predicate Possible(es: seq<Event>)
    decreases |es|
  {
    es == [] || (Possible(es[..|es| - 1]) && (es[|es| - 1].Reply? ==> es[|es| - 1].n < Sends(es[..|es| - 1])))
  }

  // What can be said of a run from its events alone.

  /** A reply was counted in slot `b` since it was last cleared. */
  predicate Full(es: seq<Event>, b: nat)
    decreases |es|
  {
    es != [] &&
    var done, e := es[..|es| - 1], es[|es| - 1];
    if e.Reply? && e.n % SLOTS == b then true
    else if !e.Reply? && Sends(done) % SLOTS == b then false
    else Full(done, b)
  }

  /** A request whose slot had been used before takes it from one that was answered, or was not. */
  predicate Retakes(done: seq<Event>, full: bool) { Sends(done) >= SLOTS && Full(done, Sends(done) % SLOTS) == full }

  /** Failed requests that cleared the slot of an answered one. */
  function Wasted(es: seq<Event>): nat
    decreases |es|
  {
    if es == [] then 0
    else
      var done, e := es[..|es| - 1], es[|es| - 1];
      Wasted(done) + if e.Failed? && Retakes(done, true) then 1 else 0
  }

  /** Requests sent over one that was not answered. */
  function Lost(es: seq<Event>): nat
    decreases |es|
  {
    if es == [] then 0
    else
      var done, e := es[..|es| - 1], es[|es| - 1];
      Lost(done) + if e.Sent? && Retakes(done, false) then 1 else 0
  }

  /** Requests not answered yet, in the first `n` slots. */
  function Unanswered(es: seq<Event>, n: nat): nat {
    if n == 0 then 0 else Unanswered(es, n - 1) + if n - 1 < Sends(es) && !Full(es, n - 1) then 1 else 0
  }

  /** What one more event does to all of these. */
  lemma EventMore(done: seq<Event>, e: Event)
    ensures var es := done + [e];
      && Sends(es) == Sends(done) + (if e.Sent? then 1 else 0) && Replies(es) == Replies(done) + (if e.Reply? then 1 else 0)
      && Wasted(es) == Wasted(done) + (if e.Failed? && Retakes(done, true) then 1 else 0)
      && Lost(es) == Lost(done) + (if e.Sent? && Retakes(done, false) then 1 else 0)
      && forall b :: 0 <= b < SLOTS ==>
           Full(es, b) == if e.Reply? && e.n % SLOTS == b then true
                          else if !e.Reply? && Sends(done) % SLOTS == b then false else Full(done, b)
  {
    assert (done + [e])[..|done|] == done;
    CountMore(done, e, (e: Event) => e.Sent?);
    CountMore(done, e, (e: Event) => e.Reply?);
  }

  lemma {:induction false} UnansweredIsOpen(es: seq<Event>, tab: seq<bv8>, used: seq<bool>, n: nat)
    requires n <= |used| && n <= 8 * |tab|
    requires forall b :: 0 <= b < n ==> IsOpen(tab, used, b) == (b < Sends(es) && !Full(es, b))
    ensures Unanswered(es, n) == Open(tab, used, n)
  {
    if n > 0 { UnansweredIsOpen(es, tab, used, n - 1); }
  }

  class Ping {
    var xmit: nat                  // ping_num_xmit
    var recv: nat                  // ping_num_recv
    var rept: nat                  // ping_num_rept
    var cktab: seq<bv8>
    ghost var used: seq<bool>      // slots in which a request was sent
    ghost var lost: nat            // requests sent over one that was not answered
    ghost var wasted: nat          // failed requests that cleared the slot of an answered one

    /** Each request sent is answered, still open or lost; a wasted slot can take one reply more. */
    ghost predicate Valid()
      reads this
    {
      && |cktab| == SLOTS && |used| == SLOTS
      && xmit + wasted == recv + Open(cktab, used, SLOTS) + lost
      && (forall n :: 0 <= n < xmit ==> used[n % SLOTS])
    }

    /** A fresh table and counters. */
    constructor ()
      ensures Valid() && xmit == recv == rept == lost == wasted == 0 && forall b :: 0 <= b < SLOTS ==> !used[b]
    {
      xmit, recv, rept, lost, wasted := 0, 0, 0, 0, 0;
      cktab, used := seq(SLOTS, i => 0), seq(SLOTS, i => false);
      new;
      OpenNone(cktab, used, SLOTS);
    }

    /** `ping_reset`: the counters start again, the table stays as it is. */
    method Reset()
      requires Valid()
      modifies this`xmit, this`recv, this`rept, this`used, this`lost, this`wasted
      ensures Valid() && xmit == recv == rept == lost == wasted == 0 && forall b :: 0 <= b < SLOTS ==> !used[b]
    {
      xmit, recv, rept, lost, wasted := 0, 0, 0, 0, 0;
      used := seq(SLOTS, i => false);
      OpenNone(cktab, used, SLOTS);
    }

    /** `_PING_SET` and `_PING_CLR`. */
    method WriteBit(b: nat, on: bool)
      requires b < SLOTS && |cktab| == SLOTS
      modifies this`cktab
      ensures |cktab| == SLOTS && forall a :: 0 <= a < SLOTS ==> Bit(cktab, a) == if a == b then on else Bit(old(cktab), a)
    {
      ghost var was := cktab;
      cktab := Write(cktab, b, on);
      forall a | 0 <= a < SLOTS ensures Bit(cktab, a) == if a == b then on else Bit(was, a) {
        BitWritten(was, b, on, a);
      }
    }

    /** `ping_xmit`; `sent` says whether `sendto` worked. */
    method Xmit(sent: bool)
      requires Valid()
      modifies this`xmit, this`cktab, this`used, this`lost, this`wasted
      ensures Valid() && xmit == old(xmit) + if sent then 1 else 0
      ensures forall a :: 0 <= a < SLOTS ==> Bit(cktab, a) == if a == old(xmit) % SLOTS then false else Bit(old(cktab), a)
      ensures wasted == old(wasted) + if !sent && old(used)[old(xmit) % SLOTS]
          && Bit(old(cktab), old(xmit) % SLOTS) then 1 else 0
      ensures lost == old(lost) + if sent && old(used)[old(xmit) % SLOTS] && !Bit(old(cktab), old(xmit) % SLOTS) then 1 else 0
      ensures used == if sent then old(used)[old(xmit) % SLOTS := true] else old(used)
    {
      var b := xmit % SLOTS;
      ghost var tab, was := cktab, used;
      WriteBit(b, false);
      if sent {
        if used[b] && !Bit(tab, b) { lost := lost + 1; }
        used := used[b := true];
        xmit := xmit + 1;
      } else {
        if used[b] && Bit(tab, b) { wasted := wasted + 1; }
      }
      OpenChange(tab, was, cktab, used, b, SLOTS);
    }

    /** `ping_recv`, for a reply to request number `n`. */
    method Recv(ghost n: nat, sequence: nat) returns (dup: bool)
      requires Valid() && n < xmit && sequence == n % SEQ
      modifies this`recv, this`rept, this`cktab
      ensures Valid() && (dup <==> Bit(old(cktab), n % SLOTS))
      ensures forall a :: 0 <= a < SLOTS ==> Bit(cktab, a) == (a == n % SLOTS || Bit(old(cktab), a))
      ensures if dup then rept == old(rept) + 1 && recv == old(recv) else rept == old(rept) && recv == old(recv) + 1
    {
      SlotOfSequence(n);
      var b := sequence % SLOTS;
      recv := recv + 1;
      dup := Bit(cktab, b);
      if dup {
        rept := rept + 1;
        recv := recv - 1;
      } else {
        ghost var tab := cktab;
        WriteBit(b, true);
        OpenChange(tab, used, cktab, used, b, SLOTS);
      }
    }

    /** The counters and the table are what the events so far say. */
    ghost predicate Follows(es: seq<Event>)
      reads this
      requires Valid()
    {
      && xmit == Sends(es) && recv + rept == Replies(es) && wasted == Wasted(es) && lost == Lost(es)
      && forall b :: 0 <= b < SLOTS ==> (used[b] <==> b < Sends(es)) && (used[b] ==> Bit(cktab, b) == Full(es, b))
    }

    /** A request, sent or not. */
    method TakeRequest(ghost done: seq<Event>, sent: bool)
      requires Valid() && Follows(done)
      modifies this
      ensures Valid() && Follows(done + [if sent then Sent else Failed])
    {
      EventMore(done, if sent then Sent else Failed);
      assert xmit < SLOTS ==> xmit % SLOTS == xmit;
      Xmit(sent);
    }

    method TakeReply(ghost done: seq<Event>, n: nat)
      requires Valid() && Follows(done) && n < Sends(done)
      modifies this
      ensures Valid() && Follows(done + [Reply(n)])
    {
      EventMore(done, Reply(n));
      var _ := Recv(n, n % SEQ);
    }

    /** One event. */
    method Take(ghost done: seq<Event>, e: Event)
      requires Valid() && Follows(done) && (e.Reply? ==> e.n < Sends(done))
      modifies this
      ensures Valid() && Follows(done + [e])
    {
      match e {
        case Sent => TakeRequest(done, true);
        case Failed => TakeRequest(done, false);
        case Reply(n) => TakeReply(done, n);
      }
    }

    /**
     Any run from the start: every reply is counted once, as received or as a
     duplicate; and received exceeds sent exactly when more answered slots were
     cleared by failed requests than requests are unanswered or lost.
     */
    method Run(es: seq<Event>)
      requires Valid() && xmit == recv == rept == lost == wasted == 0 && Possible(es)
      requires forall b :: 0 <= b < SLOTS ==> !used[b]
      modifies this
      ensures Valid() && xmit == Sends(es) && recv + rept == Replies(es)
      ensures recv <= xmit <==> Wasted(es) <= Unanswered(es, SLOTS) + Lost(es)
      ensures recv <= xmit + Failures(es)
    {
      var i := 0;
      assert es[..0] == [];
      while i < |es|
        invariant i <= |es| && Valid() && Follows(es[..i])
      {
        PossibleBefore(es, i + 1);
        assert es[..i + 1] == es[..i] + [es[i]] && es[..i + 1][..i] == es[..i];
        Take(es[..i], es[i]);
        i := i + 1;
      }
      assert es[..i] == es;
      UnansweredIsOpen(es, cktab, used, SLOTS);
      WastedNeedsFailure(es);
    }
  }

  /** Without failures nothing is wasted, so received never exceeds sent. */
  lemma {:induction false} WastedNeedsFailure(es: seq<Event>)
    ensures Wasted(es) <= Failures(es)
    decreases |es|
  {
    if es != [] { WastedNeedsFailure(es[..|es| - 1]); }
  }

  /** A request is sent and answered. */
  method Round(p: Ping, i: nat)
    requires p.Valid() && i < SLOTS && p.xmit == p.recv == i && p.rept == p.wasted == 0
    modifies p
    ensures p.Valid() && p.xmit == p.recv == i + 1 && p.rept == p.wasted == 0
    ensures Bit(p.cktab, i) && forall b :: 0 <= b < i ==> Bit(p.cktab, b) == old(Bit(p.cktab, b))
  {
    assert i % SLOTS == i && i % SEQ == i;
    p.Xmit(true);
    var dup := p.Recv(i, i);
  }

  /** Every slot is used once, and answered. */
  method AnswerAll() returns (p: Ping)
    ensures fresh(p) && p.Valid() && p.xmit == p.recv == SLOTS && p.rept == p.wasted == 0
    ensures Bit(p.cktab, 0)
  {
    p := new Ping();
    var i := 0;
    while i < SLOTS
      invariant i <= SLOTS && fresh(p) && p.Valid() && p.xmit == p.recv == i && p.rept == p.wasted == 0
      invariant forall b :: 0 <= b < i ==> Bit(p.cktab, b)
    {
      Round(p, i);
      i := i + 1;
    }
  }

  /**
   A run in which more is received than sent: every slot is used and answered,
   then a request fails and clears the first slot, and a second reply to the
   first request is counted again.
   */
  method ReceivedExceedsSent() returns (p: Ping)
    ensures p.Valid() && p.xmit == SLOTS && p.recv == SLOTS + 1 && p.rept == 0 && p.wasted == 1
  {
    p := AnswerAll();
    assert p.used[0 % SLOTS];
    p.Xmit(false);
    var dup := p.Recv(0, 0);
  }

  lemma {:induction false} PossibleBefore(es: seq<Event>, i: nat)
    requires i <= |es| && Possible(es)
    ensures Possible(es[..i])
    decreases |es|
  {
    if i == |es| {
      assert es[..i] == es;
    } else {
      PossibleBefore(es[..|es| - 1], i);
      assert es[..|es| - 1][..i] == es[..i];
    }
  }
}
