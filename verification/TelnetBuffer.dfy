/**
 The output buffer of `telnetd/utility.c`.  Bytes are written to it as they
 are, and encrypted when the buffer is flushed or the cipher is changed.  The
 bytes that leave are those that encrypting at every write would give.
 */
module TelnetBuffer {
  import Octets
  import opened Wrappers
  import opened Cipher
  import opened Telnet
  import opened TelnetProcess

  const BUFSIZ: nat := 8192

  // ---------- encrypting at every write ----------

  /** Everything written so far, as it is to leave; the cipher installed; the registers of both types. */
  datatype Eager = Eager(out: seq<Bits>, output: Option<Mode>, streams: Pair<Stream>)

  /** Data through the cipher installed, if one is. */
  function Through(des: Des, keys: Pair<Block>, o: Option<Mode>, ss: Pair<Stream>, data: seq<Bits>): (Pair<Stream>, seq<Bits>) {
    match o
    case None => (ss, data)
    case Some(t) => var (s, w) := Enc(des, t, keys.Get(t), ss.Get(t), data); (ss.Set(t, s), w)
  }

  function Put(des: Des, keys: Pair<Block>, e: Eager, data: seq<Bits>): Eager {
    var (ss, w) := Through(des, keys, e.output, e.streams, data);
    e.(out := e.out + w, streams := ss)
  }

  /** This is how messages are written by the functions of module Telnet. */
  lemma PutIsNetWrite(des: Des, key: Pair<Block>, tx: Tx, m: Msg)
    ensures var e := Put(des, key, EagerOf(tx), Encode(m));
      EagerOf(NetWrite(des, key, tx, m)) == e
  {
    match tx.output
    case None =>
    case Some(CFB) =>
    case Some(OFB) =>
  }

  function EagerOf(tx: Tx): Eager { Eager(tx.out, tx.output, Pair(tx.fb.cfb.stream, tx.fb.ofb.stream)) }

  lemma ThroughNothing(des: Des, keys: Pair<Block>, o: Option<Mode>, ss: Pair<Stream>)
    ensures Through(des, keys, o, ss, []) == (ss, [])
  {}

  /** More data after some. */
  lemma ThroughMore(des: Des, keys: Pair<Block>, o: Option<Mode>, ss: Pair<Stream>, a: seq<Bits>, b: seq<Bits>)
    ensures var (s1, w1) := Through(des, keys, o, ss, a);
      var (s2, w2) := Through(des, keys, o, s1, b);
      Through(des, keys, o, ss, a + b).0 == s2 && Through(des, keys, o, ss, a + b).1 == w1 + w2
  {
    if o.Some? {
      EncSplit(des, o.value, keys.Get(o.value), ss.Get(o.value), a, b);
    }
  }

  // ---------- encrypting late ----------

  /** With `done` gone or encrypted and `plain` still to be encrypted, everything will leave as `e` says. */
  ghost predicate Owes(des: Des, keys: Pair<Block>, ss: Pair<Stream>, done: seq<Bits>, plain: seq<Bits>, e: Eager) {
    var (s, w) := Through(des, keys, e.output, ss, plain);
    s == e.streams && done + w == e.out
  }

  lemma OwesMore(des: Des, keys: Pair<Block>, ss: Pair<Stream>, done: seq<Bits>, plain: seq<Bits>, e: Eager, data: seq<Bits>)
    requires Owes(des, keys, ss, done, plain, e)
    ensures Owes(des, keys, ss, done, plain + data, Put(des, keys, e, data))
  {
    ThroughMore(des, keys, e.output, ss, plain, data);
    var w := Through(des, keys, e.output, ss, plain).1;
    var more := Through(des, keys, e.output, e.streams, data).1;
    assert done + (w + more) == (done + w) + more;
  }

  /** What was plain is encrypted. */
  lemma OwesSealed(des: Des, keys: Pair<Block>, ss: Pair<Stream>, done: seq<Bits>, plain: seq<Bits>, e: Eager)
    requires Owes(des, keys, ss, done, plain, e)
    ensures var (s, w) := Through(des, keys, e.output, ss, plain); Owes(des, keys, s, done + w, [], e)
  {
    var (s, w) := Through(des, keys, e.output, ss, plain);
    ThroughNothing(des, keys, e.output, s);
    assert (done + w) + [] == done + w;
  }

  /** With nothing plain the cipher may be changed. */
  lemma OwesSwitched(des: Des, keys: Pair<Block>, ss: Pair<Stream>, done: seq<Bits>, e: Eager, o: Option<Mode>)
    requires Owes(des, keys, ss, done, [], e)
    ensures Owes(des, keys, ss, done, [], e.(output := o))
  {
    ThroughNothing(des, keys, e.output, ss);
    ThroughNothing(des, keys, o, ss);
  }

  /** The registers and key of a type that is not in use may be changed at any time. */
  lemma OwesLoaded(des: Des, keys: Pair<Block>, ss: Pair<Stream>, done: seq<Bits>, plain: seq<Bits>, e: Eager,
                   t: Mode, k: Block, s: Stream)
    requires Owes(des, keys, ss, done, plain, e) && e.output != Some(t)
    ensures Owes(des, keys.Set(t, k), ss.Set(t, s), done, plain, e.(streams := e.streams.Set(t, s)))
  {
    match (e.output, t)
    case (None, _) =>
    case (Some(CFB), OFB) =>
    case (Some(OFB), CFB) =>
  }

  class NetBuffer {
    const des: Des
    const netobuf: array<Bits>
    var back: nat                      // nbackp - netobuf
    var clear: nat                     // nclearto - netobuf, or 0
    var front: nat                     // nfrontp - netobuf
    var output: Option<Mode>           // encrypt_output
    const cfb: StInfo
    const ofb: StInfo
    var gone: seq<Bits>                // written to the network
    ghost var eager: Eager

    function Get(t: Mode): StInfo { if t.CFB? then cfb else ofb }

    function Keys(): Pair<Block> reads cfb, ofb { Pair(cfb.key, ofb.key) }

    function Repr(): set<object> { {this, netobuf} + cfb.Repr() + ofb.Repr() }

    /** Nothing is shared. */
    ghost predicate Apart() {
      && cfb.Valid() && ofb.Valid() && cfb.Repr() !! ofb.Repr() && this !in cfb.Repr() + ofb.Repr()
      && netobuf !in cfb.Repr() + ofb.Repr() && netobuf.Length >= BUFSIZ
    }

    ghost function Streams(): Pair<Stream>
      reads cfb.Repr(), ofb.Repr()
      requires Apart()
    {
      Pair(cfb.View(), ofb.View())
    }

    /** Where the bytes begin that are still to be encrypted. */
    function Sealed(): nat reads this { if clear > back then clear else back }

    ghost predicate Valid()
      reads Repr()
    {
      && Apart() && back <= front <= BUFSIZ && clear <= front && eager.output == output
      && Owes(des, Keys(), Streams(), gone + netobuf[back..Sealed()], netobuf[Sealed()..front], eager)
    }

    /** `io_setup`, with the ciphers as `fb64_init` leaves them. */
    constructor (des: Des)
      ensures Valid() && fresh(Repr()) && this.des == des && gone == []
      ensures eager == Eager([], None, Pair(CLEARED, CLEARED)) && Keys() == Pair(ZERO, ZERO)
    {
      this.des := des;
      netobuf := new Bits[BUFSIZ];
      back, clear, front, output, gone := 0, 0, 0, None, [];
      cfb := new StInfo();
      ofb := new StInfo();
      eager := Eager([], None, Pair(CLEARED, CLEARED));
    }

    /** `encrypt_output` on the bytes from `s` on. */
    method EncryptFrom(t: Mode, s: nat)
      requires Apart() && back <= s <= front <= BUFSIZ && output == Some(t)
      modifies netobuf, cfb.Repr(), ofb.Repr()
      ensures Keys() == old(Keys())
      ensures var (ss, w) := Through(des, Keys(), output, old(Streams()), old(netobuf[s..front]));
        Streams() == ss && netobuf[back..front] == old(netobuf[back..s]) + w
    {
      ghost var was, data := netobuf[..], netobuf[s..front];
      ghost var w := Through(des, Keys(), output, Streams(), data).1;
      Get(t).Encrypt(des, t, netobuf, s, front);
      Middle(was[..s], w, was[front..], back);
      assert netobuf[back..front] == netobuf[..][back..front] && was[..s][back..] == was[back..s];
    }

    /** `net_encrypt`. */
    method Seal()
      requires Valid()
      modifies this`clear, netobuf, cfb.Repr(), ofb.Repr()
      ensures Valid() && Keys() == old(Keys()) && clear == front
    {
      var s := Sealed();
      ghost var done, plain := gone + netobuf[back..s], netobuf[s..front];
      OwesSealed(des, Keys(), Streams(), done, plain, eager);
      ghost var w := Through(des, Keys(), output, Streams(), plain).1;
      assert netobuf[back..front] == netobuf[back..s] + plain;
      assert gone + (netobuf[back..s] + w) == done + w;
      if s < front && output.Some? {
        EncryptFrom(output.value, s);
      }
      clear := front;
      assert netobuf[front..front] == [];
    }

    /** `net_write` where there is room. */
    method Append(data: seq<Bits>)
      requires Valid() && front + |data| <= BUFSIZ
      modifies this`front, this`eager, netobuf
      ensures Valid() && front == old(front) + |data| && eager == Put(des, Keys(), old(eager), data)
    {
      ghost var s := Sealed();
      ghost var done, plain := gone + netobuf[back..s], netobuf[s..front];
      OwesMore(des, Keys(), Streams(), done, plain, eager, data);
      CopyTo(data);
      eager := Put(des, Keys(), eager, data);
    }

    /** `memmove`. */
    method CopyTo(data: seq<Bits>)
      requires front + |data| <= netobuf.Length && back <= front && clear <= front
      modifies this`front, netobuf
      ensures front == old(front) + |data|
      ensures netobuf[back..Sealed()] == old(netobuf[back..Sealed()])
          && netobuf[Sealed()..front] == old(netobuf[Sealed()..front]) + data
    {
      ghost var s := Sealed();
      forall i | 0 <= i < |data| { netobuf[front + i] := data[i]; }
      front := front + |data|;
      assert netobuf[s..front] == old(netobuf[s..front]) + data;
    }

    /** `netflush`, of which the system takes `n` bytes. */
    method Flush(n: nat)
      requires Valid() && n <= front - back
      modifies this`back, this`clear, this`front, this`gone, netobuf, cfb.Repr(), ofb.Repr()
      ensures Valid() && Keys() == old(Keys()) && front - back == old(front) - old(back) - n && |gone| == |old(gone)| + n
      ensures front == if n == old(front) - old(back) then 0 else old(front)
    {
      if front - back > 0 {
        Seal();
        Take(n);
      }
      Tidy();
    }

    /** The pointers after a flush. */
    method Tidy()
      requires Valid()
      modifies this`back, this`clear, this`front
      ensures Valid() && front - back == old(front) - old(back)
      ensures front == if old(back) == old(front) then 0 else old(front)
    {
      if back > clear {
        clear := 0;
      }
      if back == front {
        assert netobuf[back..Sealed()] == [] && netobuf[Sealed()..front] == [];
        back, front, clear := 0, 0, 0;
        assert netobuf[back..Sealed()] == [] && netobuf[Sealed()..front] == [];
      }
    }

    method Take(n: nat)
      requires Valid() && clear == front && n <= front - back
      modifies this`back, this`gone
      ensures Valid() && back == old(back) + n && |gone| == |old(gone)| + n
    {
      ghost var all := gone + netobuf[back..front];
      gone := gone + netobuf[back..back + n];
      back := back + n;
      assert gone + netobuf[back..front] == all;
      assert netobuf[front..front] == [];
    }

    /** `net_output_datalen`: what does not fit, even after a flush, is dropped. */
    method Write(data: seq<Bits>, n: nat) returns (ok: bool)
      requires Valid() && n <= front - back
      modifies this, netobuf, cfb.Repr(), ofb.Repr()
      ensures Valid() && Keys() == old(Keys()) && output == old(output)
      ensures eager == if ok then Put(des, Keys(), old(eager), data) else old(eager)
      ensures ok <==> |data| <= BUFSIZ - old(front) || (n == old(front) - old(back) && |data| <= BUFSIZ)
    {
      if BUFSIZ - front < |data| {
        Flush(n);
      }
      ok := |data| <= BUFSIZ - front;
      if ok {
        Append(data);
      }
    }

    /** `net_encrypt`, and then another cipher or none: `encrypt_start_output` and `encrypt_send_end` after their message. */
    method Switch(o: Option<Mode>)
      requires Valid()
      modifies this`output, this`clear, this`eager, netobuf, cfb.Repr(), ofb.Repr()
      ensures Valid() && Keys() == old(Keys()) && eager == old(eager).(output := o)
    {
      Seal();
      assert netobuf[front..front] == [];
      OwesSwitched(des, Keys(), Streams(), gone + netobuf[back..front], eager, o);
      output, eager := o, eager.(output := o);
    }

    /** A vector is loaded for a type that is not in use. */
    method Load(t: Mode, seed: Block)
      requires Valid() && output != Some(t)
      modifies this`eager, Get(t).Repr()
      ensures Valid() && Keys() == old(Keys())
      ensures eager == old(eager).(streams := old(eager).streams.Set(t, StreamIv(seed, old(eager).streams.Get(t))))
    {
      ghost var k, s := Keys().Get(t), StreamIv(seed, Streams().Get(t));
      ghost var done, plain := gone + netobuf[back..Sealed()], netobuf[Sealed()..front];
      Unused(des, Keys(), Streams(), done, plain, eager, t);
      OwesLoaded(des, Keys(), Streams(), done, plain, eager, t, k, s);
      Get(t).SetIv(seed);
      eager := eager.(streams := eager.streams.Set(t, s));
    }

    /** A key is set for a type that is not in use. */
    method SetKey(t: Mode, k: Block)
      requires Valid() && output != Some(t)
      modifies this`eager, Get(t).Repr()
      ensures Valid() && Keys() == old(Keys()).Set(t, k)
      ensures eager == old(eager).(streams := old(eager).streams.Set(t, StreamKey(old(eager).streams.Get(t))))
    {
      ghost var s := StreamKey(Streams().Get(t));
      ghost var done, plain := gone + netobuf[back..Sealed()], netobuf[Sealed()..front];
      Unused(des, Keys(), Streams(), done, plain, eager, t);
      OwesLoaded(des, Keys(), Streams(), done, plain, eager, t, k, s);
      Get(t).SetKey(k);
      eager := eager.(streams := eager.streams.Set(t, s));
    }

    /** The system takes everything: what has left is what encrypting at every write gives. */
    method Finish()
      requires Valid()
      modifies this`back, this`clear, this`front, this`gone, netobuf, cfb.Repr(), ofb.Repr()
      ensures Valid() && Keys() == old(Keys()) && gone == eager.out
    {
      Flush(front - back);
      ghost var done := gone + netobuf[back..Sealed()];
      assert netobuf[back..Sealed()] == [] && netobuf[Sealed()..front] == [];
      assert done == gone;
      ThroughNothing(des, Keys(), output, Streams());
    }

    /** One operation, if it is possible now. */
    method Do(op: Op) returns (ok: bool)
      requires Valid()
      modifies Repr()
      ensures Valid()
      ensures (eager, Keys()) == if ok then Done(des, old((eager, Keys())), op) else old((eager, Keys()))
      ensures !ok ==> MayFail(old(eager).output, op)
    {
      ok := true;
      match op {
        case Written(data, n) => ok := Write(data, Octets.Min(n, front - back));
        case Flushed(n) => Flush(Octets.Min(n, front - back));
        case Switched(o) => Switch(o);
        case Loaded(t, seed) =>
          ok := output != Some(t);
          if ok { Load(t, seed); }
        case Keyed(t, k) =>
          ok := output != Some(t);
          if ok { SetKey(t, k); }
      }
    }

    /**
     Any operations, and flushes that take any number of bytes at any time; `done`
     says which were possible.
     */
    method Run(ops: seq<Op>) returns (done: seq<bool>)
      requires Valid()
      modifies Repr()
      ensures Valid() && |done| == |ops| && (eager, Keys()) == DoneAll(des, old((eager, Keys())), ops, done)
      ensures forall i :: 0 <= i < |ops| && !done[i] ==>
        MayFail(DoneAll(des, old((eager, Keys())), ops[..i], done[..i]).0.output, ops[i])
    {
      ghost var start := (eager, Keys());
      done := [];
      while |done| < |ops|
        invariant |done| <= |ops| && Valid() && (eager, Keys()) == DoneAll(des, start, ops[..|done|], done)
        invariant forall i :: 0 <= i < |done| && !done[i] ==>
          MayFail(DoneAll(des, start, ops[..i], done[..i]).0.output, ops[i])
      {
        var i := |done|;
        var ok := Do(ops[i]);
        DoneMore(des, start, ops, done, ok);
        assert forall k :: 0 <= k <= i ==> (done + [ok])[..k] == done[..k];
        done := done + [ok];
      }
      assert ops[..|done|] == ops;
    }
  }

  datatype Op =
    | Written(data: seq<Bits>, n: nat)     // `n`: what the system takes if there has to be a flush
    | Flushed(n: nat)
    | Switched(o: Option<Mode>)
    | Loaded(t: Mode, seed: Block)
    | Keyed(t: Mode, k: Block)

  /** What an operation does where every write is encrypted at once. */
  function Done(des: Des, e: (Eager, Pair<Block>), op: Op): (Eager, Pair<Block>) {
    match op
    case Written(data, _) => (Put(des, e.1, e.0, data), e.1)
    case Flushed(_) => e
    case Switched(o) => (e.0.(output := o), e.1)
    case Loaded(t, seed) => (e.0.(streams := e.0.streams.Set(t, StreamIv(seed, e.0.streams.Get(t)))), e.1)
    case Keyed(t, k) => (e.0.(streams := e.0.streams.Set(t, StreamKey(e.0.streams.Get(t)))), e.1.Set(t, k))
  }

  /** The operations that were possible. */
  function DoneAll(des: Des, e: (Eager, Pair<Block>), ops: seq<Op>, done: seq<bool>): (Eager, Pair<Block>)
    requires |done| == |ops|
    decreases |ops|
  {
    if ops == [] then e
    else
      var i := |ops| - 1;
      var before := DoneAll(des, e, ops[..i], done[..i]);
      if done[i] then Done(des, before, ops[i]) else before
  }

  lemma DoneMore(des: Des, e: (Eager, Pair<Block>), ops: seq<Op>, done: seq<bool>, ok: bool)
    requires |done| < |ops|
    ensures var i := |done|;
      var before := DoneAll(des, e, ops[..i], done);
      DoneAll(des, e, ops[..i + 1], done + [ok]) == if ok then Done(des, before, ops[i]) else before
  {
    var i := |done|;
    assert ops[..i + 1][..i] == ops[..i] && (done + [ok])[..i] == done;
  }

  /**
   Only a write can fail, to a system that does not take all it is offered or
   of more than the buffer holds, and what would change the cipher in use.
   */
  predicate MayFail(output: Option<Mode>, op: Op) {
    match op
    case Written(data, n) => |data| > BUFSIZ || n < BUFSIZ
    case Loaded(t, _) => output == Some(t)
    case Keyed(t, _) => output == Some(t)
    case Flushed(_) => false
    case Switched(_) => false
  }

  /** The registers of a type that is not in use are as they would be. */
  lemma Unused(des: Des, keys: Pair<Block>, ss: Pair<Stream>, done: seq<Bits>, plain: seq<Bits>, e: Eager, t: Mode)
    requires Owes(des, keys, ss, done, plain, e) && e.output != Some(t)
    ensures e.streams.Get(t) == ss.Get(t) && keys.Set(t, keys.Get(t)) == keys
  {}

  lemma Middle(pre: seq<Bits>, w: seq<Bits>, post: seq<Bits>, back: nat)
    requires back <= |pre|
    ensures (pre + (w + post))[back..|pre| + |w|] == pre[back..] + w
  {}
}
