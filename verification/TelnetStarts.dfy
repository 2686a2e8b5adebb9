/**
 The history of the outgoing half is that of the messages written: vectors and
 STARTs stand in it in the order in which they went out.
 */
module TelnetStarts {
  import opened Wrappers
  import opened Cipher
  import opened Telnet
  import opened TelnetSafety

  datatype Mark = Vector(m: Msg) | Begin

  function MsgMark(m: Msg): seq<Mark> {
    if m.Sub? && m.cmd == ENCRYPT_START then [Begin]
    else if m.Sub? && m.cmd == ENCRYPT_IS then [Vector(m)]
    else []
  }

  function EventMark(e: Event): seq<Mark> {
    match e
    case IvSent(m, iv, _) => [Vector(IsMsg(m, iv))]
    case Started(_, _) => [Begin]
    case _ => []
  }

  function SentMarks(ms: seq<Msg>): seq<Mark>
    decreases |ms|
  {
    if ms == [] then [] else SentMarks(ms[..|ms| - 1]) + MsgMark(ms[|ms| - 1])
  }

  function LogMarks(log: seq<Event>): seq<Mark>
    decreases |log|
  {
    if log == [] then [] else LogMarks(log[..|log| - 1]) + EventMark(log[|log| - 1])
  }

  predicate Paired(tx: Tx) { SentMarks(tx.sent) == LogMarks(tx.log) }

  lemma SentMore(ms: seq<Msg>, m: Msg)
    ensures SentMarks(ms + [m]) == SentMarks(ms) + MsgMark(m)
  {
    assert (ms + [m])[..|ms|] == ms;
  }

  lemma LogMore(log: seq<Event>, e: Event)
    ensures LogMarks(log + [e]) == LogMarks(log) + EventMark(e)
  {
    assert (log + [e])[..|log|] == log;
  }

  // ---------- every operation keeps them paired ----------

  /** Neither the messages nor the marks of the history change. */
  lemma PairedSame(a: Tx, b: Tx)
    requires Paired(a) && b.sent == a.sent
    requires b.log == a.log || (|b.log| > 0 && b.log == a.log + [b.log[|b.log| - 1]] && EventMark(b.log[|b.log| - 1]) == [])
    ensures Paired(b)
  {
    if b.log != a.log { LogMore(a.log, b.log[|b.log| - 1]); }
  }

  lemma WriteFields(des: Des, k: Pair<Block>, tx: Tx, m: Msg)
    ensures NetWrite(des, k, tx, m).sent == tx.sent + [m] && NetWrite(des, k, tx, m).log == tx.log
  {}

  lemma PairedWrite(des: Des, k: Pair<Block>, tx: Tx, m: Msg)
    requires Paired(tx) && MsgMark(m) == []
    ensures Paired(NetWrite(des, k, tx, m))
  {
    WriteFields(des, k, tx, m);
    SentMore(tx.sent, m);
  }

  lemma {:induction false} PairedWrites(des: Des, k: Pair<Block>, tx: Tx, ms: seq<Msg>)
    requires Paired(tx) && forall i :: 0 <= i < |ms| ==> MsgMark(ms[i]) == []
    ensures Paired(NetWriteAll(des, k, tx, ms))
    decreases |ms|
  {
    if ms != [] {
      PairedWrite(des, k, tx, ms[0]);
      PairedWrites(des, k, NetWrite(des, k, tx, ms[0]), ms[1..]);
    }
  }

  lemma PairedSendIv(des: Des, k: Pair<Block>, tx: Tx, t: Mode, iv: Block)
    requires Paired(tx)
    ensures Paired(SendIv(des, k, tx, t, iv))
  {
    var m, e := IsMsg(t, iv), IvSent(t, iv, k.Get(t));
    SendIvFields(des, k, tx, t, iv);
    SentMore(tx.sent, m);
    LogMore(tx.log, e);
    assert MsgMark(m) == EventMark(e);
  }

  lemma SendIvFields(des: Des, k: Pair<Block>, tx: Tx, t: Mode, iv: Block)
    ensures SendIv(des, k, tx, t, iv).sent == tx.sent + [IsMsg(t, iv)]
    ensures SendIv(des, k, tx, t, iv).log == tx.log + [IvSent(t, iv, k.Get(t))]
  {}

  lemma PairedStart(des: Des, k: Pair<Block>, tx: Tx, t: Mode, rand: Rand)
    requires Paired(tx)
    ensures Paired(FbStart(des, k, tx, t, rand).0)
  {
    if rand(t).Some? { PairedSendIv(des, k, tx, t, rand(t).value); }
  }

  lemma PairedStartOutput(des: Des, k: Pair<Block>, tx: Tx, t: Mode, rand: Rand)
    requires Paired(tx)
    ensures Paired(StartOutput(des, k, tx, t, rand))
  {
    if CanEncrypt(tx, t) {
      PairedStart(des, k, tx, t, rand);
      PairedSwitch(des, k, FbStart(des, k, tx, t, rand).0, t);
    }
  }

  lemma PairedSwitch(des: Des, k: Pair<Block>, tx: Tx, t: Mode)
    requires Paired(tx)
    ensures Paired(Switch(des, k, tx, t))
  {
    var m := Sub(ENCRYPT_START, tx.keyid);
    WriteFields(des, k, tx, m);
    SentMore(tx.sent, m);
    LogMore(tx.log, Started(t, tx.fb.Get(t).stream.iv));
  }

  lemma PairedEnd(des: Des, k: Pair<Block>, tx: Tx)
    requires Paired(tx)
    ensures Paired(SendEnd(des, k, tx))
  {
    PairedWrite(des, k, tx, Sub(ENCRYPT_END, []));
  }

  lemma PairedSupport(des: Des, k: Pair<Block>, tx: Tx, types: seq<Bits>, rand: Rand)
    requires Paired(tx)
    ensures Paired(OnSupport(des, k, tx, types, rand))
  {
    var us := Usable(tx, types);
    var tx0 := tx.(remote := set t | t in us);
    if us != [] {
      PairedStart(des, k, tx0, us[0], rand);
      PairedStartOutput(des, k, FbStart(des, k, tx0, us[0], rand).0.(mode := Some(us[0])), us[0], rand);
    }
  }

  lemma PairedEncKeyid(des: Des, k: Pair<Block>, tx: Tx, keyid: seq<Bits>)
    requires Paired(tx)
    ensures Paired(SendEncKeyid(des, k, tx, keyid))
  {
    PairedWrite(des, k, tx.(keyid := keyid), Sub(ENCRYPT_ENC_KEYID, keyid));
  }

  lemma PairedReply(des: Des, k: Pair<Block>, tx: Tx, arg: seq<Bits>, rand: Rand)
    requires Paired(tx)
    ensures Paired(OnReply(des, k, tx, arg, rand))
  {
    if arg != [] && TypeOf(arg[0]).Some? {
      var t := TypeOf(arg[0]).value;
      PairedFbReply(des, k, tx, t, arg[1..]);
      PairedStartOutput(des, k, FbReply(des, k, tx, t, arg[1..]).(mode := Some(t)), t, rand);
    }
  }

  lemma PairedFbReply(des: Des, k: Pair<Block>, tx: Tx, t: Mode, arg: seq<Bits>)
    requires Paired(tx)
    ensures Paired(FbReply(des, k, tx, t, arg))
  {
    LogMore(tx.log, IvOk(t));
    LogMore(tx.log, Failure(t));
    if |arg| >= 1 && arg[0] == FB64_IV_OK {
      PairedEncKeyid(des, k, AcceptIvOk(tx, t), [0]);
    }
  }

  lemma PairedKeyid(tx: Tx, t: Mode)
    requires Paired(tx)
    ensures Paired(FbKeyid(tx, t))
  {
    KeyidFields(tx, t);
    PairedSame(tx, FbKeyid(tx, t));
  }

  lemma KeyidFields(tx: Tx, t: Mode)
    ensures FbKeyid(tx, t).sent == tx.sent
    ensures FbKeyid(tx, t).log == if tx.keyid != [0] then tx.log else tx.log + [KeyidZero(t)]
  {}

  lemma PairedDecKeyid(des: Des, k: Pair<Block>, tx: Tx, keyid: seq<Bits>, rand: Rand)
    requires Paired(tx)
    ensures Paired(OnDecKeyid(des, k, tx, keyid, rand))
  {
    PairedEncKeyid(des, k, tx, []);
    if tx.mode.Some? {
      var t := tx.mode.value;
      var tx1 := FbKeyid(tx.(keyid := keyid), t);
      PairedKeyid(tx.(keyid := keyid), t);
      PairedEncKeyid(des, k, tx1, tx1.keyid);
      PairedKeyid(tx, t);
      PairedStartOutput(des, k, FbKeyid(tx, t), t, rand);
    }
  }

  lemma PairedTxMsg(des: Des, k: Pair<Block>, tx: Tx, m: Msg, rand: Rand)
    requires Paired(tx)
    ensures Paired(TxMsg(des, k, tx, m, rand))
  {
    if m.Sub? {
      if m.cmd == ENCRYPT_SUPPORT {
        PairedSupport(des, k, tx, m.arg, rand);
      } else if m.cmd == ENCRYPT_REPLY {
        PairedReply(des, k, tx, m.arg, rand);
      } else if m.cmd == ENCRYPT_REQSTART {
        if tx.mode.Some? { PairedStartOutput(des, k, tx, tx.mode.value, rand); }
      } else if m.cmd == ENCRYPT_REQEND {
        PairedEnd(des, k, tx);
      } else if m.cmd == ENCRYPT_DEC_KEYID {
        PairedDecKeyid(des, k, tx, m.arg, rand);
      }
    }
  }

  /** What the incoming half makes the endpoint write is neither a vector nor a START. */
  lemma RepliesUnmarked(rx: Rx, m: Msg)
    ensures forall i :: 0 <= i < |RxMsg(rx, m).1| ==> MsgMark(RxMsg(rx, m).1[i]) == []
  {}

  lemma PairedSession(des: Des, e: Endpoint, t: Mode, k: Block, rand: Rand)
    requires Paired(e.tx)
    ensures Paired(FbSession(des, e, t, k, rand).tx)
  {
    var f := e.tx.fb.Get(t);
    var tx := e.tx.(fb := e.tx.fb.Set(t, f.(needStart := false, stream := StreamKey(f.stream))));
    PairedStart(des, e.key.Set(t, k), tx, t, rand);
  }

  lemma PairedObey(des: Des, e: Endpoint, c: Command, rand: Rand)
    requires Paired(e.tx)
    ensures Paired(Obey(des, e, c, rand).tx)
  {
    match c
    case Type(b) => PairedWrite(des, e.key, e.tx, Data(b));
    case StartOut => if e.tx.mode.Some? { PairedStartOutput(des, e.key, e.tx, e.tx.mode.value, rand); }
    case StopOut => PairedEnd(des, e.key, e.tx);
    case StartIn => PairedWrite(des, e.key, e.tx, RequestStart(e.rx));
    case StopIn => PairedWrite(des, e.key, e.tx, REQUEST_END);
    case SetType(m) =>
    case AutoOut(on) =>
    case AutoIn(on) =>
    case Support =>
      var first := if !e.tx.server && e.rx.auto then [RequestStart(e.rx)] else [];
      PairedWrites(des, e.key, e.tx, first + [SupportMsg(e.rx.support)]);
  }

  lemma PairedFeed(des: Des, e: Endpoint, i: Input)
    requires Paired(e.tx)
    ensures Paired(Feed(des, e, i).tx)
  {
    match i
    case Arrives(w, rand) =>
      var r := RxByte(des, e.key, e.rx, w);
      if r.1.Some? {
        var (rx1, c) := Decrypt(des, e.key, e.rx, w);
        RepliesUnmarked(rx1.(parser := ParseByte(e.rx.parser, c).0), r.1.value);
      }
      PairedWrites(des, e.key, e.tx, r.2);
      if r.1.Some? {
        PairedTxMsg(des, e.key, NetWriteAll(des, e.key, e.tx, r.2), r.1.value, rand);
      }
    case Session(k, rand) =>
      PairedSession(des, e, CFB, k, rand);
      PairedSession(des, FbSession(des, e, CFB, k, rand), OFB, k, rand);
    case Order(c, rand) => PairedObey(des, e, c, rand);
  }

  /** In every run: vectors and STARTs in the history are those written, one for one and in order. */
  lemma {:induction false} FeedPaired(des: Des, e: Endpoint, ins: seq<Input>)
    requires Paired(e.tx)
    ensures Paired(FeedAll(des, e, ins).tx)
    decreases |ins|
  {
    if ins != [] {
      PairedFeed(des, e, ins[0]);
      FeedPaired(des, Feed(des, e, ins[0]), ins[1..]);
    }
  }

  // ---------- a START that was written ----------

  /** The event that made a mark. */
  lemma {:induction false} EventOfMark(log: seq<Event>, l: nat) returns (n: nat)
    requires l < |LogMarks(log)|
    ensures n < |log| && EventMark(log[n]) == [LogMarks(log)[l]] && LogMarks(log[..n]) == LogMarks(log)[..l]
    decreases |log|
  {
    var last := |log| - 1;
    if l < |LogMarks(log[..last])| {
      n := EventOfMark(log[..last], l);
      assert log[..last][..n] == log[..n] && log[..last][n] == log[n];
    } else {
      n := last;
    }
  }

  lemma {:induction false} MessageOfMark(ms: seq<Msg>, x: Mark) returns (p: nat)
    requires x in SentMarks(ms)
    ensures p < |ms| && MsgMark(ms[p]) == [x]
    decreases |ms|
  {
    var last := |ms| - 1;
    if x in SentMarks(ms[..last]) {
      p := MessageOfMark(ms[..last], x);
    } else {
      p := last;
    }
  }

  lemma {:induction false} MarksBefore(ms: seq<Msg>, p: nat)
    requires p <= |ms|
    ensures SentMarks(ms[..p]) <= SentMarks(ms)
    ensures p < |ms| ==> SentMarks(ms[..p]) + MsgMark(ms[p]) <= SentMarks(ms)
    decreases |ms|
  {
    if p == |ms| {
      assert ms[..p] == ms;
    } else {
      var last := |ms| - 1;
      if p < last {
        MarksBefore(ms[..last], p);
        assert ms[..last][..p] == ms[..p] && ms[..last][p] == ms[p];
      }
    }
  }

  lemma {:induction false} MarkOfEvent(log: seq<Event>, i: nat)
    requires i < |log| && EventMark(log[i]) != []
    ensures EventMark(log[i])[0] in LogMarks(log)
    decreases |log|
  {
    var last := |log| - 1;
    if i < last {
      MarkOfEvent(log[..last], i);
      assert log[..last][i] == log[i];
    }
  }

  /**
   Against any peer: a START that was written at `p` was preceded, among the
   messages written, by the vector the cipher then starts from, sent under a
   valid key; IV_OK arrived after that vector, and key id 0 was accepted, with
   no failure since.
   */
  lemma EmittedStartNeedsNegotiation(des: Des, server: bool, enc: set<Mode>, dec: set<Mode>, ins: seq<Input>, p: nat)
    returns (v: nat, n: nat, i: nat, j: nat, k: nat)
    requires var tx := FeedAll(des, Init(server, enc, dec), ins).tx;
             p < |tx.sent| && tx.sent[p].Sub? && tx.sent[p].cmd == ENCRYPT_START
    ensures var tx := FeedAll(des, Init(server, enc, dec), ins).tx;
            var log := tx.log;
            && n < |log| && log[n].Started? && SentMarks(tx.sent[..p]) == LogMarks(log[..n])
            && v < p && tx.sent[v] == IsMsg(log[n].m, log[n].iv)
            && i < j < n && k < n
            && log[i].IvSent? && log[i].m == log[n].m && log[i].iv == log[n].iv && ValidKey(log[i].key)
            && log[j] == IvOk(log[n].m) && log[k] == KeyidZero(log[n].m)
            && NoFailure(log[..n], log[n].m, i) && NoFailure(log[..n], log[n].m, k) && LastVector(log[..n], log[n].m, i)
  {
    var e := Init(server, enc, dec);
    FeedPaired(des, e, ins);
    var tx := FeedAll(des, e, ins).tx;
    MarksBefore(tx.sent, p);
    var l := |SentMarks(tx.sent[..p])|;
    n := EventOfMark(tx.log, l);
    i, j, k := StartNeedsNegotiation(des, server, enc, dec, ins, n);
    assert tx.log[..n][i] == tx.log[i];
    MarkOfEvent(tx.log[..n], i);
    v := MessageOfMark(tx.sent[..p], Vector(IsMsg(tx.log[n].m, tx.log[n].iv)));
  }
}
