/**
 The outgoing half of `libtelnet/encrypt.c`, with the `fb64_*` handlers it
 calls, as procedures that change the variables of a running program.
 */
module TelnetSender {
  import opened Wrappers
  import opened Cipher
  import opened Telnet
  import opened TelnetProcess

  lemma UsableFrom(tx: Tx, types: seq<Bits>, i: nat)
    requires i < |types|
    ensures var rest, o := Usable(tx, types[i + 1..]), TypeOf(types[i]);
      Usable(tx, types[i..]) == if o.Some? && o.value in tx.support then [o.value] + rest else rest
  {
    assert types[i..][0] == types[i] && types[i..][1..] == types[i + 1..];
  }

  /** One more type of the list. */
  lemma UsableNext(got: seq<Mode>, t: Mode, rest: seq<Mode>)
    ensures got + ([t] + rest) == (got + [t]) + rest
    ensures (set m | m in got + [t]) == (set m | m in got) + {t}
  {}

  /**
   The static variables that steer encryption, and the encrypting side of the
   `fb[]` records.  The ghost field is what they mean.
   */
  class Sender {
    const des: Des
    const server: bool                     // Server
    const cfb: StInfo                      // fb[CFB].streams[DIR_ENCRYPT - 1]
    const ofb: StInfo                      // fb[OFB].streams[DIR_ENCRYPT - 1]
    var keys: Pair<Block>                  // fb[].krbdes_key
    var temp: Pair<Block>                  // fb[].temp_feed
    var needStart: Pair<bool>              // fb[].need_start
    var state: Pair<Neg>                   // fb[].state[DIR_ENCRYPT - 1]

    var support: set<Mode>                 // I_SUPPORT_ENCRYPT
    var remote: set<Mode>                  // remote_supports_decrypt
    var mode: Option<Mode>                 // encrypt_mode
    var output: Option<Mode>               // encrypt_output
    var auto: bool                         // autoencrypt
    var keyid: seq<Bits>                   // ki[0]
    var supportSent: bool                  // str_suplen == 0
    var out: seq<Bits>                     // bytes written and not yet read by the peer

    ghost var tx: Tx

    function Repr(): set<object> { {this} + cfb.Repr() + ofb.Repr() }

    function Get(t: Mode): StInfo { if t.CFB? then cfb else ofb }

    /** The streams never move, so this is true of an object for good. */
    ghost predicate Apart() { cfb.Valid() && ofb.Valid() && cfb.Repr() !! ofb.Repr() && this !in cfb.Repr() + ofb.Repr() }

    /** `tx` is what the variables mean, with the histories they do not record. */
    ghost predicate Valid()
      reads Repr()
    {
      && Apart()
      && keys == Pair(cfb.key, ofb.key)
      && tx == Tx(server, support, remote, mode, output, auto, keyid, supportSent,
                  Pair(TxFb(temp.cfb, needStart.cfb, state.cfb, cfb.View()),
                       TxFb(temp.ofb, needStart.ofb, state.ofb, ofb.View())),
                  out, tx.sent, tx.log, tx.lastIv, tx.crossed)
    }

    /** `encrypt_init` and `fb64_init`. */
    constructor (des: Des, server: bool, types: set<Mode>)
      ensures Valid() && fresh(Repr())
      ensures this.des == des && tx == InitTx(server, types) && keys == Pair(ZERO, ZERO)
    {
      this.des, this.server := des, server;
      cfb := new StInfo();
      ofb := new StInfo();
      keys, temp := Pair(ZERO, ZERO), Pair(ZERO, ZERO);
      needStart, state := Pair(false, false), Pair(Failed, Failed);
      support, remote, mode, output := types, {}, None, None;
      auto, keyid, supportSent, out := false, [], false, [];
      tx := InitTx(server, types);
    }

    method SetMode(t: Mode)
      requires Valid()
      modifies this`tx, this`mode
      ensures Valid() && tx == old(tx).(mode := Some(t))
    {
      mode, tx := Some(t), tx.(mode := Some(t));
    }

    method SetAuto(on: bool)
      requires Valid()
      modifies this`tx, this`auto
      ensures Valid() && tx == old(tx).(auto := on)
    {
      auto, tx := on, tx.(auto := on);
    }

    method SetKeyid(id: seq<Bits>)
      requires Valid()
      modifies this`tx, this`keyid
      ensures Valid() && tx == old(tx).(keyid := id)
    {
      keyid, tx := id, tx.(keyid := id);
    }

    method SetOutput(o: Option<Mode>)
      requires Valid()
      modifies this`tx, this`output
      ensures Valid() && tx == old(tx).(output := o)
    {
      output, tx := o, tx.(output := o);
    }

    /** The fields of an `fb[]` record that the negotiation changes. */
    method PutState(t: Mode, feed: Block, start: bool, s: Neg)
      requires Valid()
      modifies this`tx, this`temp, this`needStart, this`state
      ensures Valid()
      ensures tx == old(tx).(fb := old(tx).fb.Set(t, old(tx).fb.Get(t).(temp := feed, needStart := start, state := s)))
    {
      temp, needStart, state := temp.Set(t, feed), needStart.Set(t, start), state.Set(t, s);
      tx := tx.(fb := tx.fb.Set(t, tx.fb.Get(t).(temp := feed, needStart := start, state := s)));
    }

    /** `fb64_stream_iv` on the stream of `t`. */
    method LoadStream(t: Mode, seed: Block)
      requires Valid()
      modifies this`tx, Get(t).Repr()
      ensures Valid()
      ensures var f := old(tx).fb.Get(t); tx == old(tx).(fb := old(tx).fb.Set(t, f.(stream := StreamIv(seed, f.stream))))
    {
      Get(t).SetIv(seed);
      tx := tx.(fb := tx.fb.Set(t, tx.fb.Get(t).(stream := Get(t).View())));
    }

    // What the variables do not record.

    ghost method Note(e: Event)
      requires Valid()
      modifies this`tx
      ensures Valid() && tx == old(tx).(log := old(tx).log + [e])
    {
      tx := tx.(log := tx.log + [e]);
    }

    ghost method NoteVector(t: Mode, iv: Block)
      requires Valid()
      modifies this`tx
      ensures Valid() && tx == old(tx).(log := old(tx).log + [IvSent(t, iv, keys.Get(t))], lastIv := Some(t))
    {
      tx := tx.(log := tx.log + [IvSent(t, iv, keys.Get(t))], lastIv := Some(t));
    }

    /** `encrypt_output` on a buffer. */
    method Through(t: Mode, buf: array<Bits>)
      requires Valid() && buf !in Repr()
      modifies this`tx, Get(t).Repr(), buf
      ensures Valid()
      ensures
        var f := old(tx).fb.Get(t);
        var (s, wire) := Enc(des, t, keys.Get(t), f.stream, old(buf[..]));
        tx == old(tx).(fb := old(tx).fb.Set(t, f.(stream := s))) && buf[..] == wire
    {
      Get(t).EncryptAll(des, t, buf);
      tx := tx.(fb := tx.fb.Set(t, tx.fb.Get(t).(stream := Get(t).View())));
    }

    /** `net_write`: the bytes go through `encrypt_output`, if one is installed. */
    method NetWrite(bytes: seq<Bits>, m: Msg)
      requires Valid() && bytes == Encode(m)
      modifies this`tx, this`out, cfb.Repr(), ofb.Repr()
      ensures Valid() && tx == Telnet.NetWrite(des, keys, old(tx), m)
    {
      var buf := new Bits[|bytes|](i requires 0 <= i < |bytes| => bytes[i]);
      assert buf[..] == bytes;
      if output.Some? {
        Through(output.value, buf);
      }
      Append(buf[..], m);
    }

    method Append(wire: seq<Bits>, m: Msg)
      requires Valid()
      modifies this`tx, this`out
      ensures Valid() && tx == old(tx).(out := old(tx).out + wire, sent := old(tx).sent + [m])
    {
      out := out + wire;
      tx := tx.(out := out, sent := tx.sent + [m]);
    }

    /** A suboption is built and written. */
    method Send(cmd: Bits, arg: seq<Bits>)
      requires Valid() && cmd != IAC
      modifies this`tx, this`out, cfb.Repr(), ofb.Repr()
      ensures Valid() && tx == Telnet.NetWrite(des, keys, old(tx), Sub(cmd, arg))
    {
      var p := SubBytes(cmd, arg);
      NetWrite(p, Sub(cmd, arg));
    }

    /** The new vector is stored, and sent in an IS message. */
    method SendVector(t: Mode, iv: Block, s: Neg)
      requires Valid() && s == Begun(state.Get(t))
      modifies Repr()
      ensures Valid() && keys == old(keys) && tx == SendIv(des, keys, old(tx), t, iv)
    {
      PutState(t, iv, needStart.Get(t), s.(noSendIv := false, noRecvIv := true));
      NoteVector(t, iv);
      Send(ENCRYPT_IS, [TypeByte(t), FB64_IV] + iv);
    }

    /** `fb64_start` for DIR_ENCRYPT. */
    method StartCipher(t: Mode, rand: Rand) returns (ret: Neg)
      requires Valid()
      modifies Repr()
      ensures Valid() && keys == old(keys)
      ensures tx == FbStart(des, keys, old(tx), t, rand).0 && ret == FbStart(des, keys, old(tx), t, rand).1
    {
      var s := state.Get(t);
      if s.Failed? {
        s := IN_PROGRESS;
      } else if !s.noSendIv {
        return s;
      }
      ret := Begin(t, s, rand);
    }

    /** The rest of it: without a key the cipher waits to be started. */
    method Begin(t: Mode, s: Neg, rand: Rand) returns (ret: Neg)
      requires Valid() && s == Begun(state.Get(t)) && (state.Get(t).Progress? ==> state.Get(t).noSendIv)
      modifies Repr()
      ensures Valid() && keys == old(keys)
      ensures tx == FbStart(des, keys, old(tx), t, rand).0 && ret == FbStart(des, keys, old(tx), t, rand).1
    {
      if !ValidKey(keys.Get(t)) {
        PutState(t, temp.Get(t), true, s);
        return s;
      }
      var feed := rand(t);
      if feed.None? {
        return Failed;
      }
      SendVector(t, feed.value, s);
      return state.Get(t);
    }

    /** The START message, and the switch of `encrypt_output`. */
    method SwitchOutput(t: Mode)
      requires Valid()
      modifies Repr()
      ensures Valid() && keys == old(keys) && tx == Switch(des, keys, old(tx), t)
    {
      ghost var was := tx;
      Send(ENCRYPT_START, keyid);
      Adopt(t, was);
    }

    /** The output goes through `t` from now on. */
    method Adopt(t: Mode, ghost was: Tx)
      requires Valid()
      modifies this`tx, this`output, this`mode
      ensures Valid()
      ensures tx == old(tx).(output := Some(t), mode := Some(t), log := was.log + [Started(t, was.fb.Get(t).stream.iv)],
                             crossed := was.crossed || was.lastIv != Some(t))
    {
      output, mode := Some(t), Some(t);
      tx := tx.(output := Some(t), mode := Some(t), log := was.log + [Started(t, was.fb.Get(t).stream.iv)],
                crossed := was.crossed || was.lastIv != Some(t));
    }

    /** `encrypt_start_output`. */
    method StartOutput(t: Mode, rand: Rand)
      requires Valid()
      modifies Repr()
      ensures Valid() && keys == old(keys) && tx == Telnet.StartOutput(des, keys, old(tx), t, rand)
    {
      if t !in support || t !in remote {
        return;
      }
      var i := StartCipher(t, rand);
      if i != SUCCESS {
        return;
      }
      SwitchOutput(t);
    }

    /** `encrypt_send_end`. */
    method SendEnd()
      requires Valid()
      modifies Repr()
      ensures Valid() && keys == old(keys) && tx == Telnet.SendEnd(des, keys, old(tx))
    {
      if output.None? {
        return;
      }
      Send(ENCRYPT_END, []);
      SetOutput(None);
    }

    /** The loop of `encrypt_support`. */
    method ScanLoop(types: seq<Bits>) returns (use: Option<Mode>)
      requires support == tx.support
      modifies this`remote
      ensures var us := Usable(tx, types); remote == (set t | t in us) && use == if us == [] then None else Some(us[0])
    {
      ghost var got: seq<Mode> := [];
      remote, use := {}, None;
      var i := 0;
      assert types[0..] == types;
      while i < |types|
        invariant i <= |types| && got + Usable(tx, types[i..]) == Usable(tx, types)
        invariant remote == (set t | t in got)
        invariant use == if got == [] then None else Some(got[0])
      {
        UsableFrom(tx, types, i);
        var o := TypeOf(types[i]);
        if o.Some? && o.value in support {
          UsableNext(got, o.value, Usable(tx, types[i + 1..]));
          remote := remote + {o.value};
          if use.None? {
            use := o;
          }
          got := got + [o.value];
        }
        i := i + 1;
      }
    }

    method ScanTypes(types: seq<Bits>) returns (use: Option<Mode>)
      requires Valid()
      modifies this`tx, this`remote
      ensures Valid()
      ensures var us := Usable(old(tx), types);
        && tx == old(tx).(remote := set t | t in us)
        && use == if us == [] then None else Some(us[0])
    {
      use := ScanLoop(types);
      tx := tx.(remote := remote);
    }

    /** `encrypt_support`. */
    method Support(types: seq<Bits>, rand: Rand)
      requires Valid()
      modifies Repr()
      ensures Valid() && keys == old(keys) && tx == OnSupport(des, keys, old(tx), types, rand)
    {
      var use := ScanTypes(types);
      if use.Some? {
        var ret := StartCipher(use.value, rand);
        if ret.Failed? {
          return;
        }
        SetMode(use.value);
        if ret == SUCCESS {
          StartOutput(use.value, rand);
        }
      }
    }

    /** `encrypt_send_keyid` for DIR_ENCRYPT, with the key id stored. */
    method SendKeyid(id: seq<Bits>)
      requires Valid()
      modifies Repr()
      ensures Valid() && keys == old(keys) && tx == SendEncKeyid(des, keys, old(tx), id)
    {
      SetKeyid(id);
      Send(ENCRYPT_ENC_KEYID, id);
    }

    /** The vector of `t` is used, and its answer taken. */
    method TakeVector(t: Mode, s: Neg)
      requires Valid()
      modifies Repr()
      ensures Valid() && keys == old(keys)
      ensures
        var f := old(tx).fb.Get(t);
        tx == old(tx).(fb := old(tx).fb.Set(t, f.(stream := StreamIv(f.temp, f.stream), state := s)))
    {
      PutState(t, temp.Get(t), needStart.Get(t), s);
      LoadStream(t, temp.Get(t));
    }

    /** The FB64_IV_OK case of `fb64_reply`, up to the key id it sends. */
    method UseVector(t: Mode)
      requires Valid()
      modifies Repr()
      ensures Valid() && keys == old(keys) && tx == AcceptIvOk(old(tx), t)
    {
      var s := if state.Get(t).Failed? then IN_PROGRESS else state.Get(t);
      TakeVector(t, s.(noRecvIv := false));
      Note(IvOk(t));
    }

    /** FB64_IV_BAD: the vector is cleared. */
    method ClearVector(t: Mode)
      requires Valid()
      modifies Repr()
      ensures Valid() && keys == old(keys)
      ensures
        var f := old(tx).fb.Get(t);
        tx == old(tx).(fb := old(tx).fb.Set(t, f.(temp := ZERO, stream := StreamIv(ZERO, f.stream))))
    {
      PutState(t, ZERO, needStart.Get(t), state.Get(t));
      LoadStream(t, ZERO);
    }

    /** The label `failure` of `fb64_reply`. */
    method Fail(t: Mode)
      requires Valid()
      modifies this`tx, this`temp, this`needStart, this`state
      ensures Valid()
      ensures tx == old(tx).(fb := old(tx).fb.Set(t, old(tx).fb.Get(t).(state := Failed)), log := old(tx).log + [Failure(t)])
    {
      PutState(t, temp.Get(t), needStart.Get(t), Failed);
      Note(Failure(t));
    }

    /** `fb64_reply`. */
    method CipherReply(t: Mode, arg: seq<Bits>)
      requires Valid()
      modifies Repr()
      ensures Valid() && keys == old(keys) && tx == FbReply(des, keys, old(tx), t, arg)
    {
      if |arg| >= 1 && arg[0] == FB64_IV_OK {
        UseVector(t);
        SendKeyid([0]);
      } else {
        if |arg| >= 1 && arg[0] == FB64_IV_BAD {
          ClearVector(t);
        }
        Fail(t);
      }
    }

    /** `encrypt_reply`. */
    method Reply(arg: seq<Bits>, rand: Rand)
      requires Valid()
      modifies Repr()
      ensures Valid() && keys == old(keys) && tx == OnReply(des, keys, old(tx), arg, rand)
    {
      if arg == [] {
        return;
      }
      var o := TypeOf(arg[0]);
      if o.None? || o.value !in support || o.value !in remote {
        return;
      }
      CipherReply(o.value, arg[1..]);
      var ret := state.Get(o.value);
      if ret.Failed? {
        SetAuto(false);
      } else {
        SetMode(o.value);
        if ret == SUCCESS && auto {
          StartOutput(o.value, rand);
        }
      }
    }

    method AcceptKeyid(t: Mode)
      requires Valid()
      modifies this`tx, this`temp, this`needStart, this`state
      ensures Valid()
      ensures
        var f := old(tx).fb.Get(t);
        tx == old(tx).(fb := old(tx).fb.Set(t, f.(state := Begun(f.state).(noKeyid := false))),
                       log := old(tx).log + [KeyidZero(t)])
    {
      var s := if state.Get(t).Failed? then IN_PROGRESS else state.Get(t);
      PutState(t, temp.Get(t), needStart.Get(t), s.(noKeyid := false));
      Note(KeyidZero(t));
    }

    /** `fb64_keyid` for DIR_ENCRYPT. */
    method CipherKeyid(t: Mode)
      requires Valid()
      modifies this`tx, this`keyid, this`temp, this`needStart, this`state
      ensures Valid() && tx == FbKeyid(old(tx), t)
    {
      if keyid != [0] {
        SetKeyid([]);
      } else {
        AcceptKeyid(t);
      }
    }

    /** The peer has confirmed the key id: output may start. */
    method SameKeyid(t: Mode, rand: Rand)
      requires Valid()
      modifies Repr()
      ensures Valid() && keys == old(keys)
      ensures
        var tx1 := FbKeyid(old(tx), t);
        tx == if tx1.fb.Get(t).state == SUCCESS && tx1.auto then Telnet.StartOutput(des, keys, tx1, t, rand) else tx1
    {
      CipherKeyid(t);
      if state.Get(t) == SUCCESS && auto {
        StartOutput(t, rand);
      }
    }

    /** The key id is given up, and the peer told. */
    method DropKeyid()
      requires Valid()
      modifies Repr()
      ensures Valid() && keys == old(keys) && tx == SendEncKeyid(des, keys, old(tx), [])
    {
      SetKeyid([]);
      Send(ENCRYPT_ENC_KEYID, keyid);
    }

    /** Another key id: it is stored, tried, and what is left of it sent back. */
    method NewKeyid(t: Mode, id: seq<Bits>)
      requires Valid()
      modifies Repr()
      ensures Valid() && keys == old(keys)
      ensures var tx1 := FbKeyid(old(tx).(keyid := id), t); tx == SendEncKeyid(des, keys, tx1, tx1.keyid)
    {
      SetKeyid(id);
      CipherKeyid(t);
      Send(ENCRYPT_ENC_KEYID, keyid);
    }

    /** `encrypt_dec_keyid`: `encrypt_keyid` on ki[0]. */
    method DecKeyid(id: seq<Bits>, rand: Rand)
      requires Valid()
      modifies Repr()
      ensures Valid() && keys == old(keys) && tx == OnDecKeyid(des, keys, old(tx), id, rand)
    {
      if mode.None? || mode.value !in support || mode.value !in remote {
        if id != [] {
          DropKeyid();
        }
      } else if id == [] {
        if keyid != [] {
          DropKeyid();
        }
      } else if id != keyid {
        NewKeyid(mode.value, id);
      } else {
        SameKeyid(mode.value, rand);
      }
    }

    /** `encrypt_request_start`. */
    method RequestedStart(rand: Rand)
      requires Valid()
      modifies Repr()
      ensures Valid() && keys == old(keys) && tx == OnRequestStart(des, keys, old(tx), rand)
    {
      if mode.None? {
        if server {
          SetAuto(true);
        }
        return;
      }
      StartOutput(mode.value, rand);
    }

    /** `fb64_session`, up to its start: the new key, and the stream rewound. */
    method SetKey(t: Mode, k: Block) returns (start: bool)
      requires Valid()
      modifies Repr()
      ensures Valid() && keys == old(keys).Set(t, k) && start == old(tx).fb.Get(t).needStart
      ensures
        var f := old(tx).fb.Get(t);
        tx == old(tx).(fb := old(tx).fb.Set(t, f.(needStart := false, stream := StreamKey(f.stream))))
    {
      Rewind(t, k);
      start := needStart.Get(t);
      PutState(t, temp.Get(t), false, state.Get(t));
    }

    /** `fb64_stream_key`. */
    method Rewind(t: Mode, k: Block)
      requires Valid()
      modifies this`tx, this`keys, Get(t).Repr()
      ensures Valid() && keys == old(keys).Set(t, k)
      ensures tx == old(tx).(fb := old(tx).fb.Set(t, old(tx).fb.Get(t).(stream := StreamKey(old(tx).fb.Get(t).stream))))
    {
      keys := keys.Set(t, k);
      Get(t).SetKey(k);
      tx := tx.(fb := tx.fb.Set(t, tx.fb.Get(t).(stream := Get(t).View())));
    }

    /** `encrypt_send_support`, after the request to start; the list is sent once. */
    method OfferTypes(types: set<Mode>)
      requires Valid()
      modifies Repr()
      ensures Valid() && keys == old(keys)
      ensures tx == Telnet.NetWrite(des, keys, old(tx), SupportMsg(types)).(supportSent := true)
    {
      var list: seq<Bits> := [];
      if CFB in types { list := list + [TypeByte(CFB)]; }
      if OFB in types { list := list + [TypeByte(OFB)]; }
      assert Sub(ENCRYPT_SUPPORT, list) == SupportMsg(types);
      Send(ENCRYPT_SUPPORT, list);
      supportSent, tx := true, tx.(supportSent := true);
    }

    /** The type of output is chosen, and may be used again. */
    method SetType(t: Mode)
      requires Valid()
      modifies this`tx, this`mode, this`support
      ensures Valid() && tx == old(tx).(mode := Some(t), support := old(tx).support + {t})
    {
      mode, support := Some(t), support + {t};
      tx := tx.(mode := mode, support := support);
    }

    /** The commands for output. */
    method Obey(c: Command, rand: Rand)
      requires Valid() && (c.StartOut? || c.StopOut? || c.SetType? || c.AutoOut?)
      modifies Repr()
      ensures Valid() && keys == old(keys)
      ensures forall rx :: Endpoint(keys, tx, rx) == Telnet.Obey(des, Endpoint(keys, old(tx), rx), c, rand)
    {
      match c {
        case StartOut => if mode.Some? { StartOutput(mode.value, rand); }
        case StopOut => SendEnd();
        case SetType(m) => SetType(m);
        case AutoOut(on) => SetAuto(on);
      }
    }

    /** The peer reads the first byte in flight. */
    method Pop() returns (b: Bits)
      requires Valid() && out != []
      modifies this`tx, this`out
      ensures Valid() && b == old(tx).out[0] && tx == old(tx).(out := old(tx).out[1..])
    {
      b := out[0];
      out := out[1..];
      tx := tx.(out := out);
    }
  }
}
