/**
 The message handlers of `libtelnet/encrypt.c`, the loop of `telrcv`, and what
 the user can ask for, on the variables of a running program.
 */
module TelnetHandlers {
  import opened Wrappers
  import opened Cipher
  import opened Telnet
  import opened TelnetSender
  import opened TelnetReceiver

  /** One program: its two halves, which share nothing but the keys. */
  class Session {
    const des: Des
    const enc: Sender
    const dec: Receiver

    function Repr(): set<object> { {this} + enc.Repr() + dec.Repr() }

    ghost predicate Valid()
      reads Repr()
    {
      && enc.des == des && dec.des == des && enc.Repr() !! dec.Repr() && this !in enc.Repr() + dec.Repr()
      && enc.Valid() && dec.Valid() && enc.keys == dec.Keys()
    }

    ghost function View(): Endpoint
      reads Repr()
    {
      Endpoint(enc.keys, enc.tx, dec.rx)
    }

    constructor (des: Des, server: bool, types: set<Mode>, accepted: set<Mode>)
      ensures Valid() && fresh(Repr())
      ensures this.des == des && View() == Init(server, types, accepted)
    {
      this.des := des;
      enc := new Sender(des, server, types);
      dec := new Receiver(des, accepted);
    }

    /** `encrypt_is`. */
    method Is(arg: seq<Bits>)
      requires Valid()
      modifies Repr()
      ensures Valid() && enc.keys == old(enc.keys)
      ensures dec.rx == OnIs(old(dec.rx), arg).0
      ensures enc.tx == NetWriteAll(des, enc.keys, old(enc.tx), OnIs(old(dec.rx), arg).1)
    {
      if arg == [] {
        return;
      }
      var o := TypeOf(arg[0]);
      if o.None? {
        return;
      }
      var t := o.value;
      dec.AddRemote(t);
      if t !in dec.support {
        return;
      }
      ghost var (rx1, reply) := FbIs(dec.rx, t, arg[1..]);
      WriteOne(des, enc.keys, enc.tx, reply);
      WriteTwo(des, enc.keys, enc.tx, reply, RequestStart(rx1));
      CipherIs(t, arg[1..]);
      Answered(t);
    }

    /** `fb64_is`, with its answer. */
    method CipherIs(t: Mode, arg: seq<Bits>)
      requires Valid()
      modifies Repr()
      ensures Valid() && enc.keys == old(enc.keys)
      ensures dec.rx == FbIs(old(dec.rx), t, arg).0
      ensures enc.tx == NetWrite(des, enc.keys, old(enc.tx), FbIs(old(dec.rx), t, arg).1)
    {
      var code := dec.CipherIs(t, arg);
      enc.Send(ENCRYPT_REPLY, [TypeByte(t), code]);
    }

    /** What `encrypt_is` does with the state `fb64_is` returns. */
    method Answered(t: Mode)
      requires Valid()
      modifies Repr()
      ensures Valid() && enc.keys == old(enc.keys)
      ensures
        var rx, ret := old(dec.rx), old(dec.rx).fb.Get(t).state;
        && dec.rx == (if ret.Failed? then rx.(auto := false) else rx.(mode := Some(t)))
        && enc.tx == if ret == SUCCESS && rx.auto then NetWrite(des, enc.keys, old(enc.tx), RequestStart(rx)) else old(enc.tx)
    {
      var ret := dec.state.Get(t);
      if ret.Failed? {
        dec.SetAuto(false);
      } else {
        dec.SetMode(t);
        if ret == SUCCESS && dec.auto {
          enc.Send(ENCRYPT_REQSTART, dec.keyid);
        }
      }
    }

    /** `encrypt_start`. */
    method Start()
      requires Valid()
      modifies Repr()
      ensures Valid() && enc.keys == old(enc.keys)
      ensures dec.rx == OnStart(old(dec.rx)).0
      ensures enc.tx == NetWriteAll(des, enc.keys, old(enc.tx), OnStart(old(dec.rx)).1)
    {
      if dec.mode.None? || dec.mode.value !in dec.support || dec.mode.value !in dec.remote {
        enc.Send(ENCRYPT_REQEND, []);
      } else {
        dec.SetInput(dec.mode);
      }
    }

    /** `encrypt_enc_keyid`: `encrypt_keyid` on ki[1]. */
    method EncKeyid(id: seq<Bits>)
      requires Valid()
      modifies Repr()
      ensures Valid() && enc.keys == old(enc.keys)
      ensures dec.rx == OnEncKeyid(old(dec.rx), id).0
      ensures enc.tx == NetWriteAll(des, enc.keys, old(enc.tx), OnEncKeyid(old(dec.rx), id).1)
    {
      var send := dec.TakeKeyid(id);
      if send {
        WriteOne(des, enc.keys, enc.tx, Sub(ENCRYPT_DEC_KEYID, dec.keyid));
        enc.Send(ENCRYPT_DEC_KEYID, dec.keyid);
      }
    }

    /** `suboption`, for ENCRYPT. */
    method Dispatch(cmd: Bits, arg: seq<Bits>, rand: Rand)
      requires Valid()
      modifies Repr()
      ensures Valid() && enc.keys == old(enc.keys)
      ensures dec.rx == RxMsg(old(dec.rx), Sub(cmd, arg)).0
      ensures
        var written := NetWriteAll(des, enc.keys, old(enc.tx), RxMsg(old(dec.rx), Sub(cmd, arg)).1);
        enc.tx == TxMsg(des, enc.keys, written, Sub(cmd, arg), rand)
    {
      dec.Saw(Sub(cmd, arg));
      if cmd == ENCRYPT_IS { Is(arg); }
      else if cmd == ENCRYPT_SUPPORT { enc.Support(arg, rand); }
      else if cmd == ENCRYPT_REPLY { enc.Reply(arg, rand); }
      else if cmd == ENCRYPT_START { Start(); }
      else if cmd == ENCRYPT_END { dec.SetInput(None); }
      else if cmd == ENCRYPT_REQSTART { enc.RequestedStart(rand); }
      else if cmd == ENCRYPT_REQEND { enc.SendEnd(); }
      else if cmd == ENCRYPT_ENC_KEYID { EncKeyid(arg); }
      else if cmd == ENCRYPT_DEC_KEYID { enc.DecKeyid(arg, rand); }
    }

    /** One turn of the loop of `telrcv`. */
    method Receive(w: Bits, rand: Rand)
      requires Valid()
      modifies Repr()
      ensures Valid() && View() == Telnet.Receive(des, old(View()), w, rand)
    {
      var m := dec.Take(w);
      if m.Some? {
        match m.value
        case Data(_) => dec.Saw(m.value);
        case Sub(cmd, arg) => Dispatch(cmd, arg, rand);
      }
    }

    /** `fb64_session`. */
    method CipherSession(t: Mode, k: Block, rand: Rand)
      requires Valid()
      modifies Repr()
      ensures Valid() && View() == FbSession(des, old(View()), t, k, rand)
    {
      var start := Rekey(t, k);
      if start {
        var _ := enc.StartCipher(t, rand);
      }
    }

    /** `fb64_stream_key` on both streams of a type. */
    method Rekey(t: Mode, k: Block) returns (start: bool)
      requires Valid()
      modifies Repr()
      ensures Valid() && enc.keys == old(enc.keys).Set(t, k) && start == old(enc.tx).fb.Get(t).needStart
      ensures
        var f, g := old(enc.tx).fb.Get(t), old(dec.rx).fb.Get(t);
        && enc.tx == old(enc.tx).(fb := old(enc.tx).fb.Set(t, f.(needStart := false, stream := StreamKey(f.stream))))
        && dec.rx == old(dec.rx).(fb := old(dec.rx).fb.Set(t, g.(stream := StreamKey(g.stream))))
    {
      start := enc.SetKey(t, k);
      dec.SetKey(t, k);
    }

    /** `encrypt_session_key`. */
    method InstallKey(k: Block, rand: Rand)
      requires Valid()
      modifies Repr()
      ensures Valid() && View() == SessionKey(des, old(View()), k, rand)
    {
      CipherSession(CFB, k, rand);
      CipherSession(OFB, k, rand);
    }

    /** `encrypt_send_support`. */
    method SendSupport()
      requires Valid()
      modifies Repr()
      ensures Valid() && View() == Telnet.SendSupport(des, old(View()))
    {
      if enc.supportSent {
        return;
      }
      WriteOne(des, enc.keys, enc.tx, SupportMsg(dec.support));
      WriteTwo(des, enc.keys, enc.tx, RequestStart(dec.rx), SupportMsg(dec.support));
      if !enc.server && dec.auto {
        enc.Send(ENCRYPT_REQSTART, dec.keyid);
      }
      enc.OfferTypes(dec.support);
    }

    /** A byte typed. */
    method TypeIn(b: Bits)
      requires Valid()
      modifies Repr()
      ensures Valid() && View() == Telnet.Obey(des, old(View()), Type(b), m => None)
    {
      var p := [b];
      if b == IAC { p := [b, b]; }
      assert Double([b]) == p by { assert [b][1..] == []; }
      enc.NetWrite(p, Data(b));
    }

    /** The `encrypt` commands of the client, and bytes typed. */
    method Obey(c: Command, rand: Rand)
      requires Valid()
      modifies Repr()
      ensures Valid() && View() == Telnet.Obey(des, old(View()), c, rand)
    {
      match c {
        case Type(b) => TypeIn(b);
        case StartIn => if dec.mode.Some? { enc.Send(ENCRYPT_REQSTART, dec.keyid); }
        case StopIn => enc.Send(ENCRYPT_REQEND, []);
        case AutoIn(on) => dec.SetAuto(on);
        case Support => SendSupport();
        case _ => enc.Obey(c, rand);
      }
    }
  }
}
