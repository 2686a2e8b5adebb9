/**
 The incoming half of `libtelnet/encrypt.c`, with the `fb64_*` handlers it
 calls, as procedures that change the variables of a running program.
 */
module TelnetReceiver {
  import opened Wrappers
  import opened Cipher
  import opened Telnet
  import opened TelnetProcess

  /**
   The static variables that steer decryption, and the decrypting side of the
   `fb[]` records.  The ghost field is what they mean.
   */
  class Receiver {
    const des: Des
    const cfb: StInfo                      // fb[CFB].streams[DIR_DECRYPT - 1]
    const ofb: StInfo                      // fb[OFB].streams[DIR_DECRYPT - 1]
    var state: Pair<Neg>                   // fb[].state[DIR_DECRYPT - 1]

    var support: set<Mode>                 // I_SUPPORT_DECRYPT
    var remote: set<Mode>                  // remote_supports_encrypt
    var mode: Option<Mode>                 // decrypt_mode
    var input: Option<Mode>                // decrypt_input
    var auto: bool                         // autodecrypt
    var keyid: seq<Bits>                   // ki[1]
    var parser: Parser                     // telrcv_state and the suboption buffer

    ghost var rx: Rx

    function Repr(): set<object> { {this} + cfb.Repr() + ofb.Repr() }

    function Get(t: Mode): StInfo { if t.CFB? then cfb else ofb }

    function Keys(): Pair<Block> reads cfb, ofb { Pair(cfb.key, ofb.key) }

    ghost predicate Apart() { cfb.Valid() && ofb.Valid() && cfb.Repr() !! ofb.Repr() && this !in cfb.Repr() + ofb.Repr() }

    /** `rx` is what the variables mean, with the histories they do not record. */
    ghost predicate Valid()
      reads Repr()
    {
      && Apart()
      && rx == Rx(support, remote, mode, input, auto, keyid,
                  Pair(RxFb(state.cfb, cfb.View()), RxFb(state.ofb, ofb.View())), parser, rx.seen, rx.ived)
    }

    /** `encrypt_init` and `fb64_init`. */
    constructor (des: Des, types: set<Mode>)
      ensures Valid() && fresh(Repr())
      ensures this.des == des && rx == InitRx(types) && Keys() == Pair(ZERO, ZERO)
    {
      this.des := des;
      cfb := new StInfo();
      ofb := new StInfo();
      state := Pair(Failed, Failed);
      support, remote, mode, input := types, {}, None, None;
      auto, keyid, parser := false, [], Idle;
      rx := InitRx(types);
    }

    method SetMode(t: Mode)
      requires Valid()
      modifies this`rx, this`mode
      ensures Valid() && rx == old(rx).(mode := Some(t))
    {
      mode, rx := Some(t), rx.(mode := Some(t));
    }

    method SetInput(m: Option<Mode>)
      requires Valid()
      modifies this`rx, this`input
      ensures Valid() && rx == old(rx).(input := m)
    {
      input, rx := m, rx.(input := m);
    }

    method SetAuto(on: bool)
      requires Valid()
      modifies this`rx, this`auto
      ensures Valid() && rx == old(rx).(auto := on)
    {
      auto, rx := on, rx.(auto := on);
    }

    method SetKeyid(id: seq<Bits>)
      requires Valid()
      modifies this`rx, this`keyid
      ensures Valid() && rx == old(rx).(keyid := id)
    {
      keyid, rx := id, rx.(keyid := id);
    }

    method AddRemote(t: Mode)
      requires Valid()
      modifies this`rx, this`remote
      ensures Valid() && rx == old(rx).(remote := old(rx).remote + {t})
    {
      remote := remote + {t};
      rx := rx.(remote := remote);
    }

    method SetParser(p: Parser)
      requires Valid()
      modifies this`rx, this`parser
      ensures Valid() && rx == old(rx).(parser := p)
    {
      parser, rx := p, rx.(parser := p);
    }

    ghost method Saw(m: Msg)
      requires Valid()
      modifies this`rx
      ensures Valid() && rx == old(rx).(seen := old(rx).seen + [m])
    {
      rx := rx.(seen := rx.seen + [m]);
    }

    /** `decrypt_input` on one byte, if it is installed. */
    method Decrypt(w: Bits) returns (c: Bits)
      requires Valid()
      modifies Repr()
      ensures Valid() && Keys() == old(Keys())
      ensures rx == Telnet.Decrypt(des, Keys(), old(rx), w).0 && c == Telnet.Decrypt(des, Keys(), old(rx), w).1
    {
      c := w;
      if input.Some? {
        c := DecryptByte(input.value, w);
      }
    }

    method DecryptByte(t: Mode, w: Bits) returns (c: Bits)
      requires Valid()
      modifies Repr()
      ensures Valid() && Keys() == old(Keys())
      ensures
        var f := old(rx).fb.Get(t);
        var (s, b) := DecByte(des, t, Keys().Get(t), f.stream, w);
        rx == old(rx).(fb := old(rx).fb.Set(t, f.(stream := s))) && c == b
    {
      c := Get(t).Decrypt(des, t, w);
      rx := rx.(fb := rx.fb.Set(t, rx.fb.Get(t).(stream := Get(t).View())));
    }

    /** One byte is decrypted and goes to the automaton of `telrcv`: the message it completes, if any. */
    method Take(w: Bits) returns (m: Option<Msg>)
      requires Valid()
      modifies Repr()
      ensures Valid() && Keys() == old(Keys())
      ensures
        var (rx1, c) := Telnet.Decrypt(des, Keys(), old(rx), w);
        var (p, done) := ParseByte(old(rx).parser, c);
        rx == rx1.(parser := p) && m == done
    {
      var c := Decrypt(w);
      var (p, done) := ParseByte(parser, c);
      SetParser(p);
      m := done;
    }

    method SetState(t: Mode, s: Neg)
      requires Valid()
      modifies this`rx, this`state
      ensures Valid() && rx == old(rx).(fb := old(rx).fb.Set(t, old(rx).fb.Get(t).(state := s)))
    {
      state := state.Set(t, s);
      rx := rx.(fb := rx.fb.Set(t, rx.fb.Get(t).(state := s)));
    }

    /** A vector of the right length is put into the stream. */
    method UseVector(t: Mode, iv: Block)
      requires Valid()
      modifies Repr()
      ensures Valid() && Keys() == old(Keys())
      ensures
        var f := old(rx).fb.Get(t);
        rx == old(rx).(fb := old(rx).fb.Set(t, RxFb(IN_PROGRESS, StreamIv(iv, f.stream))), ived := old(rx).ived + {t})
    {
      Get(t).SetIv(iv);
      state := state.Set(t, IN_PROGRESS);
      rx := rx.(fb := rx.fb.Set(t, RxFb(IN_PROGRESS, Get(t).View())), ived := rx.ived + {t});
    }

    /** `fb64_is`: the answer to send. */
    method CipherIs(t: Mode, arg: seq<Bits>) returns (code: Bits)
      requires Valid()
      modifies Repr()
      ensures Valid() && Keys() == old(Keys())
      ensures rx == FbIs(old(rx), t, arg).0 && ReplyMsg(t, code) == FbIs(old(rx), t, arg).1
    {
      if |arg| == 9 && arg[0] == FB64_IV {
        UseVector(t, arg[1..]);
        code := FB64_IV_OK;
      } else {
        if |arg| >= 1 && arg[0] == FB64_IV {
          SetState(t, Failed);
        }
        code := FB64_IV_BAD;
      }
    }

    /** `fb64_keyid` for DIR_DECRYPT. */
    method CipherKeyid(t: Mode)
      requires Valid()
      modifies this`rx, this`keyid, this`state
      ensures Valid()
      ensures
        var f := old(rx).fb.Get(t);
        rx == if old(rx).keyid != [0] then old(rx).(keyid := [])
              else old(rx).(fb := old(rx).fb.Set(t, f.(state := Begun(f.state).(noKeyid := false))))
    {
      if keyid != [0] {
        SetKeyid([]);
      } else {
        var s := if state.Get(t).Failed? then IN_PROGRESS else state.Get(t);
        SetState(t, s.(noKeyid := false));
      }
    }

    /** `encrypt_keyid` on ki[1]: whether the key id is to be sent back. */
    method TakeKeyid(id: seq<Bits>) returns (send: bool)
      requires Valid()
      modifies this`rx, this`keyid, this`state
      ensures Valid()
      ensures var r := OnEncKeyid(old(rx), id); rx == r.0 && r.1 == if send then [Sub(ENCRYPT_DEC_KEYID, keyid)] else []
    {
      if mode.None? || mode.value !in support || mode.value !in remote {
        send := id != [];
        if send { SetKeyid([]); }
      } else if id == [] {
        send := keyid != [];
        if send { SetKeyid([]); }
      } else {
        send := id != keyid;
        SetKeyid(id);
        CipherKeyid(mode.value);
      }
    }

    /** `fb64_session` on the incoming stream. */
    method SetKey(t: Mode, k: Block)
      requires Valid()
      modifies Repr()
      ensures Valid() && Keys() == old(Keys()).Set(t, k)
      ensures var f := old(rx).fb.Get(t); rx == old(rx).(fb := old(rx).fb.Set(t, f.(stream := StreamKey(f.stream))))
    {
      Get(t).SetKey(k);
      rx := rx.(fb := rx.fb.Set(t, rx.fb.Get(t).(stream := Get(t).View())));
    }
  }
}
