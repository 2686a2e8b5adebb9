/**
 Two running programs joined by their byte streams.  What is proved of runs of
 the functions holds of the programs' own variables after any run.
 */
module TelnetLive {
  import opened Wrappers
  import opened Cipher
  import opened Telnet
  import opened TelnetSystem
  import opened TelnetRuns
  import opened TelnetHandlers
  import opened TelnetSingle
  import opened TelnetSettles

  /** Two programs that share no variable. */
  ghost predicate Joined(a: Session, b: Session)
    reads a.Repr(), b.Repr()
  {
    a.Valid() && b.Valid() && a.Repr() !! b.Repr() && a.des == b.des
  }

  ghost function Views(a: Session, b: Session): Sys
    reads a.Repr(), b.Repr()
  {
    Sys(a.View(), b.View())
  }

  /** The first byte in flight goes to the other end. */
  method ReadByte(x: Session, y: Session, rand: Rand)
    requires Joined(x, y) && y.View().tx.out != []
    modifies x.Repr(), y.Repr()
    ensures Joined(x, y)
    ensures x.View() == Receive(x.des, old(x.View()), old(y.View()).tx.out[0], rand) && y.View() == Popped(old(y.View()))
  {
    var w := y.enc.Pop();
    x.Receive(w, rand);
  }

  /** One end is given its key, beside the other. */
  method InstallBeside(x: Session, y: Session, key: Block, rand: Rand)
    requires Joined(x, y)
    modifies x.Repr()
    ensures Joined(x, y) && x.View() == SessionKey(x.des, old(x.View()), key, rand) && y.View() == old(y.View())
  {
    x.InstallKey(key, rand);
  }

  method ObeyBeside(x: Session, y: Session, c: Command, rand: Rand)
    requires Joined(x, y)
    modifies x.Repr()
    ensures Joined(x, y) && x.View() == Obey(x.des, old(x.View()), c, rand) && y.View() == old(y.View())
  {
    x.Obey(c, rand);
  }

  /** One end reads a byte of the other, is given its key, or obeys its user. */
  method Take(x: Session, y: Session, key: Block, action: Action)
    requires Joined(x, y) && Enabled(x.des, key, x.View(), y.View(), action)
    modifies x.Repr(), y.Repr()
    ensures Joined(x, y) && (x.View(), y.View()) == Act(x.des, key, old(x.View()), old(y.View()), action)
  {
    match action {
      case Read(rand) => ReadByte(x, y, rand);
      case Install(rand) => InstallBeside(x, y, key, rand);
      case Order(c, rand) => ObeyBeside(x, y, c, rand);
    }
  }

  /** A step of either end. */
  method TakeStep(a: Session, b: Session, key: Block, p: Step)
    requires Joined(a, b) && CanStep(a.des, key, Views(a, b), p)
    modifies a.Repr(), b.Repr()
    ensures Joined(a, b) && Views(a, b) == Next(a.des, key, old(Views(a, b)), p)
  {
    if p.first {
      Take(a, b, key, p.action);
    } else {
      Take(b, a, key, p.action);
    }
  }

  /** The steps are taken one after another. */
  method Converse(a: Session, b: Session, key: Block, ps: seq<Step>)
    requires Joined(a, b) && Runs(a.des, key, Views(a, b), ps)
    modifies a.Repr(), b.Repr()
    ensures Joined(a, b) && Views(a, b) == Final(a.des, key, old(Views(a, b)), ps)
  {
    var i := 0;
    assert ps[0..] == ps;
    while i < |ps|
      invariant i <= |ps| && Joined(a, b) && Runs(a.des, key, Views(a, b), ps[i..])
      invariant Final(a.des, key, Views(a, b), ps[i..]) == Final(a.des, key, old(Views(a, b)), ps)
    {
      assert ps[i..][0] == ps[i] && ps[i..][1..] == ps[i + 1..];
      TakeStep(a, b, key, ps[i]);
      i := i + 1;
    }
  }

  /** A server beside a client. */
  method Beside(a: Session, enc: set<Mode>, dec: set<Mode>) returns (b: Session)
    requires a.Valid()
    ensures Joined(a, b) && a.View() == old(a.View()) && b.View() == Init(true, enc, dec) && fresh(b.Repr())
  {
    label before:
    b := new Session(a.des, true, enc, dec);
    Kept@before(a);
  }

  /** A program whose variables do not change. */
  twostate lemma Kept(a: Session)
    requires old(a.Valid()) && unchanged(a.Repr())
    ensures a.Valid() && a.View() == old(a.View())
  {}

  /** A client and a server, as `encrypt_init` leaves them. */
  method Launch(des: Des, enc: (set<Mode>, set<Mode>), dec: (set<Mode>, set<Mode>)) returns (a: Session, b: Session)
    ensures Joined(a, b) && a.des == des && Views(a, b) == Start(enc, dec) && fresh(a.Repr()) && fresh(b.Repr())
  {
    a := new Session(des, false, enc.0, dec.0);
    b := Beside(a, enc.1, dec.1);
  }

  /**
   Two programs are started and run, by any interleaving of reads, keys and
   commands in which each user keeps to its cipher type or has no choice.  Then
   each incoming half, decrypting the bytes in flight, sees exactly what the
   other end sent, with the other end's registers.
   */
  method Talk(des: Des, key: Block, enc: (set<Mode>, set<Mode>), dec: (set<Mode>, set<Mode>), ps: seq<Step>)
    returns (a: Session, b: Session)
    requires key != ZERO && Runs(des, key, Start(enc, dec), ps)
    requires OneChoice(ps, true, dec.1) && OneChoice(ps, false, dec.0)
    ensures Joined(a, b) && BothInSync(des, key, Views(a, b))
  {
    a, b := Launch(des, enc, dec);
    Converse(a, b, key, ps);
    SessionStaysInSync(des, key, enc, dec, ps);
  }

  /** Automatic start set at one end, by two commands. */
  method SetAuto(x: Session, y: Session, out: bool, inp: bool)
    requires Joined(x, y)
    modifies x.Repr()
    ensures Joined(x, y) && x.View() == Set(old(x.View()), out, inp) && y.View() == old(y.View())
  {
    var rand: Rand := t => None;
    ObeyBeside(x, y, AutoOut(out), rand);
    ObeyBeside(x, y, AutoIn(inp), rand);
  }

  method Prepare(a: Session, b: Session, out: (bool, bool), inp: (bool, bool))
    requires Joined(a, b)
    modifies a.Repr(), b.Repr()
    ensures Joined(a, b)
    ensures Views(a, b) == (var s := old(Views(a, b)); Sys(Set(s.a, out.0, inp.0), Set(s.b, out.1, inp.1)))
  {
    SetAuto(a, b, out.0, inp.0);
    SetAuto(b, a, out.1, inp.1);
  }

  /**
   Two programs are started and run, and nobody stops them.  If then everything
   has been read, each direction that was to be started and has its key and the
   other end's SUPPORT is encrypted, in the variables of both programs.
   */
  method Negotiate(des: Des, key: Block, enc: (set<Mode>, set<Mode>), dec: (set<Mode>, set<Mode>),
                   out: (bool, bool), inp: (bool, bool), ps: seq<Step>) returns (a: Session, b: Session)
    requires key != ZERO && Runs(des, key, Opening(enc, dec, out, inp), ps) && AllGentle(ps)
    ensures Joined(a, b) && a.des == des
    ensures AllRead(Views(a, b)) && First(enc.0, dec.1).Some? && out.0 && a.View().key == Pair(key, key) && b.enc.supportSent
      ==> a.enc.output == b.dec.input == First(enc.0, dec.1)
    ensures AllRead(Views(a, b)) && First(enc.1, dec.0).Some? && (out.1 || inp.0) && b.View().key == Pair(key, key)
        && a.enc.supportSent
      ==> b.enc.output == a.dec.input == First(enc.1, dec.0)
  {
    a, b := Launch(des, enc, dec);
    Prepare(a, b, out, inp);
    Converse(a, b, key, ps);
    if AllRead(Views(a, b)) { NegotiationStarts(des, key, enc, dec, out, inp, ps); }
  }
}
