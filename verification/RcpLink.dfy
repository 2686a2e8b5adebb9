/**
 Two traces played against each other over a connection: what the sender writes
 the receiver reads, and the other way round.
 */
module RcpLink {
  import opened Wrappers
  import opened Octets
  import opened Rcp

  // ---------- running both ends against each other ----------

  /** What each end has still to do, and the bytes under way in each direction. */
  datatype Link = Link(a: seq<Event>, b: seq<Event>, down: seq<Byte>, up: seq<Byte>)

  /** One event of the sender or of the receiver.  Writing never waits; a read waits until its bytes are there. */
  function Play(l: Link, sender: bool): Option<Link> {
    if sender then
      if l.a == [] then None
      else match l.a[0]
      case Said(x) => Some(l.(a := l.a[1..], down := l.down + x))
      case Got(x) => if x <= l.up then Some(l.(a := l.a[1..], up := l.up[|x|..])) else None
    else if l.b == [] then None
    else match l.b[0]
      case Said(x) => Some(l.(b := l.b[1..], up := l.up + x))
      case Got(x) => if x <= l.down then Some(l.(b := l.b[1..], down := l.down[|x|..])) else None
  }

  function Replay(l: Link, sched: seq<bool>): Option<Link>
    decreases |sched|
  {
    if sched == [] then Some(l)
    else
      match Play(l, sched[0])
      case None => None
      case Some(l1) => Replay(l1, sched[1..])
  }

  const QUIET := Link([], [], [], [])

  /** Some interleaving takes both traces to their ends and leaves nothing under way. */
  ghost predicate Completes(l: Link) { exists sched :: Replay(l, sched) == Some(QUIET) }

  ghost predicate LockStep(a: seq<Event>, b: seq<Event>) { Completes(Link(a, b, [], [])) }

  /** Moves of the two ends do not get in each other's way. */
  lemma Diamond(l: Link, c: bool, l1: Link, l2: Link)
    requires Play(l, c) == Some(l1) && Play(l, !c) == Some(l2)
    ensures Play(l1, !c).Some? && Play(l1, !c) == Play(l2, c)
  {
    var (s, r) := if c then (l1, l2) else (l2, l1);
    var a, b := l.a[0], l.b[0];
    if a.Said? && b.Got? {
      assert b.b <= l.down + a.b && (l.down + a.b)[|b.b|..] == l.down[|b.b|..] + a.b;
    }
    if a.Got? && b.Said? {
      assert a.b <= l.up + b.b && (l.up + b.b)[|a.b|..] == l.up[|a.b|..] + b.b;
    }
    assert Play(s, false) == Play(r, true);
  }

  /** Whatever move is made, the conversation can still be completed. */
  lemma {:induction false} AnyMove(l: Link, sched: seq<bool>, c: bool)
    requires Replay(l, sched) == Some(QUIET) && Play(l, c).Some?
    ensures Completes(Play(l, c).value)
    decreases |sched|
  {
    var l1 := Play(l, c).value;
    if sched[0] == c {
      assert Replay(l1, sched[1..]) == Some(QUIET);
    } else {
      var l2 := Play(l, sched[0]).value;
      Diamond(l, c, l1, l2);
      AnyMove(l2, sched[1..], c);
      PlayFirst(l1, !c, Play(l2, c).value);
    }
  }

  /** However the ends are interleaved, neither is ever stuck before the end. */
  lemma {:induction false} AnyInterleaving(l: Link, sched: seq<bool>)
    requires Completes(l) && Replay(l, sched).Some?
    ensures Completes(Replay(l, sched).value)
    decreases |sched|
  {
    if sched != [] {
      var s :| Replay(l, s) == Some(QUIET);
      AnyMove(l, s, sched[0]);
      AnyInterleaving(Play(l, sched[0]).value, sched[1..]);
    }
  }

  function More(l: Link, a: seq<Event>, b: seq<Event>): Link { l.(a := l.a + a, b := l.b + b) }

  lemma {:induction false} ReplayMore(l: Link, sched: seq<bool>, a: seq<Event>, b: seq<Event>)
    requires Replay(l, sched).Some?
    ensures Replay(More(l, a, b), sched) == Some(More(Replay(l, sched).value, a, b))
    decreases |sched|
  {
    if sched != [] {
      var l1 := Play(l, sched[0]).value;
      if sched[0] { assert (l.a + a)[1..] == l.a[1..] + a; } else { assert (l.b + b)[1..] == l.b[1..] + b; }
      assert Play(More(l, a, b), sched[0]) == Some(More(l1, a, b));
      ReplayMore(l1, sched[1..], a, b);
    }
  }

  lemma {:induction false} ReplayThen(l: Link, s1: seq<bool>, s2: seq<bool>)
    requires Replay(l, s1).Some?
    ensures Replay(l, s1 + s2) == Replay(Replay(l, s1).value, s2)
    decreases |s1|
  {
    if s1 == [] {
      assert s1 + s2 == s2;
    } else {
      assert (s1 + s2)[0] == s1[0] && (s1 + s2)[1..] == s1[1..] + s2;
      ReplayThen(Play(l, s1[0]).value, s1[1..], s2);
    }
  }

  lemma LockStepJoin(a1: seq<Event>, b1: seq<Event>, a2: seq<Event>, b2: seq<Event>)
    requires LockStep(a1, b1) && LockStep(a2, b2)
    ensures LockStep(a1 + a2, b1 + b2)
  {
    var s1 :| Replay(Link(a1, b1, [], []), s1) == Some(QUIET);
    var s2 :| Replay(Link(a2, b2, [], []), s2) == Some(QUIET);
    ReplayMore(Link(a1, b1, [], []), s1, a2, b2);
    assert More(QUIET, a2, b2) == Link(a2, b2, [], []);
    ReplayThen(Link(a1 + a2, b1 + b2, [], []), s1, s2);
  }

  lemma LockStepNothing()
    ensures LockStep([], [])
  {
    assert Replay(QUIET, []) == Some(QUIET);
  }

  lemma PlayFirst(l: Link, sender: bool, l1: Link)
    requires Play(l, sender) == Some(l1) && Completes(l1)
    ensures Completes(l)
  {
    var s :| Replay(l1, s) == Some(QUIET);
    assert ([sender] + s)[1..] == s;
    assert Replay(l, [sender] + s) == Some(QUIET);
  }

  lemma SenderSays(x: seq<Byte>, a: seq<Event>, b: seq<Event>, down: seq<Byte>, up: seq<Byte>)
    requires Completes(Link(a, b, down + x, up))
    ensures Completes(Link([Said(x)] + a, b, down, up))
  {
    assert ([Said(x)] + a)[1..] == a;
    PlayFirst(Link([Said(x)] + a, b, down, up), true, Link(a, b, down + x, up));
  }

  lemma SenderGets(x: seq<Byte>, a: seq<Event>, b: seq<Event>, down: seq<Byte>)
    requires Completes(Link(a, b, down, []))
    ensures Completes(Link([Got(x)] + a, b, down, x))
  {
    assert ([Got(x)] + a)[1..] == a && x[|x|..] == [];
    PlayFirst(Link([Got(x)] + a, b, down, x), true, Link(a, b, down, []));
  }

  lemma ReceiverSays(x: seq<Byte>, a: seq<Event>, b: seq<Event>, down: seq<Byte>)
    requires Completes(Link(a, b, down, x))
    ensures Completes(Link(a, [Said(x)] + b, down, []))
  {
    assert ([Said(x)] + b)[1..] == b && [] + x == x;
    PlayFirst(Link(a, [Said(x)] + b, down, []), false, Link(a, b, down, x));
  }

  lemma ReceiverGets(x: seq<Byte>, a: seq<Event>, b: seq<Event>, up: seq<Byte>)
    requires Completes(Link(a, b, [], up))
    ensures Completes(Link(a, [Got(x)] + b, x, up))
  {
    assert ([Got(x)] + b)[1..] == b && x[|x|..] == [];
    PlayFirst(Link(a, [Got(x)] + b, x, up), false, Link(a, b, [], up));
  }

  lemma LockStepTurn(req: seq<Byte>, reply: seq<Byte>)
    ensures LockStep([Said(req), Got(reply)], [Got(req), Said(reply)])
  {
    LockStepNothing();
    SenderGets(reply, [], [], []);
    ReceiverSays(reply, [Got(reply)] + [], [], []);
    ReceiverGets(req, [Got(reply)] + [], [Said(reply)] + [], []);
    assert [] + req == req;
    SenderSays(req, [Got(reply)] + [], [Got(req)] + ([Said(reply)] + []), [], []);
    assert [Said(req)] + ([Got(reply)] + []) == [Said(req), Got(reply)];
    assert [Got(req)] + ([Said(reply)] + []) == [Got(req), Said(reply)];
  }

  lemma LockStepNote(msg: seq<Byte>)
    ensures LockStep([Said(msg)], [Got(msg)])
  {
    LockStepNothing();
    ReceiverGets(msg, [], [], []);
    assert [] + msg == msg;
    SenderSays(msg, [], [Got(msg)] + [], [], []);
    assert [Said(msg)] + [] == [Said(msg)] && [Got(msg)] + [] == [Got(msg)];
  }

  lemma LockStepHello()
    ensures LockStep([Got(OK)], [Said(OK)])
  {
    LockStepNothing();
    SenderGets(OK, [], [], []);
    ReceiverSays(OK, [Got(OK)] + [], [], []);
    assert [Got(OK)] + [] == [Got(OK)] && [Said(OK)] + [] == [Said(OK)];
  }

  /** Data and status go down, the verdict comes up: before the status is read, or after. */
  lemma LockStepVerdict(status: seq<Byte>, v: seq<Byte>, early: bool)
    ensures LockStep([Said(status), Got(v)], if early then [Said(v), Got(status)] else [Got(status), Said(v)])
  {
    LockStepTurn(status, v);
    if early {
      LockStepNothing();
      SenderGets(v, [], [], []);
      ReceiverGets(status, [Got(v)] + [], [], v);
      ReceiverSays(v, [Got(v)] + [], [Got(status)] + [], status);
      assert [] + status == status;
      SenderSays(status, [Got(v)] + [], [Said(v)] + ([Got(status)] + []), [], []);
      assert [Said(status)] + ([Got(v)] + []) == [Said(status), Got(v)];
      assert [Said(v)] + ([Got(status)] + []) == [Said(v), Got(status)];
    }
  }
}
