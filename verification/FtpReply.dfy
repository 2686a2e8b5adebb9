/**
 The replies of the FTP control connection: `reply` and `lreply` of
 `ftpd/ftpd.c`, and `getreply` of `ftp/ftp.c`, which scans them byte by byte
 with telnet commands in between.
 */
module FtpReply {
  import opened Octets

  const IAC: Byte := 255
  const DONT: Byte := 254
  const DO: Byte := 253
  const WONT: Byte := 252
  const WILL: Byte := 251
  const HYPHEN: Byte := 45
  const COMMA: Byte := 44
  const OPEN: Byte := 40
  const CLOSE: Byte := 41
  const PASV_CODE := 227
  const EOF_CODE := 221
  const LOST_CODE := 421
  const REPLY_MAX := 8191     // BUFSIZ - 1

  // ---------- telnet commands ----------

  /** How long the telnet command at the head of `s` is. */
  function CommandLength(s: seq<Byte>): (n: nat)
    requires s != [] && s[0] == IAC
    ensures 0 < n <= |s|
  {
    if |s| == 1 then 1
    else if s[1] < WILL || s[1] == IAC || |s| == 2 then 2
    else 3
  }

  /** The data without telnet commands. */
  function Strip(s: seq<Byte>): seq<Byte>
    decreases |s|
  {
    if s == [] then []
    else if s[0] == IAC then Strip(s[CommandLength(s)..])
    else [s[0]] + Strip(s[1..])
  }

  /** Options are refused: those offered with DONT and those asked for with WONT. */
  function Answer(s: seq<Byte>): seq<Byte>
    requires s != [] && s[0] == IAC
  {
    if |s| == 1 || s[1] < WILL || s[1] == IAC then []
    else [IAC, if s[1] == WILL || s[1] == WONT then DONT else WONT, if |s| > 2 then s[2] else 255]
  }

  /** What has to be written for the commands in the input. */
  function Answers(s: seq<Byte>): seq<Byte>
    decreases |s|
  {
    if s == [] then []
    else if s[0] == IAC then Answer(s) + Answers(s[CommandLength(s)..])
    else Answers(s[1..])
  }

  /** A whole telnet command: an option request with its option, or two bytes. */
  predicate IsCommand(s: seq<Byte>) {
    && |s| >= 2 && s[0] == IAC
    && |s| == if WILL <= s[1] <= DONT then 3 else 2
  }

  /** Data and whole commands in any order. */
  datatype Piece = Data(b: Byte) | Command(s: seq<Byte>)

  function Wire(p: seq<Piece>): seq<Byte>
    decreases |p|
  {
    if p == [] then [] else (if p[0].Data? then [p[0].b] else p[0].s) + Wire(p[1..])
  }

  function DataOf(p: seq<Piece>): seq<Byte>
    decreases |p|
  {
    if p == [] then [] else (if p[0].Data? then [p[0].b] else []) + DataOf(p[1..])
  }

  predicate Whole(p: seq<Piece>) {
    forall i :: 0 <= i < |p| ==> if p[i].Data? then p[i].b != IAC else IsCommand(p[i].s)
  }

  lemma StripCommand(c: seq<Byte>, rest: seq<Byte>)
    requires IsCommand(c)
    ensures Strip(c + rest) == Strip(rest)
  {
    var s := c + rest;
    assert s[0] == c[0] && s[1] == c[1] && CommandLength(s) == |c|;
    assert s[|c|..] == rest;
  }

  lemma StripData(b: Byte, rest: seq<Byte>)
    requires b != IAC
    ensures Strip([b] + rest) == [b] + Strip(rest)
  {
    assert ([b] + rest)[1..] == rest;
  }

  /** Wherever commands are put between data bytes, stripping gives the data. */
  lemma {:induction false} StripGivesData(p: seq<Piece>, rest: seq<Byte>)
    requires Whole(p)
    ensures Strip(Wire(p) + rest) == DataOf(p) + Strip(rest)
    decreases |p|
  {
    if p == [] {
      assert Wire(p) + rest == rest;
    } else {
      var head, more := if p[0].Data? then [p[0].b] else p[0].s, Wire(p[1..]);
      StripGivesData(p[1..], rest);
      Regroup(head, more, rest);
      if p[0].Data? {
        StripData(p[0].b, more + rest);
        Regroup(head, DataOf(p[1..]), Strip(rest));
      } else {
        StripCommand(p[0].s, more + rest);
        assert DataOf(p) == DataOf(p[1..]);
      }
    }
  }

  /** The refusal of an option that is offered or given up, or asked for or not wanted. */
  function Refusal(p: Piece): seq<Byte>
    requires p.Command? ==> IsCommand(p.s)
  {
    match p
    case Data(_) => []
    case Command(s) =>
      if s[1] == WILL || s[1] == WONT then [IAC, DONT, s[2]]
      else if s[1] == DO || s[1] == DONT then [IAC, WONT, s[2]]
      else []
  }

  function Refusals(p: seq<Piece>): seq<Byte>
    requires Whole(p)
    decreases |p|
  {
    if p == [] then [] else Refusal(p[0]) + Refusals(p[1..])
  }

  lemma Answered(out: seq<Byte>, all: seq<Byte>)
    requires all != [] && all[0] == IAC
    ensures (out + Answer(all)) + Answers(all[CommandLength(all)..]) == out + Answers(all)
    ensures out + [] == out
  {
    assert Answers(all) == Answer(all) + Answers(all[CommandLength(all)..]);
  }

  lemma AnswerData(b: Byte, rest: seq<Byte>)
    requires b != IAC
    ensures Answers([b] + rest) == Answers(rest)
  {
    assert ([b] + rest)[1..] == rest;
  }

  lemma AnswerCommand(c: seq<Byte>, rest: seq<Byte>)
    requires IsCommand(c)
    ensures Answers(c + rest) == Answer(c) + Answers(rest)
  {
    var s := c + rest;
    assert s[0] == c[0] && s[1] == c[1] && CommandLength(s) == |c| && Answer(s) == Answer(c);
    assert s[|c|..] == rest;
  }

  lemma AnswerPiece(p: Piece, rest: seq<Byte>)
    requires if p.Data? then p.b != IAC else IsCommand(p.s)
    ensures Answers((if p.Data? then [p.b] else p.s) + rest) == Refusal(p) + Answers(rest)
  {
    if p.Data? {
      AnswerData(p.b, rest);
    } else {
      AnswerCommand(p.s, rest);
    }
  }

  /** The options named by whole commands are refused in order, wherever the commands are. */
  lemma {:induction false} AnswersAreRefusals(p: seq<Piece>, rest: seq<Byte>)
    requires Whole(p)
    ensures Answers(Wire(p) + rest) == Refusals(p) + Answers(rest)
    decreases |p|
  {
    if p == [] {
      assert Wire(p) + rest == rest;
    } else {
      var head, more := if p[0].Data? then [p[0].b] else p[0].s, Wire(p[1..]);
      AnswersAreRefusals(p[1..], rest);
      AnswerPiece(p[0], more + rest);
      Regroup(head, more, rest);
      Regroup(Refusal(p[0]), Refusals(p[1..]), Answers(rest));
    }
  }

  lemma Regroup(a: seq<Byte>, b: seq<Byte>, c: seq<Byte>)
    ensures (a + b) + c == a + (b + c)
  {}

  // ---------- scanning without telnet commands ----------

  /** The variables of `getreply`; `line` is what `reply_string` holds. */
  datatype Scanner = Scanner(
    dig: nat, n: int, code: nat, original: nat, continuation: nat,
    pflag: nat, pasv: seq<Byte>, line: seq<Byte>)

  const START := Scanner(0, 0, 0, 0, 0, 0, [], [])

  function NewLine(s: Scanner): Scanner {
    s.(dig := 0, n := 0, code := 0, line := [])
  }

  /** 1 once code 227 is seen, and 2 from the first digit after the code on. */
  function Watch(pflag: nat, dig: nat, code: nat, c: Byte): nat {
    var seen := if pflag == 0 && code == PASV_CODE then 1 else pflag;
    if dig > 4 && seen == 1 && IsDigit(c) then 2 else seen
  }

  /** One byte of a line. */
  function Take(s: Scanner, c: Byte): Scanner {
    var dig := s.dig + 1;
    var code := if dig < 4 && IsDigit(c) then s.code * 10 + (c - ZERO) else s.code;
    var pflag := Watch(s.pflag, dig, code, c);
    var hyphen := dig == 4 && c == HYPHEN;
    s.(dig := dig,
       code := if hyphen && s.continuation > 0 then 0 else code,
       pflag := if pflag == 2 && (c == CR || c == CLOSE) then 3 else pflag,
       pasv := if pflag == 2 && c != CR && c != CLOSE then s.pasv + [c] else s.pasv,
       continuation := if hyphen then s.continuation + 1 else s.continuation,
       n := if s.n == 0 then c else s.n,
       line := if |s.line| < REPLY_MAX then s.line + [c] else s.line)
  }

  function TakeAll(s: Scanner, l: seq<Byte>): Scanner
    decreases |l|
  {
    if l == [] then s else TakeAll(Take(s, l[0]), l[1..])
  }

  predicate GoesOn(s: Scanner) { s.continuation > 0 && s.code != s.original }

  function NextLine(s: Scanner): Scanner {
    NewLine(s.(original := if s.original == 0 then s.code else s.original))
  }

  datatype Outcome = Complete(s: Scanner, rest: seq<Byte>) | Ended

  function Run(s: Scanner, input: seq<Byte>): Outcome
    decreases |input|
  {
    if input == [] then Ended
    else if input[0] != LF then Run(Take(s, input[0]), input[1..])
    else if GoesOn(s) then Run(NextLine(s), input[1..])
    else Complete(s, input[1..])
  }

  /** One byte of input that is not part of a telnet command. */
  lemma RunByte(s: Scanner, input: seq<Byte>)
    requires input != [] && input[0] != IAC
    ensures Run(s, Strip(input)) ==
      if input[0] != LF then Run(Take(s, input[0]), Strip(input[1..]))
      else if GoesOn(s) then Run(NextLine(s), Strip(input[1..]))
      else Complete(s, Strip(input[1..]))
  {
    var d := Strip(input);
    assert d[0] == input[0] && d[1..] == Strip(input[1..]);
  }

  // ---------- `getreply` ----------

  /** The client's end of the control connection. */
  class Control {
    var cin: seq<Byte>          // still to be read
    var cout: seq<Byte>         // written
    var code: nat
    var pasv: seq<Byte>
    var replyString: seq<Byte>
    var pending: bool           // cpend
    var lost: bool              // `lostpeer` was called

    // the local variables of `getreply`
    var dig: nat
    var n: int
    var original: nat
    var continuation: nat
    var pflag: nat

    ghost function View(): Scanner
      reads this
    {
      Scanner(dig, n, code, original, continuation, pflag, pasv, replyString)
    }

    constructor (cin: seq<Byte>)
      ensures this.cin == cin && cout == [] && !lost
    {
      this.cin, cout, code, pasv, replyString, pending, lost := cin, [], 0, [], [], false, false;
    }

    method Getc() returns (c: int)
      modifies this`cin
      ensures old(cin) == [] ==> c == -1 && cin == []
      ensures old(cin) != [] ==> c == old(cin)[0] && cin == old(cin)[1..]
    {
      if cin == [] {
        c := -1;
      } else {
        c := cin[0];
        cin := cin[1..];
      }
    }

    /** A telnet command whose first byte has been read: options are refused. */
    method Negotiate()
      modifies this`cin, this`cout
      ensures Strip(cin) == Strip([IAC] + old(cin)) && |cin| <= |old(cin)|
      ensures old(cin) != [] && (old(cin)[0] == WILL || old(cin)[0] == WONT) ==>
        cout == old(cout) + [IAC, DONT, if |old(cin)| > 1 then old(cin)[1] else 255]
      ensures old(cin) != [] && (old(cin)[0] == DO || old(cin)[0] == DONT) ==>
        cout == old(cout) + [IAC, WONT, if |old(cin)| > 1 then old(cin)[1] else 255]
      ensures old(cin) == [] || old(cin)[0] < WILL || old(cin)[0] == IAC ==> cout == old(cout)
      ensures cout + Answers(cin) == old(cout) + Answers([IAC] + old(cin)) && old(cout) <= cout
    {
      ghost var all := [IAC] + cin;
      assert all[1..] == cin;
      var c := Getc();
      if c == WILL || c == WONT {
        c := Getc();
        cout := cout + [IAC, DONT, if c < 0 then 255 else c];
      } else if c == DO || c == DONT {
        c := Getc();
        cout := cout + [IAC, WONT, if c < 0 then 255 else c];
      }
      assert cin == all[CommandLength(all)..];
      Answered(old(cout), all);
    }

    /** Collect the address of a passive mode reply. */
    method WatchAddress(c: Byte)
      modifies this`pflag, this`pasv
      ensures var f := Watch(old(pflag), dig, code, c);
        && pflag == (if f == 2 && (c == CR || c == CLOSE) then 3 else f)
        && pasv == (if f == 2 && c != CR && c != CLOSE then old(pasv) + [c] else old(pasv))
    {
      if pflag == 0 && code == PASV_CODE {
        pflag := 1;
      }
      if dig > 4 && pflag == 1 && IsDigit(c) {
        pflag := 2;
      }
      if pflag == 2 {
        if c != CR && c != CLOSE {
          pasv := pasv + [c];
        } else {
          pflag := 3;
        }
      }
    }

    /** What the loop of `getreply` does with one byte of a line. */
    method TakeByte(c: Byte)
      modifies this`dig, this`n, this`code, this`continuation, this`pflag, this`pasv, this`replyString
      ensures View() == Take(old(View()), c)
    {
      dig := dig + 1;
      if dig < 4 && IsDigit(c) {
        code := code * 10 + (c - ZERO);
      }
      WatchAddress(c);
      if dig == 4 && c == HYPHEN {
        if continuation > 0 {
          code := 0;
        }
        continuation := continuation + 1;
      }
      if n == 0 {
        n := c;
      }
      if |replyString| < REPLY_MAX {
        replyString := replyString + [c];
      }
    }

    /** The end of a line that does not end the reply. */
    method AwaitLine()
      modifies this`dig, this`n, this`code, this`original, this`replyString
      ensures View() == NextLine(old(View()))
    {
      if original == 0 {
        original := code;
      }
      dig, n, code, replyString := 0, 0, 0, [];
    }

    /** The loop of `getreply`, up to the line feed that ends the reply or the end of the input. */
    method ScanReply() returns (eof: bool)
      modifies this`cin, this`cout
      modifies this`dig, this`n, this`code, this`original, this`continuation, this`pflag, this`pasv, this`replyString
      ensures eof ==> Run(old(View()), Strip(old(cin))) == Ended && cin == []
      ensures !eof ==> Run(old(View()), Strip(old(cin))) == Complete(View(), Strip(cin))
      ensures cout + Answers(cin) == old(cout) + Answers(old(cin)) && old(cout) <= cout
    {
      while true
        invariant cout + Answers(cin) == old(cout) + Answers(old(cin)) && old(cout) <= cout
        invariant Run(View(), Strip(cin)) == Run(old(View()), Strip(old(cin)))
        decreases |cin|
      {
        if cin != [] && cin[0] != IAC { RunByte(View(), cin); }
        ghost var was := cin;
        var c := Getc();
        if c == IAC {
          assert [IAC] + cin == was;
          Negotiate();
        } else if c == -1 {
          return true;
        } else if c != LF {
          TakeByte(c);
        } else if continuation > 0 && code != original {
          AwaitLine();
        } else {
          return false;
        }
      }
    }

    /**
     `getreply`.  What it finds and where it stops depends only on the input
     without telnet commands.
     */
    method GetReply(expecteof: bool) returns (r: int)
      modifies this
      ensures match Run(START, Strip(old(cin)))
        case Complete(s, rest) =>
          && r == s.n - ZERO && code == s.code && pasv == s.pasv && replyString == s.line
          && Strip(cin) == rest
          && (pending <==> old(pending) && s.n == ZERO + 1)
          && (lost <==> old(lost) || s.code == LOST_CODE || s.original == LOST_CODE)
        case Ended =>
          && r == (if expecteof then 0 else 4) && code == (if expecteof then EOF_CODE else LOST_CODE)
          && cin == [] && lost == (old(lost) || !expecteof) && pending == old(pending)
      ensures cout + Answers(cin) == old(cout) + Answers(old(cin)) && old(cout) <= cout
    {
      original, continuation, pflag := 0, 0, 0;
      dig, n, code, pasv, replyString := 0, 0, 0, [], [];
      assert View() == START;
      var eof := ScanReply();
      if eof {
        if expecteof {
          code := EOF_CODE;
          return 0;
        }
        lost := true;
        code := LOST_CODE;
        return 4;
      }
      if n != ZERO + 1 {
        pending := false;
      }
      if code == LOST_CODE || original == LOST_CODE {
        lost := true;
      }
      return n - ZERO;
    }
  }
}
