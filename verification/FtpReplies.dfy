/**
 What `getreply` makes of whole lines: where a reply ends, what the client
 learns from the replies the server prints, and the address of passive mode.
 */
module FtpReplies {
  import opened Wrappers
  import opened Octets
  import opened FtpReply

  // ---------- one line ----------

  /** The digits among the first three bytes, as a number. */
  function Code(l: seq<Byte>): nat
    decreases |l|
  {
    if l == [] then 0
    else
      var front := l[..|l| - 1];
      var c := l[|l| - 1];
      if |l| <= 3 && IsDigit(c) then Code(front) * 10 + (c - ZERO) else Code(front)
  }

  predicate Hyphen(l: seq<Byte>) { |l| > 3 && l[3] == HYPHEN }

  /** The first byte that is not NUL. */
  function Lead(l: seq<Byte>): int
    decreases |l|
  {
    if l == [] then 0
    else if Lead(l[..|l| - 1]) == 0 then l[|l| - 1]
    else Lead(l[..|l| - 1])
  }

  function Stored(l: seq<Byte>): seq<Byte> { if |l| <= REPLY_MAX then l else l[..REPLY_MAX] }

  lemma {:induction false} TakeLast(s: Scanner, l: seq<Byte>)
    requires l != []
    ensures TakeAll(s, l) == Take(TakeAll(s, l[..|l| - 1]), l[|l| - 1])
    decreases |l|
  {
    if |l| > 1 {
      TakeLast(Take(s, l[0]), l[1..]);
      assert l[..|l| - 1][1..] == l[1..][..|l| - 2] && l[1..][|l| - 2] == l[|l| - 1];
    } else {
      assert l[1..] == [];
    }
  }

  predicate Fresh(s: Scanner) { s == NewLine(s) }

  lemma {:induction false} LineCode(s: Scanner, l: seq<Byte>)
    requires Fresh(s)
    ensures var t := TakeAll(s, l);
      && t.dig == |l| && t.original == s.original
      && t.code == (if Hyphen(l) && s.continuation > 0 then 0 else Code(l))
      && t.continuation == s.continuation + (if Hyphen(l) then 1 else 0)
    decreases |l|
  {
    if l != [] {
      TakeLast(s, l);
      LineCode(s, l[..|l| - 1]);
    }
  }

  lemma {:induction false} LineLead(s: Scanner, l: seq<Byte>)
    requires Fresh(s)
    ensures TakeAll(s, l).n == Lead(l)
    decreases |l|
  {
    if l != [] {
      TakeLast(s, l);
      LineLead(s, l[..|l| - 1]);
    }
  }

  lemma StoredLast(l: seq<Byte>)
    requires l != []
    ensures var front := Stored(l[..|l| - 1]);
      Stored(l) == if |front| < REPLY_MAX then front + [l[|l| - 1]] else front
  {}

  lemma {:induction false} LineStored(s: Scanner, l: seq<Byte>)
    requires Fresh(s)
    ensures TakeAll(s, l).line == Stored(l)
    decreases |l|
  {
    if l != [] {
      TakeLast(s, l);
      LineStored(s, l[..|l| - 1]);
      StoredLast(l);
    }
  }

  /** What a line leaves in the variables of the scanner. */
  lemma LineScanned(s: Scanner, l: seq<Byte>)
    requires Fresh(s)
    ensures var t := TakeAll(s, l);
      && t.dig == |l| && t.original == s.original && t.n == Lead(l) && t.line == Stored(l)
      && t.code == (if Hyphen(l) && s.continuation > 0 then 0 else Code(l))
      && t.continuation == s.continuation + (if Hyphen(l) then 1 else 0)
  {
    LineCode(s, l);
    LineLead(s, l);
    LineStored(s, l);
  }

  /** A line is scanned and then judged. */
  lemma {:induction false} RunLine(s: Scanner, l: seq<Byte>, rest: seq<Byte>)
    requires LF !in l
    ensures var t := TakeAll(s, l);
      Run(s, l + [LF] + rest) == if GoesOn(t) then Run(NextLine(t), rest) else Complete(t, rest)
    decreases |l|
  {
    var input := l + [LF] + rest;
    if l == [] {
      assert input[1..] == rest;
    } else {
      RunLine(Take(s, l[0]), l[1..], rest);
      assert input[1..] == l[1..] + [LF] + rest;
    }
  }

  lemma {:induction false} RunTail(s: Scanner, l: seq<Byte>)
    requires LF !in l
    ensures Run(s, l) == Ended
    decreases |l|
  {
    if l != [] { RunTail(Take(s, l[0]), l[1..]); }
  }

  // ---------- where a reply ends ----------

  function Join(lines: seq<seq<Byte>>): seq<Byte>
    decreases |lines|
  {
    if lines == [] then [] else lines[0] + [LF] + Join(lines[1..])
  }

  lemma JoinFirst(lines: seq<seq<Byte>>, tail: seq<Byte>)
    requires lines != []
    ensures Join(lines) + tail == lines[0] + [LF] + (Join(lines[1..]) + tail)
  {}

  /** A line that ends a reply opened with `code`. */
  predicate Closes(l: seq<Byte>, code: nat) { Code(l) == code && !Hyphen(l) }

  /** The first line that closes, or the number of lines. */
  function ClosingLine(lines: seq<seq<Byte>>, code: nat): (j: nat)
    ensures j <= |lines|
    ensures forall i :: 0 <= i < j ==> !Closes(lines[i], code)
    ensures j < |lines| ==> Closes(lines[j], code)
    decreases |lines|
  {
    if lines == [] || Closes(lines[0], code) then 0 else 1 + ClosingLine(lines[1..], code)
  }

  /** The scanner stopped after line `l`, which gave `code`. */
  ghost predicate StoppedAfter(o: Outcome, l: seq<Byte>, code: nat, rest: seq<Byte>) {
    && o.Complete? && o.rest == rest
    && o.s.code == code && o.s.n == Lead(l) && o.s.line == Stored(l)
  }

  predicate NoLf(lines: seq<seq<Byte>>) { forall i :: 0 <= i < |lines| ==> LF !in lines[i] }

  /** One line of a reply opened with `s.original`. */
  lemma LaterLine(s: Scanner, l: seq<Byte>, rest: seq<Byte>)
    requires Fresh(s) && s.continuation > 0 && s.original != 0 && LF !in l
    ensures var t := NextLine(TakeAll(s, l));
      && Fresh(t) && t.continuation > 0 && t.original == s.original
      && if Closes(l, s.original) then StoppedAfter(Run(s, l + [LF] + rest), l, s.original, rest)
         else Run(s, l + [LF] + rest) == Run(t, rest)
  {
    RunLine(s, l, rest);
    LineScanned(s, l);
  }

  /** The scanner stopped after the first of `lines` that closes, or found none. */
  ghost predicate Framed(o: Outcome, lines: seq<seq<Byte>>, code: nat, tail: seq<Byte>) {
    var j := ClosingLine(lines, code);
    if j < |lines| then StoppedAfter(o, lines[j], code, Join(lines[j + 1..]) + tail) else o == Ended
  }

  lemma FramedNext(o: Outcome, lines: seq<seq<Byte>>, code: nat, tail: seq<Byte>)
    requires lines != [] && !Closes(lines[0], code) && Framed(o, lines[1..], code, tail)
    ensures Framed(o, lines, code, tail)
  {
    var j := ClosingLine(lines[1..], code);
    if j < |lines| - 1 { assert lines[1..][j + 1..] == lines[j + 2..]; }
  }

  /** The lines after the first, in a reply opened with `s.original`. */
  lemma {:induction false} RunLines(s: Scanner, lines: seq<seq<Byte>>, tail: seq<Byte>)
    requires Fresh(s) && s.continuation > 0 && s.original != 0 && NoLf(lines) && LF !in tail
    ensures Framed(Run(s, Join(lines) + tail), lines, s.original, tail)
    decreases |lines|
  {
    if lines == [] {
      assert Join(lines) + tail == tail;
      RunTail(s, tail);
    } else {
      JoinFirst(lines, tail);
      LaterLine(s, lines[0], Join(lines[1..]) + tail);
      if !Closes(lines[0], s.original) {
        RunLines(NextLine(TakeAll(s, lines[0])), lines[1..], tail);
        FramedNext(Run(s, Join(lines) + tail), lines, s.original, tail);
      }
    }
  }

  /**
   Where `getreply` stops, for every input: after the first line, unless that
   line has a hyphen after its code; then after the first later line that has
   the same code and no hyphen.
   */
  lemma ReplyEnds(lines: seq<seq<Byte>>, tail: seq<Byte>)
    requires lines != [] && NoLf(lines) && LF !in tail
    ensures var o := Run(START, Join(lines) + tail);
      var code := Code(lines[0]);
      if !Hyphen(lines[0]) || code == 0 then StoppedAfter(o, lines[0], code, Join(lines[1..]) + tail)
      else
        var j := ClosingLine(lines[1..], code) + 1;
        if j < |lines| then StoppedAfter(o, lines[j], code, Join(lines[j + 1..]) + tail) else o == Ended
  {
    var l := lines[0];
    var rest := Join(lines[1..]) + tail;
    JoinFirst(lines, tail);
    RunLine(START, l, rest);
    LineScanned(START, l);
    var t := TakeAll(START, l);
    if GoesOn(t) {
      RunLines(NextLine(t), lines[1..], tail);
      var j := ClosingLine(lines[1..], Code(l));
      assert j < |lines| - 1 ==> lines[1..][j + 1..] == lines[j + 2..];
    }
  }

  // ---------- the server's replies ----------

  /** A reply of the server: the texts of its `lreply` lines, then that of the closing `reply`. */
  datatype Reply = Reply(code: nat, more: seq<seq<Byte>>, text: seq<Byte>)

  predicate Legal(r: Reply) {
    100 <= r.code <= 999 && NoLf(r.more) && LF !in r.text
  }

  /** `lreply` and `reply`, without the line feed. */
  function Line(code: nat, last: bool, text: seq<Byte>): seq<Byte> {
    Digits(code) + (if last then [SPACE] else [HYPHEN, SPACE]) + text + [CR]
  }

  function LinesOf(code: nat, more: seq<seq<Byte>>, text: seq<Byte>): seq<seq<Byte>>
    decreases |more|
  {
    if more == [] then [Line(code, true, text)]
    else [Line(code, false, more[0])] + LinesOf(code, more[1..], text)
  }

  function Printed(r: Reply): seq<Byte> { Join(LinesOf(r.code, r.more, r.text)) }

  lemma ThreeDigits(n: nat)
    requires 100 <= n <= 999
    ensures Digits(n) == [ZERO + n / 100, ZERO + n / 10 % 10, ZERO + n % 10]
  {
    assert Digits(n / 10) == Digits(n / 100) + [ZERO + n / 10 % 10];
  }

  lemma {:induction false} CodeIgnoresRest(a: seq<Byte>, b: seq<Byte>)
    requires |a| == 3
    ensures Code(a + b) == Code(a)
    decreases |b|
  {
    var l := a + b;
    if b == [] {
      assert l == a;
    } else {
      assert l[..|l| - 1] == a + b[..|b| - 1];
      CodeIgnoresRest(a, b[..|b| - 1]);
    }
  }

  lemma {:induction false} LeadIsFirst(l: seq<Byte>)
    requires l != [] && l[0] != NUL
    ensures Lead(l) == l[0]
    decreases |l|
  {
    if |l| > 1 {
      LeadIsFirst(l[..|l| - 1]);
    } else {
      assert l[..0] == [];
    }
  }

  lemma CodeOfThree(x: Byte, y: Byte, z: Byte)
    requires IsDigit(x) && IsDigit(y) && IsDigit(z)
    ensures Code([x, y, z]) == (x - ZERO) * 100 + (y - ZERO) * 10 + (z - ZERO)
  {
    assert [x, y, z][..2] == [x, y] && [x, y][..1] == [x] && [x][..0] == [];
    assert Code([x]) == x - ZERO;
    assert Code([x, y]) == Code([x]) * 10 + (y - ZERO);
  }

  lemma LineFacts(code: nat, last: bool, text: seq<Byte>)
    requires 100 <= code <= 999 && LF !in text
    ensures var l := Line(code, last, text);
      Code(l) == code && (Hyphen(l) <==> !last) && Lead(l) == ZERO + code / 100 && LF !in l
  {
    ThreeDigits(code);
    var d := Digits(code);
    var sep: seq<Byte> := if last then [SPACE] else [HYPHEN, SPACE];
    var l := Line(code, last, text);
    assert l == d + (sep + text + [CR]);
    CodeIgnoresRest(d, sep + text + [CR]);
    CodeOfThree(d[0], d[1], d[2]);
    assert l[3] == sep[0] && l[0] == d[0];
    LeadIsFirst(l);
  }

  /** All the lines after the `lreply` lines of a reply: only the last one closes. */
  lemma {:induction false} LinesFacts(code: nat, more: seq<seq<Byte>>, text: seq<Byte>)
    requires 100 <= code <= 999 && NoLf(more) && LF !in text
    ensures var ls := LinesOf(code, more, text);
      && |ls| == |more| + 1 && NoLf(ls) && ClosingLine(ls, code) == |more|
      && ls[|more|] == Line(code, true, text)
      && (more != [] ==> ls[0] == Line(code, false, more[0]) && ls[1..] == LinesOf(code, more[1..], text))
    decreases |more|
  {
    if more == [] {
      LineFacts(code, true, text);
    } else {
      LineFacts(code, false, more[0]);
      LinesFacts(code, more[1..], text);
      var ls := LinesOf(code, more, text);
      assert ls[1..] == LinesOf(code, more[1..], text);
    }
  }

  lemma {:induction false} RunCut(s: Scanner, input: seq<Byte>, rest: seq<Byte>)
    requires Run(s, input).Complete?
    ensures Run(s, input + rest) == Complete(Run(s, input).s, Run(s, input).rest + rest)
    decreases |input|
  {
    var all := input + rest;
    assert all[0] == input[0] && all[1..] == input[1..] + rest;
    if input[0] != LF {
      RunCut(Take(s, input[0]), input[1..], rest);
    } else if GoesOn(s) {
      RunCut(NextLine(s), input[1..], rest);
    }
  }

  /** Whatever follows, `getreply` takes one reply of the server whole, and no more. */
  lemma ReplyReadBack(r: Reply, rest: seq<Byte>)
    requires Legal(r)
    ensures var o := Run(START, Printed(r) + rest);
      && StoppedAfter(o, Line(r.code, true, r.text), r.code, rest)
      && o.s.n == ZERO + r.code / 100
  {
    var ls := LinesOf(r.code, r.more, r.text);
    LinesFacts(r.code, r.more, r.text);
    LineFacts(r.code, true, r.text);
    ReplyEnds(ls, []);
    if r.more != [] {
      LineFacts(r.code, false, r.more[0]);
      LinesFacts(r.code, r.more[1..], r.text);
      var j := |r.more|;
      assert ls[j + 1..] == [];
    } else {
      assert ls[1..] == [];
    }
    assert Printed(r) + [] == Printed(r) && [] + rest == rest;
    RunCut(START, Printed(r), rest);
  }

  lemma OneLine(l: seq<Byte>)
    ensures Join([l]) == l + [LF]
  {
    assert [l][1..] == [];
    assert l + [LF] + [] == l + [LF];
  }

  /** A one-line reply is taken whole exactly when its text has no line feed in it. */
  lemma OneLineExactIff(code: nat, text: seq<Byte>, rest: seq<Byte>)
    requires 100 <= code <= 999
    ensures var o := Run(START, Line(code, true, text) + [LF] + rest);
      o.Complete? && (o.rest == rest <==> LF !in text)
  {
    var l := Line(code, true, text);
    if LF !in text {
      ReplyReadBack(Reply(code, [], text), rest);
      assert LinesOf(code, [], text) == [l];
      OneLine(l);
    } else {
      var k := Find(text, LF);
      var first := Digits(code) + [SPACE] + text[..k];
      var after := text[k + 1..] + [CR] + [LF] + rest;
      assert text == text[..k] + [LF] + text[k + 1..];
      assert l + [LF] + rest == first + [LF] + after;
      ThreeDigits(code);
      RunLine(START, first, after);
      LineScanned(START, first);
      assert first[3] == SPACE;
      assert |after| > |rest|;
    }
  }

  // ---------- a whole session ----------

  function PrintedAll(rs: seq<Reply>): seq<Byte>
    decreases |rs|
  {
    if rs == [] then [] else Printed(rs[0]) + PrintedAll(rs[1..])
  }

  /** What the client keeps of a reply: three digits, a space, the text and CR, as far as there is room. */
  ghost predicate Keeps(kept: seq<Byte>, r: Reply)
    requires Legal(r)
  {
    var digits := [ZERO + r.code / 100, ZERO + r.code / 10 % 10, ZERO + r.code % 10];
    var whole := digits + [SPACE] + r.text + [CR];
    kept == if |whole| <= REPLY_MAX then whole else whole[..REPLY_MAX]
  }

  lemma LineKept(r: Reply)
    requires Legal(r)
    ensures Keeps(Stored(Line(r.code, true, r.text)), r)
  {
    ThreeDigits(r.code);
  }

  /** One call of `getreply`, with a reply of the server next in the input. */
  method ReadReply(c: Control, ghost r: Reply, ghost rest: seq<Byte>) returns (digit: int)
    requires Legal(r) && Strip(c.cin) == Printed(r) + rest
    modifies c
    ensures c.code == r.code && digit == r.code / 100 && Strip(c.cin) == rest
    ensures Keeps(c.replyString, r)
  {
    ReplyReadBack(r, rest);
    LineKept(r);
    digit := c.GetReply(false);
  }

  /** The code, first digit and text of a reply. */
  ghost predicate Tells(code: nat, first: int, text: seq<Byte>, r: Reply) {
    Legal(r) && code == r.code && first == r.code / 100 && Keeps(text, r)
  }

  ghost predicate Told(codes: seq<nat>, classes: seq<int>, texts: seq<seq<Byte>>, rs: seq<Reply>) {
    && |codes| == |classes| == |texts| <= |rs|
    && forall i :: 0 <= i < |codes| ==> Tells(codes[i], classes[i], texts[i], rs[i])
  }

  lemma ToldMore(codes: seq<nat>, classes: seq<int>, texts: seq<seq<Byte>>, rs: seq<Reply>, code: nat, first: int,
                 text: seq<Byte>)
    requires Told(codes, classes, texts, rs) && |codes| < |rs| && Tells(code, first, text, rs[|codes|])
    ensures Told(codes + [code], classes + [first], texts + [text], rs)
  {}

  /** One call of `getreply` for each reply, with telnet commands anywhere among the bytes. */
  method ReadReplies(c: Control, ghost rs: seq<Reply>, ghost p: seq<Piece>, count: nat)
    returns (codes: seq<nat>, classes: seq<int>, texts: seq<seq<Byte>>)
    requires count == |rs| && forall i :: 0 <= i < |rs| ==> Legal(rs[i])
    requires Whole(p) && DataOf(p) == PrintedAll(rs) && c.cin == Wire(p)
    modifies c
    ensures |codes| == count && Told(codes, classes, texts, rs) && Strip(c.cin) == []
  {
    codes, classes, texts := [], [], [];
    StripGivesData(p, []);
    assert Wire(p) + [] == Wire(p) && PrintedAll(rs) + [] == PrintedAll(rs);
    while |codes| < count
      invariant Told(codes, classes, texts, rs) && Strip(c.cin) == PrintedAll(rs[|codes|..])
    {
      ghost var left := rs[|codes|..];
      assert left[1..] == rs[|codes| + 1..];
      var r := ReadReply(c, left[0], PrintedAll(left[1..]));
      ToldMore(codes, classes, texts, rs, c.code, r, c.replyString);
      codes, classes, texts := codes + [c.code], classes + [r], texts + [c.replyString];
    }
  }

  // ---------- passive mode ----------

  predicate IsSpace(c: Byte) { c == SPACE || 9 <= c <= 13 }

  function SkipSpace(s: seq<Byte>): (r: seq<Byte>)
    ensures |r| <= |s|
    decreases |s|
  {
    if s != [] && IsSpace(s[0]) then SkipSpace(s[1..]) else s
  }

  /** `%d` of `sscanf`. */
  function ScanInt(s: seq<Byte>): Option<(int, seq<Byte>)> {
    var t := SkipSpace(s);
    var signed := t != [] && (t[0] == 43 || t[0] == HYPHEN);
    var u := if signed then t[1..] else t;
    var v: int := Scan(u).0;
    if DigitSpan(u) == 0 then None
    else Some((if signed && t[0] == HYPHEN then -v else v, Scan(u).1))
  }

  /** `%d,%d,...`, with `k` numbers. */
  function ScanInts(s: seq<Byte>, k: nat): (r: Option<seq<int>>)
    ensures r.Some? ==> |r.value| == k
    decreases k, 0
  {
    if k == 0 then Some([])
    else match ScanInt(s)
      case None => None
      case Some(v) =>
        if k == 1 then Some([v.0]) else Prepend(v.0, AfterComma(v.1, k - 1))
  }

  function AfterComma(s: seq<Byte>, k: nat): (r: Option<seq<int>>)
    ensures r.Some? ==> |r.value| == k
    decreases k, 1
  {
    if s == [] || s[0] != COMMA then None else ScanInts(s[1..], k)
  }

  function Prepend(v: int, o: Option<seq<int>>): Option<seq<int>> {
    if o.None? then None else Some([v] + o.value)
  }

  /** The numbers of an address and port, each cut to a byte. */
  function Address(s: seq<Byte>, k: nat): Option<seq<Byte>> {
    match ScanInts(s, k)
    case None => None
    case Some(v) => Some(seq(k, i requires 0 <= i < k => v[i] % 256))
  }

  /** Numbers with commas between them. */
  function Commas(a: seq<Byte>): seq<Byte>
    decreases |a|
  {
    if a == [] then [] else if |a| == 1 then Digits(a[0]) else Digits(a[0]) + [COMMA] + Commas(a[1..])
  }

  lemma ScanIntDigits(n: nat, rest: seq<Byte>)
    requires rest == [] || !IsDigit(rest[0])
    ensures ScanInt(Digits(n) + rest) == Some((n as int, rest))
  {
    var s := Digits(n) + rest;
    assert IsDigit(s[0]) by { assert s[0] == Digits(n)[0]; }
    ScanDigits(n, rest);
  }

  lemma ScanLast(a: seq<Byte>, s: seq<Byte>)
    requires |a| == 1 && ScanInt(s) == Some((a[0] as int, []))
    ensures ScanInts(s, |a|) == Some(a)
  {
    assert a == [a[0]];
  }

  lemma ScanNext(a: seq<Byte>, s: seq<Byte>, more: seq<Byte>)
    requires |a| > 1 && ScanInt(s) == Some((a[0] as int, [COMMA] + more)) && ScanInts(more, |a| - 1) == Some(a[1..])
    ensures ScanInts(s, |a|) == Some(a)
  {
    assert ([COMMA] + more)[1..] == more;
    assert a == [a[0]] + a[1..];
  }

  lemma ScanCommas(a: seq<Byte>, more: seq<Byte>, s: seq<Byte>)
    requires |a| > 1 && s == Digits(a[0]) + ([COMMA] + more) && ScanInts(more, |a| - 1) == Some(a[1..])
    ensures ScanInts(s, |a|) == Some(a)
  {
    ScanIntDigits(a[0], [COMMA] + more);
    ScanNext(a, s, more);
  }

  lemma CommasSplit(a: seq<Byte>)
    requires a != []
    ensures Commas(a) == Digits(a[0]) + if |a| == 1 then [] else [COMMA] + Commas(a[1..])
  {}

  lemma {:induction false} CommasScanBack(a: seq<Byte>, s: seq<Byte>)
    requires s == Commas(a)
    ensures ScanInts(s, |a|) == Some(a)
    decreases |a|
  {
    if |a| == 1 {
      CommasSplit(a);
      ScanIntDigits(a[0], []);
      ScanLast(a, s);
    } else if |a| > 1 {
      var more := Commas(a[1..]);
      CommasScanBack(a[1..], more);
      CommasSplit(a);
      ScanCommas(a, more, s);
    }
  }

  lemma {:induction false} CommasBytes(a: seq<Byte>)
    ensures forall i :: 0 <= i < |Commas(a)| ==> IsDigit(Commas(a)[i]) || Commas(a)[i] == COMMA
    ensures a != [] ==> Commas(a) != [] && IsDigit(Commas(a)[0])
    decreases |a|
  {
    if |a| > 1 { CommasBytes(a[1..]); }
  }

  lemma {:induction false} TakeAllAppend(s: Scanner, a: seq<Byte>, b: seq<Byte>)
    ensures TakeAll(s, a + b) == TakeAll(TakeAll(s, a), b)
    decreases |a|
  {
    if a == [] {
      assert a + b == b;
    } else {
      assert (a + b)[1..] == a[1..] + b;
      TakeAllAppend(Take(s, a[0]), a[1..], b);
    }
  }

  /** Before the first digit nothing is collected. */
  lemma {:induction false} NothingCollected(s: Scanner, a: seq<Byte>)
    requires s.pflag == 1 && s.dig >= 3 && forall i :: 0 <= i < |a| ==> !IsDigit(a[i])
    ensures TakeAll(s, a).pflag == 1 && TakeAll(s, a).pasv == s.pasv && TakeAll(s, a).dig == s.dig + |a|
    decreases |a|
  {
    if a != [] { NothingCollected(Take(s, a[0]), a[1..]); }
  }

  lemma CollectOne(s: Scanner, c: Byte)
    requires s.pflag == 2 && s.dig > 4 && c != CR && c != CLOSE
    ensures Take(s, c).pflag == 2 && Take(s, c).pasv == s.pasv + [c] && Take(s, c).dig > 4
  {}

  lemma Regroup(p: seq<Byte>, a: seq<Byte>)
    requires a != []
    ensures p + [a[0]] + a[1..] == p + a
  {}

  /** From then on everything up to the closing parenthesis is. */
  lemma {:induction false} AllCollected(s: Scanner, a: seq<Byte>)
    requires s.pflag == 2 && s.dig > 4 && CR !in a && CLOSE !in a
    ensures TakeAll(s, a).pflag == 2 && TakeAll(s, a).pasv == s.pasv + a && TakeAll(s, a).dig > 4
    decreases |a|
  {
    if a != [] {
      CollectOne(s, a[0]);
      AllCollected(Take(s, a[0]), a[1..]);
      Regroup(s.pasv, a);
    }
  }

  lemma {:induction false} NothingMore(s: Scanner, a: seq<Byte>)
    requires s.pflag == 3
    ensures TakeAll(s, a).pasv == s.pasv
    decreases |a|
  {
    if a != [] { NothingMore(Take(s, a[0]), a[1..]); }
  }

  /** After code 227 the scanner watches for an address. */
  lemma PassiveCode()
    ensures var s := TakeAll(START, Digits(PASV_CODE)); s.pflag == 1 && s.dig == 3 && s.pasv == []
  {
    ThreeDigits(PASV_CODE);
    var d := Digits(PASV_CODE);
    var s1, s2, s3 := Take(START, 50), Take(Take(START, 50), 50), Take(Take(Take(START, 50), 50), 55);
    assert s1.code == 2 && s2.code == 22 && s3.code == 227;
    assert d == [50, 50, 55];
    assert TakeAll(s3, []) == s3;
    assert TakeAll(s2, [55]) == s3;
    assert [50, 55][1..] == [55] && d[1..] == [50, 55];
    assert TakeAll(s1, [50, 55]) == s3;
  }

  lemma TakeParts(s: Scanner, a: seq<Byte>, b: seq<Byte>, c: seq<Byte>, d: seq<Byte>)
    ensures TakeAll(s, a + b + c + d) == TakeAll(TakeAll(TakeAll(TakeAll(s, a), b), c), d)
  {
    TakeAllAppend(s, a + b + c, d);
    TakeAllAppend(s, a + b, c);
    TakeAllAppend(s, a, b);
  }

  lemma FirstCollected(s: Scanner, c: Byte)
    requires s.pflag == 1 && s.dig >= 4 && s.pasv == [] && IsDigit(c)
    ensures Take(s, c).pflag == 2 && Take(s, c).pasv == [c] && Take(s, c).dig > 4
  {}

  /** The address itself, from its first digit on. */
  lemma AddressTaken(s: Scanner, addr: seq<Byte>)
    requires s.pflag == 1 && s.dig >= 4 && s.pasv == []
    requires addr != [] && IsDigit(addr[0]) && CR !in addr && CLOSE !in addr
    ensures TakeAll(s, addr).pflag == 2 && TakeAll(s, addr).pasv == addr
  {
    FirstCollected(s, addr[0]);
    AllCollected(Take(s, addr[0]), addr[1..]);
    assert [addr[0]] + addr[1..] == addr;
  }

  lemma ClosingTaken(s: Scanner, after: seq<Byte>)
    requires s.pflag == 2
    ensures TakeAll(s, [CLOSE] + after).pasv == s.pasv
  {
    assert ([CLOSE] + after)[1..] == after;
    NothingMore(Take(s, CLOSE), after);
  }

  /** A 227 line: what stands between the first digit after the code and the closing parenthesis. */
  lemma AddressCollected(before: seq<Byte>, addr: seq<Byte>, after: seq<Byte>)
    requires |before| >= 2 && forall i :: 0 <= i < |before| ==> !IsDigit(before[i])
    requires addr != [] && IsDigit(addr[0]) && CR !in addr && CLOSE !in addr
    ensures TakeAll(START, Digits(PASV_CODE) + before + addr + ([CLOSE] + after)).pasv == addr
  {
    var d := Digits(PASV_CODE);
    PassiveCode();
    var s := TakeAll(START, d);
    NothingCollected(s, before);
    var t := TakeAll(s, before);
    AddressTaken(t, addr);
    ClosingTaken(TakeAll(t, addr), after);
    TakeParts(START, d, before, addr, [CLOSE] + after);
  }

  /** `Entering Passive Mode (`. */
  const PASSIVE_TEXT: seq<Byte> :=
    [69, 110, 116, 101, 114, 105, 110, 103, 32, 80, 97, 115, 115, 105, 118, 101, 32, 77, 111, 100, 101, 32, OPEN]

  /** The reply of `passive` for an address and a port, six bytes in all. */
  function PassiveReply(a: seq<Byte>): Reply { Reply(PASV_CODE, [], PASSIVE_TEXT + Commas(a) + [CLOSE]) }

  lemma OneLineRun(code: nat, text: seq<Byte>, rest: seq<Byte>)
    requires 100 <= code <= 999 && LF !in text
    ensures Run(START, Printed(Reply(code, [], text)) + rest) == Complete(TakeAll(START, Line(code, true, text)), rest)
    ensures TakeAll(START, Line(code, true, text)).code == code
  {
    var l := Line(code, true, text);
    OneLine(l);
    assert LinesOf(code, [], text) == [l];
    LineFacts(code, true, text);
    RunLine(START, l, rest);
    LineScanned(START, l);
  }

  lemma LineParts(code: nat, text: seq<Byte>, addr: seq<Byte>)
    ensures Line(code, true, text + addr + [CLOSE]) == Digits(code) + ([SPACE] + text) + addr + ([CLOSE] + [CR])
  {
  }

  lemma AddressRecovered(text: seq<Byte>, a: seq<Byte>, rest: seq<Byte>)
    requires |a| == 6 && text != [] && LF !in text && forall i :: 0 <= i < |text| ==> !IsDigit(text[i])
    ensures var o := Run(START, Printed(Reply(PASV_CODE, [], text + Commas(a) + [CLOSE])) + rest);
      o.Complete? && o.rest == rest && o.s.code == PASV_CODE && o.s.pasv == Commas(a)
  {
    var addr := Commas(a);
    CommasBytes(a);
    assert LF !in addr && CR !in addr && CLOSE !in addr;
    OneLineRun(PASV_CODE, text + addr + [CLOSE], rest);
    var before := [SPACE] + text;
    LineParts(PASV_CODE, text, addr);
    AddressCollected(before, addr, [CR]);
  }

  lemma AddressOf(s: seq<Byte>, a: seq<Byte>)
    requires ScanInts(s, |a|) == Some(a)
    ensures Address(s, |a|) == Some(a)
  {
    assert a == seq(|a|, i requires 0 <= i < |a| => a[i] % 256);
  }

  /** The client connects to the address and port that the server printed. */
  lemma PassiveAddressRecovered(a: seq<Byte>, rest: seq<Byte>)
    requires |a| == 6
    ensures var o := Run(START, Printed(PassiveReply(a)) + rest);
      o.Complete? && o.rest == rest && o.s.code == PASV_CODE && Address(o.s.pasv, |a|) == Some(a)
  {
    AddressRecovered(PASSIVE_TEXT, a, rest);
    CommasScanBack(a, Commas(a));
    AddressOf(Commas(a), a);
  }
}
