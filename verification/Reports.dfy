/**
 What `ifconfig` prints for an interface in each of its built-in formats, line
 by line, in terms of which values the system has and which of them are set.
 */
module Reports {
  import opened Wrappers
  import opened Template
  import opened Printif
  import opened Builtin

  /**
   One interface: the values that the system can be asked for, those of them
   that are set, and what each prints, given the arguments after its name.
   */
  datatype Iface = Iface(has: set<Value>, isSet: set<Value>, text: (Value, seq<string>) -> string)

  /** The values that every system can be asked for. */
  const COMMON := {Addr, Netmask, Brdaddr, Dstaddr, Flags, Mtu, Metric, Index, First}

  function Spaces(n: nat): string { seq(n, i => ' ') }

  function Pad(col: nat, goal: nat): string { if col < goal then Spaces(goal - col) else "" }

  /** The handlers are those of the interface `i`. */
  ghost predicate Describes(env: Env, i: Iface) {
    && Usual(env) && IsTable(env.formats)
    && COMMON <= i.has && i.isSet <= i.has && (Hwtype in i.has ==> Hwaddr in i.has)
    && (forall v :: HandlerText(Ask(v)) in env.kinds <==> v in i.has)
    && (forall v :: v in i.has ==> KindOf(env, HandlerText(Ask(v))) == Choose(if v in i.isSet then 0 else 1))
    && (forall v :: KindOf(env, HandlerText(Print(v))) == Leaf)
    && (forall v, args, col :: env.leaf(HandlerText(Print(v)), args, col) == i.text(v, args))
    && KindOf(env, HandlerText(IfKnown)) == Exists && KindOf(env, HandlerText(Complain)) == Error
    && KindOf(env, "format") == Format
    && IsLeaf(env, Line, "\n") && IsLeaf(env, NewLine, "\n") && IsLeaf(env, Stop, "\t") && IsLeaf(env, Exit, "")
    && KindOf(env, HandlerText(Tab)) == Leaf
    && (forall col :: env.leaf(HandlerText(Tab), ["10"], col) == Pad(col, 10))
    && (forall col :: env.leaf(HandlerText(Tab), ["16"], col) == Pad(col, 16))
    && Printable(i.text(Name, []))
  }

  ghost predicate IsLeaf(env: Env, h: Handler, s: string) {
    KindOf(env, HandlerText(h)) == Leaf && forall args, col :: env.leaf(HandlerText(h), args, col) == s
  }

  predicate Printable(s: string) { '\n' !in s && '\t' !in s }

  // ---------- the reports ----------

  /** A value of the GNU format, at column 16 of a line of its own. */
  function GnuRow(i: Iface, v: Value): string { GnuHead(v) + Pad(|GnuHead(v)|, 16) + i.text(v, []) + "\n" }

  /** The rows of the values that are set. */
  function GnuRows(i: Iface, vs: seq<Value>): string
    decreases |vs|
  {
    if vs == [] then "" else (if vs[0] in i.isSet then GnuRow(i, vs[0]) else "") + GnuRows(i, vs[1..])
  }

  function GnuReport(i: Iface): string {
    i.text(Name, []) + (" (" + (i.text(Index, []) + ("):" + ("\n" + (GnuRows(i, GNU_ROWS) + GnuRows(i, GNU_LINKS))))))
  }

  function IfSet(i: Iface, v: Value, s: string): string { if v in i.isSet then s else "" }

  /** A value behind its heading, if it is set. */
  function Headed(i: Iface, style: Style, v: Value): string { IfSet(i, v, HeadText(style, v) + i.text(v, [])) }

  function NetToolsLinkLine(i: Iface, col: nat): string {
    var name := i.text(Name, []);
    var encap := IfSet(i, Hwtype, Pad(col + |name|, 10) + ("Link encap:" + i.text(Hwtype, [])));
    name + ((if Hwtype in i.has then encap + Headed(i, InNetTools, Hwaddr) else "") + "\n")
  }

  function NetToolsInetLine(i: Iface): string {
    IfSet(i, Addr, Spaces(10) + ("inet addr:" + (i.text(Addr, [])
      + (Headed(i, InNetTools, Brdaddr) + (Headed(i, InNetTools, Netmask) + "\n")))))
  }

  function NetToolsFlagsLine(i: Iface): string {
    Spaces(10) + (i.text(Flags, []) + (Headed(i, InNetTools, Mtu) + (Headed(i, InNetTools, Metric) + "\n")))
  }

  function NetToolsQueueLine(i: Iface): string {
    if Txqlen in i.has then IfSet(i, Txqlen, Spaces(10) + ("txqueuelen:" + i.text(Txqlen, []))) + "\n" else ""
  }

  function NetToolsReport(i: Iface, col: nat): string {
    NetToolsLinkLine(i, col) + (NetToolsInetLine(i) + (NetToolsFlagsLine(i) + (NetToolsQueueLine(i) + "\n")))
  }

  /** The flags by name, in angle brackets. */
  function FlagList(i: Iface): string { "<" + (i.text(Flags, ["string", ","]) + ">") }

  function Octets4(i: Iface): string {
    i.text(Netmask, ["0", "%02x"]) + (i.text(Netmask, ["1", "%02x"])
      + (i.text(Netmask, ["2", "%02x"]) + i.text(Netmask, ["3", "%02x"])))
  }

  function UnixInetLine(i: Iface, more: string): string {
    IfSet(i, Addr, "\t" + ("inet " + (i.text(Addr, []) + (" netmask " + (Octets4(i) + (Headed(i, InUnix, Brdaddr) + more))))))
  }

  function UnixLinkLine(i: Iface): string {
    if Hwtype in i.has then IfSet(i, Hwtype, "\t" + i.text(Hwtype, [])) + (Headed(i, InUnix, Hwaddr) + "\n") else ""
  }

  function UnixReport(i: Iface): string {
    i.text(Name, []) + (": flags=" + (i.text(Flags, ["number"]) + (FlagList(i)
      + (Headed(i, InUnix, Mtu) + ("\n" + (UnixInetLine(i, "\n") + UnixLinkLine(i)))))))
  }

  function OsfReport(i: Iface): string {
    i.text(Name, []) + (": flags=" + (i.text(Flags, ["number", "%x"]) + (FlagList(i)
      + ("\n" + UnixInetLine(i, Headed(i, InOsf, Mtu) + "\n")))))
  }

  /** What an interface that exists prints in a format, from column `col` on. */
  function Report(i: Iface, f: Format, col: nat): string {
    match f
    case Default => (if First in i.isSet then "" else "\n") + GnuReport(i)
    case Gnu => (if First in i.isSet then "" else "\n") + GnuReport(i)
    case GnuOneEntry => GnuReport(i)
    case NetTools => NetToolsReport(i, col)
    case Unix => UnixReport(i)
    case Osf => OsfReport(i)
    case CheckExistance => ""
  }

  // ---------- printing strings ----------

  lemma {:induction false} PutMore(o: Out, a: string, b: string)
    ensures PutString(PutString(o, a), b) == PutString(o, a + b)
    decreases |a|
  {
    if a == "" {
      assert a + b == b;
    } else {
      assert (a + b)[1..] == a[1..] + b;
      PutMore(PutChar(o, a[0]), a[1..], b);
    }
  }

  /** The string is printed, and nothing else; the other stream is left alone. */
  lemma {:induction false} PutIs(o: Out, s: string)
    ensures PutString(o, s) == o.(out := o.out + s, col := PutString(o, s).col)
    decreases |s|
  {
    if s != "" {
      PutIs(PutChar(o, s[0]), s[1..]);
      assert o.out + [s[0]] + s[1..] == o.out + s;
    } else {
      assert o.out + s == o.out;
    }
  }

  /** Characters other than line feeds and tabs take one column each. */
  lemma {:induction false} ColumnAfter(o: Out, s: string)
    requires Printable(s)
    ensures PutString(o, s).col == o.col + |s|
    decreases |s|
  {
    if s != "" { ColumnAfter(PutChar(o, s[0]), s[1..]); }
  }

  /** A line feed ends the line, and a tab goes to the next multiple of eight. */
  lemma ColumnAfterBreak(o: Out, s: string)
    ensures PutString(o, s + "\n").col == 0
    ensures var c := PutString(o, s + "\t").col; c % 8 == 0 && PutString(o, s).col < c <= PutString(o, s).col + 8
  {
    PutMore(o, s, "\n");
    PutMore(o, s, "\t");
    var p := PutString(o, s);
    assert "\n"[1..] == "" && "\t"[1..] == "";
    assert PutString(p, "\n") == PutChar(p, '\n') && PutString(p, "\t") == PutChar(p, '\t');
  }

  lemma PutNothing(o: Out)
    ensures PutString(o, "") == o
  {}

  // ---------- what a template over the words prints ----------

  /** Every template can be evaluated. */
  ghost predicate Ready(env: Env) { Acyclic(env) && forall t {:trigger Below(env, t, 4)} :: Below(env, t, 4) }

  lemma IsReady(env: Env, i: Iface)
    requires Describes(env, i)
    ensures Ready(env)
  {
    TableIsAcyclic(env);
    forall t ensures Below(env, t, 4) { AllBelow(env, t); }
  }

  ghost function Value4(env: Env, t: Tmpl, o: Out): Out
    requires Ready(env)
  {
    Eval(env, t, o, 4)
  }

  ghost function Show(env: Env, t: Src, o: Out): Out
    requires Ready(env)
  {
    Value4(env, BodyTree(t, Nil), o)
  }

  lemma SubReady(env: Env, id: string, a: Args)
    requires Ready(env)
    ensures SubBelow(env, id, a, 4) && ArgsBelow(env, a, 4)
  {
    assert Below(env, Cons(Sub(id, a), Nil), 4);
  }

  lemma EvalCons(env: Env, i: Item, rest: Tmpl, o: Out, r: nat)
    requires Acyclic(env) && Below(env, Cons(i, rest), r)
    ensures Eval(env, Cons(i, rest), o, r) == Eval(env, rest, EvalItem(env, i, o, r), r)
    ensures i.Lit? ==> EvalItem(env, i, o, r) == PutChar(o, i.c)
    ensures i.Sub? ==> SubBelow(env, i.id, i.args, r) && EvalItem(env, i, o, r) == Handle(env, i.id, i.args, o, r)
  {}

  lemma {:induction false} LitsValue(env: Env, s: string, rest: Tmpl, o: Out)
    requires Ready(env)
    ensures Value4(env, Lits(s, rest), o) == Value4(env, rest, PutString(o, s))
    decreases |s|
  {
    if s != "" {
      assert Below(env, Lits(s, rest), 4);
      EvalCons(env, Lit(s[0]), Lits(s[1..], rest), o, 4);
      LitsValue(env, s[1..], rest, PutChar(o, s[0]));
    }
  }

  ghost function Handled(env: Env, h: Handler, a: SrcArgs, o: Out): Out
    requires Ready(env)
  {
    SubReady(env, HandlerText(h), ArgTrees(a));
    Handle(env, HandlerText(h), ArgTrees(a), o, 4)
  }

  lemma ShowRun(env: Env, w: Word, rest: Src, o: Out)
    requires Ready(env)
    ensures Show(env, Run(w, rest), o) == Show(env, rest, PutString(o, WordText(w)))
  {
    LitsValue(env, WordText(w), BodyTree(rest, Nil), o);
  }

  lemma ShowUse(env: Env, h: Handler, a: SrcArgs, rest: Src, o: Out)
    requires Ready(env)
    ensures Show(env, Use(h, a, rest), o) == Show(env, rest, Handled(env, h, a, o))
  {
    assert Below(env, BodyTree(Use(h, a, rest), Nil), 4);
    EvalCons(env, Sub(HandlerText(h), ArgTrees(a)), BodyTree(rest, Nil), o, 4);
  }

  /** What follows a template is printed after it. */
  lemma {:induction false} BodyValue(env: Env, t: Src, rest: Tmpl, o: Out)
    requires Ready(env)
    ensures Value4(env, BodyTree(t, rest), o) == Value4(env, rest, Show(env, t, o))
    decreases t
  {
    match t
    case End =>
    case Run(w, more) =>
      LitsValue(env, WordText(w), BodyTree(more, rest), o);
      ShowRun(env, w, more, o);
      BodyValue(env, more, rest, PutString(o, WordText(w)));
    case Use(h, a, more) =>
      assert Below(env, BodyTree(t, rest), 4);
      EvalCons(env, Sub(HandlerText(h), ArgTrees(a)), BodyTree(more, rest), o, 4);
      ShowUse(env, h, a, more, o);
      BodyValue(env, more, rest, Handled(env, h, a, o));
  }

  // ---------- the handlers ----------

  lemma Trees(t: Src, u: Src)
    ensures ArgTrees(One(t, No)) == Arg(BodyTree(t, Nil), NoArg)
    ensures ArgTrees(One(t, One(u, No))) == Arg(BodyTree(t, Nil), Arg(BodyTree(u, Nil), NoArg))
  {
    assert ArgTrees(No) == NoArg;
    assert ArgTrees(One(u, No)) == Arg(BodyTree(u, Nil), ArgTrees(No));
    assert ArgTrees(One(t, One(u, No))) == Arg(BodyTree(t, Nil), ArgTrees(One(u, No)));
  }

  lemma TextsOf(t: Tmpl, u: Tmpl)
    ensures Texts(Arg(t, NoArg)) == [Text(t)] && Texts(Arg(t, Arg(u, NoArg))) == [Text(t), Text(u)]
  {
    assert Texts(Arg(u, NoArg)) == [Text(u)] + Texts(NoArg);
    assert Texts(Arg(t, Arg(u, NoArg))) == [Text(t)] + Texts(Arg(u, NoArg));
  }

  lemma WordArg(w: Word)
    ensures Text(BodyTree(Run(w, End), Nil)) == WordText(w)
  {
    LitsText(WordText(w), Nil);
    assert WordText(w) + "" == WordText(w);
  }

  lemma HandleIs(env: Env, id: string, a: Args, o: Out, r: nat)
    requires Acyclic(env) && SubBelow(env, id, a, r)
    ensures KindOf(env, id) == Leaf ==> Handle(env, id, a, o, r) == PutString(o, env.leaf(id, Texts(a), o.col))
    ensures KindOf(env, id).Choose? ==> Handle(env, id, a, o, r) == EvalArg(env, a, KindOf(env, id).nr, o, r)
    ensures KindOf(env, id) == Exists && a.Arg? ==>
      Handle(env, id, a, o, r) == EvalArg(env, a, if Text(a.t) in env.kinds then 1 else 2, o, r)
    ensures KindOf(env, id) == Format ==> Handle(env, id, a, o, r) == EvalNames(env, a, o, r)
    ensures KindOf(env, id) == Error ==> Handle(env, id, a, o, r) == Switch(EvalAll(env, a, Switch(o), r))
  {}

  /** A handler that prints a string. */
  lemma ShowLeaf(env: Env, h: Handler, a: SrcArgs, rest: Src, o: Out)
    requires Ready(env) && KindOf(env, HandlerText(h)) == Leaf
    ensures Show(env, Use(h, a, rest), o)
         == Show(env, rest, PutString(o, env.leaf(HandlerText(h), Texts(ArgTrees(a)), o.col)))
  {
    ShowUse(env, h, a, rest, o);
    SubReady(env, HandlerText(h), ArgTrees(a));
    HandleIs(env, HandlerText(h), ArgTrees(a), o, 4);
  }

  /** A handler that prints one of its arguments. */
  lemma ShowChosen(env: Env, h: Handler, nr: nat, t: Src, rest: Src, o: Out)
    requires Ready(env) && KindOf(env, HandlerText(h)) == Choose(nr) && nr <= 1
    ensures Show(env, Builtin.Call(h, t, rest), o) == Show(env, rest, if nr == 0 then Show(env, t, o) else o)
  {
    var a := Arg(BodyTree(t, Nil), NoArg);
    ShowUse(env, h, One(t, No), rest, o);
    Trees(t, t);
    SubReady(env, HandlerText(h), a);
    HandleIs(env, HandlerText(h), a, o, 4);
    ChosenArg(env, BodyTree(t, Nil), NoArg, nr, o);
  }

  lemma ShowChosen2(env: Env, h: Handler, nr: nat, t: Src, u: Src, rest: Src, o: Out)
    requires Ready(env) && KindOf(env, HandlerText(h)) == Choose(nr) && nr <= 1
    ensures Show(env, Call2(h, t, u, rest), o) == Show(env, rest, Show(env, if nr == 0 then t else u, o))
  {
    var b := Arg(BodyTree(u, Nil), NoArg);
    ShowUse(env, h, One(t, One(u, No)), rest, o);
    Trees(t, u);
    SubReady(env, HandlerText(h), Arg(BodyTree(t, Nil), b));
    HandleIs(env, HandlerText(h), Arg(BodyTree(t, Nil), b), o, 4);
    ChosenArg(env, BodyTree(t, Nil), b, nr, o);
  }

  lemma ShowExists(env: Env, v: Value, t: Src, rest: Src, o: Out)
    requires Ready(env) && KindOf(env, HandlerText(IfKnown)) == Exists
    ensures Show(env, If(v, t, rest), o) == Show(env, rest, if HandlerText(Ask(v)) in env.kinds then Show(env, t, o) else o)
  {
    var q, u := Run(Query(v), End), Arg(BodyTree(t, Nil), NoArg);
    var a := Arg(BodyTree(q, Nil), u);
    ShowUse(env, IfKnown, One(q, One(t, No)), rest, o);
    Trees(q, t);
    SubReady(env, HandlerText(IfKnown), a);
    HandleIs(env, HandlerText(IfKnown), a, o, 4);
    WordArg(Query(v));
    ChosenArg(env, BodyTree(q, Nil), u, if HandlerText(Ask(v)) in env.kinds then 1 else 2, o);
  }

  /** A value without arguments. */
  lemma ShowVal(env: Env, i: Iface, v: Value, rest: Src, o: Out)
    requires Describes(env, i) && Ready(env)
    ensures Show(env, Val(v, rest), o) == Show(env, rest, PutString(o, i.text(v, [])))
  {
    ShowLeaf(env, Print(v), No, rest, o);
  }

  lemma WordArgs(w: Word, x: Word)
    ensures Texts(ArgTrees(One(Run(w, End), No))) == [WordText(w)]
    ensures Texts(ArgTrees(One(Run(w, End), One(Run(x, End), No)))) == [WordText(w), WordText(x)]
  {
    WordArg(w);
    WordArg(x);
    Trees(Run(w, End), Run(x, End));
    TextsOf(BodyTree(Run(w, End), Nil), BodyTree(Run(x, End), Nil));
  }

  lemma ShowVal1(env: Env, i: Iface, v: Value, w: Word, rest: Src, o: Out)
    requires Describes(env, i) && Ready(env)
    ensures Show(env, Builtin.Call(Print(v), Run(w, End), rest), o) == Show(env, rest, PutString(o, i.text(v, [WordText(w)])))
  {
    ShowLeaf(env, Print(v), One(Run(w, End), No), rest, o);
    WordArgs(w, w);
  }

  lemma ShowVal2(env: Env, i: Iface, v: Value, w: Word, x: Word, rest: Src, o: Out)
    requires Describes(env, i) && Ready(env)
    ensures Show(env, Call2(Print(v), Run(w, End), Run(x, End), rest), o)
         == Show(env, rest, PutString(o, i.text(v, [WordText(w), WordText(x)])))
  {
    ShowLeaf(env, Print(v), One(Run(w, End), One(Run(x, End), No)), rest, o);
    WordArgs(w, x);
  }

  lemma ShowBreak(env: Env, i: Iface, h: Handler, rest: Src, o: Out)
    requires Describes(env, i) && Ready(env) && (h == Line || h == NewLine || h == Stop)
    ensures Show(env, Use(h, No, rest), o) == Show(env, rest, PutString(o, if h == Stop then "\t" else "\n"))
  {
    ShowLeaf(env, h, No, rest, o);
  }

  lemma ShowTab(env: Env, i: Iface, w: Word, rest: Src, o: Out)
    requires Describes(env, i) && Ready(env) && (w == Column10 || w == Column16)
    ensures Show(env, At(w, rest), o) == Show(env, rest, PutString(o, Pad(o.col, if w == Column10 then 10 else 16)))
  {
    ShowLeaf(env, Tab, One(Run(w, End), No), rest, o);
    WordArgs(w, w);
  }

  /** `${v?}{t}` prints `t` if the value is set, and nothing otherwise. */
  lemma ShowAsk(env: Env, i: Iface, v: Value, t: Src, rest: Src, o: Out)
    requires Describes(env, i) && Ready(env) && v in i.has
    ensures Show(env, Builtin.Call(Ask(v), t, rest), o) == Show(env, rest, if v in i.isSet then Show(env, t, o) else o)
  {
    ShowChosen(env, Ask(v), if v in i.isSet then 0 else 1, t, rest, o);
  }

  /** `${v?}{t}{u}` prints `t` or `u`. */
  lemma ShowAsk2(env: Env, i: Iface, v: Value, t: Src, u: Src, rest: Src, o: Out)
    requires Describes(env, i) && Ready(env) && v in i.has
    ensures Show(env, Call2(Ask(v), t, u, rest), o) == Show(env, rest, Show(env, if v in i.isSet then t else u, o))
  {
    ShowChosen2(env, Ask(v), if v in i.isSet then 0 else 1, t, u, rest, o);
  }

  /** `${exists?}{v?}{t}` prints `t` if and only if the system can be asked for the value. */
  lemma ShowIf(env: Env, i: Iface, v: Value, t: Src, rest: Src, o: Out)
    requires Describes(env, i) && Ready(env)
    ensures Show(env, If(v, t, rest), o) == Show(env, rest, if v in i.has then Show(env, t, o) else o)
  {
    ShowExists(env, v, t, rest, o);
  }

  /** Arguments by number. */
  lemma FirstArg(env: Env, t: Tmpl, rest: Args, o: Out, r: nat)
    requires Acyclic(env) && ArgsBelow(env, Arg(t, rest), r)
    ensures EvalArg(env, Arg(t, rest), 0, o, r) == Eval(env, t, o, r)
  {}

  lemma LaterArg(env: Env, t: Tmpl, rest: Args, nr: nat, o: Out, r: nat)
    requires Acyclic(env) && ArgsBelow(env, Arg(t, rest), r) && nr > 0
    ensures EvalArg(env, Arg(t, rest), nr, o, r) == EvalArg(env, rest, nr - 1, o, r)
    ensures rest == NoArg ==> EvalArg(env, Arg(t, rest), nr, o, r) == o
  {}

  lemma ChosenArg(env: Env, t: Tmpl, rest: Args, nr: nat, o: Out)
    requires Ready(env) && (rest == NoArg || rest.rest == NoArg) && nr <= 2
    ensures ArgsBelow(env, Arg(t, rest), 4)
    ensures EvalArg(env, Arg(t, rest), nr, o, 4)
         == if nr == 0 then Value4(env, t, o) else if nr == 1 && rest.Arg? then Value4(env, rest.t, o) else o
  {
    SubReady(env, "", Arg(t, rest));
    if nr == 0 {
      FirstArg(env, t, rest, o, 4);
    } else {
      LaterArg(env, t, rest, nr, o, 4);
      if rest.Arg? {
        if nr == 1 { FirstArg(env, rest.t, NoArg, o, 4); } else { LaterArg(env, rest.t, NoArg, nr - 1, o, 4); }
      }
    }
  }

  // ---------- fields and rows ----------

  lemma ShowEnd(env: Env, o: Out)
    requires Ready(env)
    ensures Show(env, End, o) == o
  {}

  lemma PutIfSet(i: Iface, v: Value, o: Out, s: string)
    ensures PutString(o, IfSet(i, v, s)) == if v in i.isSet then PutString(o, s) else o
  {}

  /** A heading and the value. */
  lemma ShowHeaded(env: Env, i: Iface, style: Style, v: Value, rest: Src, o: Out)
    requires Describes(env, i) && Ready(env) && v in i.has
    ensures Show(env, Field(style, v, rest), o) == Show(env, rest, PutString(o, Headed(i, style, v)))
  {
    var t := Run(Head(style, v), Val(v, End));
    var head, o1 := HeadText(style, v), PutString(o, HeadText(style, v));
    ShowAsk(env, i, v, t, rest, o);
    ShowRun(env, Head(style, v), Val(v, End), o);
    ShowVal(env, i, v, End, o1);
    ShowEnd(env, PutString(o1, i.text(v, [])));
    PutMore(o, head, i.text(v, []));
    PutIfSet(i, v, o, head + i.text(v, []));
  }

  lemma HeadPrintable(v: Value)
    ensures Printable(GnuHead(v))
  {}

  lemma PutFour(o: Out, a: string, b: string, c: string, d: string)
    ensures PutString(PutString(PutString(PutString(o, a), b), c), d) == PutString(o, a + b + c + d)
  {
    PutMore(o, a, b);
    PutMore(o, a + b, c);
    PutMore(o, a + b + c, d);
  }

  /** A heading, and a value at column 16, from the start of a line. */
  lemma ShowLine(env: Env, i: Iface, w: Word, v: Value, o: Out)
    requires Describes(env, i) && Ready(env) && o.col == 0 && Printable(WordText(w))
    ensures Show(env, Run(w, At(Column16, Val(v, Break(End)))), o)
         == PutString(o, WordText(w) + Pad(|WordText(w)|, 16) + i.text(v, []) + "\n")
  {
    var o1 := PutString(o, WordText(w));
    var o2 := PutString(o1, Pad(|WordText(w)|, 16));
    ColumnAfter(o, WordText(w));
    ShowRun(env, w, At(Column16, Val(v, Break(End))), o);
    ShowTab(env, i, Column16, Val(v, Break(End)), o1);
    ShowValBreak(env, i, v, o2);
    PutFour(o, WordText(w), Pad(|WordText(w)|, 16), i.text(v, []), "\n");
  }

  lemma ShowValBreak(env: Env, i: Iface, v: Value, o: Out)
    requires Describes(env, i) && Ready(env)
    ensures Show(env, Val(v, Break(End)), o) == PutString(PutString(o, i.text(v, [])), "\n")
  {
    var o1 := PutString(o, i.text(v, []));
    ShowVal(env, i, v, Break(End), o);
    ShowBreak(env, i, Line, End, o1);
    ShowEnd(env, PutString(o1, "\n"));
  }

  /** One row, from the start of a line to the start of the next. */
  lemma ShowRow(env: Env, i: Iface, v: Value, rest: Src, o: Out)
    requires Describes(env, i) && Ready(env) && v in i.has && o.col == 0
    ensures Show(env, Row(v, rest), o) == Show(env, rest, PutString(o, IfSet(i, v, GnuRow(i, v))))
    ensures PutString(o, IfSet(i, v, GnuRow(i, v))).col == 0
  {
    ShowAsk(env, i, v, Run(Head(InGnu, v), At(Column16, Val(v, Break(End)))), rest, o);
    HeadPrintable(v);
    ShowLine(env, i, Head(InGnu, v), v, o);
    PutIfSet(i, v, o, GnuRow(i, v));
    ColumnAfterBreak(o, GnuHead(v) + Pad(|GnuHead(v)|, 16) + i.text(v, []));
  }

  /** Exactly the rows of the values that are set, in order. */
  lemma {:induction false} ShowRows(env: Env, i: Iface, vs: seq<Value>, rest: Src, o: Out)
    requires Describes(env, i) && Ready(env) && (forall v :: v in vs ==> v in i.has) && o.col == 0
    ensures Show(env, Rows(vs, rest), o) == Show(env, rest, PutString(o, GnuRows(i, vs)))
    ensures PutString(o, GnuRows(i, vs)).col == 0
    decreases |vs|
  {
    if vs != [] {
      var row := IfSet(i, vs[0], GnuRow(i, vs[0]));
      assert vs[0] in vs && forall v :: v in vs[1..] ==> v in vs;
      ShowRow(env, i, vs[0], Rows(vs[1..], rest), o);
      ShowRows(env, i, vs[1..], rest, PutString(o, row));
      PutMore(o, row, GnuRows(i, vs[1..]));
    }
  }

  /** And of those the system can be asked for. */
  lemma {:induction false} ShowRowsIf(env: Env, i: Iface, vs: seq<Value>, rest: Src, o: Out)
    requires Describes(env, i) && Ready(env) && o.col == 0
    ensures Show(env, RowsIf(vs, rest), o) == Show(env, rest, PutString(o, GnuRows(i, vs)))
    ensures PutString(o, GnuRows(i, vs)).col == 0
    decreases |vs|
  {
    if vs != [] {
      var row := IfSet(i, vs[0], GnuRow(i, vs[0]));
      ShowIf(env, i, vs[0], Row(vs[0], End), RowsIf(vs[1..], rest), o);
      if vs[0] in i.has {
        ShowRow(env, i, vs[0], End, o);
        ShowEnd(env, PutString(o, row));
      }
      ShowRowsIf(env, i, vs[1..], rest, PutString(o, row));
      PutMore(o, row, GnuRows(i, vs[1..]));
    }
  }

  // ---------- the GNU formats ----------

  lemma ShowGnuHeader(env: Env, i: Iface, rest: Src, o: Out)
    requires Describes(env, i) && Ready(env)
    ensures var s := i.text(Name, []) + (" (" + (i.text(Index, []) + ("):" + "\n")));
      Show(env, GnuHeader(rest), o) == Show(env, rest, PutString(o, s)) && PutString(o, s).col == 0
  {
    var name, index := i.text(Name, []), i.text(Index, []);
    var o1 := PutString(o, name);
    var o2 := PutString(o1, " (");
    var o3 := PutString(o2, index);
    var o4 := PutString(o3, "):");
    ShowVal(env, i, Name, Run(Open, Val(Index, Run(Close, Break(rest)))), o);
    ShowRun(env, Open, Val(Index, Run(Close, Break(rest))), o1);
    ShowVal(env, i, Index, Run(Close, Break(rest)), o2);
    ShowRun(env, Close, Break(rest), o3);
    ShowBreak(env, i, Line, rest, o4);
    PutMore(o3, "):", "\n");
    PutMore(o2, index, "):" + "\n");
    PutMore(o1, " (", index + ("):" + "\n"));
    PutMore(o, name, " (" + (index + ("):" + "\n")));
    ColumnAfterBreak(o3, "):");
  }

  lemma ShowGnuEntry(env: Env, i: Iface, o: Out)
    requires Describes(env, i) && Ready(env)
    ensures Show(env, Body(GnuOneEntry), o) == PutString(o, GnuReport(i))
  {
    ShowGnuTable(env, i, GNU_ROWS, GNU_LINKS, o);
  }

  lemma ShowGnuTable(env: Env, i: Iface, vs: seq<Value>, us: seq<Value>, o: Out)
    requires Describes(env, i) && Ready(env) && (forall v :: v in vs ==> v in i.has)
    ensures Show(env, GnuHeader(Rows(vs, RowsIf(us, End))), o) == PutString(o,
      i.text(Name, []) + (" (" + (i.text(Index, []) + ("):" + ("\n" + (GnuRows(i, vs) + GnuRows(i, us)))))))
  {
    var s := i.text(Name, []) + (" (" + (i.text(Index, []) + ("):" + "\n")));
    var rows, links := GnuRows(i, vs), GnuRows(i, us);
    var o1 := PutString(o, s);
    var o2 := PutString(o1, rows);
    ShowGnuHeader(env, i, Rows(vs, RowsIf(us, End)), o);
    ShowRows(env, i, vs, RowsIf(us, End), o1);
    ShowRowsIf(env, i, us, End, o2);
    ShowEnd(env, PutString(o2, links));
    PutMore(o1, rows, links);
    PutMore(o, s, rows + links);
    Nest(i.text(Name, []), " (", i.text(Index, []), "):", "\n", rows + links);
  }

  lemma Nest(a: string, b: string, c: string, d: string, e: string, f: string)
    ensures (a + (b + (c + (d + e)))) + f == a + (b + (c + (d + (e + f))))
  {}

  // ---------- the other formats ----------

  lemma PutThree(o: Out, a: string, b: string, c: string)
    ensures PutString(PutString(PutString(o, a), b), c) == PutString(o, a + (b + c))
  {
    PutMore(PutString(o, a), b, c);
    PutMore(o, a, b + c);
  }

  /** A heading at column 10, and the value. */
  lemma ShowColumn(env: Env, i: Iface, v: Value, rest: Src, o: Out)
    requires Describes(env, i) && Ready(env) && v in i.has
    ensures Show(env, Column(v, rest), o)
         == Show(env, rest, PutString(o, IfSet(i, v, Pad(o.col, 10) + (HeadText(InNetTools, v) + i.text(v, [])))))
  {
    ShowAsk(env, i, v, At(Column10, Run(Head(InNetTools, v), Val(v, End))), rest, o);
    ShowColumnText(env, i, Head(InNetTools, v), v, End, o);
    ShowEnd(env, PutString(o, Pad(o.col, 10) + (HeadText(InNetTools, v) + i.text(v, []))));
    PutIfSet(i, v, o, Pad(o.col, 10) + (HeadText(InNetTools, v) + i.text(v, [])));
  }

  lemma ShowColumnText(env: Env, i: Iface, w: Word, v: Value, rest: Src, o: Out)
    requires Describes(env, i) && Ready(env)
    ensures Show(env, At(Column10, Run(w, Val(v, rest))), o)
         == Show(env, rest, PutString(o, Pad(o.col, 10) + (WordText(w) + i.text(v, []))))
  {
    var o1 := PutString(o, Pad(o.col, 10));
    var o2 := PutString(o1, WordText(w));
    ShowTab(env, i, Column10, Run(w, Val(v, rest)), o);
    ShowRun(env, w, Val(v, rest), o1);
    ShowVal(env, i, v, rest, o2);
    PutThree(o, Pad(o.col, 10), WordText(w), i.text(v, []));
  }

  lemma ShowLinkLine(env: Env, i: Iface, rest: Src, o: Out)
    requires Describes(env, i) && Ready(env)
    ensures Show(env, NetToolsLink(rest), o) == Show(env, rest, PutString(o, NetToolsLinkLine(i, o.col)))
    ensures PutString(o, NetToolsLinkLine(i, o.col)).col == 0
  {
    var name := i.text(Name, []);
    var o1 := PutString(o, name);
    ColumnAfter(o, name);
    ShowVal(env, i, Name, If(Hwtype, Column(Hwtype, Field(InNetTools, Hwaddr, End)), Break(rest)), o);
    ShowEncap(env, i, Break(rest), o1);
    var s := if Hwtype in i.has then Encap(i, o1.col) + Headed(i, InNetTools, Hwaddr) else "";
    ShowBreak(env, i, Line, rest, PutString(o1, s));
    PutThree(o, name, s, "\n");
    ColumnAfterBreak(o1, s);
    PutMore(o, name, s + "\n");
  }

  function Encap(i: Iface, col: nat): string { IfSet(i, Hwtype, Pad(col, 10) + ("Link encap:" + i.text(Hwtype, []))) }

  /** `${exists?}{v?}{t}` where `t` prints `s`. */
  lemma ShowIfText(env: Env, i: Iface, v: Value, t: Src, rest: Src, o: Out, s: string)
    requires Describes(env, i) && Ready(env) && (v in i.has ==> Show(env, t, o) == PutString(o, s))
    ensures Show(env, If(v, t, rest), o) == Show(env, rest, PutString(o, if v in i.has then s else ""))
  {
    ShowIf(env, i, v, t, rest, o);
    PutNothing(o);
  }

  lemma ShowEncap(env: Env, i: Iface, rest: Src, o: Out)
    requires Describes(env, i) && Ready(env)
    ensures Show(env, If(Hwtype, Column(Hwtype, Field(InNetTools, Hwaddr, End)), rest), o)
         == Show(env, rest, PutString(o, if Hwtype in i.has then Encap(i, o.col) + Headed(i, InNetTools, Hwaddr) else ""))
  {
    var s := Encap(i, o.col) + Headed(i, InNetTools, Hwaddr);
    if Hwtype in i.has { ShowEncapInside(env, i, o); }
    ShowIfText(env, i, Hwtype, Column(Hwtype, Field(InNetTools, Hwaddr, End)), rest, o, s);
  }

  /** A heading at column 10 and the value, if it is set, and what follows it. */
  lemma ShowColumnThen(env: Env, i: Iface, v: Value, t: Src, o: Out, s: string, u: string)
    requires Describes(env, i) && Ready(env) && v in i.has
    requires s == IfSet(i, v, Pad(o.col, 10) + (HeadText(InNetTools, v) + i.text(v, [])))
    requires Show(env, t, PutString(o, s)) == PutString(PutString(o, s), u)
    ensures Show(env, Column(v, t), o) == PutString(o, s + u)
  {
    ShowColumn(env, i, v, t, o);
    PutMore(o, s, u);
  }

  lemma ShowEncapInside(env: Env, i: Iface, o: Out)
    requires Describes(env, i) && Ready(env) && Hwtype in i.has
    ensures Show(env, Column(Hwtype, Field(InNetTools, Hwaddr, End)), o)
         == PutString(o, Encap(i, o.col) + Headed(i, InNetTools, Hwaddr))
  {
    ShowLastField(env, i, InNetTools, Hwaddr, PutString(o, Encap(i, o.col)));
    ShowColumnThen(env, i, Hwtype, Field(InNetTools, Hwaddr, End), o, Encap(i, o.col), Headed(i, InNetTools, Hwaddr));
  }

  lemma ShowLastField(env: Env, i: Iface, style: Style, v: Value, o: Out)
    requires Describes(env, i) && Ready(env) && v in i.has
    ensures Show(env, Field(style, v, End), o) == PutString(o, Headed(i, style, v))
  {
    ShowHeaded(env, i, style, v, End, o);
    ShowEnd(env, PutString(o, Headed(i, style, v)));
  }

  /** Two fields, and a line feed of either kind. */
  lemma ShowTwoFields(env: Env, i: Iface, v: Value, u: Value, rest: Src, o: Out)
    requires Describes(env, i) && Ready(env) && v in i.has && u in i.has
    ensures var s := Headed(i, InNetTools, v) + (Headed(i, InNetTools, u) + "\n");
      Show(env, Field(InNetTools, v, Field(InNetTools, u, Use(NewLine, No, rest))), o) == Show(env, rest, PutString(o, s))
  {
    var a, b := Headed(i, InNetTools, v), Headed(i, InNetTools, u);
    var o1 := PutString(o, a);
    var o2 := PutString(o1, b);
    ShowHeaded(env, i, InNetTools, v, Field(InNetTools, u, Use(NewLine, No, rest)), o);
    ShowHeaded(env, i, InNetTools, u, Use(NewLine, No, rest), o1);
    ShowBreak(env, i, NewLine, rest, o2);
    PutThree(o, a, b, "\n");
  }

  lemma ShowInetLine(env: Env, i: Iface, rest: Src, o: Out)
    requires Describes(env, i) && Ready(env) && o.col == 0
    ensures Show(env, NetToolsInet(rest), o) == Show(env, rest, PutString(o, NetToolsInetLine(i)))
    ensures PutString(o, NetToolsInetLine(i)).col == 0
  {
    var w := Head(InNetTools, Addr);
    var s := Spaces(10) + (WordText(w) + i.text(Addr, []));
    var more := Headed(i, InNetTools, Brdaddr) + (Headed(i, InNetTools, Netmask) + "\n");
    var o1 := PutString(o, s);
    ShowAsk(env, i, Addr, At(Column10, Run(w, Val(Addr, NetToolsFields(End)))), rest, o);
    ShowColumnText(env, i, w, Addr, NetToolsFields(End), o);
    ShowTwoFields(env, i, Brdaddr, Netmask, End, o1);
    ShowEnd(env, PutString(o1, more));
    PutMore(o, s, more);
    Nest2(Spaces(10), WordText(w), i.text(Addr, []), more);
    PutIfSet(i, Addr, o, s + more);
    EndsLine(o, s, Headed(i, InNetTools, Brdaddr), Headed(i, InNetTools, Netmask));
  }

  lemma Nest2(a: string, b: string, c: string, d: string)
    ensures a + (b + c) + d == a + (b + (c + d))
  {}

  lemma EndsLine(o: Out, a: string, b: string, c: string)
    ensures PutString(o, a + (b + (c + "\n"))).col == 0
  {
    ColumnAfterBreak(o, a + (b + c));
    assert a + (b + (c + "\n")) == a + (b + c) + "\n";
  }

  /** A value at column 10 of a new line, and what follows it. */
  lemma ShowTabThen(env: Env, i: Iface, v: Value, t: Src, rest: Src, o: Out, s: string)
    requires Describes(env, i) && Ready(env) && o.col == 0
    requires var o2 := PutString(PutString(o, Spaces(10)), i.text(v, [])); Show(env, t, o2) == Show(env, rest, PutString(o2, s))
    ensures Show(env, At(Column10, Val(v, t)), o) == Show(env, rest, PutString(o, Spaces(10) + (i.text(v, []) + s)))
  {
    ShowTab(env, i, Column10, Val(v, t), o);
    ShowVal(env, i, v, t, PutString(o, Spaces(10)));
    PutThree(o, Spaces(10), i.text(v, []), s);
  }

  lemma ShowFlagsLine(env: Env, i: Iface, rest: Src, o: Out)
    requires Describes(env, i) && Ready(env) && o.col == 0
    ensures Show(env, NetToolsFlags(rest), o) == Show(env, rest, PutString(o, NetToolsFlagsLine(i)))
    ensures PutString(o, NetToolsFlagsLine(i)).col == 0
  {
    var fields := Field(InNetTools, Mtu, Field(InNetTools, Metric, Use(NewLine, No, rest)));
    var a, b := Headed(i, InNetTools, Mtu), Headed(i, InNetTools, Metric);
    ShowTwoFields(env, i, Mtu, Metric, rest, PutString(PutString(o, Spaces(10)), i.text(Flags, [])));
    ShowTabThen(env, i, Flags, fields, rest, o, a + (b + "\n"));
    FlagsLineEnds(o, Spaces(10), i.text(Flags, []), a, b);
  }

  lemma FlagsLineEnds(o: Out, a: string, b: string, c: string, d: string)
    ensures PutString(o, a + (b + (c + (d + "\n")))).col == 0
  {
    EndsLine(o, a + b, c, d);
    assert a + b + (c + (d + "\n")) == a + (b + (c + (d + "\n")));
  }

  function QueueText(i: Iface): string { IfSet(i, Txqlen, Spaces(10) + ("txqueuelen:" + i.text(Txqlen, []))) }

  lemma QueueTextIs(i: Iface)
    ensures QueueText(i) == IfSet(i, Txqlen, Pad(0, 10) + (HeadText(InNetTools, Txqlen) + i.text(Txqlen, [])))
  {}

  lemma ShowQueueInside(env: Env, i: Iface, o: Out)
    requires Describes(env, i) && Ready(env) && Txqlen in i.has && o.col == 0
    ensures Show(env, Column(Txqlen, Break(End)), o) == PutString(o, QueueText(i) + "\n")
  {
    QueueTextIs(i);
    ShowLastBreak(env, i, Line, PutString(o, QueueText(i)));
    ShowColumnThen(env, i, Txqlen, Break(End), o, QueueText(i), "\n");
  }

  lemma ShowLastBreak(env: Env, i: Iface, h: Handler, o: Out)
    requires Describes(env, i) && Ready(env) && (h == Line || h == NewLine)
    ensures Show(env, Use(h, No, End), o) == PutString(o, "\n")
  {
    ShowBreak(env, i, h, End, o);
    ShowEnd(env, PutString(o, "\n"));
  }

  lemma ShowQueueLine(env: Env, i: Iface, o: Out)
    requires Describes(env, i) && Ready(env) && o.col == 0
    ensures Show(env, NetToolsQueue(End), o) == PutString(o, NetToolsQueueLine(i) + "\n")
  {
    if Txqlen in i.has { ShowQueueInside(env, i, o); }
    ShowIfText(env, i, Txqlen, Column(Txqlen, Break(End)), Use(NewLine, No, End), o, QueueText(i) + "\n");
    ShowLastBreak(env, i, NewLine, PutString(o, NetToolsQueueLine(i)));
    PutMore(o, NetToolsQueueLine(i), "\n");
  }

  /** Four pieces after one another. */
  lemma Chain(env: Env, ts: (Src, Src, Src, Src), o: Out, a: string, b: string, c: string, d: string)
    requires Ready(env)
    requires Show(env, ts.0, o) == Show(env, ts.1, PutString(o, a))
    requires Show(env, ts.1, PutString(o, a)) == Show(env, ts.2, PutString(PutString(o, a), b))
    requires Show(env, ts.2, PutString(PutString(o, a), b)) == Show(env, ts.3, PutString(PutString(PutString(o, a), b), c))
    requires var o3 := PutString(PutString(PutString(o, a), b), c); Show(env, ts.3, o3) == PutString(o3, d)
    ensures Show(env, ts.0, o) == PutString(o, a + (b + (c + d)))
  {
    PutThree(PutString(o, a), b, c, d);
    PutMore(o, a, b + (c + d));
  }

  lemma ShowNetTools(env: Env, i: Iface, o: Out)
    requires Describes(env, i) && Ready(env)
    ensures Show(env, Body(NetTools), o) == PutString(o, NetToolsReport(i, o.col))
  {
    ShowNetToolsParts(env, i, o, NetToolsFlags(NetToolsQueue(End)));
  }

  lemma ShowNetToolsParts(env: Env, i: Iface, o: Out, t: Src)
    requires Describes(env, i) && Ready(env) && t == NetToolsFlags(NetToolsQueue(End))
    ensures Show(env, NetToolsLink(NetToolsInet(t)), o) == PutString(o, NetToolsReport(i, o.col))
  {
    var a, b, c, d := NetToolsLinkLine(i, o.col), NetToolsInetLine(i), NetToolsFlagsLine(i), NetToolsQueueLine(i) + "\n";
    var o1 := PutString(o, a);
    var o2 := PutString(o1, b);
    ShowLinkLine(env, i, NetToolsInet(t), o);
    ShowInetLine(env, i, t, o1);
    ShowFlagsLine(env, i, NetToolsQueue(End), o2);
    ShowQueueLine(env, i, PutString(o2, c));
    Chain(env, (NetToolsLink(NetToolsInet(t)), NetToolsInet(t), t, NetToolsQueue(End)), o, a, b, c, d);
  }

  // ---------- formats in which columns do not matter ----------

  /** From any column. */
  ghost predicate Prints(env: Env, t: Src, s: string)
    requires Ready(env)
  {
    forall o {:trigger Show(env, t, o)} :: Show(env, t, o) == PutString(o, s)
  }

  lemma PrintsEnd(env: Env)
    requires Ready(env)
    ensures Prints(env, End, "")
  {}

  lemma PrintsRun(env: Env, w: Word, t: Src, s: string)
    requires Ready(env) && Prints(env, t, s)
    ensures Prints(env, Run(w, t), WordText(w) + s)
  {
    forall o ensures Show(env, Run(w, t), o) == PutString(o, WordText(w) + s) {
      ShowRun(env, w, t, o);
      PutMore(o, WordText(w), s);
    }
  }

  lemma PrintsVal(env: Env, i: Iface, v: Value, t: Src, s: string)
    requires Describes(env, i) && Ready(env) && Prints(env, t, s)
    ensures Prints(env, Val(v, t), i.text(v, []) + s)
  {
    forall o ensures Show(env, Val(v, t), o) == PutString(o, i.text(v, []) + s) {
      ShowVal(env, i, v, t, o);
      PutMore(o, i.text(v, []), s);
    }
  }

  lemma PrintsVal1(env: Env, i: Iface, v: Value, w: Word, t: Src, s: string)
    requires Describes(env, i) && Ready(env) && Prints(env, t, s)
    ensures Prints(env, Builtin.Call(Print(v), Run(w, End), t), i.text(v, [WordText(w)]) + s)
  {
    forall o ensures Show(env, Builtin.Call(Print(v), Run(w, End), t), o) == PutString(o, i.text(v, [WordText(w)]) + s) {
      ShowVal1(env, i, v, w, t, o);
      PutMore(o, i.text(v, [WordText(w)]), s);
    }
  }

  lemma PrintsVal2(env: Env, i: Iface, v: Value, w: Word, x: Word, t: Src, s: string)
    requires Describes(env, i) && Ready(env) && Prints(env, t, s)
    ensures Prints(env, Call2(Print(v), Run(w, End), Run(x, End), t), i.text(v, [WordText(w), WordText(x)]) + s)
  {
    var u := Call2(Print(v), Run(w, End), Run(x, End), t);
    forall o ensures Show(env, u, o) == PutString(o, i.text(v, [WordText(w), WordText(x)]) + s) {
      ShowVal2(env, i, v, w, x, t, o);
      PutMore(o, i.text(v, [WordText(w), WordText(x)]), s);
    }
  }

  lemma PrintsBreak(env: Env, i: Iface, h: Handler, t: Src, s: string)
    requires Describes(env, i) && Ready(env) && Prints(env, t, s) && (h == Line || h == Stop)
    ensures Prints(env, Use(h, No, t), (if h == Stop then "\t" else "\n") + s)
  {
    forall o ensures Show(env, Use(h, No, t), o) == PutString(o, (if h == Stop then "\t" else "\n") + s) {
      ShowBreak(env, i, h, t, o);
      PutMore(o, if h == Stop then "\t" else "\n", s);
    }
  }

  lemma PrintsAsk(env: Env, i: Iface, v: Value, t: Src, a: string, rest: Src, s: string)
    requires Describes(env, i) && Ready(env) && v in i.has && Prints(env, t, a) && Prints(env, rest, s)
    ensures Prints(env, Builtin.Call(Ask(v), t, rest), IfSet(i, v, a) + s)
  {
    forall o ensures Show(env, Builtin.Call(Ask(v), t, rest), o) == PutString(o, IfSet(i, v, a) + s) {
      ShowAsk(env, i, v, t, rest, o);
      PutIfSet(i, v, o, a);
      PutMore(o, IfSet(i, v, a), s);
    }
  }

  lemma PrintsField(env: Env, i: Iface, style: Style, v: Value, rest: Src, s: string)
    requires Describes(env, i) && Ready(env) && v in i.has && Prints(env, rest, s)
    ensures Prints(env, Field(style, v, rest), Headed(i, style, v) + s)
  {
    forall o ensures Show(env, Field(style, v, rest), o) == PutString(o, Headed(i, style, v) + s) {
      ShowHeaded(env, i, style, v, rest, o);
      PutMore(o, Headed(i, style, v), s);
    }
  }

  lemma PrintsIf(env: Env, i: Iface, v: Value, t: Src, a: string, rest: Src, s: string)
    requires Describes(env, i) && Ready(env) && (v in i.has ==> Prints(env, t, a)) && Prints(env, rest, s)
    ensures Prints(env, If(v, t, rest), (if v in i.has then a else "") + s)
  {
    var b := if v in i.has then a else "";
    forall o ensures Show(env, If(v, t, rest), o) == PutString(o, b + s) {
      ShowIfText(env, i, v, t, rest, o, a);
      PutMore(o, b, s);
    }
  }

  // ---------- unix and osf ----------

  lemma FlagListIs(i: Iface)
    ensures FlagList(i) == WordText(Less) + (i.text(Flags, [WordText(Names), WordText(Comma)]) + WordText(More))
  {}

  lemma PrintsFlagNames(env: Env, i: Iface, t: Src, s: string)
    requires Describes(env, i) && Ready(env) && Prints(env, t, s)
    ensures Prints(env, FlagNames(t), FlagList(i) + s)
  {
    FlagListIs(i);
    PrintsBetween(env, i, (Less, Names, Comma, More), t, s);
  }

  /** The flags with two arguments, between two words. */
  lemma PrintsBetween(env: Env, i: Iface, ws: (Word, Word, Word, Word), t: Src, s: string)
    requires Describes(env, i) && Ready(env) && Prints(env, t, s)
    ensures Prints(env, Run(ws.0, Call2(Print(Flags), Run(ws.1, End), Run(ws.2, End), Run(ws.3, t))),
      (WordText(ws.0) + (i.text(Flags, [WordText(ws.1), WordText(ws.2)]) + WordText(ws.3))) + s)
  {
    var a, b, c := WordText(ws.0), i.text(Flags, [WordText(ws.1), WordText(ws.2)]), WordText(ws.3);
    PrintsRun(env, ws.3, t, s);
    PrintsVal2(env, i, Flags, ws.1, ws.2, Run(ws.3, t), c + s);
    PrintsRun(env, ws.0, Call2(Print(Flags), Run(ws.1, End), Run(ws.2, End), Run(ws.3, t)), b + (c + s));
    assert a + (b + (c + s)) == (a + (b + c)) + s;
  }

  function OctetText(i: Iface, k: nat): string { i.text(Netmask, [WordText(Octet(k)), WordText(Hex2)]) }

  lemma Octets4Is(i: Iface)
    ensures Octets4(i) == OctetText(i, 0) + (OctetText(i, 1) + (OctetText(i, 2) + OctetText(i, 3)))
  {}

  lemma PrintsPart(env: Env, i: Iface, k: nat, t: Src, s: string)
    requires Describes(env, i) && Ready(env) && Prints(env, t, s)
    ensures Prints(env, Part(k, t), OctetText(i, k) + s)
  {
    PrintsVal2(env, i, Netmask, Octet(k), Hex2, t, s);
  }

  lemma PrintsParts(env: Env, i: Iface, t: Src, s: string)
    requires Describes(env, i) && Ready(env) && Prints(env, t, s)
    ensures Prints(env, Parts(t), Octets4(i) + s)
  {
    var a, b, c, d := OctetText(i, 0), OctetText(i, 1), OctetText(i, 2), OctetText(i, 3);
    PrintsPart(env, i, 3, t, s);
    PrintsPart(env, i, 2, Part(3, t), d + s);
    PrintsPart(env, i, 1, Part(2, Part(3, t)), c + (d + s));
    PrintsPart(env, i, 0, Part(1, Part(2, Part(3, t))), b + (c + (d + s)));
    Octets4Is(i);
    NestFour(a, b, c, d, s);
  }

  lemma NestFour(a: string, b: string, c: string, d: string, s: string)
    ensures a + (b + (c + (d + s))) == (a + (b + (c + d))) + s
  {}

  lemma PrintsUnixInet(env: Env, i: Iface, t: Src, more: string, rest: Src, s: string)
    requires Describes(env, i) && Ready(env) && Prints(env, t, more) && Prints(env, rest, s)
    ensures Prints(env, UnixInet(t, rest), UnixInetLine(i, more) + s)
  {
    var brd := Headed(i, InUnix, Brdaddr);
    var masks := Parts(Field(InUnix, Brdaddr, t));
    var u := Run(Head(InUnix, Netmask), masks);
    PrintsField(env, i, InUnix, Brdaddr, t, more);
    PrintsParts(env, i, Field(InUnix, Brdaddr, t), brd + more);
    PrintsRun(env, Head(InUnix, Netmask), masks, Octets4(i) + (brd + more));
    var a := " netmask " + (Octets4(i) + (brd + more));
    PrintsVal(env, i, Addr, u, a);
    PrintsRun(env, Head(InUnix, Addr), Val(Addr, u), i.text(Addr, []) + a);
    PrintsBreak(env, i, Stop, Run(Head(InUnix, Addr), Val(Addr, u)), "inet " + (i.text(Addr, []) + a));
    PrintsAsk(env, i, Addr, Use(Stop, No, Run(Head(InUnix, Addr), Val(Addr, u))),
      "\t" + ("inet " + (i.text(Addr, []) + a)), rest, s);
  }

  lemma PrintsUnixLink(env: Env, i: Iface)
    requires Describes(env, i) && Ready(env)
    ensures Prints(env, UnixLink(End), UnixLinkLine(i))
  {
    var typ := i.text(Hwtype, []);
    var addr := If(Hwaddr, Field(InUnix, Hwaddr, End), Break(End));
    var head := Headed(i, InUnix, Hwaddr);
    PrintsEnd(env);
    PrintsVal(env, i, Hwtype, End, "");
    PrintsBreak(env, i, Stop, Val(Hwtype, End), typ + "");
    PrintsBreak(env, i, Line, End, "");
    if Hwtype in i.has {
      PrintsField(env, i, InUnix, Hwaddr, End, "");
      assert head + "" == head && typ + "" == typ && "\n" + "" == "\n";
      PrintsIf(env, i, Hwaddr, Field(InUnix, Hwaddr, End), head, Break(End), "\n");
      PrintsAsk(env, i, Hwtype, Use(Stop, No, Val(Hwtype, End)), "\t" + typ, addr, head + "\n");
    }
    var a := IfSet(i, Hwtype, "\t" + typ) + (head + "\n");
    PrintsIf(env, i, Hwtype, Builtin.Call(Ask(Hwtype), Use(Stop, No, Val(Hwtype, End)), addr), a, End, "");
    assert UnixLinkLine(i) + "" == UnixLinkLine(i);
  }

  lemma PrintsLastBreak(env: Env, i: Iface)
    requires Describes(env, i) && Ready(env)
    ensures Prints(env, Break(End), "\n")
  {
    PrintsEnd(env);
    PrintsBreak(env, i, Line, End, "");
    assert "\n" + "" == "\n";
  }

  lemma PrintsUnixTail(env: Env, i: Iface, t: Src, s: string)
    requires Describes(env, i) && Ready(env)
    requires t == UnixInet(Break(End), UnixLink(End)) && s == UnixInetLine(i, "\n") + UnixLinkLine(i)
    ensures Prints(env, Field(InUnix, Mtu, Break(t)), Headed(i, InUnix, Mtu) + ("\n" + s))
  {
    PrintsLastBreak(env, i);
    PrintsUnixLink(env, i);
    PrintsUnixInet(env, i, Break(End), "\n", UnixLink(End), UnixLinkLine(i));
    PrintsBreak(env, i, Line, t, s);
    PrintsField(env, i, InUnix, Mtu, Break(t), "\n" + s);
  }

  lemma PrintsUnix(env: Env, i: Iface)
    requires Describes(env, i) && Ready(env)
    ensures Prints(env, Body(Unix), UnixReport(i))
  {
    var t, s := UnixInet(Break(End), UnixLink(End)), UnixInetLine(i, "\n") + UnixLinkLine(i);
    PrintsUnixTail(env, i, t, s);
    PrintsUnixFlags(env, i, Field(InUnix, Mtu, Break(t)), Headed(i, InUnix, Mtu) + ("\n" + s));
  }

  lemma FlagWords()
    ensures WordText(Number) == "number" && WordText(Hex) == "%x" && WordText(Head(InUnix, Flags)) == ": flags="
  {}

  /** The name and what follows the heading of the flags. */
  lemma PrintsNamed(env: Env, i: Iface, t: Src, s: string)
    requires Describes(env, i) && Ready(env) && Prints(env, t, s)
    ensures Prints(env, Val(Name, Run(Head(InUnix, Flags), t)), i.text(Name, []) + (": flags=" + s))
  {
    FlagWords();
    PrintsRun(env, Head(InUnix, Flags), t, s);
    PrintsVal(env, i, Name, Run(Head(InUnix, Flags), t), ": flags=" + s);
  }

  lemma PrintsUnixFlags(env: Env, i: Iface, t: Src, s: string)
    requires Describes(env, i) && Ready(env) && Prints(env, t, s)
    ensures Prints(env, UnixFlags(t),
      i.text(Name, []) + (": flags=" + (i.text(Flags, ["number"]) + (FlagList(i) + s))))
  {
    FlagWords();
    var f := i.text(Flags, [WordText(Number)]);
    PrintsFlagNames(env, i, t, s);
    PrintsVal1(env, i, Flags, Number, FlagNames(t), FlagList(i) + s);
    PrintsNamed(env, i, Builtin.Call(Print(Flags), Run(Number, End), FlagNames(t)), f + (FlagList(i) + s));
  }

  lemma PrintsOsfFlags(env: Env, i: Iface, t: Src, s: string)
    requires Describes(env, i) && Ready(env) && Prints(env, t, s)
    ensures Prints(env, OsfFlags(t),
      i.text(Name, []) + (": flags=" + (i.text(Flags, ["number", "%x"]) + (FlagList(i) + s))))
  {
    FlagWords();
    var f := i.text(Flags, [WordText(Number), WordText(Hex)]);
    PrintsFlagNames(env, i, t, s);
    PrintsVal2(env, i, Flags, Number, Hex, FlagNames(t), FlagList(i) + s);
    PrintsNamed(env, i, Call2(Print(Flags), Run(Number, End), Run(Hex, End), FlagNames(t)), f + (FlagList(i) + s));
  }

  lemma PrintsOsfTail(env: Env, i: Iface, t: Src, s: string)
    requires Describes(env, i) && Ready(env)
    requires t == UnixInet(Field(InOsf, Mtu, Break(End)), End) && s == UnixInetLine(i, Headed(i, InOsf, Mtu) + "\n")
    ensures Prints(env, Break(t), "\n" + s)
  {
    PrintsEnd(env);
    PrintsLastBreak(env, i);
    PrintsField(env, i, InOsf, Mtu, Break(End), "\n");
    PrintsUnixInet(env, i, Field(InOsf, Mtu, Break(End)), Headed(i, InOsf, Mtu) + "\n", End, "");
    assert s + "" == s;
    PrintsBreak(env, i, Line, t, s);
  }

  lemma PrintsOsfLines(env: Env, i: Iface, t: Src, s: string)
    requires Describes(env, i) && Ready(env)
    requires t == UnixInet(Field(InOsf, Mtu, Break(End)), End) && s == UnixInetLine(i, Headed(i, InOsf, Mtu) + "\n")
    ensures Prints(env, OsfFlags(Break(t)),
      i.text(Name, []) + (": flags=" + (i.text(Flags, ["number", "%x"]) + (FlagList(i) + ("\n" + s)))))
  {
    PrintsOsfTail(env, i, t, s);
    PrintsOsfFlags(env, i, Break(t), "\n" + s);
  }

  lemma PrintsOsf(env: Env, i: Iface)
    requires Describes(env, i) && Ready(env)
    ensures Prints(env, Body(Osf), OsfReport(i))
  {
    PrintsOsfLines(env, i, UnixInet(Field(InOsf, Mtu, Break(End)), End), UnixInetLine(i, Headed(i, InOsf, Mtu) + "\n"));
  }

  // ---------- whole formats ----------

  /** A format named in a template is printed in its place. */
  lemma NameValue(env: Env, i: Iface, g: Format, rest: Tmpl, o: Out)
    requires Describes(env, i) && Ready(env)
    ensures Value4(env, NameTree(Some(g), rest), o) == Value4(env, rest, Value4(env, Tree(g), o))
  {
    var name := FormatText(g);
    var t := Lits(name, Nil);
    var a := Arg(t, NoArg);
    LitsText(name, Nil);
    assert name + "" == name;
    SubReady(env, "format", a);
    assert Below(env, NameTree(Some(g), rest), 4);
    EvalCons(env, Sub("format", a), rest, o, 4);
    HandleIs(env, "format", a, o, 4);
    NamesValue(env, t, o, 4);
    assert env.formats[name] == Tree(g);
    RankDoesNotMatter(env, Tree(g), o, env.rank(name), 4);
  }

  lemma NamesValue(env: Env, t: Tmpl, o: Out, r: nat)
    requires Acyclic(env) && NamesBelow(env, Arg(t, NoArg), r) && Text(t) in env.formats
    ensures EvalNames(env, Arg(t, NoArg), o, r) == Eval(env, env.formats[Text(t)], o, env.rank(Text(t)))
  {
    assert NamesBelow(env, NoArg, r);
  }

  /** A name that no format has prints nothing, and one that has one what that format prints. */
  lemma FormatNamed(env: Env, name: string, o: Out)
    requires Ready(env) && KindOf(env, "format") == Format
    ensures Value4(env, Cons(Sub("format", Arg(Lits(name, Nil), NoArg)), Nil), o)
         == if name in env.formats then Value4(env, env.formats[name], o) else o
  {
    var t := Lits(name, Nil);
    var a := Arg(t, NoArg);
    LitsText(name, Nil);
    assert name + "" == name;
    SubReady(env, "format", a);
    assert Below(env, Cons(Sub("format", a), Nil), 4);
    EvalCons(env, Sub("format", a), Nil, o, 4);
    HandleIs(env, "format", a, o, 4);
    assert NamesBelow(env, NoArg, 4);
    if name in env.formats {
      NamesValue(env, t, o, 4);
      RankDoesNotMatter(env, env.formats[name], o, env.rank(name), 4);
    }
  }

  /** A template between the formats it names. */
  lemma TreeValue(env: Env, i: Iface, f: Format, o: Out)
    requires Describes(env, i) && Ready(env)
    ensures var o1 := match Before(f) case Some(g) => Value4(env, Tree(g), o) case None => o;
      var o2 := Show(env, Body(f), o1);
      Value4(env, Tree(f), o) == match After(f) case Some(g) => Value4(env, Tree(g), o2) case None => o2
  {
    var last := NameTree(After(f), Nil);
    var o1 := match Before(f) case Some(g) => Value4(env, Tree(g), o) case None => o;
    if Before(f).Some? { NameValue(env, i, Before(f).value, BodyTree(Body(f), last), o); }
    BodyValue(env, Body(f), last, o1);
    if After(f).Some? { NameValue(env, i, After(f).value, Nil, Show(env, Body(f), o1)); }
  }

  /** Nothing is said of an interface that exists. */
  lemma ExistsSilently(env: Env, i: Iface, o: Out)
    requires Describes(env, i) && Ready(env) && Index in i.isSet
    ensures Value4(env, Tree(CheckExistance), o) == o
  {
    TreeValue(env, i, CheckExistance, o);
    ShowAsk2(env, i, Index, End, Missing(), End, o);
    ShowEnd(env, o);
  }

  /** An empty line between interfaces. */
  lemma ShowSeparator(env: Env, i: Iface, o: Out)
    requires Describes(env, i) && Ready(env)
    ensures Show(env, Body(Gnu), o) == PutString(o, if First in i.isSet then "" else "\n")
  {
    ShowAsk2(env, i, First, End, Break(End), End, o);
    ShowLastBreak(env, i, Line, o);
    ShowEnd(env, if First in i.isSet then o else PutString(o, "\n"));
    PutNothing(o);
  }

  /** The formats that first check that the interface exists. */
  lemma EntryPrints(env: Env, i: Iface, f: Format, o: Out)
    requires Describes(env, i) && Ready(env) && Index in i.isSet && f != Default && f != Gnu
    ensures Value4(env, Tree(f), o) == PutString(o, Report(i, f, o.col))
  {
    ExistsSilently(env, i, o);
    PutNothing(o);
    TreeValue(env, i, f, o);
    match f
    case CheckExistance =>
    case GnuOneEntry => ShowGnuEntry(env, i, o);
    case NetTools => ShowNetTools(env, i, o);
    case Unix => PrintsUnix(env, i);
    case Osf => PrintsOsf(env, i);
  }

  lemma GnuPrints(env: Env, i: Iface, o: Out)
    requires Describes(env, i) && Ready(env) && Index in i.isSet
    ensures Value4(env, Tree(Gnu), o) == PutString(o, Report(i, Gnu, o.col))
  {
    var s := if First in i.isSet then "" else "\n";
    TreeValue(env, i, Gnu, o);
    ShowSeparator(env, i, o);
    EntryPrints(env, i, GnuOneEntry, PutString(o, s));
    PutMore(o, s, GnuReport(i));
  }

  /** For an interface that exists, every built-in format prints its report, whatever came before. */
  lemma FormatPrints(env: Env, i: Iface, f: Format, o: Out)
    requires Describes(env, i) && Ready(env) && Index in i.isSet
    ensures Value4(env, Tree(f), o) == PutString(o, Report(i, f, o.col))
  {
    match f
    case Default =>
      TreeValue(env, i, Default, o);
      GnuPrints(env, i, o);
      ShowEnd(env, PutString(o, Report(i, Gnu, o.col)));
    case Gnu => GnuPrints(env, i, o);
    case _ => EntryPrints(env, i, f, o);
  }

  /** Of one that does not, the error stream is told, and nothing is printed. */
  lemma MissingIsReported(env: Env, i: Iface, o: Out)
    requires Describes(env, i) && Ready(env) && Index !in i.isSet
    ensures Value4(env, Tree(CheckExistance), o) == Switch(PutString(Switch(o),
      i.text(Progname, []) + (WordText(NoInterface) + (i.text(Name, []) + (WordText(NotThere) + "\n")))))
  {
    var t := Val(Progname, Run(NoInterface, Val(Name, Run(NotThere, Break(End)))));
    var s := i.text(Progname, []) + (WordText(NoInterface) + (i.text(Name, []) + (WordText(NotThere) + "\n")));
    TreeValue(env, i, CheckExistance, o);
    ShowAsk2(env, i, Index, End, Missing(), End, o);
    PrintsLastBreak(env, i);
    PrintsNames(env, i, NoInterface, NotThere, Break(End), "\n");
    ShowComplain(env, i, t, s, Builtin.Call(Exit, Run(Status, End), End), o);
    var o1 := Switch(PutString(Switch(o), s));
    ShowLeaf(env, Exit, One(Run(Status, End), No), End, o1);
    PutNothing(o1);
    ShowEnd(env, o1);
  }

  /** The name of the program and of the interface, each before a word. */
  lemma PrintsNames(env: Env, i: Iface, w: Word, x: Word, t: Src, s: string)
    requires Describes(env, i) && Ready(env) && Prints(env, t, s)
    ensures Prints(env, Val(Progname, Run(w, Val(Name, Run(x, t)))),
      i.text(Progname, []) + (WordText(w) + (i.text(Name, []) + (WordText(x) + s))))
  {
    PrintsRun(env, x, t, s);
    PrintsVal(env, i, Name, Run(x, t), WordText(x) + s);
    PrintsRun(env, w, Val(Name, Run(x, t)), i.text(Name, []) + (WordText(x) + s));
    PrintsVal(env, i, Progname, Run(w, Val(Name, Run(x, t))), WordText(w) + (i.text(Name, []) + (WordText(x) + s)));
  }

  /** `${error}{t}` prints to the other stream. */
  lemma ShowComplain(env: Env, i: Iface, t: Src, s: string, rest: Src, o: Out)
    requires Describes(env, i) && Ready(env) && Prints(env, t, s)
    ensures Show(env, Builtin.Call(Complain, t, rest), o) == Show(env, rest, Switch(PutString(Switch(o), s)))
  {
    var a := Arg(BodyTree(t, Nil), NoArg);
    ShowUse(env, Complain, One(t, No), rest, o);
    Trees(t, t);
    SubReady(env, HandlerText(Complain), a);
    HandleIs(env, HandlerText(Complain), a, o, 4);
    OnlyArg(env, BodyTree(t, Nil), Switch(o), 4);
    assert Show(env, t, Switch(o)) == PutString(Switch(o), s);
  }

  lemma OnlyArg(env: Env, t: Tmpl, o: Out, r: nat)
    requires Acyclic(env) && ArgsBelow(env, Arg(t, NoArg), r)
    ensures EvalAll(env, Arg(t, NoArg), o, r) == Eval(env, t, o, r)
  {
    assert ArgsBelow(env, NoArg, r);
  }

  // ---------- characters ----------

  /** `$$` and `$}` stand for the second character; any other dollar sign stands for itself. */
  function Unescaped(s: string): string
    decreases |s|
  {
    if s == "" then ""
    else if |s| >= 2 && s[0] == '$' && (s[1] == '$' || s[1] == '}') then [s[1]] + Unescaped(s[2..])
    else [s[0]] + Unescaped(s[1..])
  }

  predicate NoHandlers(t: Tmpl) { t.Cons? ==> !t.head.Sub? && NoHandlers(t.tail) }

  /** A template without handlers prints its text with the escapes taken out. */
  lemma {:induction false} CharactersPrint(env: Env, t: Tmpl, o: Out, r: nat)
    requires Acyclic(env) && NoHandlers(t) && WellFormed(t, false) && Below(env, t, r)
    ensures Eval(env, t, o, r) == PutString(o, Unescaped(Text(t)))
  {
    if t.Cons? {
      var c, rest := t.head.c, Text(t.tail);
      CharactersPrint(env, t.tail, EvalItem(env, t.head, o, r), r);
      if t.head.Lit? {
        assert ([c] + rest)[1..] == rest;
        PutMore(o, [c], Unescaped(rest));
      } else {
        assert Text(t) == ['$', c] + rest && (['$', c] + rest)[2..] == rest;
        if t.head.Esc? {
          PutMore(o, [c], Unescaped(rest));
        } else {
          assert Text(t)[1..] == [c] + rest && ([c] + rest)[1..] == rest;
          PutMore(PutChar(o, '$'), [c], Unescaped(rest));
          PutMore(o, ['$'], [c] + Unescaped(rest));
        }
      }
    }
  }

  // ---------- printing an interface ----------

  lemma {:induction false} Unnested(t: Tmpl)
    requires WellFormed(t, true)
    ensures WellFormed(t, false)
  {
    if t.Cons? { Unnested(t.tail); }
  }

  /** `print_interface` with a template that can be evaluated. */
  method PrintTree(env: Env, t: Tmpl, ghost r: nat) returns (o: Out)
    requires Acyclic(env) && Below(env, t, r) && WellFormed(t, false)
    ensures o == Eval(env, t, Out("", 0, "", 0), r)
  {
    var form := new Form(env, Text(t));
    assert form.format == Text(t) + "";
    form.Print(false, t, "", r);
    o := form.o;
  }

  lemma TreeFormed(env: Env, i: Iface, f: Format)
    requires Describes(env, i)
    ensures WellFormed(Tree(f), false)
  {
    TableIsAcyclic(env);
    assert FormatText(f) in env.formats && env.formats[FormatText(f)] == Tree(f);
    Unnested(Tree(f));
  }

  lemma FromNothing(s: string)
    ensures var o := PutString(Out("", 0, "", 0), s); o.out == s && o.other == ""
  {
    PutIs(Out("", 0, "", 0), s);
    assert "" + s == s;
  }

  /** With a built-in format exactly the report is printed. */
  method PrintFormat(env: Env, i: Iface, f: Format) returns (o: Out)
    requires Describes(env, i) && Index in i.isSet
    ensures o.out == Report(i, f, 0) && o.other == ""
  {
    IsReady(env, i);
    TreeFormed(env, i, f);
    FormatPrints(env, i, f, Out("", 0, "", 0));
    FromNothing(Report(i, f, 0));
    o := PrintTree(env, Tree(f), 4);
  }
}
