/**
 The templates built into `ifconfig/options.c`: their texts, and that they refer
 to each other without cycles.
 */
module Builtin {
  import opened Wrappers
  import opened Template

  // ---------- the words of the table ----------

  /** What can be said of an interface. */
  datatype Value =
    | Addr | Netmask | Brdaddr | Dstaddr | Flags | Mtu | Metric | Hwtype | Hwaddr | Txqlen | Name | Index | First | Progname

  function ValueText(v: Value): string {
    match v
    case Addr => "addr" case Netmask => "netmask" case Brdaddr => "brdaddr" case Dstaddr => "dstaddr"
    case Flags => "flags" case Mtu => "mtu" case Metric => "metric"
    case Hwtype => "hwtype" case Hwaddr => "hwaddr" case Txqlen => "txqlen"
    case Name => "name" case Index => "index" case First => "first" case Progname => "progname"
  }

  /** The handlers used: `${addr}`, `${addr?}`, `${\n}`, `${\t}` and some others. */
  datatype Handler = Print(v: Value) | Ask(v: Value) | Line | Stop | NewLine | Tab | IfKnown | Complain | Exit

  function HandlerText(h: Handler): string {
    match h
    case Print(v) => ValueText(v)
    case Ask(v) => ValueText(v) + "?"
    case Line => "\\n" case Stop => "\\t" case NewLine => "newline" case Tab => "tab"
    case IfKnown => "exists?" case Complain => "error" case Exit => "exit"
  }

  datatype Style = InGnu | InNetTools | InUnix | InOsf

  /** What a format prints before a value. */
  function HeadText(style: Style, v: Value): string {
    match style
    case InGnu => GnuHead(v)
    case InNetTools => NetToolsHead(v)
    case InUnix => UnixHead(v)
    case InOsf => " ipmtu "
  }

  function GnuHead(v: Value): string {
    match v
    case Addr => "  inet address " case Netmask => "  netmask " case Brdaddr => "  broadcast "
    case Dstaddr => "  peer address " case Flags => "  flags " case Mtu => "  mtu " case Metric => "  metric "
    case Hwtype => "  link encap " case Hwaddr => "  hardware addr " case Txqlen => "  tx queue len "
    case _ => ""
  }

  function NetToolsHead(v: Value): string {
    match v
    case Addr => "inet addr:" case Netmask => "  Mask:" case Brdaddr => "  Bcast:" case Mtu => "  MTU:"
    case Metric => "  Metric:" case Hwtype => "Link encap:" case Hwaddr => "  HWaddr " case Txqlen => "txqueuelen:"
    case _ => ""
  }

  function UnixHead(v: Value): string {
    match v
    case Addr => "inet " case Netmask => " netmask " case Brdaddr => " broadcast " case Mtu => " mtu "
    case Flags => ": flags=" case Hwaddr => " "
    case _ => ""
  }

  /** Characters that stand for themselves. */
  datatype Word =
    | Head(style: Style, v: Value) | Query(v: Value)
    | Open | Close | Column10 | Column16 | Number | Names | Comma | Less | More
    | Octet(i: nat) | Hex | Hex2 | NoInterface | NotThere | Status

  function WordText(w: Word): string {
    match w
    case Head(style, v) => HeadText(style, v)
    case Query(v) => ValueText(v) + "?"
    case Open => " (" case Close => "):" case Column10 => "10" case Column16 => "16"
    case Number => "number" case Names => "string" case Comma => "," case Less => "<" case More => ">"
    case Octet(i) => if i == 0 then "0" else if i == 1 then "1" else if i == 2 then "2" else "3"
    case Hex => "%x" case Hex2 => "%02x"
    case NoInterface => ": error: interface `" case NotThere => "' does not exist" case Status => "1"
  }

  datatype Format = Default | Gnu | GnuOneEntry | NetTools | Unix | Osf | CheckExistance

  function FormatText(f: Format): string {
    match f
    case Default => "default" case Gnu => "gnu" case GnuOneEntry => "gnu-one-entry" case NetTools => "net-tools"
    case Unix => "unix" case Osf => "osf" case CheckExistance => "check-existance"
  }

  // ---------- templates over these words ----------

  datatype Src =
    | End
    | Run(w: Word, rest: Src)                        // characters
    | Use(h: Handler, args: SrcArgs, rest: Src)      // ${h}{arg}...

  datatype SrcArgs = No | One(t: Src, rest: SrcArgs)

  function Lits(s: string, rest: Tmpl): Tmpl
    decreases |s|
  {
    if s == "" then rest else Cons(Lit(s[0]), Lits(s[1..], rest))
  }

  function BodyTree(t: Src, rest: Tmpl): Tmpl {
    match t
    case End => rest
    case Run(w, more) => Lits(WordText(w), BodyTree(more, rest))
    case Use(h, args, more) => Cons(Sub(HandlerText(h), ArgTrees(args)), BodyTree(more, rest))
  }

  function ArgTrees(a: SrcArgs): Args {
    match a
    case No => NoArg
    case One(t, rest) => Arg(BodyTree(t, Nil), ArgTrees(rest))
  }

  function NameTree(f: Option<Format>, rest: Tmpl): Tmpl {
    if f.None? then rest else Cons(Sub("format", Arg(Lits(FormatText(f.value), Nil), NoArg)), rest)
  }

  function Rank(f: Format): nat {
    match f
    case Default => 3 case Gnu => 2 case CheckExistance => 0 case _ => 1
  }

  // ---------- the words are plain ----------

  predicate Plain(s: string) { forall c :: c in s ==> c != '$' && c != '{' && c != '}' }

  lemma PlainValue(v: Value)
    ensures Plain(ValueText(v)) && ValueText(v) != "format" && ValueText(v) + "?" != "format"
  {
    assert "format"[5] == 't' && "format"[0] == 'f' && |"format"| == 6;
    assert |ValueText(v)| == 6 ==> ValueText(v)[0] != 'f';
    assert |ValueText(v)| == 5 ==> (ValueText(v) + "?")[5] == '?';
  }

  lemma PlainHandler(h: Handler)
    ensures '}' !in HandlerText(h) && HandlerText(h) != "format"
  {
    if h.Print? || h.Ask? { PlainValue(h.v); }
  }

  lemma PlainGnuHead(v: Value)
    ensures Plain(GnuHead(v))
  {}

  lemma PlainNetToolsHead(v: Value)
    ensures Plain(NetToolsHead(v))
  {}

  lemma PlainUnixHead(v: Value)
    ensures Plain(UnixHead(v))
  {}

  lemma PlainHead(style: Style, v: Value)
    ensures Plain(HeadText(style, v))
  {
    match style
    case InGnu => PlainGnuHead(v);
    case InNetTools => PlainNetToolsHead(v);
    case InUnix => PlainUnixHead(v);
    case InOsf =>
  }

  lemma PlainWord(w: Word)
    ensures Plain(WordText(w))
  {
    match w
    case Head(style, v) => PlainHead(style, v);
    case Query(v) => PlainValue(v);
    case _ =>
  }

  lemma PlainFormat(f: Format)
    ensures Plain(FormatText(f))
  {}

  // ---------- well formed, and without cycles ----------

  /** Well formed inside braces, may follow an argument list, and prints only formats of rank below `r`. */
  ghost predicate Good(env: Env, t: Tmpl, r: nat) {
    WellFormed(t, true) && Below(env, t, r) && !(t.Cons? && t.head == Lit('{'))
  }

  /** Only `format` prints named templates; the built-in names are ranked, and no other has a template. */
  ghost predicate Usual(env: Env) {
    && (forall id :: KindOf(env, id).Format? ==> id == "format")
    && (forall f :: env.rank(FormatText(f)) == Rank(f))
  }

  lemma {:induction false} LitsText(s: string, rest: Tmpl)
    ensures Text(Lits(s, rest)) == s + Text(rest)
    decreases |s|
  {
    if s != "" {
      LitsText(s[1..], rest);
      assert s == [s[0]] + s[1..];
    }
  }

  lemma {:induction false} GoodLits(env: Env, s: string, rest: Tmpl, r: nat)
    requires Plain(s) && Good(env, rest, r)
    ensures Good(env, Lits(s, rest), r)
    decreases |s|
  {
    if s != "" {
      assert s[0] in s && forall c :: c in s[1..] ==> c in s;
      GoodLits(env, s[1..], rest, r);
    }
  }

  lemma GoodNamed(env: Env, name: string, rest: Tmpl, r: nat)
    requires Plain(name) && env.rank(name) < r && Good(env, rest, r)
    ensures Good(env, Cons(Sub("format", Arg(Lits(name, Nil), NoArg)), rest), r)
  {
    var t := Lits(name, Nil);
    LitsText(name, Nil);
    assert Text(t) == name + "" && name + "" == name;
    GoodLits(env, name, Nil, r);
    assert ArgsFormed(NoArg) && ArgsFormed(Arg(t, NoArg));
    assert ArgsBelow(env, NoArg, r) && ArgsBelow(env, Arg(t, NoArg), r);
    assert NamesBelow(env, NoArg, r) && NamesBelow(env, Arg(t, NoArg), r);
  }

  lemma GoodName(env: Env, f: Option<Format>, rest: Tmpl, r: nat)
    requires (f.Some? ==> env.rank(FormatText(f.value)) < r) && Good(env, rest, r)
    ensures Good(env, NameTree(f, rest), r)
  {
    if f.Some? {
      PlainFormat(f.value);
      GoodNamed(env, FormatText(f.value), rest, r);
    }
  }

  lemma {:induction false} GoodBody(env: Env, t: Src, rest: Tmpl, r: nat)
    requires Usual(env) && Good(env, rest, r)
    ensures Good(env, BodyTree(t, rest), r)
  {
    match t
    case End =>
    case Run(w, more) =>
      GoodBody(env, more, rest, r);
      PlainWord(w);
      GoodLits(env, WordText(w), BodyTree(more, rest), r);
    case Use(h, args, more) =>
      GoodBody(env, more, rest, r);
      GoodArgs(env, args, r);
      PlainHandler(h);
  }

  lemma {:induction false} GoodArgs(env: Env, a: SrcArgs, r: nat)
    requires Usual(env)
    ensures ArgsFormed(ArgTrees(a)) && ArgsBelow(env, ArgTrees(a), r)
  {
    if a.One? {
      GoodBody(env, a.t, Nil, r);
      GoodArgs(env, a.rest, r);
    }
  }

  // ---------- the table ----------

  function Val(v: Value, rest: Src): Src { Use(Print(v), No, rest) }

  function Break(rest: Src): Src { Use(Line, No, rest) }

  function Call(h: Handler, t: Src, rest: Src): Src { Use(h, One(t, No), rest) }

  function Call2(h: Handler, t: Src, u: Src, rest: Src): Src { Use(h, One(t, One(u, No)), rest) }

  function At(column: Word, rest: Src): Src { Call(Tab, Run(column, End), rest) }

  /** `${exists?}{v?}{t}`. */
  function If(v: Value, t: Src, rest: Src): Src { Call2(IfKnown, Run(Query(v), End), t, rest) }

  /** `${v?}{heading${v}}`. */
  function Field(style: Style, v: Value, rest: Src): Src { Call(Ask(v), Run(Head(style, v), Val(v, End)), rest) }

  /** `${v?}{heading${tab}{16}${v}${\n}}`. */
  function Row(v: Value, rest: Src): Src {
    Call(Ask(v), Run(Head(InGnu, v), At(Column16, Val(v, Break(End)))), rest)
  }

  /** One row for each value. */
  function Rows(vs: seq<Value>, rest: Src): Src
    decreases |vs|
  {
    if vs == [] then rest else Row(vs[0], Rows(vs[1..], rest))
  }

  /** The same, for values that not every system has. */
  function RowsIf(vs: seq<Value>, rest: Src): Src
    decreases |vs|
  {
    if vs == [] then rest else If(vs[0], Row(vs[0], End), RowsIf(vs[1..], rest))
  }

  const GNU_ROWS := [Addr, Netmask, Brdaddr, Dstaddr, Flags, Mtu, Metric]

  const GNU_LINKS := [Hwtype, Hwaddr, Txqlen]

  /** `${netmask}{i}{%02x}`. */
  function Part(i: nat, rest: Src): Src { Call2(Print(Netmask), Run(Octet(i), End), Run(Hex2, End), rest) }

  function Parts(rest: Src): Src { Part(0, Part(1, Part(2, Part(3, rest)))) }

  /** `${v?}{${tab}{10}heading${v}}`. */
  function Column(v: Value, rest: Src): Src {
    Call(Ask(v), At(Column10, Run(Head(InNetTools, v), Val(v, End))), rest)
  }

  /** `<${flags}{string}{,}>`. */
  function FlagNames(rest: Src): Src {
    Run(Less, Call2(Print(Flags), Run(Names, End), Run(Comma, End), Run(More, rest)))
  }

  function GnuHeader(rest: Src): Src { Val(Name, Run(Open, Val(Index, Run(Close, Break(rest))))) }

  function NetToolsLink(rest: Src): Src {
    Val(Name, If(Hwtype, Column(Hwtype, Field(InNetTools, Hwaddr, End)), Break(rest)))
  }

  function NetToolsFields(rest: Src): Src { Field(InNetTools, Brdaddr, Field(InNetTools, Netmask, Use(NewLine, No, rest))) }

  function NetToolsInet(rest: Src): Src {
    Call(Ask(Addr), At(Column10, Run(Head(InNetTools, Addr), Val(Addr, NetToolsFields(End)))), rest)
  }

  function NetToolsFlags(rest: Src): Src {
    At(Column10, Val(Flags, Field(InNetTools, Mtu, Field(InNetTools, Metric, Use(NewLine, No, rest)))))
  }

  function NetToolsQueue(rest: Src): Src { If(Txqlen, Column(Txqlen, Break(End)), Use(NewLine, No, rest)) }

  function UnixFlags(rest: Src): Src {
    Val(Name, Run(Head(InUnix, Flags), Call(Print(Flags), Run(Number, End), FlagNames(rest))))
  }

  function OsfFlags(rest: Src): Src {
    Val(Name, Run(Head(InUnix, Flags), Call2(Print(Flags), Run(Number, End), Run(Hex, End), FlagNames(rest))))
  }

  /** `${addr?}{${\t}inet ${addr} netmask ...${brdaddr?}{ broadcast ${brdaddr}}` and `t`, then the closing brace. */
  function UnixInet(t: Src, rest: Src): Src {
    var masks := Run(Head(InUnix, Netmask), Parts(Field(InUnix, Brdaddr, t)));
    Call(Ask(Addr), Use(Stop, No, Run(Head(InUnix, Addr), Val(Addr, masks))), rest)
  }

  function UnixLink(rest: Src): Src {
    If(Hwtype, Call(Ask(Hwtype), Use(Stop, No, Val(Hwtype, End)), If(Hwaddr, Field(InUnix, Hwaddr, End), Break(End))), rest)
  }

  function Missing(): Src {
    Call(Complain, Val(Progname, Run(NoInterface, Val(Name, Run(NotThere, Break(End))))), Call(Exit, Run(Status, End), End))
  }

  function Body(f: Format): Src {
    match f
    case Default => End
    case Gnu => Call2(Ask(First), End, Break(End), End)
    case GnuOneEntry => GnuHeader(Rows(GNU_ROWS, RowsIf(GNU_LINKS, End)))
    case NetTools => NetToolsLink(NetToolsInet(NetToolsFlags(NetToolsQueue(End))))
    case Unix => UnixFlags(Field(InUnix, Mtu, Break(UnixInet(Break(End), UnixLink(End)))))
    case Osf => OsfFlags(Break(UnixInet(Field(InOsf, Mtu, Break(End)), End)))
    case CheckExistance => Call2(Ask(Index), End, Missing(), End)
  }

  /** The format a template prints before its body. */
  function Before(f: Format): Option<Format> {
    match f
    case Default => Some(Gnu)
    case Gnu => None
    case CheckExistance => None
    case _ => Some(CheckExistance)
  }

  function After(f: Format): Option<Format> { if f == Gnu then Some(GnuOneEntry) else None }

  function Tree(f: Format): Tmpl { NameTree(Before(f), BodyTree(Body(f), NameTree(After(f), Nil))) }

  /** `formats`. */
  ghost predicate IsTable(formats: map<string, Tmpl>) { OnlyBuiltin(formats.Keys) && HasAll(formats) }

  ghost predicate OnlyBuiltin(names: set<string>) { forall name :: name in names ==> exists f :: name == FormatText(f) }

  ghost predicate HasAll(formats: map<string, Tmpl>) {
    forall f :: FormatText(f) in formats && formats[FormatText(f)] == Tree(f)
  }

  /** What a template is printed with is of lower rank. */
  lemma LowerNames(env: Env, f: Format)
    requires Usual(env)
    ensures Before(f).Some? ==> env.rank(FormatText(Before(f).value)) < Rank(f)
    ensures After(f).Some? ==> env.rank(FormatText(After(f).value)) < Rank(f)
  {}

  /** Whatever is between these names. */
  lemma GoodEntry(env: Env, before: Option<Format>, body: Src, after: Option<Format>, r: nat)
    requires Usual(env) && (before.Some? ==> env.rank(FormatText(before.value)) < r)
    requires after.Some? ==> env.rank(FormatText(after.value)) < r
    ensures Good(env, NameTree(before, BodyTree(body, NameTree(after, Nil))), r)
  {
    GoodName(env, after, Nil, r);
    GoodBody(env, body, NameTree(after, Nil), r);
    GoodName(env, before, BodyTree(body, NameTree(after, Nil)), r);
  }

  /** The built-in templates are well formed and have no cycles, so that every template can be evaluated. */
  lemma TableIsAcyclic(env: Env)
    requires Usual(env) && IsTable(env.formats)
    ensures Acyclic(env)
  {
    forall name | name in env.formats
      ensures WellFormed(env.formats[name], true) && Below(env, env.formats[name], env.rank(name))
    {
      var f :| name == FormatText(f);
      LowerNames(env, f);
      GoodEntry(env, Before(f), Body(f), After(f), Rank(f));
    }
  }

  ghost predicate Ranked(env: Env) { forall name :: name in env.formats ==> env.rank(name) < 4 }

  lemma TableIsRanked(env: Env)
    requires Usual(env) && OnlyBuiltin(env.formats.Keys)
    ensures Ranked(env)
  {
    forall name | name in env.formats ensures env.rank(name) < 4 {
      var f :| name == FormatText(f);
    }
  }

  /** With the built-in table any template at all has a rank. */
  lemma AllBelow(env: Env, t: Tmpl)
    requires Usual(env) && IsTable(env.formats)
    ensures Below(env, t, 4)
  {
    TableIsRanked(env);
    AnyBelow(env, t);
  }

  lemma {:induction false} AnyBelow(env: Env, t: Tmpl)
    requires Ranked(env)
    ensures Below(env, t, 4)
  {
    if t.Cons? {
      AnyBelow(env, t.tail);
      if t.head.Sub? { AnyArgsBelow(env, t.head.args); }
    }
  }

  lemma {:induction false} AnyArgsBelow(env: Env, a: Args)
    requires Ranked(env)
    ensures ArgsBelow(env, a, 4) && NamesBelow(env, a, 4)
  {
    if a.Arg? {
      AnyBelow(env, a.t);
      AnyArgsBelow(env, a.rest);
    }
  }

  // ---------- the texts ----------

  function SrcText(t: Src): string {
    match t
    case End => ""
    case Run(w, rest) => WordText(w) + SrcText(rest)
    case Use(h, args, rest) => "${" + HandlerText(h) + "}" + SrcTexts(args) + SrcText(rest)
  }

  function SrcTexts(a: SrcArgs): string {
    match a
    case No => ""
    case One(t, rest) => "{" + SrcText(t) + "}" + SrcTexts(rest)
  }

  lemma Opening(h: string, args: string, more: string, rest: string)
    ensures (['$', '{'] + h + ['}'] + args) + (more + rest) == ("${" + h + "}" + args + more) + rest
  {
    assert "${" == ['$', '{'] && "}" == ['}'];
  }

  lemma {:induction false} BodyText(t: Src, rest: Tmpl)
    ensures Text(BodyTree(t, rest)) == SrcText(t) + Text(rest)
  {
    match t
    case End =>
    case Run(w, more) =>
      BodyText(more, rest);
      LitsText(WordText(w), BodyTree(more, rest));
    case Use(h, args, more) =>
      BodyText(more, rest);
      ArgTexts(args);
      Opening(HandlerText(h), SrcTexts(args), SrcText(more), Text(rest));
  }

  lemma {:induction false} ArgTexts(a: SrcArgs)
    ensures ArgsText(ArgTrees(a)) == SrcTexts(a)
  {
    if a.One? {
      BodyText(a.t, Nil);
      ArgTexts(a.rest);
      assert "{" == ['{'] && "}" == ['}'];
    }
  }

  /** `${h}`. */
  function Sign(h: string): string { "${" + h + "}" }

  function Braced(t: string): string { "{" + t + "}" }

  function NameText(f: Option<Format>): string {
    if f.None? then "" else Sign("format") + Braced(FormatText(f.value))
  }

  lemma NameTreeText(f: Option<Format>, rest: Tmpl)
    ensures Text(NameTree(f, rest)) == NameText(f) + Text(rest)
  {
    if f.Some? {
      var name := FormatText(f.value);
      LitsText(name, Nil);
      assert Text(Lits(name, Nil)) == name + "" && name + "" == name;
      assert ArgsText(NoArg) == "" && ArgsText(Arg(Lits(name, Nil), NoArg)) == Braced(name) + "";
      assert Braced(name) + "" == Braced(name);
      assert "${" == ['$', '{'] && "}" == ['}'] && "{" == ['{'];
    }
  }

  /** The text of a built-in template. */
  lemma TreeText(f: Format)
    ensures Text(Tree(f)) == NameText(Before(f)) + (SrcText(Body(f)) + NameText(After(f)))
  {
    NameTreeText(After(f), Nil);
    assert Text(Nil) == "" && NameText(After(f)) + "" == NameText(After(f));
    BodyText(Body(f), NameTree(After(f), Nil));
    NameTreeText(Before(f), BodyTree(Body(f), NameTree(After(f), Nil)));
  }

  lemma UseText(h: Handler, t: Src, u: Src, rest: Src)
    ensures SrcText(Use(h, No, rest)) == Sign(HandlerText(h)) + SrcText(rest)
    ensures SrcText(Call(h, t, rest)) == Sign(HandlerText(h)) + Braced(SrcText(t)) + SrcText(rest)
    ensures SrcText(Call2(h, t, u, rest)) == Sign(HandlerText(h)) + (Braced(SrcText(t)) + Braced(SrcText(u))) + SrcText(rest)
  {
    var s, a, b := Sign(HandlerText(h)), Braced(SrcText(t)), Braced(SrcText(u));
    assert SrcTexts(No) == "" && SrcTexts(One(t, No)) == a + "" && SrcTexts(One(u, No)) == b + "";
    assert SrcTexts(One(t, One(u, No))) == a + (b + "");
    assert s + "" == s && a + "" == a && b + "" == b;
  }

  /** `${v?}{heading${v}}`. */
  lemma FieldText(style: Style, v: Value, rest: Src)
    ensures SrcText(Field(style, v, rest))
         == Sign(ValueText(v) + "?") + Braced(HeadText(style, v) + Sign(ValueText(v))) + SrcText(rest)
  {
    UseText(Print(v), End, End, End);
    assert SrcText(End) == "" && Sign(ValueText(v)) + "" == Sign(ValueText(v));
    UseText(Ask(v), Run(Head(style, v), Val(v, End)), End, rest);
  }

  /** `${v?}{heading${tab}{16}${v}${\n}}`. */
  lemma RowText(v: Value, rest: Src)
    ensures SrcText(Row(v, rest)) ==
      Sign(ValueText(v) + "?")
        + Braced(GnuHead(v) + (Sign("tab") + Braced("16") + (Sign(ValueText(v)) + Sign("\\n"))))
        + SrcText(rest)
  {
    var line := Break(End);
    assert SrcText(End) == "" && Sign("\\n") + "" == Sign("\\n") && "16" + "" == "16";
    UseText(Line, End, End, End);
    UseText(Print(v), End, End, line);
    var column := Run(Column16, End);
    assert SrcText(column) == "16";
    UseText(Tab, column, End, Val(v, line));
    UseText(Ask(v), Run(Head(InGnu, v), At(Column16, Val(v, line))), End, rest);
  }
}
