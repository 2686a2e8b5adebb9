/**
 The output templates of `ifconfig/printif.c`: what a template means, as the
 value of a syntax tree.
 */
module Template {

  const TAB_STOP := 8

  datatype Tmpl = Nil | Cons(head: Item, tail: Tmpl)

  /** Pieces of a template: a character; `$$` or `$}`; `$c`, which stands for itself; `${id}{arg}{arg}...`. */
  datatype Item = Lit(c: char) | Esc(c: char) | Raw(c: char) | Sub(id: string, args: Args)

  datatype Args = NoArg | Arg(t: Tmpl, rest: Args)

  // ---------- the text of a template ----------

  function Text(t: Tmpl): string {
    match t
    case Nil => ""
    case Cons(i, rest) => ItemText(i) + Text(rest)
  }

  function ItemText(i: Item): string {
    match i
    case Lit(c) => [c]
    case Esc(c) => ['$', c]
    case Raw(c) => ['$', c]
    case Sub(id, args) => ['$', '{'] + id + ['}'] + ArgsText(args)
  }

  function ArgsText(a: Args): string {
    match a
    case NoArg => ""
    case Arg(t, rest) => ['{'] + Text(t) + ['}'] + ArgsText(rest)
  }

  /** The raw argument strings, as a handler gets them. */
  function Texts(a: Args): seq<string> {
    match a
    case NoArg => []
    case Arg(t, rest) => [Text(t)] + Texts(rest)
  }

  /** Inside braces a closing brace must be escaped, and no argument list may run into an open brace. */
  predicate WellFormed(t: Tmpl, nested: bool) {
    match t
    case Nil => true
    case Cons(i, rest) =>
      && ItemFormed(i, nested)
      && WellFormed(rest, nested)
      && (i.Sub? && rest.Cons? ==> rest.head != Lit('{'))
  }

  predicate ItemFormed(i: Item, nested: bool) {
    match i
    case Lit(c) => c != '$' && (nested ==> c != '}')
    case Esc(c) => c == '$' || c == '}'
    case Raw(c) => c != '$' && c != '}' && c != '{'
    case Sub(id, args) => '}' !in id && ArgsFormed(args)
  }

  predicate ArgsFormed(a: Args) {
    match a
    case NoArg => true
    case Arg(t, rest) => WellFormed(t, true) && ArgsFormed(rest)
  }

  // ---------- handlers and named formats ----------

  datatype Kind =
    | Choose(nr: nat)       // `first?`, `addr?`, ...: print one argument
    | Exists                // `exists?`
    | Format                // `format`: print named templates
    | Error                 // `error`: print all arguments on the other stream
    | Leaf                  // prints a string made from the raw arguments and the column

  /** One interface: its handlers, the strings they print, and the named templates with a rank for each. */
  datatype Env = Env(
    kinds: map<string, Kind>,
    leaf: (string, seq<string>, nat) -> string,
    formats: map<string, Tmpl>,
    rank: string -> nat)

  function KindOf(env: Env, id: string): Kind { if id in env.kinds then env.kinds[id] else Leaf }

  /** Every named template that `t` may print has a rank below `r`. */
  predicate Below(env: Env, t: Tmpl, r: nat)
    decreases t, 0
  {
    match t
    case Nil => true
    case Cons(i, rest) => (i.Sub? ==> SubBelow(env, i.id, i.args, r)) && Below(env, rest, r)
  }

  predicate SubBelow(env: Env, id: string, a: Args, r: nat)
    decreases a, 1
  {
    && ArgsBelow(env, a, r)
    && (KindOf(env, id).Format? ==> NamesBelow(env, a, r))
  }

  predicate ArgsBelow(env: Env, a: Args, r: nat)
    decreases a, 0
  {
    match a
    case NoArg => true
    case Arg(t, rest) => Below(env, t, r) && ArgsBelow(env, rest, r)
  }

  predicate NamesBelow(env: Env, a: Args, r: nat) {
    match a
    case NoArg => true
    case Arg(t, rest) => (Text(t) in env.formats ==> env.rank(Text(t)) < r) && NamesBelow(env, rest, r)
  }

  /** Named templates refer to each other without cycles. */
  predicate Acyclic(env: Env) {
    forall name :: name in env.formats ==>
      WellFormed(env.formats[name], true) && Below(env, env.formats[name], env.rank(name))
  }

  // ---------- output ----------

  /** The current stream and its column, and the other one. */
  datatype Out = Out(out: string, col: nat, other: string, otherCol: nat)

  function PutChar(o: Out, c: char): Out {
    o.(out := o.out + [c],
       col := if c == '\n' then 0 else if c == '\t' then (o.col / TAB_STOP + 1) * TAB_STOP else o.col + 1)
  }

  function PutString(o: Out, s: string): Out
    decreases |s|
  {
    if s == "" then o else PutString(PutChar(o, s[0]), s[1..])
  }

  function Switch(o: Out): Out { Out(o.other, o.otherCol, o.out, o.col) }

  // ---------- the value of a template ----------

  function Size(t: Tmpl): nat {
    match t
    case Nil => 0
    case Cons(i, rest) => 1 + (if i.Sub? then ArgsSize(i.args) else 0) + Size(rest)
  }

  function ArgsSize(a: Args): nat {
    match a
    case NoArg => 0
    case Arg(t, rest) => 1 + Size(t) + ArgsSize(rest)
  }

  function Eval(env: Env, t: Tmpl, o: Out, r: nat): Out
    requires Acyclic(env) && Below(env, t, r)
    decreases r, Size(t), 0
  {
    match t
    case Nil => o
    case Cons(i, rest) => Eval(env, rest, EvalItem(env, i, o, r), r)
  }

  function EvalItem(env: Env, i: Item, o: Out, r: nat): Out
    requires Acyclic(env) && (i.Sub? ==> SubBelow(env, i.id, i.args, r))
    decreases r, if i.Sub? then ArgsSize(i.args) else 0, 4
  {
    match i
    case Lit(c) => PutChar(o, c)
    case Esc(c) => PutChar(o, c)
    case Raw(c) => PutChar(PutChar(o, '$'), c)
    case Sub(id, args) => Handle(env, id, args, o, r)
  }

  function Handle(env: Env, id: string, args: Args, o: Out, r: nat): Out
    requires Acyclic(env) && SubBelow(env, id, args, r)
    decreases r, ArgsSize(args), 3
  {
    match KindOf(env, id)
    case Choose(nr) => EvalArg(env, args, nr, o, r)
    case Exists =>
      if args.NoArg? then o else EvalArg(env, args, if Text(args.t) in env.kinds then 1 else 2, o, r)
    case Format => EvalNames(env, args, o, r)
    case Error => Switch(EvalAll(env, args, Switch(o), r))
    case Leaf => PutString(o, env.leaf(id, Texts(args), o.col))
  }

  function EvalArg(env: Env, args: Args, nr: nat, o: Out, r: nat): Out
    requires Acyclic(env) && ArgsBelow(env, args, r)
    decreases r, ArgsSize(args), 2
  {
    match args
    case NoArg => o
    case Arg(t, rest) => if nr == 0 then Eval(env, t, o, r) else EvalArg(env, rest, nr - 1, o, r)
  }

  function EvalAll(env: Env, args: Args, o: Out, r: nat): Out
    requires Acyclic(env) && ArgsBelow(env, args, r)
    decreases r, ArgsSize(args), 2
  {
    match args
    case NoArg => o
    case Arg(t, rest) => EvalAll(env, rest, Eval(env, t, o, r), r)
  }

  function EvalNames(env: Env, args: Args, o: Out, r: nat): Out
    requires Acyclic(env) && NamesBelow(env, args, r)
    decreases r, ArgsSize(args), 2
  {
    match args
    case NoArg => o
    case Arg(t, rest) =>
      var name := Text(t);
      EvalNames(env, rest, if name in env.formats then Eval(env, env.formats[name], o, env.rank(name)) else o, r)
  }

  // ---------- the rank serves termination only ----------

  lemma {:induction false} RankDoesNotMatter(env: Env, t: Tmpl, o: Out, r: nat, q: nat)
    requires Acyclic(env) && Below(env, t, r) && Below(env, t, q)
    ensures Eval(env, t, o, r) == Eval(env, t, o, q)
    decreases Size(t), 0
  {
    if t.Cons? {
      if t.head.Sub? { RankDoesNotMatterToCall(env, t.head.id, t.head.args, o, r, q); }
      RankDoesNotMatter(env, t.tail, EvalItem(env, t.head, o, r), r, q);
    }
  }

  lemma RankDoesNotMatterToCall(env: Env, id: string, a: Args, o: Out, r: nat, q: nat)
    requires Acyclic(env) && SubBelow(env, id, a, r) && SubBelow(env, id, a, q)
    ensures Handle(env, id, a, o, r) == Handle(env, id, a, o, q)
    decreases ArgsSize(a), 1
  {
    match KindOf(env, id)
    case Choose(nr) => RankDoesNotMatterToArg(env, a, nr, o, r, q);
    case Exists =>
      if a.Arg? { RankDoesNotMatterToArg(env, a, if Text(a.t) in env.kinds then 1 else 2, o, r, q); }
    case Format => RankDoesNotMatterToNames(env, a, o, r, q);
    case Error => RankDoesNotMatterToAll(env, a, Switch(o), r, q);
    case Leaf =>
  }

  lemma {:induction false} RankDoesNotMatterToArg(env: Env, a: Args, nr: nat, o: Out, r: nat, q: nat)
    requires Acyclic(env) && ArgsBelow(env, a, r) && ArgsBelow(env, a, q)
    ensures EvalArg(env, a, nr, o, r) == EvalArg(env, a, nr, o, q)
    decreases ArgsSize(a), 0
  {
    if a.Arg? {
      if nr == 0 {
        RankDoesNotMatter(env, a.t, o, r, q);
      } else {
        RankDoesNotMatterToArg(env, a.rest, nr - 1, o, r, q);
      }
    }
  }

  lemma {:induction false} RankDoesNotMatterToAll(env: Env, a: Args, o: Out, r: nat, q: nat)
    requires Acyclic(env) && ArgsBelow(env, a, r) && ArgsBelow(env, a, q)
    ensures EvalAll(env, a, o, r) == EvalAll(env, a, o, q)
    decreases ArgsSize(a), 0
  {
    if a.Arg? {
      RankDoesNotMatter(env, a.t, o, r, q);
      RankDoesNotMatterToAll(env, a.rest, Eval(env, a.t, o, r), r, q);
    }
  }

  lemma {:induction false} RankDoesNotMatterToNames(env: Env, a: Args, o: Out, r: nat, q: nat)
    requires Acyclic(env) && NamesBelow(env, a, r) && NamesBelow(env, a, q)
    ensures EvalNames(env, a, o, r) == EvalNames(env, a, o, q)
    decreases ArgsSize(a), 0
  {
    if a.Arg? {
      var name := Text(a.t);
      RankDoesNotMatterToNames(env, a.rest,
        if name in env.formats then Eval(env, env.formats[name], o, env.rank(name)) else o, r, q);
    }
  }
}
