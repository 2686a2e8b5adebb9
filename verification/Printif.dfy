/**
 `print_interfaceX` and the handlers it calls: a scanner over template text
 that changes the format pointer, the nesting depth and the output as it goes.
 Each procedure is proved against the value of the syntax tree of its text.
 */
module Printif {
  import opened Template

  // ---------- the text ahead and the tree it belongs to ----------

  /** Where the scan has not stopped, the text of an item lies ahead. */
  lemma NextItem(rem: Tmpl, suffix: string, nested: bool, p: string)
    requires p == Text(rem) + suffix && (suffix == "" || (nested && suffix[0] == '}'))
    requires WellFormed(rem, nested) && p != "" && !(nested && p[0] == '}')
    ensures rem.Cons?
    ensures p[0] != '$' <==> rem.head.Lit?
    ensures rem.head.Lit? ==> p[0] == rem.head.c && p[1..] == Text(rem.tail) + suffix
    ensures !rem.head.Lit? ==> |p| >= 2
    ensures rem.head.Esc? || rem.head.Raw? ==> p[1] == rem.head.c && p[2..] == Text(rem.tail) + suffix
    ensures rem.head.Sub? ==>
      p[1] == '{' && p[2..] == rem.head.id + ['}'] + (ArgsText(rem.head.args) + (Text(rem.tail) + suffix))
  {
    var rest := Text(rem.tail) + suffix;
    assert p == ItemText(rem.head) + rest;
    match rem.head
    case Lit(c) =>
    case Esc(c) =>
    case Raw(c) =>
    case Sub(id, args) =>
      assert p == ['$', '{'] + (id + ['}'] + (ArgsText(args) + rest));
  }

  /** Where the scan stops, nothing of the tree is left. */
  lemma AtEnd(rem: Tmpl, suffix: string, nested: bool, p: string)
    requires p == Text(rem) + suffix && WellFormed(rem, nested)
    requires p == "" || (nested && p[0] == '}')
    ensures rem == Nil && p == suffix
  {
  }

  /** What follows an argument list cannot be taken for one more argument. */
  lemma NotArgument(t: Tmpl, suffix: string, nested: bool)
    requires t.Cons? && t.head.Sub? && WellFormed(t, nested) && (suffix == "" || suffix[0] == '}')
    ensures var rest := Text(t.tail) + suffix; rest == "" || rest[0] != '{'
  {
    if t.tail.Cons? {
      var i, more := ItemText(t.tail.head), Text(t.tail.tail);
      assert Text(t.tail) == i + more && i != [];
      assert (Text(t.tail) + suffix)[0] == i[0];
    }
  }

  lemma ArgAhead(left: Args, rest: string, q: string)
    requires q == ArgsText(left) + rest && (rest == "" || rest[0] != '{') && q != "" && q[0] == '{'
    ensures left.Arg? && q[1..] == Text(left.t) + (['}'] + (ArgsText(left.rest) + rest))
  {
    assert q == ['{'] + (Text(left.t) + (['}'] + (ArgsText(left.rest) + rest)));
  }

  lemma ArgsEnd(left: Args, rest: string, q: string)
    requires q == ArgsText(left) + rest && (q == "" || q[0] != '{')
    ensures left == NoArg && q == rest
  {
  }

  ghost function Nth(args: Args, nr: nat): Tmpl
    requires nr < |Texts(args)|
  {
    if nr == 0 then args.t else Nth(args.rest, nr - 1)
  }

  /** Choosing the argument text with number `nr` chooses the value of that argument. */
  lemma {:induction false} NthFacts(env: Env, args: Args, nr: nat, o: Out, r: nat)
    requires nr < |Texts(args)| && ArgsFormed(args) && Acyclic(env) && ArgsBelow(env, args, r)
    ensures Texts(args)[nr] == Text(Nth(args, nr)) && WellFormed(Nth(args, nr), true)
    ensures Below(env, Nth(args, nr), r) && Size(Nth(args, nr)) < ArgsSize(args)
    ensures EvalArg(env, args, nr, o, r) == Eval(env, Nth(args, nr), o, r)
    decreases nr
  {
    if nr > 0 { NthFacts(env, args.rest, nr - 1, o, r); }
  }

  lemma {:induction false} NoNth(env: Env, args: Args, nr: nat, o: Out, r: nat)
    requires nr >= |Texts(args)| && Acyclic(env) && ArgsBelow(env, args, r)
    ensures EvalArg(env, args, nr, o, r) == o
    decreases nr
  {
    if args.Arg? { NoNth(env, args.rest, nr - 1, o, r); }
  }

  class Form {
    const env: Env
    var format: string          // what is left of the template
    var depth: nat
    var o: Out

    constructor (env: Env, format: string)
      ensures this.env == env && this.format == format && depth == 0 && o == Out("", 0, "", 0)
    {
      this.env, this.format, this.depth, this.o := env, format, 0, Out("", 0, "", 0);
    }

    /** `put_char`. */
    method Put(c: char)
      modifies this`o
      ensures o == PutChar(old(o), c)
    {
      var col := o.col + 1;
      if c == '\n' {
        col := 0;
      } else if c == '\t' {
        col := (o.col / TAB_STOP + 1) * TAB_STOP;
      }
      o := o.(out := o.out + [c], col := col);
    }

    /** `put_string`. */
    method PutAll(s: string)
      modifies this`o
      ensures o == PutString(old(o), s)
    {
      var i := 0;
      while i < |s|
        invariant i <= |s| && PutString(o, s[i..]) == PutString(old(o), s)
      {
        assert s[i..][0] == s[i] && s[i..][1..] == s[i + 1..];
        Put(s[i]);
        i := i + 1;
      }
    }

    /**
     `print_interfaceX`.  The text ahead is that of `t`, followed by the end of
     the string or, inside braces, by a closing brace.  Printing or quiet, the
     scan stops exactly there and leaves the depth as it was; printing adds the
     value of `t` to the output, and a quiet pass adds nothing.
     */
    method Print(quiet: bool, ghost t: Tmpl, ghost suffix: string, ghost r: nat)
      requires format == Text(t) + suffix && (suffix == "" || (depth >= 1 && suffix[0] == '}'))
      requires WellFormed(t, depth >= 1) && Acyclic(env) && Below(env, t, r)
      modifies this`format, this`depth, this`o
      ensures format == suffix && depth == old(depth)
      ensures o == if quiet then old(o) else Eval(env, t, old(o), r)
      decreases r, Size(t), 1
    {
      var p := format;
      depth := depth + 1;
      ghost var rem := t;
      ghost var nested := depth > 1;
      while p != "" && !(depth > 1 && p[0] == '}')
        invariant depth == old(depth) + 1 && p == Text(rem) + suffix
        invariant WellFormed(rem, nested) && Below(env, rem, r) && Size(rem) <= Size(t)
        invariant if quiet then o == old(o) else Eval(env, rem, o, r) == Eval(env, t, old(o), r)
        decreases Size(rem)
      {
        NextItem(rem, suffix, nested, p);
        assert p[0] == ItemText(rem.head)[0];
        if p[0] != '$' {
          // echo
          if !quiet { Put(p[0]); }
          p := p[1..];
          rem := rem.tail;
          continue;
        }
        if p[1] == '$' || p[1] == '}' {
          if !quiet { Put(p[1]); }
          p := p[2..];
          rem := rem.tail;
        } else if p[1] != '{' {
          if !quiet {
            Put('$');
            Put(p[1]);
          }
          p := p[2..];
          rem := rem.tail;
        } else {
          p := Substitute(quiet, p[2..], rem, suffix, r);
          rem := rem.tail;
        }
      }
      AtEnd(rem, suffix, nested, p);
      format := p;
      depth := depth - 1;
    }

    /** From the character after `${` to the end of the arguments. */
    method Substitute(quiet: bool, p: string, ghost t: Tmpl, ghost suffix: string, ghost r: nat) returns (q: string)
      requires t.Cons? && t.head.Sub? && p == t.head.id + ['}'] + (ArgsText(t.head.args) + (Text(t.tail) + suffix))
      requires depth >= 1 && WellFormed(t, depth > 1) && Acyclic(env) && Below(env, t, r)
      requires suffix == "" || (depth > 1 && suffix[0] == '}')
      modifies this`format, this`depth, this`o
      ensures q == Text(t.tail) + suffix && depth == old(depth)
      ensures o == if quiet then old(o) else EvalItem(env, t.head, old(o), r)
      decreases r, Size(t), 0
    {
      ghost var args := t.head.args;
      ghost var rest := Text(t.tail) + suffix;
      NotArgument(t, suffix, depth > 1);
      var i := 0;
      while p[i] != '}'
        invariant i <= |t.head.id| && p[..i] == t.head.id[..i]
        decreases |t.head.id| - i
      {
        assert p[i] == t.head.id[i];
        i := i + 1;
      }
      var id := p[..i];
      assert id == t.head.id;
      assert p[i + 1..] == ArgsText(args) + rest;
      if quiet {
        var _, _ := ReadArgs(p[i + 1..], args, rest, r);
        q := format;
      } else {
        var argv;
        argv, q := ReadArgs(p[i + 1..], args, rest, r);
        Call(id, argv, args, r);
      }
    }

    /** The loop that takes the arguments: each is skipped quietly and its text kept. */
    method ReadArgs(p: string, ghost args: Args, ghost rest: string, ghost r: nat) returns (argv: seq<string>, q: string)
      requires p == ArgsText(args) + rest && (rest == "" || rest[0] != '{')
      requires depth >= 1 && ArgsFormed(args) && Acyclic(env) && ArgsBelow(env, args, r)
      modifies this`format, this`depth, this`o
      ensures argv == Texts(args) && q == rest && format == rest && depth == old(depth) && o == old(o)
      decreases r, ArgsSize(args), 1
    {
      q := p;
      argv := [];
      format := p;
      ghost var left := args;
      while q != "" && q[0] == '{'
        invariant q == ArgsText(left) + rest && format == q && depth == old(depth) && o == old(o)
        invariant ArgsFormed(left) && ArgsBelow(env, left, r) && ArgsSize(left) <= ArgsSize(args)
        invariant argv + Texts(left) == Texts(args)
        decreases ArgsSize(left)
      {
        ArgAhead(left, rest, q);
        ghost var after := ['}'] + (ArgsText(left.rest) + rest);
        q := q[1..];
        format := q;
        assert q == Text(left.t) + after;
        Print(true, left.t, after, r);
        argv := argv + [q[..|q| - |format|]];
        assert q[..|q| - |format|] == Text(left.t);
        assert format[0] == '}';
        format := format[1..];
        q := format;
        left := left.rest;
      }
      ArgsEnd(left, rest, q);
    }

    /** `format_handler`. */
    method Call(id: string, argv: seq<string>, ghost args: Args, ghost r: nat)
      requires argv == Texts(args) && depth >= 1 && ArgsFormed(args) && Acyclic(env) && SubBelow(env, id, args, r)
      modifies this`format, this`depth, this`o
      ensures depth == old(depth) && o == Handle(env, id, args, old(o), r)
      decreases r, ArgsSize(args), 3
    {
      match KindOf(env, id)
      case Choose(nr) => SelectArg(argv, nr, args, r);
      case Exists =>
        if |argv| > 0 {
          SelectArg(argv, if argv[0] in env.kinds then 1 else 2, args, r);
        }
      case Format => Formats(argv, args, r);
      case Error =>
        o := Switch(o);
        SelectAll(argv, args, r);
        o := Switch(o);
      case Leaf => PutAll(env.leaf(id, argv, o.col));
    }

    /** `select_arg`. */
    method SelectArg(argv: seq<string>, nr: nat, ghost args: Args, ghost r: nat)
      requires argv == Texts(args) && depth >= 1 && ArgsFormed(args) && Acyclic(env) && ArgsBelow(env, args, r)
      modifies this`format, this`depth, this`o
      ensures depth == old(depth) && o == EvalArg(env, args, nr, old(o), r)
      decreases r, ArgsSize(args), 2
    {
      if nr < |argv| {
        ghost var t := Nth(args, nr);
        NthFacts(env, args, nr, old(o), r);
        format := argv[nr];
        assert format == Text(t) + "";
        Print(false, t, "", r);
      } else {
        NoNth(env, args, nr, o, r);
      }
    }

    /** The loop of `fh_error`. */
    method SelectAll(argv: seq<string>, ghost args: Args, ghost r: nat)
      requires argv == Texts(args) && depth >= 1 && ArgsFormed(args) && Acyclic(env) && ArgsBelow(env, args, r)
      modifies this`format, this`depth, this`o
      ensures depth == old(depth) && o == EvalAll(env, args, old(o), r)
      decreases r, ArgsSize(args), 2
    {
      var i := 0;
      ghost var left := args;
      while i < |argv|
        invariant i <= |argv| && argv[i..] == Texts(left) && depth == old(depth)
        invariant ArgsFormed(left) && ArgsBelow(env, left, r) && ArgsSize(left) <= ArgsSize(args)
        invariant EvalAll(env, left, o, r) == EvalAll(env, args, old(o), r)
      {
        assert argv[i..][0] == argv[i] && argv[i + 1..] == argv[i..][1..];
        format := argv[i];
        assert format == Text(left.t) + "";
        Print(false, left.t, "", r);
        left := left.rest;
        i := i + 1;
      }
    }

    /** `fh_format`. */
    method Formats(argv: seq<string>, ghost args: Args, ghost r: nat)
      requires argv == Texts(args) && depth >= 1 && Acyclic(env) && NamesBelow(env, args, r)
      modifies this`format, this`depth, this`o
      ensures depth == old(depth) && o == EvalNames(env, args, old(o), r)
      decreases r, ArgsSize(args), 2
    {
      var i := 0;
      ghost var left := args;
      while i < |argv|
        invariant i <= |argv| && argv[i..] == Texts(left) && depth == old(depth)
        invariant NamesBelow(env, left, r)
        invariant EvalNames(env, left, o, r) == EvalNames(env, args, old(o), r)
      {
        assert argv[i..][0] == argv[i] && argv[i + 1..] == argv[i..][1..];
        if argv[i] in env.formats {
          format := Text(env.formats[argv[i]]);
          assert format == Text(env.formats[argv[i]]) + "";
          Print(false, env.formats[argv[i]], "", env.rank(argv[i]));
        }
        left := left.rest;
        i := i + 1;
      }
    }
  }
}
