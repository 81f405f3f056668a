/**
 The grammar of cart predicates over tokens. A `Tree` is a parse tree with its parentheses; the
 predicates `IsExpr`, `IsTerm` and `IsFactor` are the productions of the grammar and `Yield` reads
 the tokens back off a tree.
 */
module PredicateSyntax {

  datatype Op = Eq | Ne | Gt | Lt | Ge | Le

  datatype Token =
    | LParen | RParen | Comma | Dot
    | KwOr | KwAnd | KwIn | KwIs | KwNot | KwDefined
    | Operator(op: Op)
    | Name(name: string)
    | Backtick(name: string)
    | EscapedString(text: string)
    | SignedNumber(number: real)

  datatype Segment = Plain(name: string) | Quoted(name: string)

  datatype Literal = Text(text: string) | Number(number: real) | Word(name: string)

  datatype Field =
    | Dotted(first: string, rest: seq<Segment>)
    | EmptyCall(function_: string)
    | Call(function_: string, args: Args)

  datatype Args = Last(arg: Tree) | More(arg: Tree, others: Args)

  datatype Tree =
    | Or(left: Tree, right: Tree)
    | And(left: Tree, right: Tree)
    | Paren(inner: Tree)
    | Compare(field: Field, op: Op, value: Literal)
    | In(field: Field, negated: bool, items: seq<Literal>)
    | IsDefined(field: Field, negated: bool)

  // ----- Productions -----

  /** How loosely the root binds: 2 for `or`, 1 for `and`, 0 for a factor. */
  function Looseness(t: Tree): nat {
    match t
    case Or(_, _) => 2
    case And(_, _) => 1
    case _ => 0
  }

  /** The trees derived by `expr`. */
  predicate IsExpr(t: Tree) {
    match t
    case Or(l, r) => IsExpr(l) && IsExpr(r) && Looseness(r) <= 1
    case And(l, r) => IsExpr(l) && Looseness(l) <= 1 && IsExpr(r) && Looseness(r) == 0
    case Paren(e) => IsExpr(e)
    case Compare(f, _, _) => IsField(f)
    case In(f, _, items) => IsField(f) && items != []
    case IsDefined(f, _) => IsField(f)
  }

  predicate IsField(f: Field) {
    f.Call? ==> IsArgs(f.args)
  }

  predicate IsArgs(a: Args) {
    match a
    case Last(e) => IsExpr(e)
    case More(e, rest) => IsExpr(e) && IsArgs(rest)
  }

  predicate IsTerm(t: Tree) {
    IsExpr(t) && Looseness(t) <= 1
  }

  predicate IsFactor(t: Tree) {
    IsExpr(t) && Looseness(t) == 0
  }

  /** The three predicates are the three left-recursive productions of the grammar. */
  lemma Productions(t: Tree)
    ensures IsExpr(t) <==> (t.Or? && IsExpr(t.left) && IsTerm(t.right)) || IsTerm(t)
    ensures IsTerm(t) <==> (t.And? && IsTerm(t.left) && IsFactor(t.right)) || IsFactor(t)
    ensures IsFactor(t) <==> (t.Paren? && IsExpr(t.inner))
                             || ((t.Compare? || t.IsDefined? || (t.In? && t.items != [])) && IsField(t.field))
  {
  }

  // ----- Tokens of a tree -----

  /** The tokens of a tree in front of the tokens that follow it. */
  function YieldOnto(t: Tree, more: seq<Token>): seq<Token> {
    match t
    case Or(l, r) => YieldOnto(l, [KwOr] + YieldOnto(r, more))
    case And(l, r) => YieldOnto(l, [KwAnd] + YieldOnto(r, more))
    case Paren(e) => [LParen] + YieldOnto(e, [RParen] + more)
    case Compare(f, op, v) => YieldField(f, [Operator(op)] + ([YieldLiteral(v)] + more))
    case In(f, negated, items) =>
      var list := [KwIn] + ([LParen] + YieldItems(items, [RParen] + more));
      YieldField(f, if negated then [KwNot] + list else list)
    case IsDefined(f, negated) =>
      var defined := [KwDefined] + more;
      YieldField(f, [KwIs] + if negated then [KwNot] + defined else defined)
  }

  function YieldField(f: Field, more: seq<Token>): seq<Token> {
    match f
    case Dotted(first, rest) => [Name(first)] + YieldSegments(rest, more)
    case EmptyCall(name) => [Name(name)] + ([LParen] + ([RParen] + more))
    case Call(name, args) => [Name(name)] + ([LParen] + YieldArgs(args, [RParen] + more))
  }

  function YieldArgs(a: Args, more: seq<Token>): seq<Token> {
    match a
    case Last(e) => YieldOnto(e, more)
    case More(e, rest) => YieldOnto(e, [Comma] + YieldArgs(rest, more))
  }

  function YieldSegment(s: Segment): Token {
    match s
    case Plain(n) => Name(n)
    case Quoted(n) => Backtick(n)
  }

  function YieldSegments(segments: seq<Segment>, more: seq<Token>): seq<Token> {
    if segments == [] then more
    else [Dot] + ([YieldSegment(segments[0])] + YieldSegments(segments[1..], more))
  }

  function YieldLiteral(v: Literal): Token {
    match v
    case Text(s) => EscapedString(s)
    case Number(x) => SignedNumber(x)
    case Word(n) => Name(n)
  }

  function YieldItems(items: seq<Literal>, more: seq<Token>): seq<Token> {
    if items == [] then more
    else if |items| == 1 then [YieldLiteral(items[0])] + more
    else [YieldLiteral(items[0])] + ([Comma] + YieldItems(items[1..], more))
  }

  function Yield(t: Tree): seq<Token> {
    YieldOnto(t, [])
  }

  // ----- Yields concatenate -----

  lemma {:induction false} YieldOntoAppends(t: Tree, more: seq<Token>, last: seq<Token>)
    ensures YieldOnto(t, more) + last == YieldOnto(t, more + last)
    decreases t
  {
    match t
    case Or(l, r) =>
      YieldOntoAppends(l, [KwOr] + YieldOnto(r, more), last);
      YieldOntoAppends(r, more, last);
      ConsAppends(KwOr, YieldOnto(r, more), last);
    case And(l, r) =>
      YieldOntoAppends(l, [KwAnd] + YieldOnto(r, more), last);
      YieldOntoAppends(r, more, last);
      ConsAppends(KwAnd, YieldOnto(r, more), last);
    case Paren(e) =>
      YieldOntoAppends(e, [RParen] + more, last);
      ConsAppends(RParen, more, last);
      ConsAppends(LParen, YieldOnto(e, [RParen] + more), last);
    case Compare(f, op, v) =>
      YieldFieldAppends(f, [Operator(op)] + ([YieldLiteral(v)] + more), last);
      ConsAppends(Operator(op), [YieldLiteral(v)] + more, last);
      ConsAppends(YieldLiteral(v), more, last);
    case In(f, negated, items) =>
      var inner := YieldItems(items, [RParen] + more);
      var list := [KwIn] + ([LParen] + inner);
      YieldFieldAppends(f, if negated then [KwNot] + list else list, last);
      YieldItemsAppends(items, [RParen] + more, last);
      ConsAppends(RParen, more, last);
      ConsAppends(LParen, inner, last);
      ConsAppends(KwIn, [LParen] + inner, last);
      ConsAppends(KwNot, list, last);
    case IsDefined(f, negated) =>
      var defined := [KwDefined] + more;
      YieldFieldAppends(f, [KwIs] + if negated then [KwNot] + defined else defined, last);
      ConsAppends(KwDefined, more, last);
      ConsAppends(KwNot, defined, last);
      ConsAppends(KwIs, if negated then [KwNot] + defined else defined, last);
  }

  lemma {:induction false} YieldFieldAppends(f: Field, more: seq<Token>, last: seq<Token>)
    ensures YieldField(f, more) + last == YieldField(f, more + last)
    decreases f
  {
    match f
    case Dotted(first, rest) =>
      YieldSegmentsAppends(rest, more, last);
      ConsAppends(Name(first), YieldSegments(rest, more), last);
    case EmptyCall(name) =>
      ConsAppends(RParen, more, last);
      ConsAppends(LParen, [RParen] + more, last);
      ConsAppends(Name(name), [LParen] + ([RParen] + more), last);
    case Call(name, args) =>
      YieldArgsAppends(args, [RParen] + more, last);
      ConsAppends(RParen, more, last);
      ConsAppends(LParen, YieldArgs(args, [RParen] + more), last);
      ConsAppends(Name(name), [LParen] + YieldArgs(args, [RParen] + more), last);
  }

  lemma {:induction false} YieldArgsAppends(a: Args, more: seq<Token>, last: seq<Token>)
    ensures YieldArgs(a, more) + last == YieldArgs(a, more + last)
    decreases a
  {
    match a
    case Last(e) =>
      YieldOntoAppends(e, more, last);
    case More(e, rest) =>
      YieldOntoAppends(e, [Comma] + YieldArgs(rest, more), last);
      YieldArgsAppends(rest, more, last);
      ConsAppends(Comma, YieldArgs(rest, more), last);
  }

  lemma {:induction false} YieldSegmentsAppends(segments: seq<Segment>, more: seq<Token>, last: seq<Token>)
    ensures YieldSegments(segments, more) + last == YieldSegments(segments, more + last)
  {
    if segments != [] {
      var tail := YieldSegments(segments[1..], more);
      YieldSegmentsAppends(segments[1..], more, last);
      ConsAppends(YieldSegment(segments[0]), tail, last);
      ConsAppends(Dot, [YieldSegment(segments[0])] + tail, last);
    }
  }

  lemma {:induction false} YieldItemsAppends(items: seq<Literal>, more: seq<Token>, last: seq<Token>)
    ensures YieldItems(items, more) + last == YieldItems(items, more + last)
  {
    if |items| == 1 {
      ConsAppends(YieldLiteral(items[0]), more, last);
    } else if |items| > 1 {
      var tail := YieldItems(items[1..], more);
      YieldItemsAppends(items[1..], more, last);
      ConsAppends(Comma, tail, last);
      ConsAppends(YieldLiteral(items[0]), [Comma] + tail, last);
    }
  }

  lemma ConsAppends(x: Token, xs: seq<Token>, ys: seq<Token>)
    ensures ([x] + xs) + ys == [x] + (xs + ys)
  {
  }

  // ----- The productions on tokens -----

  function FieldTokens(f: Field): seq<Token> {
    YieldField(f, [])
  }

  function ListTokens(items: seq<Literal>): seq<Token> {
    YieldItems(items, [])
  }

  function ArgsTokens(a: Args): seq<Token> {
    YieldArgs(a, [])
  }

  lemma YieldSplits(t: Tree, more: seq<Token>)
    ensures YieldOnto(t, more) == Yield(t) + more
  {
    YieldOntoAppends(t, [], more);
    assert [] + more == more;
  }

  lemma FieldSplits(f: Field, more: seq<Token>)
    ensures YieldField(f, more) == FieldTokens(f) + more
  {
    YieldFieldAppends(f, [], more);
    assert [] + more == more;
  }

  /** How connectives and parentheses are written. */
  lemma ConnectiveForms(l: Tree, r: Tree)
    ensures Yield(Or(l, r)) == Yield(l) + [KwOr] + Yield(r)
    ensures Yield(And(l, r)) == Yield(l) + [KwAnd] + Yield(r)
    ensures Yield(Paren(l)) == [LParen] + Yield(l) + [RParen]
  {
    YieldSplits(l, [KwOr] + Yield(r));
    YieldSplits(l, [KwAnd] + Yield(r));
    YieldSplits(l, [RParen] + []);
    assert [RParen] + [] == [RParen];
    assert Yield(l) + ([KwOr] + Yield(r)) == Yield(l) + [KwOr] + Yield(r);
    assert Yield(l) + ([KwAnd] + Yield(r)) == Yield(l) + [KwAnd] + Yield(r);
  }

  /** How comparisons are written. */
  lemma ConditionForms(f: Field, op: Op, v: Literal, items: seq<Literal>)
    ensures Yield(Compare(f, op, v)) == FieldTokens(f) + [Operator(op), YieldLiteral(v)]
    ensures Yield(In(f, false, items)) == FieldTokens(f) + [KwIn, LParen] + ListTokens(items) + [RParen]
    ensures Yield(In(f, true, items)) == FieldTokens(f) + [KwNot, KwIn, LParen] + ListTokens(items) + [RParen]
    ensures Yield(IsDefined(f, false)) == FieldTokens(f) + [KwIs, KwDefined]
    ensures Yield(IsDefined(f, true)) == FieldTokens(f) + [KwIs, KwNot, KwDefined]
  {
    var list := [LParen] + YieldItems(items, [RParen] + []);
    YieldItemsAppends(items, [], [RParen] + []);
    assert [] + ([RParen] + []) == [RParen] + [] == [RParen];
    FieldSplits(f, [Operator(op)] + ([YieldLiteral(v)] + []));
    FieldSplits(f, [KwIn] + list);
    FieldSplits(f, [KwNot] + ([KwIn] + list));
    FieldSplits(f, [KwIs] + ([KwDefined] + []));
    FieldSplits(f, [KwIs] + ([KwNot] + ([KwDefined] + [])));
    ListForm(f, items, list);
    assert [Operator(op)] + ([YieldLiteral(v)] + []) == [Operator(op), YieldLiteral(v)];
    assert [KwIs] + ([KwDefined] + []) == [KwIs, KwDefined];
    assert [KwIs] + ([KwNot] + ([KwDefined] + [])) == [KwIs, KwNot, KwDefined];
  }

  lemma ListForm(f: Field, items: seq<Literal>, list: seq<Token>)
    requires list == [LParen] + (ListTokens(items) + [RParen])
    ensures FieldTokens(f) + ([KwIn] + list) == FieldTokens(f) + [KwIn, LParen] + ListTokens(items) + [RParen]
    ensures FieldTokens(f) + ([KwNot] + ([KwIn] + list))
            == FieldTokens(f) + [KwNot, KwIn, LParen] + ListTokens(items) + [RParen]
  {
  }

  /** How lists of values are written: with commas between them. */
  lemma ListForms(v: Literal, items: seq<Literal>)
    requires items != []
    ensures ListTokens([v]) == [YieldLiteral(v)]
    ensures ListTokens([v] + items) == [YieldLiteral(v), Comma] + ListTokens(items)
  {
    assert ([v] + items)[1..] == items;
    assert [YieldLiteral(v)] + [] == [YieldLiteral(v)];
    assert [YieldLiteral(v)] + ([Comma] + ListTokens(items)) == [YieldLiteral(v), Comma] + ListTokens(items);
  }

  /** How fields are written. */
  lemma FieldForms(name: string, s: Segment, rest: seq<Segment>, args: Args, e: Tree)
    ensures FieldTokens(Dotted(name, [])) == [Name(name)]
    ensures FieldTokens(Dotted(name, [s] + rest))
            == [Name(name), Dot, YieldSegment(s)] + FieldTokens(Dotted(name, rest))[1..]
    ensures FieldTokens(EmptyCall(name)) == [Name(name), LParen, RParen]
    ensures FieldTokens(Call(name, args)) == [Name(name), LParen] + ArgsTokens(args) + [RParen]
    ensures ArgsTokens(Last(e)) == Yield(e) && ArgsTokens(More(e, args)) == Yield(e) + [Comma] + ArgsTokens(args)
  {
    assert ([s] + rest)[1..] == rest && ([s] + rest)[0] == s;
    assert FieldTokens(Dotted(name, rest))[1..] == YieldSegments(rest, []);
    YieldArgsAppends(args, [], [RParen] + []);
    assert [] + ([RParen] + []) == [RParen] + [] == [RParen];
    YieldSplits(e, [Comma] + ArgsTokens(args));
    assert Yield(e) + ([Comma] + ArgsTokens(args)) == Yield(e) + [Comma] + ArgsTokens(args);
    assert [Name(name)] + ([LParen] + (ArgsTokens(args) + [RParen]))
           == [Name(name), LParen] + ArgsTokens(args) + [RParen];
    assert [Name(name)] + ([Dot] + ([YieldSegment(s)] + YieldSegments(rest, [])))
        == [Name(name), Dot, YieldSegment(s)] + YieldSegments(rest, []);
  }
}
