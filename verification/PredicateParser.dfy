/**
 A deterministic parser for the grammar of PredicateSyntax. It plays the part of the generated
 table-driven parser; PredicateGrammar proves that it accepts exactly the token lists the grammar
 derives and returns the one tree each of them has.

 There is a function for each level of the grammar. The left-recursive levels, `expr` and `term`,
 become a first operand and a function that takes in further operands from the left. Every function
 returns what it has read together with the tokens that are left, and its contract says that the
 tree it returns yields exactly the tokens it has read. A name begins a dotted name or a function
 call, which is then compared, tested for membership or tested for being defined; the tokens that
 follow say which.
 */
module PredicateParser {
  import opened Wrappers
  import opened PredicateSyntax

  datatype Parsed<+T> = Fail | Got(value: T, rest: seq<Token>)

  predicate StartsWith(ts: seq<Token>, t: Token) {
    ts != [] && ts[0] == t
  }

  function ParseSegments(ts: seq<Token>): (r: Parsed<seq<Segment>>)
    ensures r.Got? ==> ts == YieldSegments(r.value, r.rest) && |r.rest| <= |ts|
    decreases |ts|
  {
    if !StartsWith(ts, Dot) then Got([], ts)
    else if |ts| < 2 then Fail
    else
      match ToSegment(ts[1])
      case None => Fail
      case Some(segment) =>
        match ParseSegments(ts[2..])
        case Fail => Fail
        case Got(more, rest) =>
          assert ts == [Dot] + ([ts[1]] + ts[2..]);
          assert ([segment] + more)[1..] == more;
          Got([segment] + more, rest)
  }

  function ToSegment(t: Token): (r: Option<Segment>)
    ensures r.Some? ==> YieldSegment(r.value) == t
  {
    match t
    case Name(n) => Some(Plain(n))
    case Backtick(n) => Some(Quoted(n))
    case _ => None
  }

  function ParseLiteral(ts: seq<Token>): (r: Parsed<Literal>)
    ensures r.Got? ==> ts == [YieldLiteral(r.value)] + r.rest && |r.rest| < |ts|
  {
    if ts == [] then Fail
    else
      match ts[0]
      case EscapedString(s) => Got(Text(s), ts[1..])
      case SignedNumber(x) => Got(Number(x), ts[1..])
      case Name(n) => Got(Word(n), ts[1..])
      case _ => Fail
  }

  function ParseItems(ts: seq<Token>): (r: Parsed<seq<Literal>>)
    ensures r.Got? ==> r.value != [] && ts == YieldItems(r.value, r.rest) && |r.rest| < |ts|
    decreases |ts|
  {
    match ParseLiteral(ts)
    case Fail => Fail
    case Got(v, rest) =>
      if !StartsWith(rest, Comma) then Got([v], rest)
      else
        match ParseItems(rest[1..])
        case Fail => Fail
        case Got(vs, rest') =>
          assert rest == [Comma] + rest[1..];
          assert ([v] + vs)[1..] == vs;
          Got([v] + vs, rest')
  }

  // ----- The recursive part -----

  function ParseExpr(ts: seq<Token>): (r: Parsed<Tree>)
    ensures r.Got? ==> IsExpr(r.value) && ts == YieldOnto(r.value, r.rest) && |r.rest| < |ts|
    decreases |ts|, 4
  {
    match ParseTerm(ts)
    case Fail => Fail
    case Got(t, rest) => ParseExprRest(t, rest)
  }

  function ParseExprRest(left: Tree, ts: seq<Token>): (r: Parsed<Tree>)
    requires IsExpr(left)
    ensures r.Got? ==> IsExpr(r.value) && YieldOnto(left, ts) == YieldOnto(r.value, r.rest) && |r.rest| <= |ts|
    decreases |ts|, 0
  {
    if !StartsWith(ts, KwOr) then Got(left, ts)
    else
      match ParseTerm(ts[1..])
      case Fail => Fail
      case Got(t, rest) =>
        assert ts == [KwOr] + ts[1..];
        ParseExprRest(Or(left, t), rest)
  }

  function ParseTerm(ts: seq<Token>): (r: Parsed<Tree>)
    ensures r.Got? ==> IsTerm(r.value) && ts == YieldOnto(r.value, r.rest) && |r.rest| < |ts|
    decreases |ts|, 3
  {
    match ParseFactor(ts)
    case Fail => Fail
    case Got(t, rest) => ParseTermRest(t, rest)
  }

  function ParseTermRest(left: Tree, ts: seq<Token>): (r: Parsed<Tree>)
    requires IsTerm(left)
    ensures r.Got? ==> IsTerm(r.value) && YieldOnto(left, ts) == YieldOnto(r.value, r.rest) && |r.rest| <= |ts|
    decreases |ts|, 0
  {
    if !StartsWith(ts, KwAnd) then Got(left, ts)
    else
      match ParseFactor(ts[1..])
      case Fail => Fail
      case Got(t, rest) =>
        assert ts == [KwAnd] + ts[1..];
        ParseTermRest(And(left, t), rest)
  }

  function ParseFactor(ts: seq<Token>): (r: Parsed<Tree>)
    ensures r.Got? ==> IsFactor(r.value) && ts == YieldOnto(r.value, r.rest) && |r.rest| < |ts|
    decreases |ts|, 2
  {
    if StartsWith(ts, LParen) then
      match ParseExpr(ts[1..])
      case Fail => Fail
      case Got(e, rest) =>
        if StartsWith(rest, RParen) then
          assert ts == [LParen] + ts[1..] && rest == [RParen] + rest[1..];
          Got(Paren(e), rest[1..])
        else Fail
    else
      match ParseField(ts)
      case Fail => Fail
      case Got(f, rest) => ParseCondition(f, rest)
  }

  /** What follows the field of a comparison. */
  function ParseCondition(f: Field, ts: seq<Token>): (r: Parsed<Tree>)
    requires IsField(f)
    ensures r.Got? ==> IsFactor(r.value) && YieldField(f, ts) == YieldOnto(r.value, r.rest) && |r.rest| < |ts|
  {
    if ts == [] then Fail
    else
      assert ts == [ts[0]] + ts[1..];
      match ts[0]
      case Operator(op) =>
        (match ParseLiteral(ts[1..])
         case Fail => Fail
         case Got(v, rest) => Got(Compare(f, op, v), rest))
      case KwIn => ParseList(f, false, ts[1..])
      case KwNot =>
        if StartsWith(ts[1..], KwIn) then
          assert ts[1..] == [KwIn] + ts[2..];
          ParseList(f, true, ts[2..])
        else Fail
      case KwIs => ParseDefined(f, ts[1..])
      case _ => Fail
  }

  function ParseDefined(f: Field, ts: seq<Token>): (r: Parsed<Tree>)
    requires IsField(f)
    ensures r.Got? ==> IsFactor(r.value) && YieldField(f, [KwIs] + ts) == YieldOnto(r.value, r.rest) && |r.rest| < |ts|
  {
    if StartsWith(ts, KwDefined) then
      assert ts == [KwDefined] + ts[1..];
      Got(IsDefined(f, false), ts[1..])
    else if StartsWith(ts, KwNot) && StartsWith(ts[1..], KwDefined) then
      assert ts == [KwNot] + ts[1..] && ts[1..] == [KwDefined] + ts[2..];
      Got(IsDefined(f, true), ts[2..])
    else Fail
  }

  function ParseList(f: Field, negated: bool, ts: seq<Token>): (r: Parsed<Tree>)
    requires IsField(f)
    ensures r.Got? ==> IsFactor(r.value) && r.value.In? && r.value.field == f && r.value.negated == negated
                       && ts == [LParen] + YieldItems(r.value.items, [RParen] + r.rest) && |r.rest| < |ts|
  {
    if !StartsWith(ts, LParen) then Fail
    else
      match ParseItems(ts[1..])
      case Fail => Fail
      case Got(items, rest) =>
        if !StartsWith(rest, RParen) then Fail
        else
          assert ts == [LParen] + ts[1..] && rest == [RParen] + rest[1..];
          Got(In(f, negated, items), rest[1..])
  }

  function ParseField(ts: seq<Token>): (r: Parsed<Field>)
    ensures r.Got? ==> IsField(r.value) && ts == YieldField(r.value, r.rest) && |r.rest| < |ts|
    decreases |ts|, 1
  {
    if ts == [] || !ts[0].Name? then Fail
    else
      assert ts == [ts[0]] + ts[1..];
      if StartsWith(ts[1..], LParen) then ParseCall(ts[0].name, ts[1..])
      else
        match ParseSegments(ts[1..])
        case Fail => Fail
        case Got(segments, rest) => Got(Dotted(ts[0].name, segments), rest)
  }

  function ParseCall(name: string, ts: seq<Token>): (r: Parsed<Field>)
    requires StartsWith(ts, LParen)
    ensures r.Got? ==> IsField(r.value) && [Name(name)] + ts == YieldField(r.value, r.rest) && |r.rest| < |ts|
    decreases |ts|, 0
  {
    assert ts == [LParen] + ts[1..];
    if StartsWith(ts[1..], RParen) then
      assert ts[1..] == [RParen] + ts[2..];
      Got(EmptyCall(name), ts[2..])
    else
      match ParseArgs(ts[1..])
      case Fail => Fail
      case Got(args, rest) =>
        if StartsWith(rest, RParen) then
          assert rest == [RParen] + rest[1..];
          Got(Call(name, args), rest[1..])
        else Fail
  }

  function ParseArgs(ts: seq<Token>): (r: Parsed<Args>)
    ensures r.Got? ==> IsArgs(r.value) && ts == YieldArgs(r.value, r.rest) && |r.rest| < |ts|
    decreases |ts|, 5
  {
    match ParseExpr(ts)
    case Fail => Fail
    case Got(e, rest) =>
      if !StartsWith(rest, Comma) then Got(Last(e), rest)
      else
        assert rest == [Comma] + rest[1..];
        match ParseArgs(rest[1..])
        case Fail => Fail
        case Got(others, rest') => Got(More(e, others), rest')
  }

  function Parse(ts: seq<Token>): Option<Tree> {
    match ParseExpr(ts)
    case Got(t, rest) => if rest == [] then Some(t) else None
    case Fail => None
  }
}
