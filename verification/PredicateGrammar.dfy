/** The parser accepts exactly what the grammar derives, and what follows for the grammar. */
module PredicateGrammar {
  import opened Wrappers
  import opened PredicateSyntax
  import opened PredicateParser

  // ----- Completeness: what the grammar derives is parsed back -----

  lemma SegmentParsed(segment: Segment, tail: seq<Token>, segments: seq<Segment>, more: seq<Token>)
    requires ParseSegments(tail) == Got(segments, more)
    ensures ParseSegments([Dot] + ([YieldSegment(segment)] + tail)) == Got([segment] + segments, more)
  {
    var ts := [Dot] + ([YieldSegment(segment)] + tail);
    assert ts[0] == Dot && ts[1] == YieldSegment(segment) && ts[2..] == tail;
  }

  lemma {:induction false} SegmentsComplete(segments: seq<Segment>, more: seq<Token>)
    requires !StartsWith(more, Dot)
    ensures ParseSegments(YieldSegments(segments, more)) == Got(segments, more)
  {
    if segments != [] {
      SegmentsComplete(segments[1..], more);
      SegmentParsed(segments[0], YieldSegments(segments[1..], more), segments[1..], more);
      assert [segments[0]] + segments[1..] == segments;
    }
  }

  lemma {:induction false} ItemsComplete(items: seq<Literal>, more: seq<Token>)
    requires items != [] && !StartsWith(more, Comma)
    ensures ParseItems(YieldItems(items, more)) == Got(items, more)
  {
    var ts := YieldItems(items, more);
    assert ParseLiteral(ts) == Got(items[0], ts[1..]);
    if |items| == 1 {
      assert ts[1..] == more;
      assert items == [items[0]];
    } else {
      ItemsComplete(items[1..], more);
      assert ts[1..] == [Comma] + YieldItems(items[1..], more);
      assert [items[0]] + items[1..] == items;
    }
  }

  lemma {:induction false} ExprComplete(t: Tree, more: seq<Token>)
    requires IsExpr(t) && !StartsWith(more, KwAnd)
    ensures ParseExpr(YieldOnto(t, more)) == ParseExprRest(t, more)
    decreases t, 3
  {
    if t.Or? {
      ExprComplete(t.left, [KwOr] + YieldOnto(t.right, more));
      TermComplete(t.right, more);
    } else {
      TermComplete(t, more);
    }
  }

  lemma {:induction false} TermComplete(t: Tree, more: seq<Token>)
    requires IsTerm(t)
    ensures ParseTerm(YieldOnto(t, more)) == ParseTermRest(t, more)
    decreases t, 2
  {
    if t.And? {
      TermComplete(t.left, [KwAnd] + YieldOnto(t.right, more));
      FactorComplete(t.right, more);
    } else {
      FactorComplete(t, more);
    }
  }

  predicate FollowsField(ts: seq<Token>) {
    ts != [] && (ts[0].Operator? || ts[0].KwNot? || ts[0].KwIn? || ts[0].KwIs?)
  }

  lemma {:induction false} FactorComplete(t: Tree, more: seq<Token>)
    requires IsFactor(t)
    ensures ParseFactor(YieldOnto(t, more)) == Got(t, more)
    decreases t, 1
  {
    if t.Paren? {
      ExprComplete(t.inner, [RParen] + more);
    } else {
      var condition := ConditionComplete(t, more);
      FieldComplete(t.field, condition);
      assert YieldField(t.field, condition)[0].Name?;
    }
  }

  lemma CompareComplete(t: Tree, more: seq<Token>) returns (condition: seq<Token>)
    requires t.Compare? && IsFactor(t)
    ensures YieldOnto(t, more) == YieldField(t.field, condition) && FollowsField(condition)
    ensures ParseCondition(t.field, condition) == Got(t, more)
  {
    condition := [Operator(t.op)] + ([YieldLiteral(t.value)] + more);
    assert condition[1..] == [YieldLiteral(t.value)] + more;
  }

  lemma InComplete(t: Tree, more: seq<Token>) returns (condition: seq<Token>)
    requires t.In? && IsFactor(t)
    ensures YieldOnto(t, more) == YieldField(t.field, condition) && FollowsField(condition)
    ensures ParseCondition(t.field, condition) == Got(t, more)
  {
    var list := [LParen] + YieldItems(t.items, [RParen] + more);
    ItemsComplete(t.items, [RParen] + more);
    assert ParseList(t.field, t.negated, list) == Got(t, more);
    condition := [KwIn] + list;
    assert condition[1..] == list;
    if t.negated {
      condition := [KwNot] + condition;
      assert condition[1..] == [KwIn] + list;
      assert condition[2..] == list;
    }
  }

  lemma IsDefinedComplete(t: Tree, more: seq<Token>) returns (condition: seq<Token>)
    requires t.IsDefined? && IsFactor(t)
    ensures YieldOnto(t, more) == YieldField(t.field, condition) && FollowsField(condition)
    ensures ParseCondition(t.field, condition) == Got(t, more)
  {
    var defined := [KwDefined] + more;
    condition := [KwIs] + if t.negated then [KwNot] + defined else defined;
    assert condition[1..] == if t.negated then [KwNot] + defined else defined;
    assert condition[1..][1..] == if t.negated then defined else more;
    assert t.negated ==> condition[1..][2..] == more;
  }

  lemma ConditionComplete(t: Tree, more: seq<Token>) returns (condition: seq<Token>)
    requires IsFactor(t) && !t.Paren?
    ensures YieldOnto(t, more) == YieldField(t.field, condition) && FollowsField(condition)
    ensures ParseCondition(t.field, condition) == Got(t, more)
  {
    if t.Compare? {
      condition := CompareComplete(t, more);
    } else if t.In? {
      condition := InComplete(t, more);
    } else {
      condition := IsDefinedComplete(t, more);
    }
  }

  lemma {:induction false} FieldComplete(f: Field, more: seq<Token>)
    requires IsField(f) && FollowsField(more)
    ensures ParseField(YieldField(f, more)) == Got(f, more)
    decreases f, 0
  {
    var ts := YieldField(f, more);
    match f
    case Dotted(first, rest) =>
      SegmentsComplete(rest, more);
      assert ts[1..] == YieldSegments(rest, more);
      assert !StartsWith(ts[1..], LParen);
    case EmptyCall(name) =>
      assert ts[1..] == [LParen] + ([RParen] + more);
      assert ts[1..][1..] == [RParen] + more;
      assert ts[1..][2..] == more;
    case Call(name, args) =>
      ArgsStart(args, [RParen] + more);
      ArgsComplete(args, [RParen] + more);
      assert ts[1..] == [LParen] + YieldArgs(args, [RParen] + more);
      assert ts[1..][1..] == YieldArgs(args, [RParen] + more);
  }

  lemma {:induction false} ArgsComplete(a: Args, more: seq<Token>)
    requires IsArgs(a) && StartsWith(more, RParen)
    ensures ParseArgs(YieldArgs(a, more)) == Got(a, more)
    decreases a, 0
  {
    match a
    case Last(e) =>
      ExprComplete(e, more);
    case More(e, others) =>
      ExprComplete(e, [Comma] + YieldArgs(others, more));
      ArgsComplete(others, more);
  }

  /** No expression starts with a closing parenthesis, so an empty argument list is not ambiguous. */
  lemma {:induction false} ExprStart(t: Tree, more: seq<Token>)
    ensures YieldOnto(t, more) != [] && YieldOnto(t, more)[0] != RParen
  {
    match t
    case Or(l, r) => ExprStart(l, [KwOr] + YieldOnto(r, more));
    case And(l, r) => ExprStart(l, [KwAnd] + YieldOnto(r, more));
    case Paren(e) =>
    case _ =>
  }

  lemma ArgsStart(a: Args, more: seq<Token>)
    ensures YieldArgs(a, more) != [] && YieldArgs(a, more)[0] != RParen
  {
    match a
    case Last(e) => ExprStart(e, more);
    case More(e, others) => ExprStart(e, [Comma] + YieldArgs(others, more));
  }

  // ----- Main results -----

  /** Sound and complete: a token list parses to a tree exactly when the grammar derives it. */
  lemma ParsesExactlyTheGrammar(ts: seq<Token>, t: Tree)
    ensures Parse(ts) == Some(t) <==> IsExpr(t) && Yield(t) == ts
  {
    if IsExpr(t) && Yield(t) == ts {
      ExprComplete(t, []);
    }
  }

  /** The grammar is unambiguous: a token list has at most one tree. */
  lemma Unambiguous(t: Tree, t': Tree)
    requires IsExpr(t) && IsExpr(t') && Yield(t) == Yield(t')
    ensures t == t'
  {
    ParsesExactlyTheGrammar(Yield(t), t);
    ParsesExactlyTheGrammar(Yield(t), t');
  }

  lemma YieldOr(l: Tree, r: Tree)
    ensures Yield(Or(l, r)) == Yield(l) + [KwOr] + Yield(r)
  {
    YieldOntoAppends(l, [], [KwOr] + Yield(r));
    assert [] + ([KwOr] + Yield(r)) == [KwOr] + Yield(r);
  }

  lemma YieldAnd(l: Tree, r: Tree)
    ensures Yield(And(l, r)) == Yield(l) + [KwAnd] + Yield(r)
  {
    YieldOntoAppends(l, [], [KwAnd] + Yield(r));
    assert [] + ([KwAnd] + Yield(r)) == [KwAnd] + Yield(r);
  }

  /** `and` binds tighter than `or`, on either side. */
  lemma AndBindsTighter(a: Tree, b: Tree, c: Tree, d: Tree)
    requires IsExpr(a) && IsTerm(b) && IsFactor(c) && IsTerm(d)
    ensures Parse(Yield(a) + [KwOr] + (Yield(b) + [KwAnd] + Yield(c))) == Some(Or(a, And(b, c)))
    ensures Parse((Yield(b) + [KwAnd] + Yield(c)) + [KwOr] + Yield(d)) == Some(Or(And(b, c), d))
  {
    YieldAnd(b, c);
    YieldOr(a, And(b, c));
    YieldOr(And(b, c), d);
    ParsesExactlyTheGrammar(Yield(Or(a, And(b, c))), Or(a, And(b, c)));
    ParsesExactlyTheGrammar(Yield(Or(And(b, c), d)), Or(And(b, c), d));
  }

  /** Both operators associate to the left. */
  lemma AssociatesLeft(e: Tree, t: Tree, t': Tree, f: Tree, f': Tree)
    requires IsExpr(e) && IsTerm(t) && IsTerm(t') && IsFactor(f) && IsFactor(f')
    ensures Parse(Yield(e) + [KwOr] + Yield(t) + [KwOr] + Yield(t')) == Some(Or(Or(e, t), t'))
    ensures Parse(Yield(t) + [KwAnd] + Yield(f) + [KwAnd] + Yield(f')) == Some(And(And(t, f), f'))
  {
    YieldOr(e, t);
    YieldOr(Or(e, t), t');
    YieldAnd(t, f);
    YieldAnd(And(t, f), f');
    ParsesExactlyTheGrammar(Yield(Or(Or(e, t), t')), Or(Or(e, t), t'));
    ParsesExactlyTheGrammar(Yield(And(And(t, f), f')), And(And(t, f), f'));
  }
}
