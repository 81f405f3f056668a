/** `check`: a predicate is parsed, transformed and evaluated in a context. */
module PredicateCheck {
  import opened Wrappers
  import opened PredicateSyntax
  import opened PredicateParser
  import opened PredicateGrammar
  import opened PredicateTransformer
  import opened PredicateEvaluator
  import opened PredicateMeaning
  import opened DottedPaths

  /** A predicate that parses and whose evaluation raises: `sum() = 0`. */
  const UNKNOWN_CALL := [Name("sum"), LParen, RParen, Operator(Eq), SignedNumber(0.0)]

  lemma UnknownCallParses()
    ensures Parse(UNKNOWN_CALL) == Some(Compare(EmptyCall("sum"), Eq, Number(0.0)))
  {
    var t := Compare(EmptyCall("sum"), Eq, Number(0.0));
    assert IsExpr(t) && Yield(t) == UNKNOWN_CALL;
    ParsesExactlyTheGrammar(UNKNOWN_CALL, t);
  }

  /** Checking it keeps the context, whatever the context is. */
  lemma UnknownCallRaises(context: Value)
    ensures var parsed := Parse(UNKNOWN_CALL);
            parsed.Some? && Evaluate(Transform(parsed.value), context).Err?
            && Unpack(EvaluateDebug(Transform(parsed.value), context)) == Ok(Bool(true))
  {
    UnknownCallParses();
    DebugAcceptsUnknownFunction(context);
    assert Transform(Compare(EmptyCall("sum"), Eq, Number(0.0)))
        == Comparison(Eq, Function(Func("sum", [])), ExpectedNumber(0.0));
  }

  class CartPredicateParser {
    var context: Option<Value>

    constructor ()
      ensures context == None
    {
      context := None;
    }

    /** Parse, transform, evaluate. The result is what the parsed predicate says in the new context. The context is
        cleared only when evaluation does not raise; the final type check never fails. */
    method Check(predicate_: seq<Token>, newContext: Value, debug: bool) returns (r: Result<bool, Error>)
      modifies this
      ensures r.Ok? ==> context == None
      ensures r.Err? ==> context == Some(newContext) && r.error != NotBoolean
      ensures r == Err(ParseError) <==> Parse(predicate_) == None
      ensures Parse(predicate_).Some? ==>
                var a := Transform(Parse(predicate_).value);
                var result := if debug then Unpack(EvaluateDebug(a, newContext)) else Evaluate(a, newContext);
                (result.Ok? <==> r.Ok?) && (r.Ok? ==> result.value == Bool(r.value))
      ensures Parse(predicate_).Some? ==>
                match Holds(Parse(predicate_).value, newContext, debug) {
                  case Some(b) => r == Ok(b)
                  case None => r.Err?
                }
    {
      context := Some(newContext);
      var tree := Parse(predicate_);
      if tree.None? {
        return Err(ParseError);
      }
      var expression := Transform(tree.value);
      TransformedShape(tree.value);
      ResultIsBoolean(expression, newContext);
      EvaluatorErrors(expression, newContext);
      DebugErrors(expression, newContext);
      EvaluateComputesMeaning(tree.value, newContext);
      DebugComputesMeaning(tree.value, newContext);
      var result := if debug then Unpack(EvaluateDebug(expression, newContext)) else Evaluate(expression, newContext);
      if result.Err? {
        return Err(result.error);
      }
      context := None;
      if !result.value.Bool? {
        return Err(NotBoolean);
      }
      return Ok(result.value.b);
    }
  }

  /** What an evaluator can raise: neither a parse error nor the final type check's error. */
  predicate RaisedInEvaluation(e: Error) {
    e != ParseError && e != NotBoolean
  }

  lemma {:induction false} LookupErrors(context: Value, keys: seq<string>)
    ensures Lookup(context, keys).Err? ==> RaisedInEvaluation(Lookup(context, keys).error)
  {
    if keys != [] && GetItem(context, keys[0]).Ok? {
      LookupErrors(GetItem(context, keys[0]).value, keys[1..]);
    }
  }

  lemma OperandErrors(context: Value, o: Operand)
    ensures GetOperand(context, o).Err? ==> RaisedInEvaluation(GetOperand(context, o).error)
  {
    if o.Path? { LookupErrors(context, Split(o.path)); }
  }

  lemma {:induction false} EvaluatorErrors(a: Ast, context: Value)
    ensures Evaluate(a, context).Err? ==> RaisedInEvaluation(Evaluate(a, context).error)
  {
    match a
    case OrNode(l, r) =>
      EvaluatorErrors(l, context);
      EvaluatorErrors(r, context);
    case AndNode(l, r) =>
      EvaluatorErrors(l, context);
      EvaluatorErrors(r, context);
    case Comparison(op, operand, expected) =>
      OperandErrors(context, operand);
      if operand.Function? { EvaluatorErrors(operand.call, context); }
    case Membership(operand, _, _) => OperandErrors(context, operand);
    case Definedness(operand, _) => OperandErrors(context, operand);
    case Func(name, args) =>
      if args != [] { EvaluatorErrors(args[0], context); }
  }

  lemma {:induction false} DebugErrors(a: Ast, context: Value)
    ensures Unpack(EvaluateDebug(a, context)).Err? ==> RaisedInEvaluation(Unpack(EvaluateDebug(a, context)).error)
  {
    match a
    case OrNode(l, r) =>
      DebugErrors(l, context);
      DebugErrors(r, context);
    case AndNode(l, r) =>
      DebugErrors(l, context);
      DebugErrors(r, context);
    case Comparison(op, operand, expected) =>
      OperandErrors(context, operand);
      if operand.Function? { DebugErrors(operand.call, context); }
    case Membership(operand, _, _) => OperandErrors(context, operand);
    case Definedness(operand, _) => OperandErrors(context, operand);
    case Func(name, args) =>
      if args != [] { DebugErrors(args[0], context); }
  }
}
