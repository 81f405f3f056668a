/** Evaluating cart predicates: the plain evaluator and the debug evaluator. */
module PredicateEvaluator {
  import opened Wrappers
  import opened PredicateSyntax
  import opened PredicateTransformer
  import opened DottedPaths
  import opened Lexicographic

  /** A Python value in the context. Numbers are exact. */
  datatype Value =
    | NoneValue
    | Bool(b: bool)
    | Num(x: real)
    | Str(s: string)
    | List(elements: seq<Value>)
    | Dict(entries: map<string, Value>)

  datatype Error = KeyError | TypeError | ValueError | AttributeError | ParseError | NotBoolean

  type Evaluated = Result<Value, Error>

  // ----- Looking up a path -----

  /** `getitem` with a string key. */
  function GetItem(v: Value, key: string): Evaluated {
    if !v.Dict? then Err(TypeError)
    else if key in v.entries then Ok(v.entries[key])
    else Err(KeyError)
  }

  function Lookup(context: Value, keys: seq<string>): Evaluated {
    if keys == [] then Ok(context)
    else
      match GetItem(context, keys[0])
      case Err(e) => Err(e)
      case Ok(v) => Lookup(v, keys[1..])
  }

  function GetValue(context: Value, path: string): Evaluated {
    Lookup(context, Split(path))
  }

  /** Looking up a dotted name of the predicate is looking up its segments one by one, exactly as
      they were written, whenever no segment holds a dot. */
  lemma LookupFollowsSegments(context: Value, first: string, rest: seq<Segment>)
    requires DotFree([first] + SegmentNames(rest))
    ensures TransformField(Dotted(first, rest)).Path?
    ensures GetValue(context, TransformField(Dotted(first, rest)).path) == Lookup(context, [first] + SegmentNames(rest))
  {
    SplitOfJoin([first] + SegmentNames(rest));
  }

  // ----- Comparisons -----

  /** `"true"` and `"false"` are compared as numbers, since True == 1 and False == 0. */
  function NormalizeExpected(e: Expected): Expected {
    if e == ExpectedText("true") then ExpectedNumber(1.0)
    else if e == ExpectedText("false") then ExpectedNumber(0.0)
    else e
  }

  function AsNumber(v: Value): Option<real> {
    match v
    case Bool(b) => Some(if b then 1.0 else 0.0)
    case Num(x) => Some(x)
    case _ => None
  }

  predicate Equals(v: Value, e: Expected) {
    match e
    case ExpectedNumber(x) => AsNumber(v) == Some(x)
    case ExpectedText(s) => v == Str(s)
  }

  predicate IsMember(v: Value, items: seq<Expected>) {
    exists i :: 0 <= i < |items| && Equals(v, items[i])
  }

  /** `v < e` and `v > e`; values of different kinds cannot be ordered. */
  function LessThan(v: Value, e: Expected): Result<bool, Error> {
    match e
    case ExpectedNumber(x) => if AsNumber(v).Some? then Ok(AsNumber(v).value < x) else Err(TypeError)
    case ExpectedText(s) => if v.Str? then Ok(Less(v.s, s)) else Err(TypeError)
  }

  function GreaterThan(v: Value, e: Expected): Result<bool, Error> {
    match e
    case ExpectedNumber(x) => if AsNumber(v).Some? then Ok(AsNumber(v).value > x) else Err(TypeError)
    case ExpectedText(s) => if v.Str? then Ok(Less(s, v.s)) else Err(TypeError)
  }

  function OrEqual(r: Result<bool, Error>, equal: bool): Result<bool, Error> {
    match r
    case Ok(b) => Ok(b || equal)
    case Err(e) => Err(e)
  }

  function Apply(op: Op, v: Value, e: Expected): Result<bool, Error> {
    match op
    case Eq => Ok(Equals(v, e))
    case Ne => Ok(!Equals(v, e))
    case Gt => GreaterThan(v, e)
    case Lt => LessThan(v, e)
    case Ge => OrEqual(GreaterThan(v, e), Equals(v, e))
    case Le => OrEqual(LessThan(v, e), Equals(v, e))
  }

  predicate Truthy(v: Value) {
    match v
    case NoneValue => false
    case Bool(b) => b
    case Num(x) => x != 0.0
    case Str(s) => s != ""
    case List(vs) => vs != []
    case Dict(m) => m != map[]
  }

  function ToValue(r: Result<bool, Error>): Evaluated {
    match r
    case Ok(b) => Ok(Bool(b))
    case Err(e) => Err(e)
  }

  /** A path is looked up; `path.split` fails on a function call. */
  function GetOperand(context: Value, o: Operand): Evaluated {
    match o
    case Path(path) => GetValue(context, path)
    case Function(_) => Err(AttributeError)
  }

  predicate KnownFunction(name: string) {
    name == "lineItemCount" || name == "lineItemExists"
  }

  // ----- The two evaluators -----

  function Evaluate(a: Ast, context: Value): Evaluated {
    match a
    case Comparison(op, operand, expected) =>
      var evaluated := match operand
        case Function(call) => Evaluate(call, context)
        case Path(path) => GetValue(context, path);
      (match evaluated
       case Err(e) => Err(e)
       case Ok(v) => ToValue(Apply(op, v, NormalizeExpected(expected))))
    case Membership(operand, items, negate) =>
      (match GetOperand(context, operand)
       case Err(e) => Err(e)
       case Ok(v) => Ok(Bool(if negate then !IsMember(v, items) else IsMember(v, items))))
    case Definedness(operand, negate) =>
      (match GetOperand(context, operand)
       case Err(e) => Err(e)
       case Ok(v) => Ok(Bool(if negate then v == NoneValue else v != NoneValue)))
    case AndNode(l, r) =>
      (match Evaluate(l, context)
       case Err(e) => Err(e)
       case Ok(left) =>
         match Evaluate(r, context)
         case Err(e) => Err(e)
         case Ok(right) => Ok(if Truthy(left) then right else left))
    case OrNode(l, r) =>
      (match Evaluate(l, context)
       case Err(e) => Err(e)
       case Ok(left) =>
         match Evaluate(r, context)
         case Err(e) => Err(e)
         case Ok(right) => Ok(if Truthy(left) then left else right))
    case Func(name, args) =>
      if !KnownFunction(name) || args == [] then Err(ValueError)
      else
        match Evaluate(args[0], context)
        case Err(e) => Err(e)
        case Ok(v) => Ok(Num(if Truthy(v) then 1.0 else 0.0))
  }

  /** What the debug evaluator returns: a pair of a value and a text, or (for a known function
      without arguments) a bare number, which its callers cannot unpack. */
  datatype Debugged = Pair(value: Value) | BareZero

  function Unpack(r: Result<Debugged, Error>): Evaluated {
    match r
    case Err(e) => Err(e)
    case Ok(Pair(v)) => Ok(v)
    case Ok(BareZero) => Err(TypeError)
  }

  function ToPair(r: Evaluated): Result<Debugged, Error> {
    match r
    case Err(e) => Err(e)
    case Ok(v) => Ok(Pair(v))
  }

  function EvaluateDebug(a: Ast, context: Value): Result<Debugged, Error> {
    match a
    case Comparison(op, operand, expected) =>
      var evaluated := match operand
        case Function(call) => Unpack(EvaluateDebug(call, context))
        case Path(path) => GetValue(context, path);
      (match evaluated
       case Err(e) => Err(e)
       case Ok(v) => ToPair(ToValue(Apply(op, v, NormalizeExpected(expected)))))
    case Membership(operand, items, negate) =>
      (match GetOperand(context, operand)
       case Err(e) => Err(e)
       case Ok(v) => Ok(Pair(Bool(if negate then !IsMember(v, items) else IsMember(v, items)))))
    case Definedness(operand, negate) =>
      (match GetOperand(context, operand)
       case Err(e) => Err(e)
       case Ok(v) => Ok(Pair(Bool(if negate then v == NoneValue else v != NoneValue))))
    case AndNode(l, r) =>
      (match Unpack(EvaluateDebug(l, context))
       case Err(e) => Err(e)
       case Ok(left) =>
         match Unpack(EvaluateDebug(r, context))
         case Err(e) => Err(e)
         case Ok(right) => Ok(Pair(if Truthy(left) then right else left)))
    case OrNode(l, r) =>
      (match Unpack(EvaluateDebug(l, context))
       case Err(e) => Err(e)
       case Ok(left) =>
         match Unpack(EvaluateDebug(r, context))
         case Err(e) => Err(e)
         case Ok(right) => Ok(Pair(if Truthy(left) then left else right)))
    case Func(name, args) =>
      if !KnownFunction(name) then Ok(Pair(Num(0.0)))
      else if args == [] then Ok(BareZero)
      else
        match Unpack(EvaluateDebug(args[0], context))
        case Err(e) => Err(e)
        case Ok(v) => Ok(Pair(Num(if Truthy(v) then 1.0 else 0.0)))
  }

  /** Every function that evaluation can reach is one the evaluators implement. */
  predicate OnlyKnownFunctions(a: Ast) {
    match a
    case OrNode(l, r) => OnlyKnownFunctions(l) && OnlyKnownFunctions(r)
    case AndNode(l, r) => OnlyKnownFunctions(l) && OnlyKnownFunctions(r)
    case Comparison(_, operand, _) => operand.Function? ==> OnlyKnownFunctions(operand.call)
    case Membership(_, _, _) => true
    case Definedness(_, _) => true
    case Func(name, args) => KnownFunction(name) && (args != [] ==> OnlyKnownFunctions(args[0]))
  }

  /** Whatever the plain evaluator returns, the debug evaluator returns too, on every expression and
      context. With implemented functions only, the debug evaluator succeeds on nothing more. */
  lemma {:induction false} DebugAgrees(a: Ast, context: Value)
    ensures Evaluate(a, context).Ok? ==> EvaluateDebug(a, context) == Ok(Pair(Evaluate(a, context).value))
    ensures OnlyKnownFunctions(a) ==> (Unpack(EvaluateDebug(a, context)).Ok? <==> Evaluate(a, context).Ok?)
  {
    match a
    case OrNode(l, r) =>
      DebugAgrees(l, context);
      DebugAgrees(r, context);
    case AndNode(l, r) =>
      DebugAgrees(l, context);
      DebugAgrees(r, context);
    case Comparison(op, operand, expected) =>
      if operand.Function? { DebugAgrees(operand.call, context); }
    case Membership(_, _, _) =>
    case Definedness(_, _) =>
    case Func(name, args) =>
      if args != [] { DebugAgrees(args[0], context); }
  }

  /** The exact condition for the two to succeed together: the plain evaluator succeeds where the debug
      evaluator does and every function that is reached is implemented, and nowhere else. */
  lemma {:induction false} EvaluatorsAgreeExactlyWhen(a: Ast, context: Value)
    ensures Evaluate(a, context).Ok? <==> OnlyKnownFunctions(a) && Unpack(EvaluateDebug(a, context)).Ok?
  {
    DebugAgrees(a, context);
    match a
    case OrNode(l, r) =>
      EvaluatorsAgreeExactlyWhen(l, context);
      EvaluatorsAgreeExactlyWhen(r, context);
    case AndNode(l, r) =>
      EvaluatorsAgreeExactlyWhen(l, context);
      EvaluatorsAgreeExactlyWhen(r, context);
    case Comparison(op, operand, expected) =>
      if operand.Function? { EvaluatorsAgreeExactlyWhen(operand.call, context); }
    case Membership(_, _, _) =>
    case Definedness(_, _) =>
    case Func(name, args) =>
      if args != [] { EvaluatorsAgreeExactlyWhen(args[0], context); }
  }

  /** The debug evaluator does accept more than the plain one: an unknown function counts as 0. */
  lemma DebugAcceptsUnknownFunction(context: Value)
    ensures var a := Comparison(Eq, Function(Func("sum", [])), ExpectedNumber(0.0));
            Evaluate(a, context).Err? && EvaluateDebug(a, context) == Ok(Pair(Bool(true)))
  {
  }

  /** On what the grammar can produce both evaluators return booleans only. */
  lemma {:induction false} ResultIsBoolean(a: Ast, context: Value)
    requires FromGrammar(a)
    ensures Evaluate(a, context).Ok? ==> Evaluate(a, context).value.Bool?
    ensures Unpack(EvaluateDebug(a, context)).Ok? ==> Unpack(EvaluateDebug(a, context)).value.Bool?
  {
    match a
    case OrNode(l, r) =>
      ResultIsBoolean(l, context);
      ResultIsBoolean(r, context);
    case AndNode(l, r) =>
      ResultIsBoolean(l, context);
      ResultIsBoolean(r, context);
    case _ =>
  }

  /** Where all parts can be evaluated, `and` and `or` are conjunction and disjunction; if a part
      fails the whole fails, since both sides are always evaluated. */
  lemma ConnectivesAreLogical(l: Ast, r: Ast, context: Value)
    requires FromGrammar(l) && FromGrammar(r)
    ensures Evaluate(AndNode(l, r), context).Ok? <==> Evaluate(l, context).Ok? && Evaluate(r, context).Ok?
    ensures Evaluate(OrNode(l, r), context).Ok? <==> Evaluate(l, context).Ok? && Evaluate(r, context).Ok?
    ensures Evaluate(AndNode(l, r), context) == Ok(Bool(true))
            <==> Evaluate(l, context) == Ok(Bool(true)) && Evaluate(r, context) == Ok(Bool(true))
    ensures Evaluate(OrNode(l, r), context) == Ok(Bool(false))
            <==> Evaluate(l, context) == Ok(Bool(false)) && Evaluate(r, context) == Ok(Bool(false))
  {
    ResultIsBoolean(l, context);
    ResultIsBoolean(r, context);
  }
}
