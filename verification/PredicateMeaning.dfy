/**
 What a cart predicate says, read off its parse tree: connectives are truth functions, comparisons are relations
 between numbers or between texts, a field is what the context holds at the end of its path. Both evaluators
 are proved to compute it.
 */
module PredicateMeaning {
  import opened Wrappers
  import opened PredicateSyntax
  import opened PredicateTransformer
  import opened PredicateEvaluator
  import opened DottedPaths
  import opened Lexicographic

  // ----- Values and relations -----

  /** What the context holds along a path. */
  function At(v: Value, path: seq<string>): Option<Value> {
    if path == [] then Some(v)
    else if v.Dict? && path[0] in v.entries then At(v.entries[path[0]], path[1..])
    else None
  }

  /** What can be compared: truth values are the numbers 1 and 0. */
  datatype Comparable = ANumber(x: real) | AText(s: string) | Neither

  function ValueKind(v: Value): Comparable {
    match v
    case Bool(b) => ANumber(if b then 1.0 else 0.0)
    case Num(x) => ANumber(x)
    case Str(s) => AText(s)
    case _ => Neither
  }

  function LiteralText(l: Literal): string
    requires !l.Number?
  {
    if l.Text? then l.text else l.name
  }

  /** The literals `true` and `false`, quoted or not, stand for 1 and 0 in a comparison. */
  function LiteralKind(l: Literal): Comparable {
    if l.Number? then ANumber(l.number)
    else if LiteralText(l) == "true" then ANumber(1.0)
    else if LiteralText(l) == "false" then ANumber(0.0)
    else AText(LiteralText(l))
  }

  predicate RelatesNumbers(op: Op, x: real, y: real) {
    match op
    case Eq => x == y
    case Ne => x != y
    case Gt => x > y
    case Lt => x < y
    case Ge => x >= y
    case Le => x <= y
  }

  /** Texts are ordered by code points; at least means not less. */
  predicate RelatesTexts(op: Op, s: string, t: string) {
    match op
    case Eq => s == t
    case Ne => s != t
    case Gt => Less(t, s)
    case Lt => Less(s, t)
    case Ge => !Less(s, t)
    case Le => !Less(t, s)
  }

  /** None where the comparison raises: things of different kinds are unequal and have no order. */
  function Relates(op: Op, a: Comparable, b: Comparable): Option<bool> {
    if a.ANumber? && b.ANumber? then Some(RelatesNumbers(op, a.x, b.x))
    else if a.AText? && b.AText? then Some(RelatesTexts(op, a.s, b.s))
    else if op == Eq then Some(false)
    else if op == Ne then Some(true)
    else None
  }

  /** Membership compares literals as they are. */
  predicate SameAs(v: Value, l: Literal) {
    if l.Number? then ValueKind(v) == ANumber(l.number) else v == Str(LiteralText(l))
  }

  // ----- The truth of a tree -----

  /** Whether the predicate holds in the context; None where checking it raises. The debug evaluator differs in one
      thing: it takes an unknown function for 0. */
  function Holds(t: Tree, c: Value, debug: bool): Option<bool>
    decreases t
  {
    match t
    case Or(l, r) => Both(Holds(l, c, debug), Holds(r, c, debug), false)
    case And(l, r) => Both(Holds(l, c, debug), Holds(r, c, debug), true)
    case Paren(e) => Holds(e, c, debug)
    case Compare(f, op, l) =>
      (match FieldValue(f, c, debug)
       case None => None
       case Some(v) => Relates(op, ValueKind(v), LiteralKind(l)))
    case In(f, negated, items) =>
      (match DottedValue(f, c)
       case None => None
       case Some(v) => Some(negated != exists i :: 0 <= i < |items| && SameAs(v, items[i])))
    case IsDefined(f, negated) =>
      (match DottedValue(f, c)
       case None => None
       case Some(v) => Some(negated == (v == NoneValue)))
  }

  /** Conjunction or disjunction; it raises when a side does, since both sides are always evaluated. */
  function Both(a: Option<bool>, b: Option<bool>, conjunction: bool): Option<bool> {
    if a.None? || b.None? then None
    else Some(if conjunction then a.value && b.value else a.value || b.value)
  }

  /** Only a dotted name can be looked up. */
  function DottedValue(f: Field, c: Value): Option<Value> {
    if f.Dotted? then At(c, PathOf([f.first] + SegmentNames(f.rest))) else None
  }

  /** The functions there are. */
  predicate IsFunction(name: string) {
    name == "lineItemCount" || name == "lineItemExists"
  }

  function FirstArg(a: Args): Tree {
    match a
    case Last(e) => e
    case More(e, _) => e
  }

  /** A known function is 1 or 0, as its first argument holds or not. */
  function FieldValue(f: Field, c: Value, debug: bool): Option<Value>
    decreases f
  {
    match f
    case Dotted(_, _) => DottedValue(f, c)
    case EmptyCall(name) => if debug && !IsFunction(name) then Some(Num(0.0)) else None
    case Call(name, args) =>
      if !IsFunction(name) then (if debug then Some(Num(0.0)) else None)
      else
        match Holds(FirstArg(args), c, debug)
        case None => None
        case Some(b) => Some(Num(if b then 1.0 else 0.0))
  }

  // ----- The evaluators compute it -----

  /** The result is the truth value, or an error where there is none. */
  predicate Computes(r: Evaluated, truth: Option<bool>) {
    match truth
    case Some(b) => r == Ok(Bool(b))
    case None => r.Err?
  }

  predicate Finds(r: Evaluated, v: Option<Value>) {
    match v
    case Some(x) => r == Ok(x)
    case None => r.Err?
  }

  lemma {:induction false} LookupFinds(c: Value, path: seq<string>)
    ensures Finds(Lookup(c, path), At(c, path))
  {
    if path != [] && c.Dict? && path[0] in c.entries { LookupFinds(c.entries[path[0]], path[1..]); }
  }

  lemma GetValueFinds(f: Field, c: Value)
    requires f.Dotted?
    ensures TransformField(f).Path? && Finds(GetValue(c, TransformField(f).path), DottedValue(f, c))
  {
    SplitOfJoinIsPath([f.first] + SegmentNames(f.rest));
    LookupFinds(c, PathOf([f.first] + SegmentNames(f.rest)));
  }

  lemma ApplyRelates(op: Op, v: Value, l: Literal)
    ensures match Relates(op, ValueKind(v), LiteralKind(l))
            case Some(b) => Apply(op, v, NormalizeExpected(TransformLiteral(l))) == Ok(b)
            case None => Apply(op, v, NormalizeExpected(TransformLiteral(l))).Err?
  {
    if v.Str? && LiteralKind(l).AText? { LessTotal(v.s, LiteralKind(l).s); LessIrreflexive(v.s); }
  }

  lemma {:induction false} TransformItemsAt(items: seq<Literal>)
    ensures |TransformItems(items)| == |items|
    ensures forall i :: 0 <= i < |items| ==> TransformItems(items)[i] == TransformLiteral(items[i])
  {
    if items != [] { TransformItemsAt(items[1..]); }
  }

  lemma MembershipIs(v: Value, items: seq<Literal>)
    ensures IsMember(v, TransformItems(items)) <==> exists i :: 0 <= i < |items| && SameAs(v, items[i])
  {
    TransformItemsAt(items);
    forall i | 0 <= i < |items| ensures Equals(v, TransformItems(items)[i]) <==> SameAs(v, items[i]) {
    }
  }

  /** The plain evaluator, on the abstract syntax of any parse tree, computes what the tree says. */
  lemma {:induction false} EvaluateComputesMeaning(t: Tree, c: Value)
    ensures Computes(Evaluate(Transform(t), c), Holds(t, c, false))
    decreases t
  {
    match t
    case Or(l, r) =>
      EvaluateComputesMeaning(l, c);
      EvaluateComputesMeaning(r, c);
    case And(l, r) =>
      EvaluateComputesMeaning(l, c);
      EvaluateComputesMeaning(r, c);
    case Paren(e) => EvaluateComputesMeaning(e, c);
    case Compare(f, op, l) =>
      OperandComputes(f, c);
      var v := FieldValue(f, c, false);
      if v.Some? { ApplyRelates(op, v.value, l); }
    case In(f, negated, items) =>
      if f.Dotted? {
        GetValueFinds(f, c);
        if DottedValue(f, c).Some? { MembershipIs(DottedValue(f, c).value, items); }
      }
    case IsDefined(f, _) => if f.Dotted? { GetValueFinds(f, c); }
  }

  function OperandValue(o: Operand, c: Value): Evaluated {
    match o
    case Function(call) => Evaluate(call, c)
    case Path(path) => GetValue(c, path)
  }

  lemma {:induction false} OperandComputes(f: Field, c: Value)
    ensures Finds(OperandValue(TransformField(f), c), FieldValue(f, c, false))
    decreases f
  {
    match f
    case Dotted(_, _) => GetValueFinds(f, c);
    case EmptyCall(_) =>
    case Call(_, args) => EvaluateComputesMeaning(FirstArg(args), c);
  }

  /** So does the debug evaluator, with its reading of unknown functions. */
  lemma {:induction false} DebugComputesMeaning(t: Tree, c: Value)
    ensures Computes(Unpack(EvaluateDebug(Transform(t), c)), Holds(t, c, true))
    decreases t
  {
    match t
    case Or(l, r) =>
      DebugComputesMeaning(l, c);
      DebugComputesMeaning(r, c);
    case And(l, r) =>
      DebugComputesMeaning(l, c);
      DebugComputesMeaning(r, c);
    case Paren(e) => DebugComputesMeaning(e, c);
    case Compare(f, op, l) =>
      DebugOperandComputes(f, c);
      var v := FieldValue(f, c, true);
      if v.Some? { ApplyRelates(op, v.value, l); }
    case In(f, negated, items) =>
      if f.Dotted? {
        GetValueFinds(f, c);
        if DottedValue(f, c).Some? { MembershipIs(DottedValue(f, c).value, items); }
      }
    case IsDefined(f, _) => if f.Dotted? { GetValueFinds(f, c); }
  }

  function DebugOperandValue(o: Operand, c: Value): Evaluated {
    match o
    case Function(call) => Unpack(EvaluateDebug(call, c))
    case Path(path) => GetValue(c, path)
  }

  lemma {:induction false} DebugOperandComputes(f: Field, c: Value)
    ensures Finds(DebugOperandValue(TransformField(f), c), FieldValue(f, c, true))
    decreases f
  {
    match f
    case Dotted(_, _) => GetValueFinds(f, c);
    case EmptyCall(_) =>
    case Call(_, args) => DebugComputesMeaning(FirstArg(args), c);
  }
}
