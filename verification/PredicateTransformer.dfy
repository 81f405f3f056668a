/**
 From parse tree to abstract syntax: parentheses disappear, dotted names are joined, literals are
 read. Printing goes the other way: `Parenthesize` puts back exactly the parentheses a tree needs.
 */
module PredicateTransformer {
  import opened Wrappers
  import opened PredicateSyntax
  import opened PredicateParser
  import opened PredicateGrammar
  import opened DottedPaths

  datatype Expected = ExpectedText(text: string) | ExpectedNumber(number: real)

  datatype Operand = Path(path: string) | Function(call: Ast)

  datatype Ast =
    | OrNode(left: Ast, right: Ast)
    | AndNode(left: Ast, right: Ast)
    | Comparison(op: Op, operand: Operand, expected: Expected)
    | Membership(operand: Operand, items: seq<Expected>, negate: bool)
    | Definedness(operand: Operand, negate: bool)
    | Func(name: string, args: seq<Ast>)

  // ----- The transformer -----

  function SegmentName(s: Segment): string {
    s.name
  }

  function SegmentNames(segments: seq<Segment>): (names: seq<string>)
    ensures |names| == |segments|
  {
    if segments == [] then [] else [SegmentName(segments[0])] + SegmentNames(segments[1..])
  }

  function TransformLiteral(v: Literal): Expected {
    match v
    case Text(s) => ExpectedText(s)
    case Number(x) => ExpectedNumber(x)
    case Word(n) => ExpectedText(n)
  }

  function TransformItems(items: seq<Literal>): seq<Expected> {
    if items == [] then [] else [TransformLiteral(items[0])] + TransformItems(items[1..])
  }

  function Transform(t: Tree): Ast {
    match t
    case Or(l, r) => OrNode(Transform(l), Transform(r))
    case And(l, r) => AndNode(Transform(l), Transform(r))
    case Paren(e) => Transform(e)
    case Compare(f, op, v) => Comparison(op, TransformField(f), TransformLiteral(v))
    case In(f, negated, items) => Membership(TransformField(f), TransformItems(items), negated)
    case IsDefined(f, negated) => Definedness(TransformField(f), negated)
  }

  function TransformField(f: Field): Operand {
    match f
    case Dotted(first, rest) => Path(Join([first] + SegmentNames(rest)))
    case EmptyCall(name) => Function(Func(name, []))
    case Call(name, args) => Function(Func(name, TransformArgs(args)))
  }

  function TransformArgs(a: Args): seq<Ast> {
    match a
    case Last(e) => [Transform(e)]
    case More(e, rest) => [Transform(e)] + TransformArgs(rest)
  }

  /** A child of the membership rule: the optional `not` token, or the list. */
  datatype Child = NotToken | ListChild(items: seq<Expected>)

  /** The children the parser hands to in_expr for a membership condition. */
  function InChildren(t: Tree): seq<Child>
    requires t.In?
  {
    (if t.negated then [NotToken] else []) + [ListChild(TransformItems(t.items))]
  }

  predicate IsLastList(children: seq<Child>, k: int) {
    0 <= k < |children| && children[k].ListChild? && forall j :: k < j < |children| ==> children[j].NotToken?
  }

  /** The list that comes last among the children. */
  function LastList(children: seq<Child>): seq<Expected> {
    if children == [] then []
    else
      match children[|children| - 1]
      case ListChild(items) => items
      case NotToken => LastList(children[..|children| - 1])
  }

  lemma {:induction false} LastListIs(children: seq<Child>)
    ensures forall k :: IsLastList(children, k) ==> LastList(children) == children[k].items
    ensures (forall k :: 0 <= k < |children| ==> children[k].NotToken?) ==> LastList(children) == []
  {
    if children != [] {
      var front := children[..|children| - 1];
      LastListIs(front);
      forall k | IsLastList(children, k) ensures LastList(children) == children[k].items {
        if k < |front| {
          assert children[|children| - 1].NotToken?;
          assert IsLastList(front, k);
        }
      }
    }
  }

  lemma InChildrenTransform(t: Tree)
    requires t.In?
    ensures Transform(t) == Membership(TransformField(t.field), LastList(InChildren(t)), NotToken in InChildren(t))
  {
    var children := InChildren(t);
    assert children[|children| - 1] == ListChild(TransformItems(t.items));
    assert t.negated ==> children[0] == NotToken;
  }

  /** in_expr scans its children for the `not` token and the list, in whatever order they come. On the children of
      a membership condition it returns what the transformation says. */
  method InExpr(operand: Operand, children: seq<Child>) returns (r: Ast)
    ensures r.Membership? && r.operand == operand
    ensures r.negate <==> NotToken in children
    ensures forall k :: IsLastList(children, k) ==> r.items == children[k].items
    ensures (forall k :: 0 <= k < |children| ==> children[k].NotToken?) ==> r.items == []
    ensures forall t: Tree ::
              t.In? && operand == TransformField(t.field) && children == InChildren(t) ==> r == Transform(t)
  {
    var items, negate := [], false;
    for i := 0 to |children|
      invariant negate <==> NotToken in children[..i]
      invariant items == LastList(children[..i])
    {
      assert children[..i + 1][..i] == children[..i];
      match children[i]
      case ListChild(list) => items := list;
      case NotToken => negate := true;
    }
    assert children[..|children|] == children;
    LastListIs(children);
    r := Membership(operand, items, negate);
    forall t: Tree | t.In? && operand == TransformField(t.field) && children == InChildren(t)
      ensures r == Transform(t) {
      InChildrenTransform(t);
    }
  }

  // ----- Parentheses -----

  /** The tree without any parentheses. */
  function Strip(t: Tree): Tree {
    match t
    case Or(l, r) => Or(Strip(l), Strip(r))
    case And(l, r) => And(Strip(l), Strip(r))
    case Paren(e) => Strip(e)
    case Compare(f, op, v) => Compare(StripField(f), op, v)
    case In(f, negated, items) => In(StripField(f), negated, items)
    case IsDefined(f, negated) => IsDefined(StripField(f), negated)
  }

  function StripField(f: Field): Field {
    match f
    case Call(name, args) => Call(name, StripArgs(args))
    case _ => f
  }

  function StripArgs(a: Args): Args {
    match a
    case Last(e) => Last(Strip(e))
    case More(e, rest) => More(Strip(e), StripArgs(rest))
  }

  /** Operator trees: nothing but the structure. Membership lists are not empty. */
  predicate IsBare(t: Tree) {
    match t
    case Or(l, r) => IsBare(l) && IsBare(r)
    case And(l, r) => IsBare(l) && IsBare(r)
    case Paren(_) => false
    case Compare(f, _, _) => IsBareField(f)
    case In(f, _, items) => IsBareField(f) && items != []
    case IsDefined(f, _) => IsBareField(f)
  }

  predicate IsBareField(f: Field) {
    f.Call? ==> IsBareArgs(f.args)
  }

  predicate IsBareArgs(a: Args) {
    match a
    case Last(e) => IsBare(e)
    case More(e, rest) => IsBare(e) && IsBareArgs(rest)
  }

  /** Parentheses around whatever binds more loosely than its place in the grammar allows. */
  function Guard(t: Tree, allowed: nat): Tree {
    if Looseness(t) <= allowed then t else Paren(t)
  }

  /** Minimal parentheses: `allowed` is 1 to the right of `or` and to the left of `and`, 0 to the
      right of `and`. */
  function Parenthesize(t: Tree): Tree {
    match t
    case Or(l, r) => Or(Parenthesize(l), Guard(Parenthesize(r), 1))
    case And(l, r) => And(Guard(Parenthesize(l), 1), Guard(Parenthesize(r), 0))
    case Paren(e) => Parenthesize(e)
    case Compare(f, op, v) => Compare(ParenthesizeField(f), op, v)
    case In(f, negated, items) => In(ParenthesizeField(f), negated, items)
    case IsDefined(f, negated) => IsDefined(ParenthesizeField(f), negated)
  }

  function ParenthesizeField(f: Field): Field {
    match f
    case Call(name, args) => Call(name, ParenthesizeArgs(args))
    case _ => f
  }

  function ParenthesizeArgs(a: Args): Args {
    match a
    case Last(e) => Last(Parenthesize(e))
    case More(e, rest) => More(Parenthesize(e), ParenthesizeArgs(rest))
  }

  lemma {:induction false} ParenthesizeIsGrammatical(t: Tree)
    requires IsBare(t)
    ensures IsExpr(Parenthesize(t)) && Strip(Parenthesize(t)) == t
    ensures Looseness(Parenthesize(t)) == Looseness(t)
    decreases t
  {
    match t
    case Or(l, r) =>
      ParenthesizeIsGrammatical(l);
      ParenthesizeIsGrammatical(r);
    case And(l, r) =>
      ParenthesizeIsGrammatical(l);
      ParenthesizeIsGrammatical(r);
    case Compare(f, _, _) => ParenthesizeFieldIsGrammatical(f);
    case In(f, _, _) => ParenthesizeFieldIsGrammatical(f);
    case IsDefined(f, _) => ParenthesizeFieldIsGrammatical(f);
  }

  lemma {:induction false} ParenthesizeFieldIsGrammatical(f: Field)
    requires IsBareField(f)
    ensures IsField(ParenthesizeField(f)) && StripField(ParenthesizeField(f)) == f
    decreases f
  {
    if f.Call? { ParenthesizeArgsIsGrammatical(f.args); }
  }

  lemma {:induction false} ParenthesizeArgsIsGrammatical(a: Args)
    requires IsBareArgs(a)
    ensures IsArgs(ParenthesizeArgs(a)) && StripArgs(ParenthesizeArgs(a)) == a
    decreases a
  {
    match a
    case Last(e) => ParenthesizeIsGrammatical(e);
    case More(e, rest) =>
      ParenthesizeIsGrammatical(e);
      ParenthesizeArgsIsGrammatical(rest);
  }

  /** Round trip: print any operator tree with minimal parentheses, parse it, and the tree is back. */
  lemma PrintThenParse(t: Tree)
    requires IsBare(t)
    ensures Parse(Yield(Parenthesize(t))).Some?
    ensures Strip(Parse(Yield(Parenthesize(t))).value) == t
  {
    ParenthesizeIsGrammatical(t);
    ParsesExactlyTheGrammar(Yield(Parenthesize(t)), Parenthesize(t));
  }

  function Parens(t: Tree): nat {
    match t
    case Or(l, r) => Parens(l) + Parens(r)
    case And(l, r) => Parens(l) + Parens(r)
    case Paren(e) => 1 + Parens(e)
    case Compare(f, _, _) => ParensInField(f)
    case In(f, _, _) => ParensInField(f)
    case IsDefined(f, _) => ParensInField(f)
  }

  function ParensInField(f: Field): nat {
    if f.Call? then ParensInArgs(f.args) else 0
  }

  function ParensInArgs(a: Args): nat {
    match a
    case Last(e) => Parens(e)
    case More(e, rest) => Parens(e) + ParensInArgs(rest)
  }

  /** No grammatical tree with the same structure has fewer parentheses than the printed one, and no
      other has as few. */
  lemma MinimalParens(t: Tree)
    requires IsExpr(t)
    ensures Parens(Parenthesize(Strip(t))) <= Parens(t)
    ensures Parens(Parenthesize(Strip(t))) == Parens(t) <==> t == Parenthesize(Strip(t))
  {
    ParenthesizeIsMinimal(t);
  }

  lemma {:induction false} ParenthesizeIsMinimal(t: Tree)
    requires IsExpr(t)
    ensures Parens(Parenthesize(Strip(t))) <= Parens(t)
    ensures Parens(Parenthesize(Strip(t))) == Parens(t) ==> t == Parenthesize(Strip(t)) || t.Paren?
    ensures Looseness(Parenthesize(Strip(t))) > Looseness(t) ==> Parens(Parenthesize(Strip(t))) < Parens(t)
    ensures t.Paren? && Parens(Guard(Parenthesize(Strip(t)), 1)) == Parens(t) ==> t == Guard(Parenthesize(Strip(t)), 1)
    ensures t.Paren? && Parens(Guard(Parenthesize(Strip(t)), 0)) == Parens(t) ==> t == Guard(Parenthesize(Strip(t)), 0)
    ensures t.Paren? ==> Parens(Parenthesize(Strip(t))) < Parens(t)
    decreases t
  {
    match t
    case Or(l, r) =>
      ParenthesizeIsMinimal(l);
      ParenthesizeIsMinimal(r);
    case And(l, r) =>
      ParenthesizeIsMinimal(l);
      ParenthesizeIsMinimal(r);
    case Paren(e) => ParenthesizeIsMinimal(e);
    case Compare(f, _, _) => ParenthesizeFieldIsMinimal(f);
    case In(f, _, _) => ParenthesizeFieldIsMinimal(f);
    case IsDefined(f, _) => ParenthesizeFieldIsMinimal(f);
  }

  lemma {:induction false} ParenthesizeFieldIsMinimal(f: Field)
    requires IsField(f)
    ensures ParensInField(ParenthesizeField(StripField(f))) <= ParensInField(f)
    ensures ParensInField(ParenthesizeField(StripField(f))) == ParensInField(f)
            ==> f == ParenthesizeField(StripField(f))
    decreases f
  {
    if f.Call? { ParenthesizeArgsIsMinimal(f.args); }
  }

  lemma {:induction false} ParenthesizeArgsIsMinimal(a: Args)
    requires IsArgs(a)
    ensures ParensInArgs(ParenthesizeArgs(StripArgs(a))) <= ParensInArgs(a)
    ensures ParensInArgs(ParenthesizeArgs(StripArgs(a))) == ParensInArgs(a) ==> a == ParenthesizeArgs(StripArgs(a))
    decreases a
  {
    ParenthesizeIsMinimal(a.arg);
    if a.More? { ParenthesizeArgsIsMinimal(a.others); }
  }

  /** t' is t with parentheses added around any of its expressions, any number of times. */
  predicate AddsParens(t: Tree, t': Tree)
    decreases t', 1
  {
    (t'.Paren? && AddsParens(t, t'.inner)) || SameRoot(t, t')
  }

  predicate SameRoot(t: Tree, t': Tree)
    decreases t', 0
  {
    match t'
    case Or(l', r') => t.Or? && AddsParens(t.left, l') && AddsParens(t.right, r')
    case And(l', r') => t.And? && AddsParens(t.left, l') && AddsParens(t.right, r')
    case Paren(e') => t.Paren? && AddsParens(t.inner, e')
    case Compare(f', op, v) => t.Compare? && t.op == op && t.value == v && AddsParensInField(t.field, f')
    case In(f', negated, items) => t.In? && t.negated == negated && t.items == items && AddsParensInField(t.field, f')
    case IsDefined(f', negated) => t.IsDefined? && t.negated == negated && AddsParensInField(t.field, f')
  }

  predicate AddsParensInField(f: Field, f': Field)
    decreases f', 0
  {
    if f'.Call? then f.Call? && f.function_ == f'.function_ && AddsParensInArgs(f.args, f'.args) else f == f'
  }

  predicate AddsParensInArgs(a: Args, a': Args)
    decreases a', 0
  {
    match a'
    case Last(e') => a.Last? && AddsParens(a.arg, e')
    case More(e', rest') => a.More? && AddsParens(a.arg, e') && AddsParensInArgs(a.others, rest')
  }

  lemma {:induction false} AddedParensAreInvisible(t: Tree, t': Tree)
    requires IsExpr(t) && AddsParens(t, t')
    ensures IsExpr(t') && Looseness(t') <= Looseness(t)
    ensures Transform(t') == Transform(t) && Strip(t') == Strip(t)
    decreases t'
  {
    if t'.Paren? && AddsParens(t, t'.inner) {
      AddedParensAreInvisible(t, t'.inner);
    } else {
      match t'
      case Or(l', r') =>
        AddedParensAreInvisible(t.left, l');
        AddedParensAreInvisible(t.right, r');
      case And(l', r') =>
        AddedParensAreInvisible(t.left, l');
        AddedParensAreInvisible(t.right, r');
      case Paren(e') => AddedParensAreInvisible(t.inner, e');
      case Compare(f', _, _) => AddedParensInField(t.field, f');
      case In(f', _, _) => AddedParensInField(t.field, f');
      case IsDefined(f', _) => AddedParensInField(t.field, f');
    }
  }

  lemma {:induction false} AddedParensInField(f: Field, f': Field)
    requires IsField(f) && AddsParensInField(f, f')
    ensures IsField(f') && TransformField(f') == TransformField(f) && StripField(f') == StripField(f)
    decreases f'
  {
    if f'.Call? { AddedParensInArgs(f.args, f'.args); }
  }

  lemma {:induction false} AddedParensInArgs(a: Args, a': Args)
    requires IsArgs(a) && AddsParensInArgs(a, a')
    ensures IsArgs(a') && TransformArgs(a') == TransformArgs(a) && StripArgs(a') == StripArgs(a)
    decreases a'
  {
    AddedParensAreInvisible(a.arg, a'.arg);
    if a'.More? { AddedParensInArgs(a.others, a'.others); }
  }

  /** Redundant parentheses, anywhere and any number of them: the text still parses, to the same
      abstract syntax. */
  lemma RedundantParens(t: Tree, t': Tree)
    requires IsExpr(t) && AddsParens(t, t')
    ensures Parse(Yield(t)) == Some(t) && Parse(Yield(t')) == Some(t')
    ensures Transform(t') == Transform(t)
  {
    AddedParensAreInvisible(t, t');
    ParsesExactlyTheGrammar(Yield(t), t);
    ParsesExactlyTheGrammar(Yield(t'), t');
  }

  // ----- Shape of transformed expressions -----

  /** Function calls occur only as the left-hand side of a comparison. */
  predicate FromGrammar(a: Ast) {
    match a
    case OrNode(l, r) => FromGrammar(l) && FromGrammar(r)
    case AndNode(l, r) => FromGrammar(l) && FromGrammar(r)
    case Comparison(_, operand, _) => OperandFromGrammar(operand)
    case Membership(operand, _, _) => OperandFromGrammar(operand)
    case Definedness(operand, _) => OperandFromGrammar(operand)
    case Func(_, _) => false
  }

  predicate OperandFromGrammar(o: Operand) {
    o.Function? ==> o.call.Func? && forall i :: 0 <= i < |o.call.args| ==> FromGrammar(o.call.args[i])
  }

  lemma {:induction false} TransformedShape(t: Tree)
    ensures FromGrammar(Transform(t))
    decreases t
  {
    match t
    case Or(l, r) =>
      TransformedShape(l);
      TransformedShape(r);
    case And(l, r) =>
      TransformedShape(l);
      TransformedShape(r);
    case Paren(e) => TransformedShape(e);
    case Compare(f, _, _) => TransformedFieldShape(f);
    case In(f, _, _) => TransformedFieldShape(f);
    case IsDefined(f, _) => TransformedFieldShape(f);
  }

  lemma {:induction false} TransformedFieldShape(f: Field)
    ensures OperandFromGrammar(TransformField(f))
    decreases f
  {
    if f.Call? { TransformedArgsShape(f.args); }
  }

  lemma {:induction false} TransformedArgsShape(a: Args)
    ensures forall i :: 0 <= i < |TransformArgs(a)| ==> FromGrammar(TransformArgs(a)[i])
    decreases a
  {
    TransformedShape(a.arg);
    if a.More? { TransformedArgsShape(a.others); }
  }
}
