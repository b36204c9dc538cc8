/**
 * The static-initial-state check of src/isNodeStaticValue.js: it turns the
 * initial-value argument of a stateful hook into a small descriptor array, or
 * answers `false` when the value is not a literal it knows.
 *
 * `Evaluate` is an independent reference: the value JavaScript gives a
 * literal made of literals, the three global constants and arrays of these.
 * An object literal counts only when it is empty: its properties are not
 * modelled, so `{a: 1}` has no value here. The check is sound against it (a
 * descriptor always denotes the value the node evaluates to) and
 * deliberately incomplete (non-empty arrays evaluate to a constant but are
 * refused).
 */
module StaticValue {
  import opened Wrappers
  import opened Ast
  import opened JsValues

  /** The arrays `isInitialStateValid` returns, by shape. */
  datatype Descriptor =
    | NoInitialState                        // []
    | NumericDescriptor(numericValue: real)  // ['NumericLiteral', value]
    | BooleanDescriptor(booleanValue: bool)  // ['BooleanLiteral', value]
    | StringDescriptor(stringValue: string)  // ['StringLiteral', value]
    | IdentifierDescriptor(name: string)     // ['Identifier', name]
    | EmptyObjectDescriptor                 // ['ObjectExpression']
    | EmptyArrayDescriptor                  // ['ArrayExpression']

  /** The global names the check lets through as identifiers. */
  const StaticGlobals: seq<string> := ["undefined", "NaN", "Infinity"]

  /** The concatenated text of a template's quasis. */
  function Join(quasis: seq<string>): string {
    if quasis == [] then "" else quasis[0] + Join(quasis[1..])
  }

  /** The value of a constant expression, or `None` when it is not one (a non-empty object included). */
  function Evaluate(n: Node): Option<JsValue> {
    match n
    case NumericLiteral(x) => Some(Num(Finite(x)))
    case BooleanLiteral(b) => Some(Bool(b))
    case StringLiteral(s) => Some(Str(s))
    case NullLiteral => Some(Null)
    case TemplateLiteral(quasis, expressions) =>
      if expressions == [] then Some(Str(Join(quasis))) else None
    case Identifier(name) =>
      if name == "undefined" then Some(Undefined)
      else if name == "NaN" then Some(Num(NaN))
      else if name == "Infinity" then Some(Num(Infinity))
      else None
    case ObjectExpression(properties) => if properties == [] then Some(Obj([])) else None
    case ArrayExpression(elements) =>
      (match EvaluateAll(elements)
       case Some(vs) => Some(Arr(vs))
       case None => None)
    case _ => None
  }

  function EvaluateAll(ns: seq<Node>): Option<seq<JsValue>> {
    if ns == [] then Some([])
    else match (Evaluate(ns[0]), EvaluateAll(ns[1..]))
      case (Some(v), Some(vs)) => Some([v] + vs)
      case _ => None
  }

  /** The value a stored descriptor stands for when it is replayed. */
  function DescriptorValue(d: Descriptor): Option<JsValue> {
    match d
    case NoInitialState => Some(Undefined)
    case NumericDescriptor(x) => Some(Num(Finite(x)))
    case BooleanDescriptor(b) => Some(Bool(b))
    case StringDescriptor(s) => Some(Str(s))
    case IdentifierDescriptor(name) =>
      if name == "null" then Some(Null) else Evaluate(Identifier(name))
    case EmptyObjectDescriptor => Some(Obj([]))
    case EmptyArrayDescriptor => Some(Arr([]))
  }

  /** A template literal as Babel builds it: one more quasi than interpolations. */
  predicate WellFormedTemplate(n: Node) {
    n.TemplateLiteral? ==> |n.quasis| == |n.expressions| + 1
  }

  /**
   * `isInitialStateValid(arg)`; `None` for the argument is a missing one, and
   * `None` for the result is `false`.
   */
  function IsInitialStateValid(arg: Option<Node>): (r: Option<Descriptor>)
    // a missing (or null) argument is the empty descriptor, not a refusal
    ensures arg.None? || arg.value.Hole? ==> r == Some(NoInitialState)
    // accepted exactly when the node is a constant that is not a non-empty array
    ensures arg.Some? && !arg.value.Hole? ==>
      (r.Some? <==> Evaluate(arg.value).Some? && !(arg.value.ArrayExpression? && arg.value.elements != []))
    // and what is accepted denotes the very value the node evaluates to
    ensures r.Some? && arg.Some? && !arg.value.Hole? && WellFormedTemplate(arg.value) ==>
      DescriptorValue(r.value) == Evaluate(arg.value)
    // an accepted identifier is named in the descriptor, `undefined` included
    ensures arg.Some? && arg.value.Identifier? && r.Some? ==> r.value == IdentifierDescriptor(arg.value.name)
  {
    if arg.None? || arg.value.Hole? then Some(NoInitialState)
    else match arg.value
      case NumericLiteral(x) => Some(NumericDescriptor(x))
      case BooleanLiteral(b) => Some(BooleanDescriptor(b))
      case StringLiteral(s) => Some(StringDescriptor(s))
      case TemplateLiteral(quasis, expressions) =>
        if |expressions| != 0 then None
        else if |quasis| == 0 then Some(StringDescriptor(""))
        else
          assert |quasis| == 1 ==> Join(quasis) == quasis[0] + Join(quasis[1..]) == quasis[0];
          Some(StringDescriptor(quasis[0]))
      case NullLiteral => Some(IdentifierDescriptor("null"))
      case Identifier(name) =>
        if name in StaticGlobals then Some(IdentifierDescriptor(name)) else None
      case ObjectExpression(properties) =>
        if |properties| != 0 then None else Some(EmptyObjectDescriptor)
      case ArrayExpression(elements) =>
        if |elements| != 0 then None else Some(EmptyArrayDescriptor)
      case _ => None
  }

  /** The check is conservative: `[0]` is a constant, yet it is refused. */
  lemma NonEmptyArrayRefused()
    ensures Evaluate(ArrayExpression([NumericLiteral(0.0)])) == Some(Arr([Num(Finite(0.0))]))
    ensures IsInitialStateValid(Some(ArrayExpression([NumericLiteral(0.0)]))) == None
  {
    var elements := [NumericLiteral(0.0)];
    assert elements[1..] == [];
    assert EvaluateAll(elements[1..]) == Some([]);
    assert Evaluate(elements[0]) == Some(Num(Finite(0.0)));
    assert [Num(Finite(0.0))] + [] == [Num(Finite(0.0))];
    assert EvaluateAll(elements) == Some([Num(Finite(0.0))]);
  }
}
