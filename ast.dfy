/**
 * The part of Babel's syntax tree the plugin looks at.
 *
 * Only call expressions carry an `id`: the import resolver compares the
 * argument of an `import()` call by object identity, and an argument node is
 * identified by the call it belongs to. The ids of distinct calls are taken to
 * be distinct. `ArrowFunction` stands for any function expression, arrow or
 * `function (...) {...}`: both have the `params` the declaration visitor reads. `Hole` is the `null` Babel leaves in an
 * element or argument list. `Other` is any node kind the plugin does not
 * inspect (return statements, logical expressions, blocks, programs, ...),
 * kept with its children so that traversal still reaches what is inside.
 */
module Ast {
  import opened Wrappers

  datatype Specifier =
    | ImportSpecifier(imported: string)
    | ImportDefaultSpecifier(local: string)
    | ImportNamespaceSpecifier(local: string)

  datatype Node =
    | NumericLiteral(numericValue: real)
    | BooleanLiteral(booleanValue: bool)
    | StringLiteral(stringValue: string)
    | NullLiteral
    | TemplateLiteral(quasis: seq<string>, expressions: seq<Node>)   // the cooked text of each quasi
    | Identifier(name: string)
    | ObjectExpression(properties: seq<Node>)
    | ArrayExpression(elements: seq<Node>)
    | SpreadElement(argument: Node)
    | Hole
    | Import
    | CallExpression(id: nat, callee: Node, arguments: seq<Node>)
    | MemberExpression(obj: Node, property: Node)   // `obj` is Babel's `object`
    | FunctionDeclaration(declId: Node, params: seq<Node>, body: seq<Node>, leadingComments: seq<string>)
    | ArrowFunction(params: seq<Node>, body: seq<Node>)
    | ExportDefaultDeclaration(declaration: Node, leadingComments: seq<string>)
    | VariableDeclarator(declId: Node, init: Node)
    | ImportDeclaration(source: string, specifiers: seq<Specifier>)
    | ObjectPattern(properties: seq<Node>)
    | Other(kind: string, children: seq<Node>)

  /** `callee.name`: only an identifier has one. */
  function CalleeName(callee: Node): Option<string> {
    if callee.Identifier? then Some(callee.name) else None
  }

  /** `value.includes(marker)`. */
  predicate Contains(s: string, sub: string)
    decreases |s|
  {
    |sub| <= |s| && (s[..|sub|] == sub || Contains(s[1..], sub))
  }

  /** Some leading comment of the node contains `marker`. */
  predicate HasMarker(comments: seq<string>, marker: string) {
    exists c | c in comments :: Contains(c, marker)
  }

  /**
   * Every node of the tree rooted at `n`, in the order Babel's traversal
   * enters them: the node, then its children in visitor-key order.
   */
  function Preorder(n: Node): seq<Node>
    decreases n
  {
    [n] +
    match n
    case TemplateLiteral(_, expressions) => PreorderList(expressions)
    case ObjectExpression(properties) => PreorderList(properties)
    case ArrayExpression(elements) => PreorderList(elements)
    case SpreadElement(argument) => Preorder(argument)
    case CallExpression(_, callee, arguments) => Preorder(callee) + PreorderList(arguments)
    case MemberExpression(obj, property) => Preorder(obj) + Preorder(property)
    case FunctionDeclaration(declId, params, body, _) =>
      Preorder(declId) + PreorderList(params) + PreorderList(body)
    case ArrowFunction(params, body) => PreorderList(params) + PreorderList(body)
    case ExportDefaultDeclaration(declaration, _) => Preorder(declaration)
    case VariableDeclarator(declId, init) => Preorder(declId) + Preorder(init)
    case ObjectPattern(properties) => PreorderList(properties)
    case Other(_, children) => PreorderList(children)
    case _ => []
  }

  function PreorderList(ns: seq<Node>): seq<Node>
    decreases ns
  {
    if ns == [] then [] else Preorder(ns[0]) + PreorderList(ns[1..])
  }

  /** What `path.traverse` visits: the nodes strictly below `n`. */
  function Descendants(n: Node): (r: seq<Node>)
    ensures Preorder(n) == [n] + r
  {
    Preorder(n)[1..]
  }

  lemma {:induction false} PreorderListAppend(a: seq<Node>, b: seq<Node>)
    ensures PreorderList(a + b) == PreorderList(a) + PreorderList(b)
    decreases |a|
  {
    if a == [] {
      assert a + b == b;
    } else {
      assert (a + b)[0] == a[0];
      assert (a + b)[1..] == a[1..] + b;
      PreorderListAppend(a[1..], b);
    }
  }
}
