/**
 * The import resolver of src/resolve-import-statement.js.
 *
 * `FindImportArgument` follows the callee chain and then the object chain of
 * one node down to an `import(...)` call. `ImportSearch` is the traversal of
 * `findImportStatementNode`: it visits every node below the search root,
 * keeps the one import argument found in the shared `state.import`, refuses a
 * second, distinct one, and recurses into the declaration an identifier is
 * bound to.
 *
 * Scope lookup is a map from names to the declaring node. A binding cycle
 * (two functions that name each other) makes the source recurse until the
 * stack overflows; here the recursion depth is bounded by `fuel` and running
 * out of it is the error `CallStackExceeded`.
 */
module ResolveImport {
  import opened Wrappers
  import opened Config
  import opened Ast

  /**
   * The first argument of an `import()` call. Babel compares argument nodes by
   * identity, and two arguments are the same node exactly when they belong to
   * the same call, so the call's `id` goes along.
   */
  datatype ImportArg = ImportArg(callId: nat, node: Node)

  /** `n` is an `import(...)` call and `a` is its first argument. */
  predicate IsArgumentOf(a: ImportArg, n: Node) {
    && n.CallExpression? && n.callee.Import?
    && |n.arguments| > 0 && !n.arguments[0].Hole?
    && a == ImportArg(n.id, n.arguments[0])
  }

  /**
   * `findImportArgument(node)`. A node without a `callee` or an `object`
   * gives `findImportArgument(undefined)`, which is `undefined`.
   */
  function FindImportArgument(n: Node): (r: Option<ImportArg>)
    // an import() call yields its own first argument
    ensures n.CallExpression? && n.callee.Import? ==>
      (r.Some? <==> |n.arguments| > 0 && !n.arguments[0].Hole?) && (r.Some? ==> IsArgumentOf(r.value, n))
    // the callee chain is searched before the object chain
    ensures n.CallExpression? && !n.callee.Import? ==> r == FindImportArgument(n.callee)
    ensures n.MemberExpression? ==> r == FindImportArgument(n.obj)
    ensures !n.CallExpression? && !n.MemberExpression? ==> r.None?
    decreases n
  {
    if n.CallExpression? && n.callee.Import? then
      if |n.arguments| > 0 && !n.arguments[0].Hole? then
        Some(ImportArg(n.id, n.arguments[0]))
      else None
    else
      var viaCallee := if n.CallExpression? then FindImportArgument(n.callee) else None;
      if viaCallee.Some? then viaCallee
      else if n.MemberExpression? then FindImportArgument(n.obj)
      else None
  }

  /** Whatever is found is the first argument of an `import()` call inside the node. */
  lemma {:induction false} FoundArgumentIsInside(n: Node)
    requires FindImportArgument(n).Some?
    ensures exists c :: c in Preorder(n) && IsArgumentOf(FindImportArgument(n).value, c)
    decreases n
  {
    if n.CallExpression? && n.callee.Import? {
      assert n in Preorder(n) && IsArgumentOf(FindImportArgument(n).value, n);
    } else if n.CallExpression? && FindImportArgument(n.callee).Some? {
      FoundArgumentIsInside(n.callee);
    } else {
      FoundArgumentIsInside(n.obj);
    }
  }

  /** The Identifier visitor follows `name` from the search rooted at `root`. */
  predicate Followed(name: string, root: Node, env: map<string, Node>) {
    && name in env
    && env[name] != root
    && (env[name].FunctionDeclaration? || env[name].VariableDeclarator?)
  }

  /**
   * `findImportStatementNode(root, state)` with `state.import == found`: the
   * final `state.import`, or the error thrown.
   */
  function Search(found: Option<ImportArg>, root: Node, env: map<string, Node>, fuel: nat)
    : (r: Result<Option<ImportArg>, BuildError>)
    // the search throws only the too-many-imports error, or runs out of call stack
    ensures r.Err? ==> r.error == TooManyImports || r.error == CallStackExceeded
    decreases fuel, 1
  {
    SearchNodes(found, root, Descendants(root), env, fuel)
  }

  /** The traversal of `Search` over the nodes still to visit. */
  function SearchNodes(found: Option<ImportArg>, root: Node, nodes: seq<Node>, env: map<string, Node>, fuel: nat)
    : (r: Result<Option<ImportArg>, BuildError>)
    ensures r.Err? ==> r.error == TooManyImports || r.error == CallStackExceeded
    decreases fuel, 0, |nodes|
  {
    if nodes == [] then Ok(found)
    else
      var n := nodes[0];
      if n.CallExpression? then
        match FindImportArgument(n)
        case None => SearchNodes(found, root, nodes[1..], env, fuel)
        case Some(a) =>
          if found.Some? && found.value != a then Err(TooManyImports)
          else SearchNodes(Some(a), root, nodes[1..], env, fuel)
      else if n.Identifier? && Followed(n.name, root, env) then
        if fuel == 0 then Err(CallStackExceeded)
        else
          match Search(found, env[n.name], env, fuel - 1)
          case Err(e) => Err(e)
          case Ok(f) => SearchNodes(f, root, nodes[1..], env, fuel)
      else SearchNodes(found, root, nodes[1..], env, fuel)
  }

  /** The `state` object shared by the traversal callbacks and the recursive calls. */
  class ImportSearch {
    var found: Option<ImportArg>   // state.import

    constructor ()
      ensures found.None?
    {
      found := None;
    }

    /** `findImportStatementNode(root, this)`. */
    method FindImportStatementNode(root: Node, env: map<string, Node>, fuel: nat) returns (err: Option<BuildError>)
      modifies this
      ensures Search(old(found), root, env, fuel) == if err.Some? then Err(err.value) else Ok(found)
      decreases fuel
    {
      var nodes := Descendants(root);
      for i := 0 to |nodes|
        invariant Search(old(found), root, env, fuel) == SearchNodes(found, root, nodes[i..], env, fuel)
      {
        var n := nodes[i];
        assert nodes[i..][0] == n && nodes[i..][1..] == nodes[i + 1..];
        if n.CallExpression? {
          // CallExpression visitor
          var importArg := FindImportArgument(n);
          if importArg.Some? {
            if found.Some? && found.value != importArg.value {
              return Some(TooManyImports);
            }
            found := importArg;
          }
        } else if n.Identifier? {
          // Identifier visitor
          if Followed(n.name, root, env) {
            if fuel == 0 {
              return Some(CallStackExceeded);
            }
            var e := FindImportStatementNode(env[n.name], env, fuel - 1);
            if e.Some? {
              return e;
            }
          }
        }
      }
      assert nodes[|nodes|..] == [];
      return None;
    }
  }

  /** Once an argument is found, `state.import` keeps it: the search ends with it or with an error. */
  lemma {:induction false} SearchKeepsFound(a: ImportArg, root: Node, env: map<string, Node>, fuel: nat)
    ensures Search(Some(a), root, env, fuel).Ok? ==> Search(Some(a), root, env, fuel).value == Some(a)
    decreases fuel, 1
  {
    SearchNodesKeepsFound(a, root, Descendants(root), env, fuel);
  }

  lemma {:induction false} SearchNodesKeepsFound(a: ImportArg, root: Node, nodes: seq<Node>, env: map<string, Node>, fuel: nat)
    ensures SearchNodes(Some(a), root, nodes, env, fuel).Ok? ==> SearchNodes(Some(a), root, nodes, env, fuel).value == Some(a)
    decreases fuel, 0, |nodes|
  {
    if nodes != [] {
      var n := nodes[0];
      if n.Identifier? && Followed(n.name, root, env) && fuel > 0 {
        SearchKeepsFound(a, env[n.name], env, fuel - 1);
      }
      SearchNodesKeepsFound(a, root, nodes[1..], env, fuel);
    }
  }

  /** No identifier among the first `j` nodes sends the search into another declaration. */
  predicate NoFollowedBefore(root: Node, nodes: seq<Node>, env: map<string, Node>, j: int) {
    forall k :: 0 <= k < j && k < |nodes| ==> !(nodes[k].Identifier? && Followed(nodes[k].name, root, env))
  }

  lemma NoFollowedBeforeTail(root: Node, nodes: seq<Node>, env: map<string, Node>, j: nat)
    requires 0 < j <= |nodes| && NoFollowedBefore(root, nodes, env, j)
    ensures !(nodes[0].Identifier? && Followed(nodes[0].name, root, env))
    ensures NoFollowedBefore(root, nodes[1..], env, j - 1)
  {
    forall k | 0 <= k < j - 1
      ensures nodes[1..][k] == nodes[k + 1]
    {
    }
  }

  /**
   * With an argument already held, visiting a call to a different import is
   * an error: the too-many-imports error, unless an identifier followed before
   * that call exhausts the call stack first.
   */
  lemma {:induction false} ConflictRejected(a: ImportArg, root: Node, nodes: seq<Node>, env: map<string, Node>, fuel: nat, j: nat)
    requires j < |nodes| && nodes[j].CallExpression?
    requires FindImportArgument(nodes[j]).Some? && FindImportArgument(nodes[j]).value != a
    ensures SearchNodes(Some(a), root, nodes, env, fuel) == Err(TooManyImports)
      || SearchNodes(Some(a), root, nodes, env, fuel) == Err(CallStackExceeded)
    ensures NoFollowedBefore(root, nodes, env, j) ==> SearchNodes(Some(a), root, nodes, env, fuel) == Err(TooManyImports)
    decreases j
  {
    var n := nodes[0];
    if j > 0 {
      assert nodes[1..][j - 1] == nodes[j];
      if n.Identifier? && Followed(n.name, root, env) && fuel > 0 {
        SearchKeepsFound(a, env[n.name], env, fuel - 1);
      }
      if NoFollowedBefore(root, nodes, env, j) {
        NoFollowedBeforeTail(root, nodes, env, j);
      }
      ConflictRejected(a, root, nodes[1..], env, fuel, j - 1);
    }
  }

  /**
   * Visiting the first node either fails or leaves some argument held for the
   * rest; a first node that is not a followed identifier fails only with the
   * too-many-imports error.
   */
  lemma SearchStep(found: Option<ImportArg>, root: Node, nodes: seq<Node>, env: map<string, Node>, fuel: nat)
    returns (f: Option<ImportArg>)
    requires nodes != []
    ensures SearchNodes(found, root, nodes, env, fuel).Ok? ==>
      SearchNodes(found, root, nodes, env, fuel) == SearchNodes(f, root, nodes[1..], env, fuel)
    ensures !(nodes[0].Identifier? && Followed(nodes[0].name, root, env)) ==>
      SearchNodes(found, root, nodes, env, fuel) == Err(TooManyImports)
      || SearchNodes(found, root, nodes, env, fuel) == SearchNodes(f, root, nodes[1..], env, fuel)
  {
    var n := nodes[0];
    if n.CallExpression? && FindImportArgument(n).Some? {
      f := FindImportArgument(n);
    } else if n.Identifier? && Followed(n.name, root, env) && fuel > 0 && Search(found, env[n.name], env, fuel - 1).Ok? {
      f := Search(found, env[n.name], env, fuel - 1).value;
    } else {
      f := found;
    }
  }

  /** An argument already held differs from at least one of two distinct ones reached later. */
  lemma ConflictWithEither(a: ImportArg, root: Node, nodes: seq<Node>, env: map<string, Node>, fuel: nat, i: nat, j: nat)
    requires i < j < |nodes| && nodes[i].CallExpression? && nodes[j].CallExpression?
    requires FindImportArgument(nodes[i]).Some? && FindImportArgument(nodes[j]).Some?
    requires FindImportArgument(nodes[i]) != FindImportArgument(nodes[j])
    ensures SearchNodes(Some(a), root, nodes, env, fuel) == Err(TooManyImports)
      || SearchNodes(Some(a), root, nodes, env, fuel) == Err(CallStackExceeded)
    ensures NoFollowedBefore(root, nodes, env, j) ==> SearchNodes(Some(a), root, nodes, env, fuel) == Err(TooManyImports)
  {
    if FindImportArgument(nodes[i]).value != a {
      ConflictRejected(a, root, nodes, env, fuel, i);
    } else {
      ConflictRejected(a, root, nodes, env, fuel, j);
    }
  }

  /**
   * Two calls that reach different import arguments in one search always fail
   * it, whatever was found before: the search never settles on either. The
   * failure is the too-many-imports error, unless an identifier followed
   * before the second call exhausts the call stack first.
   */
  lemma {:induction false} DistinctImportsRejected(found: Option<ImportArg>, root: Node, nodes: seq<Node>,
                                                   env: map<string, Node>, fuel: nat, i: nat, j: nat)
    requires i < j < |nodes| && nodes[i].CallExpression? && nodes[j].CallExpression?
    requires FindImportArgument(nodes[i]).Some? && FindImportArgument(nodes[j]).Some?
    requires FindImportArgument(nodes[i]) != FindImportArgument(nodes[j])
    ensures SearchNodes(found, root, nodes, env, fuel) == Err(TooManyImports)
      || SearchNodes(found, root, nodes, env, fuel) == Err(CallStackExceeded)
    ensures NoFollowedBefore(root, nodes, env, j) ==> SearchNodes(found, root, nodes, env, fuel) == Err(TooManyImports)
    decreases i, 1
  {
    if found.Some? {
      ConflictWithEither(found.value, root, nodes, env, fuel, i, j);
    } else {
      DistinctImportsFromNothing(root, nodes, env, fuel, i, j);
    }
  }

  /** `DistinctImportsRejected` when nothing is held yet. */
  lemma {:induction false} DistinctImportsFromNothing(root: Node, nodes: seq<Node>,
                                                      env: map<string, Node>, fuel: nat, i: nat, j: nat)
    requires i < j < |nodes| && nodes[i].CallExpression? && nodes[j].CallExpression?
    requires FindImportArgument(nodes[i]).Some? && FindImportArgument(nodes[j]).Some?
    requires FindImportArgument(nodes[i]) != FindImportArgument(nodes[j])
    ensures SearchNodes(None, root, nodes, env, fuel) == Err(TooManyImports)
      || SearchNodes(None, root, nodes, env, fuel) == Err(CallStackExceeded)
    ensures NoFollowedBefore(root, nodes, env, j) ==> SearchNodes(None, root, nodes, env, fuel) == Err(TooManyImports)
    decreases i, 0
  {
    var r := SearchNodes(None, root, nodes, env, fuel);
    var noFollow := NoFollowedBefore(root, nodes, env, j);
    if noFollow {
      NoFollowedBeforeTail(root, nodes, env, j);
    }
    assert nodes[1..][j - 1] == nodes[j];
    if i == 0 {
      ConflictRejected(FindImportArgument(nodes[0]).value, root, nodes[1..], env, fuel, j - 1);
    } else {
      assert nodes[1..][i - 1] == nodes[i];
      var f := SearchStep(None, root, nodes, env, fuel);
      if r.Ok? || noFollow {
        DistinctImportsRejected(f, root, nodes[1..], env, fuel, i - 1, j - 1);
      }
    }
  }

  /** A search that ends with nothing found visited no call that reaches an import. */
  lemma {:induction false} NothingFoundMeansNoImport(root: Node, nodes: seq<Node>, env: map<string, Node>, fuel: nat)
    requires SearchNodes(None, root, nodes, env, fuel) == Ok(None)
    ensures forall k :: 0 <= k < |nodes| && nodes[k].CallExpression? ==> FindImportArgument(nodes[k]).None?
    decreases |nodes|
  {
    if nodes != [] {
      var n := nodes[0];
      if n.CallExpression? && FindImportArgument(n).Some? {
        SearchNodesKeepsFound(FindImportArgument(n).value, root, nodes[1..], env, fuel);
        assert false;
      }
      if n.Identifier? && Followed(n.name, root, env) {
        var f := Search(None, env[n.name], env, fuel - 1);
        if f.Ok? && f.value.Some? {
          SearchNodesKeepsFound(f.value.value, root, nodes[1..], env, fuel);
          assert false;
        }
      }
      NothingFoundMeansNoImport(root, nodes[1..], env, fuel);
      forall k | 1 <= k < |nodes|
        ensures nodes[k] == nodes[1..][k - 1]
      {
      }
    }
  }

  /**
   * Without a followed identifier, a search in which every call that reaches
   * an import reaches the argument already held succeeds and keeps it:
   * meeting the same argument node again is not an error. With nothing held
   * and no call reaching an import, it ends with nothing.
   */
  lemma {:induction false} SearchWithoutConflictKeeps(found: Option<ImportArg>, root: Node, nodes: seq<Node>,
                                                      env: map<string, Node>, fuel: nat)
    requires forall k :: 0 <= k < |nodes| && nodes[k].CallExpression? && FindImportArgument(nodes[k]).Some? ==>
      found == FindImportArgument(nodes[k])
    requires forall k :: 0 <= k < |nodes| && nodes[k].Identifier? ==> !Followed(nodes[k].name, root, env)
    ensures SearchNodes(found, root, nodes, env, fuel) == Ok(found)
    decreases |nodes|
  {
    if nodes != [] {
      forall k | 0 <= k < |nodes| - 1
        ensures nodes[1..][k] == nodes[k + 1]
      {
      }
      SearchWithoutConflictKeeps(found, root, nodes[1..], env, fuel);
    }
  }

  /**
   * A search from nothing in which some call reaches an import argument, and
   * every call that reaches one reaches that same node, finds it.
   */
  lemma {:induction false} SameImportFound(a: ImportArg, root: Node, nodes: seq<Node>, env: map<string, Node>, fuel: nat)
    requires exists k :: 0 <= k < |nodes| && nodes[k].CallExpression? && FindImportArgument(nodes[k]).Some?
    requires forall k :: 0 <= k < |nodes| && nodes[k].CallExpression? && FindImportArgument(nodes[k]).Some? ==>
      FindImportArgument(nodes[k]) == Some(a)
    requires forall k :: 0 <= k < |nodes| && nodes[k].Identifier? ==> !Followed(nodes[k].name, root, env)
    ensures SearchNodes(None, root, nodes, env, fuel) == Ok(Some(a))
    decreases |nodes|
  {
    forall k | 0 <= k < |nodes| - 1
      ensures nodes[1..][k] == nodes[k + 1]
    {
    }
    if nodes[0].CallExpression? && FindImportArgument(nodes[0]).Some? {
      SearchWithoutConflictKeeps(Some(a), root, nodes[1..], env, fuel);
    } else {
      var k :| 0 <= k < |nodes| && nodes[k].CallExpression? && FindImportArgument(nodes[k]).Some?;
      assert nodes[1..][k - 1] == nodes[k];
      SameImportFound(a, root, nodes[1..], env, fuel);
    }
  }

  /**
   * `useImportedHook(import(p).then(() => {}))`: both the `then` call and the
   * `import()` call reach the same argument node, so the search of the
   * outer call finds it rather than refusing a second import.
   */
  lemma ThenChainSearchFindsImport(callId: nat, thenId: nat, importId: nat, path: string, env: map<string, Node>, fuel: nat)
    requires "useImportedHook" !in env && "then" !in env
    ensures var importCall := CallExpression(importId, Import, [StringLiteral(path)]);
      var thenCall := CallExpression(thenId, MemberExpression(importCall, Identifier("then")), [ArrowFunction([], [])]);
      Search(None, CallExpression(callId, Identifier("useImportedHook"), [thenCall]), env, fuel)
        == Ok(Some(ImportArg(importId, StringLiteral(path))))
  {
    var importCall := CallExpression(importId, Import, [StringLiteral(path)]);
    var thenCall := CallExpression(thenId, MemberExpression(importCall, Identifier("then")), [ArrowFunction([], [])]);
    var root := CallExpression(callId, Identifier("useImportedHook"), [thenCall]);
    ThenChainDescendants(callId, thenId, importId, path);
    assert Descendants(root)[1] == thenCall;
    SameImportFound(ImportArg(importId, StringLiteral(path)), root, Descendants(root), env, fuel);
  }

  /** The nodes the search of `useImportedHook(import(p).then(() => {}))` visits, in order. */
  lemma ThenChainDescendants(callId: nat, thenId: nat, importId: nat, path: string)
    ensures var importCall := CallExpression(importId, Import, [StringLiteral(path)]);
      var member := MemberExpression(importCall, Identifier("then"));
      var thenCall := CallExpression(thenId, member, [ArrowFunction([], [])]);
      Descendants(CallExpression(callId, Identifier("useImportedHook"), [thenCall]))
        == [Identifier("useImportedHook"), thenCall, member, importCall, Import, StringLiteral(path),
            Identifier("then"), ArrowFunction([], [])]
  {
    var importCall := CallExpression(importId, Import, [StringLiteral(path)]);
    var thenCall := CallExpression(thenId, MemberExpression(importCall, Identifier("then")), [ArrowFunction([], [])]);
    ThenCallPreorder(thenId, importId, path);
    var callee := Identifier("useImportedHook");
    assert Preorder(callee) == [callee];
    assert [thenCall][1..] == [];
    assert PreorderList([thenCall]) == Preorder(thenCall);
  }

  lemma ThenCallPreorder(thenId: nat, importId: nat, path: string)
    ensures var importCall := CallExpression(importId, Import, [StringLiteral(path)]);
      var member := MemberExpression(importCall, Identifier("then"));
      var thenCall := CallExpression(thenId, member, [ArrowFunction([], [])]);
      Preorder(thenCall) == [thenCall, member, importCall, Import, StringLiteral(path), Identifier("then"), ArrowFunction([], [])]
  {
    var importCall := CallExpression(importId, Import, [StringLiteral(path)]);
    var member := MemberExpression(importCall, Identifier("then"));
    var callback := ArrowFunction([], []);
    ImportCallPreorder(importId, path);
    assert Preorder(Identifier("then")) == [Identifier("then")];
    assert Preorder(member) == [member, importCall, Import, StringLiteral(path), Identifier("then")];
    assert Preorder(callback) == [callback];
    assert [callback][1..] == [];
    assert PreorderList([callback]) == [callback];
  }

  lemma ImportCallPreorder(importId: nat, path: string)
    ensures var importCall := CallExpression(importId, Import, [StringLiteral(path)]);
      Preorder(importCall) == [importCall, Import, StringLiteral(path)]
  {
    var lit := StringLiteral(path);
    assert Preorder(lit) == [lit];
    assert Preorder(Import) == [Import];
    assert [lit][1..] == [];
    assert PreorderList([lit]) == [lit];
  }

  /** `import(x).then(f)`: the call and the inner import() reach the same argument node. */
  lemma ThenChainResolvesToImport(importId: nat, thenId: nat, path: string, callback: Node)
    ensures FindImportArgument(
      CallExpression(thenId, MemberExpression(CallExpression(importId, Import, [StringLiteral(path)]), Identifier("then")), [callback]))
      == Some(ImportArg(importId, StringLiteral(path)))
  {
  }
}
