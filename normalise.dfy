/**
 * The importee side of the plugin in src/index.js: the
 * `FunctionDeclaration|ExportDefaultDeclaration` visitor that prepares a
 * marked hook for being imported.
 *
 * The declaration gets exactly two parameters, the second being the synthetic
 * `__importableHookAdditionalDependency`, and every call to an accepted hook
 * below it gets a dependency list headed by that identifier. Both rewrites
 * are idempotent, and neither changes what the importee analyser records.
 *
 * Babel updates the nodes in place while it walks down the tree; here the
 * walk is a function from the declaration to the updated one. The visitor
 * rewrites a call before it walks into the call's arguments, and the
 * function below rewrites the arguments first: the rewrite of a call only
 * looks at the kind of its second argument and at whether that argument's
 * first element is the synthetic identifier, and rewriting the arguments
 * preserves both, so the two orders agree.
 */
module Normalise {
  import opened Wrappers
  import opened Config
  import opened Ast
  import opened ReadImportee

  // ----------------------------------------------------------- parameters

  /** The parameter list after the visitor, or the single-argument error. */
  function NormaliseParams(params: seq<Node>): (r: Result<seq<Node>, BuildError>)
    // refused exactly when a second parameter is something else than the synthetic one
    ensures r.Err? <==> |params| >= 2 && params[1] != ExtraDependency()
    ensures r.Err? ==> r.error == SingleArgument
    // accepted: exactly two parameters at least, the second one synthetic
    ensures r.Ok? ==> |r.value| >= 2 && r.value[1] == ExtraDependency()
    // no parameter becomes an empty object pattern, one parameter is kept first
    ensures params == [] ==> r == Ok([ObjectPattern([]), ExtraDependency()])
    ensures |params| == 1 ==> r == Ok([params[0], ExtraDependency()])
    // a list already in shape is left alone
    ensures |params| >= 2 && r.Ok? ==> r.value == params
  {
    var withFirst := if |params| == 0 then [ObjectPattern([])] else params;
    if |withFirst| >= 2 && withFirst[1] != ExtraDependency() then Err(SingleArgument)
    else if |withFirst| == 1 then
      assert withFirst + [ExtraDependency()] == [withFirst[0], ExtraDependency()];
      Ok(withFirst + [ExtraDependency()])
    else Ok(withFirst)
  }

  /** Running the parameter rewrite again changes nothing. */
  lemma NormaliseParamsIdempotent(params: seq<Node>)
    requires NormaliseParams(params).Ok?
    ensures NormaliseParams(NormaliseParams(params).value) == NormaliseParams(params)
  {
  }

  // --------------------------------------------------------- dependencies

  /**
   * The rewrite of one call: an accepted hook gets an empty dependency list
   * where it has none, and the synthetic identifier in front of a literal
   * list that does not start with it.
   */
  function AddDependency(call: Node): (r: Node)
    requires call.CallExpression?
    ensures r.CallExpression? && r.id == call.id && r.callee == call.callee
    ensures !Classify(CalleeName(call.callee)).Accepted? ==> r == call
    ensures Classify(CalleeName(call.callee)).Accepted? ==>
      && |r.arguments| == (if |call.arguments| < 2 then 2 else |call.arguments|)
      && (forall k :: 0 <= k < |call.arguments| && k != 1 ==> r.arguments[k] == call.arguments[k])
      && (call.arguments == [] ==> r.arguments[0] == Hole)
      // a missing list becomes `[synthetic]`
      && (DependencyArgument(call).Hole? ==> r.arguments[1] == ArrayExpression([ExtraDependency()]))
      // a literal list is headed by the synthetic identifier exactly once
      && (DependencyArgument(call).ArrayExpression? ==>
            var els := DependencyArgument(call).elements;
            r.arguments[1] == ArrayExpression(if els != [] && els[0] == ExtraDependency() then els else [ExtraDependency()] + els))
      // anything else is left for the analyser to refuse
      && (!DependencyArgument(call).Hole? && !DependencyArgument(call).ArrayExpression? ==> r.arguments == call.arguments)
  {
    if !Classify(CalleeName(call.callee)).Accepted? then call
    else
      var args := call.arguments;
      var withList :=
        if |args| == 0 then [Hole, ArrayExpression([])]          // arguments[1] = ... on an empty list
        else if |args| == 1 then args + [ArrayExpression([])]
        else if args[1].Hole? then args[1 := ArrayExpression([])]
        else args;
      var deps := withList[1];
      var finalArgs :=
        if deps.ArrayExpression? && (deps.elements == [] || deps.elements[0] != ExtraDependency())
        then withList[1 := ArrayExpression([ExtraDependency()] + deps.elements)]
        else withList;
      assert [ExtraDependency()] + [] == [ExtraDependency()];
      CallExpression(call.id, call.callee, finalArgs)
  }

  /** The rewrite of a call is idempotent and leaves what the analyser records about it unchanged. */
  lemma AddDependencyKeepsEntry(call: Node)
    requires call.CallExpression?
    ensures AddDependency(AddDependency(call)) == AddDependency(call)
    ensures CallEntry(AddDependency(call)) == CallEntry(call)
  {
    var r := AddDependency(call);
    if Classify(CalleeName(call.callee)).Accepted? {
      var d := DependencyArgument(call);
      if d.ArrayExpression? {
        var els := d.elements;
        if !(els != [] && els[0] == ExtraDependency()) {
          SyntheticDependencyNotCounted(els);
        }
      } else if d.Hole? {
        assert [ExtraDependency()][1..] == [];
        assert CountDeps([ExtraDependency()]) == 0;
      }
      assert r.arguments[1..][0] == r.arguments[1];
    }
  }

  /** Every accepted call below `n` rewritten, arguments before the call itself. */
  function NormaliseDeps(n: Node): (r: Node)
    // every node keeps its kind, and identifiers are left as they are
    ensures r.Hole? <==> n.Hole?
    ensures r.SpreadElement? <==> n.SpreadElement?
    ensures r.ArrayExpression? <==> n.ArrayExpression?
    ensures r.CallExpression? <==> n.CallExpression?
    ensures n.Identifier? ==> r == n
    ensures r.Identifier? ==> r == n
    decreases n
  {
    match n
    case TemplateLiteral(quasis, expressions) => TemplateLiteral(quasis, NormaliseAll(expressions))
    case ObjectExpression(properties) => ObjectExpression(NormaliseAll(properties))
    case ArrayExpression(elements) => ArrayExpression(NormaliseAll(elements))
    case SpreadElement(argument) => SpreadElement(NormaliseDeps(argument))
    case CallExpression(id, callee, arguments) =>
      AddDependency(CallExpression(id, NormaliseDeps(callee), NormaliseAll(arguments)))
    case MemberExpression(obj, property) => MemberExpression(NormaliseDeps(obj), NormaliseDeps(property))
    case FunctionDeclaration(declId, params, body, comments) =>
      FunctionDeclaration(NormaliseDeps(declId), NormaliseAll(params), NormaliseAll(body), comments)
    case ArrowFunction(params, body) => ArrowFunction(NormaliseAll(params), NormaliseAll(body))
    case ExportDefaultDeclaration(declaration, comments) => ExportDefaultDeclaration(NormaliseDeps(declaration), comments)
    case VariableDeclarator(declId, init) => VariableDeclarator(NormaliseDeps(declId), NormaliseDeps(init))
    case ObjectPattern(properties) => ObjectPattern(NormaliseAll(properties))
    case Other(kind, children) => Other(kind, NormaliseAll(children))
    case _ => n
  }

  function NormaliseAll(ns: seq<Node>): (r: seq<Node>)
    ensures |r| == |ns| && forall k :: 0 <= k < |ns| ==> r[k] == NormaliseDeps(ns[k])
    decreases ns
  {
    if ns == [] then [] else [NormaliseDeps(ns[0])] + NormaliseAll(ns[1..])
  }

  /** The synthetic identifier is left as it is, and nothing else becomes it. */
  lemma NormaliseDepsKeepsSynthetic(n: Node)
    ensures NormaliseDeps(n) == ExtraDependency() <==> n == ExtraDependency()
  {
  }

  /** Normalising a normalised tree changes nothing. */
  lemma {:induction false} NormaliseDepsIdempotent(n: Node)
    ensures NormaliseDeps(NormaliseDeps(n)) == NormaliseDeps(n)
    decreases n
  {
    match n
    case TemplateLiteral(quasis, expressions) => NormaliseAllIdempotent(expressions);
    case ObjectExpression(properties) => NormaliseAllIdempotent(properties);
    case ArrayExpression(elements) => NormaliseAllIdempotent(elements);
    case SpreadElement(argument) => NormaliseDepsIdempotent(argument);
    case CallExpression(id, callee, arguments) =>
      NormaliseDepsIdempotent(callee);
      NormaliseAllIdempotent(arguments);
      NormalisedCallIdempotent(id, callee, arguments);
    case MemberExpression(obj, property) =>
      NormaliseDepsIdempotent(obj);
      NormaliseDepsIdempotent(property);
    case FunctionDeclaration(declId, params, body, comments) =>
      NormaliseDepsIdempotent(declId);
      NormaliseAllIdempotent(params);
      NormaliseAllIdempotent(body);
    case ArrowFunction(params, body) =>
      NormaliseAllIdempotent(params);
      NormaliseAllIdempotent(body);
    case ExportDefaultDeclaration(declaration, comments) => NormaliseDepsIdempotent(declaration);
    case VariableDeclarator(declId, init) =>
      NormaliseDepsIdempotent(declId);
      NormaliseDepsIdempotent(init);
    case ObjectPattern(properties) => NormaliseAllIdempotent(properties);
    case Other(kind, children) => NormaliseAllIdempotent(children);
    case _ =>
  }

  lemma {:induction false} NormaliseAllIdempotent(ns: seq<Node>)
    ensures NormaliseAll(NormaliseAll(ns)) == NormaliseAll(ns)
    decreases ns, 0
  {
    forall k | 0 <= k < |ns|
      ensures NormaliseDeps(NormaliseDeps(ns[k])) == NormaliseDeps(ns[k])
    {
      NormaliseDepsIdempotent(ns[k]);
    }
  }

  /** The call case of idempotence: the arguments the rewrite adds are normal already. */
  lemma NormalisedCallIdempotent(id: nat, callee: Node, arguments: seq<Node>)
    requires NormaliseDeps(NormaliseDeps(callee)) == NormaliseDeps(callee)
    requires NormaliseAll(NormaliseAll(arguments)) == NormaliseAll(arguments)
    ensures var r := AddDependency(CallExpression(id, NormaliseDeps(callee), NormaliseAll(arguments)));
      NormaliseDeps(r) == r
  {
    var c := CallExpression(id, NormaliseDeps(callee), NormaliseAll(arguments));
    forall k | 0 <= k < |c.arguments|
      ensures NormaliseDeps(c.arguments[k]) == c.arguments[k]
    {
      assert NormaliseAll(c.arguments)[k] == NormaliseDeps(c.arguments[k]);
    }
    AddDependencyKeepsNormal(c);
  }

  /** A call whose parts are normal is normal once rewritten. */
  lemma AddDependencyKeepsNormal(c: Node)
    requires c.CallExpression? && NormaliseDeps(c.callee) == c.callee
    requires forall k :: 0 <= k < |c.arguments| ==> NormaliseDeps(c.arguments[k]) == c.arguments[k]
    ensures NormaliseDeps(AddDependency(c)) == AddDependency(c)
  {
    var r := AddDependency(c);
    AddDependencyKeepsEntry(c);
    forall k | 0 <= k < |r.arguments|
      ensures NormaliseDeps(r.arguments[k]) == r.arguments[k]
    {
      if k == 1 && r.arguments[1] != DependencyArgument(c) {
        DependencyListNormal(c, r);
      }
    }
    assert NormaliseAll(r.arguments) == r.arguments;
  }

  /** A dependency list the rewrite produces from a normal one is normal. */
  lemma DependencyListNormal(c: Node, r: Node)
    requires c.CallExpression? && r == AddDependency(c)
    requires forall k :: 0 <= k < |c.arguments| ==> NormaliseDeps(c.arguments[k]) == c.arguments[k]
    requires |r.arguments| > 1 && r.arguments[1] != DependencyArgument(c)
    ensures NormaliseDeps(r.arguments[1]) == r.arguments[1]
  {
    var d := DependencyArgument(c);
    if d.ArrayExpression? {
      var els := d.elements;
      assert NormaliseDeps(d) == d;
      assert NormaliseAll(els) == els;
      assert NormaliseAll([ExtraDependency()] + els) == [ExtraDependency()] + els;
    } else {
      assert NormaliseAll([ExtraDependency()]) == [ExtraDependency()];
    }
  }

  // ---------------------------------------------- the analysis is unchanged

  lemma {:induction false} NormaliseKeepsSpreadCheck(els: seq<Node>)
    ensures SpreadCheck(NormaliseAll(els)) == SpreadCheck(els)
    decreases |els|
  {
    if els != [] {
      NormaliseKeepsSpreadCheck(els[1..]);
      assert NormaliseAll(els)[1..] == NormaliseAll(els[1..]);
    }
  }

  lemma {:induction false} NormaliseKeepsCountDeps(els: seq<Node>)
    ensures CountDeps(NormaliseAll(els)) == CountDeps(els)
    decreases |els|
  {
    if els != [] {
      NormaliseDepsKeepsSynthetic(els[0]);
      NormaliseKeepsCountDeps(els[1..]);
      assert NormaliseAll(els)[1..] == NormaliseAll(els[1..]);
    }
  }

  /** Normalising a call, arguments included, leaves the entry the analyser records for it. */
  lemma NormaliseKeepsCallEntry(call: Node)
    requires call.CallExpression?
    ensures CallEntry(NormaliseDeps(call)) == CallEntry(call)
  {
    var c := CallExpression(call.id, NormaliseDeps(call.callee), NormaliseAll(call.arguments));
    AddDependencyKeepsEntry(c);
    var d := DependencyArgument(call);
    assert DependencyArgument(c) == NormaliseDeps(d);
    if d.ArrayExpression? {
      NormaliseKeepsSpreadCheck(d.elements);
      NormaliseKeepsCountDeps(d.elements);
    }
    SameInputsSameEntry(c, call);
  }

  /** The entry a call contributes depends only on its callee's name and what its dependency list scans to. */
  lemma SameInputsSameEntry(a: Node, b: Node)
    requires a.CallExpression? && b.CallExpression?
    requires CalleeName(a.callee) == CalleeName(b.callee)
    requires DependencyArgument(a).Identifier? == DependencyArgument(b).Identifier?
    requires DependencyArgument(a).Hole? == DependencyArgument(b).Hole?
    requires DependencyArgument(a).ArrayExpression? == DependencyArgument(b).ArrayExpression?
    requires DependencyArgument(a).ArrayExpression? ==>
      && SpreadCheck(DependencyArgument(a).elements) == SpreadCheck(DependencyArgument(b).elements)
      && CountDeps(DependencyArgument(a).elements) == CountDeps(DependencyArgument(b).elements)
    ensures CallEntry(a) == CallEntry(b)
  {
  }

  /** A node that is not a call adds nothing to a scan. */
  lemma ScanCallsSkip(x: Node, rest: seq<Node>)
    requires !x.CallExpression?
    ensures ScanCalls([x] + rest) == ScanCalls(rest)
  {
    assert ([x] + rest)[1..] == rest;
  }

  /** Scans of equal-scanning parts, concatenated, are equal. */
  lemma ScanCallsConcat(a: seq<Node>, b: seq<Node>, a2: seq<Node>, b2: seq<Node>)
    requires ScanCalls(a) == ScanCalls(a2) && ScanCalls(b) == ScanCalls(b2)
    ensures ScanCalls(a + b) == ScanCalls(a2 + b2)
  {
    ScanCallsAppend(a, b);
    ScanCallsAppend(a2, b2);
  }

  /**
   * Normalising a tree does not change what the importee analyser records
   * from it: the same entries in the same order, or the same error.
   */
  lemma {:induction false} NormaliseKeepsAnalysis(n: Node)
    ensures ScanCalls(Preorder(NormaliseDeps(n))) == ScanCalls(Preorder(n))
    decreases n
  {
    var m := NormaliseDeps(n);
    match n
    case TemplateLiteral(_, expressions) => NormaliseAllKeepsAnalysis(expressions); SkipBoth(n, m, PreorderList(expressions), PreorderList(NormaliseAll(expressions)));
    case ObjectExpression(properties) => NormaliseAllKeepsAnalysis(properties); SkipBoth(n, m, PreorderList(properties), PreorderList(NormaliseAll(properties)));
    case ArrayExpression(elements) => NormaliseAllKeepsAnalysis(elements); SkipBoth(n, m, PreorderList(elements), PreorderList(NormaliseAll(elements)));
    case SpreadElement(argument) => NormaliseKeepsAnalysis(argument); SkipBoth(n, m, Preorder(argument), Preorder(NormaliseDeps(argument)));
    case CallExpression(id, callee, arguments) => NormaliseCallKeepsAnalysis(n);
    case MemberExpression(_, _) => NormaliseMemberKeepsAnalysis(n);
    case FunctionDeclaration(_, _, _, _) => NormaliseFunctionKeepsAnalysis(n);
    case ArrowFunction(_, _) => NormaliseArrowKeepsAnalysis(n);
    case ExportDefaultDeclaration(declaration, _) =>
      NormaliseKeepsAnalysis(declaration);
      SkipBoth(n, m, Preorder(declaration), Preorder(NormaliseDeps(declaration)));
    case VariableDeclarator(_, _) => NormaliseDeclaratorKeepsAnalysis(n);
    case ObjectPattern(properties) => NormaliseAllKeepsAnalysis(properties); SkipBoth(n, m, PreorderList(properties), PreorderList(NormaliseAll(properties)));
    case Other(_, children) => NormaliseAllKeepsAnalysis(children); SkipBoth(n, m, PreorderList(children), PreorderList(NormaliseAll(children)));
    case _ =>
  }

  /** `NormaliseKeepsAnalysis` for a function declaration: its name, parameters and body in turn. */
  lemma {:induction false} NormaliseFunctionKeepsAnalysis(n: Node)
    requires n.FunctionDeclaration?
    ensures ScanCalls(Preorder(NormaliseDeps(n))) == ScanCalls(Preorder(n))
    decreases n, 0
  {
    var m := NormaliseDeps(n);
    match n
    case FunctionDeclaration(declId, params, body, _) =>
      NormaliseKeepsAnalysis(declId);
      NormaliseAllKeepsAnalysis(params);
      NormaliseAllKeepsAnalysis(body);
      ScanCallsConcat(Preorder(NormaliseDeps(declId)), PreorderList(NormaliseAll(params)), Preorder(declId), PreorderList(params));
      ScanCallsConcat(Preorder(NormaliseDeps(declId)) + PreorderList(NormaliseAll(params)), PreorderList(NormaliseAll(body)),
                      Preorder(declId) + PreorderList(params), PreorderList(body));
      SkipBoth(n, m, Preorder(declId) + PreorderList(params) + PreorderList(body),
               Preorder(NormaliseDeps(declId)) + PreorderList(NormaliseAll(params)) + PreorderList(NormaliseAll(body)));
  }

  /** `NormaliseKeepsAnalysis` for a member expression: object, then property. */
  lemma {:induction false} NormaliseMemberKeepsAnalysis(n: Node)
    requires n.MemberExpression?
    ensures ScanCalls(Preorder(NormaliseDeps(n))) == ScanCalls(Preorder(n))
    decreases n, 0
  {
    var m := NormaliseDeps(n);
    var obj, property := n.obj, n.property;
    NormaliseKeepsAnalysis(obj);
    NormaliseKeepsAnalysis(property);
    ScanCallsConcat(Preorder(NormaliseDeps(obj)), Preorder(NormaliseDeps(property)), Preorder(obj), Preorder(property));
    SkipBoth(n, m, Preorder(obj) + Preorder(property), Preorder(NormaliseDeps(obj)) + Preorder(NormaliseDeps(property)));
  }

  /** `NormaliseKeepsAnalysis` for a function expression: parameters, then body. */
  lemma {:induction false} NormaliseArrowKeepsAnalysis(n: Node)
    requires n.ArrowFunction?
    ensures ScanCalls(Preorder(NormaliseDeps(n))) == ScanCalls(Preorder(n))
    decreases n, 0
  {
    var m := NormaliseDeps(n);
    var params, body := n.params, n.body;
    NormaliseAllKeepsAnalysis(params);
    NormaliseAllKeepsAnalysis(body);
    ScanCallsConcat(PreorderList(NormaliseAll(params)), PreorderList(NormaliseAll(body)), PreorderList(params), PreorderList(body));
    SkipBoth(n, m, PreorderList(params) + PreorderList(body), PreorderList(NormaliseAll(params)) + PreorderList(NormaliseAll(body)));
  }

  /** `NormaliseKeepsAnalysis` for a variable declarator: name, then initialiser. */
  lemma {:induction false} NormaliseDeclaratorKeepsAnalysis(n: Node)
    requires n.VariableDeclarator?
    ensures ScanCalls(Preorder(NormaliseDeps(n))) == ScanCalls(Preorder(n))
    decreases n, 0
  {
    var m := NormaliseDeps(n);
    var declId, init := n.declId, n.init;
    NormaliseKeepsAnalysis(declId);
    NormaliseKeepsAnalysis(init);
    ScanCallsConcat(Preorder(NormaliseDeps(declId)), Preorder(NormaliseDeps(init)), Preorder(declId), Preorder(init));
    SkipBoth(n, m, Preorder(declId) + Preorder(init), Preorder(NormaliseDeps(declId)) + Preorder(NormaliseDeps(init)));
  }

  /** The non-call case: both trees start with a node the scan skips. */
  lemma SkipBoth(n: Node, m: Node, below: seq<Node>, belowM: seq<Node>)
    requires !n.CallExpression? && !m.CallExpression?
    requires Preorder(n) == [n] + below && Preorder(m) == [m] + belowM
    requires ScanCalls(belowM) == ScanCalls(below)
    ensures ScanCalls(Preorder(m)) == ScanCalls(Preorder(n))
  {
    ScanCallsSkip(n, below);
    ScanCallsSkip(m, belowM);
  }

  lemma {:induction false} NormaliseAllKeepsAnalysis(ns: seq<Node>)
    ensures ScanCalls(PreorderList(NormaliseAll(ns))) == ScanCalls(PreorderList(ns))
    decreases ns, 0
  {
    if ns != [] {
      assert NormaliseAll(ns)[0] == NormaliseDeps(ns[0]);
      assert NormaliseAll(ns)[1..] == NormaliseAll(ns[1..]);
      NormaliseKeepsAnalysis(ns[0]);
      NormaliseAllKeepsAnalysis(ns[1..]);
      ScanCallsConcat(Preorder(NormaliseDeps(ns[0])), PreorderList(NormaliseAll(ns[1..])), Preorder(ns[0]), PreorderList(ns[1..]));
    }
  }

  /** The call case: the rewritten call scans as before, and what the rewrite adds holds no call. */
  lemma {:induction false} NormaliseCallKeepsAnalysis(n: Node)
    requires n.CallExpression?
    ensures ScanCalls(Preorder(NormaliseDeps(n))) == ScanCalls(Preorder(n))
    decreases n, 0
  {
    var args := n.arguments;
    var c := CallExpression(n.id, NormaliseDeps(n.callee), NormaliseAll(args));
    var r := AddDependency(c);
    assert r == NormaliseDeps(n);
    NormaliseKeepsAnalysis(n.callee);
    NormaliseAllKeepsAnalysis(args);
    NormaliseKeepsCallEntry(n);
    ArgumentsKeepAnalysis(n, c, r);
    ScanCallsConcat(Preorder(r.callee), PreorderList(r.arguments), Preorder(n.callee), PreorderList(args));
    assert Preorder(r) == [r] + (Preorder(r.callee) + PreorderList(r.arguments));
    assert Preorder(n) == [n] + (Preorder(n.callee) + PreorderList(args));
    assert ([r] + (Preorder(r.callee) + PreorderList(r.arguments)))[1..] == Preorder(r.callee) + PreorderList(r.arguments);
    assert ([n] + (Preorder(n.callee) + PreorderList(args)))[1..] == Preorder(n.callee) + PreorderList(args);
  }

  /** The arguments after the rewrite scan like the normalised arguments before it. */
  lemma ArgumentsKeepAnalysis(n: Node, c: Node, r: Node)
    requires n.CallExpression? && c == CallExpression(n.id, NormaliseDeps(n.callee), NormaliseAll(n.arguments))
    requires r == AddDependency(c)
    requires ScanCalls(PreorderList(NormaliseAll(n.arguments))) == ScanCalls(PreorderList(n.arguments))
    ensures ScanCalls(PreorderList(r.arguments)) == ScanCalls(PreorderList(n.arguments))
  {
    var a := c.arguments;
    if r.arguments != a {
      assert Classify(CalleeName(c.callee)).Accepted?;
      if |a| == 0 {
        NoArgumentsKeepAnalysis(r.arguments);
      } else if |a| == 1 {
        OneArgumentKeepsAnalysis(a, r.arguments);
      } else {
        SlotKeepsAnalysis(n.arguments[1], a[1], r.arguments[1]);
        SecondArgumentKeepsAnalysis(a, r.arguments);
      }
    }
  }

  lemma NoArgumentsKeepAnalysis(args: seq<Node>)
    requires args == [Hole, ArrayExpression([ExtraDependency()])]
    ensures ScanCalls(PreorderList(args)) == Ok([])
  {
    var extra := ArrayExpression([ExtraDependency()]);
    assert PreorderList([ExtraDependency()]) == [ExtraDependency()];
    assert Preorder(extra) == [extra] + [ExtraDependency()];
    assert args[1..] == [extra] && [extra][1..] == [];
    assert PreorderList([extra]) == Preorder(extra) + PreorderList([]);
    assert PreorderList(args) == Preorder(Hole) + PreorderList([extra]);
    assert PreorderList(args) == [Hole] + Preorder(extra);
    ScanCallsSkip(ExtraDependency(), []);
    ScanCallsSkip(extra, [ExtraDependency()]);
    ScanCallsSkip(Hole, Preorder(extra));
  }

  lemma OneArgumentKeepsAnalysis(a: seq<Node>, args: seq<Node>)
    requires |a| == 1 && args == a + [ArrayExpression([ExtraDependency()])]
    ensures ScanCalls(PreorderList(args)) == ScanCalls(PreorderList(a))
  {
    var extra := ArrayExpression([ExtraDependency()]);
    NoArgumentsKeepAnalysis([Hole, extra]);
    assert PreorderList([Hole, extra]) == Preorder(Hole) + PreorderList([extra]);
    ScanCallsSkip(Hole, PreorderList([extra]));
    PreorderListAppend(a, [extra]);
    ScanCallsConcat(PreorderList(a), PreorderList([extra]), PreorderList(a), []);
    assert PreorderList(a) + [] == PreorderList(a);
  }

  lemma SecondArgumentKeepsAnalysis(a: seq<Node>, args: seq<Node>)
    requires |a| >= 2 && |args| == |a| && args == a[1 := args[1]]
    requires ScanCalls(Preorder(args[1])) == ScanCalls(Preorder(a[1]))
    ensures ScanCalls(PreorderList(args)) == ScanCalls(PreorderList(a))
  {
    var x := args[1];
    assert args == a[..1] + [x] + a[2..];
    assert a == a[..1] + [a[1]] + a[2..];
    PreorderListAppend(a[..1] + [x], a[2..]);
    PreorderListAppend(a[..1], [x]);
    PreorderListAppend(a[..1] + [a[1]], a[2..]);
    PreorderListAppend(a[..1], [a[1]]);
    assert PreorderList([x]) == Preorder(x);
    assert PreorderList([a[1]]) == Preorder(a[1]);
    ScanCallsConcat(PreorderList(a[..1]), Preorder(x), PreorderList(a[..1]), Preorder(a[1]));
    ScanCallsConcat(PreorderList(a[..1]) + Preorder(x), PreorderList(a[2..]),
                    PreorderList(a[..1]) + Preorder(a[1]), PreorderList(a[2..]));
  }

  /** The second argument: a hole or a list before, a list headed by the synthetic identifier after. */
  lemma SlotKeepsAnalysis(orig: Node, before: Node, after: Node)
    requires before == NormaliseDeps(orig)
    requires (before.Hole? && after == ArrayExpression([ExtraDependency()]))
      || (before.ArrayExpression? && after == ArrayExpression([ExtraDependency()] + before.elements))
    ensures ScanCalls(Preorder(after)) == ScanCalls(Preorder(before))
  {
    var extra := ExtraDependency();
    if before.ArrayExpression? {
      PreorderListAppend([extra], before.elements);
      assert PreorderList([extra]) == [extra];
      ScanCallsSkip(after, [extra] + PreorderList(before.elements));
      ScanCallsSkip(extra, PreorderList(before.elements));
      ScanCallsSkip(before, PreorderList(before.elements));
    } else {
      assert PreorderList([extra]) == [extra];
      ScanCallsSkip(after, [extra]);
      ScanCallsSkip(extra, []);
      ScanCallsSkip(before, []);
    }
  }

  // ---------------------------------------------------------- declaration

  predicate HasParams(n: Node) {
    n.FunctionDeclaration? || n.ArrowFunction?
  }

  function WithParams(n: Node, params: seq<Node>): Node
    requires HasParams(n)
  {
    if n.FunctionDeclaration? then FunctionDeclaration(n.declId, params, n.body, n.leadingComments)
    else ArrowFunction(params, n.body)
  }

  /**
   * The visitor on one declaration: an unmarked one is left alone; a marked
   * one gets its parameters normalised, then every call below it. A default
   * export of something without parameters reads `.length` of `undefined`.
   */
  function NormaliseDeclaration(decl: Node): (r: Result<Node, BuildError>)
    requires decl.FunctionDeclaration? || decl.ExportDefaultDeclaration?
    ensures !IsMarkedDeclaration(decl) ==> r == Ok(decl)
    ensures IsMarkedDeclaration(decl) && decl.ExportDefaultDeclaration? && !HasParams(decl.declaration)
      ==> r == Err(UndefinedProperty)
    // the single-argument error comes from the parameter list alone
    ensures IsMarkedDeclaration(decl) && decl.FunctionDeclaration? ==>
      (r.Err? <==> NormaliseParams(decl.params).Err?) && (r.Err? ==> r == Err(SingleArgument))
    ensures IsMarkedDeclaration(decl) && decl.ExportDefaultDeclaration? && HasParams(decl.declaration) ==>
      (r.Err? <==> NormaliseParams(decl.declaration.params).Err?) && (r.Err? ==> r == Err(SingleArgument))
  {
    if !IsMarkedDeclaration(decl) then Ok(decl)
    else if decl.FunctionDeclaration? then
      var params :- NormaliseParams(decl.params);
      Ok(NormaliseDeps(WithParams(decl, params)))
    else if !HasParams(decl.declaration) then Err(UndefinedProperty)
    else
      var params :- NormaliseParams(decl.declaration.params);
      Ok(NormaliseDeps(ExportDefaultDeclaration(WithParams(decl.declaration, params), decl.leadingComments)))
  }

  /** The normalised parameter list of a marked declaration, as it ends up. */
  function DeclarationParams(n: Node): seq<Node> {
    if n.FunctionDeclaration? then n.params
    else if n.ExportDefaultDeclaration? && HasParams(n.declaration) then n.declaration.params
    else []
  }

  /**
   * A marked declaration ends with the synthetic identifier as its second
   * parameter, stays marked, and normalising it again changes nothing.
   */
  lemma NormaliseDeclarationIdempotent(decl: Node)
    requires decl.FunctionDeclaration? || decl.ExportDefaultDeclaration?
    requires IsMarkedDeclaration(decl) && NormaliseDeclaration(decl).Ok?
    ensures var d := NormaliseDeclaration(decl).value;
      && (d.FunctionDeclaration? || d.ExportDefaultDeclaration?)
      && IsMarkedDeclaration(d)
      && |DeclarationParams(d)| >= 2 && DeclarationParams(d)[1] == ExtraDependency()
      && NormaliseDeclaration(d) == Ok(d)
  {
    if decl.FunctionDeclaration? {
      var params := NormaliseParams(decl.params).value;
      var d1 := WithParams(decl, params);
      NormaliseDepsKeepsSynthetic(params[1]);
      NormaliseDepsIdempotent(d1);
      var d := NormaliseDeps(d1);
      assert WithParams(d, d.params) == d;
    } else {
      var params := NormaliseParams(decl.declaration.params).value;
      var w := WithParams(decl.declaration, params);
      var e := ExportDefaultDeclaration(w, decl.leadingComments);
      NormaliseDepsKeepsSynthetic(params[1]);
      NormaliseDepsIdempotent(e);
      var d := NormaliseDeps(e);
      assert d.declaration == NormaliseDeps(w);
      assert WithParams(d.declaration, d.declaration.params) == d.declaration;
    }
  }

  /** The parameters the visitor adds hold no call. */
  lemma ParamsKeepAnalysis(params: seq<Node>)
    requires NormaliseParams(params).Ok?
    ensures ScanCalls(PreorderList(NormaliseParams(params).value)) == ScanCalls(PreorderList(params))
  {
    var p := NormaliseParams(params).value;
    var extra := ExtraDependency();
    assert PreorderList([extra]) == [extra];
    ScanCallsSkip(extra, []);
    if params == [] {
      var pattern := ObjectPattern([]);
      assert p[1..] == [extra];
      assert PreorderList(p) == [pattern] + [extra];
      ScanCallsSkip(pattern, [extra]);
    } else if |params| == 1 {
      PreorderListAppend(params, [extra]);
      ScanCallsConcat(PreorderList(params), PreorderList([extra]), PreorderList(params), []);
      assert PreorderList(params) + [] == PreorderList(params);
    }
  }

  /** Replacing the parameters by ones that scan the same leaves the scan of the function. */
  lemma WithParamsKeepsAnalysis(n: Node, params: seq<Node>)
    requires HasParams(n) && ScanCalls(PreorderList(params)) == ScanCalls(PreorderList(n.params))
    ensures ScanCalls(Preorder(WithParams(n, params))) == ScanCalls(Preorder(n))
  {
    if n.FunctionDeclaration? {
      FunctionWithParamsKeepsAnalysis(n, params);
    } else {
      var m := WithParams(n, params);
      ScanCallsConcat(PreorderList(params), PreorderList(n.body), PreorderList(n.params), PreorderList(n.body));
      SkipBoth(n, m, PreorderList(n.params) + PreorderList(n.body), PreorderList(params) + PreorderList(n.body));
    }
  }

  lemma FunctionWithParamsKeepsAnalysis(n: Node, params: seq<Node>)
    requires n.FunctionDeclaration? && ScanCalls(PreorderList(params)) == ScanCalls(PreorderList(n.params))
    ensures ScanCalls(Preorder(WithParams(n, params))) == ScanCalls(Preorder(n))
  {
    var m := WithParams(n, params);
    var head, head2 := Preorder(n.declId) + PreorderList(params), Preorder(n.declId) + PreorderList(n.params);
    ScanCallsConcat(Preorder(n.declId), PreorderList(params), Preorder(n.declId), PreorderList(n.params));
    ScanCallsConcat(head, PreorderList(n.body), head2, PreorderList(n.body));
    SkipBoth(n, m, head2 + PreorderList(n.body), head + PreorderList(n.body));
  }

  /**
   * Compiling the importee does not change what the importer reads from it:
   * the calls below a normalised declaration yield the same entries, in the
   * same order, or the same error, as before.
   */
  lemma NormaliseDeclarationKeepsAnalysis(decl: Node)
    requires decl.FunctionDeclaration? || decl.ExportDefaultDeclaration?
    requires NormaliseDeclaration(decl).Ok?
    ensures ScanCalls(Descendants(NormaliseDeclaration(decl).value)) == ScanCalls(Descendants(decl))
  {
    var d := NormaliseDeclaration(decl).value;
    if IsMarkedDeclaration(decl) {
      if decl.FunctionDeclaration? {
        var d1 := WithParams(decl, NormaliseParams(decl.params).value);
        ParamsKeepAnalysis(decl.params);
        WithParamsKeepsAnalysis(decl, NormaliseParams(decl.params).value);
        NormaliseKeepsAnalysis(d1);
      } else {
        var w := WithParams(decl.declaration, NormaliseParams(decl.declaration.params).value);
        var e := ExportDefaultDeclaration(w, decl.leadingComments);
        ParamsKeepAnalysis(decl.declaration.params);
        WithParamsKeepsAnalysis(decl.declaration, NormaliseParams(decl.declaration.params).value);
        SkipBoth(decl, e, Preorder(decl.declaration), Preorder(w));
        NormaliseKeepsAnalysis(e);
      }
      ScanCallsSkip(d, Descendants(d));
      ScanCallsSkip(decl, Descendants(decl));
    }
  }
}
