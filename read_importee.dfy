/**
 * The importee analyser of src/read-importee.js. The declaration visitor finds
 * a function or default export whose leading comment holds the marker, sets
 * `foundComment`, and walks every call below it. Each call to an accepted hook
 * appends `[hookName, depCount]` to the shared `hooks` list; a forbidden hook,
 * an identifier as dependency list, or a spread in it stops the build.
 *
 * In this revision `HOOKS_WITHOUT_DEPS` is not exported by the configuration,
 * so a call whose callee is in neither list reaches
 * `HOOKS_WITHOUT_DEPS.includes(name)` on `undefined` and throws a TypeError
 * (`UndefinedProperty`); the `[name, null]` entry is never produced.
 */
module ReadImportee {
  import opened Wrappers
  import opened Config
  import opened Ast

  /** `[hookName, depCount]`; a `None` count is the source's `null`. */
  datatype HookEntry = HookEntry(name: string, depCount: Option<nat>)

  /** `Identifier(__importableHookAdditionalDependency)`. */
  function ExtraDependency(): Node {
    Identifier(ExtraDependencyIdentifierName)
  }

  /** `arguments[1]`; a missing argument reads as `Hole` (`undefined` and `null` are both falsy). */
  function DependencyArgument(call: Node): Node
    requires call.CallExpression?
  {
    if |call.arguments| > 1 then call.arguments[1] else Hole
  }

  /**
   * `elements.find(el => el.type === "SpreadElement")`: the first spread ends
   * the search with the spread error, but a hole met before it is `null.type`.
   */
  function SpreadCheck(elements: seq<Node>): (r: Option<BuildError>)
    ensures r.None? <==> forall i :: 0 <= i < |elements| ==> !elements[i].Hole? && !elements[i].SpreadElement?
    ensures r.Some? ==> r == Some(SpreadOperator) || r == Some(UndefinedProperty)
  {
    if elements == [] then None
    else if elements[0].Hole? then Some(UndefinedProperty)
    else if elements[0].SpreadElement? then Some(SpreadOperator)
    else SpreadCheck(elements[1..])
  }

  /** No hole and no spread among the first `i` elements. */
  predicate CleanBefore(elements: seq<Node>, i: int) {
    forall k :: 0 <= k < i && k < |elements| ==> !elements[k].Hole? && !elements[k].SpreadElement?
  }

  /**
   * The error is decided by the first element that is a hole or a spread: a
   * spread gives the spread error, a hole the TypeError of `null.type`.
   */
  lemma {:induction false} SpreadCheckFirstOffender(elements: seq<Node>)
    ensures SpreadCheck(elements) == Some(SpreadOperator) <==>
      exists i :: 0 <= i < |elements| && elements[i].SpreadElement? && CleanBefore(elements, i)
    ensures SpreadCheck(elements) == Some(UndefinedProperty) <==>
      exists i :: 0 <= i < |elements| && elements[i].Hole? && CleanBefore(elements, i)
    decreases |elements|
  {
    if elements != [] {
      var tail := elements[1..];
      SpreadCheckFirstOffender(tail);
      if elements[0].Hole? || elements[0].SpreadElement? {
        assert CleanBefore(elements, 0);
        forall i | 0 < i < |elements| ensures !CleanBefore(elements, i) {
          assert 0 < i && !(!elements[0].Hole? && !elements[0].SpreadElement?);
        }
      } else {
        forall i | 0 < i <= |elements| ensures CleanBefore(elements, i) <==> CleanBefore(tail, i - 1) {
          assert forall k :: 0 <= k < i - 1 ==> tail[k] == elements[k + 1];
        }
        if exists i :: 0 <= i < |elements| && elements[i].SpreadElement? && CleanBefore(elements, i) {
          var i :| 0 <= i < |elements| && elements[i].SpreadElement? && CleanBefore(elements, i);
          assert tail[i - 1] == elements[i];
        }
        if exists i :: 0 <= i < |tail| && tail[i].SpreadElement? && CleanBefore(tail, i) {
          var i :| 0 <= i < |tail| && tail[i].SpreadElement? && CleanBefore(tail, i);
          assert elements[i + 1] == tail[i];
        }
        if exists i :: 0 <= i < |elements| && elements[i].Hole? && CleanBefore(elements, i) {
          var i :| 0 <= i < |elements| && elements[i].Hole? && CleanBefore(elements, i);
          assert tail[i - 1] == elements[i];
        }
        if exists i :: 0 <= i < |tail| && tail[i].Hole? && CleanBefore(tail, i) {
          var i :| 0 <= i < |tail| && tail[i].Hole? && CleanBefore(tail, i);
          assert elements[i + 1] == tail[i];
        }
      }
    }
  }

  /** The elements not named after the synthetic dependency, counted. */
  function CountDeps(elements: seq<Node>): (n: nat)
    ensures n <= |elements|
  {
    if elements == [] then 0
    else (if elements[0] == ExtraDependency() then 0 else 1) + CountDeps(elements[1..])
  }

  /** The count of a concatenation is the sum of the counts: each element counts on its own. */
  lemma {:induction false} CountDepsAppend(a: seq<Node>, b: seq<Node>)
    ensures CountDeps(a + b) == CountDeps(a) + CountDeps(b)
    decreases |a|
  {
    if a == [] {
      assert a + b == b;
    } else {
      assert (a + b)[0] == a[0] && (a + b)[1..] == a[1..] + b;
      CountDepsAppend(a[1..], b);
    }
  }

  /**
   * The inner `CallExpression` visitor, without the push: the entry a call
   * contributes (`None` for a call that contributes nothing), or the error it
   * throws.
   */
  function CallEntry(call: Node): (r: Result<Option<HookEntry>, BuildError>)
    requires call.CallExpression?
    // the forbidden check comes first and names the hook
    ensures Classify(CalleeName(call.callee)).Forbidden? ==> r == Err(ForbiddenHookUsed(call.callee.name))
    // a name in neither list reads the undefined HOOKS_WITHOUT_DEPS
    ensures Classify(CalleeName(call.callee)).Unlisted? ==> r == Err(UndefinedProperty)
    // an identifier where the dependency list goes
    ensures Classify(CalleeName(call.callee)).Accepted? && DependencyArgument(call).Identifier? ==> r == Err(ArrayLiteral)
    // an accepted hook is recorded under its own name, with the non-synthetic dependency count
    ensures r.Ok? ==>
      && Classify(CalleeName(call.callee)).Accepted?
      && (DependencyArgument(call).Hole? || DependencyArgument(call).ArrayExpression?)
      && r.value == Some(HookEntry(call.callee.name,
           Some(if DependencyArgument(call).Hole? then 0 else CountDeps(DependencyArgument(call).elements))))
    // any other node where the dependency list goes has no `.elements`
    ensures Classify(CalleeName(call.callee)).Accepted? ==>
      (!DependencyArgument(call).Identifier? && !DependencyArgument(call).Hole? && !DependencyArgument(call).ArrayExpression?
       ==> r == Err(UndefinedProperty))
    // an array dependency list fails exactly when the spread check does, with its error
    ensures Classify(CalleeName(call.callee)).Accepted? && DependencyArgument(call).ArrayExpression? ==>
      (r.Err? <==> SpreadCheck(DependencyArgument(call).elements).Some?)
    ensures Classify(CalleeName(call.callee)).Accepted? && DependencyArgument(call).ArrayExpression? ==>
      (SpreadCheck(DependencyArgument(call).elements).Some? ==> r == Err(SpreadCheck(DependencyArgument(call).elements).value))
  {
    var name := CalleeName(call.callee);
    match Classify(name)
    case Forbidden(h) => Err(ForbiddenHookUsed(name.value))
    case Accepted(h) =>
      var dependencies := DependencyArgument(call);
      if dependencies.Identifier? then Err(ArrayLiteral)
      else if dependencies.Hole? then Ok(Some(HookEntry(name.value, Some(0))))
      else if !dependencies.ArrayExpression? then Err(UndefinedProperty)   // `.elements` is undefined
      else
        (match SpreadCheck(dependencies.elements)
         case Some(e) => Err(e)
         case None => Ok(Some(HookEntry(name.value, Some(CountDeps(dependencies.elements))))))
    case Unlisted => Err(UndefinedProperty)   // HOOKS_WITHOUT_DEPS.includes on undefined
  }

  /** The entries an optional entry stands for. */
  function Entries(e: Option<HookEntry>): seq<HookEntry> {
    if e.Some? then [e.value] else []
  }

  /** `r` with `prefix` put in front of its entries; an error passes through. */
  function Prepend(prefix: seq<HookEntry>, r: Result<seq<HookEntry>, BuildError>): Result<seq<HookEntry>, BuildError> {
    match r
    case Ok(rest) => Ok(prefix + rest)
    case Err(e) => Err(e)
  }

  /** The inner traversal: each call's entry, in visiting order, up to the first error. */
  function ScanCalls(nodes: seq<Node>): (r: Result<seq<HookEntry>, BuildError>)
    // at most one entry per visited node
    ensures r.Ok? ==> |r.value| <= |nodes|
    decreases |nodes|
  {
    if nodes == [] then Ok([])
    else if !nodes[0].CallExpression? then ScanCalls(nodes[1..])
    else match CallEntry(nodes[0])
      case Err(e) => Err(e)
      case Ok(entry) => Prepend(Entries(entry), ScanCalls(nodes[1..]))
  }

  /** A scan succeeds exactly when every call's entry does, and otherwise throws the error of one of the calls. */
  lemma {:induction false} ScanCallsFailsOnACall(nodes: seq<Node>)
    ensures ScanCalls(nodes).Ok? <==> forall k :: 0 <= k < |nodes| && nodes[k].CallExpression? ==> CallEntry(nodes[k]).Ok?
    ensures ScanCalls(nodes).Err? ==>
      exists k :: 0 <= k < |nodes| && nodes[k].CallExpression? && CallEntry(nodes[k]) == Err(ScanCalls(nodes).error)
    decreases |nodes|
  {
    if nodes != [] {
      ScanCallsFailsOnACall(nodes[1..]);
      assert forall k :: 1 <= k < |nodes| ==> nodes[1..][k - 1] == nodes[k];
    }
  }

  predicate IsMarkedDeclaration(n: Node) {
    (n.FunctionDeclaration? || n.ExportDefaultDeclaration?) && HasMarker(n.leadingComments, BabelMarkerComment)
  }

  /** What the analysis leaves in `state`. */
  datatype Analysis = Analysis(foundComment: bool, hooks: seq<HookEntry>)

  /**
   * The outer traversal over the rest of the file, from the state reached so
   * far: every marked declaration sets `foundComment` and appends the entries
   * of the calls below it.
   */
  function Analyse(foundComment: bool, hooks: seq<HookEntry>, nodes: seq<Node>): (r: Result<Analysis, BuildError>)
    // a set flag stays set, and the hooks recorded so far stay in front
    ensures r.Ok? && foundComment ==> r.value.foundComment
    ensures r.Ok? ==> hooks <= r.value.hooks
    decreases |nodes|
  {
    if nodes == [] then Ok(Analysis(foundComment, hooks))
    else if !IsMarkedDeclaration(nodes[0]) then Analyse(foundComment, hooks, nodes[1..])
    else match ScanCalls(Descendants(nodes[0]))
      case Err(e) => Err(e)
      case Ok(more) => Analyse(true, hooks + more, nodes[1..])
  }

  /**
   * The walk succeeds exactly when the scan of every marked declaration does,
   * and otherwise throws the error of one of those scans.
   */
  lemma {:induction false} AnalyseFailsOnAScan(foundComment: bool, hooks: seq<HookEntry>, nodes: seq<Node>)
    ensures Analyse(foundComment, hooks, nodes).Ok? <==>
      forall k :: 0 <= k < |nodes| && IsMarkedDeclaration(nodes[k]) ==> ScanCalls(Descendants(nodes[k])).Ok?
    ensures Analyse(foundComment, hooks, nodes).Err? ==>
      exists k :: 0 <= k < |nodes| && IsMarkedDeclaration(nodes[k])
        && ScanCalls(Descendants(nodes[k])) == Err(Analyse(foundComment, hooks, nodes).error)
    decreases |nodes|
  {
    if nodes != [] {
      assert forall k :: 1 <= k < |nodes| ==> nodes[1..][k - 1] == nodes[k];
      if !IsMarkedDeclaration(nodes[0]) {
        AnalyseFailsOnAScan(foundComment, hooks, nodes[1..]);
      } else if ScanCalls(Descendants(nodes[0])).Ok? {
        AnalyseFailsOnAScan(true, hooks + ScanCalls(Descendants(nodes[0])).value, nodes[1..]);
      }
    }
  }

  /** One step of `Analyse`: the first node is skipped, or its scan is appended. */
  lemma AnalyseStep(foundComment: bool, hooks: seq<HookEntry>, nodes: seq<Node>)
    requires nodes != []
    ensures !IsMarkedDeclaration(nodes[0]) ==> Analyse(foundComment, hooks, nodes) == Analyse(foundComment, hooks, nodes[1..])
    ensures IsMarkedDeclaration(nodes[0]) ==>
      Analyse(foundComment, hooks, nodes) == match ScanCalls(Descendants(nodes[0]))
        case Err(e) => Err(e)
        case Ok(more) => Analyse(true, hooks + more, nodes[1..])
  {
  }

  /**
   * The state a whole importee file leaves, starting from `{ hooks: [],
   * foundComment: false }`: the marker is reported found exactly when some
   * declaration in the file carries it.
   */
  function AnalyseFile(file: Node): (r: Result<Analysis, BuildError>)
    ensures r.Ok? ==> (r.value.foundComment <==>
      exists k :: 0 <= k < |Descendants(file)| && IsMarkedDeclaration(Descendants(file)[k]))
  {
    var r := Analyse(false, [], Descendants(file));
    if r.Ok? then
      FoundCommentIffMarked(false, [], Descendants(file));
      r
    else r
  }

  /** The `state` object the visitor writes into. */
  class ImporteeState {
    var hooks: seq<HookEntry>
    var foundComment: bool

    constructor ()
      ensures hooks == [] && !foundComment
    {
      hooks := [];
      foundComment := false;
    }

    /** The inner `CallExpression` visitor. */
    method VisitCall(call: Node) returns (err: Option<BuildError>)
      requires call.CallExpression?
      modifies this
      ensures foundComment == old(foundComment)
      ensures CallEntry(call).Err? ==> err == Some(CallEntry(call).error) && hooks == old(hooks)
      ensures CallEntry(call).Ok? ==> err.None? && hooks == old(hooks) + Entries(CallEntry(call).value)
    {
      var name := CalleeName(call.callee);
      match Classify(name)
      case Forbidden(h) =>
        return Some(ForbiddenHookUsed(name.value));
      case Accepted(h) =>
        var dependencies := DependencyArgument(call);
        if dependencies.Identifier? {
          return Some(ArrayLiteral);
        }
        if !dependencies.Hole? && !dependencies.ArrayExpression? {
          return Some(UndefinedProperty);
        }
        if dependencies.ArrayExpression? {
          var spread := SpreadCheck(dependencies.elements);
          if spread.Some? {
            return spread;
          }
        }
        var length := if dependencies.Hole? then 0 else CountDeps(dependencies.elements);
        hooks := hooks + [HookEntry(name.value, Some(length))];
        return None;
      case Unlisted =>
        return Some(UndefinedProperty);
    }

    /** The `FunctionDeclaration|ExportDefaultDeclaration` visitor. */
    method VisitDeclaration(decl: Node) returns (err: Option<BuildError>)
      requires decl.FunctionDeclaration? || decl.ExportDefaultDeclaration?
      modifies this
      ensures !IsMarkedDeclaration(decl) ==> err.None? && hooks == old(hooks) && foundComment == old(foundComment)
      ensures IsMarkedDeclaration(decl) ==> foundComment
      ensures IsMarkedDeclaration(decl) ==>
        Prepend(old(hooks), ScanCalls(Descendants(decl))) == if err.Some? then Err(err.value) else Ok(hooks)
    {
      if !HasMarker(decl.leadingComments, BabelMarkerComment) {
        return None;
      }
      foundComment := true;
      var nodes := Descendants(decl);
      for i := 0 to |nodes|
        invariant foundComment
        invariant Prepend(old(hooks), ScanCalls(nodes)) == Prepend(hooks, ScanCalls(nodes[i..]))
      {
        assert nodes[i..][1..] == nodes[i + 1..];
        if nodes[i].CallExpression? {
          if CallEntry(nodes[i]).Ok? {
            PrependPrepend(hooks, Entries(CallEntry(nodes[i]).value), ScanCalls(nodes[i + 1..]));
          }
          var e := VisitCall(nodes[i]);
          if e.Some? {
            return e;
          }
        }
      }
      assert nodes[|nodes|..] == [];
      assert hooks + [] == hooks;
      return None;
    }

    /** `traverse(ast, ExtractHooksFromImporteeVisitor, undefined, state)` over a parsed file. */
    method Traverse(file: Node) returns (err: Option<BuildError>)
      modifies this
      ensures Analyse(old(foundComment), old(hooks), Descendants(file))
        == if err.Some? then Err(err.value) else Ok(Analysis(foundComment, hooks))
    {
      var nodes := Descendants(file);
      for i := 0 to |nodes|
        invariant Analyse(old(foundComment), old(hooks), nodes) == Analyse(foundComment, hooks, nodes[i..])
      {
        assert nodes[i..][0] == nodes[i] && nodes[i..][1..] == nodes[i + 1..];
        AnalyseStep(foundComment, hooks, nodes[i..]);
        if nodes[i].FunctionDeclaration? || nodes[i].ExportDefaultDeclaration? {
          var e := VisitDeclaration(nodes[i]);
          if e.Some? {
            return e;
          }
        }
      }
      assert nodes[|nodes|..] == [];
      return None;
    }
  }

  lemma PrependPrepend(a: seq<HookEntry>, b: seq<HookEntry>, r: Result<seq<HookEntry>, BuildError>)
    ensures Prepend(a, Prepend(b, r)) == Prepend(a + b, r)
  {
    if r.Ok? {
      assert a + (b + r.value) == (a + b) + r.value;
    }
  }

  /** Entries are appended in visiting order and never change once recorded. */
  lemma {:induction false} ScanCallsAppend(a: seq<Node>, b: seq<Node>)
    ensures ScanCalls(a + b) == match ScanCalls(a)
      case Err(e) => Err(e)
      case Ok(x) => Prepend(x, ScanCalls(b))
    decreases |a|
  {
    if a == [] {
      assert a + b == b;
      match ScanCalls(b) {
        case Ok(y) => assert [] + y == y;
        case Err(_) =>
      }
    } else {
      assert (a + b)[0] == a[0];
      assert (a + b)[1..] == a[1..] + b;
      ScanCallsAppend(a[1..], b);
      if a[0].CallExpression? && CallEntry(a[0]).Ok? {
        var first := Entries(CallEntry(a[0]).value);
        match ScanCalls(a[1..]) {
          case Err(_) =>
          case Ok(x) =>
            match ScanCalls(b) {
              case Err(_) =>
              case Ok(y) => assert first + (x + y) == (first + x) + y;
            }
        }
      }
    }
  }

  /** The number of calls in `nodes` that name an accepted hook. */
  function CountAcceptedCalls(nodes: seq<Node>): nat {
    if nodes == [] then 0
    else
      var here := if nodes[0].CallExpression? && Classify(CalleeName(nodes[0].callee)).Accepted? then 1 else 0;
      here + CountAcceptedCalls(nodes[1..])
  }

  /**
   * A successful scan records exactly one entry per accepted call, each an
   * accepted hook's name with a count (never the `null` count).
   */
  lemma {:induction false} ScanCallsRecordsAcceptedCalls(nodes: seq<Node>)
    requires ScanCalls(nodes).Ok?
    ensures |ScanCalls(nodes).value| == CountAcceptedCalls(nodes)
    ensures forall e :: e in ScanCalls(nodes).value ==>
      Classify(Some(e.name)).Accepted? && e.depCount.Some?
    decreases |nodes|
  {
    if nodes != [] {
      ScanCallsRecordsAcceptedCalls(nodes[1..]);
    }
  }

  /** Putting the synthetic identifier in front of the dependency list leaves the count as it was. */
  lemma SyntheticDependencyNotCounted(elements: seq<Node>)
    ensures CountDeps([ExtraDependency()] + elements) == CountDeps(elements)
    ensures SpreadCheck([ExtraDependency()] + elements) == SpreadCheck(elements)
  {
    assert ([ExtraDependency()] + elements)[1..] == elements;
  }

  /** Without the synthetic identifier, every element is a dependency. */
  lemma {:induction false} CountDepsWithoutSynthetic(elements: seq<Node>)
    requires forall i :: 0 <= i < |elements| ==> elements[i] != ExtraDependency()
    ensures CountDeps(elements) == |elements|
    decreases |elements|
  {
    if elements != [] {
      CountDepsWithoutSynthetic(elements[1..]);
    }
  }

  /**
   * The analysis reports a marker exactly when some visited declaration is
   * marked, and it only ever appends to the hooks recorded so far.
   */
  lemma {:induction false} FoundCommentIffMarked(foundComment: bool, hooks: seq<HookEntry>, nodes: seq<Node>)
    requires Analyse(foundComment, hooks, nodes).Ok?
    ensures Analyse(foundComment, hooks, nodes).value.foundComment
      <==> foundComment || exists k :: 0 <= k < |nodes| && IsMarkedDeclaration(nodes[k])
    ensures hooks <= Analyse(foundComment, hooks, nodes).value.hooks
    decreases |nodes|
  {
    if nodes != [] {
      var rest := nodes[1..];
      assert forall k :: 1 <= k < |nodes| ==> nodes[k] == rest[k - 1];
      if IsMarkedDeclaration(nodes[0]) {
        var more := ScanCalls(Descendants(nodes[0])).value;
        FoundCommentIffMarked(true, hooks + more, rest);
      } else {
        FoundCommentIffMarked(foundComment, hooks, rest);
        if exists k :: 0 <= k < |nodes| && IsMarkedDeclaration(nodes[k]) {
          var k :| 0 <= k < |nodes| && IsMarkedDeclaration(nodes[k]);
          assert IsMarkedDeclaration(rest[k - 1]);
        }
      }
    }
  }
}
