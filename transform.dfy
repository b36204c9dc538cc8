/**
 * The importer side of the plugin in src/index.js: the `CallExpression`
 * visitor that rewrites `useImportedHook(import('./file'))`.
 *
 * The visitor resolves the import argument of the call, reads the importee,
 * inserts the reserved-hooks argument (one slot `[hookName, [null, ...]]` per
 * recorded hook) as the call's second argument, and makes the first `react`
 * import of the program import every recorded hook by name.
 *
 * The importee files are a map from the import path, as written, to the
 * parsed file; a missing path is the file-system error `MissingFile`.
 */
module Transform {
  import opened Wrappers
  import opened Config
  import opened Ast
  import opened ReadImportee
  import opened ResolveImport

  /** The callee name the visitor reacts to. */
  const UseImportedHookName: string := "useImportedHook"

  /** The source the React import is recognised by, after lower-casing. */
  const ReactSource: string := "react"

  /** `new Array(n).fill(t.nullLiteral())`. */
  function NullLiterals(n: nat): (r: seq<Node>)
    ensures |r| == n && forall i :: 0 <= i < n ==> r[i] == NullLiteral
  {
    seq(n, _ => NullLiteral)
  }

  // ---------------------------------------------------------------- slots

  /** The slot of one recorded hook: its identifier, then one `null` more than it has dependencies. */
  function Slot(e: HookEntry): (s: Node)
    ensures ReadSlot(s) == Some(e)
  {
    if e.depCount.Some? then ArrayExpression([Identifier(e.name), ArrayExpression(NullLiterals(e.depCount.value + 1))])
    else ArrayExpression([Identifier(e.name)])
  }

  /** Reads a hook entry back from a slot; `None` for anything `Slot` does not produce. */
  function ReadSlot(s: Node): Option<HookEntry> {
    if !s.ArrayExpression? || !(1 <= |s.elements| <= 2) || !s.elements[0].Identifier? then None
    else if |s.elements| == 1 then Some(HookEntry(s.elements[0].name, None))
    else
      var deps := s.elements[1];
      if deps.ArrayExpression? && |deps.elements| >= 1 && deps.elements == NullLiterals(|deps.elements|)
      then Some(HookEntry(s.elements[0].name, Some(|deps.elements| - 1)))
      else None
  }

  /** The reserved-hooks argument: one slot per recorded hook, in order. */
  function ReserveArgument(hooks: seq<HookEntry>): (arg: Node)
    ensures arg.ArrayExpression? && |arg.elements| == |hooks|
    ensures forall i :: 0 <= i < |hooks| ==> ReadSlot(arg.elements[i]) == Some(hooks[i])
  {
    ArrayExpression(seq(|hooks|, i requires 0 <= i < |hooks| => Slot(hooks[i])))
  }

  function ReadSlotList(slots: seq<Node>): Option<seq<HookEntry>> {
    if slots == [] then Some([])
    else match (ReadSlot(slots[0]), ReadSlotList(slots[1..]))
      case (Some(e), Some(rest)) => Some([e] + rest)
      case _ => None
  }

  /** Reads the whole hook list back from a reserved-hooks argument. */
  function ReadSlots(arg: Node): Option<seq<HookEntry>> {
    if arg.ArrayExpression? then ReadSlotList(arg.elements) else None
  }

  /** The reserved-hooks argument decodes to exactly the recorded hooks. */
  lemma ReserveArgumentReadsBack(hooks: seq<HookEntry>)
    ensures ReadSlots(ReserveArgument(hooks)) == Some(hooks)
  {
    ReadSlotListAll(ReserveArgument(hooks).elements, hooks);
  }

  lemma {:induction false} ReadSlotListAll(slots: seq<Node>, hooks: seq<HookEntry>)
    requires |slots| == |hooks| && forall i :: 0 <= i < |hooks| ==> ReadSlot(slots[i]) == Some(hooks[i])
    ensures ReadSlotList(slots) == Some(hooks)
    decreases |slots|
  {
    if slots != [] {
      ReadSlotListAll(slots[1..], hooks[1..]);
      assert [hooks[0]] + hooks[1..] == hooks;
    }
  }

  /** Different hook lists give different reserved-hooks arguments. */
  lemma ReserveArgumentInjective(a: seq<HookEntry>, b: seq<HookEntry>)
    requires ReserveArgument(a) == ReserveArgument(b)
    ensures a == b
  {
    ReserveArgumentReadsBack(a);
    ReserveArgumentReadsBack(b);
  }

  /** The `state.hooks.forEach` loop that builds the reserved-hooks argument. */
  method BuildReserveArgument(hooks: seq<HookEntry>) returns (arg: Node)
    ensures arg == ReserveArgument(hooks)
  {
    var slots: seq<Node> := [];
    for i := 0 to |hooks|
      invariant |slots| == i && forall k :: 0 <= k < i ==> slots[k] == Slot(hooks[k])
    {
      var slot := [Identifier(hooks[i].name)];
      if hooks[i].depCount.Some? {
        slot := slot + [ArrayExpression(NullLiterals(hooks[i].depCount.value + 1))];
      }
      slots := slots + [ArrayExpression(slot)];
    }
    arg := ArrayExpression(slots);
    assert arg.elements == ReserveArgument(hooks).elements;
  }

  /**
   * `arguments.splice(1, 0, x)`: `x` goes in second position, or first when
   * there is no argument at all.
   */
  function SpliceReserve(args: seq<Node>, x: Node): (r: seq<Node>)
    ensures |r| == |args| + 1
    ensures var k := if args == [] then 0 else 1;
      r[k] == x && r[..k] == args[..k] && r[k + 1..] == args[k..]
  {
    if args == [] then [x] else [args[0], x] + args[1..]
  }

  // --------------------------------------------------------- react import

  /** ASCII lower-casing of one character. */
  function LowerChar(c: char): char {
    if 'A' <= c <= 'Z' then (c as int + 32) as char else c
  }

  /** `toLowerCase()` on the ASCII range. */
  function Lower(s: string): (r: string)
    ensures |r| == |s|
  {
    seq(|s|, i requires 0 <= i < |s| => LowerChar(s[i]))
  }

  predicate IsReactImport(n: Node) {
    n.ImportDeclaration? && Lower(n.source) == ReactSource
  }

  /** `body.find(...)`: the index of the first React import of the program. */
  function FindReactImport(body: seq<Node>): (r: Option<nat>)
    ensures r.Some? ==> r.value < |body| && IsReactImport(body[r.value])
    ensures r.Some? ==> forall k :: 0 <= k < r.value ==> !IsReactImport(body[k])
    ensures r.None? <==> forall k :: 0 <= k < |body| ==> !IsReactImport(body[k])
  {
    if body == [] then None
    else if IsReactImport(body[0]) then Some(0)
    else match FindReactImport(body[1..])
      case None => None
      case Some(i) => Some(i + 1)
  }

  /** `specifiers.find(...)` succeeds: `name` is already imported by name. */
  predicate Imports(specs: seq<Specifier>, name: string) {
    ImportSpecifier(name) in specs
  }

  /** The `state.hooks.forEach` loop over the React import's specifiers. */
  function Merged(specs: seq<Specifier>, names: seq<string>): (r: seq<Specifier>)
    // the existing specifiers stay in front, and at most one is added per name
    ensures |specs| <= |r| <= |specs| + |names| && r[..|specs|] == specs
    decreases |names|
  {
    if names == [] then specs
    else
      var next := if Imports(specs, names[0]) then specs else specs + [ImportSpecifier(names[0])];
      var r := Merged(next, names[1..]);
      assert r[..|specs|] == r[..|next|][..|specs|];
      r
  }

  /**
   * Merging keeps the existing specifiers in front, imports every name, and
   * adds each missing name once and nothing else.
   */
  lemma {:induction false} MergedImportsEveryName(specs: seq<Specifier>, names: seq<string>)
    ensures |Merged(specs, names)| >= |specs| && Merged(specs, names)[..|specs|] == specs
    ensures forall i :: 0 <= i < |names| ==> Imports(Merged(specs, names), names[i])
    ensures forall k :: |specs| <= k < |Merged(specs, names)| ==>
      && Merged(specs, names)[k].ImportSpecifier?
      && Merged(specs, names)[k].imported in names
      && Merged(specs, names)[k] !in specs
    ensures forall k, l :: |specs| <= k < l < |Merged(specs, names)| ==> Merged(specs, names)[k] != Merged(specs, names)[l]
    decreases |names|
  {
    if names != [] {
      var next := if Imports(specs, names[0]) then specs else specs + [ImportSpecifier(names[0])];
      MergedImportsEveryName(next, names[1..]);
      var m := Merged(specs, names);
      assert m == Merged(next, names[1..]);
      assert m[..|next|] == next;
      assert m[..|specs|] == next[..|specs|] == specs;
      assert Imports(next, names[0]);
      forall i | 0 <= i < |names|
        ensures Imports(m, names[i])
      {
        if i == 0 {
          assert ImportSpecifier(names[0]) in m[..|next|];
        } else {
          assert names[i] == names[1..][i - 1];
        }
      }
    }
  }

  /** Names that are all imported already leave the specifiers as they are. */
  lemma {:induction false} MergedAlreadyImported(specs: seq<Specifier>, names: seq<string>)
    requires forall i :: 0 <= i < |names| ==> Imports(specs, names[i])
    ensures Merged(specs, names) == specs
    decreases |names|
  {
    if names != [] {
      forall i | 0 <= i < |names| - 1
        ensures Imports(specs, names[1..][i])
      {
        assert names[1..][i] == names[i + 1];
      }
      MergedAlreadyImported(specs, names[1..]);
    }
  }

  /** Merging the same names twice is merging them once. */
  lemma MergedIdempotent(specs: seq<Specifier>, names: seq<string>)
    ensures Merged(Merged(specs, names), names) == Merged(specs, names)
  {
    MergedImportsEveryName(specs, names);
    MergedAlreadyImported(Merged(specs, names), names);
  }

  /** The loop itself, pushing onto the specifier list. */
  method MergeSpecifiers(specs: seq<Specifier>, names: seq<string>) returns (out: seq<Specifier>)
    ensures out == Merged(specs, names)
  {
    out := specs;
    for i := 0 to |names|
      invariant Merged(specs, names) == Merged(out, names[i..])
    {
      assert names[i..][0] == names[i] && names[i..][1..] == names[i + 1..];
      if !Imports(out, names[i]) {
        out := out + [ImportSpecifier(names[i])];
      }
    }
    assert names[|names|..] == [];
  }

  /**
   * The program body after the React import has been found, or created and
   * put first, and made to import every name.
   */
  function MergeReactImport(body: seq<Node>, names: seq<string>): (r: seq<Node>)
    ensures FindReactImport(body).Some? ==>
      var i := FindReactImport(body).value;
      |r| == |body| && r[i] == ImportDeclaration(body[i].source, Merged(body[i].specifiers, names))
      && forall k :: 0 <= k < |body| && k != i ==> r[k] == body[k]
    ensures FindReactImport(body).None? ==>
      r == [ImportDeclaration(ReactSource, Merged([], names))] + body
  {
    match FindReactImport(body)
    case Some(i) => body[i := ImportDeclaration(body[i].source, Merged(body[i].specifiers, names))]
    case None => [ImportDeclaration(ReactSource, Merged([], names))] + body
  }

  /** After the merge the program's React import imports every name. */
  lemma MergeReactImportImportsAll(body: seq<Node>, names: seq<string>)
    ensures FindReactImport(MergeReactImport(body, names)).Some?
    ensures var r := MergeReactImport(body, names);
      var i := FindReactImport(r).value;
      forall k :: 0 <= k < |names| ==> Imports(r[i].specifiers, names[k])
  {
    var r := MergeReactImport(body, names);
    match FindReactImport(body) {
      case Some(i) =>
        MergedImportsEveryName(body[i].specifiers, names);
        assert IsReactImport(r[i]);
        forall k | 0 <= k < i
          ensures !IsReactImport(r[k])
        {
        }
        assert FindReactImport(r) == Some(i);
      case None =>
        MergedImportsEveryName([], names);
        assert Lower(ReactSource) == ReactSource;
        assert IsReactImport(r[0]);
    }
  }

  /** Merging the same names into the program twice changes nothing the second time. */
  lemma MergeReactImportIdempotent(body: seq<Node>, names: seq<string>)
    ensures MergeReactImport(MergeReactImport(body, names), names) == MergeReactImport(body, names)
  {
    var r := MergeReactImport(body, names);
    MergeReactImportImportsAll(body, names);
    var i := FindReactImport(r).value;
    MergedAlreadyImported(r[i].specifiers, names);
    assert r[i := ImportDeclaration(r[i].source, Merged(r[i].specifiers, names))] == r;
  }

  // ------------------------------------------------------------- the visit

  /** The names of the recorded hooks, in order. */
  function HookNames(hooks: seq<HookEntry>): (names: seq<string>)
    ensures |names| == |hooks| && forall i :: 0 <= i < |hooks| ==> names[i] == hooks[i].name
  {
    seq(|hooks|, i requires 0 <= i < |hooks| => hooks[i].name)
  }

  predicate IsUseImportedHook(call: Node) {
    call.CallExpression? && CalleeName(call.callee) == Some(UseImportedHookName)
  }

  /** The literal path the call imports, or the resolver's error. */
  function ImportPath(call: Node, env: map<string, Node>, fuel: nat): (r: Result<string, BuildError>)
    ensures r.Ok? <==>
      (Search(None, call, env, fuel).Ok? && Search(None, call, env, fuel).value.Some?
       && Search(None, call, env, fuel).value.value.node.StringLiteral?)
    ensures r.Ok? ==> Search(None, call, env, fuel).value.value.node == StringLiteral(r.value)
    // the checks in the visitor's order: the resolver's own error, no import, a non-literal path
    ensures Search(None, call, env, fuel).Err? ==> r == Err(Search(None, call, env, fuel).error)
    ensures Search(None, call, env, fuel) == Ok(None) ==> r == Err(NoImportStatement)
    ensures Search(None, call, env, fuel).Ok? && Search(None, call, env, fuel).value.Some? ==>
      (!Search(None, call, env, fuel).value.value.node.StringLiteral? ==> r == Err(NoDynamicImportPath))
  {
    match Search(None, call, env, fuel)
    case Err(e) => Err(e)
    case Ok(None) => Err(NoImportStatement)
    case Ok(Some(arg)) =>
      if arg.node.StringLiteral? then Ok(arg.node.stringValue) else Err(NoDynamicImportPath)
  }

  /** What the visitor does with one call: nothing, or rewrite it with these hooks. */
  datatype Plan = Skip | Rewrite(hooks: seq<HookEntry>)

  /** The checks of the visitor, in the order it makes them. */
  function PlanCall(foundImport: bool, call: Node, env: map<string, Node>, importees: map<string, Node>, fuel: nat)
    : (r: Result<Plan, BuildError>)
    requires call.CallExpression?
    ensures !IsUseImportedHook(call) ==> r == Ok(Skip)
    // a second rewritten call in the same file is refused
    ensures IsUseImportedHook(call) && ImportPath(call, env, fuel).Ok? && foundImport ==> r == Err(MultipleImports)
    // a rewrite uses the hooks of a marked importee reached by a literal path
    ensures r.Ok? && r.value.Rewrite? ==>
      && IsUseImportedHook(call) && !foundImport
      && ImportPath(call, env, fuel).Ok? && ImportPath(call, env, fuel).value in importees
      && AnalyseFile(importees[ImportPath(call, env, fuel).value]) == Ok(Analysis(true, r.value.hooks))
    // the path's own error comes first
    ensures IsUseImportedHook(call) && ImportPath(call, env, fuel).Err? ==> r == Err(ImportPath(call, env, fuel).error)
    // then the importee: missing, failing its analysis, unmarked, or rewritten with its hooks
    ensures IsUseImportedHook(call) && ImportPath(call, env, fuel).Ok? && !foundImport ==>
      var path := ImportPath(call, env, fuel).value;
      && (path !in importees ==> r == Err(MissingFile(path)))
      && (path in importees && AnalyseFile(importees[path]).Err? ==> r == Err(AnalyseFile(importees[path]).error))
      && (path in importees && AnalyseFile(importees[path]).Ok? && !AnalyseFile(importees[path]).value.foundComment
          ==> r == Err(NoMarker))
      && (path in importees && AnalyseFile(importees[path]).Ok? && AnalyseFile(importees[path]).value.foundComment
          ==> r == Ok(Rewrite(AnalyseFile(importees[path]).value.hooks)))
  {
    if !IsUseImportedHook(call) then Ok(Skip)
    else
      var path :- ImportPath(call, env, fuel);
      if foundImport then Err(MultipleImports)
      else if path !in importees then Err(MissingFile(path))
      else
        var analysis :- AnalyseFile(importees[path]);
        if !analysis.foundComment then Err(NoMarker) else Ok(Rewrite(analysis.hooks))
  }

  /**
   * `readImportee` into a fresh `{ hooks: [], foundComment: false }`, then
   * the marker check: the hooks of a marked importee, or the error met first.
   */
  method ReadImporteeHooks(path: string, importees: map<string, Node>) returns (r: Result<seq<HookEntry>, BuildError>)
    ensures path !in importees ==> r == Err(MissingFile(path))
    ensures path in importees && AnalyseFile(importees[path]).Err? ==> r == Err(AnalyseFile(importees[path]).error)
    ensures path in importees && AnalyseFile(importees[path]).Ok? ==>
      r == if AnalyseFile(importees[path]).value.foundComment then Ok(AnalyseFile(importees[path]).value.hooks) else Err(NoMarker)
  {
    if path !in importees {
      return Err(MissingFile(path));
    }
    var state := new ImporteeState();
    var err := state.Traverse(importees[path]);
    if err.Some? {
      return Err(err.value);
    }
    if !state.foundComment {
      return Err(NoMarker);
    }
    return Ok(state.hooks);
  }

  /** What a visit leaves of the call. */
  datatype Visit = Skipped | Rewritten(arguments: seq<Node>)

  /** The plugin pass over one importer file: `this` of the visitor, and the program body. */
  class ImporterPass {
    var foundImport: bool   // this.foundImport
    var body: seq<Node>     // program.node.body

    constructor (program: seq<Node>)
      ensures !foundImport && body == program
    {
      foundImport := false;
      body := program;
    }

    /** The `CallExpression` visitor on one call of the importer. */
    method VisitCallExpression(call: Node, env: map<string, Node>, importees: map<string, Node>, fuel: nat)
      returns (r: Result<Visit, BuildError>)
      requires call.CallExpression?
      modifies this
      ensures PlanCall(old(foundImport), call, env, importees, fuel) == Ok(Skip) ==> r == Ok(Skipped)
      ensures PlanCall(old(foundImport), call, env, importees, fuel).Err? ==>
        r == Err(PlanCall(old(foundImport), call, env, importees, fuel).error) && body == old(body)
      ensures PlanCall(old(foundImport), call, env, importees, fuel).Ok? ==>
        match PlanCall(old(foundImport), call, env, importees, fuel).value
        case Skip => body == old(body)
        case Rewrite(hooks) =>
          && r == Ok(Rewritten(SpliceReserve(call.arguments, ReserveArgument(hooks))))
          && body == (if hooks == [] then old(body) else MergeReactImport(old(body), HookNames(hooks)))
      ensures foundImport == (old(foundImport) || (IsUseImportedHook(call) && ImportPath(call, env, fuel).Ok?))
    {
      if !IsUseImportedHook(call) {
        return Ok(Skipped);
      }
      var search := new ImportSearch();
      var err := search.FindImportStatementNode(call, env, fuel);
      if err.Some? {
        return Err(err.value);
      }
      if search.found.None? {
        return Err(NoImportStatement);
      }
      var importArg := search.found.value.node;
      if !importArg.StringLiteral? {
        return Err(NoDynamicImportPath);
      }
      if foundImport {
        return Err(MultipleImports);
      }
      foundImport := true;

      var read := ReadImporteeHooks(importArg.stringValue, importees);
      if read.Err? {
        return Err(read.error);
      }
      var hooks := read.value;

      var reserve := BuildReserveArgument(hooks);
      var arguments := SpliceReserve(call.arguments, reserve);
      if hooks == [] {
        return Ok(Rewritten(arguments));
      }
      ImportHooks(HookNames(hooks));
      return Ok(Rewritten(arguments));
    }

    /** The `state.hooks.forEach` over the program's React import, added first when there is none. */
    method ImportHooks(names: seq<string>)
      modifies this`body
      ensures body == MergeReactImport(old(body), names)
    {
      var reactImport := FindReactImport(body);
      if reactImport.None? {
        body := [ImportDeclaration(ReactSource, [])] + body;
        reactImport := Some(0);
      }
      var i := reactImport.value;
      var specifiers := MergeSpecifiers(body[i].specifiers, names);
      body := body[i := ImportDeclaration(body[i].source, specifiers)];
    }
  }

  /**
   * The rewritten call carries the recorded hooks as its reserved-hooks
   * argument, in the second position whenever the call had an argument.
   */
  lemma RewrittenCallCarriesHooks(args: seq<Node>, hooks: seq<HookEntry>)
    requires args != []
    ensures ReadSlots(SpliceReserve(args, ReserveArgument(hooks))[1]) == Some(hooks)
    ensures SpliceReserve(args, ReserveArgument(hooks))[0] == args[0]
  {
    ReserveArgumentReadsBack(hooks);
  }
}
