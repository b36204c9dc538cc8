/**
 * The plugin's configuration (src/config.js): the marker comment, the synthetic
 * dependency identifier, the two hook lists and the error kinds.
 *
 * The source keeps hook names as string lists and tests membership with
 * `includes`; here the hooks the plugin knows form a closed enumeration and
 * `Classify` turns a callee name into one of three categories.
 */
module Config {
  import opened Wrappers

  const BabelMarkerComment: string := "@__IMPORTABLE_HOOK__"
  const ExtraDependencyIdentifierName: string := "__importableHookAdditionalDependency"

  /** The React hooks named anywhere in the plugin's lists. */
  datatype Hook =
    | UseCallback | UseEffect | UseMemo | UseLayoutEffect | UseImperativeHandle
    | UseState | UseRef | UseContext | UseReducer | UseDebugValue

  /** The identifier under which React exports a hook. */
  function HookName(h: Hook): string {
    match h
    case UseCallback => "useCallback"
    case UseEffect => "useEffect"
    case UseMemo => "useMemo"
    case UseLayoutEffect => "useLayoutEffect"
    case UseImperativeHandle => "useImperativeHandle"
    case UseState => "useState"
    case UseRef => "useRef"
    case UseContext => "useContext"
    case UseReducer => "useReducer"
    case UseDebugValue => "useDebugValue"
  }

  /** The hook a name denotes, if any: the inverse of `HookName`. */
  function ParseHook(name: string): (r: Option<Hook>)
    ensures r.Some? ==> HookName(r.value) == name
    ensures r.None? ==> forall h: Hook :: HookName(h) != name
  {
    if name == "useCallback" then Some(UseCallback)
    else if name == "useEffect" then Some(UseEffect)
    else if name == "useMemo" then Some(UseMemo)
    else if name == "useLayoutEffect" then Some(UseLayoutEffect)
    else if name == "useImperativeHandle" then Some(UseImperativeHandle)
    else if name == "useState" then Some(UseState)
    else if name == "useRef" then Some(UseRef)
    else if name == "useContext" then Some(UseContext)
    else if name == "useReducer" then Some(UseReducer)
    else if name == "useDebugValue" then Some(UseDebugValue)
    else None
  }

  lemma ParseHookName(h: Hook)
    ensures ParseHook(HookName(h)) == Some(h)
  {
  }

  /** `ACCEPTED_HOOKS`, in the source's order. */
  const AcceptedHooks: seq<Hook> :=
    [UseCallback, UseEffect, UseMemo, UseLayoutEffect, UseImperativeHandle]

  /** `FORBIDDEN_HOOKS`, in the source's order. */
  const ForbiddenHooks: seq<Hook> :=
    [UseState, UseRef, UseContext, UseReducer, UseDebugValue]

  /** How the importee analyser and the transform see a callee name. */
  datatype Category = Accepted(hook: Hook) | Forbidden(hook: Hook) | Unlisted

  /**
   * Classifies `callee.name`; `None` stands for a callee without a name (a
   * member expression, for one), which neither list includes.
   */
  function Classify(name: Option<string>): (c: Category)
    ensures c.Accepted? <==> name.Some? && exists h :: h in AcceptedHooks && HookName(h) == name.value
    ensures c.Forbidden? <==> name.Some? && exists h :: h in ForbiddenHooks && HookName(h) == name.value
    ensures c.Accepted? || c.Forbidden? ==> name == Some(HookName(c.hook))
  {
    if name.None? then Unlisted
    else match ParseHook(name.value)
      case None => Unlisted
      case Some(h) =>
        if h in ForbiddenHooks then Forbidden(h)
        else if h in AcceptedHooks then Accepted(h)
        else Unlisted
  }

  /** The two lists share no hook, and together they name every hook of `Hook`. */
  lemma HookListsPartition(h: Hook)
    ensures h in AcceptedHooks <==> h !in ForbiddenHooks
  {
  }

  /** The names of a list of hooks, in order. */
  function NamesOf(hooks: seq<Hook>): (names: seq<string>)
    ensures |names| == |hooks| && forall i :: 0 <= i < |hooks| ==> names[i] == HookName(hooks[i])
  {
    seq(|hooks|, i requires 0 <= i < |hooks| => HookName(hooks[i]))
  }

  /** The exact contents of both lists, names and order. */
  lemma HookListContents()
    ensures NamesOf(AcceptedHooks) == ["useCallback", "useEffect", "useMemo", "useLayoutEffect", "useImperativeHandle"]
    ensures NamesOf(ForbiddenHooks) == ["useState", "useRef", "useContext", "useReducer", "useDebugValue"]
  {
  }

  /** Every failure the transform can end in. */
  datatype BuildError =
    | NoMarker                       // NO_MARKER_ERROR
    | SingleArgument                 // SINGLE_ARGUMENT_ERROR
    | ArrayLiteral                   // ARRAY_LITERAL_ERROR
    | SpreadOperator                 // SPREAD_OPERATOR_ERROR
    | ForbiddenHookUsed(name: string) // FORBIDDEN_HOOK_ERROR + ': ' + name
    | TooManyImports                 // TOO_MANY_IMPORTS
    | NoImportStatement              // NO_IMPORT_STATEMENT
    | NoDynamicImportPath            // NO_DYNAMIC_IMPORT_PATH
    | MultipleImports                // MULTIPLE_IMPORTS_ERROR
    | MissingFile(path: string)      // ENOENT from reading the importee
    | UndefinedProperty              // a TypeError: a property read on `undefined`
    | CallStackExceeded              // a RangeError: recursion without end

  /** The names `module.exports` lists, and the one that read-importee.js and index.js import besides. */
  datatype ConfigName =
    | BABEL_MARKER_COMMENT | EXTRA_DEPENDENCY_IDENTIFIER_NAME | ACCEPTED_HOOKS | FORBIDDEN_HOOKS
    | NO_MARKER_ERROR | SINGLE_ARGUMENT_ERROR | ARRAY_LITERAL_ERROR | SPREAD_OPERATOR_ERROR
    | FORBIDDEN_HOOK_ERROR | TOO_MANY_IMPORTS | NO_IMPORT_STATEMENT | NO_DYNAMIC_IMPORT_PATH
    | MULTIPLE_IMPORTS_ERROR | HOOKS_WITHOUT_DEPS

  const Exports: set<ConfigName> := {
    BABEL_MARKER_COMMENT, EXTRA_DEPENDENCY_IDENTIFIER_NAME, ACCEPTED_HOOKS, FORBIDDEN_HOOKS,
    NO_MARKER_ERROR, SINGLE_ARGUMENT_ERROR, ARRAY_LITERAL_ERROR, SPREAD_OPERATOR_ERROR,
    FORBIDDEN_HOOK_ERROR, TOO_MANY_IMPORTS, NO_IMPORT_STATEMENT, NO_DYNAMIC_IMPORT_PATH,
    MULTIPLE_IMPORTS_ERROR
  }

  /**
   * `HOOKS_WITHOUT_DEPS` is not exported, so destructuring it gives `undefined`
   * and `HOOKS_WITHOUT_DEPS.includes(name)` throws a TypeError.
   */
  lemma HooksWithoutDepsIsUndefined()
    ensures HOOKS_WITHOUT_DEPS !in Exports
    ensures forall n: ConfigName :: n != HOOKS_WITHOUT_DEPS ==> n in Exports
  {
  }
}
