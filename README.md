# use-imported-hook, modelled in Dafny

use-imported-hook lets a React component load a custom hook lazily
(`useImportedHook(condition && import('./useThing.jsx'), ...)`) while the
sequence of hook calls React sees stays the same on every render. It has two
halves, and this project models both:

- **The Babel plugin** (`src/`). In the *importer* (the file that calls
  `useImportedHook`), it resolves the `import()` argument of the call
  (`ResolveImport`) and reads the imported file (the *importee*). In the
  importee it finds the declaration marked with the `@__IMPORTABLE_HOOK__`
  comment and records the accepted React hooks it calls, each with its
  dependency count (`ReadImportee`). It then inserts a *reserved-hooks
  argument* into the call: one slot `[hookName, [null, ...]]` per recorded
  hook. It also makes the file's `react` import import every recorded hook
  (`Transform`). When it compiles the importee, it gives the marked
  declaration a second parameter, the *synthetic dependency*
  `__importableHookAdditionalDependency`, and puts that identifier at the head
  of every accepted hook's dependency list (`Normalise`). The hook names, the
  marker and the error kinds live in `Config`. The static-initial-value check
  of `src/isNodeStaticValue.js` is `StaticValue`.
- **The runtime hook**, in two versions. The final one, `hook/index.jsx`
  (`ReplayShim`), takes separate stateful and stateless slot lists. The
  earlier one, `hook/index.js` (`LegacyReplayShim`), takes one list classified
  by hook name. Each is a per-component state machine (`HookInstance`).
  - `Render` is one call of the hook.
  - `OnResolved` is the callback the import promise runs.
  - `Unmount` is the cleanup of the unmount effect.
  - `trace` is the sequence of hook calls React has seen.
  - Until the module is loaded, a render replays placeholder calls, one per
    slot. After that it delegates to the loaded hook.

Shared vocabulary: `Ast` (the part of Babel's tree the plugin looks at, with
`Preorder` giving Babel's visiting order), `JsValues` (JavaScript values and
`new Array(n)`), `ReactHost` (hook calls, slots, the dependency token) and
`Wrappers` (`Option`, `Result`).

Errors are tags of `Config.BuildError`. Each failure the plugin can throw has
its own tag. So do the TypeErrors and RangeErrors the code runs into.

Where the code and the project's description differ, the model follows the code:

- `HOOKS_WITHOUT_DEPS` is imported by src/read-importee.js:8 but not exported
  by src/config.js:55-69. So a call in a marked declaration whose callee is in
  neither hook list throws a TypeError, and the `[name, null]` entry is never
  recorded (`Config.HooksWithoutDepsIsUndefined`, `ReadImportee.CallEntry`).
- src/index.js:55-66 emits one reserved-hooks argument at position 1, with
  each slot holding `depCount + 1` nulls. It does not emit a stateful/stateless
  split with arity numbers, and it does not emit `[]`. hook/index.jsx:54-60
  expects `(importPromise, args, defaultReturn, statefulSlots,
  statelessSlots)`. Only hook/index.js:65-70 takes the slots second, as the
  plugin emits them. `LegacyReplayShim.EmittedSlotReplaysTwoDependencies`
  shows what that runtime does with an emitted slot: `new Array([null, ...])`
  has one element, so every accepted hook gets a two-entry dependency list.
- `useState`, `useRef` and `useDebugValue` are forbidden by the importee
  analyser, yet both runtimes replay stateful slots. Both are modelled as written.

## Model

| member | source | states |
|---|---|---|
| Config.ParseHook | src/config.js:4-18 | a name parses to a hook exactly when it is that hook's React name; otherwise no hook has that name |
| Config.ParseHookName | src/config.js:4-18 | parsing a hook's name gives the hook back |
| Config.Classify | src/read-importee.js:30-33 | a callee name is accepted iff some accepted hook has it, forbidden iff some forbidden hook has it, and the hook found carries that very name |
| Config.HookListsPartition | src/config.js:4-18 | every hook is in exactly one of the two lists, so the forbidden check never shadows an accepted hook |
| Config.HookListContents | src/config.js:4-18 | the accepted and forbidden lists name exactly the five hooks each that the source lists, in the source's order |
| Config.HooksWithoutDepsIsUndefined | src/config.js:55-69 | the export list holds every configuration name except `HOOKS_WITHOUT_DEPS` |
| JsValues.NewArrayLength | hook/index.jsx:89 | a non-number gives a one-element array; a number gives an array only if it is a whole number below 2^32, and then of that length |
| JsValues.NewArrayLengthOfWholeNumber | hook/index.jsx:89 | every whole number below 2^32 is accepted as a length, unchanged |
| StaticValue.IsInitialStateValid | src/isNodeStaticValue.js:1-39 | a missing argument gives the empty descriptor; otherwise the node is accepted iff it evaluates to a constant and is not a non-empty array (where only an empty object literal counts as a constant), the descriptor stands for the value the node evaluates to, and an accepted identifier, `undefined` included, is named in its descriptor |
| StaticValue.NonEmptyArrayRefused | src/isNodeStaticValue.js:31-36 | the check is incomplete: `[0]` is a constant, yet it is refused |
| ReadImportee.SpreadCheck | src/read-importee.js:38-40 | no error iff no element is a spread or a hole; the error is the spread error or the TypeError of `null.type` |
| ReadImportee.SpreadCheckFirstOffender | src/read-importee.js:38-40 | the first element that is a hole or a spread decides the error: the spread error iff it is a spread, the TypeError of `null.type` iff it is a hole |
| ReadImportee.CountDeps | src/read-importee.js:41-43 | the count never exceeds the number of elements |
| ReadImportee.CountDepsAppend | src/read-importee.js:41-43 | the count of a concatenation is the sum of the counts, so every element counts on its own |
| ReadImportee.CallEntry | src/read-importee.js:29-51 | a forbidden hook fails with its name; an unlisted name fails on the undefined list; an identifier dependency list fails with the array-literal error; any other non-array node there fails reading `.elements`; an array list fails exactly when the spread check does, with the spread check's error; a success records the accepted hook's own name with the count of non-synthetic dependencies, 0 when there is no list |
| ReadImportee.ImporteeState.constructor | src/index.js:43-46 | the state starts with no hooks and no marker found |
| ReadImportee.ImporteeState.VisitCall | src/read-importee.js:29-51 | on error the hooks are unchanged; otherwise the call's entry is appended and nothing else changes |
| ReadImportee.ImporteeState.VisitDeclaration | src/read-importee.js:20-53 | an unmarked declaration changes nothing; a marked one sets `foundComment` and appends the scan of every call below it, in visiting order, or stops with the first error |
| ReadImportee.ScanCalls | src/read-importee.js:28-52 | the inner traversal records at most one entry per visited node |
| ReadImportee.ScanCallsFailsOnACall | src/read-importee.js:28-52 | the inner traversal succeeds iff every call's entry does, and otherwise throws the error of one of those calls |
| ReadImportee.Analyse | src/read-importee.js:20-53 | the outer traversal keeps a set `foundComment` set and the hooks recorded so far in front |
| ReadImportee.AnalyseFailsOnAScan | src/read-importee.js:20-53 | the outer traversal succeeds iff the scan of every marked declaration does, and otherwise throws the error of one of those scans |
| ReadImportee.AnalyseFile | src/read-importee.js:56-65 | a successful reading of a file reports the marker found iff some declaration in it carries the marker |
| ReadImportee.ImporteeState.Traverse | src/read-importee.js:56-65 | the state after the walk over a file is the analysis of its nodes in visiting order, or the first error |
| ReadImportee.ScanCallsAppend | src/read-importee.js:44-47 | scanning more nodes only appends entries after those already recorded |
| ReadImportee.ScanCallsRecordsAcceptedCalls | src/read-importee.js:31-50 | a successful scan records exactly one entry per accepted call, each an accepted hook with a count |
| ReadImportee.SyntheticDependencyNotCounted | src/read-importee.js:38-43 | putting the synthetic identifier first leaves the count and the spread check unchanged |
| ReadImportee.CountDepsWithoutSynthetic | src/read-importee.js:41-43 | without the synthetic identifier every element counts |
| ReadImportee.FoundCommentIffMarked | src/read-importee.js:20-27 | `foundComment` ends true iff it was already true or some visited declaration is marked, and earlier hooks are kept as a prefix |
| ResolveImport.FindImportArgument | src/resolve-import-statement.js:5-13 | an `import()` call gives its first argument; otherwise the callee chain is searched, then the object chain; other nodes give nothing |
| ResolveImport.FoundArgumentIsInside | src/resolve-import-statement.js:5-13 | what is found is the first argument of an `import()` call inside the node |
| ResolveImport.Search | src/resolve-import-statement.js:15-39 | the search throws only the too-many-imports error, or runs out of call stack while following identifiers |
| ResolveImport.SearchNodes | src/resolve-import-statement.js:17-36 | the same for the nodes still to visit |
| ResolveImport.ImportSearch.constructor | src/resolve-import-statement.js:15 | the shared state starts with no import |
| ResolveImport.ImportSearch.FindImportStatementNode | src/resolve-import-statement.js:15-39 | the held import after the traversal, or the error, is what the search over the nodes below the root gives, following bound identifiers |
| ResolveImport.SearchKeepsFound | src/resolve-import-statement.js:22-25 | once an argument is held, a successful search ends with that same argument |
| ResolveImport.SearchNodesKeepsFound | src/resolve-import-statement.js:22-25 | the same for the nodes still to visit |
| ResolveImport.ConflictRejected | src/resolve-import-statement.js:22-23 | with an argument held, a later call reaching a different argument makes the search fail with the too-many-imports error, or with the exhausted call stack; with the too-many-imports error whenever no identifier before that call is followed |
| ResolveImport.DistinctImportsRejected | src/resolve-import-statement.js:18-26 | two calls that reach different import arguments make the search fail, whatever was held before, with the too-many-imports error or the exhausted call stack; with the too-many-imports error whenever no identifier before the second call is followed |
| ResolveImport.NothingFoundMeansNoImport | src/resolve-import-statement.js:15-38 | a search that ends with nothing held visited no call that reaches an import |
| ResolveImport.SearchWithoutConflictKeeps | src/resolve-import-statement.js:18-25 | with no followed identifier, a search in which every call reaching an import reaches the argument held succeeds and keeps it: meeting the same node again is no error; with nothing held and no import, it ends with nothing |
| ResolveImport.SameImportFound | src/resolve-import-statement.js:18-25 | a search from nothing in which some call reaches an import, and all such calls reach the same node, ends with that node |
| ResolveImport.ThenChainSearchFindsImport | src/resolve-import-statement.js:15-39 | the search of `useImportedHook(import(p).then(() => {}))` finds `p`, although two calls reach it |
| ResolveImport.ThenChainResolvesToImport | src/resolve-import-statement.js:9-12 | `import(x).then(f)` resolves to `x` |
| Transform.Slot | src/index.js:56-65 | the slot of an entry reads back as that entry |
| Transform.ReserveArgument | src/index.js:55-65 | one slot per recorded hook, in order, each reading back as its hook |
| Transform.ReserveArgumentReadsBack | src/index.js:55-65 | the whole reserved-hooks argument decodes to exactly the recorded list |
| Transform.ReserveArgumentInjective | src/index.js:55-65 | different hook lists give different arguments |
| Transform.BuildReserveArgument | src/index.js:55-65 | the loop builds the reserved-hooks argument of the list |
| Transform.SpliceReserve | src/index.js:66 | the argument is inserted at index 1 (index 0 when there is none), the others keep their order |
| Transform.FindReactImport | src/index.js:73-75 | the first import whose source lower-cases to `react`, or none iff there is no such import |
| Transform.Merged | src/index.js:80-89 | the existing specifiers stay in front, and at most one specifier is added per name |
| Transform.MergedImportsEveryName | src/index.js:80-89 | existing specifiers stay in front; every name is imported; each added specifier is a missing name, added once |
| Transform.MergedAlreadyImported | src/index.js:80-89 | names already imported add nothing |
| Transform.MergedIdempotent | src/index.js:80-89 | merging the same names twice is merging them once |
| Transform.MergeSpecifiers | src/index.js:80-89 | the loop gives the merged specifier list |
| Transform.MergeReactImport | src/index.js:72-89 | the first React import is updated in place and nothing else changes; without one, a new React import is put first |
| Transform.MergeReactImportImportsAll | src/index.js:72-89 | afterwards the program's first React import imports every name |
| Transform.MergeReactImportIdempotent | src/index.js:72-89 | a second merge of the same names changes nothing |
| Transform.ImportPath | src/index.js:27-34 | a path exactly when the search finds a string literal, that literal's value; otherwise the resolver's error, the no-import error when nothing is found, or the non-literal-path error |
| Transform.PlanCall | src/index.js:22-53 | other calls are skipped; then, in order: the path's error, a second rewritten call refused, a missing importee file, the importee analysis' error, the no-marker error; a call passing every check is rewritten with the importee's hooks, and only such a call is |
| Transform.ImporterPass.constructor | src/index.js:35-38 | a pass starts with no import processed |
| Transform.ReadImporteeHooks | src/index.js:40-52 | a missing file, the analysis' own error, or an unmarked importee fail in that order; a marked importee gives the hooks its analysis records |
| Transform.ImporterPass.ImportHooks | src/index.js:72-89 | the program becomes the merge of the names into its React import, added first when there is none |
| Transform.ImporterPass.VisitCallExpression | src/index.js:22-90 | the visit fails with the plan's error, or skips, or returns the arguments with the reserved-hooks argument spliced in and leaves the program with every recorded hook imported from React, untouched when there are none; `foundImport` is set by the first call that reaches a literal path; an error leaves the program unchanged |
| Transform.RewrittenCallCarriesHooks | src/index.js:66 | the rewritten call's second argument decodes to the recorded hooks and its first is unchanged |
| Normalise.NormaliseParams | src/index.js:101-113 | refused iff a second parameter other than the synthetic one exists; otherwise at least two parameters, the second synthetic; none becomes `[{}, synthetic]`, one gets the synthetic added |
| Normalise.NormaliseParamsIdempotent | src/index.js:105-113 | normalising the parameters again changes nothing |
| Normalise.AddDependency | src/index.js:117-131 | only accepted hooks change; a missing list becomes `[synthetic]`; a literal list gets the synthetic identifier at its head exactly once; other arguments are kept |
| Normalise.AddDependencyKeepsEntry | src/index.js:117-131 | the rewrite of a call is idempotent and leaves the analyser's entry for it unchanged |
| Normalise.NormaliseDeps | src/index.js:116-132 | the rewrite keeps every node's kind, and identifiers as they are |
| Normalise.NormaliseAll | src/index.js:116-132 | a list is rewritten element by element, keeping its length |
| Normalise.NormaliseDepsKeepsSynthetic | src/index.js:126-128 | a node becomes the synthetic identifier iff it was it |
| Normalise.NormaliseDepsIdempotent | src/index.js:116-132 | normalising a normalised tree changes nothing |
| Normalise.NormaliseAllIdempotent | src/index.js:116-132 | the same for a list of nodes |
| Normalise.NormalisedCallIdempotent | src/index.js:117-131 | a normalised call is normal |
| Normalise.AddDependencyKeepsNormal | src/index.js:117-131 | what the rewrite adds is already normal |
| Normalise.NormaliseKeepsSpreadCheck | src/index.js:116-132 | normalising a dependency list keeps its spread check |
| Normalise.NormaliseKeepsCountDeps | src/index.js:116-132 | normalising a dependency list keeps its count |
| Normalise.NormaliseKeepsCallEntry | src/index.js:117-131 | a normalised call gives the analyser the same entry |
| Normalise.NormaliseKeepsAnalysis | src/index.js:116-132 | normalising a tree leaves what the analyser records from it unchanged: the same entries, in order, or the same error |
| Normalise.NormaliseAllKeepsAnalysis | src/index.js:116-132 | the same for a list of nodes |
| Normalise.NormaliseDeclaration | src/index.js:93-133 | an unmarked declaration is unchanged; a default export without parameters is a TypeError; otherwise it fails iff its parameters are refused, and then with the single-argument error |
| Normalise.NormaliseDeclarationIdempotent | src/index.js:101-133 | a normalised marked declaration stays marked, has the synthetic identifier as second parameter, and normalises to itself |
| Normalise.ParamsKeepAnalysis | src/index.js:105-113 | the added parameters hold no call the analyser sees |
| Normalise.NormaliseDeclarationKeepsAnalysis | src/index.js:93-133 | compiling the importee does not change what the importer reads from the declaration |
| ReactHost.Prefix | hook/index.jsx:61-67 | every render starts with the same five hook calls |
| ReactHost.Token | hook/index.jsx:85 | the token is the two words run together: its first letter spells whether there is a promise, the letter after that word spells `loaded` |
| ReactHost.TokenInjective | hook/index.jsx:85 | the token tells every pair of (promise present, loaded) apart |
| ReactHost.DepsCall | hook/index.jsx:89 | the dependency list has n + 1 entries, the token first and nulls after |
| ReplayShim.StatefulCalls | hook/index.jsx:80-83 | one call per stateful slot, in order, with its value |
| ReplayShim.InitialStates | hook/index.jsx:80-83 | `initialStates` matches the stateful calls in length and order |
| ReplayShim.StatelessCall | hook/index.jsx:88-92 | a number n gives a dependency list of n + 1 headed by the token, or a RangeError; anything else gives a call without arguments |
| ReplayShim.StatelessReplay | hook/index.jsx:87-93 | never more calls than slots |
| ReplayShim.StatelessReplayCallsEachSlot | hook/index.jsx:87-93 | each slot is called once, in order, up to the first that throws; the replay completes iff none throws |
| ReplayShim.NonNumericSlotsCalledBare | hook/index.jsx:87-93 | non-number slot values, such as the arrays the plugin emits, give one bare call per slot |
| ReplayShim.HookInstance.constructor | hook/index.jsx:61-64 | the first render's state: not loaded, not loading, mounted |
| ReplayShim.HookInstance.Render | hook/index.jsx:54-98 | the prefix, then the stateful calls; without a module or without a promise, the stateless replay and `defaultReturn`; otherwise the imported hook's result on `args`, the token and `initialStates`; the import is registered at most once |
| ReplayShim.HookInstance.CallStateful | hook/index.jsx:80-83 | the stateful calls are appended to the trace and their results collected |
| ReplayShim.HookInstance.CallStateless | hook/index.jsx:86-93 | the trace grows by the stateless replay's calls |
| ReplayShim.HookInstance.OnResolved | hook/index.jsx:71-77 | while mounted, stores the default export and sets loaded iff there is one; after unmount changes nothing |
| ReplayShim.HookInstance.Unmount | hook/index.jsx:65-67 | clears `isMounted` only |
| LegacyReplayShim.StatelessHooksAreAcceptedHooks | hook/index.js:7-13 | the runtime's stateless list is the plugin's accepted list, in the same order |
| LegacyReplayShim.StatelessIffAccepted | hook/index.js:7-13 | a name is in the runtime's stateless list iff the plugin accepts it |
| LegacyReplayShim.KindOf | hook/index.js:96-103 | a slot is stateless iff its name is an accepted hook's name, stateful iff it is `useState` or `useRef`, and otherwise called bare |
| LegacyReplayShim.SlotCall | hook/index.js:95-103 | the call shape is chosen by the hook's name: a dependency list of value + 1 headed by the token, a call with the value, or a bare call |
| LegacyReplayShim.SlotReplay | hook/index.js:93-104 | never more calls than slots |
| LegacyReplayShim.SlotReplayCallsEachSlot | hook/index.js:93-104 | each slot is called once, in order, up to the first that throws; complete iff none throws |
| LegacyReplayShim.HookInstance.constructor | hook/index.js:71-74 | the first render's state |
| LegacyReplayShim.HookInstance.Render | hook/index.js:65-108 | not loaded: the prefix, the replay of every slot, `defaultReturn`; loaded: no slot replayed even without a promise, the imported hook gets an empty `initialStates`; the import is registered at most once |
| LegacyReplayShim.HookInstance.CallSlots | hook/index.js:95-103 | the trace grows by the replay's calls |
| LegacyReplayShim.HookInstance.OnResolved | hook/index.js:81-87 | while mounted, stores the default export and sets loaded iff there is one; after unmount changes nothing |
| LegacyReplayShim.HookInstance.Unmount | hook/index.js:75-77 | clears `isMounted` only |
| LegacyReplayShim.NullLiteralsEvaluate | src/index.js:61 | the emitted null literals evaluate to as many nulls |
| LegacyReplayShim.EmittedValue | src/index.js:56-65 | the run-time value of an emitted slot's second element |
| LegacyReplayShim.EmittedSlotReplaysTwoDependencies | hook/index.js:97 | an emitted accepted-hook slot is replayed with exactly two dependencies, the token and one null |

## Left out

- Reading, parsing and traversing files (`fs.readFileSync`, `@babel/parser`, `@babel/traverse`, `path.dirname`/`join`) is not modelled. Importee files are a map from the literal import path to the parsed tree, and a path missing from it is `MissingFile`.
- Babel's scope analysis is not modelled. A binding is a map from a name to its declaring node, with a single scope per search. A declaration is compared with the search root by value, not by object identity.
- Node identity is modelled by the `id` of a call expression, and the ids of distinct calls are taken to be distinct. Two different `import()` calls given the same id and the same argument would count as one node, where the source refuses them as two imports.
- A default-exported function expression is written as `ArrowFunction`, which stands for any function expression.
- `ResolveImport.Search`: binding cycles overflow the stack in the source. The model bounds the recursion by `fuel` and reports `CallStackExceeded`, so a search that needs more depth than the fuel allows is not modelled.
- Error messages and `buildCodeFrameError` locations are not modelled. Each error is a tag.
- `Transform.Lower`: `toLowerCase` is modelled on ASCII letters only.
- Promises, React's hook implementations and `console.log` are not modelled. `OnResolved` is called by the environment, and React's answers to stateful calls are a parameter of `Render`.
- A loaded module is an opaque function value. The destructuring `[hook, value]` of a slot that is not an array is not modelled.
- hook/index.d.ts holds type declarations only, and test/index.spec.js is the test harness; neither is part of this model.
- Normalise.NormaliseDeclaration: Babel rewrites the declaration in place while walking it. The model computes the rewritten declaration as a value. Only one declaration is modelled, not the walk over the whole importee file.
- Transform.ImporterPass.VisitCallExpression: the call's new argument list is returned, not written back into the call node.
- The 5-argument emission with stateful and stateless partitions, and decoding initial values back into syntax, are not implemented by src/index.js and are not modelled.
- `StaticValue.IsInitialStateValid` is not called by any part of the plugin, so it is modelled on its own.
- LegacyReplayShim.HookInstance.Render: the results of stateful calls in the not-loaded branch go into an `initialStates` that is never used, so only the calls are kept.
