# ConfigConsolidator — a Dafny model

ConfigConsolidator combines independently written configuration fragments
into one configuration object and works out which configuration members go
to which output layer (a Sass-variable layer, a JavaScript-constants layer, a
template layer). This project models its four operations as pure Dafny
functions and proves the behaviour its test suite asserts:

- `loadConfigs` (module `FragmentLoader`): the argument must be an array,
  otherwise the call fails with the verbatim message
  `loadConfigs must he supplied with an array`; each location is then
  resolved in order, and the first one that cannot be resolved aborts the
  call with a `Cannot find module` error.
- `mergeConfigs` (module `DeepMerger`): a left-to-right fold of the
  fragments' `data` objects into an empty object. At a key held by both
  sides: an opaque value (a `Color` instance) on either side is replaced
  whole by the later value; two arrays are concatenated, earlier items
  first; two plain objects are merged recursively; anything else is
  replaced by the later value. A key held by one side only is adopted
  unchanged.
- `allocateToLayers` (module `LayerAllocator`): folds the per-fragment
  `layer -> member names` maps into one map; each layer lists every member
  once, in the order the members were first declared for it.
- `processDeferredConfig` (modules `DeferredExpressions` and
  `DeferredEvaluator`): every top-level string value that begins with
  `!expression` is replaced by the value of the expression after it,
  evaluated with the configuration's own properties as variables; every
  other value passes through unchanged.

The contracts are derived from the assertions of
`test/ConfigConsolidator.spec.js`. That suite compares `merged.objects` with
`firstConfig.data.objects` (lines 80-87), so a fragment is modelled as a
record whose `data` property holds the configuration that gets merged.

Line 80 expects the merged `objects` array to have length 6 while lines
81-87 index seven positions. The fixture file is not part of this model;
with three items in each fixture array, line 87 compares two `undefined`
values and the suite is consistent. The model states the general rule
instead: the merged array is the concatenation, and its length is the sum of
the two lengths (`DeepMerger.MergeArraysConcatenate`).

Files: `Wrappers.dfy` (Option, Result), `ConfigValues.dfy` (the value
datatype), `DeepMerger.dfy`, `LayerAllocator.dfy`, `DeferredExpressions.dfy`
(lexer, parser, printer and evaluator of marker expressions),
`DeferredEvaluator.dfy`, `FragmentLoader.dfy`.

## Model

| member | source | states |
|---|---|---|
| `DeepMerger.MergeValue` | test/ConfigConsolidator.spec.js:79-99 | the merged value has the kind of the later value; an opaque value on either side means the later value is taken whole; two arrays give the earlier items followed by the later ones; two objects give an object holding the keys of both; in every other case (scalars, an array meeting an object, any mismatch) the later value replaces the earlier one |
| `DeepMerger.MergeMaps` | test/ConfigConsolidator.spec.js:79-99 | the merged object holds exactly the keys of both sides; a key only in the later object is adopted unchanged; a key only in the earlier object is kept unchanged; a key in both is merged by the same rules, recursively |
| `DeepMerger.MergeConfigs` | test/ConfigConsolidator.spec.js:75 | `mergeConfigs` itself: its result holds exactly the keys declared by the fragments; its values are pinned down by `MergeLastDeclarationWins`, `MergeArraysAcrossFragments` and the two-fragment lemmas below |
| `DeepMerger.MergeConfigsKeys` | test/ConfigConsolidator.spec.js:66-89 | a key is in the result of `mergeConfigs` exactly when some fragment's data declares it |
| `DeepMerger.MergeSingle` | test/ConfigConsolidator.spec.js:75 | merging a single fragment into the empty start object gives that fragment's data unchanged |
| `DeepMerger.MergePair` | test/ConfigConsolidator.spec.js:75 | merging `[first, second]` is one merge of the second fragment's data over the first's |
| `DeepMerger.MergeArraysConcatenate` | test/ConfigConsolidator.spec.js:79-87 | arrays under one key in two fragments merge to the first array followed by the second: order kept, length the sum, item i of the first at i, item j of the second at first-length + j |
| `DeepMerger.MergeAdoptsNewKey` | test/ConfigConsolidator.spec.js:88 | a key present only in the later fragment appears in the result with that fragment's value unchanged |
| `DeepMerger.MergeKeepsOldKey` | test/ConfigConsolidator.spec.js:66-89 | a key present only in the earlier fragment keeps its value: a later fragment changes nothing it does not name |
| `DeepMerger.MergeLaterScalarWins` | test/ConfigConsolidator.spec.js:95-99 | on a conflict where the later value is a scalar, the value from the fragment passed last is the result |
| `DeepMerger.MergeOpaqueIsAtomic` | test/ConfigConsolidator.spec.js:91-93 | when either side of a conflict is an opaque value, the later value is taken whole, never merged field by field; the result is opaque exactly when the later value is, and a colour exactly when the later value is a colour |
| `DeepMerger.MergeObjectsRecursively` | test/ConfigConsolidator.spec.js:79 | two plain objects under one key merge recursively: keys of both, values held by one side only adopted unchanged |
| `DeepMerger.MergeNestedArraysConcatenate` | test/ConfigConsolidator.spec.js:79-87 | arrays under the same key inside two merged objects are concatenated too, earlier items first |
| `DeepMerger.MergeLastDeclarationWins` | test/ConfigConsolidator.spec.js:95-99 | over any number of fragments, the last fragment declaring a key decides its value when that value is a scalar or opaque |
| `DeepMerger.MergeArraysAcrossFragments` | test/ConfigConsolidator.spec.js:79-87 | when every fragment declaring a key holds an array there, the merged value is the concatenation of all those arrays in fragment order |
| `LayerAllocator.FirstOccurrences` | test/ConfigConsolidator.spec.js:115-127 | reference definition of a deduplicated layer list: no duplicates, and exactly the elements of its input |
| `LayerAllocator.FirstOccurrencesOrder` | test/ConfigConsolidator.spec.js:115-127 | first-seen order: a member listed before another first occurs earlier in the declarations |
| `LayerAllocator.AddMember` | test/ConfigConsolidator.spec.js:115-127 | adding a member keeps a duplicate-free list duplicate-free, adds exactly that member, and keeps the old list as a prefix |
| `LayerAllocator.AddMembers` | test/ConfigConsolidator.spec.js:115-127 | adding a layer's declared members keeps the list duplicate-free, holds exactly the old and new members, and keeps the old list as a prefix |
| `LayerAllocator.AllocateOne` | test/ConfigConsolidator.spec.js:112 | one input's contribution names every layer of the accumulator and of the input, leaves layers the input does not name unchanged, and never shortens a layer's list |
| `LayerAllocator.AllocateToLayers` | test/ConfigConsolidator.spec.js:112-127 | `allocateToLayers` itself: its layers are exactly those named by some input and every layer list is free of duplicates; each list's contents and order are pinned down by `AllocatedMembers` and `FirstOccurrencesOrder` |
| `LayerAllocator.AddMembersFirstOccurrences` | test/ConfigConsolidator.spec.js:115-127 | adding members one by one to the first occurrences of what was seen gives the first occurrences of everything seen |
| `LayerAllocator.AllocatedLayers` | test/ConfigConsolidator.spec.js:115-127 | every layer named by any input is in the result, and no other layer is |
| `LayerAllocator.AllocatedMembers` | test/ConfigConsolidator.spec.js:115-127 | each layer's list is the first occurrences, in order, of all members declared for that layer across the inputs |
| `LayerAllocator.DeclaredMembers` | test/ConfigConsolidator.spec.js:115-127 | a member is declared for a layer exactly when some input lists it under that layer |
| `LayerAllocator.AllocatedLayersAreDistinctUnions` | test/ConfigConsolidator.spec.js:115-127 | for every layer named by an input: the layer is in the result, its list has no duplicates, and it holds exactly the members declared for it across all inputs |
| `LayerAllocator.AllocationOnlyAppends` | test/ConfigConsolidator.spec.js:115-127 | later inputs never remove or reorder members already allocated to a layer: the earlier list is a prefix of the final one |
| `DeferredExpressions.DigitsRoundTrip` | test/ConfigConsolidator.spec.js:143-149 | reading back the decimal digits of a number literal gives the number |
| `DeferredExpressions.Tokenize` | test/ConfigConsolidator.spec.js:143-149 | every name token the lexer produces is a valid property name |
| `DeferredExpressions.ParseTokens` | test/ConfigConsolidator.spec.js:143-149 | from valid tokens the parser only produces well-formed sums grouped to the left |
| `DeferredExpressions.Parse` | test/ConfigConsolidator.spec.js:143-149 | every expression the parser accepts is well-formed; with `ParseRoundTrip`, parsing inverts printing |
| `DeferredExpressions.Eval` | test/ConfigConsolidator.spec.js:143-149 | evaluation succeeds exactly when every property the expression names exists in the configuration and is a number |
| `DeferredExpressions.ParseTokensRoundTrip` | test/ConfigConsolidator.spec.js:143-149 | the token sequence of a well-formed sum parses back to the same expression |
| `DeferredExpressions.TokenizeRoundTrip` | test/ConfigConsolidator.spec.js:143-149 | rendered tokens are read back by the lexer as the same tokens |
| `DeferredExpressions.ParseRoundTrip` | test/ConfigConsolidator.spec.js:143-149 | printing a well-formed expression and parsing the text gives the expression back |
| `DeferredExpressions.EvalFrame` | test/ConfigConsolidator.spec.js:143-149 | an expression's value depends only on the properties it names |
| `DeferredEvaluator.Resolve` | test/ConfigConsolidator.spec.js:143-159 | a value that is not a marker is returned unchanged; a marker resolves exactly when its text parses and evaluates, to the number it evaluates to; a resolved value is never a marker |
| `DeferredEvaluator.ProcessDeferredConfig` | test/ConfigConsolidator.spec.js:133-163 | succeeds exactly when every marker parses and evaluates against the configuration; keeps the key set; passes non-marker values through; replaces each marker by its value; on failure names exactly the unresolved marker keys |
| `DeferredEvaluator.ProcessIdempotent` | test/ConfigConsolidator.spec.js:133-163 | processing an already resolved configuration again returns it unchanged |
| `DeferredEvaluator.NoMarkersUnchanged` | test/ConfigConsolidator.spec.js:153-159 | a configuration without markers is returned exactly as it is |
| `DeferredEvaluator.MarkerEvaluates` | test/ConfigConsolidator.spec.js:143-149 | a marker `!expression` followed by a printed expression resolves to that expression's value over the configuration |
| `DeferredEvaluator.ResolvesSingleMarker` | test/ConfigConsolidator.spec.js:143-149 | a configuration whose only marker holds a printed expression comes back with that key replaced by the value and everything else unchanged |
| `DeferredEvaluator.SumOfSiblings` | test/ConfigConsolidator.spec.js:143-149 | `{a: x, b: y, derivedValue: "!expression a + b"}` resolves to `{a: x, b: y, derivedValue: x + y}` (300 for 100 and 200) |
| `DeferredEvaluator.SumMarkerText` | test/ConfigConsolidator.spec.js:143-149 | the marker text of the sum of `a` and `b` is exactly `"!expression a + b"` |
| `FragmentLoader.NotFoundMessage` | test/ConfigConsolidator.spec.js:42-48 | the resolution failure message contains `Cannot find module` |
| `FragmentLoader.LoadEach` | test/ConfigConsolidator.spec.js:42-58 | loading succeeds exactly when every location resolves, giving one fragment per location in order; otherwise it fails at the first location that does not resolve, with that location's error |
| `FragmentLoader.LoadConfigs` | test/ConfigConsolidator.spec.js:24-40 | a non-array argument fails with exactly `loadConfigs must he supplied with an array`; an array never fails with that message; the empty array loads to no fragments; a resolution error's message contains `Cannot find module` |

## Left out

- Module and file resolution in `loadConfigs` is the host's module loader: it is the `resolve` parameter, which maps a location and an optional base directory to a fragment or to nothing; how the base directory is joined to the location is not modelled.
- `FragmentLoader.LoadEach`: a non-string array element is reported as `LocationTypeError`; the host loader's own error for it is not modelled.
- The asynchronous completion of `processDeferredConfig` is modelled as a synchronous `Result`; a rejected promise is an `Err`.
- Expression bodies are restricted to decimal integer literals, property names and `+`, grouped to the left and evaluated over unbounded integers. Floating point, string concatenation, type coercion, parentheses, other operators, function calls, reserved words and legacy octal literals of the host language are not modelled; a property reference to a non-number is an evaluation error.
- `DeferredEvaluator.ProcessDeferredConfig`: markers are resolved only at the top level of the configuration, against the configuration as passed in (a marker that names another marker fails); when several markers fail, the error carries the set of failing keys rather than the first one in key-insertion order.
- Objects are unordered maps: the key insertion order of the host's objects is not modelled.
- A `Color` value is an opaque value with a kind tag and an unexamined state; the colour library's behaviour is not modelled.
- Merged values are immutable values: cloning and sharing of input objects by the merge are not modelled.
- Argument validation of `mergeConfigs` and `allocateToLayers` is not modelled: their arguments are typed as sequences.
- The fixture module `test/fixtures/configFixtures` is not part of this model; every property is stated for all inputs.
- The test framework setup (chai, chai-as-promised, `beforeEach`) is not behaviour of the system.
