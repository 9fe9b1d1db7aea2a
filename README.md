# Config simplifier of webpack-config-dump-plugin, in Dafny

The plugin dumps a webpack configuration to a file. Before rendering it, the
plugin *simplifies* the configuration into a pruned copy:

- functions are dropped, or named;
- falsy values and empty containers are pruned;
- the traversal stops at a depth bound;
- when there is no bound, cycles and shared containers become
  `<<Circular reference to 'config.a.b'>>` labels.

The repository has two simplifiers, and this project models both:

- **Main variant** (`simplifyLevel` in `src/index.ts`).
  - Module `Simplify` gives it as a function, `Level` / `Run`. The function threads the `references` table through the traversal explicitly.
  - Module `Simplifier` gives it as the source runs it. Class `Traversal` holds the shared `references` table as a mutable field. Method `SimplifyLevel` recurses, and the loop methods `ReduceItems` / `ReduceFields` build each container's result step by step. Each method is proved to return exactly what `Level` / `Run` return and to leave the table exactly as they leave it.
  - Module `SimplifyProps` proves what the code promises about `Level`:
    - the dispatch order (depth cut, function, container, RegExp, scalar);
    - the child filtering rules;
    - the `empty` flag and the `null` it causes;
    - the back-reference labels and their interplay with `empty`;
    - in bounded mode, that no lookup happens, shown by equality with a table-free reference definition `Tree`;
    - the height bound;
    - that each container is registered at most once;
    - that every path is registered at most once.
  - Module `Config` models the constructor's option resolution and depth validation, and the depth that `dumpConfig` passes on.
- **Legacy variant** (`_simplifyLevel` in `index.js`). Module `Legacy` models it as pure recursive functions with lemmas. It has a depth bound only: no cycle detection and no flags.

Module `Scenarios` evaluates the model on concrete configurations. These come from the repository's tests (`src/index.spec.ts`):

- the legacy depth cuts at 3 and at the default 4;
- the empty configuration, `undefined`, and an object holding only a function;
- falsy children, and an emptied object that the legacy variant keeps.

Two examples are the model's own: a self-referencing loop, labelled `config.foo.loop`, and the path `rules` then index 12, written `config.rules.[12]`. The module also holds general one-level lemmas about the legacy variant that the concrete cases are built from: `AllTruthyObject`, `AllTruthyArray`, `TwoItems`, `OneField`, `TwoFields` and `NoFields`.

Both variants are idempotent. Simplifying a snapshot again, written back as a configuration, with the same depth and flags, returns it unchanged. `Legacy.Idempotent` proves this for the legacy variant, and `SimplifyProps.BoundedIdempotent` for the main variant with a depth bound.

Modelling choices:

- **The configuration graph.** It is a heap `map<nat, Container>` of arrays and objects. Object keys are kept in insertion order. A value is a scalar, a RegExp (its source), a function (its name) or a `Ref` to a container. A container is identified by its heap address, so this is identity, as `===` uses it.
- **Numbers.** Numbers are integers, and `0` is the only falsy number.
- **The `references` record.** It is a sequence of entries `(path, link, empty)` in insertion order. `getRef` searches `Object.keys(references)` in that order. Every key starts with `config`, so no key is integer-like and JavaScript keeps insertion order.
- **Paths.** A path is a sequence of steps, `.key` into an object or `.[i]` into an array. `PathString` renders it the way the source builds the record key. Two different paths can render the same string: the object key `a.b` renders like the two steps `a` then `b`, and the object key `[0]` renders like the array index `0`. The model keys its entries by the structured path. `SimplifyProps.PathsUnique` proves that one traversal never registers the same path twice. `SimplifyProps.RecordKeysDistinct` proves more: when no object key contains `.`, the rendered keys of one traversal are pairwise different too. In that case `references[path] = newRef` never overwrites an entry, and the sequence of entries is exactly the source's record.
- **Termination in unbounded mode.** The measure is the number of heap containers not yet in the table. Each new registration lowers it, and `SimplifyProps.RegisteredOnce` proves that no container is registered twice.

## Model

| member | source | states |
|---|---|---|
| Labels.FunctionLabel | src/index.ts:22-24 | the label is the prefix `<<Function '`, then exactly the name, then the suffix `'>>`, and nothing else |
| Labels.ReferenceLabel | src/index.ts:18-20 | the label is the prefix `<<Circular reference to '`, then exactly the path, then the suffix `'>>`, and nothing else |
| Labels.FunctionLabelInjective | src/index.ts:22-24 | different function names give different labels |
| Labels.ReferenceLabelInjective | src/index.ts:18-20 | different paths give different circular-reference labels |
| Labels.LabelsDistinct | src/index.ts:18-24 | a function label is never a circular-reference label |
| Labels.PathString | src/index.ts:117 | the key built step by step (`config`, then `${path}.${key}` or `${path}.[${ind}]` per step) equals `config` followed by the steps written out left to right |
| Labels.Rendered | src/index.ts:151 | the written-out steps are empty exactly for the empty path, and otherwise start with `.` |
| Labels.NatToString | src/index.ts:151 | an index is written as a non-empty string of decimal digits, of one digit exactly when it is below 10, that read from the most significant digit on (`DigitsValue`) denotes the index |
| Labels.NatToStringInjective | src/index.ts:151 | different indexes are written differently |
| Labels.SegTextDecode | src/index.ts:190 | a step of the same kind (two keys without `.`, or two indexes) followed by the rest of a path can be read back: equal texts mean equal steps and equal rests |
| Values.Scalar | src/index.ts:205 | a scalar is copied unchanged and keeps its JavaScript truthiness |
| Simplify.GetRef | src/index.ts:26-33 | the index found is the first entry linked to the container; nothing is found exactly when no entry is linked to it |
| Simplify.Level | src/index.ts:111-206 | entries are only ever appended to `references`, never removed (the table before is a prefix of the table after) |
| Simplify.Formatted | src/index.ts:160-163 | the `empty` flag (`newRef.empty`) is set iff no child passes `value \|\| includeFalseValues`; the level is `null` iff the flag is set and falsy values are dropped; otherwise an array gives an array and an object an object (the object case is src/index.ts:199-202) |
| Simplify.Mark | src/index.ts:160 | setting the flag keeps the table before registration as a prefix and does not change the table's length |
| Simplify.Run | src/index.ts:144-158 | one simplified value per child, and the table only grows |
| Simplify.KeepItemsAppend | src/index.ts:154-156 | pushing one more simplified item keeps it exactly when `value \|\| includeFalseValues` |
| Simplify.KeepFieldsAppend | src/index.ts:193-195 | storing one more simplified field keeps it exactly when `value \|\| includeFalseValues` |
| Simplify.Simplified | src/index.ts:70-82 | the whole call starts at level 0: with depth 0 the result is `null`; a scalar configuration is `null` exactly when falsy (falsy values dropped); a RegExp comes back unchanged |
| Simplify.KeptItems | src/index.ts:154-156 | the kept items are a subsequence of the simplified children, with exactly as many elements as there are children satisfying `value \|\| includeFalseValues`; every such child is kept and no other; nothing is kept exactly when no child satisfies it; with `includeFalseValues` all are kept |
| Simplify.KeptFields | src/index.ts:193-195 | the kept (key, value) pairs are a subsequence of the children's pairs, as many as there are passing values; a key is kept with its simplified value exactly when that value satisfies `value \|\| includeFalseValues`; nothing is kept exactly when no value satisfies it; with `includeFalseValues` every key is kept |
| Simplifier.Traversal.constructor | src/index.ts:118 | a traversal starts with the empty `references` record |
| Simplifier.Traversal.SimplifyLevel | src/index.ts:111-206 | returns what `Level` returns and leaves `references` as `Level` leaves it |
| Simplifier.Traversal.Register | src/index.ts:138-164 | registering an unseen container appends its entry, runs the loop over its children, records whether nothing was kept, and returns and leaves exactly what `Level` does |
| Simplifier.Traversal.ReduceItems | src/index.ts:144-158 | the array loop returns the kept simplified items in index order and leaves `references` as `Run` does |
| Simplifier.Traversal.ReduceFields | src/index.ts:183-197 | the object loop returns the kept (key, value) pairs in key order and leaves `references` as `Run` does |
| Simplifier.SimplifyConfig | src/index.ts:70-82 | the top-level call on a fresh table returns `Simplified` |
| SimplifyProps.DepthCut | src/index.ts:120-124 | at `currentDepth === depth` every value, functions and RegExps included, becomes `null`, and the table is untouched |
| SimplifyProps.FunctionRule | src/index.ts:126-129 | a function becomes exactly `<<Function 'name'>>` when `showFunctionNames` is set and `null` otherwise |
| SimplifyProps.RegexRule | src/index.ts:166-168 | a RegExp is returned unchanged, with no pruning, whatever `includeFalseValues` says |
| SimplifyProps.ScalarRule | src/index.ts:205 | a scalar is returned unchanged when truthy or when `includeFalseValues` holds, and is `null` otherwise |
| SimplifyProps.ContainerRule | src/index.ts:138-164 | a newly met container is registered at its path, and its `empty` flag is set iff nothing was kept. The result is `null` iff no child satisfies `value \|\| includeFalseValues` and falsy values are dropped. Otherwise the array result is a subsequence of the simplified children holding exactly those that satisfy it, and the object result holds a key with its simplified value exactly when the value satisfies it, in key order. Each result has exactly as many elements as there are passing children, so a repeated item is kept as often as it passes. With `includeFalseValues` nothing is dropped |
| SimplifyProps.BackReference | src/index.ts:132-137 | in unbounded mode a container already in the table gives the label of the first matching path, or `null` when that entry is empty and falsy values are dropped; the table is unchanged |
| SimplifyProps.CycleBackToAncestor | src/index.ts:170-181 | meeting an ancestor that is still being expanded yields `<<Circular reference to '<its path>'>>` |
| SimplifyProps.BoundedLevelIsTree | src/index.ts:132-133 | with a depth bound no lookup happens: the result equals the table-free reference definition `Tree` |
| SimplifyProps.BoundedRunIsTrees | src/index.ts:144-158 | with a depth bound, the children's values equal the reference definition's |
| SimplifyProps.TreeHeight | src/index.ts:120-124 | no branch of the reference tree holds more containers than the levels left |
| SimplifyProps.BoundedHeight | src/index.ts:120-124 | with a depth bound, no output branch is deeper than `depth - currentDepth` containers |
| SimplifyProps.RegisteredOnce | src/index.ts:132-142 | in unbounded mode no container is registered twice |
| SimplifyProps.RunRegisteredOnce | src/index.ts:144-158 | the same across the children of one container |
| SimplifyProps.PathsUnique | src/index.ts:142 | no path is registered twice, and every entry added lies at or below the current path |
| SimplifyProps.RegisterPathsUnique | src/index.ts:181 | the same for a newly registered container |
| SimplifyProps.RunPathsUnique | src/index.ts:183-192 | the same across the children of one container |
| SimplifyProps.SegsDistinct | src/index.ts:151 | different children of one container get different path steps |
| SimplifyProps.WholeRun | src/index.ts:70-82 | a whole `simplifyConfig` call from an empty record: with a bound the snapshot is no deeper than the bound; no path is registered twice; in unbounded mode no container is registered twice |
| SimplifyProps.LevelWalks | src/index.ts:142-190 | every entry one call adds lies at or below the call's path, and the rest of its path leads from the value through the heap, one child per step |
| SimplifyProps.WalksInjective | src/index.ts:183-190 | when no object key contains `.`, two walks from one value that render the same are the same walk |
| SimplifyProps.TreeSettled | src/index.ts:111-206 | with a depth bound every snapshot is settled: `null` at the cut; above it a falsy scalar or an empty container only when falsy values are kept; every child kept and settled one level down |
| SimplifyProps.SettledUnchanged | src/index.ts:111-206 | with a depth bound, a configuration written like a settled snapshot simplifies to that snapshot |
| SimplifyProps.SettledArrayUnchanged | src/index.ts:138-164 | the same for an array |
| SimplifyProps.SettledObjectUnchanged | src/index.ts:170-202 | the same for an object |
| SimplifyProps.BoundedIdempotent | src/index.ts:70-82 | with a depth bound, simplifying again with the same options any configuration written like a snapshot returns that snapshot |
| SimplifyProps.RecordKeysDistinct | src/index.ts:181 | when no object key contains `.`, the entries of one whole traversal have pairwise different path strings, so `references[path] = newRef` never overwrites an entry |
| Config.NewPlugin | src/index.ts:42-52 | fails iff a negative depth is given, with the `[wcd] The "depth" option should be a positive number` message. An omitted or zero depth becomes 4, and a positive depth is kept. The output path is the option when given non-empty, else `./`; the name likewise, else `webpack.config.dump`. Each flag is set exactly when the option is `true` |
| Config.DumpDepth | src/index.ts:94 | the traversal depth is `null` exactly when `keepCircularReferences` is set, and the plugin's depth otherwise |
| Config.OptionsDumpDepth | src/index.ts:94 | for options the constructor accepts, `dumpConfig` passes no bound exactly when `keepCircularReferences: true` was given, and otherwise a positive depth, the given one when it is positive |
| Config.DumpSnapshot | src/index.ts:94-100 | the snapshot handed to the renderer is no deeper than the plugin's depth unless circular references are kept |
| Legacy.Children | index.js:47-56 | one simplified value per child |
| Legacy.SimplifyLevel | index.js:37-74 | at the cut the result is `undefined`; above it a RegExp becomes `{}`; an array result is non-empty; every kept item and field value is truthy |
| Legacy.SimplifyConfig | index.js:33-35 | an omitted depth is 4; depth 0 gives `undefined`; the snapshot is no deeper than the depth |
| Legacy.Height | index.js:37-40 | no output branch is deeper than the levels left, so the recursion ends even on a cyclic graph |
| Legacy.FunctionDropped | index.js:42-44 | a function is always dropped (`undefined`), whatever its name |
| Legacy.ScalarUnchanged | index.js:73 | above the bound a scalar is returned unchanged, falsy ones included |
| Legacy.ArrayRule | index.js:46-58 | an array result is `undefined` iff no simplified item is truthy; otherwise it is the subsequence of the simplified items that are truthy, holding every truthy one, with as many elements as there are truthy items |
| Legacy.KeptTruthy | index.js:51-53 | filtering keeps a subsequence with as many elements as there are truthy values, all truthy, every truthy value included; it is empty iff none is truthy |
| Legacy.ObjectRule | index.js:60-71 | an object is always returned; its pairs are a subsequence of the (key, simplified child) pairs, as many as there are truthy values, so each kept key carries its own child's value; it keeps a pair iff the value is truthy, and the keys are a subsequence of the input keys |
| Legacy.SimplifiedSettled | index.js:37-74 | every snapshot is settled: `undefined` at the cut; above it no RegExp, no empty array, every child truthy and settled one level down |
| Legacy.SettledUnchanged | index.js:37-74 | a configuration written like a settled snapshot simplifies to that snapshot |
| Legacy.SettledArrayUnchanged | index.js:46-58 | the same for an array |
| Legacy.SettledObjectUnchanged | index.js:60-71 | the same for an object |
| Legacy.Idempotent | index.js:33-35 | simplifying again with the same depth any configuration written like a snapshot returns that snapshot |
| Legacy.CutObjectEmpty | index.js:60-71 | an object one level above the cut comes back as `{}`, because each of its values hits the cut at index.js:38-40 and is dropped |
| Scenarios.LegacyDropsFalsyChildren | src/index.spec.ts:107-110 | `{ foo: 9000, bar: 0 }` becomes `{ foo: 9000 }` |
| Scenarios.LegacyCutsInsideArrayItems | src/index.spec.ts:156-165 | at depth 3, `{ foo: [{ some: "state" }, { bar: { oof: 20 } }] }` becomes `{ foo: [{}, {}] }` |
| Scenarios.LegacyDefaultDepthArrays | src/index.spec.ts:138-143 | with the default depth 4, `{ foo: [{ some: "state" }, { bar: { oof: 20 } }] }` becomes `{ foo: [{ some: "state" }, { bar: {} }] }` |
| Scenarios.LegacyDefaultDepthCut | src/index.spec.ts:131-136 | with the default depth 4, the level-4 content is cut and `some` stays as `{}` |
| Scenarios.LegacyDepthThreeNested | src/index.spec.ts:145-154 | at depth 3, the nested configuration becomes `{ foo: { bar: {} } }` |
| Scenarios.LegacyEmptyConfig | src/index.spec.ts:79-82 | `{}` stays `{}` |
| Scenarios.LegacyUndefinedConfig | src/index.spec.ts:89-92 | `undefined` stays `undefined` |
| Scenarios.LegacyFunctionOnlyConfig | src/index.spec.ts:94-97 | `{ foo: () => {} }` becomes `{}` |
| Scenarios.LegacyKeepsEmptyObject | src/index.spec.ts:126-129 | `{ foo: {}, bar: { test: 1 } }` comes back whole, the empty object included |
| Scenarios.AllTruthyObject | index.js:60-71 | an object level all of whose simplified values are truthy keeps every key with its simplified value, in order |
| Scenarios.AllTruthyArray | index.js:46-58 | an array level all of whose simplified items are truthy keeps every item, in order |
| Scenarios.TwoItems | index.js:46-58 | a two-item array whose items simplify to truthy values becomes the array of those two values |
| Scenarios.OneField | index.js:60-71 | a one-field object whose value simplifies to a truthy value keeps that field |
| Scenarios.TwoFields | index.js:60-71 | a two-field object whose values simplify to truthy values keeps both fields, in order |
| Scenarios.NoFields | index.js:60-71 | an empty object above the cut stays `{}` |
| Scenarios.IndexPath | src/index.ts:151 | the path `rules` then index 12 is written `config.rules.[12]` |
| Scenarios.MainCycleLabel | src/index.ts:170-181 | in unbounded mode, `{ foo: { oof: 20, loop } }` with `loop = { key: loop }` gives `key` the label `<<Circular reference to 'config.foo.loop'>>` |
| Scenarios.MainEmptyConfig | src/index.ts:199-202 | the main simplifier turns `{}` into `null` unless falsy values are kept (the test at src/index.spec.ts:79-82 expects `{}`) |
| Scenarios.MainUndefinedConfig | src/index.ts:205 | `undefined` becomes `null` unless falsy values are kept (the test at src/index.spec.ts:89-92 expects `undefined`) |
| Scenarios.MainFunctionOnlyConfig | src/index.ts:183-202 | `{ foo: () => {} }` without function names becomes `null` (the test at src/index.spec.ts:94-97 expects `{}`) |

## Left out

- File-system I/O in `dumpConfig` is not modelled: the existence check, `mkdirSync`, `writeFileSync`, and the log-and-return error paths (src/index.ts:84-109, index.js:16-31). It is I/O with no algorithmic content. `Config.DumpSnapshot` models only the value that `dumpConfig` hands to the renderer.
- Rendering through `util.inspect` (`getDump`, src/index.ts:58-68) is not modelled. It is a foreign library call.
- Logging through `webpack-log` and the `apply` compiler hook are not modelled.
- The legacy constructor (index.js:6-10) is not modelled. Its depth resolution is the main constructor's without the negative check.
- JavaScript numbers are modelled as integers, so NaN, `-0` and fractional values are not modelled. A fractional `depth` never equals an integer level, and the cut never fires.
- A negative depth passed directly to the main `simplifyConfig` is not modelled: `Simplify.Options` holds an `Option<nat>`. The constructor rejects a negative depth, so `dumpConfig` never passes one; a direct call with one would never reach the cut.
- Idempotence of the main variant in unbounded mode is not proved. There the result depends on the `references` record. A configuration written like the snapshot may reach one container along two paths where the snapshot has two copies, and the second path would then become a label. Only tree-shaped configurations would give the snapshot back.
- A negative depth in the legacy variant is not modelled: the recursion would never reach the cut. `Legacy.SimplifyLevel` takes a `nat` depth.
- Object keys containing `.` are not modelled faithfully. The source keys `references` by the rendered path string, so `{ "a.b": x, a: { b: y } }` renders two paths the same way, and the second registration overwrites the first. The model keys entries by structured path, which stay distinct. `SimplifyProps.RecordKeysDistinct` shows the two agree whenever no key contains `.`.
- Property order for integer-like object keys is not modelled. JavaScript enumerates such keys first, in ascending order, but the model keeps each object's keys in the given order.
- Lodash's type tests (`isFunction`, `isRegExp`, `isObject`, `Array.isArray`) are replaced by the constructors of `Value`. Other objects (class instances, `Date`, `Map`) are not distinguished from plain objects.
- Several test expectations do not hold of `src/index.ts`, and the model follows that file's code. Called with one argument, the main `simplifyConfig` runs unbounded:
  - `{}` staying `{}` at src/index.spec.ts:79-82: the main simplifier gives `null` (`Scenarios.MainEmptyConfig`);
  - `undefined` staying `undefined` at src/index.spec.ts:89-92: it gives `null` (`Scenarios.MainUndefinedConfig`);
  - `{ foo: () => {} }` becoming `{}` at src/index.spec.ts:94-97: it gives `null` (`Scenarios.MainFunctionOnlyConfig`);
  - an emptied object staying `{}` at src/index.spec.ts:126-129: it drops the empty `foo`;
  - the default-depth cuts at src/index.spec.ts:131-143: without a depth nothing is cut;
  - the depth-3 cuts at src/index.spec.ts:145-165: the objects emptied by the cut become `null` and are dropped, so the whole result is `null`.

  These expectations are the legacy variant's behaviour. `Scenarios` proves eight of them about `Legacy`: the lines 79-82, 89-92, 94-97, 126-129, 131-136, 138-143, 145-154 and 156-165. It also proves the lines 107-110 about `Legacy`.
