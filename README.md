# ccg Copy, modelled in Dafny

`ccg.Copy` specialises a Go "template" package. It loads the package,
removes the declarations of its type parameters (the keys of `Params`), and
renames every identifier bound to a parameter or to a `Renames` key. It then
merges the template's declarations into a list of existing destination
declarations (`Decls`). A template name the destination already declares
overwrites the destination's value, type or import path, or replaces its
function declaration;
every other template declaration is appended. If `Uses` is given, the
appended declarations are cut down to what the named functions, types and
methods reach. Finally every declaration gets a doc comment and the import
declarations move to the front.

The model covers this pipeline from the loaded package to the final
declaration list, and `filterDecls`, the helper it uses twice:

- `syntax.dfy` (module `Syntax`) has the syntax trees. Declarations are
  values. Every identifier node is an index into one identifier table:
  `objectOf` is the type checker's `ObjectOf` (Defs and Uses together), and
  a spelling table holds `Ident.Name`.
- `filter.dfy` (module `Filter`) has `filterDecls` and the two predicates
  Copy passes to it.
- `info.dfy` (module `Info`) has the loaded package as a class. Its files
  and identifier spellings change in place: the placeholder strip and the
  rename.
- `rename.dfy` (module `Rename`) has `collectObjects`.
- `merge.dfy` (module `Merge`) has the destination index and the merge loop.
- `prune.dfy` (module `Prune`) has dependency sets, use resolution, the
  reachability closure and the filter by uses.
- `tidy.dfy` (module `Tidy`) has the doc and import tidy-up.
- `ccg.dfy` (module `Ccg`) composes them into `Copy`.

Go's panics are errors here. A failed type assertion on a method receiver,
a failed type assertion inside a destination closure, and an out-of-range
`Values[i]` each give `Err(Panic(..))`, so these inputs are not excluded by
preconditions.

Where the source and its description differ, the model follows the code:

- A two-segment use spec `T.M` maps only `T` back through `renamed`. The
  method name `M` is looked up as written (ccg.go:255-265).
- A one-segment use spec whose name is not in scope adds nil to the uses
  set without error (ccg.go:267-274).

## Model

| member | source | states |
|---|---|---|
| Filter.KeptNames | ccg.go:389-400 | each kept name carries at most one value, and no more names are kept than were seen |
| Filter.FilterValueSpec | ccg.go:386-407 | the loop over one spec's names builds exactly the filtered spec: kept names in order, with their values, and values nil when none are left |
| Filter.FilterValueSpecs | ccg.go:385-408 | the spec filter gives each var/const spec filtered, and drops a spec left without names |
| Filter.FilterTypeSpecs | ccg.go:410-414 | type specs are kept exactly when the predicate accepts them, in order |
| Filter.FilterImportSpecs | ccg.go:410-414 | import specs are kept exactly when the predicate accepts them, in order |
| Filter.FilterDecl | ccg.go:379-417 | the loop body keeps a declaration exactly as the declaration filter does, dropping a GenDecl left without specs |
| Filter.FilterDecls | ccg.go:377-420 | filterDecls equals the declaration-by-declaration filter, in which a GenDecl left without specs is dropped |
| Filter.FilterIdsAppend | ccg.go:389-400 | filtering names distributes over concatenation, so order is kept |
| Filter.FilterIdsAccepted | ccg.go:394-395 | every surviving name is one of the input names and passes the predicate |
| Filter.KeptNamesAreFiltered | ccg.go:389-400 | the names kept from a value spec are exactly the names that pass, in order |
| Filter.FilteredValueSpecsNames | ccg.go:385-408 | the names of the surviving var/const specs are exactly the input names that pass, in order |
| Filter.FilteredTypeSpecsNames | ccg.go:410-414 | the surviving type specs' names are exactly those that pass, in order |
| Filter.FilteredImportSpecsAll | ccg.go:410-414 | neither predicate Copy passes rejects an import spec |
| Filter.FilteredValueNames | ccg.go:377-420 | over a whole declaration list, the var/const names that remain are exactly those that pass, in order |
| Filter.FilteredDeclValueNames | ccg.go:379-416 | per declaration: the var/const names left are those that pass |
| Filter.FilteredTypeNames | ccg.go:377-420 | over a whole declaration list, the type names that remain are exactly those that pass, in order |
| Filter.FilteredDeclTypeNames | ccg.go:379-416 | per declaration: the type names left are those that pass |
| Filter.FilteredDeclFuncs | ccg.go:380-381 | a single declaration keeps its function exactly when the predicate accepts it |
| Filter.FilteredFuncs | ccg.go:380-381 | the function declarations that remain are exactly those the predicate accepts, in order |
| Filter.FilterFuncsAppend | ccg.go:378-418 | filtering functions distributes over concatenation |
| Filter.FilteredImports | ccg.go:410-414 | every import spec survives filtering, in order |
| Filter.FilteredDeclImports | ccg.go:410-414 | per declaration: all import specs survive |
| Filter.FilteredDeclsAccepted | ccg.go:377-420 | every remaining declaration is accepted: its functions, type specs and names pass, no value spec is without names, and no GenDecl is without specs |
| Filter.FilteredValueSpecsAccepted | ccg.go:385-408 | every remaining value spec has names, and all of them pass |
| Filter.FilteredTypeSpecsAccepted | ccg.go:410-414 | every remaining type spec passes |
| Filter.FilteredValueSpecPairs | ccg.go:389-400 | when each name has its own value, filtering keeps name/value pairs together, as a filter of the zipped pairs |
| Filter.FilterValueSpecIdempotent | ccg.go:385-408 | filtering a value spec twice gives the same result as filtering it once |
| Filter.RefilterKeepsAll | ccg.go:389-406 | a spec whose names all pass comes back with all its names and values |
| Info.Package.StripPlaceholders | ccg.go:49-61 | each file's declarations become filterDecls of them under "spelling is not a Params key" |
| Info.StrippedHasNoPlaceholders | ccg.go:49-61 | after stripping, no type spec and no var/const name spelled as a Params key remains, no value spec is without names, and no GenDecl is without specs |
| Info.Package.constructor | ccg.go:37-46 | the loaded package holds the given tables, files and spellings, and its scope gives each object one name |
| Info.Package.Rename | ccg.go:86-94 | an identifier whose object is in the table takes the object's new name; every other identifier keeps its spelling, including same-spelled ones bound to other objects |
| Rename.CollectObjectStep | ccg.go:68-75 | one more key adds its object to the objects table with the key's new name and keeps the other entries |
| Rename.CollectRenamedStep | ccg.go:68-75 | one more key maps its new name back to it and keeps the other entries |
| Rename.CollectStep | ccg.go:68-75 | one more key extends the record of objects and of new names |
| Rename.CollectObjects | ccg.go:67-77 | fails exactly when some key is not in scope, and then with "name not found" for such a key. Otherwise it records every key's object with its new name (the last write wins when the scope is injective), and `renamed[to]` is a key that maps to `to` |
| Ccg.CollectedBoth | ccg.go:65-83 | after Params then Renames: the objects are those of all keys, Renames wins over Params on a shared object, and renamed inverts the tables |
| Syntax.FuncName | ccg.go:141-144 | a function's merge key panics exactly when a method's receiver type is not a plain identifier |
| Syntax.ConcatAppend | ccg.go:311 | concatenating the views of two lists is the view of their concatenation |
| Merge.BuildIndex | ccg.go:96-150 | the index loop computes IndexOf: a later key replaces an earlier one, and a bad receiver panics |
| Merge.IndexUpToStaysFailed | ccg.go:99-150 | once the index loop has panicked, it stays panicked |
| Merge.IndexOfSound | ccg.go:96-150 | every key of the index leads to an existing slot that carries that key |
| Merge.IndexOfComplete | ccg.go:96-150 | every name, type, import and function of the destination has its key in the index |
| Merge.IndexOfFails | ccg.go:140-144 | indexing panics exactly when some destination method has a receiver that is not a plain identifier |
| Merge.Apply | ccg.go:110-148 | a closure call panics exactly when the payload does not fit the slot (wrong node kind or `Values[i]` out of range); otherwise the slot holds the payload, and every other declaration and the list's shape are unchanged |
| Merge.ApplyOnlyPart | ccg.go:110-148 | within the slot's own declaration, the closure changes only the one value, type, path or function the slot names: other specs, other values, names, aliases, types and doc stay as they were |
| Merge.ApplyKeepsOther | ccg.go:110-148 | a closure leaves what every other slot holds unchanged |
| Merge.ApplyEvolves | ccg.go:110-148 | calling the closure of an index key changes only declarations the index points into |
| Merge.EvolvesTrans | ccg.go:99-150 | successive closure calls compose |
| Merge.EvolvesRefl | ccg.go:99-150 | no change is an evolution |
| Merge.Replay | ccg.go:153-226 | calling closures in order keeps every slot valid, changes only indexed declarations, and fails only by panicking |
| Merge.ReplayAppend | ccg.go:153-226 | replaying two lists of writes one after the other is replaying their concatenation |
| Merge.LastWriteAppend | ccg.go:153-226 | the last write to a key in a concatenation is the second list's, if it has one, otherwise the first's |
| Merge.IndexOfDistinct | ccg.go:96-150 | no two keys of the index share a slot |
| Merge.ReplayLands | ccg.go:99-150 | after replaying, each key's slot holds the key's last write, or its old content when the key was never written |
| Merge.LastWriteOfFunc | ccg.go:213-219 | a template function's write is the last one to its key when no later declaration writes to it |
| Merge.AllInKept | ccg.go:99-150 | slots stay valid while declarations keep their shape |
| Merge.MergedName | ccg.go:166-170 | (corrected) one template name touches only declarations the index points into; the only failure is the `Values[i]` panic or a slot mismatch |
| Merge.MergedNameKeeps | ccg.go:166-170 | (corrected) a name the index lacks is kept with its value; an absorbed name adds nothing to the kept names and values |
| Merge.MergedNameAbsorbs | ccg.go:166-168 | an absorbed name has a value, and its slot then holds that value; a name the index lacks leaves the destination as it was |
| Merge.MergedNames | ccg.go:163-171 | (corrected) merging one value spec's names only changes declarations the index points into, and fails only by panicking |
| Merge.MergedNamesReplays | ccg.go:163-171 | (corrected) the name loop leaves the destination exactly as calling the closures of its names' writes in order does |
| Merge.MergedValueSpecs | ccg.go:159-175 | (corrected) a var/const declaration's merge changes only indexed destination declarations, and fails only by panicking |
| Merge.MergedValueSpecsReplays | ccg.go:159-175 | (corrected) the var/const loop leaves the destination as replaying its specs' writes in order does |
| Merge.MergedTypeSpec | ccg.go:181-187 | one template type spec is kept exactly when its name is not a key of the index; a failure is a panic |
| Merge.MergedTypeSpecAbsorbs | ccg.go:184-186 | an absorbed type spec's slot then holds its type; one the index lacks leaves the destination as it was |
| Merge.MergedTypeSpecs | ccg.go:176-191 | the type loop only changes indexed declarations and fails only by panicking |
| Merge.MergedTypeSpecsReplays | ccg.go:176-191 | the type loop leaves the destination as replaying its specs' writes in order does |
| Merge.MergedImportSpec | ccg.go:197-207 | one template import spec is kept exactly when its alias-or-path is not a key of the index; a failure is a panic |
| Merge.MergedImportSpecAbsorbs | ccg.go:202-204 | an absorbed import spec's slot then holds its path; one the index lacks leaves the destination as it was |
| Merge.MergedImportSpecs | ccg.go:192-212 | the import loop only changes indexed declarations and fails only by panicking |
| Merge.MergedImportSpecsReplays | ccg.go:192-212 | the import loop leaves the destination as replaying its specs' writes in order does |
| Merge.MergedFunc | ccg.go:213-222 | a template function is kept exactly when its key is not indexed; a method whose receiver is not a plain identifier panics |
| Merge.MergedFuncAbsorbs | ccg.go:213-219 | through the closure of ccg.go:146-148, an absorbed function's slot is a function slot whose declaration it then replaces whole; an unabsorbed one leaves the destination as it was |
| Merge.MergedDecl | ccg.go:156-224 | (corrected) one template declaration changes only indexed destination declarations and contributes at most one new declaration |
| Merge.MergedDeclReplays | ccg.go:156-224 | one template declaration's merge leaves the destination as replaying its writes does |
| Merge.MergedDecls | ccg.go:153-226 | (corrected) the whole merge keeps the destination list's length and each declaration's shape, changes only indexed declarations, and fails only by panicking |
| Merge.MergedDeclsReplays | ccg.go:153-226 | the whole merge leaves the destination as replaying all template writes, in template order, does |
| Merge.MergedDeclsLand | ccg.go:153-226 | after the merge, the slot of each destination key holds what the template's last write to that key carried, or what it held before when no template name has the key |
| Merge.MergedFuncReplaces | ccg.go:213-219 | through the closure of ccg.go:146-148, a matched template function that no later template declaration overwrites replaces the destination function of its key, at the same position |
| Merge.UnabsorbedImportsAppend | ccg.go:196-209 | the unabsorbed imports of a concatenation are the concatenation of the unabsorbed imports |
| Merge.UnabsorbedFuncsAppend | ccg.go:214-223 | likewise for functions |
| Merge.MergedNamesKept | ccg.go:163-171 | (corrected) the names a value spec keeps are exactly those filterDecls keeps under "key not indexed", with their values |
| Merge.MergedValueSpecsNames | ccg.go:159-175 | (corrected) the new var/const names are exactly the template's names whose key is not indexed, in order |
| Merge.MergedTypeSpecsNames | ccg.go:176-191 | the new type names are exactly the template's type names whose key is not indexed, in order |
| Merge.MergedImportSpecsKept | ccg.go:192-212 | the new import specs are exactly the template's import specs whose alias-or-path is not indexed |
| Merge.MergedValueDeclViews | ccg.go:159-175 | (corrected) a var/const declaration contributes exactly its unabsorbed names and no type, import or function |
| Merge.MergedTypeDeclViews | ccg.go:176-191 | a type declaration contributes exactly its unabsorbed type names and nothing else |
| Merge.MergedImportDeclViews | ccg.go:192-212 | an import declaration contributes exactly its unabsorbed import specs and nothing else |
| Merge.MergedFuncDeclViews | ccg.go:213-222 | a function contributes itself when unabsorbed and nothing else |
| Merge.MergedDeclViews | ccg.go:156-224 | (corrected) per template declaration: its new names, types, imports and functions are exactly its unabsorbed ones |
| Merge.MergedDeclsViews | ccg.go:153-226 | (corrected) the new declarations hold exactly the template's var/const names, type names, imports and functions whose merge key the destination lacks, in template order, so an absorbed one is never appended |
| Merge.MergedNamesAsWritten | ccg.go:163-171 | as written, each unabsorbed name appends the whole template spec |
| Merge.AsWrittenRepeatsSpec | ccg.go:163-171 | as written, the spec is appended once per unabsorbed name |
| Merge.AsWrittenEmitsTwice | ccg.go:163-171 | `var a, b = 1, 2` with no destination comes out twice as written, and once when corrected |
| Merge.AsWrittenEmitsAbsorbed | ccg.go:163-171 | with a destination `var a`, as written the spec still declaring `a` is appended; the corrected merge appends only `b` |
| Merge.CorrectedEmitsUnabsorbedOnce | ccg.go:163-171 | the corrected merge emits each unabsorbed name once and no absorbed one |
| Merge.MergedNamesSticky | ccg.go:165-171 | a panic ends the name loop |
| Merge.MergedNamesStops | ccg.go:165-171 | (corrected) a panic at one name is the result of the whole name loop |
| Merge.MergedValueSpecsSticky | ccg.go:163-172 | a panic ends the spec loop |
| Merge.MergedTypeSpecsSticky | ccg.go:180-188 | a panic ends the type spec loop |
| Merge.MergedImportSpecsSticky | ccg.go:196-209 | a panic ends the import spec loop |
| Merge.MergedDeclsSticky | ccg.go:154-226 | a panic ends the declaration loop |
| Merge.MergeNames | ccg.go:165-171 | (corrected) the name loop computes MergedNames |
| Merge.MergeValueSpecs | ccg.go:159-175 | (corrected) the var/const loop computes MergedValueSpecs |
| Merge.MergeTypeSpecs | ccg.go:176-191 | the type loop computes MergedTypeSpecs |
| Merge.MergeImportSpecs | ccg.go:192-212 | the import loop computes MergedImportSpecs |
| Merge.MergeDecl | ccg.go:156-224 | (corrected) the per-declaration step computes MergedDecl |
| Merge.MergeDecls | ccg.go:155-225 | (corrected) the declaration loop computes MergedDecls |
| Merge.FlattenSnoc | ccg.go:154-155 | the declarations of one more file follow those of the files before it |
| Merge.MergedDeclsSnoc | ccg.go:154-226 | merging a longer list continues from the shorter list's result |
| Merge.MergeFiles | ccg.go:153-226 | (corrected) taking the files' declarations one file after another and merging them computes MergedDecls over all files' declarations in order |
| Prune.CollectDeps | ccg.go:228-247 | the dependency loop computes DepsOf |
| Prune.DepsOfEntries | ccg.go:229-247 | deps has an entry for exactly the new functions' objects, and each entry is the references of one function with that object: a later function with the same object replaces the entry, as `deps[obj] = set` does |
| Prune.SplitCount | ccg.go:252 | Split gives one piece more than there are dots |
| Prune.SplitPieces | ccg.go:252 | no piece of Split holds a dot |
| Prune.SplitRejoins | ccg.go:252 | joining the pieces of Split with dots gives back the string |
| Prune.SplitJoin | ccg.go:252 | Split gives one piece more than there are dots, no piece has a dot, and joining the pieces gives back the string |
| Prune.SplitSnoc | ccg.go:252 | appending a character extends the last piece, or starts a new piece after a dot |
| Prune.SplitWord | ccg.go:252 | a dot-free word splits into itself |
| Prune.SplitDotWord | ccg.go:252 | appending "." and a word adds that word as a piece |
| Prune.JoinSplit | ccg.go:252 | splitting the join of dot-free pieces gives back the pieces |
| Prune.ResolveUseFails | ccg.go:252-277 | a use spec fails with "invalid use spec" exactly when it has two or more dots, and with "not a type" exactly when it has one dot and its first piece, mapped back through renamed, names no type |
| Prune.ResolvedUsesFails | ccg.go:251-278 | the uses loop fails exactly when some spec fails, and then with the first failing spec's error |
| Prune.ResolvedUsesObjects | ccg.go:251-278 | otherwise the uses set is exactly the set of the specs' objects |
| Prune.ResolveUses | ccg.go:251-278 | the uses loop computes ResolvedUses |
| Prune.ResolvedUsesStaysFailed | ccg.go:251-278 | an error ends the uses loop |
| Prune.StepAdd | ccg.go:285-291 | the dependencies of a set with one more object are the old ones plus that object's |
| Prune.Pass | ccg.go:285-291 | one pass adds the dependencies of every object already in the set |
| Prune.ProperSubsetSmaller | ccg.go:292-294 | a growing set grows in size, so the closure loop ends |
| Prune.StepWithin | ccg.go:283-295 | a closed set that contains a set also contains its dependencies |
| Prune.Close | ccg.go:283-295 | the closure loop ends with the least set that holds the seeds and is closed under deps |
| Prune.PrunedKeepsReached | ccg.go:296-307 | filtering by uses keeps exactly the new functions, type specs and var/const names whose object is in the closure, in order, and keeps every import |
| Tidy.WithDoc | ccg.go:318-327 | a declaration leaves with a doc, unchanged if it had one, and otherwise differs only in its doc |
| Tidy.Documented | ccg.go:316-327 | documenting keeps the length of the list |
| Tidy.TidyDecls | ccg.go:313-335 | the tidy loop gives the documented import declarations, then the documented other declarations, each group in its original order |
| Tidy.PartitionPermutes | ccg.go:329-335 | splitting into imports and the rest loses and adds nothing |
| Tidy.ImportsOfAreImports | ccg.go:329-333 | the first group holds only imports and the second group none, all taken from the input |
| Tidy.Tidied | ccg.go:313-335 | the output is a permutation of the documented input, with every import before every other declaration and a doc on each |
| Tidy.TidiedKeepsAll | ccg.go:313-335 | the output has as many declarations as the input and holds each of them, documented |
| Tidy.DocumentedKeepsContent | ccg.go:318-327 | documenting changes nothing but a nil doc |
| Ccg.ClosureUnique | ccg.go:283-295 | the least closed superset of the seeds is unique |
| Ccg.Specialise | ccg.go:48-94 | files are stripped of placeholders. "name not found" is returned exactly when a key is not in scope, naming such a key, from Params whenever Params has one, and then nothing is renamed. Otherwise identifiers of a key's object take its new name (Renames over Params), all others keep theirs, and renamed inverts the tables |
| Ccg.Assemble | ccg.go:96-335 | (corrected) it succeeds exactly when indexing, merging and resolving the uses all succeed, and otherwise fails with the error of the first stage that fails (never "name not found"); on success the output is the tidied list of the merged destination declarations followed by what survives of the new ones |
| Ccg.Copy | ccg.go:36-335 | files are always stripped. "name not found" is returned exactly when a key is missing, naming such a key, from Params whenever Params has one, and then nothing is renamed. Otherwise identifiers of a key's object take its new name (Renames over Params) and all others keep theirs; Copy then fails exactly when indexing, merging or resolving the uses fails, with the first such error, and otherwise returns the output assembled from the renamed package |
| Ccg.AssembledShape | ccg.go:310-335 | the output has imports first and a doc on every declaration, is at least as long as Decls, and holds every destination declaration no slot touched |
| Ccg.TidiedMerge | ccg.go:310-335 | tidying evolved destination declarations followed by new ones puts imports first, documents each, and keeps every untouched destination declaration |

## Left out

- Package loading and type checking (ccg.go:37-46) are foreign libraries.
  The loaded package is given as its files, identifier table, `ObjectOf`
  table, scope and type names.
- `ast.Walk` and the visitor (ccg.go:235-244, 365-369) are not modelled.
  A function declaration carries the identifiers the walk would visit.
- `types.LookupFieldOrMethod` (ccg.go:265) is library code. It is a given
  map from (type object, name) to object, and a missing entry gives nil.
- Output formatting and writing (ccg.go:337-360) are I/O.
- `AstDecls.Filter`, `AstSpecs.Filter` and `ObjectSet` come from a generated
  file that is not part of this model. They are modelled as order-keeping
  sequence filters and sets.
- cmd/myccg/main.go is not part of this model. It is a command-line
  front end.
- Rename.CollectObjects: Go's map iteration order is left open (a choice by
  `:|`). So the contract does not determine which missing key is reported,
  or which key a new name shared by two keys leads back to. Which object
  value wins is stated only for an injective scope.
- Prune.Close: each pass of the closure runs over a snapshot of the set.
  Go's range over a map that grows may or may not visit the added elements.
  Both reach the same fixpoint, and the contract states that fixpoint.
- Ccg.Copy: the merge uses the corrected var/const loop (see Findings), not
  the loop as written.
- Merge.MergedName, Merge.MergedNames, Merge.MergedValueSpecs,
  Merge.MergeNames and Merge.MergeValueSpecs model the corrected var/const
  loop (see Findings). Merge.MergedNamesAsWritten models the loop as
  written.
- Merge.MergedValueSpecsNames: states the new var/const names of the
  corrected loop. As written (ccg.go:169), the whole spec is appended once
  per unabsorbed name, absorbed names included.
- Merge.MergedValueDeclViews: "exactly its unabsorbed names" holds of the
  corrected loop only, for the same reason.
- Merge.MergedDeclViews: its var/const clause holds of the corrected loop
  only.
- Merge.MergedDeclsViews: "an absorbed one is never appended" holds of the
  corrected loop only. As written, ccg.go:169 appends a spec that still
  declares an absorbed name (Merge.AsWrittenEmitsAbsorbed).
- Merge.MergedDecl: its new declarations come from the corrected var/const
  loop.
- Merge.MergedDecls: its new declarations come from the corrected var/const
  loop.
- Merge.MergeDecl: computes Merge.MergedDecl, so it too uses the corrected
  var/const loop.
- Merge.MergeDecls: computes Merge.MergedDecls, so it too uses the
  corrected var/const loop.
- Merge.MergeFiles: computes Merge.MergedDecls, so it too uses the
  corrected var/const loop.
- Ccg.Assemble: its output holds what the corrected var/const loop
  appends, not what ccg.go:169 as written appends.
- Merge.MergedName: what an absorbed name writes into its slot is stated by
  Merge.MergedNameAbsorbs, and what it keeps by Merge.MergedNameKeeps, not
  by its own contract.
- Merge.MergedNames: its content is stated by Merge.MergedNamesReplays (the
  loop is the replay of its names' writes) and by Merge.MergedNamesKept, not
  by its own contract.
- Merge.MergedValueSpecs: its content is stated by
  Merge.MergedValueSpecsReplays and Merge.MergedValueSpecsNames, not by its
  own contract.
- Merge.MergedTypeSpec: what an absorbed type spec writes into its slot is
  stated by Merge.MergedTypeSpecAbsorbs, not by its own contract.
- Merge.MergedTypeSpecs: its content is stated by
  Merge.MergedTypeSpecsReplays and Merge.MergedTypeSpecsNames, not by its
  own contract.
- Merge.MergedImportSpec: what an absorbed import spec writes into its slot
  is stated by Merge.MergedImportSpecAbsorbs, not by its own contract.
- Merge.MergedImportSpecs: its content is stated by
  Merge.MergedImportSpecsReplays and Merge.MergedImportSpecsKept, not by its
  own contract.
- Merge.MergedFunc: that an absorbed function replaces the destination
  declaration is stated by Merge.MergedFuncAbsorbs, and across the whole
  merge by Merge.MergedFuncReplaces, not by its own contract.
- Merge.MergedDecl: its content is stated by Merge.MergedDeclReplays and
  Merge.MergedDeclViews, not by its own contract.
- Merge.MergedDecls: what each slot holds afterwards is stated by
  Merge.MergedDeclsReplays and Merge.MergedDeclsLand, and what is appended
  by Merge.MergedDeclsViews, not by its own contract.
- Info.Package.Valid: the scope is taken to be injective, as a Go package
  scope is, because each object is held under its own name. The
  constructor requires it, and Specialise and Copy rely on it.
- Ccg.Copy: destination declarations are values, so merging cannot alias
  template nodes that Copy goes on to mutate. In the source, a destination
  closure writes into nodes shared with the caller's `Decls`. The model
  returns the updated list instead.
- Panics in the source end Copy; here they are the error `Panic`, and the
  in-place changes already made (stripping, renaming) remain, as in Go.

## Findings

| source | as written | input that shows it | evidently intended | confidence | as-written member | corrected member |
|---|---|---|---|---|---|---|
| ccg.go:165-170 | each var/const name the destination lacks appends the whole template ValueSpec again, with all its names | `var a, b = 1, 2` with no existing `a` or `b` emits the spec twice, declaring `a` and `b` twice; with an existing `var a`, the spec still declaring `a` is emitted beside the destination's `a` | each spec is emitted once, holding only the names the destination lacks, with their values | not executed | Merge.MergedNamesAsWritten, Merge.AsWrittenEmitsTwice, Merge.AsWrittenEmitsAbsorbed | Merge.MergedNames, Merge.CorrectedEmitsUnabsorbedOnce |
