# deep-models in Dafny

A model of the core of deep-models, a TypeScript library of schema-described
records. A record's payload is a flat positional array, one slot per field of
its definition. Sub-model array fields hold nested payloads keyed by a
generated id in slot 0. The library diffs two versions of a payload into a
patch (`$set`, `$push`, `$pull`) and applies a patch to a record. It also
merges a local and a remote patch, handing true conflicts to a resolution
callback. A separate filter subsystem builds per-field range and distinct
constraints, conjoins and simplifies them, renders them for MongoDB and JSON,
and subtracts one filter from another ("what does `a` cover that `b` does
not").

The modules follow the source files:

| module | file | source |
|---|---|---|
| `Wrappers`, `Values`, `Dict`, `FieldTypes`, `Query` | wrappers.dfy, values.dfy, dict.dfy, field_types.dfy, query.dfy | the JavaScript values, ordered dictionaries and comparison operators the rest uses |
| `ArraySet` | array_set.dfy | src/_util/arraySet.ts |
| `Validator` | validator.dfy | src/model/definition/description/validator.ts |
| `Field` | field.dfy | src/model/definition/description/field.ts, src/model/definition/fieldSubModelArray.ts |
| `Definition` | definition.dfy | src/model/definition/definition.ts, src/model/definition/fieldSubModelArray.ts |
| `Model` | model.dfy | src/model/model.ts |
| `FieldPointer` | fptr.dfy | src/model/fPtr.ts, src/model/fPtrSub.ts |
| `Range`, `Distinct` | range.dfy, distinct.dfy | src/filter/contraints/range.ts, src/filter/contraints/distinct.ts |
| `FilterField` | filter_field.dfy | src/filter/filterField.ts |
| `Filter` | filter.dfy | src/filter/filter.ts |
| `FilterModel` | filter_model.dfy | src/_joint/filterModel.ts |
| `Patch`, `DiffProps` | patch.dfy, patch_props.dfy | the diff in src/patch/patch.ts |
| `PatchApply`, `ApplyProps` | patch_apply.dfy, apply_props.dfy | `applyUpdate`, `getDeepFPtr` and `resolveIndicesString` in src/patch/patch.ts |
| `PatchMerge`, `MergeProps` | patch_merge.dfy, merge_props.dfy | src/patch/patchMerge.ts |

Classes whose methods update fields in the source are Dafny classes here:
`RangeConstraint`, `DistinctConstraint`, `FieldConstraint`, `Filter`,
`DeepModelDefinition`, `DeepModel`, `FPtr`, `FPtrSub`, `DeepModelPatch` and
`DeepModelPatchMerge`. Each holds its state in fields. Each method is proved
equal to a function on the state as a value, and the properties are lemmas
about those functions. Throws are `Err`/`Fail` results that carry the
source's message where it has one.

Defects found while stating the natural contracts are listed under
"## Findings". For each, the code as written is modelled next to a
corrected version, and the rest of the model builds on the corrected one.

## Model

| member | source | states |
|---|---|---|
| ArraySet.AWithoutB | src/_util/arraySet.ts:2-5 | an element is in the result exactly when it is in `a` and not in `b`; the result is never longer than `a` |
| ArraySet.Union | src/_util/arraySet.ts:7-11 | the result starts with `a`; an element is in it exactly when it is in `a` or in `b` |
| ArraySet.Intersection | src/_util/arraySet.ts:13-16 | an element is in the result exactly when it is in both `a` and `b`; the result is never longer than `a` |
| ArraySet.AWithoutBIsSubsequence | src/_util/arraySet.ts:2-5 | `aWithoutB(a, b)` keeps the elements of `a` in their order (a subsequence) |
| ArraySet.IntersectionIsSubsequence | src/_util/arraySet.ts:13-16 | `intersection(a, b)` is a subsequence of `a` |
| ArraySet.IntersectionAndDifferencePartition | src/_util/arraySet.ts:2-16 | `intersection(a, b)` and `aWithoutB(a, b)` split `a`: their lengths add up to `|a|` and their multisets to that of `a` |
| ArraySet.EmptyRight | src/_util/arraySet.ts:2-16 | with `b = []`: the union and the difference are `a`, the intersection is empty |
| Validator.EnumLookup | src/model/definition/description/validator.ts:25-29 | `enumerator[value]` reads the property named by `String(value)`: an own property under that key, else a member inherited from `Object.prototype`, else `undefined` |
| Validator.OwnLookupSpec | src/model/definition/description/validator.ts:26 | an own property is found exactly when one has the key, and the one found is the first |
| Validator.RequiredRejectsExactlyFalsy | src/model/definition/description/validator.ts:12-18 | the required check never throws and reports an error exactly for falsy values (`false`, `0`, `""`, `null`, `undefined`); arrays and objects pass |
| Validator.EnumAcceptsExactlyListed | src/model/definition/description/validator.ts:20-30 | the enum check never throws, and passes a value exactly when its key string names a truthy own property, or names no own property but an inherited member such as `toString` |
| Validator.KeyStringLooksUpAlike | src/model/definition/description/validator.ts:26 | a value and its key string give the same answer, so `1` and `"1"` read the same property |
| Validator.NumericEnumReverse | src/model/definition/description/validator.ts:26 | on the object TypeScript emits for `enum E { A, B }`, both `1` and `"1"` pass through the reverse mapping |
| Validator.NumericEnumMisses | src/model/definition/description/validator.ts:26-28 | on that object `2` fails, and the name `"A"` fails because its value `0` is falsy |
| Validator.NumericEnumNames | src/model/definition/description/validator.ts:26 | on that object the name `"B"` passes, and so does the inherited `"toString"` |
| Validator.TypeThrowsExactly | src/model/definition/description/validator.ts:40-60 | the type check throws exactly for the field types without a case (date, reference, object) |
| Validator.IntegerCheck | src/model/definition/description/validator.ts:47-50 | integers pass the integer and enum checks; `k + 0.5` and every non-number fail the integer check |
| Validator.TypeCheckMeaning | src/model/definition/description/validator.ts:37-65 | when it does not throw, the type check passes exactly the values of the field's JavaScript type (`boolean`, `number`, whole number, `string`, `object` including `null` and arrays), and otherwise reports the type message |
| Range.UnconstrainedPassesAll | src/filter/contraints/range.ts:28-31 | a fresh range constraint is always fulfilled and fulfillable, and passes every value (as written and corrected) |
| Range.AndLTConjoins | src/filter/contraints/range.ts:159-164 | after `andLT(v)` a value passes exactly when it passed before and is below `v`; the upper bound is set and never rises; the lower bound is untouched |
| Range.AndLTEConjoins | src/filter/contraints/range.ts:166-171 | after `andLTE(v)` a value passes exactly when it passed before and is at most `v`; the upper bound never rises; the lower bound is untouched |
| Range.AndGTConjoins | src/filter/contraints/range.ts:173-178 | after `andGT(v)` a value passes exactly when it passed before and is above `v`; the lower bound never falls; the upper bound is untouched |
| Range.AndGTEConjoins | src/filter/contraints/range.ts:180-185 | after `andGTE(v)` a value passes exactly when it passed before and is at least `v`; the lower bound never falls; the upper bound is untouched |
| Range.FullfillableIffSatisfiable | src/filter/contraints/range.ts:85-95 | `isFullfillable` holds exactly when some value passes |
| Range.AlwaysFullfilledPassesAll | src/filter/contraints/range.ts:97-99 | a constraint without bounds passes every value and is fulfillable |
| Range.PassesAsWrittenContradictsFullfillable | src/filter/contraints/range.ts:59-95 | `[5, 5]` inclusive is fulfillable, yet `passes` as written rejects every value, while the corrected `passes` accepts 5 |
| Range.PassesAsWrittenDisagreesWithMongo | src/filter/contraints/range.ts:59-121 | for `< 5`, `toMongo` emits `$lt: 5`, which 5 does not match, but `passes` as written accepts 5 |
| Range.ToMongoMeansPasses | src/filter/contraints/range.ts:101-121 | a value matches the emitted operators exactly when it passes; at most two operators, no key twice; `{}` exactly when always fulfilled |
| Range.JSONRoundTrip | src/filter/contraints/range.ts:33-48 | `fromJSON(toJSON(r))` restores both bounds and the modes of present bounds, and passes the same values as `r` (also lines 123-138) |
| Range.JSONRoundTripWire | src/filter/contraints/range.ts:33-48 | `toJSON(fromJSON(j))` gives back the wire form `j` (also lines 123-138) |
| Range.SubtractCoversComplement | src/filter/contraints/range.ts:140-157 | one clone per present bound; a value passes some clone exactly when it passes the base and fails the subtracted range |
| Range.SubtractAsWrittenMissesBoundary | src/filter/contraints/range.ts:149-156 | as written, subtracting `> 5` yields `< 5` (the lower bound's complement picks its operator by the upper bound's mode), losing the value 5; the corrected complement is `<= 5` |
| Range.RangeConstraint.constructor | src/filter/contraints/range.ts:28-31 | a new constraint has no bounds and inclusive modes |
| Range.RangeConstraint.FromWire | src/filter/contraints/range.ts:33-48 | the constraint `fromJSON` builds holds exactly the bounds and modes the wire form names |
| Range.RangeConstraint.Clone | src/filter/contraints/range.ts:50-57 | the clone is a fresh object with the same bounds and modes |
| Range.RangeConstraint.AndLT | src/filter/contraints/range.ts:159-164 | the new state is `WithLT` of the old one |
| Range.RangeConstraint.AndLTE | src/filter/contraints/range.ts:166-171 | the new state is `WithLTE` of the old one |
| Range.RangeConstraint.AndGT | src/filter/contraints/range.ts:173-178 | the new state is `WithGT` of the old one |
| Range.RangeConstraint.AndGTE | src/filter/contraints/range.ts:180-185 | the new state is `WithGTE` of the old one |
| Distinct.PassingRange | src/filter/contraints/distinct.ts:124-130 | a held value survives `andRange` exactly when it passes the range; the list never grows |
| Distinct.Subtract | src/filter/contraints/distinct.ts:88-98 | no clone when always fulfilled, otherwise one clone per held value |
| Distinct.EmptyPassesAll | src/filter/contraints/distinct.ts:24-64 | a fresh constraint (NIN of nothing) is always fulfilled, fulfillable, and passes every value |
| Distinct.AndDistinctConjoins | src/filter/contraints/distinct.ts:104-122 | after `andDistinct(m, vs)` a value passes exactly when it passed before and passes `m` over `vs`; the mode is NIN only for NIN and NIN |
| Distinct.AndDistinctExample | src/filter/contraints/distinct.ts:106 | NIN `[1, 2]` and IN `[2, 3]` give IN `[3]` (new minus this) |
| Distinct.FullfillableIffSatisfiable | src/filter/contraints/distinct.ts:48-56 | `isFullfillable` holds exactly when some value passes |
| Distinct.AlwaysFullfilledIffPassesAll | src/filter/contraints/distinct.ts:58-64 | `isAlwaysFullfilled` holds exactly when every value passes |
| Distinct.AndRangeKeepsPassing | src/filter/contraints/distinct.ts:124-130 | `andRange` keeps the mode and exactly the held values that pass the range, in their order |
| Distinct.PassingRangeIsSubsequence | src/filter/contraints/distinct.ts:129 | the filtered list is a subsequence of the held values |
| Distinct.PassingRangeAllPass | src/filter/contraints/distinct.ts:129 | when every held value passes the range, `andRange` changes nothing |
| Distinct.ToMongoMeansPasses | src/filter/contraints/distinct.ts:66-79 | a value matches the emitted operator exactly when it passes; `{}` exactly when always fulfilled; at most one operator |
| Distinct.JSONRoundTrip | src/filter/contraints/distinct.ts:27-32 | `fromJSON(toJSON(d)) == d` and `toJSON(fromJSON(j)) == j` (also lines 81-86) |
| Distinct.CloneAsWrittenLosesValues | src/filter/contraints/distinct.ts:34-39 | as written, the clone of IN `[1]` holds no values: it rejects 1, which the original passes, and is unfulfillable |
| Distinct.SubtractRestrictsBase | src/filter/contraints/distinct.ts:88-98 | clone `i` passes a value exactly when the base passes it and the flipped-mode singleton of held value `i` passes it |
| Distinct.SubtractCoversComplement | src/filter/contraints/distinct.ts:88-98 | for a fulfillable constraint, every value that passes the base and fails the constraint passes some clone |
| Distinct.SubtractExactForNIN | src/filter/contraints/distinct.ts:88-98 | for NIN the clones cover exactly the values that pass the base and fail the constraint |
| Distinct.SubtractCoarseForIN | src/filter/contraints/distinct.ts:88-98 | for IN `[1, 2]` the clone NIN `[1]` passes 2, which the constraint itself passes: the per-value complement over-approximates |
| Distinct.DistinctConstraint.constructor | src/filter/contraints/distinct.ts:24-25 | a new constraint is NIN with no values |
| Distinct.DistinctConstraint.FromWire | src/filter/contraints/distinct.ts:27-32 | `fromJSON` holds the wire form's mode and values |
| Distinct.DistinctConstraint.CloneAsWritten | src/filter/contraints/distinct.ts:34-39 | the clone as written: a fresh object with the mode and an empty list |
| Distinct.DistinctConstraint.Clone | src/filter/contraints/distinct.ts:34-39 | the corrected clone: a fresh object with the same mode and values |
| Distinct.DistinctConstraint.AndDistinct | src/filter/contraints/distinct.ts:109-122 | the new state is `WithDistinct` of the old one, following the four-row table |
| Distinct.DistinctConstraint.AndRange | src/filter/contraints/distinct.ts:124-130 | the new state is `WithRange` of the old one and the range's state |
| FilterField.Subtract | src/filter/filterField.ts:85-88 | one clone per distinct complement followed by one per range complement |
| FilterField.EmptyPassesAll | src/filter/filterField.ts:34-35 | a fresh field constraint is always fulfilled, fulfillable, already simplified, and passes every value |
| FilterField.TightenConjoins | src/filter/filterField.ts:100-124 | routing one operator to the distinct or range part conjoins it: a value passes afterwards exactly when it passed before and satisfies the operator |
| FilterField.SimplifyPreservesPasses | src/filter/filterField.ts:133-139 | `simplify` passes exactly the values passed before |
| FilterField.SimplifyNormalizes | src/filter/filterField.ts:133-139 | after `simplify` every held value passes the range and under IN the range is unconstrained; a simplified constraint is left unchanged, so `simplify` is idempotent |
| FilterField.AddConjoins | src/filter/filterField.ts:98-131 | `add` throws exactly for an unknown operator on a fulfillable constraint; on an unfulfillable one it changes nothing and returns false; otherwise it conjoins the operator, simplifies, and returns the new `isFullfillable` |
| FilterField.PassesImpliesFullfillable | src/filter/filterField.ts:55-61 | a constraint that passes some value is fulfillable |
| FilterField.FullfillableExactUnderIN | src/filter/filterField.ts:59-61 | for a simplified IN constraint, `isFullfillable` holds exactly when some value passes (also lines 133-139) |
| FilterField.FullfillableCoarseUnderNIN | src/filter/filterField.ts:59-61 | NIN `[5]` with range `[5, 5]` is simplified and reported fulfillable, yet passes no value |
| FilterField.AlwaysFullfilledPassesAll | src/filter/filterField.ts:55-65 | an always-fulfilled field constraint passes every value |
| FilterField.ToMongoMeansPasses | src/filter/filterField.ts:67-72 | a value matches the merged distinct and range operators exactly when it passes; no key twice; `{}` exactly when always fulfilled |
| FilterField.ToMongoKeysUnique | src/filter/filterField.ts:67-72 | the spread of the distinct and range objects never repeats a key |
| FilterField.JSONRoundTrip | src/filter/filterField.ts:37-46 | `fromJSON(toJSON(f))` restores the distinct part and the range's bounds, and passes the same values (also lines 74-83) |
| FilterField.CopyAsWrittenLosesValues | src/filter/filterField.ts:48-53 | the clone of `$eq 1` as written holds no values and is unfulfillable, though the original passes 1 |
| FilterField.SubtractRestrictsBase | src/filter/filterField.ts:85-88 | every clone passes only values the base passes |
| FilterField.SubtractCoversComplement | src/filter/filterField.ts:85-88 | for a fulfillable constraint, every value that passes the base and fails the constraint passes some clone |
| FilterField.FieldConstraint.constructor | src/filter/filterField.ts:34-35 | a new field constraint holds fresh empty distinct and range parts |
| FilterField.FieldConstraint.FromWire | src/filter/filterField.ts:37-46 | `fromJSON` holds the parts the wire form names, fresh |
| FilterField.CopyIsFaithful | src/filter/filterField.ts:48-53 | the corrected copy keeps both parts: the distinct part's mode and values and the range's bounds and modes |
| FilterField.FieldConstraint.Clone | src/filter/filterField.ts:48-53 | a fresh copy with fresh parts, whose state is the corrected copy of the original's |
| FilterField.FieldConstraint.Simplify | src/filter/filterField.ts:133-139 | the new state is `Simplified` of the old one; under IN the range is a fresh object |
| FilterField.FieldConstraint.AndOp | src/filter/filterField.ts:100-124 | the new state is the old one tightened by the operator, in the same part objects |
| FilterField.FieldConstraint.Add | src/filter/filterField.ts:98-131 | returns and installs what `Added` gives; on an unknown operator it reports the error and leaves the state unchanged |
| Filter.Ensured | src/filter/filter.ts:51-53 | after the lookup-or-create the field is present and holds its old constraint (or a fresh one); the flag is unchanged |
| Filter.SetField | src/filter/filter.ts:37-39 | `_fields.set(id, v)` makes `id` map to `v` |
| Filter.EnsuredKeeps | src/filter/filter.ts:51-53 | creating an empty field constraint keeps the filter well formed and passes exactly the same records |
| Filter.AddConjoins | src/filter/filter.ts:44-58 | on an unfulfillable filter `add` is a no-op; otherwise a known operator conjoins its condition on that field's value |
| Filter.AddThrowsOnUnknownKey | src/filter/filter.ts:51-57 | `add` throws exactly for an unknown operator on a field that is still fulfillable, after creating the field |
| Filter.AddUnfullfillableMatchesNothing | src/filter/filter.ts:55-57 | once `add` clears the flag, the filter's constraints pass no record |
| Filter.SetFieldKeepsWellFormed | src/filter/filter.ts:37-39 | `_fields.set` keeps insertion order and keys in step |
| Filter.ParsedWellFormed | src/filter/filter.ts:29-42 | every filter `fromJSON` parses is well formed |
| Filter.ClonedWellFormed | src/filter/filter.ts:134-140 | `_cloneDeep`, corrected or as written, keeps the insertion order and the keys, so a well-formed filter's clone is well formed |
| Filter.CandidateWellFormed | src/filter/filter.ts:90-103 | every candidate built from a well-formed filter is well formed |
| Filter.UnensuredWellFormed | src/filter/filter.ts:84-119 | every filter `andNotEnsuredBy` returns for a well-formed receiver is well formed |
| Filter.IteratedWellFormed | src/filter/filter.ts:121-132 | stages of a step that keeps well-formedness hold only well-formed filters |
| Filter.MultipleWellFormed | src/filter/filter.ts:121-132 | every filter `andNotEnsuredByMultiple` returns for a well-formed receiver is well formed |
| Filter.AddKeepsWellFormed | src/filter/filter.ts:51-53 | `add` keeps insertion order and keys in step and registers the field |
| Filter.KeepFullfillableMembers | src/filter/filter.ts:106-115 | the `filter` keeps exactly the candidates whose subtracted field is fulfillable |
| Filter.CandidateRestricts | src/filter/filter.ts:90-103 | every candidate built from `a` passes only records `a` passes |
| Filter.UnensuredSound | src/filter/filter.ts:84-119 | every filter `andNotEnsuredBy` returns passes only records `this` passes |
| Filter.UnensuredCovers | src/filter/filter.ts:84-119 | a record that passes `this` but not a well-formed, fulfillable `b` passes some returned filter |
| Filter.StageCovers | src/filter/filter.ts:91-116 | a record `a` admits but the field of `b` rejects passes one of the filters built for that field |
| Filter.UnensuredByEmpty | src/filter/filter.ts:84-119 | if `b` has no fields the result is empty |
| Filter.UnensuredMayOverlapB | src/filter/filter.ts:84-119 | the result may also pass records that `b` passes (IN `[1, 2]` yields NIN `[1]`, which passes 2) |
| Filter.UnensuredAsWrittenUnsound | src/filter/filter.ts:84-119 | with the distinct clone as written, a returned filter passes a record that `this` rejects (also lines 134-140) |
| Filter.IteratedSound | src/filter/filter.ts:121-132 | stages of a step that only restricts keep only records the start passes |
| Filter.IteratedWitness | src/filter/filter.ts:121-132 | stages of a step that covers every passing record keep a filter passing a record the start passes |
| Filter.MultipleSound | src/filter/filter.ts:121-132 | every filter `andNotEnsuredByMultiple` returns passes only records `this` passes |
| Filter.MultipleCovers | src/filter/filter.ts:121-132 | a record passing `this` and none of the `b`s passes some returned filter |
| Filter.IndicesDistinct | src/filter/filter.ts:64-67 | distinct constrained fields get distinct field indices in `toJson` |
| Filter.JsonParsesToRestored | src/filter/filter.ts:29-69 | `toJson` of a fulfillable filter succeeds and `fromJSON` parses it back to the field-by-field restored filter |
| Filter.RestoredFaithful | src/filter/filter.ts:29-69 | the restored filter is well formed, fulfillable, has the same fields with the same constraints, and passes the same records |
| Filter.JsonRoundTrip | src/filter/filter.ts:29-69 | `fromJSON(toJson(f))` gives a filter with the same constrained fields that passes exactly the records `f` passes |
| Filter.ParsedFailsAt | src/filter/filter.ts:37-38 | a key naming no field of the definition makes `fromJSON` fail |
| Filter.ParsedFailsOnBadIndex | src/filter/filter.ts:33-40 | parsing fails exactly when some key is not a valid field index |
| Filter.JsonOfUnknownFieldNotParsable | src/filter/filter.ts:60-69 | a field missing from the definition is written under index -1, which `fromJSON` cannot read back |
| Filter.MongoKeysDistinct | src/filter/filter.ts:71-82 | with distinct `payload.<segmentKey>.<key>` names, each constrained field gets its own Mongo key |
| Filter.MongoFailsIff | src/filter/filter.ts:71-82 | `toMongo` fails exactly when some constrained field is missing from the definition (the undefined meta throws) |
| Filter.MongoShape | src/filter/filter.ts:71-82 | `toMongo` emits one entry per field, in order, keyed `payload.<segmentKey>.<key>` with the field's `toMongo` |
| Filter.MongoMeansPasses | src/filter/filter.ts:71-82 | a record matches every emitted entry exactly when it passes the filter |
| Filter.Filter.constructor | src/filter/filter.ts:20-22 | a new filter is fulfillable with no fields |
| Filter.Filter.FromJson | src/filter/filter.ts:29-42 | succeeds exactly when the parse does, with a fresh, well-formed filter holding the parsed state |
| Filter.Filter.Add | src/filter/filter.ts:44-58 | the new state and the outcome are those of `AddStep`; the filter stays well formed |
| Filter.Filter.Put | src/filter/filter.ts:37-39 | `_fields.set` leaves the state `SetField` describes: a new field joins the end of the insertion order, an existing one is replaced in place; the filter stays well formed |
| Filter.Filter.ToJson | src/filter/filter.ts:60-69 | returns `JsonOf` of the state: an error when unfulfillable, else one entry per field keyed by field index |
| Filter.Filter.ToMongo | src/filter/filter.ts:71-82 | returns `MongoOf` of the state |
| Filter.Filter.CloneDeep | src/filter/filter.ts:134-140 | a fresh filter holding the corrected deep copy, well formed when the original is |
| Filter.Filter.StageFilters | src/filter/filter.ts:90-115 | fresh filters holding the fulfillable candidates of one field of `b`, well formed when `this` is |
| Filter.Filter.AndNotEnsuredBy | src/filter/filter.ts:84-119 | fresh filters holding `Unensured(this, b)`, well formed when `this` is |
| Filter.Filter.AndNotEnsuredByMultiple | src/filter/filter.ts:121-132 | filters holding `UnensuredMultiple`; `[this]` itself for no `b`, fresh ones otherwise; all well formed when `this` is |
| Filter.AllAndNot | src/filter/filter.ts:125-129 | one stage: fresh filters holding the in-order concatenation of `andNotEnsuredBy` over the list |
| Filter.KeepObjects | src/filter/filter.ts:106-115 | fresh filters holding the candidates kept by the fulfillability filter |
| FilterModel.ModelPassesFilter | src/_joint/filterModel.ts:4-19 | the loop returns true exactly when every constrained field passes the record's value in that field; checks after the first failure do not change the result |
| FilterModel.FieldPasses | src/_joint/filterModel.ts:12-14 | one field passes exactly when its constraint admits the value a field pointer reads from the record |
| FilterModel.OrderCoversFields | src/_joint/filterModel.ts:8 | iterating the insertion order visits every constrained field |
| FilterModel.FieldPassesNumber | src/_joint/filterModel.ts:12 | on a number, the value-level check is the field constraint's `passes` |
| FilterModel.RecordPassesIffPasses | src/_joint/filterModel.ts:8-16 | for a record holding numbers, `modelPassesFilter` agrees with the filter's `passes` over field values |
| FilterModel.EmptyAndFlag | src/_joint/filterModel.ts:4-19 | an empty filter passes every record, and the fulfillable flag is never consulted |
| FilterModel.MissingValuePassesIffNIN | src/_joint/filterModel.ts:12 | an `undefined` field value passes exactly the NIN constraints |
| FilterModel.RecordInUnensuredMultiple | src/_joint/filterModel.ts:4-19 | a record passing some filter of `andNotEnsuredByMultiple(a, bs)` passes `a`, and a record passing `a` and no `b` passes some returned filter |
| Field.NewField | src/model/definition/description/field.ts:31-38 | construction fails exactly for a non-array `eSubModel` field; otherwise the field has the given type, array flag and no validators |
| Field.PushValidators | src/model/definition/description/field.ts:64-67 | the validators become the old ones followed by the pushed ones, in order; nothing else in the field changes |
| Field.PushValidatorRequired | src/model/definition/description/field.ts:27-72 | appends a required validator, after which the field reports `required` |
| Field.PushKeepsRequired | src/model/definition/description/field.ts:27-67 | after pushing, the field is required exactly when it was required before or a required validator was pushed |
| Field.DefaultsByType | src/model/definition/description/field.ts:40-62 | arrays default to `[]`; booleans to `false`, dates and references to `null`, enums, floats and integers to `0`, strings to `''`; only a non-array sub-model or object field has no default |
| Field.DefaultsAgainstValidators | src/model/definition/description/field.ts:40-62 | a scalar default is rejected by the required validator and an array default accepted; scalar defaults of checked types pass their own type validator, and `[]` passes the sub-model type check |
| Field.WithIdSlot | src/model/definition/fieldSubModelArray.ts:24-27 | the entry description starts with `_id` and holds no other `_id` |
| Field.WithoutKey | src/model/definition/fieldSubModelArray.ts:24-27 | the result holds no entry under the removed key and is no longer than the input |
| Field.WithoutKeyAbsent | src/model/definition/fieldSubModelArray.ts:24-27 | removing a key the description lacks changes nothing |
| Field.FindKeyAbsent | src/model/definition/fieldSubModelArray.ts:24-27 | looking up a key the description lacks finds nothing |
| Field.NewSubModelArray | src/model/definition/fieldSubModelArray.ts:21-30 | a successful construction is an `eSubModel` array field whose entry description starts with `_id` |
| Field.SubModelArrayIdSlot | src/model/definition/fieldSubModelArray.ts:21-30 | for a description without `_id`, the entry description is an `ID` string field under `_id` followed by the given description unchanged |
| Definition.Ident | src/model/definition/definition.ts:47-54 | the ident is the module ident, followed by `_` and the sub ident when that is not empty |
| Definition.FlattenDesc | src/model/definition/definition.ts:115-126 | one field record per key of a segment, in order, tagged with the segment key |
| Definition.Defaults | src/model/definition/definition.ts:125 | a successful default row has one value per field |
| Definition.DefaultsSpec | src/model/definition/definition.ts:112-128 | the defaults succeed exactly when every field has a default, and then slot `i` holds field `i`'s default |
| Definition.PutSegment | src/model/definition/definition.ts:76-77 | replacing a known segment keeps the number of segments; a new segment is appended at the end |
| Definition.FieldIndex | src/model/definition/definition.ts:58-65 | the index of the first field with that identity, or -1 exactly when no field has it |
| Definition.WriteAt | src/model/definition/definition.ts:95 | slot `i` holds the new value, every other slot keeps its value, and the row grows only when `i` lies past its end |
| Definition.MapDocToArr | src/model/definition/fieldSubModelArray.ts:44-50 | a successful conversion gives one entry row per stored entry |
| Definition.MapArrToDoc | src/model/definition/fieldSubModelArray.ts:36-42 | a successful conversion gives one stored entry per entry row; when the sub-definition has a field, a null or undefined entry makes it throw (src/model/definition/definition.ts:107) |
| Definition.PutPlace | src/model/definition/definition.ts:103-107 | after the write the segment is an object holding the value under the key |
| Definition.PutPlaceKeeps | src/model/definition/definition.ts:103-107 | a write leaves every other (segment, key) place as it was, and an existing segment stays an object |
| Definition.ArrToDocPlaces | src/model/definition/definition.ts:100-110 | with distinct places, the document holds each field's converted slot at its own place |
| Definition.DocToArrReads | src/model/definition/definition.ts:87-98 | when every field's place converts back to the row's slot, reading the document yields the row |
| Definition.RoundTrip | src/model/definition/definition.ts:87-110 | for well-formed fields and a row of the right shape, `documentToArr(arrToDocument(arr)) == arr` |
| Definition.RoundTripField | src/model/definition/description/field.ts:74-80 | converting a value to the document form and back gives the value (identity for plain fields) |
| Definition.RoundTripItems | src/model/definition/fieldSubModelArray.ts:36-50 | sub-model entries survive conversion to documents and back |
| Definition.DeepModelDefinition.constructor | src/model/definition/definition.ts:47-56 | sets the ident, stores the root description as the only segment and starts inactive, its fields not yet read (`fieldsRead` false) |
| Definition.DeepModelDefinition.ReadDesc | src/model/definition/definition.ts:112-128 | succeeds exactly when every field has a default, leaving the flattened fields and their defaults; on failure the fields read so far end with the field without a default |
| Definition.DeepModelDefinition.ReadSegment | src/model/definition/definition.ts:116-126 | appends one segment's fields and their defaults, or stops at the first key without a default |
| Definition.DeepModelDefinition.Activate | src/model/definition/definition.ts:71-74 | reads the descriptions and sets the activated flag only when reading succeeds |
| Definition.DeepModelDefinition.AddDesc | src/model/definition/definition.ts:76-81 | stores the segment; re-reads the fields only when the definition is active |
| Definition.DeepModelDefinition.GetFieldIndex | src/model/definition/definition.ts:58-65 | before the first read of the descriptions it throws the TypeError of reading `length` on undefined; afterwards the loop returns `FieldIndex` of the fields |
| Definition.DeepModelDefinition.DocumentToArr | src/model/definition/definition.ts:87-98 | before the first read it throws the TypeError of reading `slice` on undefined; afterwards the loop returns `DocToArr` of the fields, defaults and document |
| Definition.DeepModelDefinition.ArrToDocument | src/model/definition/definition.ts:100-110 | before the first read it throws the TypeError of reading `forEach` on undefined; afterwards the loop returns `ArrToDoc` of the fields and row |
| Model.DataFromArray | src/model/model.ts:90-100 | the record's id is slot 0 of the payload, versions and meta are empty, and the payload is kept |
| Model.Written | src/model/model.ts:216-218 | slot `i` holds the new value, every other slot and the id, versions and meta are unchanged |
| Model.UpdateOffWritesInPlace | src/model/model.ts:165-169 | in `eOff` an update succeeds, writes slot `i` and changes nothing else (also lines 216-218) |
| Model.UpdateOnDelivers | src/model/model.ts:114-122 | in `eOn` the record itself is unchanged; an armed callback receives a copy with slot `i` written and is spent, and a spent or missing callback throws (also lines 170-176) |
| Model.SecondDeliveryThrows | src/model/model.ts:114-122 | after `immutable`, the first update is delivered and a second one throws "Can't run consecutive updates on immutable" without changing anything |
| Model.ScopeRefusedUnlessOn | src/model/model.ts:144-149 | `mutationScope` throws and changes nothing unless the mode is `eOn` |
| Model.CollectingWrites | src/model/model.ts:177-184 | while collecting, every write lands in the collector copy in order and the record is untouched |
| Model.ScopeDeliversOnce | src/model/model.ts:150-159 | in `eOn` a scope leaves the record unchanged and delivers, once, a copy with all its writes applied in order, then drops the collector; a spent callback throws |
| Model.OffWrites | src/model/model.ts:165-169 | in `eOff` a sequence of writes overwrites the payload in place, in order |
| Model.DeepModel.constructor | src/model/model.ts:106-108 | a new record holds the data, mutable, with no callback |
| Model.DeepModel.FromDataArray | src/model/model.ts:90-100 | a fresh record around `DataFromArray(payload)` |
| Model.DeepModel.FromTransferData | src/model/model.ts:79-88 | a fresh record holding the transferred id, versions, meta and payload |
| Model.DeepModel.DataForTransfer | src/model/model.ts:66-73 | returns the record's id, versions, meta and payload |
| Model.DeepModel.GetClone | src/model/model.ts:128-142 | a fresh mutable record with this record's data and definition |
| Model.DeepModel.GetCloneFrom | src/model/model.ts:128-142 | a fresh mutable record with the other record's data and this record's definition |
| Model.DeepModel.Immutable | src/model/model.ts:114-122 | the new state is `eOn` with a fresh one-shot callback |
| Model.DeepModel.Deliver | src/model/model.ts:116-121 | the state and outcome are those of `DeliverStep` |
| Model.DeepModel.UpdatePayload | src/model/model.ts:165-188 | the state and outcome are those of `UpdateStep` |
| Model.DeepModel.MutationScope | src/model/model.ts:144-163 | the state and outcome are those of `ScopeStep` |
| Model.DeepModel.RunWrites | src/model/model.ts:144-163 | the state and outcome are those of `WritesStep` |
| Model.DeepModel.SubModelFor | src/model/model.ts:199-214 | a fresh record around the entry; it is made immutable exactly when the parent is not in `eOff` |
| FieldPointer.ValueAt | src/model/fPtr.ts:18-20 | reading a slot inside the payload gives that slot, and reading outside it gives `undefined` |
| FieldPointer.RemoveAt | src/model/fPtrSub.ts:26-31 | `splice(i, 1)` drops exactly entry `i` and keeps the rest in order; an index past the end changes nothing; a negative index counts from the end, and one beyond the start drops the first entry |
| FieldPointer.SetThenGet | src/model/fPtr.ts:13-20 | in `eOff`, `get` after `set(v)` gives `v` |
| FieldPointer.NewEntryDefaults | src/model/fPtrSub.ts:11-13 | a new entry without a callback is the sub-model defaults with the fresh id in slot 0 |
| FieldPointer.PushAppends | src/model/fPtrSub.ts:11-24 | in `eOff`, `pushChild` appends the new entry after the existing ones |
| FieldPointer.PullRemoves | src/model/fPtrSub.ts:26-31 | in `eOff`, `pullChild(i)` removes entry `i` and keeps the others in order |
| FieldPointer.PullCountsFromEnd | src/model/fPtrSub.ts:26-31 | in `eOff`, `pullChild(-k)` removes the k-th entry from the end |
| FieldPointer.UpdateChildPastEnd | src/model/fPtrSub.ts:39-42 | past the last entry the callback gets `undefined`: the record is unchanged, and the call returns normally exactly when the callback writes nothing and no entry is null or undefined |
| FieldPointer.UpdateChildNullThrows | src/model/fPtrSub.ts:33-42 | one null or undefined entry makes `updateChild` throw, whichever child it names, leaving the record unchanged: building the child records reads every entry's id (src/model/model.ts:95) |
| FieldPointer.UpdateChildLostWhenMutable | src/model/fPtrSub.ts:39-42 | in `eOff` the child is a detached copy, so `updateChild` leaves the parent unchanged (also src/model/model.ts:205-213) |
| FieldPointer.UpdateChildWritesBack | src/model/fPtrSub.ts:39-42 | on an armed immutable parent, one child write is delivered as a parent copy whose entry `i` has the slot written (also src/model/model.ts:205-213) |
| FieldPointer.UpdateChildSecondWriteThrows | src/model/fPtrSub.ts:39-42 | on an immutable parent, a second write by the same child callback throws (also src/model/model.ts:114-122) |
| FieldPointer.FPtr.constructor | src/model/fPtr.ts:9-11 | the pointer's index is the field's index in the definition |
| FieldPointer.FPtr.Set | src/model/fPtr.ts:13-16 | the record's new state and outcome are those of `updatePayload` at the pointer's index |
| FieldPointer.FPtrSub.constructor | src/model/fPtr.ts:9-11 | the pointer's index is the field's index; it keeps the sub-model fields and their defaults |
| FieldPointer.FPtrSub.PushChild | src/model/fPtrSub.ts:11-24 | the state and outcome are those of `PushStep`; a field missing from the definition throws and changes nothing |
| FieldPointer.FPtrSub.PullChild | src/model/fPtrSub.ts:26-31 | the state and outcome are those of `PullStep` for any integer index, a negative one counting from the end as `splice` does; a field missing from the definition throws and changes nothing |
| FieldPointer.FPtrSub.GetChildModels | src/model/fPtrSub.ts:33-37 | one fresh record per entry, started as `subModelFor` starts it; a non-array value throws, and so does a list holding a null or undefined entry, whose id `payload[0]` cannot be read (src/model/model.ts:95) |
| FieldPointer.FPtrSub.UpdateChild | src/model/fPtrSub.ts:39-42 | the state and outcome are those of `UpdateChildStep`; a field missing from the definition throws and changes nothing |
| Patch.DeepModelPatch.Empty | src/patch/patch.ts:38-42 | a new patch has empty `$set`, `$push` and `$pull` |
| Patch.DeepModelPatch.New | src/patch/patch.ts:148-154 | construction succeeds exactly when the diff of the two payloads under the new record's fields does, and then holds that diff |
| Patch.DeepModelPatch.SetValue | src/patch/patch.ts:139-162 | succeeds exactly when `_addToUpdate` on `$set` does, leaving its result |
| Patch.DeepModelPatch.PushPullAt | src/patch/patch.ts:164-180 | succeeds exactly when the push and then the pull `_addToUpdate` do, leaving their result |
| Patch.DeepModelPatch.AddObjectPatch | src/patch/patch.ts:182-268 | the loop succeeds exactly when `ObjectPatch` does, leaving its result |
| Patch.DeepModelPatch.AddFieldPatch | src/patch/patch.ts:190-266 | one field of the object loop succeeds exactly when `FieldPatch` does, leaving its updates; a sub-model field holding a null or undefined entry on either side throws before any update |
| Patch.DeepModelPatch.EntryIds | src/patch/patch.ts:197-199 | `map(el => el[0])` succeeds exactly when no entry is null or undefined, and then gives each entry's id in order |
| Patch.DeepModelPatch.SubModelPatch | src/patch/patch.ts:195-237 | the two loops over entries end as the per-entry recursion followed by the push and pull of unmatched ids |
| Patch.DeepModelPatch.PatchEntries | src/patch/patch.ts:205-223 | given the ids read by `EntryIds` (so no entry is null or undefined), the loop over the old entries succeeds exactly when `EntriesPatch` does, and collects the old entries whose id is gone as the pulls |
| Patch.DeepModelPatch.PatchEntry | src/patch/patch.ts:206-222 | one old entry either is pulled (no change) or recurses into its matching new entry, advancing `EntriesPatch` by one entry |
| Patch.DeepModelPatch.NewEntries | src/patch/patch.ts:224-233 | the new entries whose id the old array lacks, in order, with their positions and whole payloads; called only once `EntryIds` has read every id, so no entry is null or undefined |
| DiffProps.UnmatchedMembers | src/patch/patch.ts:205-233 | an item is listed exactly when its position is in range, its key is missing from the other side, and it carries that position's value (also lines 245-261) |
| DiffProps.UnmatchedOrdered | src/patch/patch.ts:205-233 | the listed positions are strictly increasing (also lines 245-261) |
| DiffProps.UnmatchedNone | src/patch/patch.ts:205-233 | when every key occurs on the other side, nothing is listed |
| DiffProps.SubPullsSpec | src/patch/patch.ts:205-213 | the pulls are exactly the old entries whose id the new array lacks, tagged with their id |
| DiffProps.SubPushesSpec | src/patch/patch.ts:224-233 | the pushes are exactly the new entries whose id the old array lacks, carrying the whole entry |
| DiffProps.PrimitivePushesSpec | src/patch/patch.ts:248-254 | primitive pushes are exactly the new values missing from the old array |
| DiffProps.PrimitivePullsSpec | src/patch/patch.ts:255-260 | primitive pulls are exactly the old values missing from the new array |
| DiffProps.SetTwice | src/patch/patch.ts:139-146 | a second `$set` on the same path fails exactly when the first value was truthy |
| DiffProps.PushTwice | src/patch/patch.ts:139-180 | a second non-empty push or pull on the same path always fails |
| DiffProps.EntriesFitAt | src/patch/patch.ts:195-223 | every entry of an array fitting the sub-model schema is itself a fitting row |
| DiffProps.ObjectPatchSelf | src/patch/patch.ts:182-268 | diffing a fitting row against itself adds nothing |
| DiffProps.FieldsPatchSelf | src/patch/patch.ts:188-267 | the field loop over a row and itself adds nothing |
| DiffProps.FieldPatchSelf | src/patch/patch.ts:195-266 | a fitting field value diffed against itself adds nothing |
| DiffProps.EntriesPatchPerm | src/patch/patch.ts:205-223 | when every old entry occurs among the new ones, the entry loop adds nothing |
| DiffProps.DiffSelfEmpty | src/patch/patch.ts:182-268 | the patch of a payload against itself is empty (also lines 148-154) |
| DiffProps.ReorderNoChange | src/patch/patch.ts:195-237 | reordering the entries of a sub-model array produces no update |
| DiffProps.FieldsBeyondSchema | src/patch/patch.ts:188-192 | a row longer than the fields fails on the missing field |
| DiffProps.DiffShapeErrors | src/patch/patch.ts:184-192 | rows of different length throw "objects must have same size", and equal rows longer than the fields fail |
| DiffProps.PushPullKeys | src/patch/patch.ts:164-180 | on a path not used yet, the push and pull succeed and touch only that path |
| DiffProps.SetAtKeys | src/patch/patch.ts:160-162 | on a path not used yet, the set succeeds and touches only that path |
| DiffProps.ObjectPatchOk | src/patch/patch.ts:182-268 | for fitting rows and a prefix not used yet, the diff succeeds and writes only paths below the prefix |
| DiffProps.FieldsPatchOk | src/patch/patch.ts:188-267 | the field loop succeeds and writes only paths of the remaining fields |
| DiffProps.FieldPatchOk | src/patch/patch.ts:195-266 | one field succeeds and writes only at or below its path |
| DiffProps.EntriesPatchOk | src/patch/patch.ts:205-223 | the entry loop succeeds and writes only below the remaining entries' paths |
| DiffProps.EntriesFitIndexable | src/patch/patch.ts:197-199 | entries that fit the sub-schema are arrays, so reading their ids never throws |
| DiffProps.DiffOk | src/patch/patch.ts:182-268 | two payloads fitting the schema always diff without an error: no path is written twice (also lines 148-154) |
| PatchApply.IdsOrValues | src/patch/patch.ts:92 | the pushed values are the `idOrValue`s of the operation, in order |
| PatchApply.GetDeepFPtr | src/patch/patch.ts:115-137 | succeeds exactly when the as-written pointer resolution does, returning a fresh pointer on the record at the resolved index |
| PatchApply.ApplyUpdate | src/patch/patch.ts:78-113 | the record's new state and outcome are those of applying `$set`, then `$push`, then `$pull` as written |
| PatchApply.ApplySets | src/patch/patch.ts:80-85 | each `$set` entry, in order, is a pointer `set`; the first throw ends the stage |
| PatchApply.ApplyPushes | src/patch/patch.ts:87-94 | each `$push` entry appends its values to the field's value in place, bypassing `updatePayload` |
| PatchApply.ApplyPulls | src/patch/patch.ts:96-112 | each `$pull` entry sets the field to its value without the listed values (primitive) or ids (sub-model); a non-empty sub-model pull over a list holding a null or undefined entry throws at `val[0]` |
| ApplyProps.WithoutMembers | src/patch/patch.ts:102-110 | a value survives a pull exactly when it was there and its key (the value, or the entry's id) is not listed |
| ApplyProps.ApplyOpsAppend | src/patch/patch.ts:78-113 | applying two batches of slot operations is applying the first, then the second, stopping at the first error |
| ApplyProps.SetsAgree | src/patch/patch.ts:80-85 | for paths of at most two indices on a mutable record, the `$set` stage agrees with the corrected path walk |
| ApplyProps.PushesAgree | src/patch/patch.ts:87-94 | for such paths, the `$push` stage agrees with the corrected path walk |
| ApplyProps.PullsAgree | src/patch/patch.ts:96-112 | for such paths, the `$pull` stage agrees with the corrected path walk |
| ApplyProps.AsWrittenAgreesFlat | src/patch/patch.ts:78-137 | for patches without nested paths on a mutable record, `applyUpdate` as written succeeds exactly when the corrected replay does, and leaves the payload it computes |
| ApplyProps.ItemsSubFields | src/model/definition/fieldSubModelArray.ts:21-30 | the entry fields of the example sub-model field are `_id` then `n` |
| ApplyProps.ItemsEntryDiff | src/patch/patch.ts:182-268 | the example entry's diff is one `$set` at `0.0.1` |
| ApplyProps.ItemsDiff | src/patch/patch.ts:182-268 | changing `n` inside an entry gives one nested `$set` at `0.0.1` (also lines 148-154) |
| ApplyProps.ItemsReplay | src/patch/patch.ts:78-113 | the corrected replay of that patch, which descends into the entry and writes it back into the field's array, turns the old payload into the new one |
| ApplyProps.ItemsResolve | src/patch/patch.ts:44-76 | the corrected resolution of `0.0.1` reaches the `n` field through the entry |
| ApplyProps.NestedSetRejected | src/patch/patch.ts:57-68 | a patch the diff itself produces is refused by `applyUpdate` and `resolveIndicesString` as written, while the corrected walk applies and resolves it (also lines 125-133) |
| DiffApply.DiffFlat | src/patch/patch.ts:182-268 | on a schema without sub-model fields, the patch holds one `$set` per changed scalar field, one `$push` per array field that gains values and one `$pull` per array field that loses values, each under the field's index, in field order |
| DiffApply.FieldStep | src/patch/patch.ts:238-266 | the diff of one scalar or primitive array field appends that field's entries at the end of each dictionary, since no earlier field used its key |
| DiffApply.GainedLostValues | src/patch/patch.ts:248-261 | the pushed values are exactly the new values the old array lacks, and the pulled values exactly the old values the new array lacks |
| DiffApply.ApplyOne | src/patch/patch.ts:115-137 | with distinct field ids, one action on a one-index path changes that field's slot and no other |
| DiffApply.DiffThenApply | src/patch/patch.ts:78-113 | diff then apply: for distinct field ids and two payloads fitting a schema without sub-model fields, replaying the patch from `o` to `nw` on `o` succeeds; each scalar slot then equals `nw`'s and each array slot holds exactly `nw`'s values (also lines 182-268) |
| DiffApply.DiffThenApplyRecord | src/patch/patch.ts:78-137 | the same round trip through `applyUpdate` as written on a mutable record: every action succeeds and the record holds the replayed payload |
| PatchMerge.DecidedStaysErr | src/patch/patchMerge.ts:193-208 | once a decision throws, later conflicts do not change the outcome |
| PatchMerge.DeepModelPatchMerge.constructor | src/patch/patchMerge.ts:153-159 | the merger holds copies of the local and the remote patch |
| PatchMerge.DeepModelPatchMerge.StealKeyMatches | src/patch/patchMerge.ts:139-151 | the loop splits a dictionary into the entries below the prefix and the rest, each in order |
| PatchMerge.DeepModelPatchMerge.StealAll | src/patch/patchMerge.ts:97-103 | the fragment below the prefix and what is left of the other patch, for all three dictionaries |
| PatchMerge.DeepModelPatchMerge.GetSetConflicts | src/patch/patchMerge.ts:40-81 | returns the `$set` conflicts and leaves both patches' `$set` as `SetConflicts` computes |
| PatchMerge.DeepModelPatchMerge.ScanSets | src/patch/patchMerge.ts:43-78 | the loop over shared keys computes `SetConflicts` |
| PatchMerge.DeepModelPatchMerge.ScanEntry | src/patch/patchMerge.ts:95-134 | the loop over one pull entry's elements computes `ElementSteps` |
| PatchMerge.DeepModelPatchMerge.ScanElement | src/patch/patchMerge.ts:96-133 | one element either is kept, when the other patch has no key below it, or moves the other patch's keys below it into a new conflict beside a pull of this element: `ElementStep`, with `objEmpty` and the entry deletion corrected (Findings rows for lines 28 and 111-113) |
| PatchMerge.DeepModelPatchMerge.GetPullConflicts | src/patch/patchMerge.ts:83-137 | returns the pull conflicts, leaves the pulling side's `$pull` and the other patch as `PullConflicts` computes |
| PatchMerge.DeepModelPatchMerge.ScanPulls | src/patch/patchMerge.ts:87-135 | the loop over `$pull` entries computes `PullConflicts` |
| PatchMerge.DeepModelPatchMerge.AppendAll | src/patch/patchMerge.ts:211-223 | the loop merges entries into an array-operation dictionary as `AppendEntries` does |
| PatchMerge.DeepModelPatchMerge.ApplyDecisions | src/patch/patchMerge.ts:190-226 | the loop over conflicts computes `Decided` |
| PatchMerge.DeepModelPatchMerge.MergeChosen | src/patch/patchMerge.ts:209-223 | merging one chosen fragment gives `MergeFragment` |
| PatchMerge.DeepModelPatchMerge.SweepDict | src/patch/patchMerge.ts:242-251 | the loop over one dictionary computes the corrected `SweepSteps`, which appends a swept entry's elements to the result's under its key (Findings, line 247) |
| PatchMerge.DeepModelPatchMerge.TakeTurn | src/patch/patchMerge.ts:235-252 | one side's turn computes the corrected `TurnOf` over that side's own dictionaries |
| PatchMerge.DeepModelPatchMerge.MergeLeftovers | src/patch/patchMerge.ts:229-299 | the merged result and both patches end as the corrected `Leftovers` computes, which loses no element (`LeftoverArrays`) and empties both patches (`LeftoversEmpty`) |
| PatchMerge.DeepModelPatchMerge.MergePrimitives | src/patch/patchMerge.ts:254-296 | the loop over primitive keys computes `PrimitiveSteps` |
| PatchMerge.DeepModelPatchMerge.MergePrimitive | src/patch/patchMerge.ts:255-295 | one primitive key: the union of both sides' elements under it goes to the result when non-empty, and the key leaves both sides (`PrimitiveStep`) |
| PatchMerge.DeepModelPatchMerge.RunAndResolveByCb | src/patch/patchMerge.ts:167-300 | result and final patches are those of `Run` with the callback's answers. `Run` uses the corrected pull detection (lines 28 and 111-113) and the corrected leftover merge (lines 242-247); see Findings |
| PatchMerge.DeepModelPatchMerge.RunAndResolveWith | src/patch/patchMerge.ts:161-165 | the corrected `Run` with the same decision for every conflict; the caller passes the source's default `eAuto` explicitly. With `eAuto` no remote sub-model pull is lost (`AutoKeepsRemotePull`) |
| MergeProps.StealMembers | src/patch/patchMerge.ts:139-151 | stolen entries come from the dictionary and lie below the prefix; the others come from it and do not |
| MergeProps.StealPartition | src/patch/patchMerge.ts:139-151 | the stolen and the remaining entries together are the dictionary, as a multiset |
| MergeProps.StealNothing | src/patch/patchMerge.ts:139-151 | when nothing matches, the dictionary is left unchanged |
| MergeProps.ValueOfDelete | src/patch/patchMerge.ts:55-76 | deleting one key leaves every other key's value |
| MergeProps.ValueOfUnique | src/patch/patchMerge.ts:53 | with unique keys, looking up an entry's key gives its value |
| MergeProps.DeleteKeys | src/patch/patchMerge.ts:55-76 | after a delete, the keys are the old ones minus the deleted key |
| MergeProps.ValueOfAbsent | src/patch/patchMerge.ts:53 | a missing key reads as `undefined` |
| MergeProps.IntersectionDistinct | src/patch/patchMerge.ts:48 | the shared keys of distinct local keys are distinct |
| MergeProps.SetStepsShrink | src/patch/patchMerge.ts:50-78 | entries only leave the two `$set`s, and a processed key has left the local one |
| MergeProps.SetStepsConflicts | src/patch/patchMerge.ts:61-73 | the scan only appends conflicts, each of `$set` shape |
| MergeProps.SetConflictsDisjoint | src/patch/patchMerge.ts:40-81 | after the scan, no key is in both `$set`s, and every conflict holds one key with two different values, local by default |
| MergeProps.SetStepsFrame | src/patch/patchMerge.ts:50-78 | keys not processed in a stretch of the scan keep their values |
| MergeProps.SetStepsGone | src/patch/patchMerge.ts:75-76 | a key gone from the remote `$set` stays gone |
| MergeProps.SetStepAt | src/patch/patchMerge.ts:53-77 | processing a shared key removes it locally; equal values keep the remote one, different ones remove both |
| MergeProps.SetConflictsUnshared | src/patch/patchMerge.ts:48 | a key not set on both sides keeps its value on each side |
| MergeProps.SetConflictsShared | src/patch/patchMerge.ts:53-77 | a key set on both sides leaves the local side; it stays remote with the same value when both agree, and otherwise leaves both as a conflict |
| MergeProps.SetStepsSharedRemote | src/patch/patchMerge.ts:53-77 | a key visited once stays in the remote `$set` with its value when both sides agree, and otherwise leaves it for a local-versus-remote conflict |
| MergeProps.IdsBagAppend | src/patch/patchMerge.ts:87-135 | the pulled elements of two dictionaries together are those of each |
| MergeProps.AppendConflict | src/patch/patchMerge.ts:119-133 | adding a conflict adds its pulled element and its taken fragment |
| MergeProps.StealBag | src/patch/patchMerge.ts:139-151 | stealing moves entries from the dictionary to the taken ones without loss or duplication |
| MergeProps.StealPool | src/patch/patchMerge.ts:97-103 | stealing from all three dictionaries keeps the pool of the other patch plus the taken entries |
| MergeProps.StolenBelow | src/patch/patchMerge.ts:96-103 | every stolen entry lies below the conflict path |
| MergeProps.ElementStepIds | src/patch/patchMerge.ts:95-134 | each element is handled once: pulled in a conflict or kept in the entry |
| MergeProps.ElementStepsIds | src/patch/patchMerge.ts:95-134 | over one entry, the handled elements are exactly the entry's elements |
| MergeProps.ElementStepPool | src/patch/patchMerge.ts:96-110 | one element step neither loses nor duplicates an entry of the other patch |
| MergeProps.ElementStepsPool | src/patch/patchMerge.ts:95-134 | over one entry, the other patch plus the taken fragments stays the same pool |
| MergeProps.ElementStepShape | src/patch/patchMerge.ts:111-133 | one element step appends at most one conflict, a pull of that element against a fragment below it, and keeps the earlier conflicts |
| MergeProps.ElementStepsShape | src/patch/patchMerge.ts:111-133 | the element scan only appends conflicts, each pulling one element against a non-empty fragment below it |
| MergeProps.EntryElementsHandled | src/patch/patchMerge.ts:95-134 | the elements handled for an entry add the entry's elements to those pulled before |
| MergeProps.KeptEntry | src/patch/patchMerge.ts:111-113 | the entry left in `$pull` holds exactly the kept elements |
| MergeProps.EntryStepIds | src/patch/patchMerge.ts:87-135 | one entry step adds exactly that entry's elements to the accounted ones |
| MergeProps.EntryStepsIds | src/patch/patchMerge.ts:87-135 | over the scan, every pulled element is accounted for once |
| MergeProps.PullConflictsIds | src/patch/patchMerge.ts:83-137 | the elements left in `$pull` plus those pulled in conflicts are exactly the original pulled elements |
| MergeProps.EntryStepPool | src/patch/patchMerge.ts:87-135 | one entry step keeps the pool of the other patch plus taken entries |
| MergeProps.EntryStepsPool | src/patch/patchMerge.ts:87-135 | the whole scan keeps that pool |
| MergeProps.PullConflictsPool | src/patch/patchMerge.ts:83-137 | what is left of the other patch plus the conflicts' fragments is the other patch, nothing lost or duplicated |
| MergeProps.EntryStepShape | src/patch/patchMerge.ts:119-133 | one entry step only appends pull-shaped conflicts |
| MergeProps.EntryStepsShape | src/patch/patchMerge.ts:87-135 | the scan only appends pull-shaped conflicts |
| MergeProps.PullConflictsShape | src/patch/patchMerge.ts:83-137 | every pull conflict pulls one sub-model element, defaults to the pulling side, and opposes a non-empty fragment below it |
| MergeProps.DecidedOk | src/patch/patchMerge.ts:193-208 | applying decisions succeeds exactly when every conflict's decision is local or remote after resolving `eAuto` |
| MergeProps.DecidedNextOk | src/patch/patchMerge.ts:193-208 | one more decision succeeds exactly when the earlier ones did and it picks a side |
| MergeProps.DecidedFirstError | src/patch/patchMerge.ts:199-208 | the outcome is the first failing decision's error |
| MergeProps.DecidedErrAt | src/patch/patchMerge.ts:199-208 | after successful decisions, a decision that picks no side is the outcome of the prefix ending there |
| MergeProps.DetectAutoDecisions | src/patch/patchMerge.ts:61-133 | every detected conflict's automatic decision is local or remote |
| MergeProps.RunAutoMerges | src/patch/patchMerge.ts:161-197 | with the corrected pull detection and leftover merge, answering `eAuto` to everything always merges. As written, the source can throw at line 217 instead (`DecidedAsWrittenThrows`) |
| MergeProps.RunSideMerges | src/patch/patchMerge.ts:199-205 | with the corrected pull detection and leftover merge, answering local, or remote, to everything always merges. As written, the source can throw at line 217 instead (`DecidedAsWrittenThrows`) |
| MergeProps.RunNoneFails | src/patch/patchMerge.ts:190-207 | answering `eNone` merges exactly when there is no conflict, and otherwise throws for -1 |
| MergeProps.RunShortAnswerFails | src/patch/patchMerge.ts:194-207 | an answer list that is too short throws for `undefined` when there are conflicts |
| MergeProps.HasValueSpec | src/patch/patchMerge.ts:274-277 | a list has a value exactly when some element carries it |
| MergeProps.RemoteOnlySpec | src/patch/patchMerge.ts:272-277 | the remote elements kept are exactly those whose value the local list lacks |
| MergeProps.UnionHasValue | src/patch/patchMerge.ts:268-278 | the union has a value exactly when either side has it |
| MergeProps.UnionIdsSpec | src/patch/patchMerge.ts:268-278 | the union is the local list followed by exactly the remote elements with a new value, and has every value of both sides |
| MergeProps.UnionAsWrittenDuplicates | src/patch/patchMerge.ts:276-277 | as written, a value on both sides appears twice; corrected, once |
| MergeProps.UnionAsWrittenDrops | src/patch/patchMerge.ts:276-277 | as written, a remote value is dropped when a local value equals its position; corrected, it is kept |
| MergeProps.ValueOfPut | src/patch/patchMerge.ts:237 | a write under one key changes only that key's value |
| MergeProps.EntryOfPut | src/patch/patchMerge.ts:219-247 | a write under one key changes only that key's entry |
| MergeProps.EntryOfDelete | src/patch/patchMerge.ts:248-266 | a delete removes only that key's entry |
| MergeProps.PutEntriesLookup | src/patch/patchMerge.ts:209 | after `Object.assign`, a key reads the assigned value when it was assigned and its old value otherwise |
| MergeProps.SweepTarget | src/patch/patchMerge.ts:242-251 | the sweep only removes entries, and no swept non-primitive key is left |
| MergeProps.SweepPrimitive | src/patch/patchMerge.ts:244-245 | the primitive list keeps its keys, gains every primitive key swept, and nothing else |
| MergeProps.SweepResultIds | src/patch/patchMerge.ts:246-248 | corrected, after the sweep the elements under a key are the result's, followed by those of every swept non-primitive entry under that key |
| MergeProps.SweepClears | src/patch/patchMerge.ts:242-251 | a side swept over its own dictionary keeps nothing under a key with no primitive entry |
| MergeProps.SweepDrained | src/patch/patchMerge.ts:242-251 | a side swept over its own dictionary keeps only primitive entries, all listed |
| MergeProps.DeleteAllSpec | src/patch/patchMerge.ts:265-266 | after deleting a list of keys, every entry left was there and has none of those keys |
| PatchMerge.PrimitiveSteps | src/patch/patchMerge.ts:254-296 | the primitive loop leaves the result's `$set` alone and drops each listed key from both working patches |
| MergeProps.PrimitiveStepsSides | src/patch/patchMerge.ts:264-265 | after the primitive loop, both patches' `$push` and `$pull` dictionaries are the originals with every listed key deleted, and the `$set`s are unchanged |
| MergeProps.Emptied | src/patch/patchMerge.ts:254-296 | a dictionary whose every key is deleted ends empty |
| MergeProps.TurnDrained | src/patch/patchMerge.ts:235-252 | after a side's turn, its `$set` is empty and every entry left is a listed primitive key |
| MergeProps.LeftoversEmpty | src/patch/patchMerge.ts:229-299 | after merging the leftovers, both working patches are empty: every entry was moved to the result or folded into a primitive union |
| MergeProps.LeftoverSetsWin | src/patch/patchMerge.ts:234-239 | in the result, a local `$set` wins over a remote one, which wins over a decided one |
| MergeProps.IdsAtDelete | src/patch/patchMerge.ts:265-266 | deleting a key empties its list and leaves the others |
| MergeProps.IdsAtAbsent | src/patch/patchMerge.ts:258-263 | a missing key has an empty list |
| MergeProps.IdsAtPut | src/patch/patchMerge.ts:291-294 | a write under one key changes only that key's elements |
| MergeProps.PrimitiveStepsKeep | src/patch/patchMerge.ts:254-296 | a key with no `$push` (or no `$pull`) elements left on either side keeps the result's elements there |
| MergeProps.PrimitiveStepsClear | src/patch/patchMerge.ts:265-266 | the primitive loop only deletes from the two sides, so a key with no elements there keeps none |
| MergeProps.TurnIds | src/patch/patchMerge.ts:235-252 | corrected, a side's turn appends the elements of its non-primitive entries under a key to the result's and leaves none of them behind |
| MergeProps.LeftoverArrays | src/patch/patchMerge.ts:229-299 | corrected, under a key where neither side has a primitive entry, the merged `$push` (or `$pull`) elements are the decided ones, then the remote side's, then the local side's: none is lost |
| MergeProps.LeftoversAsWrittenLosesLocalPush | src/patch/patchMerge.ts:242-243 | as written, a local sub-model push is never moved to the result; corrected, it is |
| MergeProps.LeftoversAsWrittenOverwritesPull | src/patch/patchMerge.ts:247 | as written, the remote pull of `y` left under `5` replaces the pull of `x` that a decision put there; corrected, both `x` and `y` are pulled |
| MergeProps.DetectNoPrimitive | src/patch/patchMerge.ts:83-135 | conflict detection creates no primitive `$pull` under a key where the inputs have none |
| MergeProps.DetectReach | src/patch/patchMerge.ts:83-135 | after detection, each element of a remote sub-model pull is still in the remote `$pull` under its key or pulled by a remote conflict, unless a local pull key lies above it |
| MergeProps.AutoDecidedHas | src/patch/patchMerge.ts:193-223 | a remote pull conflict decided `eAuto` leaves its element in the decided `$pull` under its key, through all later decisions |
| MergeProps.AutoKeepsRemotePull | src/patch/patchMerge.ts:161-299 | under `eAuto`, every element of a remote sub-model `$pull` is in the merged `$pull` under the same key, whether a conflict pulled it or not |
| MergeProps.ExampleStealsFirst | src/patch/patchMerge.ts:96-103 | the first element of the example steals only the set below `5.0` |
| MergeProps.ExampleStealsSecond | src/patch/patchMerge.ts:96-103 | the second element steals the set below `5.1` |
| MergeProps.PullConflictsAsWrittenDropsUndefinedSet | src/patch/patchMerge.ts:28 | as written, a `$set` to `undefined` below a pulled entry raises no conflict and is gone from the other patch (also lines 100-109 and 147); corrected, it moves into a conflict beside the pull of that entry |
| MergeProps.RemotePullConflictsAsWritten | src/patch/patchMerge.ts:95-131 | as written, remote pulls at positions 0 and 1 under `5` against local sets of `5.0.7` and `5.1.7` raise two conflicts: the first holds the whole entry, the second `undefined` |
| MergeProps.DecidedAsWrittenThrows | src/patch/patchMerge.ts:193-221 | as written, deciding those two conflicts by `eAuto`, or remote for both, throws the TypeError of reading `idsAndPositions` of `undefined` at line 217 |
| PatchMerge.AppendRawPull | src/patch/patchMerge.ts:211-221 | merging a conflict's pull side into the result, as written, throws exactly when the entry is `undefined` and the key already has an entry |
| MergeProps.PullConflictsAsWrittenLosesPull | src/patch/patchMerge.ts:111-113 | as written, the second conflicting element of one pull entry gets no pull; corrected, each conflict pulls its own element |
| MergeProps.IdsAtEntry | src/patch/patchMerge.ts:216-220 | a key's list is its entry's list, or empty without an entry |
| MergeProps.AppendEntryIds | src/patch/patchMerge.ts:216-220 | merging one entry appends its elements under its key and leaves other keys |
| MergeProps.AppendEntriesIds | src/patch/patchMerge.ts:211-223 | merging a dictionary with unique keys appends each key's elements |
| MergeProps.IdsAtUnique | src/patch/patchMerge.ts:216 | with unique keys, an entry's key gives its list |
| MergeProps.MergeFragmentSpec | src/patch/patchMerge.ts:209-223 | a chosen fragment's sets overwrite, and its push and pull elements are appended under each key |
| Values.Lookup | src/model/definition/definition.ts:91 | a property read that finds something finds a value stored under that key |
| Values.Put | src/model/definition/definition.ts:104-107 | after `obj[key] = val` the key reads `val`, every other key reads as before, the key set gains only `key`, and an existing key keeps its place |
| Values.IndexOf | src/patch/patch.ts:207-226 | `indexOf` is -1 exactly when the value is absent, and otherwise the first position holding it |
| Values.Ids | src/patch/patch.ts:198-199 | one id per entry, `el[0]`: slot 0 of an array entry, the first character of a string, property "0" of an object; the callers rule out null and undefined entries first, where the source throws |
| Dict.LookupEntry | src/patch/patch.ts:141 | a dictionary read finds something exactly when some entry has the key |
| Dict.PutEntryNew | src/patch/patch.ts:145 | writing a new key appends it last, keeping insertion order |
| Dict.PutEntryLookup | src/patch/patch.ts:145 | a write changes the value under that key only |
| Dict.PutAllDistinct | src/filter/filter.ts:64-67 | writing distinct keys in turn gives exactly those pairs, in order |
| Dict.PutAllHas | src/filter/filter.ts:64-67 | every written key can be read back |
| Dict.DeleteSpec | src/patch/patchMerge.ts:55 | after `delete`, the key is gone and every other entry is still there |
| Dict.KeysOf | src/patch/patchMerge.ts:45-46 | `Object.keys` lists one key per entry, in the model's insertion order. For integer-like keys the source's order is ascending instead; see the "Key order" line under Left out |

## Left out

- Validator.EnumLookup, Validator.EnumAcceptsExactlyListed: the key string of a number with a fractional part or of magnitude 10^21 or more, and of an array holding such a number, is not modelled. For those values the lookup finds nothing, whereas the source reads the property named by the decimal or exponent form (an enumerator with a key `"1.5"` accepts `1.5`). The inherited members are those of `Object.prototype`; an enumerator with another prototype chain is not modelled.
- src/patch/branch.ts, src/patch/model_branch.ts and src/patch/selectionBranch.ts are not part of this model. They only chain diff, merge and apply through promises.
- Promises: `runAndResolveByCb` takes its callback as a function from the conflict list to a decision list. Asynchronous ordering is not modelled.
- `clone` (deep copy) is a value copy. `ImmutableArray` is a `seq<Value>`. `generateID` is the `freshId` parameter of `pushChild`.
- `JSON.stringify` comparison at src/patch/patch.ts:263 is structural equality of `Value`s.
- PatchMerge.SetConflicts, PatchMerge.DeepModelPatchMerge.GetSetConflicts: `===` at src/patch/patchMerge.ts:53 compares identity. Both patches are deep clones, so two `$set` values that are objects, arrays or dates never compare equal there. The source therefore always reports a conflict for them, while the model compares structurally and drops a shared equal value as it does for primitives.
- `ValidatorRegex` and the e-mail validator (src/model/definition/description/validator.ts:68-91) need a regular-expression engine.
- Numbers are `real`. NaN, infinities and rounding are not modelled, and the integer check `value % 1` is exact.
- Object-identity keys are integer field ids. This covers the filter's `Map` keyed by field description and `getFieldIndex`'s `===`. Two descriptions with the same id count as the same field.
- FieldPointer.FPtr.Set: requires the pointer's field to be in the definition. For a foreign field `getFieldIndex` gives -1 and the source still calls `updatePayload(-1, v)` (src/model/fPtr.ts:9-15), which ends in `ImmutableArray.set(-1, v)`. The `typescript-immutable` library is not part of this model, so that write is not modelled.
- Key order: `Object.keys` and `for ... in` list integer-like keys (a one-index patch path such as `"3"`) first, in ascending order. The model keeps insertion order for every key.
- Filter.RestoredFaithful, Filter.JsonRoundTrip: `fromJSON` walks the JSON object with `for ... in` (src/filter/filter.ts:33), whose keys are field indices, so the source restores the fields in ascending field-index order. The model restores them in the order `toJson` wrote them, which is the original filter's order.
- Field.PushValidators, Field.PushValidatorRequired: the source appends to the description's `_validators` in place. The model returns a new description, so aliasing of a description shared by several definitions is not captured.
- PatchApply.ApplyPushes: `get().push(...)` extends the array inside the payload in place. The model writes the extended array into the payload without going through `updatePayload`. It does not capture the sharing of that array with clones made earlier by `getClone`.
- `getMetadata`, `getIdIncModule`, `name`, `initialFor`, `getStructuredPayloadCopy` and the `fPtr`/`fPtrSubModel` factories (src/model/model.ts) are not modelled. They are getters or one-line compositions of modelled operations.
- `getDescSegment`, `getDefaultData` and the getters of src/model/definition/definition.ts are field reads and are not modelled separately.
- Model.DeepModel.MutationScope, Model.ScopeDeliversOnce: the scope's callback is a list of `updatePayload` writes. Callbacks that nest scopes or do other work are not modelled.
- The object literal at src/model/definition/fieldSubModelArray.ts:24-27 lacks a comma between the `_id` entry and the spread, which is a syntax error. The model follows the evident intent: `_id` first, then the given keys.
- MergeProps.LeftoverSetsWin, MergeProps.MergeFragmentSpec, MergeProps.PutEntriesLookup, MergeProps.AppendEntriesIds: they assume the dictionaries involved have unique keys. Every dictionary written through `PutEntry` has them, but that invariant is not carried through the model.
- MergeProps.LeftoverArrays, MergeProps.AutoKeepsRemotePull: a primitive entry under the same key on either side is excluded. The primitive union then overwrites the key with primitive elements only (src/patch/patchMerge.ts:290-295), and the sub-model elements under it are lost in the model as in the source. AutoKeepsRemotePull also excludes a local `$pull` key above the remote one, whose conflicts may take the remote pull away.
- Patch.EntriesPatch, Patch.DeepModelPatch.PatchEntries, Patch.DeepModelPatch.PatchEntry: a matched old and new entry that are not both arrays fail with `map is not a function`. The source recurses into them instead (src/patch/patch.ts:214-221, 184-188): two numbers or booleans have no `length` and give no update, a number against an array throws `objects must have same size`, and strings of equal length are diffed character by character against the sub-definition's fields. These outcomes are not modelled.
- Patch.Unmatched, Patch.PrimitivePushes, Patch.PrimitivePulls, Patch.SubPushes, Patch.SubPulls, PatchApply.Without, PatchApply.PullKey: `indexOf` and `===` (src/patch/patch.ts:207, 226, 253-254, 259-260 and 103-109) compare objects, arrays and dates by identity. Such an id or array element never matches a copy in the source. The model compares structurally, so it matches an equal value.
- Range.RangeConstraint, Distinct.DistinctConstraint, FilterField.FieldConstraint, Filter.Filter, FilterModel.ModelPassesFilter: constraint values are fixed to `real`. The source is generic in `TVal`, so strings and dates can be bounds or listed values, compared by JavaScript's `<`, `>` and `===`. Those value types are not modelled.
- Validator.CheckFor, Field.DefaultVal, Field.NewSubModelArray: the "not implemented" errors stop before the suffix naming the field type (src/model/definition/description/validator.ts:58-59, src/model/definition/description/field.ts:60). The suffix prints the numeric value of `EFieldType`, whose definition is not part of this model.
- Definition.DeepModelDefinition: reading the `fields` getter (src/model/definition/definition.ts:27-29) before the first `_readDesc` throws in the source. The model keeps `fieldsRead` for it, and only `GetFieldIndex`, `DocumentToArr` and `ArrToDocument` check it. The source also reads `fields` or calls `getFieldIndex` in src/filter/filter.ts:38, 66, 73, 75, src/patch/patch.ts:54, 121, 192 and src/model/fPtr.ts:10. The model's Filter, Patch, PatchApply and FieldPointer members instead take the field list of a definition already read (a `seq<FieldMeta>` or the record's fields). The TypeError those calls raise on an unread definition is not modelled.
- DiffApply.DiffThenApply, DiffApply.DiffThenApplyRecord: proved only for schemas without sub-model fields. With entries, a matched entry is diffed under a two-index path; the replay must then descend and write the entry back, and the sub-model push and pull must land at the right positions. The example in ApplyProps.ItemsReplay covers one such patch, not all inputs. An array slot is equal to the target's as a set of values, not as a sequence: `$push` appends at the end and `$pull` drops every copy of a value, so order and duplicates are not restored.
- ApplyProps.SetsAgree, ApplyProps.PushesAgree, ApplyProps.PullsAgree, ApplyProps.AsWrittenAgreesFlat: stated only for a mutable record (`eOff`) and paths of at most two indices. In immutable mode each write goes to the change callback instead, and longer paths throw as written (see Findings).
- Distinct.DistinctConstraint.AndRange, Distinct.PassingRange: they filter with the corrected `Range.Passes`, not the as-written one, and so does every member built on `Range.Passes` (the field, filter and model checks and their lemmas).
- FieldPointer.ChildStart, FieldPointer.FPtrSub.GetChildModels, Definition.MapArrToDoc: a sub-model entry that is a string, number, boolean or object (neither an array nor null/undefined) is read as an empty payload. JavaScript would index a string's characters and an object's numeric properties.
- FilterModel.ModelPassesFilter: the range comparisons treat every string and array slot as NaN, which no bound rejects. JavaScript converts numeric strings, the empty string and one-element arrays to numbers first. The comparisons use the corrected `Range.Passes`.

## Findings

Each row names a defect in the source, the member that models the code as written with the lemma showing the discrepancy, and the corrected member the rest of the model uses.

| source | as written | input that shows it | evidently intended | confidence | as-written member | corrected member |
|---|---|---|---|---|---|---|
| src/filter/contraints/range.ts:59-83 | `passes` rejects with the operators inverted: in strict mode it rejects only values above the bound, and in inclusive mode it also rejects the bound itself | inclusive `[5, 5]`: fulfillable, yet `passes` rejects every value; strict `< 5`: `passes(5)` is true while `toMongo` emits `$lt: 5` | strict bounds exclude the bound, inclusive bounds include it, agreeing with `toMongo` and `isFullfillable` | high (not executed) | Range.PassesAsWritten, Range.PassesAsWrittenContradictsFullfillable, Range.PassesAsWrittenDisagreesWithMongo | Range.Passes, Range.FullfillableIffSatisfiable, Range.ToMongoMeansPasses |
| src/filter/contraints/range.ts:151 | the complement of the lower bound picks its operator from `_ltMode` instead of `_gtMode` | subtracting `> 5` (upper bound inclusive by default) from an unconstrained range gives `< 5`, losing the value 5 | `_gtMode`: the complement of `> 5` is `<= 5` | high (not executed) | Range.SubtractAsWritten, Range.SubtractAsWrittenMissesBoundary | Range.Subtract, Range.SubtractCoversComplement |
| src/filter/contraints/distinct.ts:37 | `clone` copies the new object's own empty list instead of `this._filterValues` | the clone of IN `[1]` holds no values and rejects 1 | `copy._filterValues = this._filterValues.slice()` | high (not executed) | Distinct.CopyAsWritten, Distinct.CloneAsWrittenLosesValues, FilterField.CopyAsWrittenLosesValues, Filter.UnensuredAsWrittenUnsound | Distinct.Copy, Filter.UnensuredSound, Filter.UnensuredCovers |
| src/patch/patch.ts:125-133 | the sub-model test (here and at lines 62-67) applies `instanceof DescFieldSubModelArray` to the field-metadata record, which is never such an instance; `resolveIndicesString` also keeps reading the root definition's fields. Past that test, the pointer is taken on a child record from `getChildModels`, which `subModelFor` (src/model/model.ts:205-212) builds detached when the record is mutable, so a write through it never reaches the parent's array | the diff's own nested `$set` at `0.0.1` (one entry's `n` changed) is refused by `applyUpdate` and `resolveIndicesString`; with the test fixed, on a mutable record the write lands in the throwaway child | test `fieldMeta.field`, descend into the sub-definition, and write the changed entry back into the parent field's array | high (not executed) | PatchApply.PointerAsWritten, PatchApply.ResolveIndicesAsWritten, ApplyProps.NestedSetRejected, FieldPointer.UpdateChildLostWhenMutable | PatchApply.AtPath, PatchApply.ResolveIndices, ApplyProps.ItemsReplay, ApplyProps.ItemsResolve |
| src/patch/patchMerge.ts:111-113 | the first conflicting element of a pull entry moves the whole entry into its conflict and deletes it; a later element of the same entry gets `undefined` as its pull | remote pull of ids at positions 0 and 1 under `5`, with the local side setting `5.0.7` and `5.1.7`: the second conflict pulls nothing. Under `eAuto`, or remote for both, the first conflict puts the entry in the result, and line 217 then reads `idsAndPositions` of the second conflict's `undefined` entry and throws a TypeError | each conflict pulls its own element; elements without a conflict stay in `$pull` | medium (not executed) | PatchMerge.EntryConflictsAsWritten, PatchMerge.DecidedRawAsWritten, MergeProps.PullConflictsAsWrittenLosesPull, MergeProps.DecidedAsWrittenThrows | PatchMerge.ElementSteps, MergeProps.PullConflictsIds, MergeProps.PullConflictsPool, MergeProps.RunAutoMerges, MergeProps.RunSideMerges |
| src/patch/patchMerge.ts:28 | `objEmpty` tests `JSON.stringify(obj) === '{}'`, which leaves out undefined-valued properties; a stolen fragment whose `$set` values are all `undefined` counts as empty, after `_stealKeyMatches` (line 147) has already removed those keys from the other patch | remote `$pull` of the entry at position 0 under `5`, local `$set` of `5.0.7` to `undefined` (the diff emits such a set when a slot becomes undefined, src/patch/patch.ts:263-265): no conflict, and the set is gone from the local patch | a fragment is empty only when it has no keys; the stolen set goes into a conflict beside the pull | medium (not executed) | PatchMerge.ObjEmptyAsWritten, PatchMerge.EntryConflictsAsWritten, MergeProps.PullConflictsAsWrittenDropsUndefinedSet | PatchMerge.IsEmpty, PatchMerge.ElementSteps, MergeProps.PullConflictsPool |
| src/patch/patchMerge.ts:242-243 | both sides' turns read `this._fromRemotePatch[key]` instead of `update[key]` | a local patch whose only change is a sub-model push under `0`: the merge result has no push | iterate the current side's dictionary | high (not executed) | PatchMerge.LeftoversAsWritten, MergeProps.LeftoversAsWrittenLosesLocalPush | PatchMerge.Leftovers, MergeProps.LeftoverArrays, MergeProps.LeftoversEmpty |
| src/patch/patchMerge.ts:247 | a swept sub-model entry is assigned over whatever the decisions already put under its key | local `$pull` of sub-model id `x` at position 0 under `5`; remote `$set` of `5.0.7` and remote `$pull` of id `y` at position 1 under `5`. `y` finds nothing below `5.1` and stays in the remote patch. `x` steals `5.0.7` and becomes an `eLocal` conflict, and `eAuto` puts `[x]` under `5` in the result. The remote turn's line 247 then assigns `[y]` over it, so `x` is never pulled | append the swept elements to the result's entry, as the decisions do at lines 216-220 | high (not executed) | PatchMerge.LeftoversAsWritten, MergeProps.LeftoversAsWrittenOverwritesPull | PatchMerge.Leftovers, MergeProps.LeftoverArrays, MergeProps.AutoKeepsRemotePull |
| src/patch/patchMerge.ts:276-277 | the union compares a local value with a remote element's position | local `[7 at 0]`, remote `[7 at 3]` gives 7 twice; local `[3 at 0]`, remote `[9 at 3]` drops 9 | compare values: `localVal.idOrValue === remoteVal.idOrValue` | high (not executed) | PatchMerge.UnionIdsAsWritten, MergeProps.UnionAsWrittenDuplicates, MergeProps.UnionAsWrittenDrops | PatchMerge.UnionIds, MergeProps.UnionIdsSpec, MergeProps.UnionHasValue |
