# Formik form engine and field-array helpers, modelled in Dafny

This project models the core of the Formik form library: the class-based
form engine of `packages/formik/src/Formik.tsx` and the array helpers of
`packages/formik/src/FieldArray.tsx`.

The engine keeps one state record: `values`, `errors` and `touched`, plus
`status`, `isSubmitting`, `isValidating` and `submitCount`. It also keeps an
initial snapshot that `resetForm` returns to, a registry of fields with their
own validators, and a mount flag. On top of that sit:

- the setters;
- reset and reinitialisation on new props;
- submission;
- whole-form and single-field validation;
- the read-only queries `getFieldMeta`, `getFieldProps`, `isValid` and `isDirty`.

Validation merges three sources, each turned into an error tree:

- field-level validators;
- a Yup-style schema, whose failures go through `yupToFormErrors` after
  `prepareDataForValidation`;
- a form-level `validate` function.

The three trees are combined with a deep merge that uses Formik's own
`arrayMerge`.

`<FieldArray>` edits one array-valued field through helpers: `push`, `swap`,
`move`, `insert`, `replace`, `unshift`, `remove` and `pop`. Each helper hands a
transformer to `setFormikState`. That transformer rewrites the field's entry in
the values, errors and touched trees in one commit.

Files:

- `js_values.dfy` (module `JsValues`): the JavaScript values held in the three
  trees, their truthiness, and the array primitives: indexing, index
  assignment, `splice` and `indexOf`.
- `path_store.dfy` (module `PathStore`): what the engine relies on from
  `getIn`, `setIn` and `setNestedObjectValues`. It includes read-after-write,
  the frame of a write, and the shape of the touch-all of a submit.
- `validation.dfy` (module `Validation`): `yupToFormErrors`,
  `prepareDataForValidation`, the field-level reduce, `arrayMerge`, and how each
  validator's outcome becomes an error tree.
- `field_binding.dfy` (module `FieldBinding`): `getValueForCheckbox` and
  `getSelectedValues`.
- `formik.dfy` (module `Engine`): the `Formik` class and its operations.
- `field_array.dfy` (module `FieldArrays`): `copyArrayLike`, the copy-then-edit
  array functions, `updateArrayField`, each helper as a state transformer, and
  the `FieldArray` class that commits them onto an engine.

Asynchronous operations are cut at each `await`. One method starts the
operation. A second method takes the settled outcome, which is a parameter of
the model, and finishes it. Validators, the schema, the submit handler and the
deep merge are never called. Their results, or the merge itself, are inputs.

## Model

| member | source | states |
|---|---|---|
| JsValues.Assign | packages/formik/src/FieldArray.tsx:105 | `copy[i] = v` leaves `v` at `i` and every other index as it read; an index past the end extends the array with undefined slots |
| JsValues.SpliceRemove | packages/formik/src/FieldArray.tsx:72 | `splice(i, 1)` removes exactly index `i` and shifts the rest down; a start past the end removes nothing |
| JsValues.SpliceInsert | packages/formik/src/FieldArray.tsx:95 | `splice(i, 0, v)` grows the array by one with `v` at `i`, clamped to the end, and every old element one place further from `i` |
| JsValues.IndexOf | packages/formik/src/Formik.tsx:951 | `indexOf` is -1 exactly when the value is absent; otherwise it is the position of its first occurrence |
| PathStore.GetSet | packages/formik/src/Formik.tsx:372-376 | reading a path right after `setIn` wrote it gives the written value |
| PathStore.GetSetOther | packages/formik/src/Formik.tsx:378-391 | `setIn` at one path leaves every path that parts ways with it unchanged |
| PathStore.TouchAllShape | packages/formik/src/Formik.tsx:577-581 | the touched tree built at submit has exactly the paths of the values, with `true` at every leaf and undefined elsewhere |
| Validation.YupToFormErrors | packages/formik/src/Formik.tsx:838-851 | without `inner` the errors are `{}`; with an empty `inner` the error's own message sits at its own path and nowhere else; otherwise it is the left-to-right recording of `inner` |
| Validation.RecordAllAt | packages/formik/src/Formik.tsx:844-848 | at each path the first non-empty message of the issues at that path wins, unless an error was already there |
| Validation.FirstMessageWinsExample | packages/formik/src/Formik.tsx:844-848 | two failures at `email`: the first message is kept |
| Validation.PrepareDataForValidation | packages/formik/src/Formik.tsx:872-895 | the `for…in` loop yields the normalised copy of the values: arrays and plain objects are entered, and empty-string leaves become undefined |
| Validation.PrepareEntry | packages/formik/src/Formik.tsx:879-891 | one key's value is normalised: an array element by element, an object recursively, a leaf by the blank rule |
| Validation.PreparedAt | packages/formik/src/Formik.tsx:872-895 | normalising keeps every path present and commutes with every lookup |
| Validation.LeafNormalised | packages/formik/src/Formik.tsx:884-890 | exactly the empty-string leaves become undefined; array lengths and object key sets are kept |
| Validation.PreparedIdempotent | packages/formik/src/Formik.tsx:872-895 | normalising twice is normalising once |
| Validation.ValidatedFields | packages/formik/src/Formik.tsx:235-237 | a path is kept exactly when some registration of it has a function validator: none when no field has one, all when every field has one |
| Validation.ValidatedFieldsConcat | packages/formik/src/Formik.tsx:235-237 | the kept fields are in registry order: the filter of a split registry is the two filters one after the other |
| Validation.CollectAt | packages/formik/src/Formik.tsx:247-257 | in the reduce over field results, each field's path ends up holding its own result if truthy and not the placeholder, and the previous value otherwise |
| Validation.FieldErrorAt | packages/formik/src/Formik.tsx:247-257 | for fields that never overlap, each validated field's path holds its own truthy result and nothing otherwise |
| Validation.ErrorsOnlyForValidatedFields | packages/formik/src/Formik.tsx:235-257 | a path apart from every registered field with a function validator gets no field-level error, whatever else is registered there |
| Validation.FieldErrorsNowhereElse | packages/formik/src/Formik.tsx:247-257 | no error appears at a path outside every validated field |
| Validation.NoValidatorsNoErrors | packages/formik/src/Formik.tsx:240-256 | with no field validator, the placeholder result is dropped and the field errors are `{}` |
| Validation.SentinelSkipped | packages/formik/src/Formik.tsx:249-251 | the placeholder string leaves the accumulated errors alone |
| Validation.FirstRejection | packages/formik/src/Formik.tsx:247 | there is no rejection exactly when every validator fulfilled; a reported rejection is one of the validators' own |
| Validation.RunFieldLevelValidations | packages/formik/src/Formik.tsx:232-258 | the pass rejects exactly when some field validator rejected, with one of their reasons; otherwise it gives the reduce of the results |
| Validation.ArrayMerge | packages/formik/src/Formik.tsx:901-918 | slots inside the target take the source element when undefined, are deep-merged with a mergeable element, and are kept otherwise; for a source no longer than the target, the appended tail is `Pushed` |
| Validation.PushedNotInTarget | packages/formik/src/Formik.tsx:913-914 | `arrayMerge` never appends an element the target already holds, nor a mergeable one |
| Validation.PushedFromSource | packages/formik/src/Formik.tsx:913-914 | every appended element comes from the source |
| Validation.RunValidateHandler | packages/formik/src/Formik.tsx:147-177 | `validate` rejects exactly when it threw or its promise rejected, with that reason; a nullish return or a falsy fulfilment gives `{}`; any other return or fulfilment is the errors |
| Validation.RunValidationSchema | packages/formik/src/Formik.tsx:182-221 | a pass gives `{}`; a `ValidationError` is converted: without `inner` to `{}`, with an empty `inner` to its message at its path alone, otherwise by recording every issue; any other rejection propagates with its reason, and only then does the step reject |
| Validation.RunAllValidations | packages/formik/src/Formik.tsx:261-273 | the pass rejects exactly when a source rejected, with that source's reason; otherwise it is the deep merge from `{}` of field, schema and `validate` errors in that order |
| FieldBinding.GetValueForCheckbox | packages/formik/src/Formik.tsx:928-969 | a boolean field stays boolean, and so does a non-array field with a boolean-like value; otherwise the field is an array that loses the first occurrence of a present value, order kept, gains an absent truthy value when checked, and is otherwise kept |
| FieldBinding.ToggleRendersChecked | packages/formik/src/Formik.tsx:928-969 | after a change event the box renders exactly as the event said, for a value held at most once (with `getFieldProps`'s checked rule) |
| FieldBinding.CheckThenUncheck | packages/formik/src/Formik.tsx:955-968 | checking an absent value and then unchecking it gives the array back |
| FieldBinding.UncheckThenCheck | packages/formik/src/Formik.tsx:955-968 | unchecking then checking keeps the same values, with the value moved last |
| FieldBinding.GetSelectedValues | packages/formik/src/Formik.tsx:921-925 | the selection is no longer than the options |
| FieldBinding.SelectedMembership | packages/formik/src/Formik.tsx:921-925 | a value is chosen exactly when some selected option carries it |
| FieldBinding.SelectedConcat | packages/formik/src/Formik.tsx:921-925 | the selection keeps document order across any split of the options |
| FieldBinding.AllSelected | packages/formik/src/Formik.tsx:921-925 | with every option selected, all values come back in order |
| Engine.Lookup | packages/formik/src/Formik.tsx:293 | the registry entry of a name is its first occurrence; there is none exactly when no entry has that name |
| Engine.RegistryPut | packages/formik/src/Formik.tsx:332-336 | the name then maps to the new registration; other entries keep their place; names stay unique; it grows only for a new name |
| Engine.RegistryRemove | packages/formik/src/Formik.tsx:338-340 | exactly the entries with other names remain, and the name is no longer found |
| Engine.RegistryRemoveUnique | packages/formik/src/Formik.tsx:338-340 | deleting a key from a registry whose names are unique leaves the names unique, so one field is registered at most once |
| Engine.FieldValidatorAsWritten | packages/formik/src/Formik.tsx:293-294 | reading `fieldRegistry[name].validate` throws exactly when the name is unregistered |
| Engine.FieldHasValidator | packages/formik/src/Formik.tsx:294 | true exactly when the name is registered with a function validator; then the as-written read does not throw |
| Engine.UnregisteredFieldCrashes | packages/formik/src/Formik.tsx:293-294 | on an empty registry the as-written read throws, while the intended guard skips |
| Engine.SchemaFieldErrorAsWritten | packages/formik/src/Formik.tsx:321 | `error[name]` finds the error only for a one-step name |
| Engine.SchemaFieldError | packages/formik/src/Formik.tsx:315-324 | the error at the field's path, which agrees with the as-written read for one-step names |
| Engine.NestedSchemaErrorLost | packages/formik/src/Formik.tsx:315-324 | a schema error at `friends.0.name` is dropped as written and kept as intended |
| Engine.ResetSnapshot | packages/formik/src/Formik.tsx:519-543 | each part of the new snapshot comes from a truthy override, else the stored snapshot, else the props; errors and touched are never falsy |
| Engine.ResetState | packages/formik/src/Formik.tsx:545-559 | the dispatched state carries the snapshot, the truthiness of the override flags, and a numeric `submitCount` or 0 |
| Engine.ResetTwice | packages/formik/src/Formik.tsx:510-573 | a second `resetForm()` after any reset re-stores the same snapshot and dispatches it with `isSubmitting` and `isValidating` false and `submitCount` 0, whatever override the first reset carried |
| Engine.Formik.constructor | packages/formik/src/Formik.tsx:66-83 | state and snapshot both start from the props, with `{}` for missing errors and touched; the registry is empty |
| Engine.Formik.Unmount | packages/formik/src/Formik.tsx:139-141 | only the mount flag changes |
| Engine.Formik.ValidationStarted | packages/formik/src/Formik.tsx:276-278 | only `isValidating` is raised |
| Engine.Formik.ValidationSettled | packages/formik/src/Formik.tsx:279-284 | a mounted engine stores the combined errors and clears `isValidating`; a rejection or an unmounted engine changes nothing |
| Engine.Formik.RegisterField | packages/formik/src/Formik.tsx:332-336 | the registry becomes `RegistryPut`, and the field validates exactly when its validator is a function |
| Engine.Formik.UnregisterField | packages/formik/src/Formik.tsx:338-340 | the registry becomes `RegistryRemove`, and the field no longer validates |
| Engine.Formik.SetTouched | packages/formik/src/Formik.tsx:342-354 | touched is replaced; validation starts when asked to or, by default, under `validateOnBlur` |
| Engine.Formik.SetErrors | packages/formik/src/Formik.tsx:356-358 | only the errors change |
| Engine.Formik.SetValues | packages/formik/src/Formik.tsx:360-370 | values become the argument or the updater's result on the current values; validation follows the argument or `validateOnChange` |
| Engine.Formik.SetFieldError | packages/formik/src/Formik.tsx:372-376 | the field's meta shows the new error; every other field keeps its error |
| Engine.Formik.SetFieldValue | packages/formik/src/Formik.tsx:378-391 | the field's meta shows the new value; every other field keeps its value; validation as for `setValues` |
| Engine.Formik.SetFieldTouched | packages/formik/src/Formik.tsx:452-466 | the field's meta shows the new touched flag; every other field keeps its flag; validation as for `setTouched` |
| Engine.Formik.SetFormikState | packages/formik/src/Formik.tsx:494-500 | the state becomes the given state, or the updater applied to the current one |
| Engine.Formik.SetStatus | packages/formik/src/Formik.tsx:502-504 | only the status changes |
| Engine.Formik.SetSubmitting | packages/formik/src/Formik.tsx:506-508 | only `isSubmitting` changes |
| Engine.Formik.ResetForm | packages/formik/src/Formik.tsx:510-573 | the snapshot is replaced at once; the state is dispatched at once, leaving the form not dirty, unless `onReset` returns a promise, in which case the dispatch is deferred |
| Engine.Formik.ResetDispatched | packages/formik/src/Formik.tsx:565-566 | the deferred dispatch installs the reset state |
| Engine.Formik.Reinitialize | packages/formik/src/Formik.tsx:85-137 | on a mounted engine with `enableReinitialize` the snapshot becomes the new initial props, with `{}` fallbacks; changed initial values reset the form now or by the deferred dispatch of an async `onReset`; changed errors, touched and status are set on the state; otherwise each part of the state stays; when no validation starts, `isValidating` is cleared by an immediate reset and otherwise kept; validation starts exactly on a mounted engine with `validateOnMount`, or when changed initial touched are set under `validateOnBlur`; an unmounted engine is left as it is |
| Engine.Formik.ReinitValues | packages/formik/src/Formik.tsx:102-119 | changed initial values are stored and the form reset (dispatched now, or deferred by an async `onReset`); `validateOnMount` validates whether or not they changed |
| Engine.Formik.ReinitErrors | packages/formik/src/Formik.tsx:122-125 | changed initial errors are stored with the `{}` fallback and become the errors; otherwise nothing changes |
| Engine.Formik.ReinitTouched | packages/formik/src/Formik.tsx:127-130 | changed initial touched are stored with the `{}` fallback and set with `setTouched`, validating exactly under `validateOnBlur`; otherwise nothing changes |
| Engine.Formik.ReinitStatus | packages/formik/src/Formik.tsx:132-135 | a changed initial status is stored and becomes the status; otherwise nothing changes |
| Engine.Formik.SubmitBegin | packages/formik/src/Formik.tsx:575-582 | every value is marked touched, the submit is counted, and submitting and validating start |
| Engine.Formik.SubmitValidated | packages/formik/src/Formik.tsx:582-641 | the handler is called exactly for a key-less error tree that is not an `Error` instance, and then the form is valid; an `Error` instance is rethrown while mounted; nullish errors throw a `TypeError`; the whole new state per case: while mounted the errors are stored and `isValidating` is cleared, and `isSubmitting` is cleared too exactly when the handler is not called and the errors are not nullish; unmounted, nothing changes |
| Engine.SyncSubmitLeavesSubmitting | packages/formik/src/Formik.tsx:575-641 | a mounted submission with no errors whose handler returns `undefined` synchronously resolves with `undefined` and ends with `isSubmitting` still true, all fields touched and `submitCount` one higher |
| Engine.Formik.SubmitHandlerSettled | packages/formik/src/Formik.tsx:605-631 | a synchronous handler leaves `isSubmitting` to its caller; a promise clears it while mounted; a rejection is rethrown only while mounted |
| Engine.Formik.ValidateField | packages/formik/src/Formik.tsx:287-328 | corrected: with the registry guard `FieldHasValidator` in place of the read that throws for an unregistered name, a synchronous field validator's error is stored at the field; a validator that throws changes nothing; an asynchronous one or the schema raises `isValidating` and keeps the errors of that moment; otherwise nothing changes |
| Engine.Formik.FieldValidationSettled | packages/formik/src/Formik.tsx:300-307 | the error is written into the errors captured at the start, and every other field shows its captured error |
| Engine.Formik.SchemaValidationSettled | packages/formik/src/Formik.tsx:315-324 | corrected: with `getIn` at the path in place of `error[name]`, the schema's error at the field's own path is stored into the errors captured at the start, and every other field shows its captured error |
| Engine.Formik.GetFieldMeta | packages/formik/src/Formik.tsx:729-740 | value, error and touched are read at the path from the state, and the initial ones from the snapshot |
| Engine.Formik.IsDirty | packages/formik/src/Formik.tsx:793 | the form is dirty exactly when some field (or the whole form) shows a value other than its initial value; `ResetForm` leaves it not dirty |
| Engine.Formik.IsValid | packages/formik/src/Formik.tsx:795-796 | a valid form has truthy errors and no field shows an error; conversely truthy errors without keys (`{}`, `[]`, `true`, a non-zero number, an `Error` instance) are valid; `SubmitValidated` reaches it when the handler is called |
| Engine.Formik.GetFieldProps | packages/formik/src/Formik.tsx:752-791 | a checkbox is checked by truthiness or by array membership of its value; a radio by equality with its value; a multiple select defaults to `[]`; other inputs carry the field's value |
| FieldArrays.MaxIndex | packages/formik/src/FieldArray.tsx:115-117 | the result bounds every integer key and is one of them, or 0 |
| FieldArrays.CopyArrayLike | packages/formik/src/FieldArray.tsx:109-120 | falsy gives `[]`; an array is copied; an object gives its integer-keyed entries at their indices, with holes up to the largest; a string gives its characters; other values give `[undefined]` |
| FieldArrays.ArrayLikeErrorsSwap | packages/formik/src/FieldArray.tsx:109-120 | an errors object `{ 2: e }` is copied as `[undefined, undefined, e]`, and swapping 0 and 2 moves `e` to the front |
| FieldArrays.Move | packages/formik/src/FieldArray.tsx:69-75 | the result is `Moved` of the copy |
| FieldArrays.MovedBySplicing | packages/formik/src/FieldArray.tsx:69-75 | within range, the index-mapping definition of a move equals splice-out then splice-in |
| FieldArrays.MoveKeepsOrder | packages/formik/src/FieldArray.tsx:69-75 | the moved element lands at `to`, and the others keep their relative order |
| FieldArrays.MovePermutes | packages/formik/src/FieldArray.tsx:69-75 | a move within range only reorders (same multiset) |
| FieldArrays.MoveBack | packages/formik/src/FieldArray.tsx:69-75 | moving back undoes a move |
| FieldArrays.Swap | packages/formik/src/FieldArray.tsx:77-87 | the result is `Swapped` of the copy: the two entries are exchanged, others kept, and an index past the end extends the array |
| FieldArrays.SwapTwice | packages/formik/src/FieldArray.tsx:77-87 | within range a swap is an involution and only reorders |
| FieldArrays.Insert | packages/formik/src/FieldArray.tsx:89-97 | one longer, the value at the clamped index, and removing it gives the copy back |
| FieldArrays.InsertThenRemove | packages/formik/src/FieldArray.tsx:89-97 | removing at the clamped index undoes an insert |
| FieldArrays.Replace | packages/formik/src/FieldArray.tsx:99-107 | the value is at the index and every other entry is as it was |
| FieldArrays.ReplaceLaws | packages/formik/src/FieldArray.tsx:99-107 | replacing with the same value changes nothing; of two replacements the last wins |
| FieldArrays.ArrayScenario | packages/formik/test/FieldArray.test.tsx:377-437 | push, pop, swap, insert, replace, unshift and remove on `friends` end in `['michael', 'brian', 'andrea', 'jared']` |
| FieldArrays.UpdateArrayField | packages/formik/src/FieldArray.tsx:173-220 | only values, errors and touched change; an unaltered errors or touched tree is kept; the values root stays an object |
| FieldArrays.UpdateOutside | packages/formik/src/FieldArray.tsx:173-220 | every path that parts ways with the field reads the same in all three trees |
| FieldArrays.UpdateAt | packages/formik/src/FieldArray.tsx:173-220 | the field holds the values transform's array and, in each altered tree, its transform's array, pruned to undefined when empty; the transforms run values, errors, touched in that order, threading the closure variable |
| FieldArrays.PushAppends | packages/formik/src/FieldArray.tsx:222-230 | the value is appended to the copy; errors and touched are untouched |
| FieldArrays.SwapAligned | packages/formik/src/FieldArray.tsx:234-239 | the same swap is applied to values, errors and touched |
| FieldArrays.SwapOverNoErrors | packages/formik/src/FieldArray.tsx:234-239 | swapping over absent errors leaves an array of three undefined slots |
| FieldArrays.MoveAligned | packages/formik/src/FieldArray.tsx:244-245 | the same move is applied to values, errors and touched |
| FieldArrays.InsertAligned | packages/formik/src/FieldArray.tsx:249-254 | the value goes into the values; `null` goes into errors and touched at the same index |
| FieldArrays.ReplaceOnlyIndex | packages/formik/src/FieldArray.tsx:258-263 | only the values array is written at the index; errors and touched are untouched |
| FieldArrays.UnshiftPrepends | packages/formik/src/FieldArray.tsx:268-296 | the value is prepended to the values and `null` to errors and touched; the result is the new length of the values array |
| FieldArrays.UnshiftThrows | packages/formik/src/FieldArray.tsx:268-296 | spreading an object or a non-zero number at the field throws a `TypeError` and nothing is committed |
| FieldArrays.RemoveAligned | packages/formik/src/FieldArray.tsx:300-320 | the index is spliced out of all three trees; emptied errors and touched become undefined; a truthy removed value is the result, and for a falsy one the result is the errors entry at the index if truthy, else the touched entry |
| FieldArrays.RemoveResolvesWithError | packages/formik/src/FieldArray.tsx:306-309 | removing a blank first value whose field has the error `'Required'` resolves with `'Required'` |
| FieldArrays.RemoveResolvesRemoved | packages/formik/src/FieldArray.tsx:300-320 | the corrected remove splices all three trees as the written one does and resolves with the removed value, falsy or not |
| FieldArrays.RemoveLast | packages/formik/src/FieldArray.tsx:300-320 | removing the only element leaves `[]` in the values and no errors or touched entry |
| FieldArrays.PopAsWritten | packages/formik/src/FieldArray.tsx:324-341 | the values lose their last element. When it is truthy it is the result and errors and touched are not popped. When it is falsy the errors array is popped and its last entry is the result if truthy; otherwise the touched array is popped and its last entry is the result (also when the field has no error) |
| FieldArrays.PopResolvesWithError | packages/formik/src/FieldArray.tsx:324-341 | popping `['a','']` with errors `['e1','Required']` resolves with `'Required'`, leaving values `['a']` and errors `['e1']` |
| FieldArrays.PopLeavesStaleError | packages/formik/src/FieldArray.tsx:324-341 | popping `['a','b']` with errors `['e1','e2']` leaves both errors |
| FieldArrays.PopAligned | packages/formik/src/FieldArray.tsx:324-341 | the corrected pop takes the last entry from each of the three trees and resolves with the popped value, falsy or not |
| FieldArrays.FieldArray.constructor | packages/formik/src/FieldArray.tsx:134-144 | the component is bound to its form engine and field name |
| FieldArrays.FieldArray.Commit | packages/formik/src/FieldArray.tsx:180-219 | a transformer that returns commits its state and resolves with the closure variable; one that throws commits nothing; only the engine's state changes |
| FieldArrays.FieldArray.Push | packages/formik/src/FieldArray.tsx:222-230 | the engine's state becomes `PushState` of the old state; nothing else changes |
| FieldArrays.FieldArray.Swap | packages/formik/src/FieldArray.tsx:234-239 | the engine's state becomes `SwapState` of the old state |
| FieldArrays.FieldArray.Move | packages/formik/src/FieldArray.tsx:244-245 | the engine's state becomes `MoveState` of the old state |
| FieldArrays.FieldArray.Insert | packages/formik/src/FieldArray.tsx:249-254 | the engine's state becomes `InsertState` of the old state |
| FieldArrays.FieldArray.Replace | packages/formik/src/FieldArray.tsx:258-263 | the engine's state becomes `ReplaceState` of the old state |
| FieldArrays.FieldArray.Unshift | packages/formik/src/FieldArray.tsx:268-296 | commits `UnshiftState` and resolves with the recorded length; when the transformer throws, commits nothing and rejects (a choice of the model, see Left out) |
| FieldArrays.FieldArray.Remove | packages/formik/src/FieldArray.tsx:300-320 | commits the corrected `RemoveIntendedState` and resolves with the removed value; a throwing transformer would commit nothing and reject (a choice of the model, see Left out) |
| FieldArrays.FieldArray.Pop | packages/formik/src/FieldArray.tsx:324-341 | commits the corrected `PopAlignedState` and resolves with the popped value |

## Left out

- The utility module holding `getIn`, `setIn`, `setNestedObjectValues`, `isPromise` and the rest is not part of this model. `PathStore` states the behaviour the engine relies on at its call sites.
- The string form of field paths (`friends[0].name`, `friends.0.name`) is not modelled. Paths are sequences of keys. Parsing them, and `parseInt` of keys that only start with digits, are left out.
- Numbers are mathematical integers. Floating point, `NaN` and negative array indices (which `splice` counts from the end) are left out.
- JavaScript's `==` is modelled as value equality, which matches it for the strings and values used here. `isEqual` is modelled as structural equality. `indexOf` (`===`) is modelled as value equality too; for objects and arrays `===` compares identity, which the model does not represent.
- Sparse-array holes are modelled as undefined elements.
- The enumeration order of object keys (integer-like keys first) is not modelled. Maps are unordered.
- Rendering, React's `setState` batching, the event manager (`subscribe`, `stateUpdate`), `executeChange`/`handleChange`, `executeBlur`/`handleBlur`, `handleSubmit`, `handleReset`, `getFieldHelpers`, `getState` and the development warnings are left out. They are rendering or event plumbing around the modelled operations.
- `validateOnMount` on first mount, and `FieldArray`'s subscription, are left out. The subscription covers the `count` field and the validation it triggers when the array changes. Both depend on component lifecycle and subscription timing.
- In `Promise.all`, the rejection that arrives first in time wins. The model reports the first rejection in argument order.
- The deep merge, its mergeability test and `cloneDeep` are not modelled. The merge and the test are parameters; a clone is the value itself.
- A schema rejection other than a `ValidationError` inside `validateField` leaves `isValidating` raised. The settle step for that rejection is not modelled.
- Aliasing: `pop` pops the previous state's array in place. The model computes the popped array as a new value, so the old state is not seen to change. The constructor and `resetForm` make the state's values and the stored initial values the same object, so on a form whose values were never written along the field's path, the in-place pop also shortens the stored initial values: `isDirty` then stays false, and `resetForm` restores the shortened array. The model does not show this.
- `setIn` writing a name key into an array stores it as a named property of the array copy. `PathStore.Put` leaves the array as it is instead, so such writes are dropped (no named properties on arrays are represented).
- Validation.ArrayMerge: when the source is longer than the target, the elements beyond the target are characterised only by the length bound. This is because the slots then depend on elements pushed earlier in the same loop.
- FieldBinding.GetSelectedValues: its own contract states only the length bound. Its meaning is stated by `SelectedMembership`, `SelectedConcat` and `AllSelected`.
- Engine.Formik.ValidateField, Engine.Formik.SchemaValidationSettled, FieldArrays.FieldArray.Pop and FieldArrays.FieldArray.Remove run the corrected code of the findings below: the registry guard, the error read at the field's path, the aligned pop, and the remove that resolves with the removed value. The as-written behaviour is modelled beside them (`FieldValidatorAsWritten`, `SchemaFieldErrorAsWritten`, `PopState`, `RemoveState`).
- A field validator whose promise rejects inside `validateField` leaves `isValidating` raised and stores nothing. The model has no settle step for it: the state simply stays as `ValidateField` left it.
- An `onReset` that throws is not modelled. In the source it throws after `resetForm` has already stored the new snapshot, and nothing is dispatched.
- A transformer that throws (`unshift` over an object or a non-zero number) is modelled as rejecting the helper's promise with nothing committed. `updateArrayField` only ever passes `deferred.resolve` (FieldArray.tsx:217); whether a throw inside a `setFormikState` updater reaches the caller depends on React's scheduling, which is left out, so this rejection is the model's choice.
- Engine.Formik.SubmitValidated: it states that the form is valid when the handler is called only for truthy errors. A falsy key-less error value (`false`, `0`, `''`) also reaches the handler as written.

## Findings

| source | as written | input that shows it | evidently intended | confidence | as-written member | corrected member |
|---|---|---|---|---|---|---|
| packages/formik/src/FieldArray.tsx:324-341 | `pop` sets `result` on the values call and then skips popping errors and touched whenever the popped value is truthy; when it is falsy, the errors call pops and `result` becomes the popped error (or the popped touched entry) instead of the popped value | values `friends: ['a','b']`, errors `friends: ['e1','e2']`: after `pop()`, values are `['a']` but errors are still `['e1','e2']` (`PopLeavesStaleError`); values `['a','']`, errors `['e1','Required']`: `pop()` resolves with `'Required'`, not `''` (`PopResolvesWithError`) | all three trees lose their last entry, as the comment about removing the relevant pieces of touched and errors says, and the result is the popped value | high (not executed) | FieldArrays.PopState | FieldArrays.PopAlignedState |
| packages/formik/src/Formik.tsx:293-294 | `fieldRegistry[name].validate` is read before `fieldRegistry[name]` is checked | `validateField('email')` with no registered field `email` throws a `TypeError` | an unregistered field is skipped and the schema, if any, is consulted | high (not executed) | Engine.FieldValidatorAsWritten | Engine.FieldHasValidator |
| packages/formik/src/Formik.tsx:321 | the schema error is read as `error[name]`, one flat property | `validateField('friends.0.name')` whose schema check fails gives errors nested as `friends[0].name`, and `error['friends.0.name']` is undefined, so the error is cleared instead of stored | the error at the field's path, `getIn(error, name)` | medium (not executed) | Engine.SchemaFieldErrorAsWritten | Engine.SchemaFieldError |
| packages/formik/src/FieldArray.tsx:306-309 | each of `remove`'s three transform calls sets `result` to its own array's entry while `result` is falsy | values `friends: ['', 'b']`, errors `friends: ['Required']`: `remove(0)` resolves with `'Required'` instead of the removed `''` | the helper resolves with the removed element of the values array | medium (not executed) | FieldArrays.RemoveResolvesWithError | FieldArrays.RemoveResolvesRemoved |
