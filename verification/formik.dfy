/** The form-state engine of Formik.tsx: a `Formik` object holding the form's
    state record, the initial snapshot it resets to, the field registry and the
    mount flag, with the setters, reset, the stepped submit, single-field
    validation and the read-only queries (`getFieldMeta`, `getFieldProps`,
    `isValid`, `isDirty`).

    Every asynchronous step is split at its `await` point: the method that
    starts it returns, and a second method takes the settled outcome. Validators
    and the submit handler are never called; their outcomes are parameters. */
module Engine {
  import opened JsValues
  import opened PathStore
  import opened Validation
  import opened FieldBinding

  /** The state record: `FormikState`. */
  datatype FormState = FormState(
    values: Value,
    errors: Value,
    touched: Value,
    status: Value,
    isSubmitting: bool,
    isValidating: bool,
    submitCount: int)

  /** The initial snapshot the engine resets to: `initialValues`,
      `initialErrors`, `initialTouched` and `initialStatus`. */
  datatype Snapshot = Snapshot(values: Value, errors: Value, touched: Value, status: Value)

  /** What `props.onReset` does, if given. */
  datatype ResetHandler = NoResetHandler | SyncResetHandler | AsyncResetHandler

  /** The configuration the engine reads from its props. An absent optional
      prop is `Undefined`. */
  datatype Props = Props(
    initialValues: Value,
    initialErrors: Value,
    initialTouched: Value,
    initialStatus: Value,
    validateOnChange: bool,
    validateOnBlur: bool,
    validateOnMount: bool,
    enableReinitialize: bool,
    hasSchema: bool,
    onReset: ResetHandler)

  /** `a || b` */
  function Or(a: Value, b: Value): Value {
    if Truthy(a) then a else b
  }

  /** The `TypeError` raised by reading a property of `undefined`. */
  const TypeError: Value := ErrorObj("TypeError")

  // ---------------------------------------------------------------------
  // The field registry
  // ---------------------------------------------------------------------

  /** Every field path is registered at most once. */
  predicate UniqueNames(registry: seq<Registration>) {
    forall i, j :: 0 <= i < j < |registry| ==> registry[i].name != registry[j].name
  }

  /** The position of `name` in the registry, or -1. */
  function Lookup(registry: seq<Registration>, name: Path): (i: int)
    ensures -1 <= i < |registry|
    ensures i >= 0 ==> registry[i].name == name && forall j :: 0 <= j < i ==> registry[j].name != name
    ensures i == -1 <==> forall j :: 0 <= j < |registry| ==> registry[j].name != name
    decreases |registry|
  {
    if |registry| == 0 then -1
    else if registry[0].name == name then 0
    else
      var j := Lookup(registry[1..], name);
      assert forall k :: 0 <= k < |registry[1..]| ==> registry[1..][k] == registry[k + 1];
      if j < 0 then -1 else j + 1
  }

  /** `fieldRegistry[name] = { validate }`: an existing entry keeps its place,
      a new one goes last. */
  function RegistryPut(registry: seq<Registration>, name: Path, hasValidate: bool): (r: seq<Registration>)
    ensures UniqueNames(registry) ==> UniqueNames(r)
    ensures Lookup(r, name) >= 0 && r[Lookup(r, name)] == Registration(name, hasValidate)
    ensures |r| == if Lookup(registry, name) >= 0 then |registry| else |registry| + 1
    ensures forall j :: 0 <= j < |registry| && registry[j].name != name ==> r[j] == registry[j]
  {
    var i := Lookup(registry, name);
    if i >= 0 then
      var r := registry[i := Registration(name, hasValidate)];
      assert r[i].name == name;
      assert Lookup(r, name) == i;
      r
    else
      var r := registry + [Registration(name, hasValidate)];
      assert r[|registry|].name == name;
      r
  }

  /** `delete fieldRegistry[name]`: the other entries stay, in order. */
  function RegistryRemove(registry: seq<Registration>, name: Path): (r: seq<Registration>)
    ensures forall e :: e in r <==> e in registry && e.name != name
    ensures Lookup(r, name) == -1
    ensures |r| <= |registry|
    decreases |registry|
  {
    if |registry| == 0 then []
    else
      var rest := RegistryRemove(registry[1..], name);
      assert registry == [registry[0]] + registry[1..];
      if registry[0].name == name then rest else [registry[0]] + rest
  }

  /** Removing an entry keeps the names unique. */
  lemma {:induction false} RegistryRemoveUnique(registry: seq<Registration>, name: Path)
    requires UniqueNames(registry)
    ensures UniqueNames(RegistryRemove(registry, name))
    decreases |registry|
  {
    if |registry| > 0 {
      var tail := registry[1..];
      assert UniqueNames(tail) by {
        forall a, b | 0 <= a < b < |tail| ensures tail[a].name != tail[b].name {
          assert tail[a] == registry[a + 1] && tail[b] == registry[b + 1];
        }
      }
      RegistryRemoveUnique(tail, name);
      var rest := RegistryRemove(tail, name);
      if registry[0].name != name {
        var r := [registry[0]] + rest;
        forall a, b | 0 <= a < b < |r| ensures r[a].name != r[b].name {
          if a == 0 {
            assert r[b] == rest[b - 1];
            assert r[b] in tail;
            var k :| 0 <= k < |tail| && tail[k] == r[b];
            assert registry[k + 1] == r[b];
          } else {
            assert r[a] == rest[a - 1] && r[b] == rest[b - 1];
          }
        }
      }
    }
  }

  /** The guard as `validateField` writes it: the entry's `validate` is read
      before the entry's existence is checked, so an unregistered name throws. */
  function FieldValidatorAsWritten(registry: seq<Registration>, name: Path): (o: Outcome<bool>)
    ensures o.Thrown? <==> Lookup(registry, name) == -1
  {
    var i := Lookup(registry, name);
    if i < 0 then Thrown(TypeError) else Done(registry[i].hasValidate)
  }

  /** The guard as evidently intended: the name is registered and its
      validator is a function. */
  function FieldHasValidator(registry: seq<Registration>, name: Path): (b: bool)
    ensures b ==> exists j :: 0 <= j < |registry| && registry[j].name == name && registry[j].hasValidate
    ensures UniqueNames(registry) ==>
              (b <==> exists j :: 0 <= j < |registry| && registry[j].name == name && registry[j].hasValidate)
    ensures UniqueNames(registry) && b ==> FieldValidatorAsWritten(registry, name) == Done(true)
  {
    var i := Lookup(registry, name);
    assert UniqueNames(registry) && i >= 0 ==> forall j :: 0 <= j < |registry| && registry[j].name == name ==> j == i;
    i >= 0 && registry[i].hasValidate
  }

  /** Validating a field nobody registered crashes as written, where the
      evidently intended guard simply skips the field validator. */
  lemma UnregisteredFieldCrashes(name: Path)
    ensures FieldValidatorAsWritten([], name) == Thrown(TypeError)
    ensures !FieldHasValidator([], name)
  {
  }

  /** `error[name]` as the schema path of `validateField` writes it: the
      field's name is used as one flat property key, so a nested path
      (`friends.0.name`) never finds the nested error the schema produced. */
  function SchemaFieldErrorAsWritten(schemaErrors: Value, name: Path): (e: Value)
    ensures |name| != 1 ==> e == Undefined
    ensures |name| == 1 ==> e == Get(schemaErrors, name)
  {
    if |name| == 1 then Child(schemaErrors, name[0]) else Undefined
  }

  /** The error the schema produced for the field, at its path. */
  function SchemaFieldError(schemaErrors: Value, name: Path): (e: Value)
    ensures |name| == 1 ==> e == SchemaFieldErrorAsWritten(schemaErrors, name)
  {
    Get(schemaErrors, name)
  }

  /** A schema failure at `friends.0.name` is dropped as written and kept as
      intended. */
  lemma NestedSchemaErrorLost()
    ensures var name := [Name("friends"), Idx(0), Name("name")];
            var errors := Set(Obj(map[]), name, Str("Required"));
            SchemaFieldErrorAsWritten(errors, name) == Undefined &&
            SchemaFieldError(errors, name) == Str("Required")
  {
    var name := [Name("friends"), Idx(0), Name("name")];
    EmptyTree(name);
    GetSet(Obj(map[]), name, Str("Required"));
  }

  // ---------------------------------------------------------------------
  // resetForm, as values
  // ---------------------------------------------------------------------

  /** The argument of `resetForm(nextState)`; an absent argument or field is
      `Undefined`. */
  datatype ResetOverride = ResetOverride(
    values: Value,
    errors: Value,
    touched: Value,
    status: Value,
    isSubmitting: Value,
    isValidating: Value,
    submitCount: Value)

  /** `resetForm()` without an argument. */
  const NoOverride := ResetOverride(Undefined, Undefined, Undefined, Undefined, Undefined, Undefined, Undefined)

  /** The snapshot `resetForm` stores: each part from a truthy override, else
      from the stored snapshot, else from the props (else `{}` for errors and
      touched). */
  function ResetSnapshot(snapshot: Snapshot, props: Props, next: ResetOverride): (s: Snapshot)
    ensures Truthy(next.values) ==> s.values == next.values
    ensures !Truthy(next.values) ==> s.values == snapshot.values
    ensures Truthy(s.errors) && Truthy(s.touched)
    ensures Truthy(next.errors) ==> s.errors == next.errors
    ensures !Truthy(next.errors) && Truthy(snapshot.errors) ==> s.errors == snapshot.errors
    ensures Truthy(next.touched) ==> s.touched == next.touched
    ensures !Truthy(next.touched) && Truthy(snapshot.touched) ==> s.touched == snapshot.touched
    ensures Truthy(next.status) ==> s.status == next.status
    ensures !Truthy(next.status) && Truthy(snapshot.status) ==> s.status == snapshot.status
    ensures !Truthy(next.status) && !Truthy(snapshot.status) ==> s.status == props.initialStatus
  {
    Snapshot(
      if Truthy(next.values) then next.values else snapshot.values,
      Or(next.errors, Or(snapshot.errors, Or(props.initialErrors, Obj(map[])))),
      Or(next.touched, Or(snapshot.touched, Or(props.initialTouched, Obj(map[])))),
      Or(next.status, Or(snapshot.status, props.initialStatus)))
  }

  /** The state `resetForm` dispatches for the new snapshot. */
  function ResetState(s: Snapshot, next: ResetOverride): (st: FormState)
    ensures st.values == s.values && st.errors == s.errors && st.touched == s.touched && st.status == s.status
    ensures st.isSubmitting == Truthy(next.isSubmitting) && st.isValidating == Truthy(next.isValidating)
    ensures st.submitCount == if next.submitCount.Num? then next.submitCount.n else 0
  {
    FormState(s.values, s.errors, s.touched, s.status,
              Truthy(next.isSubmitting), Truthy(next.isValidating),
              if next.submitCount.Num? && next.submitCount.n != 0 then next.submitCount.n else 0)
  }

  /** A second `resetForm()` after any reset stores the same snapshot again:
      the stored snapshot already holds every choice the first one made. What
      it dispatches is that first snapshot with `isSubmitting` and
      `isValidating` cleared and `submitCount` back at 0, whatever override
      the first reset carried. */
  lemma ResetTwice(snapshot: Snapshot, props: Props, next: ResetOverride)
    ensures var s1 := ResetSnapshot(snapshot, props, next);
            ResetSnapshot(s1, props, NoOverride) == s1 &&
            ResetState(ResetSnapshot(s1, props, NoOverride), NoOverride) ==
              FormState(s1.values, s1.errors, s1.touched, s1.status, false, false, 0)
  {
    var s1 := ResetSnapshot(snapshot, props, next);
    var s2 := ResetSnapshot(s1, props, NoOverride);
    if !Truthy(s1.status) {
      assert !Truthy(next.status) && !Truthy(snapshot.status);
    }
    assert s2.status == s1.status;
  }

  // ---------------------------------------------------------------------
  // Outcomes fed into the stepped operations
  // ---------------------------------------------------------------------

  /** How `setValues` was called: with the new values or an updater. */
  datatype ValuesUpdate = NewValues(values: Value) | ValuesUpdater(f: Value -> Value)

  /** How `setFormikState` was called: with a state or an updater. */
  datatype StateUpdate = NewState(state: FormState) | StateUpdater(f: FormState -> FormState)

  /** What the submit step after validation leads to. */
  datatype SubmitStep = CallHandler | SubmitFinished(outcome: Outcome<Value>)

  /** What the `onSubmit` handler did. */
  datatype HandlerOutcome =
    | HandlerThrew(reason: Value)      // threw synchronously
    | HandlerReturnedUndefined         // returned `undefined`: a synchronous handler
    | HandlerFulfilled(result: Value)  // returned a value or a promise that fulfilled
    | HandlerRejected(reason: Value)   // returned a promise that rejected

  /** What a field's own validator did: returned an error (or undefined),
      threw while being called, or returned a promise. */
  datatype FieldValidatorResult = SyncResult(error: Value) | SyncThrew(reason: Value) | AsyncResult

  /** Where `validateField` left things. */
  datatype FieldCheck =
    | Checked(error: Value)            // settled synchronously; the error is stored
    | Awaiting(errorsAtStart: Value)   // an async validator or the schema is pending
    | NotChecked                       // no validator and no schema
    | Failed(reason: Value)            // the validator threw; `validateField` throws

  /** The values a field's `<Field>` component reads: `FieldMetaProps`. */
  datatype FieldMeta = FieldMeta(
    value: Value,
    error: Value,
    touched: bool,
    initialValue: Value,
    initialTouched: bool,
    initialError: Value)

  /** The argument of `getFieldProps`: a bare name, or an options object. An
      absent `type` or `as` is the empty string. */
  datatype FieldOptions =
    | ByName(name: Path)
    | ByOptions(name: Path, inputType: string, valueProp: Value, component: string, multiple: bool)

  /** The data part of `FieldInputProps` (the change and blur handlers are
      not modelled). */
  datatype FieldInputProps = FieldInputProps(name: Path, value: Value, checked: Option<bool>, multiple: Option<bool>)

  /** A value without keys has nothing below it: every non-empty path reads
      undefined. */
  lemma NoKeysNoFieldErrors(e: Value)
    requires KeyCount(e) == 0
    ensures forall p :: |p| > 0 ==> Get(e, p) == Undefined
  {
    forall p: Path | |p| > 0 ensures Get(e, p) == Undefined {
      assert Child(e, p[0]) == Undefined;
      GetUndefined(p[1..]);
    }
  }

  // ---------------------------------------------------------------------
  // The engine
  // ---------------------------------------------------------------------

  class Formik {
    var state: FormState
    var snapshot: Snapshot
    var isMounted: bool
    var registry: seq<Registration>
    var props: Props

    /** Every field is registered once, and the stored initial errors and
        touched trees are never falsy (each falls back to `{}`). */
    predicate Valid()
      reads this
    {
      UniqueNames(registry) && Truthy(snapshot.errors) && Truthy(snapshot.touched)
    }

    /** The constructor: both the state and the snapshot start from the props;
        missing initial errors and touched become `{}`. */
    constructor(props: Props)
      ensures Valid()
      ensures state == FormState(props.initialValues, Or(props.initialErrors, Obj(map[])),
                                 Or(props.initialTouched, Obj(map[])), props.initialStatus, false, false, 0)
      ensures snapshot == Snapshot(state.values, state.errors, state.touched, state.status)
      ensures isMounted && registry == [] && this.props == props
    {
      this.props := props;
      state := FormState(props.initialValues, Or(props.initialErrors, Obj(map[])),
                         Or(props.initialTouched, Obj(map[])), props.initialStatus, false, false, 0);
      snapshot := Snapshot(props.initialValues, Or(props.initialErrors, Obj(map[])),
                           Or(props.initialTouched, Obj(map[])), props.initialStatus);
      isMounted := true;
      registry := [];
    }

    /** `componentWillUnmount` */
    method Unmount()
      modifies this
      ensures !isMounted
      ensures state == old(state) && snapshot == old(snapshot) && registry == old(registry) && props == old(props)
    {
      isMounted := false;
    }

    // ----- validation bookkeeping ------------------------------------------

    /** The synchronous start of `validateFormWithHighPriority`. */
    method ValidationStarted()
      modifies this
      ensures state == old(state).(isValidating := true)
      ensures snapshot == old(snapshot) && isMounted == old(isMounted) && registry == old(registry) && props == old(props)
    {
      state := state.(isValidating := true);
    }

    /** The continuation of `validateFormWithHighPriority` once every validator
        has settled: a mounted engine stores the merged errors; a rejected pass
        changes nothing. */
    method ValidationSettled(combined: Outcome<Value>)
      modifies this
      ensures combined.Done? && old(isMounted) ==>
                state == old(state).(errors := combined.value, isValidating := false)
      ensures combined.Thrown? || !old(isMounted) ==> state == old(state)
      ensures snapshot == old(snapshot) && isMounted == old(isMounted) && registry == old(registry) && props == old(props)
    {
      if combined.Done? && isMounted {
        state := state.(errors := combined.value, isValidating := false);
      }
    }

    // ----- the registry -----------------------------------------------------

    /** `registerField` */
    method RegisterField(name: Path, hasValidate: bool)
      requires Valid()
      modifies this
      ensures Valid()
      ensures registry == RegistryPut(old(registry), name, hasValidate)
      ensures FieldHasValidator(registry, name) == hasValidate
      ensures state == old(state) && snapshot == old(snapshot) && isMounted == old(isMounted) && props == old(props)
    {
      registry := RegistryPut(registry, name, hasValidate);
      var i := Lookup(registry, name);
      assert forall j :: 0 <= j < |registry| && registry[j].name == name ==> j == i;
    }

    /** `unregisterField` */
    method UnregisterField(name: Path)
      requires Valid()
      modifies this
      ensures Valid()
      ensures registry == RegistryRemove(old(registry), name)
      ensures !FieldHasValidator(registry, name)
      ensures state == old(state) && snapshot == old(snapshot) && isMounted == old(isMounted) && props == old(props)
    {
      RegistryRemoveUnique(registry, name);
      registry := RegistryRemove(registry, name);
    }

    // ----- the setters -------------------------------------------------------

    /** `setTouched`: replaces the touched tree; validates when asked to, or by
        default when `validateOnBlur` is set. */
    method SetTouched(touched: Value, shouldValidate: Option<bool>) returns (willValidate: bool)
      modifies this
      ensures willValidate == if shouldValidate.Some? then shouldValidate.value else props.validateOnBlur
      ensures state == old(state).(touched := touched, isValidating := willValidate || old(state).isValidating)
      ensures snapshot == old(snapshot) && isMounted == old(isMounted) && registry == old(registry) && props == old(props)
    {
      state := state.(touched := touched);
      willValidate := if shouldValidate.Some? then shouldValidate.value else props.validateOnBlur;
      if willValidate {
        ValidationStarted();
      }
    }

    /** `setErrors` */
    method SetErrors(errors: Value)
      modifies this
      ensures state == old(state).(errors := errors)
      ensures snapshot == old(snapshot) && isMounted == old(isMounted) && registry == old(registry) && props == old(props)
    {
      state := state.(errors := errors);
    }

    /** `setValues`: an updater receives the current values; validates when
        asked to, or by default when `validateOnChange` is set. */
    method SetValues(update: ValuesUpdate, shouldValidate: Option<bool>) returns (willValidate: bool)
      modifies this
      ensures willValidate == if shouldValidate.Some? then shouldValidate.value else props.validateOnChange
      ensures state.values == (match update
                               case NewValues(v) => v
                               case ValuesUpdater(f) => f(old(state).values))
      ensures state == old(state).(values := state.values, isValidating := willValidate || old(state).isValidating)
      ensures snapshot == old(snapshot) && isMounted == old(isMounted) && registry == old(registry) && props == old(props)
    {
      var resolved := match update
                      case NewValues(v) => v
                      case ValuesUpdater(f) => f(state.values);
      state := state.(values := resolved);
      willValidate := if shouldValidate.Some? then shouldValidate.value else props.validateOnChange;
      if willValidate {
        ValidationStarted();
      }
    }

    /** `setFieldError`: one field's error is written; every field apart from it
        keeps its error. */
    method SetFieldError(field: Path, value: Value)
      modifies this
      ensures state == old(state).(errors := Set(old(state).errors, field, value))
      ensures KindsAgree(old(state).errors, field) ==> GetFieldMeta(field).error == value
      ensures forall p :: Disjoint(p, field) ==> GetFieldMeta(p).error == old(GetFieldMeta(p)).error
      ensures snapshot == old(snapshot) && isMounted == old(isMounted) && registry == old(registry) && props == old(props)
    {
      var before := state.errors;
      state := state.(errors := Set(state.errors, field, value));
      if KindsAgree(before, field) {
        GetSet(before, field, value);
      }
      forall p | Disjoint(p, field) ensures Get(state.errors, p) == Get(before, p) {
        GetSetOther(before, field, value, p);
      }
    }

    /** `setFieldValue`: one field's value is written, every field apart from
        it keeps its value; validates like `setValues`. */
    method SetFieldValue(field: Path, value: Value, shouldValidate: Option<bool>) returns (willValidate: bool)
      modifies this
      ensures willValidate == if shouldValidate.Some? then shouldValidate.value else props.validateOnChange
      ensures state == old(state).(values := Set(old(state).values, field, value),
                                   isValidating := willValidate || old(state).isValidating)
      ensures KindsAgree(old(state).values, field) ==> GetFieldMeta(field).value == value
      ensures forall p :: Disjoint(p, field) ==> GetFieldMeta(p).value == old(GetFieldMeta(p)).value
      ensures snapshot == old(snapshot) && isMounted == old(isMounted) && registry == old(registry) && props == old(props)
    {
      var before := state.values;
      state := state.(values := Set(state.values, field, value));
      willValidate := if shouldValidate.Some? then shouldValidate.value else props.validateOnChange;
      if willValidate {
        ValidationStarted();
      }
      if KindsAgree(before, field) {
        GetSet(before, field, value);
      }
      forall p | Disjoint(p, field) ensures Get(state.values, p) == Get(before, p) {
        GetSetOther(before, field, value, p);
      }
    }

    /** `setFieldTouched(field, touched = true, shouldValidate)`: validates like
        `setTouched`. */
    method SetFieldTouched(field: Path, touched: bool, shouldValidate: Option<bool>) returns (willValidate: bool)
      modifies this
      ensures willValidate == if shouldValidate.Some? then shouldValidate.value else props.validateOnBlur
      ensures state == old(state).(touched := Set(old(state).touched, field, Bool(touched)),
                                   isValidating := willValidate || old(state).isValidating)
      ensures KindsAgree(old(state).touched, field) ==> GetFieldMeta(field).touched == touched
      ensures forall p :: Disjoint(p, field) ==> GetFieldMeta(p).touched == old(GetFieldMeta(p)).touched
      ensures snapshot == old(snapshot) && isMounted == old(isMounted) && registry == old(registry) && props == old(props)
    {
      var before := state.touched;
      state := state.(touched := Set(state.touched, field, Bool(touched)));
      willValidate := if shouldValidate.Some? then shouldValidate.value else props.validateOnBlur;
      if willValidate {
        ValidationStarted();
      }
      if KindsAgree(before, field) {
        GetSet(before, field, Bool(touched));
      }
      forall p | Disjoint(p, field) ensures Get(state.touched, p) == Get(before, p) {
        GetSetOther(before, field, Bool(touched), p);
      }
    }

    /** `setFormikState`: a new state, or an updater of the current one. */
    method SetFormikState(update: StateUpdate)
      modifies this
      ensures state == match update
                       case NewState(s) => s
                       case StateUpdater(f) => f(old(state))
      ensures snapshot == old(snapshot) && isMounted == old(isMounted) && registry == old(registry) && props == old(props)
    {
      state := match update
               case NewState(s) => s
               case StateUpdater(f) => f(state);
    }

    /** `setStatus` */
    method SetStatus(status: Value)
      modifies this
      ensures state == old(state).(status := status)
      ensures snapshot == old(snapshot) && isMounted == old(isMounted) && registry == old(registry) && props == old(props)
    {
      state := state.(status := status);
    }

    /** `setSubmitting` */
    method SetSubmitting(isSubmitting: bool)
      modifies this
      ensures state == old(state).(isSubmitting := isSubmitting)
      ensures snapshot == old(snapshot) && isMounted == old(isMounted) && registry == old(registry) && props == old(props)
    {
      state := state.(isSubmitting := isSubmitting);
    }

    // ----- resetForm -----------------------------------------------------------

    /** `resetForm(nextState)`: the new snapshot is stored at once; the state is
        dispatched at once, unless `onReset` returns a promise, in which case
        the dispatch is returned for `ResetDispatched` to apply on fulfilment. */
    method ResetForm(next: ResetOverride) returns (deferred: Option<FormState>)
      requires Valid()
      modifies this
      ensures Valid()
      ensures snapshot == ResetSnapshot(old(snapshot), props, next)
      ensures props.onReset.AsyncResetHandler? ==>
                state == old(state) && deferred == Some(ResetState(snapshot, next))
      ensures !props.onReset.AsyncResetHandler? ==>
                state == ResetState(snapshot, next) && deferred == None && !IsDirty()
      ensures isMounted == old(isMounted) && registry == old(registry) && props == old(props)
    {
      snapshot := ResetSnapshot(snapshot, props, next);
      var dispatch := ResetState(snapshot, next);
      if props.onReset.AsyncResetHandler? {
        deferred := Some(dispatch);
      } else {
        state := dispatch;
        deferred := None;
      }
    }

    /** The deferred dispatch of `resetForm` once `onReset`'s promise fulfils. */
    method ResetDispatched(dispatch: FormState)
      modifies this
      ensures state == dispatch
      ensures snapshot == old(snapshot) && isMounted == old(isMounted) && registry == old(registry) && props == old(props)
    {
      state := dispatch;
    }

    /** The reinitialisation part of `componentDidUpdate` for new props. With
        `enableReinitialize`, changed initial values are stored and the form is
        reset; changed initial errors, touched and status are stored and set on
        the state (setting touched validates under `validateOnBlur`).
        `validateOnMount` validates in either case. Returns whether a
        validation was started, and the reset's dispatch when `onReset`
        defers it. */
    method Reinitialize(newProps: Props) returns (validate: bool, deferred: Option<FormState>)
      requires Valid()
      modifies this
      ensures Valid()
      ensures props == newProps && isMounted == old(isMounted) && registry == old(registry)
      ensures !old(isMounted) ==> state == old(state) && snapshot == old(snapshot) && !validate && deferred == None
      ensures !newProps.enableReinitialize ==> snapshot == old(snapshot) && deferred == None
      // the new snapshot
      ensures old(isMounted) && newProps.enableReinitialize ==>
                snapshot == Snapshot(newProps.initialValues, Or(newProps.initialErrors, Obj(map[])),
                                     Or(newProps.initialTouched, Obj(map[])), newProps.initialStatus)
      // validation: on mount, and by setting touched under validateOnBlur
      ensures validate <==>
                old(isMounted) &&
                (newProps.validateOnMount ||
                 (newProps.enableReinitialize && old(snapshot).touched != newProps.initialTouched &&
                  newProps.validateOnBlur))
      ensures validate ==> state.isValidating
      ensures !validate ==>
                state.isValidating ==
                  if old(isMounted) && newProps.enableReinitialize && old(snapshot).values != newProps.initialValues &&
                     !newProps.onReset.AsyncResetHandler?
                  then false else old(state).isValidating
      // the reset for new initial values: dispatched now, or deferred by onReset
      ensures var reset := old(isMounted) && newProps.enableReinitialize &&
                           old(snapshot).values != newProps.initialValues;
              (deferred.Some? <==> reset && newProps.onReset.AsyncResetHandler?) &&
              (deferred.Some? ==> deferred.value.values == newProps.initialValues &&
                                  deferred.value.submitCount == 0 && !deferred.value.isSubmitting) &&
              (reset && !newProps.onReset.AsyncResetHandler? ==>
                 state.values == newProps.initialValues && state.submitCount == 0 && !state.isSubmitting) &&
              (!(reset && !newProps.onReset.AsyncResetHandler?) ==>
                 state.values == old(state).values && state.submitCount == old(state).submitCount &&
                 state.isSubmitting == old(state).isSubmitting)
      // errors and touched: set from the new snapshot when changed or reset
      ensures var now := old(isMounted) && newProps.enableReinitialize;
              var reset := now && old(snapshot).values != newProps.initialValues &&
                           !newProps.onReset.AsyncResetHandler?;
              ((now && old(snapshot).errors != newProps.initialErrors) || reset ==> state.errors == snapshot.errors) &&
              (!((now && old(snapshot).errors != newProps.initialErrors) || reset) ==> state.errors == old(state).errors) &&
              ((now && old(snapshot).touched != newProps.initialTouched) || reset ==> state.touched == snapshot.touched) &&
              (!((now && old(snapshot).touched != newProps.initialTouched) || reset) ==> state.touched == old(state).touched)
      // status: a falsy stored status is replaced by the reset itself, so a
      // deferred reset leaves it to the dispatch
      ensures var now := old(isMounted) && newProps.enableReinitialize;
              var reset := now && old(snapshot).values != newProps.initialValues;
              var setStatus := now && old(snapshot).status != newProps.initialStatus &&
                               (Truthy(old(snapshot).status) || !reset);
              (setStatus || (reset && !newProps.onReset.AsyncResetHandler?) ==> state.status == newProps.initialStatus) &&
              (!setStatus && !(reset && !newProps.onReset.AsyncResetHandler?) ==> state.status == old(state).status)
    {
      props := newProps;
      validate := false;
      deferred := None;
      if !isMounted {
        return;
      }
      validate, deferred := ReinitValues(newProps);
      if newProps.enableReinitialize {
        ReinitErrors(newProps);
        var onBlur := ReinitTouched(newProps);
        validate := validate || onBlur;
        ReinitStatus(newProps);
      }
    }

    /** The `initialValues` part of `componentDidUpdate`: with
        `enableReinitialize`, changed initial values are stored and the form is
        reset; `validateOnMount` validates whether they changed or not. */
    method ReinitValues(newProps: Props) returns (validate: bool, deferred: Option<FormState>)
      requires Valid() && isMounted && props == newProps
      modifies this
      ensures Valid() && isMounted && props == newProps && registry == old(registry)
      ensures validate == newProps.validateOnMount
      ensures var reset := newProps.enableReinitialize && old(snapshot).values != newProps.initialValues;
              (reset ==> snapshot == old(snapshot).(values := newProps.initialValues,
                                                    status := Or(old(snapshot).status, newProps.initialStatus))) &&
              (!reset ==> snapshot == old(snapshot)) &&
              (deferred.Some? <==> reset && newProps.onReset.AsyncResetHandler?) &&
              (deferred.Some? ==> deferred == Some(ResetState(snapshot, NoOverride))) &&
              (reset && !newProps.onReset.AsyncResetHandler? ==>
                 state == ResetState(snapshot, NoOverride).(isValidating := validate)) &&
              (!(reset && !newProps.onReset.AsyncResetHandler?) ==>
                 state == old(state).(isValidating := validate || old(state).isValidating))
    {
      validate := false;
      deferred := None;
      if newProps.validateOnMount && snapshot.values == newProps.initialValues {
        validate := true;
        ValidationStarted();
      }
      if snapshot.values != newProps.initialValues {
        if newProps.enableReinitialize {
          snapshot := snapshot.(values := newProps.initialValues);
          deferred := ResetForm(NoOverride);
        }
        if newProps.validateOnMount {
          validate := true;
          ValidationStarted();
        }
      }
    }

    /** The `initialErrors` part of `componentDidUpdate` (with
        `enableReinitialize`): changed initial errors are stored, falling back
        to `{}`, and set as the errors. */
    method ReinitErrors(newProps: Props)
      requires Valid() && props == newProps
      modifies this
      ensures Valid() && isMounted == old(isMounted) && props == newProps && registry == old(registry)
      ensures old(snapshot).errors != newProps.initialErrors ==>
                snapshot == old(snapshot).(errors := Or(newProps.initialErrors, Obj(map[]))) &&
                state == old(state).(errors := snapshot.errors)
      ensures old(snapshot).errors == newProps.initialErrors ==> snapshot == old(snapshot) && state == old(state)
    {
      if snapshot.errors != newProps.initialErrors {
        snapshot := snapshot.(errors := Or(newProps.initialErrors, Obj(map[])));
        SetErrors(snapshot.errors);
      }
    }

    /** The `initialTouched` part of `componentDidUpdate` (with
        `enableReinitialize`): changed initial touched are stored, falling back
        to `{}`, and set with `setTouched`, which validates under
        `validateOnBlur`. */
    method ReinitTouched(newProps: Props) returns (validate: bool)
      requires Valid() && props == newProps
      modifies this
      ensures Valid() && isMounted == old(isMounted) && props == newProps && registry == old(registry)
      ensures validate <==> old(snapshot).touched != newProps.initialTouched && newProps.validateOnBlur
      ensures old(snapshot).touched != newProps.initialTouched ==>
                snapshot == old(snapshot).(touched := Or(newProps.initialTouched, Obj(map[]))) &&
                state == old(state).(touched := snapshot.touched, isValidating := validate || old(state).isValidating)
      ensures old(snapshot).touched == newProps.initialTouched ==> snapshot == old(snapshot) && state == old(state)
    {
      validate := false;
      if snapshot.touched != newProps.initialTouched {
        snapshot := snapshot.(touched := Or(newProps.initialTouched, Obj(map[])));
        validate := SetTouched(snapshot.touched, None);
      }
    }

    /** The `initialStatus` part of `componentDidUpdate` (with
        `enableReinitialize`): a changed initial status is stored and set. */
    method ReinitStatus(newProps: Props)
      requires Valid() && props == newProps
      modifies this
      ensures Valid() && isMounted == old(isMounted) && props == newProps && registry == old(registry)
      ensures old(snapshot).status != newProps.initialStatus ==>
                snapshot == old(snapshot).(status := newProps.initialStatus) &&
                state == old(state).(status := newProps.initialStatus)
      ensures old(snapshot).status == newProps.initialStatus ==> snapshot == old(snapshot) && state == old(state)
    {
      if snapshot.status != newProps.initialStatus {
        snapshot := snapshot.(status := newProps.initialStatus);
        SetStatus(snapshot.status);
      }
    }

    // ----- submitForm, step by step --------------------------------------------

    /** The synchronous start of `submitForm`: every field of the values is
        marked touched, the submit is counted, and validation starts. */
    method SubmitBegin()
      modifies this
      ensures state == old(state).(touched := TouchAll(old(state).values), isSubmitting := true,
                                   submitCount := old(state).submitCount + 1, isValidating := true)
      ensures snapshot == old(snapshot) && isMounted == old(isMounted) && registry == old(registry) && props == old(props)
    {
      state := state.(touched := TouchAll(state.values), isSubmitting := true,
                      submitCount := state.submitCount + 1);
      ValidationStarted();
    }

    /** `submitForm` once validation has settled: the handler is called only
        for an error tree with no keys that is not an `Error`; otherwise a
        mounted engine clears `isSubmitting` and rethrows an `Error`. */
    method SubmitValidated(combined: Outcome<Value>) returns (step: SubmitStep)
      modifies this
      ensures step.CallHandler? <==>
                combined.Done? && !combined.value.ErrorObj? && !combined.value.Undefined? &&
                !combined.value.Null? && KeyCount(combined.value) == 0
      ensures step.CallHandler? && old(isMounted) && Truthy(combined.value) ==> IsValid()
      ensures combined.Thrown? ==> step == SubmitFinished(combined) && state == old(state)
      ensures combined.Done? && (combined.value.Undefined? || combined.value.Null?) ==>
                step == SubmitFinished(Thrown(TypeError))
      ensures combined.Done? && old(isMounted) &&
              (step.CallHandler? || combined.value.Undefined? || combined.value.Null?) ==>
                state == old(state).(errors := combined.value, isValidating := false)
      ensures combined.Done? && old(isMounted) && !step.CallHandler? &&
              !combined.value.Undefined? && !combined.value.Null? ==>
                state == old(state).(errors := combined.value, isValidating := false, isSubmitting := false)
      ensures combined.Done? && combined.value.ErrorObj? ==>
                step == SubmitFinished(if old(isMounted) then Thrown(combined.value) else Done(Undefined))
      ensures !old(isMounted) ==> state == old(state)
      ensures state.values == old(state).values && state.touched == old(state).touched &&
              state.submitCount == old(state).submitCount && state.status == old(state).status
      ensures snapshot == old(snapshot) && isMounted == old(isMounted) && registry == old(registry) && props == old(props)
    {
      ValidationSettled(combined);
      if combined.Thrown? {
        return SubmitFinished(combined);
      }
      var errors := combined.value;
      var isInstanceOfError := errors.ErrorObj?;
      if !isInstanceOfError && (errors.Undefined? || errors.Null?) {
        return SubmitFinished(Thrown(TypeError));
      }
      var isActuallyValid := !isInstanceOfError && KeyCount(errors) == 0;
      if isActuallyValid {
        step := CallHandler;
      } else if isMounted {
        SetSubmitting(false);
        step := if isInstanceOfError then SubmitFinished(Thrown(errors)) else SubmitFinished(Done(Undefined));
      } else {
        step := SubmitFinished(Done(Undefined));
      }
    }

    /** `submitForm` after the handler: a synchronous handler (one that throws
        or returns `undefined`) leaves `isSubmitting` to its caller; a promise
        clears it on a mounted engine, and a rejection is rethrown only while
        mounted. */
    method SubmitHandlerSettled(h: HandlerOutcome) returns (o: Outcome<Value>)
      modifies this
      ensures h.HandlerThrew? ==> o == Thrown(h.reason) && state == old(state)
      ensures h.HandlerReturnedUndefined? ==> o == Done(Undefined) && state == old(state)
      ensures h.HandlerFulfilled? ==> o == Done(h.result)
      ensures h.HandlerRejected? ==> o == (if old(isMounted) then Thrown(h.reason) else Done(Undefined))
      ensures (h.HandlerFulfilled? || h.HandlerRejected?) && old(isMounted) ==>
                state == old(state).(isSubmitting := false)
      ensures !old(isMounted) ==> state == old(state)
      ensures snapshot == old(snapshot) && isMounted == old(isMounted) && registry == old(registry) && props == old(props)
    {
      match h {
        case HandlerThrew(x) =>
          o := Thrown(x);
        case HandlerReturnedUndefined =>
          o := Done(Undefined);
        case HandlerFulfilled(result) =>
          if isMounted {
            SetSubmitting(false);
          }
          o := Done(result);
        case HandlerRejected(x) =>
          if isMounted {
            SetSubmitting(false);
            o := Thrown(x);
          } else {
            o := Done(Undefined);
          }
      }
    }

    // ----- validateField ------------------------------------------------------

    /** `validateField(name)` with the guard as intended: a field with its own
        validator is checked with it (synchronously: the error is stored at once;
        asynchronously: `isValidating` is raised and the errors of this moment
        are kept for the settle step); without one, the schema is consulted if
        there is one; otherwise nothing happens. */
    method ValidateField(name: Path, result: FieldValidatorResult) returns (r: FieldCheck)
      requires Valid()
      modifies this
      ensures FieldHasValidator(registry, name) && result.SyncResult? ==>
                r == Checked(result.error) &&
                state == old(state).(errors := Set(old(state).errors, name, result.error), isValidating := false)
      ensures FieldHasValidator(registry, name) && result.SyncResult? && KindsAgree(old(state).errors, name) ==>
                GetFieldMeta(name).error == result.error
      ensures (FieldHasValidator(registry, name) && result.AsyncResult?) ||
              (!FieldHasValidator(registry, name) && props.hasSchema) ==>
                r == Awaiting(old(state).errors) && state == old(state).(isValidating := true)
      ensures FieldHasValidator(registry, name) && result.SyncThrew? ==>
                r == Failed(result.reason) && state == old(state)
      ensures !FieldHasValidator(registry, name) && !props.hasSchema ==> r == NotChecked && state == old(state)
      ensures Valid()
      ensures snapshot == old(snapshot) && isMounted == old(isMounted) && registry == old(registry) && props == old(props)
    {
      var errors := state.errors;
      if FieldHasValidator(registry, name) {
        match result {
          case SyncResult(error) =>
            state := state.(errors := Set(errors, name, error), isValidating := false);
            if KindsAgree(errors, name) {
              GetSet(errors, name, error);
            }
            r := Checked(error);
          case SyncThrew(reason) =>
            r := Failed(reason);
          case AsyncResult =>
            ValidationStarted();
            r := Awaiting(errors);
        }
      } else if props.hasSchema {
        ValidationStarted();
        r := Awaiting(errors);
      } else {
        r := NotChecked;
      }
    }

    /** The settle step of an asynchronous `validateField`: the error is written
        into the errors captured when validation started, so any error change
        made in the meantime is overwritten. */
    method FieldValidationSettled(name: Path, errorsAtStart: Value, error: Value)
      modifies this
      ensures state == old(state).(errors := Set(errorsAtStart, name, error), isValidating := false)
      ensures forall p :: Disjoint(p, name) ==> GetFieldMeta(p).error == Get(errorsAtStart, p)
      ensures snapshot == old(snapshot) && isMounted == old(isMounted) && registry == old(registry) && props == old(props)
    {
      state := state.(errors := Set(errorsAtStart, name, error), isValidating := false);
      forall p | Disjoint(p, name) ensures Get(state.errors, p) == Get(errorsAtStart, p) {
        GetSetOther(errorsAtStart, name, error, p);
      }
    }

    /** The settle step of `validateField`'s schema path, with the corrected
        read: the schema's error at the field's path is written into the
        errors captured when validation started. */
    method SchemaValidationSettled(name: Path, errorsAtStart: Value, schemaErrors: Value)
      modifies this
      ensures state == old(state).(errors := Set(errorsAtStart, name, SchemaFieldError(schemaErrors, name)),
                                   isValidating := false)
      ensures KindsAgree(errorsAtStart, name) ==> GetFieldMeta(name).error == Get(schemaErrors, name)
      ensures forall p :: Disjoint(p, name) ==> GetFieldMeta(p).error == Get(errorsAtStart, p)
      ensures snapshot == old(snapshot) && isMounted == old(isMounted) && registry == old(registry) && props == old(props)
    {
      FieldValidationSettled(name, errorsAtStart, SchemaFieldError(schemaErrors, name));
      if KindsAgree(errorsAtStart, name) {
        GetSet(errorsAtStart, name, SchemaFieldError(schemaErrors, name));
      }
    }

    // ----- queries --------------------------------------------------------------

    /** `getFieldMeta` */
    function GetFieldMeta(name: Path): (m: FieldMeta)
      reads this
      ensures m.touched == Truthy(Get(state.touched, name)) && m.initialTouched == Truthy(Get(snapshot.touched, name))
      ensures m.value == Get(state.values, name) && m.initialValue == Get(snapshot.values, name)
      ensures m.error == Get(state.errors, name) && m.initialError == Get(snapshot.errors, name)
    {
      FieldMeta(Get(state.values, name), Get(state.errors, name), Truthy(Get(state.touched, name)),
                Get(snapshot.values, name), Truthy(Get(snapshot.touched, name)), Get(snapshot.errors, name))
    }

    /** `getFieldProps`: the field object is built from the current value and
        then adjusted for checkboxes, radios and multiple selects. */
    method GetFieldProps(options: FieldOptions) returns (field: FieldInputProps)
      ensures field.name == options.name
      ensures options.ByName? ==> field == FieldInputProps(options.name, Get(state.values, options.name), None, None)
      ensures options.ByOptions? && options.inputType == "checkbox" ==>
                field.multiple == None &&
                if options.valueProp == Undefined then
                  field.value == Get(state.values, options.name) &&
                  field.checked == Some(Truthy(Get(state.values, options.name)))
                else
                  field.value == options.valueProp &&
                  field.checked == Some(CheckboxChecked(Get(state.values, options.name), options.valueProp))
      ensures options.ByOptions? && options.inputType == "radio" ==>
                field.value == options.valueProp && field.multiple == None &&
                field.checked == Some(Get(state.values, options.name) == options.valueProp)
      ensures options.ByOptions? && options.inputType != "checkbox" && options.inputType != "radio" &&
              options.component == "select" && options.multiple ==>
                field.value == Or(Get(state.values, options.name), Arr([])) &&
                field.multiple == Some(true) && field.checked == None
      ensures options.ByOptions? && options.inputType != "checkbox" && options.inputType != "radio" &&
              !(options.component == "select" && options.multiple) ==>
                field == FieldInputProps(options.name, Get(state.values, options.name), None, None)
    {
      var valueState := Get(state.values, options.name);
      field := FieldInputProps(options.name, valueState, None, None);
      if options.ByOptions? {
        if options.inputType == "checkbox" {
          if options.valueProp == Undefined {
            field := field.(checked := Some(Truthy(valueState)));
          } else {
            field := field.(checked := Some(valueState.Arr? && IndexOf(valueState.elems, options.valueProp) != -1),
                            value := options.valueProp);
          }
        } else if options.inputType == "radio" {
          field := field.(checked := Some(valueState == options.valueProp), value := options.valueProp);
        } else if options.component == "select" && options.multiple {
          field := field.(value := Or(field.value, Arr([])), multiple := Some(true));
        }
      }
    }

    /** `isDirty`: some field, or the whole form, shows a value other than
        its initial value. */
    function IsDirty(): (d: bool)
      reads this
      ensures d <==> exists p :: GetFieldMeta(p).value != GetFieldMeta(p).initialValue
    {
      assert GetFieldMeta([]).value == state.values && GetFieldMeta([]).initialValue == snapshot.values;
      snapshot.values != state.values
    }

    /** `isValid`: the errors are present and have no keys, so no field shows
        an error; an empty error object is valid. */
    function IsValid(): (v: bool)
      reads this
      ensures v ==> Truthy(state.errors) && forall p :: |p| > 0 ==> GetFieldMeta(p).error == Undefined
      ensures Truthy(state.errors) && KeyCount(state.errors) == 0 ==> v
      ensures state.errors == Obj(map[]) ==> v
    {
      if Truthy(state.errors) && KeyCount(state.errors) == 0 then
        NoKeysNoFieldErrors(state.errors);
        true
      else false
    }
  }

  /** A submission whose validation finds no errors and whose handler is
      synchronous and returns `undefined`: `submitForm` returns without
      clearing `isSubmitting`, so the flag stays set after the submission. */
  method SyncSubmitLeavesSubmitting(f: Formik) returns (o: Outcome<Value>)
    requires f.isMounted
    modifies f
    ensures o == Done(Undefined)
    ensures f.state == old(f.state).(touched := TouchAll(old(f.state).values), isSubmitting := true,
                                     submitCount := old(f.state).submitCount + 1,
                                     isValidating := false, errors := Obj(map[]))
    ensures f.state.isSubmitting
  {
    f.SubmitBegin();
    var step := f.SubmitValidated(Done(Obj(map[])));
    assert step.CallHandler?;
    o := f.SubmitHandlerSettled(HandlerReturnedUndefined);
  }
}
