/** The validation orchestrator's value-level helpers from Formik.tsx: the
    schema-error conversion (`yupToFormErrors`), the normalisation before a
    schema check (`prepareDataForValidation`), the reduction of field-level
    validator results, the array policy of the error merge (`arrayMerge`) and
    the promise glue that turns each validator's outcome into an error tree.
    Every validator is represented by its outcome, never called. */
module Validation {
  import opened JsValues
  import opened PathStore

  // ---------------------------------------------------------------------
  // yupToFormErrors
  // ---------------------------------------------------------------------

  /** One `{ path, message }` entry of a schema failure's `inner` list. */
  datatype YupIssue = YupIssue(path: Path, message: string)

  /** A schema library's `ValidationError`: its own path and message, and the
      `inner` list (absent when the library did not collect one). */
  datatype YupError = YupError(path: Path, message: string, inner: Option<seq<YupIssue>>)

  /** One turn of the conversion loop: a message is recorded only where no
      truthy message is stored yet. */
  function Record(errors: Value, issue: YupIssue): Value {
    if !Truthy(Get(errors, issue.path)) then Set(errors, issue.path, Str(issue.message))
    else errors
  }

  /** The conversion loop over `inner`, left to right. */
  function RecordAll(errors: Value, issues: seq<YupIssue>): Value
    decreases |issues|
  {
    if |issues| == 0 then errors else RecordAll(Record(errors, issues[0]), issues[1..])
  }

  /** Formik.tsx `yupToFormErrors`. */
  method YupToFormErrors(yupError: YupError) returns (errors: Value)
    ensures yupError.inner.None? ==> errors == Obj(map[])
    ensures yupError.inner == Some([]) ==>
              Get(errors, yupError.path) == Str(yupError.message) &&
              forall q :: Disjoint(q, yupError.path) ==> Get(errors, q) == Undefined
    ensures yupError.inner.Some? && |yupError.inner.value| > 0 ==>
              errors == RecordAll(Obj(map[]), yupError.inner.value)
  {
    errors := Obj(map[]);
    if yupError.inner.Some? {
      var inner := yupError.inner.value;
      if |inner| == 0 {
        errors := Set(errors, yupError.path, Str(yupError.message));
        EmptyTree(yupError.path);
        GetSet(Obj(map[]), yupError.path, Str(yupError.message));
        forall q | Disjoint(q, yupError.path)
          ensures Get(errors, q) == Undefined
        {
          GetSetOther(Obj(map[]), yupError.path, Str(yupError.message), q);
          EmptyTree(q);
        }
        return;
      }
      for i := 0 to |inner|
        invariant RecordAll(errors, inner[i..]) == RecordAll(Obj(map[]), inner)
      {
        if !Truthy(Get(errors, inner[i].path)) {
          errors := Set(errors, inner[i].path, Str(inner[i].message));
        }
      }
    }
  }

  /** The messages of the issues whose path is `p`, in order. */
  function MessagesAt(issues: seq<YupIssue>, p: Path): seq<string>
    decreases |issues|
  {
    if |issues| == 0 then []
    else (if issues[0].path == p then [issues[0].message] else []) + MessagesAt(issues[1..], p)
  }

  /** The first non-empty string of `msgs`, if any. */
  function FirstNonEmpty(msgs: seq<string>): Option<string>
    decreases |msgs|
  {
    if |msgs| == 0 then None
    else if msgs[0] != "" then Some(msgs[0])
    else FirstNonEmpty(msgs[1..])
  }

  /** What ends up at `p`, starting from `cur`: a truthy value already there
      stays; otherwise the first non-empty message at `p` wins; with only empty
      messages the empty string is stored; with none, nothing changes. */
  function Winner(cur: Value, msgs: seq<string>): Value {
    if Truthy(cur) then cur
    else if FirstNonEmpty(msgs).Some? then Str(FirstNonEmpty(msgs).value)
    else if |msgs| > 0 then Str("")
    else cur
  }

  lemma WinnerStep(cur: Value, m: string, msgs: seq<string>)
    ensures Winner(cur, [m] + msgs) == Winner(if Truthy(cur) then cur else Str(m), msgs)
  {
    assert ([m] + msgs)[1..] == msgs;
  }

  /** Every issue's path is `p` itself or parts ways with `p` consistently. */
  predicate SeparatedFrom(issues: seq<YupIssue>, p: Path) {
    forall i :: 0 <= i < |issues| ==>
      issues[i].path == p || (Disjoint(issues[i].path, p) && KindsConsistent(issues[i].path, p))
  }

  /** For duplicate paths the first (non-empty) message wins and later ones are
      ignored; issues at other paths do not disturb it. */
  lemma {:induction false} RecordAllAt(errors: Value, issues: seq<YupIssue>, p: Path)
    requires KindsAgree(errors, p)
    requires SeparatedFrom(issues, p)
    ensures Get(RecordAll(errors, issues), p) == Winner(Get(errors, p), MessagesAt(issues, p))
    decreases |issues|
  {
    if |issues| > 0 {
      var q := issues[0].path;
      var next := Record(errors, issues[0]);
      assert SeparatedFrom(issues[1..], p) by {
        forall i | 0 <= i < |issues[1..]|
          ensures issues[1..][i].path == p ||
                  (Disjoint(issues[1..][i].path, p) && KindsConsistent(issues[1..][i].path, p))
        {
          assert issues[1..][i] == issues[i + 1];
        }
      }
      assert MessagesAt(issues, p) ==
        (if q == p then [issues[0].message] else []) + MessagesAt(issues[1..], p);
      if q == p {
        WinnerStep(Get(errors, p), issues[0].message, MessagesAt(issues[1..], p));
        if !Truthy(Get(errors, q)) {
          GetSet(errors, p, Str(issues[0].message));
          SetKeepsKindsAgree(errors, q, Str(issues[0].message), p);
        }
        assert KindsAgree(next, p);
      } else {
        assert Disjoint(q, p) && KindsConsistent(q, p);
        DisjointSymmetric(q, p);
        KindsConsistentSymmetric(q, p);
        if !Truthy(Get(errors, q)) {
          GetSetOther(errors, q, Str(issues[0].message), p);
          SetKeepsKindsAgree(errors, q, Str(issues[0].message), p);
        }
        assert Get(next, p) == Get(errors, p);
        assert MessagesAt(issues, p) == MessagesAt(issues[1..], p);
      }
      RecordAllAt(next, issues[1..], p);
    }
  }

  /** Two failures at the same field: the first message is the one kept. */
  lemma FirstMessageWinsExample(a: string, b: string)
    requires a != ""
    ensures Get(RecordAll(Obj(map[]), [YupIssue([Name("email")], a), YupIssue([Name("email")], b)]),
                [Name("email")]) == Str(a)
  {
    var issues := [YupIssue([Name("email")], a), YupIssue([Name("email")], b)];
    var p := [Name("email")];
    assert issues[1..] == [YupIssue([Name("email")], b)];
    assert issues[1..][1..] == [];
    assert MessagesAt(issues[1..][1..], p) == [];
    assert MessagesAt(issues[1..], p) == [b];
    assert MessagesAt(issues, p) == [a, b];
    RecordAllAt(Obj(map[]), issues, p);
  }

  // ---------------------------------------------------------------------
  // prepareDataForValidation
  // ---------------------------------------------------------------------

  /** A blank text leaf counts as not provided. */
  function Blank(v: Value): Value {
    if v == Str("") then Undefined else v
  }

  /** The normalised copy of one value: arrays and plain objects are entered,
      every other value goes through `Blank`. */
  function Prepared(v: Value): Value {
    match v
    case Arr(s) => Arr(seq(|s|, i requires 0 <= i < |s| => Prepared(s[i])))
    case Obj(m) => Obj(map k | k in m :: Prepared(m[k]))
    case _ => Blank(v)
  }

  /** What `prepareDataForValidation` yields for its argument: an array or a
      plain object is normalised; the keys of a string primitive become an
      object of its characters; any other primitive gives `{}`. */
  function PreparedRoot(values: Value): Value {
    match values
    case Arr(_) => Prepared(values)
    case Obj(_) => Prepared(values)
    case Str(s) => Obj(IndexKeyed(Chars(s)))
    case _ => Obj(map[])
  }

  /** Formik.tsx `prepareDataForValidation`: a `for…in` over the own keys,
      filling a fresh array or object. */
  method PrepareDataForValidation(values: Value) returns (data: Value)
    ensures data == PreparedRoot(values)
    decreases values, 0
  {
    match values {
      case Obj(m) =>
        var out: map<Key, Value> := map[];
        var todo := m.Keys;
        while todo != {}
          invariant todo <= m.Keys
          invariant out.Keys == m.Keys - todo
          invariant forall k :: k in out ==> out[k] == Prepared(m[k])
          decreases todo
        {
          var k :| k in todo;
          var entry := PrepareEntry(m[k]);
          out := out[k := entry];
          todo := todo - {k};
        }
        data := Obj(out);
      case Arr(s) =>
        var out: seq<Value> := [];
        for i := 0 to |s|
          invariant |out| == i
          invariant forall j :: 0 <= j < i ==> out[j] == Prepared(s[j])
        {
          var entry := PrepareEntry(s[i]);
          out := out + [entry];
        }
        data := Arr(out);
      case Str(s) =>
        data := Obj(IndexKeyed(Chars(s)));
      case _ =>
        data := Obj(map[]);
    }
  }

  /** The body of the `for…in` for one key: an array value is mapped element by
      element, a plain object is prepared recursively, anything else is blanked. */
  method PrepareEntry(v: Value) returns (r: Value)
    ensures r == Prepared(v)
    decreases v, 1
  {
    match v {
      case Arr(s) =>
        var out: seq<Value> := [];
        for i := 0 to |s|
          invariant |out| == i
          invariant forall j :: 0 <= j < i ==> out[j] == Prepared(s[j])
        {
          var e := s[i];
          var x;
          if IsContainer(e) {
            x := PrepareDataForValidation(e);
          } else {
            x := Blank(e);
          }
          out := out + [x];
        }
        r := Arr(out);
      case Obj(_) =>
        r := PrepareDataForValidation(v);
      case _ =>
        r := Blank(v);
    }
  }

  /** Normalisation commutes with every lookup: each key and each array length
      is preserved, so the value found at any path, at any depth, is the
      normalised original. */
  lemma {:induction false} PreparedAt(v: Value, p: Path)
    ensures Has(Prepared(v), p) <==> Has(v, p)
    ensures Get(Prepared(v), p) == Prepared(Get(v, p))
    decreases |p|
  {
    if |p| > 0 {
      var k := p[0];
      match v
      case Arr(s) =>
        if k.Idx? && k.index < |s| {
          PreparedAt(s[k.index], p[1..]);
        } else {
          GetUndefined(p[1..]);
        }
      case Obj(m) =>
        if k in m {
          PreparedAt(m[k], p[1..]);
        } else {
          GetUndefined(p[1..]);
        }
      case _ =>
        GetUndefined(p[1..]);
    }
  }

  /** The empty-string leaves, and only they, become undefined; every other
      leaf is kept as it is, and containers keep their kind and size. */
  lemma LeafNormalised(v: Value, p: Path)
    ensures !IsContainer(Get(v, p)) ==>
              Get(Prepared(v), p) == (if Get(v, p) == Str("") then Undefined else Get(v, p))
    ensures Get(v, p).Arr? ==> Get(Prepared(v), p).Arr? && |Get(Prepared(v), p).elems| == |Get(v, p).elems|
    ensures Get(v, p).Obj? ==> Get(Prepared(v), p).Obj? && Get(Prepared(v), p).fields.Keys == Get(v, p).fields.Keys
  {
    PreparedAt(v, p);
  }

  /** Normalising twice is normalising once. */
  lemma {:induction false} PreparedIdempotent(v: Value)
    ensures Prepared(Prepared(v)) == Prepared(v)
  {
    match v
    case Arr(s) =>
      var once := seq(|s|, i requires 0 <= i < |s| => Prepared(s[i]));
      forall i | 0 <= i < |s| ensures Prepared(once[i]) == once[i] {
        PreparedIdempotent(s[i]);
      }
      assert Prepared(Prepared(v)) == Arr(seq(|once|, i requires 0 <= i < |once| => Prepared(once[i])));
    case Obj(m) =>
      var once := map k | k in m :: Prepared(m[k]);
      forall k | k in m ensures Prepared(once[k]) == once[k] {
        PreparedIdempotent(m[k]);
      }
      assert Prepared(Prepared(v)) == Obj(map k | k in once :: Prepared(once[k]));
    case _ =>
  }

  // ---------------------------------------------------------------------
  // runFieldLevelValidations: the reduce step
  // ---------------------------------------------------------------------

  /** The placeholder result used when no registered field has a validator. */
  const Sentinel: Value := Str("DO_NOT_DELETE_YOU_WILL_BE_FIRED")

  /** A field registration: its path and whether its `validate` is a function. */
  datatype Registration = Registration(name: Path, hasValidate: bool)

  /** The registered fields whose validator is a function, in registry order. */
  function ValidatedFields(registry: seq<Registration>): (keys: seq<Path>)
    ensures |keys| <= |registry|
    ensures forall k :: k in keys <==>
              exists i :: 0 <= i < |registry| && registry[i].hasValidate && registry[i].name == k
    ensures (forall i :: 0 <= i < |registry| ==> !registry[i].hasValidate) ==> keys == []
    ensures (forall i :: 0 <= i < |registry| ==> registry[i].hasValidate) ==> |keys| == |registry|
    decreases |registry|
  {
    if |registry| == 0 then []
    else
      var rest := ValidatedFields(registry[1..]);
      assert forall i :: 0 <= i < |registry[1..]| ==> registry[1..][i] == registry[i + 1];
      if registry[0].hasValidate then [registry[0].name] + rest else rest
  }

  /** The validated fields keep the registry's order: those of a first part
      of the registry come before those of the rest. */
  lemma {:induction false} ValidatedFieldsConcat(a: seq<Registration>, b: seq<Registration>)
    ensures ValidatedFields(a + b) == ValidatedFields(a) + ValidatedFields(b)
    decreases |a|
  {
    if |a| > 0 {
      assert (a + b)[0] == a[0];
      assert (a + b)[1..] == a[1..] + b;
      ValidatedFieldsConcat(a[1..], b);
    } else {
      assert a + b == b;
    }
  }

  /** One turn of the reduce: the sentinel and falsy results leave the
      accumulated tree alone; a truthy result is written at its field. */
  function CollectStep(prev: Value, key: Path, curr: Value): Value {
    if curr == Sentinel then prev
    else if Truthy(curr) then Set(prev, key, curr)
    else prev
  }

  /** The reduce over the validator results, from `{}` onwards. */
  function Collect(prev: Value, keys: seq<Path>, results: seq<Value>): Value
    requires |keys| == |results|
    decreases |results|
  {
    if |results| == 0 then prev
    else Collect(CollectStep(prev, keys[0], results[0]), keys[1..], results[1..])
  }

  /** Formik.tsx `runFieldLevelValidations` once every validator has settled:
      `results[i]` is what the validator of the i-th validated field produced. */
  function FieldLevelErrors(registry: seq<Registration>, results: seq<Value>): Value
    requires |results| == |ValidatedFields(registry)|
  {
    var keys := ValidatedFields(registry);
    if |keys| > 0 then Collect(Obj(map[]), keys, results)
    else Collect(Obj(map[]), [[]], [Sentinel])
  }

  /** Field paths that never overlap: distinct, none a prefix of another, and
      keyed consistently where they share a parent. */
  predicate Separated(keys: seq<Path>) {
    forall i, j :: 0 <= i < |keys| && 0 <= j < |keys| && i != j ==>
      Disjoint(keys[i], keys[j]) && KindsConsistent(keys[i], keys[j])
  }

  lemma {:induction false} CollectElsewhere(prev: Value, keys: seq<Path>, results: seq<Value>, p: Path)
    requires |keys| == |results|
    requires forall j :: 0 <= j < |keys| ==> Disjoint(p, keys[j])
    ensures Get(Collect(prev, keys, results), p) == Get(prev, p)
    decreases |results|
  {
    if |results| > 0 {
      var next := CollectStep(prev, keys[0], results[0]);
      if next != prev {
        GetSetOther(prev, keys[0], results[0], p);
      }
      assert forall j :: 0 <= j < |keys[1..]| ==> keys[1..][j] == keys[j + 1];
      CollectElsewhere(next, keys[1..], results[1..], p);
    }
  }

  lemma {:induction false} CollectAt(prev: Value, keys: seq<Path>, results: seq<Value>, i: nat)
    requires |keys| == |results| && i < |keys|
    requires Separated(keys)
    requires KindsAgree(prev, keys[i])
    ensures Get(Collect(prev, keys, results), keys[i]) ==
              if results[i] != Sentinel && Truthy(results[i]) then results[i] else Get(prev, keys[i])
    decreases i
  {
    var p := keys[i];
    var next := CollectStep(prev, keys[0], results[0]);
    assert Separated(keys[1..]) by {
      forall a, b | 0 <= a < |keys[1..]| && 0 <= b < |keys[1..]| && a != b
        ensures Disjoint(keys[1..][a], keys[1..][b]) && KindsConsistent(keys[1..][a], keys[1..][b])
      {
        assert keys[1..][a] == keys[a + 1] && keys[1..][b] == keys[b + 1];
      }
    }
    if i == 0 {
      if results[0] != Sentinel && Truthy(results[0]) {
        GetSet(prev, p, results[0]);
      }
      forall j | 0 <= j < |keys[1..]| ensures Disjoint(p, keys[1..][j]) {
        assert keys[1..][j] == keys[j + 1];
      }
      CollectElsewhere(next, keys[1..], results[1..], p);
    } else {
      assert Disjoint(p, keys[0]) && KindsConsistent(p, keys[0]);
      if next != prev {
        GetSetOther(prev, keys[0], results[0], p);
        SetKeepsKindsAgree(prev, keys[0], results[0], p);
      }
      assert keys[1..][i - 1] == p;
      CollectAt(next, keys[1..], results[1..], i - 1);
    }
  }

  /** Each truthy, non-sentinel result lands at its own field's path; a falsy
      result (or the sentinel) adds nothing there. */
  lemma FieldErrorAt(registry: seq<Registration>, results: seq<Value>, i: nat)
    requires |results| == |ValidatedFields(registry)| && i < |results|
    requires Separated(ValidatedFields(registry)) && |ValidatedFields(registry)[i]| > 0
    ensures Get(FieldLevelErrors(registry, results), ValidatedFields(registry)[i]) ==
              if results[i] != Sentinel && Truthy(results[i]) then results[i] else Undefined
  {
    var keys := ValidatedFields(registry);
    EmptyTree(keys[i]);
    CollectAt(Obj(map[]), keys, results, i);
  }

  /** No error is collected at a path outside every validated field. */
  lemma FieldErrorsNowhereElse(registry: seq<Registration>, results: seq<Value>, p: Path)
    requires |results| == |ValidatedFields(registry)|
    requires |p| > 0
    requires forall j :: 0 <= j < |ValidatedFields(registry)| ==> Disjoint(p, ValidatedFields(registry)[j])
    ensures Get(FieldLevelErrors(registry, results), p) == Undefined
  {
    var keys := ValidatedFields(registry);
    EmptyTree(p);
    if |keys| > 0 {
      CollectElsewhere(Obj(map[]), keys, results, p);
    } else {
      SentinelSkipped(Obj(map[]));
    }
  }

  /** Errors are collected only for registered fields whose validator is a
      function: a path apart from every such field, whatever else is
      registered there, gets none. */
  lemma ErrorsOnlyForValidatedFields(registry: seq<Registration>, results: seq<Value>, p: Path)
    requires |results| == |ValidatedFields(registry)|
    requires |p| > 0
    requires forall i :: 0 <= i < |registry| && registry[i].hasValidate ==> Disjoint(p, registry[i].name)
    ensures Get(FieldLevelErrors(registry, results), p) == Undefined
  {
    var keys := ValidatedFields(registry);
    forall j | 0 <= j < |keys| ensures Disjoint(p, keys[j]) {
      assert keys[j] in keys;
    }
    FieldErrorsNowhereElse(registry, results, p);
  }

  /** The whole field-level pass: `Promise.all` over the validators, so one
      rejection (a validator that throws or whose promise rejects) rejects the
      pass; otherwise the settled results are reduced. */
  function RunFieldLevelValidations(registry: seq<Registration>, outcomes: seq<Outcome<Value>>): (o: Outcome<Value>)
    requires |outcomes| == |ValidatedFields(registry)|
    ensures o.Thrown? <==> exists i :: 0 <= i < |outcomes| && outcomes[i].Thrown?
    ensures o.Thrown? ==> exists i :: 0 <= i < |outcomes| && outcomes[i] == o
    ensures o.Done? ==> o.value == FieldLevelErrors(registry, seq(|outcomes|, i requires 0 <= i < |outcomes| => outcomes[i].value))
  {
    match FirstRejection(outcomes)
    case Some(x) => Thrown(x)
    case None => Done(FieldLevelErrors(registry, seq(|outcomes|, i requires 0 <= i < |outcomes| => outcomes[i].value)))
  }

  /** The reason of the first rejected outcome, if any. */
  function FirstRejection(outcomes: seq<Outcome<Value>>): (r: Option<Value>)
    ensures r.None? <==> forall i :: 0 <= i < |outcomes| ==> outcomes[i].Done?
    ensures r.Some? ==> exists i :: 0 <= i < |outcomes| && outcomes[i] == Thrown(r.value)
    decreases |outcomes|
  {
    if |outcomes| == 0 then None
    else if outcomes[0].Thrown? then Some(outcomes[0].reason)
    else
      var r := FirstRejection(outcomes[1..]);
      assert forall i :: 0 <= i < |outcomes[1..]| ==> outcomes[1..][i] == outcomes[i + 1];
      if r.Some? then
        assert exists i :: 0 <= i < |outcomes[1..]| && outcomes[1..][i] == Thrown(r.value);
        r
      else r
  }

  /** Without any validated field the placeholder is dropped and the result is
      the empty error tree. */
  lemma NoValidatorsNoErrors(registry: seq<Registration>)
    requires forall i :: 0 <= i < |registry| ==> !registry[i].hasValidate
    ensures |ValidatedFields(registry)| == 0
    ensures FieldLevelErrors(registry, []) == Obj(map[])
  {
    SentinelSkipped(Obj(map[]));
  }

  lemma SentinelSkipped(prev: Value)
    ensures Collect(prev, [[]], [Sentinel]) == prev
  {
    var names: seq<Path> := [[]];
    var list := [Sentinel];
    assert names[1..] == [] && list[1..] == [];
    assert CollectStep(prev, names[0], list[0]) == prev;
    assert Collect(prev, names, list) == Collect(prev, names[1..], list[1..]);
  }

  // ---------------------------------------------------------------------
  // arrayMerge (the array policy of the error merge)
  // ---------------------------------------------------------------------

  /** `Array.isArray(e) ? [] : {}` */
  function EmptyLike(e: Value): Value {
    if e.Arr? then Arr([]) else Obj(map[])
  }

  /** What a slot of the target holds after the merge, for indices inside the
      target: an undefined slot adopts the (cloned) source element, a mergeable
      source element is merged into the slot, anything else leaves it alone. */
  function MergedSlot(t: Value, e: Value, mergeable: Value -> bool, deepmerge: (Value, Value) -> Value): Value {
    if t == Undefined then (if mergeable(e) then deepmerge(EmptyLike(e), e) else e)
    else if mergeable(e) then deepmerge(t, e)
    else t
  }

  /** The non-mergeable elements of `src` that are appended at the end when the
      source is no longer than the target: those facing a defined slot and not
      already present in the target. */
  function Pushed(target: seq<Value>, src: seq<Value>, mergeable: Value -> bool): seq<Value>
    decreases |src|
  {
    if |src| == 0 then []
    else
      var i := |src| - 1;
      var e := src[i];
      Pushed(target, src[..i], mergeable) +
        (if i < |target| && target[i] != Undefined && !mergeable(e) && e !in target then [e] else [])
  }

  /** Formik.tsx `arrayMerge`: the deep merge's object merge and its
      mergeability test are parameters. */
  method ArrayMerge(target: seq<Value>, source: seq<Value>,
                    mergeable: Value -> bool, deepmerge: (Value, Value) -> Value)
    returns (destination: seq<Value>)
    ensures |destination| >= |target| && |destination| >= |source|
    ensures forall j :: 0 <= j < |target| ==>
              destination[j] == if j < |source| then MergedSlot(target[j], source[j], mergeable, deepmerge)
                                else target[j]
    ensures |source| <= |target| ==> destination[|target|..] == Pushed(target, source, mergeable)
  {
    destination := target;
    var i := 0;
    while i < |source|
      invariant 0 <= i <= |source|
      invariant |destination| >= |target| && |destination| >= i
      invariant forall j :: 0 <= j < |target| ==>
                  destination[j] == if j < i then MergedSlot(target[j], source[j], mergeable, deepmerge)
                                    else target[j]
      invariant i <= |target| ==> destination[|target|..] == Pushed(target, source[..i], mergeable)
    {
      var e := source[i];
      ghost var before := destination;
      if At(destination, i) == Undefined {
        destination := Assign(destination, i, if mergeable(e) then deepmerge(EmptyLike(e), e) else e);
      } else if mergeable(e) {
        destination := Assign(destination, i, deepmerge(At(target, i), e));
      } else if IndexOf(target, e) == -1 {
        destination := destination + [e];
      }
      assert source[..i + 1][..i] == source[..i];
      if i + 1 <= |target| {
        assert destination[|target|..] == before[|target|..] +
          (if target[i] != Undefined && !mergeable(e) && e !in target then [e] else []);
      }
      i := i + 1;
    }
    assert source[..|source|] == source;
  }

  /** An appended element is never one the target already holds. */
  lemma {:induction false} PushedNotInTarget(target: seq<Value>, src: seq<Value>, mergeable: Value -> bool)
    ensures forall x :: x in Pushed(target, src, mergeable) ==> x !in target && !mergeable(x)
    decreases |src|
  {
    if |src| > 0 {
      PushedNotInTarget(target, src[..|src| - 1], mergeable);
    }
  }

  /** The elements appended all come from the source. */
  lemma {:induction false} PushedFromSource(target: seq<Value>, src: seq<Value>, mergeable: Value -> bool)
    ensures forall x :: x in Pushed(target, src, mergeable) ==> x in src
    decreases |src|
  {
    if |src| > 0 {
      PushedFromSource(target, src[..|src| - 1], mergeable);
    }
  }

  // ---------------------------------------------------------------------
  // The three validation sources and their combination
  // ---------------------------------------------------------------------

  /** What the form-level `validate` function did. */
  datatype ValidateReturn =
    | Threw(reason: Value)             // threw synchronously inside the executor
    | Returned(value: Value)           // a plain (non-promise) return value
    | PromiseResolved(value: Value)    // a returned promise fulfilled with a value
    | PromiseRejected(reason: Value)   // a returned promise rejected

  /** Formik.tsx `runValidateHandler`: a nullish return means no errors, a
      fulfilled promise's falsy value means no errors, a rejection propagates. */
  function RunValidateHandler(r: ValidateReturn): (o: Outcome<Value>)
    ensures o.Thrown? <==> r.PromiseRejected? || r.Threw?
    ensures (r.Threw? || r.PromiseRejected?) ==> o == Thrown(r.reason)
    ensures o.Done? ==> !o.value.Undefined? && !o.value.Null?
    ensures r.PromiseResolved? && Truthy(r.value) ==> o == Done(r.value)
    ensures r.PromiseResolved? && !Truthy(r.value) ==> o == Done(Obj(map[]))
    ensures r.Returned? && !r.value.Undefined? && !r.value.Null? ==> o == Done(r.value)
    ensures r.Returned? && (r.value.Undefined? || r.value.Null?) ==> o == Done(Obj(map[]))
  {
    match r
    case Threw(x) => Thrown(x)
    case Returned(v) => if v.Undefined? || v.Null? then Done(Obj(map[])) else Done(v)
    case PromiseResolved(v) => Done(if Truthy(v) then v else Obj(map[]))
    case PromiseRejected(x) => Thrown(x)
  }

  /** What the schema's `validate` / `validateAt` promise did. */
  datatype SchemaReturn =
    | SchemaPassed
    | SchemaFailed(error: YupError)     // rejected with `name === 'ValidationError'`
    | SchemaCrashed(reason: Value)      // rejected with anything else

  /** Formik.tsx `runValidationSchema`: a pass gives no errors, a validation
      failure is converted, any other rejection propagates. */
  method RunValidationSchema(r: SchemaReturn) returns (o: Outcome<Value>)
    ensures o.Thrown? <==> r.SchemaCrashed?
    ensures r.SchemaCrashed? ==> o == Thrown(r.reason)
    ensures r.SchemaPassed? ==> o == Done(Obj(map[]))
    ensures r.SchemaFailed? && r.error.inner.None? ==> o == Done(Obj(map[]))
    ensures r.SchemaFailed? && r.error.inner == Some([]) ==>
              o.Done? && Get(o.value, r.error.path) == Str(r.error.message) &&
              forall q :: Disjoint(q, r.error.path) ==> Get(o.value, q) == Undefined
    ensures r.SchemaFailed? && r.error.inner.Some? && |r.error.inner.value| > 0 ==>
              o == Done(RecordAll(Obj(map[]), r.error.inner.value))
  {
    match r {
      case SchemaPassed =>
        o := Done(Obj(map[]));
      case SchemaFailed(e) =>
        var errors := YupToFormErrors(e);
        o := Done(errors);
      case SchemaCrashed(x) =>
        o := Thrown(x);
    }
  }

  /** Formik.tsx `runAllValidations`: `Promise.all` over the three sources
      (an absent source contributes `{}`), then `deepmerge.all` from `{}` left
      to right. A rejection of any source rejects the whole pass. */
  function RunAllValidations(field: Outcome<Value>, schema: Outcome<Value>, validate: Outcome<Value>,
                             deepmerge: (Value, Value) -> Value): (o: Outcome<Value>)
    ensures o.Thrown? <==> field.Thrown? || schema.Thrown? || validate.Thrown?
    ensures o.Thrown? ==> (field.Thrown? && o.reason == field.reason) ||
                          (schema.Thrown? && o.reason == schema.reason) ||
                          (validate.Thrown? && o.reason == validate.reason)
    ensures o.Done? ==> o.value == deepmerge(deepmerge(deepmerge(Obj(map[]), field.value), schema.value), validate.value)
  {
    if field.Thrown? then Thrown(field.reason)
    else if schema.Thrown? then Thrown(schema.reason)
    else if validate.Thrown? then Thrown(validate.reason)
    else Done(deepmerge(deepmerge(deepmerge(Obj(map[]), field.value), schema.value), validate.value))
  }
}
