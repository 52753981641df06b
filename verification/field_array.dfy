/** The array helpers of FieldArray.tsx: the copy-then-mutate transforms
    (`move`, `swap`, `insert`, `replace` over `copyArrayLike`), the state
    transformer `updateArrayField` that rewrites the values, errors and touched
    subtrees at one path in a single commit, and the helpers built on it
    (`push`, `swap`, `move`, `insert`, `replace`, `unshift`, `remove`, `pop`),
    which commit onto the engine of the enclosing form. */
module FieldArrays {
  import opened JsValues
  import opened PathStore
  import opened Engine

  // ---------------------------------------------------------------------
  // copyArrayLike
  // ---------------------------------------------------------------------

  lemma {:induction false} MaxExists(s: set<nat>)
    requires s != {}
    ensures exists n :: n in s && forall y :: y in s ==> y <= n
    decreases |s|
  {
    var x :| x in s;
    if s != {x} {
      MaxExists(s - {x});
      var m :| m in s - {x} && forall y :: y in s - {x} ==> y <= m;
      var top := if x > m then x else m;
      forall y | y in s ensures y <= top {
        if y != x {
          assert y in s - {x};
        }
      }
    }
  }

  /** The largest integer key of an array-like object, or 0 without one. */
  function MaxIndex(m: map<Key, Value>): (n: nat)
    ensures forall k :: k in m && k.Idx? ==> k.index <= n
    ensures n == 0 || Idx(n) in m
  {
    var indices := set k | k in m && k.Idx? :: k.index;
    assert forall k :: k in m && k.Idx? ==> k.index in indices;
    if indices == {} then 0
    else
      MaxExists(indices);
      var n :| n in indices && forall y :: y in indices ==> y <= n;
      n
  }

  /** The first `n` integer-keyed entries of an object, holes as undefined. */
  function Slots(m: map<Key, Value>, n: nat): (r: seq<Value>)
    ensures |r| == n
    ensures forall i :: 0 <= i < n ==> r[i] == if Idx(i) in m then m[Idx(i)] else Undefined
  {
    seq(n, i requires 0 <= i < n => if Idx(i) in m then m[Idx(i)] else Undefined)
  }

  /** FieldArray.tsx `copyArrayLike`: a falsy value gives `[]`, an array a
      copy, and anything else `Array.from({ ...v, length: maxIndex + 1 })`:
      the integer-keyed entries at their indices and holes elsewhere, with a
      string giving its characters. */
  function CopyArrayLike(v: Value): (r: seq<Value>)
    ensures !Truthy(v) ==> r == []
    ensures v.Arr? ==> r == v.elems
    ensures v.Obj? ==>
              |r| == MaxIndex(v.fields) + 1 &&
              (forall k :: k in v.fields && k.Idx? ==> r[k.index] == v.fields[k]) &&
              (forall i :: 0 <= i < |r| && Idx(i) !in v.fields ==> r[i] == Undefined)
    ensures v.Str? && Truthy(v) ==> |r| == |v.s| && forall i :: 0 <= i < |r| ==> r[i] == Str([v.s[i]])
    ensures (v.Num? || v.Bool? || v.ErrorObj?) && Truthy(v) ==> r == [Undefined]
  {
    if !Truthy(v) then []
    else
      match v
      case Arr(s) => s
      case Obj(m) =>
        Slots(m, MaxIndex(m) + 1)
      case Str(s) => Chars(s)
      case _ => [Undefined]
  }

  // ---------------------------------------------------------------------
  // move, swap, insert, replace
  // ---------------------------------------------------------------------

  /** The array after moving the element at `from` to `to`: within range the
      element lands at `to` and the elements between shift by one towards
      `from`; a `to` past the end means the last position; a `from` past the
      end moves an undefined element in. */
  function Moved(c: seq<Value>, from: nat, to: nat): (r: seq<Value>)
    ensures from < |c| ==> |r| == |c|
    ensures from >= |c| ==> |r| == |c| + 1
  {
    if from < |c| then
      var t := if to < |c| then to else |c| - 1;
      seq(|c|, k requires 0 <= k < |c| =>
        if k == t then c[from]
        else if from < t && from <= k < t then c[k + 1]
        else if t < from && t < k <= from then c[k - 1]
        else c[k])
    else SpliceInsert(c, to, Undefined)
  }

  lemma MovedBySplicing(c: seq<Value>, from: nat, to: nat)
    requires from < |c|
    ensures SpliceInsert(SpliceRemove(c, from), to, c[from]) == Moved(c, from, to)
  {
    var r := SpliceInsert(SpliceRemove(c, from), to, c[from]);
    var m := Moved(c, from, to);
    var t := if to < |c| then to else |c| - 1;
    var rest := SpliceRemove(c, from);
    assert r == rest[..t] + [c[from]] + rest[t..];
    assert |r| == |c| == |m|;
    forall k | 0 <= k < |c| ensures r[k] == m[k] {
      if k < t {
        assert r[k] == rest[k];
        assert rest[k] == if k < from then c[k] else c[k + 1];
      } else if k == t {
        assert r[k] == c[from];
      } else {
        assert r[k] == rest[k - 1];
        assert rest[k - 1] == if k - 1 < from then c[k - 1] else c[k];
      }
    }
  }

  /** FieldArray.tsx `move`: copy, take `copy[from]`, splice it out, splice
      it back in at `to`. */
  method Move(arrayLike: Value, from: nat, to: nat) returns (copy: seq<Value>)
    ensures copy == Moved(CopyArrayLike(arrayLike), from, to)
  {
    copy := CopyArrayLike(arrayLike);
    ghost var original := copy;
    var value := At(copy, from);
    copy := SpliceRemove(copy, from);
    copy := SpliceInsert(copy, to, value);
    if from < |original| {
      MovedBySplicing(original, from, to);
    }
  }

  /** Within range, a move is a removal at `from` followed by an insertion
      at `to`. */
  lemma MovedWithin(c: seq<Value>, from: nat, to: nat)
    requires from < |c| && to < |c|
    ensures var rest := SpliceRemove(c, from);
            Moved(c, from, to) == rest[..to] + [c[from]] + rest[to..]
  {
    MovedBySplicing(c, from, to);
  }

  /** Moving keeps the moved element and the relative order of all others:
      taking the element out again gives what taking it out of the original
      gives. */
  lemma MoveKeepsOrder(c: seq<Value>, from: nat, to: nat)
    requires from < |c| && to < |c|
    ensures Moved(c, from, to)[to] == c[from]
    ensures SpliceRemove(Moved(c, from, to), to) == SpliceRemove(c, from)
  {
    MovedWithin(c, from, to);
    var rest := SpliceRemove(c, from);
    var r := Moved(c, from, to);
    assert SpliceRemove(r, to) == rest[..to] + rest[to..];
    assert rest[..to] + rest[to..] == rest;
  }

  lemma InsertCounts(s: seq<Value>, i: nat, v: Value)
    ensures multiset(SpliceInsert(s, i, v)) == multiset(s) + multiset{v}
  {
    var at := if i < |s| then i else |s|;
    assert SpliceInsert(s, i, v) == s[..at] + [v] + s[at..];
    assert s == s[..at] + s[at..];
  }

  lemma RemoveCounts(s: seq<Value>, i: nat)
    requires i < |s|
    ensures multiset(SpliceRemove(s, i)) + multiset{s[i]} == multiset(s)
  {
    assert SpliceRemove(s, i) == s[..i] + s[i + 1..];
    assert s == s[..i] + [s[i]] + s[i + 1..];
  }

  /** A move only reorders. */
  lemma MovePermutes(c: seq<Value>, from: nat, to: nat)
    requires from < |c|
    ensures multiset(Moved(c, from, to)) == multiset(c)
  {
    MovedBySplicing(c, from, to);
    InsertCounts(SpliceRemove(c, from), to, c[from]);
    RemoveCounts(c, from);
  }

  /** Moving back undoes a move. */
  lemma MoveBack(c: seq<Value>, from: nat, to: nat)
    requires from < |c| && to < |c|
    ensures Moved(Moved(c, from, to), to, from) == c
  {
    var once := Moved(c, from, to);
    MoveKeepsOrder(c, from, to);
    MovedBySplicing(once, to, from);
    var rest := SpliceRemove(c, from);
    assert SpliceRemove(once, to) == rest;
    assert c == rest[..from] + [c[from]] + rest[from..];
  }

  /** `max(|c|, i + 1, j + 1)`: the length after assigning at `i` and `j`. */
  function SwapLength(c: seq<Value>, i: nat, j: nat): nat {
    var m := if i < j then j + 1 else i + 1;
    if |c| < m then m else |c|
  }

  /** The array with the entries at `i` and `j` exchanged; an index past the end
      extends it, reading as undefined. */
  function Swapped(c: seq<Value>, i: nat, j: nat): (r: seq<Value>)
    ensures |r| == SwapLength(c, i, j) && |r| > 0
    ensures r[i] == At(c, j) && r[j] == At(c, i)
    ensures forall k :: 0 <= k < |r| && k != i && k != j ==> r[k] == At(c, k)
  {
    seq(SwapLength(c, i, j), k requires 0 <= k < SwapLength(c, i, j) =>
      if k == j then At(c, i) else if k == i then At(c, j) else At(c, k))
  }

  /** FieldArray.tsx `swap`: copy, then two index assignments. */
  method Swap(arrayLike: Value, indexA: nat, indexB: nat) returns (copy: seq<Value>)
    ensures copy == Swapped(CopyArrayLike(arrayLike), indexA, indexB)
  {
    copy := CopyArrayLike(arrayLike);
    ghost var original := copy;
    var a := At(copy, indexA);
    copy := Assign(copy, indexA, At(copy, indexB));
    copy := Assign(copy, indexB, a);
    var expected := Swapped(original, indexA, indexB);
    assert |copy| == |expected|;
    forall k | 0 <= k < |copy| ensures copy[k] == expected[k] {
    }
  }

  /** Within range, swapping twice gives the array back, and a swap only
      reorders. */
  lemma SwapTwice(c: seq<Value>, i: nat, j: nat)
    requires i < |c| && j < |c|
    ensures Swapped(Swapped(c, i, j), i, j) == c
    ensures multiset(Swapped(c, i, j)) == multiset(c)
  {
    var r := Swapped(c, i, j);
    assert |r| == |c|;
    if i == j {
      assert r == c;
    } else {
      assert r == c[i := c[j]][j := c[i]];
    }
  }

  /** FieldArray.tsx `insert`: copy, then `splice(index, 0, value)`; an index
      past the end inserts at the end. */
  method Insert(arrayLike: Value, index: nat, value: Value) returns (copy: seq<Value>)
    ensures var c := CopyArrayLike(arrayLike);
            var at := if index < |c| then index else |c|;
            |copy| == |c| + 1 && copy[at] == value && SpliceRemove(copy, at) == c
  {
    copy := CopyArrayLike(arrayLike);
    ghost var c := copy;
    copy := SpliceInsert(copy, index, value);
    InsertThenRemove(c, index, value);
  }

  /** Removing what was inserted gives the array back. */
  lemma InsertThenRemove(c: seq<Value>, index: nat, value: Value)
    ensures SpliceRemove(SpliceInsert(c, index, value), if index < |c| then index else |c|) == c
  {
    var at := if index < |c| then index else |c|;
    var r := SpliceInsert(c, index, value);
    assert r == c[..at] + [value] + c[at..];
    assert r[..at] == c[..at] && r[at + 1..] == c[at..];
    assert c[..at] + c[at..] == c;
  }

  /** FieldArray.tsx `replace`: copy, then one index assignment. */
  method Replace(arrayLike: Value, index: nat, value: Value) returns (copy: seq<Value>)
    ensures var c := CopyArrayLike(arrayLike);
            |copy| == (if index < |c| then |c| else index + 1) && copy[index] == value &&
            forall k :: 0 <= k < |copy| && k != index ==> copy[k] == At(c, k)
  {
    copy := CopyArrayLike(arrayLike);
    copy := Assign(copy, index, value);
  }

  /** Replacing an entry with itself changes nothing; replacing twice keeps
      the last value. */
  lemma ReplaceLaws(c: seq<Value>, index: nat, v: Value, w: Value)
    ensures index < |c| ==> Assign(c, index, c[index]) == c
    ensures Assign(Assign(c, index, v), index, w) == Assign(c, index, w)
  {
    var a := Assign(Assign(c, index, v), index, w);
    var b := Assign(c, index, w);
    assert |a| == |b|;
    forall k | 0 <= k < |a| ensures a[k] == b[k] {
    }
    if index < |c| {
      var d := Assign(c, index, c[index]);
      assert |d| == |c|;
      forall k | 0 <= k < |d| ensures d[k] == c[k] {
      }
    }
  }

  /** An errors object with only an integer key, as a schema reports errors
      for the third entry of an array, is copied as an array with holes before
      it: swapping its first and third slots moves the error to the front. */
  lemma ArrayLikeErrorsSwap(e: Value)
    ensures var copy := CopyArrayLike(Obj(map[Idx(2) := e]));
            copy == [Undefined, Undefined, e] && Swapped(copy, 0, 2) == [e, Undefined, Undefined]
  {
    var m := map[Idx(2) := e];
    assert MaxIndex(m) == 2;
    var copy := CopyArrayLike(Obj(m));
    assert copy[0] == Undefined && copy[1] == Undefined && copy[2] == e;
    var s := Swapped(copy, 0, 2);
    assert |s| == 3 && s[0] == e && s[1] == Undefined && s[2] == Undefined;
  }

  /** The `friends` scenario of the test suite, on the array alone: push,
      pop, swap, insert, replace, unshift and remove in turn. */
  lemma ArrayScenario()
    ensures var friends := [Str("jared"), Str("andrea"), Str("brent")];
            var pushed := friends + [Str("michael")];
            var popped := pushed[..|pushed| - 1];
            var swapped := Swapped(popped, 0, 2);
            var inserted := SpliceInsert(swapped, 1, Str("michael"));
            var replaced := Assign(inserted, 1, Str("brian"));
            var unshifted := [Str("michael")] + replaced;
            SpliceRemove(unshifted, 1) == [Str("michael"), Str("brian"), Str("andrea"), Str("jared")] &&
            swapped == [Str("brent"), Str("andrea"), Str("jared")] &&
            inserted == [Str("brent"), Str("michael"), Str("andrea"), Str("jared")] &&
            |unshifted| == 5
  {
    var friends := [Str("jared"), Str("andrea"), Str("brent")];
    var popped := (friends + [Str("michael")])[..3];
    assert popped == friends;
    var swapped := Swapped(popped, 0, 2);
    assert |swapped| == 3 && swapped[0] == Str("brent") && swapped[1] == Str("andrea") && swapped[2] == Str("jared");
    assert swapped == [Str("brent"), Str("andrea"), Str("jared")];
    var inserted := SpliceInsert(swapped, 1, Str("michael"));
    assert inserted == swapped[..1] + [Str("michael")] + swapped[1..];
    assert inserted == [Str("brent"), Str("michael"), Str("andrea"), Str("jared")];
    var replaced := Assign(inserted, 1, Str("brian"));
    assert replaced == inserted[1 := Str("brian")];
    assert replaced == [Str("brent"), Str("brian"), Str("andrea"), Str("jared")];
    var unshifted := [Str("michael")] + replaced;
    assert SpliceRemove(unshifted, 1) == unshifted[..1] + unshifted[2..];
    assert unshifted[2..] == [Str("brian"), Str("andrea"), Str("jared")];
  }

  // ---------------------------------------------------------------------
  // updateArrayField
  // ---------------------------------------------------------------------

  /** One call of a helper's transform: the new array and the closure
      variable it leaves behind, or the exception it throws. */
  datatype Step = Step(out: Value, carry: Value) | Throws(reason: Value)

  /** The `alterErrors` / `alterTouched` argument: `false`, `true` (reuse
      the values transform), or a transform of its own. */
  datatype Alter = Unaltered | AlterWithFn | AlterWith(f: (Value, Value) -> Step)

  /** `Array.isArray(v) && v.length === 0` */
  predicate IsEmptyArray(v: Value) {
    v.Arr? && |v.elems| == 0
  }

  /** An empty errors or touched array is stored as undefined. */
  function Pruned(v: Value): (r: Value)
    ensures IsEmptyArray(v) ==> r == Undefined
    ensures !IsEmptyArray(v) ==> r == v
  {
    if IsEmptyArray(v) then Undefined else v
  }

  /** `{ ...v }` for the root of the values tree. */
  function SpreadRoot(v: Value): (r: Value)
    ensures r.Obj?
    ensures v.Obj? ==> r == v
  {
    match v
    case Obj(_) => v
    case Arr(s) => Obj(IndexKeyed(s))
    case Str(s) => Obj(IndexKeyed(Chars(s)))
    case _ => Obj(map[])
  }

  function ApplyAlter(alter: Alter, fn: (Value, Value) -> Step, v: Value, carry: Value): Step {
    match alter
    case Unaltered => Step(Undefined, carry)
    case AlterWithFn => fn(v, carry)
    case AlterWith(f) => f(v, carry)
  }

  /** FieldArray.tsx `updateArrayField`: the state transformer handed to
      `setFormikState`. The values transform runs first, then the errors
      transform, then the touched one, each seeing the closure variable the
      previous left; an altered errors or touched array that ends up empty is
      stored as undefined. The result is the new state and the final closure
      variable, or the exception a transform threw. */
  function UpdateArrayField(prev: FormState, name: Path, fn: (Value, Value) -> Step,
                            alterTouched: Alter, alterErrors: Alter, carry: Value): (r: Outcome<(FormState, Value)>)
    ensures r.Done? ==>
              r.value.0.status == prev.status && r.value.0.isSubmitting == prev.isSubmitting &&
              r.value.0.isValidating == prev.isValidating && r.value.0.submitCount == prev.submitCount
    ensures r.Done? && alterErrors.Unaltered? ==> r.value.0.errors == prev.errors
    ensures r.Done? && alterTouched.Unaltered? ==> r.value.0.touched == prev.touched
    ensures r.Done? ==> r.value.0.values.Obj?
  {
    match fn(Get(prev.values, name), carry)
    case Throws(x) => Thrown(x)
    case Step(values, c1) =>
      match ApplyAlter(alterErrors, fn, Get(prev.errors, name), c1)
      case Throws(x) => Thrown(x)
      case Step(fieldError, c2) =>
        match ApplyAlter(alterTouched, fn, Get(prev.touched, name), c2)
        case Throws(x) => Thrown(x)
        case Step(fieldTouched, c3) =>
          Done((prev.(values := SpreadRoot(Set(prev.values, name, values)),
                      errors := if alterErrors.Unaltered? then prev.errors
                                else Set(prev.errors, name, Pruned(fieldError)),
                      touched := if alterTouched.Unaltered? then prev.touched
                                 else Set(prev.touched, name, Pruned(fieldTouched))), c3))
  }

  /** What the update leaves outside the field: for an object-rooted values
      tree, every path that parts ways with `name` reads as before in all three
      trees. */
  lemma UpdateOutside(prev: FormState, name: Path, fn: (Value, Value) -> Step,
                      alterTouched: Alter, alterErrors: Alter, carry: Value, p: Path)
    requires prev.values.Obj? && |name| > 0 && Disjoint(p, name)
    requires UpdateArrayField(prev, name, fn, alterTouched, alterErrors, carry).Done?
    ensures var s := UpdateArrayField(prev, name, fn, alterTouched, alterErrors, carry).value.0;
            Get(s.values, p) == Get(prev.values, p) &&
            Get(s.errors, p) == Get(prev.errors, p) &&
            Get(s.touched, p) == Get(prev.touched, p)
  {
    var values := fn(Get(prev.values, name), carry).out;
    GetSetOther(prev.values, name, values, p);
    var c1 := fn(Get(prev.values, name), carry).carry;
    var e := ApplyAlter(alterErrors, fn, Get(prev.errors, name), c1);
    GetSetOther(prev.errors, name, Pruned(e.out), p);
    var t := ApplyAlter(alterTouched, fn, Get(prev.touched, name), e.carry);
    GetSetOther(prev.touched, name, Pruned(t.out), p);
  }

  /** What the update writes at the field: the values transform's array, and
      for an altered tree the (pruned) array its transform produced. */
  lemma UpdateAt(prev: FormState, name: Path, fn: (Value, Value) -> Step,
                 alterTouched: Alter, alterErrors: Alter, carry: Value)
    requires prev.values.Obj? && |name| > 0
    requires KindsAgree(prev.values, name) && KindsAgree(prev.errors, name) && KindsAgree(prev.touched, name)
    requires UpdateArrayField(prev, name, fn, alterTouched, alterErrors, carry).Done?
    ensures var s := UpdateArrayField(prev, name, fn, alterTouched, alterErrors, carry).value.0;
            var v := fn(Get(prev.values, name), carry);
            var e := ApplyAlter(alterErrors, fn, Get(prev.errors, name), v.carry);
            var t := ApplyAlter(alterTouched, fn, Get(prev.touched, name), e.carry);
            Get(s.values, name) == v.out &&
            Get(s.errors, name) == (if alterErrors.Unaltered? then Get(prev.errors, name) else Pruned(e.out)) &&
            Get(s.touched, name) == (if alterTouched.Unaltered? then Get(prev.touched, name) else Pruned(t.out)) &&
            UpdateArrayField(prev, name, fn, alterTouched, alterErrors, carry).value.1 == t.carry
  {
    var v := fn(Get(prev.values, name), carry);
    GetSet(prev.values, name, v.out);
    var e := ApplyAlter(alterErrors, fn, Get(prev.errors, name), v.carry);
    GetSet(prev.errors, name, Pruned(e.out));
    var t := ApplyAlter(alterTouched, fn, Get(prev.touched, name), e.carry);
    GetSet(prev.touched, name, Pruned(t.out));
  }

  // ---------------------------------------------------------------------
  // The helpers, as state transformers
  // ---------------------------------------------------------------------

  /** A field whose three trees can be written at `name` and whose values tree
      is a plain object, as every form's is. */
  predicate Writable(s: FormState, name: Path) {
    s.values.Obj? && |name| > 0 &&
    KindsAgree(s.values, name) && KindsAgree(s.errors, name) && KindsAgree(s.touched, name)
  }

  /** The transforms the helpers hand to `updateArrayField`; those that keep
      no closure variable pass it through. */
  function PushStep(value: Value): (Value, Value) -> Step {
    (a, c) => Step(Arr(CopyArrayLike(a) + [value]), c)
  }

  function SwapStep(indexA: nat, indexB: nat): (Value, Value) -> Step {
    (a, c) => Step(Arr(Swapped(CopyArrayLike(a), indexA, indexB)), c)
  }

  function MoveStep(from: nat, to: nat): (Value, Value) -> Step {
    (a, c) => Step(Arr(Moved(CopyArrayLike(a), from, to)), c)
  }

  function InsertStep(index: nat, value: Value): (Value, Value) -> Step {
    (a, c) => Step(Arr(SpliceInsert(CopyArrayLike(a), index, value)), c)
  }

  function ReplaceStep(index: nat, value: Value): (Value, Value) -> Step {
    (a, c) => Step(Arr(Assign(CopyArrayLike(a), index, value)), c)
  }

  /** `push(value)` */
  function PushState(prev: FormState, name: Path, value: Value): Outcome<(FormState, Value)> {
    UpdateArrayField(prev, name, PushStep(value), Unaltered, Unaltered, Undefined)
  }

  /** `push` appends at the end and leaves errors and touched alone. */
  lemma PushAppends(prev: FormState, name: Path, value: Value)
    requires Writable(prev, name)
    ensures var o := PushState(prev, name, value);
            o.Done? && Get(o.value.0.values, name) == Arr(CopyArrayLike(Get(prev.values, name)) + [value]) &&
            o.value.0.errors == prev.errors && o.value.0.touched == prev.touched
  {
    UpdateAt(prev, name, PushStep(value), Unaltered, Unaltered, Undefined);
  }

  /** `swap(indexA, indexB)` */
  function SwapState(prev: FormState, name: Path, indexA: nat, indexB: nat): Outcome<(FormState, Value)> {
    UpdateArrayField(prev, name, SwapStep(indexA, indexB),
                     AlterWithFn, AlterWithFn, Undefined)
  }

  /** `swap` exchanges the two entries in all three trees alike. */
  lemma SwapAligned(prev: FormState, name: Path, indexA: nat, indexB: nat)
    requires Writable(prev, name)
    ensures var o := SwapState(prev, name, indexA, indexB);
            o.Done? &&
            Get(o.value.0.values, name) == Arr(Swapped(CopyArrayLike(Get(prev.values, name)), indexA, indexB)) &&
            Get(o.value.0.errors, name) == Arr(Swapped(CopyArrayLike(Get(prev.errors, name)), indexA, indexB)) &&
            Get(o.value.0.touched, name) == Arr(Swapped(CopyArrayLike(Get(prev.touched, name)), indexA, indexB))
  {
    UpdateAt(prev, name, SwapStep(indexA, indexB),
             AlterWithFn, AlterWithFn, Undefined);
  }

  /** Swapping over an absent errors array leaves `[undefined, hole, undefined]`
      behind, not nothing. */
  lemma SwapOverNoErrors(prev: FormState, name: Path)
    requires Writable(prev, name) && Get(prev.errors, name) == Undefined
    ensures var o := SwapState(prev, name, 0, 2);
            o.Done? && Get(o.value.0.errors, name) == Arr([Undefined, Undefined, Undefined])
  {
    SwapAligned(prev, name, 0, 2);
    SwappedNothing();
  }

  lemma SwappedNothing()
    ensures Swapped([], 0, 2) == [Undefined, Undefined, Undefined]
  {
    var e := Swapped([], 0, 2);
    assert |e| == 3 && e[0] == Undefined && e[1] == Undefined && e[2] == Undefined;
  }

  /** `move(from, to)` */
  function MoveState(prev: FormState, name: Path, from: nat, to: nat): Outcome<(FormState, Value)> {
    UpdateArrayField(prev, name, MoveStep(from, to),
                     AlterWithFn, AlterWithFn, Undefined)
  }

  /** `move` applies the same move to all three trees. */
  lemma MoveAligned(prev: FormState, name: Path, from: nat, to: nat)
    requires Writable(prev, name)
    ensures var o := MoveState(prev, name, from, to);
            o.Done? &&
            Get(o.value.0.values, name) == Arr(Moved(CopyArrayLike(Get(prev.values, name)), from, to)) &&
            Get(o.value.0.errors, name) == Arr(Moved(CopyArrayLike(Get(prev.errors, name)), from, to)) &&
            Get(o.value.0.touched, name) == Arr(Moved(CopyArrayLike(Get(prev.touched, name)), from, to))
  {
    UpdateAt(prev, name, MoveStep(from, to),
             AlterWithFn, AlterWithFn, Undefined);
  }

  /** `insert(index, value)`: errors and touched receive `null` at the index. */
  function InsertState(prev: FormState, name: Path, index: nat, value: Value): Outcome<(FormState, Value)> {
    UpdateArrayField(prev, name, InsertStep(index, value),
                     AlterWith(InsertStep(index, Null)),
                     AlterWith(InsertStep(index, Null)),
                     Undefined)
  }

  lemma InsertAligned(prev: FormState, name: Path, index: nat, value: Value)
    requires Writable(prev, name)
    ensures var o := InsertState(prev, name, index, value);
            o.Done? &&
            Get(o.value.0.values, name) == Arr(SpliceInsert(CopyArrayLike(Get(prev.values, name)), index, value)) &&
            Get(o.value.0.errors, name) == Arr(SpliceInsert(CopyArrayLike(Get(prev.errors, name)), index, Null)) &&
            Get(o.value.0.touched, name) == Arr(SpliceInsert(CopyArrayLike(Get(prev.touched, name)), index, Null))
  {
    UpdateAt(prev, name, InsertStep(index, value),
             AlterWith(InsertStep(index, Null)),
             AlterWith(InsertStep(index, Null)),
             Undefined);
  }

  /** `replace(index, value)` */
  function ReplaceState(prev: FormState, name: Path, index: nat, value: Value): Outcome<(FormState, Value)> {
    UpdateArrayField(prev, name, ReplaceStep(index, value),
                     Unaltered, Unaltered, Undefined)
  }

  /** `replace` writes the value at its index of the values array (the other
      entries as `Assign` keeps them) and leaves errors and touched alone. */
  lemma ReplaceOnlyIndex(prev: FormState, name: Path, index: nat, value: Value)
    requires Writable(prev, name)
    ensures var o := ReplaceState(prev, name, index, value);
            o.Done? && o.value.0.errors == prev.errors && o.value.0.touched == prev.touched &&
            Get(o.value.0.values, name) == Arr(Assign(CopyArrayLike(Get(prev.values, name)), index, value))
  {
    UpdateAt(prev, name, ReplaceStep(index, value), Unaltered, Unaltered, Undefined);
  }

  /** `[value, ...array]`, or `[value]` for a falsy array; spreading a value
      that is not iterable throws. */
  function Prepend(value: Value, arr: Value): Outcome<seq<Value>> {
    if !Truthy(arr) then Done([value])
    else match arr
      case Arr(s) => Done([value] + s)
      case Str(s) => Done([value] + Chars(s))
      case _ => Thrown(TypeError)
  }

  /** One of `unshift`'s transforms: the closure variable `length` starts at
      -1 and is set by the first call only. */
  function UnshiftStep(value: Value): (Value, Value) -> Step {
    (a: Value, length: Value) =>
      match Prepend(value, a)
      case Thrown(x) => Throws(x)
      case Done(arr) =>
        Step(Arr(arr), if length.Num? && length.n < 0 then Num(|arr|) else length)
  }

  /** `unshift(value)`: resolves with the recorded length. */
  function UnshiftState(prev: FormState, name: Path, value: Value): Outcome<(FormState, Value)> {
    UpdateArrayField(prev, name, UnshiftStep(value), AlterWith(UnshiftStep(Null)), AlterWith(UnshiftStep(Null)), Num(-1))
  }

  /** `unshift` prepends to the values and `null` to errors and touched, and
      resolves with the new length of the values array; it throws when a tree
      holds something that cannot be spread. */
  lemma UnshiftPrepends(prev: FormState, name: Path, value: Value)
    requires Writable(prev, name)
    requires Prepend(value, Get(prev.values, name)).Done?
    requires Prepend(Null, Get(prev.errors, name)).Done? && Prepend(Null, Get(prev.touched, name)).Done?
    ensures var o := UnshiftState(prev, name, value);
            var vs := Prepend(value, Get(prev.values, name)).value;
            o.Done? &&
            Get(o.value.0.values, name) == Arr(vs) && vs[0] == value &&
            Get(o.value.0.errors, name) == Arr(Prepend(Null, Get(prev.errors, name)).value) &&
            Get(o.value.0.touched, name) == Arr(Prepend(Null, Get(prev.touched, name)).value) &&
            o.value.1 == Num(|vs|)
  {
    UpdateAt(prev, name, UnshiftStep(value), AlterWith(UnshiftStep(Null)), AlterWith(UnshiftStep(Null)), Num(-1));
  }

  lemma UnshiftThrows(prev: FormState, name: Path, value: Value)
    requires Get(prev.values, name).Obj? || (Get(prev.values, name).Num? && Get(prev.values, name).n != 0)
    ensures UnshiftState(prev, name, value) == Thrown(TypeError)
  {
  }

  /** One of `remove`'s transforms: the closure variable `result` is set only
      while it is falsy; every tree is spliced. */
  function RemoveStep(index: nat): (Value, Value) -> Step {
    (a, result) =>
      var copy := if Truthy(a) then CopyArrayLike(a) else [];
      Step(Arr(SpliceRemove(copy, index)), if !Truthy(result) then At(copy, index) else result)
  }

  /** `remove(index)` */
  function RemoveState(prev: FormState, name: Path, index: nat): Outcome<(FormState, Value)> {
    UpdateArrayField(prev, name, RemoveStep(index), AlterWithFn, AlterWithFn, Undefined)
  }

  /** `remove` deletes the index from all three trees; an errors or touched
      array left empty is stored as undefined. The removed value is returned
      when it is truthy; when it is falsy, the result is taken from the
      errors entry at the index, or failing that the touched entry. */
  lemma RemoveAligned(prev: FormState, name: Path, index: nat)
    requires Writable(prev, name)
    ensures var o := RemoveState(prev, name, index);
            var vs := CopyArrayLike(Get(prev.values, name));
            var es := CopyArrayLike(Get(prev.errors, name));
            var ts := CopyArrayLike(Get(prev.touched, name));
            o.Done? &&
            Get(o.value.0.values, name) == Arr(SpliceRemove(vs, index)) &&
            Get(o.value.0.errors, name) == Pruned(Arr(SpliceRemove(es, index))) &&
            Get(o.value.0.touched, name) == Pruned(Arr(SpliceRemove(ts, index))) &&
            (Truthy(At(vs, index)) ==> o.value.1 == At(vs, index)) &&
            (!Truthy(At(vs, index)) ==>
               o.value.1 == if Truthy(At(es, index)) then At(es, index) else At(ts, index))
  {
    UpdateAt(prev, name, RemoveStep(index), AlterWithFn, AlterWithFn, Undefined);
  }

  /** Removing a blank first entry whose field has an error resolves with the
      error message rather than the removed value. */
  lemma RemoveResolvesWithError()
    ensures var prev := FormState(Obj(map[Name("friends") := Arr([Str(""), Str("b")])]),
                                  Obj(map[Name("friends") := Arr([Str("Required")])]),
                                  Obj(map[]), Undefined, false, false, 0);
            var o := RemoveState(prev, [Name("friends")], 0);
            o.Done? && o.value.1 == Str("Required") &&
            Get(o.value.0.values, [Name("friends")]) == Arr([Str("b")])
  {
    var name := [Name("friends")];
    var prev := FormState(Obj(map[Name("friends") := Arr([Str(""), Str("b")])]),
                          Obj(map[Name("friends") := Arr([Str("Required")])]),
                          Obj(map[]), Undefined, false, false, 0);
    var vs := [Str(""), Str("b")];
    EmptyTree(name);
    assert Get(prev.values, name) == Arr(vs);
    assert Get(prev.errors, name) == Arr([Str("Required")]);
    assert Writable(prev, name);
    assert CopyArrayLike(Arr(vs)) == vs;
    assert At(CopyArrayLike(Arr([Str("Required")])), 0) == Str("Required");
    assert SpliceRemove(vs, 0) == [Str("b")];
    RemoveAligned(prev, name, 0);
  }

  /** The errors and touched transforms of `remove` as evidently intended:
      the index is spliced out and the closure variable is left alone. */
  function SpliceOutStep(index: nat): (Value, Value) -> Step {
    (a, c) =>
      var copy := if Truthy(a) then CopyArrayLike(a) else [];
      Step(Arr(SpliceRemove(copy, index)), c)
  }

  /** `remove(index)` as evidently intended: the result is the removed value. */
  function RemoveIntendedState(prev: FormState, name: Path, index: nat): Outcome<(FormState, Value)> {
    UpdateArrayField(prev, name, RemoveStep(index), AlterWith(SpliceOutStep(index)),
                     AlterWith(SpliceOutStep(index)), Undefined)
  }

  /** The intended `remove` deletes the index from all three trees as the
      written one does, and resolves with the removed value whatever it is. */
  lemma RemoveResolvesRemoved(prev: FormState, name: Path, index: nat)
    requires Writable(prev, name)
    ensures var o := RemoveIntendedState(prev, name, index);
            var vs := CopyArrayLike(Get(prev.values, name));
            o.Done? &&
            Get(o.value.0.values, name) == Arr(SpliceRemove(vs, index)) &&
            Get(o.value.0.errors, name) == Pruned(Arr(SpliceRemove(CopyArrayLike(Get(prev.errors, name)), index))) &&
            Get(o.value.0.touched, name) == Pruned(Arr(SpliceRemove(CopyArrayLike(Get(prev.touched, name)), index))) &&
            o.value.1 == At(vs, index)
  {
    UpdateAt(prev, name, RemoveStep(index), AlterWith(SpliceOutStep(index)), AlterWith(SpliceOutStep(index)), Undefined);
  }

  /** Removing the only element of an array without errors or touched entries
      leaves an empty values array and no errors or touched entry. */
  lemma RemoveLast(prev: FormState, name: Path, x: Value)
    requires Writable(prev, name)
    requires Get(prev.values, name) == Arr([x])
    requires Get(prev.errors, name) == Undefined && Get(prev.touched, name) == Undefined
    ensures var o := RemoveState(prev, name, 0);
            o.Done? && Get(o.value.0.values, name) == Arr([]) &&
            Get(o.value.0.errors, name) == Undefined && Get(o.value.0.touched, name) == Undefined
  {
    RemoveAligned(prev, name, 0);
  }

  /** One of `pop`'s transforms as written: the array is popped only while
      the closure variable `result` is falsy. */
  function PopStep(): (Value, Value) -> Step {
    (a, result) =>
      if Truthy(result) then Step(a, result)
      else if !Truthy(a) then Step(a, a)
      else if a.Arr? && |a.elems| > 0 then Step(Arr(a.elems[..|a.elems| - 1]), a.elems[|a.elems| - 1])
      else Step(a, Undefined)
  }

  /** `pop()` as written. */
  function PopState(prev: FormState, name: Path): Outcome<(FormState, Value)> {
    UpdateArrayField(prev, name, PopStep(), AlterWithFn, AlterWithFn, Undefined)
  }

  /** `pop` takes the last element off the values array. When that element is
      truthy it is the result, and the errors and touched arrays are not
      popped: they keep their last entries. When it is falsy the errors array
      is popped in turn and its last entry becomes the result if truthy;
      otherwise (or when there is no error at the field) the touched array is
      popped and its last entry is the result. */
  lemma PopAsWritten(prev: FormState, name: Path)
    requires Writable(prev, name)
    requires Get(prev.values, name).Arr? && |Get(prev.values, name).elems| > 0
    ensures var o := PopState(prev, name);
            var vs := Get(prev.values, name).elems;
            o.Done? && Get(o.value.0.values, name) == Arr(vs[..|vs| - 1]) &&
            (Truthy(vs[|vs| - 1]) ==>
               o.value.1 == vs[|vs| - 1] &&
               Get(o.value.0.errors, name) == Pruned(Get(prev.errors, name)) &&
               Get(o.value.0.touched, name) == Pruned(Get(prev.touched, name)))
    ensures var o := PopState(prev, name);
            var vs := Get(prev.values, name).elems;
            var e := Get(prev.errors, name);
            var t := Get(prev.touched, name);
            !Truthy(vs[|vs| - 1]) && e.Arr? && |e.elems| > 0 ==>
              Get(o.value.0.errors, name) == Pruned(Arr(e.elems[..|e.elems| - 1])) &&
              (Truthy(e.elems[|e.elems| - 1]) ==>
                 o.value.1 == e.elems[|e.elems| - 1] &&
                 Get(o.value.0.touched, name) == Pruned(t)) &&
              (!Truthy(e.elems[|e.elems| - 1]) && t.Arr? && |t.elems| > 0 ==>
                 o.value.1 == t.elems[|t.elems| - 1] &&
                 Get(o.value.0.touched, name) == Pruned(Arr(t.elems[..|t.elems| - 1])))
    ensures var o := PopState(prev, name);
            var vs := Get(prev.values, name).elems;
            var e := Get(prev.errors, name);
            var t := Get(prev.touched, name);
            !Truthy(vs[|vs| - 1]) && !Truthy(e) && t.Arr? && |t.elems| > 0 ==>
              Get(o.value.0.errors, name) == e &&
              o.value.1 == t.elems[|t.elems| - 1] &&
              Get(o.value.0.touched, name) == Pruned(Arr(t.elems[..|t.elems| - 1]))
  {
    UpdateAt(prev, name, PopStep(), AlterWithFn, AlterWithFn, Undefined);
  }

  /** A pop of a falsy value resolves with the error of the popped entry, not
      with the entry itself, and pops the errors array as well. */
  lemma PopResolvesWithError()
    ensures var prev := FormState(Obj(map[Name("friends") := Arr([Str("a"), Str("")])]),
                                  Obj(map[Name("friends") := Arr([Str("e1"), Str("Required")])]),
                                  Obj(map[]), Undefined, false, false, 0);
            var o := PopState(prev, [Name("friends")]);
            o.Done? && o.value.1 == Str("Required") &&
            Get(o.value.0.values, [Name("friends")]) == Arr([Str("a")]) &&
            Get(o.value.0.errors, [Name("friends")]) == Arr([Str("e1")])
  {
    var name := [Name("friends")];
    var prev := FormState(Obj(map[Name("friends") := Arr([Str("a"), Str("")])]),
                          Obj(map[Name("friends") := Arr([Str("e1"), Str("Required")])]),
                          Obj(map[]), Undefined, false, false, 0);
    EmptyTree(name);
    assert Get(prev.values, name) == Arr([Str("a"), Str("")]);
    assert Get(prev.errors, name) == Arr([Str("e1"), Str("Required")]);
    assert Writable(prev, name);
    assert [Str("a"), Str("")][..1] == [Str("a")];
    assert [Str("e1"), Str("Required")][..1] == [Str("e1")];
    PopAsWritten(prev, name);
  }

  /** After a pop of a truthy value, the errors array is still as long as the
      values array was: the error of the popped entry survives. */
  lemma PopLeavesStaleError()
    ensures var prev := FormState(Obj(map[Name("friends") := Arr([Str("a"), Str("b")])]),
                                  Obj(map[Name("friends") := Arr([Str("e1"), Str("e2")])]),
                                  Obj(map[]), Undefined, false, false, 0);
            var o := PopState(prev, [Name("friends")]);
            o.Done? && o.value.1 == Str("b") &&
            Get(o.value.0.values, [Name("friends")]) == Arr([Str("a")]) &&
            Get(o.value.0.errors, [Name("friends")]) == Arr([Str("e1"), Str("e2")])
  {
    var name := [Name("friends")];
    var prev := FormState(Obj(map[Name("friends") := Arr([Str("a"), Str("b")])]),
                          Obj(map[Name("friends") := Arr([Str("e1"), Str("e2")])]),
                          Obj(map[]), Undefined, false, false, 0);
    assert [Str("a"), Str("b")][..1] == [Str("a")];
    EmptyTree(name);
    PopAsWritten(prev, name);
  }

  /** The last element of an array, popped: what `tmp.pop()` leaves. */
  function PopLast(a: Value): Value {
    if a.Arr? && |a.elems| > 0 then Arr(a.elems[..|a.elems| - 1]) else a
  }

  function DropLastStep(): (Value, Value) -> Step {
    (a, c) => Step(PopLast(a), c)
  }

  /** `pop()` as evidently intended: the result comes from the values array,
      and all three trees lose their last entry. */
  function PopAlignedState(prev: FormState, name: Path): Outcome<(FormState, Value)> {
    UpdateArrayField(prev, name, PopStep(),
                     AlterWith(DropLastStep()),
                     AlterWith(DropLastStep()),
                     Undefined)
  }

  /** The intended pop keeps the three trees aligned: each array at `name`
      loses exactly its last entry, and the result is the popped value. */
  lemma PopAligned(prev: FormState, name: Path)
    requires Writable(prev, name)
    requires Get(prev.values, name).Arr? && |Get(prev.values, name).elems| > 0
    ensures var o := PopAlignedState(prev, name);
            var vs := Get(prev.values, name).elems;
            o.Done? && Get(o.value.0.values, name) == Arr(vs[..|vs| - 1]) &&
            o.value.1 == vs[|vs| - 1] &&
            Get(o.value.0.errors, name) == Pruned(PopLast(Get(prev.errors, name))) &&
            Get(o.value.0.touched, name) == Pruned(PopLast(Get(prev.touched, name)))
  {
    UpdateAt(prev, name, PopStep(),
             AlterWith(DropLastStep()),
             AlterWith(DropLastStep()),
             Undefined);
  }

  // ---------------------------------------------------------------------
  // The component: helpers committing onto the form's engine
  // ---------------------------------------------------------------------

  /** How a helper's transformer ended: the engine holds the new state; or
      the transformer threw and nothing was committed. */
  predicate StateCommitted(prev: FormState, o: Outcome<(FormState, Value)>, now: FormState) {
    (o.Done? ==> now == o.value.0) && (o.Thrown? ==> now == prev)
  }

  /** As `StateCommitted`, and the helper's promise resolves with the final
      closure variable or rejects with what was thrown. */
  predicate Committed(prev: FormState, o: Outcome<(FormState, Value)>, now: FormState, r: Outcome<Value>) {
    StateCommitted(prev, o, now) &&
    (o.Done? ==> r == Done(o.value.1)) &&
    (o.Thrown? ==> r == Thrown(o.reason))
  }

  /** A `<FieldArray name>` bound to the engine of its form. */
  class FieldArray {
    const formik: Formik
    const name: Path

    constructor(formik: Formik, name: Path)
      ensures this.formik == formik && this.name == name
    {
      this.formik := formik;
      this.name := name;
    }

    /** `setFormikState(transformer, deferred.resolve)`: the transformer's
        outcome is committed and the deferred promise settled. */
    method Commit(o: Outcome<(FormState, Value)>) returns (r: Outcome<Value>)
      modifies formik
      ensures Committed(old(formik.state), o, formik.state, r)
      ensures formik.snapshot == old(formik.snapshot) && formik.isMounted == old(formik.isMounted)
      ensures formik.registry == old(formik.registry) && formik.props == old(formik.props)
    {
      match o {
        case Done(p) =>
          formik.SetFormikState(NewState(p.0));
          r := Done(p.1);
        case Thrown(x) =>
          r := Thrown(x);
      }
    }

    method Push(value: Value)
      modifies formik
      ensures StateCommitted(old(formik.state), PushState(old(formik.state), name, value), formik.state)
      ensures formik.snapshot == old(formik.snapshot) && formik.isMounted == old(formik.isMounted)
      ensures formik.registry == old(formik.registry) && formik.props == old(formik.props)
    {
      var _ := Commit(PushState(formik.state, name, value));
    }

    method Swap(indexA: nat, indexB: nat)
      modifies formik
      ensures StateCommitted(old(formik.state), SwapState(old(formik.state), name, indexA, indexB), formik.state)
      ensures formik.snapshot == old(formik.snapshot) && formik.isMounted == old(formik.isMounted)
      ensures formik.registry == old(formik.registry) && formik.props == old(formik.props)
    {
      var _ := Commit(SwapState(formik.state, name, indexA, indexB));
    }

    method Move(from: nat, to: nat)
      modifies formik
      ensures StateCommitted(old(formik.state), MoveState(old(formik.state), name, from, to), formik.state)
      ensures formik.snapshot == old(formik.snapshot) && formik.isMounted == old(formik.isMounted)
      ensures formik.registry == old(formik.registry) && formik.props == old(formik.props)
    {
      var _ := Commit(MoveState(formik.state, name, from, to));
    }

    method Insert(index: nat, value: Value)
      modifies formik
      ensures StateCommitted(old(formik.state), InsertState(old(formik.state), name, index, value), formik.state)
      ensures formik.snapshot == old(formik.snapshot) && formik.isMounted == old(formik.isMounted)
      ensures formik.registry == old(formik.registry) && formik.props == old(formik.props)
    {
      var _ := Commit(InsertState(formik.state, name, index, value));
    }

    method Replace(index: nat, value: Value)
      modifies formik
      ensures StateCommitted(old(formik.state), ReplaceState(old(formik.state), name, index, value), formik.state)
      ensures formik.snapshot == old(formik.snapshot) && formik.isMounted == old(formik.isMounted)
      ensures formik.registry == old(formik.registry) && formik.props == old(formik.props)
    {
      var _ := Commit(ReplaceState(formik.state, name, index, value));
    }

    /** Resolves with the new length of the values array. */
    method Unshift(value: Value) returns (result: Outcome<Value>)
      modifies formik
      ensures Committed(old(formik.state), UnshiftState(old(formik.state), name, value), formik.state, result)
      ensures formik.snapshot == old(formik.snapshot) && formik.isMounted == old(formik.isMounted)
      ensures formik.registry == old(formik.registry) && formik.props == old(formik.props)
    {
      result := Commit(UnshiftState(formik.state, name, value));
    }

    /** Resolves with the removed value; uses the intended remove. */
    method Remove(index: nat) returns (result: Outcome<Value>)
      modifies formik
      ensures Committed(old(formik.state), RemoveIntendedState(old(formik.state), name, index), formik.state, result)
      ensures formik.snapshot == old(formik.snapshot) && formik.isMounted == old(formik.isMounted)
      ensures formik.registry == old(formik.registry) && formik.props == old(formik.props)
    {
      result := Commit(RemoveIntendedState(formik.state, name, index));
    }

    /** Resolves with the popped value; uses the aligned pop. */
    method Pop() returns (result: Outcome<Value>)
      modifies formik
      ensures Committed(old(formik.state), PopAlignedState(old(formik.state), name), formik.state, result)
      ensures formik.snapshot == old(formik.snapshot) && formik.isMounted == old(formik.isMounted)
      ensures formik.registry == old(formik.registry) && formik.props == old(formik.props)
    {
      result := Commit(PopAlignedState(formik.state, name));
    }
  }
}
