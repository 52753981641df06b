/** The input-binding helpers of Formik.tsx: the next value of a checkbox field
    after a change (`getValueForCheckbox`), the chosen values of a multiple
    select (`getSelectedValues`), and the `checked` flag a checkbox is rendered
    with. */
module FieldBinding {
  import opened JsValues

  /** `arr.concat(v)`: an array argument is spread, anything else appended. */
  function Concat(s: seq<Value>, v: Value): (r: seq<Value>)
    ensures !v.Arr? ==> r == s + [v]
    ensures v.Arr? ==> r == s + v.elems
  {
    if v.Arr? then s + v.elems else s + [v]
  }

  /** `!valueProp || valueProp == 'true' || valueProp == 'false'`: values that
      make a non-array checkbox field a plain boolean. */
  predicate BooleanLike(valueProp: Value) {
    !Truthy(valueProp) || valueProp == Str("true") || valueProp == Str("false")
  }

  /** Formik.tsx `getValueForCheckbox`. */
  function GetValueForCheckbox(current: Value, checked: bool, valueProp: Value): (r: Value)
    ensures current.Bool? ==> r == Bool(checked)
    ensures !current.Arr? && BooleanLike(valueProp) ==> r == Bool(checked)
    ensures (current.Arr? || !BooleanLike(valueProp)) && !current.Bool? ==> r.Arr?
    // a value already present loses its first occurrence, whatever `checked`
    // says; the other elements keep their order
    ensures current.Arr? && valueProp in current.elems ==>
              var i := IndexOf(current.elems, valueProp);
              r == Arr(current.elems[..i] + current.elems[i + 1..])
    ensures current.Arr? && valueProp in current.elems ==>
              multiset(r.elems) == multiset(current.elems) - multiset{valueProp} &&
              |r.elems| == |current.elems| - 1
    // checked with a truthy absent value: appended at the end
    ensures current.Arr? && valueProp !in current.elems && checked && Truthy(valueProp) ==>
              r == Arr(Concat(current.elems, valueProp))
    // otherwise an absent value leaves the array as it is
    ensures current.Arr? && valueProp !in current.elems && !(checked && Truthy(valueProp)) ==>
              r == current
    // a field that is not yet an array starts from the empty array
    ensures !current.Arr? && !current.Bool? && !BooleanLike(valueProp) ==>
              r == Arr(if checked then Concat([], valueProp) else [])
  {
    if current.Bool? then Bool(checked)
    else if !current.Arr? && BooleanLike(valueProp) then Bool(checked)
    else
      var values := if current.Arr? then current.elems else [];
      var index := if current.Arr? then IndexOf(values, valueProp) else -1;
      if checked && Truthy(valueProp) && index < 0 then Arr(Concat(values, valueProp))
      else if index < 0 then Arr(values)
      else
        assert values == values[..index] + [values[index]] + values[index + 1..];
        Arr(values[..index] + values[index + 1..])
  }

  /** The `checked` flag `getFieldProps` gives a checkbox with an explicit
      value: the field holds an array containing it. */
  predicate CheckboxChecked(valueState: Value, valueProp: Value) {
    valueState.Arr? && IndexOf(valueState.elems, valueProp) != -1
  }

  /** A change event flips the box: afterwards the box is rendered as the event
      says, for an array field holding the (truthy, non-array) value at most
      once. */
  lemma {:induction false} ToggleRendersChecked(current: Value, checked: bool, valueProp: Value)
    requires current.Arr? && Truthy(valueProp) && !valueProp.Arr?
    requires multiset(current.elems)[valueProp] <= 1
    requires checked != CheckboxChecked(current, valueProp)
    ensures CheckboxChecked(GetValueForCheckbox(current, checked, valueProp), valueProp) == checked
  {
    var r := GetValueForCheckbox(current, checked, valueProp);
    if checked {
      assert r.elems == current.elems + [valueProp];
      assert valueProp in r.elems by { assert r.elems[|current.elems|] == valueProp; }
    } else {
      assert valueProp in current.elems;
      assert multiset(r.elems)[valueProp] == 0;
      assert valueProp !in r.elems;
    }
  }

  /** Checking an absent value and then unchecking it gives the array back. */
  lemma {:induction false} CheckThenUncheck(current: Value, valueProp: Value)
    requires current.Arr? && Truthy(valueProp) && !valueProp.Arr?
    requires valueProp !in current.elems
    ensures GetValueForCheckbox(GetValueForCheckbox(current, true, valueProp), false, valueProp) == current
  {
    var s := current.elems;
    var once := s + [valueProp];
    assert GetValueForCheckbox(current, true, valueProp) == Arr(once);
    assert once[|s|] == valueProp;
    assert valueProp !in once[..|s|] by { assert once[..|s|] == s; }
    assert IndexOf(once, valueProp) == |s|;
    assert once[..|s|] + once[|s| + 1..] == s;
  }

  /** Unchecking a value held once and checking it again keeps the same values,
      the value now last. */
  lemma {:induction false} UncheckThenCheck(current: Value, valueProp: Value)
    requires current.Arr? && Truthy(valueProp) && !valueProp.Arr?
    requires multiset(current.elems)[valueProp] == 1
    ensures var r := GetValueForCheckbox(GetValueForCheckbox(current, false, valueProp), true, valueProp);
            r.Arr? && multiset(r.elems) == multiset(current.elems) && r.elems[|r.elems| - 1] == valueProp
  {
    var once := GetValueForCheckbox(current, false, valueProp);
    assert valueProp in current.elems;
    assert multiset(once.elems)[valueProp] == 0;
    assert valueProp !in once.elems;
    var r := GetValueForCheckbox(once, true, valueProp);
    assert r.elems == once.elems + [valueProp];
    assert multiset(r.elems) == multiset(once.elems) + multiset{valueProp};
  }

  /** An option of a `<select multiple>`. */
  datatype SelectOption = SelectOption(selected: bool, value: Value)

  /** Formik.tsx `getSelectedValues`: the values of the selected options, in
      document order. */
  function GetSelectedValues(options: seq<SelectOption>): (r: seq<Value>)
    ensures |r| <= |options|
    decreases |options|
  {
    if |options| == 0 then []
    else (if options[0].selected then [options[0].value] else []) + GetSelectedValues(options[1..])
  }

  /** A value is chosen exactly when some selected option carries it. */
  lemma {:induction false} SelectedMembership(options: seq<SelectOption>, v: Value)
    ensures v in GetSelectedValues(options) <==>
              exists i :: 0 <= i < |options| && options[i].selected && options[i].value == v
    decreases |options|
  {
    if |options| > 0 {
      SelectedMembership(options[1..], v);
      if exists i :: 0 <= i < |options| && options[i].selected && options[i].value == v {
        var i :| 0 <= i < |options| && options[i].selected && options[i].value == v;
        if i > 0 {
          assert options[1..][i - 1] == options[i];
        }
      }
      if exists i :: 0 <= i < |options[1..]| && options[1..][i].selected && options[1..][i].value == v {
        var i :| 0 <= i < |options[1..]| && options[1..][i].selected && options[1..][i].value == v;
        assert options[i + 1] == options[1..][i];
      }
    }
  }

  /** The selection of two option lists read one after the other is the two
      selections one after the other: the document order is kept. */
  lemma {:induction false} SelectedConcat(a: seq<SelectOption>, b: seq<SelectOption>)
    ensures GetSelectedValues(a + b) == GetSelectedValues(a) + GetSelectedValues(b)
    decreases |a|
  {
    if |a| > 0 {
      assert (a + b)[1..] == a[1..] + b;
      SelectedConcat(a[1..], b);
    } else {
      assert a + b == b;
    }
  }

  /** With every option selected, all option values come back, in order. */
  lemma {:induction false} AllSelected(options: seq<SelectOption>)
    requires forall i :: 0 <= i < |options| ==> options[i].selected
    ensures GetSelectedValues(options) == seq(|options|, i requires 0 <= i < |options| => options[i].value)
    decreases |options|
  {
    if |options| > 0 {
      AllSelected(options[1..]);
    }
  }
}
