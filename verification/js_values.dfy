/** The JavaScript values that the form engine stores in its values, errors and
    touched trees, and the small amount of JavaScript semantics it relies on:
    truthiness, `Object.keys(..).length`, and the array primitives
    (`a[i]`, `a[i] = v`, `splice`) with their clamping and extension rules. */
module JsValues {

  datatype Option<+T> = None | Some(value: T)

  /** A property key. The engine's paths (`friends[2].name`) are split into
      integer indices and names; integer-like object keys such as the `2` of
      `{ 2: [...] }` are `Idx` keys too. */
  datatype Key = Name(name: string) | Idx(index: nat)

  type Path = seq<Key>

  /** A JavaScript value. Numbers are integers (no floating point, no NaN).
      `ErrorObj` is an instance of `Error`. A hole of a sparse array is an
      `Undefined` element. */
  datatype Value =
    | Undefined
    | Null
    | Bool(b: bool)
    | Num(n: int)
    | Str(s: string)
    | Arr(elems: seq<Value>)
    | Obj(fields: map<Key, Value>)
    | ErrorObj(message: string)

  /** The outcome of a step that either yields a value or throws (rejects). */
  datatype Outcome<+T> = Done(value: T) | Thrown(reason: Value)

  /** `!!v` */
  predicate Truthy(v: Value) {
    match v
    case Undefined => false
    case Null => false
    case Bool(b) => b
    case Num(n) => n != 0
    case Str(s) => s != ""
    case _ => true
  }

  /** `Array.isArray(v) || isPlainObject(v)` */
  predicate IsContainer(v: Value) {
    v.Arr? || v.Obj?
  }

  /** `Object.keys(v).length` for a value that is not null or undefined. */
  function KeyCount(v: Value): (n: nat)
    ensures v.Obj? ==> n == |v.fields|
    ensures v.Arr? ==> n == |v.elems|
    ensures v.Str? ==> n == |v.s|
    ensures !v.Obj? && !v.Arr? && !v.Str? ==> n == 0
  {
    match v
    case Obj(m) => |m|
    case Arr(s) => |s|
    case Str(s) => |s|
    case _ => 0
  }

  /** An object whose integer keys hold the elements of `s`, as a spread
      `{ ...s }` or a key-by-key copy of an array builds it. */
  function IndexKeyed(s: seq<Value>): (m: map<Key, Value>)
    ensures forall k :: k in m <==> k.Idx? && k.index < |s|
    ensures forall i :: 0 <= i < |s| ==> Idx(i) in m && m[Idx(i)] == s[i]
  {
    var m := map i | 0 <= i < |s| :: Idx(i) := s[i];
    assert forall i :: 0 <= i < |s| ==> m[Idx(i)] == s[i] by {
      forall i | 0 <= i < |s| ensures m[Idx(i)] == s[i] {
        assert Idx(i) in m;
      }
    }
    m
  }

  /** The one-character strings of `s`: what spreading or indexing a string
      yields. */
  function Chars(s: string): (r: seq<Value>)
    ensures |r| == |s|
    ensures forall i :: 0 <= i < |s| ==> r[i] == Str([s[i]])
  {
    seq(|s|, i requires 0 <= i < |s| => Str([s[i]]))
  }

  /** `n` undefined slots: what an assignment past the end leaves behind. */
  function Undefineds(n: nat): (r: seq<Value>)
    ensures |r| == n
    ensures forall i :: 0 <= i < n ==> r[i] == Undefined
  {
    seq(n, _ => Undefined)
  }

  /** `a[i]`: an index past the end reads as undefined. */
  function At(s: seq<Value>, i: nat): Value {
    if i < |s| then s[i] else Undefined
  }

  /** `a[i] = v` on a copy: an index past the end extends the array. */
  function Assign(s: seq<Value>, i: nat, v: Value): (r: seq<Value>)
    ensures |r| == if i < |s| then |s| else i + 1
    ensures r[i] == v
    ensures forall j :: 0 <= j < |r| && j != i ==> r[j] == At(s, j)
  {
    if i < |s| then s[i := v] else s + Undefineds(i - |s|) + [v]
  }

  /** `a.splice(i, 1)`: a start past the end removes nothing. */
  function SpliceRemove(s: seq<Value>, i: nat): (r: seq<Value>)
    ensures i < |s| ==> |r| == |s| - 1
    ensures i >= |s| ==> r == s
    ensures forall j :: 0 <= j < |r| ==> r[j] == (if j < i then s[j] else s[j + 1])
  {
    if i < |s| then s[..i] + s[i + 1..] else s
  }

  /** `a.splice(i, 0, v)`: a start past the end is clamped to the length. */
  function SpliceInsert(s: seq<Value>, i: nat, v: Value): (r: seq<Value>)
    ensures |r| == |s| + 1
    ensures r[if i < |s| then i else |s|] == v
    ensures forall j :: 0 <= j < |s| ==>
              r[if j < i then j else j + 1] == s[j]
  {
    var at := if i < |s| then i else |s|;
    s[..at] + [v] + s[at..]
  }

  /** `a.indexOf(v)`, with value equality standing for `===`; -1 when absent. */
  function IndexOf(s: seq<Value>, v: Value): (i: int)
    ensures -1 <= i < |s|
    ensures i == -1 <==> v !in s
    ensures i >= 0 ==> s[i] == v && v !in s[..i]
  {
    if |s| == 0 then -1
    else if s[0] == v then 0
    else
      var j := IndexOf(s[1..], v);
      assert s[1..][..if j < 0 then 0 else j] == s[1..1 + (if j < 0 then 0 else j)];
      if j < 0 then -1 else j + 1
  }
}
