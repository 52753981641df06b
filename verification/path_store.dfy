/** The path store the engine reads and writes its three trees with: `getIn`,
    `setIn` and `setNestedObjectValues(values, true)` (the touch-all of a
    submit). Their implementation lives outside the modelled files; what is
    written here is the behaviour their call sites in the engine rely on. */
module PathStore {
  import opened JsValues

  /** `t[k]`, where only objects and arrays have properties. */
  function Child(t: Value, k: Key): Value {
    match t
    case Obj(m) => if k in m then m[k] else Undefined
    case Arr(s) => if k.Idx? then At(s, k.index) else Undefined
    case _ => Undefined
  }

  /** `getIn(t, p)`: a missing step anywhere along the path yields undefined. */
  function Get(t: Value, p: Path): Value
    decreases |p|
  {
    if |p| == 0 then t else Get(Child(t, p[0]), p[1..])
  }

  /** Whether the path exists as own properties (`k in t` at every step). */
  predicate Has(t: Value, p: Path)
    decreases |p|
  {
    |p| == 0 || (HasKey(t, p[0]) && Has(Child(t, p[0]), p[1..]))
  }

  /** `Object.prototype.hasOwnProperty.call(t, k)` */
  predicate HasKey(t: Value, k: Key) {
    match t
    case Obj(m) => k in m
    case Arr(s) => k.Idx? && k.index < |s|
    case _ => false
  }

  /** The container `setIn` creates for a missing step: an array when the key
      is an integer, an object otherwise. */
  function EmptyFor(k: Key): (c: Value)
    ensures IsContainer(c) && (c.Arr? <==> k.Idx?)
  {
    if k.Idx? then Arr([]) else Obj(map[])
  }

  /** The copy `setIn` writes into at one step: the existing container, or a
      fresh one when the current value is not a container. */
  function Container(t: Value, k: Key): (c: Value)
    ensures IsContainer(c)
    ensures Child(c, k) == Child(t, k)
  {
    if IsContainer(t) then t else EmptyFor(k)
  }

  /** `c[k] = v`, or `delete c[k]` when `v` is undefined. A name key on an
      array (a named property of an array) is not represented: the array is
      left as it is. */
  function Put(c: Value, k: Key, v: Value): Value {
    match c
    case Obj(m) => if v == Undefined then Obj(m - {k}) else Obj(m[k := v])
    case Arr(s) =>
      if k.Name? || (v == Undefined && k.index >= |s|) then c
      else Arr(Assign(s, k.index, v))
    case _ => c
  }

  /** `setIn(t, p, v)`: a copy-on-write along `p`; the original is returned
      when the value already there equals `v`. */
  function Set(t: Value, p: Path, v: Value): Value
    decreases |p|
  {
    if |p| == 0 then v
    else if Get(t, p) == v then t
    else Put(Container(t, p[0]), p[0], Set(Child(t, p[0]), p[1..], v))
  }

  /** No step of `p` meets an array with a name key. */
  predicate KindsAgree(t: Value, p: Path)
    decreases |p|
  {
    |p| == 0 || (!(t.Arr? && p[0].Name?) && KindsAgree(Child(t, p[0]), p[1..]))
  }

  /** The two paths part ways: neither is a prefix of the other. */
  predicate Disjoint(p: Path, q: Path)
    decreases |p|
  {
    |p| > 0 && |q| > 0 && (p[0] != q[0] || Disjoint(p[1..], q[1..]))
  }

  /** Wherever the two paths share a parent, both step into it with a key of
      the same kind (both indices or both names). */
  predicate KindsConsistent(p: Path, q: Path)
    decreases |p|
  {
    |p| == 0 || |q| == 0 ||
    (p[0].Idx? == q[0].Idx? && (p[0] == q[0] ==> KindsConsistent(p[1..], q[1..])))
  }

  lemma {:induction false} DisjointSymmetric(p: Path, q: Path)
    requires Disjoint(p, q)
    ensures Disjoint(q, p)
    decreases |p|
  {
    if p[0] == q[0] {
      DisjointSymmetric(p[1..], q[1..]);
    }
  }

  lemma {:induction false} KindsConsistentSymmetric(p: Path, q: Path)
    requires KindsConsistent(p, q)
    ensures KindsConsistent(q, p)
    decreases |p|
  {
    if |p| > 0 && |q| > 0 && p[0] == q[0] {
      KindsConsistentSymmetric(p[1..], q[1..]);
    }
  }

  lemma {:induction false} ChildPut(c: Value, k: Key, v: Value, k': Key)
    requires IsContainer(c) && !(c.Arr? && k.Name?)
    ensures Child(Put(c, k, v), k') == if k' == k then v else Child(c, k')
  {
  }

  lemma {:induction false} GetUndefined(p: Path)
    ensures Get(Undefined, p) == Undefined
    ensures KindsAgree(Undefined, p)
    ensures !Has(Undefined, p) || |p| == 0
    decreases |p|
  {
    if |p| > 0 {
      GetUndefined(p[1..]);
    }
  }

  /** The empty tree: every non-empty path is missing and writable. */
  lemma EmptyTree(p: Path)
    ensures KindsAgree(Obj(map[]), p)
    ensures |p| > 0 ==> Get(Obj(map[]), p) == Undefined
  {
    if |p| > 0 {
      GetUndefined(p[1..]);
    }
  }

  /** Reading back what was written: `getIn(setIn(t, p, v), p) == v`. */
  lemma {:induction false} GetSet(t: Value, p: Path, v: Value)
    requires KindsAgree(t, p)
    ensures Get(Set(t, p, v), p) == v
    decreases |p|
  {
    if |p| > 0 && Get(t, p) != v {
      var c := Container(t, p[0]);
      var x := Set(Child(t, p[0]), p[1..], v);
      ChildPut(c, p[0], x, p[0]);
      GetSet(Child(t, p[0]), p[1..], v);
    }
  }

  /** A write leaves every path that parts ways with it as it was. */
  lemma {:induction false} GetSetOther(t: Value, q: Path, v: Value, p: Path)
    requires Disjoint(p, q)
    ensures Get(Set(t, q, v), p) == Get(t, p)
    decreases |q|
  {
    if Get(t, q) != v {
      var c := Container(t, q[0]);
      var x := Set(Child(t, q[0]), q[1..], v);
      if c.Arr? && q[0].Name? {
        assert Put(c, q[0], x) == c;
      } else {
        ChildPut(c, q[0], x, p[0]);
        if p[0] == q[0] {
          GetSetOther(Child(t, q[0]), q[1..], v, p[1..]);
        }
      }
    }
  }

  /** A write at `q` keeps every kind-consistent path `p` that is `q` itself
      or parts ways with it writable. */
  lemma {:induction false} SetKeepsKindsAgree(t: Value, q: Path, v: Value, p: Path)
    requires KindsAgree(t, p)
    requires p == q || (Disjoint(p, q) && KindsConsistent(p, q))
    ensures KindsAgree(Set(t, q, v), p)
    decreases |q|
  {
    if |q| > 0 && Get(t, q) != v {
      var c := Container(t, q[0]);
      var x := Set(Child(t, q[0]), q[1..], v);
      var t' := Set(t, q, v);
      assert t' == Put(c, q[0], x);
      ChildPut(c, q[0], x, p[0]);
      if p[0] == q[0] {
        SetKeepsKindsAgree(Child(t, q[0]), q[1..], v, p[1..]);
      } else if c != t {
        GetUndefined(p[1..]);
      }
    }
  }

  /** `setNestedObjectValues(v, true)` below the root: every leaf becomes
      `true`; an `Error` instance is an object without enumerable keys. */
  function TouchLeaves(v: Value): Value {
    match v
    case Arr(s) => Arr(seq(|s|, i requires 0 <= i < |s| => TouchLeaves(s[i])))
    case Obj(m) => Obj(map k | k in m :: TouchLeaves(m[k]))
    case ErrorObj(_) => Obj(map[])
    case _ => Bool(true)
  }

  /** `setNestedObjectValues(values, true)`: the response at the root is always
      a plain object keyed by the root's own keys (indices for an array or a
      string). */
  function TouchAll(values: Value): (r: Value)
    ensures r.Obj?
  {
    match values
    case Obj(m) => Obj(map k | k in m :: TouchLeaves(m[k]))
    case Arr(s) => Obj(IndexKeyed(seq(|s|, i requires 0 <= i < |s| => TouchLeaves(s[i]))))
    case Str(s) => Obj(IndexKeyed(seq(|s|, _ => Bool(true))))
    case _ => Obj(map[])
  }

  /** A leaf is a value that `setNestedObjectValues` marks rather than enters. */
  predicate IsLeaf(v: Value) {
    !IsContainer(v) && !v.ErrorObj?
  }

  lemma {:induction false} TouchLeavesShape(v: Value, p: Path)
    ensures Has(TouchLeaves(v), p) <==> Has(v, p)
    ensures Has(v, p) && IsLeaf(Get(v, p)) ==> Get(TouchLeaves(v), p) == Bool(true)
    ensures !Has(v, p) ==> Get(TouchLeaves(v), p) == Undefined
    decreases |p|
  {
    if |p| == 0 {
    } else {
      var k := p[0];
      match v
      case Obj(m) =>
        if k in m {
          TouchLeavesShape(m[k], p[1..]);
        } else {
          GetUndefined(p[1..]);
        }
      case Arr(s) =>
        if k.Idx? && k.index < |s| {
          TouchLeavesShape(s[k.index], p[1..]);
        } else {
          GetUndefined(p[1..]);
        }
      case ErrorObj(_) =>
        GetUndefined(p[1..]);
      case _ =>
        GetUndefined(p[1..]);
    }
  }

  /** The touched tree a submit produces has exactly the shape of the values
      tree (every existing path exists, no other does), and every leaf below the
      root is `true`. */
  lemma {:induction false} TouchAllShape(values: Value, p: Path)
    requires IsContainer(values) && |p| > 0
    ensures Has(TouchAll(values), p) <==> Has(values, p)
    ensures Has(values, p) && IsLeaf(Get(values, p)) ==> Get(TouchAll(values), p) == Bool(true)
    ensures !Has(values, p) ==> Get(TouchAll(values), p) == Undefined
  {
    var k := p[0];
    match values
    case Obj(m) =>
      if k in m {
        TouchLeavesShape(m[k], p[1..]);
      } else {
        GetUndefined(p[1..]);
      }
    case Arr(s) =>
      var r := TouchAll(values);
      if k.Idx? && k.index < |s| {
        assert r.fields[k] == TouchLeaves(s[k.index]);
        TouchLeavesShape(s[k.index], p[1..]);
      } else {
        assert k !in r.fields;
        GetUndefined(p[1..]);
      }
  }
}
