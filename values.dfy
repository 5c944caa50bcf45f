/** Python values as the crawlers see them: JSON-like data whose dicts keep
    insertion order (a Python dict is modelled as a sequence of key/value
    pairs with distinct keys), plus the dict operations the code relies on. */
module Values {
  import opened Base

  datatype Value =
    | VNone
    | VBool(b: bool)
    | VInt(i: int)
    | VReal(r: real)
    | VStr(s: string)
    | VList(items: seq<Value>)
    | VDict(entries: seq<(string, Value)>)

  /** Python truthiness. */
  predicate Truthy(v: Value)
  {
    match v
    case VNone => false
    case VBool(b) => b
    case VInt(i) => i != 0
    case VReal(r) => r != 0.0
    case VStr(s) => s != ""
    case VList(items) => items != []
    case VDict(entries) => entries != []
  }

  /** `type(v)`: two values have the same Python type exactly when their
      tags agree (`bool` and `int` are different types). */
  function TypeTag(v: Value): (t: nat)
    ensures t < 7
  {
    match v
    case VNone => 0
    case VBool(_) => 1
    case VInt(_) => 2
    case VReal(_) => 3
    case VStr(_) => 4
    case VList(_) => 5
    case VDict(_) => 6
  }

  /** `type(v).__name__`. */
  function PyTypeName(v: Value): string
  {
    match v
    case VNone => "NoneType"
    case VBool(_) => "bool"
    case VInt(_) => "int"
    case VReal(_) => "float"
    case VStr(_) => "str"
    case VList(_) => "list"
    case VDict(_) => "dict"
  }

  /** `lfilter(None, xs)`: the truthy values, in order. */
  function Truthies(xs: seq<Value>): (r: seq<Value>)
    ensures |r| <= |xs|
    ensures forall v :: v in r <==> v in xs && Truthy(v)
  {
    if xs == [] then []
    else
      assert forall v :: v in xs <==> v == xs[0] || v in xs[1..];
      (if Truthy(xs[0]) then [xs[0]] else []) + Truthies(xs[1..])
  }

  lemma {:induction false} TruthiesAppend(a: seq<Value>, b: seq<Value>)
    ensures Truthies(a + b) == Truthies(a) + Truthies(b)
  {
    if a == [] {
      assert a + b == b;
    } else {
      assert (a + b)[0] == a[0] && (a + b)[1..] == a[1..] + b;
      TruthiesAppend(a[1..], b);
    }
  }

  lemma {:induction false} TruthiesAll(xs: seq<Value>)
    requires forall v :: v in xs ==> Truthy(v)
    ensures Truthies(xs) == xs
  {
    if xs != [] {
      assert forall v :: v in xs[1..] ==> v in xs;
      TruthiesAll(xs[1..]);
    }
  }

  /** `d.get(k)` on a dict whose absent keys read as `None`. */
  function Field(d: Dict<string, Value>, k: string): (v: Value)
    ensures !HasKey(d, k) ==> v == VNone
  {
    if Get(d, k).Some? then Get(d, k).value else VNone
  }

  /** `v or fallback`. */
  function Or(v: Value, fallback: Value): (r: Value)
    ensures Truthy(v) ==> r == v
    ensures !Truthy(v) ==> r == fallback
  {
    if Truthy(v) then v else fallback
  }

  /** `iter(v)`: a string gives its characters, a list its items, a dict its
      keys; `None` stands for the TypeError of a value that is not iterable. */
  function Iter(v: Value): (r: Option<seq<Value>>)
    ensures r.Some? <==> v.VStr? || v.VList? || v.VDict?
  {
    match v
    case VStr(s) => Some(seq(|s|, i requires 0 <= i < |s| => VStr([s[i]])))
    case VList(items) => Some(items)
    case VDict(entries) => Some(seq(|entries|, i requires 0 <= i < |entries| => VStr(entries[i].0)))
    case _ => None
  }

  /** `isinstance(v, numbers.Real)`, with the number it stands for; a Python
      float is modelled as the exact real it denotes. */
  function RealOf(v: Value): (r: Option<real>)
    ensures r.Some? <==> v.VBool? || v.VInt? || v.VReal?
  {
    match v
    case VBool(b) => Some(if b then 1.0 else 0.0)
    case VInt(i) => Some(i as real)
    case VReal(x) => Some(x)
    case _ => None
  }

  /** An insertion-ordered dictionary. */
  type Dict<K, V> = seq<(K, V)>

  function Keys<K, V>(d: Dict<K, V>): (ks: seq<K>)
    ensures |ks| == |d|
    ensures forall i :: 0 <= i < |d| ==> ks[i] == d[i].0
  {
    if d == [] then [] else [d[0].0] + Keys(d[1..])
  }

  predicate HasKey<K(==), V>(d: Dict<K, V>, k: K)
  {
    exists i :: 0 <= i < |d| && d[i].0 == k
  }

  predicate DistinctKeys<K(==), V>(d: Dict<K, V>)
  {
    forall i, j :: 0 <= i < j < |d| ==> d[i].0 != d[j].0
  }

  /** `d.get(k)`: the value stored under the first pair with key `k`. */
  function Get<K(==), V>(d: Dict<K, V>, k: K): (r: Option<V>)
    ensures r.None? <==> !HasKey(d, k)
    ensures r.Some? ==> exists i :: 0 <= i < |d| && d[i] == (k, r.value)
  {
    if d == [] then None
    else if d[0].0 == k then Some(d[0].1)
    else
      var r := Get(d[1..], k);
      assert r.Some? ==> exists i :: 0 <= i < |d[1..]| && d[1..][i] == (k, r.value);
      assert r.Some? ==> exists i :: 1 <= i < |d| && d[i] == (k, r.value);
      assert !HasKey(d[1..], k) ==> !HasKey(d, k);
      r
  }

  /** `d[k] = v`: an existing key keeps its position and takes the new value,
      a new key is appended. */
  function Put<K(==), V>(d: Dict<K, V>, k: K, v: V): (r: Dict<K, V>)
    ensures HasKey(d, k) ==> |r| == |d| && Keys(r) == Keys(d)
    ensures !HasKey(d, k) ==> r == d + [(k, v)]
  {
    if d == [] then [(k, v)]
    else if d[0].0 == k then [(k, v)] + d[1..]
    else
      assert HasKey(d, k) <==> HasKey(d[1..], k) by {
        if HasKey(d, k) {
          var i :| 0 <= i < |d| && d[i].0 == k;
          assert d[1..][i - 1].0 == k;
        }
        if HasKey(d[1..], k) {
          var i :| 0 <= i < |d[1..]| && d[1..][i].0 == k;
          assert d[i + 1].0 == k;
        }
      }
      [d[0]] + Put(d[1..], k, v)
  }

  lemma {:induction false} GetPut<K, V>(d: Dict<K, V>, k: K, v: V, k': K)
    ensures Get(Put(d, k, v), k') == if k' == k then Some(v) else Get(d, k')
  {
    if d != [] && d[0].0 != k {
      GetPut(d[1..], k, v, k');
      assert Put(d, k, v)[1..] == Put(d[1..], k, v);
    }
  }

  lemma {:induction false} PutKeepsDistinct<K, V>(d: Dict<K, V>, k: K, v: V)
    requires DistinctKeys(d)
    ensures DistinctKeys(Put(d, k, v))
  {
    var r := Put(d, k, v);
    if HasKey(d, k) {
      assert Keys(r) == Keys(d);
      forall i, j | 0 <= i < j < |r| ensures r[i].0 != r[j].0 {
        assert r[i].0 == Keys(r)[i] == Keys(d)[i] == d[i].0;
        assert r[j].0 == Keys(r)[j] == Keys(d)[j] == d[j].0;
      }
    }
  }

  lemma {:induction false} KeysHas<K, V>(d: Dict<K, V>, k: K)
    ensures HasKey(d, k) <==> k in Keys(d)
  {
    if HasKey(d, k) {
      var i :| 0 <= i < |d| && d[i].0 == k;
      assert Keys(d)[i] == k;
    }
    if k in Keys(d) {
      var i :| 0 <= i < |Keys(d)| && Keys(d)[i] == k;
      assert d[i].0 == k;
    }
  }

  /** `dict(d1, **d2)` / `{**d1, **d2}`: every pair of `d2` put into `d1` in order. */
  function Overlay<K(==), V>(d1: Dict<K, V>, d2: Dict<K, V>): (r: Dict<K, V>)
    decreases |d2|
  {
    if d2 == [] then d1
    else Overlay(Put(d1, d2[0].0, d2[0].1), d2[1..])
  }

  lemma {:induction false} GetOverlay<K, V>(d1: Dict<K, V>, d2: Dict<K, V>, k: K)
    requires DistinctKeys(d2)
    ensures Get(Overlay(d1, d2), k) == if HasKey(d2, k) then Get(d2, k) else Get(d1, k)
    decreases |d2|
  {
    if d2 != [] {
      forall i | 0 <= i < |d2[1..]|
        ensures d2[1..][i].0 != d2[0].0
      {
        assert d2[1..][i] == d2[i + 1];
      }
      GetOverlay(Put(d1, d2[0].0, d2[0].1), d2[1..], k);
      GetPut(d1, d2[0].0, d2[0].1, k);
      assert HasKey(d2, k) <==> d2[0].0 == k || HasKey(d2[1..], k) by {
        if HasKey(d2, k) && d2[0].0 != k {
          var i :| 0 <= i < |d2| && d2[i].0 == k;
          assert d2[1..][i - 1].0 == k;
        }
        if HasKey(d2[1..], k) {
          var i :| 0 <= i < |d2[1..]| && d2[1..][i].0 == k;
          assert d2[i + 1].0 == k;
        }
      }
    }
  }
  /** In a dict with distinct keys, looking up the key of a pair gives its value. */
  lemma {:induction false} GetDistinct<K, V>(d: Dict<K, V>, i: int)
    requires DistinctKeys(d) && 0 <= i < |d|
    ensures Get(d, d[i].0) == Some(d[i].1)
  {
    if i > 0 {
      assert d[0].0 != d[i].0;
      assert d[1..][i - 1] == d[i];
      GetDistinct(d[1..], i - 1);
    }
  }

  /** Merging a dict whose keys are all new appends its pairs in order. */
  lemma {:induction false} OverlayFresh<K, V>(d1: Dict<K, V>, d2: Dict<K, V>)
    requires DistinctKeys(d2)
    requires forall i :: 0 <= i < |d2| ==> !HasKey(d1, d2[i].0)
    ensures Overlay(d1, d2) == d1 + d2
    decreases |d2|
  {
    if d2 != [] {
      var d1' := d1 + [d2[0]];
      assert Put(d1, d2[0].0, d2[0].1) == d1';
      forall i | 0 <= i < |d2[1..]|
        ensures !HasKey(d1', d2[1..][i].0)
      {
        assert d2[1..][i] == d2[i + 1];
        assert d2[0].0 != d2[i + 1].0 && !HasKey(d1, d2[i + 1].0);
      }
      OverlayFresh(d1', d2[1..]);
      assert d1' + d2[1..] == d1 + d2;
    }
  }

  /** A scraped item, which the pipelines change in place and pass on: its
      fields in insertion order. */
  class Item {
    var fields: Dict<string, Value>

    constructor(fields: Dict<string, Value>)
      ensures this.fields == fields
    {
      this.fields := fields;
    }
  }
}
