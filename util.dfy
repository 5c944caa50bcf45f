/** The collection helpers of common/common/common/util.py: `soft_update`,
    `grouper`, `flatten`, `map_dict_val`, `flatten_json`, `dol2lot` and
    `lot2dol`. */
module Util {
  import opened Base
  import opened Values
  import opened Text

  // ---------------------------------------------------------------------
  // flatten, map_dict_val

  /** `flatten(xss)`: the groups one after the other. */
  function Flatten<T>(xss: seq<seq<T>>): (r: seq<T>)
  {
    if xss == [] then [] else xss[0] + Flatten(xss[1..])
  }

  lemma {:induction false} FlattenAppend<T>(a: seq<seq<T>>, b: seq<seq<T>>)
    ensures Flatten(a + b) == Flatten(a) + Flatten(b)
  {
    if a != [] {
      FlattenAppend(a[1..], b);
      assert (a + b)[1..] == a[1..] + b;
    } else {
      assert a + b == b;
    }
  }

  function SumLengths<T>(xss: seq<seq<T>>): nat
  {
    if xss == [] then 0 else |xss[0]| + SumLengths(xss[1..])
  }

  lemma {:induction false} FlattenLength<T>(xss: seq<seq<T>>)
    ensures |Flatten(xss)| == SumLengths(xss)
  {
    if xss != [] {
      FlattenLength(xss[1..]);
    }
  }

  /** `map_dict_val(fn, d)`: the same keys in the same order, each value
      passed through `fn`. */
  function MapDictVal<K, V, W>(f: V -> W, d: Dict<K, V>): (r: Dict<K, W>)
    ensures |r| == |d|
    ensures forall i :: 0 <= i < |d| ==> r[i] == (d[i].0, f(d[i].1))
  {
    seq(|d|, i requires 0 <= i < |d| => (d[i].0, f(d[i].1)))
  }

  lemma {:induction false} GetMapDictVal<K, V, W>(f: V -> W, d: Dict<K, V>, k: K)
    ensures Get(MapDictVal(f, d), k) == if HasKey(d, k) then Some(f(Get(d, k).value)) else None
  {
    if d != [] {
      GetMapDictVal(f, d[1..], k);
      assert MapDictVal(f, d)[1..] == MapDictVal(f, d[1..]);
    }
  }

  // ---------------------------------------------------------------------
  // grouper

  /** `grouper(n, xs, fill)`: consecutive groups of `n`, the last one padded
      with `fill`; nothing at all when `n <= 0`. */
  function Grouper<T>(n: int, xs: seq<T>, fill: T): (r: seq<seq<T>>)
    decreases |xs|
  {
    if n <= 0 || xs == [] then []
    else if |xs| >= n then [xs[..n]] + Grouper(n, xs[n..], fill)
    else [xs + Repeat(fill, n - |xs|)]
  }

  /** The padding `grouper` adds: the shortfall of the last group. */
  function Padding(n: int, len: nat): (p: nat)
    requires n > 0
    ensures p < n
    decreases len
  {
    if len == 0 then 0 else if len >= n then Padding(n, len - n) else n - len
  }

  lemma {:induction false} GrouperLengths<T>(n: int, xs: seq<T>, fill: T)
    requires n > 0
    ensures forall g :: g in Grouper(n, xs, fill) ==> |g| == n
    decreases |xs|
  {
    if xs != [] && |xs| >= n {
      GrouperLengths(n, xs[n..], fill);
    }
  }

  /** The groups, put back together, are the input followed by fewer than
      `n` fill values. */
  lemma {:induction false} GrouperFlatten<T>(n: int, xs: seq<T>, fill: T)
    requires n > 0
    ensures Flatten(Grouper(n, xs, fill)) == xs + Repeat(fill, Padding(n, |xs|))
    decreases |xs|
  {
    var r := Grouper(n, xs, fill);
    if xs == [] {
      assert Flatten(r) == xs + Repeat(fill, 0);
    } else if |xs| >= n {
      GrouperFlatten(n, xs[n..], fill);
      assert r[1..] == Grouper(n, xs[n..], fill);
      assert xs == xs[..n] + xs[n..];
    } else {
      assert Flatten(r) == xs + Repeat(fill, n - |xs|) + [];
    }
  }

  lemma MulSucc(a: nat, n: int)
    ensures (a + 1) * n == a * n + n
  {
  }

  /** There are just enough groups to hold the input and its padding. */
  lemma {:induction false} GrouperCount<T>(n: int, xs: seq<T>, fill: T)
    requires n > 0
    ensures |Grouper(n, xs, fill)| * n == |xs| + Padding(n, |xs|)
    decreases |xs|
  {
    if xs != [] && |xs| >= n {
      var r' := Grouper(n, xs[n..], fill);
      GrouperCount(n, xs[n..], fill);
      MulSucc(|r'|, n);
    }
  }

  // ---------------------------------------------------------------------
  // soft_update

  /** The `dict_mode` and `list_mode` arguments. */
  datatype Modes = Modes(dictMode: string, listMode: string)

  predicate ValidModes(m: Modes)
  {
    (m.dictMode == "update" || m.dictMode == "override")
    && (m.listMode == "append" || m.listMode == "set" || m.listMode == "override")
  }

  /** The members of `xs` that are not in `ys`, in order. */
  function NotIn(xs: seq<Value>, ys: seq<Value>): (r: seq<Value>)
    ensures forall x :: x in r ==> x in xs && x !in ys
    ensures forall x :: x in xs && x !in ys ==> x in r
  {
    if xs == [] then []
    else (if xs[0] in ys then [] else [xs[0]]) + NotIn(xs[1..], ys)
  }

  /** A single value is kept exactly when `ys` lacks it. */
  lemma NotInSingle(x: Value, ys: seq<Value>)
    ensures NotIn([x], ys) == if x in ys then [] else [x]
  {
    assert [x][1..] == [];
  }

  /** The filter works element by element, so it keeps the order and the
      repetitions of what it keeps. */
  lemma {:induction false} NotInAppend(a: seq<Value>, b: seq<Value>, ys: seq<Value>)
    ensures NotIn(a + b, ys) == NotIn(a, ys) + NotIn(b, ys)
    decreases |a|
  {
    if a == [] {
      assert a + b == b;
    } else {
      assert (a + b)[0] == a[0] && (a + b)[1..] == a[1..] + b;
      NotInAppend(a[1..], b, ys);
    }
  }

  /** The value kept when `v` arrives under a key that already holds `cur`. */
  function Merged(cur: Value, v: Value, m: Modes): Result<Value>
  {
    if TypeTag(v) != TypeTag(cur) then Ok(v)
    else if v.VDict? then
      if m.dictMode == "update" then Ok(VDict(Overlay(cur.entries, v.entries)))
      else if m.dictMode == "override" then Ok(v)
      else Err(ValueError("Unknown dict mode \"" + m.dictMode + "\""))
    else if v.VList? then
      if m.listMode == "append" then Ok(VList(cur.items + v.items))
      else if m.listMode == "set" then Ok(VList(cur.items + NotIn(v.items, cur.items)))
      else if m.listMode == "override" then Ok(v)
      else Err(ValueError("Unknown list mode \"" + m.listMode + "\""))
    else Ok(v)
  }

  /** The merge rules of `soft_update` for a key present on both sides. */
  lemma MergedRules(cur: Value, v: Value, m: Modes)
    ensures Merged(cur, v, m).Err? <==>
      TypeTag(v) == TypeTag(cur)
      && ((v.VDict? && m.dictMode != "update" && m.dictMode != "override")
          || (v.VList? && m.listMode != "append" && m.listMode != "set" && m.listMode != "override"))
    ensures TypeTag(v) != TypeTag(cur) || !(v.VDict? || v.VList?) ==> Merged(cur, v, m) == Ok(v)
    ensures v.VDict? && cur.VDict? && m.dictMode == "update" && DistinctKeys(v.entries) ==>
      Merged(cur, v, m).Ok? && Merged(cur, v, m).value.VDict?
      && forall k :: Get(Merged(cur, v, m).value.entries, k)
           == if HasKey(v.entries, k) then Get(v.entries, k) else Get(cur.entries, k)
    ensures (v.VDict? && m.dictMode == "override") || (v.VList? && m.listMode == "override") ==>
      Merged(cur, v, m) == Ok(v)
    ensures v.VList? && cur.VList? && m.listMode == "append" ==> Merged(cur, v, m) == Ok(VList(cur.items + v.items))
    ensures v.VList? && cur.VList? && m.listMode == "set" ==>
      Merged(cur, v, m).Ok? && Merged(cur, v, m).value.VList?
      && var r := Merged(cur, v, m).value.items;
      && |r| >= |cur.items| && r[..|cur.items|] == cur.items
      && (forall x :: x in v.items ==> x in r)
      && (forall x :: x in r[|cur.items|..] ==> x in v.items && x !in cur.items)
  {
    if v.VDict? && cur.VDict? && m.dictMode == "update" && DistinctKeys(v.entries) {
      forall k ensures Get(Overlay(cur.entries, v.entries), k)
        == if HasKey(v.entries, k) then Get(v.entries, k) else Get(cur.entries, k)
      {
        GetOverlay(cur.entries, v.entries, k);
      }
    }
    if v.VList? && cur.VList? && m.listMode == "set" {
      var r := cur.items + NotIn(v.items, cur.items);
      assert r[|cur.items|..] == NotIn(v.items, cur.items);
      forall x | x in v.items ensures x in r {
        if x !in cur.items {
          assert x in NotIn(v.items, cur.items);
        }
      }
    }
  }

  /** One `k, v` of the loop: a new key is appended, a present one merged. */
  function Step(out: Dict<string, Value>, k: string, v: Value, m: Modes): (r: Result<Dict<string, Value>>)
    ensures !HasKey(out, k) ==> r == Ok(out + [(k, v)])
  {
    if !HasKey(out, k) then Ok(Put(out, k, v))
    else
      match Merged(Get(out, k).value, v, m)
      case Err(e) => Err(e)
      case Ok(nv) => Ok(Put(out, k, nv))
  }

  /** The loop over all pairs: the state reached and the error, if one was
      raised (the updates made before it stay). */
  function MergePairs(out: Dict<string, Value>, ps: seq<(string, Value)>, m: Modes): (seq<(string, Value)>, Option<Error>)
    decreases |ps|
  {
    if ps == [] then (out, None)
    else
      match Step(out, ps[0].0, ps[0].1, m)
      case Err(e) => (out, Some(e))
      case Ok(o) => MergePairs(o, ps[1..], m)
  }

  /** `soft_update(d1, *dicts, dict_mode, list_mode, copy)`: the entries of
      the returned dict and the error raised, if any. */
  function SoftUpdateSpec(d1: Dict<string, Value>, dicts: seq<Dict<string, Value>>, m: Modes, copy: bool): (seq<(string, Value)>, Option<Error>)
  {
    if copy then MergePairs([], Flatten([d1] + dicts), m) else MergePairs(d1, Flatten(dicts), m)
  }

  lemma {:induction false} MergePairsAppend(out: Dict<string, Value>, a: seq<(string, Value)>, b: seq<(string, Value)>, m: Modes)
    ensures MergePairs(out, a + b, m) ==
      if MergePairs(out, a, m).1.Some? then MergePairs(out, a, m)
      else MergePairs(MergePairs(out, a, m).0, b, m)
    decreases |a|
  {
    if a == [] {
      assert a + b == b;
    } else {
      assert (a + b)[0] == a[0] && (a + b)[1..] == a[1..] + b;
      match Step(out, a[0].0, a[0].1, m)
      case Err(e) =>
      case Ok(o) => MergePairsAppend(o, a[1..], b, m);
    }
  }

  /** Pairs with keys new to `out` and to each other are just appended. */
  lemma {:induction false} MergeFresh(out: Dict<string, Value>, d: Dict<string, Value>, m: Modes)
    requires DistinctKeys(out + d)
    ensures MergePairs(out, d, m) == (out + d, None)
    decreases |d|
  {
    if d != [] {
      assert !HasKey(out, d[0].0) by {
        forall i | 0 <= i < |out| ensures out[i].0 != d[0].0 {
          assert (out + d)[i] == out[i] && (out + d)[|out|] == d[0];
        }
      }
      assert out + d == (out + [d[0]]) + d[1..];
      assert d == [(d[0].0, d[0].1)] + d[1..];
      MergePairsCons(out, d[0].0, d[0].1, d[1..], m);
      MergeFresh(out + [d[0]], d[1..], m);
    } else {
      assert out + d == out;
    }
  }

  /** `copy=True` and `copy=False` compute the same dict; they differ only in
      whether `d1` itself is the one updated. */
  lemma SoftUpdateCopyAgrees(d1: Dict<string, Value>, dicts: seq<Dict<string, Value>>, m: Modes)
    requires DistinctKeys(d1)
    ensures SoftUpdateSpec(d1, dicts, m, true) == SoftUpdateSpec(d1, dicts, m, false)
  {
    assert Flatten([d1] + dicts) == d1 + Flatten(dicts) by {
      assert ([d1] + dicts)[1..] == dicts;
    }
    MergePairsAppend([], d1, Flatten(dicts), m);
    assert [] + d1 == d1;
    MergeFresh([], d1, m);
  }

  /** With known modes `soft_update` never raises. */
  lemma {:induction false} ValidModesNeverFail(out: Dict<string, Value>, ps: seq<(string, Value)>, m: Modes)
    requires ValidModes(m)
    ensures MergePairs(out, ps, m).1 == None
    decreases |ps|
  {
    if ps != [] {
      MergedRules(if HasKey(out, ps[0].0) then Get(out, ps[0].0).value else VNone, ps[0].1, m);
      ValidModesNeverFail(Step(out, ps[0].0, ps[0].1, m).value, ps[1..], m);
    }
  }

  /** A dict object whose entries the source mutates in place. */
  class PyDict {
    var entries: Dict<string, Value>

    constructor(entries: Dict<string, Value>)
      ensures this.entries == entries
    {
      this.entries := entries;
    }
  }

  /** The body of the inner loop of `soft_update` for one `k, v`: `target`
      takes the result of `Step`, or is left as it was when that raises. */
  method SoftSet(target: PyDict, k: string, v: Value, m: Modes) returns (err: Option<Error>)
    modifies target
    ensures Step(old(target.entries), k, v, m).Ok? ==>
      err == None && target.entries == Step(old(target.entries), k, v, m).value
    ensures Step(old(target.entries), k, v, m).Err? ==>
      err == Some(Step(old(target.entries), k, v, m).error) && target.entries == old(target.entries)
  {
    var found := Get(target.entries, k);
    if found.None? {
      target.entries := Put(target.entries, k, v);
      return None;
    }
    var cur := found.value;
    if TypeTag(v) != TypeTag(cur) {
      target.entries := Put(target.entries, k, v);
    } else if v.VDict? {
      if m.dictMode == "update" {
        target.entries := Put(target.entries, k, VDict(Overlay(cur.entries, v.entries)));
      } else if m.dictMode == "override" {
        target.entries := Put(target.entries, k, v);
      } else {
        return Some(ValueError("Unknown dict mode \"" + m.dictMode + "\""));
      }
    } else if v.VList? {
      if m.listMode == "append" {
        target.entries := Put(target.entries, k, VList(cur.items + v.items));
      } else if m.listMode == "set" {
        target.entries := Put(target.entries, k, VList(cur.items + NotIn(v.items, cur.items)));
      } else if m.listMode == "override" {
        target.entries := Put(target.entries, k, v);
      } else {
        return Some(ValueError("Unknown list mode \"" + m.listMode + "\""));
      }
    } else {
      target.entries := Put(target.entries, k, v);
    }
    err := None;
  }

  lemma MergePairsCons(out: Dict<string, Value>, k: string, v: Value, rest: seq<(string, Value)>, m: Modes)
    ensures MergePairs(out, [(k, v)] + rest, m) ==
      if Step(out, k, v, m).Err? then (out, Some(Step(out, k, v, m).error))
      else MergePairs(Step(out, k, v, m).value, rest, m)
  {
    assert ([(k, v)] + rest)[0] == (k, v) && ([(k, v)] + rest)[1..] == rest;
  }

  /** `soft_update`: with `copy` a fresh dict is filled from `d1` and the
      others, otherwise `d1` itself is updated and returned. */
  method SoftUpdate(d1: PyDict, dicts: seq<Dict<string, Value>>, m: Modes, copy: bool)
    returns (out: PyDict, err: Option<Error>)
    modifies d1
    ensures copy ==> fresh(out) && d1.entries == old(d1.entries)
    ensures !copy ==> out == d1
    ensures (out.entries, err) == SoftUpdateSpec(old(d1.entries), dicts, m, copy)
  {
    var theDicts: seq<Dict<string, Value>>;
    if copy {
      out := new PyDict([]);
      theDicts := [d1.entries] + dicts;
    } else {
      out := d1;
      theDicts := dicts;
    }
    ghost var spec := SoftUpdateSpec(old(d1.entries), dicts, m, copy);
    assert theDicts[0..] == theDicts;
    var i := 0;
    while i < |theDicts|
      invariant i <= |theDicts|
      invariant copy ==> fresh(out) && d1.entries == old(d1.entries)
      invariant !copy ==> out == d1
      invariant MergePairs(out.entries, Flatten(theDicts[i..]), m) == spec
      decreases |theDicts| - i
    {
      var d := theDicts[i];
      ghost var later := Flatten(theDicts[i + 1..]);
      assert Flatten(theDicts[i..]) == d + later by {
        assert theDicts[i..][1..] == theDicts[i + 1..];
      }
      err := SoftSetAll(out, d, later, m);
      if err.Some? {
        return;
      }
      i := i + 1;
    }
    err := None;
  }

  /** The inner loop of `soft_update` over the pairs of one dict `d`, with
      `later` the pairs still to come after it. */
  method SoftSetAll(out: PyDict, d: Dict<string, Value>, ghost later: seq<(string, Value)>, m: Modes)
    returns (err: Option<Error>)
    modifies out
    ensures err.None? ==> MergePairs(out.entries, later, m) == MergePairs(old(out.entries), d + later, m)
    ensures err.Some? ==> (out.entries, err) == MergePairs(old(out.entries), d + later, m)
  {
    ghost var spec := MergePairs(out.entries, d + later, m);
    assert d[0..] == d;
    var j := 0;
    while j < |d|
      invariant j <= |d|
      invariant MergePairs(out.entries, d[j..] + later, m) == spec
      decreases |d| - j
    {
      var k := d[j].0;
      var v := d[j].1;
      assert d[j..] + later == [(k, v)] + (d[j + 1..] + later);
      MergePairsCons(out.entries, k, v, d[j + 1..] + later, m);
      err := SoftSet(out, k, v, m);
      if err.Some? {
        return;
      }
      j := j + 1;
    }
    assert d[j..] + later == later;
    err := None;
  }

  // ---------------------------------------------------------------------
  // flatten_json

  function DropLast(s: string): string
  {
    if s == [] then [] else s[..|s| - 1]
  }

  predicate Scalar(v: Value)
  {
    !v.VDict? && !v.VList?
  }

  /** The `out[name[:-1]] = x` assignments `flatten_json` makes, in order:
      dict entries extend the name with `key_`, list items with `index_`. */
  function Leaves(x: Value, name: string): (r: seq<(string, Value)>)
    ensures forall p :: p in r ==> Scalar(p.1)
    decreases x, 1
  {
    match x
    case VDict(entries) => EntryLeaves(x, entries, name)
    case VList(items) => ItemLeaves(items, name, 0)
    case _ => [(DropLast(name), x)]
  }

  /** The leaves of the entries of the dict `parent`. */
  function EntryLeaves(ghost parent: Value, entries: seq<(string, Value)>, name: string): (r: seq<(string, Value)>)
    requires forall p :: p in entries ==> p.1 < parent
    ensures forall p :: p in r ==> Scalar(p.1)
    decreases parent, 0, |entries|
  {
    if entries == [] then []
    else Leaves(entries[0].1, name + entries[0].0 + "_") + EntryLeaves(parent, entries[1..], name)
  }

  function ItemLeaves(items: seq<Value>, name: string, i: nat): (r: seq<(string, Value)>)
    ensures forall p :: p in r ==> Scalar(p.1)
    decreases items, 0
  {
    if items == [] then []
    else Leaves(items[0], name + IntToStr(i) + "_") + ItemLeaves(items[1..], name, i + 1)
  }

  /** Assigning the pairs one after the other into a dict. */
  function PutAll(d: Dict<string, Value>, ps: seq<(string, Value)>): (r: Dict<string, Value>)
    decreases |ps|
  {
    if ps == [] then d else PutAll(Put(d, ps[0].0, ps[0].1), ps[1..])
  }

  /** `flatten_json(y)`. */
  function FlattenJsonSpec(y: Value): Dict<string, Value>
  {
    PutAll([], Leaves(y, ""))
  }

  lemma {:induction false} PutAllScalars(d: Dict<string, Value>, ps: seq<(string, Value)>)
    requires forall p :: p in d ==> Scalar(p.1)
    requires forall p :: p in ps ==> Scalar(p.1)
    ensures forall p :: p in PutAll(d, ps) ==> Scalar(p.1)
    decreases |ps|
  {
    if ps != [] {
      var d' := Put(d, ps[0].0, ps[0].1);
      forall p | p in d' ensures Scalar(p.1) {
        var i :| 0 <= i < |d'| && d'[i] == p;
        GetPut(d, ps[0].0, ps[0].1, p.0);
        PutElements(d, ps[0].0, ps[0].1, i);
      }
      assert forall p :: p in ps[1..] ==> p in ps;
      PutAllScalars(d', ps[1..]);
    }
  }

  lemma {:induction false} PutElements(d: Dict<string, Value>, k: string, v: Value, i: nat)
    requires i < |Put(d, k, v)|
    ensures Put(d, k, v)[i] == (k, v) || Put(d, k, v)[i] in d
  {
    if d != [] && d[0].0 != k && i > 0 {
      PutElements(d[1..], k, v, i - 1);
    }
  }

  /** Every value `flatten_json` produces is neither a dict nor a list. */
  lemma FlattenJsonScalars(y: Value)
    ensures forall p :: p in FlattenJsonSpec(y) ==> Scalar(p.1)
  {
    PutAllScalars([], Leaves(y, ""));
  }

  lemma {:induction false} FlatEntryLeaves(parent: Value, d: Dict<string, Value>)
    requires forall p :: p in d ==> p.1 < parent
    requires forall p :: p in d ==> Scalar(p.1)
    ensures EntryLeaves(parent, d, "") == d
  {
    if d != [] {
      var k := d[0].0;
      assert "" + k + "_" == k + "_";
      assert DropLast(k + "_") == k;
      assert Leaves(d[0].1, k + "_") == [d[0]];
      assert forall p :: p in d[1..] ==> p in d;
      FlatEntryLeaves(parent, d[1..]);
    }
  }

  /** A dict that is already flat comes back unchanged. */
  lemma FlattenJsonFlat(d: Dict<string, Value>)
    requires DistinctKeys(d)
    requires forall p :: p in d ==> Scalar(p.1)
    ensures FlattenJsonSpec(VDict(d)) == d
  {
    FlatEntryLeaves(VDict(d), d);
    PutAllFresh([], d);
  }

  lemma {:induction false} PutAllFresh(out: Dict<string, Value>, d: Dict<string, Value>)
    requires DistinctKeys(out + d)
    ensures PutAll(out, d) == out + d
    decreases |d|
  {
    if d != [] {
      assert !HasKey(out, d[0].0) by {
        forall i | 0 <= i < |out| ensures out[i].0 != d[0].0 {
          assert (out + d)[i] == out[i] && (out + d)[|out|] == d[0];
        }
      }
      assert out + d == (out + [d[0]]) + d[1..];
      PutAllFresh(out + [d[0]], d[1..]);
    }
  }

  lemma {:induction false} PutAllAppend(d: Dict<string, Value>, a: seq<(string, Value)>, b: seq<(string, Value)>)
    ensures PutAll(d, a + b) == PutAll(PutAll(d, a), b)
    decreases |a|
  {
    if a == [] {
      assert a + b == b;
    } else {
      assert (a + b)[0] == a[0] && (a + b)[1..] == a[1..] + b;
      PutAllAppend(Put(d, a[0].0, a[0].1), a[1..], b);
    }
  }

  /** The recursive `flatten` closure of `flatten_json`, assigning into the
      dict being built. */
  method FlattenInto(x: Value, name: string, out: Dict<string, Value>) returns (r: Dict<string, Value>)
    ensures r == PutAll(out, Leaves(x, name))
    decreases x
  {
    match x {
      case VDict(entries) =>
        r := out;
        var j := 0;
        while j < |entries|
          invariant j <= |entries|
          invariant PutAll(r, EntryLeaves(x, entries[j..], name)) == PutAll(out, EntryLeaves(x, entries, name))
          decreases |entries| - j
        {
          assert entries[j..][1..] == entries[j + 1..];
          PutAllAppend(r, Leaves(entries[j].1, name + entries[j].0 + "_"), EntryLeaves(x, entries[j + 1..], name));
          r := FlattenInto(entries[j].1, name + entries[j].0 + "_", r);
          j := j + 1;
        }
      case VList(items) =>
        r := out;
        var i := 0;
        while i < |items|
          invariant i <= |items|
          invariant PutAll(r, ItemLeaves(items[i..], name, i)) == PutAll(out, ItemLeaves(items, name, 0))
          decreases |items| - i
        {
          assert items[i..][1..] == items[i + 1..];
          PutAllAppend(r, Leaves(items[i], name + IntToStr(i) + "_"), ItemLeaves(items[i + 1..], name, i + 1));
          r := FlattenInto(items[i], name + IntToStr(i) + "_", r);
          i := i + 1;
        }
      case _ =>
        r := Put(out, DropLast(name), x);
    }
  }

  /** `flatten_json(y)`. */
  method FlattenJson(y: Value) returns (r: Dict<string, Value>)
    ensures r == FlattenJsonSpec(y)
  {
    r := FlattenInto(y, "", []);
  }

  // ---------------------------------------------------------------------
  // dol2lot, lot2dol

  /** What `dol2lot` iterates for one value: its items when iterable, the
      value alone otherwise. */
  function ValuesOf(v: Value): seq<Value>
  {
    match Iter(v)
    case Some(vs) => vs
    case None => [v]
  }

  function Tag<K, V>(k: K, vs: seq<V>): (r: seq<(K, V)>)
    ensures |r| == |vs|
    ensures forall i :: 0 <= i < |vs| ==> r[i] == (k, vs[i])
  {
    seq(|vs|, i requires 0 <= i < |vs| => (k, vs[i]))
  }

  /** `dol2lot(dol)`: every value paired with its key, dict order first. */
  function Dol2Lot<K>(dol: Dict<K, Value>): seq<(K, Value)>
  {
    if dol == [] then [] else Dol2Lot(dol[..|dol| - 1]) + Tag(dol[|dol| - 1].0, ValuesOf(dol[|dol| - 1].1))
  }

  method Dol2LotLoop<K>(dol: Dict<K, Value>) returns (lot: seq<(K, Value)>)
    ensures lot == Dol2Lot(dol)
  {
    lot := [];
    var i := 0;
    while i < |dol|
      invariant i <= |dol|
      invariant lot == Dol2Lot(dol[..i])
    {
      var vals := ValuesOf(dol[i].1);
      assert dol[..i + 1][..i] == dol[..i];
      lot := lot + Tag(dol[i].0, vals);
      i := i + 1;
    }
    assert dol[..|dol|] == dol;
  }

  /** `dol[k].append(v)`, creating the list when `k` is new. */
  function AddTo<K(==), V>(dol: Dict<K, seq<V>>, k: K, v: V): Dict<K, seq<V>>
  {
    match Get(dol, k)
    case Some(vs) => Put(dol, k, vs + [v])
    case None => Put(dol, k, [v])
  }

  /** `lot2dol(lot)`. */
  function Lot2Dol<K(==), V>(lot: seq<(K, V)>): Dict<K, seq<V>>
  {
    if lot == [] then [] else AddTo(Lot2Dol(lot[..|lot| - 1]), lot[|lot| - 1].0, lot[|lot| - 1].1)
  }

  method Lot2DolLoop<K(==), V>(lot: seq<(K, V)>) returns (dol: Dict<K, seq<V>>)
    ensures dol == Lot2Dol(lot)
  {
    dol := [];
    var i := 0;
    while i < |lot|
      invariant i <= |lot|
      invariant dol == Lot2Dol(lot[..i])
    {
      var k := lot[i].0;
      var val := lot[i].1;
      assert lot[..i + 1][..i] == lot[..i];
      var cur := Get(dol, k);
      if cur.None? {
        dol := Put(dol, k, [val]);
      } else {
        dol := Put(dol, k, cur.value + [val]);
      }
      i := i + 1;
    }
    assert lot[..|lot|] == lot;
  }

  /** The values paired with `k`, in input order. */
  function ValuesFor<K(==), V>(lot: seq<(K, V)>, k: K): seq<V>
  {
    if lot == [] then []
    else ValuesFor(lot[..|lot| - 1], k) + (if lot[|lot| - 1].0 == k then [lot[|lot| - 1].1] else [])
  }

  lemma HasKeySnoc<K, V>(lot: seq<(K, V)>, k: K)
    requires lot != []
    ensures HasKey(lot, k) <==> HasKey(lot[..|lot| - 1], k) || lot[|lot| - 1].0 == k
  {
    var init := lot[..|lot| - 1];
    if HasKey(lot, k) && lot[|lot| - 1].0 != k {
      var i :| 0 <= i < |lot| && lot[i].0 == k;
      assert init[i].0 == k;
    }
    if HasKey(init, k) {
      var i :| 0 <= i < |init| && init[i].0 == k;
      assert lot[i].0 == k;
    }
  }

  lemma AddToGet<K, V>(d: Dict<K, seq<V>>, k: K, v: V, k': K)
    ensures Get(AddTo(d, k, v), k') ==
      if k' == k then Some((if HasKey(d, k) then Get(d, k).value else []) + [v]) else Get(d, k')
  {
    match Get(d, k) {
      case Some(vs) => GetPut(d, k, vs + [v], k');
      case None =>
        assert [] + [v] == [v];
        GetPut(d, k, [v], k');
    }
  }

  /** `lot2dol` groups the values per key in input order. */
  lemma {:induction false} Lot2DolGet<K, V>(lot: seq<(K, V)>, k: K)
    ensures Get(Lot2Dol(lot), k) == if HasKey(lot, k) then Some(ValuesFor(lot, k)) else None
  {
    if lot != [] {
      var init := lot[..|lot| - 1];
      var last := lot[|lot| - 1];
      Lot2DolGet(init, k);
      Lot2DolGet(init, last.0);
      AddToGet(Lot2Dol(init), last.0, last.1, k);
      HasKeySnoc(lot, k);
      assert lot[..|lot| - 1] == init;
      assert ValuesFor(lot, k) == ValuesFor(init, k) + (if last.0 == k then [last.1] else []);
      if !HasKey(init, k) {
        ValuesForAbsent(init, k);
        assert [] + [last.1] == [last.1];
      }
      if last.0 != k {
        assert ValuesFor(init, k) + [] == ValuesFor(init, k);
      }
    }
  }

  lemma {:induction false} ValuesForAbsent<K, V>(lot: seq<(K, V)>, k: K)
    requires !HasKey(lot, k)
    ensures ValuesFor(lot, k) == []
  {
    if lot != [] {
      var init := lot[..|lot| - 1];
      forall i | 0 <= i < |init| ensures init[i].0 != k {
        assert init[i] == lot[i];
      }
      ValuesForAbsent(init, k);
    }
  }

  lemma {:induction false} Lot2DolDistinct<K, V>(lot: seq<(K, V)>)
    ensures DistinctKeys(Lot2Dol(lot))
  {
    if lot != [] {
      var init := lot[..|lot| - 1];
      var last := lot[|lot| - 1];
      Lot2DolDistinct(init);
      var d := Lot2Dol(init);
      match Get(d, last.0) {
        case Some(vs) => PutKeepsDistinct(d, last.0, vs + [last.1]);
        case None => PutKeepsDistinct(d, last.0, [last.1]);
      }
    }
  }

  /** The list inside a list value. */
  function ItemsOf(v: Value): seq<Value>
  {
    if v.VList? then v.items else []
  }

  predicate NonEmptyLists(d: Dict<string, Value>)
  {
    forall p :: p in d ==> p.1.VList? && p.1.items != []
  }

  lemma Lot2DolSnoc<K, V>(lot: seq<(K, V)>, p: (K, V))
    ensures Lot2Dol(lot + [p]) == AddTo(Lot2Dol(lot), p.0, p.1)
  {
    assert (lot + [p])[..|lot|] == lot;
  }

  lemma AddToFresh<K, V>(d: Dict<K, seq<V>>, k: K, x: V)
    requires !HasKey(d, k)
    ensures AddTo(d, k, x) == d + [(k, [x])]
  {
  }

  lemma AddToLast<K, V>(d: Dict<K, seq<V>>, k: K, a: seq<V>, x: V)
    requires !HasKey(d, k)
    ensures AddTo(d + [(k, a)], k, x) == d + [(k, a + [x])]
  {
    GetPut(d, k, a, k);
    PutAtEnd(d, k, a, a + [x]);
  }

  lemma {:induction false} Lot2DolTagged<K, V>(lot: seq<(K, V)>, k: K, vs: seq<V>)
    requires !HasKey(lot, k) && vs != []
    ensures Lot2Dol(lot + Tag(k, vs)) == Lot2Dol(lot) + [(k, vs)]
    decreases |vs|
  {
    var init := vs[..|vs| - 1];
    var x := vs[|vs| - 1];
    assert init + [x] == vs;
    TaggedSnoc(lot, k, init, x);
    assert !HasKey(Lot2Dol(lot), k) by {
      Lot2DolGet(lot, k);
    }
    if init == [] {
      assert lot + Tag(k, init) == lot;
      AddToFresh(Lot2Dol(lot), k, x);
    } else {
      Lot2DolTagged(lot, k, init);
      AddToLast(Lot2Dol(lot), k, init, x);
    }
  }

  lemma TaggedSnoc<K, V>(lot: seq<(K, V)>, k: K, init: seq<V>, x: V)
    ensures Lot2Dol(lot + Tag(k, init + [x])) == AddTo(Lot2Dol(lot + Tag(k, init)), k, x)
  {
    var pre := lot + Tag(k, init);
    assert lot + Tag(k, init + [x]) == pre + [(k, x)] by {
      assert Tag(k, init + [x]) == Tag(k, init) + [(k, x)];
    }
    Lot2DolSnoc(pre, (k, x));
  }

  lemma {:induction false} PutAtEnd<K, V>(d: Dict<K, V>, k: K, a: V, b: V)
    requires !HasKey(d, k)
    ensures Put(d + [(k, a)], k, b) == d + [(k, b)]
  {
    if d == [] {
    } else {
      var t := d[1..];
      assert !HasKey(t, k) by {
        forall i | 0 <= i < |t| ensures t[i].0 != k {
          assert t[i] == d[i + 1];
        }
      }
      PutAtEnd(t, k, a, b);
      PutPastHead(d[0], t + [(k, a)], k, b);
      HeadAppend(d, [(k, a)]);
      HeadAppend(d, [(k, b)]);
    }
  }

  lemma HeadAppend<T>(d: seq<T>, e: seq<T>)
    requires d != []
    ensures d + e == [d[0]] + (d[1..] + e)
  {
    assert d == [d[0]] + d[1..];
  }

  lemma PutPastHead<K, V>(p: (K, V), rest: Dict<K, V>, k: K, v: V)
    requires p.0 != k
    ensures Put([p] + rest, k, v) == [p] + Put(rest, k, v)
  {
    assert ([p] + rest)[0] == p && ([p] + rest)[1..] == rest;
  }

  lemma {:induction false} Dol2LotKeys(dol: Dict<string, Value>, k: string)
    requires !HasKey(dol, k)
    ensures !HasKey(Dol2Lot(dol), k)
  {
    if dol != [] {
      var init := dol[..|dol| - 1];
      forall i | 0 <= i < |init| ensures init[i].0 != k {
        assert init[i] == dol[i];
      }
      Dol2LotKeys(init, k);
    }
  }

  /** `lot2dol(dol2lot(d)) == d` when every value is a non-empty list. */
  lemma {:induction false} Lot2DolDol2Lot(d: Dict<string, Value>)
    requires DistinctKeys(d) && NonEmptyLists(d)
    ensures Lot2Dol(Dol2Lot(d)) == MapDictVal(ItemsOf, d)
  {
    if d != [] {
      var init := d[..|d| - 1];
      var last := d[|d| - 1];
      assert forall p :: p in init ==> p in d;
      Lot2DolDol2Lot(init);
      Dol2LotLast(d);
      MapDictValSnoc(ItemsOf, d);
      assert last in d;
    }
  }

  lemma MapDictValSnoc<K, V, W>(f: V -> W, d: Dict<K, V>)
    requires d != []
    ensures MapDictVal(f, d) == MapDictVal(f, d[..|d| - 1]) + [(d[|d| - 1].0, f(d[|d| - 1].1))]
  {
  }

  lemma Dol2LotLast(d: Dict<string, Value>)
    requires d != [] && DistinctKeys(d) && NonEmptyLists(d)
    ensures Lot2Dol(Dol2Lot(d)) == Lot2Dol(Dol2Lot(d[..|d| - 1])) + [(d[|d| - 1].0, d[|d| - 1].1.items)]
  {
    var init := d[..|d| - 1];
    var last := d[|d| - 1];
    forall i | 0 <= i < |init| ensures init[i].0 != last.0 {
      assert init[i] == d[i];
    }
    Dol2LotKeys(init, last.0);
    assert last in d;
    assert ValuesOf(last.1) == last.1.items;
    Lot2DolTagged(Dol2Lot(init), last.0, last.1.items);
  }
}
