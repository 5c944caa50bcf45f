/** `Composer` (common/common/common/composer.py): a spider made of a
    sequence of sub-spiders. The `{class path: priority | [priorities]}`
    setting is normalised into an ordered list of slots; every response is
    handed to the parse function of the stage recorded in the request's
    `meta['composer']`, and the requests an intermediate stage produces are
    tagged for the next stage.

    The sub-spiders' own code is abstract: `Env.run` is what calling a parse
    function on a response gives, `Env.scope`, `Env.load` and `Env.attrs`
    stand for attribute lookup in the composer, scrapy's `load_object` and
    `getattr` chains, and `Env.fetch` for the response the framework sends
    back for a request in inline mode. */
module Composer {
  import opened Base
  import opened Values
  import opened Text
  import opened Util
  import opened Http

  // ---------------------------------------------------------------------
  // _build_component_list

  /** `val is None or isinstance(val, numbers.Real)`. */
  predicate ValidPriority(v: Value)
  {
    v.VNone? || RealOf(v).Some?
  }

  /** `_validate_values`: the ValueError for the first entry, in dict order,
      one of whose priorities is neither `None` nor a real number. */
  function Validate(d: Dict<string, Value>): (r: Option<Error>)
    ensures r.None? <==> forall i, v :: 0 <= i < |d| && v in ValuesOf(d[i].1) ==> ValidPriority(v)
  {
    if d == [] then None
    else if exists v :: v in ValuesOf(d[0].1) && !ValidPriority(v) then
      Some(ValueError("Invalid value for component " + d[0].0 + ", please provide a real number or None instead"))
    else
      var r := Validate(d[1..]);
      assert forall i :: 1 <= i < |d| ==> d[i] == d[1..][i - 1];
      r
  }

  /** `len({convert(c) for c in compdict}) == len(compdict)`: no two keys
      convert to the same class path. */
  predicate ConvertsDistinct(convert: string -> string, d: Dict<string, Value>)
  {
    forall i, j :: 0 <= i < j < |d| ==> convert(d[i].0) != convert(d[j].0)
  }

  /** `{convert(k): v for k, v in compdict.items()}` when no two keys collide. */
  function ConvertKeys(convert: string -> string, d: Dict<string, Value>): (r: Dict<string, Value>)
    ensures |r| == |d|
    ensures forall i :: 0 <= i < |d| ==> r[i] == (convert(d[i].0), d[i].1)
  {
    seq(|d|, i requires 0 <= i < |d| => (convert(d[i].0), d[i].1))
  }

  /** `without_none_values`: the entries whose value is not `None`, in order. */
  function WithoutNoneValues(d: Dict<string, Value>): (r: Dict<string, Value>)
    ensures forall p :: p in r <==> p in d && p.1 != VNone
  {
    if d == [] then []
    else
      assert forall p :: p in d <==> p == d[0] || p in d[1..];
      (if d[0].1 == VNone then [] else [d[0]]) + WithoutNoneValues(d[1..])
  }

  /** A slot: a class path and the priority it runs at. */
  type Slot = (string, real)

  /** The slots in the order `sorted(..., key=itemgetter(1))` gives: a
      stable insertion sort by priority. */
  function Insert(s: seq<Slot>, x: Slot): seq<Slot>
    decreases |s|
  {
    if s == [] || s[|s| - 1].1 <= x.1 then s + [x]
    else Insert(s[..|s| - 1], x) + [s[|s| - 1]]
  }

  function SortByPriority(ts: seq<Slot>): seq<Slot>
    decreases |ts|
  {
    if ts == [] then [] else Insert(SortByPriority(ts[..|ts| - 1]), ts[|ts| - 1])
  }

  predicate SortedByPriority(s: seq<Slot>)
  {
    forall i, j :: 0 <= i < j < |s| ==> s[i].1 <= s[j].1
  }

  /** The slots of priority `p`, in order. */
  function AtPriority(s: seq<Slot>, p: real): seq<Slot>
  {
    if s == [] then [] else (if s[0].1 == p then [s[0]] else []) + AtPriority(s[1..], p)
  }

  lemma {:induction false} AtPriorityAppend(a: seq<Slot>, b: seq<Slot>, p: real)
    ensures AtPriority(a + b, p) == AtPriority(a, p) + AtPriority(b, p)
  {
    if a == [] {
      assert a + b == b;
    } else {
      var h := if a[0].1 == p then [a[0]] else [];
      assert (a + b)[0] == a[0] && (a + b)[1..] == a[1..] + b;
      calc {
        AtPriority(a + b, p);
        h + AtPriority(a[1..] + b, p);
        { AtPriorityAppend(a[1..], b, p); }
        h + (AtPriority(a[1..], p) + AtPriority(b, p));
        (h + AtPriority(a[1..], p)) + AtPriority(b, p);
      }
    }
  }

  lemma {:induction false} InsertShape(s: seq<Slot>, x: Slot)
    ensures |Insert(s, x)| == |s| + 1
    ensures multiset(Insert(s, x)) == multiset(s) + multiset{x}
    decreases |s|
  {
    if !(s == [] || s[|s| - 1].1 <= x.1) {
      var init := s[..|s| - 1];
      assert s == init + [s[|s| - 1]];
      InsertShape(init, x);
    }
  }

  lemma {:induction false} InsertSorted(s: seq<Slot>, x: Slot)
    requires SortedByPriority(s)
    ensures SortedByPriority(Insert(s, x))
    decreases |s|
  {
    if !(s == [] || s[|s| - 1].1 <= x.1) {
      var init := s[..|s| - 1];
      var last := s[|s| - 1];
      assert SortedByPriority(init);
      InsertSorted(init, x);
      InsertShape(init, x);
      var r := Insert(init, x);
      forall y | y in r ensures y.1 <= last.1 {
        assert y in multiset(r);
        if y != x {
          assert y in multiset(init);
          var k :| 0 <= k < |init| && init[k] == y;
          assert s[k] == y;
        }
      }
      var t := r + [last];
      forall i, j | 0 <= i < j < |t| ensures t[i].1 <= t[j].1 {
        if j == |r| {
          assert t[i] == r[i];
          assert r[i] in r;
        } else {
          assert t[i] == r[i] && t[j] == r[j];
        }
      }
    }
  }

  lemma {:induction false} InsertStable(s: seq<Slot>, x: Slot, p: real)
    ensures AtPriority(Insert(s, x), p) == AtPriority(s, p) + AtPriority([x], p)
    decreases |s|
  {
    if s == [] || s[|s| - 1].1 <= x.1 {
      AtPriorityAppend(s, [x], p);
    } else {
      var init := s[..|s| - 1];
      var last := s[|s| - 1];
      assert s == init + [last];
      InsertStable(init, x, p);
      AtPriorityAppend(Insert(init, x), [last], p);
      AtPriorityAppend(init, [last], p);
      if last.1 == p {
        assert x.1 != p;
        assert AtPriority([x], p) == [];
      }
    }
  }

  /** The sort is ascending, a permutation of its input, and keeps each
      priority's slots in their input order. */
  lemma {:induction false} SortByPrioritySpec(ts: seq<Slot>)
    ensures SortedByPriority(SortByPriority(ts))
    ensures multiset(SortByPriority(ts)) == multiset(ts)
    ensures |SortByPriority(ts)| == |ts|
    ensures forall p :: AtPriority(SortByPriority(ts), p) == AtPriority(ts, p)
    decreases |ts|
  {
    if ts != [] {
      var init := ts[..|ts| - 1];
      var last := ts[|ts| - 1];
      SortByPrioritySpec(init);
      InsertSorted(SortByPriority(init), last);
      InsertShape(SortByPriority(init), last);
      assert ts == init + [last];
      forall p ensures AtPriority(SortByPriority(ts), p) == AtPriority(ts, p) {
        InsertStable(SortByPriority(init), last, p);
        AtPriorityAppend(init, [last], p);
      }
    }
  }

  /** The priority used as the sort key; `None` only reaches the sort as a
      lone slot, where no comparison is made. */
  function PriorityOf(v: Value): real
  {
    if RealOf(v).Some? then RealOf(v).value else 0.0
  }

  function Slots(ts: seq<(string, Value)>): (r: seq<Slot>)
    ensures |r| == |ts|
    ensures forall i :: 0 <= i < |ts| ==> r[i] == (ts[i].0, PriorityOf(ts[i].1))
  {
    seq(|ts|, i requires 0 <= i < |ts| => (ts[i].0, PriorityOf(ts[i].1)))
  }

  function Paths(s: seq<Slot>): (r: seq<string>)
    ensures |r| == |s|
    ensures forall i :: 0 <= i < |s| ==> r[i] == s[i].0
  {
    seq(|s|, i requires 0 <= i < |s| => s[i].0)
  }

  /** The (class path, priority) tuples `dol2lot` makes of the validated,
      converted, `None`-free settings. */
  function ComponentTuples(compdict: Dict<string, Value>, convert: string -> string): seq<(string, Value)>
  {
    Dol2Lot(WithoutNoneValues(ConvertKeys(convert, compdict)))
  }

  predicate HasNonePriority(ts: seq<(string, Value)>)
  {
    exists i :: 0 <= i < |ts| && ts[i].1 == VNone
  }

  /** `_build_component_list(compdict)`: validation, then the collision
      check, then the slots sorted by priority. Sorting compares `None`
      with anything only when there are at least two slots. */
  function BuildComponentList(compdict: Dict<string, Value>, convert: string -> string): Result<seq<string>>
  {
    if Validate(compdict).Some? then Err(Validate(compdict).value)
    else if !ConvertsDistinct(convert, compdict) then
      Err(ValueError("Some paths convert to the same object, please update your settings"))
    else
      var ts := ComponentTuples(compdict, convert);
      if |ts| >= 2 && HasNonePriority(ts) then Err(TypeError("'<' not supported between instances of 'NoneType'"))
      else Ok(Paths(SortByPriority(Slots(ts))))
  }

  /** What `_build_component_list` promises: the three errors exactly when
      their conditions hold, and otherwise one slot per priority, sorted
      ascending, with equal priorities in dict order. */
  lemma BuildComponentListSpec(compdict: Dict<string, Value>, convert: string -> string)
    ensures BuildComponentList(compdict, convert).Err? <==>
      || (exists i, v :: 0 <= i < |compdict| && v in ValuesOf(compdict[i].1) && !ValidPriority(v))
      || !ConvertsDistinct(convert, compdict)
      || (|ComponentTuples(compdict, convert)| >= 2 && HasNonePriority(ComponentTuples(compdict, convert)))
    ensures BuildComponentList(compdict, convert).Ok? ==>
      var ts := ComponentTuples(compdict, convert);
      var sorted := SortByPriority(Slots(ts));
      && BuildComponentList(compdict, convert).value == Paths(sorted)
      && SortedByPriority(sorted)
      && multiset(sorted) == multiset(Slots(ts))
      && forall p :: AtPriority(sorted, p) == AtPriority(Slots(ts), p)
  {
    SortByPrioritySpec(Slots(ComponentTuples(compdict, convert)));
  }

  function Identity(s: string): string
  {
    s
  }

  /** The class documentation's example: `{One: [1, 3], Two: 2, Three: 4}`. */
  const ExampleSettings: Dict<string, Value> :=
    [("One", VList([VInt(1), VInt(3)])), ("Two", VInt(2)), ("Three", VInt(4))]

  lemma ExampleValid()
    ensures Validate(ExampleSettings) == None
    ensures ConvertsDistinct(Identity, ExampleSettings)
  {
    var d := ExampleSettings;
    assert ValuesOf(d[0].1) == [VInt(1), VInt(3)];
    assert ValuesOf(d[1].1) == [VInt(2)];
    assert ValuesOf(d[2].1) == [VInt(4)];
  }

  lemma ExampleTuples()
    ensures ComponentTuples(ExampleSettings, Identity)
      == [("One", VInt(1)), ("One", VInt(3)), ("Two", VInt(2)), ("Three", VInt(4))]
  {
    var d := ExampleSettings;
    assert ConvertKeys(Identity, d) == d;
    assert WithoutNoneValues(d) == d by {
      assert d[1..][1..] == [d[2]];
      assert WithoutNoneValues([d[2]]) == [d[2]];
      assert WithoutNoneValues(d[1..]) == [d[1]] + [d[2]];
    }
    ExampleDol2Lot();
  }

  lemma ExampleDol2Lot()
    ensures Dol2Lot(ExampleSettings) == [("One", VInt(1)), ("One", VInt(3)), ("Two", VInt(2)), ("Three", VInt(4))]
  {
    var d := ExampleSettings;
    assert ValuesOf(d[0].1) == [VInt(1), VInt(3)];
    assert d[..1][..0] == [] && d[..2][..1] == d[..1] && d[..3][..2] == d[..2] && d[..3] == d;
    assert Dol2Lot(d[..1]) == Tag("One", [VInt(1), VInt(3)]);
    assert Dol2Lot(d[..2]) == [("One", VInt(1)), ("One", VInt(3)), ("Two", VInt(2))];
  }

  lemma ExampleSort()
    ensures SortByPriority([("One", 1.0), ("One", 3.0), ("Two", 2.0), ("Three", 4.0)])
      == [("One", 1.0), ("Two", 2.0), ("One", 3.0), ("Three", 4.0)]
  {
    var sl: seq<Slot> := [("One", 1.0), ("One", 3.0), ("Two", 2.0), ("Three", 4.0)];
    assert sl[..3][..2] == sl[..2] && sl[..2][..1] == sl[..1] && sl[..1][..0] == [];
    assert SortByPriority(sl[..1]) == [("One", 1.0)];
    assert SortByPriority(sl[..2]) == [("One", 1.0), ("One", 3.0)];
    assert Insert([("One", 1.0)], ("Two", 2.0)) == [("One", 1.0), ("Two", 2.0)];
    assert SortByPriority(sl[..3]) == [("One", 1.0), ("Two", 2.0), ("One", 3.0)];
  }

  lemma ExampleSlots()
    ensures var ts := [("One", VInt(1)), ("One", VInt(3)), ("Two", VInt(2)), ("Three", VInt(4))];
      !HasNonePriority(ts) && Slots(ts) == [("One", 1.0), ("One", 3.0), ("Two", 2.0), ("Three", 4.0)]
  {
  }

  /** The example runs One, Two, One, Three. */
  lemma ComponentListExample()
    ensures BuildComponentList(ExampleSettings, Identity) == Ok(["One", "Two", "One", "Three"])
  {
    ExampleValid();
    ExampleTuples();
    ExampleSlots();
    ExampleSort();
    var sorted: seq<Slot> := [("One", 1.0), ("Two", 2.0), ("One", 3.0), ("Three", 4.0)];
    assert Paths(sorted) == ["One", "Two", "One", "Three"];
  }

  // ---------------------------------------------------------------------
  // Composer meta

  /** `compmeta.get('next_spider', 0)`. */
  function Stage(m: ComposerMeta): (s: nat)
    ensures m.nextSpider.None? ==> s == 0
    ensures m.nextSpider.Some? ==> s == m.nextSpider.value
  {
    if m.nextSpider.Some? then m.nextSpider.value else 0
  }

  function MetaOrEmpty(c: Option<ComposerMeta>): ComposerMeta
  {
    if c.Some? then c.value else EmptyComposerMeta
  }

  /** `_get_composer_meta`: `meta['composer']`, created empty only when absent. */
  method GetComposerMeta(r: Request) returns (m: ComposerMeta)
    modifies r
    ensures m == MetaOrEmpty(old(r.composer)) && r.composer == Some(m)
    ensures r.callback == old(r.callback) && r.spiderid == old(r.spiderid)
  {
    if r.composer.None? {
      r.composer := Some(EmptyComposerMeta);
    }
    m := r.composer.value;
  }

  /** `_update_callback(request, callback)`: the request's callback moves into
      `meta['composer']['callback']` and `callback` takes its place. */
  method UpdateCallback(r: Request, callback: Callback)
    modifies r
    ensures r.composer == Some(MetaOrEmpty(old(r.composer)).(callback := old(r.callback)))
    ensures r.callback == callback && r.spiderid == old(r.spiderid)
  {
    var comp := GetComposerMeta(r);
    r.composer := Some(comp.(callback := r.callback));
    r.callback := callback;
  }

  /** `_update_index(req, index)`: `next_spider` becomes `(index or 0) + 1`. */
  method UpdateIndex(r: Request, index: nat)
    modifies r
    ensures r.composer == Some(MetaOrEmpty(old(r.composer)).(nextSpider := Some(index + 1)))
    ensures r.callback == old(r.callback) && r.spiderid == old(r.spiderid)
  {
    var comp := GetComposerMeta(r);
    r.composer := Some(comp.(nextSpider := Some(index + 1)));
  }

  // ---------------------------------------------------------------------
  // _get_callback

  /** `_get_callback(compmeta, scope)` on the stored callback `cb`: a
      callable (or `None`) as it is; a string first as a dotted attribute
      path in the composer's scope (an empty path is an IndexError; a miss
      falls through), then as `importpath[ methodpath]`. */
  function GetCallback(cb: Callback, scope: seq<string> -> Option<string>,
                       load: string -> Result<string>, attrs: (string, seq<string>) -> Result<string>): Result<Option<string>>
  {
    match cb
    case NoCallback => Ok(None)
    case Callable(id) => Ok(Some(id))
    case CallbackPath(path) =>
      var scopePath := NonEmptyParts(Split(path, '.'));
      if scopePath == [] then Err(IndexError)
      else if scope(scopePath).Some? then Ok(scope(scopePath))
      else
        var parts := NonEmptyParts(Split(path, ' '));
        var paths := if |parts| == 1 then parts + [""] else parts;
        if |paths| != 2 then Err(ValueError("too many or not enough values to unpack (expected 2)"))
        else
          match load(paths[0])
          case Err(e) => Err(e)
          case Ok(obj) =>
            if paths[1] == "" then Ok(Some(obj))
            else
              match attrs(obj, Split(paths[1], '.'))
              case Err(e) => Err(e)
              case Ok(f) => Ok(Some(f))
  }

  lemma GetCallbackRules(cb: Callback, scope: seq<string> -> Option<string>,
                         load: string -> Result<string>, attrs: (string, seq<string>) -> Result<string>)
    ensures !cb.CallbackPath? ==> GetCallback(cb, scope, load, attrs) == Ok(if cb.Callable? then Some(cb.id) else None)
    ensures cb.CallbackPath? && NonEmptyParts(Split(cb.path, '.')) == [] ==> GetCallback(cb, scope, load, attrs) == Err(IndexError)
    ensures cb.CallbackPath? && NonEmptyParts(Split(cb.path, '.')) != [] && scope(NonEmptyParts(Split(cb.path, '.'))).Some? ==>
      GetCallback(cb, scope, load, attrs) == Ok(scope(NonEmptyParts(Split(cb.path, '.'))))
    ensures (&& cb.CallbackPath? && ' ' !in cb.path && cb.path != "" && NonEmptyParts(Split(cb.path, '.')) != []
             && scope(NonEmptyParts(Split(cb.path, '.'))).None?) ==>
      GetCallback(cb, scope, load, attrs) == (if load(cb.path).Ok? then Ok(Some(load(cb.path).value)) else Err(load(cb.path).error))
  {
    if cb.CallbackPath? && ' ' !in cb.path && cb.path != "" {
      SplitJoin(cb.path, ' ');
      assert Split(cb.path, ' ') == [cb.path];
      assert NonEmptyParts([cb.path]) == [cb.path] by {
        assert [cb.path][1..] == [];
      }
    }
  }

  // ---------------------------------------------------------------------
  // parse

  /** A request as a spider's parse function returns it, before the
      composer touches it. */
  datatype RequestData = RequestData(url: string, callback: Callback, composer: Option<ComposerMeta>)

  /** One thing a parse function produces: a request or an item. */
  datatype Produced = PRequest(data: RequestData) | PItem(item: Value)

  /** A parse function's return value: one object, or a list or generator. */
  datatype Parsed = Single(p: Produced) | Several(ps: seq<Produced>)

  /** The parse function called on a response: a sub-spider's `parse`, by
      class path, or the callable a callback resolved to. */
  datatype Target = SpiderParse(clspath: string) | Resolved(id: string)

  datatype Yielded = YieldedParsed(parsed: Parsed) | YieldedRequest(req: Request)

  datatype Env = Env(
    scope: seq<string> -> Option<string>,
    load: string -> Result<string>,
    attrs: (string, seq<string>) -> Result<string>,
    run: (Target, string) -> Parsed,
    fetch: string -> Option<string>)

  /** `iter(parsed)`, or `[parsed]` when it is not iterable: an item that is a
      string, list or dict is iterated too. */
  function Elements(p: Parsed): (es: seq<Produced>)
    ensures p.Several? ==> es == p.ps
    ensures p.Single? && p.p.PRequest? ==> es == [p.p]
  {
    match p
    case Several(ps) => ps
    case Single(PRequest(d)) => [PRequest(d)]
    case Single(PItem(v)) =>
      match Iter(v)
      case Some(vs) => seq(|vs|, i requires 0 <= i < |vs| => PItem(vs[i]))
      case None => [PItem(v)]
  }

  /** How many elements come before the first one that is not a request. */
  function LeadingRequests(es: seq<Produced>): (n: nat)
    ensures n <= |es|
    ensures forall i :: 0 <= i < n ==> es[i].PRequest?
    ensures n < |es| ==> !es[n].PRequest?
  {
    if es == [] || !es[0].PRequest? then 0
    else
      var n := LeadingRequests(es[1..]);
      assert forall i :: 1 <= i < |es| ==> es[i] == es[1..][i - 1];
      1 + n
  }

  /** `x.__class__.__name__`. */
  function TypeName(p: Produced): string
  {
    if p.PRequest? then "Request" else PyTypeName(p.item)
  }

  function NonRequestMessage(spiderName: string, p: Produced): string
  {
    "Intermediate spiders must produce Request objects or generators thereof. Spider "
      + spiderName + " returned " + TypeName(p)
  }

  /** The TypeError names the offending spider and the type it returned. */
  lemma NonRequestMessageNames(spiderName: string, p: Produced)
    ensures Contains(NonRequestMessage(spiderName, p), spiderName)
    ensures Contains(NonRequestMessage(spiderName, p), TypeName(p))
  {
    var pre := "Intermediate spiders must produce Request objects or generators thereof. Spider ";
    assert NonRequestMessage(spiderName, p) == pre + spiderName + (" returned " + TypeName(p));
    ContainsItself(spiderName, pre, " returned " + TypeName(p));
    assert NonRequestMessage(spiderName, p) == (pre + spiderName + " returned ") + TypeName(p) + "";
    ContainsItself(TypeName(p), pre + spiderName + " returned ", "");
  }

  /** What one pass of the `parse` loop does with a response whose composer
      meta is `m`: fail, finish with the last stage's value, or forward the
      leading requests of an intermediate stage's output (and fail at the
      first element that is not a request). */
  datatype Plan =
    | Fails(e: Error)
    | Finish(parsed: Parsed)
    | Forward(stage: nat, es: seq<Produced>, count: nat, failure: Option<Error>)

  function PlanStep(spiders: seq<(string, string)>, m: ComposerMeta, url: string, env: Env): (p: Plan)
    ensures p.Forward? ==> p.count == LeadingRequests(p.es) && p.stage + 1 < |spiders|
    ensures p.Forward? ==> forall i :: 0 <= i < p.count ==> p.es[i].PRequest?
    ensures p.Finish? ==> Stage(m) + 1 == |spiders|
  {
    match GetCallback(m.callback, env.scope, env.load, env.attrs)
    case Err(e) => Fails(e)
    case Ok(cb) => PlanAt(spiders, Stage(m), cb, url, env)
  }

  /** A pass once the callback `cb` is resolved, at stage `index`. */
  function PlanAt(spiders: seq<(string, string)>, index: nat, cb: Option<string>, url: string, env: Env): (p: Plan)
    ensures p.Forward? ==> p.count == LeadingRequests(p.es) && p.stage + 1 < |spiders| && p.stage == index
    ensures p.Forward? ==> forall i :: 0 <= i < p.count ==> p.es[i].PRequest?
    ensures p.Finish? ==> index + 1 == |spiders|
  {
    if index >= |spiders| then Fails(IndexError)
    else
      var parsed := env.run(if cb.Some? then Resolved(cb.value) else SpiderParse(spiders[index].0), url);
      if index + 1 == |spiders| then Finish(parsed)
      else ForwardOf(index, Elements(parsed), spiders[index].1)
  }

  /** Forwarding the output `es` of the intermediate stage `index`, whose
      spider is called `name`. */
  function ForwardOf(index: nat, es: seq<Produced>, name: string): (p: Plan)
    ensures p.Forward? && p.stage == index && p.es == es && p.count == LeadingRequests(es)
  {
    var n := LeadingRequests(es);
    Forward(index, es, n, if n < |es| then Some(TypeError(NonRequestMessage(name, es[n]))) else None)
  }

  // ---------------------------------------------------------------------
  // The inline-mode run, on values

  /** What a yielded object shows: the last stage's value, or a request's
      URL, callback and composer meta. */
  datatype Out = OutParsed(parsed: Parsed) | OutRequest(url: string, callback: Callback, composer: Option<ComposerMeta>)

  function View(y: Yielded): Out
    reads if y.YieldedRequest? then {y.req} else {}
  {
    match y
    case YieldedParsed(p) => OutParsed(p)
    case YieldedRequest(r) => OutRequest(r.url, r.callback, r.composer)
  }

  function Views(ys: seq<Yielded>): (vs: seq<Out>)
    reads set i | 0 <= i < |ys| && ys[i].YieldedRequest? :: ys[i].req
    ensures |vs| == |ys| && forall i :: 0 <= i < |ys| ==> vs[i] == View(ys[i])
  {
    seq(|ys|, i requires 0 <= i < |ys| reads set j | 0 <= j < |ys| && ys[j].YieldedRequest? :: ys[j].req => View(ys[i]))
  }

  lemma ViewsAppend(a: seq<Yielded>, b: seq<Yielded>)
    ensures Views(a + b) == Views(a) + Views(b)
  {
    assert forall i :: 0 <= i < |a| ==> (a + b)[i] == a[i];
    assert forall i :: |a| <= i < |a| + |b| ==> (a + b)[i] == b[i - |a|];
  }

  /** A queued response as the loop reads it: its URL and its request's
      composer meta. */
  type Pending = (string, ComposerMeta)

  /** The requests an intermediate stage `stage` forwards from `es`: the
      leading ones, with no callback and the composer meta holding their
      callback and the next stage. */
  function ForwardOuts(es: seq<Produced>, stage: nat): (os: seq<Out>)
    ensures |os| == LeadingRequests(es)
    ensures forall i :: 0 <= i < |os| ==> os[i].OutRequest? && os[i].url == es[i].data.url && os[i].callback == NoCallback
    ensures forall i :: 0 <= i < |os| ==> os[i].composer == Some(ComposerMeta(es[i].data.callback, Some(stage + 1)))
  {
    seq(LeadingRequests(es), i requires 0 <= i < LeadingRequests(es) =>
      OutRequest(es[i].data.url, NoCallback, Some(ComposerMeta(es[i].data.callback, Some(stage + 1)))))
  }

  lemma ForwardedOuts(out: seq<Yielded>, es: seq<Produced>, count: nat, stage: nat)
    requires Forwarded(out, es, count, stage) && count == LeadingRequests(es)
    ensures Views(out) == ForwardOuts(es, stage)
  {
  }

  /** The response the framework sends back for a yielded request, if any. */
  function Answer(o: Out, fetch: string -> Option<string>): (a: seq<Pending>)
    ensures |a| <= 1
  {
    if o.OutRequest? && fetch(o.url).Some? then [(fetch(o.url).value, MetaOrEmpty(o.composer))] else []
  }

  /** The responses to `os`, in the order the requests were yielded. */
  function Answers(os: seq<Out>, fetch: string -> Option<string>): (a: seq<Pending>)
    ensures |a| <= |os|
  {
    if os == [] then [] else Answers(os[..|os| - 1], fetch) + Answer(os[|os| - 1], fetch)
  }

  lemma AnswersPrefix(os: seq<Out>, j: nat, fetch: string -> Option<string>)
    requires j < |os|
    ensures Answers(os[..j + 1], fetch) == Answers(os[..j], fetch) + Answer(os[j], fetch)
  {
    assert os[..j + 1][..j] == os[..j];
  }

  /** An inline-mode run: what is yielded, the error it ends with, and the
      queued responses it pops, in order. */
  datatype Run = Run(outs: seq<Out>, err: Option<Error>, popped: seq<Pending>)

  /** The pass `parse` makes on a pending response, with sub-spiders
      `spiders`. */
  function Planner(spiders: seq<(string, string)>, env: Env): (plan: Pending -> Plan)
    ensures forall x :: plan(x) == PlanStep(spiders, x.1, x.0, env)
  {
    (x: Pending) => PlanStep(spiders, x.1, x.0, env)
  }

  /** The inline-mode loop on a deque of pending responses: pop the newest,
      do the pass `plan` gives it, and push the answers `fetch` gives to the
      forwarded requests on the right; a failing pass or the last stage ends
      the run, whatever is still queued. At most `fuel` passes are made. */
  function InlineRun(plan: Pending -> Plan, queue: seq<Pending>, fetch: string -> Option<string>, fuel: nat): (r: Run)
    ensures |r.popped| <= fuel && (r.popped == [] <==> queue == [] || fuel == 0)
    ensures r.popped != [] ==> r.popped[0] == queue[|queue| - 1]
    ensures forall i :: 0 <= i < |r.outs| && r.outs[i].OutParsed? ==> i == |r.outs| - 1
    decreases fuel
  {
    if queue == [] || fuel == 0 then Run([], None, [])
    else
      var x := queue[|queue| - 1];
      var p := plan(x);
      if p.Fails? then Run([], Some(p.e), [x])
      else if p.Finish? then Run([OutParsed(p.parsed)], None, [x])
      else
        var fo := ForwardOuts(p.es, p.stage);
        if p.failure.Some? then Run(fo, p.failure, [x])
        else
          var next := InlineRun(plan, queue[..|queue| - 1] + Answers(fo, fetch), fetch, fuel - 1);
          assert forall i :: 0 <= i < |fo| ==> (fo + next.outs)[i] == fo[i];
          Run(fo + next.outs, next.err, [x] + next.popped)
  }

  /** The deque is popped from the right: a run starts with the newest
      pending response, and after a pass that forwards requests without
      failing, the next response handled is the answer to the last of them,
      before any older queued response. */
  lemma InlineNewestFirst(plan: Pending -> Plan, older: seq<Pending>, x: Pending, fetch: string -> Option<string>, fuel: nat)
    requires fuel >= 2
    requires var p := plan(x); p.Forward? && p.failure.None?
    requires var p := plan(x); Answers(ForwardOuts(p.es, p.stage), fetch) != []
    ensures var r := InlineRun(plan, older + [x], fetch, fuel);
      var p := plan(x);
      var a := Answers(ForwardOuts(p.es, p.stage), fetch);
      |r.popped| >= 2 && r.popped[0] == x && r.popped[1] == a[|a| - 1]
  {
    var q := older + [x];
    assert q[|q| - 1] == x && q[..|q| - 1] == older;
    var p := plan(x);
    var a := Answers(ForwardOuts(p.es, p.stage), fetch);
    var fo := ForwardOuts(p.es, p.stage);
    var q' := older + a;
    assert q' != [] && q'[|q'| - 1] == a[|a| - 1];
    var next := InlineRun(plan, q', fetch, fuel - 1);
    assert InlineRun(plan, q, fetch, fuel).popped == [x] + next.popped;
  }

  /** The last stage ends the run: its value is the only thing yielded from
      that pass on, and the older queued responses are abandoned. */
  lemma InlineFinishAbandons(plan: Pending -> Plan, older: seq<Pending>, x: Pending, fetch: string -> Option<string>, fuel: nat)
    requires fuel >= 1 && plan(x).Finish?
    ensures InlineRun(plan, older + [x], fetch, fuel) == Run([OutParsed(plan(x).parsed)], None, [x])
  {
    var q := older + [x];
    assert q[|q| - 1] == x;
  }

  /** A single response at an intermediate stage: its forwarded requests come
      first, exactly as the one-pass mode yields them. */
  lemma InlineFirstPass(plan: Pending -> Plan, x: Pending, fetch: string -> Option<string>, fuel: nat)
    requires fuel >= 1 && plan(x).Forward?
    ensures var p := plan(x);
      var r := InlineRun(plan, [x], fetch, fuel);
      |r.outs| >= |ForwardOuts(p.es, p.stage)| && r.outs[..|ForwardOuts(p.es, p.stage)|] == ForwardOuts(p.es, p.stage)
      && (p.failure.Some? ==> r == Run(ForwardOuts(p.es, p.stage), p.failure, [x]))
  {
    var p := plan(x);
    var fo := ForwardOuts(p.es, p.stage);
    var r := InlineRun(plan, [x], fetch, fuel);
    if p.failure.None? {
      var next := InlineRun(plan, [x][..0] + Answers(fo, fetch), fetch, fuel - 1);
      assert r.outs == fo + next.outs;
      assert (fo + next.outs)[..|fo|] == fo;
    }
  }

  /** A sub-spider instance: its class path and its `name`. */
  class SubSpider {
    const clspath: string
    const name: string

    constructor(clspath: string, name: string)
      ensures this.clspath == clspath && this.name == name
    {
      this.clspath := clspath;
      this.name := name;
    }
  }

  class Composer {
    const spiders: seq<SubSpider>
    const yieldRequests: bool

    constructor(spiders: seq<SubSpider>, yieldRequests: bool)
      ensures this.spiders == spiders && this.yieldRequests == yieldRequests
    {
      this.spiders := spiders;
      this.yieldRequests := yieldRequests;
    }

    /** `_is_last(i)`. */
    predicate IsLast(i: int)
    {
      i + 1 == |spiders|
    }

    /** The sub-spiders as (class path, name) pairs. */
    function Descriptions(): (d: seq<(string, string)>)
      reads spiders
      ensures |d| == |spiders|
      ensures forall i :: 0 <= i < |spiders| ==> d[i] == (spiders[i].clspath, spiders[i].name)
    {
      seq(|spiders|, i requires 0 <= i < |spiders| reads spiders => (spiders[i].clspath, spiders[i].name))
    }

    /** `start_requests`: the first sub-spider's start requests, each with its
        callback moved into the composer meta. No `next_spider` is written,
        so they are read as stage 0 (or the stage their meta already had);
        with no sub-spiders, `self._spiders[0]` is an IndexError. */
    method StartRequests(starts: string -> seq<RequestData>) returns (out: seq<Request>, err: Option<Error>)
      ensures spiders == [] ==> out == [] && err == Some(IndexError)
      ensures spiders != [] ==>
        && err == None
        && |out| == |starts(spiders[0].clspath)|
        && forall i :: 0 <= i < |out| ==>
             var d := starts(spiders[0].clspath)[i];
             && fresh(out[i]) && out[i].url == d.url && out[i].callback == NoCallback
             && out[i].composer == Some(MetaOrEmpty(d.composer).(callback := d.callback))
      ensures forall i, j :: 0 <= i < j < |out| ==> out[i] != out[j]
    {
      if spiders == [] {
        return [], Some(IndexError);
      }
      var reqs := starts(spiders[0].clspath);
      out := [];
      var i := 0;
      while i < |reqs|
        invariant i <= |reqs| && |out| == i
        invariant forall k :: 0 <= k < i ==>
          && fresh(out[k]) && out[k].url == reqs[k].url && out[k].callback == NoCallback
          && out[k].composer == Some(MetaOrEmpty(reqs[k].composer).(callback := reqs[k].callback))
        invariant forall k, l :: 0 <= k < l < i ==> out[k] != out[l]
        decreases |reqs| - i
      {
        var req := new Request(reqs[i].url, reqs[i].callback, reqs[i].composer);
        UpdateCallback(req, NoCallback);
        out := out + [req];
        i := i + 1;
      }
      err := None;
    }

    /** One pass of the `parse` loop on `res`, as `PlanStep` describes it:
        the requests an intermediate stage returns are yielded fresh, with
        their callback moved into the composer meta and `next_spider` set to
        the following stage. */
    method Step(res: Response, env: Env) returns (out: seq<Yielded>, err: Option<Error>, finished: bool)
      modifies res.request
      ensures res.request.composer == Some(MetaOrEmpty(old(res.request.composer)))
      ensures res.request.callback == old(res.request.callback)
      ensures var p := PlanStep(Descriptions(), MetaOrEmpty(old(res.request.composer)), res.url, env);
        && (p.Fails? ==> out == [] && err == Some(p.e) && !finished)
        && (p.Finish? ==> out == [YieldedParsed(p.parsed)] && err == None && finished)
        && (p.Forward? ==> !finished && err == p.failure && Forwarded(out, p.es, p.count, p.stage))
      ensures finished ==> |out| == 1 && err == None
      ensures !finished ==> forall i :: 0 <= i < |out| ==> out[i].YieldedRequest? && fresh(out[i].req)
    {
      ghost var p := PlanStep(Descriptions(), MetaOrEmpty(res.request.composer), res.url, env);
      var compmeta := GetComposerMeta(res.request);
      var index := Stage(compmeta);
      var callback := GetCallback(compmeta.callback, env.scope, env.load, env.attrs);
      if callback.Err? {
        assert p == Fails(callback.error);
        return [], Some(callback.error), false;
      }
      if index >= |spiders| {
        assert p == Fails(IndexError);
        return [], Some(IndexError), false;
      }
      assert p == PlanAt(Descriptions(), index, callback.value, res.url, env);
      var spider := spiders[index];
      var target := if callback.value.Some? then Resolved(callback.value.value) else SpiderParse(spider.clspath);
      var parsed := env.run(target, res.url);
      if IsLast(index) {
        assert p == Finish(parsed);
        return [YieldedParsed(parsed)], None, true;
      }
      var es := Elements(parsed);
      assert p == ForwardOf(index, es, spider.name);
      out, err := ForwardRequests(es, index, spider.name);
      finished := false;
    }

    /** `parse(response)`. With `yield_requests` it is one pass over the
        response; otherwise (inline mode) every forwarded request's response,
        when the framework sends one back, joins the deque, which is popped
        from the right, until it is empty, a pass fails, or the last stage
        finishes, which abandons what is still queued: the run `InlineRun`
        describes. `fuel` bounds the number of passes in inline mode. */
    method Parse(response: Response, env: Env, fuel: nat) returns (out: seq<Yielded>, err: Option<Error>)
      modifies response.request
      ensures yieldRequests ==>
        var p := PlanStep(Descriptions(), MetaOrEmpty(old(response.request.composer)), response.url, env);
        && (p.Fails? ==> out == [] && err == Some(p.e))
        && (p.Finish? ==> out == [YieldedParsed(p.parsed)] && err == None)
        && (p.Forward? ==> err == p.failure && Forwarded(out, p.es, p.count, p.stage))
      ensures !yieldRequests ==>
        var r := InlineRun(Planner(Descriptions(), env), [(response.url, MetaOrEmpty(old(response.request.composer)))], env.fetch, fuel);
        Views(out) == r.outs && err == r.err
      ensures forall i :: 0 <= i < |out| && out[i].YieldedParsed? ==> i == |out| - 1
      ensures forall i :: 0 <= i < |out| && out[i].YieldedRequest? ==> fresh(out[i].req)
    {
      if yieldRequests {
        var finished;
        out, err, finished := Step(response, env);
      } else {
        out, err := ParseInline(response, env, fuel);
      }
    }

    /** `parse(response)` in inline mode. */
    method ParseInline(response: Response, env: Env, fuel: nat) returns (out: seq<Yielded>, err: Option<Error>)
      modifies response.request
      ensures var r := InlineRun(Planner(Descriptions(), env), [(response.url, MetaOrEmpty(old(response.request.composer)))], env.fetch, fuel);
        Views(out) == r.outs && err == r.err
      ensures forall i :: 0 <= i < |out| && out[i].YieldedParsed? ==> i == |out| - 1
      ensures forall i :: 0 <= i < |out| && out[i].YieldedRequest? ==> fresh(out[i].req)
    {
      out := [];
      var queue: seq<Response> := [response];
      var left := fuel;
      ghost var d := Descriptions();
      ghost var pend: seq<Pending> := [(response.url, MetaOrEmpty(response.request.composer))];
      ghost var vout: seq<Out> := [];
      ghost var plan := Planner(d, env);
      ghost var total := InlineRun(plan, pend, env.fetch, fuel);
      while queue != [] && left > 0
        invariant forall i :: 0 <= i < |queue| ==> queue[i].request == response.request || fresh(queue[i].request)
        invariant |pend| == |queue| && forall i :: 0 <= i < |queue| ==> pend[i] == (queue[i].url, MetaOrEmpty(queue[i].request.composer))
        invariant |vout| == |out| && forall i :: 0 <= i < |out| ==> View(out[i]) == vout[i]
        invariant forall i :: 0 <= i < |out| ==> out[i].YieldedRequest?
        invariant forall i :: 0 <= i < |out| && out[i].YieldedRequest? ==> fresh(out[i].req)
        invariant forall i :: 0 <= i < |vout| ==> vout[i].OutRequest? && vout[i].composer.Some?
        invariant Resumes(plan, pend, env.fetch, left, vout, total)
        decreases left
      {
        ghost var fuelNow := left;
        left := left - 1;
        var next, more, stop, e;
        ghost var np, vmore;
        next, more, stop, e, np, vmore := Turn(queue, out, env, plan, pend, vout, fuelNow, left, total);
        forall i | 0 <= i < |more| && more[i].YieldedRequest?
          ensures fresh(more[i].req)
        {
          if i < |out| {
            assert more[i] == out[i];
          }
        }
        out, vout := more, vmore;
        if stop {
          err := e;
          ParseViews(out, vout);
          return;
        }
        queue, pend := next, np;
      }
      assert InlineRun(plan, pend, env.fetch, left) == Run([], None, []);
      err := None;
      ParseViews(out, vout);
    }

    /** One turn of the inline-mode loop, as `InlineRun` describes it: the
        pass on the newest response, its output appended to `out` (what
        `vout` shows), and, unless the run stops there, the deque after it.
        `fuel` passes are left before it and `rest` after it. */
    method Turn(queue: seq<Response>, out: seq<Yielded>, env: Env, ghost plan: Pending -> Plan, ghost pend: seq<Pending>, ghost vout: seq<Out>,
                ghost fuel: nat, ghost rest: nat, ghost total: Run)
      returns (q: seq<Response>, more: seq<Yielded>, stop: bool, err: Option<Error>, ghost np: seq<Pending>, ghost vmore: seq<Out>)
      requires queue != [] && fuel == rest + 1 && plan == Planner(Descriptions(), env)
      requires |pend| == |queue| && forall i :: 0 <= i < |queue| ==> pend[i] == (queue[i].url, MetaOrEmpty(queue[i].request.composer))
      requires |vout| == |out| && forall i :: 0 <= i < |out| ==> View(out[i]) == vout[i]
      requires forall i :: 0 <= i < |out| ==> out[i].YieldedRequest?
      requires forall i :: 0 <= i < |vout| ==> vout[i].OutRequest? && vout[i].composer.Some?
      requires Resumes(plan, pend, env.fetch, fuel, vout, total)
      modifies queue[|queue| - 1].request
      ensures |vmore| == |more| && forall i :: 0 <= i < |more| ==> View(more[i]) == vmore[i]
      ensures |out| <= |more| && forall i :: 0 <= i < |out| ==> more[i] == out[i]
      ensures forall i :: |out| <= i < |more| && more[i].YieldedRequest? ==> fresh(more[i].req)
      ensures forall i :: 0 <= i < |more| && more[i].YieldedParsed? ==> i == |more| - 1
      ensures stop ==> vmore == total.outs && err == total.err
      ensures !stop ==> forall i :: 0 <= i < |more| ==> more[i].YieldedRequest?
      ensures !stop ==> forall i :: 0 <= i < |vmore| ==> vmore[i].OutRequest? && vmore[i].composer.Some?
      ensures !stop ==> Resumes(plan, np, env.fetch, rest, vmore, total)
      ensures |np| == |q| && forall i :: 0 <= i < |q| ==> np[i] == (q[i].url, MetaOrEmpty(q[i].request.composer))
      ensures forall i :: 0 <= i < |q| ==> q[i] in queue || fresh(q[i].request)
    {
      var stepOut, stepErr, finished;
      ghost var sv;
      q, stepOut, stepErr, finished, np, sv := InlinePass(queue, out, env, plan, pend, vout);
      TurnFacts(plan, pend, env.fetch, fuel, rest, total, out, vout, stepOut, sv, stepErr, finished, np);
      AppendAt(out, stepOut);
      more, vmore := out + stepOut, vout + sv;
      stop, err := finished || stepErr.Some?, stepErr;
    }

    /** The pass on one popped response `res`: `Step`, stated as what it
        shows. The requests yielded earlier show the same afterwards, and so
        does `res`'s composer meta. */
    method PassStep(res: Response, out: seq<Yielded>, env: Env, ghost plan: Pending -> Plan, ghost vout: seq<Out>)
      returns (stepOut: seq<Yielded>, stepErr: Option<Error>, finished: bool, ghost sv: seq<Out>)
      requires plan == Planner(Descriptions(), env)
      requires |vout| == |out| && forall i :: 0 <= i < |out| ==> View(out[i]) == vout[i]
      requires forall i :: 0 <= i < |vout| ==> vout[i].OutRequest? && vout[i].composer.Some?
      modifies res.request
      ensures res.request.composer == Some(MetaOrEmpty(old(res.request.composer)))
      ensures forall i :: 0 <= i < |out| ==> View(out[i]) == vout[i]
      ensures var p := plan((res.url, MetaOrEmpty(old(res.request.composer))));
        && (p.Fails? ==> sv == [] && stepErr == Some(p.e) && !finished)
        && (p.Finish? ==> sv == [OutParsed(p.parsed)] && stepErr == None && finished)
        && (p.Forward? ==> !finished && stepErr == p.failure && sv == ForwardOuts(p.es, p.stage))
      ensures |sv| == |stepOut| && forall i :: 0 <= i < |stepOut| ==> View(stepOut[i]) == sv[i]
      ensures finished ==> |stepOut| == 1 && stepErr == None && stepOut[0].YieldedParsed?
      ensures !finished ==> forall i :: 0 <= i < |stepOut| ==> stepOut[i].YieldedRequest? && fresh(stepOut[i].req) && stepOut[i].req.composer.Some?
    {
      stepOut, stepErr, finished := Step(res, env);
      sv := Views(stepOut);
      forall i | 0 <= i < |out|
        ensures View(out[i]) == vout[i]
      {
        assert old(View(out[i])) == vout[i];
        assert out[i].YieldedRequest? && old(out[i].req.composer).Some?;
      }
      ghost var p := PlanStep(Descriptions(), MetaOrEmpty(old(res.request.composer)), res.url, env);
      if p.Forward? {
        ForwardedOuts(stepOut, p.es, p.count, p.stage);
      }
    }

    /** One turn of the inline-mode loop: pop the newest response, do its
        pass, and push the answers to its forwarded requests. `pend` and
        `vout` are what the queue and the requests yielded so far show; they
        show the same afterwards, and `np` and `sv` are what the new queue
        and this pass's output show. */
    method InlinePass(queue: seq<Response>, out: seq<Yielded>, env: Env, ghost plan: Pending -> Plan, ghost pend: seq<Pending>, ghost vout: seq<Out>)
      returns (q: seq<Response>, stepOut: seq<Yielded>, stepErr: Option<Error>, finished: bool, ghost np: seq<Pending>, ghost sv: seq<Out>)
      requires queue != [] && plan == Planner(Descriptions(), env)
      requires |pend| == |queue| && forall i :: 0 <= i < |queue| ==> pend[i] == (queue[i].url, MetaOrEmpty(queue[i].request.composer))
      requires |vout| == |out| && forall i :: 0 <= i < |out| ==> View(out[i]) == vout[i]
      requires forall i :: 0 <= i < |vout| ==> vout[i].OutRequest? && vout[i].composer.Some?
      modifies queue[|queue| - 1].request
      ensures forall i :: 0 <= i < |out| ==> View(out[i]) == vout[i]
      ensures PassShows(plan, pend, env.fetch, sv, stepErr, finished, np)
      ensures |sv| == |stepOut| && forall i :: 0 <= i < |stepOut| ==> View(stepOut[i]) == sv[i]
      ensures finished ==> |stepOut| == 1 && stepErr == None && stepOut[0].YieldedParsed?
      ensures !finished ==> forall i :: 0 <= i < |stepOut| ==> stepOut[i].YieldedRequest? && fresh(stepOut[i].req) && stepOut[i].req.composer.Some?
      ensures |np| == |q| && forall i :: 0 <= i < |q| ==> np[i] == (q[i].url, MetaOrEmpty(q[i].request.composer))
      ensures forall i :: 0 <= i < |q| ==> q[i] in queue || fresh(q[i].request)
    {
      var res := queue[|queue| - 1];
      stepOut, stepErr, finished, sv := PassStep(res, out, env, plan, vout);
      forall i | 0 <= i < |queue|
        ensures pend[i] == (queue[i].url, MetaOrEmpty(queue[i].request.composer))
      {
        assert old(MetaOrEmpty(queue[i].request.composer)) == MetaOrEmpty(queue[i].request.composer);
      }
      if finished || stepErr.Some? {
        q, np := queue, pend;
        return;
      }
      ghost var from;
      q, np, from := Push(queue, pend, stepOut, sv, env.fetch);
      forall i | 0 <= i < |q|
        ensures q[i] in queue || fresh(q[i].request)
      {
        if |queue| - 1 <= i {
          assert q[i].request == stepOut[from[i]].req;
        }
      }
    }
  }

  /** The deque after a pass: the newest response popped, the answers to
      the forwarded requests `reqs` pushed on the right; `np` is what it
      shows, and `from` says which request each new response answers. */
  method Push(queue: seq<Response>, ghost pend: seq<Pending>, reqs: seq<Yielded>, ghost sv: seq<Out>, fetch: string -> Option<string>)
    returns (q: seq<Response>, ghost np: seq<Pending>, ghost from: seq<int>)
    requires queue != []
    requires |pend| == |queue| && forall i :: 0 <= i < |queue| ==> pend[i] == (queue[i].url, MetaOrEmpty(queue[i].request.composer))
    requires |sv| == |reqs| && forall i :: 0 <= i < |reqs| ==> reqs[i].YieldedRequest? && View(reqs[i]) == sv[i]
    ensures np == pend[..|pend| - 1] + Answers(sv, fetch)
    ensures |np| == |q| && forall i :: 0 <= i < |q| ==> np[i] == (q[i].url, MetaOrEmpty(q[i].request.composer))
    ensures |q| == |from|
    ensures forall i :: 0 <= i < |q| && i < |queue| - 1 ==> q[i] == queue[i]
    ensures forall i :: |queue| - 1 <= i < |q| ==> 0 <= from[i] < |reqs| && q[i].request == reqs[from[i]].req
  {
    var rest := queue[..|queue| - 1];
    var added, pa, f := Enqueue(reqs, fetch, sv);
    q := rest + added;
    np := pend[..|pend| - 1] + pa;
    from := Repeat(0, |rest|) + f;
    assert forall i :: 0 <= i < |rest| ==> q[i] == rest[i] == queue[i] && np[i] == pend[i];
    forall i | |rest| <= i < |q|
      ensures q[i] == added[i - |rest|] && np[i] == pa[i - |rest|] && from[i] == f[i - |rest|]
    {
    }
  }

  /** What one inline-mode pass on the newest of `pend` shows: the output
      `sv` and error of its plan step, whether it finished, and, when the
      run goes on, the deque `np` with the answers pushed on the right. */
  ghost predicate PassShows(plan: Pending -> Plan, pend: seq<Pending>, fetch: string -> Option<string>, sv: seq<Out>, stepErr: Option<Error>, finished: bool, np: seq<Pending>)
    requires pend != []
  {
    var p := plan(pend[|pend| - 1]);
    && (p.Fails? ==> sv == [] && stepErr == Some(p.e) && !finished)
    && (p.Finish? ==> sv == [OutParsed(p.parsed)] && stepErr == None && finished)
    && (p.Forward? ==> !finished && stepErr == p.failure && sv == ForwardOuts(p.es, p.stage))
    && (!finished && stepErr.None? ==> np == pend[..|pend| - 1] + Answers(sv, fetch))
  }

  /** Such a pass is the first of the run: a run that stops there yields `sv`
      and ends with its error ... */
  lemma InlineStop(plan: Pending -> Plan, pend: seq<Pending>, fetch: string -> Option<string>, fuel: nat, sv: seq<Out>, stepErr: Option<Error>, finished: bool, np: seq<Pending>,
                   done: seq<Out>, total: Run)
    requires pend != [] && fuel > 0 && PassShows(plan, pend, fetch, sv, stepErr, finished, np)
    requires finished || stepErr.Some?
    requires Resumes(plan, pend, fetch, fuel, done, total)
    ensures InlineRun(plan, pend, fetch, fuel).outs == sv && InlineRun(plan, pend, fetch, fuel).err == stepErr
    ensures done + sv == total.outs && stepErr == total.err
  {
  }

  /** ... and one that goes on yields `sv` and then the run on `np`. */
  lemma InlineGo(plan: Pending -> Plan, pend: seq<Pending>, fetch: string -> Option<string>, fuel: nat, rest: nat, sv: seq<Out>, stepErr: Option<Error>, finished: bool, np: seq<Pending>,
                 done: seq<Out>, total: Run)
    requires pend != [] && fuel == rest + 1 && PassShows(plan, pend, fetch, sv, stepErr, finished, np)
    requires !finished && stepErr.None?
    requires Resumes(plan, pend, fetch, fuel, done, total)
    ensures InlineRun(plan, pend, fetch, fuel).outs == sv + InlineRun(plan, np, fetch, rest).outs
    ensures InlineRun(plan, pend, fetch, fuel).err == InlineRun(plan, np, fetch, rest).err
    ensures Resumes(plan, np, fetch, rest, done + sv, total)
  {
    assert fuel - 1 == rest;
    var p := plan(pend[|pend| - 1]);
    assert p.Forward? && sv == ForwardOuts(p.es, p.stage);
    assert pend[..|pend| - 1] + Answers(ForwardOuts(p.es, p.stage), fetch) == np;
    var next := InlineRun(plan, np, fetch, rest);
    assert InlineRun(plan, pend, fetch, fuel) == Run(sv + next.outs, next.err, [pend[|pend| - 1]] + next.popped);
    ConcatAssoc(done, sv, next.outs);
  }

  lemma ConcatAssoc<T>(a: seq<T>, b: seq<T>, c: seq<T>)
    ensures (a + b) + c == a + (b + c)
  {
  }

  /** With `done` yielded so far, the run on `pend` with `fuel` passes left
      completes the run `total`. */
  ghost predicate Resumes(plan: Pending -> Plan, pend: seq<Pending>, fetch: string -> Option<string>, fuel: nat, done: seq<Out>, total: Run)
  {
    done + InlineRun(plan, pend, fetch, fuel).outs == total.outs && InlineRun(plan, pend, fetch, fuel).err == total.err
  }

  /** What a turn of the inline-mode loop adds up to: with `out` (showing
      `vout`) yielded before the pass and `stepOut` (showing `sv`) yielded by
      it, the run either stops with everything it yields, or goes on from
      `np` with `rest` passes left. */
  lemma TurnFacts(plan: Pending -> Plan, pend: seq<Pending>, fetch: string -> Option<string>, fuel: nat, rest: nat, total: Run,
                  out: seq<Yielded>, vout: seq<Out>, stepOut: seq<Yielded>, sv: seq<Out>, stepErr: Option<Error>, finished: bool, np: seq<Pending>)
    requires pend != [] && fuel == rest + 1
    requires PassShows(plan, pend, fetch, sv, stepErr, finished, np)
    requires Resumes(plan, pend, fetch, fuel, vout, total)
    requires |vout| == |out| && forall i :: 0 <= i < |out| ==> View(out[i]) == vout[i]
    requires forall i :: 0 <= i < |out| ==> out[i].YieldedRequest?
    requires forall i :: 0 <= i < |vout| ==> vout[i].OutRequest? && vout[i].composer.Some?
    requires |sv| == |stepOut| && forall i :: 0 <= i < |stepOut| ==> View(stepOut[i]) == sv[i]
    requires finished ==> |stepOut| == 1 && stepOut[0].YieldedParsed?
    requires !finished ==> forall i :: 0 <= i < |stepOut| ==> stepOut[i].YieldedRequest?
    ensures |vout + sv| == |out + stepOut| && forall i :: 0 <= i < |out + stepOut| ==> View((out + stepOut)[i]) == (vout + sv)[i]
    ensures forall i :: 0 <= i < |out + stepOut| && (out + stepOut)[i].YieldedParsed? ==> i == |out + stepOut| - 1
    ensures finished || stepErr.Some? ==> vout + sv == total.outs && stepErr == total.err
    ensures !(finished || stepErr.Some?) ==> forall i :: 0 <= i < |out + stepOut| ==> (out + stepOut)[i].YieldedRequest?
    ensures !(finished || stepErr.Some?) ==> forall i :: 0 <= i < |vout + sv| ==> (vout + sv)[i].OutRequest? && (vout + sv)[i].composer.Some?
    ensures !(finished || stepErr.Some?) ==> Resumes(plan, np, fetch, rest, vout + sv, total)
  {
    ShowsAppend(out, vout, stepOut, sv);
    ParsedLast(out, stepOut);
    AppendAt(out, stepOut);
    AppendAt(vout, sv);
    if finished || stepErr.Some? {
      InlineStop(plan, pend, fetch, fuel, sv, stepErr, finished, np, vout, total);
    } else {
      InlineGo(plan, pend, fetch, fuel, rest, sv, stepErr, finished, np, vout, total);
    }
  }

  lemma AppendAt<T>(a: seq<T>, b: seq<T>)
    ensures forall i :: 0 <= i < |a| ==> (a + b)[i] == a[i]
    ensures forall i :: |a| <= i < |a| + |b| ==> (a + b)[i] == b[i - |a|]
  {
  }

  /** Element by element, what `prev + step` shows is `vprev + sv`. */
  lemma ShowsAppend(prev: seq<Yielded>, vprev: seq<Out>, step: seq<Yielded>, sv: seq<Out>)
    requires |vprev| == |prev| && forall i :: 0 <= i < |prev| ==> View(prev[i]) == vprev[i]
    requires |sv| == |step| && forall i :: 0 <= i < |step| ==> View(step[i]) == sv[i]
    ensures |vprev + sv| == |prev + step| && forall i :: 0 <= i < |prev + step| ==> View((prev + step)[i]) == (vprev + sv)[i]
  {
    forall i | |prev| <= i < |prev + step|
      ensures View((prev + step)[i]) == (vprev + sv)[i]
    {
      assert (prev + step)[i] == step[i - |prev|] && (vprev + sv)[i] == sv[i - |prev|];
    }
  }

  /** Requests only, then a pass whose value, if any, comes last: the value
      comes last of all. */
  lemma ParsedLast(prev: seq<Yielded>, step: seq<Yielded>)
    requires forall i :: 0 <= i < |prev| ==> prev[i].YieldedRequest?
    requires (|step| == 1 && step[0].YieldedParsed?) || forall i :: 0 <= i < |step| ==> step[i].YieldedRequest?
    ensures forall i :: 0 <= i < |prev + step| && (prev + step)[i].YieldedParsed? ==> i == |prev + step| - 1
  {
    assert forall i :: 0 <= i < |prev| ==> (prev + step)[i] == prev[i];
    assert forall i :: |prev| <= i < |prev + step| ==> (prev + step)[i] == step[i - |prev|];
  }

  /** What `out` shows, element by element, is `vout`. */
  lemma ParseViews(out: seq<Yielded>, vout: seq<Out>)
    requires |vout| == |out| && forall i :: 0 <= i < |out| ==> View(out[i]) == vout[i]
    ensures Views(out) == vout
  {
  }

  /** The first `count` elements of `es`, requests all, as forwarded to stage
      `stage + 1`: fresh, distinct, with their callback moved into the
      composer meta. */
  predicate Forwarded(out: seq<Yielded>, es: seq<Produced>, count: nat, stage: nat)
    reads set i | 0 <= i < |out| && out[i].YieldedRequest? :: out[i].req
  {
    && |out| == count <= |es|
    && (forall i :: 0 <= i < |out| ==>
          && out[i].YieldedRequest? && es[i].PRequest?
          && out[i].req.url == es[i].data.url
          && out[i].req.callback == NoCallback
          && out[i].req.composer == Some(ComposerMeta(es[i].data.callback, Some(stage + 1))))
    && (forall i, j :: 0 <= i < j < |out| ==> out[i] != out[j])
  }

  /** The loop over an intermediate stage's output: each request converted
      and yielded, until the first element that is not a request. */
  method ForwardRequests(es: seq<Produced>, index: nat, spiderName: string) returns (out: seq<Yielded>, err: Option<Error>)
    ensures Forwarded(out, es, LeadingRequests(es), index)
    ensures forall i :: 0 <= i < |out| ==> fresh(out[i].req)
    ensures err == ForwardOf(index, es, spiderName).failure
  {
    var reqs := ConvertLeading(es, index);
    out := AsYielded(reqs);
    ForwardedRequests(reqs, es, index);
    var n := |reqs|;
    err := if n < |es| then Some(TypeError(NonRequestMessage(spiderName, es[n]))) else None;
  }

  /** The requests, yielded. */
  function AsYielded(reqs: seq<Request>): (out: seq<Yielded>)
    ensures |out| == |reqs| && forall i :: 0 <= i < |reqs| ==> out[i] == YieldedRequest(reqs[i])
  {
    seq(|reqs|, k requires 0 <= k < |reqs| => YieldedRequest(reqs[k]))
  }

  lemma ForwardedRequests(reqs: seq<Request>, es: seq<Produced>, index: nat)
    requires |reqs| == LeadingRequests(es)
    requires forall k :: 0 <= k < |reqs| ==>
      && reqs[k].url == es[k].data.url && reqs[k].callback == NoCallback
      && reqs[k].composer == Some(ComposerMeta(es[k].data.callback, Some(index + 1)))
    requires forall k, l :: 0 <= k < l < |reqs| ==> reqs[k] != reqs[l]
    ensures Forwarded(AsYielded(reqs), es, |reqs|, index)
  {
    var out := AsYielded(reqs);
    forall i, j | 0 <= i < j < |out| ensures out[i] != out[j] {
      assert out[i].req == reqs[i] && out[j].req == reqs[j];
    }
  }

  /** The requests among the leading ones of `es`, each a fresh copy with its
      callback moved into the composer meta for stage `index + 1`. */
  method ConvertLeading(es: seq<Produced>, index: nat) returns (reqs: seq<Request>)
    ensures |reqs| == LeadingRequests(es)
    ensures forall k :: 0 <= k < |reqs| ==>
      && fresh(reqs[k]) && reqs[k].url == es[k].data.url && reqs[k].callback == NoCallback
      && reqs[k].composer == Some(ComposerMeta(es[k].data.callback, Some(index + 1)))
    ensures forall k, l :: 0 <= k < l < |reqs| ==> reqs[k] != reqs[l]
  {
    reqs := [];
    var i := 0;
    while i < |es| && es[i].PRequest?
      invariant i <= LeadingRequests(es) && |reqs| == i
      invariant forall k :: 0 <= k < i ==>
        && fresh(reqs[k]) && reqs[k].url == es[k].data.url && reqs[k].callback == NoCallback
        && reqs[k].composer == Some(ComposerMeta(es[k].data.callback, Some(index + 1)))
      invariant forall k, l :: 0 <= k < l < i ==> reqs[k] != reqs[l]
      decreases |es| - i
    {
      var d := es[i].data;
      var req := new Request(d.url, d.callback, d.composer);
      UpdateCallback(req, NoCallback);
      UpdateIndex(req, index);
      reqs := reqs + [req];
      i := i + 1;
    }
  }

  /** The responses the inline-mode deque gains after a pass, with `pa`
      what they show: the one the framework sends back for each forwarded
      request `sv` shows, if any, in the order the requests were yielded. */
  method Enqueue(reqs: seq<Yielded>, fetch: string -> Option<string>, ghost sv: seq<Out>)
    returns (added: seq<Response>, ghost pa: seq<Pending>, ghost from: seq<int>)
    requires |sv| == |reqs| && forall i :: 0 <= i < |reqs| ==> reqs[i].YieldedRequest? && View(reqs[i]) == sv[i]
    ensures pa == Answers(sv, fetch)
    ensures |pa| == |added| && forall i :: 0 <= i < |added| ==> pa[i] == (added[i].url, MetaOrEmpty(added[i].request.composer))
    ensures |from| == |added|
    ensures forall i :: 0 <= i < |added| ==> fresh(added[i])
    ensures forall i :: 0 <= i < |added| ==> 0 <= from[i] < |reqs| && added[i].request == reqs[from[i]].req
  {
    added, pa, from := [], [], [];
    var j := 0;
    while j < |reqs|
      invariant j <= |reqs| && |added| <= j && |from| == |added|
      invariant forall i :: 0 <= i < |added| ==> fresh(added[i])
      invariant forall i :: 0 <= i < |added| ==> 0 <= from[i] < j && added[i].request == reqs[from[i]].req
      invariant |pa| == |added| && forall i :: 0 <= i < |added| ==> pa[i] == (added[i].url, MetaOrEmpty(added[i].request.composer))
      invariant pa == Answers(sv[..j], fetch)
      decreases |reqs| - j
    {
      AnswersPrefix(sv, j, fetch);
      var a, p := Fetch(reqs[j], fetch, sv[j]);
      ghost var a0, f0, p0 := added, from, pa;
      added, from, pa := added + a, from + Repeat(j, |a|), pa + p;
      forall i | 0 <= i < |added|
        ensures added[i] == (if i < |a0| then a0[i] else a[i - |a0|])
        ensures from[i] == (if i < |a0| then f0[i] else j)
        ensures pa[i] == (if i < |a0| then p0[i] else p[i - |a0|])
      {
      }
      j := j + 1;
    }
    assert sv[..j] == sv;
  }

  /** The response the framework gives the request `y`, if any; `pa` is
      what it shows. */
  method Fetch(y: Yielded, fetch: string -> Option<string>, ghost o: Out) returns (a: seq<Response>, ghost pa: seq<Pending>)
    requires y.YieldedRequest? && View(y) == o
    ensures pa == Answer(o, fetch) && |a| == |pa|
    ensures forall i :: 0 <= i < |a| ==> fresh(a[i]) && a[i].request == y.req && pa[i] == (a[i].url, MetaOrEmpty(a[i].request.composer))
  {
    var fetched := fetch(y.req.url);
    if fetched.Some? {
      var res := new Response(fetched.value, y.req);
      a, pa := [res], [(res.url, MetaOrEmpty(res.request.composer))];
    } else {
      a, pa := [], [];
    }
  }

  /** When the framework answers every forwarded request, each gets its
      response, in order. */
  lemma {:induction false} AnswersAll(os: seq<Out>, fetch: string -> Option<string>)
    requires forall i :: 0 <= i < |os| ==> os[i].OutRequest? && fetch(os[i].url).Some?
    ensures |Answers(os, fetch)| == |os|
    ensures forall i :: 0 <= i < |os| ==> Answers(os, fetch)[i] == (fetch(os[i].url).value, MetaOrEmpty(os[i].composer))
    decreases |os|
  {
    if os != [] {
      AnswersAll(os[..|os| - 1], fetch);
    }
  }

  /** `Composer.__init__`: the slot list, then one sub-spider per slot; with
      `initialize_once` a class path met again reuses its cached instance,
      otherwise every slot gets a new one. An empty list is accepted (the
      source only logs an error). */
  method NewComposer(compdict: Dict<string, Value>, convert: string -> string, nameOf: string -> string,
                     initializeOnce: bool, yieldRequests: bool) returns (r: Result<Composer>)
    ensures BuildComponentList(compdict, convert).Err? ==> r == Err(BuildComponentList(compdict, convert).error)
    ensures BuildComponentList(compdict, convert).Ok? ==>
      && r.Ok? && fresh(r.value) && r.value.yieldRequests == yieldRequests
      && Instances(r.value.spiders, BuildComponentList(compdict, convert).value, nameOf, initializeOnce)
  {
    var built := BuildComponentList(compdict, convert);
    if built.Err? {
      return Err(built.error);
    }
    var spiders := Instantiate(built.value, nameOf, initializeOnce);
    var c := new Composer(spiders, yieldRequests);
    r := Ok(c);
  }

  /** One fresh sub-spider per slot, of the slot's class; with `initialize_once`
      one instance per class path, otherwise all distinct. */
  predicate Instances(spiders: seq<SubSpider>, splist: seq<string>, nameOf: string -> string, initializeOnce: bool)
    reads set s | s in spiders
  {
    && |spiders| == |splist|
    && (forall i :: 0 <= i < |splist| ==> spiders[i].clspath == splist[i] && spiders[i].name == nameOf(splist[i]))
    && (initializeOnce ==> forall i, j :: 0 <= i < |splist| && 0 <= j < |splist| && splist[i] == splist[j] ==> spiders[i] == spiders[j])
    && (!initializeOnce ==> forall i, j :: 0 <= i < j < |splist| ==> spiders[i] != spiders[j])
  }

  /** The instantiation loop of `Composer.__init__`, with its `spcache`. */
  method Instantiate(splist: seq<string>, nameOf: string -> string, initializeOnce: bool) returns (spiders: seq<SubSpider>)
    ensures Instances(spiders, splist, nameOf, initializeOnce)
    ensures forall i :: 0 <= i < |spiders| ==> fresh(spiders[i])
  {
    var spcache: map<string, SubSpider> := map[];
    spiders := [];
    var i := 0;
    while i < |splist|
      invariant i <= |splist| && |spiders| == i
      invariant Instances(spiders, splist[..i], nameOf, initializeOnce)
      invariant forall k :: 0 <= k < i ==> fresh(spiders[k])
      invariant forall k :: 0 <= k < i ==> splist[k] in spcache
      invariant forall p :: p in spcache ==> fresh(spcache[p]) && spcache[p].clspath == p && spcache[p].name == nameOf(p)
      invariant initializeOnce ==> forall k :: 0 <= k < i ==> spiders[k] == spcache[splist[k]]
      decreases |splist| - i
    {
      var clspath := splist[i];
      if initializeOnce && clspath in spcache {
        spiders := spiders + [spcache[clspath]];
      } else {
        var subsp := new SubSpider(clspath, nameOf(clspath));
        spcache := spcache[clspath := subsp];
        spiders := spiders + [subsp];
      }
      i := i + 1;
    }
    assert splist[..i] == splist;
  }
}
