/** The Infogreffe.fr spiders (org/fr/fr/spiders/infogreffe.py): building a
    search request, deciding from a search response whether the search was
    truncated and must be refined, collecting the company ids and batching
    them into detail requests, the company page id, and the routing of
    responses between the parsers. A JSON response is a `Value`; a URL's
    query string is the map from parameter to (first) value, and the
    urlencoding of `params` is urllib's and is not modelled. */
module Infogreffe {
  import opened Base
  import opened Values
  import opened Text
  import opened Util
  import opened Repr
  import opened Combinations
  import opened Components

  // ---------------------------------------------------------------------
  // build_request_from_params

  /** A search request: the query parameters in the order they are written,
      and what goes into `meta['query']`. */
  datatype SearchQuery = SearchQuery(params: Dict<string, string>, queried: map<string, string>)

  function Flag(b: bool): (s: string)
    ensures s == "true" || s == "false"
    ensures b <==> s == "true"
  {
    if b then "true" else "false"
  }

  /** `str(sector_id).zfill(2)`. */
  function SectorText(sectorId: int): string
  {
    ZFill(IntToStr(sectorId), 2)
  }

  function BaseParams(includeDissolved: bool, includeBranches: bool): Dict<string, string>
  {
    [("typeProduitMisEnAvant", "EXTRAIT"), ("domaine", "FR"), ("typeEntreprise", "TOUS"),
     ("surveillanceVisible", "true"), ("miseAupanierVisible", "true"),
     ("etsRadiees", Flag(includeDissolved)), ("etabSecondaire", Flag(includeBranches))]
  }

  /** The query parameters: the fixed ones, then each truthy argument. */
  function SearchParams(name: string, siretId: string, sectorId: int, location: string,
                        includeDissolved: bool, includeBranches: bool): Dict<string, string>
  {
    OptionalParams(BaseParams(includeDissolved, includeBranches), name, siretId, sectorId, location)
  }

  /** The truthy arguments set over the fixed parameters `p0`. */
  function OptionalParams(p0: Dict<string, string>, name: string, siretId: string, sectorId: int, location: string): Dict<string, string>
  {
    var p1 := PutIf(p0, "deno", name, name != "");
    var p2 := PutIf(p1, "siretOuSiret", siretId, siretId != "");
    var p3 := PutIf(p2, "familleActivite", SectorText(sectorId), sectorId != 0);
    PutIf(p3, "localisation", location, location != "")
  }

  /** `params[k] = v` under `if given`. */
  function PutIf(d: Dict<string, string>, k: string, v: string, given: bool): Dict<string, string>
  {
    if given then Put(d, k, v) else d
  }

  lemma PrefixStays<T>(a: seq<T>, b: seq<T>, c: seq<T>)
    requires |a| <= |b| <= |c| && b[..|a|] == a && c[..|b|] == b
    ensures c[..|a|] == a
  {
    assert c[..|a|] == c[..|b|][..|a|];
  }

  /** What goes into `meta['query']`: each truthy argument. */
  function Queried(name: string, siretId: string, sectorId: int, location: string): map<string, string>
  {
    var q1: map<string, string> := if name != "" then map["name" := name] else map[];
    var q2 := if siretId != "" then q1["id" := siretId] else q1;
    var q3 := if sectorId != 0 then q2["sector" := SectorText(sectorId)] else q2;
    if location != "" then q3["location" := location] else q3
  }

  /** `build_request_from_params`: a falsy argument (`""`, `0`) is left out;
      without a name and a SIRET id there is no search. */
  function BuildRequestFromParams(name: string, siretId: string, sectorId: int, location: string,
                                  includeDissolved: bool, includeBranches: bool): (r: Result<SearchQuery>)
    ensures r.Err? <==> name == "" && siretId == ""
    ensures r.Err? ==> r.error.ValueError?
    ensures r.Ok? ==> r.value == SearchQuery(SearchParams(name, siretId, sectorId, location, includeDissolved, includeBranches),
                                             Queried(name, siretId, sectorId, location))
  {
    if name == "" && siretId == "" then
      Err(ValueError("At least one of ['name', 'siret_id'] needs to be specified to generate a search request"))
    else
      Ok(SearchQuery(SearchParams(name, siretId, sectorId, location, includeDissolved, includeBranches),
                     Queried(name, siretId, sectorId, location)))
  }

  lemma SectorTextPadded(sectorId: int)
    ensures 0 <= sectorId < 10 ==> SectorText(sectorId) == ['0', DigitChar(sectorId)]
    ensures sectorId >= 10 ==> SectorText(sectorId) == NatToStr(sectorId)
    ensures |SectorText(sectorId)| >= 2
  {
    if sectorId < 0 {
      assert |IntToStr(sectorId)| >= 2;
    } else if sectorId < 10 {
      assert IntToStr(sectorId) == [DigitChar(sectorId)];
      assert Repeat('0', 1) == ['0'];
    } else {
      assert |NatToStr(sectorId)| >= 2 by {
        assert NatToStr(sectorId) == NatToStr(sectorId / 10) + [DigitChar(sectorId % 10)];
      }
    }
  }

  lemma BaseParamsShape(includeDissolved: bool, includeBranches: bool)
    ensures DistinctKeys(BaseParams(includeDissolved, includeBranches))
    ensures forall k :: k in {"deno", "siretOuSiret", "familleActivite", "localisation"} ==>
      !HasKey(BaseParams(includeDissolved, includeBranches), k)
    ensures var p0 := BaseParams(includeDissolved, includeBranches);
      Get(p0, "deno").None? && Get(p0, "siretOuSiret").None? && Get(p0, "familleActivite").None? && Get(p0, "localisation").None?
  {
  }

  /** Setting an optional parameter that is not there yet appends it. */
  lemma PutIfShape(d: Dict<string, string>, k: string, v: string, given: bool)
    requires DistinctKeys(d) && Get(d, k).None?
    ensures DistinctKeys(PutIf(d, k, v, given))
    ensures |PutIf(d, k, v, given)| >= |d| && PutIf(d, k, v, given)[..|d|] == d
  {
    if given {
      PutKeepsDistinct(d, k, v);
    }
  }

  /** Setting an optional parameter changes that parameter alone. */
  lemma GetPutIf(d: Dict<string, string>, k: string, v: string, given: bool, o: string)
    ensures Get(PutIf(d, k, v, given), o) == if given && o == k then Some(v) else Get(d, o)
  {
    if given {
      GetPut(d, k, v, o);
    }
  }

  /** The optional parameters come after the fixed ones, and no key is
      written twice. */
  lemma OptionalParamsPrefix(p0: Dict<string, string>, name: string, siretId: string, sectorId: int, location: string)
    requires DistinctKeys(p0)
    requires Get(p0, "deno").None? && Get(p0, "siretOuSiret").None?
    requires Get(p0, "familleActivite").None? && Get(p0, "localisation").None?
    ensures var p := OptionalParams(p0, name, siretId, sectorId, location);
      |p| >= |p0| && p[..|p0|] == p0 && DistinctKeys(p)
  {
    var p1 := PutIf(p0, "deno", name, name != "");
    var p2 := PutIf(p1, "siretOuSiret", siretId, siretId != "");
    var p3 := PutIf(p2, "familleActivite", SectorText(sectorId), sectorId != 0);
    var p4 := PutIf(p3, "localisation", location, location != "");
    PutIfShape(p0, "deno", name, name != "");
    GetPutIf(p0, "deno", name, name != "", "siretOuSiret");
    PutIfShape(p1, "siretOuSiret", siretId, siretId != "");
    GetPutIf(p0, "deno", name, name != "", "familleActivite");
    GetPutIf(p1, "siretOuSiret", siretId, siretId != "", "familleActivite");
    PutIfShape(p2, "familleActivite", SectorText(sectorId), sectorId != 0);
    GetPutIf(p0, "deno", name, name != "", "localisation");
    GetPutIf(p1, "siretOuSiret", siretId, siretId != "", "localisation");
    GetPutIf(p2, "familleActivite", SectorText(sectorId), sectorId != 0, "localisation");
    PutIfShape(p3, "localisation", location, location != "");
    PrefixStays(p0, p1, p2);
    PrefixStays(p0, p2, p3);
    PrefixStays(p0, p3, p4);
  }

  /** Each given argument lands under its own parameter. */
  lemma OptionalParamsSpec(p0: Dict<string, string>, name: string, siretId: string, sectorId: int, location: string)
    requires Get(p0, "deno").None? && Get(p0, "siretOuSiret").None?
    requires Get(p0, "familleActivite").None? && Get(p0, "localisation").None?
    ensures var p := OptionalParams(p0, name, siretId, sectorId, location);
      && (Get(p, "deno") == if name != "" then Some(name) else None)
      && (Get(p, "siretOuSiret") == if siretId != "" then Some(siretId) else None)
      && (Get(p, "familleActivite") == if sectorId != 0 then Some(SectorText(sectorId)) else None)
      && (Get(p, "localisation") == if location != "" then Some(location) else None)
  {
    var p1 := PutIf(p0, "deno", name, name != "");
    var p2 := PutIf(p1, "siretOuSiret", siretId, siretId != "");
    var p3 := PutIf(p2, "familleActivite", SectorText(sectorId), sectorId != 0);
    var p4 := PutIf(p3, "localisation", location, location != "");
    assert Get(p4, "deno") == if name != "" then Some(name) else None by {
      GetPutIf(p0, "deno", name, name != "", "deno");
      GetPutIf(p1, "siretOuSiret", siretId, siretId != "", "deno");
      GetPutIf(p2, "familleActivite", SectorText(sectorId), sectorId != 0, "deno");
      GetPutIf(p3, "localisation", location, location != "", "deno");
    }
    assert Get(p4, "siretOuSiret") == if siretId != "" then Some(siretId) else None by {
      GetPutIf(p0, "deno", name, name != "", "siretOuSiret");
      GetPutIf(p1, "siretOuSiret", siretId, siretId != "", "siretOuSiret");
      GetPutIf(p2, "familleActivite", SectorText(sectorId), sectorId != 0, "siretOuSiret");
      GetPutIf(p3, "localisation", location, location != "", "siretOuSiret");
    }
    assert Get(p4, "familleActivite") == if sectorId != 0 then Some(SectorText(sectorId)) else None by {
      GetPutIf(p0, "deno", name, name != "", "familleActivite");
      GetPutIf(p1, "siretOuSiret", siretId, siretId != "", "familleActivite");
      GetPutIf(p2, "familleActivite", SectorText(sectorId), sectorId != 0, "familleActivite");
      GetPutIf(p3, "localisation", location, location != "", "familleActivite");
    }
    assert Get(p4, "localisation") == if location != "" then Some(location) else None by {
      GetPutIf(p0, "deno", name, name != "", "localisation");
      GetPutIf(p1, "siretOuSiret", siretId, siretId != "", "localisation");
      GetPutIf(p2, "familleActivite", SectorText(sectorId), sectorId != 0, "localisation");
      GetPutIf(p3, "localisation", location, location != "", "localisation");
    }
  }

  /** The parameters `build_request_from_params` writes: the fixed ones and
      the two flags as "true"/"false" first; each given argument as its
      parameter, the sector zero-padded; no key twice. */
  lemma SearchParamsSpec(name: string, siretId: string, sectorId: int, location: string,
                         includeDissolved: bool, includeBranches: bool)
    ensures var p := SearchParams(name, siretId, sectorId, location, includeDissolved, includeBranches);
      && |p| >= 7 && p[..7] == BaseParams(includeDissolved, includeBranches)
      && p[5] == ("etsRadiees", if includeDissolved then "true" else "false")
      && p[6] == ("etabSecondaire", if includeBranches then "true" else "false")
      && DistinctKeys(p)
      && (Get(p, "deno") == if name != "" then Some(name) else None)
      && (Get(p, "siretOuSiret") == if siretId != "" then Some(siretId) else None)
      && (Get(p, "familleActivite") == if sectorId != 0 then Some(SectorText(sectorId)) else None)
      && (Get(p, "localisation") == if location != "" then Some(location) else None)
  {
    var p0 := BaseParams(includeDissolved, includeBranches);
    BaseParamsShape(includeDissolved, includeBranches);
    OptionalParamsPrefix(p0, name, siretId, sectorId, location);
    OptionalParamsSpec(p0, name, siretId, sectorId, location);
    var p := OptionalParams(p0, name, siretId, sectorId, location);
    assert |p0| == 7 && p[..7] == p0;
    assert p[5] == p0[5] && p[6] == p0[6];
  }

  /** The `meta['query']` entries: a name and a sector exactly when given. */
  lemma QueriedSpec(name: string, siretId: string, sectorId: int, location: string)
    ensures var q := Queried(name, siretId, sectorId, location);
      && ("name" in q <==> name != "") && (name != "" ==> q["name"] == name)
      && ("id" in q <==> siretId != "") && (siretId != "" ==> q["id"] == siretId)
      && ("sector" in q <==> sectorId != 0) && (sectorId != 0 ==> q["sector"] == SectorText(sectorId))
      && ("location" in q <==> location != "") && (location != "" ==> q["location"] == location)
      && q.Keys <= {"name", "id", "sector", "location"}
  {
  }

  // ---------------------------------------------------------------------
  // Search results

  /** `len(v)`, a TypeError for a value that has none. */
  function Len(v: Value): (r: Result<nat>)
    ensures r.Ok? <==> v.VStr? || v.VList? || v.VDict?
    ensures v.VList? ==> r == Ok(|v.items|)
  {
    match Iter(v)
    case Some(vs) => Ok(|vs|)
    case None => Err(TypeError("object of type '" + PyTypeName(v) + "' has no len()"))
  }

  /** `results_total(result)`: `nbTotalResultats`, or 0. */
  function ResultsTotal(result: Value): (r: Result<Value>)
    ensures r.Ok? <==> result.VDict?
    ensures r.Ok? && !Truthy(Field(result.entries, "nbTotalResultats")) ==> r.value == VInt(0)
  {
    if !result.VDict? then Err(AttributeError("get"))
    else Ok(Or(Field(result.entries, "nbTotalResultats"), VInt(0)))
  }

  /** `results_limit(result)`: how many items the store returned. */
  function ResultsLimit(result: Value): (r: Result<nat>)
    ensures result.VDict? && !Truthy(Field(result.entries, "items")) ==> r == Ok(0)
    ensures !result.VDict? ==> r.Err?
  {
    if !result.VDict? then Err(AttributeError("get"))
    else Len(Or(Field(result.entries, "items"), VList([])))
  }

  /** `is_result_limited(result)`: `True` when fewer items came back than
      the store reports in total, and `None` (here `false`) otherwise. A
      store that is not a dict has no `get`; a total that is not a number
      cannot be compared. */
  function IsResultLimited(result: Value): Result<bool>
  {
    if !result.VDict? then Err(AttributeError("get"))
    else
      var count := Or(Field(result.entries, "nbTotalResultats"), VInt(0));
      var items := Len(Or(Field(result.entries, "items"), VList([])));
      if items.Err? then Err(items.error)
      else if RealOf(count).None? then
        Err(TypeError("'<' not supported between instances of 'int' and '" + PyTypeName(count) + "'"))
      else Ok((items.value as real) < RealOf(count).value)
  }

  /** The truncation test is `results_limit < results_total`, missing fields
      reading as 0 and no items. */
  lemma IsResultLimitedSpec(result: Value)
    ensures IsResultLimited(result).Ok? ==>
      && ResultsTotal(result).Ok? && ResultsLimit(result).Ok? && RealOf(ResultsTotal(result).value).Some?
      && (IsResultLimited(result).value <==> (ResultsLimit(result).value as real) < RealOf(ResultsTotal(result).value).value)
    ensures result.VDict? && ResultsTotal(result).Ok? && RealOf(ResultsTotal(result).value).Some? && ResultsLimit(result).Ok? ==>
      IsResultLimited(result).Ok?
    ensures (&& result.VDict? && !HasKey(result.entries, "nbTotalResultats")
             && (Field(result.entries, "items").VList? || !HasKey(result.entries, "items"))) ==>
      IsResultLimited(result) == Ok(false)
  {
    if result.VDict? && !HasKey(result.entries, "nbTotalResultats") {
      assert Or(Field(result.entries, "nbTotalResultats"), VInt(0)) == VInt(0);
    }
  }

  /** A store with `nbTotalResultats` = `total` and a list of `items`. */
  lemma IsResultLimitedCounts(entries: Dict<string, Value>, total: int, items: seq<Value>)
    requires Get(entries, "nbTotalResultats") == Some(VInt(total))
    requires Get(entries, "items") == Some(VList(items))
    ensures IsResultLimited(VDict(entries)) == Ok(|items| < total)
  {
    if total == 0 {
      assert Or(VInt(total), VInt(0)) == VInt(0);
    }
    if items == [] {
      assert Or(VList(items), VList([])) == VList([]);
    }
  }

  /** `d.get('id')` for each item, `None` for a dict without one. */
  function IdsOf(items: seq<Value>): (r: seq<Value>)
    requires forall i :: 0 <= i < |items| ==> items[i].VDict?
    ensures |r| == |items|
    ensures forall i :: 0 <= i < |items| ==> r[i] == Field(items[i].entries, "id")
  {
    seq(|items|, i requires 0 <= i < |items| => Field(items[i].entries, "id"))
  }

  /** `lfilter(None, map(lambda d: d.get('id'), items))`: an item that is not
      a dict has no `get`. */
  function ItemIds(items: seq<Value>): (r: Result<seq<Value>>)
    ensures r.Ok? <==> forall i :: 0 <= i < |items| ==> items[i].VDict?
    ensures r.Ok? ==> r.value == Truthies(IdsOf(items))
    ensures r.Err? ==> r.error == AttributeError("get")
  {
    if items == [] then Ok([])
    else if !items[0].VDict? then Err(AttributeError("get"))
    else
      var rest := ItemIds(items[1..]);
      assert forall i :: 1 <= i < |items| ==> items[i] == items[1..][i - 1];
      if rest.Err? then rest
      else
        assert IdsOf(items) == [IdsOf(items)[0]] + IdsOf(items[1..]);
        Ok((if Truthy(Field(items[0].entries, "id")) then [Field(items[0].entries, "id")] else []) + rest.value)
  }

  /** `parse_results(result)`: nothing for a falsy result, the request
      error for an unsuccessful one, otherwise the truthy ids of its items. */
  function ParseResults(result: Value): Result<seq<Value>>
  {
    if !Truthy(result) then Ok([])
    else if !result.VDict? then Err(AttributeError("get"))
    else if !Truthy(Field(result.entries, "success")) then Err(SearchRequestError)
    else
      var items := Or(Field(result.entries, "items"), VList([]));
      if Iter(items).None? then Err(TypeError("'" + PyTypeName(items) + "' object is not iterable"))
      else ItemIds(Iter(items).value)
  }

  lemma ParseResultsSpec(result: Value)
    ensures !Truthy(result) ==> ParseResults(result) == Ok([])
    ensures Truthy(result) && result.VDict? && !Truthy(Field(result.entries, "success")) ==>
      ParseResults(result) == Err(SearchRequestError)
    ensures ParseResults(result).Ok? ==> forall v :: v in ParseResults(result).value ==> Truthy(v)
    ensures (&& result.VDict? && Truthy(result) && Truthy(Field(result.entries, "success"))
             && Field(result.entries, "items").VList?
             && forall i :: 0 <= i < |Field(result.entries, "items").items| ==> Field(result.entries, "items").items[i].VDict?) ==>
      ParseResults(result) == Ok(Truthies(IdsOf(Field(result.entries, "items").items)))
  {
    if result.VDict? && Field(result.entries, "items").VList? && !Truthy(Field(result.entries, "items")) {
      assert Field(result.entries, "items") == VList([]);
    }
  }

  // ---------------------------------------------------------------------
  // map_results

  /** The three stores of a search response, in their fixed order. */
  const StoreNames: seq<(string, string)> :=
    [("entrepRCSStoreResponse", "registered"), ("entrepHorsRCSStoreResponse", "nonregistered"),
     ("entrepMultiStoreResponse", "other")]

  /** The included (response key, store name) pairs among the first `i`
      stores, in order. */
  function IncludedPrefix(options: seq<bool>, i: nat): (r: seq<(string, string)>)
    requires |options| == |StoreNames| && i <= |StoreNames|
    ensures forall x :: x in r ==> x in StoreNames[..i]
  {
    if i == 0 then []
    else
      var r := IncludedPrefix(options, i - 1);
      assert forall x :: x in StoreNames[..i - 1] ==> x in StoreNames[..i];
      r + (if options[i - 1] then [StoreNames[i - 1]] else [])
  }

  /** The included (response key, store name) pairs, in order. */
  function IncludedStores(registered: bool, nonregistered: bool, other: bool): (r: seq<(string, string)>)
  {
    IncludedPrefix([registered, nonregistered, other], 3)
  }

  /** Each store is included exactly when its option is set, and the
      included ones keep the fixed order. */
  lemma IncludedStoresSpec(registered: bool, nonregistered: bool, other: bool)
    ensures IncludedStores(registered, nonregistered, other)
      == (if registered then [StoreNames[0]] else [])
       + (if nonregistered then [StoreNames[1]] else [])
       + (if other then [StoreNames[2]] else [])
    ensures var r := IncludedStores(registered, nonregistered, other);
      forall i, j :: 0 <= i < j < |r| ==> r[i].1 != r[j].1
  {
    var options := [registered, nonregistered, other];
    assert IncludedPrefix(options, 1) == if registered then [StoreNames[0]] else [];
    assert IncludedPrefix(options, 2) == IncludedPrefix(options, 1) + if nonregistered then [StoreNames[1]] else [];
  }

  /** The `res_stores` dict: each included store's name bound to
      `response.get(key)`. */
  function Stores(response: Dict<string, Value>, opts: seq<(string, string)>): (r: Dict<string, Value>)
    ensures |r| == |opts|
    ensures forall i :: 0 <= i < |opts| ==> r[i] == (opts[i].1, Field(response, opts[i].0))
  {
    seq(|opts|, i requires 0 <= i < |opts| => (opts[i].1, Field(response, opts[i].0)))
  }

  lemma StoresSnoc(response: Dict<string, Value>, opts: seq<(string, string)>, x: (string, string))
    ensures Stores(response, opts + [x]) == Stores(response, opts) + [(x.1, Field(response, x.0))]
  {
  }

  /** With every store included, the result has exactly the keys
      `registered`, `nonregistered`, `other`, in that order. */
  lemma AllStores(response: Dict<string, Value>)
    ensures Keys(Stores(response, IncludedStores(true, true, true))) == ["registered", "nonregistered", "other"]
    ensures Keys(Stores(response, IncludedStores(true, false, true))) == ["registered", "other"]
  {
    IncludedStoresSpec(true, true, true);
    IncludedStoresSpec(true, false, true);
  }

  /** The loop of `map_results` that fills `res_stores`; no store is
      written twice. */
  method MapStores(response: Dict<string, Value>, registered: bool, nonregistered: bool, other: bool)
    returns (stores: Dict<string, Value>)
    ensures stores == Stores(response, IncludedStores(registered, nonregistered, other))
    ensures DistinctKeys(stores)
  {
    var options := [registered, nonregistered, other];
    stores := [];
    var i := 0;
    while i < 3
      invariant i <= 3
      invariant stores == Stores(response, IncludedPrefix(options, i))
      decreases 3 - i
    {
      ghost var pre := IncludedPrefix(options, i);
      assert IncludedPrefix(options, i + 1) == pre + (if options[i] then [StoreNames[i]] else []);
      if options[i] {
        assert !HasKey(stores, StoreNames[i].1) by {
          forall j | 0 <= j < |stores| ensures stores[j].0 != StoreNames[i].1 {
            assert pre[j] in StoreNames[..i];
          }
        }
        stores := Put(stores, StoreNames[i].1, Field(response, StoreNames[i].0));
        StoresSnoc(response, pre, StoreNames[i]);
      } else {
        assert pre + [] == pre;
      }
      i := i + 1;
    }
    IncludedStoresSpec(registered, nonregistered, other);
  }

  /** `map_dict_val(task, res_stores)` for a task that may raise: the first
      store, in order, whose task raises decides the error. */
  function ApplyTask<T>(f: Value -> Result<T>, stores: Dict<string, Value>): (r: Result<Dict<string, T>>)
    ensures r.Ok? <==> forall i :: 0 <= i < |stores| ==> f(stores[i].1).Ok?
    ensures r.Ok? ==> |r.value| == |stores| && forall i :: 0 <= i < |stores| ==> r.value[i] == (stores[i].0, f(stores[i].1).value)
    ensures r.Err? ==> exists i :: 0 <= i < |stores| && f(stores[i].1) == Err(r.error) && forall j :: 0 <= j < i ==> f(stores[j].1).Ok?
  {
    if stores == [] then Ok([])
    else
      var head := f(stores[0].1);
      var rest := ApplyTask(f, stores[1..]);
      assert forall i :: 1 <= i < |stores| ==> stores[i] == stores[1..][i - 1];
      if head.Err? then Err(head.error)
      else if rest.Err? then
        assert exists i :: 1 <= i < |stores| && f(stores[i].1) == Err(rest.error) && forall j :: 0 <= j < i ==> f(stores[j].1).Ok? by {
          var i :| 0 <= i < |stores[1..]| && f(stores[1..][i].1) == Err(rest.error) && forall j :: 0 <= j < i ==> f(stores[1..][j].1).Ok?;
          assert f(stores[i + 1].1) == Err(rest.error);
          assert forall j :: 1 <= j < i + 1 ==> f(stores[j].1).Ok?;
        }
        Err(rest.error)
      else Ok([(stores[0].0, head.value)] + rest.value)
  }

  /** `any(d.values())`. */
  predicate AnyTrue(d: Dict<string, bool>)
  {
    exists i :: 0 <= i < |d| && d[i].1
  }

  // ---------------------------------------------------------------------
  // build_detail_requests

  /** The batches of ids the detail requests carry: groups of `n`, the
      padding dropped. */
  function DetailBatches(n: int, ids: seq<Value>): (r: seq<seq<Value>>)
    ensures |r| == |Grouper(n, ids, VNone)|
    ensures forall i :: 0 <= i < |r| ==> r[i] == Truthies(Grouper(n, ids, VNone)[i])
  {
    var groups := Grouper(n, ids, VNone);
    seq(|groups|, i requires 0 <= i < |groups| => Truthies(groups[i]))
  }

  lemma {:induction false} TruthiesNone(n: nat)
    ensures Truthies(Repeat(VNone, n)) == []
  {
    if n > 0 {
      assert Repeat(VNone, n)[1..] == Repeat(VNone, n - 1);
      TruthiesNone(n - 1);
    }
  }

  /** For truthy ids the batches, read in order, are the ids themselves;
      each holds at most `n` of them and every batch but the last exactly
      `n`. */
  lemma {:induction false} DetailBatchesSpec(n: int, ids: seq<Value>)
    requires n > 0
    requires forall v :: v in ids ==> Truthy(v)
    ensures Flatten(DetailBatches(n, ids)) == ids
    ensures forall i :: 0 <= i < |DetailBatches(n, ids)| ==> 0 < |DetailBatches(n, ids)[i]| <= n
    ensures forall i :: 0 <= i < |DetailBatches(n, ids)| - 1 ==> |DetailBatches(n, ids)[i]| == n
    decreases |ids|
  {
    var r := DetailBatches(n, ids);
    if ids == [] {
    } else if |ids| >= n {
      var rest := ids[n..];
      assert forall v :: v in rest ==> v in ids;
      DetailBatchesSpec(n, rest);
      DetailBatchesCons(n, ids);
      assert ids == ids[..n] + rest;
    } else {
      DetailBatchesShort(n, ids);
    }
  }

  lemma DetailBatchesCons(n: int, ids: seq<Value>)
    requires 0 < n <= |ids|
    requires forall v :: v in ids ==> Truthy(v)
    ensures DetailBatches(n, ids) == [ids[..n]] + DetailBatches(n, ids[n..])
  {
    var r := DetailBatches(n, ids);
    assert Grouper(n, ids, VNone) == [ids[..n]] + Grouper(n, ids[n..], VNone);
    assert forall v :: v in ids[..n] ==> v in ids;
    TruthiesAll(ids[..n]);
    assert r[0] == ids[..n];
    assert r[1..] == DetailBatches(n, ids[n..]);
  }

  lemma DetailBatchesShort(n: int, ids: seq<Value>)
    requires 0 < |ids| < n
    requires forall v :: v in ids ==> Truthy(v)
    ensures DetailBatches(n, ids) == [ids]
  {
    TruthiesAppend(ids, Repeat(VNone, n - |ids|));
    TruthiesNone(n - |ids|);
    TruthiesAll(ids);
    assert Grouper(n, ids, VNone) == [ids + Repeat(VNone, n - |ids|)];
    assert Truthies(ids + Repeat(VNone, n - |ids|)) == ids;
    assert DetailBatches(n, ids)[0] == ids;
  }

  /** The loop of `build_detail_requests` over the batches. */
  method BuildDetailBatches(n: int, ids: seq<Value>) returns (batches: seq<seq<Value>>)
    ensures batches == DetailBatches(n, ids)
  {
    var groups := Grouper(n, ids, VNone);
    batches := [];
    var i := 0;
    while i < |groups|
      invariant i <= |groups| && batches == DetailBatches(n, ids)[..i]
      decreases |groups| - i
    {
      batches := batches + [Truthies(groups[i])];
      i := i + 1;
    }
  }

  /** The body of a detail request: `",".join(map2str(ids))`, where
      `map2str(ids)` is `[str(ids)]`, so the list's repr, spaces removed. */
  function DetailBody(batch: seq<Value>, floatText: real -> string): (body: string)
    ensures ' ' !in body
  {
    Without(Join(",", [StrOf(VList(batch), floatText)]), ' ')
  }

  lemma {:induction false} WithoutConcat(a: string, b: string, c: char)
    ensures Without(a + b, c) == Without(a, c) + Without(b, c)
  {
    if a == [] {
      assert a + b == b;
    } else {
      assert (a + b)[0] == a[0] && (a + b)[1..] == a[1..] + b;
      WithoutConcat(a[1..], b, c);
    }
  }

  function IntTexts(ids: seq<int>): (r: seq<string>)
    ensures |r| == |ids|
    ensures forall i :: 0 <= i < |ids| ==> r[i] == IntToStr(ids[i])
  {
    seq(|ids|, i requires 0 <= i < |ids| => IntToStr(ids[i]))
  }

  function IntValues(ids: seq<int>): (r: seq<Value>)
    ensures |r| == |ids|
    ensures forall i :: 0 <= i < |ids| ==> r[i] == VInt(ids[i])
  {
    seq(|ids|, i requires 0 <= i < |ids| => VInt(ids[i]))
  }

  lemma {:induction false} JoinIntsWithout(ids: seq<int>, floatText: real -> string)
    ensures Without(Join(", ", Reprs(IntValues(ids), floatText)), ' ') == Join(",", IntTexts(ids))
    decreases |ids|
  {
    if ids == [] {
    } else {
      var vs := IntValues(ids);
      var t := IntToStr(ids[0]);
      WithoutAbsent(t, ' ');
      assert Reprs(vs, floatText)[0] == t;
      assert vs[1..] == IntValues(ids[1..]);
      assert Reprs(vs, floatText)[1..] == Reprs(IntValues(ids[1..]), floatText);
      assert IntTexts(ids)[1..] == IntTexts(ids[1..]);
      if |ids| == 1 {
      } else {
        JoinIntsWithout(ids[1..], floatText);
        var tail := Join(", ", Reprs(IntValues(ids[1..]), floatText));
        assert Join(", ", Reprs(vs, floatText)) == t + ", " + tail;
        WithoutConcat(t + ", ", tail, ' ');
        WithoutConcat(t, ", ", ' ');
        assert Without(", ", ' ') == ",";
      }
    }
  }

  /** For integer ids the body is `[id1,id2,...]`: the ids comma-joined
      inside the list brackets. */
  lemma DetailBodyOfInts(ids: seq<int>, floatText: real -> string)
    ensures DetailBody(IntValues(ids), floatText) == "[" + Join(",", IntTexts(ids)) + "]"
  {
    var inner := Join(", ", Reprs(IntValues(ids), floatText));
    assert StrOf(VList(IntValues(ids)), floatText) == "[" + inner + "]";
    WithoutConcat("[" + inner, "]", ' ');
    WithoutConcat("[", inner, ' ');
    JoinIntsWithout(ids, floatText);
  }

  // ---------------------------------------------------------------------
  // SearchParserSpider.parse

  /** A refined search request: its query, and its `meta['query']`. */
  datatype SearchRequest = SearchRequest(query: map<string, string>, queried: map<string, string>)

  /** What `parse` returns: refined searches, or the id batches of the
      detail requests. */
  datatype Outcome = Refine(requests: seq<SearchRequest>) | Details(batches: seq<seq<Value>>)

  /** `build_search_requests`: `meta['query']['name']` set to the new term. */
  function SearchRequests(qs: seq<map<string, string>>, queried: map<string, string>, param: string): (r: seq<SearchRequest>)
    requires forall q :: q in qs ==> param in q
    ensures |r| == |qs|
    ensures forall i :: 0 <= i < |qs| ==> r[i] == SearchRequest(qs[i], queried["name" := qs[i][param]])
  {
    seq(|qs|, i requires 0 <= i < |qs| => SearchRequest(qs[i], queried["name" := qs[i][param]]))
  }

  /** The log lines of `parse` read `meta['query']['name']` and
      `meta['query']['sector']`. */
  function LoggedQuery(queried: Option<map<string, string>>): (e: Option<Error>)
    ensures e.None? <==> queried.Some? && "name" in queried.value && "sector" in queried.value
  {
    if queried.None? then Some(KeyError("query"))
    else if "name" !in queried.value then Some(KeyError("name"))
    else if "sector" !in queried.value then Some(KeyError("sector"))
    else None
  }

  /** The ids of all stores, store by store. */
  function AllIds(groups: Dict<string, seq<Value>>): (r: seq<Value>)
    ensures forall v :: v in r ==> exists i :: 0 <= i < |groups| && v in groups[i].1
  {
    if groups == [] then []
    else
      var rest := AllIds(groups[1..]);
      assert forall v :: v in rest ==> exists i :: 1 <= i < |groups| && v in groups[i].1 by {
        forall v | v in rest ensures exists i :: 1 <= i < |groups| && v in groups[i].1 {
          var i :| 0 <= i < |groups[1..]| && v in groups[1..][i].1;
          assert v in groups[i + 1].1;
        }
      }
      groups[0].1 + rest
  }

  /** `parse(response)` on the decoded JSON `json`, the URL query `query`
      and `meta['query']`, given the candidates `cands` the resolver
      generates for the current term. */
  function ParseSpec(json: Dict<string, Value>, query: map<string, string>, queried: Option<map<string, string>>,
                     param: string, batchSize: int, cands: seq<string>): Result<Outcome>
  {
    var stores := Stores(json, IncludedStores(true, true, true));
    var limited := ApplyTask(IsResultLimited, stores);
    if limited.Err? then Err(limited.error)
    else if AnyTrue(limited.value) then
      if LoggedQuery(queried).Some? then Err(LoggedQuery(queried).value)
      else if param !in query then Err(KeyError(param))
      else Ok(Refine(SearchRequests(Rewrites(query, param, cands), queried.value, param)))
    else DetailOutcome(stores, queried, batchSize)
  }

  /** The untruncated branch of `parse`: the ids of every store, batched. */
  function DetailOutcome(stores: Dict<string, Value>, queried: Option<map<string, string>>, batchSize: int): Result<Outcome>
  {
    var groups := ApplyTask(ParseResults, stores);
    if groups.Err? then Err(groups.error)
    else if LoggedQuery(queried).Some? then Err(LoggedQuery(queried).value)
    else Ok(Details(DetailBatches(batchSize, AllIds(groups.value))))
  }

  /** `SearchParserSpider`: a name resolver over `deno` and the detail
      batch size. */
  class SearchParser {
    const resolver: NameResolver
    const maxBatchSize: int

    /** `__init__(max_batch_size)`: a truthy size replaces the default 500. */
    constructor(resolver: NameResolver, maxBatchSize: int)
      ensures this.resolver == resolver
      ensures this.maxBatchSize == if maxBatchSize != 0 then maxBatchSize else 500
    {
      this.resolver := resolver;
      this.maxBatchSize := if maxBatchSize != 0 then maxBatchSize else 500;
    }

    /** A search response: refined requests when any store was truncated
        (generating candidates raises `min_length` on the resolver), the
        detail batches otherwise. */
    method Parse(json: Dict<string, Value>, query: map<string, string>, queried: Option<map<string, string>>, fuel: nat)
      returns (r: Result<Outcome>)
      modifies resolver.combinations
      ensures var param := resolver.queryParam;
        r == ParseSpec(json, query, queried, param, maxBatchSize,
                       if param in query then Combinations.Generate(resolver.combinations.Settings(), query[param], fuel) else [])
      ensures resolver.combinations.Settings() == old(resolver.combinations.Settings())
        || (&& resolver.queryParam in query
            && resolver.combinations.Settings() == old(resolver.combinations.Settings()).(minLength :=
                 Max(old(resolver.combinations.minLength), |query[resolver.queryParam]| + 1)))
    {
      var stores := MapStores(json, true, true, true);
      var limited := ApplyTask(IsResultLimited, stores);
      if limited.Err? {
        return Err(limited.error);
      }
      if AnyTrue(limited.value) {
        var logged := LoggedQuery(queried);
        if logged.Some? {
          return Err(logged.value);
        }
        var qs := resolver.ResolveResultLimit(query, fuel);
        if qs.Err? {
          return Err(qs.error);
        }
        var reqs := BuildSearchRequests(qs.value, queried.value, resolver.queryParam);
        return Ok(Refine(reqs));
      }
      var groups := ApplyTask(ParseResults, stores);
      if groups.Err? {
        return Err(groups.error);
      }
      var logged := LoggedQuery(queried);
      if logged.Some? {
        return Err(logged.value);
      }
      var batches := BuildDetailBatches(maxBatchSize, AllIds(groups.value));
      r := Ok(Details(batches));
    }
  }

  /** The loop of `build_search_requests`. */
  method BuildSearchRequests(qs: seq<map<string, string>>, queried: map<string, string>, param: string)
    returns (reqs: seq<SearchRequest>)
    requires forall q :: q in qs ==> param in q
    ensures reqs == SearchRequests(qs, queried, param)
  {
    reqs := [];
    var i := 0;
    while i < |qs|
      invariant i <= |qs| && reqs == SearchRequests(qs, queried, param)[..i]
      decreases |qs| - i
    {
      reqs := reqs + [SearchRequest(qs[i], queried["name" := qs[i][param]])];
      i := i + 1;
    }
  }

  /** A truncated search is refined: each request's query differs from the
      response's only at the name parameter, carries a new term that is
      never the old one, and records that term as `meta['query']['name']`. */
  lemma RefineSpec(json: Dict<string, Value>, query: map<string, string>, queried: Option<map<string, string>>,
                   param: string, batchSize: int, cands: seq<string>)
    requires ParseSpec(json, query, queried, param, batchSize, cands).Ok?
    requires ParseSpec(json, query, queried, param, batchSize, cands).value.Refine?
    ensures param in query && queried.Some?
    ensures forall r :: r in ParseSpec(json, query, queried, param, batchSize, cands).value.requests ==>
      && r.query.Keys == query.Keys
      && r.query[param] != query[param] && r.query[param] in cands
      && (forall k :: k in query && k != param ==> r.query[k] == query[k])
      && r.queried == queried.value["name" := r.query[param]]
  {
    var rs := Rewrites(query, param, cands);
    var reqs := SearchRequests(rs, queried.value, param);
    forall r | r in reqs
      ensures r.query in rs && r.queried == queried.value["name" := r.query[param]]
    {
      var i :| 0 <= i < |reqs| && reqs[i] == r;
    }
  }

  /** When no store was truncated, the detail batches carry every id the
      stores returned, in store order, at most `batchSize` per batch. */
  lemma DetailsSpec(json: Dict<string, Value>, query: map<string, string>, queried: Option<map<string, string>>,
                    param: string, batchSize: int, cands: seq<string>)
    requires batchSize > 0
    requires ParseSpec(json, query, queried, param, batchSize, cands).Ok?
    requires ParseSpec(json, query, queried, param, batchSize, cands).value.Details?
    ensures var stores := Stores(json, IncludedStores(true, true, true));
      var groups := ApplyTask(ParseResults, stores);
      var batches := ParseSpec(json, query, queried, param, batchSize, cands).value.batches;
      && groups.Ok? && Flatten(batches) == AllIds(groups.value)
      && forall b :: b in batches ==> 0 < |b| <= batchSize
  {
    var stores := Stores(json, IncludedStores(true, true, true));
    assert ParseSpec(json, query, queried, param, batchSize, cands) == DetailOutcome(stores, queried, batchSize);
    DetailOutcomeSpec(stores, queried, batchSize);
  }

  lemma DetailOutcomeSpec(stores: Dict<string, Value>, queried: Option<map<string, string>>, batchSize: int)
    requires batchSize > 0
    requires DetailOutcome(stores, queried, batchSize).Ok?
    ensures var groups := ApplyTask(ParseResults, stores);
      var batches := DetailOutcome(stores, queried, batchSize).value.batches;
      && groups.Ok? && Flatten(batches) == AllIds(groups.value)
      && forall b :: b in batches ==> 0 < |b| <= batchSize
  {
    var groups := ApplyTask(ParseResults, stores);
    forall v | v in AllIds(groups.value) ensures Truthy(v) {
      var i :| 0 <= i < |groups.value| && v in groups.value[i].1;
      ParseResultsSpec(stores[i].1);
    }
    DetailBatchesSpec(batchSize, AllIds(groups.value));
  }

  /** Every store is looked at: a response missing one of them fails. */
  lemma MissingStoreFails(json: Dict<string, Value>, query: map<string, string>, queried: Option<map<string, string>>,
                          param: string, batchSize: int, cands: seq<string>)
    requires !HasKey(json, "entrepRCSStoreResponse")
    ensures ParseSpec(json, query, queried, param, batchSize, cands) == Err(AttributeError("get"))
  {
    var stores := Stores(json, IncludedStores(true, true, true));
    assert stores[0].1 == VNone;
  }

  /** The requests the search generator builds carry the `meta['query']`
      entries `parse` logs, as long as a sector is given. */
  lemma GeneratedQueryIsLogged(name: string, sectorId: int)
    requires name != "" && sectorId != 0
    ensures BuildRequestFromParams(name, "", sectorId, "", false, false).Ok?
    ensures LoggedQuery(Some(BuildRequestFromParams(name, "", sectorId, "", false, false).value.queried)).None?
  {
    QueriedSpec(name, "", sectorId, "");
  }

  // ---------------------------------------------------------------------
  // DetailsSpider.build_url_id

  /** `re.sub('\W', ' ', name).replace(' ', '-')`: every character that is
      not a word character becomes `-`. */
  function Slug(s: string): (r: string)
    ensures |r| == |s|
    ensures forall i :: 0 <= i < |s| ==> r[i] == if IsWordChar(s[i]) then s[i] else '-'
  {
    seq(|s|, i requires 0 <= i < |s| => if IsWordChar(s[i]) then s[i] else '-')
  }

  /** `build_url_id(data)`. A missing key lands in the `except KeyError`
      branch, which names the module `traceback` that is never imported;
      a `libelleEntreprise` that is not a dict cannot be subscripted and a
      denomination that is not a string has no `lower`. */
  function BuildUrlId(data: Dict<string, Value>, floatText: real -> string): Result<string>
  {
    if !HasKey(data, "id") || !HasKey(data, "libelleEntreprise") then Err(NameError("traceback"))
    else
      var libelle := Field(data, "libelleEntreprise");
      if !libelle.VDict? then Err(TypeError("'" + PyTypeName(libelle) + "' object is not subscriptable"))
      else if !HasKey(libelle.entries, "denomination") then Err(NameError("traceback"))
      else
        var denomination := Field(libelle.entries, "denomination");
        if !denomination.VStr? then Err(AttributeError("lower"))
        else if !HasKey(data, "numeroDossier") || !HasKey(data, "etablissementChrono") then Err(NameError("traceback"))
        else Ok(StrOf(Field(data, "id"), floatText) + "-" + Slug(Lower(denomination.s)) + "-"
                + StrOf(Field(data, "numeroDossier"), floatText) + StrOf(Field(data, "etablissementChrono"), floatText))
  }

  /** The page id is `{id}-{name}-{numeroDossier}{etablissementChrono}`
      when every field is a string and the name sits under
      `libelleEntreprise.denomination`. */
  lemma BuildUrlIdSpec(data: Dict<string, Value>, id: string, libelle: Dict<string, Value>, denomination: string,
                       dossier: string, chrono: string, floatText: real -> string)
    requires Get(data, "id") == Some(VStr(id))
    requires Get(data, "libelleEntreprise") == Some(VDict(libelle))
    requires Get(libelle, "denomination") == Some(VStr(denomination))
    requires Get(data, "numeroDossier") == Some(VStr(dossier))
    requires Get(data, "etablissementChrono") == Some(VStr(chrono))
    ensures BuildUrlId(data, floatText) == Ok(id + "-" + Slug(Lower(denomination)) + "-" + dossier + chrono)
  {
  }

  /** The name part of the page id holds lower-case word characters and
      `-` only. */
  lemma SlugLower(denomination: string)
    ensures forall c :: c in Slug(Lower(denomination)) ==> c == '-' || (IsWordChar(c) && !('A' <= c <= 'Z'))
  {
    var lowered := Lower(denomination);
    forall c | c in Slug(lowered) ensures c == '-' || (IsWordChar(c) && !('A' <= c <= 'Z')) {
      var i :| 0 <= i < |lowered| && Slug(lowered)[i] == c;
      assert lowered[i] == LowerChar(denomination[i]);
    }
  }

  /** Any of the four fields missing ends in the `except KeyError` branch,
      whose handler itself fails with a NameError. */
  lemma BuildUrlIdMissing(data: Dict<string, Value>, floatText: real -> string)
    requires HasKey(data, "libelleEntreprise") ==> Field(data, "libelleEntreprise").VDict?
    requires Field(data, "libelleEntreprise").VDict? ==> HasKey(Field(data, "libelleEntreprise").entries, "denomination")
    requires Field(data, "libelleEntreprise").VDict? ==> Field(Field(data, "libelleEntreprise").entries, "denomination").VStr?
    requires !HasKey(data, "id") || !HasKey(data, "numeroDossier") || !HasKey(data, "etablissementChrono")
    ensures BuildUrlId(data, floatText) == Err(NameError("traceback"))
  {
  }

  /** `build_url_id` as its handler intends it: a missing key is logged and
      gives the empty id. Only a malformed (not missing) field still fails. */
  function BuildUrlIdLogged(data: Dict<string, Value>, floatText: real -> string): (r: Result<string>)
    ensures r.Err? ==> r.error.TypeError? || r.error.AttributeError?
    ensures BuildUrlId(data, floatText).Ok? ==> r == BuildUrlId(data, floatText)
    ensures BuildUrlId(data, floatText) == Err(NameError("traceback")) <==> r == Ok("")
  {
    if !HasKey(data, "id") || !HasKey(data, "libelleEntreprise") then Ok("")
    else
      var libelle := Field(data, "libelleEntreprise");
      if !libelle.VDict? then Err(TypeError("'" + PyTypeName(libelle) + "' object is not subscriptable"))
      else if !HasKey(libelle.entries, "denomination") then Ok("")
      else
        var denomination := Field(libelle.entries, "denomination");
        if !denomination.VStr? then Err(AttributeError("lower"))
        else if !HasKey(data, "numeroDossier") || !HasKey(data, "etablissementChrono") then Ok("")
        else Ok(StrOf(Field(data, "id"), floatText) + "-" + Slug(Lower(denomination.s)) + "-"
                + StrOf(Field(data, "numeroDossier"), floatText) + StrOf(Field(data, "etablissementChrono"), floatText))
  }

  // ---------------------------------------------------------------------
  // InfogreffeSpider.parse

  const Host: string := "https://www.infogreffe.fr"
  const Api: string := "/services/entreprise/rest"
  const SearchEndpoint: string := "/recherche/parEntreprise"
  const DetailEndpoint: string := "/recherche/resumeEntreprise/"
  const DetailQuery: string := "?typeRecherche=ENTREP_RCS_ACTIF"

  /** The search URL `build_request_from_params` fills in with a query string. */
  function SearchUrl(qs: string): string
  {
    Host + Api + SearchEndpoint + "?params&" + qs
  }

  /** The URL of every detail request. */
  const DetailUrl: string := Host + Api + DetailEndpoint + DetailQuery

  /** `re.compile('infogreffe.(?:fr|com)/services/entreprise/rest' + endpoint)`
      matching at position `i`: the `.` matches any character but a newline. */
  predicate ApiAt(url: string, i: nat, endpoint: string)
  {
    && i + 11 <= |url| && url[i..i + 10] == "infogreffe" && url[i + 10] != '\n'
    && (StartsWith(url[i + 11..], "fr" + Api + endpoint) || StartsWith(url[i + 11..], "com" + Api + endpoint))
  }

  /** `pattern.search(url)`. */
  predicate Matches(url: string, endpoint: string)
  {
    exists i :: 0 <= i <= |url| && ApiAt(url, i, endpoint)
  }

  /** The parser a response goes to. */
  datatype Route = ToSearchParser | ToDetailParser | PassThrough

  function RouteOf(url: string): (r: Route)
    ensures r == ToSearchParser <==> Matches(url, SearchEndpoint)
    ensures r == ToDetailParser <==> !Matches(url, SearchEndpoint) && Matches(url, DetailEndpoint)
  {
    if Matches(url, SearchEndpoint) then ToSearchParser
    else if Matches(url, DetailEndpoint) then ToDetailParser
    else PassThrough
  }

  /** `InfogreffeSpider.parse` on a response the model does not parse
      further: echoed through `resolve_output([response])`. */
  function Dispatch(url: string): (r: seq<string>)
    requires RouteOf(url) == PassThrough
    ensures r == [url]
  {
    ComposableParse(url)
  }

  lemma MatchesAtHost(qs: string, endpoint: string)
    ensures Matches(Host + Api + endpoint + qs, endpoint)
  {
    var u := Host + Api + endpoint + qs;
    assert u[12..22] == "infogreffe";
    assert u[23..] == "fr" + Api + endpoint + qs;
    assert StartsWith(u[23..], "fr" + Api + endpoint);
    assert ApiAt(u, 12, endpoint);
  }

  lemma SearchNeedsA(url: string)
    requires Matches(url, SearchEndpoint)
    ensures 'a' in url
  {
    var i :| 0 <= i <= |url| && ApiAt(url, i, SearchEndpoint);
    var rest := url[i + 11..];
    if StartsWith(rest, "fr" + Api + SearchEndpoint) {
      assert rest[39] == ("fr" + Api + SearchEndpoint)[39] == 'a';
      assert url[i + 11 + 39] == 'a';
    } else {
      assert rest[40] == ("com" + Api + SearchEndpoint)[40] == 'a';
      assert url[i + 11 + 40] == 'a';
    }
  }

  /** Every search URL the spiders build goes to the search parser. */
  lemma SearchUrlRoutes(qs: string)
    ensures RouteOf(SearchUrl(qs)) == ToSearchParser
  {
    assert SearchUrl(qs) == Host + Api + SearchEndpoint + ("?params&" + qs);
    MatchesAtHost("?params&" + qs, SearchEndpoint);
  }

  /** The detail URL goes to the detail parser: it has no lower-case `a`,
      which the search pattern needs. */
  lemma DetailUrlRoutes()
    ensures RouteOf(DetailUrl) == ToDetailParser
  {
    MatchesAtHost(DetailQuery, DetailEndpoint);
    assert 'a' !in DetailUrl by {
      assert 'a' !in Host;
      assert 'a' !in Api;
      assert 'a' !in DetailEndpoint;
      assert 'a' !in DetailQuery;
    }
    if Matches(DetailUrl, SearchEndpoint) {
      SearchNeedsA(DetailUrl);
    }
  }

  /** The `.` of the pattern matches any character but a newline, so `infogreffe-com`
      is routed as well. */
  lemma DotMatchesAny()
    ensures RouteOf("infogreffe-com" + Api + SearchEndpoint) == ToSearchParser
  {
    var u := "infogreffe-com" + Api + SearchEndpoint;
    assert u[0..10] == "infogreffe";
    assert u[11..] == "com" + Api + SearchEndpoint;
    assert ApiAt(u, 0, SearchEndpoint);
  }
}
