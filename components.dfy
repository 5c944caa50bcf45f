/** The spider mixins of common/common/common/components.py: the settings
    object behind `StringCombinationsMixin`, the result-limit resolver that
    refines a too-broad search by lengthening its name parameter, and the
    composable-spider output hooks. A URL's query string is modelled as the
    map from parameter name to its (first) value; packing it back into a URL
    is urllib's business and is not modelled. */
module Components {
  import opened Base
  import opened Text
  import opened Combinations
  import opened Http

  /** The `valid_chars` default of `StringCombinationsMixin.StringCombinations`. */
  const DefaultChars: string := "abcdefghijklmnopqrstuvwxyz0123456789"

  /** The settings a fresh `StringCombinations()` object holds. */
  const Defaults: Config := Config(None, "", "", DefaultChars, [], 1)

  /** The keyword arguments of `StringCombinationsMixin.__init__`. A falsy
      argument (`None`, `''`, `[]`, `0`) has the same effect as leaving it
      out, so each is represented by its falsy value of the right type. */
  datatype Overrides = Overrides(
    start: string,
    end: string,
    pattern: Option<string -> bool>,
    validChars: string,
    variants: seq<(string, seq<string>)>,
    minLength: int)

  /** The settings after `__init__`: each truthy argument replaces its default. */
  function Configured(o: Overrides): Config
  {
    Config(
      if o.pattern.Some? then o.pattern else Defaults.pattern,
      if o.start != "" then o.start else Defaults.start,
      if o.end != "" then o.end else Defaults.end,
      if o.validChars != "" then o.validChars else Defaults.validChars,
      if o.variants != [] then o.variants else Defaults.variants,
      if o.minLength != 0 then o.minLength else Defaults.minLength)
  }

  /** A falsy argument leaves the default in place: with `min_length=0` and
      `start=''` the settings keep `min_length` 1 and no start. */
  lemma FalsyKeepsDefaults(o: Overrides)
    requires o.minLength == 0 && o.start == "" && o.validChars == ""
    ensures Configured(o).minLength == 1
    ensures Configured(o).start == ""
    ensures Configured(o).validChars == DefaultChars && |DefaultChars| == 36
  {
  }

  /** A truthy argument always wins over the default. */
  lemma TruthyOverrides(o: Overrides)
    ensures o.minLength != 0 ==> Configured(o).minLength == o.minLength
    ensures o.start != "" ==> Configured(o).start == o.start
    ensures o.end != "" ==> Configured(o).end == o.end
    ensures o.validChars != "" ==> Configured(o).validChars == o.validChars
    ensures o.variants != [] ==> Configured(o).variants == o.variants
    ensures o.pattern.Some? ==> Configured(o).pattern == o.pattern
  {
  }

  /** `StringCombinationsMixin.StringCombinations`: the mutable settings
      object handed to `string_combinations`. */
  class CombinationSettings {
    var start: string
    var end: string
    var pattern: Option<string -> bool>
    var validChars: string
    var variants: seq<(string, seq<string>)>
    var minLength: int

    /** The fields as a `string_combinations` configuration. */
    function Settings(): Config
      reads this
    {
      Config(pattern, start, end, validChars, variants, minLength)
    }

    constructor()
      ensures Settings() == Defaults
    {
      start := "";
      end := "";
      pattern := None;
      validChars := DefaultChars;
      variants := [];
      minLength := 1;
    }

    /** `generate(seed)`: `string_combinations` on the current settings. */
    method Generate(seed: string, fuel: nat) returns (out: seq<string>)
      ensures out == Combinations.Generate(Settings(), seed, fuel)
      ensures forall x :: x in out ==> StartsWith(x, seed) && |x| >= minLength
    {
      out := StringCombinations(Settings(), seed, fuel);
      GenerateSound(Settings(), seed, fuel);
    }
  }

  /** `StringCombinationsMixin.__init__`: a fresh settings object, then each
      truthy argument assigned over its default. */
  method NewCombinationSettings(o: Overrides) returns (sc: CombinationSettings)
    ensures fresh(sc)
    ensures sc.Settings() == Configured(o)
  {
    sc := new CombinationSettings();
    if o.start != "" {
      sc.start := o.start;
    }
    if o.end != "" {
      sc.end := o.end;
    }
    if o.pattern.Some? {
      sc.pattern := o.pattern;
    }
    if o.validChars != "" {
      sc.validChars := o.validChars;
    }
    if o.variants != [] {
      sc.variants := o.variants;
    }
    if o.minLength != 0 {
      sc.minLength := o.minLength;
    }
  }

  /** The `query_param` `LimitedResultsByQueryNameResolverMixin.__init__`
      settles on: the keyword argument when given, else the class attribute,
      and a TypeError when neither is set. */
  function InitQueryParam(keyword: Option<string>, classAttr: Option<string>): (r: Result<string>)
  {
    if keyword.Some? then Ok(keyword.value)
    else if classAttr.Some? then Ok(classAttr.value)
    else Err(TypeError("LimitedResultsByQueryNameResolverMixin is missing keyword argument 'query_param' "))
  }

  lemma InitQueryParamRules(keyword: Option<string>, classAttr: Option<string>)
    ensures InitQueryParam(keyword, classAttr).Err? <==> keyword.None? && classAttr.None?
    ensures InitQueryParam(keyword, classAttr).Err? ==> InitQueryParam(keyword, classAttr).error.TypeError?
    ensures keyword.Some? ==> InitQueryParam(keyword, classAttr) == Ok(keyword.value)
    ensures keyword.None? && classAttr.Some? ==> InitQueryParam(keyword, classAttr) == Ok(classAttr.value)
  {
  }

  /** The queries `resolve_result_limit` yields for candidate terms `cands`:
      the map with `param` set to each candidate, skipping the old term. */
  function Rewrites(q: map<string, string>, param: string, cands: seq<string>): (rs: seq<map<string, string>>)
    requires param in q
    ensures |rs| <= |cands|
    ensures forall r :: r in rs ==> r.Keys == q.Keys && r[param] != q[param] && r[param] in cands
    ensures forall r, k :: r in rs && k in q && k != param ==> r[k] == q[k]
    ensures forall c :: c in cands && c != q[param] ==> q[param := c] in rs
  {
    if cands == [] then []
    else
      var rest := Rewrites(q, param, cands[1..]);
      assert forall c :: c in cands[1..] ==> c in cands;
      assert forall c :: c in cands ==> c == cands[0] || c in cands[1..];
      if cands[0] == q[param] then rest else [q[param := cands[0]]] + rest
  }

  /** A spider mixing in `LimitedResultsByQueryNameResolverMixin`. */
  class NameResolver {
    const queryParam: string
    const combinations: CombinationSettings

    constructor(queryParam: string, combinations: CombinationSettings)
      ensures this.queryParam == queryParam && this.combinations == combinations
    {
      this.queryParam := queryParam;
      this.combinations := combinations;
    }

    /** `get_new_queries(query)`: raises `min_length` to one more than the
        current term's length (never lowering it) and generates candidates
        seeded with the current term. A missing term is `None`, whose `len`
        raises TypeError before anything changes. */
    method GetNewQueries(query: map<string, string>, fuel: nat) returns (r: Result<seq<string>>)
      modifies combinations
      ensures queryParam !in query ==> r.Err? && r.error.TypeError? && unchanged(combinations)
      ensures queryParam in query ==>
        && combinations.Settings() == old(combinations.Settings()).(minLength := Max(old(combinations.minLength), |query[queryParam]| + 1))
        && r == Ok(Combinations.Generate(combinations.Settings(), query[queryParam], fuel))
      ensures combinations.minLength >= old(combinations.minLength)
      ensures r.Ok? ==> forall x :: x in r.value ==> StartsWith(x, query[queryParam]) && |x| > |query[queryParam]|
    {
      if queryParam !in query {
        return Err(TypeError("object of type 'NoneType' has no len()"));
      }
      var oldQuery := query[queryParam];
      combinations.minLength := Max(combinations.minLength, |oldQuery| + 1);
      assert combinations.Settings() == old(combinations.Settings()).(minLength := Max(old(combinations.minLength), |oldQuery| + 1));
      var cands := combinations.Generate(oldQuery, fuel);
      assert forall x :: x in cands ==> |x| > |oldQuery|;
      r := Ok(cands);
    }

    /** `resolve_result_limit` on a URL whose query is `q`: `q[query_param]`
        raises KeyError when the parameter is absent; otherwise one query per
        new candidate, equal to `q` except at `query_param`. */
    method ResolveResultLimit(q: map<string, string>, fuel: nat) returns (r: Result<seq<map<string, string>>>)
      modifies combinations
      ensures queryParam !in q ==> r == Err(KeyError(queryParam)) && unchanged(combinations)
      ensures queryParam in q ==>
        && combinations.Settings() == old(combinations.Settings()).(minLength := Max(old(combinations.minLength), |q[queryParam]| + 1))
        && r == Ok(Rewrites(q, queryParam, Combinations.Generate(combinations.Settings(), q[queryParam], fuel)))
    {
      if queryParam !in q {
        return Err(KeyError(queryParam));
      }
      var found := GetNewQueries(q, fuel);
      var out := RewriteAll(q, queryParam, found.value);
      r := Ok(out);
    }
  }

  /** The loop of `resolve_result_limit` over the candidates. */
  method RewriteAll(q: map<string, string>, param: string, cands: seq<string>) returns (out: seq<map<string, string>>)
    requires param in q
    ensures out == Rewrites(q, param, cands)
  {
    var oldQuery := q[param];
    out := [];
    var i := 0;
    while i < |cands|
      invariant i <= |cands|
      invariant out + Rewrites(q, param, cands[i..]) == Rewrites(q, param, cands)
      decreases |cands| - i
    {
      assert cands[i..][1..] == cands[i + 1..];
      if cands[i] != oldQuery {
        out := out + [q[param := cands[i]]];
      }
      i := i + 1;
    }
    assert cands[i..] == [];
  }

  function Max(a: int, b: int): int
  {
    if a >= b then a else b
  }

  /** `LimitedResultsByQueryNameResolverMixin.__init__` together with the
      `StringCombinationsMixin.__init__` it calls first. */
  method NewNameResolver(keyword: Option<string>, classAttr: Option<string>, o: Overrides) returns (r: Result<NameResolver>)
    ensures InitQueryParam(keyword, classAttr).Err? ==> r == Err(InitQueryParam(keyword, classAttr).error)
    ensures InitQueryParam(keyword, classAttr).Ok? ==>
      && r.Ok? && fresh(r.value) && fresh(r.value.combinations)
      && r.value.queryParam == InitQueryParam(keyword, classAttr).value
      && r.value.combinations.Settings() == Configured(o)
  {
    var sc := NewCombinationSettings(o);
    var param := InitQueryParam(keyword, classAttr);
    if param.Err? {
      return Err(param.error);
    }
    ghost var cfg := sc.Settings();
    var resolver := new NameResolver(param.value, sc);
    assert resolver.combinations.Settings() == cfg;
    r := Ok(resolver);
  }

  /** `ComposableSpiderMixin.parse`: the response alone, unchanged, passed
      through the default `resolve_output` (`iter`). */
  function ComposableParse<T>(response: T): (out: seq<T>)
    ensures |out| == 1 && out[0] == response
  {
    [response]
  }

  /** `SCSpider2SpiderMixin.resolve_output`: the same requests in the same
      order, each with `meta['spiderid']` set to `next_spider`. */
  method ResolveOutput(requests: seq<Request>, nextSpider: string) returns (out: seq<Request>)
    modifies set r | r in requests
    ensures out == requests
    ensures forall r :: r in requests ==> r.spiderid == Some(nextSpider)
    ensures forall r :: r in requests ==> r.callback == old(r.callback) && r.composer == old(r.composer)
  {
    var i := 0;
    while i < |requests|
      invariant i <= |requests|
      invariant forall j :: 0 <= j < i ==> requests[j].spiderid == Some(nextSpider)
      invariant forall r :: r in requests ==> r.callback == old(r.callback) && r.composer == old(r.composer)
      decreases |requests| - i
    {
      requests[i].spiderid := Some(nextSpider);
      i := i + 1;
    }
    out := requests;
  }
}
