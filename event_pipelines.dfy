/** The item pipelines of event/event/pipelines.py that work on any item:
    stripping and whitespace normalisation of string values, removal of
    tracking parameters from URLs, the guess of an event's type from its
    name or description, and the source/identifier metadata. Each pipeline
    changes the item in place and hands the same item on. */
module EventPipelines {
  import opened Base
  import opened Text
  import opened Values
  import Repr
  import EventUtil

  // ---------------------------------------------------------------------
  // Rewriting every string value

  /** `f` applied to a value that is a string; any other value is kept. */
  function Apply(f: string -> string, v: Value): (r: Value)
    ensures v.VStr? ==> r == VStr(f(v.s))
    ensures !v.VStr? ==> r == v
  {
    if v.VStr? then VStr(f(v.s)) else v
  }

  /** The fields after `for k in item: if isinstance(item[k], str): item[k] = f(item[k])`. */
  function MapStrings(d: Dict<string, Value>, f: string -> string): (r: Dict<string, Value>)
    ensures Keys(r) == Keys(d)
  {
    seq(|d|, i requires 0 <= i < |d| => (d[i].0, Apply(f, d[i].1)))
  }

  /** Looking a key up after the rewrite gives the rewritten value of what
      was there: strings are rewritten, other values and absent keys stay. */
  lemma {:induction false} GetMapStrings(d: Dict<string, Value>, f: string -> string, k: string)
    ensures Get(MapStrings(d, f), k) == if Get(d, k).Some? then Some(Apply(f, Get(d, k).value)) else None
    decreases |d|
  {
    if d != [] {
      var r := MapStrings(d, f);
      assert r[0] == (d[0].0, Apply(f, d[0].1));
      assert r[1..] == MapStrings(d[1..], f);
      GetMapStrings(d[1..], f, k);
    }
  }

  /** The shared loop of the string-rewriting pipelines. */
  method UpdateStrings(item: Item, f: string -> string)
    modifies item
    ensures item.fields == MapStrings(old(item.fields), f)
  {
    ghost var d := item.fields;
    var i := 0;
    while i < |item.fields|
      invariant |item.fields| == |d| && i <= |d|
      invariant forall j :: 0 <= j < i ==> item.fields[j] == (d[j].0, Apply(f, d[j].1))
      invariant forall j :: i <= j < |d| ==> item.fields[j] == d[j]
      decreases |d| - i
    {
      var (k, v) := item.fields[i];
      if v.VStr? {
        item.fields := item.fields[i := (k, VStr(f(v.s)))];
      }
      i := i + 1;
    }
    assert item.fields == MapStrings(d, f);
  }

  // ---------------------------------------------------------------------
  // StripperPipeline

  /** `StripperPipeline.process_item`. */
  method StripperPipeline(item: Item) returns (out: Item)
    modifies item
    ensures out == item
    ensures item.fields == MapStrings(old(item.fields), Strip)
  {
    UpdateStrings(item, Strip);
    out := item;
  }

  /** Stripping twice is stripping once, and values that are not strings
      are left as they were. */
  lemma StripperIdempotent(d: Dict<string, Value>)
    ensures MapStrings(MapStrings(d, Strip), Strip) == MapStrings(d, Strip)
    ensures forall i :: 0 <= i < |d| && !d[i].1.VStr? ==> MapStrings(d, Strip)[i] == d[i]
  {
    var once := MapStrings(d, Strip);
    forall i | 0 <= i < |d|
      ensures MapStrings(once, Strip)[i] == once[i]
    {
      if d[i].1.VStr? {
        StripIdempotent(d[i].1.s);
      }
    }
  }

  // ---------------------------------------------------------------------
  // WhitespaceNormalizerPipeline

  /** `re.sub(r'\n|\r', ' ', s)`. */
  function Unbreak(s: string): (r: string)
    ensures |r| == |s|
    ensures '\n' !in r && '\r' !in r
    ensures forall i :: 0 <= i < |s| && s[i] != '\n' && s[i] != '\r' ==> r[i] == s[i]
    ensures forall i :: 0 <= i < |s| && (s[i] == '\n' || s[i] == '\r') ==> r[i] == ' '
  {
    seq(|s|, i requires 0 <= i < |s| => if s[i] == '\n' || s[i] == '\r' then ' ' else s[i])
  }

  /** The rewrite of one string value: strip, then line breaks become spaces. */
  function NormalizeSpace(s: string): string
  {
    Unbreak(Strip(s))
  }

  /** `WhitespaceNormalizerPipeline.process_item`. */
  method WhitespaceNormalizerPipeline(item: Item) returns (out: Item)
    modifies item
    ensures out == item
    ensures item.fields == MapStrings(old(item.fields), NormalizeSpace)
  {
    UpdateStrings(item, NormalizeSpace);
    out := item;
  }

  /** No string value holds a line break after normalisation, and each
      keeps the length of its stripped form. */
  lemma NormalizedHasNoBreaks(d: Dict<string, Value>)
    ensures forall i :: 0 <= i < |d| && d[i].1.VStr? ==>
      var v := MapStrings(d, NormalizeSpace)[i].1;
      v.VStr? && '\n' !in v.s && '\r' !in v.s && |v.s| == |Strip(d[i].1.s)|
  {
  }

  // ---------------------------------------------------------------------
  // UrlCleanerPipeline

  /** The query parameters kept by the inner loop of
      `UrlCleanerPipeline.process_item`: those whose name does not start
      with `utm`, in their order. */
  function CleanQuery(q: Dict<string, string>): (r: Dict<string, string>)
    ensures |r| <= |q|
    decreases |q|
  {
    if q == [] then []
    else
      var front := CleanQuery(q[..|q| - 1]);
      var p := q[|q| - 1];
      if StartsWith(p.0, "utm") then front else front + [p]
  }

  /** A parameter is kept exactly when it is one of the query's and its name
      does not start with `utm`. */
  lemma {:induction false} CleanQueryHas(q: Dict<string, string>)
    ensures forall p :: p in CleanQuery(q) <==> p in q && !StartsWith(p.0, "utm")
    decreases |q|
  {
    if q != [] {
      var p := q[|q| - 1];
      CleanQueryHas(q[..|q| - 1]);
      assert forall x :: x in q <==> x in q[..|q| - 1] || x == p by {
        assert q == q[..|q| - 1] + [p];
      }
    }
  }

  /** The cleaning keeps the order of the parameters: cleaning a
      concatenation cleans each part. */
  lemma {:induction false} CleanQueryAppend(a: Dict<string, string>, b: Dict<string, string>)
    ensures CleanQuery(a + b) == CleanQuery(a) + CleanQuery(b)
    decreases |b|
  {
    if b == [] {
      assert a + b == a;
    } else {
      var b' := b[..|b| - 1];
      assert (a + b)[..|a + b| - 1] == a + b';
      assert (a + b)[|a + b| - 1] == b[|b| - 1];
      CleanQueryAppend(a, b');
    }
  }

  /** `for q_k in q_obj: if not q_k.startswith('utm'): q_obj_copy[q_k] = q_obj[q_k]`. */
  method CleanQueryLoop(q: Dict<string, string>) returns (r: Dict<string, string>)
    requires DistinctKeys(q)
    ensures r == CleanQuery(q)
  {
    r := [];
    var i := 0;
    while i < |q|
      invariant i <= |q|
      invariant r == CleanQuery(q[..i])
      decreases |q| - i
    {
      CleanQueryStep(q, i);
      var (k, v) := q[i];
      if !StartsWith(k, "utm") {
        r := Put(r, k, v);
      }
      i := i + 1;
    }
    assert q[..i] == q;
  }

  /** One more parameter of a dict: a kept one is new to the cleaned
      prefix, so writing it appends it. */
  lemma CleanQueryStep(q: Dict<string, string>, i: int)
    requires DistinctKeys(q) && 0 <= i < |q|
    ensures CleanQuery(q[..i + 1]) ==
      if StartsWith(q[i].0, "utm") then CleanQuery(q[..i]) else Put(CleanQuery(q[..i]), q[i].0, q[i].1)
  {
    var front := CleanQuery(q[..i]);
    assert q[..i + 1][..i] == q[..i] && q[..i + 1][i] == q[i];
    CleanQueryHas(q[..i]);
    forall j | 0 <= j < |front| ensures front[j].0 != q[i].0 {
      EarlierKey(q, i, front[j]);
    }
    assert !HasKey(front, q[i].0);
  }

  lemma EarlierKey(q: Dict<string, string>, i: int, p: (string, string))
    requires DistinctKeys(q) && 0 <= i < |q| && p in q[..i]
    ensures p.0 != q[i].0
  {
    var m :| 0 <= m < i && q[..i][m] == p;
    assert q[m] == p;
  }

  /** The rewrite of one string value: a URL is unpacked into its parts and
      its query, and packed again with the cleaned query; any other string is
      kept. `is_url`, `unpack_url` and `pack_url` are urllib's business and
      are parameters. */
  function CleanUrl(isUrl: string -> bool, unpack: string -> (string, Dict<string, string>),
                    pack: (string, Dict<string, string>) -> string, s: string): string
  {
    if isUrl(s) then pack(unpack(s).0, CleanQuery(unpack(s).1)) else s
  }

  function Cleaner(isUrl: string -> bool, unpack: string -> (string, Dict<string, string>),
                   pack: (string, Dict<string, string>) -> string): string -> string
  {
    s => CleanUrl(isUrl, unpack, pack, s)
  }

  /** The rewrite of one URL in `UrlCleanerPipeline.process_item`. */
  method CleanUrlLoop(isUrl: string -> bool, unpack: string -> (string, Dict<string, string>),
                      pack: (string, Dict<string, string>) -> string, s: string) returns (url: string)
    requires isUrl(s) && DistinctKeys(unpack(s).1)
    ensures url == CleanUrl(isUrl, unpack, pack, s)
  {
    var (urlObj, qObj) := unpack(s);
    var qCopy := CleanQueryLoop(qObj);
    url := pack(urlObj, qCopy);
  }

  lemma CleanerApply(isUrl: string -> bool, unpack: string -> (string, Dict<string, string>),
                     pack: (string, Dict<string, string>) -> string, v: Value)
    ensures Apply(Cleaner(isUrl, unpack, pack), v) ==
      if v.VStr? && isUrl(v.s) then VStr(pack(unpack(v.s).0, CleanQuery(unpack(v.s).1))) else v
  {
  }

  /** `UrlCleanerPipeline.process_item`; `unpack_url` returns its query as a
      dict, so its keys are distinct. */
  method UrlCleanerPipeline(item: Item, isUrl: string -> bool, unpack: string -> (string, Dict<string, string>),
                            pack: (string, Dict<string, string>) -> string) returns (out: Item)
    requires forall s :: DistinctKeys(unpack(s).1)
    modifies item
    ensures out == item
    ensures item.fields == MapStrings(old(item.fields), Cleaner(isUrl, unpack, pack))
  {
    ghost var d := item.fields;
    ghost var f := Cleaner(isUrl, unpack, pack);
    var i := 0;
    while i < |item.fields|
      invariant |item.fields| == |d| && i <= |d|
      invariant forall j :: 0 <= j < i ==> item.fields[j] == (d[j].0, Apply(f, d[j].1))
      invariant forall j :: i <= j < |d| ==> item.fields[j] == d[j]
      decreases |d| - i
    {
      var (k, v) := item.fields[i];
      CleanerApply(isUrl, unpack, pack, v);
      if v.VStr? && isUrl(v.s) {
        var url := CleanUrlLoop(isUrl, unpack, pack, v.s);
        item.fields := item.fields[i := (k, VStr(url))];
      }
      i := i + 1;
    }
    assert item.fields == MapStrings(d, f);
    out := item;
  }

  /** A URL keeps exactly its non-tracking parameters; every other value of
      the item is untouched. */
  lemma UrlCleanerKeeps(d: Dict<string, Value>, isUrl: string -> bool, unpack: string -> (string, Dict<string, string>),
                        pack: (string, Dict<string, string>) -> string, i: int)
    requires 0 <= i < |d|
    ensures var v := MapStrings(d, Cleaner(isUrl, unpack, pack))[i].1;
      && (d[i].1.VStr? && isUrl(d[i].1.s) ==>
            exists q :: v == VStr(pack(unpack(d[i].1.s).0, q))
              && forall p :: p in q <==> p in unpack(d[i].1.s).1 && !StartsWith(p.0, "utm"))
      && (!(d[i].1.VStr? && isUrl(d[i].1.s)) ==> v == d[i].1)
  {
    if d[i].1.VStr? && isUrl(d[i].1.s) {
      var q := CleanQuery(unpack(d[i].1.s).1);
      CleanQueryHas(unpack(d[i].1.s).1);
      assert MapStrings(d, Cleaner(isUrl, unpack, pack))[i].1 == VStr(pack(unpack(d[i].1.s).0, q));
    }
  }

  // ---------------------------------------------------------------------
  // EventTypePipeline

  /** The keywords `EventTypePipeline` looks for, in its order. */
  const EventTypes: seq<string> :=
    ["conference", "summit", "forum", "symposium", "expo", "congress", "seminar", "workshop", "course"]

  /** `kw in v`: substring of a string, element of a list, key of a dict;
      `None` stands for the TypeError of a value that is not a container. */
  function Member(kw: string, v: Value): (r: Option<bool>)
    ensures r.Some? <==> v.VStr? || v.VList? || v.VDict?
  {
    match v
    case VStr(s) => Some(Contains(s, kw))
    case VList(items) => Some(VStr(kw) in items)
    case VDict(entries) => Some(HasKey(entries, kw))
    case _ => None
  }

  /** The first keyword of `kws` found in `v`; a `v` that is no container
      raises TypeError on the first test. */
  function FirstIn(kws: seq<string>, v: Value): (r: Result<Option<string>>)
    ensures r.Err? <==> kws != [] && Member(kws[0], v).None?
    ensures r.Err? ==> r.error.TypeError?
    decreases |kws|
  {
    if kws == [] then Ok(None)
    else
      match Member(kws[0], v)
      case None => Err(TypeError("argument of type '" + PyTypeName(v) + "' is not iterable"))
      case Some(true) => Ok(Some(kws[0]))
      case Some(false) => FirstIn(kws[1..], v)
  }

  /** The keyword found is the first one, in list order, that `v` holds;
      none is found only if `v` holds none of them. */
  lemma {:induction false} FirstInSpec(kws: seq<string>, v: Value)
    ensures var r := FirstIn(kws, v);
      && (r.Ok? && r.value.Some? ==>
            exists i :: 0 <= i < |kws| && kws[i] == r.value.value && Member(kws[i], v) == Some(true)
              && forall j :: 0 <= j < i ==> Member(kws[j], v) == Some(false))
      && (r == Ok(None) ==> forall i :: 0 <= i < |kws| ==> Member(kws[i], v) == Some(false))
    decreases |kws|
  {
    if kws != [] && Member(kws[0], v) == Some(false) {
      var rest := kws[1..];
      FirstInSpec(rest, v);
      var r := FirstIn(rest, v);
      if r.Ok? && r.value.Some? {
        var i :| 0 <= i < |rest| && rest[i] == r.value.value
          && Member(rest[i], v) == Some(true) && forall j :: 0 <= j < i ==> Member(rest[j], v) == Some(false);
        assert kws[i + 1] == rest[i];
        forall j | 0 <= j < i + 1
          ensures Member(kws[j], v) == Some(false)
        {
          if j > 0 {
            assert kws[j] == rest[j - 1];
          }
        }
      }
      if r == Ok(None) {
        forall i | 0 <= i < |kws|
          ensures Member(kws[i], v) == Some(false)
        {
          if i > 0 {
            assert kws[i] == rest[i - 1];
          }
        }
      }
    }
  }

  /** One of the keyword loops of `EventTypePipeline.process_item`. */
  method FindEventType(v: Value) returns (r: Result<Option<string>>)
    ensures r == FirstIn(EventTypes, v)
  {
    var i := 0;
    while i < |EventTypes|
      invariant i <= |EventTypes|
      invariant FirstIn(EventTypes[i..], v) == FirstIn(EventTypes, v)
      decreases |EventTypes| - i
    {
      var found := Member(EventTypes[i], v);
      if found.None? {
        return Err(TypeError("argument of type '" + PyTypeName(v) + "' is not iterable"));
      }
      if found.value {
        return Ok(Some(EventTypes[i]));
      }
      assert EventTypes[i..][1..] == EventTypes[i + 1..];
      i := i + 1;
    }
    return Ok(None);
  }

  /** An `event_type` that is neither `''` nor `None` (nor absent) is kept. */
  predicate GivenType(t: Value)
  {
    t != VStr("") && t != VNone
  }

  /** What `EventTypePipeline.process_item` assigns to `event_type`:
      `None` when it returns the item as it was. `item['name']` raises
      KeyError when missing and `name.lower()` AttributeError when it is no
      string; a given type is lower-cased; else the first keyword in the
      lower-cased name; else, for a description other than `''`, the first
      keyword in the description as it is. */
  function EventTypeOf(d: Dict<string, Value>): (r: Result<Option<string>>)
  {
    var name := Get(d, "name");
    var eventType := Field(d, "event_type");
    var desc := if HasKey(d, "description") then Get(d, "description").value else VStr("");
    if name.None? then Err(KeyError("name"))
    else if !name.value.VStr? then Err(AttributeError("lower"))
    else if GivenType(eventType) then
      (if eventType.VStr? then Ok(Some(Lower(eventType.s))) else Err(AttributeError("lower")))
    else
      var inName := FirstIn(EventTypes, VStr(Lower(name.value.s)));
      if inName.Ok? && inName.value.Some? then inName
      else if desc == VStr("") then Ok(None)
      else FirstIn(EventTypes, desc)
  }

  /** `EventTypePipeline.process_item`: the item, with `event_type` set to
      what `EventTypeOf` gives, or the exception, raised before anything
      changed. */
  method EventTypePipeline(item: Item) returns (r: Result<Item>)
    modifies item
    ensures EventTypeOf(old(item.fields)).Err? ==>
      r == Err(EventTypeOf(old(item.fields)).error) && item.fields == old(item.fields)
    ensures EventTypeOf(old(item.fields)).Ok? ==>
      && r == Ok(item)
      && item.fields == (match EventTypeOf(old(item.fields)).value
           case Some(t) => Put(old(item.fields), "event_type", VStr(t))
           case None => old(item.fields))
  {
    var name := Get(item.fields, "name");
    if name.None? {
      return Err(KeyError("name"));
    }
    var desc := if HasKey(item.fields, "description") then Get(item.fields, "description").value else VStr("");
    var eventType := Field(item.fields, "event_type");
    if !name.value.VStr? {
      return Err(AttributeError("lower"));
    }
    var lowered := Lower(name.value.s);
    if eventType != VStr("") && eventType != VNone {
      if !eventType.VStr? {
        return Err(AttributeError("lower"));
      }
      item.fields := Put(item.fields, "event_type", VStr(Lower(eventType.s)));
      return Ok(item);
    }
    var inName := FindEventType(VStr(lowered));
    if inName.Ok? && inName.value.Some? {
      item.fields := Put(item.fields, "event_type", VStr(inName.value.value));
      return Ok(item);
    }
    if desc == VStr("") {
      return Ok(item);
    }
    var inDesc := FindEventType(desc);
    if inDesc.Err? {
      return Err(inDesc.error);
    }
    if inDesc.value.Some? {
      item.fields := Put(item.fields, "event_type", VStr(inDesc.value.value));
    }
    r := Ok(item);
  }

  /** A given string type is lower-cased without any guessing. */
  lemma GivenTypeLowered(d: Dict<string, Value>, n: string, t: string)
    requires Get(d, "name") == Some(VStr(n)) && Get(d, "event_type") == Some(VStr(t)) && t != ""
    ensures EventTypeOf(d) == Ok(Some(Lower(t)))
  {
  }

  /** Without a given type, the first keyword of the lower-cased name wins,
      and a keyword in the name is preferred to one in the description. */
  lemma TypeFromName(d: Dict<string, Value>, n: string, i: int)
    requires Get(d, "name") == Some(VStr(n)) && !GivenType(Field(d, "event_type"))
    requires 0 <= i < |EventTypes| && Contains(Lower(n), EventTypes[i])
    requires forall j :: 0 <= j < i ==> !Contains(Lower(n), EventTypes[j])
    ensures EventTypeOf(d) == Ok(Some(EventTypes[i]))
  {
    var r := FirstIn(EventTypes, VStr(Lower(n)));
    FirstInSpec(EventTypes, VStr(Lower(n)));
    assert Member(EventTypes[i], VStr(Lower(n))) == Some(true);
  }

  /** With no type given and no keyword in the name, an empty or missing
      description leaves the item as it was, and a description that is
      `None` raises TypeError. */
  lemma TypeFromDescription(d: Dict<string, Value>, n: string)
    requires Get(d, "name") == Some(VStr(n)) && !GivenType(Field(d, "event_type"))
    requires forall j :: 0 <= j < |EventTypes| ==> !Contains(Lower(n), EventTypes[j])
    ensures Get(d, "description").None? || Get(d, "description") == Some(VStr("")) ==> EventTypeOf(d) == Ok(None)
    ensures Get(d, "description") == Some(VNone) ==> EventTypeOf(d).Err? && EventTypeOf(d).error.TypeError?
    ensures (Get(d, "description").Some? && Get(d, "description").value != VStr("")) ==>
      EventTypeOf(d) == FirstIn(EventTypes, Get(d, "description").value)
  {
    var r := FirstIn(EventTypes, VStr(Lower(n)));
    FirstInSpec(EventTypes, VStr(Lower(n)));
    if r.Ok? && r.value.Some? {
      var k :| 0 <= k < |EventTypes| && EventTypes[k] == r.value.value
        && Member(EventTypes[k], VStr(Lower(n))) == Some(true);
    }
  }

  // ---------------------------------------------------------------------
  // EventMetadataPipeline

  /** `util.event_id(item)`: `item[...]` raises KeyError for a missing
      field and `normalize` AttributeError for a name or city that is no
      string; the start is written as `str` writes it. */
  function EventIdOf(d: Dict<string, Value>, floatText: real -> string): (r: Result<string>)
    ensures r.Ok? <==>
      && Get(d, "name").Some? && Get(d, "name").value.VStr?
      && Get(d, "city").Some? && Get(d, "city").value.VStr?
      && HasKey(d, "start")
    ensures r.Ok? ==> r.value == EventUtil.EventId(Get(d, "name").value.s, Get(d, "city").value.s,
                                                   Repr.StrOf(Get(d, "start").value, floatText))
  {
    var name := Get(d, "name");
    var city := Get(d, "city");
    var start := Get(d, "start");
    if name.None? then Err(KeyError("name"))
    else if !name.value.VStr? then Err(AttributeError("lower"))
    else if city.None? then Err(KeyError("city"))
    else if !city.value.VStr? then Err(AttributeError("lower"))
    else if start.None? then Err(KeyError("start"))
    else Ok(EventUtil.EventId(name.value.s, city.value.s, Repr.StrOf(start.value, floatText)))
  }

  /** The fields after `EventMetadataPipeline.process_item`, with the
      exception it raises if any: `source` is kept unless `None` or absent,
      when the spider's `source` (an AttributeError if it has none) is put
      in its place; then `id` likewise from `event_id(item)`, whose failure
      leaves `source` already written. */
  function Metadata(d: Dict<string, Value>, spiderSource: Option<Value>, floatText: real -> string): (Dict<string, Value>, Option<Error>)
  {
    var source := Field(d, "source");
    var id := Field(d, "id");
    if source == VNone && spiderSource.None? then (d, Some(AttributeError("source")))
    else
      var d1 := Put(d, "source", if source != VNone then source else spiderSource.value);
      if id != VNone then (Put(d1, "id", id), None)
      else
        var eid := EventIdOf(d1, floatText);
        if eid.Err? then (d1, Some(eid.error)) else (Put(d1, "id", VStr(eid.value)), None)
  }

  /** `EventMetadataPipeline.process_item`. */
  method EventMetadataPipeline(item: Item, spiderSource: Option<Value>, floatText: real -> string) returns (r: Result<Item>)
    modifies item
    ensures item.fields == Metadata(old(item.fields), spiderSource, floatText).0
    ensures Metadata(old(item.fields), spiderSource, floatText).1.Some? ==>
      r == Err(Metadata(old(item.fields), spiderSource, floatText).1.value)
    ensures Metadata(old(item.fields), spiderSource, floatText).1.None? ==> r == Ok(item)
  {
    var source := Field(item.fields, "source");
    var id := Field(item.fields, "id");
    if source == VNone && spiderSource.None? {
      return Err(AttributeError("source"));
    }
    item.fields := Put(item.fields, "source", if source != VNone then source else spiderSource.value);
    if id != VNone {
      item.fields := Put(item.fields, "id", id);
      return Ok(item);
    }
    var eid := EventIdOf(item.fields, floatText);
    if eid.Err? {
      return Err(eid.error);
    }
    item.fields := Put(item.fields, "id", VStr(eid.value));
    r := Ok(item);
  }

  /** A `source` or `id` that is already set is kept; a missing one is
      filled, `source` from the spider and `id` with the event's identifier. */
  lemma MetadataFills(d: Dict<string, Value>, spiderSource: Option<Value>, floatText: real -> string)
    requires Metadata(d, spiderSource, floatText).1.None?
    ensures var out := Metadata(d, spiderSource, floatText).0;
      && Get(out, "source") == Some(if Field(d, "source") != VNone then Field(d, "source") else spiderSource.value)
      && (Field(d, "id") != VNone ==> Get(out, "id") == Some(Field(d, "id")))
      && (Field(d, "id") == VNone ==>
            var d1 := Put(d, "source", Get(out, "source").value);
            EventIdOf(d1, floatText).Ok? && Get(out, "id") == Some(VStr(EventIdOf(d1, floatText).value)))
  {
    var src := if Field(d, "source") != VNone then Field(d, "source") else spiderSource.value;
    var d1 := Put(d, "source", src);
    GetPut(d, "source", src, "source");
    if Field(d, "id") != VNone {
      GetPut(d1, "id", Field(d, "id"), "source");
      GetPut(d1, "id", Field(d, "id"), "id");
    } else {
      var e := EventIdOf(d1, floatText).value;
      GetPut(d1, "id", VStr(e), "source");
      GetPut(d1, "id", VStr(e), "id");
    }
  }

  /** Filling `source` does not disturb the fields `event_id` reads, so a
      filled `id` is the identifier of the event's own name, city and start. */
  lemma MetadataId(d: Dict<string, Value>, spiderSource: Option<Value>, floatText: real -> string, n: string, c: string, s: Value)
    requires Field(d, "id") == VNone && (Field(d, "source") != VNone || spiderSource.Some?)
    requires Get(d, "name") == Some(VStr(n)) && Get(d, "city") == Some(VStr(c)) && Get(d, "start") == Some(s)
    ensures Metadata(d, spiderSource, floatText).1.None?
    ensures Get(Metadata(d, spiderSource, floatText).0, "id") == Some(VStr(EventUtil.EventId(n, c, Repr.StrOf(s, floatText))))
  {
    var src := if Field(d, "source") != VNone then Field(d, "source") else spiderSource.value;
    var d1 := Put(d, "source", src);
    var e := EventUtil.EventId(n, c, Repr.StrOf(s, floatText));
    assert EventIdOf(d1, floatText) == Ok(e) by {
      GetPut(d, "source", src, "name");
      GetPut(d, "source", src, "city");
      GetPut(d, "source", src, "start");
    }
    assert Metadata(d, spiderSource, floatText) == (Put(d1, "id", VStr(e)), None);
    GetPut(d1, "id", VStr(e), "id");
  }
}
