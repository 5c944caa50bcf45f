/** The spiders of the Slovak Ministry of Justice business registry
    (org/skveda/skveda/spiders/sk_moj_spider.py): the paging decision of a
    search result page, the two ways of splitting a search that has too many
    results (by court, and by lengthening the name), the name search that
    seeds the crawl, and the text helpers used on entry pages. A URL's query
    string is modelled as the map from parameter name to its first value;
    packing it back into a URL is urllib's business and is not modelled. */
module SkMoj {
  import opened Base
  import opened Text
  import Combinations

  const LiquidationCode: string := "v likvidácii"

  /** `max_entries_per_page`. */
  const MaxEntriesPerPage: int := 500

  const EntryMarker: string := "orsr.sk/vypis.asp"

  /** `is_entry(url)`: the URL is an entry page rather than a search page. */
  predicate IsEntry(url: string)
  {
    Contains(url, EntryMarker)
  }

  /** `is_in_liquidation(name)`. */
  predicate IsInLiquidation(name: string)
  {
    Contains(name, LiquidationCode)
  }

  /** A name that mentions the liquidation code is in liquidation. */
  lemma NameInLiquidation(pre: string, post: string)
    ensures IsInLiquidation(pre + LiquidationCode + post)
  {
    ContainsItself(LiquidationCode, pre, post);
  }

  lemma EntryUrl(pre: string, post: string)
    ensures IsEntry(pre + EntryMarker + post)
  {
    ContainsItself(EntryMarker, pre, post);
  }

  // ---------------------------------------------------------------------
  // unquote and multiline

  predicate IsQuote(c: char)
  {
    c == '\'' || c == '"'
  }

  /** The loop condition of `unquote` past its emptiness test: the first and
      the last character are the same, and both are quotes. */
  predicate QuotedPair(s: string)
  {
    |s| >= 1 && s[0] == s[|s| - 1] && IsQuote(s[0]) && IsQuote(s[|s| - 1])
  }

  /** `s[1:-1]`, which is empty for a one-character string. */
  function Peel(s: string): string
    requires |s| >= 1
  {
    if |s| == 1 then [] else s[1..|s| - 1]
  }

  /** What `unquote(s)` returns: identical outer quote pairs removed as long
      as there are any. */
  function Unquoted(s: string): (r: string)
    ensures !QuotedPair(r)
    ensures |r| <= |s|
    decreases |s|
  {
    if QuotedPair(s) then Unquoted(Peel(s)) else s
  }

  /** How many characters `unquote` removes from the front of `s`. */
  function QuoteDepth(s: string): nat
    decreases |s|
  {
    if !QuotedPair(s) then 0
    else if |s| == 1 then 1
    else 1 + QuoteDepth(s[1..|s| - 1])
  }

  /** `unquote(s)` is the slice of `s` that starts after the removed quotes,
      and applying it again changes nothing. */
  lemma {:induction false} UnquoteInfix(s: string)
    ensures QuoteDepth(s) + |Unquoted(s)| <= |s|
    ensures s[QuoteDepth(s)..QuoteDepth(s) + |Unquoted(s)|] == Unquoted(s)
    ensures Unquoted(Unquoted(s)) == Unquoted(s)
    decreases |s|
  {
    if QuotedPair(s) && |s| > 1 {
      var m := s[1..|s| - 1];
      UnquoteInfix(m);
      var d := QuoteDepth(m);
      var r := Unquoted(m);
      assert Peel(s) == m;
      assert QuoteDepth(s) == 1 + d && Unquoted(s) == r;
      var x, y := s[1 + d..1 + d + |r|], m[d..d + |r|];
      forall k | 0 <= k < |r|
        ensures x[k] == y[k]
      {
        assert x[k] == s[1 + d + k] && y[k] == m[d + k];
      }
      assert x == y;
    }
  }

  /** Quoting a string and unquoting it again is unquoting the string. */
  lemma UnquoteWrapped(q: char, s: string)
    requires IsQuote(q)
    ensures Unquoted([q] + s + [q]) == Unquoted(s)
    ensures !QuotedPair(s) ==> Unquoted([q] + s + [q]) == s
  {
    var w := [q] + s + [q];
    assert QuotedPair(w);
    assert Peel(w) == s;
  }

  /** `unquote(s)`: the loop as written, guarded against the empty string. */
  method Unquote(s0: string) returns (s: string)
    ensures s == Unquoted(s0)
  {
    s := s0;
    while |s| > 0 && s[0] == s[|s| - 1] && IsQuote(s[0]) && IsQuote(s[|s| - 1])
      invariant Unquoted(s) == Unquoted(s0)
      decreases |s|
    {
      s := if |s| == 1 then "" else s[1..|s| - 1];
    }
  }

  /** `multiline(s)`: `s.replace('\n', '\r')`, which keeps the length, turns
      each line feed into a carriage return and leaves every other character. */
  function Multiline(s: string): (r: string)
    ensures |r| == |s| && '\n' !in r
    ensures forall i :: 0 <= i < |s| ==> r[i] == (if s[i] == '\n' then '\r' else s[i])
  {
    ReplaceCharIsSwap(s, '\n', '\r');
    SwapCharAt(s, '\n', '\r');
    Replace(s, "\n", "\r")
  }

  // ---------------------------------------------------------------------
  // city_from_address

  /** `is_postcode(s)`: `int(s.replace(" ", ""))` does not fail. */
  predicate IsPostcode(s: string)
  {
    IsInt(Without(s, ' '))
  }

  lemma StripChars(s: string)
    ensures forall i :: 0 <= i < |Strip(s)| ==> Strip(s)[i] in s
  {
    var l := LStrip(s);
    var r := RStrip(l);
    forall i | 0 <= i < |r| ensures r[i] in s {
      assert r[i] == l[i] == s[|s| - |l| + i];
    }
  }

  /** The line of the address `city_from_address(a)` takes: the address
      lines are split on `'\r'`; one line is the city only when it is a
      postcode, otherwise the last line is the city unless it is a postcode,
      in which case the line before it is. */
  function CityLine(a: string): string
  {
    var lines := Split(a, '\r');
    if |lines| == 1 then (if IsPostcode(a) then a else "")
    else if IsPostcode(lines[|lines| - 1]) then lines[|lines| - 2]
    else lines[|lines| - 1]
  }

  /** `city_from_address(a)` of an entry page: the city line cut at its first
      `'-'` and stripped. */
  function CityFromAddress(a: string): (city: string)
    ensures '-' !in city
    ensures Strip(city) == city
  {
    var head := Split(CityLine(a), '-')[0];
    StripChars(head);
    StripIdempotent(head);
    Strip(head)
  }

  /** A one-line address is kept only when it is a postcode. */
  lemma CityOneLine(a: string)
    requires '\r' !in a
    ensures CityLine(a) == if IsPostcode(a) then a else ""
  {
    SplitNoSep(a, '\r');
  }

  /** An address of several lines gives the last line, or the one before it
      when the last line is a postcode. */
  lemma CityLines(lines: seq<string>)
    requires |lines| >= 2
    requires forall i :: 0 <= i < |lines| ==> '\r' !in lines[i]
    ensures CityLine(Join("\r", lines)) ==
      if IsPostcode(lines[|lines| - 1]) then lines[|lines| - 2] else lines[|lines| - 1]
  {
    JoinSplit(lines, '\r');
    CityOfSplit(Join("\r", lines), lines);
  }

  lemma CityOfSplit(a: string, lines: seq<string>)
    requires |lines| >= 2 && Split(a, '\r') == lines
    ensures CityLine(a) ==
      if IsPostcode(lines[|lines| - 1]) then lines[|lines| - 2] else lines[|lines| - 1]
  {
  }

  /** A city followed by a district after `'-'` loses the district. */
  lemma CityDistrict(street: string, city: string, district: string, postcode: string)
    requires '\r' !in street && '\r' !in city && '\r' !in district && '\r' !in postcode
    requires '-' !in city && IsPostcode(postcode)
    ensures CityFromAddress(street + "\r" + (city + "-" + district) + "\r" + postcode) == Strip(city)
  {
    var mid := city + "-" + district;
    var lines := [street, mid, postcode];
    var addr := street + "\r" + mid + "\r" + postcode;
    assert addr == Join("\r", lines) by {
      assert Join("\r", lines[2..]) == postcode;
      assert Join("\r", lines[1..]) == mid + "\r" + postcode;
      ConcatAssoc(street + "\r", mid + "\r", postcode);
      ConcatAssoc(street + "\r", mid, "\r");
    }
    assert CityLine(addr) == mid by {
      assert '\r' !in mid;
      assert lines[2] == postcode && lines[1] == mid;
      CityLines(lines);
    }
    assert Split(mid, '-')[0] == city by {
      SplitConcat(city, district, '-');
    }
  }

  // ---------------------------------------------------------------------
  // The paging decision of parse_search

  /** `get_page_entries_info`: the counter text `"start-end/total"` with `/`
      read as `-`, split on `-`, and each of exactly three parts read with
      `int`; anything else is a ValueError. */
  function PageEntriesInfo(text: string): Result<(int, int, int)>
  {
    var parts := Split(Replace(text, "/", "-"), '-');
    if |parts| != 3 then Err(ValueError("wrong number of values to unpack"))
    else
      var a, b, c := ParseInt(parts[0]), ParseInt(parts[1]), ParseInt(parts[2]);
      if a.None? || b.None? || c.None? then Err(ValueError("invalid literal for int() with base 10"))
      else Ok((a.value, b.value, c.value))
  }

  lemma NatTextNoDash(n: nat)
    ensures '-' !in NatToStr(n) && '/' !in NatToStr(n)
  {
  }

  /** Reading `/` as `-` in a counter of three numbers. */
  lemma CounterDashed(a: string, b: string, c: string)
    requires '/' !in a && '/' !in b && '/' !in c
    ensures Replace(a + "-" + b + "/" + c, "/", "-") == a + "-" + b + "-" + c
  {
    var ab := a + "-" + b;
    ReplaceCharIsSwap(ab + "/" + c, '/', '-');
    assert SwapChar(ab, '/', '-') == ab by {
      SwapConcat(a + "-", b, '/', '-');
      SwapConcat(a, "-", '/', '-');
      SwapAbsent(a, '/', '-');
      SwapAbsent(b, '/', '-');
      assert SwapChar("-", '/', '-') == "-";
    }
    assert SwapChar("/" + c, '/', '-') == "-" + c by {
      SwapConcat("/", c, '/', '-');
      SwapAbsent(c, '/', '-');
      assert SwapChar("/", '/', '-') == "-";
    }
    assert SwapChar(ab + "/" + c, '/', '-') == ab + ("-" + c) by {
      ConcatAssoc(ab, "/", c);
      SwapConcat(ab, "/" + c, '/', '-');
    }
    ConcatAssoc(ab, "-", c);
  }

  lemma DashedSplit(a: string, b: string, c: string)
    requires '-' !in a && '-' !in b && '-' !in c
    ensures Split(a + "-" + b + "-" + c, '-') == [a, b, c]
  {
    var parts := [a, b, c];
    assert Join("-", parts[2..]) == c;
    assert Join("-", parts[1..]) == b + "-" + c;
    var x := a + "-";
    assert Join("-", parts) == x + ((b + "-") + c);
    ConcatAssoc(x, b + "-", c);
    ConcatAssoc(x, b, "-");
    assert a + "-" + b + "-" + c == Join("-", parts);
    JoinSplit(parts, '-');
  }

  /** The counter of a result page reads back as its three numbers. */
  lemma PageEntriesInfoRoundTrip(start: nat, end: nat, total: nat)
    ensures PageEntriesInfo(NatToStr(start) + "-" + NatToStr(end) + "/" + NatToStr(total)) == Ok((start, end, total))
  {
    var a, b, c := NatToStr(start), NatToStr(end), NatToStr(total);
    NatTextNoDash(start);
    NatTextNoDash(end);
    NatTextNoDash(total);
    var parts := [a, b, c];
    assert Split(Replace(a + "-" + b + "/" + c, "/", "-"), '-') == parts by {
      CounterDashed(a, b, c);
      DashedSplit(a, b, c);
    }
    ParseIntToStr(start);
    ParseIntToStr(end);
    ParseIntToStr(total);
  }

  /** The page a search URL is on: `int(q.get("STR", 1))`, `None` when `STR`
      is not an integer. */
  function PageOf(q: map<string, string>): Option<int>
  {
    if "STR" in q then ParseInt(q["STR"]) else Some(1)
  }

  /** The query of `get_next_page_url`: the page plus one in `STR`. */
  function NextPageQuery(q: map<string, string>): Result<map<string, string>>
  {
    var page := PageOf(q);
    if page.None? then Err(ValueError("invalid literal for int() with base 10"))
    else Ok(q["STR" := IntToStr(page.value + 1)])
  }

  /** The next page is one page further and keeps every other parameter; a
      malformed page fails. */
  lemma NextPageAdvances(q: map<string, string>)
    ensures NextPageQuery(q).Err? <==> PageOf(q).None?
    ensures NextPageQuery(q).Err? ==> NextPageQuery(q).error.ValueError?
    ensures NextPageQuery(q).Ok? ==>
      && NextPageQuery(q).value.Keys == q.Keys + {"STR"}
      && PageOf(NextPageQuery(q).value) == Some(PageOf(q).value + 1)
      && forall k :: k in q && k != "STR" ==> NextPageQuery(q).value[k] == q[k]
  {
    var page := PageOf(q);
    if page.Some? {
      var next := q["STR" := IntToStr(page.value + 1)];
      assert NextPageQuery(q) == Ok(next);
      assert PageOf(next) == Some(page.value + 1) by {
        assert "STR" in next && next["STR"] == IntToStr(page.value + 1);
        ParseIntToStr(page.value + 1);
      }
    }
  }

  /** The by-id spider's `resolve_too_many_entries`: the same query once per
      court code `SID` from 2 to 9. */
  function ResolveById(q: map<string, string>): (r: seq<map<string, string>>)
  {
    seq(8, i requires 0 <= i < 8 => q["SID" := IntToStr(i + 2)])
  }

  lemma ResolveByIdSpec(q: map<string, string>)
    ensures |ResolveById(q)| == 8
    ensures forall i :: 0 <= i < 8 ==>
      && ResolveById(q)[i].Keys == q.Keys + {"SID"}
      && ParseInt(ResolveById(q)[i]["SID"]) == Some(i + 2)
      && forall k :: k in q && k != "SID" ==> ResolveById(q)[i][k] == q[k]
  {
    forall i | 0 <= i < 8 ensures ParseInt(ResolveById(q)[i]["SID"]) == Some(i + 2) {
      ParseIntToStr(i + 2);
    }
  }

  /** The by-name spider's `resolve_too_many_entries`: the query once per
      valid character, with that character appended to `OBMENO`. The source
      is a generator, so a missing `OBMENO` fails only when there is a first
      character to try. */
  function ResolveByName(q: map<string, string>, validChars: string): (r: Result<seq<map<string, string>>>)
    ensures r.Err? <==> validChars != "" && "OBMENO" !in q
    ensures r.Err? ==> r.error == KeyError("OBMENO")
    ensures r.Ok? ==> |r.value| == |validChars|
    ensures r.Ok? ==> forall i :: 0 <= i < |validChars| ==>
      && r.value[i].Keys == q.Keys
      && r.value[i]["OBMENO"] == q["OBMENO"] + [validChars[i]]
      && forall k :: k in q && k != "OBMENO" ==> r.value[i][k] == q[k]
  {
    if validChars == "" then Ok([])
    else if "OBMENO" !in q then Err(KeyError("OBMENO"))
    else Ok(seq(|validChars|, i requires 0 <= i < |validChars| => q["OBMENO" := q["OBMENO"] + [validChars[i]]]))
  }

  /** The two concrete spiders; the by-name one carries its search settings. */
  datatype MojSpider = BusinessesById | BusinessesByName(settings: NameSearch)

  function ResolveTooManyEntries(spider: MojSpider, q: map<string, string>): Result<seq<map<string, string>>>
  {
    if spider.BusinessesById? then Ok(ResolveById(q)) else ResolveByName(q, spider.settings.validChars)
  }

  /** What `parse_search` follows: an entry link, or another search page. */
  datatype Follow = ToEntry(href: string) | ToSearch(query: map<string, string>)

  function EntryFollows(hrefs: seq<string>): (r: seq<Follow>)
    ensures |r| == |hrefs| && forall i :: 0 <= i < |hrefs| ==> r[i] == ToEntry(hrefs[i])
  {
    seq(|hrefs|, i requires 0 <= i < |hrefs| => ToEntry(hrefs[i]))
  }

  function SearchFollows(qs: seq<map<string, string>>): (r: seq<Follow>)
    ensures |r| == |qs| && forall i :: 0 <= i < |qs| ==> r[i] == ToSearch(qs[i])
  {
    seq(|qs|, i requires 0 <= i < |qs| => ToSearch(qs[i]))
  }

  /** The follow-up search queries: split the search when it has more than
      500 results, else the next page while fewer are displayed than there
      are, else none. */
  function FollowUps(spider: MojSpider, q: map<string, string>, displayed: int, total: int): Result<seq<map<string, string>>>
  {
    if total > MaxEntriesPerPage then ResolveTooManyEntries(spider, q)
    else if displayed < total then
      var next := NextPageQuery(q);
      if next.Err? then Err(next.error) else Ok([next.value])
    else Ok([])
  }

  /** `parse_search` on a result page with the entry links `hrefs` and the
      counter text `counter`: the entry links come first; an exception met
      afterwards ends the generator, so what was yielded before stays. */
  function ParseSearch(spider: MojSpider, q: map<string, string>, hrefs: seq<string>, counter: string): (seq<Follow>, Option<Error>)
  {
    var entries := EntryFollows(hrefs);
    var info := PageEntriesInfo(counter);
    if info.Err? then (entries, Some(info.error))
    else
      var next := FollowUps(spider, q, info.value.1, info.value.2);
      if next.Err? then (entries, Some(next.error))
      else (entries + SearchFollows(next.value), None)
  }

  /** The paging decision on a well-formed counter: the entry links, then the
      split queries when the total is over 500, one query for the next page
      when more remain, and nothing on the last page. */
  lemma ParseSearchPaging(spider: MojSpider, q: map<string, string>, hrefs: seq<string>, start: nat, displayed: nat, total: nat)
    requires spider.BusinessesById? || "OBMENO" in q
    requires PageOf(q).Some?
    ensures var out := ParseSearch(spider, q, hrefs, NatToStr(start) + "-" + NatToStr(displayed) + "/" + NatToStr(total));
      && out.1.None?
      && out.0[..|hrefs|] == EntryFollows(hrefs)
      && (total > MaxEntriesPerPage ==> out.0[|hrefs|..] == SearchFollows(ResolveTooManyEntries(spider, q).value))
      && (total <= MaxEntriesPerPage && displayed < total ==>
            |out.0| == |hrefs| + 1 && out.0[|hrefs|].ToSearch?
            && PageOf(out.0[|hrefs|].query) == Some(PageOf(q).value + 1))
      && (total <= MaxEntriesPerPage && displayed >= total ==> out.0 == EntryFollows(hrefs))
  {
    PageEntriesInfoRoundTrip(start, displayed, total);
    ParseSearchCounted(spider, q, hrefs, NatToStr(start) + "-" + NatToStr(displayed) + "/" + NatToStr(total), start, displayed, total);
  }

  /** The same decision for any counter text that reads as three numbers. */
  lemma ParseSearchCounted(spider: MojSpider, q: map<string, string>, hrefs: seq<string>, counter: string, start: int, displayed: int, total: int)
    requires spider.BusinessesById? || "OBMENO" in q
    requires PageOf(q).Some?
    requires PageEntriesInfo(counter) == Ok((start, displayed, total))
    ensures var out := ParseSearch(spider, q, hrefs, counter);
      && out.1.None?
      && out.0[..|hrefs|] == EntryFollows(hrefs)
      && (total > MaxEntriesPerPage ==> out.0[|hrefs|..] == SearchFollows(ResolveTooManyEntries(spider, q).value))
      && (total <= MaxEntriesPerPage && displayed < total ==>
            |out.0| == |hrefs| + 1 && out.0[|hrefs|].ToSearch?
            && PageOf(out.0[|hrefs|].query) == Some(PageOf(q).value + 1))
      && (total <= MaxEntriesPerPage && displayed >= total ==> out.0 == EntryFollows(hrefs))
  {
    var entries := EntryFollows(hrefs);
    var next := FollowUps(spider, q, displayed, total);
    NextPageAdvances(q);
    assert next.Ok?;
    var out := ParseSearch(spider, q, hrefs, counter);
    assert out == (entries + SearchFollows(next.value), None);
    assert out.0[..|hrefs|] == entries;
    assert out.0[|hrefs|..] == SearchFollows(next.value);
  }

  // ---------------------------------------------------------------------
  // SKMoJBusinessesByNameSpider.search

  /** The settings of the by-name spider; `pattern` is `None` when the pattern
      string is empty and otherwise the outcome of `re.search`. */
  datatype NameSearch = NameSearch(validChars: string, queryMinSize: int, start: string, end: string, pattern: Option<string -> bool>)

  /** One request of the search: `OBMENO` and the page. */
  datatype Query = Query(name: string, page: int)

  const SearchBase: string := "http://www.orsr.sk/hladaj_subjekt.asp?OBMENO="
  const SearchFlags: string := "&PF=0&SID=0&S=off&R=on"
  const PageParam: string := "&STR="

  /** The URL of a search request; `STR` only from page 2 on. */
  function SearchUrl(q: Query): string
  {
    SearchBase + q.name + SearchFlags + (if q.page > 1 then PageParam + IntToStr(q.page) else "")
  }

  /** The URL names the page exactly when it is past the first, and the page
      reads back from it. */
  lemma SearchUrlPage(q: Query)
    ensures var n := |SearchBase + q.name + SearchFlags|;
      && SearchUrl(q)[..n] == SearchBase + q.name + SearchFlags
      && (q.page <= 1 <==> |SearchUrl(q)| == n)
      && (q.page > 1 ==> SearchUrl(q)[n..n + |PageParam|] == PageParam && ParseInt(SearchUrl(q)[n + |PageParam|..]) == Some(q.page))
  {
    var head := SearchBase + q.name + SearchFlags;
    var tail := if q.page > 1 then PageParam + IntToStr(q.page) else "";
    assert SearchUrl(q) == head + tail;
    if q.page > 1 {
      ParseIntToStr(q.page);
      assert (head + tail)[|head|..|head| + |PageParam|] == PageParam;
      assert (head + tail)[|head| + |PageParam|..] == IntToStr(q.page);
    }
  }

  const NameChars: string := "abcdefghijklmnopqrstuvwxyz0123456789"

  /** The class attributes of the by-name spider with no arguments given. */
  const DefaultNameSearch: NameSearch := NameSearch(NameChars, 1, "", "", None)

  /** The strings tried for a character: itself, and `"ch"` after `'c'`. */
  function CharVariants(c: char): (vs: seq<string>)
    ensures |vs| >= 1 && vs[0] == [c]
    ensures forall v :: v in vs ==> v != [] && v[0] == c
  {
    if c == 'c' then ["c", "ch"] else [[c]]
  }

  /** Left pruning: before `start` is reached, only its character at this
      position is tried. */
  predicate StartSkip(cfg: NameSearch, index: nat, reached: bool, c: char)
  {
    cfg.start != "" && !reached && |cfg.start| >= index + 1 && c != cfg.start[index]
  }

  predicate PatternOk(cfg: NameSearch, s: string)
  {
    cfg.pattern.None? || cfg.pattern.value(s)
  }

  /** How many levels the search can still go down. */
  function Depth(cfg: NameSearch, index: nat): nat
  {
    if cfg.queryMinSize > index then cfg.queryMinSize - index else 0
  }

  /** `search(name, page, index - 1)`: one request once the name is long
      enough, otherwise the characters tried at position `index`. */
  function Node(cfg: NameSearch, name: string, page: int, index: nat): seq<Query>
    requires index <= |name|
    decreases Depth(cfg, index), 2, 0
  {
    if |name| >= cfg.queryMinSize then [Query(name, page)]
    else Chars(cfg, name, index, 0, false, false)
  }

  /** The loop over `valid_chars` from position `k`, with the
      `start_reached` and `end_reached` flags. */
  function Chars(cfg: NameSearch, name: string, index: nat, k: nat, reached: bool, ended: bool): seq<Query>
    requires index <= |name| < cfg.queryMinSize && k <= |cfg.validChars|
    decreases Depth(cfg, index), 1, |cfg.validChars| - k
  {
    if k == |cfg.validChars| then []
    else
      var c := cfg.validChars[k];
      if StartSkip(cfg, index, reached, c) || (cfg.end != "" && ended) then
        Chars(cfg, name, index, k + 1, reached, ended)
      else
        var p := Variants(cfg, name, index, CharVariants(c), 0, ended);
        p.0 + Chars(cfg, name, index, k + 1, true, p.1)
  }

  /** The loop over the variants of one character from position `j`. The
      copy `t` of the name is made once per character, so each variant is
      written over the previous one. */
  function Variants(cfg: NameSearch, t: string, index: nat, vs: seq<string>, j: nat, ended: bool): (seq<Query>, bool)
    requires index <= |t| && index < cfg.queryMinSize && j <= |vs|
    requires forall v :: v in vs ==> v != []
    decreases Depth(cfg, index), 0, |vs| - j
  {
    if j == |vs| then ([], ended)
    else if ended then Variants(cfg, t, index, vs, j + 1, ended)
    else
      var t' := Combinations.Write(t, index, vs[j]);
      Combinations.WritePrefixFacts(t, index, vs[j], |vs[j]|);
      assert vs[j] in vs;
      var ended' := cfg.end != "" && t' == cfg.end;
      if !PatternOk(cfg, t') then Variants(cfg, t', index, vs, j + 1, ended')
      else
        var q := Variants(cfg, t', index, vs, j + 1, ended');
        (Node(cfg, t', 1, index + 1) + q.0, q.1)
  }

  /** The requests `search(name, page, len(name) - 1)` yields; the crawl
      starts with `search()`, which is `Search(cfg, "", 1)`. */
  function Search(cfg: NameSearch, name: string, page: int): seq<Query>
  {
    Node(cfg, name, page, |name|)
  }

  /** What is left of a level once the variants of character `k` gave `p`. */
  function Rest(cfg: NameSearch, name: string, index: nat, k: nat, p: (seq<Query>, bool)): seq<Query>
    requires index <= |name| < cfg.queryMinSize && k < |cfg.validChars|
  {
    p.0 + Chars(cfg, name, index, k + 1, true, p.1)
  }

  method SearchNode(cfg: NameSearch, name: string, page: int, index: nat) returns (out: seq<Query>)
    requires index <= |name|
    ensures out == Node(cfg, name, page, index)
    decreases Depth(cfg, index), 2
  {
    if |name| >= cfg.queryMinSize {
      return [Query(name, page)];
    }
    out := SearchLevel(cfg, name, index);
  }

  /** One level of `search`: the loop over `valid_chars` and, inside it, the
      loop over the variants of the character. */
  method SearchLevel(cfg: NameSearch, name: string, index: nat) returns (out: seq<Query>)
    requires index <= |name| < cfg.queryMinSize
    ensures out == Chars(cfg, name, index, 0, false, false)
    decreases Depth(cfg, index), 1
  {
    var startReached, endReached := false, false;
    out := [];
    var k := 0;
    while k < |cfg.validChars|
      invariant k <= |cfg.validChars|
      invariant Chars(cfg, name, index, 0, false, false) == out + Chars(cfg, name, index, k, startReached, endReached)
      decreases |cfg.validChars| - k
    {
      var c := cfg.validChars[k];
      if StartSkip(cfg, index, startReached, c) || (cfg.end != "" && endReached) {
        k := k + 1;
        continue;
      }
      startReached := true;
      var temp := name;
      var vs := CharVariants(c);
      var j := 0;
      while j < |vs|
        invariant j <= |vs| && index <= |temp|
        invariant Chars(cfg, name, index, 0, false, false) == out + Rest(cfg, name, index, k, Variants(cfg, temp, index, vs, j, endReached))
        decreases |vs| - j
      {
        if endReached {
          j := j + 1;
          continue;
        }
        ghost var before := temp;
        temp := Combinations.ApplyVariant(temp, index, vs[j]);
        Combinations.WritePrefixFacts(before, index, vs[j], |vs[j]|);
        if cfg.end != "" && temp == cfg.end {
          endReached := true;
        }
        if !PatternOk(cfg, temp) {
          j := j + 1;
          continue;
        }
        var results := SearchNode(cfg, temp, 1, index + 1);
        ghost var q := Variants(cfg, temp, index, vs, j + 1, endReached);
        assert Variants(cfg, before, index, vs, j, false) == (results + q.0, q.1);
        ConcatAssoc(results, q.0, Chars(cfg, name, index, k + 1, true, q.1));
        ConcatAssoc(out, results, Rest(cfg, name, index, k, q));
        out := out + results;
        j := j + 1;
      }
      assert [] + Chars(cfg, name, index, k + 1, true, endReached) == Chars(cfg, name, index, k + 1, true, endReached);
      k := k + 1;
    }
  }

  /** `search(name, page, len(name) - 1)`. */
  method SearchRequests(cfg: NameSearch, name: string, page: int) returns (out: seq<Query>)
    ensures out == Search(cfg, name, page)
  {
    out := SearchNode(cfg, name, page, |name|);
  }

  /** A generated request: it extends the seed name, is long enough, is on
      the first page and passed the pattern. */
  predicate Found(cfg: NameSearch, name0: string, q: Query)
  {
    && StartsWith(q.name, name0)
    && |q.name| > |name0|
    && |q.name| >= cfg.queryMinSize
    && q.page == 1
    && PatternOk(cfg, q.name)
  }

  lemma {:induction false} NodeSound(cfg: NameSearch, name0: string, name: string, index: nat)
    requires |name0| <= index <= |name| && |name| > |name0| && StartsWith(name, name0) && PatternOk(cfg, name)
    ensures forall q :: q in Node(cfg, name, 1, index) ==> Found(cfg, name0, q)
    decreases Depth(cfg, index), 2
  {
    if |name| < cfg.queryMinSize {
      CharsSound(cfg, name0, name, index, 0, false, false);
    }
  }

  lemma {:induction false} CharsSound(cfg: NameSearch, name0: string, name: string, index: nat, k: nat, reached: bool, ended: bool)
    requires |name0| <= index <= |name| < cfg.queryMinSize && k <= |cfg.validChars| && StartsWith(name, name0)
    ensures forall q :: q in Chars(cfg, name, index, k, reached, ended) ==> Found(cfg, name0, q)
    decreases Depth(cfg, index), 1, |cfg.validChars| - k
  {
    if k < |cfg.validChars| {
      var c := cfg.validChars[k];
      if StartSkip(cfg, index, reached, c) || (cfg.end != "" && ended) {
        CharsSound(cfg, name0, name, index, k + 1, reached, ended);
      } else {
        var p := Variants(cfg, name, index, CharVariants(c), 0, ended);
        VariantsSound(cfg, name0, name, index, CharVariants(c), 0, ended);
        CharsSound(cfg, name0, name, index, k + 1, true, p.1);
      }
    }
  }

  lemma {:induction false} VariantsSound(cfg: NameSearch, name0: string, t: string, index: nat, vs: seq<string>, j: nat, ended: bool)
    requires |name0| <= index <= |t| && index < cfg.queryMinSize && j <= |vs| && StartsWith(t, name0)
    requires forall v :: v in vs ==> v != []
    ensures forall q :: q in Variants(cfg, t, index, vs, j, ended).0 ==> Found(cfg, name0, q)
    decreases Depth(cfg, index), 0, |vs| - j
  {
    if j < |vs| {
      if ended {
        VariantsSound(cfg, name0, t, index, vs, j + 1, ended);
      } else {
        var t' := Combinations.Write(t, index, vs[j]);
        assert vs[j] in vs;
        Combinations.WritePrefixFacts(t, index, vs[j], |vs[j]|);
        assert Combinations.MinNat(index, |t|) == index;
        assert t'[..|name0|] == t'[..index][..|name0|] == t[..index][..|name0|] == name0;
        var ended' := cfg.end != "" && t' == cfg.end;
        VariantsSound(cfg, name0, t', index, vs, j + 1, ended');
        if PatternOk(cfg, t') {
          NodeSound(cfg, name0, t', index + 1);
        }
      }
    }
  }

  /** A name already long enough is searched as is, on its page; otherwise
      every request extends it, is long enough, passed the pattern and asks
      for the first page. */
  lemma SearchSound(cfg: NameSearch, name: string, page: int)
    ensures |name| >= cfg.queryMinSize ==> Search(cfg, name, page) == [Query(name, page)]
    ensures |name| < cfg.queryMinSize ==> forall q :: q in Search(cfg, name, page) ==> Found(cfg, name, q)
  {
    if |name| < cfg.queryMinSize {
      CharsSound(cfg, name, name, |name|, 0, false, false);
    }
  }

  /** `'c'` is also tried as `"ch"`: with only `c` to try and names of one
      character, the search asks for `c` and then `ch`. */
  lemma ChVariant()
    ensures Search(NameSearch("c", 1, "", "", None), "", 1) == [Query("c", 1), Query("ch", 1)]
  {
    var cfg := NameSearch("c", 1, "", "", None);
    var vs := CharVariants('c');
    assert vs == ["c", "ch"] && vs[0] == "c" && vs[1] == "ch";
    assert Combinations.Write("", 0, "c") == "c" by {
      Combinations.AppendOne("", 'c');
    }
    assert Combinations.Write("c", 0, "ch") == "ch" by {
      assert Combinations.WritePrefix("c", 0, "ch", 1) == "c";
    }
    assert Node(cfg, "c", 1, 1) == [Query("c", 1)];
    assert Node(cfg, "ch", 1, 1) == [Query("ch", 1)];
    assert Variants(cfg, "ch", 0, vs, 2, false) == ([], false);
    assert Variants(cfg, "c", 0, vs, 1, false) == ([Query("ch", 1)] + [], false);
    assert [Query("ch", 1)] + [] == [Query("ch", 1)];
    assert Variants(cfg, "", 0, vs, 0, false) == ([Query("c", 1)] + [Query("ch", 1)], false);
    assert Chars(cfg, "", 0, 1, true, false) == [];
  }

  /** The first name equal to `end` stops the level: with `abc` to try and
      `end = "b"` the search asks for `a` and `b` only. */
  lemma EndStops()
    ensures Search(NameSearch("abc", 1, "", "b", None), "", 1) == [Query("a", 1), Query("b", 1)]
  {
    var cfg := NameSearch("abc", 1, "", "b", None);
    Combinations.AppendOne("", 'a');
    Combinations.AppendOne("", 'b');
    assert Combinations.Write("", 0, "a") == "a" && Combinations.Write("", 0, "b") == "b";
    assert cfg.validChars[0] == 'a' && cfg.validChars[1] == 'b' && cfg.validChars[2] == 'c';
    assert CharVariants('a') == ["a"] && CharVariants('b') == ["b"];
    assert Node(cfg, "a", 1, 1) == [Query("a", 1)];
    assert Node(cfg, "b", 1, 1) == [Query("b", 1)];
    assert Variants(cfg, "a", 0, ["a"], 1, false) == ([], false);
    assert Variants(cfg, "", 0, ["a"], 0, false) == ([Query("a", 1)] + [], false);
    assert Variants(cfg, "b", 0, ["b"], 1, true) == ([], true);
    assert Variants(cfg, "", 0, ["b"], 0, false) == ([Query("b", 1)] + [], true);
    assert Chars(cfg, "", 0, 3, true, true) == [];
    assert Chars(cfg, "", 0, 2, true, true) == [];
    assert Chars(cfg, "", 0, 1, true, false) == [Query("b", 1)] + [];
    assert Chars(cfg, "", 0, 0, false, false) == [Query("a", 1)] + [Query("b", 1)];
  }

  // ---------------------------------------------------------------------
  // process_source_line of the by-name spider

  /** The URLs of the search requests. */
  function SearchUrls(qs: seq<Query>): (r: seq<string>)
    ensures |r| == |qs| && forall i :: 0 <= i < |qs| ==> r[i] == SearchUrl(qs[i])
  {
    seq(|qs|, i requires 0 <= i < |qs| => SearchUrl(qs[i]))
  }

  /** The search a source line asks for: `OBMENO` (default empty) on page
      `int(STR)` (default 1); `q` is the query of the stripped line. */
  function LineSearch(cfg: NameSearch, q: map<string, string>): Result<seq<string>>
  {
    var name := if "OBMENO" in q then q["OBMENO"] else "";
    var page := PageOf(q);
    if page.None? then Err(ValueError("invalid literal for int() with base 10"))
    else Ok(SearchUrls(Search(cfg, name, page.value)))
  }

  /** `process_source_line` as written: the method is a generator, so the
      `return scrapy.Request(...)` for an entry URL ends it without yielding
      the request. */
  function ProcessSourceLineAsWritten(cfg: NameSearch, line: string, q: map<string, string>): Result<seq<string>>
  {
    if IsEntry(line) then Ok([]) else LineSearch(cfg, q)
  }

  /** `process_source_line` as evidently intended, like the base class's:
      an entry URL is requested as it stands. */
  function ProcessSourceLine(cfg: NameSearch, line: string, q: map<string, string>): Result<seq<string>>
  {
    if IsEntry(line) then Ok([Strip(line)]) else LineSearch(cfg, q)
  }

  /** Every entry line is lost as written, and requested once as intended. */
  lemma EntryLineDropped(cfg: NameSearch, line: string, q: map<string, string>)
    requires IsEntry(line)
    ensures ProcessSourceLineAsWritten(cfg, line, q) == Ok([])
    ensures ProcessSourceLine(cfg, line, q) == Ok([Strip(line)])
  {
  }

  /** A concrete entry line, `http://www.orsr.sk/vypis.asp?ID=1&SID=2&P=0`. */
  const SampleEntryLine: string := "http://www." + EntryMarker + "?ID=1&SID=2&P=0"

  lemma SampleEntryLineDropped(cfg: NameSearch, q: map<string, string>)
    ensures ProcessSourceLineAsWritten(cfg, SampleEntryLine, q) == Ok([])
    ensures ProcessSourceLine(cfg, SampleEntryLine, q) != ProcessSourceLineAsWritten(cfg, SampleEntryLine, q)
  {
    EntryUrl("http://www.", "?ID=1&SID=2&P=0");
  }

  /** A search line is searched the same way in both. */
  lemma SearchLineSearched(cfg: NameSearch, line: string, q: map<string, string>)
    requires !IsEntry(line) && "OBMENO" in q && PageOf(q).Some?
    ensures ProcessSourceLine(cfg, line, q) == Ok(SearchUrls(Search(cfg, q["OBMENO"], PageOf(q).value)))
    ensures ProcessSourceLineAsWritten(cfg, line, q) == ProcessSourceLine(cfg, line, q)
  {
  }
}
