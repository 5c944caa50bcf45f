# knwldg crawler helpers, modelled in Dafny

The knwldg repository is a set of scrapy crawlers for company registries
and event calendars. Its spiders share a few helper modules: a composer
that runs several spiders as the stages of one; mixins that split a
search that has too many results by lengthening a name or numeric
parameter; and pipelines that clean items and write them to CSV. The
registry spiders and scripts also carry their own request building,
paging decisions and text cleaning.

This project models that shared core and the registry-specific logic
built on it. There is one Dafny module per source file, plus a few shared
modules:

- `Base`: the Python exceptions the code raises, with `Option` and `Result`.
- `Values`: JSON-like values. A dict keeps insertion order and is modelled
  as a sequence of distinct-key pairs. The module also gives the dict
  operations the code uses.
- `Text`: the parts of `str` the code uses, over ASCII: strip, split, join,
  replace, zfill, and integer printing and parsing.
- `Patterns`: the regular expressions the scripts use.
- `Repr`: Python's `str`/`repr` of values.
- `Http`: scrapy requests and responses, reduced to `meta['composer']`.
- `Util` and `Combinations`: common/common/common/util.py.
  - `Combinations` covers `string_combinations`, a pruned depth-first
    enumerator proved against a specification function.
  - `Util` covers the collection helpers.
- `Components`: common/common/common/components.py. It covers the
  combinations settings, the result-limit resolver and the
  composable-spider hooks.
- `Composer`: common/common/common/composer.py. It covers the
  normalisation of the component setting into ordered slots, and the
  dispatch of every response to its stage.
- `CsvPipelines`: the `CsvWriterPipeline` class, modelled as a class that
  collects items and their column union.
- `EventUtil` and `EventPipelines`: event/event/util.py and
  event/event/pipelines.py. These cover event ids, the CSV merge and the
  item-cleaning pipelines, the last as in-place updates of an item object.
- `Ausbiotech`: the monthly calendar requests.
- `Infogreffe`, `SkMoj` and `SkMoi`: the French and Slovak registry
  spiders.
- `CompaniesBySec` and `SkMergeCsvs`: the British category script and the
  Slovak merge script.

Some inputs are parameters of the model:

- the clock (the current month and year);
- `spider.source`;
- the text of a float;
- what a sub-spider's parse function returns;
- attribute lookup, `load_object` and `getattr` chains;
- the response the framework returns in inline mode;
- XPath extraction from an entry page.

Where a docstring says otherwise, the model
follows the code:

- The Infogreffe detail request's body is `str([ids])` with its spaces
  removed, `[1,2,3]`, not a plain comma join.
- In the composer's inline mode, the `return` after the last stage drops
  any responses still queued.
- `sk_moi`'s `is_last_page` compares a URL string with a list, so it never
  holds.
- The fallback alphabet of `string_combinations` has `xzy` for `xyz`
  (common/common/common/util.py:71), and the model keeps that order.

## Model

| member | source | states |
|---|---|---|
| Ausbiotech.MonthYear | event/event/spiders/ausbiotech/spiders.py:37-39 | the month of the i-th request is always in 1..12 |
| Ausbiotech.StartRequests | event/event/spiders/ausbiotech/spiders.py:31-40 | exactly 24 requests, the i-th for the month and year `curr_mo + i` months on |
| Ausbiotech.FirstMonthIsCurrent | event/event/spiders/ausbiotech/spiders.py:36-39 | the first request is for the current month of the current year |
| Ausbiotech.NextMonth | event/event/spiders/ausbiotech/spiders.py:37-39 | `12*yr + mo` grows by exactly one from one request to the next, so December rolls over into January of the next year |
| CsvPipelines.CsvWriterPipeline.constructor | common/common/common/pipelines.py:9-16 | a new pipeline has no columns and no items |
| CsvPipelines.CsvWriterPipeline.ProcessItem | common/common/common/pipelines.py:27-35 | returns the item unchanged; `items` grows by exactly that item; the earlier columns stay in order, each new key is appended once in the item's key order, and afterwards a name is a column exactly when it was one before or is a key of the item; the columns stay free of duplicates (the same method is copied into org/sk/sk/pipelines.py:31-39) |
| EventUtil.WordChars | event/event/util.py:8-9 | the word characters of a string, in order: never longer than the input and made of word characters only |
| EventUtil.Normalize | event/event/util.py:8-9 | `normalize` leaves only word characters, none of them an upper-case letter |
| EventUtil.LowerWordChars | event/event/util.py:8-9 | keeping the word characters of a lower-cased string leaves no upper-case letter |
| EventUtil.WordCharsConcat | event/event/util.py:8-9 | dropping the non-word characters distributes over concatenation, so runs of them vanish wherever they are |
| EventUtil.WordCharsNone | event/event/util.py:8-9 | a string of non-word characters normalises to the empty string |
| EventUtil.WordCharsKeeps | event/event/util.py:8-9 | a string made only of word characters is kept whole by dropping the non-word characters |
| EventUtil.NormalizeWordText | event/event/util.py:8-9 | on a string of word characters, `normalize` only lower-cases it |
| EventUtil.LowerConcat | event/event/util.py:9 | lower-casing distributes over concatenation |
| EventUtil.NormalizeLower | event/event/util.py:8-9 | `normalize` ignores case: lower-casing first changes nothing |
| EventUtil.NormalizePunctuation | event/event/util.py:8-9 | `normalize` ignores punctuation inserted anywhere in the string |
| EventUtil.EventIdIgnoresCase | event/event/util.py:7-11 | the event identifier does not change when name and city are lower-cased |
| EventUtil.EventIdIgnoresPunctuation | event/event/util.py:7-11 | the event identifier does not change when punctuation is added after the name or before the city |
| EventUtil.EventIdAmbiguous | event/event/util.py:8-11 | `_` is a word character, so the events ("a_", "b") and ("a", "_b") on the same day share one identifier |
| EventUtil.AddNamesSpec | event/event/util.py:36-38 | the inner loop over one header keeps the earlier names as a prefix, stays free of duplicates and adds exactly the header's new names |
| EventUtil.FieldNamesSpec | event/event/util.py:31-38 | the field names are free of duplicates, hold exactly the names of all headers, and the names of the first k headers form a prefix (first-seen order) |
| EventUtil.MergeFieldNames | event/event/util.py:31-38 | the header loop: an input without a top line stops with StopIteration, otherwise the result is the union of the headers in first-seen order |
| EventUtil.Heads | event/event/util.py:34-35 | the top line of every input, in input order |
| EventUtil.HeadsSnoc | event/event/util.py:32-35 | one more input adds its top line at the end |
| EventUtil.LastIndex | event/event/util.py:47-48 | the position `csv.DictReader` takes a field's value from is its last occurrence in the header, or none when the field is absent |
| EventUtil.OutRow | event/event/util.py:42-49 | an output row has one cell per merged field name, each taken from the input row by that name |
| EventUtil.FileRowsSpec | event/event/util.py:45-49 | one input gives one output row per non-empty data row, each as wide as the merged header, and fails with ValueError exactly when some row is longer than its header |
| EventUtil.MergedRowsSpec | event/event/util.py:41-49 | the output starts with the merged header and fails exactly when some input has an overlong row |
| EventUtil.MergeCsvs | event/event/util.py:25-49 | an input without a top line gives StopIteration; otherwise the output is the merged header followed by the rows of every input in input order |
| EventUtil.FileRowsErr | event/event/util.py:48-49 | once a row fails, the rest of the file does not change the outcome |
| EventUtil.MergedRowsErr | event/event/util.py:44-49 | once an input fails, the later inputs do not change the outcome |
| EventUtil.CopyRows | event/event/util.py:48-49 | the copy loop over one input computes exactly that input's output rows |
| EventUtil.EventId | event/event/util.py:7-11 | `event_id(event)`: the normalized name, `__`, the normalized city, `__`, and the start text |
| EventUtil.FileRows | event/event/util.py:45-49 | the output rows of one input: each non-empty data row as an output row, a ValueError for a row longer than its header |
| EventUtil.MergedRows | event/event/util.py:41-49 | everything `merge_csvs` writes: the merged header, then the rows of the inputs in order |
| EventPipelines.Apply | event/event/pipelines.py:285-286 | a string value is replaced by the function applied to it; any other value is kept as it is |
| EventPipelines.MapStrings | event/event/pipelines.py:284-286 | rewriting every string value keeps the item's key set |
| EventPipelines.GetMapStrings | event/event/pipelines.py:284-286 | after the rewrite every key holds the rewritten form of its old value, and absent keys stay absent |
| EventPipelines.UpdateStrings | event/event/pipelines.py:284-302 | the in-place loop `for k in item` leaves exactly the rewritten fields |
| EventPipelines.StripperPipeline | event/event/pipelines.py:282-290 | returns the same item, with every string value stripped and everything else unchanged |
| EventPipelines.StripperIdempotent | event/event/pipelines.py:284-286 | stripping twice is stripping once, and non-string values are untouched |
| EventPipelines.Unbreak | event/event/pipelines.py:302 | `re.sub(r'\n\|\r', ' ', s)` keeps the length, leaves no line break, keeps every other character and puts a space where each break was |
| EventPipelines.WhitespaceNormalizerPipeline | event/event/pipelines.py:298-306 | returns the same item, with every string value stripped and its line breaks turned into spaces |
| EventPipelines.NormalizedHasNoBreaks | event/event/pipelines.py:300-302 | after normalisation no string value contains `\n` or `\r`, and each is as long as its stripped form |
| EventPipelines.CleanQuery | event/event/pipelines.py:266-269 | the cleaned query is never longer than the original |
| EventPipelines.CleanQueryHas | event/event/pipelines.py:267-269 | a parameter is kept exactly when it was in the query and its name does not start with `utm` |
| EventPipelines.CleanQueryAppend | event/event/pipelines.py:267-269 | the filter works parameter by parameter, so it distributes over concatenation |
| EventPipelines.CleanQueryLoop | event/event/pipelines.py:266-269 | the loop filling `q_obj_copy` computes the cleaned query |
| EventPipelines.CleanQueryStep | event/event/pipelines.py:267-269 | one loop turn adds the parameter at the end when it is kept, and skips it otherwise |
| EventPipelines.CleanUrlLoop | event/event/pipelines.py:264-270 | the rewrite of one URL value packs the URL back with the cleaned query |
| EventPipelines.CleanerApply | event/event/pipelines.py:264 | only string values that are URLs are rewritten |
| EventPipelines.UrlCleanerPipeline | event/event/pipelines.py:261-274 | returns the same item, with every URL value cleaned and every other value unchanged |
| EventPipelines.UrlCleanerKeeps | event/event/pipelines.py:262-270 | a URL value keeps exactly its parameters whose name does not start with `utm`; a non-URL value is untouched |
| EventPipelines.Member | event/event/pipelines.py:142-150 | `kw in v` is defined for strings, lists and dicts only; anything else raises TypeError |
| EventPipelines.FirstIn | event/event/pipelines.py:141-152 | the keyword search fails (with TypeError) exactly when the first test meets a value that is no container |
| EventPipelines.FirstInSpec | event/event/pipelines.py:141-152 | the keyword found is the first one, in list order, that the value holds; no keyword is found only when the value holds none |
| EventPipelines.FindEventType | event/event/pipelines.py:141-144 | the early-returning keyword loop computes the first match |
| EventPipelines.EventTypePipeline | event/event/pipelines.py:122-154 | the item gets the event type the pipeline assigns (given type lower-cased, else guessed), or the exception, raised before anything changed |
| EventPipelines.GivenTypeLowered | event/event/pipelines.py:132-135 | a non-empty given `event_type` is lower-cased and no guess is made |
| EventPipelines.TypeFromName | event/event/pipelines.py:137-144 | without a given type, the first keyword, in list order, contained in the lower-cased name wins |
| EventPipelines.TypeFromDescription | event/event/pipelines.py:146-154 | when the name holds no keyword: an empty or absent description leaves the item unchanged, a `None` one raises TypeError, and otherwise the first keyword in the description as it is wins |
| EventPipelines.EventIdOf | event/event/util.py:7-11 | `event_id(item)` succeeds exactly when name and city are strings and start is present, and then is the identifier of those three |
| EventPipelines.EventMetadataPipeline | event/event/pipelines.py:241-253 | the item's fields become those the pipeline writes; the pipeline's exception, if any, is returned |
| EventPipelines.MetadataFills | event/event/pipelines.py:250-251 | a `source` or `id` that is set is kept; a missing `source` comes from the spider and a missing `id` is the event's identifier |
| EventPipelines.MetadataId | event/event/pipelines.py:249-251 | filling `source` first does not disturb the identifier: a missing `id` becomes the identifier of the item's own name, city and start |
| SkMoi.CodesDistinct | org/skveda/skveda/spiders/sk_moi_spider.py:155-156 | the twelve registry spiders have pairwise different registry codes and spider names (also lines 183-184, 208-209, 231-232, 255-256, 277-278, 308-309, 336-337, 358-359, 380-381, 418-419, 444-445) |
| SkMoi.StartUrls | org/skveda/skveda/spiders/sk_moi_spider.py:58-62 | `start_urls` is a single URL, the registry's list page with a `type` parameter |
| SkMoi.StartUrlType | org/skveda/skveda/spiders/sk_moi_spider.py:58-62 | the `type` parameter of the start URL is exactly the registry code |
| SkMoi.Labels | org/skveda/skveda/spiders/sk_moi_spider.py:41-56 | the labels looked up for a field: the registry's own labels win over the base ones, and a field known to neither gets `[""]` (also lines 110-112) |
| SkMoi.PoliticalPartiesLabels | org/skveda/skveda/spiders/sk_moi_spider.py:42-56 | the political parties spider's custom labels (with colons) override the base labels; a field it does not list and the base does not know gets `[""]` (also lines 382-396) |
| SkMoi.CommonLabels | org/skveda/skveda/spiders/sk_moi_spider.py:42-56 | every spider has labels for the name, the seat and the website it reads in the shared `parse_entry` (also lines 82-90) |
| SkMoi.UnquoteFails | org/skveda/skveda/spiders/sk_moi_spider.py:139-142 | `unquote` raises IndexError exactly on strings that are mirrored runs of quote characters (the empty string among them); otherwise it gives the same result as the guarded version of org/skveda/skveda/spiders/sk_moj_spider.py:245-248 |
| SkMoi.UnquoteLoop | org/skveda/skveda/spiders/sk_moi_spider.py:139-142 | the unguarded loop computes `unquote` |
| SkMoi.CityFromAddress | org/skveda/skveda/spiders/sk_moi_spider.py:133-134 | an address without a comma has no second-to-last part and raises IndexError; any other address gives a city |
| SkMoi.HeadBeforeDash | org/skveda/skveda/spiders/sk_moi_spider.py:134 | the text before the first `-` is what `split('-')[0]` keeps |
| SkMoi.CityOfAddress | org/skveda/skveda/spiders/sk_moi_spider.py:133-134 | for an address whose second-to-last comma part is " postcode city words" (possibly followed by a `-` part), the city is those words joined by single spaces, without the postcode |
| SkMoi.ParseListFollowsAll | org/skveda/skveda/spiders/sk_moi_spider.py:64-78 | `is_last_page` compares a string with a selector list and never holds, so `parse` follows every entry link and then every next-page link |
| SkMoi.ExtraFieldsShape | org/skveda/skveda/spiders/sk_moi_spider.py:166-434 | each registry adds distinct extra columns, all outside the common item |
| SkMoi.Extras | org/skveda/skveda/spiders/sk_moi_spider.py:166-434 | a registry's extra columns, each its page text after the registry's rewrite (`multiline`, placeholder check) |
| SkMoi.ParseEntry | org/skveda/skveda/spiders/sk_moi_spider.py:80-94 | `parse_entry` raises IndexError exactly when `unquote` of the name or `city_from_address` fails; otherwise it yields the common item merged with the registry's extra columns (also lines 166-434) |
| SkMoi.CommonItemKeys | org/skveda/skveda/spiders/sk_moi_spider.py:84-94 | the common item has distinct columns, none of them a registry's extra column |
| SkMoi.DisjointAppend | org/skveda/skveda/spiders/sk_moi_spider.py:168-169 | `{**data, ...}` with fresh keys appends them after the common ones |
| SkMoi.EntryItemAppends | org/skveda/skveda/spiders/sk_moi_spider.py:166-173 | the merged item is the common item followed by the extra columns, each key once |
| SkMoi.LiquidatedEntry | org/skveda/skveda/spiders/sk_moi_spider.py:20 | a name that contains "v likvidácii" gives `liquidation` true and website `"-"` (also lines 90-92, 136-137) |
| SkMoi.ActiveEntry | org/skveda/skveda/spiders/sk_moi_spider.py:84-92 | a name without the liquidation code gives `liquidation` false and keeps the website, name and city read from the page (also lines 136-137) |
| SkMoi.InterestDescription | org/skveda/skveda/spiders/sk_moi_spider.py:287-298 | the known placeholder description becomes `""`; any other description has its line feeds turned into carriage returns |
| SkMoi.PartyAbbreviation | org/skveda/skveda/spiders/sk_moi_spider.py:398-408 | the known placeholder abbreviations become `""`; any other abbreviation is kept |
| SkMoi.Unquote | org/skveda/skveda/spiders/sk_moi_spider.py:139-142 | `unquote(s)`: matching outer quote pairs removed while the ends agree, and an IndexError when the string is or becomes empty |
| SkMoi.IsLastPage | org/skveda/skveda/spiders/sk_moi_spider.py:67-68 | `is_last_page` compares the URL string with the selected links, so it is never true |
| SkMoi.ParseList | org/skveda/skveda/spiders/sk_moi_spider.py:64-78 | `parse(response)`: one request per entry of the list, then the next-page links unless the page is the last |
| SkMoi.CommonItem | org/skveda/skveda/spiders/sk_moi_spider.py:80-94 | the item every `parse_entry` builds from the detail page's common fields |
| SkMoi.EntryItem | org/skveda/skveda/spiders/sk_moi_spider.py:166-173 | the subclass's `parse_entry`: `{**data, ...}`, its own fields overlaid on the common item |
| SkMoj.NameInLiquidation | org/skveda/skveda/spiders/sk_moj_spider.py:27 | a name that contains "v likvidácii" is in liquidation (also lines 242-243) |
| SkMoj.EntryUrl | org/skveda/skveda/spiders/sk_moj_spider.py:239-240 | a URL that contains `orsr.sk/vypis.asp` is an entry page |
| SkMoj.Unquoted | org/skveda/skveda/spiders/sk_moj_spider.py:245-248 | the result no longer starts and ends with the same quote character, and is never longer than the input |
| SkMoj.UnquoteInfix | org/skveda/skveda/spiders/sk_moj_spider.py:245-248 | the result is the infix of the input left after peeling the outer quote pairs, and unquoting again changes nothing |
| SkMoj.UnquoteWrapped | org/skveda/skveda/spiders/sk_moj_spider.py:245-248 | wrapping a string in a quote pair and unquoting is unquoting the string; a string without outer quotes comes back as it was |
| SkMoj.Unquote | org/skveda/skveda/spiders/sk_moj_spider.py:245-248 | the guarded loop computes `unquote`, and is safe on the empty string |
| SkMoj.Multiline | org/skveda/skveda/spiders/sk_moj_spider.py:250-251 | `multiline` keeps the length, leaves no `\n` and puts `\r` exactly where the line feeds were |
| SkMoj.StripChars | org/skveda/skveda/spiders/sk_moj_spider.py:137 | stripping introduces no character that was not in the input |
| SkMoj.CityFromAddress | org/skveda/skveda/spiders/sk_moj_spider.py:121-137 | the city is cut at the first `-` and stripped: it holds no `-` and has no outer whitespace |
| SkMoj.CityOneLine | org/skveda/skveda/spiders/sk_moj_spider.py:129-132 | a one-line address is kept only when it is a postcode, and is otherwise `""` |
| SkMoj.CityLines | org/skveda/skveda/spiders/sk_moj_spider.py:129-135 | for several lines, the second-to-last line is taken when the last is a postcode, and the last line otherwise |
| SkMoj.CityOfSplit | org/skveda/skveda/spiders/sk_moj_spider.py:129-135 | the same choice stated on the lines `a.split("\r")` gives |
| SkMoj.CityDistrict | org/skveda/skveda/spiders/sk_moj_spider.py:121-137 | a city line followed by a postcode line gives the city without the district after its `-`, stripped |
| SkMoj.NatTextNoDash | org/skveda/skveda/spiders/sk_moj_spider.py:86 | a number written in decimal has no `-` and no `/` |
| SkMoj.CounterDashed | org/skveda/skveda/spiders/sk_moj_spider.py:86 | `replace("/", "-")` turns the counter "a-b/c" into "a-b-c" |
| SkMoj.DashedSplit | org/skveda/skveda/spiders/sk_moj_spider.py:86 | `split("-")` of "a-b-c" gives the three parts |
| SkMoj.PageEntriesInfoRoundTrip | org/skveda/skveda/spiders/sk_moj_spider.py:82-88 | the counter text "start-end/total" reads back as the triple of integers (start, end, total) |
| SkMoj.NextPageAdvances | org/skveda/skveda/spiders/sk_moj_spider.py:93-96 | the next page query fails with ValueError exactly when `STR` is not an integer; otherwise it sets `STR` to the page plus one (page 1 when absent) and keeps every other parameter |
| SkMoj.ResolveByIdSpec | org/skveda/skveda/spiders/sk_moj_spider.py:285-300 | the by-id split yields 8 queries with `SID` = 2..9 and every other parameter unchanged |
| SkMoj.ResolveByName | org/skveda/skveda/spiders/sk_moj_spider.py:424-429 | the by-name split yields one query per valid character with that character appended to `OBMENO`, every other parameter unchanged; a missing `OBMENO` raises KeyError once there is a character to try |
| SkMoj.EntryFollows | org/skveda/skveda/spiders/sk_moj_spider.py:99-101 | every entry link is followed, in order |
| SkMoj.SearchFollows | org/skveda/skveda/spiders/sk_moj_spider.py:113-114 | every follow-up query is followed, in order |
| SkMoj.ParseSearchPaging | org/skveda/skveda/spiders/sk_moj_spider.py:29 | on a well-formed counter: the entry links come first; then the split queries when the total is over 500, else one query for the next page while fewer are displayed than the total, else nothing (also lines 82-114) |
| SkMoj.ParseSearchCounted | org/skveda/skveda/spiders/sk_moj_spider.py:29 | the same paging decision for any counter text that reads as three integers (also lines 90-114) |
| SkMoj.SearchUrlPage | org/skveda/skveda/spiders/sk_moj_spider.py:360-361 | the search URL carries `&STR=` exactly when the page is past the first, and the page reads back from it |
| SkMoj.CharVariants | org/skveda/skveda/spiders/sk_moj_spider.py:390-399 | a character is tried as itself first, and `c` also as `ch` |
| SkMoj.SearchNode | org/skveda/skveda/spiders/sk_moj_spider.py:353-362 | one call of `search` computes its requests: one request once the name is long enough, otherwise the level below |
| SkMoj.SearchLevel | org/skveda/skveda/spiders/sk_moj_spider.py:364-422 | the loop over the valid characters, with the `start_reached`/`end_reached` flags and the in-place writes to the copied name, computes the level's requests |
| SkMoj.SearchRequests | org/skveda/skveda/spiders/sk_moj_spider.py:349-351 | `search(name, page)` computes the requests of the search (also lines 353-422) |
| SkMoj.NodeSound | org/skveda/skveda/spiders/sk_moj_spider.py:353-422 | every request found below a name extends the seed, is at least `query_min_size` long, is on page 1 and matches the pattern |
| SkMoj.CharsSound | org/skveda/skveda/spiders/sk_moj_spider.py:369-422 | the same for the rest of a character loop |
| SkMoj.VariantsSound | org/skveda/skveda/spiders/sk_moj_spider.py:395-422 | the same for the rest of a variant loop |
| SkMoj.SearchSound | org/skveda/skveda/spiders/sk_moj_spider.py:353-422 | a name already long enough yields exactly one request for itself on its page; otherwise every request extends the name, is long enough, is on page 1 and matches the pattern |
| SkMoj.ChVariant | org/skveda/skveda/spiders/sk_moj_spider.py:390-394 | with the single valid character `c`, the search also asks for `ch` |
| SkMoj.EndStops | org/skveda/skveda/spiders/sk_moj_spider.py:378-408 | once the name equals `end`, no later character is tried: with `abc` and end `b` only `a` and `b` are requested |
| SkMoj.SearchUrls | org/skveda/skveda/spiders/sk_moj_spider.py:361 | each request becomes its search URL, in order |
| SkMoj.EntryLineDropped | org/skveda/skveda/spiders/sk_moj_spider.py:338-340 | as written, an entry line yields nothing (the `return` ends the generator); as intended, it yields the stripped line once |
| SkMoj.SampleEntryLineDropped | org/skveda/skveda/spiders/sk_moj_spider.py:338-340 | a concrete entry URL is lost as written and requested as intended |
| SkMoj.SearchLineSearched | org/skveda/skveda/spiders/sk_moj_spider.py:342-347 | a search line is searched from its `OBMENO` and page, the same way in both versions |
| SkMoj.PageEntriesInfo | org/skveda/skveda/spiders/sk_moj_spider.py:82-88 | `get_page_entries_info`: the counter `start-end/total` with `/` read as `-`, split on `-` and exactly three parts read with `int`; a ValueError otherwise |
| SkMoj.ResolveById | org/skveda/skveda/spiders/sk_moj_spider.py:285-300 | `resolve_too_many_entries`: eight queries for the same name, with `SID` from 2 to 9 |
| SkMoj.ParseSearch | org/skveda/skveda/spiders/sk_moj_spider.py:78-114 | `parse_search`: the page's entries first, then the error items or the follow-up requests that paging decides |
| SkMoj.Search | org/skveda/skveda/spiders/sk_moj_spider.py:345-346 | `search(name, page, len(name) - 1)` as `process_source_line` calls it: the search tree rooted at the whole name (also lines 353-367) |
| Util.FlattenAppend | common/common/common/util.py:327-329 | flattening distributes over concatenation of the groups |
| Util.FlattenLength | common/common/common/util.py:327-329 | the flattened list is as long as all groups together |
| Util.MapDictVal | common/common/common/util.py:134-138 | `map_dict_val` keeps every key in its place and applies the function to its value |
| Util.GetMapDictVal | common/common/common/util.py:134-138 | looking a key up after `map_dict_val` gives the function of its old value, and absent keys stay absent |
| Text.Repeat | common/common/common/util.py:283-286 | the padding of the last group: exactly `n` copies of the fill value |
| Util.Padding | common/common/common/util.py:283-286 | the padding of the last group is shorter than a group |
| Util.GrouperLengths | common/common/common/util.py:283-286 | every group `grouper(n, xs)` yields has exactly `n` elements |
| Util.GrouperFlatten | common/common/common/util.py:283-286 | the groups one after the other are the input followed by fewer than `n` fill values |
| Util.GrouperCount | common/common/common/util.py:283-286 | there are just enough groups for the input and its padding |
| Util.NotIn | common/common/common/util.py:273 | `[i for i in v if i not in out[k]]`: every kept member is in `v` and not in `out[k]`, and every such member is kept |
| Util.NotInSingle | common/common/common/util.py:273 | one element is kept exactly when the list lacks it |
| Util.NotInAppend | common/common/common/util.py:273 | the filter works element by element, so it keeps the order and the repetitions of the members it keeps |
| Util.MergedRules | common/common/common/util.py:260-279 | for a key on both sides: a type change or a primitive takes the later value; dicts merge under `update` (the later entries win) and are replaced under `override`; lists are appended under `append`, gain only their missing members under `set`, and are replaced under `override`; ValueError is raised exactly for an unknown mode met on a same-type dict or list collision |
| Util.Step | common/common/common/util.py:256-259 | a key absent from the output is appended with its value |
| Util.MergePairsAppend | common/common/common/util.py:255-256 | merging two runs of pairs one after the other is merging their concatenation, and an error stops the rest |
| Util.MergeFresh | common/common/common/util.py:256-259 | pairs whose keys are new are just appended, in order |
| Util.SoftUpdateCopyAgrees | common/common/common/util.py:248-253 | `copy=True` computes the same entries as `copy=False`; only which dict is updated differs |
| Util.ValidModesNeverFail | common/common/common/util.py:262-277 | with known modes `soft_update` never raises |
| Util.PyDict.constructor | common/common/common/util.py:249 | a new dict holds the given entries |
| Util.SoftSet | common/common/common/util.py:257-279 | one step of the inner loop updates the dict in place to the merge of the pair, or leaves it as it was and reports the ValueError |
| Util.MergePairsCons | common/common/common/util.py:255-256 | merging a pair and then the rest is merging the run |
| Util.SoftUpdate | common/common/common/util.py:231-280 | with `copy=False` the result is `d1` itself, updated in place; with `copy=True` it is a fresh dict and the entries of `d1` are not reassigned; the entries and the error are those of the merge rules applied to every pair in order (nested values shared with `d1` are not modelled, see Left out) |
| Util.SoftSetAll | common/common/common/util.py:256-279 | the loop over one dict's pairs leaves the dict updated by them, or stops at the first error with that state |
| Util.Leaves | common/common/common/util.py:292-302 | every value `flatten` stores is neither a dict nor a list |
| Util.EntryLeaves | common/common/common/util.py:293-295 | the same for the entries of a dict |
| Util.ItemLeaves | common/common/common/util.py:296-300 | the same for the items of a list |
| Util.PutAllScalars | common/common/common/util.py:302 | storing scalar values keeps every value scalar |
| Util.PutElements | common/common/common/util.py:302 | `out[name[:-1]] = x` only adds or replaces that one pair |
| Util.FlattenJsonScalars | common/common/common/util.py:289-304 | every value of `flatten_json(y)` is neither a dict nor a list |
| Util.FlatEntryLeaves | common/common/common/util.py:293-302 | the leaves of a flat dict are its own entries |
| Util.FlattenJsonFlat | common/common/common/util.py:289-304 | a dict that is already flat comes back unchanged |
| Util.PutAllFresh | common/common/common/util.py:302 | storing pairs with new keys appends them in order |
| Util.PutAllAppend | common/common/common/util.py:302 | storing two runs of pairs one after the other is storing their concatenation |
| Util.FlattenInto | common/common/common/util.py:292-302 | the recursive walk stores exactly the leaves of its value under their prefixed names |
| Util.FlattenJson | common/common/common/util.py:289-304 | `flatten_json(y)` stores the leaves of `y` in walk order, a later equal name overwriting an earlier one |
| Util.Tag | common/common/common/util.py:372 | `(k, v) for v in vals` pairs the key with every value, in order |
| Util.Dol2LotLoop | common/common/common/util.py:364-373 | the loop computes `dol2lot`: every key with each of its values in order, a non-iterable value as a single one |
| Util.Lot2DolLoop | common/common/common/util.py:376-383 | the loop computes `lot2dol` |
| Util.HasKeySnoc | common/common/common/util.py:379-381 | a key occurs in a list with one more pair exactly when it occurred before or is that pair's key |
| Util.AddToGet | common/common/common/util.py:380-382 | adding a value under a key appends it to that key's list and changes no other key |
| Util.Lot2DolGet | common/common/common/util.py:376-383 | `lot2dol` groups the values per key in input order, and holds exactly the keys that occur |
| Util.ValuesForAbsent | common/common/common/util.py:376-383 | a key that does not occur has no values |
| Util.Lot2DolDistinct | common/common/common/util.py:376-383 | every key of `lot2dol` occurs once |
| Util.Lot2DolSnoc | common/common/common/util.py:379-382 | one more pair adds its value to its key's list |
| Util.AddToFresh | common/common/common/util.py:380-382 | a new key starts a list with its value at the end |
| Util.AddToLast | common/common/common/util.py:382 | a value for the last key is appended to its list |
| Util.Lot2DolTagged | common/common/common/util.py:372-382 | the pairs of one new key become one entry with all its values |
| Util.TaggedSnoc | common/common/common/util.py:372-382 | one more value of the last key is appended to its list |
| Util.PutAtEnd | common/common/common/util.py:381 | replacing the value of the last key keeps the order |
| Util.HeadAppend | common/common/common/util.py:367 | the first pair of a dict followed by the rest is the dict |
| Util.PutPastHead | common/common/common/util.py:381 | updating a key other than the first leaves the first pair in place |
| Util.Dol2LotKeys | common/common/common/util.py:364-373 | `dol2lot` only uses the keys of its input |
| Util.Lot2DolDol2Lot | common/common/common/util.py:364-383 | `lot2dol(dol2lot(d)) == d` when every value of `d` is a non-empty list |
| Util.MapDictValSnoc | common/common/common/util.py:134-138 | `map_dict_val` works entry by entry |
| Util.Dol2LotLast | common/common/common/util.py:364-383 | the last entry of `d` comes back last, with its list |
| Util.Grouper | common/common/common/util.py:283-286 | `grouper(n, xs, fill)`: consecutive groups of `n`, the last padded with `fill`; nothing when `n <= 0` |
| Util.Dol2Lot | common/common/common/util.py:364-373 | `dol2lot(dol)`: every value paired with its key, in dict order |
| Util.Lot2Dol | common/common/common/util.py:376-383 | `lot2dol(lot)`: the values of each key collected in input order |
| Util.Flatten | common/common/common/util.py:327-329 | `flatten(xss)`: the groups one after the other |
| Combinations.Effective | common/common/common/util.py:71 | a falsy `valid_chars` becomes the fallback alphabet (as written, with `y` and `z` swapped) and a truthy one is kept; every other argument is unchanged, and the alphabet used is never empty |
| Combinations.MatchingVariants | common/common/common/util.py:94-96 | every variant collected for a character comes from a pair registered for that character |
| Combinations.CurrentVariants | common/common/common/util.py:93-96 | a character is tried as itself first, then as its variants |
| Combinations.ThenAssoc | common/common/common/util.py:130-131 | yielding two runs one after the other is yielding their concatenation |
| Combinations.ResumeThen | common/common/common/util.py:78-131 | what was yielded before a character does not change how the rest of the level goes |
| Combinations.ApplyVariant | common/common/common/util.py:100-107 | the write loop over a copy of the seed computes the candidate: append while the seed is shorter than `index + 1 + i`, otherwise overwrite position `index` |
| Combinations.NodeOf | common/common/common/util.py:62-67 | one recursive call yields the seed alone when it passes the length and bounds check, and otherwise the strings of its level (also lines 120-131) |
| Combinations.Level | common/common/common/util.py:76-131 | the loop over `valid_chars`, with the `start_reached` flag and the early `return` past `end`, yields exactly the strings of the level |
| Combinations.StringCombinations | common/common/common/util.py:17-131 | a call without `index` yields exactly the strings the enumeration describes (within the recursion bound) |
| Combinations.WritePrefixFacts | common/common/common/util.py:103-107 | writing a variant never shortens the seed, lengthens it when `index` is at its end, and keeps everything before `index` |
| Combinations.CurrentVariantsNonEmpty | common/common/common/util.py:93-96 | with no empty variant registered, every string tried for a character is non-empty |
| Combinations.NodeSound | common/common/common/util.py:62-67 | every string yielded below a node passes the length and `start`/`end` check, matches the pattern and extends the top-level seed, strictly when no variant is empty (also lines 115-131) |
| Combinations.CharsSound | common/common/common/util.py:78-131 | the same for the rest of the character loop |
| Combinations.VariantsSound | common/common/common/util.py:98-131 | the same for the rest of the variant loop |
| Combinations.GenerateSound | common/common/common/util.py:62-67 | every string yielded has length at least `min_length`, is not before `start` nor after `end` on their lengths, matches the pattern and has the seed as a prefix, a proper one when no variant is empty (also lines 100-131) |
| Combinations.AppendOne | common/common/common/util.py:103-105 | writing one character at the end of the seed appends it |
| Combinations.EmptyVariantYieldsSeed | common/common/common/util.py:62-67 | with an empty variant the top-level seed itself can be yielded: seed "x", alphabet "a", variant `"a": [""]` yields "xa" and then "x" (also lines 93-131) |
| Combinations.ExampleLeaves | common/common/common/util.py:62-67 | a seed that is long enough and inside the bounds is yielded alone |
| Combinations.ExampleSecondLevel | common/common/common/util.py:78-131 | on the second level of the worked example, "aa" and "ab" are yielded |
| Combinations.StartEndExample | common/common/common/util.py:78-131 | alphabet "ab", `start` "aa", `end` "ab", `min_length` 2 yield exactly "aa" and "ab"; the extension "b" is past `end` and stops the top level |
| Combinations.CharsPastEnd | common/common/common/util.py:111-113 | once the seed is past `end`, the first extension tried returns from the level, so nothing is yielded |
| Combinations.GeneratePastEnd | common/common/common/util.py:111-113 | a seed already past `end` yields nothing |
| Combinations.IndexOf | common/common/common/util.py:78 | the position of a character in `valid_chars`: the first one holding it, or the length when absent |
| Combinations.OrderedConcat | common/common/common/util.py:78-131 | two ordered runs, each string of the first forking before each of the second, are ordered together |
| Combinations.NodeOrdered | common/common/common/util.py:62-67 | without variants and with distinct characters, a node's output is in depth-first `valid_chars` order and extends its seed (also lines 78-131) |
| Combinations.CharsOrdered | common/common/common/util.py:78-131 | the same for the rest of the character loop |
| Combinations.CharBranch | common/common/common/util.py:98-131 | the same for the strings of one character, all of which take that character at the seed's end |
| Combinations.GenerateOrdered | common/common/common/util.py:78-131 | without variants and with distinct valid characters the output is in depth-first `valid_chars` order, and no string is yielded twice |
| Combinations.ForkLexLess | common/common/common/util.py:64-65 | strings that agree up to a position where the first has the smaller character are in string order (also line 112) |
| Combinations.GenerateSorted | common/common/common/util.py:78-131 | with an increasing alphabet and no variants the output is sorted in string order |
| Combinations.Generate | common/common/common/util.py:62-131 | `string_combinations(seed, ...)` within `fuel` levels of recursion, with the effective alphabet; its properties are the `Generate*` lemmas |
| Components.FalsyKeepsDefaults | common/common/common/components.py:31-66 | `min_length=0`, `start=''` and `valid_chars=''` are falsy and leave the defaults: `min_length` 1, no `start`, the 36-character alphabet |
| Components.TruthyOverrides | common/common/common/components.py:55-66 | every truthy constructor argument replaces its default |
| Components.CombinationSettings.constructor | common/common/common/components.py:29-36 | a new settings object holds the class defaults |
| Components.CombinationSettings.Generate | common/common/common/components.py:38-48 | `generate(seed)` yields `string_combinations` on the current settings: strings that extend the seed and are at least `min_length` long |
| Components.NewCombinationSettings | common/common/common/components.py:50-66 | the mixin's constructor makes a fresh settings object holding the defaults overridden by the truthy arguments |
| Components.InitQueryParamRules | common/common/common/components.py:137-144 | the keyword `query_param` wins over the class attribute; with neither set the constructor raises TypeError |
| Components.Rewrites | common/common/common/components.py:110-115 | every rewritten query equals the original except at `query_param`, which holds a candidate different from the old term; every candidate other than the old term gives one |
| Components.NameResolver.constructor | common/common/common/components.py:137-141 | the resolver keeps its query parameter and its settings object |
| Components.NameResolver.GetNewQueries | common/common/common/components.py:146-154 | `min_length` becomes `max(min_length, len(old) + 1)` on the shared settings, so it never decreases; the candidates are generated from the old term and strictly extend it; a missing term raises TypeError before anything changes |
| Components.NameResolver.ResolveResultLimit | common/common/common/components.py:107-115 | a missing query parameter raises KeyError before anything changes; otherwise one query per new candidate, the old term skipped, each equal to the original except at `query_param` |
| Components.RewriteAll | common/common/common/components.py:110-115 | the loop over the candidates computes the rewritten queries |
| Components.NewNameResolver | common/common/common/components.py:50-66 | the resolver's constructor raises the TypeError of a missing query parameter, or gives a fresh resolver with that parameter and the configured settings (also lines 137-144) |
| Components.ComposableParse | common/common/common/components.py:163-167 | `parse` returns an iterator over exactly the response |
| Components.ResolveOutput | common/common/common/components.py:181-184 | the same requests in the same order, each with `meta['spiderid']` set to `next_spider` and nothing else changed |
| Composer.Validate | common/common/common/composer.py:263-273 | no error exactly when every priority of every component (a lone value or each list element) is `None` or a real number; otherwise the ValueError names the first offending component |
| Composer.ConvertKeys | common/common/common/composer.py:261 | every key converted, the values and the order unchanged |
| Composer.WithoutNoneValues | common/common/common/composer.py:285 | keeps exactly the entries whose value is not `None` |
| Composer.AtPriorityAppend | common/common/common/composer.py:287 | selecting the slots of one priority distributes over concatenation |
| Composer.InsertShape | common/common/common/composer.py:287 | inserting a slot adds exactly that slot |
| Composer.InsertSorted | common/common/common/composer.py:287 | inserting into a priority-sorted list keeps it sorted |
| Composer.InsertStable | common/common/common/composer.py:287 | the inserted slot goes after every slot of its priority already present |
| Composer.SortByPrioritySpec | common/common/common/composer.py:287 | `sorted(..., key=itemgetter(1))` is ascending by priority, a permutation of its input, and stable: each priority's slots keep their input order |
| Composer.Slots | common/common/common/composer.py:286-287 | one slot per tuple, keeping its class path and using its numeric priority as the key |
| Composer.Paths | common/common/common/composer.py:287 | the class paths of the slots, in slot order |
| Composer.BuildComponentListSpec | common/common/common/composer.py:242-287 | `_build_component_list` fails exactly on an invalid priority, two keys converting to the same path, or a `None` priority among two or more slots; otherwise it lists one class path per priority, sorted ascending with ties in settings order |
| Composer.ExampleValid | common/common/common/composer.py:73-78 | the documented example settings pass validation and have distinct paths |
| Composer.ExampleTuples | common/common/common/composer.py:73-78 | the example becomes the tuples One 1, One 3, Two 2, Three 4 (also lines 285-286) |
| Composer.ExampleDol2Lot | common/common/common/composer.py:75-77 | `dol2lot` spreads One's list of priorities into one tuple each (also line 286) |
| Composer.ExampleSort | common/common/common/composer.py:287 | sorting those slots gives One 1, Two 2, One 3, Three 4 |
| Composer.ExampleSlots | common/common/common/composer.py:287 | the example tuples have no `None` priority and give the slots with priorities 1, 3, 2, 4 |
| Composer.ComponentListExample | common/common/common/composer.py:69-78 | the documented composite runs SpiderOne, SpiderTwo, SpiderOne, SpiderThree |
| Composer.Stage | common/common/common/composer.py:131 | the stage is the stored `next_spider`, or 0 when there is none |
| Composer.GetComposerMeta | common/common/common/composer.py:179-182 | returns the request's composer meta, creating it empty only when absent; nothing else on the request changes |
| Composer.UpdateCallback | common/common/common/composer.py:168-172 | the request's callback is saved in the composer meta and replaced by the given one |
| Composer.UpdateIndex | common/common/common/composer.py:174-177 | `next_spider` becomes the given stage plus one; callback and spider unchanged |
| Composer.GetCallbackRules | common/common/common/composer.py:184-230 | a non-string callback is returned as it is; an empty dotted path is an IndexError; a hit in the composer's scope wins; a miss on a path without the delimiter is `load_object` of the whole path |
| Composer.Elements | common/common/common/composer.py:145-148 | an iterable result is iterated; a lone request becomes a one-element list |
| Composer.LeadingRequests | common/common/common/composer.py:150-157 | counts exactly the requests before the first element that is not one |
| Composer.NonRequestMessageNames | common/common/common/composer.py:151-157 | the TypeError message names the spider and the type it returned |
| Composer.PlanStep | common/common/common/composer.py:129-157 | a pass forwards only from an intermediate stage and only requests; it finishes only at the last stage |
| Composer.PlanAt | common/common/common/composer.py:135-157 | the same, once the callback is resolved: the stage forwarded from is the stored one |
| Composer.ForwardOf | common/common/common/composer.py:150-157 | forwarding covers exactly the leading requests of the stage's output |
| Composer.SubSpider.constructor | common/common/common/composer.py:101-103 | a sub-spider records its class path and name |
| Composer.Composer.constructor | common/common/common/composer.py:110 | a composer holds its sub-spider list and its `yield_requests` mode |
| Composer.Composer.Descriptions | common/common/common/composer.py:110-135 | the sub-spiders' class paths and names, in stage order |
| Composer.Composer.StartRequests | common/common/common/composer.py:118-123 | the first sub-spider's start requests, fresh and distinct, each with its callback moved into the composer meta and no `next_spider` written; an IndexError with no sub-spiders |
| Composer.Composer.Step | common/common/common/composer.py:128-165 | one pass does what `PlanStep` says: fails with its error, yields the last stage's value once, or yields the forwarded requests tagged for the next stage |
| Composer.Composer.Parse | common/common/common/composer.py:125-166 | with `yield_requests`, one pass as `PlanStep` says; in inline mode, what is yielded and the error it ends with are those of `InlineRun` started on the one response; in both modes the last stage's value is the final thing yielded and every yielded request is new |
| Composer.Composer.ParseInline | common/common/common/composer.py:127-166 | the inline-mode loop yields exactly what `InlineRun` on the one-response deque yields and ends with its error; the last stage's value comes last and every yielded request is new |
| Composer.Composer.Turn | common/common/common/composer.py:129-165 | one loop turn keeps what was yielded before and appends the pass's output; when the run stops there, the whole output and error are the run's; otherwise the rest of the run from the new deque completes it |
| Composer.Composer.PassStep | common/common/common/composer.py:130-161 | the pass on the popped response fails, finishes or forwards as the plan for its URL and composer meta says; the forwarded requests are new and carry composer meta; the popped response's meta is created if absent and otherwise kept |
| Composer.Composer.InlinePass | common/common/common/composer.py:129-165 | pops the newest response (the right end), does its pass, and, unless the run stops, pushes the answered requests' responses on the right; the new deque shows the older entries followed by the answers |
| Composer.Push | common/common/common/composer.py:129-165 | the deque after a pass is the older entries, unchanged, followed by one response per answered request, in the order the requests were yielded |
| Composer.Planner | common/common/common/composer.py:130-157 | the pass for a pending response is `PlanStep` on its URL and composer meta |
| Composer.InlineRun | common/common/common/composer.py:127-166 | at most `fuel` passes; a run pops nothing exactly when the deque is empty or no fuel is left; the first response it pops is the newest (`queue.pop()` takes the right end); the last stage's value is the last thing yielded |
| Composer.InlineNewestFirst | common/common/common/composer.py:129-165 | after a pass that forwards requests without failing, the next response handled is the answer to the last forwarded request, before any older queued response |
| Composer.InlineFinishAbandons | common/common/common/composer.py:139-144 | the last stage yields its value once and ends the run, whatever is still queued |
| Composer.InlineFirstPass | common/common/common/composer.py:150-165 | a run on one response at an intermediate stage starts with exactly the requests that stage forwards; a pass that raises ends the run with that error right after them |
| Composer.InlineStop | common/common/common/composer.py:139-157 | a pass that finishes or raises ends the run: it yields the pass's output and ends with its error |
| Composer.InlineGo | common/common/common/composer.py:128-165 | a pass that goes on yields its output followed by the run from the deque with the answers pushed on, and the run ends with that run's error |
| Composer.TurnFacts | common/common/common/composer.py:128-166 | a turn appends the pass's output to what was yielded; the run then either stops with all it yields or continues from the new deque, so the loop's output stays a prefix of the run's |
| Composer.Answers | common/common/common/composer.py:163-165 | at most one response per forwarded request |
| Composer.AnswersAll | common/common/common/composer.py:163-165 | when the framework answers every forwarded request, each gets its response, in order, carrying that request's composer meta |
| Composer.Fetch | common/common/common/composer.py:163-165 | a forwarded request gets a new response exactly when the framework sends one back; the response belongs to that request |
| Composer.ForwardOuts | common/common/common/composer.py:150-159 | what an intermediate stage forwards: its leading requests, with no callback and composer meta holding their callback and the next stage |
| Composer.ForwardedOuts | common/common/common/composer.py:150-161 | the requests the forwarding loop yields show exactly `ForwardOuts` |
| Composer.ForwardRequests | common/common/common/composer.py:150-161 | the leading requests are forwarded, fresh and distinct, tagged for the next stage; the first non-request is the TypeError |
| Composer.AsYielded | common/common/common/composer.py:160-161 | each request yielded once, in order |
| Composer.ForwardedRequests | common/common/common/composer.py:150-161 | converted requests, yielded in order, are what forwarding promises |
| Composer.ConvertLeading | common/common/common/composer.py:150-159 | one fresh request per leading request, with the callback moved into the meta and `next_spider` set to the stage plus one |
| Composer.Enqueue | common/common/common/composer.py:162-165 | one new response per forwarded request that the framework answers, in the order the requests were yielded, each for one of those requests; what they show is `Answers` of the forwarded requests |
| Composer.NewComposer | common/common/common/composer.py:90-110 | a settings error is passed on; otherwise a fresh composer whose sub-spiders match the slot list one for one |
| Composer.Instantiate | common/common/common/composer.py:97-105 | one fresh sub-spider per slot, of that slot's class; with `initialize_once` each class path shares one instance, otherwise all instances differ |
| Composer.BuildComponentList | common/common/common/composer.py:242-287 | `_build_component_list(compdict)`: validation, then the collision check, then the class paths sorted by priority |
| Composer.GetCallback | common/common/common/composer.py:184-230 | `_get_callback(compmeta, scope)`: a callable or `None` as it is; a string first as a dotted path in the composer's scope, then as `importpath[ methodpath]` |
| Composer.SortByPriority | common/common/common/composer.py:287 | `sorted(slots, key=itemgetter(1))` as an insertion sort that keeps ties in input order |
| Infogreffe.Flag | org/fr/fr/spiders/infogreffe.py:166-176 | a flag is written `"true"` exactly when it is set, `"false"` otherwise |
| Infogreffe.BuildRequestFromParams | org/fr/fr/spiders/infogreffe.py:162-203 | fails with a ValueError exactly when neither a name nor a SIRET id is given; otherwise the search parameters and the `meta['query']` entries |
| Infogreffe.SectorTextPadded | org/fr/fr/spiders/infogreffe.py:188 | the sector is written with at least two digits, a one-digit sector with a leading `0` |
| Infogreffe.BaseParamsShape | org/fr/fr/spiders/infogreffe.py:169-177 | the fixed parameters have distinct keys and hold none of the optional ones |
| Infogreffe.PutIfShape | org/fr/fr/spiders/infogreffe.py:181-193 | setting an absent optional parameter appends it and keeps the keys distinct |
| Infogreffe.GetPutIf | org/fr/fr/spiders/infogreffe.py:181-193 | setting an optional parameter changes that parameter and no other |
| Infogreffe.OptionalParamsPrefix | org/fr/fr/spiders/infogreffe.py:181-193 | the optional parameters come after the fixed ones, which are unchanged |
| Infogreffe.OptionalParamsSpec | org/fr/fr/spiders/infogreffe.py:181-193 | each truthy argument lands under its own parameter, and a falsy one is absent |
| Infogreffe.SearchParamsSpec | org/fr/fr/spiders/infogreffe.py:169-193 | the parameters are the seven fixed ones, including the dissolved and branches flags, then each given argument under its parameter with the sector zero-padded; no key appears twice |
| Infogreffe.QueriedSpec | org/fr/fr/spiders/infogreffe.py:179-193 | `meta['query']` has a name, id, sector or location exactly when that argument is given, holding its value, and no other key |
| Infogreffe.Len | org/fr/fr/spiders/infogreffe.py:389-400 | `len` succeeds exactly on strings, lists and dicts and counts a list's items |
| Infogreffe.ResultsTotal | org/fr/fr/spiders/infogreffe.py:396-397 | `nbTotalResultats`, or 0 when it is falsy; fails only on a store that is not a dict |
| Infogreffe.ResultsLimit | org/fr/fr/spiders/infogreffe.py:399-400 | the number of items, 0 when there are none; fails on a store that is not a dict |
| Infogreffe.IsResultLimitedSpec | org/fr/fr/spiders/infogreffe.py:387-400 | a store is truncated exactly when `results_limit < results_total`; it is decided whenever both are numbers; a store without a total is never truncated |
| Infogreffe.IsResultLimitedCounts | org/fr/fr/spiders/infogreffe.py:387-394 | a store reporting `total` results with a list of items is truncated exactly when fewer items came back |
| Infogreffe.IdsOf | org/fr/fr/spiders/infogreffe.py:381-384 | `d.get('id')` of each item, in order |
| Infogreffe.ItemIds | org/fr/fr/spiders/infogreffe.py:381-384 | succeeds exactly when every item is a dict, giving the truthy ids in order; otherwise an AttributeError |
| Infogreffe.ParseResultsSpec | org/fr/fr/spiders/infogreffe.py:374-385 | a falsy store gives no ids; an unsuccessful one raises the search error; every id returned is truthy, and for a list of dicts they are exactly the truthy ids |
| Infogreffe.IncludedPrefix | org/fr/fr/spiders/infogreffe.py:322-330 | only known stores are included |
| Infogreffe.IncludedStoresSpec | org/fr/fr/spiders/infogreffe.py:317-330 | each store is included exactly when its option is set, in the fixed order, with no name twice |
| Infogreffe.Stores | org/fr/fr/spiders/infogreffe.py:327-330 | each included store's name bound to the response's value under its key |
| Infogreffe.StoresSnoc | org/fr/fr/spiders/infogreffe.py:328-330 | one more included store adds one entry at the end |
| Infogreffe.AllStores | org/fr/fr/spiders/infogreffe.py:301-326 | with every option set the stores are registered, nonregistered, other; leaving one out shortens the list |
| Infogreffe.MapStores | org/fr/fr/spiders/infogreffe.py:327-330 | the loop builds exactly the included stores, with distinct names |
| Infogreffe.ApplyTask | org/fr/fr/spiders/infogreffe.py:332 | the task's results for every store, in order, or the error of the first store whose task fails |
| Infogreffe.DetailBatches | org/fr/fr/spiders/infogreffe.py:368-369 | the `grouper` groups of the ids, with the padding dropped |
| Infogreffe.TruthiesNone | org/fr/fr/spiders/infogreffe.py:369 | the padding is all dropped |
| Infogreffe.DetailBatchesSpec | org/fr/fr/spiders/infogreffe.py:368-369 | for truthy ids the batches, concatenated, are the ids; each is non-empty with at most `max_batch_size` ids, and all but the last are full |
| Infogreffe.DetailBatchesCons | org/fr/fr/spiders/infogreffe.py:368-369 | a full first batch is followed by the batches of the rest |
| Infogreffe.DetailBatchesShort | org/fr/fr/spiders/infogreffe.py:368-369 | fewer ids than the batch size make one batch |
| Infogreffe.BuildDetailBatches | org/fr/fr/spiders/infogreffe.py:368-372 | the loop yields exactly the batches |
| Infogreffe.DetailBody | org/fr/fr/spiders/infogreffe.py:370 | the body of a detail request holds no space |
| Infogreffe.WithoutConcat | org/fr/fr/spiders/infogreffe.py:370 | removing spaces distributes over concatenation |
| Infogreffe.IntTexts | org/fr/fr/spiders/infogreffe.py:370 | each id as text, in order |
| Infogreffe.IntValues | org/fr/fr/spiders/infogreffe.py:370 | each id as an integer value, in order |
| Infogreffe.JoinIntsWithout | org/fr/fr/spiders/infogreffe.py:370 | the comma-space-joined reprs with spaces removed are the ids joined by commas |
| Infogreffe.DetailBodyOfInts | org/fr/fr/spiders/infogreffe.py:370 | for integer ids the body is `[id1,id2,...]` |
| Infogreffe.SearchRequests | org/fr/fr/spiders/infogreffe.py:335-346 | one request per refined query, with that query and `meta['query']['name']` set to its term |
| Infogreffe.LoggedQuery | org/fr/fr/spiders/infogreffe.py:269-292 | logging succeeds exactly when `meta['query']` has both a name and a sector |
| Infogreffe.AllIds | org/fr/fr/spiders/infogreffe.py:283-285 | every id comes from one of the stores |
| Infogreffe.SearchParser.constructor | org/fr/fr/spiders/infogreffe.py:236-244 | a truthy `max_batch_size` replaces the default 500 |
| Infogreffe.SearchParser.Parse | org/fr/fr/spiders/infogreffe.py:246-299 | the result is what `ParseSpec` describes for the candidates the resolver generates; the resolver's settings change only when it raises `min_length` to one past the current term |
| Infogreffe.BuildSearchRequests | org/fr/fr/spiders/infogreffe.py:335-346 | the loop yields exactly the refined requests |
| Infogreffe.RefineSpec | org/fr/fr/spiders/infogreffe.py:261-276 | on a truncated search each new request carries a new term (a candidate, never the old term), matches the old query elsewhere, and records the term in `meta['query']` (also lines 335-346) |
| Infogreffe.DetailsSpec | org/fr/fr/spiders/infogreffe.py:278-299 | on an untruncated search the batches, concatenated, are every id of every store in order, each batch holding at most the batch size (also lines 368-372) |
| Infogreffe.DetailOutcomeSpec | org/fr/fr/spiders/infogreffe.py:280-299 | the same, for the untruncated branch alone |
| Infogreffe.MissingStoreFails | org/fr/fr/spiders/infogreffe.py:261 | a response missing the registered store fails with an AttributeError (also lines 330, 388) |
| Infogreffe.GeneratedQueryIsLogged | org/fr/fr/spiders/infogreffe.py:144-149 | the requests the generator builds carry the name and sector that `parse` logs (also lines 181-190, 269-275) |
| Infogreffe.Slug | org/fr/fr/spiders/infogreffe.py:498 | every non-word character becomes `-`, the others stay |
| Infogreffe.BuildUrlIdSpec | org/fr/fr/spiders/infogreffe.py:489-502 | with all fields present and strings, the page id is `{id}-{slug of lowered name}-{numeroDossier}{etablissementChrono}` |
| Infogreffe.SlugLower | org/fr/fr/spiders/infogreffe.py:497-498 | the name part holds only `-` and word characters that are not upper-case |
| Infogreffe.BuildUrlIdMissing | org/fr/fr/spiders/infogreffe.py:495-507 | a missing field leads to the `except KeyError` handler, which fails with a NameError on `traceback` |
| Infogreffe.BuildUrlIdLogged | org/fr/fr/spiders/infogreffe.py:503-507 | the handler as intended: a missing field gives `''`; it agrees with the source wherever that succeeds, and only malformed fields still fail |
| Infogreffe.RouteOf | org/fr/fr/spiders/infogreffe.py:543-555 | a response goes to the search parser exactly when the search pattern matches, and to the detail parser exactly when only the detail pattern does |
| Infogreffe.Dispatch | org/fr/fr/spiders/infogreffe.py:555 | any other response is passed through unchanged |
| Infogreffe.MatchesAtHost | org/fr/fr/spiders/infogreffe.py:544-548 | every URL on the API host with an endpoint matches that endpoint's pattern |
| Infogreffe.SearchNeedsA | org/fr/fr/spiders/infogreffe.py:545 | a URL matching the search pattern contains a lower-case `a` |
| Infogreffe.SearchUrlRoutes | org/fr/fr/spiders/infogreffe.py:160 | every search URL the spiders build goes to the search parser (also lines 551-552) |
| Infogreffe.DetailUrlRoutes | org/fr/fr/spiders/infogreffe.py:352 | the detail URL goes to the detail parser (also lines 553-554) |
| Infogreffe.DotMatchesAny | org/fr/fr/spiders/infogreffe.py:544 | the unescaped `.` of the pattern, which matches any character but a newline, also routes `infogreffe-com` |
| Infogreffe.IsResultLimited | org/fr/fr/spiders/infogreffe.py:387-400 | `is_result_limited(result)`: an AttributeError for a store that is not a dict, a TypeError for a total that is not a number, otherwise whether fewer items came back than the total; `IsResultLimitedSpec` states it |
| Infogreffe.ParseResults | org/fr/fr/spiders/infogreffe.py:374-385 | `parse_results(result)`: nothing for a falsy store, the search error for an unsuccessful one, a TypeError when `items` is not iterable, otherwise the truthy ids of the items |
| Infogreffe.ParseSpec | org/fr/fr/spiders/infogreffe.py:246-299 | `parse(response)` on the decoded JSON: a truncated store refines the query with the resolver's candidates, otherwise the ids of every store go out in batches |
| Infogreffe.BuildUrlId | org/fr/fr/spiders/infogreffe.py:489-507 | `build_url_id(data)`: `{id}-{slug of lowered name}-{numeroDossier}{etablissementChrono}`, a NameError on `traceback` for a missing key, and the type errors of a malformed field |
| CompaniesBySec.SubRunsDash | org/ukveda/scripts/companies_by_sec.py:54 | the result has no whitespace and no `-` |
| CompaniesBySec.EscapeName | org/ukveda/scripts/companies_by_sec.py:52-55 | every character of an escaped name is in `[a-z0-9_]` |
| CompaniesBySec.EscapeNameIsRef | org/ukveda/scripts/companies_by_sec.py:52-55 | the three rewriting passes equal one left-to-right pass: `&` gives `and`, a whitespace run or a `-` gives one `_`, a character of `[A-Za-z0-9_]` its lower case, anything else nothing |
| CompaniesBySec.EscapeRefKeeps | org/ukveda/scripts/companies_by_sec.py:52-55 | a name made of `[a-z0-9_]` is left as it is |
| CompaniesBySec.EscapeNameIdempotent | org/ukveda/scripts/companies_by_sec.py:52-55 | escaping an escaped name changes nothing |
| CompaniesBySec.FormatNace | org/ukveda/scripts/companies_by_sec.py:71-72 | a code shorter than five characters is left-padded with `0` to five; a longer one is unchanged |
| CompaniesBySec.FormatNaceParses | org/ukveda/scripts/companies_by_sec.py:71-72 | a code printed by `str` and padded reads back as the same number, for negative codes too (also line 138) |
| CompaniesBySec.ApplyFns | org/ukveda/scripts/companies_by_sec.py:67-69 | each element is put through all the functions, left to right |
| CompaniesBySec.ComposeAppend | org/ukveda/scripts/companies_by_sec.py:68 | applying `f + g` is applying `f`, then `g` |
| CompaniesBySec.ApplyFnsAppend | org/ukveda/scripts/companies_by_sec.py:67-69 | two calls in a row equal one call with the functions concatenated (also line 138) |
| CompaniesBySec.WordRun | org/ukveda/scripts/companies_by_sec.py:97 | splits off the longest leading run of word characters |
| CompaniesBySec.Assignment | org/ukveda/scripts/companies_by_sec.py:96-100 | a comment line matches only when it starts with `#`, and then gives a word key and a word value |
| CompaniesBySec.AssignmentOf | org/ukveda/scripts/companies_by_sec.py:97-100 | `#`, spaces, a word, spaces, `=`, spaces and a word yields that word pair, whatever follows |
| CompaniesBySec.DataLine | org/ukveda/scripts/companies_by_sec.py:109-110 | a data line gives a code and a non-empty name with no tab and no trailing whitespace, or the ValueError of a malformed line |
| CompaniesBySec.DataLineOf | org/ukveda/scripts/companies_by_sec.py:109-110 | a line written as code, tab, name and line break reads back as that code and name |
| CompaniesBySec.Reset | org/ukveda/scripts/companies_by_sec.py:86-105 | after `reset_vars` there is no previous code and no environment, and the categories found are kept |
| CompaniesBySec.CategName | org/ukveda/scripts/companies_by_sec.py:115-117 | the escaped name, after `{prefix}_` exactly when the environment sets `prefix` |
| CompaniesBySec.StepDistinct | org/ukveda/scripts/companies_by_sec.py:108-120 | one line of the loop keeps the category names distinct |
| CompaniesBySec.ParseLinesDistinct | org/ukveda/scripts/companies_by_sec.py:95-120 | the whole loop keeps the category names distinct |
| CompaniesBySec.ParseSingleFile | org/ukveda/scripts/companies_by_sec.py:89-121 | a file's result has each category name once |
| CompaniesBySec.ParseSingleFileLoop | org/ukveda/scripts/companies_by_sec.py:89-121 | the loop with its variables computes what `ParseSingleFile` describes |
| CompaniesBySec.BlankLineResets | org/ukveda/scripts/companies_by_sec.py:103-106 | a blank line resets the parser, so the next data line defines no category |
| CompaniesBySec.NoCategoryAfterStop | org/ukveda/scripts/companies_by_sec.py:112-113 | a data line after the stop name `!` adds no category |
| CompaniesBySec.DataLineDefinesPrevious | org/ukveda/scripts/companies_by_sec.py:108-120 | a data line gives the previous line's category the range from the previous code up to its own code; the other categories are unchanged and the line becomes the previous one |
| CompaniesBySec.PrefixComment | org/ukveda/scripts/companies_by_sec.py:96-117 | `# prefix = v` changes only the environment, and every later category name then starts with `v_` |
| CompaniesBySec.TwoLineSection | org/ukveda/scripts/companies_by_sec.py:89-121 | two data lines give exactly one category, the first line's, ranging up to the second line's code |
| CompaniesBySec.MergeFilesSnoc | org/ukveda/scripts/companies_by_sec.py:123-127 | one more file merges its categories over the ones before, or passes on its error |
| CompaniesBySec.LaterFileWins | org/ukveda/scripts/companies_by_sec.py:123-127 | a later file overrides the ranges of the names it shares with earlier files and keeps the rest |
| CompaniesBySec.MergeFilesFails | org/ukveda/scripts/companies_by_sec.py:123-127 | parsing fails exactly when one of the files fails |
| CompaniesBySec.NaceColumns | org/ukveda/scripts/companies_by_sec.py:33-34 | `datarow[26:30]`: the code columns of a row, fewer or none for a short row (also line 190) |
| CompaniesBySec.InCategoryOf | org/ukveda/scripts/companies_by_sec.py:190-194 | a row joins a category when one of its code columns contains a code of the range anywhere, inside a longer code too |
| CompaniesBySec.AnyColumn | org/ukveda/scripts/companies_by_sec.py:194 | true exactly when the code occurs in one of the columns |
| CompaniesBySec.Matches | org/ukveda/scripts/companies_by_sec.py:192-194 | true exactly when some code of the range occurs in one of the columns |
| CompaniesBySec.Joined | org/ukveda/scripts/companies_by_sec.py:191-194 | no more categories than there are ranges |
| CompaniesBySec.JoinedHas | org/ukveda/scripts/companies_by_sec.py:191-194 | a category is listed exactly when one of its ranges passes the test |
| CompaniesBySec.RowCategories | org/ukveda/scripts/companies_by_sec.py:191-205 | the loop lists, in order, exactly the categories whose range hits one of the row's code columns |
| CompaniesBySec.Step | org/ukveda/scripts/companies_by_sec.py:95-120 | one iteration of the `parse_single_file` loop: `line[0]` fails on an empty line, a comment line may set a variable, a blank line resets the current name, a data line records the range of the previous name unless that is `!` or there is none |
| CompaniesBySec.ParseLines | org/ukveda/scripts/companies_by_sec.py:89-121 | `parse_single_file`: `Step` over the lines in order, stopping at the first exception; `ParseLinesSpec` and its neighbours state what it records |
| CompaniesBySec.MergeFiles | org/ukveda/scripts/companies_by_sec.py:123-127 | `reduce(lambda d, d1: {**d, **d1}, ...)` over the parsed files: a later file's name overrides an earlier one's |
| CompaniesBySec.ParseNace | org/ukveda/scripts/companies_by_sec.py:85-128 | `parse_nace(files)`: every file parsed, then merged from the empty dict; the first failing file's error is the result |
| CompaniesBySec.InCategory | org/ukveda/scripts/companies_by_sec.py:190-194 | the row test of `parse_data_python`: some code of the range occurs in one of the row's code columns |
| SkMergeCsvs.EscapeWhitespace | org/skveda/scripts/merge_csvs.py:49-56 | the result holds no whitespace |
| SkMergeCsvs.SplitSpacesWords | org/skveda/scripts/merge_csvs.py:55 | on a stripped, non-empty string `re.split(r'\s+', t)` gives its words |
| SkMergeCsvs.EscapeWhitespaceJoinsWords | org/skveda/scripts/merge_csvs.py:49-56 | `escape_whitespace(s)` is the words of `s` joined by `_` |
| SkMergeCsvs.EscapeWhitespacePlain | org/skveda/scripts/merge_csvs.py:49-56 | text without whitespace is left as it is |
| SkMergeCsvs.CleanHeader | org/skveda/scripts/merge_csvs.py:88-97 | a cleaned header holds only characters of `[a-z0-9_]` |
| SkMergeCsvs.CleanHeaderIdempotent | org/skveda/scripts/merge_csvs.py:95-97 | cleaning a cleaned header changes nothing |
| SkMergeCsvs.RunsAreSpace | org/skveda/scripts/merge_csvs.py:66 | every run `re.findall(r'\s+', s)` finds is a non-empty stretch of whitespace |
| SkMergeCsvs.Token | org/skveda/scripts/merge_csvs.py:68-71 | a run's replacement is one or two whitespace characters, holding `\n` and `\r` exactly when the run does, and a single space when it holds neither |
| SkMergeCsvs.ReduceWhitespaceLoop | org/skveda/scripts/merge_csvs.py:59-73 | the loop computes `reduce_whitespace` as written: each run in turn replaced everywhere in the text the earlier replacements left |
| SkMergeCsvs.ReplaceRunsEnds | org/skveda/scripts/merge_csvs.py:67-72 | replacing whitespace runs keeps a stripped text's first and last characters |
| SkMergeCsvs.ReduceWhitespaceStripped | org/skveda/scripts/merge_csvs.py:65-73 | the output has no leading or trailing whitespace, and is empty exactly when the input is all whitespace |
| SkMergeCsvs.Visible | org/skveda/scripts/merge_csvs.py:59-73 | the non-whitespace characters, in order |
| SkMergeCsvs.VisibleReplace | org/skveda/scripts/merge_csvs.py:72 | replacing whitespace by whitespace keeps the non-whitespace text |
| SkMergeCsvs.ReduceWhitespaceKeepsText | org/skveda/scripts/merge_csvs.py:59-73 | `reduce_whitespace` changes only whitespace: the non-whitespace characters are kept, in order |
| SkMergeCsvs.ExampleRuns | org/skveda/scripts/merge_csvs.py:66 | in `x\ty\t\nz` the runs are `\t` and `\t\n` |
| SkMergeCsvs.ExampleReplaced | org/skveda/scripts/merge_csvs.py:67-72 | replacing `\t` everywhere first also rewrites the tab of the second run, which is then no longer found |
| SkMergeCsvs.ReduceWhitespaceMissesRun | org/skveda/scripts/merge_csvs.py:65-73 | on `x\ty\t\nz` the source gives `x y \nz`, with two whitespace characters in a row, where one token per run gives `x y\nz` |
| SkMergeCsvs.SqueezeReduced | org/skveda/scripts/merge_csvs.py:59-64 | replacing each run by its token leaves no two whitespace characters in a row, except `\n\r` |
| SkMergeCsvs.ReduceWhitespaceFixed | org/skveda/scripts/merge_csvs.py:59-64 | the corrected `reduce_whitespace` is stripped and has every run reduced to one token |
| SkMergeCsvs.ReduceWhitespaceFixedKeepsText | org/skveda/scripts/merge_csvs.py:59-64 | the corrected version changes only whitespace too |
| SkMergeCsvs.CleanCell | org/skveda/scripts/merge_csvs.py:110 | a cleaned cell is reduced, stripped and has no upper-case letter; the reduction used is `ReduceWhitespaceFixed`, not the as-written `reduce_whitespace` the chain calls (see Findings and Left out) |
| SkMergeCsvs.LowerReduced | org/skveda/scripts/merge_csvs.py:110 | lower-casing keeps the whitespace where it is |
| SkMergeCsvs.Runs | org/skveda/scripts/merge_csvs.py:66 | `re.findall(r'\s+', s)`: the maximal whitespace runs of the stripped text, left to right; `ReduceWhitespaceFixed`'s lemmas rely on it |
| SkMergeCsvs.ReplaceRuns | org/skveda/scripts/merge_csvs.py:67-72 | the loop over the runs: each run in turn replaced everywhere, by substring, with its token in the text the earlier runs left |
| SkMergeCsvs.ReduceWhitespace | org/skveda/scripts/merge_csvs.py:59-73 | `reduce_whitespace` as written: strip, find the runs, then replace them one by one by substring; the Findings row shows where this differs from the docstring |
| SkMergeCsvs.Squeeze | org/skveda/scripts/merge_csvs.py:59-64 | the docstring's intent: each maximal whitespace run replaced, where it stands, by its token (a newline if it has one, else a space); the basis of `ReduceWhitespaceFixed` |
| Text.Strip | event/event/pipelines.py:286 | `str.strip()`: the result has no whitespace at either end and is never longer than its input |
| Text.StripTrims | event/event/pipelines.py:286 | `str.strip()` removes a whitespace prefix and a whitespace suffix and nothing else: the result is a contiguous slice of the input with only whitespace around it |
| Text.StripIdempotent | event/event/pipelines.py:286 | stripping twice is stripping once |
| Text.Split | common/common/common/composer.py:212-222 | `str.split(sep)`: at least one part, no part holding the separator, and one part exactly when the separator is absent |
| Text.SplitJoin | org/ukveda/scripts/companies_by_sec.py:109 | joining the parts of a split with the separator gives the string back |
| Text.JoinSplit | org/ukveda/scripts/companies_by_sec.py:109 | splitting parts joined by a separator they do not hold gives the parts back |
| Text.ZFill | org/fr/fr/spiders/infogreffe.py:188 | `str.zfill(width)`: padded with `0` to the width on the left, a longer string unchanged |
| Text.ParseIntToStr | org/ukveda/scripts/companies_by_sec.py:110 | `int(str(i)) == i` |
| Text.Words | org/skveda/skveda/spiders/sk_moi_spider.py:134 | `str.split()`: non-empty pieces without whitespace |
| Text.WordsJoin | org/skveda/skveda/spiders/sk_moi_spider.py:134 | splitting words joined by spaces gives the words back |
| Text.StripSpacedJoin | org/skveda/skveda/spiders/sk_moi_spider.py:134 | words joined by spaces, after a leading space, strip back to the joined words |
| Values.Truthies | common/common/common/util.py:308-309 | `lfilter(None, xs)`: exactly the truthy values of `xs`, never more of them |
| Values.TruthiesAppend | common/common/common/util.py:308-309 | filtering distributes over concatenation |
| Values.TruthiesAll | common/common/common/util.py:308-309 | a list of truthy values is kept whole |
| Values.Or | org/fr/fr/spiders/infogreffe.py:388-389 | `v or fallback`: `v` when it is truthy, the fallback otherwise |
| Values.Get | org/fr/fr/spiders/infogreffe.py:330 | `d.get(k)`: absent exactly when no pair has key `k`, otherwise the value of a pair with that key |
| Values.Put | org/fr/fr/spiders/infogreffe.py:181-193 | `d[k] = v` keeps the keys and their order when `k` is present and appends the pair otherwise |
| Values.GetPut | org/fr/fr/spiders/infogreffe.py:181-193 | after `d[k] = v`, `k` reads `v` and every other key reads as before |
| Values.PutKeepsDistinct | org/fr/fr/spiders/infogreffe.py:181-193 | assignment never duplicates a key |
| Values.GetOverlay | org/ukveda/scripts/companies_by_sec.py:123-127 | in `{**d1, **d2}` a key of `d2` reads its `d2` value and any other key its `d1` value |
| Values.OverlayFresh | org/ukveda/scripts/companies_by_sec.py:123-127 | merging a dict whose keys are all new appends its pairs in order |
| Repr.StrOf | common/common/common/util.py:318-319 | `str(v)`: a string is its own text, an integer its decimal digits |
| Repr.StrRepr | org/fr/fr/spiders/infogreffe.py:370 | `repr` of a string is quoted with the same quote at both ends |
| Repr.PlainRepr | org/fr/fr/spiders/infogreffe.py:370 | a string without quotes, backslashes or control characters is shown between single quotes |
| Patterns.SplitSpaces | org/skveda/scripts/merge_csvs.py:55 | `re.split(r'\s+', s)`: at least one piece, none holding whitespace |
| Patterns.NameChars | org/skveda/scripts/merge_csvs.py:88-90 | `re.sub(r'[^a-z0-9_]', '', s)`: only characters of `[a-z0-9_]` remain, never more than were there |
| Patterns.NameCharsConcat | org/skveda/scripts/merge_csvs.py:88-90 | the filter distributes over concatenation |
| Patterns.NameCharsKeeps | org/skveda/scripts/merge_csvs.py:88-90 | text made of `[a-z0-9_]` is kept whole |

## Left out

- File reading and writing, logging, the network and the clock. CSV files are the rows `csv.reader` gives; the clock is a parameter.
- Selenium-driven pages and the settings loaders: they call code outside the core.
- urllib's URL splitting, quoting and `urlencode`: a query string is modelled as the map from parameter name to its first value.
- Regular expressions are ASCII predicates. `\w` and `\s` are ASCII-only, so Unicode classes are not modelled.
- `str.lower` on non-ASCII letters: only ASCII case mapping is modelled.
- Repr.EscapeChar: Python's `repr` also escapes the characters from U+0080 up that it does not count as printable (U+0080 to U+009F, U+00A0, U+00AD and others). The model renders every character from U+0080 up as itself, so `repr` of such text differs from the source's.
- `strip_accents`: modelled as the identity, which it is on ASCII text.
- The pandas parts of org/skveda/scripts/merge_csvs.py: reading, concatenating and writing frames.
- SkMergeCsvs.CleanCell: uses the corrected `ReduceWhitespaceFixed`. The chain at org/skveda/scripts/merge_csvs.py:110 calls `reduce_whitespace` as written, which SkMergeCsvs.ReduceWhitespace models (see Findings). A cell on which the two differ is cleaned differently by the source.
- `apply_fns` in org/skveda/scripts/merge_csvs.py names `df` before it is bound. The script as written therefore stops with a NameError before any cleaning. The model covers the cleaning functions as the chain intends.
- `parse_data_grep` in org/ukveda/scripts/companies_by_sec.py (line 131) uses the undefined names `nace`, `dest_dirs` and `nace_index` (lines 133-137), so it has no behaviour to model.
- `remove_adjacent_dup` in common/common/common/util.py uses an undefined `x` (line 228), so it has no behaviour to model.
- `custom_start_requests` in sk_moj_spider.py reads the undefined name `end` (line 275), so it is not modelled.
- `MultiOut`, `get_extension`, `get_time_tag` and the other small file and date helpers of companies_by_sec.py (org/ukveda/scripts/companies_by_sec.py:39-60): they are I/O or clock work.
- Combinations.StringCombinations and SkMoj.SearchNode: the model works on any characters. The source builds `bytearray(seed, "ascii")` (common/common/common/util.py:69, org/skveda/skveda/spiders/sk_moj_spider.py:364), which raises UnicodeEncodeError on a non-ASCII seed. Writing a character whose `ord` is above 255 into it also fails. Neither error is modelled.
- Combinations.StringCombinations: bounded by `fuel`, a limit on recursion depth. The source recurses without bound and can fail to terminate, for example with unsorted `valid_chars` and a `start`. The model states only what is yielded within the given depth.
- Composer.Composer.Parse: the inline-mode loop is bounded by `fuel` passes, in Composer.Composer.ParseInline and Composer.InlineRun alike. What happens after the fuel runs out is not modelled.
- Composer.InlineRun: the source yields each forwarded request and receives its response before it converts the next one. The model converts all of a pass's leading requests first and then pushes their answers in order. Only the order of the pushes is visible to the loop, and it is the same.
- Composer.ConvertLeading, Composer.ForwardRequests and Composer.Composer.StartRequests: the source changes the sub-spider's own Request objects in place (common/common/common/composer.py:168-182). It sets their `callback` to `None`, creates `meta['composer']` when absent and writes into it. The model yields fresh copies that carry those values, so it does not capture that the sub-spider's objects change. It also does not capture two requests sharing one `meta['composer']` dict, as they do when a sub-spider shallow-copies `meta` between requests: the model writes each request's composer meta separately.
- Util.SoftUpdate: with `copy=True` the source still shares nested values with `d1`. `out[k] = v` (common/common/common/util.py:258) stores `d1`'s own nested dicts and lists in the copy. A later equal key's `update` or `extend` (lines 264, 271 and 273) then changes those nested values of `d1` during the call. The model treats values as immutable, so it states only that `d1`'s entries are not reassigned.
- Util.SoftUpdateCopyAgrees: the same sharing is left out: it compares the entries computed, not which objects hold them.
- Infogreffe.BuildSearchRequests: every request shares one `meta['query']` dict object. The model gives each request its own copy, so that aliasing is not captured.
- `inline_requests`: the decorator's generator plumbing is not modelled. The composer's inline mode takes the response for a request from a parameter.
- The sector descriptions of companies_by_sec.py and the `parse_item` of DetailsSpider: they are data tables and page scraping.

## Findings

| source | as written | input that shows it | evidently intended | confidence | as-written member | corrected member |
|---|---|---|---|---|---|---|
| org/skveda/skveda/spiders/sk_moj_spider.py:338-340 | `process_source_line` is a generator, so `return scrapy.Request(...)` for an entry line ends it without yielding anything | the line `http://www.orsr.sk/vypis.asp?ID=1&SID=2&P=0` | the entry page is requested, as by the base class | not executed | SkMoj.SampleEntryLineDropped | SkMoj.EntryLineDropped |
| org/skveda/scripts/merge_csvs.py:65-72 | `reduce_whitespace` replaces each found run everywhere in the text, which can rewrite a later run so that it is no longer found | `"a\tb\t\nc"` gives `"a b \nc"` | every whitespace run is reduced to one token: `"a b\nc"` | not executed | SkMergeCsvs.ReduceWhitespaceMissesRun | SkMergeCsvs.ReduceWhitespaceFixed |
| org/fr/fr/spiders/infogreffe.py:503-507 | the `except KeyError` handler calls `traceback.format_exc()`, but `traceback` is never imported, so it raises a NameError | a company record without `numeroDossier` | the error is logged and `''` is returned | not executed | Infogreffe.BuildUrlIdMissing | Infogreffe.BuildUrlIdLogged |
