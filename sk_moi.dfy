/** The spiders of the registries of the Slovak Ministry of Interior
    (org/skveda/skveda/spiders/sk_moi_spider.py): one spider per registry,
    each starting from the registry's list page, following every entry link
    and every next-page link, and reading an entry page into an item whose
    common fields come from the shared `parse_entry` and whose extra fields
    come from the registry's own one. Reading a labelled field out of the
    HTML is XPath work and is a parameter here: `extract(field)` is what
    `extract_entry_form(response, field)` returns for the page, the texts
    found under any of the field's labels joined by line feeds. */
module SkMoi {
  import opened Base
  import opened Text
  import opened Values
  import SkMoj

  // ---------------------------------------------------------------------
  // The registries

  datatype Spider =
    | NonInvestmentFunds
    | Foundations
    | IntOrganisations
    | Npos
    | CivilSocieties
    | InterestAssociations
    | ProfessionalAssociations
    | Unions
    | OtherAssociations
    | PoliticalParties
    | MunicipalityAssociations
    | PremiseOwners

  /** The `registry_code` of each spider, the `type` of its list page. */
  function Code(r: Spider): string
  {
    match r
    case NonInvestmentFunds => "rnf"
    case Foundations => "rnd"
    case IntOrganisations => "omp"
    case Npos => "rno"
    case CivilSocieties => "oz"
    case InterestAssociations => "zzpo"
    case ProfessionalAssociations => "zs"
    case Unions => "odz"
    case OtherAssociations => "zpc"
    case PoliticalParties => "ps"
    case MunicipalityAssociations => "zzob"
    case PremiseOwners => "svb"
  }

  /** The scrapy `name` of each spider. */
  function SpiderName(r: Spider): string
  {
    match r
    case NonInvestmentFunds => "noninvestment_funds"
    case Foundations => "foundations"
    case IntOrganisations => "int_organisations"
    case Npos => "npos"
    case CivilSocieties => "civil_societies"
    case InterestAssociations => "interest_associations"
    case ProfessionalAssociations => "professional_associations"
    case Unions => "unions"
    case OtherAssociations => "other_associations"
    case PoliticalParties => "political_parties"
    case MunicipalityAssociations => "municipality_associations"
    case PremiseOwners => "premise_owners"
  }

  /** Different registries have different codes, so no two spiders crawl
      the same list. */
  lemma CodesDistinct(r1: Spider, r2: Spider)
    ensures r1 != r2 ==> Code(r1) != Code(r2) && SpiderName(r1) != SpiderName(r2)
  {
  }

  const Host: string := "http://ives.minv.sk"
  const ListPath: string := "/rez/registre/pages/list.aspx"

  /** The list page URL up to the `=` of its `type` parameter. */
  const ListPage: string := Host + ListPath + "?type"

  /** `start_urls`: the registry's list page. */
  function StartUrls(r: Spider): (urls: seq<string>)
    ensures |urls| == 1 && StartsWith(urls[0], ListPage + "=")
  {
    [ListPage + "=" + Code(r)]
  }

  /** The `type` parameter of the start URL reads back as the registry code. */
  lemma StartUrlType(r: Spider)
    ensures Split(StartUrls(r)[0], '=') == [ListPage, Code(r)]
  {
    assert '=' !in ListPage by {
      assert '=' !in Host && '=' !in ListPath && '=' !in "?type";
    }
    assert Split(Code(r), '=') == [Code(r)] by {
      assert '=' !in Code(r);
      SplitNoSep(Code(r), '=');
    }
    SplitConcat(ListPage, Code(r), '=');
  }

  // ---------------------------------------------------------------------
  // Field names

  /** The names of the labelled fields of an entry page and of the columns
      of an item. */
  datatype Field =
    | LegalForm
    | Id
    | Address
    | Website
    | RegId
    | RegOffice
    | RegDate
    | CancelDate
    | CancelReason
    | LiqStartDate
    | LiqEndDate
    | Name
    | AssetValue
    | Founders
    | Trustees
    | Objective
    | Description
    | Director
    | Bodies
    | Abbr
    | Municipalities
    | City
    | Country
    | EconomicArea
    | Registry
    | Liquidation
    | Timestamp

  /** The key the source uses for each field. */
  function Key(f: Field): string
  {
    match f
    case LegalForm => "legal_form"
    case Id => "id"
    case Address => "address"
    case Website => "website"
    case RegId => "reg_id"
    case RegOffice => "reg_office"
    case RegDate => "reg_date"
    case CancelDate => "cancel_date"
    case CancelReason => "cancel_reason"
    case LiqStartDate => "liq_start_date"
    case LiqEndDate => "liq_end_date"
    case Name => "name"
    case AssetValue => "asset_value"
    case Founders => "founders"
    case Trustees => "trustees"
    case Objective => "objective"
    case Description => "description"
    case Director => "director"
    case Bodies => "bodies"
    case Abbr => "abbr"
    case Municipalities => "municipalities"
    case City => "city"
    case Country => "country"
    case EconomicArea => "economic_area"
    case Registry => "registry"
    case Liquidation => "liquidation"
    case Timestamp => "timestamp"
  }

  // ---------------------------------------------------------------------
  // Field labels

  /** The labels `form_field_text` has for every registry. */
  function BaseLabel(f: Field): Option<seq<string>>
  {
    match f
    case LegalForm => Some(["Legal form", "Právna forma"])
    case Id => Some(["Identification number (IČO)", "IČO"])
    case Address => Some(["Seat", "Sídlo"])
    case Website => Some(["Website", "Webové sídlo"])
    case RegId => Some(["Registration number", "Registračné číslo"])
    case RegOffice => Some(["Registration Office", "Registrový úrad"])
    case RegDate => Some(["Date of registration", "Dátum vzniku"])
    case CancelDate => Some(["Date of cancellation", "Dátum zrušenia"])
    case CancelReason => Some(["Legal title of Cancellation", "Právny dôvod zrušenia"])
    case LiqStartDate => Some(["Date of liquidation start", "Dátum vstupu do likvidácie"])
    case LiqEndDate => Some(["Date of liquidation end", "Dátum ukončenia likvidácie"])
    case _ => None
  }

  /** `custom_form_field_text` of each spider. */
  function CustomLabel(r: Spider, f: Field): Option<seq<string>>
  {
    match r
    case NonInvestmentFunds => (
      match f
      case Name => Some(["Name of fund", "Názov fondu"])
      case AssetValue => Some(["Actual value of the foundation assets", "Aktuálna hodnota nadačného imania"])
      case Founders => Some(["Founders (Legal persons)", "Founders (Natural persons)", "Zriaďovatelia (Právnické osoby)", "Zriaďovatelia (Fyzické osoby)"])
      case Trustees => Some(["Statutory body: Trustee", "Štatutárny orgán: Správca"])
      case Objective => Some(["Supported purpose", "Podporovaný účel"])
      case Description => Some(["Description of the supported purpose", "Popis podporovaného účelu"])
      case _ => None)
    case Foundations => (
      match f
      case Name => Some(["Name of foundation", "Názov nadácie"])
      case AssetValue => Some(["Actual value of the foundation assets", "Aktuálna hodnota nadačného imania"])
      case Founders => Some(["Founders", "Zakladatelia"])
      case Description => Some(["Welfare purpose supported by the Foundation", "Verejnoprospešný účel, ktorý nadácia podporuje"])
      case _ => None)
    case IntOrganisations => (
      match f
      case Name => Some(["Name of organisation", "Názov organizácie"])
      case Founders => Some(["Persons entitled to act on behalf of the association (Natural persons)", "Osoby oprávnené konať v mene organizácie (Fyzické osoby)"])
      case Description => Some(["Content of Activity", "Obsah činnosti"])
      case _ => None)
    case Npos => (
      match f
      case Name => Some(["Name of organisation", "Názov organizácie"])
      case Founders => Some(["Founders (Legal persons)", "Founders (Natural persons)", "Zakladatelia (Právnické osoby)", "Zakladatelia (Fyzické osoby)"])
      case Director => Some(["Statutory body: Director", "Štatutárny orgán: Riaditeľ"])
      case Description => Some(["Type of the generally beneficial services", "Druh všeobecne prospešných služieb"])
      case _ => None)
    case CivilSocieties => (
      match f
      case Name => Some(["Name of association", "Názov združenia"])
      case Description => Some(["Objective of the Activity", "Cieľ činnosti"])
      case _ => None)
    case InterestAssociations => (
      match f
      case Name => Some(["Name of association", "Názov združenia"])
      case Founders => Some(["Founders (Legal persons)", "Zakladatelia (Právnické osoby)"])
      case Director => Some(["Persons entitled to act on behalf of the association", "Osoby oprávnené konať v mene združenia"])
      case Description => Some(["Fields of activities", "Oblasti činnosti"])
      case Bodies => Some(["Bodies of association", "Orgány združenia"])
      case _ => None)
    case ProfessionalAssociations => (
      match f
      case Name => Some(["Name of association", "Názov spoločenstva"])
      case Description => Some(["Objective of the Activity", "Cieľ činnosti"])
      case _ => None)
    case Unions => (
      match f
      case Name => Some(["Name of organisation", "Názov organizácie"])
      case Description => Some(["Objective of the Activity", "Cieľ činnosti"])
      case _ => None)
    case OtherAssociations => (
      match f
      case Name => Some(["Name of association", "Názov združenia"])
      case Description => Some(["Objective of the Activity", "Cieľ činnosti"])
      case _ => None)
    case PoliticalParties => (
      match f
      case Name => Some(["Name of political party / movement:", "Názov politickej strany / hnutia:"])
      case Abbr => Some(["Abbreviation of name of party / movement:", "Skratka názvu politickej strany / hnutia:"])
      case LegalForm => Some(["Type:", "Typ:"])
      case Id => Some(["Identification number (IČO):", "IČO:"])
      case Address => Some(["Seat:", "Sídlo:"])
      case Website => Some(["Website:", "Webové sídlo:"])
      case RegId => Some(["Registration number:", "Registračné číslo:"])
      case RegOffice => Some(["Registration Office:", "Registrový úrad:"])
      case RegDate => Some(["Date of registration:", "Dátum vzniku:"])
      case CancelDate => Some(["Date of cancellation:", "Dátum zrušenia:"])
      case CancelReason => Some(["Legal title of Cancellation:", "Právny dôvod zrušenia:"])
      case LiqStartDate => Some(["Date of liquidation start:", "Dátum vstupu do likvidácie:"])
      case LiqEndDate => Some(["Date of liquidation end:", "Dátum ukončenia likvidácie:"])
      case _ => None)
    case MunicipalityAssociations => (
      match f
      case Name => Some(["Name of association", "Názov združenia"])
      case Municipalities => Some(["Founders (Municipalities)", "Zakladatelia (Obce)"])
      case Director => Some(["Persons entitled to act on behalf of the association", "Osoby oprávnené konať v mene združenia"])
      case Description => Some(["Fields of activities", "Oblasti činnosti"])
      case Bodies => Some(["Bodies of association", "Orgány združenia"])
      case _ => None)
    case PremiseOwners => (
      match f
      case Name => Some(["Name of association", "Názov spoločenstva"])
      case Director => Some(["Persons entitled to act on behalf of the association (Natural persons)", "Osoby oprávnené konať v mene spoločenstva (Fyzické osoby)"])
      case Bodies => Some(["Bodies of association", "Orgány spoločenstva"])
      case _ => None)
  }

  /** `form_field_text.get(field, [""])`, the labels `extract_entry_form`
      looks a field up by: the spider's own labels merged over the base
      ones, and the empty label for a field neither has. */
  function Labels(r: Spider, field: Field): (labels: seq<string>)
    ensures CustomLabel(r, field).Some? ==> labels == CustomLabel(r, field).value
    ensures CustomLabel(r, field).None? && BaseLabel(field).Some? ==> labels == BaseLabel(field).value
    ensures CustomLabel(r, field).None? && BaseLabel(field).None? ==> labels == [""]
  {
    var custom := CustomLabel(r, field);
    if custom.Some? then custom.value
    else
      var base := BaseLabel(field);
      if base.Some? then base.value else [""]
  }

  /** The political parties spider has its own, colon-terminated, seat label,
      and no label at all for the description it extracts, which is then
      looked up by the empty label; the foundations spider uses the base
      seat label. */
  lemma PoliticalPartiesLabels()
    ensures Labels(PoliticalParties, Address) == ["Seat:", "Sídlo:"]
    ensures Labels(PoliticalParties, Description) == [""]
    ensures Labels(Foundations, Address) == ["Seat", "Sídlo"]
  {
  }

  /** Every spider finds a label for the name, the seat and the website. */
  lemma CommonLabels(r: Spider)
    ensures Labels(r, Name) != [""] && Labels(r, Address) != [""] && Labels(r, Website) != [""]
  {
  }

  // ---------------------------------------------------------------------
  // unquote, city_from_address

  /** What `unquote(s)` gives: the outer quote pairs removed, and an
      IndexError when the string is, or becomes, empty, since the loop tests
      `s[0]` without a guard. */
  function Unquote(s: string): Result<string>
  {
    var u := SkMoj.Unquoted(s);
    if u == "" then Err(IndexError) else Ok(u)
  }

  /** A string of quote characters that reads the same backwards. */
  predicate QuotePalindrome(s: string)
  {
    forall i :: 0 <= i < |s| ==> SkMoj.IsQuote(s[i]) && s[i] == s[|s| - 1 - i]
  }

  /** `unquote` fails exactly on the mirrored strings of quotes, the empty
      string among them. */
  lemma {:induction false} UnquoteFails(s: string)
    ensures Unquote(s).Err? <==> QuotePalindrome(s)
    ensures Unquote(s).Err? ==> Unquote(s).error == IndexError
    ensures Unquote(s).Ok? ==> Unquote(s).value == SkMoj.Unquoted(s)
    decreases |s|
  {
    if |s| >= 1 && !SkMoj.QuotedPair(s) {
      assert !(SkMoj.IsQuote(s[0]) && s[0] == s[|s| - 1 - 0]);
    } else if |s| >= 2 {
      var m := s[1..|s| - 1];
      assert SkMoj.Peel(s) == m;
      UnquoteFails(m);
      assert QuotePalindrome(s) <==> QuotePalindrome(m) by {
        if QuotePalindrome(s) {
          forall i | 0 <= i < |m|
            ensures SkMoj.IsQuote(m[i]) && m[i] == m[|m| - 1 - i]
          {
            assert m[i] == s[i + 1] && m[|m| - 1 - i] == s[|s| - 1 - (i + 1)];
          }
        }
        if QuotePalindrome(m) {
          forall i | 0 <= i < |s|
            ensures SkMoj.IsQuote(s[i]) && s[i] == s[|s| - 1 - i]
          {
            if 0 < i < |s| - 1 {
              assert s[i] == m[i - 1] && s[|s| - 1 - i] == m[|m| - 1 - (i - 1)];
            }
          }
        }
      }
    }
  }

  /** `unquote(s)`: the loop as written. */
  method UnquoteLoop(s0: string) returns (r: Result<string>)
    ensures r == Unquote(s0)
  {
    var s := s0;
    while |s| > 0 && s[0] == s[|s| - 1] && SkMoj.IsQuote(s[0]) && SkMoj.IsQuote(s[|s| - 1])
      invariant SkMoj.Unquoted(s) == SkMoj.Unquoted(s0)
      decreases |s|
    {
      s := if |s| == 1 then "" else s[1..|s| - 1];
    }
    if |s| == 0 {
      r := Err(IndexError);
    } else {
      r := Ok(s);
    }
  }

  /** `city_from_address(a)`: the second-to-last comma-separated part of the
      address, cut at its first `'-'`, stripped, without its first word
      (the postcode), the other words joined by single spaces. An address
      with no comma has no second-to-last part: IndexError. */
  function CityFromAddress(a: string): (r: Result<string>)
    ensures r.Err? <==> ',' !in a
    ensures r.Err? ==> r.error == IndexError
  {
    var parts := Split(a, ',');
    if |parts| < 2 then Err(IndexError)
    else
      var words := Words(Strip(Split(parts[|parts| - 2], '-')[0]));
      Ok(if words == [] then "" else Join(" ", words[1..]))
  }

  /** The part before the first `'-'`, when the rest is empty or starts with one. */
  lemma HeadBeforeDash(head: string, tail: string)
    requires '-' !in head && (tail == "" || tail[0] == '-')
    ensures Split(head + tail, '-')[0] == head
  {
    if tail == "" {
      assert head + tail == head;
      SplitNoSep(head, '-');
    } else {
      assert head + tail == head + ['-'] + tail[1..];
      SplitConcat(head, tail[1..], '-');
    }
  }

  /** An address whose second-to-last part is `" <postcode> <city words>"`,
      possibly followed by `"-<district>"`, gives the city words. */
  lemma CityOfAddress(parts: seq<string>, postcode: string, city: seq<string>, tail: string)
    requires |parts| >= 2 && forall i :: 0 <= i < |parts| ==> ',' !in parts[i]
    requires postcode != [] && NoSpace(postcode)
    requires forall i :: 0 <= i < |city| ==> city[i] != [] && NoSpace(city[i])
    requires '-' !in Join(" ", [postcode] + city)
    requires parts[|parts| - 2] == " " + Join(" ", [postcode] + city) + tail
    requires tail == "" || tail[0] == '-'
    ensures CityFromAddress(Join(",", parts)) == Ok(Join(" ", city))
  {
    var words := [postcode] + city;
    var line := Join(" ", words);
    assert Split(Join(",", parts), ',') == parts by {
      JoinSplit(parts, ',');
    }
    assert Split(parts[|parts| - 2], '-')[0] == " " + line by {
      assert '-' !in " " + line;
      HeadBeforeDash(" " + line, tail);
    }
    assert Strip(" " + line) == line && Words(line) == words by {
      forall i | 0 <= i < |words|
        ensures words[i] != [] && NoSpace(words[i])
      {
        if i > 0 {
          assert words[i] == city[i - 1];
        }
      }
      StripSpacedJoin(words);
      WordsJoin(words);
    }
    assert words[1..] == city;
  }

  // ---------------------------------------------------------------------
  // parse and parse_entry

  /** The links `parse` follows: an entry page, or the next list page. */
  datatype Visit = ToEntry(href: string) | ToList(href: string)

  /** `is_last_page(response)`: the page URL, a string, compared with the
      list of next-page link selectors, which no string equals. */
  predicate IsLastPage(url: string, nextLinks: seq<string>)
  {
    VStr(url) == VList(seq(|nextLinks|, i requires 0 <= i < |nextLinks| => VStr(nextLinks[i])))
  }

  /** `parse(response)`: every entry link, then every next-page link unless
      the page is the last. */
  function ParseList(url: string, entryLinks: seq<string>, nextLinks: seq<string>): (out: seq<Visit>)
  {
    var entries := seq(|entryLinks|, i requires 0 <= i < |entryLinks| => ToEntry(entryLinks[i]));
    var next := seq(|nextLinks|, i requires 0 <= i < |nextLinks| => ToList(nextLinks[i]));
    entries + if IsLastPage(url, nextLinks) then [] else next
  }

  /** The last-page test never holds, so the next-page links are always
      followed after the entry links. */
  lemma ParseListFollowsAll(url: string, entryLinks: seq<string>, nextLinks: seq<string>)
    ensures |ParseList(url, entryLinks, nextLinks)| == |entryLinks| + |nextLinks|
    ensures forall i :: 0 <= i < |entryLinks| ==> ParseList(url, entryLinks, nextLinks)[i] == ToEntry(entryLinks[i])
    ensures forall i :: 0 <= i < |nextLinks| ==> ParseList(url, entryLinks, nextLinks)[|entryLinks| + i] == ToList(nextLinks[i])
  {
  }

  /** How a registry's extra field is read from its text. */
  datatype FieldKind =
    | Plain
    | Lines
    | LinesOrNull(placeholders: seq<string>)
    | PlainOrNull(placeholders: seq<string>)

  /** The texts the interest and professional associations registries show
      when no fields of activity are listed. */
  const NullDescriptions: seq<string> := [
    "Oblasti činnosti pre dané združenie nie sú uvedené",
    "Field of activities for association are not listed"]

  /** The texts the political parties registry shows when there is no
      abbreviation. */
  const NullAbbreviations: seq<string> := [
    "strana nemá zaregistrovanú skratku názvu",
    "strana nemá zaregistrovanú skratku"]

  /** The value of an extra field: `multiline` applied where the source
      applies it, and a placeholder text dropped to `""`. */
  function FieldValue(kind: FieldKind, text: string): string
  {
    match kind
    case Plain => text
    case Lines => SkMoj.Multiline(text)
    case LinesOrNull(ps) => var d := SkMoj.Multiline(text); if d in ps then "" else d
    case PlainOrNull(ps) => if text in ps then "" else text
  }

  /** The fields each spider's `parse_entry` adds to the common item. */
  function ExtraFields(r: Spider): seq<(Field, FieldKind)>
  {
    match r
    case NonInvestmentFunds => [(AssetValue, Plain), (Objective, Lines), (Description, Lines)]
    case Foundations => [(AssetValue, Plain), (Description, Lines)]
    case InterestAssociations => [(Description, LinesOrNull(NullDescriptions))]
    case ProfessionalAssociations => [(Description, LinesOrNull(NullDescriptions))]
    case PoliticalParties => [(Description, Lines), (Abbr, PlainOrNull(NullAbbreviations))]
    case MunicipalityAssociations => [(Description, Lines), (Municipalities, Lines)]
    case PremiseOwners => []
    case _ => [(Description, Lines)]
  }

  predicate ExtraKey(k: Field)
  {
    k == AssetValue || k == Objective || k == Description || k == Abbr || k == Municipalities
  }

  lemma ExtraFieldsShape(r: Spider)
    ensures forall i, j :: 0 <= i < j < |ExtraFields(r)| ==> ExtraFields(r)[i].0 != ExtraFields(r)[j].0
    ensures forall i :: 0 <= i < |ExtraFields(r)| ==> ExtraKey(ExtraFields(r)[i].0)
  {
  }

  /** The extra fields of an entry page read with `extract`. */
  function Extras(r: Spider, extract: Field -> string): (d: Dict<Field, Value>)
    ensures |d| == |ExtraFields(r)|
    ensures forall i :: 0 <= i < |d| ==>
      d[i] == (ExtraFields(r)[i].0, VStr(FieldValue(ExtraFields(r)[i].1, extract(ExtraFields(r)[i].0))))
  {
    var fs := ExtraFields(r);
    seq(|fs|, i requires 0 <= i < |fs| => (fs[i].0, VStr(FieldValue(fs[i].1, extract(fs[i].0)))))
  }

  const Slovakia: string := "Slovakia"
  const Eea: string := "EEA"

  /** The item of the shared `parse_entry`, in its key order. */
  function CommonItem(name: string, address: string, city: string, website: string, url: string, timestamp: int): Dict<Field, Value>
  {
    var liquidated := SkMoj.IsInLiquidation(name);
    [(Name, VStr(name)),
     (Address, VStr(address)),
     (City, VStr(city)),
     (Country, VStr(Slovakia)),
     (EconomicArea, VStr(Eea)),
     (Website, VStr(if liquidated then "-" else website)),
     (Registry, VStr(url)),
     (Liquidation, VBool(liquidated)),
     (Timestamp, VInt(timestamp))]
  }

  /** The item a registry's `parse_entry` yields: the common item with the
      registry's extra fields merged in (`{**data, ...}`). */
  function EntryItem(r: Spider, name: string, address: string, city: string, url: string, extract: Field -> string, timestamp: int): Dict<Field, Value>
  {
    Overlay(CommonItem(name, address, city, extract(Website), url, timestamp), Extras(r, extract))
  }

  /** A registry's `parse_entry` on the entry page at `url`: an IndexError
      from `unquote` or `city_from_address` ends it, otherwise it yields the
      item. The clock reading is a parameter. */
  function ParseEntry(r: Spider, url: string, extract: Field -> string, timestamp: int): (res: Result<Dict<Field, Value>>)
    ensures res.Err? <==> Unquote(extract(Name)).Err? || ',' !in extract(Address)
    ensures res.Err? ==> res.error == IndexError
    ensures res.Ok? ==>
      res.value == EntryItem(r, SkMoj.Unquoted(extract(Name)), extract(Address), CityFromAddress(extract(Address)).value, url, extract, timestamp)
  {
    var address := extract(Address);
    var name := Unquote(extract(Name));
    if name.Err? then Err(name.error)
    else
      var city := CityFromAddress(address);
      if city.Err? then Err(city.error)
      else Ok(EntryItem(r, name.value, address, city.value, url, extract, timestamp))
  }

  /** The columns of the common item, none of them an extra field. */
  lemma CommonItemKeys(name: string, address: string, city: string, website: string, url: string, timestamp: int)
    ensures var c := CommonItem(name, address, city, website, url, timestamp);
      && DistinctKeys(c)
      && forall i :: 0 <= i < |c| ==> !ExtraKey(c[i].0)
  {
  }

  /** Appending a dict whose keys are all extra fields to one whose keys
      are none. */
  lemma DisjointAppend(d1: Dict<Field, Value>, d2: Dict<Field, Value>)
    requires DistinctKeys(d1) && DistinctKeys(d2)
    requires forall i :: 0 <= i < |d1| ==> !ExtraKey(d1[i].0)
    requires forall j :: 0 <= j < |d2| ==> ExtraKey(d2[j].0)
    ensures forall j :: 0 <= j < |d2| ==> !HasKey(d1, d2[j].0)
    ensures DistinctKeys(d1 + d2)
  {
    var d := d1 + d2;
    forall i, j | 0 <= i < j < |d|
      ensures d[i].0 != d[j].0
    {
      if j >= |d1| {
        assert d[j] == d2[j - |d1|];
        if i >= |d1| {
          assert d[i] == d2[i - |d1|];
        }
      }
    }
  }

  /** The merge appends the registry's fields after the common ones, and
      every key occurs once. */
  lemma EntryItemAppends(r: Spider, name: string, address: string, city: string, url: string, extract: Field -> string, timestamp: int)
    ensures var common := CommonItem(name, address, city, extract(Website), url, timestamp);
      && EntryItem(r, name, address, city, url, extract, timestamp) == common + Extras(r, extract)
      && DistinctKeys(common + Extras(r, extract))
  {
    var common := CommonItem(name, address, city, extract(Website), url, timestamp);
    var extras := Extras(r, extract);
    CommonItemKeys(name, address, city, extract(Website), url, timestamp);
    assert DistinctKeys(extras) && forall j :: 0 <= j < |extras| ==> ExtraKey(extras[j].0) by {
      ExtraFieldsShape(r);
    }
    DisjointAppend(common, extras);
    OverlayFresh(common, extras);
  }

  /** A name that mentions the liquidation code is reported as in
      liquidation, with `"-"` for its website. */
  lemma LiquidatedEntry(r: Spider, pre: string, post: string, address: string, city: string, url: string, extract: Field -> string, timestamp: int)
    ensures var item := EntryItem(r, pre + SkMoj.LiquidationCode + post, address, city, url, extract, timestamp);
      && Get(item, Liquidation) == Some(VBool(true))
      && Get(item, Website) == Some(VStr("-"))
  {
    var name := pre + SkMoj.LiquidationCode + post;
    EntryItemAppends(r, name, address, city, url, extract, timestamp);
    SkMoj.NameInLiquidation(pre, post);
    var item := EntryItem(r, name, address, city, url, extract, timestamp);
    assert item[7] == (Liquidation, VBool(true));
    GetDistinct(item, 7);
    assert item[5] == (Website, VStr("-"));
    GetDistinct(item, 5);
  }

  /** A name without the liquidation code keeps the website found on the page. */
  lemma ActiveEntry(r: Spider, name: string, address: string, city: string, url: string, extract: Field -> string, timestamp: int)
    requires !SkMoj.IsInLiquidation(name)
    ensures var item := EntryItem(r, name, address, city, url, extract, timestamp);
      && Get(item, Liquidation) == Some(VBool(false))
      && Get(item, Website) == Some(VStr(extract(Website)))
      && Get(item, Name) == Some(VStr(name))
      && Get(item, City) == Some(VStr(city))
  {
    EntryItemAppends(r, name, address, city, url, extract, timestamp);
    var item := EntryItem(r, name, address, city, url, extract, timestamp);
    GetDistinct(item, 0);
    GetDistinct(item, 2);
    GetDistinct(item, 5);
    GetDistinct(item, 7);
  }

  /** The description of the interest associations registry: the placeholder
      text becomes `""`, any other text has its line feeds turned into
      carriage returns. */
  lemma InterestDescription(name: string, address: string, city: string, url: string, extract: Field -> string, timestamp: int)
    ensures var text := extract(Description);
      Get(EntryItem(InterestAssociations, name, address, city, url, extract, timestamp), Description) ==
        Some(VStr(if SkMoj.Multiline(text) in NullDescriptions then "" else SkMoj.Multiline(text)))
  {
    EntryItemAppends(InterestAssociations, name, address, city, url, extract, timestamp);
    var item := EntryItem(InterestAssociations, name, address, city, url, extract, timestamp);
    var extras := Extras(InterestAssociations, extract);
    assert extras[0] == (Description, VStr(FieldValue(LinesOrNull(NullDescriptions), extract(Description))));
    assert item[9] == extras[0];
    GetDistinct(item, 9);
  }

  /** The abbreviation of the political parties registry: the placeholder
      text becomes `""`, any other text is kept. */
  lemma PartyAbbreviation(name: string, address: string, city: string, url: string, extract: Field -> string, timestamp: int)
    ensures var text := extract(Abbr);
      Get(EntryItem(PoliticalParties, name, address, city, url, extract, timestamp), Abbr) ==
        Some(VStr(if text in NullAbbreviations then "" else text))
  {
    EntryItemAppends(PoliticalParties, name, address, city, url, extract, timestamp);
    var item := EntryItem(PoliticalParties, name, address, city, url, extract, timestamp);
    var extras := Extras(PoliticalParties, extract);
    assert extras[1] == (Abbr, VStr(FieldValue(PlainOrNull(NullAbbreviations), extract(Abbr))));
    assert item[10] == extras[1];
    GetDistinct(item, 10);
  }
}
