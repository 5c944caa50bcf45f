/** The event helpers of event/event/util.py: the identifier of an event,
    built from its normalised name and city and its start, and the merge of
    several CSV files into one whose header is the union of theirs. A CSV
    file is modelled as the rows `csv.reader` reads from it; opening and
    writing files is not modelled. */
module EventUtil {
  import opened Base
  import opened Text

  // ---------------------------------------------------------------------
  // event_id

  /** The word characters of `s`, in order. */
  function WordChars(s: string): (r: string)
    ensures |r| <= |s|
    ensures forall i :: 0 <= i < |r| ==> IsWordChar(r[i])
  {
    if s == [] then []
    else if IsWordChar(s[0]) then [s[0]] + WordChars(s[1..])
    else WordChars(s[1..])
  }

  /** `normalize(s)`: lower-cased, with every run of non-word characters
      removed. */
  function Normalize(s: string): (r: string)
    ensures forall i :: 0 <= i < |r| ==> IsWordChar(r[i]) && !('A' <= r[i] <= 'Z')
  {
    var r := WordChars(Lower(s));
    assert forall i :: 0 <= i < |r| ==> !('A' <= r[i] <= 'Z') by {
      LowerWordChars(Lower(s));
    }
    r
  }

  lemma {:induction false} LowerWordChars(s: string)
    requires forall i :: 0 <= i < |s| ==> !('A' <= s[i] <= 'Z')
    ensures forall i :: 0 <= i < |WordChars(s)| ==> !('A' <= WordChars(s)[i] <= 'Z')
    decreases |s|
  {
    if s != [] {
      LowerWordChars(s[1..]);
    }
  }

  lemma {:induction false} WordCharsConcat(a: string, b: string)
    ensures WordChars(a + b) == WordChars(a) + WordChars(b)
    decreases |a|
  {
    if a != [] {
      assert (a + b)[0] == a[0] && (a + b)[1..] == a[1..] + b;
      WordCharsConcat(a[1..], b);
    } else {
      assert a + b == b;
    }
  }

  /** A string without word characters normalises away. */
  lemma {:induction false} WordCharsNone(p: string)
    requires forall i :: 0 <= i < |p| ==> !IsWordChar(p[i])
    ensures WordChars(p) == []
    decreases |p|
  {
    if p != [] {
      WordCharsNone(p[1..]);
    }
  }

  /** A string of word characters is kept whole. */
  lemma {:induction false} WordCharsKeeps(s: string)
    requires forall i :: 0 <= i < |s| ==> IsWordChar(s[i])
    ensures WordChars(s) == s
    decreases |s|
  {
    if s != [] {
      WordCharsKeeps(s[1..]);
    }
  }

  /** A string of word characters is only lower-cased by `normalize`. */
  lemma NormalizeWordText(s: string)
    requires forall i :: 0 <= i < |s| ==> IsWordChar(s[i])
    ensures Normalize(s) == Lower(s)
  {
    var l := Lower(s);
    forall i | 0 <= i < |l|
      ensures IsWordChar(l[i])
    {
      assert IsWordChar(s[i]);
    }
    WordCharsKeeps(l);
  }

  lemma LowerConcat(a: string, b: string)
    ensures Lower(a + b) == Lower(a) + Lower(b)
  {
    var l, r := Lower(a + b), Lower(a) + Lower(b);
    forall i | 0 <= i < |l|
      ensures l[i] == r[i]
    {
      if i < |a| {
        assert (a + b)[i] == a[i];
      } else {
        assert (a + b)[i] == b[i - |a|];
      }
    }
  }

  /** Normalising ignores case. */
  lemma NormalizeLower(s: string)
    ensures Normalize(Lower(s)) == Normalize(s)
  {
    var l := Lower(s);
    forall i | 0 <= i < |l|
      ensures Lower(l)[i] == l[i]
    {
    }
    assert Lower(l) == l;
  }

  /** Normalising ignores punctuation inserted anywhere. */
  lemma NormalizePunctuation(a: string, p: string, b: string)
    requires forall i :: 0 <= i < |p| ==> !IsWordChar(p[i])
    ensures Normalize(a + p + b) == Normalize(a + b)
  {
    LowerConcat(a + p, b);
    LowerConcat(a, p);
    LowerConcat(a, b);
    WordCharsConcat(Lower(a) + Lower(p), Lower(b));
    WordCharsConcat(Lower(a), Lower(p));
    WordCharsConcat(Lower(a), Lower(b));
    var lp := Lower(p);
    forall i | 0 <= i < |lp|
      ensures !IsWordChar(lp[i])
    {
    }
    WordCharsNone(lp);
  }

  /** `event_id(event)` for the event's name, city and the text of its start. */
  function EventId(name: string, city: string, start: string): string
  {
    Normalize(name) + "__" + Normalize(city) + "__" + start
  }

  /** Two events whose names and cities differ only in case get the same
      identifier. */
  lemma EventIdIgnoresCase(name: string, city: string, start: string)
    ensures EventId(Lower(name), Lower(city), start) == EventId(name, city, start)
  {
    NormalizeLower(name);
    NormalizeLower(city);
  }

  /** Punctuation after the name or before the city leaves the identifier
      unchanged. */
  lemma EventIdIgnoresPunctuation(name: string, city: string, start: string, p: string, q: string)
    requires forall i :: 0 <= i < |p| ==> !IsWordChar(p[i])
    requires forall i :: 0 <= i < |q| ==> !IsWordChar(q[i])
    ensures EventId(name + p, q + city, start) == EventId(name, city, start)
  {
    assert Normalize(name + p) == Normalize(name) by {
      assert name + p + [] == name + p && name + [] == name;
      NormalizePunctuation(name, p, []);
    }
    assert Normalize(q + city) == Normalize(city) by {
      assert [] + q + city == q + city && [] + city == city;
      NormalizePunctuation([], q, city);
    }
  }

  /** The separator `__` is made of word characters, so it can be shifted
      between name and city: different events can share an identifier. */
  lemma EventIdAmbiguous()
    ensures EventId("a_", "b", "2020-01-01") == EventId("a", "_b", "2020-01-01")
  {
    assert Lower("a_") == "a_" && Lower("_b") == "_b" && Lower("a") == "a" && Lower("b") == "b";
    assert WordChars("a_") == "a_" && WordChars("_b") == "_b";
    assert WordChars("a") == "a" && WordChars("b") == "b";
  }

  // ---------------------------------------------------------------------
  // merge_csvs: the header

  /** `if h not in fieldnames: fieldnames.append(h)`. */
  function AddName(names: seq<string>, h: string): seq<string>
  {
    if h in names then names else names + [h]
  }

  /** The names after the inner loop over one header. */
  function AddNames(names: seq<string>, hs: seq<string>): seq<string>
    decreases |hs|
  {
    if hs == [] then names else AddName(AddNames(names, hs[..|hs| - 1]), hs[|hs| - 1])
  }

  /** The `fieldnames` of `merge_csvs` after the headers `heads`. */
  function FieldNames(heads: seq<seq<string>>): seq<string>
    decreases |heads|
  {
    if heads == [] then [] else AddNames(FieldNames(heads[..|heads| - 1]), heads[|heads| - 1])
  }

  predicate Distinct(s: seq<string>)
  {
    forall i, j :: 0 <= i < j < |s| ==> s[i] != s[j]
  }

  /** Appending the new names of a header keeps the names so far as a
      prefix, keeps them distinct, and adds exactly the header's names. */
  lemma {:induction false} AddNamesSpec(names: seq<string>, hs: seq<string>)
    requires Distinct(names)
    ensures var r := AddNames(names, hs);
      && Distinct(r)
      && names <= r
      && forall x :: x in r <==> x in names || x in hs
    decreases |hs|
  {
    if hs != [] {
      var front := hs[..|hs| - 1];
      AddNamesSpec(names, front);
      var mid := AddNames(names, front);
      forall x
        ensures x in hs <==> x in front || x == hs[|hs| - 1]
      {
        assert hs == front + [hs[|hs| - 1]];
      }
      if hs[|hs| - 1] !in mid {
        var r := mid + [hs[|hs| - 1]];
        forall i, j | 0 <= i < j < |r|
          ensures r[i] != r[j]
        {
          if j == |mid| {
            assert r[i] == mid[i];
          }
        }
      }
    }
  }

  /** The field names are distinct, are exactly the names of the headers,
      and earlier headers' names come first: the names after some of the
      files are a prefix of the names after all of them. */
  lemma {:induction false} FieldNamesSpec(heads: seq<seq<string>>, k: nat)
    requires k <= |heads|
    ensures Distinct(FieldNames(heads))
    ensures forall x :: x in FieldNames(heads) <==> exists i :: 0 <= i < |heads| && x in heads[i]
    ensures FieldNames(heads[..k]) <= FieldNames(heads)
    decreases |heads|
  {
    if heads != [] {
      var front := heads[..|heads| - 1];
      var last := heads[|heads| - 1];
      FieldNamesSpec(front, if k < |heads| then k else |front|);
      AddNamesSpec(FieldNames(front), last);
      forall x
        ensures x in FieldNames(heads) <==> exists i :: 0 <= i < |heads| && x in heads[i]
      {
        if x in FieldNames(front) {
          var i :| 0 <= i < |front| && x in front[i];
          assert heads[i] == front[i];
        }
        if exists i :: 0 <= i < |heads| && x in heads[i] {
          var i :| 0 <= i < |heads| && x in heads[i];
          if i < |front| {
            assert front[i] == heads[i];
          }
        }
      }
      if k < |heads| {
        assert heads[..k] == front[..k];
      } else {
        assert heads[..k] == heads;
      }
    }
  }

  /** The first loop of `merge_csvs`: the field names from the top row of
      each input; an input with no rows at all stops it with StopIteration. */
  method MergeFieldNames(files: seq<seq<seq<string>>>) returns (r: Result<seq<string>>)
    ensures (exists i :: 0 <= i < |files| && files[i] == []) <==> r.Err?
    ensures r.Err? ==> r.error == StopIteration
    ensures r.Ok? ==> r.value == FieldNames(Heads(files))
  {
    var fieldnames: seq<string> := [];
    var i := 0;
    while i < |files|
      invariant i <= |files|
      invariant forall k :: 0 <= k < i ==> files[k] != []
      invariant fieldnames == FieldNames(Heads(files[..i]))
      decreases |files| - i
    {
      if files[i] == [] {
        return Err(StopIteration);
      }
      var headers := files[i][0];
      var j := 0;
      ghost var start := fieldnames;
      while j < |headers|
        invariant j <= |headers|
        invariant fieldnames == AddNames(start, headers[..j])
        decreases |headers| - j
      {
        assert headers[..j + 1][..j] == headers[..j];
        if headers[j] !in fieldnames {
          fieldnames := fieldnames + [headers[j]];
        }
        j := j + 1;
      }
      assert headers[..j] == headers;
      assert Heads(files[..i + 1]) == Heads(files[..i]) + [headers] by {
        HeadsSnoc(files[..i], files[i]);
        assert files[..i + 1] == files[..i] + [files[i]];
      }
      assert Heads(files[..i + 1])[..i] == Heads(files[..i]);
      i := i + 1;
    }
    assert files[..i] == files;
    r := Ok(fieldnames);
  }

  /** The top row of every input, for inputs that have one. */
  function Heads(files: seq<seq<seq<string>>>): (hs: seq<seq<string>>)
    requires forall i :: 0 <= i < |files| ==> files[i] != []
    ensures |hs| == |files| && forall i :: 0 <= i < |files| ==> hs[i] == files[i][0]
  {
    seq(|files|, i requires 0 <= i < |files| => files[i][0])
  }

  lemma HeadsSnoc(files: seq<seq<seq<string>>>, f: seq<seq<string>>)
    requires forall i :: 0 <= i < |files| ==> files[i] != []
    requires f != []
    ensures Heads(files + [f]) == Heads(files) + [f[0]]
  {
  }

  // ---------------------------------------------------------------------
  // merge_csvs: the rows

  /** The position of the last occurrence of `f` in `header`, which is the
      one whose value `csv.DictReader` keeps. */
  function LastIndex(header: seq<string>, f: string): (i: int)
    ensures -1 <= i < |header|
    ensures i >= 0 ==> header[i] == f && forall j :: i < j < |header| ==> header[j] != f
    ensures i == -1 ==> f !in header
    decreases |header|
  {
    if header == [] then -1
    else if header[|header| - 1] == f then |header| - 1
    else LastIndex(header[..|header| - 1], f)
  }

  /** The value `csv.DictWriter` writes for field `f` of a row read by
      `csv.DictReader` with `header`: the row's value under the last column
      named `f`, and `""` for a missing column or a missing value. */
  function Cell(header: seq<string>, values: seq<string>, f: string): string
  {
    var i := LastIndex(header, f);
    if 0 <= i < |values| then values[i] else ""
  }

  /** One output row: the row's cells in the order of the merged field names. */
  function OutRow(names: seq<string>, header: seq<string>, values: seq<string>): (row: seq<string>)
    ensures |row| == |names|
    ensures forall j :: 0 <= j < |names| ==> row[j] == Cell(header, values, names[j])
  {
    seq(|names|, j requires 0 <= j < |names| => Cell(header, values, names[j]))
  }

  /** The rows `csv.DictReader` yields from one input: every row after the
      top one except empty rows, each turned into an output row; a row with
      more values than the header has an extra field, which `DictWriter`
      refuses with ValueError. */
  function FileRows(names: seq<string>, file: seq<seq<string>>): (r: Result<seq<seq<string>>>)
    requires file != []
    decreases |file|
  {
    if |file| == 1 then Ok([])
    else
      var front := FileRows(names, file[..|file| - 1]);
      var values := file[|file| - 1];
      if front.Err? then front
      else if values == [] then front
      else if |values| > |file[0]| then Err(ValueError("dict contains fields not in fieldnames: None"))
      else Ok(front.value + [OutRow(names, file[0], values)])
  }

  /** Everything `merge_csvs` writes: the merged header, then the rows of the
      inputs in order. */
  function MergedRows(names: seq<string>, files: seq<seq<seq<string>>>): (r: Result<seq<seq<string>>>)
    requires forall i :: 0 <= i < |files| ==> files[i] != []
    decreases |files|
  {
    if files == [] then Ok([names])
    else
      var front := MergedRows(names, files[..|files| - 1]);
      if front.Err? then front
      else
        var rows := FileRows(names, files[|files| - 1]);
        if rows.Err? then rows else Ok(front.value + rows.value)
  }

  /** A row is too long for its file's header. */
  predicate Overlong(file: seq<seq<string>>)
  {
    exists k :: 1 <= k < |file| && |file[k]| > |file[0]|
  }

  /** The number of non-empty rows below the top one. */
  function DataRows(file: seq<seq<string>>): nat
    decreases |file|
  {
    if |file| <= 1 then 0
    else DataRows(file[..|file| - 1]) + (if file[|file| - 1] == [] then 0 else 1)
  }

  /** Without overlong rows a file gives one output row per non-empty data
      row, each as long as the header; an overlong row gives ValueError. */
  lemma {:induction false} FileRowsSpec(names: seq<string>, file: seq<seq<string>>)
    requires file != []
    ensures FileRows(names, file).Err? <==> Overlong(file)
    ensures FileRows(names, file).Err? ==> FileRows(names, file).error.ValueError?
    ensures FileRows(names, file).Ok? ==>
      |FileRows(names, file).value| == DataRows(file)
      && forall k :: 0 <= k < |FileRows(names, file).value| ==> |FileRows(names, file).value[k]| == |names|
    decreases |file|
  {
    if |file| > 1 {
      var front := file[..|file| - 1];
      FileRowsSpec(names, front);
      assert front[0] == file[0];
      assert Overlong(file) <==> Overlong(front) || |file[|file| - 1]| > |file[0]| by {
        if Overlong(file) {
          var k :| 1 <= k < |file| && |file[k]| > |file[0]|;
          if k < |front| {
            assert front[k] == file[k];
          }
        }
        if Overlong(front) {
          var k :| 1 <= k < |front| && |front[k]| > |front[0]|;
          assert file[k] == front[k];
        }
      }
      if |file[|file| - 1]| > |file[0]| {
        assert file[|file| - 1] != [];
      }
    } else {
      assert !Overlong(file);
    }
  }

  /** The merged output starts with the field names, and fails exactly when
      some input has an overlong row. */
  lemma {:induction false} MergedRowsSpec(names: seq<string>, files: seq<seq<seq<string>>>)
    requires forall i :: 0 <= i < |files| ==> files[i] != []
    ensures MergedRows(names, files).Err? <==> exists i :: 0 <= i < |files| && Overlong(files[i])
    ensures MergedRows(names, files).Ok? ==>
      |MergedRows(names, files).value| >= 1 && MergedRows(names, files).value[0] == names
    decreases |files|
  {
    if files != [] {
      var front := files[..|files| - 1];
      MergedRowsSpec(names, front);
      FileRowsSpec(names, files[|files| - 1]);
      assert (exists i :: 0 <= i < |files| && Overlong(files[i])) <==>
        (exists i :: 0 <= i < |front| && Overlong(front[i])) || Overlong(files[|files| - 1]) by {
        if exists i :: 0 <= i < |files| && Overlong(files[i]) {
          var i :| 0 <= i < |files| && Overlong(files[i]);
          if i < |front| {
            assert front[i] == files[i];
          }
        }
        if exists i :: 0 <= i < |front| && Overlong(front[i]) {
          var i :| 0 <= i < |front| && Overlong(front[i]);
          assert files[i] == front[i];
        }
      }
    }
  }

  /** `merge_csvs(inputs, output)`: the rows of every input are read, in
      order, and written below the merged header. */
  method MergeCsvs(files: seq<seq<seq<string>>>) returns (r: Result<seq<seq<string>>>)
    ensures (exists i :: 0 <= i < |files| && files[i] == []) ==> r == Err(StopIteration)
    ensures (forall i :: 0 <= i < |files| ==> files[i] != []) ==>
      r == MergedRows(FieldNames(Heads(files)), files)
  {
    var names := MergeFieldNames(files);
    if names.Err? {
      return Err(names.error);
    }
    var out := [names.value];
    var i := 0;
    while i < |files|
      invariant i <= |files|
      invariant MergedRows(names.value, files[..i]) == Ok(out)
      decreases |files| - i
    {
      assert files[..i + 1][..i] == files[..i];
      var rows := CopyRows(names.value, files[i]);
      if rows.Err? {
        assert files[..i + 1][i] == files[i];
        MergedRowsErr(names.value, files, i + 1);
        return rows;
      }
      out := out + rows.value;
      i := i + 1;
    }
    assert files[..i] == files;
    r := Ok(out);
  }

  /** Once a prefix of the rows fails, the whole file fails the same way. */
  lemma {:induction false} FileRowsErr(names: seq<string>, file: seq<seq<string>>, k: nat)
    requires 1 <= k <= |file|
    requires FileRows(names, file[..k]).Err?
    ensures FileRows(names, file) == FileRows(names, file[..k])
    decreases |file| - k
  {
    if k == |file| {
      assert file[..k] == file;
    } else {
      assert file[..k + 1][..k] == file[..k];
      FileRowsErr(names, file, k + 1);
    }
  }

  lemma {:induction false} MergedRowsErr(names: seq<string>, files: seq<seq<seq<string>>>, k: nat)
    requires forall i :: 0 <= i < |files| ==> files[i] != []
    requires k <= |files|
    requires MergedRows(names, files[..k]).Err?
    ensures MergedRows(names, files) == MergedRows(names, files[..k])
    decreases |files| - k
  {
    if k == |files| {
      assert files[..k] == files;
    } else {
      assert files[..k + 1][..k] == files[..k];
      MergedRowsErr(names, files, k + 1);
    }
  }

  /** The inner loop of the copy: `for line in reader: writer.writerow(line)`. */
  method CopyRows(names: seq<string>, file: seq<seq<string>>) returns (r: Result<seq<seq<string>>>)
    requires file != []
    ensures r == FileRows(names, file)
  {
    var out: seq<seq<string>> := [];
    var k := 1;
    while k < |file|
      invariant 1 <= k <= |file|
      invariant FileRows(names, file[..k]) == Ok(out)
      decreases |file| - k
    {
      assert file[..k + 1][..k] == file[..k];
      assert file[..k + 1][0] == file[0];
      var values := file[k];
      if values != [] {
        if |values| > |file[0]| {
          FileRowsErr(names, file, k + 1);
          return Err(ValueError("dict contains fields not in fieldnames: None"));
        }
        out := out + [OutRow(names, file[0], values)];
      }
      k := k + 1;
    }
    assert file[..k] == file;
    r := Ok(out);
  }
}
