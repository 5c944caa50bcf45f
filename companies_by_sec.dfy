/** The script that sorts British companies into categories by their NACE
    (SIC) codes: the escaping of category names, the zero padding of codes,
    the parser of the code-range files and the test that puts a company
    row into a category. */
module CompaniesBySec {
  import opened Base
  import opened Text
  import opened Patterns
  import opened Values

  // ---------------------------------------------------------------------
  // escape_name

  /** `re.sub(r'\s+|\-', '_', s)`: every maximal whitespace run and every
      '-' becomes one '_'. */
  function SubRunsDash(s: string): (r: string)
    ensures NoSpace(r) && '-' !in r
    decreases |s|
  {
    if s == [] then []
    else if IsSpace(s[0]) then "_" + SubRunsDash(LStrip(s[1..]))
    else if s[0] == '-' then "_" + SubRunsDash(s[1..])
    else [s[0]] + SubRunsDash(s[1..])
  }

  /** The last three steps of `escape_name`, after '&' has been replaced. */
  function Post(s: string): (r: string)
  {
    NameChars(SubRunsDash(Lower(s)))
  }

  /** `escape_name(s)`: '&' spelt out as "and", lower case, whitespace runs
      and '-' as '_', and every other character outside `[a-z0-9_]`
      dropped. */
  function EscapeName(s: string): (r: string)
    ensures forall i :: 0 <= i < |r| ==> IsNameChar(r[i])
  {
    Post(Replace(s, "&", "and"))
  }

  /** `escape_name` read as one pass over the name, character by
      character: the reference the lemmas below connect it to. */
  function EscapeRef(s: string): (r: string)
    decreases |s|
  {
    if s == [] then []
    else if s[0] == '&' then "and" + EscapeRef(s[1..])
    else if IsSpace(s[0]) then "_" + EscapeRef(LStrip(s[1..]))
    else if s[0] == '-' then "_" + EscapeRef(s[1..])
    else if IsNameChar(LowerChar(s[0])) then [LowerChar(s[0])] + EscapeRef(s[1..])
    else EscapeRef(s[1..])
  }

  lemma LowerCons(c: char, t: string)
    ensures Lower([c] + t) == [LowerChar(c)] + Lower(t)
  {
    assert ([c] + t)[1..] == t;
  }

  lemma SpaceLower(c: char)
    ensures IsSpace(LowerChar(c)) == IsSpace(c)
    ensures (LowerChar(c) == '-') == (c == '-')
  {
  }

  lemma {:induction false} LStripLower(t: string)
    ensures LStrip(Lower(t)) == Lower(LStrip(t))
    decreases |t|
  {
    if t != [] {
      SpaceLower(t[0]);
      LowerCons(t[0], t[1..]);
      assert [t[0]] + t[1..] == t;
      if IsSpace(t[0]) {
        LStripLower(t[1..]);
      }
    }
  }

  lemma NameCharsCons(c: char, t: string)
    ensures NameChars([c] + t) == (if IsNameChar(c) then [c] else []) + NameChars(t)
  {
    assert ([c] + t)[1..] == t;
  }

  /** The last three steps, one leading character at a time. */
  lemma PostCons(c: char, t: string)
    ensures IsSpace(c) ==> Post([c] + t) == "_" + Post(LStrip(t))
    ensures c == '-' ==> Post([c] + t) == "_" + Post(t)
    ensures !IsSpace(c) && c != '-' ==>
      Post([c] + t) == (if IsNameChar(LowerChar(c)) then [LowerChar(c)] else []) + Post(t)
  {
    LowerCons(c, t);
    SpaceLower(c);
    var l := [LowerChar(c)] + Lower(t);
    assert l[0] == LowerChar(c) && l[1..] == Lower(t);
    if IsSpace(c) {
      LStripLower(t);
      assert SubRunsDash(l) == "_" + SubRunsDash(LStrip(Lower(t)));
      NameCharsCons('_', SubRunsDash(Lower(LStrip(t))));
    } else if c == '-' {
      assert SubRunsDash(l) == "_" + SubRunsDash(Lower(t));
      NameCharsCons('_', SubRunsDash(Lower(t)));
    } else {
      assert SubRunsDash(l) == [LowerChar(c)] + SubRunsDash(Lower(t));
      NameCharsCons(LowerChar(c), SubRunsDash(Lower(t)));
    }
  }

  /** Lower-case letters and digits pass the last three steps unchanged. */
  lemma {:induction false} PostPlain(w: string, t: string)
    requires forall i :: 0 <= i < |w| ==> IsLowerAlnum(w[i])
    ensures Post(w + t) == w + Post(t)
    decreases |w|
  {
    if w == [] {
      assert w + t == t;
    } else {
      var c := w[0];
      assert w + t == [c] + (w[1..] + t);
      PostCons(c, w[1..] + t);
      PostPlain(w[1..], t);
      assert LowerChar(c) == c && IsNameChar(c);
      ConcatAssoc([c], w[1..], Post(t));
      assert [c] + w[1..] == w;
    }
  }

  lemma PostAnd(t: string)
    ensures Post("and" + t) == "and" + Post(t)
  {
    assert "and"[0] == 'a' && "and"[1] == 'n' && "and"[2] == 'd';
    PostPlain("and", t);
  }

  lemma ReplaceAmpCons(s: string)
    requires s != []
    ensures s[0] == '&' ==> Replace(s, "&", "and") == "and" + Replace(s[1..], "&", "and")
    ensures s[0] != '&' ==> Replace(s, "&", "and") == [s[0]] + Replace(s[1..], "&", "and")
  {
    assert StartsWith(s, "&") <==> s[0] == '&' by {
      assert s[..1] == [s[0]];
    }
  }

  lemma {:induction false} LStripReplaceAmp(t: string)
    ensures LStrip(Replace(t, "&", "and")) == Replace(LStrip(t), "&", "and")
    decreases |t|
  {
    if t != [] {
      ReplaceAmpCons(t);
      if IsSpace(t[0]) {
        LStripReplaceAmp(t[1..]);
        var r := Replace(t[1..], "&", "and");
        assert ([t[0]] + r)[1..] == r;
      } else if t[0] == '&' {
        var r := Replace(t[1..], "&", "and");
        assert ("and" + r)[0] == 'a';
      } else {
        var r := Replace(t[1..], "&", "and");
        assert ([t[0]] + r)[0] == t[0];
      }
    }
  }

  /** `escape_name` is the one-pass reading: '&' gives "and", a whitespace
      run or a '-' gives one '_', a character of `[A-Za-z0-9_]` gives its
      lower case and any other character nothing. */
  lemma {:induction false} EscapeNameIsRef(s: string)
    ensures EscapeName(s) == EscapeRef(s)
    decreases |s|
  {
    if s != [] {
      ReplaceAmpCons(s);
      var r := Replace(s[1..], "&", "and");
      if s[0] == '&' {
        PostAnd(r);
        EscapeNameIsRef(s[1..]);
      } else if IsSpace(s[0]) {
        PostCons(s[0], r);
        LStripReplaceAmp(s[1..]);
        EscapeNameIsRef(LStrip(s[1..]));
      } else {
        PostCons(s[0], r);
        EscapeNameIsRef(s[1..]);
      }
    }
  }

  lemma {:induction false} EscapeRefKeeps(s: string)
    requires forall i :: 0 <= i < |s| ==> IsNameChar(s[i])
    ensures EscapeRef(s) == s
    decreases |s|
  {
    if s != [] {
      EscapeRefKeeps(s[1..]);
    }
  }

  /** A name that is already escaped is left as it is, so escaping twice
      is escaping once. */
  lemma EscapeNameIdempotent(s: string)
    ensures EscapeName(EscapeName(s)) == EscapeName(s)
  {
    EscapeNameIsRef(EscapeName(s));
    EscapeRefKeeps(EscapeName(s));
  }

  // ---------------------------------------------------------------------
  // format_nace and apply_fns

  /** `format_nace(s)`, `s.zfill(5)`: a code shorter than five characters
      is padded with '0' on the left (after a sign), a longer one is left
      as it is. */
  function FormatNace(s: string): (r: string)
    ensures |r| == if |s| >= 5 then |s| else 5
    ensures |s| >= 5 ==> r == s
    ensures |s| < 5 && (s == [] || (s[0] != '+' && s[0] != '-')) ==>
      r == Repeat('0', 5 - |s|) + s
  {
    ZFill(s, 5)
  }

  lemma {:induction false} LeadingZeros(k: nat, d: string)
    requires forall i :: 0 <= i < |d| ==> IsDigit(d[i])
    ensures forall i :: 0 <= i < |Repeat('0', k) + d| ==> IsDigit((Repeat('0', k) + d)[i])
    ensures DigitsValue(Repeat('0', k) + d) == DigitsValue(d)
    decreases k + |d|
  {
    var z := Repeat('0', k) + d;
    if d == [] {
      assert z == Repeat('0', k);
      if k > 0 {
        assert z[..|z| - 1] == Repeat('0', k - 1) + d;
        LeadingZeros(k - 1, d);
      }
    } else {
      var d' := d[..|d| - 1];
      assert z[..|z| - 1] == Repeat('0', k) + d';
      assert z[|z| - 1] == d[|d| - 1];
      LeadingZeros(k, d');
    }
  }

  lemma ZerosLiteral(k: nat, n: nat)
    ensures DigitLiteral(Repeat('0', k) + NatToStr(n))
    ensures ParseDigits(Repeat('0', k) + NatToStr(n)) == Some(n)
  {
    var d := NatToStr(n);
    var z := Repeat('0', k) + d;
    LeadingZeros(k, d);
    assert z[|z| - 1] == d[|d| - 1];
    WithoutAbsent(z, '_');
    DigitsValueOfNat(n);
  }

  lemma DigitsParse(z: string, n: nat)
    requires ParseDigits(z) == Some(n)
    ensures ParseInt(z) == Some(n as int)
  {
    assert DigitLiteral(z);
    var c := z[0];
    assert IsDigit(c) && IsDigit(z[|z| - 1]) && c != '-' && c != '+';
    StripPlain(z);
  }

  lemma LiteralEnds(z: string)
    requires DigitLiteral(z)
    ensures z != [] && !IsSpace(z[|z| - 1])
  {
  }

  lemma SignedNeg(m: string, z: string, n: nat)
    requires m != [] && m[0] == '-' && m[1..] == z && Strip(m) == m
    requires ParseDigits(z) == Some(n)
    ensures ParseInt(m) == Some(-(n as int))
  {
  }

  lemma NegDigitsParse(z: string, n: nat)
    requires ParseDigits(z) == Some(n)
    ensures ParseInt("-" + z) == Some(-(n as int))
  {
    LiteralEnds(z);
    var m := "-" + z;
    assert m[0] == '-' && m[1..] == z && m[|m| - 1] == z[|z| - 1];
    StripPlain(m);
    SignedNeg(m, z, n);
  }

  lemma FormatNegative(d: string)
    requires 1 <= |d|
    ensures FormatNace("-" + d) == "-" + (Repeat('0', if |d| >= 4 then 0 else 4 - |d|) + d)
  {
    var s := "-" + d;
    if |s| >= 5 {
      assert Repeat('0', 0) + d == d;
    } else {
      var fill := Repeat('0', 5 - |s|);
      assert s[0] == '-' && s[1..] == d;
      assert FormatNace(s) == [s[0]] + fill + s[1..];
      ConcatAssoc([s[0]], fill, d);
    }
  }

  /** A code printed by `str` and padded by `format_nace` reads back as the
      same number: the padding never changes the code's value. */
  lemma FormatNaceParses(code: int)
    ensures ParseInt(FormatNace(IntToStr(code))) == Some(code)
  {
    var n: nat := if code < 0 then -code else code;
    var d := NatToStr(n);
    if code < 0 {
      var k: nat := if |d| >= 4 then 0 else 4 - |d|;
      FormatNegative(d);
      ZerosLiteral(k, n);
      NegDigitsParse(Repeat('0', k) + d, n);
    } else {
      var k: nat := if |d| >= 5 then 0 else 5 - |d|;
      assert FormatNace(d) == Repeat('0', k) + d by {
        if |d| >= 5 {
          assert Repeat('0', 0) + d == d;
        }
      }
      ZerosLiteral(k, n);
      DigitsParse(Repeat('0', k) + d, n);
    }
  }

  /** `reduce(lambda o, fn: fn(o), fns, x)`: the functions applied left to
      right. */
  function Compose<T>(fns: seq<T -> T>, x: T): T
    decreases |fns|
  {
    if fns == [] then x else Compose(fns[1..], fns[0](x))
  }

  /** `apply_fns(l, fns)`: every element put through all the functions. */
  function ApplyFns<T>(l: seq<T>, fns: seq<T -> T>): (r: seq<T>)
    ensures |r| == |l|
    ensures forall i :: 0 <= i < |l| ==> r[i] == Compose(fns, l[i])
  {
    if l == [] then [] else [Compose(fns, l[0])] + ApplyFns(l[1..], fns)
  }

  /** Applying one list of functions and then another is applying their
      concatenation. */
  lemma {:induction false} ComposeAppend<T>(f: seq<T -> T>, g: seq<T -> T>, x: T)
    ensures Compose(f + g, x) == Compose(g, Compose(f, x))
    decreases |f|
  {
    if f == [] {
      assert f + g == g;
    } else {
      assert (f + g)[0] == f[0] && (f + g)[1..] == f[1..] + g;
      ComposeAppend(f[1..], g, f[0](x));
    }
  }

  lemma ApplyFnsAppend<T>(l: seq<T>, f: seq<T -> T>, g: seq<T -> T>)
    ensures ApplyFns(ApplyFns(l, f), g) == ApplyFns(l, f + g)
  {
    forall i | 0 <= i < |l|
      ensures ApplyFns(ApplyFns(l, f), g)[i] == ApplyFns(l, f + g)[i]
    {
      ComposeAppend(f, g, l[i]);
    }
  }

  // ---------------------------------------------------------------------
  // parse_nace

  /** `range(lo, hi)`: the codes `lo <= code < hi`. */
  datatype NaceRange = NaceRange(lo: int, hi: int)

  /** The categories of a code file: escaped name to range of codes. */
  type Nace = Dict<string, NaceRange>

  /** A `\w+` group: one or more word characters. */
  predicate IsWord(w: string)
  {
    w != [] && forall i :: 0 <= i < |w| ==> IsWordChar(w[i])
  }

  /** The leading run of word characters and what follows it: what a
      greedy `\w+` or `\w*` takes. */
  function WordRun(s: string): (r: (string, string))
    ensures r.0 + r.1 == s
    ensures forall i :: 0 <= i < |r.0| ==> IsWordChar(r.0[i])
    ensures r.1 == [] || !IsWordChar(r.1[0])
    decreases |s|
  {
    if s != [] && IsWordChar(s[0]) then
      var (w, rest) := WordRun(s[1..]);
      assert [s[0]] + (w + rest) == s;
      ([s[0]] + w, rest)
    else ([], s)
  }

  lemma {:induction false} WordRunOf(w: string, rest: string)
    requires forall i :: 0 <= i < |w| ==> IsWordChar(w[i])
    requires rest == [] || !IsWordChar(rest[0])
    ensures WordRun(w + rest) == (w, rest)
    decreases |w|
  {
    if w == [] {
      assert w + rest == rest;
    } else {
      assert (w + rest)[0] == w[0] && (w + rest)[1..] == w[1..] + rest;
      WordRunOf(w[1..], rest);
      assert [w[0]] + w[1..] == w;
    }
  }

  /** `re.match(r'#\s*(\w+)\s*=\s*(\w+)', line)`: the two groups of a
      comment line of the form `# key = value`, or None when the line does
      not start that way. Whatever follows the value is ignored. */
  function Assignment(line: string): (r: Option<(string, string)>)
    ensures r.Some? ==> line != [] && line[0] == '#'
    ensures r.Some? ==> IsWord(r.value.0) && IsWord(r.value.1)
  {
    if line == [] || line[0] != '#' then None
    else
      var (k, rest) := WordRun(LStrip(line[1..]));
      var b := LStrip(rest);
      if k == [] || b == [] || b[0] != '=' then None
      else
        var (v, _) := WordRun(LStrip(b[1..]));
        if v == [] then None else Some((k, v))
  }

  lemma AssignmentSteps(line: string, k: string, y: string, x2: string, v: string, rest: string)
    requires line != [] && line[0] == '#' && k != [] && v != []
    requires WordRun(LStrip(line[1..])) == (k, y)
    requires LStrip(y) == x2 && x2 != [] && x2[0] == '='
    requires WordRun(LStrip(x2[1..])) == (v, rest)
    ensures Assignment(line) == Some((k, v))
  {
  }

  /** Every line `#<ws>key<ws>=<ws>value` followed by a non-word character
      or nothing is read as the assignment of `value` to `key`. */
  lemma AssignmentOf(s1: string, k: string, s2: string, s3: string, v: string, rest: string)
    requires AllSpace(s1) && AllSpace(s2) && AllSpace(s3)
    requires IsWord(k) && IsWord(v) && (rest == [] || !IsWordChar(rest[0]))
    ensures Assignment("#" + (s1 + (k + (s2 + ("=" + (s3 + (v + rest))))))) == Some((k, v))
  {
    var x4 := v + rest;
    var x3 := s3 + x4;
    var x2 := "=" + x3;
    var y := s2 + x2;
    var x1 := k + y;
    var line := "#" + (s1 + x1);
    assert line[0] == '#' && line[1..] == s1 + x1;
    assert x1[0] == k[0];
    LStripRun(s1, x1);
    assert y == [] || !IsWordChar(y[0]) by {
      if s2 != [] {
        assert y[0] == s2[0];
      } else {
        assert y[0] == '=';
      }
    }
    WordRunOf(k, y);
    assert x2[0] == '=';
    LStripRun(s2, x2);
    assert x2[1..] == x3;
    assert x4[0] == v[0];
    LStripRun(s3, x4);
    WordRunOf(v, rest);
    AssignmentSteps(line, k, y, x2, v, rest);
  }

  /** `curr_nace, curr_name = line.strip().split('\t')` and then
      `int(curr_nace)`: the code and name of a data line, or the ValueError
      of a line that does not have exactly one tab or whose code is not a
      number. */
  function DataLine(line: string): (r: Result<(int, string)>)
    ensures r.Ok? ==> r.value.1 != [] && '\t' !in r.value.1
    ensures r.Ok? ==> !IsSpace(r.value.1[|r.value.1| - 1])
  {
    var t := Strip(line);
    var parts := Split(t, '\t');
    if |parts| < 2 then Err(ValueError("not enough values to unpack"))
    else if |parts| > 2 then Err(ValueError("too many values to unpack"))
    else
      var code := ParseInt(parts[0]);
      if code.None? then Err(ValueError("invalid literal for int()"))
      else
        var name := parts[1];
        SplitJoin(t, '\t');
        assert t == parts[0] + "\t" + name;
        assert t[|parts[0]|] == '\t' && |name| == |t| - 1 - |parts[0]|;
        assert t[|t| - 1] == name[|name| - 1];
        Ok((code.value, name))
  }

  /** A line written as `str(code)`, a tab, a name and a line break reads
      back as that code and name (a name ending in whitespace would lose
      that whitespace to `strip`). */
  lemma DataLineOf(code: int, name: string)
    requires name != [] && '\t' !in name && !IsSpace(name[|name| - 1])
    ensures DataLine(IntToStr(code) + "\t" + name + "\n") == Ok((code, name))
  {
    var c := IntToStr(code);
    var t := c + "\t" + name;
    var line := t + "\n";
    assert t[0] == c[0] && t[|t| - 1] == name[|name| - 1];
    assert !IsSpace(c[0]) by {
      if code >= 0 {
        assert IsDigit(c[0]);
      }
    }
    assert line[0] == t[0];
    assert LStrip(line) == line;
    assert line[..|line| - 1] == t;
    assert RStrip(t) == t;
    assert Strip(line) == t;
    assert Join(['\t'], [c, name]) == t;
    assert '\t' !in c by {
      if code < 0 {
        assert c == "-" + NatToStr(-code);
      }
    }
    JoinSplit([c, name], '\t');
    ParseIntToStr(code);
  }

  /** What the line loop of `parse_single_file` carries from one line to
      the next: the code and name of the last data line (`curr_nace`,
      `curr_name`), the environment variables and the categories found so
      far. `prev_nace` and `prev_name` are copied from the first two just
      before each use, so they need no place of their own. */
  datatype Parser = Parser(code: int, name: string, env: Dict<string, string>, nace: Nace)

  /** `reset_vars()` and a cleared environment: the state at the start of a
      file and after a blank line. */
  function Reset(nace: Nace): (p: Parser)
    ensures p.code < 0 && p.env == [] && p.nace == nace
  {
    Parser(-1, "", [], nace)
  }

  /** The category name of a range: the escaped name, after `prefix` and
      '_' when the environment sets `prefix`. */
  function CategName(env: Dict<string, string>, name: string): (r: string)
    ensures !HasKey(env, "prefix") ==> r == EscapeName(name)
    ensures HasKey(env, "prefix") ==> exists v :: v == Get(env, "prefix").value && r == v + "_" + EscapeName(name)
  {
    var prefix := Get(env, "prefix");
    if prefix.Some? then prefix.value + "_" + EscapeName(name) else EscapeName(name)
  }

  /** One iteration of the loop over a file's lines: `line[0]` fails on an
      empty line; a comment line may set a variable; a blank line resets;
      a data line becomes the last line, and the line before it, unless it
      is the stop name "!" or there is none, gets the range from its code
      up to this line's code. */
  function Step(p: Parser, line: string): Result<Parser>
  {
    if line == [] then Err(IndexError)
    else if line[0] == '#' then
      var m := Assignment(line);
      Ok(if m.Some? then p.(env := Put(p.env, m.value.0, m.value.1)) else p)
    else if line[0] == '\n' then Ok(Reset(p.nace))
    else
      var d :- DataLine(line);
      var q := p.(code := d.0, name := d.1);
      if p.name == "!" || p.code < 0 then Ok(q)
      else Ok(q.(nace := Put(p.nace, CategName(p.env, p.name), NaceRange(p.code, d.0))))
  }

  /** The loop over the lines, stopping at the first exception. */
  function ParseLines(p: Parser, lines: seq<string>): Result<Parser>
    decreases |lines|
  {
    if lines == [] then Ok(p)
    else
      var q :- Step(p, lines[0]);
      ParseLines(q, lines[1..])
  }

  lemma ParseLinesCons(p: Parser, line: string, rest: seq<string>)
    ensures ParseLines(p, [line] + rest) ==
      if Step(p, line).Err? then Err(Step(p, line).error) else ParseLines(Step(p, line).value, rest)
  {
    assert ([line] + rest)[0] == line && ([line] + rest)[1..] == rest;
  }

  lemma StepDistinct(p: Parser, line: string)
    requires DistinctKeys(p.nace)
    ensures Step(p, line).Ok? ==> DistinctKeys(Step(p, line).value.nace)
  {
    if line != [] && line[0] != '#' && line[0] != '\n' && DataLine(line).Ok? {
      PutKeepsDistinct(p.nace, CategName(p.env, p.name), NaceRange(p.code, DataLine(line).value.0));
    }
  }

  lemma {:induction false} ParseLinesDistinct(p: Parser, lines: seq<string>)
    requires DistinctKeys(p.nace)
    ensures ParseLines(p, lines).Ok? ==> DistinctKeys(ParseLines(p, lines).value.nace)
    decreases |lines|
  {
    if lines != [] {
      StepDistinct(p, lines[0]);
      if Step(p, lines[0]).Ok? {
        ParseLinesDistinct(Step(p, lines[0]).value, lines[1..]);
      }
    }
  }

  /** `parse_single_file` on the lines of one file: its categories, each
      name once, or the exception its loop raises. */
  function ParseSingleFile(lines: seq<string>): (r: Result<Nace>)
    ensures r.Ok? ==> DistinctKeys(r.value)
  {
    ParseLinesDistinct(Reset([]), lines);
    var p :- ParseLines(Reset([]), lines);
    Ok(p.nace)
  }

  /** The loop of `parse_single_file`, with its variables. */
  method ParseSingleFileLoop(lines: seq<string>) returns (r: Result<Nace>)
    ensures r == ParseSingleFile(lines)
  {
    var prevCode, prevName, currCode, currName := -1, "", -1, "";
    var env: Dict<string, string> := [];
    var nace: Nace := [];
    var i := 0;
    while i < |lines|
      invariant 0 <= i <= |lines|
      invariant ParseLines(Reset([]), lines) == ParseLines(Parser(currCode, currName, env, nace), lines[i..])
    {
      var line := lines[i];
      assert lines[i..][0] == line && lines[i..][1..] == lines[i + 1..];
      if line == [] {
        return Err(IndexError);
      }
      if line[0] == '#' {
        var m := Assignment(line);
        if m.Some? {
          env := Put(env, m.value.0, m.value.1);
        }
      } else if line[0] == '\n' {
        prevCode, prevName, currCode, currName := -1, "", -1, "";
        env := [];
      } else {
        prevCode, prevName := currCode, currName;
        var d := DataLine(line);
        if d.Err? {
          return Err(d.error);
        }
        currCode, currName := d.value.0, d.value.1;
        if !(prevName == "!" || prevCode < 0) {
          var categ := EscapeName(prevName);
          var prefix := Get(env, "prefix");
          if prefix.Some? {
            categ := prefix.value + "_" + categ;
          }
          nace := Put(nace, categ, NaceRange(prevCode, currCode));
        }
      }
      i := i + 1;
    }
    assert lines[i..] == [];
    return Ok(nace);
  }

  /** After a blank line the environment is empty, and neither the next
      line nor one after the state at the start of a file adds a category. */
  lemma BlankLineResets(p: Parser, blank: string, line: string)
    requires blank != [] && blank[0] == '\n'
    ensures Step(p, blank) == Ok(Reset(p.nace))
    ensures Step(Reset(p.nace), line).Ok? ==> Step(Reset(p.nace), line).value.nace == p.nace
  {
  }

  /** A data line after the stop name "!" adds no category. */
  lemma NoCategoryAfterStop(p: Parser, line: string)
    requires p.name == "!"
    ensures Step(p, line).Ok? ==> Step(p, line).value.nace == p.nace
  {
  }

  lemma StepData(p: Parser, line: string)
    requires line != [] && line[0] != '#' && line[0] != '\n' && DataLine(line).Ok?
    ensures Step(p, line) == Ok(Parser(DataLine(line).value.0, DataLine(line).value.1, p.env,
      if p.name == "!" || p.code < 0 then p.nace
      else Put(p.nace, CategName(p.env, p.name), NaceRange(p.code, DataLine(line).value.0))))
  {
  }

  /** A data line is the end of the previous line's range: the previous
      name's category now maps to `range(prev_code, code)`, every other
      category is as it was, and the data line becomes the last line. */
  lemma DataLineDefinesPrevious(p: Parser, line: string, key: string)
    requires line != [] && line[0] != '#' && line[0] != '\n' && DataLine(line).Ok?
    requires p.code >= 0 && p.name != "!"
    ensures Step(p, line).Ok?
    ensures Step(p, line).value.code == DataLine(line).value.0
    ensures Step(p, line).value.name == DataLine(line).value.1
    ensures Get(Step(p, line).value.nace, key) ==
      if key == CategName(p.env, p.name) then Some(NaceRange(p.code, DataLine(line).value.0))
      else Get(p.nace, key)
  {
    StepData(p, line);
    GetPut(p.nace, CategName(p.env, p.name), NaceRange(p.code, DataLine(line).value.0), key);
  }

  /** `# prefix = v` makes every later category name start with "v_". */
  lemma PrefixComment(p: Parser, line: string, v: string, name: string)
    requires Assignment(line) == Some(("prefix", v))
    ensures Step(p, line) == Ok(p.(env := Put(p.env, "prefix", v)))
    ensures CategName(Put(p.env, "prefix", v), name) == v + "_" + EscapeName(name)
  {
    GetPut(p.env, "prefix", v, "prefix");
  }

  lemma TwoLinesParse(l1: string, l2: string, nace: Nace)
    requires l1 != [] && l1[0] != '#' && l1[0] != '\n' && DataLine(l1).Ok?
    requires l2 != [] && l2[0] != '#' && l2[0] != '\n' && DataLine(l2).Ok?
    requires DataLine(l1).value.0 >= 0 && DataLine(l1).value.1 != "!"
    requires nace == Put([], CategName([], DataLine(l1).value.1), NaceRange(DataLine(l1).value.0, DataLine(l2).value.0))
    ensures ParseLines(Reset([]), [l1, l2]) == Ok(Parser(DataLine(l2).value.0, DataLine(l2).value.1, [], nace))
  {
    var d1 := DataLine(l1).value;
    var p1 := Parser(d1.0, d1.1, [], []);
    StepData(Reset([]), l1);
    StepData(p1, l2);
    ParseLinesCons(Reset([]), l1, [l2]);
    ParseLinesCons(p1, l2, []);
    assert [l1] + [l2] == [l1, l2] && [l2] + [] == [l2];
  }

  /** A section of two data lines defines one category, the first line's,
      ranging up to the second line's code; the last line of a section
      names no category of its own. */
  lemma TwoLineSection(l1: string, l2: string)
    requires l1 != [] && l1[0] != '#' && l1[0] != '\n' && DataLine(l1).Ok?
    requires l2 != [] && l2[0] != '#' && l2[0] != '\n' && DataLine(l2).Ok?
    requires DataLine(l1).value.0 >= 0 && DataLine(l1).value.1 != "!"
    ensures ParseSingleFile([l1, l2]) ==
      Ok([(EscapeName(DataLine(l1).value.1), NaceRange(DataLine(l1).value.0, DataLine(l2).value.0))])
  {
    var k := CategName([], DataLine(l1).value.1);
    var v := NaceRange(DataLine(l1).value.0, DataLine(l2).value.0);
    var nace := Put([], k, v);
    assert nace == [(k, v)];
    TwoLinesParse(l1, l2, nace);
  }

  /** `reduce(lambda d, d1: {**d, **d1}, ..., dict())` over the files'
      categories, each file parsed in turn. */
  function MergeFiles(acc: Nace, files: seq<seq<string>>): Result<Nace>
    decreases |files|
  {
    if files == [] then Ok(acc)
    else
      var d :- ParseSingleFile(files[0]);
      MergeFiles(Overlay(acc, d), files[1..])
  }

  /** `parse_nace`: the union of the files' categories. */
  function ParseNace(files: seq<seq<string>>): Result<Nace>
  {
    MergeFiles([], files)
  }

  lemma {:induction false} MergeFilesSnoc(acc: Nace, files: seq<seq<string>>, f: seq<string>)
    ensures MergeFiles(acc, files + [f]) ==
      if MergeFiles(acc, files).Err? then MergeFiles(acc, files)
      else if ParseSingleFile(f).Err? then Err(ParseSingleFile(f).error)
      else Ok(Overlay(MergeFiles(acc, files).value, ParseSingleFile(f).value))
    decreases |files|
  {
    if files == [] {
      assert files + [f] == [f] && [f][0] == f && [f][1..] == [];
    } else {
      assert (files + [f])[0] == files[0] && (files + [f])[1..] == files[1..] + [f];
      if ParseSingleFile(files[0]).Ok? {
        MergeFilesSnoc(Overlay(acc, ParseSingleFile(files[0]).value), files[1..], f);
      }
    }
  }

  /** A later file overrides the ranges of the names it shares with the
      files before it, and keeps the others. */
  lemma LaterFileWins(files: seq<seq<string>>, f: seq<string>, key: string)
    requires ParseNace(files + [f]).Ok?
    ensures ParseNace(files).Ok? && ParseSingleFile(f).Ok?
    ensures Get(ParseNace(files + [f]).value, key) ==
      if HasKey(ParseSingleFile(f).value, key) then Get(ParseSingleFile(f).value, key)
      else Get(ParseNace(files).value, key)
  {
    MergeFilesSnoc([], files, f);
    GetOverlay(ParseNace(files).value, ParseSingleFile(f).value, key);
  }

  /** Some file raises an exception. */
  predicate SomeFails(files: seq<seq<string>>)
  {
    exists i :: 0 <= i < |files| && ParseSingleFile(files[i]).Err?
  }

  lemma SomeFailsCons(files: seq<seq<string>>)
    requires files != []
    ensures SomeFails(files) <==> ParseSingleFile(files[0]).Err? || SomeFails(files[1..])
  {
    if SomeFails(files[1..]) {
      var i :| 0 <= i < |files[1..]| && ParseSingleFile(files[1..][i]).Err?;
      assert files[i + 1] == files[1..][i];
    }
    if SomeFails(files) && ParseSingleFile(files[0]).Ok? {
      var i :| 0 <= i < |files| && ParseSingleFile(files[i]).Err?;
      assert files[1..][i - 1] == files[i];
    }
  }

  lemma MergeFilesCons(acc: Nace, files: seq<seq<string>>)
    requires files != []
    ensures MergeFiles(acc, files) ==
      if ParseSingleFile(files[0]).Err? then Err(ParseSingleFile(files[0]).error)
      else MergeFiles(Overlay(acc, ParseSingleFile(files[0]).value), files[1..])
  {
  }

  /** Parsing fails exactly when one of the files fails. */
  lemma {:induction false} MergeFilesFails(acc: Nace, files: seq<seq<string>>)
    ensures MergeFiles(acc, files).Err? <==> SomeFails(files)
    decreases |files|
  {
    if files != [] {
      SomeFailsCons(files);
      MergeFilesCons(acc, files);
      var r := ParseSingleFile(files[0]);
      if r.Ok? {
        MergeFilesFails(Overlay(acc, r.value), files[1..]);
      }
    }
  }

  // ---------------------------------------------------------------------
  // The category test of parse_data_python

  const NaceStart: nat := 26
  const NaceEnd: nat := 30

  /** `datarow[26:30]`: the columns that hold a company's codes; a short
      row has fewer of them, or none. */
  function NaceColumns(row: seq<string>): (r: seq<string>)
    ensures |r| == if |row| <= NaceStart then 0 else if |row| >= NaceEnd then NaceEnd - NaceStart else |row| - NaceStart
    ensures forall j :: 0 <= j < |r| ==> r[j] == row[NaceStart + j]
  {
    if |row| <= NaceStart then [] else row[NaceStart..if |row| < NaceEnd then |row| else NaceEnd]
  }

  /** `q in s` for some column `s`. */
  predicate InColumns(cols: seq<string>, q: string)
  {
    exists j :: 0 <= j < |cols| && Contains(cols[j], q)
  }

  /** Some code of the range, as `str` prints it, occurs in one of the
      columns. */
  predicate Hit(cols: seq<string>, rng: NaceRange)
  {
    exists code :: rng.lo <= code < rng.hi && InColumns(cols, IntToStr(code))
  }

  /** A row joins a category when some code of its range occurs in one of
      the row's code columns. */
  predicate InCategory(row: seq<string>, rng: NaceRange)
  {
    Hit(NaceColumns(row), rng)
  }

  /** A row whose code column holds the printed code of the range anywhere,
      also inside a longer code or text, joins the category. */
  lemma InCategoryOf(row: seq<string>, rng: NaceRange, j: nat, code: int, pre: string, post: string)
    requires NaceStart <= j < NaceEnd && j < |row|
    requires rng.lo <= code < rng.hi && row[j] == pre + IntToStr(code) + post
    ensures InCategory(row, rng)
  {
    var cols := NaceColumns(row);
    assert cols[j - NaceStart] == row[j];
    ContainsItself(IntToStr(code), pre, post);
    assert InColumns(cols, IntToStr(code));
  }

  /** `any(q in s for s in nace_vals)` for one code `q`. */
  method AnyColumn(cols: seq<string>, q: string) returns (b: bool)
    ensures b <==> InColumns(cols, q)
  {
    b := false;
    var j := 0;
    while j < |cols| && !b
      invariant 0 <= j <= |cols|
      invariant b ==> InColumns(cols, q)
      invariant !b ==> forall k :: 0 <= k < j ==> !Contains(cols[k], q)
    {
      if Contains(cols[j], q) {
        b := true;
      }
      j := j + 1;
    }
  }

  /** `any(q in s for q in map(str, categ_range) for s in nace_vals)`. */
  method Matches(cols: seq<string>, rng: NaceRange) returns (b: bool)
    ensures b <==> Hit(cols, rng)
  {
    b := false;
    var code := rng.lo;
    while code < rng.hi && !b
      invariant rng.lo <= code
      invariant b ==> Hit(cols, rng)
      invariant !b ==> forall c :: rng.lo <= c < code ==> !InColumns(cols, IntToStr(c))
      decreases rng.hi - code
    {
      b := AnyColumn(cols, IntToStr(code));
      code := code + 1;
    }
  }

  /** The names of the pairs of `nace` whose range passes `test`, in the
      order of the map. */
  function Joined(nace: Nace, test: NaceRange -> bool): (cs: seq<string>)
    ensures |cs| <= |nace|
  {
    if nace == [] then []
    else
      var last := nace[|nace| - 1];
      Joined(nace[..|nace| - 1], test) + (if test(last.1) then [last.0] else [])
  }

  /** Some pair of `nace` has the name `k` and a range that passes `test`. */
  predicate Listed(nace: Nace, test: NaceRange -> bool, k: string)
  {
    exists i :: 0 <= i < |nace| && nace[i].0 == k && test(nace[i].1)
  }

  lemma JoinedSnoc(nace: Nace, test: NaceRange -> bool, i: int)
    requires 0 <= i < |nace|
    ensures Joined(nace[..i + 1], test) ==
      Joined(nace[..i], test) + (if test(nace[i].1) then [nace[i].0] else [])
  {
    assert nace[..i + 1][..i] == nace[..i] && nace[..i + 1][i] == nace[i];
  }

  /** A name is among those joined exactly when one of the map's pairs
      with that name has a range that passes the test. */
  lemma {:induction false} JoinedHas(nace: Nace, test: NaceRange -> bool, k: string)
    ensures k in Joined(nace, test) <==> Listed(nace, test, k)
    decreases |nace|
  {
    if nace != [] {
      var n := |nace| - 1;
      var init := nace[..n];
      JoinedSnoc(nace, test, n);
      assert nace[..n + 1] == nace;
      JoinedHas(init, test, k);
      if Listed(init, test, k) {
        var i :| 0 <= i < |init| && init[i].0 == k && test(init[i].1);
        assert nace[i] == init[i];
      }
      if Listed(nace, test, k) {
        var i :| 0 <= i < |nace| && nace[i].0 == k && test(nace[i].1);
        if i < n {
          assert init[i] == nace[i];
        }
      }
    }
  }

  /** The loop over `nace.items()` for one row: the categories whose files
      the row is appended to, those whose range has a code in the row's
      code columns. */
  method RowCategories(nace: Nace, row: seq<string>) returns (cs: seq<string>)
    ensures cs == Joined(nace, rng => InCategory(row, rng))
  {
    ghost var test := rng => InCategory(row, rng);
    var cols := NaceColumns(row);
    cs := [];
    var i := 0;
    while i < |nace|
      invariant 0 <= i <= |nace|
      invariant cs == Joined(nace[..i], test)
    {
      var b := Matches(cols, nace[i].1);
      JoinedSnoc(nace, test, i);
      assert b == test(nace[i].1);
      if b {
        cs := cs + [nace[i].0];
      }
      i := i + 1;
    }
    assert nace[..i] == nace;
  }
}
