/** The column-name and cell cleaning of the Slovak register merge script:
    `escape_whitespace`, `escape_characters`, the header cleaning chain and
    `reduce_whitespace`. */
module SkMergeCsvs {
  import opened Text
  import opened Patterns

  lemma NoSpaceConcat(a: string, b: string)
    requires NoSpace(a) && NoSpace(b)
    ensures NoSpace(a + b)
  {
    forall j | 0 <= j < |a + b|
      ensures !IsSpace((a + b)[j])
    {
      if j >= |a| {
        assert (a + b)[j] == b[j - |a|];
      }
    }
  }

  /** Joining whitespace-free pieces with a whitespace-free separator leaves
      no whitespace. */
  lemma {:induction false} JoinNoSpace(parts: seq<string>, sep: string)
    requires NoSpace(sep)
    requires forall i :: 0 <= i < |parts| ==> NoSpace(parts[i])
    ensures NoSpace(Join(sep, parts))
    decreases |parts|
  {
    if |parts| > 1 {
      var rest := parts[1..];
      assert forall i :: 0 <= i < |rest| ==> rest[i] == parts[i + 1];
      JoinNoSpace(rest, sep);
      NoSpaceConcat(parts[0], sep);
      NoSpaceConcat(parts[0] + sep, Join(sep, rest));
    }
  }

  // ---------------------------------------------------------------------
  // escape_whitespace
  // ---------------------------------------------------------------------

  /** `escape_whitespace`: strips `s`, then joins the pieces between its
      whitespace runs with `'_'`, so the result holds no whitespace. */
  function EscapeWhitespace(s: string): (r: string)
    ensures NoSpace(r)
  {
    var parts := SplitSpaces(Strip(s));
    JoinNoSpace(parts, "_");
    Join("_", parts)
  }

  /** A whitespace-free prefix is glued onto the first piece. */
  lemma {:induction false} SplitSpacesPrefix(w: string, rest: string)
    requires NoSpace(w) && (rest == [] || IsSpace(rest[0]))
    ensures SplitSpaces(w + rest) == [w + SplitSpaces(rest)[0]] + SplitSpaces(rest)[1..]
    decreases |w|
  {
    if w == [] {
      assert w + rest == rest;
    } else {
      var s := w + rest;
      assert s[0] == w[0] && s[1..] == w[1..] + rest;
      SplitSpacesPrefix(w[1..], rest);
      assert [w[0]] + (w[1..] + SplitSpaces(rest)[0]) == w + SplitSpaces(rest)[0];
    }
  }

  lemma WordsLStrip(s: string)
    ensures Words(s) == Words(LStrip(s))
  {
    var t := LStrip(s);
    assert LStrip(t) == t;
  }

  lemma WordsHead(t: string)
    requires t != [] && !IsSpace(t[0])
    ensures Words(t) == [t[..WordLen(t)]] + Words(t[WordLen(t)..])
  {
    assert LStrip(t) == t;
  }

  lemma SplitSpacesHead(t: string, n: nat)
    requires n == WordLen(t)
    ensures SplitSpaces(t) == [t[..n] + SplitSpaces(t[n..])[0]] + SplitSpaces(t[n..])[1..]
  {
    var w := t[..n];
    var rest := t[n..];
    assert w + rest == t;
    SplitSpacesPrefix(w, rest);
  }

  /** A whitespace run between words: an empty piece for `re.split`, nothing
      for `str.split`. */
  lemma SplitSpacesGap(rest: string)
    requires rest != [] && IsSpace(rest[0])
    ensures SplitSpaces(rest) == [""] + SplitSpaces(LStrip(rest))
    ensures Words(rest) == Words(LStrip(rest))
  {
    assert LStrip(rest) == LStrip(rest[1..]);
    WordsLStrip(rest);
  }

  lemma LStripEnd(t: string, n: nat)
    requires n < |t| && !IsSpace(t[|t| - 1])
    ensures LStrip(t[n..]) != [] && LStrip(t[n..])[|LStrip(t[n..])| - 1] == t[|t| - 1]
  {
    var rest := t[n..];
    assert rest[|rest| - 1] == t[|t| - 1];
  }

  /** On a stripped, non-empty string `re.split(r'\s+', t)` is `t.split()`. */
  lemma {:induction false} SplitSpacesWords(t: string)
    requires t != [] && !IsSpace(t[0]) && !IsSpace(t[|t| - 1])
    ensures SplitSpaces(t) == Words(t)
    decreases |t|
  {
    var n := WordLen(t);
    var w := t[..n];
    var rest := t[n..];
    WordsHead(t);
    SplitSpacesHead(t, n);
    assert w + "" == w;
    if rest != [] {
      SplitSpacesGap(rest);
      var u := LStrip(rest);
      assert u != [] && !IsSpace(u[0]) && !IsSpace(u[|u| - 1]) by {
        LStripEnd(t, n);
      }
      SplitSpacesWords(u);
    }
  }

  /** `escape_whitespace(s)` is `'_'.join(s.strip().split())`. */
  lemma EscapeWhitespaceJoinsWords(s: string)
    ensures EscapeWhitespace(s) == Join("_", Words(Strip(s)))
  {
    var t := Strip(s);
    if t == [] {
      assert SplitSpaces(t) == [""] && Words(t) == [];
    } else {
      SplitSpacesWords(t);
    }
  }

  // ---------------------------------------------------------------------
  // Header cleaning: str.lower, escape_whitespace, escape_characters
  // ---------------------------------------------------------------------

  /** `clean_headers` on one header, `strip_accents` being the identity on
      ASCII: lower-cased, whitespace escaped, then `escape_characters`. */
  function CleanHeader(h: string): (r: string)
    ensures forall i :: 0 <= i < |r| ==> IsNameChar(r[i])
  {
    NameChars(EscapeWhitespace(Lower(h)))
  }

  lemma SplitSpacesNoSpace(w: string)
    requires NoSpace(w)
    ensures SplitSpaces(w) == [w]
  {
    SplitSpacesPrefix(w, []);
    assert w + [] == w;
    assert w + "" == w;
  }

  lemma LowerNameChars(c: string)
    requires forall i :: 0 <= i < |c| ==> IsNameChar(c[i])
    ensures Lower(c) == c
  {
    assert forall i :: 0 <= i < |c| ==> Lower(c)[i] == c[i];
  }

  /** Text without whitespace is left as it is by `escape_whitespace`. */
  lemma EscapeWhitespacePlain(c: string)
    requires NoSpace(c)
    ensures EscapeWhitespace(c) == c
  {
    assert Strip(c) == c by {
      if c != [] {
        StripPlain(c);
      }
    }
    SplitSpacesNoSpace(c);
  }

  /** A cleaned header is cleaned to itself. */
  lemma CleanHeaderIdempotent(h: string)
    ensures CleanHeader(CleanHeader(h)) == CleanHeader(h)
  {
    var c := CleanHeader(h);
    LowerNameChars(c);
    assert NoSpace(c) by {
      assert forall i :: 0 <= i < |c| ==> IsNameChar(c[i]);
    }
    EscapeWhitespacePlain(c);
    NameCharsKeeps(c);
  }

  // ---------------------------------------------------------------------
  // reduce_whitespace, as written
  // ---------------------------------------------------------------------

  /** `re.findall(r'\s+', s)`: the maximal whitespace runs, left to right. */
  function Runs(s: string): (runs: seq<string>)
    decreases |s|
  {
    if s == [] then []
    else if !IsSpace(s[0]) then Runs(s[1..])
    else
      var rest := LStrip(s);
      assert rest == LStrip(s[1..]);
      [s[..|s| - |rest|]] + Runs(rest)
  }

  /** Non-empty stretches of whitespace only. */
  predicate AllRuns(runs: seq<string>)
  {
    forall i :: 0 <= i < |runs| ==> runs[i] != [] && AllSpace(runs[i])
  }

  lemma AllRunsCons(run: string, runs: seq<string>)
    requires run != [] && AllSpace(run) && AllRuns(runs)
    ensures AllRuns([run] + runs)
  {
    assert forall i :: 1 <= i < |[run] + runs| ==> ([run] + runs)[i] == runs[i - 1];
  }

  /** Every run found is a non-empty stretch of whitespace. */
  lemma {:induction false} RunsAreSpace(s: string)
    ensures AllRuns(Runs(s))
    decreases |s|
  {
    if s != [] {
      if !IsSpace(s[0]) {
        assert Runs(s) == Runs(s[1..]);
        RunsAreSpace(s[1..]);
      } else {
        var rest := LStrip(s);
        assert rest == LStrip(s[1..]);
        var run := s[..|s| - |rest|];
        assert Runs(s) == [run] + Runs(rest);
        assert run != [] && AllSpace(run);
        RunsAreSpace(rest);
        AllRunsCons(run, Runs(rest));
      }
    }
  }

  /** The replacement for one run: `'\n'` if it holds one, then `'\r'` if
      it holds one, and a single space when it holds neither. */
  function Token(run: string): (r: string)
    ensures r != [] && AllSpace(r) && |r| <= 2
    ensures '\n' in r <==> '\n' in run
    ensures '\r' in r <==> '\r' in run
    ensures ('\n' !in run && '\r' !in run) <==> r == " "
  {
    var t := (if '\n' in run then "\n" else "") + (if '\r' in run then "\r" else "");
    if t == "" then " " else t
  }

  /** The loop of `reduce_whitespace`: each run in turn is replaced
      everywhere, by substring, in the text the previous runs left. */
  function ReplaceRuns(t: string, runs: seq<string>): (r: string)
    decreases |runs|
  {
    if runs == [] then t
    else
      var last := runs[|runs| - 1];
      Replace(ReplaceRuns(t, runs[..|runs| - 1]), last, Token(last))
  }

  /** `reduce_whitespace` as the source writes it. */
  function ReduceWhitespace(s: string): (r: string)
  {
    var t := Strip(s);
    ReplaceRuns(t, Runs(t))
  }

  /** `reduce_whitespace`, with its loop over the runs. */
  method ReduceWhitespaceLoop(s: string) returns (r: string)
    ensures r == ReduceWhitespace(s)
  {
    r := Strip(s);
    ghost var t := r;
    var runs := Runs(r);
    var i := 0;
    while i < |runs|
      invariant 0 <= i <= |runs|
      invariant r == ReplaceRuns(t, runs[..i])
    {
      var run := runs[i];
      assert runs[..i + 1][..i] == runs[..i];
      r := Replace(r, run, Token(run));
      i := i + 1;
    }
    assert runs[..|runs|] == runs;
  }

  /** A replacement of whitespace by whitespace keeps a non-whitespace
      first character. */
  lemma ReplaceFirst(t: string, pat: string, repl: string)
    requires pat != [] && AllSpace(pat)
    requires t != [] && !IsSpace(t[0])
    ensures Replace(t, pat, repl) != [] && Replace(t, pat, repl)[0] == t[0]
  {
    assert IsSpace(pat[0]);
    assert |pat| <= |t| ==> t[..|pat|][0] == t[0];
  }

  /** ... and a non-whitespace last character. */
  lemma {:induction false} ReplaceLast(t: string, pat: string, repl: string)
    requires pat != [] && AllSpace(pat)
    requires t != [] && !IsSpace(t[|t| - 1])
    ensures Replace(t, pat, repl) != []
    ensures Replace(t, pat, repl)[|Replace(t, pat, repl)| - 1] == t[|t| - 1]
    decreases |t|
  {
    if StartsWith(t, pat) {
      assert IsSpace(pat[|pat| - 1]);
      assert t[|pat| - 1] == pat[|pat| - 1];
      var u := t[|pat|..];
      assert u[|u| - 1] == t[|t| - 1];
      ReplaceLast(u, pat, repl);
    } else if |t| == 1 {
      assert Replace(t[1..], pat, repl) == [];
    } else {
      var u := t[1..];
      assert u[|u| - 1] == t[|t| - 1];
      ReplaceLast(u, pat, repl);
    }
  }

  /** No whitespace at either end. */
  predicate Stripped(t: string)
  {
    t == [] || (!IsSpace(t[0]) && !IsSpace(t[|t| - 1]))
  }

  /** Both empty, or both with the same first and last characters. */
  predicate SameEnds(a: string, b: string)
  {
    (a == [] <==> b == []) && (a != [] ==> a[0] == b[0] && a[|a| - 1] == b[|b| - 1])
  }

  lemma ReplaceEnds(u: string, pat: string, repl: string)
    requires pat != [] && AllSpace(pat) && Stripped(u)
    ensures SameEnds(Replace(u, pat, repl), u)
  {
    if u != [] {
      ReplaceFirst(u, pat, repl);
      ReplaceLast(u, pat, repl);
    }
  }

  /** Stripped text keeps its two end characters through any number of run
      replacements. */
  lemma {:induction false} ReplaceRunsEnds(t: string, runs: seq<string>)
    requires AllRuns(runs)
    requires Stripped(t)
    ensures SameEnds(ReplaceRuns(t, runs), t)
    decreases |runs|
  {
    if runs != [] {
      var init := runs[..|runs| - 1];
      var last := runs[|runs| - 1];
      assert forall i :: 0 <= i < |init| ==> init[i] == runs[i];
      ReplaceRunsEnds(t, init);
      ReplaceEnds(ReplaceRuns(t, init), last, Token(last));
    }
  }

  /** `reduce_whitespace` leaves no leading or trailing whitespace, and
      gives the empty string only for all-whitespace input. */
  lemma ReduceWhitespaceStripped(s: string)
    ensures Stripped(ReduceWhitespace(s))
    ensures ReduceWhitespace(s) == [] <==> Strip(s) == []
  {
    var t := Strip(s);
    assert Stripped(t);
    assert ReduceWhitespace(s) == ReplaceRuns(t, Runs(t));
    RunsAreSpace(t);
    ReplaceRunsEnds(t, Runs(t));
  }

  // ---------------------------------------------------------------------
  // Visible text: both versions only ever touch whitespace
  // ---------------------------------------------------------------------

  /** The non-whitespace characters, in order. */
  function Visible(s: string): (r: string)
    ensures NoSpace(r) && |r| <= |s|
  {
    if s == [] then []
    else (if IsSpace(s[0]) then [] else [s[0]]) + Visible(s[1..])
  }

  lemma {:induction false} VisibleConcat(a: string, b: string)
    ensures Visible(a + b) == Visible(a) + Visible(b)
    decreases |a|
  {
    if a == [] {
      assert a + b == b;
    } else {
      var h := if IsSpace(a[0]) then [] else [a[0]];
      assert (a + b)[0] == a[0] && (a + b)[1..] == a[1..] + b;
      assert Visible(a + b) == h + Visible(a[1..] + b);
      VisibleConcat(a[1..], b);
      ConcatAssoc(h, Visible(a[1..]), Visible(b));
    }
  }

  lemma {:induction false} VisibleSpace(w: string)
    requires AllSpace(w)
    ensures Visible(w) == []
    decreases |w|
  {
    if w != [] {
      VisibleSpace(w[1..]);
    }
  }

  lemma VisibleLStrip(s: string)
    ensures Visible(LStrip(s)) == Visible(s)
  {
    var l := LStrip(s);
    var p := s[..|s| - |l|];
    assert s == p + l;
    VisibleConcat(p, l);
    VisibleSpace(p);
    assert [] + Visible(l) == Visible(l);
  }

  lemma VisibleRStrip(l: string)
    ensures Visible(RStrip(l)) == Visible(l)
  {
    var r := RStrip(l);
    var q := l[|r|..];
    assert l == r + q;
    VisibleConcat(r, q);
    VisibleSpace(q);
    assert Visible(r) + [] == Visible(r);
  }

  lemma VisibleStrip(s: string)
    ensures Visible(Strip(s)) == Visible(s)
  {
    VisibleLStrip(s);
    VisibleRStrip(LStrip(s));
  }

  /** Replacing whitespace by whitespace keeps the visible text. */
  lemma {:induction false} VisibleReplace(s: string, pat: string, repl: string)
    requires pat != [] && AllSpace(pat) && AllSpace(repl)
    ensures Visible(Replace(s, pat, repl)) == Visible(s)
    decreases |s|
  {
    if StartsWith(s, pat) {
      VisibleReplace(s[|pat|..], pat, repl);
      VisibleConcat(repl, Replace(s[|pat|..], pat, repl));
      VisibleSpace(repl);
      assert s == pat + s[|pat|..];
      VisibleConcat(pat, s[|pat|..]);
      VisibleSpace(pat);
    } else if s != [] {
      VisibleReplace(s[1..], pat, repl);
      assert Replace(s, pat, repl) == [s[0]] + Replace(s[1..], pat, repl);
      VisibleConcat([s[0]], Replace(s[1..], pat, repl));
    }
  }

  lemma {:induction false} VisibleReplaceRuns(t: string, runs: seq<string>)
    requires AllRuns(runs)
    ensures Visible(ReplaceRuns(t, runs)) == Visible(t)
    decreases |runs|
  {
    if runs != [] {
      var init := runs[..|runs| - 1];
      var last := runs[|runs| - 1];
      assert forall i :: 0 <= i < |init| ==> init[i] == runs[i];
      VisibleReplaceRuns(t, init);
      VisibleReplace(ReplaceRuns(t, init), last, Token(last));
    }
  }

  /** `reduce_whitespace` changes whitespace only. */
  lemma ReduceWhitespaceKeepsText(s: string)
    ensures Visible(ReduceWhitespace(s)) == Visible(s)
  {
    var t := Strip(s);
    RunsAreSpace(t);
    VisibleReplaceRuns(t, Runs(t));
    VisibleStrip(s);
  }

  // ---------------------------------------------------------------------
  // reduce_whitespace, one token per run
  // ---------------------------------------------------------------------

  /** At most one whitespace character in a row, except the pair "\n\r"
      that a run holding both line breaks becomes. */
  predicate Reduced(r: string)
  {
    forall i :: 0 <= i < |r| - 1 && IsSpace(r[i]) && IsSpace(r[i + 1]) ==>
      r[i] == '\n' && r[i + 1] == '\r'
  }

  lemma ReducedConcat(a: string, b: string)
    requires Reduced(a) && Reduced(b)
    requires a == [] || b == [] || !IsSpace(a[|a| - 1]) || !IsSpace(b[0])
    ensures Reduced(a + b)
  {
    var c := a + b;
    assert forall i :: 0 <= i < |a| ==> c[i] == a[i];
    assert forall i :: |a| <= i < |c| ==> c[i] == b[i - |a|];
  }

  /** Each maximal whitespace run replaced, where it stands, by its
      token; the rest of the text is kept. */
  function Squeeze(t: string): (r: string)
    decreases |t|
  {
    if t == [] then []
    else if !IsSpace(t[0]) then [t[0]] + Squeeze(t[1..])
    else
      var tail := LStrip(t);
      assert tail == LStrip(t[1..]);
      Token(t[..|t| - |tail|]) + Squeeze(tail)
  }

  /** One step of `Squeeze`. */
  lemma SqueezeUnfold(t: string)
    requires t != []
    ensures !IsSpace(t[0]) ==> Squeeze(t) == [t[0]] + Squeeze(t[1..])
    ensures IsSpace(t[0]) ==>
      Squeeze(t) == Token(t[..|t| - |LStrip(t)|]) + Squeeze(LStrip(t))
  {
  }

  lemma TokenReduced(run: string)
    ensures Reduced(Token(run))
  {
    var tok := Token(run);
    if |tok| == 2 {
      assert tok == "\n\r";
    }
  }

  /** Squeezing leaves no two whitespace characters in a row but "\n\r",
      and keeps a leading non-whitespace character. */
  lemma {:induction false} SqueezeReduced(t: string)
    ensures Reduced(Squeeze(t))
    ensures t != [] && !IsSpace(t[0]) ==> Squeeze(t) != [] && Squeeze(t)[0] == t[0]
    decreases |t|
  {
    if t != [] {
      if !IsSpace(t[0]) {
        assert Squeeze(t) == [t[0]] + Squeeze(t[1..]);
        SqueezeReduced(t[1..]);
        ReducedConcat([t[0]], Squeeze(t[1..]));
      } else {
        var tail := LStrip(t);
        var run := t[..|t| - |tail|];
        assert Squeeze(t) == Token(run) + Squeeze(tail);
        assert tail == LStrip(t[1..]);
        SqueezeReduced(tail);
        TokenReduced(run);
        ReducedConcat(Token(run), Squeeze(tail));
      }
    }
  }

  lemma LastOfConcat(a: string, b: string)
    requires b != []
    ensures (a + b)[|a + b| - 1] == b[|b| - 1]
  {
  }

  /** Squeezing keeps a trailing non-whitespace character. */
  lemma {:induction false} SqueezeLast(t: string)
    requires t != [] && !IsSpace(t[|t| - 1])
    ensures Squeeze(t) != [] && Squeeze(t)[|Squeeze(t)| - 1] == t[|t| - 1]
    decreases |t|
  {
    SqueezeUnfold(t);
    if !IsSpace(t[0]) {
      var u := t[1..];
      if u == [] {
        assert Squeeze(u) == [];
        assert [t[0]] + Squeeze(u) == [t[0]];
      } else {
        assert u[|u| - 1] == t[|t| - 1];
        SqueezeLast(u);
        LastOfConcat([t[0]], Squeeze(u));
      }
    } else {
      var tail := LStrip(t);
      assert tail != [] && tail[|tail| - 1] == t[|t| - 1] by {
        LStripEnd(t, 0);
        assert t[0..] == t;
      }
      assert |tail| < |t| by {
        assert tail == LStrip(t[1..]);
      }
      SqueezeLast(tail);
      LastOfConcat(Token(t[..|t| - |tail|]), Squeeze(tail));
    }
  }

  /** `reduce_whitespace` as its documentation describes it: stripped, each
      whitespace run reduced to its own token. */
  function ReduceWhitespaceFixed(s: string): (r: string)
    ensures Reduced(r) && Stripped(r)
  {
    var t := Strip(s);
    SqueezeStripped(t);
    Squeeze(t)
  }

  lemma SqueezeStripped(t: string)
    requires Stripped(t)
    ensures Reduced(Squeeze(t)) && Stripped(Squeeze(t))
  {
    SqueezeReduced(t);
    if t != [] {
      SqueezeLast(t);
    }
  }

  lemma {:induction false} VisibleSqueeze(t: string)
    ensures Visible(Squeeze(t)) == Visible(t)
    decreases |t|
  {
    if t != [] {
      if !IsSpace(t[0]) {
        VisibleSqueeze(t[1..]);
        VisibleConcat([t[0]], Squeeze(t[1..]));
      } else {
        var tail := LStrip(t);
        var run := t[..|t| - |tail|];
        assert t == run + tail;
        VisibleSqueeze(tail);
        VisibleConcat(Token(run), Squeeze(tail));
        VisibleSpace(Token(run));
        VisibleConcat(run, tail);
        VisibleSpace(run);
      }
    }
  }

  /** The corrected version changes whitespace only, too. */
  lemma ReduceWhitespaceFixedKeepsText(s: string)
    ensures Visible(ReduceWhitespaceFixed(s)) == Visible(s)
  {
    VisibleSqueeze(Strip(s));
    VisibleStrip(s);
  }

  lemma RunsCons(c: char, t: string)
    requires !IsSpace(c)
    ensures Runs([c] + t) == Runs(t)
  {
    assert ([c] + t)[1..] == t;
  }

  lemma RunsRun(run: string, t: string)
    requires run != [] && AllSpace(run) && (t == [] || !IsSpace(t[0]))
    ensures Runs(run + t) == [run] + Runs(t)
  {
    var s := run + t;
    LStripRun(run, t);
    assert s[..|s| - |t|] == run;
  }

  /** The nested concatenation of the examples, spelt out character by
      character. */
  lemma Spelled(x: char, r1: string, y: char, r2: string, z: char)
    requires |r1| == 1 && 1 <= |r2| <= 2
    ensures |r2| == 1 ==> [x] + (r1 + ([y] + (r2 + [z]))) == [x, r1[0], y, r2[0], z]
    ensures |r2| == 2 ==> [x] + (r1 + ([y] + (r2 + [z]))) == [x, r1[0], y, r2[0], r2[1], z]
  {
    var t := [x] + (r1 + ([y] + (r2 + [z])));
    assert t[0] == x && t[1] == r1[0] && t[2] == y && t[3] == r2[0];
    if |r2| == 2 {
      assert t[4] == r2[1] && t[5] == z;
    } else {
      assert t[4] == z;
    }
  }

  /** The two runs of a text shaped word, run, word, run, word. */
  lemma RunsOfTwo(x: char, r1: string, y: char, r2: string, z: char)
    requires !IsSpace(x) && !IsSpace(y) && !IsSpace(z)
    requires r1 != [] && AllSpace(r1) && r2 != [] && AllSpace(r2)
    ensures Runs([x] + (r1 + ([y] + (r2 + [z])))) == [r1, r2]
  {
    var t3 := r2 + [z];
    var t2 := [y] + t3;
    var t1 := r1 + t2;
    RunsCons(z, []);
    assert [z] + [] == [z];
    RunsRun(r2, [z]);
    RunsCons(y, t3);
    RunsRun(r1, t2);
    RunsCons(x, t1);
  }

  lemma ExampleRuns(x: char, y: char, z: char)
    requires !IsSpace(x) && !IsSpace(y) && !IsSpace(z)
    ensures Runs([x, '\t', y, '\t', '\n', z]) == [['\t'], ['\t', '\n']]
  {
    RunsOfTwo(x, ['\t'], y, ['\t', '\n'], z);
    Spelled(x, ['\t'], y, ['\t', '\n'], z);
  }

  /** A string lacking the first character of a pattern lacks the pattern. */
  lemma {:induction false} NotContains(s: string, sub: string)
    requires sub != [] && sub[0] !in s
    ensures !Contains(s, sub)
    decreases |s|
  {
    if s != [] {
      assert |sub| <= |s| ==> s[..|sub|][0] == s[0];
      assert sub[0] !in s[1..] by {
        forall k | 0 <= k < |s[1..]|
          ensures s[1..][k] != sub[0]
        {
          assert s[1..][k] == s[k + 1];
        }
      }
      NotContains(s[1..], sub);
    }
  }

  lemma ExampleFirstReplace(x: char, y: char, z: char)
    requires !IsSpace(x) && !IsSpace(y) && !IsSpace(z)
    ensures Replace([x, '\t', y, '\t', '\n', z], ['\t'], [' ']) == [x, ' ', y, ' ', '\n', z]
  {
    var s := [x, '\t', y, '\t', '\n', z];
    ReplaceCharIsSwap(s, '\t', ' ');
    SwapCharAt(s, '\t', ' ');
    var r := SwapChar(s, '\t', ' ');
    assert r[0] == x && r[1] == ' ' && r[2] == y && r[3] == ' ' && r[4] == '\n' && r[5] == z;
  }

  lemma ExampleSecondReplace(x: char, y: char, z: char)
    requires !IsSpace(x) && !IsSpace(y) && !IsSpace(z)
    ensures Replace([x, ' ', y, ' ', '\n', z], ['\t', '\n'], ['\n']) == [x, ' ', y, ' ', '\n', z]
  {
    var once := [x, ' ', y, ' ', '\n', z];
    assert '\t' !in once;
    NotContains(once, ['\t', '\n']);
    ReplaceAbsent(once, ['\t', '\n'], ['\n']);
  }

  lemma ExampleReplaced(x: char, y: char, z: char)
    requires !IsSpace(x) && !IsSpace(y) && !IsSpace(z)
    ensures ReplaceRuns([x, '\t', y, '\t', '\n', z], [['\t'], ['\t', '\n']]) ==
      [x, ' ', y, ' ', '\n', z]
  {
    var s := [x, '\t', y, '\t', '\n', z];
    var runs := [['\t'], ['\t', '\n']];
    assert Token(['\t']) == [' '];
    assert Token(['\t', '\n']) == ['\n'];
    assert runs[..1] == [['\t']] && runs[..1][..0] == [];
    assert ReplaceRuns(s, runs[..1]) == [x, ' ', y, ' ', '\n', z] by {
      ExampleFirstReplace(x, y, z);
    }
    ExampleSecondReplace(x, y, z);
  }

  lemma SqueezeCons(c: char, t: string)
    requires !IsSpace(c)
    ensures Squeeze([c] + t) == [c] + Squeeze(t)
  {
    assert ([c] + t)[1..] == t;
  }

  lemma SqueezeRun(run: string, t: string)
    requires run != [] && AllSpace(run) && (t == [] || !IsSpace(t[0]))
    ensures Squeeze(run + t) == Token(run) + Squeeze(t)
  {
    var s := run + t;
    LStripRun(run, t);
    assert s[..|s| - |t|] == run;
  }

  /** Squeezing a text shaped word, run, word, run, word. */
  lemma SqueezeOfTwo(x: char, r1: string, y: char, r2: string, z: char)
    requires !IsSpace(x) && !IsSpace(y) && !IsSpace(z)
    requires r1 != [] && AllSpace(r1) && r2 != [] && AllSpace(r2)
    ensures Squeeze([x] + (r1 + ([y] + (r2 + [z])))) ==
      [x] + (Token(r1) + ([y] + (Token(r2) + [z])))
  {
    var t3 := r2 + [z];
    var t2 := [y] + t3;
    var t1 := r1 + t2;
    SqueezeCons(z, []);
    assert [z] + [] == [z];
    SqueezeRun(r2, [z]);
    SqueezeCons(y, t3);
    SqueezeRun(r1, t2);
    SqueezeCons(x, t1);
  }

  lemma ExampleSqueezed(x: char, y: char, z: char)
    requires !IsSpace(x) && !IsSpace(y) && !IsSpace(z)
    ensures Squeeze([x, '\t', y, '\t', '\n', z]) == [x, ' ', y, '\n', z]
  {
    SqueezeOfTwo(x, ['\t'], y, ['\t', '\n'], z);
    Spelled(x, ['\t'], y, ['\t', '\n'], z);
    assert Token(['\t']) == [' '] && Token(['\t', '\n']) == ['\n'];
    Spelled(x, [' '], y, ['\n'], z);
  }

  /** On `x\ty\t\nz` (`"a\tb\t\nc"`, say) the source first replaces the
      run `"\t"` by a space everywhere, which also turns the second run
      `"\t\n"` into `" \n"`; that run is then no longer found, and two
      whitespace characters stay in a row. Replacing each run where it
      stands gives `x y\nz`. */
  lemma ReduceWhitespaceMissesRun(x: char, y: char, z: char)
    requires !IsSpace(x) && !IsSpace(y) && !IsSpace(z)
    ensures ReduceWhitespace([x, '\t', y, '\t', '\n', z]) == [x, ' ', y, ' ', '\n', z]
    ensures !Reduced(ReduceWhitespace([x, '\t', y, '\t', '\n', z]))
    ensures ReduceWhitespaceFixed([x, '\t', y, '\t', '\n', z]) == [x, ' ', y, '\n', z]
  {
    var s := [x, '\t', y, '\t', '\n', z];
    StripPlain(s);
    ExampleRuns(x, y, z);
    ExampleReplaced(x, y, z);
    var r := [x, ' ', y, ' ', '\n', z];
    assert IsSpace(r[3]) && IsSpace(r[4]) && r[3] != '\n';
    ExampleSqueezed(x, y, z);
  }

  /** A cleaned data cell: `reduce_whitespace` (the corrected version) and
      `str.lower`, `strip_accents` being the identity on ASCII. */
  function CleanCell(v: string): (r: string)
    ensures Reduced(r)
    ensures r == [] || (!IsSpace(r[0]) && !IsSpace(r[|r| - 1]))
    ensures forall i :: 0 <= i < |r| ==> !('A' <= r[i] <= 'Z')
  {
    var c := ReduceWhitespaceFixed(v);
    LowerReduced(c);
    Lower(c)
  }

  /** Lower-casing keeps whitespace where it is. */
  lemma LowerReduced(c: string)
    requires Reduced(c) && Stripped(c)
    ensures Reduced(Lower(c)) && Stripped(Lower(c))
  {
    var r := Lower(c);
    forall i | 0 <= i < |c|
      ensures (IsSpace(r[i]) <==> IsSpace(c[i])) && (IsSpace(c[i]) ==> r[i] == c[i])
    {
      assert r[i] == LowerChar(c[i]);
    }
  }
}
