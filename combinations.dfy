/** `string_combinations` (common/common/common/util.py): a depth-first
    enumeration of strings that extend a seed one character position at a
    time, pruned against `start` on the left and `end` on the right,
    optionally filtered by a pattern, and stopping once `min_length` is
    reached. The recursion is bounded by `fuel` (the source's recursion is
    unbounded); the spec functions below describe what is yielded within
    that depth, and `StringCombinations` is the imperative enumerator proved
    to produce exactly that. */
module Combinations {
  import opened Base
  import opened Text

  /** The arguments of `string_combinations` other than `seed` and `index`.
      An empty `start`/`end`/`validChars` stands for the argument being
      falsy; `pattern` is the outcome of `re.search` once compiled. */
  datatype Config = Config(
    pattern: Option<string -> bool>,
    start: string,
    end: string,
    validChars: string,
    variants: seq<(string, seq<string>)>,
    minLength: int)

  /** The alphabet used when `valid_chars` is falsy (with `y` and `z` swapped,
      as written). */
  const FallbackChars: string := "abcdefghijklmnopqrstuvwxzy0123456789"

  function Effective(cfg: Config): (e: Config)
    ensures e.validChars != []
    ensures e.pattern == cfg.pattern && e.start == cfg.start && e.end == cfg.end
    ensures e.variants == cfg.variants && e.minLength == cfg.minLength
    ensures cfg.validChars == "" ==> e.validChars == FallbackChars
    ensures cfg.validChars != "" ==> e == cfg
  {
    if cfg.validChars == "" then cfg.(validChars := FallbackChars) else cfg
  }

  /** The check before a seed is yielded: long enough, not before `start`
      and not after `end` on their lengths. */
  predicate Accepts(cfg: Config, s: string)
  {
    && |s| >= cfg.minLength
    && (cfg.start == "" || LexLe(cfg.start, Prefix(s, |cfg.start|)))
    && (cfg.end == "" || LexLe(Prefix(s, |cfg.end|), cfg.end))
  }

  predicate PatternOk(cfg: Config, s: string)
  {
    cfg.pattern.None? || cfg.pattern.value(s)
  }

  predicate PastEnd(cfg: Config, s: string)
  {
    cfg.end != "" && LexLess(cfg.end, Prefix(s, |cfg.end|))
  }

  /** Left pruning: before the first character that is not skipped, only the
      character of `start` at this position is tried. */
  predicate StartSkip(cfg: Config, index: nat, reached: bool, c: char)
  {
    cfg.start != "" && !reached && |cfg.start| >= index + 1 && c != cfg.start[index]
  }

  /** No deeper level once past `min_length`, `start` and `end`. */
  predicate DepthSkip(cfg: Config, index: nat)
  {
    index > cfg.minLength - 1
    && cfg.start != "" && index > |cfg.start| - 1
    && cfg.end != "" && index > |cfg.end| - 1
  }

  /** The variant lists registered for the one-character case `c`, in order. */
  function MatchingVariants(variants: seq<(string, seq<string>)>, c: char): (r: seq<string>)
    ensures forall v :: v in r ==> exists p :: p in variants && p.0 == [c] && v in p.1
  {
    if variants == [] then []
    else
      var rest := MatchingVariants(variants[1..], c);
      assert forall p :: p in variants[1..] ==> p in variants;
      if variants[0].0 == [c] then variants[0].1 + rest else rest
  }

  /** The character itself, then its variants. */
  function CurrentVariants(cfg: Config, c: char): (r: seq<string>)
    ensures |r| >= 1 && r[0] == [c]
  {
    [[c]] + MatchingVariants(cfg.variants, c)
  }

  /** One step of the write loop: append while the string is shorter than
      `index + 1 + i`, otherwise overwrite position `index`. */
  function WriteStep(t: string, index: nat, i: nat, c: char): (r: string)
  {
    if |t| < index + 1 + i then t + [c] else t[index := c]
  }

  /** The candidate after the first `i` characters of variant `v` were
      written into a copy of `seed`. */
  function WritePrefix(seed: string, index: nat, v: string, i: nat): (t: string)
    requires i <= |v|
  {
    if i == 0 then seed else WriteStep(WritePrefix(seed, index, v, i - 1), index, i - 1, v[i - 1])
  }

  function Write(seed: string, index: nat, v: string): string
  {
    WritePrefix(seed, index, v, |v|)
  }

  /** A node of the recursion below the top: a seed that is accepted is
      yielded alone, otherwise the characters are tried at `index`. */
  function Node(cfg: Config, seed: string, index: nat, fuel: nat): seq<string>
    decreases fuel, 2, 0
  {
    if Accepts(cfg, seed) then [seed]
    else if fuel == 0 then []
    else Chars(cfg, seed, index, 0, false, fuel).0
  }

  /** The loop over `valid_chars` from position `k`, with the `start_reached`
      flag; the boolean is true when the level returned early. */
  function Chars(cfg: Config, seed: string, index: nat, k: nat, reached: bool, fuel: nat): (seq<string>, bool)
    requires fuel >= 1 && k <= |cfg.validChars|
    decreases fuel, 1, |cfg.validChars| - k
  {
    if k == |cfg.validChars| then ([], false)
    else
      var c := cfg.validChars[k];
      if StartSkip(cfg, index, reached, c) || DepthSkip(cfg, index) then
        Chars(cfg, seed, index, k + 1, reached, fuel)
      else
        var p := Variants(cfg, seed, index, CurrentVariants(cfg, c), 0, fuel);
        if p.1 then p
        else
          var q := Chars(cfg, seed, index, k + 1, true, fuel);
          (p.0 + q.0, q.1)
  }

  /** The loop over the variants of one character from position `j`. */
  function Variants(cfg: Config, seed: string, index: nat, vs: seq<string>, j: nat, fuel: nat): (seq<string>, bool)
    requires fuel >= 1 && j <= |vs|
    decreases fuel, 0, |vs| - j
  {
    if j == |vs| then ([], false)
    else
      var t := Write(seed, index, vs[j]);
      if PastEnd(cfg, t) then ([], true)
      else if !PatternOk(cfg, t) then Variants(cfg, seed, index, vs, j + 1, fuel)
      else
        var q := Variants(cfg, seed, index, vs, j + 1, fuel);
        (Node(cfg, t, index + 1, fuel - 1) + q.0, q.1)
  }

  /** What `string_combinations(seed, ...)` yields within `fuel` levels. */
  function Generate(cfg: Config, seed: string, fuel: nat): seq<string>
  {
    if fuel == 0 then [] else Chars(Effective(cfg), seed, |seed|, 0, false, fuel).0
  }

  // ---------------------------------------------------------------------
  // The enumerator, as the source runs it.

  function Then(out: seq<string>, p: (seq<string>, bool)): (seq<string>, bool)
  {
    (out + p.0, p.1)
  }

  /** What is left of a level once the variants of character `k` gave `p`. */
  function Resume(cfg: Config, seed: string, index: nat, k: nat, p: (seq<string>, bool), fuel: nat): (seq<string>, bool)
    requires fuel >= 1 && k < |cfg.validChars|
  {
    if p.1 then p else Then(p.0, Chars(cfg, seed, index, k + 1, true, fuel))
  }

  lemma ThenAssoc(a: seq<string>, b: seq<string>, p: (seq<string>, bool))
    ensures Then(a, Then(b, p)) == Then(a + b, p)
  {
    assert a + (b + p.0) == (a + b) + p.0;
  }

  lemma ResumeThen(cfg: Config, seed: string, index: nat, k: nat, r: seq<string>, q: (seq<string>, bool), fuel: nat)
    requires fuel >= 1 && k < |cfg.validChars|
    ensures Resume(cfg, seed, index, k, Then(r, q), fuel) == Then(r, Resume(cfg, seed, index, k, q, fuel))
  {
    if !q.1 {
      ThenAssoc(r, q.0, Chars(cfg, seed, index, k + 1, true, fuel));
    }
  }

  method ApplyVariant(seed: string, index: nat, v: string) returns (t: string)
    ensures t == Write(seed, index, v)
  {
    t := seed;
    var i := 0;
    while i < |v|
      invariant i <= |v|
      invariant t == WritePrefix(seed, index, v, i)
    {
      if |t| < index + 1 + i {
        t := t + [v[i]];
      } else {
        t := t[index := v[i]];
      }
      i := i + 1;
    }
  }

  method NodeOf(cfg: Config, seed: string, index: nat, fuel: nat) returns (out: seq<string>)
    ensures out == Node(cfg, seed, index, fuel)
    decreases fuel, 2
  {
    if Accepts(cfg, seed) {
      return [seed];
    }
    if fuel == 0 {
      return [];
    }
    out := Level(cfg, seed, index, fuel);
  }

  /** The loop over `valid_chars` of one level. */
  method Level(cfg: Config, seed: string, index: nat, fuel: nat) returns (out: seq<string>)
    requires fuel >= 1
    ensures out == Chars(cfg, seed, index, 0, false, fuel).0
    decreases fuel, 1
  {
    var startReached := false;
    out := [];
    var k := 0;
    assert Then([], Chars(cfg, seed, index, 0, false, fuel)) == Chars(cfg, seed, index, 0, false, fuel) by {
      assert [] + Chars(cfg, seed, index, 0, false, fuel).0 == Chars(cfg, seed, index, 0, false, fuel).0;
    }
    while k < |cfg.validChars|
      invariant k <= |cfg.validChars|
      invariant Chars(cfg, seed, index, 0, false, fuel) == Then(out, Chars(cfg, seed, index, k, startReached, fuel))
      decreases |cfg.validChars| - k
    {
      var c := cfg.validChars[k];
      if StartSkip(cfg, index, startReached, c) || DepthSkip(cfg, index) {
        k := k + 1;
        continue;
      }
      startReached := true;
      var curr := CurrentVariants(cfg, c);
      var j := 0;
      while j < |curr|
        invariant j <= |curr|
        invariant Chars(cfg, seed, index, 0, false, fuel)
          == Then(out, Resume(cfg, seed, index, k, Variants(cfg, seed, index, curr, j, fuel), fuel))
        decreases |curr| - j
      {
        var t := ApplyVariant(seed, index, curr[j]);
        if PastEnd(cfg, t) {
          return;
        }
        if !PatternOk(cfg, t) {
          j := j + 1;
          continue;
        }
        var results := NodeOf(cfg, t, index + 1, fuel - 1);
        ghost var rest := Variants(cfg, seed, index, curr, j + 1, fuel);
        assert Variants(cfg, seed, index, curr, j, fuel) == Then(results, rest);
        ResumeThen(cfg, seed, index, k, results, rest, fuel);
        ThenAssoc(out, results, Resume(cfg, seed, index, k, rest, fuel));
        out := out + results;
        j := j + 1;
      }
      ThenAssoc(out, [], Chars(cfg, seed, index, k + 1, true, fuel));
      assert out + [] == out;
      k := k + 1;
    }
  }

  /** `string_combinations(seed, ...)` called without `index`. */
  method StringCombinations(cfg: Config, seed: string, fuel: nat) returns (out: seq<string>)
    ensures out == Generate(cfg, seed, fuel)
  {
    if fuel == 0 {
      return [];
    }
    out := Level(Effective(cfg), seed, |seed|, fuel);
  }

  // ---------------------------------------------------------------------
  // Soundness: what is yielded passed the final check and the pattern, and
  // extends the seed.

  /** No variant in the configuration is the empty string. */
  predicate NonEmptyVariants(cfg: Config)
  {
    forall p, v :: p in cfg.variants && v in p.1 ==> v != []
  }

  /** A yielded string: accepted, matching the pattern, extending `seed0`,
      and strictly longer than it when no variant is empty. */
  predicate Sound(cfg: Config, seed0: string, x: string)
  {
    && Accepts(cfg, x)
    && PatternOk(cfg, x)
    && StartsWith(x, seed0)
    && (NonEmptyVariants(cfg) ==> |x| > |seed0|)
  }

  /** The shape of every level below a top-level call on `seed0`. */
  predicate Inside(cfg: Config, seed0: string, seed: string, index: nat)
  {
    && StartsWith(seed, seed0)
    && |seed0| <= index
    && (NonEmptyVariants(cfg) ==> |seed| > |seed0| || index >= |seed|)
  }

  function MinNat(a: nat, b: nat): nat
  {
    if a <= b then a else b
  }

  /** Writing a variant never shortens the seed, appends when the position is
      at its end, and keeps everything before `index`. */
  lemma {:induction false} WritePrefixFacts(seed: string, index: nat, v: string, i: nat)
    requires i <= |v|
    ensures |WritePrefix(seed, index, v, i)| >= |seed|
    ensures i > 0 && index >= |seed| ==> |WritePrefix(seed, index, v, i)| > |seed|
    ensures WritePrefix(seed, index, v, i)[..MinNat(index, |seed|)] == seed[..MinNat(index, |seed|)]
  {
    if i > 0 {
      WritePrefixFacts(seed, index, v, i - 1);
      var t := WritePrefix(seed, index, v, i - 1);
      var m := MinNat(index, |seed|);
      assert WritePrefix(seed, index, v, i)[..m] == t[..m];
    }
  }

  lemma CurrentVariantsNonEmpty(cfg: Config, c: char)
    requires NonEmptyVariants(cfg)
    ensures forall v :: v in CurrentVariants(cfg, c) ==> v != []
  {
    forall v | v in CurrentVariants(cfg, c) ensures v != [] {
      if v != [c] {
        assert v in MatchingVariants(cfg.variants, c);
      }
    }
  }

  lemma {:induction false} NodeSound(cfg: Config, seed0: string, seed: string, index: nat, fuel: nat)
    requires Inside(cfg, seed0, seed, index) && PatternOk(cfg, seed)
    requires NonEmptyVariants(cfg) ==> |seed| > |seed0|
    ensures forall x :: x in Node(cfg, seed, index, fuel) ==> Sound(cfg, seed0, x)
    decreases fuel, 2, 0
  {
    if !Accepts(cfg, seed) && fuel > 0 {
      CharsSound(cfg, seed0, seed, index, 0, false, fuel);
    }
  }

  lemma {:induction false} CharsSound(cfg: Config, seed0: string, seed: string, index: nat, k: nat, reached: bool, fuel: nat)
    requires fuel >= 1 && k <= |cfg.validChars|
    requires Inside(cfg, seed0, seed, index)
    ensures forall x :: x in Chars(cfg, seed, index, k, reached, fuel).0 ==> Sound(cfg, seed0, x)
    decreases fuel, 1, |cfg.validChars| - k
  {
    if k < |cfg.validChars| {
      var c := cfg.validChars[k];
      if StartSkip(cfg, index, reached, c) || DepthSkip(cfg, index) {
        CharsSound(cfg, seed0, seed, index, k + 1, reached, fuel);
      } else {
        if NonEmptyVariants(cfg) {
          CurrentVariantsNonEmpty(cfg, c);
        }
        VariantsSound(cfg, seed0, seed, index, CurrentVariants(cfg, c), 0, fuel);
        CharsSound(cfg, seed0, seed, index, k + 1, true, fuel);
      }
    }
  }

  lemma {:induction false} VariantsSound(cfg: Config, seed0: string, seed: string, index: nat, vs: seq<string>, j: nat, fuel: nat)
    requires fuel >= 1 && j <= |vs|
    requires Inside(cfg, seed0, seed, index)
    requires NonEmptyVariants(cfg) ==> forall v :: v in vs ==> v != []
    ensures forall x :: x in Variants(cfg, seed, index, vs, j, fuel).0 ==> Sound(cfg, seed0, x)
    decreases fuel, 0, |vs| - j
  {
    if j < |vs| {
      var t := Write(seed, index, vs[j]);
      VariantsSound(cfg, seed0, seed, index, vs, j + 1, fuel);
      if !PastEnd(cfg, t) && PatternOk(cfg, t) {
        WritePrefixFacts(seed, index, vs[j], |vs[j]|);
        if NonEmptyVariants(cfg) {
          assert vs[j] in vs;
        }
        var m := MinNat(index, |seed|);
        assert t[..|seed0|] == t[..m][..|seed0|] == seed[..m][..|seed0|] == seed0;
        NodeSound(cfg, seed0, t, index + 1, fuel - 1);
      }
    }
  }

  /** Every string `string_combinations(seed, ...)` yields passed the final
      length/start/end check and the pattern, and has `seed` as a prefix,
      a proper one when no variant is empty. */
  lemma GenerateSound(cfg: Config, seed: string, fuel: nat)
    ensures forall x :: x in Generate(cfg, seed, fuel) ==> Sound(cfg, seed, x)
  {
    if fuel > 0 {
      var e := Effective(cfg);
      CharsSound(e, seed, seed, |seed|, 0, false, fuel);
      forall x | Sound(e, seed, x) ensures Sound(cfg, seed, x) {
        assert NonEmptyVariants(e) == NonEmptyVariants(cfg);
      }
    }
  }

  lemma AppendOne(seed: string, c: char)
    ensures Write(seed, |seed|, [c]) == seed + [c]
  {
    assert WritePrefix(seed, |seed|, [c], 0) == seed;
  }

  /** With an empty variant the seed itself can come out: `valid_chars = "a"`,
      `variants = {"a": [""]}` and `min_length = 1` on seed `"x"` yield
      `"xa"` and then `"x"`. */
  lemma EmptyVariantYieldsSeed()
    ensures Generate(Config(None, "", "", "a", [("a", [""])], 1), "x", 1) == ["xa", "x"]
  {
    var cfg := Config(None, "", "", "a", [("a", [""])], 1);
    var vs := CurrentVariants(cfg, 'a');
    assert vs == ["a", ""];
    AppendOne("x", 'a');
    assert Write("x", 1, "") == "x";
    assert Node(cfg, "xa", 2, 0) == ["xa"];
    assert Node(cfg, "x", 2, 0) == ["x"];
    assert Variants(cfg, "x", 1, vs, 2, 1) == ([], false);
    assert vs[1] == "" && vs[0] == "a";
    assert !PastEnd(cfg, "x") && PatternOk(cfg, "x");
    assert Variants(cfg, "x", 1, vs, 1, 1) == (Node(cfg, "x", 2, 0) + [], false);
    assert Node(cfg, "x", 2, 0) + [] == ["x"];
    assert Variants(cfg, "x", 1, vs, 1, 1).0 == ["x"];
    assert Variants(cfg, "x", 1, vs, 1, 1) == (["x"], false);
    assert Write("x", 1, vs[0]) == "xa";
    assert !PastEnd(cfg, "xa") && PatternOk(cfg, "xa");
    assert Variants(cfg, "x", 1, vs, 0, 1) == (Node(cfg, "xa", 2, 0) + ["x"], false);
    assert ["xa"] + ["x"] == ["xa", "x"];
    assert Variants(cfg, "x", 1, vs, 0, 1) == (["xa", "x"], false);
    assert Chars(cfg, "x", 1, 1, true, 1) == ([], false);
  }

  const ExampleConfig: Config := Config(None, "aa", "ab", "ab", [], 2)

  lemma ExampleLeaves()
    ensures Node(ExampleConfig, "aa", 2, 0) == ["aa"]
    ensures Node(ExampleConfig, "ab", 2, 0) == ["ab"]
  {
    assert Accepts(ExampleConfig, "aa") && Accepts(ExampleConfig, "ab");
  }

  lemma ExampleSecondLevel()
    ensures Node(ExampleConfig, "a", 1, 1) == ["aa", "ab"]
  {
    var cfg := ExampleConfig;
    ExampleLeaves();
    AppendOne("a", 'a');
    AppendOne("a", 'b');
    assert Write("a", 1, "a") == "aa" && Write("a", 1, "b") == "ab";
    assert !PastEnd(cfg, "aa") && !PastEnd(cfg, "ab");
    assert Variants(cfg, "a", 1, ["b"], 1, 1) == ([], false);
    assert Variants(cfg, "a", 1, ["b"], 0, 1) == (["ab"] + [], false);
    assert |cfg.validChars| == 2 && cfg.validChars[0] == 'a' && cfg.validChars[1] == 'b';
    assert CurrentVariants(cfg, 'a') == ["a"] && CurrentVariants(cfg, 'b') == ["b"];
    assert !StartSkip(cfg, 1, true, 'b') && !StartSkip(cfg, 1, false, 'a') && !DepthSkip(cfg, 1);
    var pb := Variants(cfg, "a", 1, CurrentVariants(cfg, 'b'), 0, 1);
    assert pb == Variants(cfg, "a", 1, ["b"], 0, 1);
    assert pb.0 == ["ab"] + [] == ["ab"] && !pb.1;
    assert Chars(cfg, "a", 1, 2, true, 1) == ([], false);
    var qb := Chars(cfg, "a", 1, 1, true, 1);
    assert qb == (pb.0 + [], false);
    assert Variants(cfg, "a", 1, ["a"], 1, 1) == ([], false);
    var pa := Variants(cfg, "a", 1, CurrentVariants(cfg, 'a'), 0, 1);
    assert pa == (["aa"] + [], false);
    assert Chars(cfg, "a", 1, 0, false, 1) == (pa.0 + qb.0, false);
    assert ["aa"] + ["ab"] == ["aa", "ab"];
  }

  /** The worked example: `valid_chars = "ab"`, `start = "aa"`, `end = "ab"`,
      `min_length = 2` yield exactly `"aa"` and `"ab"`; the extension `"b"`
      is past `end` and stops the top level. */
  lemma StartEndExample()
    ensures Generate(ExampleConfig, "", 2) == ["aa", "ab"]
  {
    var cfg := ExampleConfig;
    ExampleSecondLevel();
    AppendOne("", 'a');
    AppendOne("", 'b');
    assert Write("", 0, "a") == "a" && Write("", 0, "b") == "b";
    assert !PastEnd(cfg, "a") && PastEnd(cfg, "b");
    assert Variants(cfg, "", 0, ["a"], 1, 2) == ([], false);
    assert CurrentVariants(cfg, 'a') == ["a"];
    var pa := Variants(cfg, "", 0, CurrentVariants(cfg, 'a'), 0, 2);
    assert pa == Variants(cfg, "", 0, ["a"], 0, 2);
    assert pa.0 == ["aa", "ab"] + [] && !pa.1;
    assert Variants(cfg, "", 0, ["b"], 0, 2) == ([], true);
    assert |cfg.validChars| == 2 && cfg.validChars[0] == 'a' && cfg.validChars[1] == 'b';
    assert CurrentVariants(cfg, 'a') == ["a"] && CurrentVariants(cfg, 'b') == ["b"];
    assert !StartSkip(cfg, 0, true, 'b') && !StartSkip(cfg, 0, false, 'a') && !DepthSkip(cfg, 0);
    assert Chars(cfg, "", 0, 1, true, 2) == ([], true);
    assert Chars(cfg, "", 0, 0, false, 2) == (pa.0 + [], true);
  }

  /** Once the seed is past `end` on `end`'s length nothing is yielded: the
      first extension of every character tried returns from the level. */
  lemma {:induction false} CharsPastEnd(cfg: Config, seed: string, k: nat, reached: bool, fuel: nat)
    requires fuel >= 1 && k <= |cfg.validChars|
    requires |seed| >= |cfg.end| && PastEnd(cfg, seed)
    ensures Chars(cfg, seed, |seed|, k, reached, fuel).0 == []
    decreases |cfg.validChars| - k
  {
    if k < |cfg.validChars| {
      var c := cfg.validChars[k];
      if StartSkip(cfg, |seed|, reached, c) || DepthSkip(cfg, |seed|) {
        CharsPastEnd(cfg, seed, k + 1, reached, fuel);
      } else {
        var t := Write(seed, |seed|, [c]);
        WritePrefixFacts(seed, |seed|, [c], 1);
        assert Prefix(t, |cfg.end|) == t[..|seed|][..|cfg.end|];
      }
    }
  }

  lemma GeneratePastEnd(cfg: Config, seed: string, fuel: nat)
    requires |seed| >= |cfg.end| && PastEnd(cfg, seed)
    ensures Generate(cfg, seed, fuel) == []
  {
    if fuel > 0 {
      CharsPastEnd(Effective(cfg), seed, 0, false, fuel);
    }
  }

  // ---------------------------------------------------------------------
  // Order: without variants and with distinct characters, the enumeration
  // is depth-first in `valid_chars` order.

  predicate DistinctChars(s: string)
  {
    forall i, j :: 0 <= i < j < |s| ==> s[i] != s[j]
  }

  /** The position of `c` in `s`, `|s|` when absent. */
  function IndexOf(s: string, c: char): (r: nat)
    ensures r <= |s|
    ensures r < |s| ==> s[r] == c
    ensures forall i :: 0 <= i < r ==> s[i] != c
  {
    if s == [] then 0 else if s[0] == c then 0 else 1 + IndexOf(s[1..], c)
  }

  /** `x` comes before `y` in `valid_chars` order: they agree up to some
      position, where `x` has the character that comes earlier. */
  predicate ForkBefore(vc: string, x: string, y: string)
  {
    exists n :: 0 <= n < |x| && n < |y| && x[..n] == y[..n] && IndexOf(vc, x[n]) < IndexOf(vc, y[n]) < |vc|
  }

  predicate Ordered(vc: string, xs: seq<string>)
  {
    forall i, j :: 0 <= i < j < |xs| ==> ForkBefore(vc, xs[i], xs[j])
  }

  lemma OrderedConcat(vc: string, a: seq<string>, b: seq<string>)
    requires Ordered(vc, a) && Ordered(vc, b)
    requires forall x, y :: x in a && y in b ==> ForkBefore(vc, x, y)
    ensures Ordered(vc, a + b)
  {
    var ab := a + b;
    forall i, j | 0 <= i < j < |ab| ensures ForkBefore(vc, ab[i], ab[j]) {
      if j < |a| {
        assert ab[i] == a[i] && ab[j] == a[j];
      } else if i >= |a| {
        assert ab[i] == b[i - |a|] && ab[j] == b[j - |a|];
      } else {
        assert ab[i] in a && ab[j] in b;
      }
    }
  }

  lemma {:induction false} NodeOrdered(cfg: Config, seed: string, fuel: nat)
    requires cfg.variants == [] && DistinctChars(cfg.validChars)
    ensures Ordered(cfg.validChars, Node(cfg, seed, |seed|, fuel))
    ensures forall x :: x in Node(cfg, seed, |seed|, fuel) ==> |x| >= |seed| && x[..|seed|] == seed
    decreases fuel, 1
  {
    if !Accepts(cfg, seed) && fuel > 0 {
      CharsOrdered(cfg, seed, 0, false, fuel);
    }
  }

  lemma {:induction false} CharsOrdered(cfg: Config, seed: string, k: nat, reached: bool, fuel: nat)
    requires fuel >= 1 && k <= |cfg.validChars|
    requires cfg.variants == [] && DistinctChars(cfg.validChars)
    ensures Ordered(cfg.validChars, Chars(cfg, seed, |seed|, k, reached, fuel).0)
    ensures forall x :: x in Chars(cfg, seed, |seed|, k, reached, fuel).0 ==>
      |x| > |seed| && x[..|seed|] == seed && k <= IndexOf(cfg.validChars, x[|seed|]) < |cfg.validChars|
    decreases fuel, 0, |cfg.validChars| - k
  {
    var vc := cfg.validChars;
    if k < |vc| {
      var c := vc[k];
      if StartSkip(cfg, |seed|, reached, c) || DepthSkip(cfg, |seed|) {
        CharsOrdered(cfg, seed, k + 1, reached, fuel);
      } else {
        var p := Variants(cfg, seed, |seed|, CurrentVariants(cfg, c), 0, fuel);
        CharBranch(cfg, seed, k, fuel);
        if !p.1 {
          CharsOrdered(cfg, seed, k + 1, true, fuel);
          var b := Chars(cfg, seed, |seed|, k + 1, true, fuel).0;
          forall x, y | x in p.0 && y in b ensures ForkBefore(vc, x, y) {
            var n := |seed|;
            assert x[..n] == y[..n];
            assert IndexOf(vc, x[n]) < IndexOf(vc, y[n]);
          }
          OrderedConcat(vc, p.0, b);
        }
      }
    }
  }

  /** A single one-character variant writes one node below the seed, or
      nothing when the extended seed is past the end or fails the pattern. */
  lemma SingleVariant(cfg: Config, seed: string, c: char, fuel: nat)
    requires fuel >= 1
    ensures Variants(cfg, seed, |seed|, [[c]], 0, fuel).0 ==
      if PastEnd(cfg, seed + [c]) || !PatternOk(cfg, seed + [c]) then []
      else Node(cfg, seed + [c], |seed| + 1, fuel - 1)
  {
    AppendOne(seed, c);
    assert Variants(cfg, seed, |seed|, [[c]], 1, fuel) == ([], false);
  }

  lemma ExtendsBy(seed: string, c: char, xs: seq<string>)
    requires forall x :: x in xs ==> |x| >= |seed + [c]| && x[..|seed + [c]|] == seed + [c]
    ensures forall x :: x in xs ==> |x| > |seed| && x[..|seed|] == seed && x[|seed|] == c
  {
    var t := seed + [c];
    forall x | x in xs
      ensures |x| > |seed| && x[..|seed|] == seed && x[|seed|] == c
    {
      assert x[..|t|][..|seed|] == seed;
      assert x[|seed|] == x[..|t|][|seed|];
    }
  }

  /** The strings written below the `k`-th valid character are ordered and
      all extend the seed by that character. */
  lemma CharBranch(cfg: Config, seed: string, k: nat, fuel: nat)
    requires fuel >= 1 && k < |cfg.validChars|
    requires cfg.variants == [] && DistinctChars(cfg.validChars)
    ensures Ordered(cfg.validChars, Variants(cfg, seed, |seed|, CurrentVariants(cfg, cfg.validChars[k]), 0, fuel).0)
    ensures forall x :: x in Variants(cfg, seed, |seed|, CurrentVariants(cfg, cfg.validChars[k]), 0, fuel).0 ==>
      |x| > |seed| && x[..|seed|] == seed && IndexOf(cfg.validChars, x[|seed|]) == k
    decreases fuel, 0, |cfg.validChars| - k, 0
  {
    var vc := cfg.validChars;
    var c := vc[k];
    assert CurrentVariants(cfg, c) == [[c]];
    assert IndexOf(vc, c) == k;
    var t := seed + [c];
    SingleVariant(cfg, seed, c, fuel);
    var p := Variants(cfg, seed, |seed|, [[c]], 0, fuel).0;
    NodeOrdered(cfg, t, fuel - 1);
    ExtendsBy(seed, c, p);
  }

  /** Without variants and with distinct valid characters, what
      `string_combinations` yields is in depth-first `valid_chars` order:
      each string comes before every later one at the first position where
      they differ; in particular no string is yielded twice. */
  lemma GenerateOrdered(cfg: Config, seed: string, fuel: nat)
    requires cfg.variants == [] && DistinctChars(Effective(cfg).validChars)
    ensures Ordered(Effective(cfg).validChars, Generate(cfg, seed, fuel))
    ensures forall i, j :: 0 <= i < j < |Generate(cfg, seed, fuel)| ==>
      Generate(cfg, seed, fuel)[i] != Generate(cfg, seed, fuel)[j]
  {
    if fuel > 0 {
      CharsOrdered(Effective(cfg), seed, 0, false, fuel);
    }
  }

  lemma {:induction false} ForkLexLess(x: string, y: string, n: nat)
    requires n < |x| && n < |y| && x[..n] == y[..n] && x[n] < y[n]
    ensures LexLess(x, y)
    decreases n
  {
    if n > 0 {
      assert x[0] == x[..n][0] == y[..n][0] == y[0];
      assert x[1..][..n - 1] == x[..n][1..] == y[..n][1..] == y[1..][..n - 1];
      ForkLexLess(x[1..], y[1..], n - 1);
    }
  }

  predicate Increasing(s: string)
  {
    forall i, j :: 0 <= i < j < |s| ==> s[i] < s[j]
  }

  /** With an increasing alphabet, `valid_chars` order is the string order:
      the output is sorted. */
  lemma GenerateSorted(cfg: Config, seed: string, fuel: nat)
    requires cfg.variants == [] && cfg.validChars != [] && Increasing(cfg.validChars)
    ensures forall i, j :: 0 <= i < j < |Generate(cfg, seed, fuel)| ==>
      LexLess(Generate(cfg, seed, fuel)[i], Generate(cfg, seed, fuel)[j])
  {
    var vc := cfg.validChars;
    var out := Generate(cfg, seed, fuel);
    GenerateOrdered(cfg, seed, fuel);
    forall i, j | 0 <= i < j < |out| ensures LexLess(out[i], out[j]) {
      var x, y := out[i], out[j];
      var n :| 0 <= n < |x| && n < |y| && x[..n] == y[..n] && IndexOf(vc, x[n]) < IndexOf(vc, y[n]) < |vc|;
      assert x[n] == vc[IndexOf(vc, x[n])] < vc[IndexOf(vc, y[n])] == y[n];
      ForkLexLess(x, y, n);
    }
  }
}
