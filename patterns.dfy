/** The regular expressions over ASCII that the scripts use to clean names:
    splitting at whitespace runs and keeping `[a-z0-9_]`. */
module Patterns {
  import opened Text

  /** `re.split(r'\s+', s)`: the pieces between maximal whitespace runs; a
      leading or trailing run gives an empty first or last piece. */
  function SplitSpaces(s: string): (parts: seq<string>)
    ensures |parts| >= 1
    ensures forall i :: 0 <= i < |parts| ==> NoSpace(parts[i])
    decreases |s|
  {
    if s == [] then [""]
    else if IsSpace(s[0]) then [""] + SplitSpaces(LStrip(s[1..]))
    else
      var rest := SplitSpaces(s[1..]);
      [[s[0]] + rest[0]] + rest[1..]
  }

  /** A character `[a-z0-9_]` matches. */
  predicate IsNameChar(c: char)
  {
    IsLowerAlnum(c) || c == '_'
  }

  /** `re.sub(r'[^a-z0-9_]', '', s)`: the characters of `s` in `[a-z0-9_]`,
      in order. */
  function NameChars(s: string): (r: string)
    ensures |r| <= |s|
    ensures forall i :: 0 <= i < |r| ==> IsNameChar(r[i])
  {
    if s == [] then []
    else (if IsNameChar(s[0]) then [s[0]] else []) + NameChars(s[1..])
  }

  /** Removing the other characters works piece by piece, so the kept
      characters stay in their order. */
  lemma {:induction false} NameCharsConcat(a: string, b: string)
    ensures NameChars(a + b) == NameChars(a) + NameChars(b)
    decreases |a|
  {
    if a == [] {
      assert a + b == b;
    } else {
      var h := if IsNameChar(a[0]) then [a[0]] else [];
      assert (a + b)[0] == a[0] && (a + b)[1..] == a[1..] + b;
      assert NameChars(a + b) == h + NameChars(a[1..] + b);
      NameCharsConcat(a[1..], b);
      ConcatAssoc(h, NameChars(a[1..]), NameChars(b));
    }
  }

  /** A string of `[a-z0-9_]` only is left as it is, so removing twice is
      removing once. */
  lemma {:induction false} NameCharsKeeps(s: string)
    requires forall i :: 0 <= i < |s| ==> IsNameChar(s[i])
    ensures NameChars(s) == s
    decreases |s|
  {
    if s != [] {
      NameCharsKeeps(s[1..]);
    }
  }
}
