/** The parts of Python's `str` that the crawlers use, over ASCII: character
    classes (`\s`, `\w`), `lower`, `strip`, `split`, `join`, `replace`,
    `zfill`, `str(int)`, `int(str)` and the ordering of strings. */
module Text {
  import opened Base

  /** `str.isspace` / regex `\s` restricted to ASCII. */
  predicate IsSpace(c: char)
  {
    c == ' ' || ('\t' <= c <= '\r') || ('\U{1C}' <= c <= '\U{1F}')
  }

  predicate IsDigit(c: char)
  {
    '0' <= c <= '9'
  }

  predicate IsLowerAlnum(c: char)
  {
    ('a' <= c <= 'z') || IsDigit(c)
  }

  /** Regex `\w` restricted to ASCII. */
  predicate IsWordChar(c: char)
  {
    ('a' <= c <= 'z') || ('A' <= c <= 'Z') || IsDigit(c) || c == '_'
  }

  function LowerChar(c: char): (r: char)
    ensures !('A' <= r <= 'Z')
    ensures IsWordChar(r) == IsWordChar(c)
  {
    if 'A' <= c <= 'Z' then (c as int - 'A' as int + 'a' as int) as char else c
  }

  /** `str.lower`. */
  function Lower(s: string): (r: string)
    ensures |r| == |s|
    ensures forall i :: 0 <= i < |s| ==> r[i] == LowerChar(s[i])
  {
    if s == [] then [] else [LowerChar(s[0])] + Lower(s[1..])
  }

  /** `str.lstrip()`. */
  function LStrip(s: string): (r: string)
    ensures r == [] || !IsSpace(r[0])
    ensures |r| <= |s| && r == s[|s| - |r|..]
    ensures forall i :: 0 <= i < |s| - |r| ==> IsSpace(s[i])
  {
    if s != [] && IsSpace(s[0]) then LStrip(s[1..]) else s
  }

  /** `str.rstrip()`. */
  function RStrip(s: string): (r: string)
    ensures r == [] || !IsSpace(r[|r| - 1])
    ensures |r| <= |s| && r == s[..|r|]
    ensures forall i :: |r| <= i < |s| ==> IsSpace(s[i])
  {
    if s != [] && IsSpace(s[|s| - 1]) then RStrip(s[..|s| - 1]) else s
  }

  /** `r` is `s` without the whitespace before position `i` and after
      position `i + |r|`. */
  predicate Trims(s: string, i: int, r: string)
  {
    && 0 <= i <= |s| - |r|
    && r == s[i..i + |r|]
    && (forall j :: 0 <= j < i ==> IsSpace(s[j]))
    && (forall j :: i + |r| <= j < |s| ==> IsSpace(s[j]))
  }

  /** `str.strip()`. */
  function Strip(s: string): (r: string)
    ensures r == [] || (!IsSpace(r[0]) && !IsSpace(r[|r| - 1]))
    ensures |r| <= |s|
  {
    RStrip(LStrip(s))
  }

  /** `str.strip()` removes a whitespace prefix and a whitespace suffix and
      nothing else. */
  lemma StripTrims(s: string)
    ensures exists i :: Trims(s, i, Strip(s))
  {
    var t := LStrip(s);
    var r := RStrip(t);
    var k := |s| - |t|;
    assert r == Strip(s);
    assert t == s[k..] && r == t[..|r|];
    assert s[k..][..|r|] == s[k..k + |r|];
    forall j | |s| - |t| + |r| <= j < |s|
      ensures IsSpace(s[j])
    {
      assert s[j] == t[j - k];
    }
    assert Trims(s, k, r);
  }

  lemma StripIdempotent(s: string)
    ensures Strip(Strip(s)) == Strip(s)
  {
    var r := Strip(s);
    assert LStrip(r) == r;
    assert RStrip(r) == r;
  }

  /** `s.startswith(p)`. */
  predicate StartsWith(s: string, p: string)
  {
    |p| <= |s| && s[..|p|] == p
  }

  /** `sub in s` for strings. */
  predicate Contains(s: string, sub: string)
    decreases |s|
  {
    StartsWith(s, sub) || (s != [] && Contains(s[1..], sub))
  }

  lemma {:induction false} ContainsItself(s: string, pre: string, post: string)
    ensures Contains(pre + s + post, s)
    decreases |pre|
  {
    if pre == [] {
      assert (pre + s + post)[..|s|] == s;
    } else {
      ContainsItself(s, pre[1..], post);
      assert (pre + s + post)[1..] == pre[1..] + s + post;
    }
  }

  /** `"".join`-style concatenation with a separator. */
  function Join(sep: string, parts: seq<string>): (r: string)
  {
    if parts == [] then ""
    else if |parts| == 1 then parts[0]
    else parts[0] + sep + Join(sep, parts[1..])
  }

  /** `s.split(sep)` for a one-character separator: always at least one
      part, no part contains the separator, and there is one part exactly
      when the separator does not occur. */
  function Split(s: string, sep: char): (parts: seq<string>)
    ensures |parts| >= 1
    ensures forall i :: 0 <= i < |parts| ==> sep !in parts[i]
    ensures |parts| == 1 <==> sep !in s
    decreases |s|
  {
    if s == [] then [""]
    else
      var rest := Split(s[1..], sep);
      if s[0] == sep then
        assert s == [sep] + s[1..];
        [""] + rest
      else
        var parts := [[s[0]] + rest[0]] + rest[1..];
        assert s == [s[0]] + s[1..];
        assert parts[1..] == rest[1..];
        parts
  }

  /** Joining the parts with the separator gives back the string. */
  lemma {:induction false} SplitJoin(s: string, sep: char)
    ensures Join([sep], Split(s, sep)) == s
    decreases |s|
  {
    if s != [] {
      SplitJoin(s[1..], sep);
      if s[0] == sep {
        SplitJoinAtSep(s, sep);
      } else {
        SplitJoinOther(s, sep);
      }
    }
  }

  lemma ConcatAssoc<T>(a: seq<T>, b: seq<T>, c: seq<T>)
    ensures (a + b) + c == a + (b + c)
  {
  }

  lemma SplitJoinAtSep(s: string, sep: char)
    requires s != [] && s[0] == sep && Join([sep], Split(s[1..], sep)) == s[1..]
    ensures Join([sep], Split(s, sep)) == s
  {
    var rest := Split(s[1..], sep);
    assert Split(s, sep) == [""] + rest;
    assert ([""] + rest)[1..] == rest;
    assert s == [sep] + s[1..];
  }

  lemma SplitJoinOther(s: string, sep: char)
    requires s != [] && s[0] != sep && Join([sep], Split(s[1..], sep)) == s[1..]
    ensures Join([sep], Split(s, sep)) == s
  {
    var rest := Split(s[1..], sep);
    var parts := Split(s, sep);
    var head := [s[0]] + rest[0];
    assert parts == [head] + rest[1..];
    assert |parts| == |rest| && parts[0] == head && parts[1..] == rest[1..];
    var tail := Join([sep], rest[1..]);
    if |rest| > 1 {
      assert Join([sep], rest) == rest[0] + [sep] + tail;
      assert Join([sep], parts) == head + [sep] + tail;
      ConcatAssoc([s[0]], rest[0], [sep]);
      ConcatAssoc([s[0]], rest[0] + [sep], tail);
    } else {
      assert Join([sep], parts) == head;
    }
    assert s == [s[0]] + s[1..];
  }

  /** `lfilter(None, parts)` on strings: the non-empty parts, in order. */
  function NonEmptyParts(parts: seq<string>): (r: seq<string>)
    ensures |r| <= |parts|
    ensures forall p :: p in r ==> p != "" && p in parts
    ensures forall p :: p in parts && p != "" ==> p in r
  {
    if parts == [] then []
    else
      assert forall p :: p in parts ==> p == parts[0] || p in parts[1..];
      (if parts[0] == "" then [] else [parts[0]]) + NonEmptyParts(parts[1..])
  }

  /** Removes every occurrence of `c`: `s.replace(c, '')` for one character. */
  function Without(s: string, c: char): (r: string)
    ensures c !in r
    ensures |r| <= |s|
    ensures forall i :: 0 <= i < |r| ==> r[i] in s
  {
    if s == [] then []
    else
      assert s == [s[0]] + s[1..];
      (if s[0] == c then [] else [s[0]]) + Without(s[1..], c)
  }

  /** `s.replace(pat, repl)`: leftmost non-overlapping occurrences, and for an
      empty `pat` the replacement between every two characters and at both ends. */
  function Replace(s: string, pat: string, repl: string): (r: string)
    decreases |s|
  {
    if pat == [] then
      if s == [] then repl else repl + [s[0]] + Replace(s[1..], pat, repl)
    else if StartsWith(s, pat) then repl + Replace(s[|pat|..], pat, repl)
    else if s == [] then []
    else [s[0]] + Replace(s[1..], pat, repl)
  }

  lemma {:induction false} ReplaceAbsent(s: string, pat: string, repl: string)
    requires pat != [] && !Contains(s, pat)
    ensures Replace(s, pat, repl) == s
    decreases |s|
  {
    if s != [] {
      ReplaceAbsent(s[1..], pat, repl);
    }
  }

  /** `s.replace(c, repl)` leaves no `c` behind when `repl` is empty or a
      single character other than `c`. */
  lemma {:induction false} ReplaceCharRemoves(s: string, c: char, repl: string)
    requires repl == [] || (|repl| == 1 && repl[0] != c)
    ensures c !in Replace(s, [c], repl)
    decreases |s|
  {
    if s != [] {
      ReplaceCharRemoves(s[1..], c, repl);
    }
  }

  /** `[x] * n`, and `c * n` for a character. */
  function Repeat<T>(x: T, n: nat): (r: seq<T>)
    ensures |r| == n
    ensures forall i :: 0 <= i < n ==> r[i] == x
  {
    if n == 0 then [] else [x] + Repeat(x, n - 1)
  }

  /** `s.zfill(width)`: pads with '0' on the left, after a leading sign. */
  function ZFill(s: string, width: int): (r: string)
    ensures |r| == if |s| >= width then |s| else width
    ensures |s| >= width ==> r == s
    ensures |s| < width && (s == [] || (s[0] != '+' && s[0] != '-')) ==>
      r == Repeat('0', width - |s|) + s
  {
    if |s| >= width then s
    else
      var fill := Repeat('0', width - |s|);
      if s != [] && (s[0] == '+' || s[0] == '-') then [s[0]] + fill + s[1..]
      else fill + s
  }

  function DigitChar(d: nat): (c: char)
    requires d < 10
    ensures IsDigit(c)
  {
    ('0' as int + d) as char
  }

  function DigitValue(c: char): (d: nat)
    requires IsDigit(c)
    ensures d < 10 && DigitChar(d) == c
  {
    c as int - '0' as int
  }

  /** `str(n)` for a natural number. */
  function NatToStr(n: nat): (r: string)
    ensures |r| >= 1
    ensures forall i :: 0 <= i < |r| ==> IsDigit(r[i])
    ensures r[0] != '0' || n == 0
  {
    if n < 10 then [DigitChar(n)] else NatToStr(n / 10) + [DigitChar(n % 10)]
  }

  /** `str(i)` for an integer. */
  function IntToStr(i: int): (r: string)
    ensures i < 0 ==> r == "-" + NatToStr(-i)
    ensures i >= 0 ==> r == NatToStr(i)
  {
    if i < 0 then "-" + NatToStr(-i) else NatToStr(i)
  }

  /** The value of a digit string read left to right. */
  function DigitsValue(s: string): (n: nat)
    requires forall i :: 0 <= i < |s| ==> IsDigit(s[i])
    decreases |s|
  {
    if s == [] then 0 else DigitsValue(s[..|s| - 1]) * 10 + DigitValue(s[|s| - 1])
  }

  lemma {:induction false} DigitsValueOfNat(n: nat)
    ensures DigitsValue(NatToStr(n)) == n
  {
    if n >= 10 {
      var s := NatToStr(n);
      DigitsValueOfNat(n / 10);
      assert s[..|s| - 1] == NatToStr(n / 10);
    }
  }

  /** The digits of `int()`'s literal syntax: digits, with single underscores
      allowed between two digits. */
  predicate DigitLiteral(s: string)
  {
    && s != []
    && IsDigit(s[0]) && IsDigit(s[|s| - 1])
    && (forall i :: 0 <= i < |s| ==> IsDigit(s[i]) || s[i] == '_')
    && (forall i :: 0 <= i < |s| - 1 ==> !(s[i] == '_' && s[i + 1] == '_'))
  }

  /** The value of a digit literal, `None` when `s` is not one. */
  function ParseDigits(s: string): (r: Option<nat>)
    ensures r.Some? <==> DigitLiteral(s)
  {
    if !DigitLiteral(s) then None
    else
      var digits := Without(s, '_');
      assert forall i :: 0 <= i < |digits| ==> IsDigit(digits[i]);
      Some(DigitsValue(digits))
  }

  /** `int(t)` once surrounding whitespace is gone: an optional sign, then a
      digit literal. */
  function ParseSigned(t: string): (r: Option<int>)
  {
    if t == [] then None
    else if t[0] == '-' then
      var d := ParseDigits(t[1..]);
      if d.None? then None else Some(-(d.value as int))
    else if t[0] == '+' then
      var d := ParseDigits(t[1..]);
      if d.None? then None else Some(d.value as int)
    else
      var d := ParseDigits(t);
      if d.None? then None else Some(d.value as int)
  }

  /** `int(s)` on a string in base 10: surrounding whitespace is ignored,
      and `None` stands for the ValueError. */
  function ParseInt(s: string): (r: Option<int>)
  {
    ParseSigned(Strip(s))
  }

  /** A postcode test used by several parsers: `int(s)` does not fail. */
  predicate IsInt(s: string)
  {
    ParseInt(s).Some?
  }

  lemma NatToStrIsLiteral(n: nat)
    ensures DigitLiteral(NatToStr(n))
    ensures '_' !in NatToStr(n)
  {
  }

  lemma WithoutAbsent(s: string, c: char)
    requires c !in s
    ensures Without(s, c) == s
  {
  }

  lemma StripPlain(s: string)
    requires s != [] && !IsSpace(s[0]) && !IsSpace(s[|s| - 1])
    ensures Strip(s) == s
  {
    assert LStrip(s) == s;
  }

  lemma ParseDigitsOfNat(n: nat)
    ensures ParseDigits(NatToStr(n)) == Some(n)
  {
    NatToStrIsLiteral(n);
    DigitsValueOfNat(n);
    WithoutAbsent(NatToStr(n), '_');
  }

  /** `int(str(i)) == i`. */
  lemma {:induction false} ParseIntToStr(i: int)
    ensures ParseInt(IntToStr(i)) == Some(i)
  {
    var n: nat := if i < 0 then -i else i;
    var digits := NatToStr(n);
    ParseDigitsOfNat(n);
    var s := IntToStr(i);
    assert s[|s| - 1] == digits[|digits| - 1];
    StripPlain(s);
    if i < 0 {
      assert s == "-" + digits;
      assert s[1..] == digits;
      assert ParseSigned(s) == Some(i);
    } else {
      assert s == digits;
      assert s[0] != '-' && s[0] != '+';
      assert ParseSigned(s) == Some(i);
    }
  }

  /** Python's `a < b` on strings: code point order, a proper prefix first. */
  predicate LexLess(a: string, b: string)
    decreases |a|
  {
    if a == [] then b != []
    else if b == [] then false
    else if a[0] != b[0] then a[0] < b[0]
    else LexLess(a[1..], b[1..])
  }

  predicate LexLe(a: string, b: string)
  {
    a == b || LexLess(a, b)
  }

  /** `s[:n]` for a natural `n`. */
  function Prefix(s: string, n: nat): (r: string)
    ensures |r| == if n <= |s| then n else |s|
    ensures r == s[..|r|]
  {
    if n <= |s| then s[..n] else s
  }

  /** `s.replace(c, d)` for two single characters: position by position. */
  function SwapChar(s: string, c: char, d: char): (r: string)
    ensures |r| == |s|
  {
    if s == [] then [] else [if s[0] == c then d else s[0]] + SwapChar(s[1..], c, d)
  }

  lemma {:induction false} SwapCharAt(s: string, c: char, d: char)
    ensures forall i :: 0 <= i < |s| ==> SwapChar(s, c, d)[i] == (if s[i] == c then d else s[i])
    decreases |s|
  {
    if s != [] {
      SwapCharAt(s[1..], c, d);
      var r := SwapChar(s, c, d);
      assert r[1..] == SwapChar(s[1..], c, d);
      forall i | 1 <= i < |s| ensures r[i] == (if s[i] == c then d else s[i]) {
        assert r[i] == r[1..][i - 1] && s[i] == s[1..][i - 1];
      }
    }
  }

  lemma {:induction false} ReplaceCharIsSwap(s: string, c: char, d: char)
    ensures Replace(s, [c], [d]) == SwapChar(s, c, d)
    decreases |s|
  {
    if s != [] {
      ReplaceCharIsSwap(s[1..], c, d);
      assert StartsWith(s, [c]) <==> s[0] == c by {
        assert s[..1] == [s[0]];
      }
    }
  }

  lemma {:induction false} SwapConcat(a: string, b: string, c: char, d: char)
    ensures SwapChar(a + b, c, d) == SwapChar(a, c, d) + SwapChar(b, c, d)
    decreases |a|
  {
    if a == [] {
      assert a + b == b;
    } else {
      SwapConcat(a[1..], b, c, d);
      assert (a + b)[0] == a[0] && (a + b)[1..] == a[1..] + b;
    }
  }

  lemma {:induction false} SwapAbsent(a: string, c: char, d: char)
    requires c !in a
    ensures SwapChar(a, c, d) == a
    decreases |a|
  {
    if a != [] {
      SwapAbsent(a[1..], c, d);
      assert a == [a[0]] + a[1..];
    }
  }

  lemma {:induction false} SplitNoSep(s: string, sep: char)
    requires sep !in s
    ensures Split(s, sep) == [s]
  {
    SplitJoin(s, sep);
  }

  /** Splitting at the first separator. */
  lemma {:induction false} SplitConcat(a: string, rest: string, sep: char)
    requires sep !in a
    ensures Split(a + [sep] + rest, sep) == [a] + Split(rest, sep)
    decreases |a|
  {
    var s := a + [sep] + rest;
    if a == [] {
      assert s[0] == sep && s[1..] == rest;
    } else {
      var t := a[1..] + [sep] + rest;
      assert s[0] == a[0] && s[1..] == t;
      SplitConcat(a[1..], rest, sep);
      assert Split(s, sep) == [[a[0]] + Split(t, sep)[0]] + Split(t, sep)[1..];
      assert [a[0]] + a[1..] == a;
    }
  }

  /** Splitting a join on the same one-character separator gives the parts
      back when none of them holds the separator. */
  lemma {:induction false} JoinSplit(parts: seq<string>, sep: char)
    requires |parts| >= 1
    requires forall i :: 0 <= i < |parts| ==> sep !in parts[i]
    ensures Split(Join([sep], parts), sep) == parts
    decreases |parts|
  {
    if |parts| == 1 {
      SplitNoSep(parts[0], sep);
    } else {
      JoinSplit(parts[1..], sep);
      SplitConcat(parts[0], Join([sep], parts[1..]), sep);
      assert [parts[0]] + parts[1..] == parts;
    }
  }

  predicate NoSpace(w: string)
  {
    forall j :: 0 <= j < |w| ==> !IsSpace(w[j])
  }

  /** Every character is whitespace. */
  predicate AllSpace(w: string)
  {
    forall j :: 0 <= j < |w| ==> IsSpace(w[j])
  }

  /** A whitespace run is stripped off up to the next non-whitespace
      character. */
  lemma {:induction false} LStripRun(run: string, t: string)
    requires AllSpace(run) && (t == [] || !IsSpace(t[0]))
    ensures LStrip(run + t) == t
    decreases |run|
  {
    if run == [] {
      assert run + t == t;
    } else {
      assert (run + t)[0] == run[0] && (run + t)[1..] == run[1..] + t;
      LStripRun(run[1..], t);
    }
  }

  /** The length of the leading run of non-whitespace. */
  function WordLen(t: string): (n: nat)
    ensures n <= |t| && NoSpace(t[..n])
    ensures n < |t| ==> IsSpace(t[n])
    ensures t != [] && !IsSpace(t[0]) ==> n >= 1
  {
    if t == [] || IsSpace(t[0]) then 0
    else
      var m := WordLen(t[1..]);
      assert t[..1 + m] == [t[0]] + t[1..][..m];
      1 + m
  }

  /** `s.split()` without an argument: the maximal runs of non-whitespace,
      in order. */
  function Words(s: string): (ws: seq<string>)
    ensures forall i :: 0 <= i < |ws| ==> ws[i] != [] && NoSpace(ws[i])
    decreases |s|
  {
    var t := LStrip(s);
    if t == [] then []
    else
      var n := WordLen(t);
      [t[..n]] + Words(t[n..])
  }

  lemma {:induction false} WordLenOf(w: string, tail: string)
    requires w != [] && NoSpace(w) && (tail == [] || IsSpace(tail[0]))
    ensures WordLen(w + tail) == |w|
    decreases |w|
  {
    var s := w + tail;
    assert s[0] == w[0] && s[1..] == w[1..] + tail;
    if |w| > 1 {
      WordLenOf(w[1..], tail);
    } else {
      assert w[1..] + tail == tail;
    }
  }

  /** A word followed by a space and more text: the word comes first. */
  lemma WordsCons(w: string, rest: string)
    requires w != [] && NoSpace(w)
    ensures Words(w + " " + rest) == [w] + Words(rest)
  {
    var s := w + " " + rest;
    assert s[0] == w[0];
    assert LStrip(s) == s;
    WordLenOf(w, " " + rest);
    assert s == w + (" " + rest);
    assert s[..|w|] == w;
    assert s[|w|..] == " " + rest;
    assert LStrip(" " + rest) == LStrip(rest);
  }

  lemma WordsOne(w: string)
    requires w != [] && NoSpace(w)
    ensures Words(w) == [w]
  {
    assert LStrip(w) == w;
    WordLenOf(w, []);
    assert w + [] == w;
    assert w[|w|..] == [];
  }

  /** `" ".join(ws).split()` gives the words back. */
  lemma {:induction false} WordsJoin(ws: seq<string>)
    requires forall i :: 0 <= i < |ws| ==> ws[i] != [] && NoSpace(ws[i])
    ensures Words(Join(" ", ws)) == ws
    decreases |ws|
  {
    if |ws| == 1 {
      WordsOne(ws[0]);
    } else if |ws| > 1 {
      WordsTail(ws);
      WordsJoin(ws[1..]);
      WordsJoinCons(ws);
    }
  }

  lemma WordsTail(ws: seq<string>)
    requires |ws| >= 1 && forall i :: 0 <= i < |ws| ==> ws[i] != [] && NoSpace(ws[i])
    ensures forall i :: 0 <= i < |ws[1..]| ==> ws[1..][i] != [] && NoSpace(ws[1..][i])
  {
    forall i | 0 <= i < |ws[1..]|
      ensures ws[1..][i] != [] && NoSpace(ws[1..][i])
    {
      assert ws[1..][i] == ws[i + 1];
    }
  }

  lemma WordsJoinCons(ws: seq<string>)
    requires |ws| >= 2 && ws[0] != [] && NoSpace(ws[0])
    requires Words(Join(" ", ws[1..])) == ws[1..]
    ensures Words(Join(" ", ws)) == ws
  {
    JoinCons(" ", ws);
    WordsConsOf(Join(" ", ws), ws[0], Join(" ", ws[1..]), ws[1..]);
    assert [ws[0]] + ws[1..] == ws;
  }

  lemma JoinCons(sep: string, ws: seq<string>)
    requires |ws| >= 2
    ensures Join(sep, ws) == ws[0] + sep + Join(sep, ws[1..])
  {
  }

  lemma WordsConsOf(s: string, w: string, j: string, rest: seq<string>)
    requires w != [] && NoSpace(w)
    requires s == w + " " + j && Words(j) == rest
    ensures Words(s) == [w] + rest
  {
    WordsCons(w, j);
  }

  /** The first and last characters of a join of non-empty words. */
  lemma {:induction false} JoinEnds(ws: seq<string>, sep: string)
    requires |ws| >= 1 && forall i :: 0 <= i < |ws| ==> ws[i] != []
    ensures |Join(sep, ws)| >= 1
    ensures Join(sep, ws)[0] == ws[0][0]
    ensures Join(sep, ws)[|Join(sep, ws)| - 1] == ws[|ws| - 1][|ws[|ws| - 1]| - 1]
    decreases |ws|
  {
    if |ws| > 1 {
      JoinEnds(ws[1..], sep);
      var tail := Join(sep, ws[1..]);
      assert Join(sep, ws) == ws[0] + sep + tail;
    }
  }

  /** `(" " + " ".join(ws)).strip() == " ".join(ws)` for non-empty words. */
  lemma StripSpacedJoin(ws: seq<string>)
    requires |ws| >= 1 && forall i :: 0 <= i < |ws| ==> ws[i] != [] && NoSpace(ws[i])
    ensures Strip(" " + Join(" ", ws)) == Join(" ", ws)
  {
    var j := Join(" ", ws);
    JoinEnds(ws, " ");
    var first, last := ws[0], ws[|ws| - 1];
    assert NoSpace(first) && NoSpace(last);
    assert !IsSpace(first[0]) && !IsSpace(last[|last| - 1]);
    var s := " " + j;
    assert s[1..] == j;
    assert LStrip(s) == LStrip(j) == j;
    StripPlain(j);
  }
}
