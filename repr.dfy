/** Python's `repr` and `str` of values, as the spiders use them to build
    request bodies and URL fragments. The text of a float (Python's shortest
    round-trip formatting) is not modelled: it is supplied as a parameter. */
module Repr {
  import opened Values
  import opened Text

  function HexDigit(d: nat): (c: char)
    requires d < 16
  {
    "0123456789abcdef"[d]
  }

  /** One character inside a string literal quoted with `q`, as Python
      escapes the ASCII range. Every character from U+0080 up is rendered as
      itself, including those Python escapes as not printable. */
  function EscapeChar(c: char, q: char): (r: string)
    ensures |r| >= 1
    ensures r == [c] || r[0] == '\\'
  {
    if c == '\\' then "\\\\"
    else if c == q then ['\\', q]
    else if c == '\n' then "\\n"
    else if c == '\r' then "\\r"
    else if c == '\t' then "\\t"
    else if c < ' ' || c == '\U{7F}' then "\\x" + [HexDigit(c as int / 16), HexDigit(c as int % 16)]
    else [c]
  }

  function EscapeChars(s: string, q: char): string
  {
    if s == [] then "" else EscapeChar(s[0], q) + EscapeChars(s[1..], q)
  }

  /** `repr(s)`: single quotes unless the text holds a single quote and no
      double quote. */
  function StrRepr(s: string): (r: string)
    ensures |r| >= 2 && (r[0] == '\'' || r[0] == '"') && r[|r| - 1] == r[0]
  {
    var q := if '\'' in s && '"' !in s then '"' else '\'';
    [q] + EscapeChars(s, q) + [q]
  }

  /** A string no character of which needs escaping. */
  predicate Plain(s: string)
  {
    forall i :: 0 <= i < |s| ==> ' ' <= s[i] && s[i] != '\U{7F}' && s[i] != '\\' && s[i] != '\'' && s[i] != '"'
  }

  lemma {:induction false} EscapePlain(s: string, q: char)
    requires Plain(s) && (q == '\'' || q == '"')
    ensures EscapeChars(s, q) == s
  {
    if s != [] {
      EscapePlain(s[1..], q);
      assert s == [s[0]] + s[1..];
    }
  }

  /** `repr(v)` for a value: `None`, `True`/`False`, `str(int)`, a string
      literal, or a list or dict of reprs separated by `", "`. */
  function ReprOf(v: Value, floatText: real -> string): string
    decreases v, 1
  {
    match v
    case VNone => "None"
    case VBool(b) => if b then "True" else "False"
    case VInt(i) => IntToStr(i)
    case VReal(r) => floatText(r)
    case VStr(s) => StrRepr(s)
    case VList(items) => "[" + Join(", ", Reprs(items, floatText)) + "]"
    case VDict(entries) => "{" + Join(", ", EntryReprs(v, entries, floatText)) + "}"
  }

  function Reprs(items: seq<Value>, floatText: real -> string): (r: seq<string>)
    ensures |r| == |items|
    decreases items, 0
  {
    if items == [] then [] else [ReprOf(items[0], floatText)] + Reprs(items[1..], floatText)
  }

  function EntryReprs(ghost parent: Value, entries: seq<(string, Value)>, floatText: real -> string): (r: seq<string>)
    requires forall e :: e in entries ==> e.1 < parent
    ensures |r| == |entries|
    decreases parent, 0, |entries|
  {
    if entries == [] then []
    else [StrRepr(entries[0].0) + ": " + ReprOf(entries[0].1, floatText)] + EntryReprs(parent, entries[1..], floatText)
  }

  /** `str(v)`: a string is its own text, anything else its repr. */
  function StrOf(v: Value, floatText: real -> string): (r: string)
    ensures v.VStr? ==> r == v.s
    ensures v.VInt? ==> r == IntToStr(v.i)
  {
    if v.VStr? then v.s else ReprOf(v, floatText)
  }

  lemma PlainRepr(s: string)
    requires Plain(s)
    ensures StrRepr(s) == "'" + s + "'"
  {
    EscapePlain(s, '\'');
  }
}
