/**
 * The Arduino `String` and C-string operations the firmware leans on
 * (indexOf, lastIndexOf, startsWith, endsWith, trim, toLowerCase, replace,
 * decimal formatting), stated over `seq<char>`.  Only ASCII case mapping is
 * modelled, as the C `tolower` does in the "C" locale.
 */
module Text {

  /** `sub` occurs in `s` starting at index `i`. */
  predicate OccursAt(s: string, sub: string, i: int)
  {
    0 <= i && i + |sub| <= |s| && s[i..i + |sub|] == sub
  }

  predicate Contains(s: string, sub: string)
  {
    exists i :: 0 <= i <= |s| && OccursAt(s, sub, i)
  }

  predicate StartsWith(s: string, prefix: string)
  {
    |prefix| <= |s| && s[..|prefix|] == prefix
  }

  predicate EndsWith(s: string, suffix: string)
  {
    |suffix| <= |s| && s[|s| - |suffix|..] == suffix
  }

  /**
   * String::indexOf(sub, from): the first occurrence of `sub` at or after
   * `from`, or -1; a start at or past the end gives -1 even for an empty `sub`.
   */
  function IndexOfFrom(s: string, sub: string, from: nat): (r: int)
    decreases |s| - from
    ensures r == -1 || (from <= r < |s| && OccursAt(s, sub, r))
    ensures r == -1 ==> forall j :: from <= j < |s| ==> !OccursAt(s, sub, j)
    ensures r != -1 ==> forall j :: from <= j < r ==> !OccursAt(s, sub, j)
  {
    if from >= |s| || from + |sub| > |s| then -1
    else if s[from..from + |sub|] == sub then from
    else IndexOfFrom(s, sub, from + 1)
  }

  /** String::indexOf: the first occurrence, or -1; the empty string contains nothing, not even "". */
  function IndexOf(s: string, sub: string): (r: int)
    ensures r == -1 <==> !Contains(s, sub) || s == ""
    ensures r != -1 ==> OccursAt(s, sub, r) && forall j :: 0 <= j < r ==> !OccursAt(s, sub, j)
  {
    IndexOfFrom(s, sub, 0)
  }

  /** Last occurrence of `sub` starting at or before `upTo`, or -1. */
  function LastIndexOfUpTo(s: string, sub: string, upTo: int): (r: int)
    decreases upTo + 1
    ensures r == -1 || (r <= upTo && OccursAt(s, sub, r))
    ensures r == -1 ==> forall j :: j <= upTo ==> !OccursAt(s, sub, j)
    ensures r != -1 ==> forall j :: r < j <= upTo ==> !OccursAt(s, sub, j)
  {
    if upTo < 0 then -1
    else if OccursAt(s, sub, upTo) then upTo
    else LastIndexOfUpTo(s, sub, upTo - 1)
  }

  /** String::lastIndexOf: the start of the last occurrence, or -1; an empty `sub` is never found. */
  function LastIndexOf(s: string, sub: string): (r: int)
    ensures r == -1 <==> !Contains(s, sub) || sub == ""
    ensures r != -1 ==> OccursAt(s, sub, r) && forall j :: r < j ==> !OccursAt(s, sub, j)
  {
    if sub == "" then -1 else LastIndexOfUpTo(s, sub, |s| - |sub|)
  }

  function ToLowerChar(c: char): char
  {
    if 'A' <= c <= 'Z' then (c as int + 32) as char else c
  }

  /** String::toLowerCase / tolower applied to every character. */
  function ToLower(s: string): (r: string)
    ensures |r| == |s|
    ensures forall i :: 0 <= i < |s| ==> r[i] == ToLowerChar(s[i])
  {
    if s == [] then [] else [ToLowerChar(s[0])] + ToLower(s[1..])
  }

  predicate EqualsIgnoreCase(a: string, b: string)
  {
    ToLower(a) == ToLower(b)
  }

  /** String::replace(from, to) for single characters. */
  function ReplaceChar(s: string, from: char, to: char): (r: string)
    ensures |r| == |s|
    ensures forall i :: 0 <= i < |s| ==> r[i] == (if s[i] == from then to else s[i])
  {
    if s == [] then [] else [if s[0] == from then to else s[0]] + ReplaceChar(s[1..], from, to)
  }

  /** The pieces joined with `sep` between neighbours. */
  function JoinWith(es: seq<string>, sep: char): string
  {
    if es == [] then "" else if |es| == 1 then es[0] else es[0] + [sep] + JoinWith(es[1..], sep)
  }

  lemma {:induction false} JoinWithStartsWith(es: seq<string>, sep: char)
    requires es != []
    ensures StartsWith(JoinWith(es, sep), es[0])
    decreases |es|
  {
    if |es| >= 2 {
      var t := JoinWith(es[1..], sep);
      assert (es[0] + [sep] + t)[..|es[0]|] == es[0];
    }
  }

  /** Appending a piece appends the separator and the piece. */
  lemma {:induction false} JoinWithSnoc(es: seq<string>, sep: char, e: string)
    ensures JoinWith(es + [e], sep) == if es == [] then e else JoinWith(es, sep) + [sep] + e
    decreases |es|
  {
    if |es| >= 2 {
      assert (es + [e])[1..] == es[1..] + [e];
      JoinWithSnoc(es[1..], sep, e);
    } else if |es| == 1 {
      assert es + [e] == [es[0], e];
    }
  }

  lemma CharAt(s: string, c: char, i: nat)
    requires i < |s|
    ensures OccursAt(s, [c], i) <==> s[i] == c
  {
    assert s[i..i + 1] == [s[i]];
  }

  /** The first `sep` of `e + [sep] + t` is the one after `e` when `e` has none. */
  lemma FirstSeparator(e: string, sep: char, t: string)
    requires sep !in e
    ensures IndexOf(e + [sep] + t, [sep]) == |e|
  {
    var s := e + [sep] + t;
    CharAt(s, sep, |e|);
    forall j | 0 <= j < |e| ensures !OccursAt(s, [sep], j) {
      CharAt(s, sep, j);
      assert s[j] == e[j];
    }
  }

  lemma SeparatorAbsent(e: string, sep: char)
    requires sep !in e
    ensures IndexOf(e, [sep]) == -1
  {
    forall j | 0 <= j < |e| ensures !OccursAt(e, [sep], j) {
      CharAt(e, sep, j);
    }
  }

  /** The characters C's `isspace` accepts. */
  predicate IsSpace(c: char)
  {
    c == ' ' || c == '\t' || c == '\n' || c == '\r' || c as int == 11 || c as int == 12
  }

  function TrimStart(s: string): (r: string)
    ensures |r| <= |s| && r == s[|s| - |r|..]
    ensures r == [] || !IsSpace(r[0])
    ensures forall i :: 0 <= i < |s| - |r| ==> IsSpace(s[i])
  {
    if s != [] && IsSpace(s[0]) then TrimStart(s[1..]) else s
  }

  function TrimEnd(s: string): (r: string)
    ensures |r| <= |s| && r == s[..|r|]
    ensures r == [] || !IsSpace(r[|r| - 1])
    ensures forall i :: |r| <= i < |s| ==> IsSpace(s[i])
  {
    if s != [] && IsSpace(s[|s| - 1]) then TrimEnd(s[..|s| - 1]) else s
  }

  /** String::trim: leading and trailing white space removed. */
  function Trim(s: string): string
  {
    TrimEnd(TrimStart(s))
  }

  function DigitChar(d: nat): char
    requires d < 10
  {
    ('0' as int + d) as char
  }

  predicate IsDigit(c: char)
  {
    '0' <= c <= '9'
  }

  /** The value of a string of decimal digits. */
  function DecimalValue(s: string): nat
    requires forall i :: 0 <= i < |s| ==> IsDigit(s[i])
  {
    if s == [] then 0
    else
      assert IsDigit(s[|s| - 1]);
      DecimalValue(s[..|s| - 1]) * 10 + (s[|s| - 1] as int - '0' as int)
  }

  /** Decimal formatting of a natural number (`String(n)`, `%d`, `%u`). */
  function NatToString(n: nat): (r: string)
    decreases n
    ensures |r| > 0
    ensures forall i :: 0 <= i < |r| ==> IsDigit(r[i])
    ensures DecimalValue(r) == n
    ensures |r| > 1 ==> r[0] != '0'
  {
    if n < 10 then [DigitChar(n)]
    else
      var prefix := NatToString(n / 10);
      var r := prefix + [DigitChar(n % 10)];
      assert r[..|r| - 1] == prefix;
      r
  }

  /** `%02d` for a value below 100. */
  function TwoDigits(n: nat): (r: string)
    requires n < 100
    ensures |r| == 2 && IsDigit(r[0]) && IsDigit(r[1])
    ensures DecimalValue(r) == n
  {
    var r := [DigitChar(n / 10), DigitChar(n % 10)];
    assert r[..1] == [r[0]] && [r[0]][..0] == [];
    assert DecimalValue([r[0]]) == n / 10;
    r
  }
}
