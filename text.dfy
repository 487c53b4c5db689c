/** Character and string helpers with the semantics of the Python string
    methods the stacker relies on: strip(), lower(), split(), splitlines(),
    endswith(), `in`, int() of a digit string and str() of an int. */
module Text {

  /** Python's str.isspace() for a single character. */
  predicate IsSpace(c: char) {
    c == ' ' || ('\t' <= c <= '\r') || ('\U{1c}' <= c <= '\U{1f}')
    || c == '\U{85}' || c == '\U{A0}' || c == '\U{1680}'
    || ('\U{2000}' <= c <= '\U{200A}') || c == '\U{2028}' || c == '\U{2029}'
    || c == '\U{202F}' || c == '\U{205F}' || c == '\U{3000}'
  }

  predicate AllSpace(s: string) {
    forall i :: 0 <= i < |s| ==> IsSpace(s[i])
  }

  /** str.lstrip() */
  function LStrip(s: string): (r: string)
    ensures |r| <= |s|
  {
    if s != [] && IsSpace(s[0]) then LStrip(s[1..]) else s
  }

  /** lstrip removes exactly the leading whitespace. */
  lemma {:induction false} LStripSpec(s: string)
    ensures LStrip(s) == s[|s| - |LStrip(s)|..]
    ensures LStrip(s) == [] || !IsSpace(LStrip(s)[0])
    ensures AllSpace(s[..|s| - |LStrip(s)|])
  {
    if s != [] && IsSpace(s[0]) {
      var r := LStrip(s[1..]);
      LStripSpec(s[1..]);
      assert s[1..][..|s[1..]| - |r|] == s[1..|s| - |r|];
    }
  }

  /** str.rstrip() */
  function RStrip(s: string): (r: string)
    ensures |r| <= |s|
  {
    if s != [] && IsSpace(s[|s| - 1]) then RStrip(s[..|s| - 1]) else s
  }

  /** rstrip removes exactly the trailing whitespace. */
  lemma {:induction false} RStripSpec(s: string)
    ensures RStrip(s) == s[..|RStrip(s)|]
    ensures RStrip(s) == [] || !IsSpace(RStrip(s)[|RStrip(s)| - 1])
    ensures AllSpace(s[|RStrip(s)|..])
  {
    if s != [] && IsSpace(s[|s| - 1]) {
      var r := RStrip(s[..|s| - 1]);
      RStripSpec(s[..|s| - 1]);
      assert s[..|s| - 1][|r|..] + [s[|s| - 1]] == s[|r|..];
    }
  }

  /** str.strip() */
  function Strip(s: string): (r: string)
    ensures |r| <= |s|
  {
    LStrip(RStrip(s))
  }

  /** The strip of a string neither starts nor ends with whitespace, and it
      is empty exactly when the string is all whitespace. */
  lemma StripSpec(s: string)
    ensures Strip(s) == [] || (!IsSpace(Strip(s)[0]) && !IsSpace(Strip(s)[|Strip(s)| - 1]))
    ensures Strip(s) == [] <==> AllSpace(s)
  {
    var t := RStrip(s);
    var r := LStrip(t);
    RStripSpec(s);
    LStripSpec(t);
    assert t != [] ==> t[|t| - 1] == s[|t| - 1];
    assert AllSpace(s) ==> t == [];
    assert r == [] ==> s == t[..|t| - |r|] + s[|t|..];
  }

  /** A string that neither starts nor ends with whitespace is its own strip. */
  lemma StripNoop(s: string)
    requires s == [] || (!IsSpace(s[0]) && !IsSpace(s[|s| - 1]))
    ensures Strip(s) == s
  {
  }

  lemma StripIdempotent(s: string)
    ensures Strip(Strip(s)) == Strip(s)
  {
    StripSpec(s);
    StripNoop(Strip(s));
  }

  /** ASCII lower-casing of one character. */
  function LowerChar(c: char): char {
    if 'A' <= c <= 'Z' then (c as int + 32) as char else c
  }

  predicate IsUpperAscii(c: char) {
    'A' <= c <= 'Z'
  }

  /** str.lower(), restricted to the ASCII letters. */
  function Lower(s: string): (r: string)
    ensures |r| == |s|
  {
    if s == [] then [] else [LowerChar(s[0])] + Lower(s[1..])
  }

  /** Each character is lower-cased in place, so no upper-case ASCII letter
      remains. */
  lemma {:induction false} LowerSpec(s: string)
    ensures forall i :: 0 <= i < |s| ==> Lower(s)[i] == LowerChar(s[i])
    ensures forall i :: 0 <= i < |s| ==> !IsUpperAscii(Lower(s)[i])
  {
    if s != [] {
      LowerSpec(s[1..]);
    }
  }

  lemma LowerIdempotent(s: string)
    ensures Lower(Lower(s)) == Lower(s)
  {
    LowerSpec(s);
    LowerSpec(Lower(s));
  }

  /** Lower-casing never turns a blank character into a non-blank one or back. */
  lemma LowerCharSpace(c: char)
    ensures IsSpace(LowerChar(c)) <==> IsSpace(c)
  {
  }

  /** Lower-casing keeps every ':' in place. */
  lemma LowerKeepsColon(s: string)
    ensures ':' in Lower(s) <==> ':' in s
  {
    LowerSpec(s);
    if ':' in s {
      var i :| 0 <= i < |s| && s[i] == ':';
      assert Lower(s)[i] == ':';
    }
  }

  lemma {:induction false} LowerAppend(a: string, b: string)
    ensures Lower(a + b) == Lower(a) + Lower(b)
  {
    if a != [] {
      assert (a + b)[0] == a[0] && (a + b)[1..] == a[1..] + b;
      LowerAppend(a[1..], b);
      calc {
        Lower(a + b);
        [LowerChar(a[0])] + Lower(a[1..] + b);
        [LowerChar(a[0])] + (Lower(a[1..]) + Lower(b));
        ([LowerChar(a[0])] + Lower(a[1..])) + Lower(b);
      }
    } else {
      assert a + b == b;
    }
  }

  lemma LowerNoUpper(s: string)
    requires forall i :: 0 <= i < |s| ==> !IsUpperAscii(s[i])
    ensures Lower(s) == s
  {
    LowerSpec(s);
  }

  /** `sub in s` for strings. */
  predicate HasSubstring(s: string, sub: string)
    decreases |s|
  {
    sub <= s || (s != [] && HasSubstring(s[1..], sub))
  }

  /** A string lacking one of the characters of `sub` does not contain it. */
  lemma {:induction false} MissingCharNoSubstring(s: string, sub: string, c: char)
    requires c in sub && c !in s
    ensures !HasSubstring(s, sub)
    decreases |s|
  {
    if s != [] {
      MissingCharNoSubstring(s[1..], sub, c);
    }
  }

  predicate StartsWith(s: string, prefix: string) {
    prefix <= s
  }

  predicate EndsWith(s: string, suffix: string) {
    |suffix| <= |s| && s[|s| - |suffix|..] == suffix
  }

  predicate IsDigit(c: char) {
    '0' <= c <= '9'
  }

  predicate AllDigits(s: string) {
    forall i :: 0 <= i < |s| ==> IsDigit(s[i])
  }

  function DigitChar(d: nat): (c: char)
    requires d < 10
    ensures IsDigit(c)
  {
    ('0' as int + d) as char
  }

  /** str(n) for a non-negative int. */
  function DecimalString(n: nat): (r: string)
    ensures r != [] && AllDigits(r)
  {
    if n < 10 then [DigitChar(n)] else DecimalString(n / 10) + [DigitChar(n % 10)]
  }

  /** str(n) for any int. */
  function IntToString(n: int): string {
    if n < 0 then "-" + DecimalString(-n) else DecimalString(n)
  }

  /** int(s) for a string of ASCII digits. */
  function DigitsValue(s: string): nat
    requires AllDigits(s)
  {
    if s == [] then 0 else DigitsValue(s[..|s| - 1]) * 10 + (s[|s| - 1] as int - '0' as int)
  }

  /** int(str(n)) == n */
  lemma {:induction false} DecimalRoundTrip(n: nat)
    ensures DigitsValue(DecimalString(n)) == n
  {
    if n >= 10 {
      DecimalRoundTrip(n / 10);
      var s := DecimalString(n);
      assert s[..|s| - 1] == DecimalString(n / 10);
    }
  }

  /** Index of the first occurrence of `c` in `s`. */
  function IndexOf(s: string, c: char): (i: nat)
    requires c in s
    ensures i < |s| && s[i] == c && c !in s[..i]
  {
    if s[0] == c then 0 else 1 + IndexOf(s[1..], c)
  }

  /** str.split(sep) for a one-character separator. */
  function Split(s: string, sep: char): (parts: seq<string>)
    ensures |parts| >= 1
    ensures forall k :: 0 <= k < |parts| ==> sep !in parts[k]
    decreases |s|
  {
    if sep !in s then [s]
    else
      var i := IndexOf(s, sep);
      [s[..i]] + Split(s[i + 1..], sep)
  }

  /** Line boundaries recognised by str.splitlines(). */
  predicate IsLineBreak(c: char) {
    c == '\n' || c == '\r' || c == '\U{0b}' || c == '\U{0c}'
    || ('\U{1c}' <= c <= '\U{1e}') || c == '\U{85}' || c == '\U{2028}' || c == '\U{2029}'
  }

  /** Length of the line at the start of `s` (up to the first boundary). */
  function LineLength(s: string): (n: nat)
    ensures n <= |s|
    ensures forall i :: 0 <= i < n ==> !IsLineBreak(s[i])
    ensures n < |s| ==> IsLineBreak(s[n])
  {
    if s == [] || IsLineBreak(s[0]) then 0 else 1 + LineLength(s[1..])
  }

  /** str.splitlines(): "\r\n" counts as one boundary and a final boundary
      does not start an empty last line. */
  function SplitLines(s: string): (lines: seq<string>)
    ensures forall k :: 0 <= k < |lines| ==> forall i :: 0 <= i < |lines[k]| ==> !IsLineBreak(lines[k][i])
    decreases |s|
  {
    if s == [] then []
    else
      var n := LineLength(s);
      if n == |s| then [s]
      else
        var skip := if s[n] == '\r' && n + 1 < |s| && s[n + 1] == '\n' then 2 else 1;
        [s[..n]] + SplitLines(s[n + skip..])
  }

  /** Every occurrence of `pat` replaced by `rep`, scanning left to right. */
  function ReplaceAll(s: string, pat: string, rep: string): string
    requires pat != []
    decreases |s|
  {
    if |s| < |pat| then s
    else if pat <= s then rep + ReplaceAll(s[|pat|..], pat, rep)
    else [s[0]] + ReplaceAll(s[1..], pat, rep)
  }

  /** `s.lstrip(c)` for a single character. */
  function LStripChar(s: string, c: char): (r: string)
    ensures r == [] || r[0] != c
  {
    if s != [] && s[0] == c then LStripChar(s[1..], c) else s
  }
}
