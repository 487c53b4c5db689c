/** The leader name: the count written into the label template, followed by
    an invisible signature, and the parser that reads the count back
    (`_update_nametag`, `_parse_count_from_name`). */
module Names {
  import opened Text
  import opened Wrappers

  /** Tag that marks an entity as a stack leader. */
  const StackTag: string := "mobstack:leader"
  /** Default label template. */
  const NameFormat: string := "×{count}"
  const Placeholder: string := "{count}"
  /** NBSP followed by BOM: marks names written by the stacker. */
  const Signature: string := "\U{A0}\U{FEFF}"

  /** `label.format(count=count)` for a template whose only fields are `{count}`. */
  function FormatLabel(template: string, count: int): string {
    ReplaceAll(template, Placeholder, IntToString(count))
  }

  /** The configured label, or the default when it has no `{count}` field. */
  function EffectiveLabel(template: string): string {
    if HasSubstring(template, Placeholder) then template else NameFormat
  }

  /** The name `_update_nametag` writes: empty below the display threshold,
      otherwise the formatted label followed by the signature. */
  function NameTag(count: int, threshold: int, template: string): (r: string)
    ensures count < threshold <==> r == ""
    ensures r != "" ==> EndsWith(r, Signature)
  {
    if count < threshold then "" else FormatLabel(EffectiveLabel(template), count) + Signature
  }

  /** A template without a `{count}` field writes the same name as the
      default template. */
  lemma NameTagFallback(count: int, threshold: int, template: string)
    requires !HasSubstring(template, Placeholder)
    ensures NameTag(count, threshold, template) == NameTag(count, threshold, NameFormat)
  {
    assert HasSubstring(NameFormat, Placeholder) by {
      assert NameFormat[1..] == Placeholder;
    }
  }

  /** The longest suffix of ASCII digits. */
  function TrailingDigits(s: string): (d: string)
    ensures AllDigits(d) && |d| <= |s| && d == s[|s| - |d|..]
    ensures |d| < |s| ==> !IsDigit(s[|s| - |d| - 1])
  {
    if s != [] && IsDigit(s[|s| - 1]) then
      var p := s[..|s| - 1];
      var d := TrailingDigits(p);
      assert d == p[|p| - |d|..];
      assert p[|p| - |d|..] + [s[|s| - 1]] == s[|s| - 1 - |d|..];
      assert |d| < |p| ==> s[|s| - |d| - 2] == p[|p| - |d| - 1];
      d + [s[|s| - 1]]
    else []
  }

  predicate IsCountMarker(c: char) {
    c == '×' || c == 'x'
  }

  /** The text before the signature, trimmed; empty for a name without the
      signature. */
  function Body(name: string): string {
    if EndsWith(name, Signature) then Strip(name[..|name| - |Signature|]) else ""
  }

  /** `base` is some text, a count marker, blanks and the non-empty digit run
      `d`: a trimmed text that `(?:×|x)\s*(\d+)\s*$` matches with group `d`. */
  ghost predicate MarkedCount(base: string, d: string) {
    d != [] && AllDigits(d)
    && exists p: string, m: char, w: string :: base == p + [m] + w + d && IsCountMarker(m) && AllSpace(w)
  }

  /** `_parse_count_from_name`: a name written by the stacker ends with the
      signature; before it, after trimming, the regular expression
      `(?:×|x)\s*(\d+)\s*$` must match, and its digits are the count. The
      trimmed text ends in a non-blank, so the match is: a marker, blanks, and
      the maximal run of trailing digits. */
  function ParseCountFromName(name: string): (r: Option<nat>)
    ensures r.Some? ==> EndsWith(name, Signature)
  {
    if name == "" || !EndsWith(name, Signature) then None
    else ParseBase(Body(name))
  }

  /** A count is read exactly when the name ends with the signature and the
      text before it is a marked count; the count is the value of its
      digits. */
  lemma ParseCountFromNameSpec(name: string)
    ensures ParseCountFromName(name).Some? <==> EndsWith(name, Signature) && exists d :: MarkedCount(Body(name), d)
    ensures forall d :: EndsWith(name, Signature) && MarkedCount(Body(name), d) ==> ParseCountFromName(name) == Some(DigitsValue(d))
  {
    ParseBaseSpec(Body(name));
  }

  /** The regular-expression search on the trimmed text before the
      signature. */
  function ParseBase(base: string): Option<nat> {
    var d := TrailingDigits(base);
    var rest := RStrip(base[..|base| - |d|]);
    if d != [] && rest != [] && IsCountMarker(rest[|rest| - 1]) then Some(DigitsValue(d)) else None
  }

  lemma ParseBaseSpec(base: string)
    ensures ParseBase(base).Some? <==> exists d :: MarkedCount(base, d)
    ensures forall d :: MarkedCount(base, d) ==> ParseBase(base) == Some(DigitsValue(d))
  {
    forall d | MarkedCount(base, d) ensures ParseBase(base) == Some(DigitsValue(d)) {
      MarkedCountMatch(base, d);
    }
    if ParseBase(base).Some? {
      MatchMarkedCount(base);
    }
  }

  /** Any marked count of a text is its trailing digit run, and the text
      before it, right-trimmed, ends in the marker. */
  lemma {:induction false} MarkedCountMatch(base: string, d: string)
    requires MarkedCount(base, d)
    ensures d == TrailingDigits(base)
    ensures var rest := RStrip(base[..|base| - |d|]); rest != [] && IsCountMarker(rest[|rest| - 1])
    ensures ParseBase(base) == Some(DigitsValue(d))
  {
    var p: string, m: char, w: string :| base == p + [m] + w + d && IsCountMarker(m) && AllSpace(w);
    MarkedCountSplit(base, d, p, m, w);
  }

  /** `MarkedCountMatch` for one split of the text: the prefix `p`, the
      marker `m` and the blanks `w` before the digits `d`. */
  lemma {:induction false} MarkedCountSplit(base: string, d: string, p: string, m: char, w: string)
    requires d != [] && AllDigits(d) && base == p + [m] + w + d && IsCountMarker(m) && AllSpace(w)
    ensures d == TrailingDigits(base)
    ensures RStrip(base[..|base| - |d|]) == p + [m]
  {
    var q := p + [m] + w;
    MarkerTailNotDigit(p, m, w);
    DigitsAfter(base, q, d);
    RStripBlankTail(p + [m], w);
  }

  /** Digits appended to a text that ends in a non-digit are its trailing
      digit run, and removing them gives the text back. */
  lemma DigitsAfter(base: string, q: string, d: string)
    requires base == q + d && AllDigits(d) && q != [] && !IsDigit(q[|q| - 1])
    ensures d == TrailingDigits(base) && base[..|base| - |d|] == q
  {
    TrailingDigitsOf(q, d);
  }

  /** A marker followed by blanks does not end in a digit. */
  lemma MarkerTailNotDigit(p: string, m: char, w: string)
    requires IsCountMarker(m) && AllSpace(w)
    ensures var q := p + [m] + w; q != [] && !IsDigit(q[|q| - 1])
  {
    var q := p + [m] + w;
    if w != [] {
      assert q[|q| - 1] == w[|w| - 1];
    }
  }

  /** The right strip of a text that ends in a non-blank followed by blanks
      is that text. */
  lemma {:induction false} RStripBlankTail(q: string, w: string)
    requires q != [] && !IsSpace(q[|q| - 1]) && AllSpace(w)
    ensures RStrip(q + w) == q
  {
    if w == [] {
      assert q + w == q;
    } else {
      assert (q + w)[..|q + w| - 1] == q + w[..|w| - 1];
      RStripBlankTail(q, w[..|w| - 1]);
    }
  }

  /** A non-empty trailing digit run whose right-trimmed prefix ends in a
      marker is a marked count. */
  lemma {:induction false} MatchMarkedCount(base: string)
    requires var d := TrailingDigits(base); var rest := RStrip(base[..|base| - |d|]);
             d != [] && rest != [] && IsCountMarker(rest[|rest| - 1])
    ensures MarkedCount(base, TrailingDigits(base))
  {
    var d := TrailingDigits(base);
    var pre := base[..|base| - |d|];
    var rest := RStrip(pre);
    RStripSpec(pre);
    MarkedCountFrom(base, pre, |rest|, d);
  }

  /** The witnesses of a marked count, read off a split of the text. */
  lemma MarkedCountFrom(base: string, pre: string, k: nat, d: string)
    requires base == pre + d && d != [] && AllDigits(d)
    requires 0 < k <= |pre| && IsCountMarker(pre[k - 1]) && AllSpace(pre[k..])
    ensures MarkedCount(base, d)
  {
    var p, m, w := pre[..k - 1], pre[k - 1], pre[k..];
    assert pre == p + [m] + w;
  }

  /** Digits after a non-digit are exactly the trailing digit run. */
  lemma {:induction false} TrailingDigitsOf(p: string, d: string)
    requires AllDigits(d)
    requires p == [] || !IsDigit(p[|p| - 1])
    ensures TrailingDigits(p + d) == d
  {
    if d != [] {
      var s := p + d;
      assert s[..|s| - 1] == p + d[..|d| - 1];
      TrailingDigitsOf(p, d[..|d| - 1]);
    } else {
      assert p + d == p;
    }
  }

  /** With the default template, a count at or above the threshold is written
      as "×" + digits + signature, and parsing that name yields the count. */
  lemma {:induction false} NameRoundTrip(k: nat, threshold: int)
    requires k >= threshold
    ensures NameTag(k, threshold, NameFormat) == "×" + DecimalString(k) + Signature
    ensures ParseCountFromName(NameTag(k, threshold, NameFormat)) == Some(k)
  {
    var digits := DecimalString(k);
    assert ReplaceAll(Placeholder, Placeholder, digits) == digits + ReplaceAll([], Placeholder, digits);
    assert ReplaceAll(NameFormat, Placeholder, digits) == "×" + ReplaceAll(Placeholder, Placeholder, digits);
    assert HasSubstring(NameFormat, Placeholder) by {
      assert NameFormat[1..] == Placeholder;
    }
    var name := NameTag(k, threshold, NameFormat);
    var body := "×" + digits;
    assert name == body + Signature;
    assert name[..|name| - |Signature|] == body;
    StripNoop(body);
    TrailingDigitsOf("×", digits);
    assert body[..|body| - |digits|] == "×";
    DecimalRoundTrip(k);
  }
}
