/**
 * How a player's name is turned into a regiment tag: the first configured
 * rule whose pattern matches picks a capture group, clan rules substitute a
 * fixed code, and the tag is then normalised by a fixed pipeline of
 * rewrites.
 */
module Regiment {
  import opened Optional
  import opened Text

  // ------------------------------------------------------------------
  // Ordinal suffixes
  // ------------------------------------------------------------------

  /** `ST|ND|RD|TH`, case-sensitive. */
  predicate IsOrdinalUpper(a: char, b: char) {
    (a == 'S' && b == 'T') || (a == 'N' && b == 'D') || (a == 'R' && b == 'D') || (a == 'T' && b == 'H')
  }

  /** `st|nd|rd|th`, case-sensitive. */
  predicate IsOrdinalLower(a: char, b: char) {
    (a == 's' && b == 't') || (a == 'n' && b == 'd') || (a == 'r' && b == 'd') || (a == 't' && b == 'h')
  }

  /** `st|nd|rd|th` under the `i` flag. */
  predicate IsOrdinalAnyCase(a: char, b: char) {
    IsOrdinalUpper(UpChar(a), UpChar(b))
  }

  // ------------------------------------------------------------------
  // End-anchored rewrites shared by every rule
  // ------------------------------------------------------------------

  /** `s[p..]` is a dot, one letter and at most one asterisk: `\.[A-Z](\*)?$` under the `i` flag. */
  predicate DotLetterTail(s: string, p: nat) {
    p + 2 <= |s| && s[p] == '.' && IsLetter(s[p + 1]) && (p + 2 == |s| || (p + 3 == |s| && s[p + 2] == '*'))
  }

  /** Removes a trailing company letter after a dot: `/\.[A-Z](\*)?$/i`. */
  function StripDotLetter(s: string): (r: string)
    ensures |r| <= |s| && r == s[..|r|]
    ensures |r| < |s| ==> DotLetterTail(s, |r|)
    ensures forall p: nat :: DotLetterTail(s, p) ==> r == s[..p]
  {
    var n := |s|;
    if n >= 3 && s[n - 3] == '.' && IsLetter(s[n - 2]) && s[n - 1] == '*' then s[..n - 3]
    else if n >= 2 && s[n - 2] == '.' && IsLetter(s[n - 1]) then s[..n - 2]
    else s
  }

  /** Removes trailing asterisks: `/\*+$/`. */
  function StripTrailingStars(s: string): (r: string)
    ensures |r| <= |s| && r == s[..|r|]
    ensures forall k :: |r| <= k < |s| ==> s[k] == '*'
    ensures r != [] ==> r[|r| - 1] != '*'
  {
    s[..BackSpan(s, |s|, Is('*'))]
  }

  /**
   * `s[p..]` is whitespace, one letter and at most one asterisk:
   * `\s+[A-Z](\*)?$` under the `i` flag.
   */
  predicate SpacedLetterTail(s: string, p: nat) {
    var e := if |s| >= 1 && s[|s| - 1] == '*' then |s| - 1 else |s|;
    p + 1 < e && IsLetter(s[e - 1]) && AllIn(s, p, e - 1, Space)
  }

  /** Removes a standalone trailing company letter: `/\s+[A-Z](\*)?$/i`, at its leftmost match. */
  function StripSpacedLetter(s: string): (r: string)
    ensures |r| <= |s| && r == s[..|r|]
    ensures |r| < |s| ==> SpacedLetterTail(s, |r|)
    ensures forall p: nat :: SpacedLetterTail(s, p) ==> |r| <= p
  {
    var n := |s|;
    var e := if n >= 1 && s[n - 1] == '*' then n - 1 else n;
    if e >= 1 && IsLetter(s[e - 1]) then
      var w := BackSpan(s, e - 1, Space);
      if w < e - 1 then s[..w] else s
    else s
  }

  // ------------------------------------------------------------------
  // Rule-specific rewrites
  // ------------------------------------------------------------------

  /**
   * `s[p..]` matches `\..+$`: a dot followed by at least one character, none
   * of them a line terminator, up to the end.
   */
  predicate DotTail(s: string, p: nat) {
    p + 1 < |s| && s[p] == '.' && forall k :: p < k < |s| ==> !IsLineTerminator(s[k])
  }

  /** Leftmost position at or after `p` where `DotTail` holds. */
  function DotSuffixFrom(s: string, p: nat): (r: Option<nat>)
    ensures r.Some? ==> p <= r.value && DotTail(s, r.value)
    ensures forall q: nat :: p <= q && DotTail(s, q) ==> r.Some? && r.value <= q
    decreases |s| - p
  {
    if p + 1 >= |s| then None
    else if DotTail(s, p) then Some(p)
    else DotSuffixFrom(s, p + 1)
  }

  /** Removes a dot and everything after it: `/\..+$/`, at its leftmost match. */
  function RemoveDotSuffix(s: string): (r: string)
    ensures |r| <= |s| && r == s[..|r|]
    ensures |r| < |s| ==> DotTail(s, |r|)
    ensures forall q: nat :: DotTail(s, q) ==> |r| <= q
  {
    match DotSuffixFrom(s, 0)
    case None => s
    case Some(p) => s[..p]
  }

  /** The last `|lit|` characters of `s`, upper-cased, are `lit` (`lit` is written upper-case). */
  predicate EndsWithAnyCase(s: string, lit: string) {
    |lit| <= |s| && MatchAnyCaseFrom(s, |s| - |lit|, lit, 0)
  }

  predicate MatchAnyCaseFrom(s: string, i: nat, lit: string, k: nat)
    decreases |lit| - k
  {
    k >= |lit| || (i + k < |s| && UpChar(s[i + k]) == lit[k] && MatchAnyCaseFrom(s, i, lit, k + 1))
  }

  /** `s.replace(/<lit>$/i, '')` for a literal `lit`. */
  function StripSuffixAnyCase(s: string, lit: string): (r: string)
    ensures |r| <= |s| && r == s[..|r|]
    ensures |r| < |s| ==> |r| == |s| - |lit| && EndsWithAnyCase(s, lit)
    ensures EndsWithAnyCase(s, lit) ==> r == s[..|s| - |lit|]
  {
    if EndsWithAnyCase(s, lit) then s[..|s| - |lit|] else s
  }

  /** `s[p..]` is `open`, `width` letters and `close`, up to the end. */
  predicate BracketTail(s: string, p: nat, open: char, width: nat, close: char) {
    p + width + 2 == |s| && s[p] == open && s[|s| - 1] == close && AllIn(s, p + 1, |s| - 1, Letter)
  }

  /** `s.replace(/<open>[A-Z]{width}<close>$/i, '')` */
  function StripBracketedLetters(s: string, open: char, width: nat, close: char): (r: string)
    ensures |r| <= |s| && r == s[..|r|]
    ensures |r| < |s| ==> BracketTail(s, |r|, open, width, close)
    ensures forall p: nat :: BracketTail(s, p, open, width, close) ==> r == s[..p]
  {
    var n := |s|;
    if n >= width + 2 && BracketTail(s, n - width - 2, open, width, close) then s[..n - width - 2]
    else s
  }

  /** `s[p..]` is a dot and one to three letters: `\.[A-Z]{1,3}$` under the `i` flag. */
  predicate DotLettersTail(s: string, p: nat) {
    p + 2 <= |s| <= p + 4 && s[p] == '.' && AllIn(s, p + 1, |s|, Letter)
  }

  /** `s.replace(/\.[A-Z]{1,3}$/i, '')`: the leftmost dot that starts one to three final letters. */
  function StripDotLetters(s: string): (r: string)
    ensures |r| <= |s| && r == s[..|r|]
    ensures |r| < |s| ==> DotLettersTail(s, |r|)
    ensures forall p: nat :: DotLettersTail(s, p) ==> |r| <= p
  {
    var n := |s|;
    if n >= 4 && s[n - 4] == '.' && Span(s, n - 3, Letter) == n then s[..n - 4]
    else if n >= 3 && s[n - 3] == '.' && Span(s, n - 2, Letter) == n then s[..n - 3]
    else if n >= 2 && s[n - 2] == '.' && IsLetter(s[n - 1]) then s[..n - 2]
    else s
  }

  /** `lit` is written upper-case: an any-case ending is a character-wise match after upper-casing. */
  lemma EndsWithAnyCaseMeaning(s: string, lit: string)
    ensures EndsWithAnyCase(s, lit) <==>
      |lit| <= |s| && forall m :: 0 <= m < |lit| ==> UpChar(s[|s| - |lit| + m]) == lit[m]
  {
    if |lit| <= |s| {
      MatchAnyCaseFromMeaning(s, |s| - |lit|, lit, 0);
    }
  }

  lemma {:induction false} MatchAnyCaseFromMeaning(s: string, i: nat, lit: string, k: nat)
    requires k <= |lit| && i + |lit| <= |s|
    ensures MatchAnyCaseFrom(s, i, lit, k) <==> forall m :: k <= m < |lit| ==> UpChar(s[i + m]) == lit[m]
    decreases |lit| - k
  {
    if k < |lit| {
      MatchAnyCaseFromMeaning(s, i, lit, k + 1);
    }
  }

  /** The nine company-suffix rewrites, applied in order. */
  function CleanCompanySuffix(s: string): (r: string)
    ensures |r| <= |s| && r == s[..|r|]
  {
    var a := StripSuffixAnyCase(s, ".CAV");
    var b := StripSuffixAnyCase(a, ".CAV");
    var c := StripSuffixAnyCase(b, ".WA");
    var d := StripSuffixAnyCase(c, ".(LB)");
    var e := StripSuffixAnyCase(d, "(LB)");
    var f := StripBracketedLetters(e, '{', 1, '}');
    var g := StripBracketedLetters(f, '{', 2, '}');
    var h := StripBracketedLetters(g, '[', 1, ']');
    PrefixChain(s, a, b, c, d);
    PrefixChain(d, e, f, g, h);
    PrefixChain(s, d, h, StripDotLetters(h), StripDotLetters(h));
    StripDotLetters(h)
  }

  lemma PrefixChain(s: string, a: string, b: string, c: string, d: string)
    requires |a| <= |s| && a == s[..|a|] && |b| <= |a| && b == a[..|b|]
    requires |c| <= |b| && c == b[..|c|] && |d| <= |c| && d == c[..|d|]
    ensures d == s[..|d|]
  {
    assert b == s[..|b|];
    assert c == s[..|c|];
  }

  /**
   * A company suffix of length `m` ends `s`: `.CAV`, `.WA`, `.(LB)` or
   * `(LB)` in any case, one or two letters in braces, one letter in
   * brackets, or a dot and one to three letters.
   */
  predicate CompanySuffix(s: string, m: nat) {
    || (m == 4 && EndsWithAnyCase(s, ".CAV"))
    || (m == 3 && EndsWithAnyCase(s, ".WA"))
    || (m == 5 && EndsWithAnyCase(s, ".(LB)"))
    || (m == 4 && EndsWithAnyCase(s, "(LB)"))
    || (m <= |s| && BracketTail(s, |s| - m, '{', 1, '}'))
    || (m <= |s| && BracketTail(s, |s| - m, '{', 2, '}'))
    || (m <= |s| && BracketTail(s, |s| - m, '[', 1, ']'))
    || (m <= |s| && DotLettersTail(s, |s| - m))
  }

  /** Whatever company suffix a tag ends with is cut, together with anything an earlier rewrite cut. */
  lemma CleanCompanySuffixCuts(s: string, m: nat)
    requires CompanySuffix(s, m)
    ensures |CleanCompanySuffix(s)| <= |s| - m
  {
    var n := |s|;
    if EndsWithAnyCase(s, ".CAV") {
      EndsWithAnyCaseChar(s, ".CAV", 3);
    } else if EndsWithAnyCase(s, ".WA") {
      EndsWithAnyCaseChar(s, ".WA", 2);
      EndsWithAnyCaseChar(s, ".WA", 0);
      assert StripSuffixAnyCase(s, ".CAV") == s;
    } else {
      assert StripSuffixAnyCase(StripSuffixAnyCase(StripSuffixAnyCase(s, ".CAV"), ".CAV"), ".WA") == s;
      if EndsWithAnyCase(s, ".(LB)") || EndsWithAnyCase(s, "(LB)") {
        if EndsWithAnyCase(s, ".(LB)") {
          EndsWithAnyCaseChar(s, ".(LB)", 4);
        } else {
          EndsWithAnyCaseChar(s, "(LB)", 3);
        }
      } else {
        assert StripSuffixAnyCase(StripSuffixAnyCase(s, ".(LB)"), "(LB)") == s;
        BracketSteps(s, m);
      }
    }
  }

  /** With none of the literal endings present, the bracket and dot rewrites decide. */
  lemma BracketSteps(s: string, m: nat)
    requires CompanySuffix(s, m)
    requires !EndsWithAnyCase(s, ".CAV") && !EndsWithAnyCase(s, ".WA")
    requires !EndsWithAnyCase(s, ".(LB)") && !EndsWithAnyCase(s, "(LB)")
    ensures |StripDotLetters(StripBracketedLetters(StripBracketedLetters(StripBracketedLetters(s, '{', 1, '}'), '{', 2, '}'), '[', 1, ']'))| <= |s| - m
  {
    var f := StripBracketedLetters(s, '{', 1, '}');
    var g := StripBracketedLetters(f, '{', 2, '}');
    var h := StripBracketedLetters(g, '[', 1, ']');
    if m <= |s| && DotLettersTail(s, |s| - m) {
      assert f == s && g == s && h == s;
    } else if m <= |s| && BracketTail(s, |s| - m, '{', 2, '}') {
      assert f == s;
    } else if m <= |s| && BracketTail(s, |s| - m, '[', 1, ']') {
      assert f == s && g == s;
    }
  }

  lemma EndsWithAnyCaseChar(s: string, lit: string, k: nat)
    requires EndsWithAnyCase(s, lit) && k < |lit|
    ensures UpChar(s[|s| - |lit| + k]) == lit[k]
  {
    EndsWithAnyCaseMeaning(s, lit);
  }

  /** `\d+(?:st|nd|rd|th)?` (the ordinal in any case) spans `s[p..e]`. */
  predicate NumberPart(s: string, p: nat, e: nat) {
    p < e && (AllIn(s, p, e, Digit) || (p + 2 < e && AllIn(s, p, e - 2, Digit) && e <= |s| && IsOrdinalAnyCase(s[e - 2], s[e - 1])))
  }

  /** The greedy `[A-Z][a-z]{2,}` (any case) spans `s[e..b]`. */
  predicate StatePart(s: string, e: nat, b: nat) {
    e + 3 <= b && AllIn(s, e, b, Letter) && (b == |s| || !IsLetter(s[b]))
  }

  /** `(\d+(?:st|nd|rd|th)?)([A-Z][a-z]{2,})` matches at `p` with the number part ending at `e`. */
  predicate StateMatch(s: string, p: nat, e: nat, b: nat) {
    NumberPart(s, p, e) && StatePart(s, e, b)
  }

  /**
   * The match of the state pattern starting at `p`, as the end of the number
   * part and the end of the state part; the optional ordinal is tried first,
   * so of the possible number parts the longer one is taken.
   */
  function StateMatchAt(s: string, p: nat): (r: Option<(nat, nat)>)
    requires p <= |s|
    ensures r.Some? ==> StateMatch(s, p, r.value.0, r.value.1)
    ensures forall e: nat, b: nat :: StateMatch(s, p, e, b) ==> r.Some? && e <= r.value.0
  {
    StateMatchAtComplete(s, p);
    var d := Span(s, p, Digit);
    if d == p then None
    else if d + 2 <= |s| && IsOrdinalAnyCase(s[d], s[d + 1]) && Span(s, d + 2, Letter) >= d + 5 then
      Some((d + 2, Span(s, d + 2, Letter)))
    else if Span(s, d, Letter) >= d + 3 then Some((d, Span(s, d, Letter)))
    else None
  }

  /** A match at `p` can only end its number part at the digit run or after an ordinal following it. */
  lemma StateMatchAtComplete(s: string, p: nat)
    requires p <= |s|
    ensures forall e: nat, b: nat :: StateMatch(s, p, e, b) ==>
      var d := Span(s, p, Digit);
      && (e == d || (e == d + 2 && d + 2 <= |s| && IsOrdinalAnyCase(s[d], s[d + 1])))
      && Span(s, e, Letter) == b
  {
    forall e: nat, b: nat | StateMatch(s, p, e, b)
      ensures var d := Span(s, p, Digit);
        && (e == d || (e == d + 2 && d + 2 <= |s| && IsOrdinalAnyCase(s[d], s[d + 1])))
        && Span(s, e, Letter) == b
    {
      SpanEnd(s, e, b, Letter);
      if AllIn(s, p, e, Digit) {
        SpanEnd(s, p, e, Digit);
      } else {
        SpanEnd(s, p, e - 2, Digit);
      }
    }
  }

  lemma StatePartUnique(s: string, e: nat, b1: nat, b2: nat)
    requires StatePart(s, e, b1) && StatePart(s, e, b2)
    ensures b1 == b2
  {
    SpanEnd(s, e, b1, Letter);
    SpanEnd(s, e, b2, Letter);
  }

  /** The regular expression's search: the match at the first position from `p` where there is one. */
  function StateSearch(s: string, p: nat): (r: Option<(nat, nat)>)
    requires p <= |s|
    ensures r.Some? ==> r.value.0 + 3 <= r.value.1 <= |s|
    decreases |s| - p
  {
    if p == |s| then None
    else match StateMatchAt(s, p)
      case Some(m) => Some(m)
      case None => StateSearch(s, p + 1)
  }

  /** The match the regular expression reports: leftmost start, then the longer number part. */
  ghost predicate FirstStateMatch(s: string, p: nat, e: nat, b: nat) {
    && StateMatch(s, p, e, b)
    && (forall q: nat, e': nat, b': nat :: q < p ==> !StateMatch(s, q, e', b'))
    && (forall e': nat, b': nat :: StateMatch(s, p, e', b') ==> e' <= e)
  }

  /**
   * `s.replace(/(\d+(?:st|nd|rd|th)?)([A-Z][a-z]{2,})/i, ...)`: the first
   * state name after a number is cut to its first two letters, upper-cased;
   * without such a name the tag is kept.
   */
  function TruncateState(s: string): (r: string)
    ensures (forall p: nat, e: nat, b: nat :: !StateMatch(s, p, e, b)) ==> r == s
    ensures forall p: nat, e: nat, b: nat :: FirstStateMatch(s, p, e, b) ==>
      r == s[..e] + Upper(s[e..e + 2]) + s[b..]
  {
    StateSearchNone(s, 0);
    forall p: nat, e: nat, b: nat | FirstStateMatch(s, p, e, b)
      ensures StateSearch(s, 0) == Some((e, b))
    {
      FirstStateMatchSteps(s, p, e, b);
      StateSearchSkip(s, 0, p);
    }
    match StateSearch(s, 0)
    case None => s
    case Some((numEnd, stateEnd)) => s[..numEnd] + Upper(s[numEnd..numEnd + 2]) + s[stateEnd..]
  }

  lemma {:induction false} StateSearchNone(s: string, p: nat)
    requires p <= |s|
    ensures (forall q: nat, e: nat, b: nat :: p <= q ==> !StateMatch(s, q, e, b)) ==> StateSearch(s, p) == None
    decreases |s| - p
  {
    if p < |s| && forall q: nat, e: nat, b: nat :: p <= q ==> !StateMatch(s, q, e, b) {
      assert StateMatchAt(s, p).None?;
      StateSearchNone(s, p + 1);
    }
  }

  /** No match of the state pattern starts in `s[p..q]`. */
  predicate NoStateMatchIn(s: string, p: nat, q: nat)
    requires q <= |s|
  {
    forall k: nat :: p <= k < q ==> StateMatchAt(s, k).None?
  }

  /** The search passes positions without a match. */
  lemma {:induction false} StateSearchSkip(s: string, p: nat, q: nat)
    requires p <= q <= |s| && NoStateMatchIn(s, p, q)
    ensures StateSearch(s, p) == StateSearch(s, q)
    decreases q - p
  {
    if p < q {
      assert StateMatchAt(s, p).None?;
      StateSearchSkip(s, p + 1, q);
    }
  }

  /** The first match, as the position-by-position facts the search goes through. */
  lemma FirstStateMatchSteps(s: string, p: nat, e: nat, b: nat)
    requires FirstStateMatch(s, p, e, b)
    ensures p < |s| && NoStateMatchIn(s, 0, p) && StateMatchAt(s, p) == Some((e, b))
  {
    forall k: nat | k < p
      ensures StateMatchAt(s, k).None?
    {
      NoStateMatchBefore(s, k, p, e, b);
    }
    var m := StateMatchAt(s, p);
    StatePartUnique(s, e, m.value.1, b);
  }

  lemma NoStateMatchBefore(s: string, p: nat, q: nat, e: nat, b: nat)
    requires p < q && p <= |s| && FirstStateMatch(s, q, e, b)
    ensures StateMatchAt(s, p).None?
  {
  }

  /** The rewrite a rule's `normalize` setting selects ("" when the rule has none). */
  function ApplyKind(s: string, kind: string): string
  {
    if kind == "removeSpaces" then Remove(s, Space)
    else if kind == "removeDash" then Remove(s, Is('-'))
    else if kind == "removeDotSuffix" then RemoveDotSuffix(s)
    else if kind == "cleanCompanySuffix" then CleanCompanySuffix(s)
    else if kind == "truncateState" then TruncateState(s)
    else s
  }

  // ------------------------------------------------------------------
  // Final canonicalisation
  // ------------------------------------------------------------------

  /**
   * `s.replace(/(\d+)(ST|ND|RD|TH)/g, ...)` lowering each ordinal that
   * directly follows a digit; `afterDigit` says whether the previous
   * character was a digit.
   */
  function LowerOrdinalsFrom(s: string, i: nat, afterDigit: bool): (r: string)
    requires i <= |s|
    ensures |r| == |s| - i
    decreases |s| - i
  {
    if i == |s| then []
    else if afterDigit && i + 1 < |s| && IsOrdinalUpper(s[i], s[i + 1]) then
      [LowChar(s[i]), LowChar(s[i + 1])] + LowerOrdinalsFrom(s, i + 2, false)
    else [s[i]] + LowerOrdinalsFrom(s, i + 1, IsDigit(s[i]))
  }

  function LowerOrdinals(s: string): (r: string)
    ensures |r| == |s|
  {
    LowerOrdinalsFrom(s, 0, false)
  }

  /** An upper-case ordinal starts at `k` right after a digit. */
  predicate OrdinalStart(t: string, k: int) {
    1 <= k && k + 1 < |t| && IsDigit(t[k - 1]) && IsOrdinalUpper(t[k], t[k + 1])
  }

  /** The ordinal pass lowers exactly the characters of ordinals that follow a digit. */
  function OrdinalChar(t: string, k: nat): char
    requires k < |t|
  {
    if OrdinalStart(t, k) || OrdinalStart(t, k - 1) then LowChar(t[k]) else t[k]
  }

  lemma {:induction false} LowerOrdinalsFromChars(t: string, i: nat, afterDigit: bool)
    requires i <= |t|
    requires afterDigit == (i >= 1 && IsDigit(t[i - 1]))
    requires !OrdinalStart(t, i - 1)
    ensures forall k :: i <= k < |t| ==> LowerOrdinalsFrom(t, i, afterDigit)[k - i] == OrdinalChar(t, k)
    decreases |t| - i
  {
    if i < |t| {
      var r := LowerOrdinalsFrom(t, i, afterDigit);
      if afterDigit && i + 1 < |t| && IsOrdinalUpper(t[i], t[i + 1]) {
        LowerOrdinalsFromChars(t, i + 2, false);
        assert OrdinalStart(t, i);
      } else {
        LowerOrdinalsFromChars(t, i + 1, IsDigit(t[i]));
      }
    }
  }

  /** Character-by-character meaning of the ordinal pass. */
  lemma LowerOrdinalsChars(t: string)
    ensures forall k :: 0 <= k < |t| ==> LowerOrdinals(t)[k] == OrdinalChar(t, k)
  {
    LowerOrdinalsFromChars(t, 0, false);
  }

  /**
   * Normalises a regiment tag: company-letter and asterisk suffixes are cut,
   * the rule's own rewrite is applied, whitespace is removed, the tag is
   * upper-cased, ordinals after a number are lower-cased and the result is
   * trimmed.
   */
  function Normalize(regiment: string, kind: string): string
  {
    var a := StripSpacedLetter(StripTrailingStars(StripDotLetter(regiment)));
    var t := Upper(Remove(ApplyKind(a, kind), Space));
    Trim(LowerOrdinals(t))
  }

  /** An ordinal suffix in lower case sits at `k` (first or second letter), right after a digit. */
  predicate InLowerOrdinal(r: string, k: int) {
    || (1 <= k && k + 1 < |r| && IsDigit(r[k - 1]) && IsOrdinalLower(r[k], r[k + 1]))
    || (2 <= k < |r| && IsDigit(r[k - 2]) && IsOrdinalLower(r[k - 1], r[k]))
  }

  /**
   * The shape of every normalised tag: no whitespace, no lower-case letter
   * except in an ordinal right after a digit, and no upper-case ordinal right
   * after a digit.
   */
  predicate Canonical(r: string) {
    && (forall k :: 0 <= k < |r| ==> !IsSpace(r[k]))
    && (forall k :: 0 <= k < |r| ==> IsLower(r[k]) ==> InLowerOrdinal(r, k))
    && (forall k :: 1 <= k < |r| - 1 ==> IsDigit(r[k - 1]) ==> !IsOrdinalUpper(r[k], r[k + 1]))
  }

  /** The output of the last two steps on a string with no whitespace and no lower-case letter. */
  lemma OrdinalPassCanonical(t: string)
    requires forall k :: 0 <= k < |t| ==> !IsSpace(t[k]) && !IsLower(t[k])
    ensures Canonical(LowerOrdinals(t))
    ensures Trim(LowerOrdinals(t)) == LowerOrdinals(t)
  {
    var r := LowerOrdinals(t);
    LowerOrdinalsChars(t);
    assert forall k :: 0 <= k < |t| ==> !IsSpace(r[k]);
    OrdinalPassLowerPlaces(t);
    OrdinalPassNoUpperOrdinal(t);
    TrimNoSpace(r);
  }

  /** After the ordinal pass a lower-case letter only occurs inside an ordinal that follows a digit. */
  lemma OrdinalPassLowerPlaces(t: string)
    requires forall k :: 0 <= k < |t| ==> !IsLower(t[k])
    ensures var r := LowerOrdinals(t);
      forall k :: 0 <= k < |r| && IsLower(r[k]) ==> InLowerOrdinal(r, k)
  {
    var r := LowerOrdinals(t);
    LowerOrdinalsChars(t);
    assert forall k :: 0 <= k < |t| ==> (IsDigit(r[k]) <==> IsDigit(t[k]));
    forall k | 0 <= k < |r| && IsLower(r[k])
      ensures InLowerOrdinal(r, k)
    {
      if OrdinalStart(t, k) {
        assert r[k + 1] == LowChar(t[k + 1]);
      } else {
        assert OrdinalStart(t, k - 1);
        assert r[k - 1] == LowChar(t[k - 1]);
      }
    }
  }

  /** After the ordinal pass no upper-case ordinal follows a digit. */
  lemma OrdinalPassNoUpperOrdinal(t: string)
    requires forall k :: 0 <= k < |t| ==> !IsLower(t[k])
    ensures var r := LowerOrdinals(t);
      forall k :: 1 <= k < |r| - 1 ==> IsDigit(r[k - 1]) ==> !IsOrdinalUpper(r[k], r[k + 1])
  {
    var r := LowerOrdinals(t);
    LowerOrdinalsChars(t);
    assert forall k :: 0 <= k < |t| ==> (IsDigit(r[k]) <==> IsDigit(t[k]));
    forall k | 1 <= k < |r| - 1 && IsDigit(r[k - 1])
      ensures !IsOrdinalUpper(r[k], r[k + 1])
    {
    }
  }

  /** Every normalised tag is canonical. */
  lemma NormalizeCanonical(regiment: string, kind: string)
    ensures Canonical(Normalize(regiment, kind))
  {
    var a := StripSpacedLetter(StripTrailingStars(StripDotLetter(regiment)));
    var t := Upper(Remove(ApplyKind(a, kind), Space));
    UpperWithoutSpaces(ApplyKind(a, kind));
    OrdinalPassCanonical(t);
  }

  /** With whitespace removed and letters upper-cased no whitespace and no lower-case letter is left. */
  lemma UpperWithoutSpaces(x: string)
    ensures var t := Upper(Remove(x, Space));
      forall k :: 0 <= k < |t| ==> !IsSpace(t[k]) && !IsLower(t[k])
  {
    var u := Remove(x, Space);
    assert forall k :: 0 <= k < |u| ==> !In(u[k], Space);
    var t := Upper(u);
    assert forall k :: 0 <= k < |t| ==> t[k] == UpChar(u[k]);
  }

  /** Upper-casing undoes the ordinal pass on a string with no lower-case letter. */
  lemma UpperLowerOrdinals(t: string)
    requires forall k :: 0 <= k < |t| ==> !IsLower(t[k])
    ensures Upper(LowerOrdinals(t)) == t
  {
    LowerOrdinalsChars(t);
  }

  /** Upper-casing followed by the ordinal pass is idempotent. */
  lemma CaseStepsIdempotent(s: string)
    ensures LowerOrdinals(Upper(LowerOrdinals(Upper(s)))) == LowerOrdinals(Upper(s))
  {
    UpperLowerOrdinals(Upper(s));
  }

  /** The settings that select a rule-specific rewrite. */
  predicate HasRewrite(kind: string) {
    kind == "removeSpaces" || kind == "removeDash" || kind == "removeDotSuffix"
    || kind == "cleanCompanySuffix" || kind == "truncateState"
  }

  lemma SuffixStripsKeepUpperWord(s: string)
    requires forall k :: 0 <= k < |s| ==> IsUpper(s[k])
    ensures StripSpacedLetter(StripTrailingStars(StripDotLetter(s))) == s
  {
    assert StripDotLetter(s) == s;
    assert BackSpan(s, |s|, Is('*')) == |s|;
    assert s[..|s|] == s;
    if |s| >= 1 {
      assert BackSpan(s, |s| - 1, Space) == |s| - 1;
    }
  }

  lemma CaseStepsKeepUpperWord(s: string)
    requires forall k :: 0 <= k < |s| ==> IsUpper(s[k])
    ensures Trim(LowerOrdinals(Upper(Remove(s, Space)))) == s
  {
    assert Remove(s, Space) == s;
    assert Upper(s) == s;
    LowerOrdinalsChars(s);
    assert LowerOrdinals(s) == s;
    TrimNoSpace(s);
  }

  /** A tag of upper-case letters only, for a rule without its own rewrite, is kept as it is. */
  lemma NormalizeKeepsUpperWord(s: string, kind: string)
    requires forall k :: 0 <= k < |s| ==> IsUpper(s[k])
    requires !HasRewrite(kind)
    ensures Normalize(s, kind) == s
  {
    SuffixStripsKeepUpperWord(s);
    assert ApplyKind(s, kind) == s;
    CaseStepsKeepUpperWord(s);
  }

  /**
   * A canonical tag with no dot and no asterisk is a fixed point of
   * normalisation under a rule without a rewrite of its own; a tag with a
   * dot need not be (a dot and a final letter are cut again).
   */
  lemma NormalizeKeepsCanonical(t: string, kind: string)
    requires Canonical(t) && forall k :: 0 <= k < |t| ==> t[k] != '.' && t[k] != '*'
    requires !HasRewrite(kind)
    ensures Normalize(t, kind) == t
  {
    CanonicalSuffixCuts(t);
    assert ApplyKind(t, kind) == t;
    assert Remove(t, Space) == t;
    CanonicalCaseSteps(t);
    TrimNoSpace(t);
  }

  /** No end of a canonical tag without dots and asterisks is cut. */
  lemma CanonicalSuffixCuts(t: string)
    requires Canonical(t) && forall k :: 0 <= k < |t| ==> t[k] != '.' && t[k] != '*'
    ensures StripSpacedLetter(StripTrailingStars(StripDotLetter(t))) == t
  {
    assert StripDotLetter(t) == t;
    assert StripTrailingStars(t) == t;
  }

  /** Upper-casing a canonical tag and lowering its ordinals again gives it back. */
  lemma CanonicalCaseSteps(t: string)
    requires Canonical(t)
    ensures LowerOrdinals(Upper(t)) == t
  {
    LowerOrdinalsChars(Upper(t));
    forall k | 0 <= k < |t|
      ensures OrdinalChar(Upper(t), k) == t[k]
    {
      CanonicalCaseChar(t, k);
    }
  }

  lemma CanonicalCaseChar(t: string, k: nat)
    requires Canonical(t) && k < |t|
    ensures OrdinalChar(Upper(t), k) == t[k]
  {
    var u := Upper(t);
    if OrdinalStart(u, k) {
      CanonicalOrdinalPair(t, k);
    } else if OrdinalStart(u, k - 1) {
      CanonicalOrdinalPair(t, k - 1);
    } else if IsLower(t[k]) {
      assert InLowerOrdinal(t, k);
      if 1 <= k && k + 1 < |t| && IsDigit(t[k - 1]) && IsOrdinalLower(t[k], t[k + 1]) {
        assert OrdinalStart(u, k);
      } else {
        assert OrdinalStart(u, k - 1);
      }
    }
  }

  /** In a canonical tag an ordinal after a digit, whatever its case once upper-cased, is written in lower case. */
  lemma CanonicalOrdinalPair(t: string, k: nat)
    requires Canonical(t) && 1 <= k && k + 1 < |t| && IsDigit(t[k - 1])
    requires IsOrdinalUpper(UpChar(t[k]), UpChar(t[k + 1]))
    ensures IsOrdinalLower(t[k], t[k + 1])
  {
    if IsLower(t[k + 1]) {
      assert InLowerOrdinal(t, k + 1);
    }
    if IsLower(t[k]) {
      assert InLowerOrdinal(t, k);
    }
  }

  /** "Uncategorized" is not the shape of a normalised tag. */
  lemma UncategorizedNotCanonical()
    ensures !Canonical("Uncategorized")
  {
    var u := "Uncategorized";
    assert IsLower(u[1]);
    assert !InLowerOrdinal(u, 1);
  }

  // ------------------------------------------------------------------
  // Rules and extraction
  // ------------------------------------------------------------------

  /**
   * One configured rule: `matcher` stands for `name.match(new RegExp(pattern, 'i'))`
   * (`None` for no match, else the groups with the whole match first and
   * `None` for a group that did not take part); `extractGroup` 0 means the
   * setting is absent; `normalize` "" means it is absent.
   */
  datatype Rule = Rule(name: string, matcher: string -> Option<seq<Option<string>>>, extractGroup: nat, normalize: string)

  /** `match[k]` */
  function Group(groups: seq<Option<string>>, k: nat): Option<string>
  {
    if k < |groups| then groups[k] else None
  }

  /** `value?.trim()` */
  function TrimOpt(o: Option<string>): (r: Option<string>)
    ensures r.Some? == o.Some?
  {
    match o
    case None => None
    case Some(v) => Some(Trim(v))
  }

  /** JavaScript truthiness of a possibly missing string. */
  predicate Truthy(o: Option<string>) {
    o.Some? && o.value != ""
  }

  /** The fixed code a clan rule yields, if `kind` names one. */
  function ClanCode(kind: string): Option<string>
  {
    if kind == "extractCB" then Some("CB")
    else if kind == "extractCQB" then Some("CQB")
    else if kind == "extractTKO" then Some("TKO")
    else if kind == "extractJD" then Some("JD")
    else if kind == "extractV" then Some("V")
    else None
  }

  /** The regiment a matching rule yields from its groups. */
  function RuleRegiment(rule: Rule, groups: seq<Option<string>>): Option<string>
  {
    var g := if rule.extractGroup == 0 then 1 else rule.extractGroup;
    var picked := if Truthy(TrimOpt(Group(groups, g))) then TrimOpt(Group(groups, g)) else TrimOpt(Group(groups, 1));
    var r := if ClanCode(rule.normalize).Some? then ClanCode(rule.normalize) else picked;
    if Truthy(r) then Some(Normalize(r.value, rule.normalize)) else r
  }

  /** The regiment of a player: the first matching rule decides, else "Uncategorized". */
  function ExtractRegiment(rules: seq<Rule>, playerName: string): Option<string>
  {
    if rules == [] then Some("Uncategorized")
    else match rules[0].matcher(playerName)
      case Some(groups) => RuleRegiment(rules[0], groups)
      case None => ExtractRegiment(rules[1..], playerName)
  }

  /** The first rule that matches decides the result, whatever rules follow it. */
  lemma {:induction false} FirstMatchDecides(rules: seq<Rule>, playerName: string, i: nat)
    requires i < |rules| && rules[i].matcher(playerName).Some?
    requires forall j :: 0 <= j < i ==> rules[j].matcher(playerName).None?
    ensures ExtractRegiment(rules, playerName) == RuleRegiment(rules[i], rules[i].matcher(playerName).value)
  {
    if i > 0 {
      var rest := rules[1..];
      assert rest[i - 1] == rules[i];
      forall j | 0 <= j < i - 1
        ensures rest[j].matcher(playerName).None?
      {
        assert rest[j] == rules[j + 1];
      }
      assert rules[0].matcher(playerName).None?;
      calc {
        ExtractRegiment(rules, playerName);
        ExtractRegiment(rest, playerName);
        { FirstMatchDecides(rest, playerName, i - 1); }
        RuleRegiment(rules[i], rules[i].matcher(playerName).value);
      }
    }
  }

  /** Rules after a matching one are never consulted. */
  lemma LaterRulesIrrelevant(rules: seq<Rule>, more: seq<Rule>, playerName: string, i: nat)
    requires i < |rules| && rules[i].matcher(playerName).Some?
    requires forall j :: 0 <= j < i ==> rules[j].matcher(playerName).None?
    ensures ExtractRegiment(rules + more, playerName) == ExtractRegiment(rules, playerName)
  {
    FirstMatchDecides(rules, playerName, i);
    FirstMatchDecides(rules + more, playerName, i);
  }

  /** A clan rule always yields its fixed code. */
  lemma ClanRuleYieldsCode(rule: Rule, groups: seq<Option<string>>)
    requires ClanCode(rule.normalize).Some?
    ensures RuleRegiment(rule, groups) == ClanCode(rule.normalize)
  {
    var code := ClanCode(rule.normalize).value;
    NormalizeKeepsUpperWord(code, rule.normalize);
  }

  /** Every non-empty regiment a rule yields is a normalised tag. */
  lemma RuleRegimentCanonical(rule: Rule, groups: seq<Option<string>>)
    ensures Truthy(RuleRegiment(rule, groups)) ==> Canonical(RuleRegiment(rule, groups).value)
  {
    var g := if rule.extractGroup == 0 then 1 else rule.extractGroup;
    var picked := if Truthy(TrimOpt(Group(groups, g))) then TrimOpt(Group(groups, g)) else TrimOpt(Group(groups, 1));
    var r := if ClanCode(rule.normalize).Some? then ClanCode(rule.normalize) else picked;
    if Truthy(r) {
      NormalizeCanonical(r.value, rule.normalize);
    }
  }

  /** A matching rule never yields "Uncategorized". */
  lemma RuleNeverUncategorized(rule: Rule, groups: seq<Option<string>>)
    ensures RuleRegiment(rule, groups) != Some("Uncategorized")
  {
    RuleRegimentCanonical(rule, groups);
    UncategorizedNotCanonical();
  }

  /** The result is "Uncategorized" exactly when no rule matches. */
  lemma {:induction false} UncategorizedIffNoMatch(rules: seq<Rule>, playerName: string)
    ensures ExtractRegiment(rules, playerName) == Some("Uncategorized")
            <==> forall j :: 0 <= j < |rules| ==> rules[j].matcher(playerName).None?
  {
    if rules != [] {
      UncategorizedIffNoMatch(rules[1..], playerName);
      match rules[0].matcher(playerName)
      case Some(groups) => RuleNeverUncategorized(rules[0], groups);
      case None =>
        assert forall j :: 1 <= j < |rules| ==> rules[j] == rules[1..][j - 1];
    }
  }

  /** A matched name yields no regiment only when the picked group is missing and the rule is not a clan rule. */
  lemma MissingRegiment(rule: Rule, groups: seq<Option<string>>)
    ensures RuleRegiment(rule, groups) == None
            <==> ClanCode(rule.normalize).None?
                 && !Truthy(TrimOpt(Group(groups, if rule.extractGroup == 0 then 1 else rule.extractGroup)))
                 && Group(groups, 1).None?
  {
  }
}
