/**
 * Strings as JavaScript sees them for this program: character classes of its
 * regular expressions (`\d`, `\w`, `\s`, `.`), substring search
 * (`includes`/`indexOf`), ASCII case mapping, `trim`, number printing and
 * `padStart(2, '0')`.  Functions that are evaluated on literal strings walk an
 * index forward instead of slicing.
 */
module Text {
  import opened Optional

  // ------------------------------------------------------------------
  // Character classes
  // ------------------------------------------------------------------

  predicate IsDigit(c: char) { '0' <= c <= '9' }
  predicate IsUpper(c: char) { 'A' <= c <= 'Z' }
  predicate IsLower(c: char) { 'a' <= c <= 'z' }
  /** `[A-Z]` under the `i` flag. */
  predicate IsLetter(c: char) { IsUpper(c) || IsLower(c) }
  /** `\w` */
  predicate IsWordChar(c: char) { IsLetter(c) || IsDigit(c) || c == '_' }
  /** The characters `.` does not match. */
  predicate IsLineTerminator(c: char) {
    c == '\n' || c == '\r' || c == '\U{2028}' || c == '\U{2029}'
  }
  /** `\s`, which is also the set `String.prototype.trim` removes. */
  predicate IsSpace(c: char) {
    c == '\t' || c == '\n' || c == '\U{000B}' || c == '\U{000C}' || c == '\r' || c == ' '
    || c == '\U{00A0}' || c == '\U{1680}' || ('\U{2000}' <= c <= '\U{200A}')
    || c == '\U{2028}' || c == '\U{2029}' || c == '\U{202F}' || c == '\U{205F}'
    || c == '\U{3000}' || c == '\U{FEFF}'
  }

  /** A regular-expression character class. */
  datatype CharClass =
    | Digit                   // \d
    | Letter                  // [A-Z] under the i flag
    | Space                   // \s
    | Word                    // \w
    | LineTerminator          // what . does not match
    | Is(c: char)             // one literal character
    | OneOf(cs: seq<char>)    // [...]
    | NoneOf(cs: seq<char>)   // [^...]

  predicate In(c: char, k: CharClass) {
    match k
    case Digit => IsDigit(c)
    case Letter => IsLetter(c)
    case Space => IsSpace(c)
    case Word => IsWordChar(c)
    case LineTerminator => IsLineTerminator(c)
    case Is(x) => c == x
    case OneOf(cs) => c in cs
    case NoneOf(cs) => c !in cs
  }

  /** `toUpperCase` on ASCII letters; other characters are kept. */
  function UpChar(c: char): (r: char)
    ensures IsLower(c) ==> IsUpper(r) && r as int == c as int - 32
    ensures !IsLower(c) ==> r == c
  {
    if IsLower(c) then (c as int - 32) as char else c
  }

  /** `toLowerCase` on ASCII letters; other characters are kept. */
  function LowChar(c: char): (r: char)
    ensures IsUpper(c) ==> IsLower(r) && r as int == c as int + 32
    ensures !IsUpper(c) ==> r == c
  {
    if IsUpper(c) then (c as int + 32) as char else c
  }

  // ------------------------------------------------------------------
  // Runs of characters
  // ------------------------------------------------------------------

  /** End of the longest run of characters satisfying `p` that starts at `i`. */
  function Span(s: string, i: nat, p: CharClass): (r: nat)
    requires i <= |s|
    ensures i <= r <= |s|
    ensures forall k :: i <= k < r ==> In(s[k], p)
    ensures r < |s| ==> !In(s[r], p)
    decreases |s| - i
  {
    if i < |s| && In(s[i], p) then Span(s, i + 1, p) else i
  }

  /** Every character of `s` in `[i, j)` belongs to `p`. */
  predicate AllIn(s: string, i: nat, j: nat, p: CharClass) {
    i <= j <= |s| && forall k :: i <= k < j ==> In(s[k], p)
  }

  /** A run that cannot be extended is the one `Span` finds. */
  lemma SpanEnd(s: string, i: nat, j: nat, p: CharClass)
    requires AllIn(s, i, j, p) && (j == |s| || !In(s[j], p))
    ensures Span(s, i, p) == j
  {
  }

  /** Start of the longest run of characters satisfying `p` that ends at `j`. */
  function BackSpan(s: string, j: nat, p: CharClass): (r: nat)
    requires j <= |s|
    ensures r <= j
    ensures forall k :: r <= k < j ==> In(s[k], p)
    ensures 0 < r ==> !In(s[r - 1], p)
  {
    if 0 < j && In(s[j - 1], p) then BackSpan(s, j - 1, p) else j
  }

  // ------------------------------------------------------------------
  // Substring search
  // ------------------------------------------------------------------

  predicate MatchFrom(s: string, i: nat, lit: string, k: nat)
    decreases |lit| - k
  {
    k >= |lit| || (i + k < |s| && s[i + k] == lit[k] && MatchFrom(s, i, lit, k + 1))
  }

  /** `lit` occurs in `s` at position `i`. */
  predicate MatchAt(s: string, i: nat, lit: string) {
    i + |lit| <= |s| && MatchFrom(s, i, lit, 0)
  }

  lemma {:induction false} MatchFromMeaning(s: string, i: nat, lit: string, k: nat)
    requires k <= |lit| && i + |lit| <= |s|
    ensures MatchFrom(s, i, lit, k) <==> forall m :: k <= m < |lit| ==> s[i + m] == lit[m]
    decreases |lit| - k
  {
    if k < |lit| {
      MatchFromMeaning(s, i, lit, k + 1);
    }
  }

  /** An occurrence is exactly an equal slice. */
  lemma MatchAtSlice(s: string, i: nat, lit: string)
    ensures MatchAt(s, i, lit) <==> i + |lit| <= |s| && s[i..i + |lit|] == lit
  {
    if i + |lit| <= |s| {
      MatchFromMeaning(s, i, lit, 0);
      if MatchAt(s, i, lit) {
        assert forall m :: 0 <= m < |lit| ==> s[i..i + |lit|][m] == lit[m];
      }
    }
  }

  /** `s.indexOf(lit, from)`, with `None` for -1. */
  function IndexOf(s: string, lit: string, from: nat): (r: Option<nat>)
    ensures r.Some? ==> from <= r.value && MatchAt(s, r.value, lit)
    ensures r.Some? ==> forall j :: from <= j < r.value ==> !MatchAt(s, j, lit)
    ensures r.None? ==> forall j :: from <= j ==> !MatchAt(s, j, lit)
    decreases |s| - from
  {
    if from + |lit| > |s| then None
    else if MatchAt(s, from, lit) then Some(from)
    else IndexOf(s, lit, from + 1)
  }

  /** No string made only of whitespace contains a literal with a non-space character. */
  lemma BlankContainsNothing(s: string, lit: string, k: nat)
    requires forall i :: 0 <= i < |s| ==> IsSpace(s[i])
    requires k < |lit| && !IsSpace(lit[k])
    ensures !Contains(s, lit)
  {
    if Contains(s, lit) {
      var j := IndexOf(s, lit, 0).value;
      MatchAtSlice(s, j, lit);
    }
  }

  /** `s.includes(lit)` */
  predicate Contains(s: string, lit: string) {
    IndexOf(s, lit, 0).Some?
  }

  lemma ContainsMeaning(s: string, lit: string)
    ensures Contains(s, lit) <==> exists j :: MatchAt(s, j, lit)
  {
    if Contains(s, lit) {
      var j := IndexOf(s, lit, 0).value;
      assert MatchAt(s, j, lit);
    }
  }

  // ------------------------------------------------------------------
  // Whole-string transformations
  // ------------------------------------------------------------------

  function UpperFrom(s: string, i: nat): (r: string)
    requires i <= |s|
    ensures |r| == |s| - i
    ensures forall k :: 0 <= k < |r| ==> r[k] == UpChar(s[i + k])
    decreases |s| - i
  {
    if i == |s| then [] else [UpChar(s[i])] + UpperFrom(s, i + 1)
  }

  /** `s.toUpperCase()` (ASCII letters only). */
  function Upper(s: string): (r: string)
    ensures |r| == |s|
    ensures forall k :: 0 <= k < |s| ==> r[k] == UpChar(s[k])
  {
    UpperFrom(s, 0)
  }

  function LowerFrom(s: string, i: nat): (r: string)
    requires i <= |s|
    ensures |r| == |s| - i
    ensures forall k :: 0 <= k < |r| ==> r[k] == LowChar(s[i + k])
    decreases |s| - i
  {
    if i == |s| then [] else [LowChar(s[i])] + LowerFrom(s, i + 1)
  }

  /** `s.toLowerCase()` (ASCII letters only). */
  function Lower(s: string): (r: string)
    ensures |r| == |s|
    ensures forall k :: 0 <= k < |s| ==> r[k] == LowChar(s[k])
  {
    LowerFrom(s, 0)
  }

  /** Upper-casing twice is upper-casing once. */
  lemma UpperIdempotent(s: string)
    ensures Upper(Upper(s)) == Upper(s)
  {
  }

  /** `s` without the characters satisfying `p` (`s.replace(/[...]/g, '')`). */
  function RemoveFrom(s: string, i: nat, p: CharClass): (r: string)
    requires i <= |s|
    ensures |r| <= |s| - i
    ensures forall k :: 0 <= k < |r| ==> !In(r[k], p)
    ensures forall k :: 0 <= k < |r| ==> r[k] in s[i..]
    ensures (forall k :: i <= k < |s| ==> !In(s[k], p)) ==> r == s[i..]
    decreases |s| - i
  {
    if i == |s| then []
    else if In(s[i], p) then RemoveFrom(s, i + 1, p)
    else [s[i]] + RemoveFrom(s, i + 1, p)
  }

  function Remove(s: string, p: CharClass): (r: string)
    ensures |r| <= |s|
    ensures forall k :: 0 <= k < |r| ==> !In(r[k], p)
    ensures forall k :: 0 <= k < |r| ==> r[k] in s
    ensures (forall k :: 0 <= k < |s| ==> !In(s[k], p)) ==> r == s
  {
    RemoveFrom(s, 0, p)
  }

  /** `s.trim()`: drops the whitespace at both ends. */
  function Trim(s: string): (r: string)
    ensures |r| <= |s|
    ensures r != [] ==> !IsSpace(r[0]) && !IsSpace(r[|r| - 1])
    ensures exists i, j ::
              && 0 <= i <= j <= |s| && r == s[i..j]
              && (forall k :: 0 <= k < i ==> IsSpace(s[k]))
              && (forall k :: j <= k < |s| ==> IsSpace(s[k]))
  {
    var i := Span(s, 0, Space);
    var j := BackSpan(s, |s|, Space);
    if j <= i then
      assert forall k :: j <= k < |s| ==> IsSpace(s[k]);
      assert s[i..i] == [];
      []
    else s[i..j]
  }

  /** A string trims to nothing exactly when it is all whitespace. */
  lemma TrimEmpty(s: string)
    ensures Trim(s) == [] <==> forall k :: 0 <= k < |s| ==> IsSpace(s[k])
  {
    var i := Span(s, 0, Space);
    var j := BackSpan(s, |s|, Space);
    if j > i {
      assert !IsSpace(s[i]);
    }
  }

  /** A string without whitespace is its own trim. */
  lemma TrimNoSpace(s: string)
    requires forall k :: 0 <= k < |s| ==> !IsSpace(s[k])
    ensures Trim(s) == s
  {
    assert Span(s, 0, Space) == 0;
    assert BackSpan(s, |s|, Space) == |s|;
    assert s[0..|s|] == s;
  }

  // ------------------------------------------------------------------
  // Numbers
  // ------------------------------------------------------------------

  function DigitChar(d: nat): (c: char)
    requires d < 10
    ensures IsDigit(c)
  {
    ('0' as int + d) as char
  }

  /** Value of a decimal digit string (`parseInt` on `\d+`). */
  function DigitsValue(s: string): (r: nat)
  {
    if s == [] then 0
    else 10 * DigitsValue(s[..|s| - 1]) + (if IsDigit(s[|s| - 1]) then s[|s| - 1] as int - '0' as int else 0)
  }

  /** Decimal rendering of a natural number (`String(n)`). */
  function NatToString(n: nat): (r: string)
    ensures r != []
    ensures forall k :: 0 <= k < |r| ==> IsDigit(r[k])
    ensures (|r| == 1) == (n < 10)
  {
    if n < 10 then [DigitChar(n)] else NatToString(n / 10) + [DigitChar(n % 10)]
  }

  /** Printing then parsing a natural number gives it back. */
  lemma {:induction false} NatToStringRoundTrip(n: nat)
    ensures DigitsValue(NatToString(n)) == n
  {
    if n >= 10 {
      NatToStringRoundTrip(n / 10);
      var s := NatToString(n);
      assert s[..|s| - 1] == NatToString(n / 10);
    }
  }

  /** Decimal rendering of an integer, with a leading `-` when negative. */
  function IntToString(n: int): (r: string)
    ensures r != []
    ensures n >= 0 ==> r == NatToString(n)
    ensures n < 0 ==> r == "-" + NatToString(-n)
  {
    if n >= 0 then NatToString(n) else "-" + NatToString(-n)
  }

  /** `s.padStart(2, '0')` */
  function Pad2(s: string): (r: string)
    ensures |r| == if |s| >= 2 then |s| else 2
    ensures r[|r| - |s|..] == s
    ensures forall k :: 0 <= k < |r| - |s| ==> r[k] == '0'
  {
    if |s| >= 2 then s else if |s| == 1 then "0" + s else "00"
  }
}
