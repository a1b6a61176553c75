/**
 * The regiment classifier on the rule list of the regiment-parser unit
 * tests, run through the worker's `extractRegiment` and
 * `normalizeRegiment`.  The rules' patterns are regular expressions; here
 * each rule keeps its settings and its matcher is a parameter, and each
 * scenario states how the patterns match the player name.
 */
module RegimentScenarios {
  import opened Optional
  import opened Text
  import opened Regiment

  type Matcher = string -> Option<seq<Option<string>>>

  /** The eight rules of the test list, in priority order, with their `extractGroup` and `normalize` settings. */
  function TestRules(m: seq<Matcher>): (rules: seq<Rule>)
    requires |m| == 8
    ensures |rules| == 8 && forall j :: 0 <= j < 8 ==> rules[j].matcher == m[j]
  {
    [ Rule("CB Clan with Brackets", m[0], 0, ""),
      Rule("CB Clan with Space and Wrapper", m[1], 0, ""),
      Rule("Brackets with Spaces in Regiment (Case Insensitive)", m[2], 1, "removeSpaces"),
      Rule("Braces with Spaces in Regiment (Case Insensitive)", m[3], 1, "removeSpaces"),
      Rule("Prefix Before Any Wrapper", m[4], 1, ""),
      Rule("Square Brackets (Generic)", m[5], 0, "cleanCompanySuffix"),
      Rule("Curly Braces (Generic)", m[6], 0, "cleanCompanySuffix"),
      Rule("Underscore Delimiter", m[7], 2, "") ]
  }

  /** Rule `i` is the first whose pattern matches `name`, with the captured `groups`. */
  predicate FirstMatchIs(m: seq<Matcher>, name: string, i: nat, groups: seq<Option<string>>) {
    && |m| == 8 && i < 8
    && m[i](name) == Some(groups)
    && forall j :: 0 <= j < i ==> m[j](name).None?
  }

  /** The result when rule `i` decides. */
  lemma Decided(m: seq<Matcher>, name: string, i: nat, groups: seq<Option<string>>)
    requires FirstMatchIs(m, name, i, groups)
    ensures ExtractRegiment(TestRules(m), name) == RuleRegiment(TestRules(m)[i], groups)
  {
    FirstMatchDecides(TestRules(m), name, i);
  }

  /** The generic square-bracket rule decides: its tag, normalised with `cleanCompanySuffix`. */
  lemma SquareBracketsDecide(m: seq<Matcher>, name: string, whole: string, tag: string)
    requires FirstMatchIs(m, name, 5, [Some(whole), Some(tag)])
    requires tag != [] && !IsSpace(tag[0]) && !IsSpace(tag[|tag| - 1])
    ensures ExtractRegiment(TestRules(m), name) == Some(Normalize(tag, "cleanCompanySuffix"))
  {
    Decided(m, name, 5, [Some(whole), Some(tag)]);
    GroupOneTaken(TestRules(m)[5], whole, tag);
  }

  /** The first CB rule decides: its tag, normalised with no rewrite of its own. */
  lemma ClanBracketsDecide(m: seq<Matcher>, name: string, whole: string, tag: string)
    requires FirstMatchIs(m, name, 0, [Some(whole), Some(tag)])
    requires tag != [] && !IsSpace(tag[0]) && !IsSpace(tag[|tag| - 1])
    ensures ExtractRegiment(TestRules(m), name) == Some(Normalize(tag, ""))
  {
    Decided(m, name, 0, [Some(whole), Some(tag)]);
    GroupOneTaken(TestRules(m)[0], whole, tag);
  }

  /**
   * `[8thCT.Cav]1Sgt. Mucho Bitey`: only the generic square-bracket rule
   * matches; the company suffix `.Cav` is cut and the tag becomes 8thCT.
   */
  lemma CavalrySuffixCut(m: seq<Matcher>)
    requires FirstMatchIs(m, "[8thCT.Cav]1Sgt. Mucho Bitey", 5, [Some("[8thCT.Cav]"), Some("8thCT.Cav")])
    ensures ExtractRegiment(TestRules(m), "[8thCT.Cav]1Sgt. Mucho Bitey") == Some("8thCT")
  {
    SquareBracketsDecide(m, "[8thCT.Cav]1Sgt. Mucho Bitey", "[8thCT.Cav]", "8thCT.Cav");
    CavNormalized();
  }

  /**
   * `[8thCT{A}]Pfc. Puncakian`: the generic square-bracket rule decides and
   * the company letter `{A}` is cut.
   */
  lemma BracedCompanyCut(m: seq<Matcher>)
    requires FirstMatchIs(m, "[8thCT{A}]Pfc. Puncakian", 5, [Some("[8thCT{A}]"), Some("8thCT{A}")])
    ensures ExtractRegiment(TestRules(m), "[8thCT{A}]Pfc. Puncakian") == Some("8thCT")
  {
    SquareBracketsDecide(m, "[8thCT{A}]Pfc. Puncakian", "[8thCT{A}]", "8thCT{A}");
    BraceNormalized();
  }

  /**
   * `V-[65th-IL]PVT.Dman2112g`: the generic square-bracket rule decides, and
   * no step of the pipeline removes the dash, so the tag is 65th-IL.
   */
  lemma DashKept(m: seq<Matcher>)
    requires FirstMatchIs(m, "V-[65th-IL]PVT.Dman2112g", 5, [Some("[65th-IL]"), Some("65th-IL")])
    ensures ExtractRegiment(TestRules(m), "V-[65th-IL]PVT.Dman2112g") == Some("65th-IL")
  {
    SquareBracketsDecide(m, "V-[65th-IL]PVT.Dman2112g", "[65th-IL]", "65th-IL");
    DashNormalized();
  }

  /**
   * `CB[30thOH]Pvt. Riley Gaming`: the first CB rule decides, but it has no
   * clan `normalize` setting and its `extractGroup` of 0 falls back to group
   * 1, so the tag is the bracketed 30thOH rather than the clan code.
   */
  lemma ClanRuleWithoutSetting(m: seq<Matcher>)
    requires FirstMatchIs(m, "CB[30thOH]Pvt. Riley Gaming", 0, [Some("CB[30thOH]"), Some("30thOH")])
    ensures ExtractRegiment(TestRules(m), "CB[30thOH]Pvt. Riley Gaming") == Some("30thOH")
  {
    ClanBracketsDecide(m, "CB[30thOH]Pvt. Riley Gaming", "CB[30thOH]", "30thOH");
    ThirtyOhNormalized();
  }

  /**
   * `truncateState` keeps a number's ordinal and the first two letters of
   * the state name: 30thOhio becomes 30thOH.
   */
  lemma StateNameShortened()
    ensures Normalize("30thOhio", "truncateState") == "30thOH"
  {
    var s := "30thOhio";
    NoEndCuts(s);
    OhioTruncated();
    TruncateKind(s);
    ThirtyOhCase();
    PlainTags();
    NormalizeSteps(s, "truncateState", s, "30thOH", "30THOH", "30thOH");
  }

  /**
   * A tag whose state is already two letters loses it: in 30thOH the
   * ordinal cannot be followed by a three-letter name, so the pattern takes
   * `thOH` as the state name and the tag becomes 30th.
   */
  lemma ShortStateLost()
    ensures Normalize("30thOH", "truncateState") == "30th"
  {
    var s := "30thOH";
    NoEndCuts(s);
    OhTruncated();
    TruncateKind(s);
    ThirtyThCase();
    PlainTags();
    NormalizeSteps(s, "truncateState", s, "30TH", "30TH", "30th");
  }

  /**
   * Normalising is not idempotent: the tag `A.B C` loses its spaced company
   * letter and becomes A.B, which has the shape of a normalised tag, yet
   * normalising A.B again cuts the dot and the letter as a company suffix.
   */
  lemma NormalizeNotIdempotent()
    ensures Normalize("A.B C", "") == "A.B"
    ensures Canonical("A.B")
    ensures Normalize("A.B", "") == "A"
  {
    SpacedTagNormalized();
    DottedTagNormalized();
    DottedTagCase();
  }

  lemma SpacedTagNormalized()
    ensures Normalize("A.B C", "") == "A.B"
  {
    SpacedLetterCut();
    DottedTagCase();
    PlainChars("A.B");
    NormalizeSteps("A.B C", "", "A.B", "A.B", "A.B", "A.B");
  }

  lemma DottedTagNormalized()
    ensures Normalize("A.B", "") == "A"
  {
    DotLetterCut();
    DottedTagCase();
    PlainChars("A");
    NormalizeSteps("A.B", "", "A", "A", "A", "A");
  }

  /** `A.B C` ends in a spaced letter, which is cut. */
  lemma SpacedLetterCut()
    ensures StripSpacedLetter(StripTrailingStars(StripDotLetter("A.B C"))) == "A.B"
  {
    var s := "A.B C";
    assert StripDotLetter(s) == s;
    assert BackSpan(s, 5, Is('*')) == 5;
    assert BackSpan(s, 4, Space) == 3;
  }

  /** `A.B` ends in a dot and a letter, which are cut. */
  lemma DotLetterCut()
    ensures StripSpacedLetter(StripTrailingStars(StripDotLetter("A.B"))) == "A"
  {
    assert StripDotLetter("A.B") == "A";
    assert BackSpan("A", 1, Is('*')) == 1;
    assert BackSpan("A", 0, Space) == 0;
  }

  /** A.B and A are kept by the case steps and A.B is canonical. */
  lemma DottedTagCase()
    ensures Upper("A.B") == "A.B" && LowerOrdinals("A.B") == "A.B" && Canonical("A.B")
    ensures Upper("A") == "A" && LowerOrdinals("A") == "A"
  {
    OrdinalCharsAt("A.B", "A.B");
    OrdinalCharsAt("A", "A");
  }

  // ------------------------------------------------------------------
  // The steps on the strings above
  // ------------------------------------------------------------------

  /** The `truncateState` setting selects `TruncateState`. */
  lemma TruncateKind(s: string)
    ensures ApplyKind(s, "truncateState") == TruncateState(s)
  {
    assert "truncateState" != "removeSpaces" && "truncateState" != "removeDash";
    assert "truncateState" != "removeDotSuffix" && "truncateState" != "cleanCompanySuffix";
  }

  /** In 30thOhio the state name Ohio follows the ordinal and is cut to OH. */
  lemma OhioTruncated()
    ensures TruncateState("30thOhio") == "30thOH"
  {
    var s := "30thOhio";
    assert Span(s, 0, Digit) == 2;
    assert Span(s, 4, Letter) == 8;
    assert StateMatchAt(s, 0) == Some((4, 8));
    assert Upper(s[4..6]) == "OH";
  }

  /** In 30thOH no three-letter name follows the ordinal, so `thOH` is taken as the state name. */
  lemma OhTruncated()
    ensures TruncateState("30thOH") == "30TH"
  {
    var s := "30thOH";
    assert Span(s, 0, Digit) == 2;
    assert Span(s, 4, Letter) == 6;
    assert Span(s, 2, Letter) == 6;
    assert StateMatchAt(s, 0) == Some((2, 6));
    assert Upper(s[2..4]) == "TH";
  }

  /**
   * The pipeline one step at a time: the end cuts give `cut`, the rule's
   * rewrite gives `rewritten` (which has no whitespace), upper-casing gives
   * `upper`, and lowering the ordinals gives `lowered`, which needs no trim.
   */
  lemma NormalizeSteps(s: string, kind: string, cut: string, rewritten: string, upper: string, lowered: string)
    requires StripSpacedLetter(StripTrailingStars(StripDotLetter(s))) == cut
    requires ApplyKind(cut, kind) == rewritten
    requires Plain(rewritten) && Plain(lowered)
    requires Upper(rewritten) == upper
    requires LowerOrdinals(upper) == lowered
    ensures Normalize(s, kind) == lowered
  {
    PlainNoSpace(rewritten);
    assert Remove(rewritten, Space) == rewritten;
    PlainNoSpace(lowered);
    TrimNoSpace(lowered);
  }

  /** A plain text has no whitespace. */
  lemma PlainNoSpace(x: string)
    requires Plain(x)
    ensures forall k :: 0 <= k < |x| ==> !IsSpace(x[k])
  {
  }

  /** The tags of the scenarios are plain. */
  lemma PlainTags()
    ensures Plain("8thCT") && Plain("65th-IL") && Plain("30thOH") && Plain("30TH") && Plain("30th")
  {
    PlainChars("8thCT");
    PlainChars("65th-IL");
    PlainChars("30thOH");
    PlainChars("30TH");
    PlainChars("30th");
  }

  /** `Plain`, one character at a time. */
  lemma PlainChars(x: string)
    requires forall c :: c in x ==> IsLetter(c) || IsDigit(c) || c == '-' || c == '.'
    ensures Plain(x)
  {
    forall k | 0 <= k < |x| ensures IsLetter(x[k]) || IsDigit(x[k]) || x[k] == '-' || x[k] == '.' {
      assert x[k] in x;
    }
  }

  /** Letters, digits, dashes and dots only, so no whitespace. */
  predicate Plain(x: string) {
    forall k :: 0 <= k < |x| ==> IsLetter(x[k]) || IsDigit(x[k]) || x[k] == '-' || x[k] == '.'
  }

  /**
   * A rule without a clan setting whose `extractGroup` is absent or 1, on a
   * match whose group 1 is a non-empty tag without surrounding whitespace,
   * yields that tag normalised.
   */
  lemma GroupOneTaken(rule: Rule, whole: string, tag: string)
    requires rule.extractGroup <= 1 && ClanCode(rule.normalize).None?
    requires tag != [] && !IsSpace(tag[0]) && !IsSpace(tag[|tag| - 1])
    ensures RuleRegiment(rule, [Some(whole), Some(tag)]) == Some(Normalize(tag, rule.normalize))
  {
    var groups := [Some(whole), Some(tag)];
    var g := if rule.extractGroup == 0 then 1 else rule.extractGroup;
    assert g == 1;
    assert Group(groups, g) == Some(tag);
    TrimEdges(tag);
    assert TrimOpt(Group(groups, g)) == Some(tag);
  }

  /** Trimming leaves a text whose ends are not whitespace as it is. */
  lemma TrimEdges(s: string)
    requires s != [] && !IsSpace(s[0]) && !IsSpace(s[|s| - 1])
    ensures Trim(s) == s
  {
    assert Span(s, 0, Space) == 0;
    assert BackSpan(s, |s|, Space) == |s|;
  }

  lemma CavNormalized()
    ensures Normalize("8thCT.Cav", "cleanCompanySuffix") == "8thCT"
  {
    NoEndCuts("8thCT.Cav");
    CavCut();
    EightCtCase();
    PlainTags();
    NormalizeSteps("8thCT.Cav", "cleanCompanySuffix", "8thCT.Cav", "8thCT", "8THCT", "8thCT");
  }

  lemma BraceNormalized()
    ensures Normalize("8thCT{A}", "cleanCompanySuffix") == "8thCT"
  {
    NoEndCuts("8thCT{A}");
    BraceCut();
    EightCtCase();
    PlainTags();
    NormalizeSteps("8thCT{A}", "cleanCompanySuffix", "8thCT{A}", "8thCT", "8THCT", "8thCT");
  }

  lemma DashNormalized()
    ensures Normalize("65th-IL", "cleanCompanySuffix") == "65th-IL"
  {
    var s := "65th-IL";
    NoEndCuts(s);
    SuffixLiteralsKept(s);
    BracketsKept(s);
    assert ApplyKind(s, "cleanCompanySuffix") == s;
    DashCase();
    PlainTags();
    NormalizeSteps(s, "cleanCompanySuffix", s, "65th-IL", "65TH-IL", "65th-IL");
  }

  lemma ThirtyOhNormalized()
    ensures Normalize("30thOH", "") == "30thOH"
  {
    NoEndCuts("30thOH");
    ThirtyOhCase();
    PlainTags();
    NormalizeSteps("30thOH", "", "30thOH", "30thOH", "30THOH", "30thOH");
  }

  /** A tag ending in a non-star character that follows neither a dot nor whitespace has no end to cut. */
  lemma NoEndCuts(s: string)
    requires |s| >= 2 && s[|s| - 1] != '*' && s[|s| - 2] != '.' && !IsSpace(s[|s| - 2])
    ensures StripDotLetter(s) == s && StripTrailingStars(s) == s
    ensures StripSpacedLetter(StripTrailingStars(StripDotLetter(s))) == s
  {
    assert BackSpan(s, |s|, Is('*')) == |s|;
    if IsLetter(s[|s| - 1]) {
      assert BackSpan(s, |s| - 1, Space) == |s| - 1;
    }
  }

  /** A literal starting with a character the text lacks is not one of its suffixes. */
  lemma NotEndingWith(s: string, lit: string)
    requires |lit| > 0 && !IsLetter(lit[0]) && lit[0] !in s
    ensures StripSuffixAnyCase(s, lit) == s
  {
    if |lit| <= |s| {
      var i := |s| - |lit|;
      assert s[i] in s;
      assert UpChar(s[i]) != lit[0];
    }
  }

  /** The five literal suffixes are not cut from a text without dots and parentheses. */
  lemma SuffixLiteralsKept(s: string)
    requires '.' !in s && '(' !in s
    ensures StripSuffixAnyCase(s, ".CAV") == s && StripSuffixAnyCase(s, ".WA") == s
    ensures StripSuffixAnyCase(s, ".(LB)") == s && StripSuffixAnyCase(s, "(LB)") == s
  {
    NotEndingWith(s, ".CAV");
    NotEndingWith(s, ".WA");
    NotEndingWith(s, ".(LB)");
    NotEndingWith(s, "(LB)");
  }

  /** The bracketed-letter and dot-letter cuts leave a text without dots that ends in a letter. */
  lemma BracketsKept(s: string)
    requires |s| >= 1 && IsLetter(s[|s| - 1]) && '.' !in s
    ensures StripBracketedLetters(s, '{', 1, '}') == s && StripBracketedLetters(s, '{', 2, '}') == s
    ensures StripBracketedLetters(s, '[', 1, ']') == s && StripDotLetters(s) == s
  {
    var n := |s|;
    if n >= 4 { assert s[n - 4] in s; }
    if n >= 3 { assert s[n - 3] in s; }
    if n >= 2 { assert s[n - 2] in s; }
  }

  /** `.Cav` is cut from 8thCT.Cav, leaving 8thCT. */
  lemma CavCut()
    ensures CleanCompanySuffix("8thCT.Cav") == "8thCT"
    ensures ApplyKind("8thCT.Cav", "cleanCompanySuffix") == "8thCT"
  {
    var s := "8thCT.Cav";
    assert MatchAnyCaseFrom(s, 5, ".CAV", 4);
    assert UpChar(s[8]) == 'V' && MatchAnyCaseFrom(s, 5, ".CAV", 3);
    assert UpChar(s[7]) == 'A' && MatchAnyCaseFrom(s, 5, ".CAV", 2);
    assert UpChar(s[6]) == 'C' && MatchAnyCaseFrom(s, 5, ".CAV", 1);
    assert EndsWithAnyCase(s, ".CAV");
    var t := StripSuffixAnyCase(s, ".CAV");
    assert t == "8thCT";
    SuffixLiteralsKept(t);
    BracketsKept(t);
  }

  /** `{A}` is cut from 8thCT{A}, leaving 8thCT. */
  lemma BraceCut()
    ensures CleanCompanySuffix("8thCT{A}") == "8thCT"
    ensures ApplyKind("8thCT{A}", "cleanCompanySuffix") == "8thCT"
  {
    var s := "8thCT{A}";
    SuffixLiteralsKept(s);
    assert Span(s, 6, Letter) == 7;
    var t := StripBracketedLetters(s, '{', 1, '}');
    assert t == "8thCT";
    BracketsKept(t);
  }

  /** 8thCT upper-cases to 8THCT, whose ordinal is lowered back. */
  lemma EightCtCase()
    ensures Upper("8thCT") == "8THCT" && LowerOrdinals("8THCT") == "8thCT"
  {
    EightCtUpper();
    EightCtOrdinals();
  }

  /** The upper-casing step on this tag. */
  lemma EightCtUpper()
    ensures Upper("8thCT") == "8THCT"
  {
    UpperIs("8thCT", "8THCT");
  }

  /** The ordinal step on the upper-cased tag. */
  lemma EightCtOrdinals()
    ensures LowerOrdinals("8THCT") == "8thCT"
  {
    EightCtStarts();
    OrdinalCharsAt("8THCT", "8thCT");
  }

  /** In 8THCT the only ordinal after a digit starts at index 1. */
  lemma EightCtStarts()
    ensures var t := "8THCT";
      OrdinalStart(t, 1) && !OrdinalStart(t, 0) && !OrdinalStart(t, 2) && !OrdinalStart(t, 3) && !OrdinalStart(t, 4)
  {
  }

  /** 65th-IL upper-cases to 65TH-IL, whose ordinal is lowered back. */
  lemma DashCase()
    ensures Upper("65th-IL") == "65TH-IL" && LowerOrdinals("65TH-IL") == "65th-IL"
  {
    DashUpper();
    DashOrdinals();
  }

  /** The upper-casing step on this tag. */
  lemma DashUpper()
    ensures Upper("65th-IL") == "65TH-IL"
  {
    UpperIs("65th-IL", "65TH-IL");
  }

  /** The ordinal step on the upper-cased tag. */
  lemma DashOrdinals()
    ensures LowerOrdinals("65TH-IL") == "65th-IL"
  {
    DashStarts();
    OrdinalCharsAt("65TH-IL", "65th-IL");
  }

  /** In 65TH-IL the only ordinal after a digit starts at index 2. */
  lemma DashStarts()
    ensures var t := "65TH-IL";
      OrdinalStart(t, 2) && !OrdinalStart(t, 0) && !OrdinalStart(t, 1) && !OrdinalStart(t, 3)
      && !OrdinalStart(t, 4) && !OrdinalStart(t, 5) && !OrdinalStart(t, 6)
  {
  }

  /** 30thOH upper-cases to 30THOH, whose ordinal is lowered back. */
  lemma ThirtyOhCase()
    ensures Upper("30thOH") == "30THOH" && LowerOrdinals("30THOH") == "30thOH"
  {
    ThirtyOhUpper();
    ThirtyOhOrdinals();
  }

  /** The upper-casing step on this tag. */
  lemma ThirtyOhUpper()
    ensures Upper("30thOH") == "30THOH"
  {
    UpperIs("30thOH", "30THOH");
  }

  /** The ordinal step on the upper-cased tag. */
  lemma ThirtyOhOrdinals()
    ensures LowerOrdinals("30THOH") == "30thOH"
  {
    ThirtyOhStarts();
    OrdinalCharsAt("30THOH", "30thOH");
  }

  /** In 30THOH the only ordinal after a digit starts at index 2. */
  lemma ThirtyOhStarts()
    ensures var t := "30THOH";
      OrdinalStart(t, 2) && !OrdinalStart(t, 0) && !OrdinalStart(t, 1) && !OrdinalStart(t, 3)
      && !OrdinalStart(t, 4) && !OrdinalStart(t, 5)
  {
  }

  /** Upper-casing gives `t` when `t` holds, index by index, the upper-cased characters. */
  lemma UpperIs(s: string, t: string)
    requires |t| == |s| && forall k :: 0 <= k < |s| ==> t[k] == UpChar(s[k])
    ensures Upper(s) == t
  {
  }

  /** The ordinal pass gives `r` when `r` holds, index by index, the characters it produces. */
  lemma OrdinalCharsAt(t: string, r: string)
    requires |r| == |t| && forall k :: 0 <= k < |t| ==> r[k] == OrdinalChar(t, k)
    ensures LowerOrdinals(t) == r
  {
    LowerOrdinalsChars(t);
  }

  /** 30TH stays upper-case and its ordinal is lowered. */
  lemma ThirtyThCase()
    ensures Upper("30TH") == "30TH" && LowerOrdinals("30TH") == "30th"
  {
    var t := "30TH";
    assert OrdinalStart(t, 2);
    assert !OrdinalStart(t, 0) && !OrdinalStart(t, 1) && !OrdinalStart(t, 3);
    OrdinalCharsAt(t, "30th");
  }
}
