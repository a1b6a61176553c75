/**
 * The game log lines the parsers react to, and the `match` each of them
 * performs on a line, written out as leftmost-match searches.
 */
module LogSyntax {
  import opened Optional
  import opened Text

  const InitMarker := "[CWarOfRightsGame] Initialized"
  const GameRulesMarker := "Game rules class:"
  const PrepareLevelMarker := "PrepareLevel"
  const RoundStartedMarker := "CGameRulesEventHelper::OnRoundStarted"
  const VictoryMarker := "CGameRulesEventHelper::OnVictory"
  const TeamIdMarker := "TeamID:"
  const JoinedMarker := "has joined the server"
  const LeftMarker := "has left the server"
  const PlayerPrefix := "Player "
  const RespawnMarker := "[CPlayer::ClDoRespawn]"

  const JoinedSuffix := " " + JoinedMarker
  const LeftSuffix := " " + LeftMarker

  // ------------------------------------------------------------------
  // `lit\s*(cls+)` and `lit\s+(cls+)`
  // ------------------------------------------------------------------

  /** The capture class never matches whitespace, so the spaces before the capture are all of them. */
  predicate SpaceFree(cls: CharClass) {
    forall c :: In(c, cls) ==> !IsSpace(c)
  }

  lemma WordAndDigitSpaceFree()
    ensures SpaceFree(Word) && SpaceFree(Digit)
  {
  }

  /**
   * `lit` at `p`, at least `minSpaces` whitespace characters up to `w`, and
   * the greedy capture `s[w..e]` of `cls+`.
   */
  predicate RunSpan(s: string, p: nat, lit: string, minSpaces: nat, cls: CharClass, w: nat, e: nat) {
    && MatchAt(s, p, lit)
    && p + |lit| + minSpaces <= w < e
    && AllIn(s, p + |lit|, w, Space)
    && AllIn(s, w, e, cls)
    && (e == |s| || !In(s[e], cls))
  }

  /** The pattern tried with `lit` at `p`: the capture if there is one. */
  function RunAfter(s: string, p: nat, lit: string, minSpaces: nat, cls: CharClass): (r: Option<string>)
    requires MatchAt(s, p, lit) && SpaceFree(cls)
    ensures r.Some? <==> exists w: nat, e: nat :: RunSpan(s, p, lit, minSpaces, cls, w, e)
    ensures r.Some? ==> exists w: nat, e: nat :: RunSpan(s, p, lit, minSpaces, cls, w, e) && r.value == s[w..e]
  {
    var w := Span(s, p + |lit|, Space);
    var e := Span(s, w, cls);
    RunAfterComplete(s, p, lit, minSpaces, cls);
    if w - (p + |lit|) >= minSpaces && e > w then
      assert RunSpan(s, p, lit, minSpaces, cls, w, e);
      Some(s[w..e])
    else None
  }

  /** A capture that the pattern allows at `p` is the one the two greedy runs find. */
  lemma RunAfterComplete(s: string, p: nat, lit: string, minSpaces: nat, cls: CharClass)
    requires MatchAt(s, p, lit) && SpaceFree(cls)
    ensures forall w: nat, e: nat :: RunSpan(s, p, lit, minSpaces, cls, w, e) ==>
      Span(s, p + |lit|, Space) == w && Span(s, w, cls) == e
  {
    forall w: nat, e: nat | RunSpan(s, p, lit, minSpaces, cls, w, e)
      ensures Span(s, p + |lit|, Space) == w && Span(s, w, cls) == e
    {
      SpanEnd(s, p + |lit|, w, Space);
      SpanEnd(s, w, e, cls);
    }
  }

  /** `s.match(/lit\s*(cls+)/)` from `from` on: the leftmost position of `lit` where the capture succeeds. */
  function FirstRunAt(s: string, lit: string, minSpaces: nat, cls: CharClass, from: nat): (r: Option<nat>)
    requires SpaceFree(cls)
    ensures r.Some? ==> from <= r.value && MatchAt(s, r.value, lit) && RunAfter(s, r.value, lit, minSpaces, cls).Some?
    ensures forall q: nat, w: nat, e: nat :: from <= q && RunSpan(s, q, lit, minSpaces, cls, w, e) ==> r.Some? && r.value <= q
    decreases |s| - from
  {
    match IndexOf(s, lit, from)
    case None => None
    case Some(p) =>
      if RunAfter(s, p, lit, minSpaces, cls).Some? then Some(p)
      else FirstRunAt(s, lit, minSpaces, cls, p + 1)
  }

  /** `/Game rules class:\s*(\w+)/`: the rules class named on the line. */
  function GameRulesClass(line: string): (r: Option<string>)
    ensures r.Some? <==> exists p: nat, w: nat, e: nat :: RunSpan(line, p, GameRulesMarker, 0, Word, w, e)
    ensures r.Some? ==> exists p: nat, w: nat, e: nat ::
      && RunSpan(line, p, GameRulesMarker, 0, Word, w, e)
      && r.value == line[w..e]
      && forall q: nat, w': nat, e': nat :: RunSpan(line, q, GameRulesMarker, 0, Word, w', e') ==> p <= q
  {
    WordAndDigitSpaceFree();
    match FirstRunAt(line, GameRulesMarker, 0, Word, 0)
    case None => None
    case Some(p) => RunAfter(line, p, GameRulesMarker, 0, Word)
  }

  /** `/PrepareLevel\s+(\w+)/`: the map being loaded. */
  function PrepareLevelMap(line: string): (r: Option<string>)
    ensures r.Some? <==> exists p: nat, w: nat, e: nat :: RunSpan(line, p, PrepareLevelMarker, 1, Word, w, e)
    ensures r.Some? ==> exists p: nat, w: nat, e: nat ::
      && RunSpan(line, p, PrepareLevelMarker, 1, Word, w, e)
      && r.value == line[w..e]
      && forall q: nat, w': nat, e': nat :: RunSpan(line, q, PrepareLevelMarker, 1, Word, w', e') ==> p <= q
  {
    WordAndDigitSpaceFree();
    match FirstRunAt(line, PrepareLevelMarker, 1, Word, 0)
    case None => None
    case Some(p) => RunAfter(line, p, PrepareLevelMarker, 1, Word)
  }

  /** `/TeamID:\s*(\d+)/` with the captured digits read by `parseInt`. */
  function TeamId(line: string): (r: Option<nat>)
    ensures r.Some? <==> exists p: nat, w: nat, e: nat :: RunSpan(line, p, TeamIdMarker, 0, Digit, w, e)
    ensures r.Some? ==> exists p: nat, w: nat, e: nat ::
      && RunSpan(line, p, TeamIdMarker, 0, Digit, w, e)
      && r.value == DigitsValue(line[w..e])
      && forall q: nat, w': nat, e': nat :: RunSpan(line, q, TeamIdMarker, 0, Digit, w', e') ==> p <= q
  {
    WordAndDigitSpaceFree();
    match FirstRunAt(line, TeamIdMarker, 0, Digit, 0)
    case None => None
    case Some(p) =>
      match RunAfter(line, p, TeamIdMarker, 0, Digit)
      case None => None
      case Some(d) => Some(DigitsValue(d))
  }

  // ------------------------------------------------------------------
  // `Player (.+?)<suffix>`
  // ------------------------------------------------------------------

  /** No line terminator in `s[i..j]`. */
  predicate NoTerminatorIn(s: string, i: nat, j: nat) {
    i <= j <= |s| && forall k :: i <= k < j ==> !IsLineTerminator(s[k])
  }

  /** `Player ` at `p`, a name of at least one character on the same line, and `suffix` at `e`. */
  predicate NameSpan(s: string, p: nat, e: nat, suffix: string) {
    && MatchAt(s, p, PlayerPrefix)
    && p + |PlayerPrefix| < e
    && MatchAt(s, e, suffix)
    && NoTerminatorIn(s, p + |PlayerPrefix|, e)
  }

  /**
   * The lazy `(.+?)` after the name started at `start` and has reached `q`:
   * the first end at which `suffix` follows, before any line terminator.
   */
  function LazyNameEnd(s: string, start: nat, q: nat, suffix: string): (r: Option<nat>)
    requires start < q && NoTerminatorIn(s, start, q)
    ensures r.Some? ==> q <= r.value && MatchAt(s, r.value, suffix) && NoTerminatorIn(s, start, r.value)
    ensures forall f: nat :: q <= f && MatchAt(s, f, suffix) && NoTerminatorIn(s, start, f) ==> r.Some? && r.value <= f
    decreases |s| - q
  {
    if MatchAt(s, q, suffix) then Some(q)
    else if q < |s| && !IsLineTerminator(s[q]) then LazyNameEnd(s, start, q + 1, suffix)
    else None
  }

  /** The pattern tried with `Player ` at `p`: the shortest name that `suffix` follows. */
  function NameAt(s: string, p: nat, suffix: string): (r: Option<string>)
    requires MatchAt(s, p, PlayerPrefix)
    ensures r.Some? <==> exists e: nat :: NameSpan(s, p, e, suffix)
    ensures r.Some? ==> exists e: nat ::
      && NameSpan(s, p, e, suffix)
      && r.value == s[p + |PlayerPrefix|..e]
      && forall f: nat :: NameSpan(s, p, f, suffix) ==> e <= f
  {
    var start := p + |PlayerPrefix|;
    if start < |s| && !IsLineTerminator(s[start]) then
      match LazyNameEnd(s, start, start + 1, suffix)
      case None => None
      case Some(e) =>
        assert NameSpan(s, p, e, suffix);
        Some(s[start..e])
    else None
  }

  /** The leftmost `Player ` at or after `from` where the name pattern succeeds. */
  function FirstNameAt(s: string, suffix: string, from: nat): (r: Option<nat>)
    ensures r.Some? ==> from <= r.value && MatchAt(s, r.value, PlayerPrefix) && NameAt(s, r.value, suffix).Some?
    ensures forall q: nat, f: nat :: from <= q && NameSpan(s, q, f, suffix) ==> r.Some? && r.value <= q
    decreases |s| - from
  {
    match IndexOf(s, PlayerPrefix, from)
    case None => None
    case Some(p) =>
      if NameAt(s, p, suffix).Some? then Some(p) else FirstNameAt(s, suffix, p + 1)
  }

  /** `/Player (.+?) has joined the server/` */
  function JoinedPlayer(line: string): (r: Option<string>)
    ensures r.Some? <==> exists p: nat, e: nat :: NameSpan(line, p, e, JoinedSuffix)
    ensures r.Some? ==> exists p: nat, e: nat ::
      && NameSpan(line, p, e, JoinedSuffix)
      && r.value == line[p + |PlayerPrefix|..e]
      && forall q: nat, f: nat :: NameSpan(line, q, f, JoinedSuffix) ==> p < q || (p == q && e <= f)
  {
    match FirstNameAt(line, JoinedSuffix, 0)
    case None => None
    case Some(p) => NameAt(line, p, JoinedSuffix)
  }

  /** `/Player (.+?) has left the server/` */
  function LeftPlayer(line: string): (r: Option<string>)
    ensures r.Some? <==> exists p: nat, e: nat :: NameSpan(line, p, e, LeftSuffix)
    ensures r.Some? ==> exists p: nat, e: nat ::
      && NameSpan(line, p, e, LeftSuffix)
      && r.value == line[p + |PlayerPrefix|..e]
      && forall q: nat, f: nat :: NameSpan(line, q, f, LeftSuffix) ==> p < q || (p == q && e <= f)
  {
    match FirstNameAt(line, LeftSuffix, 0)
    case None => None
    case Some(p) => NameAt(line, p, LeftSuffix)
  }

  // ------------------------------------------------------------------
  // `\[CPlayer::ClDoRespawn\]\s+"([^"]+)"`
  // ------------------------------------------------------------------

  /** The marker at `p`, whitespace up to the opening quote at `w`, and the closing quote at `e`. */
  predicate QuoteSpan(s: string, p: nat, w: nat, e: nat) {
    && MatchAt(s, p, RespawnMarker)
    && p + |RespawnMarker| < w && w + 1 < e < |s|
    && AllIn(s, p + |RespawnMarker|, w, Space)
    && s[w] == '"'
    && AllIn(s, w + 1, e, NoneOf("\""))
    && s[e] == '"'
  }

  /** The pattern tried with the marker at `p`: the quoted name. */
  function QuotedAfter(s: string, p: nat): (r: Option<string>)
    requires MatchAt(s, p, RespawnMarker)
    ensures r.Some? <==> exists w: nat, e: nat :: QuoteSpan(s, p, w, e)
    ensures r.Some? ==> exists w: nat, e: nat :: QuoteSpan(s, p, w, e) && r.value == s[w + 1..e]
    ensures r.Some? ==> r.value != [] && '"' !in r.value
  {
    var w := Span(s, p + |RespawnMarker|, Space);
    QuotedAfterComplete(s, p);
    if w > p + |RespawnMarker| && w < |s| && s[w] == '"' then
      var e := Span(s, w + 1, NoneOf("\""));
      if w + 1 < e < |s| then
        assert QuoteSpan(s, p, w, e);
        Some(s[w + 1..e])
      else None
    else None
  }

  /** The quotes the pattern allows at `p` are the ones the greedy runs find. */
  lemma QuotedAfterComplete(s: string, p: nat)
    requires MatchAt(s, p, RespawnMarker)
    ensures forall w: nat, e: nat :: QuoteSpan(s, p, w, e) ==>
      Span(s, p + |RespawnMarker|, Space) == w && Span(s, w + 1, NoneOf("\"")) == e
  {
    forall w: nat, e: nat | QuoteSpan(s, p, w, e)
      ensures Span(s, p + |RespawnMarker|, Space) == w && Span(s, w + 1, NoneOf("\"")) == e
    {
      SpanEnd(s, p + |RespawnMarker|, w, Space);
      SpanEnd(s, w + 1, e, NoneOf("\""));
    }
  }

  /** The leftmost marker at or after `from` that is followed by a quoted name. */
  function FirstQuotedAt(s: string, from: nat): (r: Option<nat>)
    ensures r.Some? ==> from <= r.value && MatchAt(s, r.value, RespawnMarker) && QuotedAfter(s, r.value).Some?
    ensures forall q: nat, w: nat, e: nat :: from <= q && QuoteSpan(s, q, w, e) ==> r.Some? && r.value <= q
    decreases |s| - from
  {
    match IndexOf(s, RespawnMarker, from)
    case None => None
    case Some(p) =>
      if QuotedAfter(s, p).Some? then Some(p)
      else
        assert forall w: nat, e: nat :: !QuoteSpan(s, p, w, e);
        FirstQuotedAt(s, p + 1)
  }

  /** `/\[CPlayer::ClDoRespawn\]\s+"([^"]+)"/`: the quoted name of the player who respawned. */
  function RespawnPlayer(line: string): (r: Option<string>)
    ensures r.Some? <==> exists p: nat, w: nat, e: nat :: QuoteSpan(line, p, w, e)
    ensures r.Some? ==> exists p: nat, w: nat, e: nat ::
      && QuoteSpan(line, p, w, e)
      && r.value == line[w + 1..e]
      && forall q: nat, w': nat, e': nat :: QuoteSpan(line, q, w', e') ==> p <= q
    ensures r.Some? ==> r.value != [] && '"' !in r.value
  {
    match FirstQuotedAt(line, 0)
    case None => None
    case Some(p) => QuotedAfter(line, p)
  }

  /** What a line says, detector by detector, each gated by the `includes` test the parsers make. */
  datatype LineInfo = LineInfo(
    gameRules: Option<string>,
    newMap: Option<string>,
    roundStarted: bool,
    victoryTeam: Option<nat>,
    joined: Option<string>,
    left: Option<string>,
    respawned: Option<string>)

  function Classify(line: string): LineInfo
  {
    LineInfo(
      if Contains(line, GameRulesMarker) then GameRulesClass(line) else None,
      if Contains(line, PrepareLevelMarker) then PrepareLevelMap(line) else None,
      Contains(line, RoundStartedMarker),
      if Contains(line, VictoryMarker) then TeamId(line) else None,
      if Contains(line, JoinedMarker) then JoinedPlayer(line) else None,
      if Contains(line, LeftMarker) then LeftPlayer(line) else None,
      if Contains(line, RespawnMarker) then RespawnPlayer(line) else None)
  }
}
