/**
 * The event filter of the log store, its time bounds and the clock
 * formatting of times.  Getters are functions of the store fields they
 * read.
 */
module Store {
  import opened Optional
  import opened Text
  import opened Domain
  import opened Ordering

  // ------------------------------------------------------------------
  // filteredEvents, timeBounds, timeOffset
  // ------------------------------------------------------------------

  /** The event belongs to the selected round, or no round is selected. */
  predicate InRound(e: LogEvent, selectedRoundId: Option<int>) {
    selectedRoundId.None? || e.roundId == selectedRoundId.value
  }

  /** `event.time >= timeRange[0] && event.time <= timeRange[1]` */
  predicate InTimeRange(e: LogEvent, timeRange: (int, int)) {
    timeRange.0 <= e.time <= timeRange.1
  }

  /** `event.player.toLowerCase().includes(searchText)` */
  predicate PlayerMatches(e: LogEvent, searchText: string) {
    Contains(Lower(e.player), searchText)
  }

  /** The text test of an event: player name, else regiment, lower-cased. */
  predicate TextMatches(e: LogEvent, searchText: string) {
    PlayerMatches(e, searchText) || (e.regiment.Some? && Contains(Lower(e.regiment.value), searchText))
  }

  /** The text test reaches `undefined.toLowerCase()` and throws a TypeError. */
  predicate TextThrows(e: LogEvent, searchText: string) {
    !PlayerMatches(e, searchText) && e.regiment.None?
  }

  /** The events of the selected round (all events when none is selected). */
  function RoundScope(events: seq<LogEvent>, selectedRoundId: Option<int>): seq<LogEvent> {
    Filter(events, e => InRound(e, selectedRoundId))
  }

  /** The events of the selected round inside the time range: what the text filter runs over. */
  function Windowed(events: seq<LogEvent>, selectedRoundId: Option<int>, timeRange: (int, int)): seq<LogEvent> {
    Filter(RoundScope(events, selectedRoundId), e => InTimeRange(e, timeRange))
  }

  /** Whether an event passes all three filters. */
  predicate Shown(e: LogEvent, selectedRoundId: Option<int>, timeRange: (int, int), filterText: string) {
    InRound(e, selectedRoundId) && InTimeRange(e, timeRange) && (filterText != "" ==> TextMatches(e, Lower(filterText)))
  }

  /**
   * The `filteredEvents` getter: round, then time range, then (when the
   * filter text is not empty) the case-insensitive text test on player or
   * regiment.  `None` when the text test throws on an event without a
   * regiment.
   */
  function FilteredEvents(events: seq<LogEvent>, selectedRoundId: Option<int>, timeRange: (int, int), filterText: string)
    : (r: Option<seq<LogEvent>>)
    ensures r.None? <==> filterText != "" && exists e :: e in Windowed(events, selectedRoundId, timeRange) && TextThrows(e, Lower(filterText))
  {
    var filtered := Windowed(events, selectedRoundId, timeRange);
    if filterText == "" then Some(filtered)
    else
      var searchText := Lower(filterText);
      if exists e :: e in filtered && TextThrows(e, searchText) then None
      else Some(Filter(filtered, e => TextMatches(e, searchText)))
  }

  /** The three filters in a row are one filter by `Shown`. */
  lemma FilteredEventsIsOneFilter(events: seq<LogEvent>, selectedRoundId: Option<int>, timeRange: (int, int), filterText: string)
    requires FilteredEvents(events, selectedRoundId, timeRange, filterText).Some?
    ensures FilteredEvents(events, selectedRoundId, timeRange, filterText).value
            == Filter(events, e => Shown(e, selectedRoundId, timeRange, filterText))
  {
    var inRound := e => InRound(e, selectedRoundId);
    var inTime := e => InTimeRange(e, timeRange);
    var shown := e => Shown(e, selectedRoundId, timeRange, filterText);
    if filterText == "" {
      FilterBoth(events, inRound, inTime, shown);
    } else {
      var searchText := Lower(filterText);
      var windowed := e => InRound(e, selectedRoundId) && InTimeRange(e, timeRange);
      FilterBoth(events, inRound, inTime, windowed);
      FilterBoth(events, windowed, e => TextMatches(e, searchText), shown);
    }
  }

  /** Two filters in a row are one filter by a condition equivalent to both. */
  lemma {:induction false} FilterBoth<T(!new)>(s: seq<T>, p: T -> bool, q: T -> bool, r: T -> bool)
    requires forall x :: r(x) == (p(x) && q(x))
    ensures Filter(Filter(s, p), q) == Filter(s, r)
  {
    if s != [] {
      var init := s[..|s| - 1];
      var last := s[|s| - 1];
      FilterBoth(init, p, q, r);
      if p(last) {
        var f := Filter(init, p) + [last];
        assert f[..|f| - 1] == Filter(init, p);
      }
    }
  }

  /**
   * The filtered events keep the order of the event list; an event is
   * shown exactly when it is in the selected round, inside the time range
   * and matches the filter text.
   */
  lemma FilteredEventsMeaning(events: seq<LogEvent>, selectedRoundId: Option<int>, timeRange: (int, int), filterText: string)
    requires FilteredEvents(events, selectedRoundId, timeRange, filterText).Some?
    ensures var shown := FilteredEvents(events, selectedRoundId, timeRange, filterText).value;
      && Subsequence(shown, events)
      && (forall e :: e in shown <==> e in events && Shown(e, selectedRoundId, timeRange, filterText))
  {
    var p := e => Shown(e, selectedRoundId, timeRange, filterText);
    FilteredEventsIsOneFilter(events, selectedRoundId, timeRange, filterText);
    FilterSubsequence(events, p);
    forall e
      ensures e in Filter(events, p) <==> e in events && Shown(e, selectedRoundId, timeRange, filterText)
    {
      FilterMembers(events, p, e);
    }
  }

  /**
   * With the time range set to the bounds of the selected round's events
   * and no filter text, every event of that round is shown, in order.
   */
  lemma SelectedRoundShowsAllItsEvents(events: seq<LogEvent>, selectedRoundId: Option<int>)
    ensures FilteredEvents(events, selectedRoundId, TimeBounds(events, selectedRoundId), "")
            == Some(RoundScope(events, selectedRoundId))
  {
    var scope := RoundScope(events, selectedRoundId);
    var bounds := TimeBounds(events, selectedRoundId);
    FilterAll(scope, e => InTimeRange(e, bounds));
  }

  /** Without a selected round the round filter keeps every event. */
  lemma NoRoundSelectedKeepsAll(events: seq<LogEvent>)
    ensures RoundScope(events, None) == events
  {
    FilterAll(events, e => InRound(e, None));
  }

  /** `events.find(e => e.player === player)`: the player's first event. */
  function FirstEventOf(events: seq<LogEvent>, player: string): (r: Option<LogEvent>)
    ensures r.None? <==> forall k :: 0 <= k < |events| ==> events[k].player != player
    ensures r.Some? ==> exists k :: 0 <= k < |events| && events[k] == r.value
                          && r.value.player == player
                          && forall j :: 0 <= j < k ==> events[j].player != player
  {
    if events == [] then None
    else if events[0].player == player then Some(events[0])
    else
      var r := FirstEventOf(events[1..], player);
      assert forall k :: 1 <= k < |events| ==> events[1..][k - 1] == events[k];
      r
  }

  /** The earliest event time. */
  function MinTime(events: seq<LogEvent>): (r: int)
    requires events != []
    ensures exists k :: 0 <= k < |events| && events[k].time == r
    ensures forall k :: 0 <= k < |events| ==> r <= events[k].time
  {
    if |events| == 1 then events[0].time
    else
      var m := MinTime(events[..|events| - 1]);
      assert forall k :: 0 <= k < |events| - 1 ==> events[..|events| - 1][k] == events[k];
      if events[|events| - 1].time < m then events[|events| - 1].time else m
  }

  /** The latest event time. */
  function MaxTime(events: seq<LogEvent>): (r: int)
    requires events != []
    ensures exists k :: 0 <= k < |events| && events[k].time == r
    ensures forall k :: 0 <= k < |events| ==> events[k].time <= r
  {
    if |events| == 1 then events[0].time
    else
      var m := MaxTime(events[..|events| - 1]);
      assert forall k :: 0 <= k < |events| - 1 ==> events[..|events| - 1][k] == events[k];
      if events[|events| - 1].time > m then events[|events| - 1].time else m
  }

  /**
   * The `timeBounds` getter: the earliest and latest time among the
   * selected round's events (all events when none is selected), or the
   * whole day `[0, 86400]` when there are none.
   */
  function TimeBounds(events: seq<LogEvent>, selectedRoundId: Option<int>): (r: (int, int))
    ensures r.0 <= r.1
    ensures RoundScope(events, selectedRoundId) == [] ==> r == (0, 86400)
    ensures var scope := RoundScope(events, selectedRoundId);
      scope != [] ==>
        && (exists k :: 0 <= k < |scope| && scope[k].time == r.0)
        && (exists k :: 0 <= k < |scope| && scope[k].time == r.1)
        && (forall k :: 0 <= k < |scope| ==> r.0 <= scope[k].time <= r.1)
  {
    var scope := RoundScope(events, selectedRoundId);
    if scope == [] then (0, 86400) else (MinTime(scope), MaxTime(scope))
  }

  /** The `timeOffset` getter: the earliest time in scope, or 0 when there is none. */
  function TimeOffset(events: seq<LogEvent>, selectedRoundId: Option<int>): (r: int)
    ensures RoundScope(events, selectedRoundId) == [] ==> r == 0
    ensures RoundScope(events, selectedRoundId) != [] ==> r == TimeBounds(events, selectedRoundId).0
  {
    var scope := RoundScope(events, selectedRoundId);
    if scope == [] then 0 else MinTime(scope)
  }

  // ------------------------------------------------------------------
  // formatTime
  // ------------------------------------------------------------------

  /** JavaScript's `a % b` for `b > 0`: the remainder takes the sign of `a`. */
  function JsRem(a: int, b: int): (r: int)
    requires b > 0
    ensures a >= 0 ==> r == a % b
    ensures a < 0 ==> -b < r <= 0
  {
    if a >= 0 then a % b else -((-a) % b)
  }

  /** `String(n).padStart(2, '0')` */
  function Field(n: int): string {
    Pad2(IntToString(n))
  }

  /**
   * `HH:MM:SS` for a number of seconds: hours `Math.floor(t / 3600)`,
   * minutes `Math.floor((t % 3600) / 60)`, seconds `t % 60`, each padded to
   * two digits.  (Dafny's `/` by a positive divisor rounds down, like
   * `Math.floor`.)
   */
  function Clock(t: int): string {
    Field(t / 3600) + ":" + Field(JsRem(t, 3600) / 60) + ":" + Field(JsRem(t, 60))
  }

  /** The `formatTime` action: the clock of `seconds`, relative to `timeOffset` unless `relative` is false. */
  function FormatTime(seconds: int, relative: bool, timeOffset: int): string {
    Clock(if relative then seconds - timeOffset else seconds)
  }

  /**
   * `formatTime` of a time at or after the offset (or of any non-negative
   * time when not relative) reads back as that many seconds since the offset.
   */
  lemma FormatTimeReadsBack(seconds: int, relative: bool, timeOffset: int)
    requires (if relative then seconds - timeOffset else seconds) >= 0
    ensures var c := FormatTime(seconds, relative, timeOffset);
      && ClockShaped(c) && Minutes(c) < 60 && Seconds(c) < 60
      && Hours(c) * 3600 + Minutes(c) * 60 + Seconds(c) == (if relative then seconds - timeOffset else seconds)
  {
    ClockRoundTrip(if relative then seconds - timeOffset else seconds);
  }

  /** A leading zero does not change a decimal value. */
  lemma {:induction false} DigitsValueLeadingZero(s: string)
    ensures DigitsValue("0" + s) == DigitsValue(s)
    decreases |s|
  {
    if s != [] {
      var t := "0" + s;
      assert t[..|t| - 1] == "0" + s[..|s| - 1];
      DigitsValueLeadingZero(s[..|s| - 1]);
    } else {
      assert ("0" + s)[..0] == [];
    }
  }

  /** A padded field reads back as its value. */
  lemma FieldValue(n: nat)
    ensures |Field(n)| >= 2 && (n < 100 ==> |Field(n)| == 2)
    ensures forall k :: 0 <= k < |Field(n)| ==> IsDigit(Field(n)[k])
    ensures DigitsValue(Field(n)) == n
  {
    NatToStringRoundTrip(n);
    var d := NatToString(n);
    if n < 10 {
      assert |d| == 1;
      DigitsValueLeadingZero(d);
    } else {
      assert NatToString(n) == NatToString(n / 10) + [DigitChar(n % 10)];
      if n < 100 {
        assert n / 10 < 10;
      }
    }
  }

  /** `H:MM:SS`: digits, a colon, two digits, a colon, two digits, with at least two hour digits. */
  predicate ClockShaped(c: string) {
    && |c| >= 8 && c[|c| - 3] == ':' && c[|c| - 6] == ':'
    && (forall k :: 0 <= k < |c| - 6 ==> IsDigit(c[k]))
    && IsDigit(c[|c| - 5]) && IsDigit(c[|c| - 4]) && IsDigit(c[|c| - 2]) && IsDigit(c[|c| - 1])
  }

  /** The values of the three fields of a clock text. */
  function Hours(c: string): nat requires |c| >= 8 { DigitsValue(c[..|c| - 6]) }
  function Minutes(c: string): nat requires |c| >= 8 { DigitsValue(c[|c| - 5..|c| - 3]) }
  function Seconds(c: string): nat requires |c| >= 8 { DigitsValue(c[|c| - 2..]) }

  /**
   * For a non-negative time the clock is `H:MM:SS` with minute and second
   * fields below 60, and the three fields read back give the time again.
   */
  lemma ClockRoundTrip(t: int)
    requires t >= 0
    ensures ClockShaped(Clock(t))
    ensures Minutes(Clock(t)) < 60 && Seconds(Clock(t)) < 60
    ensures Hours(Clock(t)) * 3600 + Minutes(Clock(t)) * 60 + Seconds(Clock(t)) == t
  {
    var h, m, s := t / 3600, (t % 3600) / 60, t % 60;
    ClockFields(t);
    assert Clock(t) == Field(h) + ":" + Field(m) + ":" + Field(s);
    FieldValue(h);
    FieldValue(m);
    FieldValue(s);
    ClockShape(Field(h), Field(m), Field(s));
  }

  /** `fh:fm:fs` for digit fields, with two-digit minute and second fields, reads back field by field. */
  lemma ClockShape(fh: string, fm: string, fs: string)
    requires |fh| >= 2 && |fm| == 2 && |fs| == 2
    requires forall k :: 0 <= k < |fh| ==> IsDigit(fh[k])
    requires IsDigit(fm[0]) && IsDigit(fm[1]) && IsDigit(fs[0]) && IsDigit(fs[1])
    ensures var c := fh + ":" + fm + ":" + fs;
      && ClockShaped(c)
      && Hours(c) == DigitsValue(fh) && Minutes(c) == DigitsValue(fm) && Seconds(c) == DigitsValue(fs)
  {
    ClockLayout(fh, fm, fs);
  }

  /** The hour, minute and second of a non-negative time. */
  lemma ClockFields(t: int)
    requires t >= 0
    ensures JsRem(t, 3600) / 60 == (t % 3600) / 60 && JsRem(t, 60) == t % 60
    ensures (t % 3600) / 60 < 60
    ensures (t / 3600) * 3600 + ((t % 3600) / 60) * 60 + t % 60 == t
  {
    var r := t % 3600;
    assert t == (t / 3600) * 3600 + r;
    assert r == (r / 60) * 60 + r % 60;
    assert t == ((t / 3600) * 60 + r / 60) * 60 + r % 60;
    assert r % 60 == t % 60;
  }

  /** Where the fields sit in `fh:fm:fs` when the minute and second fields have two characters. */
  lemma ClockLayout(fh: string, fm: string, fs: string)
    requires |fm| == 2 && |fs| == 2
    ensures var c := fh + ":" + fm + ":" + fs;
      && |c| == |fh| + 6 && c[|c| - 3] == ':' && c[|c| - 6] == ':'
      && c[..|c| - 6] == fh && c[|c| - 5..|c| - 3] == fm && c[|c| - 2..] == fs
      && (forall k :: 0 <= k < |c| - 6 ==> c[k] == fh[k])
      && c[|c| - 5] == fm[0] && c[|c| - 4] == fm[1] && c[|c| - 2] == fs[0] && c[|c| - 1] == fs[1]
  {
  }

  /** Zero seconds is "00:00:00". */
  lemma ClockZero()
    ensures Clock(0) == "00:00:00"
  {
  }
}
