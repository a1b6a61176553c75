/** The `<HH:MM:SS>` clock stamp at the head of every game log line. */
module Timestamp {
  import opened Optional
  import opened Text

  /** `<dd:dd:dd>` starts at position `p` of `s`. */
  predicate ClockAt(s: string, p: nat) {
    && p + 10 <= |s|
    && s[p] == '<' && IsDigit(s[p + 1]) && IsDigit(s[p + 2])
    && s[p + 3] == ':' && IsDigit(s[p + 4]) && IsDigit(s[p + 5])
    && s[p + 6] == ':' && IsDigit(s[p + 7]) && IsDigit(s[p + 8])
    && s[p + 9] == '>'
  }

  /** The value of two decimal digits. */
  function TwoDigits(a: char, b: char): (r: nat)
    requires IsDigit(a) && IsDigit(b)
    ensures r <= 99
  {
    10 * (a as int - '0' as int) + (b as int - '0' as int)
  }

  /** Seconds since midnight denoted by the stamp at `p`: hours*3600 + minutes*60 + seconds. */
  function ClockValue(s: string, p: nat): (r: nat)
    requires ClockAt(s, p)
    ensures r <= 99 * 3600 + 99 * 60 + 99
  {
    TwoDigits(s[p + 1], s[p + 2]) * 3600 + TwoDigits(s[p + 4], s[p + 5]) * 60 + TwoDigits(s[p + 7], s[p + 8])
  }

  /** Leftmost stamp at or after `from`. */
  function FindClock(s: string, from: nat): (r: Option<nat>)
    ensures r.Some? ==> from <= r.value && ClockAt(s, r.value)
    ensures r.Some? ==> forall q :: from <= q < r.value ==> !ClockAt(s, q)
    ensures r.None? ==> forall q :: from <= q ==> !ClockAt(s, q)
    decreases |s| - from
  {
    if from + 10 > |s| then None
    else if ClockAt(s, from) then Some(from)
    else FindClock(s, from + 1)
  }

  /**
   * The seconds value of the first `<HH:MM:SS>` in the line, or `None` when
   * the line has none.  The fields are not range-checked, so the value can
   * reach 99*3600 + 99*60 + 99.
   */
  function ParseTimestamp(line: string): (r: Option<nat>)
    ensures r.Some? <==> exists p: nat :: ClockAt(line, p)
    ensures r.Some? ==> exists p: nat ::
                          && ClockAt(line, p)
                          && (forall q :: 0 <= q < p ==> !ClockAt(line, q))
                          && r.value == ClockValue(line, p)
    ensures r.Some? ==> r.value <= 362439
  {
    match FindClock(line, 0)
    case None => None
    case Some(p) => Some(ClockValue(line, p))
  }

  /**
   * A stamp whose fields are a real time of day denotes a second of that
   * day, and its hours, minutes and seconds can be read back from the value.
   */
  lemma DayClock(s: string, p: nat)
    requires ClockAt(s, p)
    requires TwoDigits(s[p + 1], s[p + 2]) < 24 && TwoDigits(s[p + 4], s[p + 5]) < 60 && TwoDigits(s[p + 7], s[p + 8]) < 60
    ensures ClockValue(s, p) < 86400
    ensures ClockValue(s, p) / 3600 == TwoDigits(s[p + 1], s[p + 2])
    ensures ClockValue(s, p) % 3600 / 60 == TwoDigits(s[p + 4], s[p + 5])
    ensures ClockValue(s, p) % 60 == TwoDigits(s[p + 7], s[p + 8])
  {
    var h, m, sec := TwoDigits(s[p + 1], s[p + 2]), TwoDigits(s[p + 4], s[p + 5]), TwoDigits(s[p + 7], s[p + 8]);
    var v := ClockValue(s, p);
    assert v == h * 3600 + (m * 60 + sec);
    assert 0 <= m * 60 + sec < 3600;
    assert v / 3600 == h && v % 3600 == m * 60 + sec;
    assert v % 60 == sec by {
      assert v == (h * 60 + m) * 60 + sec;
    }
  }

  /** A line without a `<` carries no stamp. */
  lemma NoAngleNoStamp(line: string)
    requires '<' !in line
    ensures ParseTimestamp(line) == None
  {
  }
}
