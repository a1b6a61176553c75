/**
 * How long a player was present in a round (`getPlayerPresenceTime`): the
 * round bounds, the player's join/leave sessions sorted by time, and a
 * sweep over them that adds up the intervals between a join and the next
 * leave.
 *
 * `Sweep`/`SweepAll` follow the code as written; `ClampedStep`/
 * `ClampedSweepAll` are the corrected sweep that keeps every interval
 * inside the round (see the finding in the README), which the store
 * method computes.
 */
module Presence {
  import opened Optional
  import opened Domain
  import opened Ordering
  import opened Store

  /** What the action returns (the floating-point percentage is left out). */
  datatype PresenceTime = PresenceTime(totalSeconds: int, formattedTime: string)

  /** The accumulators of the sweep: the total so far and the open join time (`currentJoinTime`). */
  datatype Sweep = Sweep(total: int, openedAt: Option<int>)

  /** `null` used as a number, as in `roundEnd - roundStart`, is 0. */
  function EndOrZero(endTime: Option<int>): int {
    if endTime.Some? then endTime.value else 0
  }

  /** `rounds.find(r => r.id === roundId)` */
  function FindRound(rounds: seq<Round>, id: int): (r: Option<Round>)
    ensures r.None? <==> forall k :: 0 <= k < |rounds| ==> rounds[k].id != id
    ensures r.Some? ==> exists k :: 0 <= k < |rounds| && rounds[k] == r.value && r.value.id == id
                          && forall j :: 0 <= j < k ==> rounds[j].id != id
  {
    if rounds == [] then None
    else if rounds[0].id == id then Some(rounds[0])
    else
      var r := FindRound(rounds[1..], id);
      assert forall k :: 1 <= k < |rounds| ==> rounds[1..][k - 1] == rounds[k];
      r
  }

  /**
   * The bounds the presence is measured against: the round's start and end
   * (a missing end counts as 0), or, without a round id, the earliest and
   * latest event.  `None` when the round is unknown or there are no events.
   */
  function PresenceBounds(events: seq<LogEvent>, rounds: seq<Round>, roundId: Option<int>): (r: Option<(int, int)>)
    ensures roundId.Some? ==> (r.None? <==> FindRound(rounds, roundId.value).None?)
    ensures roundId.None? ==> (r.None? <==> events == [])
    ensures roundId.None? && r.Some? ==> r.value.0 <= r.value.1
  {
    if roundId.Some? then
      var round := FindRound(rounds, roundId.value);
      if round.None? then None else Some((round.value.startTime, EndOrZero(round.value.endTime)))
    else if events == [] then None
    else Some((MinTime(events), MaxTime(events)))
  }

  /** The session is the player's and belongs to the round (any round when none is given). */
  predicate SessionOf(s: PlayerSession, player: string, roundId: Option<int>) {
    s.player == player && (roundId.None? || s.roundId == roundId)
  }

  /** The player's sessions in the round, sorted by time (stably). */
  function PlayerSessions(sessions: seq<PlayerSession>, player: string, roundId: Option<int>): seq<PlayerSession> {
    SortBy(Filter(sessions, s => SessionOf(s, player, roundId)), (s: PlayerSession) => s.time)
  }

  /** The player respawned in the round (in any round when none is given). */
  predicate HasRespawns(events: seq<LogEvent>, player: string, roundId: Option<int>) {
    exists k :: 0 <= k < |events| && events[k].player == player && (roundId.None? || events[k].roundId == roundId.value)
  }

  /**
   * The accumulators before the sweep: a player who respawned but has no
   * sessions was there the whole round; one who respawned and whose first
   * session is a leave was there from the start.
   */
  function SweepStart(hasRespawns: bool, ps: seq<PlayerSession>, start: int, end: int): Sweep {
    if hasRespawns && ps == [] then Sweep(end - start, None)
    else if hasRespawns && ps != [] && ps[0].action == Leave then Sweep(0, Some(start))
    else Sweep(0, None)
  }

  /** One session, as written: a join opens at `max(join, start)`, a leave closes at `min(leave, end)`. */
  function SweepStep(st: Sweep, s: PlayerSession, start: int, end: int): Sweep {
    match s.action
    case Join => Sweep(st.total, Some(if s.time > start then s.time else start))
    case Leave =>
      if st.openedAt.Some? then Sweep(st.total + (if s.time < end then s.time else end) - st.openedAt.value, None)
      else st
  }

  function SweepAll(st: Sweep, ps: seq<PlayerSession>, start: int, end: int): Sweep
    decreases |ps|
  {
    if ps == [] then st else SweepAll(SweepStep(st, ps[0], start, end), ps[1..], start, end)
  }

  /** An interval still open after the last session counts up to the end. */
  function Close(st: Sweep, end: int): int {
    if st.openedAt.Some? then st.total + end - st.openedAt.value else st.total
  }

  /** `Math.min(Math.max(t, start), end)`: a time moved inside the round. */
  function Clamp(t: int, start: int, end: int): (r: int)
    ensures start <= end ==> start <= r <= end
    ensures start <= t <= end ==> r == t
  {
    var lo := if t > start then t else start;
    if lo < end then lo else end
  }

  /** One session, corrected: the join is moved inside the round and a leave never closes before its join. */
  function ClampedStep(st: Sweep, s: PlayerSession, start: int, end: int): Sweep {
    match s.action
    case Join => Sweep(st.total, Some(Clamp(s.time, start, end)))
    case Leave =>
      if st.openedAt.Some? then
        var leave := Clamp(s.time, start, end);
        Sweep(st.total + (if leave > st.openedAt.value then leave - st.openedAt.value else 0), None)
      else st
  }

  function ClampedSweepAll(st: Sweep, ps: seq<PlayerSession>, start: int, end: int): Sweep
    decreases |ps|
  {
    if ps == [] then st else ClampedSweepAll(ClampedStep(st, ps[0], start, end), ps[1..], start, end)
  }

  /** `getPlayerPresenceTime` as written. */
  function PresenceAsWritten(events: seq<LogEvent>, rounds: seq<Round>, sessions: seq<PlayerSession>,
                             player: string, roundId: Option<int>): PresenceTime
  {
    AsWrittenFrom(PresenceBounds(events, rounds, roundId), HasRespawns(events, player, roundId),
                  PlayerSessions(sessions, player, roundId))
  }

  /** The computation as written once the bounds, the respawn test and the sorted sessions are known. */
  function AsWrittenFrom(bounds: Option<(int, int)>, hasRespawns: bool, ps: seq<PlayerSession>): PresenceTime {
    if bounds.None? || bounds.value.1 - bounds.value.0 == 0 then PresenceTime(0, "00:00:00")
    else
      var (start, end) := bounds.value;
      var total := Close(SweepAll(SweepStart(hasRespawns, ps, start, end), ps, start, end), end);
      PresenceTime(total, Clock(total))
  }

  /** `getPlayerPresenceTime` with the corrected sweep. */
  function Presence(events: seq<LogEvent>, rounds: seq<Round>, sessions: seq<PlayerSession>,
                    player: string, roundId: Option<int>): PresenceTime
  {
    PresenceFrom(PresenceBounds(events, rounds, roundId), HasRespawns(events, player, roundId),
                 PlayerSessions(sessions, player, roundId))
  }

  /** The corrected computation once the bounds, the respawn test and the sorted sessions are known. */
  function PresenceFrom(bounds: Option<(int, int)>, hasRespawns: bool, ps: seq<PlayerSession>): PresenceTime {
    if bounds.None? || bounds.value.1 - bounds.value.0 == 0 then PresenceTime(0, "00:00:00")
    else
      var (start, end) := bounds.value;
      var total := Close(ClampedSweepAll(SweepStart(hasRespawns, ps, start, end), ps, start, end), end);
      PresenceTime(total, Clock(total))
  }

  // ------------------------------------------------------------------
  // Properties
  // ------------------------------------------------------------------

  /** Zero, formatted "00:00:00", for an unknown round, no events, or a round of no duration. */
  lemma PresenceZeroCases(events: seq<LogEvent>, rounds: seq<Round>, sessions: seq<PlayerSession>,
                          player: string, roundId: Option<int>)
    requires || (roundId.Some? && forall k :: 0 <= k < |rounds| ==> rounds[k].id != roundId.value)
             || (roundId.None? && events == [])
             || (roundId.Some? && (exists k :: 0 <= k < |rounds| && rounds[k].id == roundId.value
                                                 && (forall j :: 0 <= j < k ==> rounds[j].id != roundId.value)
                                                 && EndOrZero(rounds[k].endTime) == rounds[k].startTime))
    ensures Presence(events, rounds, sessions, player, roundId) == PresenceTime(0, "00:00:00")
    ensures PresenceAsWritten(events, rounds, sessions, player, roundId) == PresenceTime(0, "00:00:00")
  {
    if roundId.Some? && exists k :: 0 <= k < |rounds| && rounds[k].id == roundId.value {
      var k :| 0 <= k < |rounds| && rounds[k].id == roundId.value
                   && (forall j :: 0 <= j < k ==> rounds[j].id != roundId.value)
                   && EndOrZero(rounds[k].endTime) == rounds[k].startTime;
      FindRoundFirst(rounds, roundId.value, k);
    }
  }

  /** The first round with the id is the one found. */
  lemma {:induction false} FindRoundFirst(rounds: seq<Round>, id: int, k: nat)
    requires k < |rounds| && rounds[k].id == id && forall j :: 0 <= j < k ==> rounds[j].id != id
    ensures FindRound(rounds, id) == Some(rounds[k])
  {
    if k > 0 {
      FindRoundFirst(rounds[1..], id, k - 1);
    }
  }

  /** A player who respawned and has no sessions was present for the whole round. */
  lemma PresenceFullDuration(events: seq<LogEvent>, rounds: seq<Round>, sessions: seq<PlayerSession>,
                             player: string, roundId: Option<int>)
    requires PresenceBounds(events, rounds, roundId).Some?
    requires HasRespawns(events, player, roundId)
    requires forall k :: 0 <= k < |sessions| ==> !SessionOf(sessions[k], player, roundId)
    ensures var b := PresenceBounds(events, rounds, roundId).value;
      Presence(events, rounds, sessions, player, roundId) == PresenceTime(b.1 - b.0, Clock(b.1 - b.0))
  {
    NoSessionsOf(sessions, player, roundId);
    WholeRound(PresenceBounds(events, rounds, roundId).value);
  }

  /** With respawns and no sessions the presence is the whole round. */
  lemma WholeRound(b: (int, int))
    ensures PresenceFrom(Some(b), true, []) == PresenceTime(b.1 - b.0, Clock(b.1 - b.0))
  {
    if b.1 - b.0 == 0 {
      ClockZero();
    }
  }

  /** The presence time once the bounds are known, non-empty, and the pass is done. */
  lemma PresenceOfSweep(events: seq<LogEvent>, rounds: seq<Round>, sessions: seq<PlayerSession>,
                          player: string, roundId: Option<int>, start: int, end: int, total: int)
    requires PresenceBounds(events, rounds, roundId) == Some((start, end)) && end - start != 0
    requires var ps := PlayerSessions(sessions, player, roundId);
      total == Close(ClampedSweepAll(SweepStart(HasRespawns(events, player, roundId), ps, start, end), ps, start, end), end)
    ensures Presence(events, rounds, sessions, player, roundId) == PresenceTime(total, Clock(total))
  {
  }

  /** Without sessions of the player the sorted list of them is empty. */
  lemma NoSessionsOf(sessions: seq<PlayerSession>, player: string, roundId: Option<int>)
    requires forall k :: 0 <= k < |sessions| ==> !SessionOf(sessions[k], player, roundId)
    ensures PlayerSessions(sessions, player, roundId) == []
  {
    FilterNone(sessions, s => SessionOf(s, player, roundId));
  }

  /** The sweep only adds to the total it starts from. */
  lemma {:induction false} ClampedSweepShift(st: Sweep, ps: seq<PlayerSession>, start: int, end: int)
    ensures ClampedSweepAll(st, ps, start, end).total
            == st.total + ClampedSweepAll(Sweep(0, st.openedAt), ps, start, end).total
    ensures ClampedSweepAll(st, ps, start, end).openedAt == ClampedSweepAll(Sweep(0, st.openedAt), ps, start, end).openedAt
    decreases |ps|
  {
    if ps != [] {
      var st' := ClampedStep(st, ps[0], start, end);
      var zero' := ClampedStep(Sweep(0, st.openedAt), ps[0], start, end);
      ClampedSweepShift(st', ps[1..], start, end);
      ClampedSweepShift(zero', ps[1..], start, end);
    }
  }

  /**
   * A player who respawned and whose first session is a leave was present
   * from the start: the first interval runs from the start to that leave.
   */
  lemma LeaveFirstCountsFromStart(hasRespawns: bool, ps: seq<PlayerSession>, start: int, end: int)
    requires hasRespawns && ps != [] && ps[0].action == Leave && start <= end
    ensures var first := Clamp(ps[0].time, start, end);
      Close(ClampedSweepAll(SweepStart(hasRespawns, ps, start, end), ps, start, end), end)
      == (first - start) + Close(ClampedSweepAll(Sweep(0, None), ps[1..], start, end), end)
  {
    var st := ClampedStep(Sweep(0, Some(start)), ps[0], start, end);
    ClampedSweepShift(st, ps[1..], start, end);
  }

  /** A leave with no open interval changes nothing. */
  lemma LeaveWithoutJoinIgnored(st: Sweep, s: PlayerSession, start: int, end: int)
    requires s.action == Leave && st.openedAt.None?
    ensures ClampedStep(st, s, start, end) == st
    ensures SweepStep(st, s, start, end) == st
  {
  }

  /** A join then a leave inside the round count the time between them. */
  lemma JoinLeaveInterval(join: PlayerSession, leave: PlayerSession, start: int, end: int)
    requires join.action == Join && leave.action == Leave
    requires start <= join.time <= leave.time <= end
    ensures Close(ClampedSweepAll(Sweep(0, None), [join, leave], start, end), end) == leave.time - join.time
    ensures Close(SweepAll(Sweep(0, None), [join, leave], start, end), end) == leave.time - join.time
  {
    var afterJoin := Sweep(0, Some(join.time));
    var closed := Sweep(leave.time - join.time, None);
    assert [join, leave][1..] == [leave];
    assert [leave][1..] == [];
    assert ClampedStep(Sweep(0, None), join, start, end) == afterJoin == SweepStep(Sweep(0, None), join, start, end);
    assert ClampedStep(afterJoin, leave, start, end) == closed == SweepStep(afterJoin, leave, start, end);
    assert ClampedSweepAll(afterJoin, [leave], start, end) == ClampedSweepAll(closed, [], start, end);
    assert SweepAll(afterJoin, [leave], start, end) == SweepAll(closed, [], start, end);
  }

  /** A join with no leave after it counts up to the round end. */
  lemma JoinWithoutLeaveCountsToEnd(join: PlayerSession, start: int, end: int)
    requires join.action == Join && start <= join.time <= end
    ensures Close(ClampedSweepAll(Sweep(0, None), [join], start, end), end) == end - join.time
    ensures Close(SweepAll(Sweep(0, None), [join], start, end), end) == end - join.time
  {
    assert [join][1..] == [];
  }

  /** The sessions are in time order. */
  predicate TimeSorted(ps: seq<PlayerSession>) {
    forall i, j :: 0 <= i < j < |ps| ==> ps[i].time <= ps[j].time
  }

  /**
   * What holds of the corrected sweep after the sessions up to `mark`: the
   * total is at most the time from the start to the open join (or to
   * `mark` when none is open).
   */
  predicate SweepBounded(st: Sweep, mark: int, start: int, end: int) {
    && start <= mark <= end
    && 0 <= st.total
    && (st.openedAt.Some? ==> start <= st.openedAt.value <= mark && st.total <= st.openedAt.value - start)
    && (st.openedAt.None? ==> st.total <= mark - start)
  }

  lemma {:induction false} ClampedSweepBounded(st: Sweep, mark: int, ps: seq<PlayerSession>, start: int, end: int)
    requires SweepBounded(st, mark, start, end) && TimeSorted(ps)
    requires forall k :: 0 <= k < |ps| ==> mark <= Clamp(ps[k].time, start, end)
    ensures 0 <= Close(ClampedSweepAll(st, ps, start, end), end) <= end - start
    decreases |ps|
  {
    if ps != [] {
      var c := Clamp(ps[0].time, start, end);
      var st' := ClampedStep(st, ps[0], start, end);
      assert SweepBounded(st', c, start, end);
      forall k | 0 <= k < |ps[1..]|
        ensures c <= Clamp(ps[1..][k].time, start, end)
      {
        assert ps[1..][k] == ps[k + 1];
      }
      ClampedSweepBounded(st', c, ps[1..], start, end);
    }
  }

  /**
   * The corrected presence lies between zero and the round duration
   * whenever the round does not end before it starts.
   */
  lemma PresenceWithinRound(events: seq<LogEvent>, rounds: seq<Round>, sessions: seq<PlayerSession>,
                            player: string, roundId: Option<int>)
    requires var b := PresenceBounds(events, rounds, roundId); b.Some? ==> b.value.0 <= b.value.1
    ensures var b := PresenceBounds(events, rounds, roundId);
      var total := Presence(events, rounds, sessions, player, roundId).totalSeconds;
      && 0 <= total
      && (b.Some? ==> total <= b.value.1 - b.value.0)
  {
    var b := PresenceBounds(events, rounds, roundId);
    if b.Some? && b.value.1 - b.value.0 != 0 {
      var (start, end) := b.value;
      var ps := PlayerSessions(sessions, player, roundId);
      assert TimeSorted(ps);
      StartedSweepBounded(HasRespawns(events, player, roundId), ps, start, end);
    }
  }

  /** From any start state the corrected sweep over time-sorted sessions closes between zero and the duration. */
  lemma StartedSweepBounded(hasRespawns: bool, ps: seq<PlayerSession>, start: int, end: int)
    requires start <= end && TimeSorted(ps)
    ensures 0 <= Close(ClampedSweepAll(SweepStart(hasRespawns, ps, start, end), ps, start, end), end) <= end - start
  {
    var st := SweepStart(hasRespawns, ps, start, end);
    var mark := if hasRespawns && ps == [] then end else start;
    assert SweepBounded(st, mark, start, end);
    ClampedSweepBounded(st, mark, ps, start, end);
  }

  /**
   * For time-sorted sessions that all lie inside the round the corrected
   * sweep is the sweep as written.
   */
  lemma {:induction false} SweepsAgreeInsideRound(st: Sweep, ps: seq<PlayerSession>, start: int, end: int)
    requires TimeSorted(ps)
    requires forall k :: 0 <= k < |ps| ==> start <= ps[k].time <= end
    requires st.openedAt.Some? && ps != [] ==> st.openedAt.value <= ps[0].time
    requires st.openedAt.Some? ==> start <= st.openedAt.value
    ensures ClampedSweepAll(st, ps, start, end) == SweepAll(st, ps, start, end)
    decreases |ps|
  {
    if ps != [] {
      var st' := SweepStep(st, ps[0], start, end);
      assert ClampedStep(st, ps[0], start, end) == st';
      if |ps| > 1 {
        assert ps[1..][0] == ps[1];
      }
      forall k | 0 <= k < |ps[1..]|
        ensures start <= ps[1..][k].time <= end
      {
        assert ps[1..][k] == ps[k + 1];
      }
      SweepsAgreeInsideRound(st', ps[1..], start, end);
    }
  }

  /** The presence as written and corrected agree when every session of the player lies inside the round. */
  lemma PresenceAgreesInsideRound(events: seq<LogEvent>, rounds: seq<Round>, sessions: seq<PlayerSession>,
                                  player: string, roundId: Option<int>)
    requires var b := PresenceBounds(events, rounds, roundId);
      b.Some? ==> forall k :: 0 <= k < |sessions| && SessionOf(sessions[k], player, roundId)
                    ==> b.value.0 <= sessions[k].time <= b.value.1
    ensures Presence(events, rounds, sessions, player, roundId)
            == PresenceAsWritten(events, rounds, sessions, player, roundId)
  {
    var b := PresenceBounds(events, rounds, roundId);
    if b.Some? && b.value.1 - b.value.0 != 0 {
      var (start, end) := b.value;
      var ps := PlayerSessions(sessions, player, roundId);
      PlayerSessionsInside(sessions, player, roundId, start, end);
      assert TimeSorted(ps);
      StartedSweepsAgree(HasRespawns(events, player, roundId), ps, start, end);
      PresencesOfAgreeingSweeps(events, rounds, sessions, player, roundId, start, end);
    }
  }

  /** From the start state the two sweeps agree on time-sorted sessions inside the round. */
  lemma StartedSweepsAgree(hasRespawns: bool, ps: seq<PlayerSession>, start: int, end: int)
    requires TimeSorted(ps) && forall k :: 0 <= k < |ps| ==> start <= ps[k].time <= end
    ensures var st := SweepStart(hasRespawns, ps, start, end);
      ClampedSweepAll(st, ps, start, end) == SweepAll(st, ps, start, end)
  {
    SweepsAgreeInsideRound(SweepStart(hasRespawns, ps, start, end), ps, start, end);
  }

  /** When the two sweeps agree on the player's sessions the two presence times agree. */
  lemma PresencesOfAgreeingSweeps(events: seq<LogEvent>, rounds: seq<Round>, sessions: seq<PlayerSession>,
                                  player: string, roundId: Option<int>, start: int, end: int)
    requires PresenceBounds(events, rounds, roundId) == Some((start, end)) && end - start != 0
    requires var ps := PlayerSessions(sessions, player, roundId);
      var st := SweepStart(HasRespawns(events, player, roundId), ps, start, end);
      ClampedSweepAll(st, ps, start, end) == SweepAll(st, ps, start, end)
    ensures Presence(events, rounds, sessions, player, roundId)
            == PresenceAsWritten(events, rounds, sessions, player, roundId)
  {
  }

  /** The player's sessions lie inside an interval when all sessions of that player and round do. */
  lemma PlayerSessionsInside(sessions: seq<PlayerSession>, player: string, roundId: Option<int>, start: int, end: int)
    requires forall k :: 0 <= k < |sessions| && SessionOf(sessions[k], player, roundId) ==> start <= sessions[k].time <= end
    ensures var ps := PlayerSessions(sessions, player, roundId);
      forall k :: 0 <= k < |ps| ==> start <= ps[k].time <= end
  {
    var p := s => SessionOf(s, player, roundId);
    var ps := PlayerSessions(sessions, player, roundId);
    forall k | 0 <= k < |ps|
      ensures start <= ps[k].time <= end
    {
      assert ps[k] in multiset(ps);
      assert ps[k] in multiset(Filter(sessions, p));
      FilterMembers(sessions, p, ps[k]);
    }
  }

  /**
   * As written the presence can be negative: a join after the round's end
   * (the round stays current after its victory line) opens the interval
   * after the end, and the end minus that join is negative.
   */
  lemma JoinAfterEndGivesNegativePresence()
    ensures var rounds := [Round(1, 100, Some(1000), "Antietam", None, Complete, Some(USA), [])];
      var sessions := [PlayerSession("Pvt. Ames", Join, 1100, Some(1))];
      && PresenceAsWritten([], rounds, sessions, "Pvt. Ames", Some(1)).totalSeconds == -100
      && Presence([], rounds, sessions, "Pvt. Ames", Some(1)).totalSeconds == 0
  {
    var rounds := [Round(1, 100, Some(1000), "Antietam", None, Complete, Some(USA), [])];
    var s := PlayerSession("Pvt. Ames", Join, 1100, Some(1));
    var p := x => SessionOf(x, "Pvt. Ames", Some(1));
    assert FindRound(rounds, 1) == Some(rounds[0]);
    assert [s][..0] == [];
    assert Filter([s], p) == [s];
    assert SortBy([s], (x: PlayerSession) => x.time) == [s];
    assert !HasRespawns([], "Pvt. Ames", Some(1));
    assert [s][1..] == [];
  }
}
