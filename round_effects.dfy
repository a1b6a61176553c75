/** What each kind of log line does to the parser state. */
module RoundEffects {
  import opened Optional
  import opened Text
  import opened Timestamp
  import opened Regiment
  import opened LogSyntax
  import opened Domain
  import opened RoundMachine
  import opened RoundInvariant

  // ------------------------------------------------------------------
  // Lines that change nothing
  // ------------------------------------------------------------------

  /** Until a line carries the initialisation marker, lines change nothing at all. */
  lemma {:induction false} LinesBeforeMarkerInert(cfg: Config, m: Machine, lines: seq<string>)
    requires WellFormed(m) && !m.initialized
    requires forall k :: 0 <= k < |lines| ==> !Contains(lines[k], InitMarker)
    ensures Run(cfg, m, lines) == m
  {
    if lines != [] {
      LinesBeforeMarkerInert(cfg, m, lines[..|lines| - 1]);
    }
  }

  /** The marker line itself only sets `initialized`. */
  lemma MarkerLineInitializes(cfg: Config, m: Machine, line: string)
    requires WellFormed(m) && !m.initialized && Contains(line, InitMarker)
    ensures Step(cfg, m, line) == m.(initialized := true)
  {
  }

  /** Once initialised, a line without a stamp, or stamped `<00:00:00>`, changes nothing. */
  lemma UnstampedLineInert(cfg: Config, m: Machine, line: string)
    requires WellFormed(m) && m.initialized
    requires ParseTimestamp(line) == None || ParseTimestamp(line) == Some(0)
    ensures Step(cfg, m, line) == m
  {
  }

  /** A line of whitespace changes nothing, initialised or not. */
  lemma BlankLineInert(cfg: Config, m: Machine, line: string)
    requires WellFormed(m)
    requires forall k :: 0 <= k < |line| ==> IsSpace(line[k])
    ensures Step(cfg, m, line) == m
  {
    BlankContainsNothing(line, InitMarker, 0);
    NoAngleNoStamp(line);
  }

  // ------------------------------------------------------------------
  // Map change and round start
  // ------------------------------------------------------------------

  /**
   * A map change closes the current round, if any, at `lastEventTime || timestamp`
   * with one warning, and leaves no round current; it opens none.
   */
  lemma MapChangeEffect(m: Machine, info: LineInfo, ts: int)
    requires Inv(m) && info.newMap.Some?
    ensures var r := TrackMapChange(m, info, ts);
      && r.current == None && r.currentMap == info.newMap
      && |r.rounds| == |m.rounds| && r.roundCounter == m.roundCounter
      && r.events == m.events && r.sessions == m.sessions
      && (m.current.None? ==> r.rounds == m.rounds && r.warnings == m.warnings)
      && (m.current.Some? ==>
            && r.rounds == m.rounds[m.current.value := CurrentRound(m).(endTime := Some(OrElse(m.lastEventTime, ts)), status := Incomplete)]
            && r.warnings == m.warnings + [Warning(IncompleteRound,
                 "Round " + IntToString(CurrentRound(m).id) + " on " + CurrentRound(m).mapName + " ended without victory (map change)")])
  {
  }

  /**
   * A round start closes the current round, if any (a Complete one too), with
   * one warning, then opens round `roundCounter + 1` on the current map with
   * the current game rules.
   */
  lemma RoundStartEffect(m: Machine, info: LineInfo, ts: int)
    requires Inv(m) && info.roundStarted
    ensures var r := TrackRoundStart(m, info, ts);
      && Inv(r)
      && |r.rounds| == |m.rounds| + 1 && r.current == Some(|m.rounds|)
      && CurrentRound(r) == Round(m.roundCounter + 1, ts, None, MapOrUnknown(m.currentMap), m.currentGameRules, Incomplete, None, [])
      && (m.current.None? ==> r.rounds[..|m.rounds|] == m.rounds && r.warnings == m.warnings)
      && (m.current.Some? ==>
            && r.rounds[m.current.value] == CurrentRound(m).(endTime := Some(OrElse(m.lastEventTime, ts)), status := Incomplete)
            && r.warnings == m.warnings + [Warning(IncompleteRound,
                 "Round " + IntToString(CurrentRound(m).id) + " ended without victory (new round started)")])
  {
    RoundStartInv(m, info, ts);
  }

  /** A round start or a map change after a victory turns the Complete round back into an Incomplete one. */
  lemma VictoryThenRestartReopens(m: Machine, won: LineInfo, next: LineInfo, t1: int, t2: int)
    requires Inv(m) && m.current.Some? && won.victoryTeam.Some?
    requires next.roundStarted || next.newMap.Some?
    ensures var v := TrackVictory(m, won, t1);
      && CurrentRound(v).status == Complete
      && (next.roundStarted ==> TrackRoundStart(v, next, t2).rounds[m.current.value].status == Incomplete)
      && (next.newMap.Some? ==> TrackMapChange(v, next, t2).rounds[m.current.value].status == Incomplete)
  {
    VictoryInv(m, won, t1);
  }

  // ------------------------------------------------------------------
  // Victory, join and leave
  // ------------------------------------------------------------------

  /** TeamID 0 is CSA, 1 and 2 are USA, any other value Unknown. */
  lemma WinnerMapping(teamId: nat)
    ensures Winner(teamId) == CSA <==> teamId == 0
    ensures Winner(teamId) == USA <==> teamId == 1 || teamId == 2
    ensures Winner(teamId) == Unknown <==> teamId > 2
  {
  }

  /** Victory completes the current round at the line's time; without a current round it does nothing. */
  lemma VictoryEffect(m: Machine, info: LineInfo, ts: int)
    requires Inv(m) && info.victoryTeam.Some?
    ensures var r := TrackVictory(m, info, ts);
      && (m.current.None? ==> r == m)
      && (m.current.Some? ==>
            && r.current == m.current && |r.rounds| == |m.rounds|
            && CurrentRound(r) == CurrentRound(m).(endTime := Some(ts), status := Complete, winner := Some(Winner(info.victoryTeam.value)))
            && (forall i :: 0 <= i < |m.rounds| && i != m.current.value ==> r.rounds[i] == m.rounds[i])
            && r.warnings == m.warnings && r.events == m.events)
  {
  }

  /** A join or leave appends one session stamped with the line's time and the current round's id, and touches no round. */
  lemma SessionEffect(m: Machine, info: LineInfo, ts: int)
    requires Inv(m)
    ensures var r := TrackJoin(m, info, ts);
      && r.rounds == m.rounds && r.current == m.current && r.events == m.events && r.warnings == m.warnings
      && r.sessions == m.sessions + (if info.joined.Some? then [PlayerSession(info.joined.value, Join, ts, CurrentId(m))] else [])
    ensures var r := TrackLeave(m, info, ts);
      && r.rounds == m.rounds && r.current == m.current && r.events == m.events && r.warnings == m.warnings
      && r.sessions == m.sessions + (if info.left.Some? then [PlayerSession(info.left.value, Leave, ts, CurrentId(m))] else [])
    ensures CurrentId(m).Some? ==> CurrentId(m).value == |m.rounds|
  {
  }

  // ------------------------------------------------------------------
  // Respawn
  // ------------------------------------------------------------------

  /** Within 60 seconds of the current round's start a respawn records nothing and changes nothing. */
  lemma GracePeriodSkips(cfg: Config, m: Machine, info: LineInfo, ts: int)
    requires Inv(m) && info.respawned.Some? && InGracePeriod(m, ts)
    ensures TrackRespawn(cfg, m, info, ts) == m
  {
  }

  /**
   * An idle gap closes the current round at the last event (without a warning
   * of its own), opens a Pseudo round on "Unknown Map" with no game rules,
   * and adds exactly one pseudo warning naming the new round.
   */
  lemma IdleGapEffect(cfg: Config, m: Machine, ts: int)
    requires Inv(m) && IdleGap(cfg, m, ts)
    ensures var r := StartPseudoRound(cfg, m, ts);
      && Inv(r)
      && |r.rounds| == |m.rounds| + 1 && r.current == Some(|m.rounds|)
      && CurrentRound(r) == Round(|m.rounds| + 1, ts, None, "Unknown Map", None, Pseudo, None, [])
      && (m.current.Some? ==>
            r.rounds[m.current.value] == CurrentRound(m).(endTime := m.lastEventTime, status := Incomplete))
      && (m.current.None? ==> r.rounds[..|m.rounds|] == m.rounds)
      && r.warnings == m.warnings + [Warning(PseudoRound,
           "Pseudo-round " + IntToString(|m.rounds| + 1) + " created after " + IntToString(cfg.idleGapSeconds) + "s idle gap")]
      && r.events == m.events && r.sessions == m.sessions
  {
    var closed := if m.current.Some? then CloseCurrent(m, m.lastEventTime.value) else m;
    if m.current.Some? {
      CloseCurrentInv(m, m.lastEventTime.value);
    }
    OpenRoundInv(closed, ts, "Unknown Map", None, Pseudo);
  }

  /**
   * A respawn outside the grace period is recorded as one event carrying the
   * current round's id and map (after any idle-gap round or a lazily opened
   * one), appended to the event list and to that round's respawns; it sets
   * `lastEventTime`.  A round opened here starts at the respawn's time.
   */
  lemma RespawnEffect(cfg: Config, m: Machine, info: LineInfo, ts: int)
    requires Inv(m) && info.respawned.Some? && !InGracePeriod(m, ts)
    ensures var r := TrackRespawn(cfg, m, info, ts);
      && Inv(r) && r.current.Some?
      && r.events == m.events + [LogEvent(ts, info.respawned.value, ExtractRegiment(cfg.rules, info.respawned.value), CurrentRound(r).id, CurrentRound(r).mapName)]
      && CurrentRound(r).respawns != [] && CurrentRound(r).respawns[|CurrentRound(r).respawns| - 1] == r.events[|r.events| - 1]
      && r.lastEventTime == Some(ts)
      && r.sessions == m.sessions
      && (m.current.Some? && !IdleGap(cfg, m, ts) ==> r.current == m.current && |r.rounds| == |m.rounds| && r.warnings == m.warnings)
      && (m.current.None? && !IdleGap(cfg, m, ts) ==>
            && |r.rounds| == |m.rounds| + 1 && r.warnings == m.warnings
            && CurrentRound(r).id == m.roundCounter + 1 && CurrentRound(r).startTime == ts
            && CurrentRound(r).mapName == MapOrUnknown(m.currentMap) && CurrentRound(r).gameRules == m.currentGameRules
            && CurrentRound(r).status == Incomplete)
      && (IdleGap(cfg, m, ts) ==> CurrentRound(r).status == Pseudo && CurrentRound(r).startTime == ts)
  {
    RespawnInv(cfg, m, info, ts);
    if IdleGap(cfg, m, ts) {
      IdleGapEffect(cfg, m, ts);
    } else if m.current.None? {
      OpenRoundInv(m, ts, MapOrUnknown(m.currentMap), m.currentGameRules, Incomplete);
    }
  }

  /** The respawn that opens a round makes the grace period cover every respawn of the next 60 seconds. */
  lemma OpenedRoundSuppressesFollowers(cfg: Config, m: Machine, info: LineInfo, ts: int, later: int)
    requires Inv(m) && info.respawned.Some? && !InGracePeriod(m, ts)
    requires m.current.None? || IdleGap(cfg, m, ts)
    requires later - ts < 60
    ensures InGracePeriod(TrackRespawn(cfg, m, info, ts), later)
  {
    RespawnEffect(cfg, m, info, ts);
  }

  // ------------------------------------------------------------------
  // End of input (batch parser only)
  // ------------------------------------------------------------------

  /**
   * At the end of the log a current Incomplete round ends at
   * `lastEventTime || startTime` with one "end of log" warning; a Complete or
   * Pseudo round, or no round, is left as it is.
   */
  lemma EndOfLogEffect(m: Machine)
    requires Inv(m)
    ensures var r := EndOfLog(m);
      && r.events == m.events && r.sessions == m.sessions && r.current == m.current
      && (m.current.Some? && CurrentRound(m).status == Incomplete ==>
            && r.rounds == m.rounds[m.current.value := CurrentRound(m).(endTime := Some(OrElse(m.lastEventTime, CurrentRound(m).startTime)))]
            && r.warnings == m.warnings + [Warning(IncompleteRound, "Round " + IntToString(CurrentRound(m).id) + " ended without victory (end of log)")])
      && (m.current.None? || CurrentRound(m).status != Incomplete ==> r == m)
  {
  }
}
