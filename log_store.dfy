/**
 * The log store's state and the actions that change it or loop over it.
 * The getters over this state are the functions of `Store` and
 * `Rankings`, applied to these fields.
 */
module Actions {
  import opened Optional
  import opened Domain
  import opened Ordering
  import opened Store
  import opened Presence
  import opened Reassignments
  import opened Teams

  class LogStore {
    var events: seq<LogEvent>
    var rounds: seq<Round>
    var playerSessions: seq<PlayerSession>
    var timeRange: (int, int)
    var filterText: string
    var selectedRoundId: Option<int>
    var regimentTeams: TeamTable
    var manualReassignments: seq<Reassignment>

    /** The initial state: no data, the whole day as time range, no filter, no round selected. */
    constructor()
      ensures events == [] && rounds == [] && playerSessions == []
      ensures timeRange == (0, 86400) && filterText == "" && selectedRoundId.None?
      ensures regimentTeams == map[] && manualReassignments == []
    {
      events := [];
      rounds := [];
      playerSessions := [];
      timeRange := (0, 86400);
      filterText := "";
      selectedRoundId := None;
      regimentTeams := map[];
      manualReassignments := [];
    }

    /**
     * `setSelectedRound`: selects the round (or none) and sets the time
     * range to the bounds of its events, leaving it as it was when there
     * are none.
     */
    method SetSelectedRound(roundId: Option<int>)
      modifies this`selectedRoundId, this`timeRange
      ensures selectedRoundId == roundId
      ensures RoundScope(events, roundId) != [] ==> timeRange == TimeBounds(events, roundId)
      ensures RoundScope(events, roundId) == [] ==> timeRange == old(timeRange)
    {
      var evs := events;
      var inScope := if roundId.Some? then RoundScope(evs, roundId) else evs;
      SelectedScope(evs, roundId, inScope);
      selectedRoundId := roundId;
      if |inScope| > 0 {
        timeRange := (MinTime(inScope), MaxTime(inScope));
      }
    }

    /**
     * `getPlayerPresenceTime`: the bounds, the player's sessions in time
     * order, then one pass with the running total and the open join time.
     */
    method GetPlayerPresenceTime(player: string, roundId: Option<int>) returns (r: PresenceTime)
      ensures r == Presence.Presence(events, rounds, playerSessions, player, roundId)
    {
      var evs, rds, sessions := events, rounds, playerSessions;
      var bounds := PresenceBounds(evs, rds, roundId);
      if bounds.None? || bounds.value.1 - bounds.value.0 == 0 {
        return PresenceTime(0, "00:00:00");
      }
      var (start, end) := bounds.value;
      var ps := PlayerSessions(sessions, player, roundId);
      var hasRespawns := HasRespawns(evs, player, roundId);
      var total := SweepFrom(hasRespawns, ps, start, end);
      PresenceOfSweep(evs, rds, sessions, player, roundId, start, end, total);
      r := PresenceTime(total, Clock(total));
    }

    /**
     * `applyRegimentReassignments`: first log each change against the
     * events as they are, then give every event of a reassigned player its
     * new regiment.
     */
    method ApplyRegimentReassignments(entries: seq<(string, string)>)
      requires DistinctKeys(entries)
      modifies this`manualReassignments, this`events
      ensures manualReassignments == Track(old(manualReassignments), old(events), entries)
      ensures events == Reassign(old(events), entries)
    {
      TrackReassignments(entries);
      ApplyToEvents(entries);
    }

    /** The tracking pass: one log update per entry, against the events as they are. */
    method TrackReassignments(entries: seq<(string, string)>)
      modifies this`manualReassignments
      ensures manualReassignments == Track(old(manualReassignments), events, entries)
    {
      var i := 0;
      while i < |entries|
        invariant 0 <= i <= |entries|
        invariant manualReassignments == Track(old(manualReassignments), events, entries[..i])
      {
        var (player, newRegiment) := entries[i];
        var first := FirstEventOf(events, player);
        if first.Some? && first.value.regiment != Some(newRegiment) {
          var found := FindReassignment(manualReassignments, player);
          if found.Some? {
            var kept := manualReassignments[found.value].originalRegiment;
            manualReassignments := manualReassignments[found.value := Reassignment(player, kept, newRegiment)];
          } else {
            manualReassignments := manualReassignments + [Reassignment(player, first.value.regiment, newRegiment)];
          }
        }
        assert entries[..i + 1][..i] == entries[..i];
        i := i + 1;
      }
      assert entries[..i] == entries;
    }

    /** The application pass: every event of a player with a non-empty new regiment takes it. */
    method ApplyToEvents(entries: seq<(string, string)>)
      modifies this`events
      ensures events == Reassign(old(events), entries)
    {
      var k := 0;
      while k < |events|
        invariant 0 <= k <= |events| && |events| == |old(events)|
        invariant forall j :: 0 <= j < k ==> events[j] == ReassignEvent(old(events)[j], entries)
        invariant forall j :: k <= j < |events| ==> events[j] == old(events)[j]
      {
        var v := Lookup(entries, events[k].player);
        if v.Some? && v.value != "" {
          events := events[k := events[k].(regiment := Some(v.value))];
        }
        k := k + 1;
      }
    }

    /**
     * `setRegimentTeam`: sets or deletes a regiment's team in the target
     * round; refused, changing nothing, when no round is addressed and
     * there is more than one round.
     */
    method SetRegimentTeam(regiment: string, team: Option<string>, roundId: Option<int>)
      modifies this`regimentTeams
      ensures var target := TargetRound(roundId, selectedRoundId);
        regimentTeams == if AssignmentBlocked(target, |rounds|) then old(regimentTeams)
                         else AssignTeam(old(regimentTeams), target, regiment, team)
    {
      var target := if roundId.Some? then roundId else selectedRoundId;
      if target.None? && |rounds| > 1 {
        return;
      }
      if target !in regimentTeams {
        regimentTeams := regimentTeams[target := map[]];
      }
      if team.None? {
        regimentTeams := regimentTeams[target := regimentTeams[target] - {regiment}];
      } else {
        regimentTeams := regimentTeams[target := regimentTeams[target][regiment := team.value]];
      }
    }

    /** `getRegimentTeam`: the team of a regiment in the target round, if one is set. */
    method GetRegimentTeam(regiment: string, roundId: Option<int>) returns (r: Option<string>)
      ensures r == LookupTeam(regimentTeams, TargetRound(roundId, selectedRoundId), regiment)
      ensures r.Some? ==> r.value != ""
    {
      var target := if roundId.Some? then roundId else selectedRoundId;
      if target.None? {
        return None;
      }
      if target in regimentTeams && regiment in regimentTeams[target] && regimentTeams[target][regiment] != "" {
        return Some(regimentTeams[target][regiment]);
      }
      return None;
    }
  }

  /** The scope `setSelectedRound` takes its bounds from is the round's scope of the filters. */
  lemma SelectedScope(events: seq<LogEvent>, roundId: Option<int>, inScope: seq<LogEvent>)
    requires inScope == if roundId.Some? then RoundScope(events, roundId) else events
    ensures inScope == RoundScope(events, roundId)
    ensures inScope != [] ==> TimeBounds(events, roundId) == (MinTime(inScope), MaxTime(inScope))
  {
    NoRoundSelectedKeepsAll(events);
  }

  /**
   * The running part of `getPlayerPresenceTime`: the start state (the whole
   * round for a player with respawns and no sessions, an interval open
   * from the start when their first session is a leave), the pass, and an
   * interval still open at the end counted to the end.
   */
  method SweepFrom(hasRespawns: bool, ps: seq<PlayerSession>, start: int, end: int) returns (total: int)
    ensures total == Close(ClampedSweepAll(SweepStart(hasRespawns, ps, start, end), ps, start, end), end)
  {
    total := 0;
    var openedAt: Option<int> := None;
    if hasRespawns && |ps| == 0 {
      total := end - start;
    } else if hasRespawns && |ps| > 0 && ps[0].action == Leave {
      openedAt := Some(start);
    }
    assert Sweep(total, openedAt) == SweepStart(hasRespawns, ps, start, end);
    total, openedAt := SweepSessions(total, openedAt, ps, start, end);
    if openedAt.Some? {
      total := total + end - openedAt.value;
    }
  }

  /**
   * The pass of `getPlayerPresenceTime` over the player's sessions: a join
   * opens an interval at its clamped time, a leave closes the open one and
   * adds its positive length.
   */
  method SweepSessions(total0: int, openedAt0: Option<int>, ps: seq<PlayerSession>, start: int, end: int)
    returns (total: int, openedAt: Option<int>)
    ensures Sweep(total, openedAt) == ClampedSweepAll(Sweep(total0, openedAt0), ps, start, end)
  {
    total, openedAt := total0, openedAt0;
    var i := 0;
    while i < |ps|
      invariant 0 <= i <= |ps|
      invariant ClampedSweepAll(Sweep(total, openedAt), ps[i..], start, end)
                == ClampedSweepAll(Sweep(total0, openedAt0), ps, start, end)
    {
      ghost var before := Sweep(total, openedAt);
      var s := ps[i];
      if s.action == Join {
        openedAt := Some(Clamp(s.time, start, end));
      } else if openedAt.Some? {
        var leave := Clamp(s.time, start, end);
        if leave > openedAt.value {
          total := total + leave - openedAt.value;
        }
        openedAt := None;
      }
      assert Sweep(total, openedAt) == ClampedStep(before, ps[i], start, end);
      assert ps[i..][1..] == ps[i + 1..];
      i := i + 1;
    }
    assert ps[i..] == [];
  }

  /**
   * After a team is set for an addressed round, reading that regiment in
   * that round gives the team back; after it is deleted, nothing.
   */
  method SetThenGetTeam(store: LogStore, regiment: string, team: Option<string>, roundId: int) returns (r: Option<string>)
    modifies store`regimentTeams
    ensures team.Some? && team.value != "" ==> r == team
    ensures team.None? || team.value == "" ==> r.None?
  {
    store.SetRegimentTeam(regiment, team, Some(roundId));
    r := store.GetRegimentTeam(regiment, Some(roundId));
  }
}
