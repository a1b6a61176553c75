/**
 * What every reachable parser state satisfies: rounds are numbered 1, 2, ...
 * in order, the current round is the newest one, and the event list is the
 * rounds' respawn lists laid end to end.
 */
module RoundInvariant {
  import opened Optional
  import opened Text
  import opened Timestamp
  import opened Regiment
  import opened LogSyntax
  import opened Domain
  import opened RoundMachine

  /** The respawn lists of `rounds`, concatenated in order. */
  function Flatten(rounds: seq<Round>): seq<LogEvent>
  {
    if rounds == [] then [] else Flatten(rounds[..|rounds| - 1]) + rounds[|rounds| - 1].respawns
  }

  ghost predicate Inv(m: Machine) {
    && WellFormed(m)
    && m.roundCounter == |m.rounds|
    && (forall i :: 0 <= i < |m.rounds| ==> m.rounds[i].id == i + 1)
    && (m.current.Some? ==> m.current.value == |m.rounds| - 1)
    && (forall i :: 0 <= i < |m.rounds| ==> m.rounds[i].mapName != "")
    && Flatten(m.rounds) == m.events
    && (forall i, j :: 0 <= i < |m.rounds| && 0 <= j < |m.rounds[i].respawns| ==>
          m.rounds[i].respawns[j].roundId == m.rounds[i].id && m.rounds[i].respawns[j].mapName == m.rounds[i].mapName)
  }

  lemma InitInv()
    ensures Inv(Init)
  {
  }

  // ------------------------------------------------------------------
  // Flatten under the three kinds of round update
  // ------------------------------------------------------------------

  lemma {:induction false} FlattenUpdateKeepsRespawns(rounds: seq<Round>, i: nat, r: Round)
    requires i < |rounds| && r.respawns == rounds[i].respawns
    ensures Flatten(rounds[i := r]) == Flatten(rounds)
  {
    var n := |rounds|;
    if i == n - 1 {
      assert rounds[i := r][..n - 1] == rounds[..n - 1];
    } else {
      assert rounds[i := r][..n - 1] == rounds[..n - 1][i := r];
      FlattenUpdateKeepsRespawns(rounds[..n - 1], i, r);
    }
  }

  lemma FlattenAppendEmpty(rounds: seq<Round>, r: Round)
    requires r.respawns == []
    ensures Flatten(rounds + [r]) == Flatten(rounds)
  {
    assert (rounds + [r])[..|rounds|] == rounds;
  }

  lemma FlattenAddToLast(rounds: seq<Round>, e: LogEvent)
    requires |rounds| > 0
    ensures Flatten(rounds[|rounds| - 1 := rounds[|rounds| - 1].(respawns := rounds[|rounds| - 1].respawns + [e])])
            == Flatten(rounds) + [e]
  {
    var n := |rounds|;
    var rs := rounds[n - 1 := rounds[n - 1].(respawns := rounds[n - 1].respawns + [e])];
    assert rs[..n - 1] == rounds[..n - 1];
  }

  /** Every event belongs to one of the rounds, in round order. */
  lemma {:induction false} FlattenRoundIds(rounds: seq<Round>)
    requires forall i :: 0 <= i < |rounds| ==> rounds[i].id == i + 1
    requires forall i, j :: 0 <= i < |rounds| && 0 <= j < |rounds[i].respawns| ==> rounds[i].respawns[j].roundId == rounds[i].id
    ensures forall k :: 0 <= k < |Flatten(rounds)| ==> 1 <= Flatten(rounds)[k].roundId <= |rounds|
    ensures forall k, l :: 0 <= k < l < |Flatten(rounds)| ==> Flatten(rounds)[k].roundId <= Flatten(rounds)[l].roundId
  {
    if rounds != [] {
      var n := |rounds|;
      FlattenRoundIds(rounds[..n - 1]);
      var a := Flatten(rounds[..n - 1]);
      var b := rounds[n - 1].respawns;
      assert Flatten(rounds) == a + b;
      assert forall k :: 0 <= k < |b| ==> b[k].roundId == n;
    }
  }

  /** Every event carries the map of the round it belongs to. */
  lemma {:induction false} FlattenMapNames(rounds: seq<Round>)
    requires forall i :: 0 <= i < |rounds| ==> rounds[i].id == i + 1
    requires forall i, j :: 0 <= i < |rounds| && 0 <= j < |rounds[i].respawns| ==>
               rounds[i].respawns[j].roundId == rounds[i].id && rounds[i].respawns[j].mapName == rounds[i].mapName
    ensures forall k :: 0 <= k < |Flatten(rounds)| ==>
              1 <= Flatten(rounds)[k].roundId <= |rounds| && Flatten(rounds)[k].mapName == rounds[Flatten(rounds)[k].roundId - 1].mapName
  {
    if rounds != [] {
      var n := |rounds|;
      FlattenMapNames(rounds[..n - 1]);
      var a := Flatten(rounds[..n - 1]);
      var b := rounds[n - 1].respawns;
      assert Flatten(rounds) == a + b;
      assert forall k :: 0 <= k < |b| ==> b[k].roundId == n && b[k].mapName == rounds[n - 1].mapName;
    }
  }

  /** Event round ids never decrease along the event list, and each names its round and that round's map. */
  lemma EventsSortedByRound(m: Machine)
    requires Inv(m)
    ensures forall k, l :: 0 <= k < l < |m.events| ==> m.events[k].roundId <= m.events[l].roundId
    ensures forall k :: 0 <= k < |m.events| ==> 1 <= m.events[k].roundId <= |m.rounds|
    ensures forall k :: 0 <= k < |m.events| ==> m.events[k].mapName == m.rounds[m.events[k].roundId - 1].mapName
  {
    FlattenRoundIds(m.rounds);
    FlattenMapNames(m.rounds);
  }

  // ------------------------------------------------------------------
  // Preservation, sub-step by sub-step
  // ------------------------------------------------------------------

  lemma CloseCurrentInv(m: Machine, t: int)
    requires Inv(m) && m.current.Some?
    ensures Inv(CloseCurrent(m, t))
  {
    var i := m.current.value;
    FlattenUpdateKeepsRespawns(m.rounds, i, m.rounds[i].(endTime := Some(t), status := Incomplete));
  }

  lemma OpenRoundInv(m: Machine, start: int, mapName: string, gameRules: Option<string>, status: Status)
    requires Inv(m) && mapName != ""
    ensures Inv(OpenRound(m, start, mapName, gameRules, status))
  {
    FlattenAppendEmpty(m.rounds, Round(m.roundCounter + 1, start, None, mapName, gameRules, status, None, []));
  }

  lemma MapChangeInv(m: Machine, info: LineInfo, ts: int)
    requires Inv(m)
    ensures Inv(TrackMapChange(m, info, ts))
  {
    if info.newMap.Some? && m.current.Some? && CurrentRound(m).mapName != "" {
      CloseCurrentInv(m, OrElse(m.lastEventTime, ts));
    }
  }

  lemma RoundStartInv(m: Machine, info: LineInfo, ts: int)
    requires Inv(m)
    ensures Inv(TrackRoundStart(m, info, ts))
  {
    if info.roundStarted {
      var closed :=
        if m.current.Some? then
          Warn(CloseCurrent(m, OrElse(m.lastEventTime, ts)), IncompleteRound,
               "Round " + IntToString(CurrentRound(m).id) + " ended without victory (new round started)")
        else m;
      if m.current.Some? {
        CloseCurrentInv(m, OrElse(m.lastEventTime, ts));
      }
      OpenRoundInv(closed, ts, MapOrUnknown(closed.currentMap), closed.currentGameRules, Incomplete);
    }
  }

  lemma VictoryInv(m: Machine, info: LineInfo, ts: int)
    requires Inv(m)
    ensures Inv(TrackVictory(m, info, ts))
  {
    if info.victoryTeam.Some? && m.current.Some? {
      var i := m.current.value;
      FlattenUpdateKeepsRespawns(m.rounds, i,
        m.rounds[i].(endTime := Some(ts), status := Complete, winner := Some(Winner(info.victoryTeam.value))));
    }
  }

  lemma RecordRespawnInv(m: Machine, player: string, regiment: Option<string>, ts: int)
    requires Inv(m) && m.current.Some?
    ensures Inv(RecordRespawn(m, player, regiment, ts))
  {
    var i := m.current.value;
    var round := m.rounds[i];
    FlattenAddToLast(m.rounds, LogEvent(ts, player, regiment, round.id, round.mapName));
  }

  lemma RespawnInv(cfg: Config, m: Machine, info: LineInfo, ts: int)
    requires Inv(m)
    ensures Inv(TrackRespawn(cfg, m, info, ts))
  {
    if info.respawned.Some? && !InGracePeriod(m, ts) {
      var afterGap := if IdleGap(cfg, m, ts) then StartPseudoRound(cfg, m, ts) else m;
      if IdleGap(cfg, m, ts) {
        var closed := if m.current.Some? then CloseCurrent(m, m.lastEventTime.value) else m;
        if m.current.Some? {
          CloseCurrentInv(m, m.lastEventTime.value);
        }
        OpenRoundInv(closed, ts, "Unknown Map", None, Pseudo);
      }
      assert Inv(afterGap);
      var withRound :=
        if afterGap.current.None? then
          OpenRound(afterGap, ts, MapOrUnknown(afterGap.currentMap), afterGap.currentGameRules, Incomplete)
        else afterGap;
      if afterGap.current.None? {
        OpenRoundInv(afterGap, ts, MapOrUnknown(afterGap.currentMap), afterGap.currentGameRules, Incomplete);
      }
      RecordRespawnInv(withRound, info.respawned.value, ExtractRegiment(cfg.rules, info.respawned.value), ts);
    }
  }

  lemma SessionsInv(m: Machine, info: LineInfo, ts: int)
    requires Inv(m)
    ensures Inv(TrackGameRules(m, info))
    ensures Inv(TrackJoin(m, info, ts))
    ensures Inv(TrackLeave(m, info, ts))
  {
  }

  lemma ApplyInv(cfg: Config, m: Machine, info: LineInfo, ts: int)
    requires Inv(m)
    ensures Inv(Apply(cfg, m, info, ts))
  {
    var m1 := TrackGameRules(m, info);
    SessionsInv(m, info, ts);
    MapChangeInv(m1, info, ts);
    var m2 := TrackMapChange(m1, info, ts);
    RoundStartInv(m2, info, ts);
    var m3 := TrackRoundStart(m2, info, ts);
    VictoryInv(m3, info, ts);
    var m4 := TrackVictory(m3, info, ts);
    SessionsInv(m4, info, ts);
    var m5 := TrackJoin(m4, info, ts);
    SessionsInv(m5, info, ts);
    var m6 := TrackLeave(m5, info, ts);
    RespawnInv(cfg, m6, info, ts);
    assert Apply(cfg, m, info, ts) == TrackRespawn(cfg, m6, info, ts);
  }

  /** Every line keeps the invariant. */
  lemma StepInv(cfg: Config, m: Machine, line: string)
    requires Inv(m)
    ensures Inv(Step(cfg, m, line))
  {
    if m.initialized {
      var ts := ParseTimestamp(line);
      if ts.Some? && ts.value != 0 {
        ApplyInv(cfg, m, Classify(line), ts.value);
      }
    }
  }

  /** Any sequence of lines keeps the invariant. */
  lemma {:induction false} RunInv(cfg: Config, m: Machine, lines: seq<string>)
    requires Inv(m)
    ensures Inv(Run(cfg, m, lines))
  {
    if lines != [] {
      RunInv(cfg, m, lines[..|lines| - 1]);
      StepInv(cfg, Run(cfg, m, lines[..|lines| - 1]), lines[|lines| - 1]);
    }
  }

  lemma EndOfLogInv(m: Machine)
    requires Inv(m)
    ensures Inv(EndOfLog(m))
  {
    if m.current.Some? && CurrentRound(m).status == Incomplete {
      var i := m.current.value;
      var round := m.rounds[i];
      FlattenUpdateKeepsRespawns(m.rounds, i, round.(endTime := Some(OrElse(m.lastEventTime, round.startTime))));
    }
  }
}
