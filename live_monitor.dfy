/**
 * The live monitor: a parser object that keeps its state between chunks of a
 * log file that is still being written, cuts each chunk into lines (holding
 * back an unfinished last line) and feeds them through the same per-line
 * transition as the batch parser.
 */
module LiveMonitor {
  import opened Optional
  import opened Text
  import opened Timestamp
  import opened Regiment
  import opened LogSyntax
  import opened Domain
  import opened RoundMachine
  import opened RoundInvariant
  import opened Lines
  import opened RoundEffects

  /** `chunk.endsWith('\n')` */
  predicate EndsWithNewlineChar(s: string) {
    |s| > 0 && s[|s| - 1] == '\n'
  }

  /** A text ending in `'\n'` splits into its complete lines and one empty piece. */
  lemma SplitEndingInNewline(s: string)
    requires EndsWithNewlineChar(s)
    ensures Split(s) == CompleteLines(s) + [""]
  {
    EndsWithNewline(s);
  }

  /** A trailing empty line changes nothing. */
  lemma RunTrailingEmpty(cfg: Config, m: Machine, lines: seq<string>)
    requires WellFormed(m)
    ensures Run(cfg, m, lines + [""]) == Run(cfg, m, lines)
  {
    assert (lines + [""])[..|lines|] == lines;
    BlankLineInert(cfg, Run(cfg, m, lines), "");
  }

  /** The invariant does not look at the warnings. */
  lemma InvIgnoresWarnings(m: Machine, ws: seq<Warning>)
    ensures Inv(m) <==> Inv(m.(warnings := ws))
  {
  }

  lemma StepTimestamped(cfg: Config, m: Machine, line: string, ts: int)
    requires WellFormed(m) && m.initialized && ParseTimestamp(line) == Some(ts) && ts != 0
    ensures Step(cfg, m, line) == Apply(cfg, m, Classify(line), ts)
  {
  }

  /**
   * The lines the chunk loop sees: without a final `'\n'` the unfinished
   * last piece is held back; with one, the last piece is empty and changes
   * nothing.  Either way the loop runs the complete lines.
   */
  lemma ChunkLines(cfg: Config, m: Machine, text: string, endsWithNewline: bool)
    requires WellFormed(m)
    requires endsWithNewline ==> EndsWithNewlineChar(text)
    ensures var pieces := Split(text);
      var lines := if endsWithNewline then pieces else pieces[..|pieces| - 1];
      && Run(cfg, m, lines) == Run(cfg, m, CompleteLines(text))
      && (if endsWithNewline then "" else pieces[|pieces| - 1]) == PartialLine(text)
      && '\n' !in PartialLine(text)
  {
    PartialLineHasNoNewline(text);
    if endsWithNewline {
      SplitEndingInNewline(text);
      RunTrailingEmpty(cfg, m, CompleteLines(text));
    }
  }

  /**
   * Chunks compose: feeding the monitor one chunk and then another leaves
   * the same state and the same held-back line as feeding it the two
   * chunks as one, wherever the boundary falls inside a line.
   */
  lemma ChunksCompose(cfg: Config, m: Machine, buffer: string, a: string, b: string)
    requires WellFormed(m)
    ensures var first := Run(cfg, m, CompleteLines(buffer + a));
      Run(cfg, first, CompleteLines(PartialLine(buffer + a) + b)) == Run(cfg, m, CompleteLines(buffer + a + b))
    ensures PartialLine(PartialLine(buffer + a) + b) == PartialLine(buffer + a + b)
  {
    CompleteLinesAppend(buffer + a, b);
    PartialLineAppend(buffer + a, b);
    RunAppend(cfg, m, CompleteLines(buffer + a), CompleteLines(PartialLine(buffer + a) + b));
  }

  lemma AppendAssoc<T>(a: seq<T>, b: seq<T>, c: seq<T>)
    ensures a + (b + c) == (a + b) + c
  {
  }

  class LiveMonitorParser {
    const config: Config
    var initialized: bool
    /** Index in `allRounds` of the round under way: the JS object reference. */
    var currentRound: Option<nat>
    var roundCounter: int
    var lastEventTime: Option<int>
    var currentMap: Option<string>
    var currentGameRules: Option<string>
    var lastProcessedPosition: int
    /** The unfinished last line of the chunks seen so far. */
    var lineBuffer: string
    var allEvents: seq<LogEvent>
    var allRounds: seq<Round>
    var allWarnings: seq<Warning>
    var allPlayerSessions: seq<PlayerSession>

    /** The parser fields as a state of the shared line transition. */
    ghost function State(): Machine
      reads this
    {
      Machine(initialized, currentRound, roundCounter, lastEventTime, currentMap, currentGameRules,
              allEvents, allRounds, allWarnings, allPlayerSessions)
    }

    /** The state with `pending` warnings, produced in this chunk but not yet added to `allWarnings`. */
    ghost function Snapshot(pending: seq<Warning>): Machine
      reads this
    {
      State().(warnings := allWarnings + pending)
    }

    ghost predicate Valid()
      reads this
    {
      Inv(State()) && '\n' !in lineBuffer
    }

    constructor(config: Config)
      ensures Valid() && State() == Init && this.config == config
      ensures lastProcessedPosition == 0 && lineBuffer == ""
    {
      this.config := config;
      initialized := false;
      currentRound := None;
      roundCounter := 0;
      lastEventTime := None;
      currentMap := None;
      currentGameRules := None;
      lastProcessedPosition := 0;
      lineBuffer := "";
      allEvents := [];
      allRounds := [];
      allWarnings := [];
      allPlayerSessions := [];
      new;
      InitInv();
    }

    /** Back to the state of a fresh parser. */
    method Reset()
      modifies this
      ensures Valid() && State() == Init
      ensures lastProcessedPosition == 0 && lineBuffer == ""
    {
      initialized := false;
      currentRound := None;
      roundCounter := 0;
      lastEventTime := None;
      currentMap := None;
      currentGameRules := None;
      lastProcessedPosition := 0;
      lineBuffer := "";
      allEvents := [];
      allRounds := [];
      allWarnings := [];
      allPlayerSessions := [];
      assert State() == Init;
      assert Valid() by {
        InitInv();
      }
    }

    /**
     * One line, given the warnings `pending` from earlier lines of the chunk.
     * The new state, with this line's warnings appended to the pending ones,
     * is the shared transition `Step`; events and sessions are added to the
     * totals at once, warnings only returned.
     */
    method ProcessLine(line: string, ghost pending: seq<Warning>)
      returns (newEvents: seq<LogEvent>, newWarnings: seq<Warning>, newPlayerSessions: seq<PlayerSession>)
      requires Valid()
      modifies this
      ensures Valid()
      ensures Snapshot(pending + newWarnings) == Step(config, old(Snapshot(pending)), line)
      ensures allWarnings == old(allWarnings) && lineBuffer == old(lineBuffer) && lastProcessedPosition == old(lastProcessedPosition)
      ensures allEvents == old(allEvents) + newEvents
      ensures allPlayerSessions == old(allPlayerSessions) + newPlayerSessions
    {
      newEvents, newWarnings, newPlayerSessions := [], [], [];
      ghost var m0 := Snapshot(pending);
      InvIgnoresWarnings(m0, allWarnings);
      if !initialized {
        if Contains(line, InitMarker) {
          initialized := true;
        }
        return;
      }
      var timestamp := ParseTimestamp(line);
      if timestamp.None? || timestamp.value == 0 {
        return;
      }
      var info := Classify(line);
      StepTimestamped(config, m0, line, timestamp.value);
      ApplyInv(config, m0, info, timestamp.value);
      InvIgnoresWarnings(Apply(config, m0, info, timestamp.value), allWarnings);
      newEvents, newWarnings, newPlayerSessions := ApplyLine(info, timestamp.value, pending);
    }

    /** The blocks of a timestamped line, in order. */
    method ApplyLine(info: LineInfo, ts: int, ghost pending: seq<Warning>)
      returns (newEvents: seq<LogEvent>, newWarnings: seq<Warning>, newPlayerSessions: seq<PlayerSession>)
      requires WellFormed(Snapshot(pending))
      modifies this
      ensures Snapshot(pending + newWarnings) == Apply(config, old(Snapshot(pending)), info, ts)
      ensures allWarnings == old(allWarnings) && lineBuffer == old(lineBuffer) && lastProcessedPosition == old(lastProcessedPosition)
      ensures allEvents == old(allEvents) + newEvents
      ensures allPlayerSessions == old(allPlayerSessions) + newPlayerSessions
    {
      ghost var m0 := Snapshot(pending);
      var w := ApplyRoundMarkers(info, ts, pending);
      ghost var m4 := Snapshot(pending + w);
      assert m4 == TrackVictory(TrackRoundStart(TrackMapChange(TrackGameRules(m0, info), info, ts), info, ts), info, ts);
      var joined := OnJoin(info, ts, pending + w);
      ghost var m5 := Snapshot(pending + w);
      assert m5 == TrackJoin(m4, info, ts);
      var left := OnLeave(info, ts, pending + w);
      ghost var m6 := Snapshot(pending + w);
      assert m6 == TrackLeave(m5, info, ts);
      AppendAssoc(m0.sessions, joined, left);
      newPlayerSessions := joined + left;
      newEvents, newWarnings := OnRespawn(info, ts, pending, w);
      assert Snapshot(pending + newWarnings) == TrackRespawn(config, m6, info, ts);
    }

    /** Game rules, map change, round start and victory. */
    method ApplyRoundMarkers(info: LineInfo, ts: int, ghost pending: seq<Warning>) returns (w: seq<Warning>)
      requires WellFormed(Snapshot(pending))
      modifies this
      ensures Snapshot(pending + w)
              == TrackVictory(TrackRoundStart(TrackMapChange(TrackGameRules(old(Snapshot(pending)), info), info, ts), info, ts), info, ts)
      ensures allWarnings == old(allWarnings) && lineBuffer == old(lineBuffer) && lastProcessedPosition == old(lastProcessedPosition)
      ensures allEvents == old(allEvents) && allPlayerSessions == old(allPlayerSessions)
    {
      OnGameRules(info, pending);
      ghost var m1 := Snapshot(pending);
      w := OnMapChange(info, ts, pending, []);
      ghost var m2 := Snapshot(pending + w);
      assert m2 == TrackMapChange(m1, info, ts) by { assert pending + [] == pending; }
      w := OnRoundStart(info, ts, pending, w);
      OnVictory(info, ts, pending + w);
    }

    /** `Game rules class: <name>` makes `<name>` the current game rules. */
    method OnGameRules(info: LineInfo, ghost pending: seq<Warning>)
      modifies this
      ensures Snapshot(pending) == TrackGameRules(old(Snapshot(pending)), info)
      ensures allWarnings == old(allWarnings) && lineBuffer == old(lineBuffer) && lastProcessedPosition == old(lastProcessedPosition)
      ensures allEvents == old(allEvents) && allPlayerSessions == old(allPlayerSessions)
    {
      if info.gameRules.Some? {
        currentGameRules := info.gameRules;
      }
    }

    /** `PrepareLevel <map>` closes the current round and clears it. */
    method OnMapChange(info: LineInfo, ts: int, ghost pending: seq<Warning>, warnings: seq<Warning>) returns (w: seq<Warning>)
      requires WellFormed(Snapshot(pending + warnings))
      modifies this
      ensures Snapshot(pending + w) == TrackMapChange(old(Snapshot(pending + warnings)), info, ts)
      ensures allWarnings == old(allWarnings) && lineBuffer == old(lineBuffer) && lastProcessedPosition == old(lastProcessedPosition)
      ensures allEvents == old(allEvents) && allPlayerSessions == old(allPlayerSessions)
    {
      w := warnings;
      if info.newMap.Some? {
        if currentRound.Some? && allRounds[currentRound.value].mapName != "" {
          var i := currentRound.value;
          var round := allRounds[i];
          allRounds := allRounds[i := round.(endTime := Some(OrElse(lastEventTime, ts)), status := Incomplete)];
          w := w + [Warning(IncompleteRound,
            "Round " + IntToString(round.id) + " on " + round.mapName + " ended without victory (map change)")];
          assert pending + w == (pending + warnings) + [w[|w| - 1]];
        }
        currentMap := info.newMap;
        currentRound := None;
      }
    }

    /** The round-start marker closes the current round and opens the next one. */
    method OnRoundStart(info: LineInfo, ts: int, ghost pending: seq<Warning>, warnings: seq<Warning>) returns (w: seq<Warning>)
      requires WellFormed(Snapshot(pending + warnings))
      modifies this
      ensures Snapshot(pending + w) == TrackRoundStart(old(Snapshot(pending + warnings)), info, ts)
      ensures allWarnings == old(allWarnings) && lineBuffer == old(lineBuffer) && lastProcessedPosition == old(lastProcessedPosition)
      ensures allEvents == old(allEvents) && allPlayerSessions == old(allPlayerSessions)
    {
      w := warnings;
      if info.roundStarted {
        if currentRound.Some? {
          var i := currentRound.value;
          var round := allRounds[i];
          allRounds := allRounds[i := round.(endTime := Some(OrElse(lastEventTime, ts)), status := Incomplete)];
          w := w + [Warning(IncompleteRound,
            "Round " + IntToString(round.id) + " ended without victory (new round started)")];
          assert pending + w == (pending + warnings) + [w[|w| - 1]];
        }
        roundCounter := roundCounter + 1;
        currentRound := Some(|allRounds|);
        allRounds := allRounds + [Round(roundCounter, ts, None, MapOrUnknown(currentMap), currentGameRules, Incomplete, None, [])];
      }
    }

    /** The victory marker with a `TeamID` completes the current round. */
    method OnVictory(info: LineInfo, ts: int, ghost pending: seq<Warning>)
      requires WellFormed(Snapshot(pending))
      modifies this
      ensures Snapshot(pending) == TrackVictory(old(Snapshot(pending)), info, ts)
      ensures allWarnings == old(allWarnings) && lineBuffer == old(lineBuffer) && lastProcessedPosition == old(lastProcessedPosition)
      ensures allEvents == old(allEvents) && allPlayerSessions == old(allPlayerSessions)
    {
      if info.victoryTeam.Some? && currentRound.Some? {
        var i := currentRound.value;
        allRounds := allRounds[i := allRounds[i].(endTime := Some(ts), status := Complete, winner := Some(Winner(info.victoryTeam.value)))];
      }
    }

    /** `Player <name> has joined the server` records a join session. */
    method OnJoin(info: LineInfo, ts: int, ghost pending: seq<Warning>) returns (sessions: seq<PlayerSession>)
      requires WellFormed(Snapshot(pending))
      modifies this
      ensures Snapshot(pending) == TrackJoin(old(Snapshot(pending)), info, ts)
      ensures allPlayerSessions == old(allPlayerSessions) + sessions
      ensures allWarnings == old(allWarnings) && lineBuffer == old(lineBuffer) && lastProcessedPosition == old(lastProcessedPosition)
      ensures allEvents == old(allEvents)
    {
      sessions := [];
      if info.joined.Some? {
        var session := PlayerSession(info.joined.value, Join, ts, if currentRound.Some? then Some(allRounds[currentRound.value].id) else None);
        sessions := [session];
        allPlayerSessions := allPlayerSessions + [session];
      }
    }

    /** `Player <name> has left the server` records a leave session. */
    method OnLeave(info: LineInfo, ts: int, ghost pending: seq<Warning>) returns (sessions: seq<PlayerSession>)
      requires WellFormed(Snapshot(pending))
      modifies this
      ensures Snapshot(pending) == TrackLeave(old(Snapshot(pending)), info, ts)
      ensures allPlayerSessions == old(allPlayerSessions) + sessions
      ensures allWarnings == old(allWarnings) && lineBuffer == old(lineBuffer) && lastProcessedPosition == old(lastProcessedPosition)
      ensures allEvents == old(allEvents)
    {
      sessions := [];
      if info.left.Some? {
        var session := PlayerSession(info.left.value, Leave, ts, if currentRound.Some? then Some(allRounds[currentRound.value].id) else None);
        sessions := [session];
        allPlayerSessions := allPlayerSessions + [session];
      }
    }

    /**
     * A respawn outside the grace period: an idle gap opens a Pseudo round,
     * a missing round is opened, and the event is recorded.
     */
    method OnRespawn(info: LineInfo, ts: int, ghost pending: seq<Warning>, warnings: seq<Warning>)
      returns (events: seq<LogEvent>, w: seq<Warning>)
      requires WellFormed(Snapshot(pending + warnings))
      modifies this
      ensures Snapshot(pending + w) == TrackRespawn(config, old(Snapshot(pending + warnings)), info, ts)
      ensures allWarnings == old(allWarnings) && lineBuffer == old(lineBuffer) && lastProcessedPosition == old(lastProcessedPosition)
      ensures allPlayerSessions == old(allPlayerSessions)
      ensures allEvents == old(allEvents) + events
    {
      events, w := [], warnings;
      if info.respawned.Some? {
        var playerName := info.respawned.value;
        var regiment := ExtractRegiment(config.rules, playerName);
        if currentRound.Some? && ts - allRounds[currentRound.value].startTime < 60 {
          return;
        }
        w := OnIdleGap(ts, pending, w);
        events := RecordEvent(playerName, regiment, ts, pending + w);
      }
    }

    /** After an idle gap the current round ends at the last event and a Pseudo round opens. */
    method OnIdleGap(ts: int, ghost pending: seq<Warning>, warnings: seq<Warning>) returns (w: seq<Warning>)
      requires WellFormed(Snapshot(pending + warnings))
      modifies this
      ensures var m := old(Snapshot(pending + warnings));
        Snapshot(pending + w) == if IdleGap(config, m, ts) then StartPseudoRound(config, m, ts) else m
      ensures allWarnings == old(allWarnings) && lineBuffer == old(lineBuffer) && lastProcessedPosition == old(lastProcessedPosition)
      ensures allEvents == old(allEvents) && allPlayerSessions == old(allPlayerSessions)
    {
      w := warnings;
      if lastEventTime.Some? && lastEventTime.value != 0 && ts - lastEventTime.value > config.idleGapSeconds {
        if currentRound.Some? {
          var i := currentRound.value;
          allRounds := allRounds[i := allRounds[i].(endTime := lastEventTime, status := Incomplete)];
        }
        roundCounter := roundCounter + 1;
        currentRound := Some(|allRounds|);
        allRounds := allRounds + [Round(roundCounter, ts, None, "Unknown Map", None, Pseudo, None, [])];
        w := w + [Warning(PseudoRound,
          "Pseudo-round " + IntToString(roundCounter) + " created after " + IntToString(config.idleGapSeconds) + "s idle gap")];
        assert pending + w == (pending + warnings) + [w[|w| - 1]];
      }
    }

    /** Opens a round if none is under way, then appends the event to the totals and to the round. */
    method RecordEvent(playerName: string, regiment: Option<string>, ts: int, ghost pending: seq<Warning>)
      returns (events: seq<LogEvent>)
      requires WellFormed(Snapshot(pending))
      modifies this
      ensures var m := old(Snapshot(pending));
        var withRound := if m.current.None? then OpenRound(m, ts, MapOrUnknown(m.currentMap), m.currentGameRules, Incomplete) else m;
        Snapshot(pending) == RecordRespawn(withRound, playerName, regiment, ts)
      ensures allWarnings == old(allWarnings) && lineBuffer == old(lineBuffer) && lastProcessedPosition == old(lastProcessedPosition)
      ensures allPlayerSessions == old(allPlayerSessions)
      ensures allEvents == old(allEvents) + events
    {
      if currentRound.None? {
        roundCounter := roundCounter + 1;
        currentRound := Some(|allRounds|);
        allRounds := allRounds + [Round(roundCounter, ts, None, MapOrUnknown(currentMap), currentGameRules, Incomplete, None, [])];
      }
      var i := currentRound.value;
      var round := allRounds[i];
      var event := LogEvent(ts, playerName, regiment, round.id, round.mapName);
      events := [event];
      allEvents := allEvents + [event];
      allRounds := allRounds[i := round.(respawns := round.respawns + [event])];
      lastEventTime := Some(ts);
    }

    /**
     * A chunk of newly written log text: the complete lines of the buffered
     * line followed by the chunk go through the transition one by one
     * (blank lines skipped), the unfinished last line is kept for the next
     * chunk, and the chunk's warnings are added to the totals.
     */
    method ProcessChunk(chunk: string)
      returns (newEvents: seq<LogEvent>, newWarnings: seq<Warning>, newPlayerSessions: seq<PlayerSession>,
               stats: Stats, totalEvents: nat, totalRounds: nat)
      requires Valid()
      modifies this
      ensures Valid()
      ensures State() == Run(config, old(State()), CompleteLines(old(lineBuffer) + chunk))
      ensures lineBuffer == PartialLine(old(lineBuffer) + chunk)
      ensures lastProcessedPosition == old(lastProcessedPosition)
      ensures allEvents == old(allEvents) + newEvents
      ensures allWarnings == old(allWarnings) + newWarnings
      ensures allPlayerSessions == old(allPlayerSessions) + newPlayerSessions
      ensures stats == MakeStats(allEvents, |allRounds|) && totalEvents == |allEvents| && totalRounds == |allRounds|
    {
      var fullText := lineBuffer + chunk;
      var lines := Split(fullText);
      if !EndsWithNewlineChar(chunk) {
        lineBuffer := lines[|lines| - 1];
        lines := lines[..|lines| - 1];
      } else {
        lineBuffer := "";
      }
      ChunkLines(config, State(), fullText, EndsWithNewlineChar(chunk));
      newEvents, newWarnings, newPlayerSessions := ProcessLines(lines);
      ghost var after := Snapshot(newWarnings);
      InvIgnoresWarnings(State(), after.warnings);
      allWarnings := allWarnings + newWarnings;
      assert State() == after;
      stats := MakeStats(allEvents, |allRounds|);
      totalEvents := |allEvents|;
      totalRounds := |allRounds|;
    }

    /** The chunk loop: the lines in order, warnings collected but not yet added to the totals. */
    method ProcessLines(lines: seq<string>)
      returns (newEvents: seq<LogEvent>, newWarnings: seq<Warning>, newPlayerSessions: seq<PlayerSession>)
      requires Valid()
      modifies this
      ensures Valid()
      ensures Snapshot(newWarnings) == Run(config, old(State()), lines)
      ensures allWarnings == old(allWarnings) && lineBuffer == old(lineBuffer) && lastProcessedPosition == old(lastProcessedPosition)
      ensures allEvents == old(allEvents) + newEvents
      ensures allPlayerSessions == old(allPlayerSessions) + newPlayerSessions
    {
      newEvents, newWarnings, newPlayerSessions := [], [], [];
      ghost var m0 := State();
      assert Snapshot(newWarnings) == m0 by { assert allWarnings + [] == allWarnings; }
      assert m0.events + newEvents == m0.events && m0.sessions + newPlayerSessions == m0.sessions;
      assert lines[..0] == [];
      var i := 0;
      while i < |lines|
        invariant 0 <= i <= |lines|
        invariant Valid()
        invariant Snapshot(newWarnings) == Run(config, m0, lines[..i])
        invariant allWarnings == m0.warnings && lineBuffer == old(lineBuffer) && lastProcessedPosition == old(lastProcessedPosition)
        invariant allEvents == m0.events + newEvents
        invariant allPlayerSessions == m0.sessions + newPlayerSessions
      {
        RunSnoc(config, m0, lines, i);
        var events, warnings, sessions := ProcessUnlessBlank(lines[i], newWarnings);
        AppendAssoc(m0.events, newEvents, events);
        AppendAssoc(m0.sessions, newPlayerSessions, sessions);
        newEvents := newEvents + events;
        newWarnings := newWarnings + warnings;
        newPlayerSessions := newPlayerSessions + sessions;
        i := i + 1;
      }
      assert lines[..|lines|] == lines;
    }

    /** The body of the chunk loop: a line that trims to nothing is skipped, which is what `Step` does with it. */
    method ProcessUnlessBlank(line: string, ghost pending: seq<Warning>)
      returns (newEvents: seq<LogEvent>, newWarnings: seq<Warning>, newPlayerSessions: seq<PlayerSession>)
      requires Valid()
      modifies this
      ensures Valid()
      ensures Snapshot(pending + newWarnings) == Step(config, old(Snapshot(pending)), line)
      ensures allWarnings == old(allWarnings) && lineBuffer == old(lineBuffer) && lastProcessedPosition == old(lastProcessedPosition)
      ensures allEvents == old(allEvents) + newEvents
      ensures allPlayerSessions == old(allPlayerSessions) + newPlayerSessions
    {
      if Trim(line) == "" {
        TrimEmpty(line);
        BlankLineInert(config, Snapshot(pending), line);
        newEvents, newWarnings, newPlayerSessions := [], [], [];
        assert pending + newWarnings == pending;
      } else {
        newEvents, newWarnings, newPlayerSessions := ProcessLine(line, pending);
      }
    }

    /**
     * A snapshot of the totals with their statistics.  Events come in
     * round order and each names an existing round and carries its map.
     */
    method GetState() returns (events: seq<LogEvent>, rounds: seq<Round>, warnings: seq<Warning>,
                               playerSessions: seq<PlayerSession>, stats: Stats)
      requires Valid()
      ensures events == allEvents && rounds == allRounds && warnings == allWarnings && playerSessions == allPlayerSessions
      ensures stats == MakeStats(allEvents, |allRounds|)
      ensures forall k, l :: 0 <= k < l < |events| ==> events[k].roundId <= events[l].roundId
      ensures forall k :: 0 <= k < |events| ==>
                1 <= events[k].roundId <= |rounds| && events[k].mapName == rounds[events[k].roundId - 1].mapName
    {
      EventsSortedByRound(State());
      events, rounds, warnings, playerSessions := allEvents, allRounds, allWarnings, allPlayerSessions;
      stats := MakeStats(allEvents, |allRounds|);
    }
  }

  /** After a reset the reported state is empty and every statistic is 0. */
  method ResetThenGetState(parser: LiveMonitorParser)
    returns (events: seq<LogEvent>, rounds: seq<Round>, stats: Stats)
    modifies parser
    ensures events == [] && rounds == []
    ensures stats.totalRespawns == 0 && stats.totalRounds == 0 && stats.maps == []
    ensures stats.players == 0 && stats.regiments == 0
  {
    parser.Reset();
    var warnings, sessions;
    events, rounds, warnings, sessions, stats := parser.GetState();
  }

}
