/**
 * The effect of one log line on the parser state, shared by the live monitor
 * and the batch parser, which run the same sequence of checks on every line:
 * game rules, map change, round start, victory, join, leave, respawn.
 */
module RoundMachine {
  import opened Optional
  import opened Text
  import opened Timestamp
  import opened Regiment
  import opened LogSyntax
  import opened Domain

  /** The parsing configuration: regiment rules in priority order and the idle gap in seconds. */
  datatype Config = Config(rules: seq<Rule>, idleGapSeconds: int)

  /**
   * Everything a line can change.  `current` indexes the round in `rounds`
   * that is under way, if any.
   */
  datatype Machine = Machine(
    initialized: bool,
    current: Option<nat>,
    roundCounter: int,
    lastEventTime: Option<int>,
    currentMap: Option<string>,
    currentGameRules: Option<string>,
    events: seq<LogEvent>,
    rounds: seq<Round>,
    warnings: seq<Warning>,
    sessions: seq<PlayerSession>)

  const Init := Machine(false, None, 0, None, None, None, [], [], [], [])

  predicate WellFormed(m: Machine) {
    m.current.Some? ==> m.current.value < |m.rounds|
  }

  /** `t || fallback` for a possibly missing number. */
  function OrElse(t: Option<int>, fallback: int): int {
    if t.Some? && t.value != 0 then t.value else fallback
  }

  /** `currentMap || 'Unknown Map'` */
  function MapOrUnknown(currentMap: Option<string>): string {
    if currentMap.Some? && currentMap.value != "" then currentMap.value else "Unknown Map"
  }

  /** The team a `TeamID` denotes: 0 is CSA, 1 and 2 are USA. */
  function Winner(teamId: nat): Team {
    if teamId == 0 then CSA else if teamId == 1 || teamId == 2 then USA else Unknown
  }

  function CurrentRound(m: Machine): Round
    requires WellFormed(m) && m.current.Some?
  {
    m.rounds[m.current.value]
  }

  /** `currentRound ? currentRound.id : null` */
  function CurrentId(m: Machine): Option<int>
    requires WellFormed(m)
  {
    if m.current.Some? then Some(CurrentRound(m).id) else None
  }

  /** Marks the current round Incomplete, ended at `endTime`. */
  function CloseCurrent(m: Machine, endTime: int): (r: Machine)
    requires WellFormed(m) && m.current.Some?
    ensures WellFormed(r)
  {
    var i := m.current.value;
    m.(rounds := m.rounds[i := m.rounds[i].(endTime := Some(endTime), status := Incomplete)])
  }

  /** Numbers a new round with the next counter value and makes it current. */
  function OpenRound(m: Machine, start: int, mapName: string, gameRules: Option<string>, status: Status): (r: Machine)
    ensures WellFormed(r)
  {
    var round := Round(m.roundCounter + 1, start, None, mapName, gameRules, status, None, []);
    m.(roundCounter := m.roundCounter + 1, rounds := m.rounds + [round], current := Some(|m.rounds|))
  }

  function Warn(m: Machine, kind: WarningType, message: string): Machine {
    m.(warnings := m.warnings + [Warning(kind, message)])
  }

  // ------------------------------------------------------------------
  // The sub-steps of a timestamped line, in the order the parsers run them
  // ------------------------------------------------------------------

  function TrackGameRules(m: Machine, info: LineInfo): Machine {
    if info.gameRules.Some? then m.(currentGameRules := info.gameRules) else m
  }

  function TrackMapChange(m: Machine, info: LineInfo, ts: int): (r: Machine)
    requires WellFormed(m)
    ensures WellFormed(r)
  {
    match info.newMap
    case None => m
    case Some(newMap) =>
      var closed :=
        if m.current.Some? && CurrentRound(m).mapName != "" then
          Warn(CloseCurrent(m, OrElse(m.lastEventTime, ts)), IncompleteRound,
               "Round " + IntToString(CurrentRound(m).id) + " on " + CurrentRound(m).mapName + " ended without victory (map change)")
        else m;
      closed.(currentMap := Some(newMap), current := None)
  }

  function TrackRoundStart(m: Machine, info: LineInfo, ts: int): (r: Machine)
    requires WellFormed(m)
    ensures WellFormed(r)
  {
    if !info.roundStarted then m
    else
      var closed :=
        if m.current.Some? then
          Warn(CloseCurrent(m, OrElse(m.lastEventTime, ts)), IncompleteRound,
               "Round " + IntToString(CurrentRound(m).id) + " ended without victory (new round started)")
        else m;
      OpenRound(closed, ts, MapOrUnknown(closed.currentMap), closed.currentGameRules, Incomplete)
  }

  function TrackVictory(m: Machine, info: LineInfo, ts: int): (r: Machine)
    requires WellFormed(m)
    ensures WellFormed(r)
  {
    if info.victoryTeam.Some? && m.current.Some? then
      var i := m.current.value;
      m.(rounds := m.rounds[i := m.rounds[i].(endTime := Some(ts), status := Complete, winner := Some(Winner(info.victoryTeam.value)))])
    else m
  }

  function TrackJoin(m: Machine, info: LineInfo, ts: int): (r: Machine)
    requires WellFormed(m)
    ensures WellFormed(r)
  {
    if info.joined.Some? then m.(sessions := m.sessions + [PlayerSession(info.joined.value, Join, ts, CurrentId(m))]) else m
  }

  function TrackLeave(m: Machine, info: LineInfo, ts: int): (r: Machine)
    requires WellFormed(m)
    ensures WellFormed(r)
  {
    if info.left.Some? then m.(sessions := m.sessions + [PlayerSession(info.left.value, Leave, ts, CurrentId(m))]) else m
  }

  /** `lastEventTime && (timestamp - lastEventTime) > idleGapSeconds` */
  predicate IdleGap(cfg: Config, m: Machine, ts: int) {
    m.lastEventTime.Some? && m.lastEventTime.value != 0 && ts - m.lastEventTime.value > cfg.idleGapSeconds
  }

  /** Inside the first 60 seconds of the current round. */
  predicate InGracePeriod(m: Machine, ts: int)
    requires WellFormed(m)
  {
    m.current.Some? && ts - CurrentRound(m).startTime < 60
  }

  /** An idle gap closes the current round at the last event and opens a Pseudo round. */
  function StartPseudoRound(cfg: Config, m: Machine, ts: int): (r: Machine)
    requires WellFormed(m) && m.lastEventTime.Some?
    ensures WellFormed(r)
  {
    var closed := if m.current.Some? then CloseCurrent(m, m.lastEventTime.value) else m;
    var pseudo := OpenRound(closed, ts, "Unknown Map", None, Pseudo);
    Warn(pseudo, PseudoRound,
         "Pseudo-round " + IntToString(pseudo.roundCounter) + " created after " + IntToString(cfg.idleGapSeconds) + "s idle gap")
  }

  /** Appends the respawn to the event list and to the current round. */
  function RecordRespawn(m: Machine, player: string, regiment: Option<string>, ts: int): (r: Machine)
    requires WellFormed(m) && m.current.Some?
    ensures WellFormed(r)
  {
    var i := m.current.value;
    var round := m.rounds[i];
    var event := LogEvent(ts, player, regiment, round.id, round.mapName);
    m.(events := m.events + [event], rounds := m.rounds[i := round.(respawns := round.respawns + [event])], lastEventTime := Some(ts))
  }

  function TrackRespawn(cfg: Config, m: Machine, info: LineInfo, ts: int): (r: Machine)
    requires WellFormed(m)
    ensures WellFormed(r)
  {
    match info.respawned
    case None => m
    case Some(player) =>
      var regiment := ExtractRegiment(cfg.rules, player);
      if InGracePeriod(m, ts) then m
      else
        var afterGap := if IdleGap(cfg, m, ts) then StartPseudoRound(cfg, m, ts) else m;
        var withRound :=
          if afterGap.current.None? then
            OpenRound(afterGap, ts, MapOrUnknown(afterGap.currentMap), afterGap.currentGameRules, Incomplete)
          else afterGap;
        RecordRespawn(withRound, player, regiment, ts)
  }

  /** All sub-steps of a line stamped `ts`. */
  function Apply(cfg: Config, m: Machine, info: LineInfo, ts: int): (r: Machine)
    requires WellFormed(m)
    ensures WellFormed(r)
  {
    var m1 := TrackGameRules(m, info);
    var m2 := TrackMapChange(m1, info, ts);
    var m3 := TrackRoundStart(m2, info, ts);
    var m4 := TrackVictory(m3, info, ts);
    var m5 := TrackJoin(m4, info, ts);
    var m6 := TrackLeave(m5, info, ts);
    TrackRespawn(cfg, m6, info, ts)
  }

  /**
   * One line: before the initialisation marker only the marker is looked
   * for; after it, a line without a stamp, or stamped `<00:00:00>`, is
   * ignored.
   */
  function Step(cfg: Config, m: Machine, line: string): (r: Machine)
    requires WellFormed(m)
    ensures WellFormed(r)
  {
    if !m.initialized then m.(initialized := Contains(line, InitMarker))
    else match ParseTimestamp(line)
      case None => m
      case Some(ts) => if ts == 0 then m else Apply(cfg, m, Classify(line), ts)
  }

  /** The lines in order. */
  function Run(cfg: Config, m: Machine, lines: seq<string>): (r: Machine)
    requires WellFormed(m)
    ensures WellFormed(r)
  {
    if lines == [] then m else Step(cfg, Run(cfg, m, lines[..|lines| - 1]), lines[|lines| - 1])
  }

  /** One more line of a prefix. */
  lemma RunSnoc(cfg: Config, m: Machine, lines: seq<string>, i: nat)
    requires WellFormed(m) && i < |lines|
    ensures Run(cfg, m, lines[..i + 1]) == Step(cfg, Run(cfg, m, lines[..i]), lines[i])
  {
    assert lines[..i + 1][..i] == lines[..i];
  }

  /** Running two batches of lines is running their concatenation. */
  lemma {:induction false} RunAppend(cfg: Config, m: Machine, a: seq<string>, b: seq<string>)
    requires WellFormed(m)
    ensures Run(cfg, m, a + b) == Run(cfg, Run(cfg, m, a), b)
    decreases |b|
  {
    if b == [] {
      assert a + b == a;
    } else {
      assert (a + b)[..|a + b| - 1] == a + b[..|b| - 1];
      RunAppend(cfg, m, a, b[..|b| - 1]);
    }
  }

  /** At the end of the input, a current round still Incomplete is closed with an "end of log" warning. */
  function EndOfLog(m: Machine): (r: Machine)
    requires WellFormed(m)
    ensures WellFormed(r)
  {
    if m.current.Some? && CurrentRound(m).status == Incomplete then
      var i := m.current.value;
      var round := m.rounds[i];
      Warn(m.(rounds := m.rounds[i := round.(endTime := Some(OrElse(m.lastEventTime, round.startTime)))]),
           IncompleteRound, "Round " + IntToString(round.id) + " ended without victory (end of log)")
    else m
  }
}
