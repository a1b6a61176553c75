/** The records both parsers produce: respawn events, rounds, player sessions, warnings and statistics. */
module Domain {
  import opened Optional

  datatype Status = Incomplete | Complete | Pseudo
  datatype Team = USA | CSA | Unknown
  datatype Action = Join | Leave
  /** The `type` of a warning: 'incomplete' or 'pseudo'. */
  datatype WarningType = IncompleteRound | PseudoRound

  /** One recorded respawn; `regiment` is `None` where the classifier yields `undefined`. */
  datatype LogEvent = LogEvent(time: int, player: string, regiment: Option<string>, roundId: int, mapName: string)

  datatype Round = Round(
    id: int,
    startTime: int,
    endTime: Option<int>,
    mapName: string,
    gameRules: Option<string>,
    status: Status,
    winner: Option<Team>,
    respawns: seq<LogEvent>)

  datatype PlayerSession = PlayerSession(player: string, action: Action, time: int, roundId: Option<int>)

  datatype Warning = Warning(kind: WarningType, message: string)

  datatype Stats = Stats(totalRespawns: nat, totalRounds: nat, maps: seq<string>, players: nat, regiments: nat)

  /** `[...new Set(s)]`: the distinct elements in order of first occurrence. */
  function Distinct<T(==,!new)>(s: seq<T>): (r: seq<T>)
    ensures |r| <= |s|
    ensures forall x :: x in r <==> x in s
    ensures forall i, j :: 0 <= i < j < |r| ==> r[i] != r[j]
  {
    if s == [] then []
    else
      var d := Distinct(s[..|s| - 1]);
      assert forall x :: x in s <==> x in s[..|s| - 1] || x == s[|s| - 1] by {
        assert s == s[..|s| - 1] + [s[|s| - 1]];
      }
      if s[|s| - 1] in d then d else d + [s[|s| - 1]]
  }

  /** A sequence without repetitions has as many elements as its set. */
  lemma {:induction false} NoDuplicatesCardinality<T(!new)>(s: seq<T>)
    requires forall i, j :: 0 <= i < j < |s| ==> s[i] != s[j]
    ensures |set x | x in s| == |s|
  {
    if s != [] {
      var init := s[..|s| - 1];
      NoDuplicatesCardinality(init);
      assert (set x | x in s) == (set x | x in init) + {s[|s| - 1]} by {
        assert s == init + [s[|s| - 1]];
      }
      assert s[|s| - 1] !in init;
    }
  }

  /** `[...new Set(s)].length` counts the distinct values of `s`. */
  lemma DistinctCardinality<T(!new)>(s: seq<T>)
    ensures |Distinct(s)| == |set x | x in s|
  {
    NoDuplicatesCardinality(Distinct(s));
    assert (set x | x in Distinct(s)) == (set x | x in s);
  }

  function Maps(events: seq<LogEvent>): (r: seq<string>)
    ensures |r| == |events| && forall i :: 0 <= i < |events| ==> r[i] == events[i].mapName
  {
    seq(|events|, i requires 0 <= i < |events| => events[i].mapName)
  }

  function Players(events: seq<LogEvent>): (r: seq<string>)
    ensures |r| == |events| && forall i :: 0 <= i < |events| ==> r[i] == events[i].player
  {
    seq(|events|, i requires 0 <= i < |events| => events[i].player)
  }

  function Regiments(events: seq<LogEvent>): (r: seq<Option<string>>)
    ensures |r| == |events| && forall i :: 0 <= i < |events| ==> r[i] == events[i].regiment
  {
    seq(|events|, i requires 0 <= i < |events| => events[i].regiment)
  }

  /** The number of distinct players is the number of distinct player names among the events. */
  lemma PlayerCount(events: seq<LogEvent>)
    ensures |Distinct(Players(events))| == |set i | 0 <= i < |events| :: events[i].player|
  {
    DistinctCardinality(Players(events));
    assert (set x | x in Players(events)) == (set i | 0 <= i < |events| :: events[i].player);
  }

  /** The number of distinct regiments is the number of distinct regiment values among the events. */
  lemma RegimentCount(events: seq<LogEvent>)
    ensures |Distinct(Regiments(events))| == |set i | 0 <= i < |events| :: events[i].regiment|
  {
    DistinctCardinality(Regiments(events));
    assert (set x | x in Regiments(events)) == (set i | 0 <= i < |events| :: events[i].regiment);
  }

  /** The statistics block: counts, the distinct maps in first-seen order, distinct players and regiments. */
  function MakeStats(events: seq<LogEvent>, roundCount: nat): (r: Stats)
    ensures r.totalRespawns == |events| && r.totalRounds == roundCount
    ensures forall m :: m in r.maps <==> exists i :: 0 <= i < |events| && events[i].mapName == m
    ensures r.players == |set i | 0 <= i < |events| :: events[i].player|
    ensures r.regiments == |set i | 0 <= i < |events| :: events[i].regiment|
  {
    PlayerCount(events);
    RegimentCount(events);
    Stats(|events|, roundCount, Distinct(Maps(events)), |Distinct(Players(events))|, |Distinct(Regiments(events))|)
  }
}
