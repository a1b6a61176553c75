/**
 * The batch parser: a whole log file through the line transition, the
 * end-of-log closure, the rounds rebuilt from the event list, and the
 * statistics.
 */
module LogParser {
  import opened Optional
  import opened Text
  import opened Timestamp
  import opened Regiment
  import opened LogSyntax
  import opened Domain
  import opened Lines
  import opened RoundMachine
  import opened RoundInvariant
  import opened RoundEffects

  /** A round as the batch parser reports it: rebuilt from consecutive events of one round id. */
  datatype RoundSummary = RoundSummary(id: int, startTime: int, endTime: int, mapName: string, status: Status, respawns: seq<LogEvent>)

  /** One call of the progress callback. */
  datatype Progress = Progress(current: nat, total: nat)

  datatype ParseResult = ParseResult(
    events: seq<LogEvent>,
    rounds: seq<RoundSummary>,
    warnings: seq<Warning>,
    playerSessions: seq<PlayerSession>,
    stats: Stats)

  // ------------------------------------------------------------------
  // Rebuilding rounds from the events
  // ------------------------------------------------------------------

  /** A group for a run of events of one round id. */
  predicate GroupOf(g: RoundSummary, run: seq<LogEvent>) {
    && run != [] && g.respawns == run
    && g.id == run[0].roundId && g.startTime == run[0].time && g.endTime == run[|run| - 1].time
    && g.mapName == run[0].mapName && g.status == Incomplete
    && (forall k :: 0 <= k < |run| ==> run[k].roundId == g.id)
  }

  /**
   * One more event: it joins the last group when that group has its round
   * id (and becomes the group's end), else it opens a group of its own.
   */
  function AddToGroups(prior: seq<RoundSummary>, e: LogEvent): (r: seq<RoundSummary>)
    ensures |prior| <= |r| <= |prior| + 1 && r != [] && r[|r| - 1].id == e.roundId
  {
    if prior != [] && prior[|prior| - 1].id == e.roundId then
      var last := prior[|prior| - 1];
      prior[|prior| - 1 := last.(endTime := e.time, respawns := last.respawns + [e])]
    else
      prior + [RoundSummary(e.roundId, e.time, e.time, e.mapName, Incomplete, [e])]
  }

  /**
   * Consecutive events with the same round id, one group each: a new group
   * starts whenever the round id differs from the previous event's; a
   * group starts and ends at its first and last event.
   */
  function Groups(events: seq<LogEvent>): (r: seq<RoundSummary>)
    ensures (events == []) == (r == [])
    ensures r != [] ==> r[|r| - 1].id == events[|events| - 1].roundId
  {
    if events == [] then []
    else AddToGroups(Groups(events[..|events| - 1]), events[|events| - 1])
  }

  /** The groups are runs of one round id each, and neighbouring groups differ in id. */
  predicate WellGrouped(gs: seq<RoundSummary>) {
    && (forall g :: 0 <= g < |gs| ==> GroupOf(gs[g], gs[g].respawns))
    && (forall g :: 0 <= g < |gs| - 1 ==> gs[g].id != gs[g + 1].id)
  }

  /** Adding an event keeps the groups well formed. */
  lemma AddToGroupsShape(prior: seq<RoundSummary>, e: LogEvent)
    requires WellGrouped(prior)
    ensures WellGrouped(AddToGroups(prior, e))
  {
    var r := AddToGroups(prior, e);
    if prior != [] && prior[|prior| - 1].id == e.roundId {
      var last := prior[|prior| - 1];
      assert r[|r| - 1] == last.(endTime := e.time, respawns := last.respawns + [e]);
      assert GroupOf(last, last.respawns);
      assert forall g :: 0 <= g < |r| - 1 ==> r[g] == prior[g];
    } else {
      assert forall g :: 0 <= g < |prior| ==> r[g] == prior[g];
    }
  }

  /** Each group is a run of one round id from its first to its last event; neighbouring groups differ in id. */
  lemma {:induction false} GroupsShape(events: seq<LogEvent>)
    ensures |Groups(events)| <= |events|
    ensures forall g :: 0 <= g < |Groups(events)| ==> GroupOf(Groups(events)[g], Groups(events)[g].respawns)
    ensures forall g :: 0 <= g < |Groups(events)| - 1 ==> Groups(events)[g].id != Groups(events)[g + 1].id
  {
    if events != [] {
      var init := events[..|events| - 1];
      GroupsShape(init);
      AddToGroupsShape(Groups(init), events[|events| - 1]);
    }
  }

  /** The groups' respawn lists, end to end. */
  function Concat(groups: seq<RoundSummary>): seq<LogEvent> {
    if groups == [] then [] else Concat(groups[..|groups| - 1]) + groups[|groups| - 1].respawns
  }

  /** Grouping loses no event and keeps their order. */
  lemma {:induction false} GroupsKeepEvents(events: seq<LogEvent>)
    ensures Concat(Groups(events)) == events
  {
    if events != [] {
      var init := events[..|events| - 1];
      var e := events[|events| - 1];
      assert events == init + [e];
      assert Groups(events) == AddToGroups(Groups(init), e);
      GroupsKeepEvents(init);
      ConcatAddToGroups(Groups(init), e);
    }
  }

  /** Adding an event to the groups adds it at the end of their concatenation. */
  lemma ConcatAddToGroups(prior: seq<RoundSummary>, e: LogEvent)
    ensures Concat(AddToGroups(prior, e)) == Concat(prior) + [e]
  {
    var r := AddToGroups(prior, e);
    if prior != [] && prior[|prior| - 1].id == e.roundId {
      var k := |prior|;
      assert r[..k - 1] == prior[..k - 1];
      assert Concat(prior) == Concat(prior[..k - 1]) + prior[k - 1].respawns;
    } else {
      assert r[..|prior|] == prior;
    }
  }

  /** Adding an event whose round id is at least the last group's keeps the group ids increasing. */
  lemma AddToGroupsSorted(prior: seq<RoundSummary>, e: LogEvent)
    requires forall g, h :: 0 <= g < h < |prior| ==> prior[g].id < prior[h].id
    requires prior != [] ==> prior[|prior| - 1].id <= e.roundId
    ensures var r := AddToGroups(prior, e);
      && (forall g, h :: 0 <= g < h < |r| ==> r[g].id < r[h].id)
      && (forall g :: 0 <= g < |prior| ==> r[g].id == prior[g].id)
  {
    var r := AddToGroups(prior, e);
    if prior != [] && prior[|prior| - 1].id == e.roundId {
      assert |r| == |prior| && forall g :: 0 <= g < |r| ==> r[g].id == prior[g].id;
    } else {
      assert forall g :: 0 <= g < |prior| ==> r[g] == prior[g];
      assert r[|prior|].id == e.roundId;
    }
  }

  /** When round ids never decrease along the events, each id has exactly one group and group ids increase. */
  lemma {:induction false} GroupsOfSortedEvents(events: seq<LogEvent>)
    requires forall k, l :: 0 <= k < l < |events| ==> events[k].roundId <= events[l].roundId
    ensures forall g, h :: 0 <= g < h < |Groups(events)| ==> Groups(events)[g].id < Groups(events)[h].id
    ensures forall k :: 0 <= k < |events| ==> exists g :: 0 <= g < |Groups(events)| && Groups(events)[g].id == events[k].roundId
  {
    if events != [] {
      var n := |events|;
      var e := events[n - 1];
      var prefix := events[..n - 1];
      GroupsOfSortedEvents(prefix);
      var prior := Groups(prefix);
      var r := Groups(events);
      if prior != [] {
        assert prior[|prior| - 1].id == prefix[n - 2].roundId <= e.roundId;
      }
      AddToGroupsSorted(prior, e);
      forall k | 0 <= k < n
        ensures exists g :: 0 <= g < |r| && r[g].id == events[k].roundId
      {
        if k < n - 1 {
          var g :| 0 <= g < |prior| && prior[g].id == prefix[k].roundId;
          assert r[g].id == prior[g].id;
        } else {
          assert r[|r| - 1].id == e.roundId;
        }
      }
    }
  }

  /** The rounds that saw at least one respawn, as groups. */
  function Summaries(rounds: seq<Round>): (r: seq<RoundSummary>)
    ensures |r| <= |rounds|
  {
    if rounds == [] then []
    else
      var last := rounds[|rounds| - 1];
      var prior := Summaries(rounds[..|rounds| - 1]);
      if last.respawns == [] then prior
      else prior + [RoundSummary(last.id, last.respawns[0].time, last.respawns[|last.respawns| - 1].time,
                                 last.respawns[0].mapName, Incomplete, last.respawns)]
  }

  /** A block of events of a new round id extends the groups by one. */
  lemma {:induction false} GroupsAppendBlock(xs: seq<LogEvent>, ys: seq<LogEvent>, id: int)
    requires ys != [] && forall k :: 0 <= k < |ys| ==> ys[k].roundId == id
    requires Groups(xs) == [] || Groups(xs)[|Groups(xs)| - 1].id != id
    ensures Groups(xs + ys) == Groups(xs) + [RoundSummary(id, ys[0].time, ys[|ys| - 1].time, ys[0].mapName, Incomplete, ys)]
    decreases |ys|
  {
    var n := |ys|;
    var y := ys[n - 1];
    if n == 1 {
      GroupsNewBlock(xs, y);
      assert ys == [y];
    } else {
      var front := ys[..n - 1];
      assert front + [y] == ys;
      calc {
        Groups(xs + ys);
        { assert xs + ys == xs + front + [y]; }
        Groups(xs + front + [y]);
        { GroupsAppendBlock(xs, front, id);
          GroupsExtendBlock(xs, front, y); }
        Groups(xs) + [RoundSummary(y.roundId, front[0].time, y.time, front[0].mapName, Incomplete, front + [y])];
      }
    }
  }

  /** An event whose round id differs from the last group's opens a group of its own. */
  lemma GroupsNewBlock(xs: seq<LogEvent>, y: LogEvent)
    requires Groups(xs) == [] || Groups(xs)[|Groups(xs)| - 1].id != y.roundId
    ensures Groups(xs + [y]) == Groups(xs) + [RoundSummary(y.roundId, y.time, y.time, y.mapName, Incomplete, [y])]
  {
    GroupsSnoc(xs, y);
  }

  /** An event of the last group's round id joins that group and becomes its end. */
  lemma GroupsExtendBlock(xs: seq<LogEvent>, front: seq<LogEvent>, y: LogEvent)
    requires front != []
    requires Groups(xs + front) == Groups(xs) + [RoundSummary(y.roundId, front[0].time, front[|front| - 1].time, front[0].mapName, Incomplete, front)]
    ensures Groups(xs + front + [y]) == Groups(xs) + [RoundSummary(y.roundId, front[0].time, y.time, front[0].mapName, Incomplete, front + [y])]
  {
    GroupsSnoc(xs + front, y);
  }

  /** One more event at the end adds to the groups of the events before it. */
  lemma GroupsSnoc(events: seq<LogEvent>, e: LogEvent)
    ensures Groups(events + [e]) == AddToGroups(Groups(events), e)
  {
    assert (events + [e])[..|events|] == events;
  }

  /** Summaries name rounds that exist. */
  lemma {:induction false} SummaryIds(rounds: seq<Round>)
    requires forall i :: 0 <= i < |rounds| ==> rounds[i].id == i + 1
    ensures forall g :: 0 <= g < |Summaries(rounds)| ==> 1 <= Summaries(rounds)[g].id <= |rounds|
  {
    if rounds != [] {
      SummaryIds(rounds[..|rounds| - 1]);
    }
  }

  /**
   * The events of rounds numbered 1, 2, ... regroup into exactly the rounds
   * that saw a respawn, each from its first to its last respawn.
   */
  lemma {:induction false} GroupsOfRounds(rounds: seq<Round>)
    requires forall i :: 0 <= i < |rounds| ==> rounds[i].id == i + 1
    requires forall i, j :: 0 <= i < |rounds| && 0 <= j < |rounds[i].respawns| ==> rounds[i].respawns[j].roundId == rounds[i].id
    ensures Groups(Flatten(rounds)) == Summaries(rounds)
  {
    if rounds != [] {
      var n := |rounds|;
      var last := rounds[n - 1];
      var front := rounds[..n - 1];
      GroupsOfRounds(front);
      SummaryIds(front);
      assert Flatten(rounds) == Flatten(front) + last.respawns;
      if last.respawns != [] {
        assert forall k :: 0 <= k < |last.respawns| ==> last.respawns[k].roundId == last.id;
        GroupsAppendBlock(Flatten(front), last.respawns, last.id);
      } else {
        assert Flatten(rounds) == Flatten(front);
      }
    }
  }

  // ------------------------------------------------------------------
  // The whole parse
  // ------------------------------------------------------------------

  /** What the batch parser returns for a log text. */
  function ParseLogSpec(cfg: Config, logContent: string): ParseResult {
    var m := EndOfLog(Run(cfg, Init, Split(logContent)));
    var rounds := Groups(m.events);
    ParseResult(m.events, rounds, m.warnings, m.sessions, MakeStats(m.events, |rounds|))
  }

  /**
   * The rebuilt rounds are the rounds of the parse that saw a respawn, in
   * order, each spanning its first to last respawn; their number is the
   * number of distinct round ids among the events.
   */
  lemma ParsedRounds(cfg: Config, logContent: string)
    ensures var m := EndOfLog(Run(cfg, Init, Split(logContent)));
      var r := ParseLogSpec(cfg, logContent);
      && r.rounds == Summaries(m.rounds)
      && Concat(r.rounds) == r.events
      && (forall g, h :: 0 <= g < h < |r.rounds| ==> r.rounds[g].id < r.rounds[h].id)
      && r.stats.totalRounds == |r.rounds| && r.stats.totalRespawns == |r.events|
  {
    var m0 := Run(cfg, Init, Split(logContent));
    InitInv();
    RunInv(cfg, Init, Split(logContent));
    EndOfLogInv(m0);
    var m := EndOfLog(m0);
    GroupsOfRounds(m.rounds);
    GroupsKeepEvents(m.events);
    EventsSortedByRound(m);
    GroupsOfSortedEvents(m.events);
  }

  /**
   * On a log text that ends with a newline, the batch parser records the
   * same events and sessions as the live monitor fed the same text in any
   * chunks, and the live monitor's warnings are a prefix of the batch
   * parser's, which adds at most the end-of-log warning.
   */
  lemma BatchMatchesLive(cfg: Config, logContent: string)
    requires |logContent| > 0 && logContent[|logContent| - 1] == '\n'
    ensures var live := Run(cfg, Init, CompleteLines(logContent));
      var r := ParseLogSpec(cfg, logContent);
      && r.events == live.events && r.playerSessions == live.sessions
      && live.warnings <= r.warnings && |r.warnings| <= |live.warnings| + 1
  {
    EndsWithNewline(logContent);
    var complete := CompleteLines(logContent);
    assert Split(logContent) == complete + [""];
    assert (complete + [""])[..|complete|] == complete;
    BlankLineInert(cfg, Run(cfg, Init, complete), "");
  }

  /**
   * A last line without a newline reaches only the batch parser: the live
   * monitor keeps it as its unfinished line, so its state is the one after
   * the complete lines, while the batch parser steps over it before closing
   * the log.  A final respawn line is therefore an event of the batch parse
   * and of no live one.
   */
  lemma UnterminatedLastLine(cfg: Config, text: string, last: string)
    requires text == [] || text[|text| - 1] == '\n'
    requires '\n' !in last
    ensures var before := Run(cfg, Init, CompleteLines(text));
      && Run(cfg, Init, CompleteLines(text + last)) == before
      && ParseLogSpec(cfg, text + last).events == Step(cfg, before, last).events
  {
    if text != [] {
      EndsWithNewline(text);
    } else {
      assert Split(text) == [""];
    }
    SplitAppend(text, last);
    assert PartialLine(text) + last == last;
    NoNewlineSplit(last);
    var complete := CompleteLines(text);
    assert Split(text + last) == complete + [last];
    assert CompleteLines(text + last) == complete;
    InitInv();
    RunInv(cfg, Init, complete);
    StepInv(cfg, Run(cfg, Init, complete), last);
    EndOfLogEffect(Step(cfg, Run(cfg, Init, complete), last));
  }

  /** `onProgress` calls: every 1000th line while reading, then once at the end. */
  predicate ProgressShape(progress: seq<Progress>, n: nat, reportProgress: bool) {
    if !reportProgress then progress == []
    else
      && |progress| == (n + 999) / 1000 + 1
      && (forall k :: 0 <= k < |progress| - 1 ==> progress[k] == Progress(1000 * k, n))
      && progress[|progress| - 1] == Progress(n, n)
  }

  /**
   * Parses a whole log: every line of `logContent.split('\n')` through the
   * transition, then the end-of-log closure, the rounds rebuilt from the
   * events, and the statistics.  `progress` lists the callback's calls;
   * they do not influence the result.
   */
  method ParseLog(cfg: Config, logContent: string, reportProgress: bool) returns (result: ParseResult, progress: seq<Progress>)
    ensures result == ParseLogSpec(cfg, logContent)
    ensures ProgressShape(progress, |Split(logContent)|, reportProgress)
  {
    var lines := Split(logContent);
    var m;
    m, progress := ReadLines(cfg, lines, reportProgress);
    m := EndOfLog(m);
    var rounds := RebuildRounds(m.events);
    if reportProgress {
      progress := progress + [Progress(|lines|, |lines|)];
    }
    result := ParseResult(m.events, rounds, m.warnings, m.sessions, MakeStats(m.events, |rounds|));
  }

  /** The progress reports made before line `i`: one at every multiple of 1000. */
  predicate ReportedBefore(progress: seq<Progress>, i: nat, n: nat, on: bool) {
    && |progress| == (if on then (i + 999) / 1000 else 0)
    && forall k :: 0 <= k < |progress| ==> progress[k] == Progress(1000 * k, n)
  }

  /** The report made (or not) at line `i`. */
  function ReportAt(progress: seq<Progress>, i: nat, n: nat, on: bool): seq<Progress> {
    if i % 1000 == 0 && on then progress + [Progress(i, n)] else progress
  }

  /** One more line keeps the reports in step. */
  lemma ReportNext(progress: seq<Progress>, i: nat, n: nat, on: bool)
    requires ReportedBefore(progress, i, n, on)
    ensures ReportedBefore(ReportAt(progress, i, n, on), i + 1, n, on)
  {
    assert (i + 1 + 999) / 1000 == (i + 999) / 1000 + (if i % 1000 == 0 then 1 else 0);
    if i % 1000 == 0 && on {
      assert i == 1000 * ((i + 999) / 1000);
    }
  }

  /** The line loop, reporting progress before every 1000th line. */
  method ReadLines(cfg: Config, lines: seq<string>, reportProgress: bool) returns (m: Machine, progress: seq<Progress>)
    ensures WellFormed(m) && m == Run(cfg, Init, lines)
    ensures ReportedBefore(progress, |lines|, |lines|, reportProgress)
  {
    var n := |lines|;
    m := Init;
    progress := [];
    var i := 0;
    assert lines[..0] == [];
    assert m == Run(cfg, Init, lines[..0]);
    while i < n
      invariant 0 <= i <= n
      invariant m == Run(cfg, Init, lines[..i])
      invariant ReportedBefore(progress, i, n, reportProgress)
    {
      ReportNext(progress, i, n, reportProgress);
      if i % 1000 == 0 && reportProgress {
        progress := progress + [Progress(i, n)];
      }
      RunSnoc(cfg, Init, lines, i);
      ghost var next := Run(cfg, Init, lines[..i + 1]);
      m := Step(cfg, m, lines[i]);
      assert m == next;
      i := i + 1;
    }
    assert lines[..n] == lines;
  }

  /** The rounds rebuilt from the events: a new round whenever the round id changes. */
  method RebuildRounds(events: seq<LogEvent>) returns (rounds: seq<RoundSummary>)
    ensures rounds == Groups(events)
  {
    rounds := [];
    var tempRound: Option<RoundSummary> := None;
    var k := 0;
    assert events[..0] == [];
    while k < |events|
      invariant 0 <= k <= |events|
      invariant (k == 0) == tempRound.None?
      invariant Groups(events[..k]) == if tempRound.None? then rounds else rounds + [tempRound.value]
    {
      var event := events[k];
      ghost var prior := Groups(events[..k]);
      assert events[..k + 1][..k] == events[..k];
      assert Groups(events[..k + 1]) ==
        if prior != [] && prior[|prior| - 1].id == event.roundId then
          prior[|prior| - 1 := prior[|prior| - 1].(endTime := event.time, respawns := prior[|prior| - 1].respawns + [event])]
        else prior + [RoundSummary(event.roundId, event.time, event.time, event.mapName, Incomplete, [event])];
      if tempRound.None? || tempRound.value.id != event.roundId {
        if tempRound.Some? {
          rounds := rounds + [tempRound.value];
        }
        tempRound := Some(RoundSummary(event.roundId, event.time, event.time, event.mapName, Incomplete, []));
        assert [] + [event] == [event];
      } else {
        assert (rounds + [tempRound.value])[|rounds| := tempRound.value.(endTime := event.time, respawns := tempRound.value.respawns + [event])]
            == rounds + [tempRound.value.(endTime := event.time, respawns := tempRound.value.respawns + [event])];
      }
      tempRound := Some(tempRound.value.(respawns := tempRound.value.respawns + [event], endTime := event.time));
      k := k + 1;
    }
    assert events[..|events|] == events;
    if tempRound.Some? {
      rounds := rounds + [tempRound.value];
    }
  }
}
