# War of Rights log analyzer: core model

This project models the core of a War of Rights server-log analyzer in Dafny:

* **Line transition.** This is how one server log line changes the parser's state. It covers the initialisation marker, game rules, map changes, round starts, victories, joins and leaves. It also covers respawns with their 60-second grace period, pseudo rounds after an idle gap, and the end-of-log closure. The transition is written once, as a pure function (`RoundMachine.Step`). Two parsers are proved to follow it:
  - the live monitor, a class whose methods update its fields (`LiveMonitor.LiveMonitorParser`);
  - the batch parser, a loop over the log's lines (`LogParser.ParseLog`).
* **Player names.** A regiment is extracted from a player name by a first-match list of rules, then normalized (`Regiment`).
* **Log store.** The store's getters are the filtered events, time bounds, time offset and the two top-ten rankings (`Store`, `Rankings`). Its actions are `formatTime`, presence time, regiment reassignment, per-round regiment teams and round selection (`Presence`, `Reassignments`, `Teams`, `Actions.LogStore`).

JavaScript behaviour is written out where it matters:
* `%` truncates toward zero (`Store.JsRem`);
* a `null` round end counts as 0 in arithmetic;
* an `undefined` regiment is the object key `"undefined"`;
* object keys follow property order: array-index keys come first, in ascending order (`Rankings.PropertyOrder`);
* `Array.prototype.sort` is stable (`Ordering.SortBy`);
* `extractGroup || 1` turns group 0 into group 1;
* `undefined.toLowerCase()` throws, which the model shows as `None` from `Store.FilteredEvents`.

### Where the code and its documentation or tests disagree (the model follows the code)

* `'V-[65th-IL]PVT.Dman2112g'` gives `65th-IL` under the worker's rules (`RegimentScenarios.DashKept`). The test expects `65thIL`.
* The test's rule list gives `'CB[30thOH]...'` a clan rule with `extractGroup: 0` and no clan normalize setting. The worker therefore returns group 1, `30thOH` (`RegimentScenarios.ClanRuleWithoutSetting`). The test expects `CB`: its mock parser picks the clan code by rule name.
* `truncateState` also shortens an already short state code: `30thOH` becomes `30th` (`RegimentScenarios.ShortStateLost`). The case-insensitive `[A-Z][a-z]{2,}` matches `thOH`.
* Normalization is not idempotent. `A.B C` loses its spaced letter and becomes `A.B`, which looks canonical, and normalizing `A.B` cuts the dot and the letter, giving `A` (`RegimentScenarios.NormalizeNotIdempotent`, live-monitor.worker.js:70-72). Canonical tags without a dot or `*` are fixed points (`Regiment.NormalizeKeepsCanonical`).
* The two parsers treat a last line without a newline differently. `processChunk` keeps it in `lineBuffer` (live-monitor.worker.js:326-327). `parseLog` processes it as a line (log-parser.worker.js:127, 139). `LogParser.UnterminatedLastLine` states the difference, and `LogParser.BatchMatchesLive` is stated for logs ending in a newline.
* Only the batch parser closes a round at the end of the log: a current Incomplete round ends at the last event time (or its start) and adds a warning (log-parser.worker.js:321-327). The live monitor has no such step, so its warnings are a prefix of the batch warnings.
* The live monitor keeps the rounds it builds. The batch parser rebuilds its rounds from the events, one per run of equal round ids, all `Incomplete` (`LogParser.Groups`). This drops rounds without respawns and replaces each round's start and end with its first and last respawn (`LogParser.ParsedRounds`).

## Model

| member | source | states |
|---|---|---|
| RoundMachine.Step | src/workers/live-monitor.worker.js:131-313 | One line's transition (nothing before the initialisation marker, nothing for a line without a non-zero timestamp, else the per-kind updates in the worker's order); its contract keeps the state well formed, and its effects are the `RoundEffects` lemmas |
| RoundMachine.Run | src/workers/live-monitor.worker.js:337-344 | Lines processed in order from a state; its contract keeps the state well formed |
| RoundMachine.RunAppend | src/workers/live-monitor.worker.js:337-344 | Processing `a + b` is processing `a` then `b` |
| RoundInvariant.InitInv | src/workers/live-monitor.worker.js:17-30 | The fresh parser state satisfies the round invariant: round ids are 1..n in order, only the last round can be current, the event list is the rounds' respawns concatenated, each respawn carries its round's id and map |
| RoundInvariant.MapChangeInv | src/workers/live-monitor.worker.js:156-173 | A map change preserves the round invariant |
| RoundInvariant.RoundStartInv | src/workers/live-monitor.worker.js:186-197 | A round start preserves the round invariant |
| RoundInvariant.VictoryInv | src/workers/live-monitor.worker.js:201-209 | A victory preserves the round invariant |
| RoundInvariant.RespawnInv | src/workers/live-monitor.worker.js:262-308 | A respawn, with its idle-gap or lazily opened round, preserves the round invariant |
| RoundInvariant.SessionsInv | src/workers/live-monitor.worker.js:147-241 | Game-rule tracking, joins and leaves preserve the round invariant |
| RoundInvariant.StepInv | src/workers/live-monitor.worker.js:131-313 | Every line preserves the round invariant |
| RoundInvariant.RunInv | src/workers/live-monitor.worker.js:337-344 | Any sequence of lines preserves the round invariant |
| RoundInvariant.EndOfLogInv | src/workers/log-parser.worker.js:320-327 | The end-of-log closure preserves the round invariant |
| RoundInvariant.EventsSortedByRound | src/workers/live-monitor.worker.js:297-307 | Under the invariant, events are ordered by round id, each id names an existing round, and each event's map is its round's map |
| RoundEffects.LinesBeforeMarkerInert | src/workers/live-monitor.worker.js:137-142 | Before the initialisation marker, lines without it change nothing |
| RoundEffects.MarkerLineInitializes | src/workers/live-monitor.worker.js:137-142 | The marker line only switches parsing on |
| RoundEffects.UnstampedLineInert | src/workers/live-monitor.worker.js:144-145 | After initialisation, a line without a timestamp (or stamped 00:00:00) changes nothing |
| RoundEffects.BlankLineInert | src/workers/live-monitor.worker.js:338 | A blank line changes nothing |
| RoundEffects.MapChangeEffect | src/workers/live-monitor.worker.js:156-173 | A map change closes the current round at the last event time (else the line time) as Incomplete with one warning, leaves no round current, records the map and opens nothing |
| RoundEffects.RoundStartEffect | src/workers/live-monitor.worker.js:176-198 | A round start closes any current round (even a Complete one) with one warning and opens round `roundCounter + 1` on the current map and game rules as the new current round |
| RoundEffects.VictoryThenRestartReopens | src/workers/live-monitor.worker.js:176-184 | A round completed by a victory is turned back into an Incomplete one by a following round start or map change |
| RoundEffects.WinnerMapping | src/workers/live-monitor.worker.js:207 | Team id 0 is CSA, 1 and 2 are USA, anything else Unknown, each in both directions |
| RoundEffects.VictoryEffect | src/workers/live-monitor.worker.js:201-209 | A victory completes only the current round, at the line's time with its winner; without a current round it changes nothing |
| RoundEffects.SessionEffect | src/workers/live-monitor.worker.js:212-241 | A join or leave appends exactly one session with the line's time and the current round's id, and touches nothing else |
| RoundEffects.GracePeriodSkips | src/workers/live-monitor.worker.js:251-253 | A respawn within 60 seconds of the current round's start changes nothing |
| RoundEffects.IdleGapEffect | src/workers/live-monitor.worker.js:256-279 | An idle gap closes the current round at the last event, opens a Pseudo round on "Unknown Map" and adds exactly one warning |
| RoundEffects.RespawnEffect | src/workers/live-monitor.worker.js:244-310 | A counted respawn appends one event (with the player's regiment and the current round's id and map) to the events and to its round; a round it opens starts at its time |
| RoundEffects.OpenedRoundSuppressesFollowers | src/workers/live-monitor.worker.js:251 | The respawn that opens a round puts every respawn of the next 60 seconds into the grace period |
| RoundEffects.EndOfLogEffect | src/workers/log-parser.worker.js:320-327 | At end of log, a current Incomplete round ends at the last event time (else its start) with one warning; otherwise nothing changes |
| LiveMonitor.LiveMonitorParser.constructor | src/workers/live-monitor.worker.js:9-12 | A new parser is in the initial state with an empty line buffer |
| LiveMonitor.LiveMonitorParser.Reset | src/workers/live-monitor.worker.js:17-30 | `reset` returns every field to the initial state |
| LiveMonitor.LiveMonitorParser.ProcessLine | src/workers/live-monitor.worker.js:131-313 | `processLine` changes the fields exactly as the shared transition changes the state; its returned events and sessions are what it appended; its warnings are returned, not stored |
| LiveMonitor.LiveMonitorParser.ApplyLine | src/workers/live-monitor.worker.js:147-310 | The per-kind updates of a stamped line, matching the shared transition |
| LiveMonitor.LiveMonitorParser.ApplyRoundMarkers | src/workers/live-monitor.worker.js:147-209 | Game rules, map change, round start and victory, applied in that order |
| LiveMonitor.LiveMonitorParser.OnGameRules | src/workers/live-monitor.worker.js:148-153 | Game-rules tracking, as in the shared transition |
| LiveMonitor.LiveMonitorParser.OnMapChange | src/workers/live-monitor.worker.js:156-173 | Map-change handling, as in the shared transition |
| LiveMonitor.LiveMonitorParser.OnRoundStart | src/workers/live-monitor.worker.js:176-198 | Round-start handling, as in the shared transition |
| LiveMonitor.LiveMonitorParser.OnVictory | src/workers/live-monitor.worker.js:201-209 | Victory handling, as in the shared transition |
| LiveMonitor.LiveMonitorParser.OnJoin | src/workers/live-monitor.worker.js:212-225 | Join handling, with the appended session returned |
| LiveMonitor.LiveMonitorParser.OnLeave | src/workers/live-monitor.worker.js:228-241 | Leave handling, with the appended session returned |
| LiveMonitor.LiveMonitorParser.OnRespawn | src/workers/live-monitor.worker.js:244-310 | Respawn handling (grace period, idle gap, lazy round, record), as in the shared transition |
| LiveMonitor.LiveMonitorParser.OnIdleGap | src/workers/live-monitor.worker.js:256-279 | Opens a pseudo round exactly when the idle gap is exceeded |
| LiveMonitor.LiveMonitorParser.RecordEvent | src/workers/live-monitor.worker.js:281-308 | Opens a round if none is current, then records the respawn in it and in the event list |
| LiveMonitor.LiveMonitorParser.ProcessChunk | src/workers/live-monitor.worker.js:320-366 | `processChunk` runs the complete lines of buffer plus chunk through the transition, keeps the unfinished last line in the buffer, appends the new warnings, and returns the statistics of the whole state |
| LiveMonitor.LiveMonitorParser.ProcessLines | src/workers/live-monitor.worker.js:337-344 | The chunk's loop: its lines in order, through the transition |
| LiveMonitor.LiveMonitorParser.ProcessUnlessBlank | src/workers/live-monitor.worker.js:338-343 | Skipping blank lines agrees with the transition |
| LiveMonitor.LiveMonitorParser.GetState | src/workers/live-monitor.worker.js:371-385 | `getState` returns the fields and their statistics; its events are ordered by round id, and each names an existing round and has that round's map |
| LiveMonitor.ChunkLines | src/workers/live-monitor.worker.js:322-330 | Splitting buffer plus chunk and popping the last piece (unless it ended in a newline) gives the complete lines and the newline-free remainder |
| LiveMonitor.ChunksCompose | src/workers/live-monitor.worker.js:320-344 | Two chunks in a row give the same state and buffer as their concatenation as one chunk: chunk boundaries do not matter |
| LiveMonitor.RunTrailingEmpty | src/workers/live-monitor.worker.js:338 | A trailing empty line changes nothing |
| LiveMonitor.StepTimestamped | src/workers/live-monitor.worker.js:144-145 | After initialisation, a line with a non-zero timestamp is classified and applied at that time |
| LiveMonitor.ResetThenGetState | src/workers/live-monitor.worker.js:17-30 | After `reset`, `getState` reports no events, no rounds and every statistic 0 |
| LogParser.ParseLog | src/workers/log-parser.worker.js:126-367 | `parseLog` equals the transition over every line of `split('\n')`, then the end-of-log closure, rounds rebuilt from the events, and their statistics; progress is reported every 1000 lines and at the end |
| LogParser.ReadLines | src/workers/log-parser.worker.js:139-318 | The line loop computes the transition run from the initial state |
| LogParser.ReportNext | src/workers/log-parser.worker.js:143-145 | One more line keeps the progress reports at every thousandth line |
| LogParser.RebuildRounds | src/workers/log-parser.worker.js:330-348 | The rebuild loop computes the grouping of the events |
| LogParser.Groups | src/workers/log-parser.worker.js:330-348 | There is a group iff there is an event; the last group has the last event's round id |
| LogParser.GroupsShape | src/workers/log-parser.worker.js:333-348 | Each group is a non-empty run of one round id, from its first to its last event, Incomplete; neighbouring groups have different ids |
| LogParser.GroupsKeepEvents | src/workers/log-parser.worker.js:333-348 | Concatenating the groups gives back the events: none lost, none reordered |
| LogParser.GroupsOfSortedEvents | src/workers/log-parser.worker.js:333-348 | For events ordered by round id, group ids strictly increase, and every event's round has a group |
| LogParser.GroupsOfRounds | src/workers/log-parser.worker.js:330-348 | Grouping the respawns of numbered rounds gives one summary per round that has respawns |
| LogParser.ParsedRounds | src/workers/log-parser.worker.js:329-361 | The parsed rounds are the summaries of the rounds that saw a respawn, in increasing id order, their respawns are exactly the events, and the statistics count them |
| LogParser.UnterminatedLastLine | src/workers/log-parser.worker.js:127-140 | For a log whose last line has no newline, the complete lines give the same state as without that line, while the batch events are those of processing that line too |
| LogParser.BatchMatchesLive | src/workers/log-parser.worker.js:139-327 | For a log ending in a newline, the batch parser and the live monitor fed the same text give the same events and sessions; the live warnings are a prefix of the batch warnings, which add at most the end-of-log warning |
| Timestamp.ParseTimestamp | src/workers/live-monitor.worker.js:117-126 | A timestamp exists iff some `<DD:DD:DD>` occurs; its value is that of the leftmost one |
| Timestamp.FindClock | src/workers/live-monitor.worker.js:118 | Finds the first `<DD:DD:DD>` at or after a position, or proves there is none |
| Timestamp.DayClock | src/workers/log-parser.worker.js:112-121 | For a valid time of day the value is below 86400 and its hours, minutes and seconds read back as written |
| Timestamp.NoAngleNoStamp | src/workers/live-monitor.worker.js:118-125 | A line without `<` has no timestamp |
| Lines.Split | src/workers/live-monitor.worker.js:322-330 | `split('\n')` gives at least one piece, none containing a newline |
| Lines.JoinSplit | src/workers/live-monitor.worker.js:322-330 | Joining the pieces with newlines gives back the text |
| Lines.SplitJoin | src/workers/live-monitor.worker.js:322-330 | Splitting newline-free lines joined with newlines gives back the lines |
| Lines.SplitAppend | src/workers/live-monitor.worker.js:322-330 | Splitting `x + y` is the complete lines of `x` followed by the split of its remainder plus `y` |
| Lines.CompleteLinesAppend | src/workers/live-monitor.worker.js:322-330 | The complete lines of `x + y` are those of `x` followed by those of its remainder plus `y` |
| Lines.PartialLineAppend | src/workers/live-monitor.worker.js:322-330 | The remainder of `x + y` is the remainder of `x`'s remainder plus `y` |
| Lines.PartialLineHasNoNewline | src/workers/live-monitor.worker.js:322-330 | The kept buffer never holds a newline |
| Lines.EndsWithNewline | src/workers/live-monitor.worker.js:322-330 | Text ending in a newline leaves an empty buffer |
| Lines.NoNewlineSplit | src/workers/live-monitor.worker.js:322-330 | Text without a newline is one piece, no complete line, and all of it stays in the buffer |
| LogSyntax.GameRulesClass | src/workers/live-monitor.worker.js:148-153 | A class is found iff `Game rules class:`, optional spaces and a word run occur; it is the whole word run of the leftmost such match |
| LogSyntax.PrepareLevelMap | src/workers/live-monitor.worker.js:156-159 | A map is found iff `PrepareLevel`, at least one space and a word run occur; it is the whole word run of the leftmost such match |
| LogSyntax.TeamId | src/workers/live-monitor.worker.js:202-206 | A team id is found iff `TeamID:`, optional spaces and a digit run occur; it is the decimal value of the leftmost such digit run (the victory-marker gate is in `Classify`) |
| LogSyntax.JoinedPlayer | src/workers/live-monitor.worker.js:212-215 | A name is found iff `Player `, a non-empty text within one line and ` has joined the server` occur; it is the text of the leftmost match, ending at the first suffix after it (lazy `.+?`) |
| LogSyntax.LeftPlayer | src/workers/live-monitor.worker.js:228-231 | A name is found iff `Player `, a non-empty text within one line and ` has left the server` occur; it is the text of the leftmost match, ending at the first suffix after it (lazy `.+?`) |
| LogSyntax.RespawnPlayer | src/workers/live-monitor.worker.js:244-247 | A name is found iff the respawn marker, one or more spaces and a non-empty quoted text without quotes occur; it is the quoted text of the leftmost match, without quotes |
| Domain.MakeStats | src/workers/log-parser.worker.js:359-365 | Statistics: the respawn and round counts, exactly the maps seen, and the numbers of distinct players and regiments |
| Domain.Distinct | src/workers/log-parser.worker.js:362 | Removing duplicates keeps exactly the same members, each once |
| Regiment.StripDotLetter | src/workers/live-monitor.worker.js:70 | A final dot, one letter and an optional `*` are removed exactly when the name ends with them; nothing else is removed |
| Regiment.StripTrailingStars | src/workers/live-monitor.worker.js:71 | Only trailing stars are removed, all of them |
| Regiment.StripSpacedLetter | src/workers/live-monitor.worker.js:72 | Only a final run of spaces, one letter and an optional `*` is removed, and when the name ends with one, the cut starts at its leftmost possible start |
| Regiment.RemoveDotSuffix | src/workers/live-monitor.worker.js:82-84 | Only a dot followed by one or more characters, none a line terminator, up to the end is removed, from the leftmost such dot |
| Regiment.StripSuffixAnyCase | src/workers/live-monitor.worker.js:87-91 | The literal suffix is removed, in any case, exactly when the name ends with it |
| Regiment.StripBracketedLetters | src/workers/live-monitor.worker.js:92-94 | The bracket, `width` letters and the closing bracket are removed exactly when the name ends with them |
| Regiment.StripDotLetters | src/workers/live-monitor.worker.js:95 | Only a final dot and one to three letters are removed, and when the name ends with them the cut is at the leftmost such dot |
| Regiment.CleanCompanySuffix | src/workers/live-monitor.worker.js:86-96 | Company-suffix cleaning only removes an end of the name: the result is a prefix of the input |
| Regiment.CleanCompanySuffixCuts | src/workers/live-monitor.worker.js:86-96 | Whatever company suffix the name ends with (`.CAV`, `.WA`, `.(LB)` or `(LB)` in any case, one or two letters in braces, one in brackets, a dot and one to three letters) is cut |
| Regiment.StateMatchAt | src/workers/live-monitor.worker.js:99 | Every match of the state pattern starting at a position is seen there: a match is reported iff one exists, and its number part is the longest one (the optional ordinal is tried first) |
| Regiment.TruncateState | src/workers/live-monitor.worker.js:98-102 | Without a match the tag is kept; otherwise, at the leftmost match with the longest number part, the state name is replaced by its first two letters, upper-cased |
| Regiment.LowerOrdinalsChars | src/workers/live-monitor.worker.js:106-108 | Each character after the ordinal pass is the upper-case one, except the two letters of an ordinal after a digit, which are lower-case |
| Regiment.NormalizeCanonical | src/workers/live-monitor.worker.js:104-109 | Every normalized name is canonical: no spaces, no lower-case letter except ordinal suffixes after a digit |
| Regiment.UpperLowerOrdinals | src/workers/live-monitor.worker.js:105-108 | Upper-casing undoes the ordinal pass on text without lower-case letters |
| Regiment.CaseStepsIdempotent | src/workers/live-monitor.worker.js:105-108 | Running the case steps twice gives the same result as running them once |
| Regiment.NormalizeKeepsUpperWord | src/workers/live-monitor.worker.js:69-111 | A name of capital letters only comes out unchanged when the rule has no rewrite setting |
| Regiment.NormalizeKeepsCanonical | src/workers/live-monitor.worker.js:69-111 | A canonical tag with no dot and no `*` is a fixed point of normalization under a rule without a rewrite setting |
| Regiment.UncategorizedNotCanonical | src/workers/live-monitor.worker.js:63 | The fallback "Uncategorized" is never a normalized name |
| Regiment.FirstMatchDecides | src/workers/live-monitor.worker.js:36-61 | The first matching rule alone decides the regiment |
| Regiment.LaterRulesIrrelevant | src/workers/live-monitor.worker.js:36-61 | Rules after the first match have no influence |
| Regiment.ClanRuleYieldsCode | src/workers/live-monitor.worker.js:44-54 | A rule with a clan setting yields its clan code whatever its groups |
| Regiment.RuleRegimentCanonical | src/workers/live-monitor.worker.js:56-58 | A non-empty extracted regiment is canonical |
| Regiment.RuleNeverUncategorized | src/workers/live-monitor.worker.js:39-60 | A matching rule never yields "Uncategorized" |
| Regiment.UncategorizedIffNoMatch | src/workers/live-monitor.worker.js:36-63 | The regiment is "Uncategorized" iff no rule matches |
| Regiment.MissingRegiment | src/workers/live-monitor.worker.js:40-60 | A matched rule yields `undefined` iff it has no clan setting, the chosen group (group 1 for group 0) is empty or missing after trimming, and group 1 is missing |
| RegimentScenarios.TestRules | tests/regiment-parser.test.js:12-70 | The test's rule list: eight rules in order, each with its name, group and normalize setting |
| RegimentScenarios.SquareBracketsDecide | tests/regiment-parser.test.js:50-56 | A name that only the generic square-bracket rule (among the earlier rules) matches gets that rule's cleaned group |
| RegimentScenarios.ClanBracketsDecide | tests/regiment-parser.test.js:14-19 | A name the first clan rule matches is decided by it |
| RegimentScenarios.CavalrySuffixCut | tests/regiment-parser.test.js:188-189 | `[8thCT.Cav]1Sgt. Mucho Bitey` gives `8thCT` |
| RegimentScenarios.DashKept | tests/regiment-parser.test.js:196-197 | `V-[65th-IL]PVT.Dman2112g` gives `65th-IL` |
| RegimentScenarios.ClanRuleWithoutSetting | tests/regiment-parser.test.js:154-155 | `CB[30thOH]Pvt. Riley Gaming` gives `30thOH` |
| RegimentScenarios.BracedCompanyCut | tests/regiment-parser.test.js:245 | `[8thCT{A}]Pfc. Puncakian` gives `8thCT` |
| RegimentScenarios.StateNameShortened | src/workers/live-monitor.worker.js:98-102 | `30thOhio` under `truncateState` gives `30thOH` |
| RegimentScenarios.ShortStateLost | src/workers/live-monitor.worker.js:98-102 | `30thOH` under `truncateState` gives `30th` |
| RegimentScenarios.NormalizeNotIdempotent | src/workers/live-monitor.worker.js:70-72 | `A.B C` normalizes to the canonical-looking `A.B`, and `A.B` normalizes to `A`: normalization is not idempotent |
| Ordering.Filter | src/stores/logStore.js:44-67 | A filter keeps exactly the elements that pass, each as often as before |
| Ordering.FilterSubsequence | src/stores/logStore.js:44-67 | A filter's result is a subsequence of its input |
| Ordering.FilterMembers | src/stores/logStore.js:44-67 | An element is in a filter's result iff it is in the input and passes |
| Ordering.SortBy | src/stores/logStore.js:452-454 | Sorting gives a permutation ordered by the key |
| Ordering.SortStable | src/stores/logStore.js:452-454 | Elements with equal keys keep their relative order |
| Store.FilteredEvents | src/stores/logStore.js:44-67 | `filteredEvents` throws iff the filter text is set and some event in the round and time window matches no player name and has no regiment |
| Store.FilteredEventsIsOneFilter | src/stores/logStore.js:44-67 | The three filters in a row equal one filter with all three conditions |
| Store.FilteredEventsMeaning | src/stores/logStore.js:44-67 | The shown events are a subsequence of the events, and an event is shown iff it is in the round, in the time range and matches the text |
| Store.SelectedRoundShowsAllItsEvents | src/stores/logStore.js:44-83 | With no filter text and the time range at the scope's bounds, every event of the selected round is shown |
| Store.TimeBounds | src/stores/logStore.js:70-83 | `timeBounds` is the minimum and maximum event time in the round scope, or the whole day when it is empty |
| Store.TimeOffset | src/stores/logStore.js:86-99 | `timeOffset` is the lower time bound of the scope, or 0 when it is empty |
| Store.MinTime | src/stores/logStore.js:81 | The minimum: an event's time, at most every event's time |
| Store.MaxTime | src/stores/logStore.js:82 | The maximum: an event's time, at least every event's time |
| Store.FirstEventOf | src/stores/logStore.js:507 | `events.find` by player: the first event of the player, or none iff there is none |
| Store.JsRem | src/stores/logStore.js:420-421 | The truncating remainder: Euclidean on non-negative numbers, non-positive on negative ones |
| Store.FieldValue | src/stores/logStore.js:422 | A padded clock field has two or more digits and reads back as its number |
| Store.ClockRoundTrip | src/stores/logStore.js:415-423 | A non-negative time formats as `H:MM:SS` with minutes and seconds below 60, and the fields read back to the time |
| Store.FormatTimeReadsBack | src/stores/logStore.js:415-423 | `formatTime` reads back as the seconds since the offset (or as the seconds when not relative) |
| Store.ClockZero | src/stores/logStore.js:489-492 | Zero seconds formats as `00:00:00` |
| Presence.FindRound | src/stores/logStore.js:436-437 | `rounds.find` by id: the first round with the id, or none iff there is none |
| Presence.PresenceBounds | src/stores/logStore.js:435-446 | Bounds exist iff the round exists, or (for all rounds) iff there are events, and then start ≤ end |
| Presence.Clamp | src/stores/logStore.js:473-478 | A clamped time lies inside the round and is unchanged when already inside |
| Presence.PresenceZeroCases | src/stores/logStore.js:435-449 | A missing round, no events, or a zero-length round gives zero presence, `00:00:00` |
| Presence.PresenceFullDuration | src/stores/logStore.js:465-466 | A player with respawns and no sessions is present for the whole round |
| Presence.LeaveFirstCountsFromStart | src/stores/logStore.js:467-470 | With respawns and a leave as first session, the time from the start to that leave counts |
| Presence.LeaveWithoutJoinIgnored | src/stores/logStore.js:473-481 | A leave with no open join changes nothing |
| Presence.JoinLeaveInterval | src/stores/logStore.js:473-481 | A join and a later leave inside the round count exactly their interval |
| Presence.JoinWithoutLeaveCountsToEnd | src/stores/logStore.js:484-486 | A join never followed by a leave counts until the round end |
| Presence.ClampedSweepBounded | src/stores/logStore.js:452-486 | Over time-sorted sessions, the corrected sweep's total is between 0 and the round length |
| Presence.PresenceWithinRound | src/stores/logStore.js:452-486 | The corrected presence time is between 0 and the round length |
| Presence.PresenceAgreesInsideRound | src/stores/logStore.js:473-486 | When all of the player's sessions lie inside the round, the corrected and the as-written presence agree |
| Presence.JoinAfterEndGivesNegativePresence | src/stores/logStore.js:473-486 | A join after the round end gives −100 seconds as written and 0 once corrected |
| Rankings.TallyKeys | src/stores/logStore.js:108-111 | The tally has a key iff some element has that key |
| Rankings.TallyCounts | src/stores/logStore.js:108-111 | Each key's count is its number of occurrences |
| Rankings.PropertyOrderShape | src/stores/logStore.js:113 | Property order is a duplicate-free permutation of the keys with array-index keys first in ascending order |
| Rankings.Top | src/stores/logStore.js:113-116 | Sort by count descending then take ten: at most ten entries from the input, counts non-increasing, and anything left out counts no more than the tenth |
| Rankings.TopMembers | src/stores/logStore.js:113-116 | The top entries come from the input, and are distinct when the input is |
| Rankings.TopByName | src/stores/logStore.js:113-116 | With distinct names, the top names are distinct and any name left out counts no more than the tenth |
| Rankings.RegimentEntriesDistinct | src/stores/logStore.js:107-113 | Each regiment key has one row |
| Rankings.RegimentEntriesCounts | src/stores/logStore.js:107-113 | Each row counts the events of its regiment |
| Rankings.RegimentEntriesCover | src/stores/logStore.js:107-113 | Every event's regiment key has a row |
| Rankings.TopRegimentsOrdered | src/stores/logStore.js:107-117 | `topRegiments` has at most ten rows, counts non-increasing |
| Rankings.TopRegimentsCounts | src/stores/logStore.js:107-117 | Each top row counts the events of its regiment |
| Rankings.TopRegimentsDistinct | src/stores/logStore.js:107-117 | No regiment appears twice in the top list |
| Rankings.TopRegimentsLeftOut | src/stores/logStore.js:107-117 | A regiment left out means the list is full and it counts no more than the tenth |
| Rankings.TopPlayersOrdered | src/stores/logStore.js:120-136 | `topPlayers` has at most ten rows, counts non-increasing |
| Rankings.TopPlayersMeaning | src/stores/logStore.js:120-136 | Each top player row counts that player's events and carries the regiment of the player's first event |
| Rankings.PlayerEntriesMeaning | src/stores/logStore.js:120-131 | Each player row counts that player's events and carries the regiment of the player's first event |
| Reassignments.Lookup | src/stores/logStore.js:543 | A player has a new regiment iff an entry names them, and it is that entry's value |
| Reassignments.FindReassignment | src/stores/logStore.js:514-516 | `findIndex` by player: the first log entry of the player, or none iff there is none |
| Reassignments.TrackOne | src/stores/logStore.js:505-539 | One entry: no change for a player without events or whose first event already has the new regiment; else the player's log entry takes the new regiment, keeping the original, or is appended with the first event's regiment as original |
| Reassignments.ReassignEffect | src/stores/logStore.js:542-546 | Every event of a player with a non-empty new regiment takes it; all other fields and all other events are unchanged |
| Reassignments.ReassignIdempotent | src/stores/logStore.js:542-546 | Applying the same reassignments twice equals applying them once |
| Reassignments.TrackOnePerPlayer | src/stores/logStore.js:505-539 | The log never holds two entries for one player |
| Reassignments.TrackKeepsOriginal | src/stores/logStore.js:505-539 | The log only grows, and each entry keeps its player and original regiment |
| Reassignments.TrackUnchanged | src/stores/logStore.js:505-539 | No change is logged for a player without events or whose first event already has the new regiment |
| Teams.AssignTeam | src/stores/logStore.js:596-605 | Setting creates the round's dictionary if missing and gives the regiment the team; a `null` team deletes it |
| Teams.LookupTeam | src/stores/logStore.js:620-627 | A team is read iff a round is addressed and the regiment has a non-empty team there |
| Teams.SetThenGet | src/stores/logStore.js:586-628 | Setting a team and reading it back gives the team (an empty name reads as none) |
| Teams.DeleteThenGet | src/stores/logStore.js:586-628 | After deletion nothing is read |
| Teams.AssignLeavesOthers | src/stores/logStore.js:586-628 | Setting one regiment in one round changes no other regiment or round |
| Teams.NullTargetReadsNothing | src/stores/logStore.js:623-625 | With no round addressed nothing is read |
| Actions.LogStore.constructor | src/stores/logStore.js:10-40 | The initial store: no data, the whole day as time range, no filter, no round selected |
| Actions.LogStore.SetSelectedRound | src/stores/logStore.js:252-269 | `setSelectedRound` selects the round and sets the time range to the bounds of its events, or leaves it when there are none |
| Actions.LogStore.GetPlayerPresenceTime | src/stores/logStore.js:431-499 | The presence loop computes the corrected presence time |
| Actions.LogStore.ApplyRegimentReassignments | src/stores/logStore.js:501-546 | The log is tracked against the events as they were, then the events are reassigned |
| Actions.LogStore.TrackReassignments | src/stores/logStore.js:505-539 | The tracking loop computes the entry-by-entry log update |
| Actions.LogStore.ApplyToEvents | src/stores/logStore.js:542-546 | The application loop computes the reassigned events |
| Actions.LogStore.SetRegimentTeam | src/stores/logStore.js:586-615 | `setRegimentTeam` sets or deletes the team in the addressed round; it is refused, changing nothing, when no round is addressed and there are several rounds |
| Actions.LogStore.GetRegimentTeam | src/stores/logStore.js:618-628 | `getRegimentTeam` reads the addressed round's non-empty team |
| Actions.SelectedScope | src/stores/logStore.js:252-269 | The events `setSelectedRound` takes its bounds from are the round scope of the filters |
| Actions.SweepFrom | src/stores/logStore.js:462-486 | The start state, the pass, and an interval still open at the end counted to the end |
| Actions.SweepSessions | src/stores/logStore.js:473-481 | The session loop computes the corrected pass |
| Actions.SetThenGetTeam | src/stores/logStore.js:586-628 | Setting a team for an addressed round and getting it back gives the team, or none for a deletion or an empty name |

## Left out

- Worker wiring (Comlink `expose`), fetching and reading log files, `localStorage` caching, `exportCSV`, the chart getters (`respawnsOverTime`, `regimentTimeline` and the like), and the server, URL-state and API modules are not part of this model.
- The regular-expression engine is not modelled in general. The parser's own fixed patterns (timestamp, markers, player names) are written out as scanners in `LogSyntax` and `Timestamp`. The configurable regiment rules are given as matchers: a function from player name to its capture groups, or none. `RegimentScenarios` fixes the test's rule list but states each matcher's outcome as a requirement instead of computing it.
- The contents of `parsing-config.json` are not part of this model. The rules and `idleGapSeconds` are a configuration parameter.
- Wall-clock timestamps (`new Date().toISOString()` in reassignment logs and warnings) and `analyzePlayerNamePattern` are left out. `console` output is left out.
- Floating point is left out. The presence `percentage` and the progress percentage (`Math.round`) are not modelled. The progress callback is modelled as the list of `(processed, total)` pairs it is called with.
- Case mapping is ASCII only. `toUpperCase`/`toLowerCase` of other characters, and object keys that collide with `Object.prototype` names, are not modelled.
- Actions.LogStore.ApplyRegimentReassignments: the reassignment object is given by its entries in property order, so the model requires distinct keys, as an object has.
- Actions.LogStore.GetPlayerPresenceTime: models the corrected sweep, not the code as written; see Findings. The two agree whenever the player's sessions lie inside the round (`Presence.PresenceAgreesInsideRound`).
- LiveMonitor.LiveMonitorParser.ProcessChunk: `lastProcessedPosition` is kept as a field that nothing changes, as in the worker.
- LiveMonitor.LiveMonitorParser.ProcessLine: its warnings are returned rather than stored, as in the worker. `ProcessChunk` stores them.
- Asynchronous execution and concurrent calls into the workers are not modelled: each call runs to completion.

## Findings

| source | as written | input that shows it | evidently intended | confidence | as-written member | corrected member |
|---|---|---|---|---|---|---|
| src/stores/logStore.js:473-486 | A join time is clamped only from below (`Math.max(join, roundStart)`). An interval still open at the end adds `roundEnd - currentJoinTime`. Sessions are picked by round id, and a join after a victory still carries the finished round's id. So a join after the round end subtracts time. | Round 1 runs from 100 to 1000. "Pvt. Ames" joins at 1100 in round 1 and has no respawns. `getPlayerPresenceTime("Pvt. Ames", 1)` gives −100 seconds. | Clamp the join to the round too and count only positive intervals, so that 0 ≤ presence ≤ round length | high, not executed | Presence.JoinAfterEndGivesNegativePresence | Presence.PresenceWithinRound |
