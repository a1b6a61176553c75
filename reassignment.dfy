/**
 * Manual regiment reassignment (`applyRegimentReassignments`): the
 * reassignments are an object from player name to new regiment, given
 * here by its entries in property order.  Each entry that changes a
 * player's regiment is logged once per player, keeping the regiment the
 * player had when first reassigned; then every event of a player with a
 * non-empty new regiment takes it.
 */
module Reassignments {
  import opened Optional
  import opened Domain
  import opened Store

  /** One logged reassignment (the wall-clock timestamp and the name-pattern dump are left out). */
  datatype Reassignment = Reassignment(playerName: string, originalRegiment: Option<string>, newRegiment: string)

  /** The keys of an object are distinct. */
  predicate DistinctKeys(entries: seq<(string, string)>) {
    forall i, j :: 0 <= i < j < |entries| ==> entries[i].0 != entries[j].0
  }

  /** `reassignments[player]` */
  function Lookup(entries: seq<(string, string)>, player: string): (r: Option<string>)
    ensures r.None? <==> forall i :: 0 <= i < |entries| ==> entries[i].0 != player
    ensures r.Some? ==> exists i :: 0 <= i < |entries| && entries[i] == (player, r.value)
  {
    if entries == [] then None
    else if entries[0].0 == player then Some(entries[0].1)
    else
      var r := Lookup(entries[1..], player);
      assert forall i :: 1 <= i < |entries| ==> entries[1..][i - 1] == entries[i];
      r
  }

  /** With distinct keys the value found is the value of the entry with that key. */
  lemma LookupEntry(entries: seq<(string, string)>, i: nat)
    requires DistinctKeys(entries) && i < |entries|
    ensures Lookup(entries, entries[i].0) == Some(entries[i].1)
  {
    var r := Lookup(entries, entries[i].0);
    var j :| 0 <= j < |entries| && entries[j] == (entries[i].0, r.value);
    assert j == i;
  }

  /** The log keeps at most one entry per player. */
  predicate OnePerPlayer(log: seq<Reassignment>) {
    forall i, j :: 0 <= i < j < |log| ==> log[i].playerName != log[j].playerName
  }

  /** `manualReassignments.findIndex(r => r.playerName === player)` */
  function FindReassignment(log: seq<Reassignment>, player: string): (r: Option<nat>)
    ensures r.None? <==> forall k :: 0 <= k < |log| ==> log[k].playerName != player
    ensures r.Some? ==> r.value < |log| && log[r.value].playerName == player
                        && forall j :: 0 <= j < r.value ==> log[j].playerName != player
  {
    if log == [] then None
    else if log[0].playerName == player then Some(0)
    else
      var r := FindReassignment(log[1..], player);
      assert forall k :: 1 <= k < |log| ==> log[1..][k - 1] == log[k];
      if r.None? then None else Some(r.value + 1)
  }

  /**
   * One entry of the tracking pass.  Nothing happens when the player has
   * no event or their first event already has the new regiment; otherwise
   * the player's log entry takes the new regiment and keeps its original
   * one, or a new entry records the first event's regiment as original.
   */
  function TrackOne(log: seq<Reassignment>, events: seq<LogEvent>, player: string, newRegiment: string)
    : (r: seq<Reassignment>)
    ensures |log| <= |r| <= |log| + 1
    ensures forall i :: 0 <= i < |log| ==> r[i].playerName == log[i].playerName && r[i].originalRegiment == log[i].originalRegiment
    ensures forall i :: 0 <= i < |log| && log[i].playerName != player ==> r[i] == log[i]
    ensures |r| == |log| + 1 ==> r[|log|].playerName == player && forall i :: 0 <= i < |log| ==> log[i].playerName != player
    ensures var first := FirstEventOf(events, player);
      if first.None? || first.value.regiment == Some(newRegiment) then r == log
      else exists j :: 0 <= j < |r| && r[j].playerName == player && r[j].newRegiment == newRegiment
             && r[j].originalRegiment == (if j < |log| then log[j].originalRegiment else first.value.regiment)
  {
    var first := FirstEventOf(events, player);
    if first.None? || first.value.regiment == Some(newRegiment) then log
    else
      var found := FindReassignment(log, player);
      if found.Some? then
        log[found.value := Reassignment(player, log[found.value].originalRegiment, newRegiment)]
      else
        log + [Reassignment(player, first.value.regiment, newRegiment)]
  }

  /** The tracking pass over all entries, in order. */
  function Track(log: seq<Reassignment>, events: seq<LogEvent>, entries: seq<(string, string)>): seq<Reassignment>
  {
    if entries == [] then log
    else
      var last := entries[|entries| - 1];
      TrackOne(Track(log, events, entries[..|entries| - 1]), events, last.0, last.1)
  }

  /** An event after the application pass: a non-empty new regiment replaces the old one. */
  function ReassignEvent(e: LogEvent, entries: seq<(string, string)>): LogEvent {
    var v := Lookup(entries, e.player);
    if v.Some? && v.value != "" then e.(regiment := Some(v.value)) else e
  }

  /** The application pass over all events. */
  function Reassign(events: seq<LogEvent>, entries: seq<(string, string)>): (r: seq<LogEvent>)
    ensures |r| == |events|
  {
    seq(|events|, k requires 0 <= k < |events| => ReassignEvent(events[k], entries))
  }

  // ------------------------------------------------------------------
  // Properties
  // ------------------------------------------------------------------

  /**
   * Reassignment changes only regiments: an event of a player with a
   * non-empty new regiment takes that regiment, every other event stays as
   * it was.
   */
  lemma ReassignEffect(events: seq<LogEvent>, entries: seq<(string, string)>, k: nat)
    requires DistinctKeys(entries) && k < |events|
    ensures var e, r := events[k], Reassign(events, entries)[k];
      && r.time == e.time && r.player == e.player && r.roundId == e.roundId && r.mapName == e.mapName
      && (forall i :: 0 <= i < |entries| && entries[i].0 == e.player && entries[i].1 != ""
            ==> r.regiment == Some(entries[i].1))
      && ((forall i :: 0 <= i < |entries| && entries[i].0 == e.player ==> entries[i].1 == "") ==> r == e)
  {
    var e := events[k];
    forall i | 0 <= i < |entries| && entries[i].0 == e.player
      ensures Lookup(entries, e.player) == Some(entries[i].1)
    {
      LookupEntry(entries, i);
    }
  }

  /** Reassigning with the same entries twice changes nothing more. */
  lemma ReassignIdempotent(events: seq<LogEvent>, entries: seq<(string, string)>)
    ensures Reassign(Reassign(events, entries), entries) == Reassign(events, entries)
  {
  }

  /** The log never holds two entries for one player. */
  lemma {:induction false} TrackOnePerPlayer(log: seq<Reassignment>, events: seq<LogEvent>, entries: seq<(string, string)>)
    requires OnePerPlayer(log)
    ensures OnePerPlayer(Track(log, events, entries))
  {
    if entries != [] {
      var init := entries[..|entries| - 1];
      var last := entries[|entries| - 1];
      TrackOnePerPlayer(log, events, init);
      var before := Track(log, events, init);
      var after := TrackOne(before, events, last.0, last.1);
      forall i, j | 0 <= i < j < |after|
        ensures after[i].playerName != after[j].playerName
      {
        if j == |before| {
          assert after[j].playerName == last.0;
        }
      }
    }
  }

  /**
   * The log only grows, and an entry keeps its player and its original
   * regiment whatever later reassignments of that player do.
   */
  lemma {:induction false} TrackKeepsOriginal(log: seq<Reassignment>, events: seq<LogEvent>, entries: seq<(string, string)>)
    ensures var r := Track(log, events, entries);
      && |log| <= |r|
      && forall i :: 0 <= i < |log| ==> r[i].playerName == log[i].playerName && r[i].originalRegiment == log[i].originalRegiment
  {
    if entries != [] {
      TrackKeepsOriginal(log, events, entries[..|entries| - 1]);
    }
  }

  /**
   * A player with no event, or whose first event already has the new
   * regiment, leaves the log as it was.
   */
  lemma TrackUnchanged(log: seq<Reassignment>, events: seq<LogEvent>, player: string, newRegiment: string)
    requires (forall k :: 0 <= k < |events| ==> events[k].player != player)
             || (exists k :: 0 <= k < |events| && events[k].player == player && events[k].regiment == Some(newRegiment)
                   && forall j :: 0 <= j < k ==> events[j].player != player)
    ensures TrackOne(log, events, player, newRegiment) == log
  {
    if exists k :: 0 <= k < |events| && events[k].player == player {
      var k :| 0 <= k < |events| && events[k].player == player && events[k].regiment == Some(newRegiment)
                   && forall j :: 0 <= j < k ==> events[j].player != player;
      var first := FirstEventOf(events, player);
      var f :| 0 <= f < |events| && events[f] == first.value && first.value.player == player
                 && forall j :: 0 <= j < f ==> events[j].player != player;
      assert f == k;
    }
  }
}
