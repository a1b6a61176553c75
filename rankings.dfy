/**
 * The `topRegiments` and `topPlayers` getters: a count per key gathered in
 * a plain object, its entries in the object's property order, sorted by
 * count, highest first (the sort is stable), and the first ten kept.
 */
module Rankings {
  import opened Optional
  import opened Text
  import opened Domain
  import opened Ordering
  import opened Store

  /** A plain object used as a counter: its values and its keys in insertion order. */
  datatype Tally = Tally(counts: map<string, nat>, order: seq<string>)

  /**
   * `counts[key(x)] = (counts[key(x)] || 0) + 1` for each element in turn;
   * a key is appended to the insertion order the first time it is seen.
   */
  function TallyBy<T(!new)>(s: seq<T>, key: T -> string): (t: Tally)
    ensures forall k :: k in t.counts <==> k in t.order
    ensures forall i, j :: 0 <= i < j < |t.order| ==> t.order[i] != t.order[j]
  {
    if s == [] then Tally(map[], [])
    else
      var t := TallyBy(s[..|s| - 1], key);
      var k := key(s[|s| - 1]);
      if k in t.counts then Tally(t.counts[k := t.counts[k] + 1], t.order)
      else Tally(t.counts[k := 1], t.order + [k])
  }

  /** How many elements have the key `k`. */
  function Occurrences<T>(s: seq<T>, key: T -> string, k: string): nat {
    if s == [] then 0
    else Occurrences(s[..|s| - 1], key, k) + (if key(s[|s| - 1]) == k then 1 else 0)
  }

  /** The keys of the tally are the keys of the elements. */
  lemma {:induction false} TallyKeys<T(!new)>(s: seq<T>, key: T -> string, k: string)
    ensures k in TallyBy(s, key).counts <==> exists i :: 0 <= i < |s| && key(s[i]) == k
  {
    if s != [] {
      var init := s[..|s| - 1];
      TallyKeys(init, key, k);
      assert forall i :: 0 <= i < |init| ==> init[i] == s[i];
      if (exists i :: 0 <= i < |s| && key(s[i]) == k) && key(s[|s| - 1]) != k {
        var i :| 0 <= i < |s| && key(s[i]) == k;
        assert i < |init| && key(init[i]) == k;
      }
    }
  }

  /** Each key of the tally counts exactly the elements with that key. */
  lemma {:induction false} TallyCounts<T(!new)>(s: seq<T>, key: T -> string, k: string)
    ensures k in TallyBy(s, key).counts ==> TallyBy(s, key).counts[k] == Occurrences(s, key, k)
    ensures k !in TallyBy(s, key).counts ==> Occurrences(s, key, k) == 0
  {
    if s != [] {
      TallyCounts(s[..|s| - 1], key, k);
    }
  }

  /** A canonical array index (`"0"`, `"17"`, no leading zero, below 2^32 - 1): such keys come first in an object. */
  predicate IsArrayIndex(k: string) {
    && k != []
    && (forall i :: 0 <= i < |k| ==> IsDigit(k[i]))
    && (k[0] != '0' || |k| == 1)
    && DigitsValue(k) < 0xFFFF_FFFF
  }

  /** The numeric value of an array-index key. */
  function IndexValue(k: string): int {
    DigitsValue(k)
  }

  predicate IsPropertyName(k: string) {
    !IsArrayIndex(k)
  }

  /**
   * The property order of an object whose keys were added in `order`:
   * array-index keys in ascending numeric order, then the other keys in
   * insertion order.
   */
  function PropertyOrder(order: seq<string>): (r: seq<string>)
    ensures multiset(r) == multiset(order)
    ensures forall k :: k in r <==> k in order
  {
    var indices := Filter(order, IsArrayIndex);
    var names := Filter(order, IsPropertyName);
    assert multiset(indices) + multiset(names) == multiset(order) by {
      forall x
        ensures (multiset(indices) + multiset(names))[x] == multiset(order)[x]
      {
      }
    }
    var r := SortBy(indices, IndexValue) + names;
    PermutationMembers(r, order);
    r
  }

  /** Property order lists the keys once each, array indices first, in ascending order. */
  lemma PropertyOrderShape(order: seq<string>)
    requires forall i, j :: 0 <= i < j < |order| ==> order[i] != order[j]
    ensures var r := PropertyOrder(order);
      && (forall i, j :: 0 <= i < j < |r| ==> r[i] != r[j])
      && (forall k :: k in r <==> k in order)
      && (forall i, j :: 0 <= i < j < |r| && IsArrayIndex(r[j]) ==> IsArrayIndex(r[i]) && IndexValue(r[i]) <= IndexValue(r[j]))
  {
    var r := PropertyOrder(order);
    PermutationMembers(r, order);
    forall i, j | 0 <= i < j < |r|
      ensures r[i] != r[j]
    {
      NoDuplicatesCount(order, r[i]);
      if r[i] == r[j] {
        MultisetTwoPositions(r, i, j);
      }
    }
    IndicesFirst(order);
  }

  /** Two sequences with the same multiset have the same members. */
  lemma PermutationMembers<T>(a: seq<T>, b: seq<T>)
    requires multiset(a) == multiset(b)
    ensures forall k :: k in a <==> k in b
  {
    forall k
      ensures k in a <==> k in b
    {
      assert k in a <==> k in multiset(a);
      assert k in b <==> k in multiset(b);
    }
  }

  /** In property order the array indices come first, in ascending order. */
  lemma IndicesFirst(order: seq<string>)
    ensures var r := PropertyOrder(order);
      forall i, j :: 0 <= i < j < |r| && IsArrayIndex(r[j]) ==> IsArrayIndex(r[i]) && IndexValue(r[i]) <= IndexValue(r[j])
  {
    var indices := Filter(order, IsArrayIndex);
    var sorted := SortBy(indices, IndexValue);
    var names := Filter(order, IsPropertyName);
    forall i | 0 <= i < |sorted|
      ensures IsArrayIndex(sorted[i])
    {
      PermutationMembers(sorted, indices);
      assert sorted[i] in indices;
    }
    forall i | 0 <= i < |names|
      ensures !IsArrayIndex(names[i])
    {
      assert IsPropertyName(names[i]);
    }
    var r := PropertyOrder(order);
    assert r == sorted + names;
    forall i, j | 0 <= i < j < |r| && IsArrayIndex(r[j])
      ensures IsArrayIndex(r[i]) && IndexValue(r[i]) <= IndexValue(r[j])
    {
      SortedThenRest(sorted, names, IsArrayIndex, IndexValue, i, j);
    }
  }

  /** In a sorted run of elements satisfying `p` followed by elements that do not, an element satisfying `p` has only such elements before it, with keys not larger. */
  lemma SortedThenRest<T(!new)>(a: seq<T>, b: seq<T>, p: T -> bool, key: T -> int, i: nat, j: nat)
    requires SortedBy(a, key)
    requires forall k :: 0 <= k < |a| ==> p(a[k])
    requires forall k :: 0 <= k < |b| ==> !p(b[k])
    requires i < j < |a + b| && p((a + b)[j])
    ensures p((a + b)[i]) && key((a + b)[i]) <= key((a + b)[j])
  {
    assert (a + b)[i] == a[i] && (a + b)[j] == a[j];
  }

  /** An element that occurs twice is counted twice. */
  lemma MultisetTwoPositions<T>(s: seq<T>, i: nat, j: nat)
    requires i < j < |s| && s[i] == s[j]
    ensures multiset(s)[s[i]] >= 2
  {
    assert s == s[..j] + [s[j]] + s[j + 1..];
    assert s[i] in s[..j];
  }

  /** In a sequence without repetitions every element is counted at most once. */
  lemma {:induction false} NoDuplicatesCount<T>(s: seq<T>, x: T)
    requires forall i, j :: 0 <= i < j < |s| ==> s[i] != s[j]
    ensures multiset(s)[x] <= 1
  {
    if s != [] {
      var init := s[..|s| - 1];
      assert s == init + [s[|s| - 1]];
      NoDuplicatesCount(init, x);
      if x == s[|s| - 1] {
        assert x !in init;
      }
    }
  }

  /**
   * `entries.sort((a, b) => count(b) - count(a)).slice(0, 10)`: the ten
   * entries with the highest counts, highest first, ties in entry order.
   */
  function Top<T(!new)>(entries: seq<T>, count: T -> int): (r: seq<T>)
    ensures |r| == if |entries| < 10 then |entries| else 10
    ensures forall i, j :: 0 <= i < j < |r| ==> count(r[i]) >= count(r[j])
    ensures multiset(r) <= multiset(entries)
    ensures forall x :: x in entries && x !in r ==> |r| == 10 && count(x) <= count(r[9])
  {
    var sorted := SortBy(entries, e => -count(e));
    var r := if |sorted| <= 10 then sorted else sorted[..10];
    assert sorted == r + sorted[|r|..];
    forall x | x in entries && x !in r
      ensures |r| == 10 && count(x) <= count(r[9])
    {
      assert x in multiset(sorted);
      var j :| 0 <= j < |sorted| && sorted[j] == x;
      assert j >= |r|;
    }
    r
  }

  /** The rows shown are rows of the input, and distinct rows stay distinct. */
  lemma TopMembers<T(!new)>(entries: seq<T>, count: T -> int)
    ensures forall i :: 0 <= i < |Top(entries, count)| ==> Top(entries, count)[i] in entries
    ensures (forall i, j :: 0 <= i < j < |entries| ==> entries[i] != entries[j])
            ==> forall i, j :: 0 <= i < j < |Top(entries, count)| ==> Top(entries, count)[i] != Top(entries, count)[j]
  {
    var r := Top(entries, count);
    forall i | 0 <= i < |r|
      ensures r[i] in entries
    {
      assert r[i] in multiset(r);
    }
    if forall i, j :: 0 <= i < j < |entries| ==> entries[i] != entries[j] {
      forall i, j | 0 <= i < j < |r|
        ensures r[i] != r[j]
      {
        NoDuplicatesCount(entries, r[i]);
        if r[i] == r[j] {
          MultisetTwoPositions(r, i, j);
        }
      }
    }
  }

  /**
   * With every entry under its own name, the rows shown have distinct
   * names, and an entry is left out only when ten rows with counts at
   * least its own are shown.
   */
  lemma TopByName<T(!new)>(entries: seq<T>, count: T -> int, name: T -> string)
    requires forall i, j :: 0 <= i < j < |entries| ==> name(entries[i]) != name(entries[j])
    ensures var r := Top(entries, count);
      && (forall i, j :: 0 <= i < j < |r| ==> name(r[i]) != name(r[j]))
      && (forall a :: 0 <= a < |entries| && (forall i :: 0 <= i < |r| ==> name(r[i]) != name(entries[a]))
            ==> |r| == 10 && count(entries[a]) <= count(r[9]))
  {
    var r := Top(entries, count);
    TopMembers(entries, count);
    forall i, j | 0 <= i < j < |r|
      ensures name(r[i]) != name(r[j])
    {
      var a :| 0 <= a < |entries| && entries[a] == r[i];
      var b :| 0 <= b < |entries| && entries[b] == r[j];
      assert a != b;
    }
    forall a | 0 <= a < |entries| && (forall i :: 0 <= i < |r| ==> name(r[i]) != name(entries[a]))
      ensures |r| == 10 && count(entries[a]) <= count(r[9])
    {
      assert entries[a] !in r;
    }
  }

  /** One row of `topRegiments`. */
  datatype RegimentCount = RegimentCount(regiment: string, count: nat)

  /** One row of `topPlayers`: the player, the regiment of their first event, their count. */
  datatype PlayerCount = PlayerCount(player: string, regiment: Option<string>, count: nat)

  function RowCount(c: RegimentCount): int {
    c.count
  }

  function PlayerRowCount(c: PlayerCount): int {
    c.count
  }

  function RowRegiment(c: RegimentCount): string {
    c.regiment
  }

  /** The object key of an event's regiment: `undefined` becomes the key "undefined". */
  function RegimentKey(e: LogEvent): string {
    if e.regiment.Some? then e.regiment.value else "undefined"
  }

  function PlayerKey(e: LogEvent): string {
    e.player
  }

  /** `Object.entries(regimentCounts).map(...)` in property order. */
  function RegimentEntries(filtered: seq<LogEvent>): (r: seq<RegimentCount>)
  {
    var t := TallyBy(filtered, RegimentKey);
    var keys := PropertyOrder(t.order);
    seq(|keys|, i requires 0 <= i < |keys| => RegimentCount(keys[i], t.counts[keys[i]]))
  }

  /** The `topRegiments` getter over the filtered events. */
  function TopRegiments(filtered: seq<LogEvent>): seq<RegimentCount> {
    Top(RegimentEntries(filtered), RowCount)
  }

  /** `Object.values(playerData)` in property order; each player's regiment is that of their first event. */
  function PlayerEntries(filtered: seq<LogEvent>): (r: seq<PlayerCount>)
  {
    var t := TallyBy(filtered, PlayerKey);
    var keys := PropertyOrder(t.order);
    seq(|keys|, i requires 0 <= i < |keys| =>
      var first := FirstEventOf(filtered, keys[i]);
      PlayerCount(keys[i], if first.Some? then first.value.regiment else None, t.counts[keys[i]]))
  }

  /** The `topPlayers` getter over the filtered events. */
  function TopPlayers(filtered: seq<LogEvent>): seq<PlayerCount> {
    Top(PlayerEntries(filtered), PlayerRowCount)
  }

  /** Each regiment key has one row. */
  lemma RegimentEntriesDistinct(filtered: seq<LogEvent>)
    ensures var r := RegimentEntries(filtered);
      forall i, j :: 0 <= i < j < |r| ==> r[i].regiment != r[j].regiment
  {
    var t := TallyBy(filtered, RegimentKey);
    PropertyOrderShape(t.order);
  }

  /** Each row counts the events of its regiment. */
  lemma RegimentEntriesCounts(filtered: seq<LogEvent>)
    ensures var r := RegimentEntries(filtered);
      forall i :: 0 <= i < |r| ==> r[i].count == Occurrences(filtered, RegimentKey, r[i].regiment)
  {
    var r := RegimentEntries(filtered);
    var t := TallyBy(filtered, RegimentKey);
    var keys := PropertyOrder(t.order);
    forall i | 0 <= i < |r|
      ensures r[i].count == Occurrences(filtered, RegimentKey, r[i].regiment)
    {
      assert r[i] == RegimentCount(keys[i], t.counts[keys[i]]);
      TallyCounts(filtered, RegimentKey, keys[i]);
    }
  }

  /** Every regiment of the events has a row. */
  lemma RegimentEntriesCover(filtered: seq<LogEvent>, k: nat)
    requires k < |filtered|
    ensures var r := RegimentEntries(filtered);
      exists i :: 0 <= i < |r| && r[i].regiment == RegimentKey(filtered[k])
  {
    var r := RegimentEntries(filtered);
    var t := TallyBy(filtered, RegimentKey);
    var keys := PropertyOrder(t.order);
    TallyKeys(filtered, RegimentKey, RegimentKey(filtered[k]));
    var i :| 0 <= i < |keys| && keys[i] == RegimentKey(filtered[k]);
    assert r[i].regiment == RegimentKey(filtered[k]);
  }

  /** `topRegiments` shows at most ten rows, counts never increasing. */
  lemma TopRegimentsOrdered(filtered: seq<LogEvent>)
    ensures var r := TopRegiments(filtered);
      && |r| <= 10 && (forall i, j :: 0 <= i < j < |r| ==> r[i].count >= r[j].count)
  {
    var r := TopRegiments(filtered);
    forall i, j | 0 <= i < j < |r|
      ensures r[i].count >= r[j].count
    {
      assert RowCount(r[i]) >= RowCount(r[j]);
    }
  }

  /** `topPlayers` shows at most ten rows, counts never increasing. */
  lemma TopPlayersOrdered(filtered: seq<LogEvent>)
    ensures var r := TopPlayers(filtered);
      && |r| <= 10 && (forall i, j :: 0 <= i < j < |r| ==> r[i].count >= r[j].count)
  {
    var r := TopPlayers(filtered);
    forall i, j | 0 <= i < j < |r|
      ensures r[i].count >= r[j].count
    {
      assert PlayerRowCount(r[i]) >= PlayerRowCount(r[j]);
    }
  }

  /** `topRegiments`: each count is the number of filtered events of that regiment. */
  lemma TopRegimentsCounts(filtered: seq<LogEvent>)
    ensures var r := TopRegiments(filtered);
      forall i :: 0 <= i < |r| ==> r[i].count == Occurrences(filtered, RegimentKey, r[i].regiment)
  {
    var entries := RegimentEntries(filtered);
    var r := Top(entries, RowCount);
    RegimentEntriesCounts(filtered);
    TopMembers(entries, RowCount);
    RegimentRowsFromEntries(filtered, entries, r);
  }

  /** The row counts of the entries hold of any rows taken from them. */
  lemma RegimentRowsFromEntries(filtered: seq<LogEvent>, entries: seq<RegimentCount>, r: seq<RegimentCount>)
    requires forall a :: 0 <= a < |entries| ==> entries[a].count == Occurrences(filtered, RegimentKey, entries[a].regiment)
    requires forall i :: 0 <= i < |r| ==> r[i] in entries
    ensures forall i :: 0 <= i < |r| ==> r[i].count == Occurrences(filtered, RegimentKey, r[i].regiment)
  {
  }

  /** `topRegiments` lists no regiment twice. */
  lemma TopRegimentsDistinct(filtered: seq<LogEvent>)
    ensures var r := TopRegiments(filtered);
      forall i, j :: 0 <= i < j < |r| ==> r[i].regiment != r[j].regiment
  {
    var entries := RegimentEntries(filtered);
    var r := Top(entries, RowCount);
    RegimentEntriesDistinct(filtered);
    TopByName(entries, RowCount, RowRegiment);
    forall i, j | 0 <= i < j < |r|
      ensures r[i].regiment != r[j].regiment
    {
      assert RowRegiment(r[i]) != RowRegiment(r[j]);
    }
  }

  /**
   * A regiment of the filtered events is left out of `topRegiments` only
   * when ten rows are shown, each with a count at least its own.
   */
  lemma TopRegimentsLeftOut(filtered: seq<LogEvent>, k: nat)
    requires k < |filtered|
    requires var r := TopRegiments(filtered); forall i :: 0 <= i < |r| ==> r[i].regiment != RegimentKey(filtered[k])
    ensures var r := TopRegiments(filtered);
      |r| == 10 && Occurrences(filtered, RegimentKey, RegimentKey(filtered[k])) <= r[9].count
  {
    var entries := RegimentEntries(filtered);
    var r := Top(entries, RowCount);
    RegimentEntriesDistinct(filtered);
    RegimentEntriesCounts(filtered);
    RegimentEntriesCover(filtered, k);
    TopByName(entries, RowCount, RowRegiment);
    var a :| 0 <= a < |entries| && entries[a].regiment == RegimentKey(filtered[k]);
    assert r == TopRegiments(filtered);
    forall i | 0 <= i < |r|
      ensures RowRegiment(r[i]) != RowRegiment(entries[a])
    {
      assert r[i].regiment != RegimentKey(filtered[k]);
    }
    assert RowCount(entries[a]) <= RowCount(r[9]);
  }

  /**
   * `topPlayers`: each count is the number of the player's filtered events
   * and each regiment that of the player's first event.
   */
  lemma TopPlayersMeaning(filtered: seq<LogEvent>)
    ensures var r := TopPlayers(filtered);
      forall i :: 0 <= i < |r| ==>
        && r[i].count == Occurrences(filtered, PlayerKey, r[i].player)
        && FirstEventOf(filtered, r[i].player).Some?
        && r[i].regiment == FirstEventOf(filtered, r[i].player).value.regiment
  {
    var entries := PlayerEntries(filtered);
    var r := Top(entries, PlayerRowCount);
    PlayerEntriesMeaning(filtered);
    TopMembers(entries, PlayerRowCount);
    PlayerRowsFromEntries(filtered, entries, r);
  }

  /** The row facts of the entries hold of any rows taken from them. */
  lemma PlayerRowsFromEntries(filtered: seq<LogEvent>, entries: seq<PlayerCount>, r: seq<PlayerCount>)
    requires forall a :: 0 <= a < |entries| ==>
        && entries[a].count == Occurrences(filtered, PlayerKey, entries[a].player)
        && FirstEventOf(filtered, entries[a].player).Some?
        && entries[a].regiment == FirstEventOf(filtered, entries[a].player).value.regiment
    requires forall i :: 0 <= i < |r| ==> r[i] in entries
    ensures forall i :: 0 <= i < |r| ==>
        && r[i].count == Occurrences(filtered, PlayerKey, r[i].player)
        && FirstEventOf(filtered, r[i].player).Some?
        && r[i].regiment == FirstEventOf(filtered, r[i].player).value.regiment
  {
  }

  /** Each player row counts the player's events and carries the regiment of the player's first event. */
  lemma PlayerEntriesMeaning(filtered: seq<LogEvent>)
    ensures var r := PlayerEntries(filtered);
      forall a :: 0 <= a < |r| ==>
        && r[a].count == Occurrences(filtered, PlayerKey, r[a].player)
        && FirstEventOf(filtered, r[a].player).Some?
        && r[a].regiment == FirstEventOf(filtered, r[a].player).value.regiment
  {
    var r := PlayerEntries(filtered);
    var t := TallyBy(filtered, PlayerKey);
    var keys := PropertyOrder(t.order);
    forall a | 0 <= a < |r|
      ensures r[a].count == Occurrences(filtered, PlayerKey, r[a].player)
      ensures FirstEventOf(filtered, r[a].player).Some?
      ensures r[a].regiment == FirstEventOf(filtered, r[a].player).value.regiment
    {
      assert keys[a] in multiset(t.order);
      TallyKeys(filtered, PlayerKey, keys[a]);
      TallyCounts(filtered, PlayerKey, keys[a]);
    }
  }
}
