/**
 * DataManager: the in-memory reading store. It keeps the newest
 * MaxReadings readings in arrival order and answers queries over them.
 * The clock and the calendar are not modelled: the instant a reading is
 * taken, and the bounds of a day, week or month, are passed in.
 */
module Store {
  import opened Wrappers
  import opened Readings

  /** The store never holds more readings than this. */
  const MaxReadings: nat := 1000

  /** What is left of s once the oldest readings beyond MaxReadings are removed. */
  function Retained(s: seq<Reading>): (r: seq<Reading>)
    ensures |r| == if |s| <= MaxReadings then |s| else MaxReadings
    ensures s == s[..|s| - |r|] + r
  {
    if |s| > MaxReadings then s[|s| - MaxReadings..] else s
  }

  /** Readings arriving in time order stay in time order after eviction. */
  lemma RetainedKeepsTimeOrder(s: seq<Reading>, x: Reading)
    requires SortedByTime(s)
    requires forall i :: 0 <= i < |s| ==> s[i].timestamp <= x.timestamp
    ensures SortedByTime(Retained(s + [x]))
  {
    AppendNewestSorted(s, x);
    var t := s + [x];
    SuffixSorted(t, |t| - |Retained(t)|);
  }

  /** Appending a reading no older than any already held keeps time order. */
  lemma AppendNewestSorted(s: seq<Reading>, x: Reading)
    requires SortedByTime(s)
    requires forall i :: 0 <= i < |s| ==> s[i].timestamp <= x.timestamp
    ensures SortedByTime(s + [x])
  {
    var t := s + [x];
    forall i, j | 0 <= i < j < |t| ensures t[i].timestamp <= t[j].timestamp {
      assert t[i] == s[i];
      if j < |s| {
        assert t[j] == s[j];
      }
    }
  }

  /** Every suffix of a sequence in time order is in time order. */
  lemma SuffixSorted(t: seq<Reading>, k: nat)
    requires SortedByTime(t) && k <= |t|
    ensures SortedByTime(t[k..])
  {
    var r := t[k..];
    forall i, j | 0 <= i < j < |r| ensures r[i].timestamp <= r[j].timestamp {
      assert r[i] == t[k + i] && r[j] == t[k + j];
    }
  }

  /**
   * On a store in time order, deleting the readings older than the cutoff
   * (the filter NotOlderThan applies) drops a prefix: the kept readings are a suffix.
   */
  lemma {:induction false} NotOlderThanOfSortedIsSuffix(s: seq<Reading>, cutoff: int)
    requires SortedByTime(s)
    ensures var r := Filter(s, NotBefore(cutoff)); |r| <= |s| && r == s[|s| - |r|..]
  {
    var keep := NotBefore(cutoff);
    if s != [] {
      if keep(s[0]) {
        NothingOlderKeepsAll(s, cutoff);
      } else {
        SuffixSorted(s, 1);
        NotOlderThanOfSortedIsSuffix(s[1..], cutoff);
        var r' := Filter(s[1..], keep);
        assert Filter(s, keep) == r';
        assert s[1..][|s[1..]| - |r'|..] == s[|s| - |r'|..];
      }
    }
  }

  /** When the oldest reading of a store in time order passes the cutoff, they all do and nothing is deleted. */
  lemma NothingOlderKeepsAll(s: seq<Reading>, cutoff: int)
    requires SortedByTime(s) && s != [] && s[0].timestamp >= cutoff
    ensures Filter(s, NotBefore(cutoff)) == s
  {
    var keep := NotBefore(cutoff);
    assert forall i :: 0 <= i < |s| ==> keep(s[i]) by {
      forall i | 0 <= i < |s| ensures keep(s[i]) {
        assert s[0].timestamp <= s[i].timestamp;
      }
    }
    FilterAll(s, keep);
  }

  /** A filter that every element passes keeps the sequence whole. */
  lemma {:induction false} FilterAll(s: seq<Reading>, keep: Reading -> bool)
    requires forall i :: 0 <= i < |s| ==> keep(s[i])
    ensures Filter(s, keep) == s
  {
    if s != [] {
      FilterAll(s[1..], keep);
      assert [s[0]] + s[1..] == s;
    }
  }

  class ReadingStore {
    /** `temperatureReadings`, oldest first. */
    var readings: seq<Reading>

    ghost predicate Valid()
      reads this
    {
      |readings| <= MaxReadings
    }

    constructor ()
      ensures Valid() && readings == []
    {
      readings := [];
    }

    /**
     * `saveTemperature(_:humidity:)`: appends a reading stamped now, then
     * evicts from the front until at most MaxReadings remain.
     */
    method SaveTemperature(temperature: real, humidity: real, now: int)
      requires Valid()
      modifies this
      ensures Valid()
      ensures readings == Retained(old(readings) + [Reading(temperature, humidity, now)])
      ensures |old(readings)| < MaxReadings ==> readings == old(readings) + [Reading(temperature, humidity, now)]
      ensures |old(readings)| == MaxReadings ==> readings == old(readings)[1..] + [Reading(temperature, humidity, now)]
      ensures LatestReading() == Some(Reading(temperature, humidity, now)) && HasReadings()
    {
      var reading := Reading(temperature, humidity, now);
      readings := readings + [reading];
      if |readings| > MaxReadings {
        readings := readings[|readings| - MaxReadings..];
      }
    }

    /** `fetchRecentReadings(limit:)`: the newest min(limit, count) readings, oldest first. */
    function FetchRecentReadings(limit: nat): (r: seq<Reading>)
      reads this
      ensures |r| == if limit < |readings| then limit else |readings|
      ensures readings == readings[..|readings| - |r|] + r
    {
      Suffix(readings, limit)
    }

    /**
     * `fetchReadings(from:to:)`: exactly the stored readings stamped in the
     * closed interval [start, end], sorted by time. The today, week and
     * month queries are this with the calendar's bounds.
     */
    function FetchReadings(start: int, end: int): (r: seq<Reading>)
      reads this
      ensures SortedByTime(r)
      ensures forall x :: multiset(r)[x] == if start <= x.timestamp <= end then multiset(readings)[x] else 0
      ensures forall i :: 0 <= i < |r| ==> start <= r[i].timestamp <= end
    {
      var found := SortByTime(Between(readings, start, end));
      SortByTimeCorrect(Between(readings, start, end));
      assert forall i :: 0 <= i < |found| ==> found[i] in multiset(found);
      found
    }

    /** `deleteOldReadings(olderThan:)`, with the cutoff instant computed by the caller. */
    method DeleteOldReadings(cutoff: int)
      requires Valid()
      modifies this
      ensures Valid()
      ensures readings == NotOlderThan(old(readings), cutoff)
    {
      readings := NotOlderThan(readings, cutoff);
    }

    /** `latestReading`: the newest stored reading, absent exactly when the store is empty. */
    function LatestReading(): (r: Option<Reading>)
      reads this
      ensures r.None? <==> readings == []
      ensures r.Some? ==> r.value == readings[|readings| - 1]
    {
      if readings == [] then None else Some(readings[|readings| - 1])
    }

    /** `hasReadings`. */
    function HasReadings(): (b: bool)
      reads this
      ensures b <==> |readings| > 0
    {
      readings != []
    }
  }
}
