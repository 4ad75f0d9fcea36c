/**
 * The reading record shared by the store and the statistics
 * (TemperatureDataPoint), and the sequence operations both use:
 * the stable sort by timestamp, filtering and taking a suffix.
 */
module Readings {

  /** One sample: degrees Celsius, relative humidity and the instant it was taken.
      The record's UUID only serves SwiftUI's identity and is not modelled. */
  datatype Reading = Reading(temperature: real, humidity: real, timestamp: int)

  /** Nondecreasing by timestamp. */
  predicate SortedByTime(s: seq<Reading>)
  {
    forall i, j :: 0 <= i < j < |s| ==> s[i].timestamp <= s[j].timestamp
  }

  /** Puts x in front of the first reading of s that is not older than it. */
  function InsertByTime(x: Reading, s: seq<Reading>): (r: seq<Reading>)
    ensures |r| == |s| + 1
  {
    if s == [] || x.timestamp <= s[0].timestamp then [x] + s else [s[0]] + InsertByTime(x, s[1..])
  }

  /** Inserting into a time-sorted list keeps it sorted; the head is x or the old head. */
  lemma {:induction false} InsertByTimeSorted(x: Reading, s: seq<Reading>)
    requires SortedByTime(s)
    ensures SortedByTime(InsertByTime(x, s))
    ensures InsertByTime(x, s)[0] == x || (s != [] && InsertByTime(x, s)[0] == s[0])
  {
    if s == [] || x.timestamp <= s[0].timestamp {
      ConsSorted(x, s);
    } else {
      assert SortedByTime(s[1..]);
      InsertByTimeSorted(x, s[1..]);
      ConsSorted(s[0], InsertByTime(x, s[1..]));
    }
  }

  /** Inserting adds exactly the one reading. */
  lemma {:induction false} InsertByTimePermutes(x: Reading, s: seq<Reading>)
    ensures multiset(InsertByTime(x, s)) == multiset(s) + multiset{x}
  {
    if s != [] && x.timestamp > s[0].timestamp {
      InsertByTimePermutes(x, s[1..]);
      assert s == [s[0]] + s[1..];
    }
  }

  /** A time-sorted list stays sorted when a reading no newer than its head is put in front. */
  lemma ConsSorted(y: Reading, rest: seq<Reading>)
    requires SortedByTime(rest)
    requires rest != [] ==> y.timestamp <= rest[0].timestamp
    ensures SortedByTime([y] + rest)
  {
    var r := [y] + rest;
    forall i, j | 0 <= i < j < |r| ensures r[i].timestamp <= r[j].timestamp {
      assert r[j] == rest[j - 1];
      if i > 0 {
        assert r[i] == rest[i - 1];
      } else {
        assert rest[0].timestamp <= rest[j - 1].timestamp;
      }
    }
  }

  /**
   * `readings.sorted { $0.timestamp < $1.timestamp }`. Readings with equal
   * timestamps keep their input order (an insertion sort that inserts in
   * front of equal keys).
   */
  function SortByTime(s: seq<Reading>): (r: seq<Reading>)
    ensures |r| == |s|
  {
    if s == [] then [] else InsertByTime(s[0], SortByTime(s[1..]))
  }

  /** The sort's result is in time order and is a permutation of its input. */
  lemma {:induction false} SortByTimeCorrect(s: seq<Reading>)
    ensures SortedByTime(SortByTime(s))
    ensures multiset(SortByTime(s)) == multiset(s)
  {
    if s != [] {
      SortByTimeCorrect(s[1..]);
      InsertByTimeSorted(s[0], SortByTime(s[1..]));
      InsertByTimePermutes(s[0], SortByTime(s[1..]));
      assert s == [s[0]] + s[1..];
    }
  }

  /** Sorting a sequence that is already in time order leaves it as it is. */
  lemma {:induction false} SortOfSorted(s: seq<Reading>)
    ensures SortedByTime(s) ==> SortByTime(s) == s
  {
    if s != [] && SortedByTime(s) {
      assert SortedByTime(s[1..]);
      SortOfSorted(s[1..]);
      assert s == [s[0]] + s[1..];
    }
  }

  /** The last reading of the sorted list is a reading of s that no reading of s postdates. */
  lemma LastOfSortIsNewest(s: seq<Reading>)
    requires s != []
    ensures SortByTime(s)[|s| - 1] in s
    ensures forall j :: 0 <= j < |s| ==> s[j].timestamp <= SortByTime(s)[|s| - 1].timestamp
  {
    var r := SortByTime(s);
    SortByTimeCorrect(s);
    assert r[|r| - 1] in multiset(r);
    forall j | 0 <= j < |s|
      ensures s[j].timestamp <= r[|s| - 1].timestamp
    {
      assert s[j] in multiset(r);
      var k :| 0 <= k < |r| && r[k] == s[j];
      if k < |r| - 1 {
        assert r[k].timestamp <= r[|r| - 1].timestamp;
      }
    }
  }

  /** `Array(s.suffix(n))`: the last min(n, |s|) elements of s, in order. */
  function Suffix<T>(s: seq<T>, n: nat): (r: seq<T>)
    ensures |r| == if n < |s| then n else |s|
    ensures s == s[..|s| - |r|] + r
  {
    if n < |s| then s[|s| - n..] else s
  }

  /** `s.filter(keep)`: the readings of s that satisfy keep, in their order in s. */
  function Filter(s: seq<Reading>, keep: Reading -> bool): (r: seq<Reading>)
    ensures |r| <= |s|
  {
    if s == [] then [] else (if keep(s[0]) then [s[0]] else []) + Filter(s[1..], keep)
  }

  /** Every kept reading passes the test; a reading that passes is kept as often as it occurs in s, any other never. */
  lemma {:induction false} FilterKeeps(s: seq<Reading>, keep: Reading -> bool)
    ensures forall i :: 0 <= i < |Filter(s, keep)| ==> keep(Filter(s, keep)[i])
    ensures forall x :: multiset(Filter(s, keep))[x] == if keep(x) then multiset(s)[x] else 0
  {
    if s != [] {
      FilterKeeps(s[1..], keep);
      assert s == [s[0]] + s[1..];
    }
  }

  /** Filtering distributes over concatenation, so the kept readings stay in their relative order. */
  lemma {:induction false} FilterConcat(s: seq<Reading>, t: seq<Reading>, keep: Reading -> bool)
    ensures Filter(s + t, keep) == Filter(s, keep) + Filter(t, keep)
  {
    if s == [] {
      assert s + t == t;
    } else {
      var head := if keep(s[0]) then [s[0]] else [];
      assert (s + t)[0] == s[0] && (s + t)[1..] == s[1..] + t;
      assert Filter(s + t, keep) == head + Filter(s[1..] + t, keep);
      FilterConcat(s[1..], t, keep);
      assert Filter(s, keep) == head + Filter(s[1..], keep);
    }
  }

  /** A reading that passes the filter on its own is kept, one that fails is dropped. */
  lemma FilterSingle(x: Reading, keep: Reading -> bool)
    ensures Filter([x], keep) == if keep(x) then [x] else []
  {
    assert [x][1..] == [];
  }

  /** The readings stamped within the closed interval [start, end]. */
  function Between(s: seq<Reading>, start: int, end: int): (r: seq<Reading>)
    ensures forall x :: multiset(r)[x] == if start <= x.timestamp <= end then multiset(s)[x] else 0
  {
    FilterKeeps(s, InWindow(start, end));
    Filter(s, InWindow(start, end))
  }

  /** The test `reading.timestamp >= startDate && reading.timestamp <= endDate`. */
  function InWindow(start: int, end: int): Reading -> bool
  {
    (x: Reading) => start <= x.timestamp && x.timestamp <= end
  }

  /** The readings stamped at or after cutoff, in their original order. */
  function NotOlderThan(s: seq<Reading>, cutoff: int): (r: seq<Reading>)
    ensures forall i :: 0 <= i < |r| ==> r[i].timestamp >= cutoff
    ensures forall x :: multiset(r)[x] == if x.timestamp >= cutoff then multiset(s)[x] else 0
  {
    FilterKeeps(s, NotBefore(cutoff));
    Filter(s, NotBefore(cutoff))
  }

  /** The negation of the removal test `$0.timestamp < cutoffDate`. */
  function NotBefore(cutoff: int): Reading -> bool
  {
    (x: Reading) => !(x.timestamp < cutoff)
  }
}
