/**
 * TemperatureStats: the summary shown under the chart, computed from a
 * list of readings (current, min, max, average and the short-term trend).
 */
module Stats {
  import opened Readings

  datatype Trend = Rising | Falling | Stable

  datatype TemperatureStats = TemperatureStats(current: real, min: real, max: real, average: real, trend: Trend)

  /** The trend looks at this many of the newest readings. */
  const TrendWindow: nat := 5
  /** A change smaller than this, in degrees, counts as stable. */
  const TrendThreshold: real := 0.5

  /** `temperatures.min()`. */
  function MinTemperature(s: seq<Reading>): (m: real)
    requires s != []
    ensures exists i :: 0 <= i < |s| && s[i].temperature == m
    ensures forall i :: 0 <= i < |s| ==> m <= s[i].temperature
  {
    if |s| == 1 then
      s[0].temperature
    else
      var m' := MinTemperature(s[..|s| - 1]);
      assert forall i :: 0 <= i < |s| - 1 ==> s[..|s| - 1][i] == s[i];
      if s[|s| - 1].temperature < m' then s[|s| - 1].temperature else m'
  }

  /** `temperatures.max()`. */
  function MaxTemperature(s: seq<Reading>): (m: real)
    requires s != []
    ensures exists i :: 0 <= i < |s| && s[i].temperature == m
    ensures forall i :: 0 <= i < |s| ==> s[i].temperature <= m
  {
    if |s| == 1 then
      s[0].temperature
    else
      var m' := MaxTemperature(s[..|s| - 1]);
      assert forall i :: 0 <= i < |s| - 1 ==> s[..|s| - 1][i] == s[i];
      if m' < s[|s| - 1].temperature then s[|s| - 1].temperature else m'
  }

  /** `temperatures.reduce(0, +)`, folded from the left. */
  function SumTemperatures(s: seq<Reading>): (total: real)
    ensures (forall i :: 0 <= i < |s| ==> s[i].temperature >= 0.0) ==> total >= 0.0
  {
    if s == [] then 0.0 else SumTemperatures(s[..|s| - 1]) + s[|s| - 1].temperature
  }

  /** When every temperature lies in [lo, hi], the sum lies in [n * lo, n * hi]. */
  lemma {:induction false} SumBetween(s: seq<Reading>, lo: real, hi: real)
    requires forall i :: 0 <= i < |s| ==> lo <= s[i].temperature <= hi
    ensures (|s| as real) * lo <= SumTemperatures(s) <= (|s| as real) * hi
  {
    if s != [] {
      var p := s[..|s| - 1];
      assert forall i :: 0 <= i < |p| ==> p[i] == s[i];
      SumBetween(p, lo, hi);
      assert (|s| as real) * lo == (|p| as real) * lo + lo;
      assert (|s| as real) * hi == (|p| as real) * hi + hi;
    }
  }

  /** `temperatures.reduce(0, +) / Double(temperatures.count)`: the value that, times the count, gives the sum. */
  function Average(s: seq<Reading>): (a: real)
    requires s != []
    ensures a * (|s| as real) == SumTemperatures(s)
  {
    var t, n := SumTemperatures(s), |s| as real;
    QuotientTimesDivisor(t / n, t, n);
    t / n
  }

  /** The average lies between the smallest and the largest temperature. */
  lemma AverageBetween(s: seq<Reading>)
    requires s != []
    ensures MinTemperature(s) <= Average(s) <= MaxTemperature(s)
  {
    var lo, hi := MinTemperature(s), MaxTemperature(s);
    SumBetween(s, lo, hi);
    MeanBetween(SumTemperatures(s), |s| as real, lo, hi);
  }

  /** Division by a non-zero real is undone by multiplication. */
  lemma QuotientTimesDivisor(a: real, t: real, n: real)
    requires n != 0.0 && a == t / n
    ensures a * n == t
  {
  }

  /** Dividing n * lo <= t <= n * hi by a positive n. */
  lemma MeanBetween(t: real, n: real, lo: real, hi: real)
    requires n > 0.0
    requires n * lo <= t <= n * hi
    ensures lo <= t / n <= hi
  {
  }

  /** The temperature of the newest reading: the last one once sorted by time. */
  function Current(s: seq<Reading>): (c: real)
    requires s != []
    ensures exists i :: 0 <= i < |s| && s[i].temperature == c &&
                        forall j :: 0 <= j < |s| ==> s[j].timestamp <= s[i].timestamp
  {
    var sorted := SortByTime(s);
    LastOfSortIsNewest(s);
    var i :| 0 <= i < |s| && s[i] == sorted[|s| - 1];
    sorted[|s| - 1].temperature
  }

  /** The change from the oldest to the newest reading of the window, when it has two or more. */
  function TrendOf(recent: seq<Reading>): (t: Trend)
    ensures t == Rising <==> |recent| >= 2 && recent[|recent| - 1].temperature - recent[0].temperature >= TrendThreshold
    ensures t == Falling <==> |recent| >= 2 && recent[|recent| - 1].temperature - recent[0].temperature <= -TrendThreshold
    ensures t == Stable <==> |recent| < 2 || -TrendThreshold < recent[|recent| - 1].temperature - recent[0].temperature < TrendThreshold
  {
    if |recent| >= 2 then
      var difference := recent[|recent| - 1].temperature - recent[0].temperature;
      var magnitude := if difference < 0.0 then -difference else difference;
      if magnitude < TrendThreshold then Stable
      else if difference > 0.0 then Rising
      else Falling
    else
      Stable
  }

  /** `TemperatureStats.init(readings:)`. */
  function ComputeStats(readings: seq<Reading>): (st: TemperatureStats)
    ensures readings == [] ==> st == TemperatureStats(0.0, 0.0, 0.0, 0.0, Stable)
    ensures readings != [] ==>
      && (exists i :: 0 <= i < |readings| && readings[i].temperature == st.min)
      && (exists i :: 0 <= i < |readings| && readings[i].temperature == st.max)
      && (forall i :: 0 <= i < |readings| ==> st.min <= readings[i].temperature <= st.max)
      && st.average == SumTemperatures(readings) / (|readings| as real)
      && st.min <= st.average <= st.max
      && st.current == Current(readings) && st.min <= st.current <= st.max
      && st.trend == StatsTrend(readings)
  {
    if readings == [] then
      TemperatureStats(0.0, 0.0, 0.0, 0.0, Stable)
    else
      var current, lo, hi := Current(readings), MinTemperature(readings), MaxTemperature(readings);
      assert lo <= current <= hi;
      AverageBetween(readings);
      TemperatureStats(current, lo, hi, Average(readings), StatsTrend(readings))
  }

  /**
   * The trend of a list of readings: that of its newest TrendWindow
   * readings, taken in time order. On a list already in time order it is
   * the trend of the list's own last TrendWindow elements; on any list it
   * is the trend of the last TrendWindow elements of a time-ordered
   * permutation of it.
   */
  function StatsTrend(readings: seq<Reading>): (t: Trend)
    ensures |readings| < 2 ==> t == Stable
    ensures SortedByTime(readings) ==> t == TrendOf(Suffix(readings, TrendWindow))
    ensures exists q :: SortedByTime(q) && multiset(q) == multiset(readings) && t == TrendOf(Suffix(q, TrendWindow))
  {
    SortOfSorted(readings);
    SortByTimeCorrect(readings);
    TrendOf(Suffix(SortByTime(readings), TrendWindow))
  }

  /** Only the newest five readings matter: on a time-ordered list, dropping older readings does not change the trend. */
  lemma TrendUsesNewestFive(s: seq<Reading>)
    requires SortedByTime(s) && |s| >= TrendWindow
    ensures StatsTrend(s) == StatsTrend(s[|s| - TrendWindow..])
  {
    var w := s[|s| - TrendWindow..];
    assert SortedByTime(w);
    assert Suffix(w, TrendWindow) == w == Suffix(s, TrendWindow);
  }
}
