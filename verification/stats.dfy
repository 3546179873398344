/**
 * The statistics of `timeseries_analysis` (one series' records) and the
 * device-level roll-up of `generate_device_level_summary`. Average and
 * Median are exact rationals; pandas' floating point is not modelled.
 */
module Stats {
  import opened Wrappers
  import opened Profile
  import opened Intervals

  function Diffs(recs: seq<Rec>): (r: seq<int>)
    ensures |r| == |recs|
    ensures forall n | 0 <= n < |recs| :: r[n] == recs[n].diff
  {
    if recs == [] then [] else [recs[0].diff] + Diffs(recs[1..])
  }

  function Sum(xs: seq<int>): int {
    if xs == [] then 0 else xs[0] + Sum(xs[1..])
  }

  function MaxOf(xs: seq<int>): (r: int)
    requires |xs| > 0
    ensures r in xs
    ensures forall n | 0 <= n < |xs| :: xs[n] <= r
  {
    if |xs| == 1 then xs[0]
    else
      var m := MaxOf(xs[1..]);
      if xs[0] >= m then xs[0] else m
  }

  function MinOf(xs: seq<int>): (r: int)
    requires |xs| > 0
    ensures r in xs
    ensures forall n | 0 <= n < |xs| :: r <= xs[n]
  {
    if |xs| == 1 then xs[0]
    else
      var m := MinOf(xs[1..]);
      if xs[0] <= m then xs[0] else m
  }

  /** An exact mean: `s / c` with `c` positive. */
  function Mean(s: int, c: nat): (r: real)
    requires c > 0
    ensures r * (c as real) == s as real
  {
    (s as real) / (c as real)
  }

  lemma SumConcat(a: seq<int>, b: seq<int>)
    ensures Sum(a + b) == Sum(a) + Sum(b)
  {
    if a == [] {
      assert a + b == b;
    } else {
      assert (a + b)[1..] == a[1..] + b;
      SumConcat(a[1..], b);
    }
  }

  // ---------------------------------------------------------------------
  // Median

  predicate SortedReals(s: seq<real>) {
    forall i, j | 0 <= i < j < |s| :: s[i] <= s[j]
  }

  function InsertReal(x: real, s: seq<real>): (r: seq<real>)
    ensures multiset(r) == multiset(s) + multiset{x}
  {
    if s == [] || x <= s[0] then [x] + s
    else
      assert s == [s[0]] + s[1..];
      [s[0]] + InsertReal(x, s[1..])
  }

  function SortReals(s: seq<real>): (r: seq<real>)
    ensures multiset(r) == multiset(s)
  {
    if s == [] then []
    else
      assert s == [s[0]] + s[1..];
      InsertReal(s[0], SortReals(s[1..]))
  }

  lemma {:induction false} InsertRealSorted(x: real, s: seq<real>)
    requires SortedReals(s)
    ensures SortedReals(InsertReal(x, s))
  {
    if s != [] && x > s[0] {
      InsertRealSorted(x, s[1..]);
      var t := InsertReal(x, s[1..]);
      forall k | 0 <= k < |t| ensures s[0] <= t[k] {
        assert t[k] in multiset(t);
        assert t[k] in multiset(s[1..]) + multiset{x};
        if t[k] in multiset(s[1..]) {
          var m :| 0 <= m < |s[1..]| && s[1..][m] == t[k];
          assert s[m + 1] == t[k];
        }
      }
    }
  }

  lemma {:induction false} SortRealsSorted(s: seq<real>)
    ensures SortedReals(SortReals(s))
  {
    if s != [] {
      SortRealsSorted(s[1..]);
      InsertRealSorted(s[0], SortReals(s[1..]));
    }
  }

  function Reals(xs: seq<int>): (r: seq<real>)
    ensures |r| == |xs|
    ensures forall n | 0 <= n < |xs| :: r[n] == xs[n] as real
  {
    if xs == [] then [] else [xs[0] as real] + Reals(xs[1..])
  }

  /** Some value of `xs` is at most `v`, and some value is at least `v`. */
  predicate Between(v: real, xs: seq<real>) {
    (exists a | a in xs :: a <= v) && (exists b | b in xs :: v <= b)
  }

  /**
   * pandas' median: the middle of the sorted values, or the mean of the
   * two middle ones for an even count.
   */
  function Median(xs: seq<real>): (r: real)
    requires |xs| > 0
    ensures Between(r, xs)
  {
    var t := SortReals(xs);
    var n := |t|;
    assert forall k | 0 <= k < n :: t[k] in xs by {
      forall k | 0 <= k < n ensures t[k] in xs {
        assert t[k] in multiset(t);
      }
    }
    if n % 2 == 1 then t[n / 2]
    else
      var a, b := t[n / 2 - 1], t[n / 2];
      assert a <= (a + b) / 2.0 <= b by {
        SortRealsSorted(xs);
      }
      (a + b) / 2.0
  }

  /** The median sits between the smallest and the largest value. */
  lemma MedianBounds(xs: seq<int>)
    requires |xs| > 0
    ensures MinOf(xs) as real <= Median(Reals(xs)) <= MaxOf(xs) as real
  {
    var m := Median(Reals(xs));
    var a :| a in Reals(xs) && a <= m;
    var b :| b in Reals(xs) && m <= b;
  }

  // ---------------------------------------------------------------------
  // One series

  /** The stats of a non-empty list of diffs. */
  function StatsOf(d: seq<int>): (r: SeriesStats)
    requires |d| > 0
    ensures r.count == |d| && r.first == d[0] && r.sum == Sum(d)
    ensures r.average == Mean(r.sum, r.count)
    ensures r.max in d && forall n | 0 <= n < |d| :: d[n] <= r.max
    ensures r.min in d && forall n | 0 <= n < |d| :: r.min <= d[n]
    ensures r.range == r.max - r.min
    ensures r.min as real <= r.median <= r.max as real
  {
    var mx, mn := MaxOf(d), MinOf(d);
    var avg := Mean(Sum(d), |d|);
    MedianBounds(d);
    SeriesStats(
      count := |d|,
      average := avg,
      max := mx, min := mn, range := mx - mn,
      median := Median(Reals(d)),
      sum := Sum(d),
      first := d[0])
  }

  /**
   * The `stats` of `timeseries_analysis`: none for an empty record list,
   * otherwise Count, Average, Max, Min, Range, Median, Sum and the First
   * record's diff.
   */
  function Summarize(recs: seq<Rec>): (r: Option<SeriesStats>)
    ensures r.None? <==> recs == []
    ensures r.Some? ==>
              && r.value.count == |recs| > 0
              && r.value.first == recs[0].diff
              && r.value.sum == Sum(Diffs(recs))
              && r.value.average == Mean(r.value.sum, r.value.count)
              && (exists n | 0 <= n < |recs| :: r.value.max == recs[n].diff)
              && (forall n | 0 <= n < |recs| :: recs[n].diff <= r.value.max)
              && (exists n | 0 <= n < |recs| :: r.value.min == recs[n].diff)
              && (forall n | 0 <= n < |recs| :: r.value.min <= recs[n].diff)
              && r.value.range == r.value.max - r.value.min
              && r.value.min as real <= r.value.median <= r.value.max as real
  {
    if recs == [] then None
    else
      var d := Diffs(recs);
      var st := StatsOf(d);
      assert exists n | 0 <= n < |recs| :: st.max == recs[n].diff by {
        var n :| 0 <= n < |d| && d[n] == st.max;
      }
      assert exists n | 0 <= n < |recs| :: st.min == recs[n].diff by {
        var n :| 0 <= n < |d| && d[n] == st.min;
      }
      Some(st)
  }

  /** First is the first-emitted record's diff, which need not be the Min. */
  lemma FirstIsNotMin()
    ensures var recs := [Rec(0, 9, 1, 2, 9), Rec(10, 12, 1, 2, 2)];
            Summarize(recs).value.first == 9 && Summarize(recs).value.min == 2
  {
    var recs := [Rec(0, 9, 1, 2, 9), Rec(10, 12, 1, 2, 2)];
    assert Diffs(recs) == [9, 2];
  }

  // ---------------------------------------------------------------------
  // Device roll-up

  function Counts(stats: seq<SeriesStats>): nat {
    if stats == [] then 0 else stats[0].count + Counts(stats[1..])
  }

  function Sums(stats: seq<SeriesStats>): int {
    if stats == [] then 0 else stats[0].sum + Sums(stats[1..])
  }

  function Maxes(stats: seq<SeriesStats>): (r: seq<int>)
    ensures |r| == |stats| && forall n | 0 <= n < |stats| :: r[n] == stats[n].max
  {
    if stats == [] then [] else [stats[0].max] + Maxes(stats[1..])
  }

  function Mins(stats: seq<SeriesStats>): (r: seq<int>)
    ensures |r| == |stats| && forall n | 0 <= n < |stats| :: r[n] == stats[n].min
  {
    if stats == [] then [] else [stats[0].min] + Mins(stats[1..])
  }

  function Medians(stats: seq<SeriesStats>): (r: seq<real>)
    ensures |r| == |stats| && forall n | 0 <= n < |stats| :: r[n] == stats[n].median
  {
    if stats == [] then [] else [stats[0].median] + Medians(stats[1..])
  }

  lemma {:induction false} CountsPositive(stats: seq<SeriesStats>)
    requires |stats| > 0 && forall n | 0 <= n < |stats| :: stats[n].count > 0
    ensures Counts(stats) > 0
  {
    assert stats[0].count > 0;
  }

  /**
   * The device-level stats of one analysis name: Count and Sum add up,
   * Average is total Sum over total Count, Max / Min are the extreme
   * per-series values and Median is the median of the per-series medians.
   */
  function RollUp(stats: seq<SeriesStats>): (r: DeviceStats)
    requires |stats| > 0 && forall n | 0 <= n < |stats| :: stats[n].count > 0
    ensures r.count == Counts(stats) > 0
    ensures r.average == Mean(Sums(stats), r.count)
    ensures r.range == r.max - r.min
    ensures r.median == Median(Medians(stats)) && Between(r.median, Medians(stats))
  {
    CountsPositive(stats);
    var mx, mn := MaxOf(Maxes(stats)), MinOf(Mins(stats));
    DeviceStats(
      count := Counts(stats),
      average := Mean(Sums(stats), Counts(stats)),
      max := mx, min := mn, range := mx - mn,
      median := Median(Medians(stats)))
  }

  /** The roll-up Max / Min are the extreme per-series Max / Min. */
  lemma RollUpExtremes(stats: seq<SeriesStats>)
    requires |stats| > 0 && forall n | 0 <= n < |stats| :: stats[n].count > 0
    ensures var r := RollUp(stats);
            && (exists n | 0 <= n < |stats| :: r.max == stats[n].max)
            && (forall n | 0 <= n < |stats| :: stats[n].max <= r.max)
            && (exists n | 0 <= n < |stats| :: r.min == stats[n].min)
            && (forall n | 0 <= n < |stats| :: r.min <= stats[n].min)
  {
    var r := RollUp(stats);
    var i :| 0 <= i < |stats| && Maxes(stats)[i] == r.max;
    var j :| 0 <= j < |stats| && Mins(stats)[j] == r.min;
    assert r.max == stats[i].max && r.min == stats[j].min;
  }

  /** The roll-up Average is not the mean of the per-series Averages. */
  lemma RollUpWeightsByCount()
    ensures var a := SeriesStats(1, 10.0, 10, 10, 0, 10.0, 10, 10);
            var b := SeriesStats(3, 2.0, 3, 1, 2, 2.0, 6, 1);
            RollUp([a, b]).average == 4.0 && (a.average + b.average) / 2.0 == 6.0
  {
    var a := SeriesStats(1, 10.0, 10, 10, 0, 10.0, 10, 10);
    var b := SeriesStats(3, 2.0, 3, 1, 2, 2.0, 6, 1);
    assert [a, b][1..] == [b] && [b][1..] == [];
    assert Counts([b]) == 3 && Sums([b]) == 6;
    assert Counts([a, b]) == 4 && Sums([a, b]) == 16;
  }

  // ---------------------------------------------------------------------
  // The roll-up of summaries is the summary of all records together

  function AllRecords(rs: seq<seq<Rec>>): seq<Rec> {
    if rs == [] then [] else rs[0] + AllRecords(rs[1..])
  }

  function Summaries(rs: seq<seq<Rec>>): (r: seq<SeriesStats>)
    requires forall n | 0 <= n < |rs| :: rs[n] != []
    ensures |r| == |rs|
    ensures forall n | 0 <= n < |rs| :: Summarize(rs[n]) == Some(r[n])
  {
    if rs == [] then [] else [Summarize(rs[0]).value] + Summaries(rs[1..])
  }

  lemma DiffsConcat(a: seq<Rec>, b: seq<Rec>)
    ensures Diffs(a + b) == Diffs(a) + Diffs(b)
  {
  }

  lemma {:induction false} SummariesAddUp(rs: seq<seq<Rec>>)
    requires forall n | 0 <= n < |rs| :: rs[n] != []
    ensures Counts(Summaries(rs)) == |AllRecords(rs)|
    ensures Sums(Summaries(rs)) == Sum(Diffs(AllRecords(rs)))
  {
    if rs != [] {
      SummariesAddUp(rs[1..]);
      DiffsConcat(rs[0], AllRecords(rs[1..]));
      SumConcat(Diffs(rs[0]), Diffs(AllRecords(rs[1..])));
      assert Summaries(rs)[1..] == Summaries(rs[1..]);
    }
  }

  /**
   * Rolling up the per-series summaries gives the Count and the Average of
   * all the series' records taken together.
   */
  lemma RollUpIsPooledMean(rs: seq<seq<Rec>>)
    requires |rs| > 0 && forall n | 0 <= n < |rs| :: rs[n] != []
    ensures var all := AllRecords(rs);
            var r := RollUp(Summaries(rs));
            && r.count == |all|
            && r.average == (Sum(Diffs(all)) as real) / (|all| as real)
  {
    SummariesAddUp(rs);
  }
}
