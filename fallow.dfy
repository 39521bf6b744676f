/**
 * Fallow (nadas) period detection: sustained runs of weeks whose mean NDVI
 * stays below a threshold, found independently within each calendar year.
 */
module Fallow {
  import opened Numeric
  import opened Observations

  /** One reported fallow run: inclusive first and last ISO week and the number of weeks in the run. */
  datatype FallowPeriod = FallowPeriod(year: int, startWeek: int, endWeek: int, durationWeeks: nat)

  /** The ISO weeks that have data in year `y`, ascending (the year's rows of the weekly table, sorted by week). */
  function WeeksOfYear(s: seq<Observation>, y: int): (r: seq<int>)
    ensures StrictlySorted(r)
    ensures forall w :: w in r <==> exists o :: o in s && o.year == y && o.week == w
  {
    var r := DistinctWeeks(InYear(s, y));
    assert forall o :: o in InYear(s, y) <==> o in s && o.year == y;
    r
  }

  /** Whether the mean NDVI of the rows of (year `y`, week `w`) is strictly below `threshold`. */
  function WeekIsLow(s: seq<Observation>, y: int, w: int, threshold: real): bool
  {
    var v := Ndvis(AtWeek(InYear(s, y), w));
    |v| > 0 && Mean(v) < threshold
  }

  /** The below-threshold flag of each week of `ws` in year `y`. */
  function LowFlags(s: seq<Observation>, y: int, ws: seq<int>, threshold: real): (low: seq<bool>)
    ensures |low| == |ws|
    ensures forall i :: 0 <= i < |ws| ==> low[i] == WeekIsLow(s, y, ws[i], threshold)
  {
    seq(|ws|, i requires 0 <= i < |ws| => WeekIsLow(s, y, ws[i], threshold))
  }

  /** The flags of year `y`'s weeks. */
  function YearLowFlags(s: seq<Observation>, y: int, threshold: real): (low: seq<bool>)
    ensures |low| == |WeeksOfYear(s, y)|
  {
    LowFlags(s, y, WeeksOfYear(s, y), threshold)
  }

  /** Positions i..j-1 form a run of low weeks that cannot be extended on either side. */
  ghost predicate MaximalLowRun(low: seq<bool>, i: int, j: int)
  {
    && 0 <= i < j <= |low|
    && (forall k :: i <= k < j ==> low[k])
    && (i == 0 || !low[i - 1])
    && (j == |low| || !low[j])
  }

  /** Position i is not inside a run: either it starts one or it is not low. */
  ghost predicate AtBoundary(low: seq<bool>, i: int)
  {
    i == 0 || i == |low| || (0 < i <= |low| && (!low[i - 1] || !low[i]))
  }

  /** The period reported for the run at positions i..j-1 of the week list `ws`. */
  function PeriodOf(y: int, ws: seq<int>, i: int, j: int): FallowPeriod
    requires 0 <= i < j <= |ws|
  {
    FallowPeriod(y, ws[i], ws[j - 1], j - i)
  }

  /** The first position at or after `i` that is not low. */
  function RunEnd(low: seq<bool>, i: nat): (j: nat)
    requires i <= |low|
    ensures i <= j <= |low|
    ensures forall k :: i <= k < j ==> low[k]
    ensures j == |low| || !low[j]
    decreases |low| - i
  {
    if i < |low| && low[i] then RunEnd(low, i + 1) else i
  }

  /** The qualifying runs of one year, scanning the week positions from `i` on. */
  function RunsFrom(y: int, ws: seq<int>, low: seq<bool>, minWeeks: nat, i: nat): seq<FallowPeriod>
    requires |ws| == |low| && i <= |low|
    decreases |low| - i
  {
    if i == |low| then []
    else if !low[i] then RunsFrom(y, ws, low, minWeeks, i + 1)
    else
      var j := RunEnd(low, i);
      (if j - i >= minWeeks then [PeriodOf(y, ws, i, j)] else []) + RunsFrom(y, ws, low, minWeeks, j)
  }

  /** The periods of calendar year `y`. */
  function YearFallow(s: seq<Observation>, y: int, threshold: real, minWeeks: nat): seq<FallowPeriod>
  {
    RunsFrom(y, WeeksOfYear(s, y), YearLowFlags(s, y, threshold), minWeeks, 0)
  }

  /** The periods of the listed years, concatenated in list order. */
  function FallowOfYears(s: seq<Observation>, years: seq<int>, threshold: real, minWeeks: nat): seq<FallowPeriod>
    decreases |years|
  {
    if years == [] then []
    else FallowOfYears(s, years[..|years| - 1], threshold, minWeeks) + YearFallow(s, years[|years| - 1], threshold, minWeeks)
  }

  /** What `detect_nadas_periods` reports: every year of the data, ascending. */
  function FallowPeriods(s: seq<Observation>, threshold: real, minWeeks: nat): seq<FallowPeriod>
  {
    FallowOfYears(s, DistinctYears(s), threshold, minWeeks)
  }

  /**
   * `detect_nadas_periods`: for each year (ascending), scan that year's weeks
   * (ascending) and append one period per run of low weeks at least
   * `minWeeks` long.
   */
  method DetectFallowPeriods(s: seq<Observation>, threshold: real, minWeeks: nat) returns (periods: seq<FallowPeriod>)
    ensures periods == FallowPeriods(s, threshold, minWeeks)
  {
    var years := DistinctYears(s);
    periods := [];
    for n := 0 to |years|
      invariant periods == FallowOfYears(s, years[..n], threshold, minWeeks)
    {
      var y := years[n];
      var found := ScanYear(y, WeeksOfYear(s, y), YearLowFlags(s, y, threshold), minWeeks);
      assert years[..n + 1][..n] == years[..n];
      periods := periods + found;
    }
    assert years[..|years|] == years;
  }

  /** The run-grouping loop of one year: each maximal run of low weeks is one group, kept when long enough. */
  method ScanYear(y: int, weeks: seq<int>, low: seq<bool>, minWeeks: nat) returns (found: seq<FallowPeriod>)
    requires |weeks| == |low|
    ensures found == RunsFrom(y, weeks, low, minWeeks, 0)
  {
    found := [];
    var i := 0;
    while i < |weeks|
      invariant 0 <= i <= |weeks|
      invariant found + RunsFrom(y, weeks, low, minWeeks, i) == RunsFrom(y, weeks, low, minWeeks, 0)
    {
      if !low[i] {
        i := i + 1;
      } else {
        var j := i + 1;
        while j < |weeks| && low[j]
          invariant i < j <= |weeks|
          invariant RunEnd(low, j) == RunEnd(low, i)
        {
          j := j + 1;
        }
        if j - i >= minWeeks {
          found := found + [FallowPeriod(y, weeks[i], weeks[j - 1], j - i)];
        }
        i := j;
      }
    }
  }

  // ---------------------------------------------------------------------
  // What the reported list means
  // ---------------------------------------------------------------------

  lemma {:induction false} RunsFromSound(y: int, ws: seq<int>, low: seq<bool>, minWeeks: nat, i0: nat)
    requires |ws| == |low| && i0 <= |low| && AtBoundary(low, i0)
    ensures forall p :: p in RunsFrom(y, ws, low, minWeeks, i0) ==>
      exists i, j :: i0 <= i && MaximalLowRun(low, i, j) && j - i >= minWeeks && p == PeriodOf(y, ws, i, j)
    decreases |low| - i0
  {
    if i0 < |low| {
      if !low[i0] {
        RunsFromSound(y, ws, low, minWeeks, i0 + 1);
      } else {
        var j := RunEnd(low, i0);
        RunsFromSound(y, ws, low, minWeeks, j);
        assert MaximalLowRun(low, i0, j);
      }
    }
  }

  lemma {:induction false} RunsFromComplete(y: int, ws: seq<int>, low: seq<bool>, minWeeks: nat, i0: nat, i: int, j: int)
    requires |ws| == |low| && i0 <= |low| && AtBoundary(low, i0)
    requires i0 <= i && MaximalLowRun(low, i, j) && j - i >= minWeeks
    ensures PeriodOf(y, ws, i, j) in RunsFrom(y, ws, low, minWeeks, i0)
    decreases |low| - i0
  {
    if !low[i0] {
      RunsFromComplete(y, ws, low, minWeeks, i0 + 1, i, j);
    } else {
      var e := RunEnd(low, i0);
      if i0 == i {
        assert e == j;
      } else {
        assert !low[i - 1];
        assert e <= i - 1;
        RunsFromComplete(y, ws, low, minWeeks, e, i, j);
      }
    }
  }

  /** Within one year: each period ends before the next one starts. */
  ghost predicate WeeksOrdered(r: seq<FallowPeriod>)
  {
    forall k, l :: 0 <= k < l < |r| ==> r[k].endWeek < r[l].startWeek
  }

  /** Across the whole list: ordered by year, and within a year by week without overlap. */
  ghost predicate YearsThenWeeksOrdered(r: seq<FallowPeriod>)
  {
    forall k, l :: 0 <= k < l < |r| ==>
      r[k].year < r[l].year || (r[k].year == r[l].year && r[k].endWeek < r[l].startWeek)
  }

  lemma {:induction false} RunsFromOrdered(y: int, ws: seq<int>, low: seq<bool>, minWeeks: nat, i0: nat)
    requires |ws| == |low| && i0 <= |low| && AtBoundary(low, i0) && StrictlySorted(ws)
    ensures WeeksOrdered(RunsFrom(y, ws, low, minWeeks, i0))
    decreases |low| - i0
  {
    if i0 < |low| {
      if !low[i0] {
        RunsFromOrdered(y, ws, low, minWeeks, i0 + 1);
      } else {
        var j := RunEnd(low, i0);
        var rest := RunsFrom(y, ws, low, minWeeks, j);
        RunsFromOrdered(y, ws, low, minWeeks, j);
        if j - i0 >= minWeeks {
          var head := PeriodOf(y, ws, i0, j);
          RunsFromSound(y, ws, low, minWeeks, j);
          forall q | q in rest ensures head.endWeek < q.startWeek {
            var i, j' :| j <= i && MaximalLowRun(low, i, j') && j' - i >= minWeeks && q == PeriodOf(y, ws, i, j');
          }
          var r := [head] + rest;
          assert RunsFrom(y, ws, low, minWeeks, i0) == r;
          forall k, l | 0 <= k < l < |r| ensures r[k].endWeek < r[l].startWeek {
            assert r[l] == rest[l - 1] && rest[l - 1] in rest;
            if k > 0 {
              assert r[k] == rest[k - 1];
            }
          }
        } else {
          assert RunsFrom(y, ws, low, minWeeks, i0) == rest;
        }
      }
    }
  }

  /** Soundness for one year: each period of year `y` comes from a maximal low run of that year. */
  lemma YearFallowSound(s: seq<Observation>, y: int, threshold: real, minWeeks: nat, p: FallowPeriod)
    requires p in YearFallow(s, y, threshold, minWeeks)
    ensures p.year == y
    ensures exists i, j :: (MaximalLowRun(YearLowFlags(s, y, threshold), i, j) && j - i >= minWeeks
      && p == PeriodOf(y, WeeksOfYear(s, y), i, j))
  {
    RunsFromSound(y, WeeksOfYear(s, y), YearLowFlags(s, y, threshold), minWeeks, 0);
  }

  lemma {:induction false} FallowOfYearsMembership(s: seq<Observation>, years: seq<int>, threshold: real, minWeeks: nat, p: FallowPeriod)
    ensures p in FallowOfYears(s, years, threshold, minWeeks) <==>
      p.year in years && p in YearFallow(s, p.year, threshold, minWeeks)
    decreases |years|
  {
    if years != [] {
      var init := years[..|years| - 1];
      var y := years[|years| - 1];
      FallowOfYearsMembership(s, init, threshold, minWeeks, p);
      if p in YearFallow(s, y, threshold, minWeeks) {
        YearFallowSound(s, y, threshold, minWeeks, p);
      }
      assert p.year in years <==> p.year in init || p.year == y;
    }
  }

  /** A year without data has no weeks and hence no periods. */
  lemma YearWithoutDataHasNoPeriods(s: seq<Observation>, y: int, threshold: real, minWeeks: nat)
    requires y !in DistinctYears(s)
    ensures YearFallow(s, y, threshold, minWeeks) == []
  {
    var ws := WeeksOfYear(s, y);
    assert forall w :: w !in ws;
    assert ws == [];
  }

  /**
   * A period is reported iff, in its year, the weeks with data (ascending)
   * contain a maximal run of weeks with mean NDVI strictly below the threshold
   * that is at least `minWeeks` long; the period carries that run's first and
   * last week and its length. Runs never cross a year boundary, because each
   * year's weeks are scanned on their own.
   */
  lemma FallowPeriodIffMaximalRun(s: seq<Observation>, threshold: real, minWeeks: nat, p: FallowPeriod)
    ensures p in FallowPeriods(s, threshold, minWeeks) <==>
      exists i, j :: MaximalLowRun(YearLowFlags(s, p.year, threshold), i, j) && j - i >= minWeeks
        && p == PeriodOf(p.year, WeeksOfYear(s, p.year), i, j)
  {
    var y := p.year;
    var ws := WeeksOfYear(s, y);
    var low := YearLowFlags(s, y, threshold);
    FallowOfYearsMembership(s, DistinctYears(s), threshold, minWeeks, p);
    if p in YearFallow(s, y, threshold, minWeeks) {
      YearFallowSound(s, y, threshold, minWeeks, p);
      if y !in DistinctYears(s) {
        YearWithoutDataHasNoPeriods(s, y, threshold, minWeeks);
      }
    }
    if exists i, j :: MaximalLowRun(low, i, j) && j - i >= minWeeks && p == PeriodOf(y, ws, i, j) {
      var i, j :| MaximalLowRun(low, i, j) && j - i >= minWeeks && p == PeriodOf(y, ws, i, j);
      RunsFromComplete(y, ws, low, minWeeks, 0, i, j);
      assert ws[i] in ws;
    }
  }

  /**
   * Shape of every reported period: first week <= last week, at least
   * `minWeeks` weeks long, no longer than the span of weeks it covers, and the
   * first week holds data of that year.
   */
  lemma FallowPeriodWellFormed(s: seq<Observation>, threshold: real, minWeeks: nat, p: FallowPeriod)
    requires p in FallowPeriods(s, threshold, minWeeks)
    ensures p.startWeek <= p.endWeek
    ensures p.durationWeeks >= minWeeks
    ensures p.durationWeeks <= p.endWeek - p.startWeek + 1
    ensures exists o :: o in s && o.year == p.year && o.week == p.startWeek
  {
    FallowOfYearsMembership(s, DistinctYears(s), threshold, minWeeks, p);
    YearFallowSound(s, p.year, threshold, minWeeks, p);
    var ws := WeeksOfYear(s, p.year);
    var low := YearLowFlags(s, p.year, threshold);
    var i, j :| MaximalLowRun(low, i, j) && j - i >= minWeeks && p == PeriodOf(p.year, ws, i, j);
    RunShape(p.year, ws, i, j);
    assert p.startWeek in ws;
  }

  /** The period of positions i..j-1 of a strictly increasing week list spans at least j - i weeks. */
  lemma RunShape(y: int, ws: seq<int>, i: int, j: int)
    requires StrictlySorted(ws) && 0 <= i < j <= |ws|
    ensures var p := PeriodOf(y, ws, i, j);
      p.startWeek <= p.endWeek && p.durationWeeks <= p.endWeek - p.startWeek + 1 && p.startWeek in ws
  {
    SortedGap(ws, i, j - 1);
  }

  lemma {:induction false} FallowOfYearsOrdered(s: seq<Observation>, years: seq<int>, threshold: real, minWeeks: nat)
    requires StrictlySorted(years)
    ensures YearsThenWeeksOrdered(FallowOfYears(s, years, threshold, minWeeks))
    decreases |years|
  {
    if years != [] {
      var init := years[..|years| - 1];
      var y := years[|years| - 1];
      var a := FallowOfYears(s, init, threshold, minWeeks);
      var b := YearFallow(s, y, threshold, minWeeks);
      FallowOfYearsOrdered(s, init, threshold, minWeeks);
      RunsFromOrdered(y, WeeksOfYear(s, y), YearLowFlags(s, y, threshold), minWeeks, 0);
      forall q | q in b ensures q.year == y {
        YearFallowSound(s, y, threshold, minWeeks, q);
      }
      forall q | q in a ensures q.year < y {
        FallowOfYearsMembership(s, init, threshold, minWeeks, q);
        var k :| 0 <= k < |init| && init[k] == q.year;
        assert years[k] == init[k];
      }
      var r := a + b;
      assert FallowOfYears(s, years, threshold, minWeeks) == r;
      forall k, l | 0 <= k < l < |r|
        ensures r[k].year < r[l].year || (r[k].year == r[l].year && r[k].endWeek < r[l].startWeek)
      {
        if l < |a| {
          assert r[k] == a[k] && r[l] == a[l];
        } else if k < |a| {
          assert r[k] == a[k] && a[k] in a && r[l] == b[l - |a|] && b[l - |a|] in b;
        } else {
          assert r[k] == b[k - |a|] && r[l] == b[l - |a|] && b[l - |a|] in b;
        }
      }
    }
  }

  /**
   * The reported list is ordered by year, and two periods of the same year
   * never overlap: the earlier one ends before the later one starts.
   */
  lemma FallowPeriodsOrdered(s: seq<Observation>, threshold: real, minWeeks: nat)
    ensures YearsThenWeeksOrdered(FallowPeriods(s, threshold, minWeeks))
  {
    FallowOfYearsOrdered(s, DistinctYears(s), threshold, minWeeks);
  }
}
