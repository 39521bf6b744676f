/**
 * What the imagery service does with the rows it fetched: choosing the
 * current observation among the last month's rows, and stitching the
 * per-year series of the baseline years together. The fetch itself is a
 * parameter: a function from a year to its date-sorted rows.
 */
module Imagery {
  import opened Wrappers
  import opened Observations

  // ---------------------------------------------------------------------
  // Current status
  // ---------------------------------------------------------------------

  /**
   * `df_clean['clear_pixel_ratio'].idxmax()` with the labels of the full
   * series: the first index, among clear rows, of the largest clear ratio;
   * None when no row is clear.
   */
  function BestClearIndex(s: seq<Observation>): (r: Option<nat>)
    ensures r.None? <==> forall j :: 0 <= j < |s| ==> !IsClear(s[j])
    ensures r.Some? ==> r.value < |s| && IsClear(s[r.value])
    ensures r.Some? ==> forall j :: 0 <= j < |s| && IsClear(s[j]) ==> s[j].clearRatio <= s[r.value].clearRatio
    ensures r.Some? ==> forall j :: 0 <= j < r.value && IsClear(s[j]) ==> s[j].clearRatio < s[r.value].clearRatio
  {
    if s == [] then None
    else
      var last := |s| - 1;
      var k := BestClearIndex(s[..last]);
      if !IsClear(s[last]) then k
      else if k.None? || s[last].clearRatio > s[k.value].clearRatio then Some(last)
      else k
  }

  /** `df['cloud_percentage'].idxmin()`: the first index of the smallest cloud percentage. */
  function LeastCloudIndex(s: seq<Observation>): (i: nat)
    requires |s| > 0
    ensures i < |s|
    ensures forall j :: 0 <= j < |s| ==> s[i].cloudPct <= s[j].cloudPct
    ensures forall j :: 0 <= j < i ==> s[i].cloudPct < s[j].cloudPct
  {
    if |s| == 1 then 0
    else
      var last := |s| - 1;
      var k := LeastCloudIndex(s[..last]);
      if s[last].cloudPct < s[k].cloudPct then last else k
  }

  /**
   * `get_current_status` after the fetch of the last 30 days: nothing for
   * an empty series; otherwise the clearest of the clear rows, or, when no
   * row is clear, the least cloudy row. Ties go to the earliest row.
   */
  function CurrentStatus(series: seq<Observation>): (r: Option<Observation>)
    ensures r.None? <==> series == []
    ensures r.Some? ==> r.value in series
    ensures r.Some? && (exists o :: o in series && IsClear(o)) ==>
      IsClear(r.value) && forall o :: o in series && IsClear(o) ==> o.clearRatio <= r.value.clearRatio
    ensures r.Some? && (forall o :: o in series ==> !IsClear(o)) ==>
      forall o :: o in series ==> r.value.cloudPct <= o.cloudPct
  {
    if series == [] then None
    else
      match BestClearIndex(series)
      case Some(i) => Some(series[i])
      case None => Some(series[LeastCloudIndex(series)])
  }

  // ---------------------------------------------------------------------
  // Baseline years
  // ---------------------------------------------------------------------

  /** `df['year'] = int(year)` on one year's rows. */
  function TagYear(rows: seq<Observation>, y: int): (r: seq<Observation>)
    ensures |r| == |rows|
    ensures forall i :: 0 <= i < |r| ==> r[i] == rows[i].(year := y)
  {
    seq(|rows|, i requires 0 <= i < |rows| => rows[i].(year := y))
  }

  /** The per-year fetches, tagged with their year and concatenated in the order of `years`. */
  function ConcatYears(fetch: int -> seq<Observation>, years: seq<int>): seq<Observation>
  {
    if years == [] then []
    else ConcatYears(fetch, years[..|years| - 1]) + TagYear(fetch(years[|years| - 1]), years[|years| - 1])
  }

  /** The configured years stand in for a missing argument; an explicit list, even empty, is used as given. */
  function YearsOrDefault(years: Option<seq<int>>): seq<int>
  {
    years.GetOr(BaselineYears)
  }

  /** `get_baseline_data`: years without rows are skipped, the others appended in order. */
  method GetBaselineData(fetch: int -> seq<Observation>, years: Option<seq<int>>) returns (data: seq<Observation>)
    ensures data == ConcatYears(fetch, YearsOrDefault(years))
    ensures years.None? ==> data == ConcatYears(fetch, [2021, 2022, 2023])
  {
    var ys := YearsOrDefault(years);
    data := [];
    for k := 0 to |ys|
      invariant data == ConcatYears(fetch, ys[..k])
    {
      assert ys[..k + 1][..k] == ys[..k];
      var df := fetch(ys[k]);
      if |df| > 0 {
        data := data + TagYear(df, ys[k]);
      } else {
        assert TagYear(df, ys[k]) == [];
        assert data + [] == data;
      }
    }
    assert ys[..|ys|] == ys;
  }

  /** A row is in the result iff it is the tagged copy of a row fetched for one of the years. */
  lemma {:induction false} ConcatYearsMembership(fetch: int -> seq<Observation>, years: seq<int>, o: Observation)
    ensures o in ConcatYears(fetch, years) <==>
      exists k :: 0 <= k < |years| && o in TagYear(fetch(years[k]), years[k])
  {
    if years != [] {
      var init := years[..|years| - 1];
      ConcatYearsMembership(fetch, init, o);
      if o in ConcatYears(fetch, years) {
        if o !in ConcatYears(fetch, init) {
          assert o in TagYear(fetch(years[|years| - 1]), years[|years| - 1]);
        } else {
          var k :| 0 <= k < |init| && o in TagYear(fetch(init[k]), init[k]);
          assert years[k] == init[k];
        }
      }
      if exists k :: 0 <= k < |years| && o in TagYear(fetch(years[k]), years[k]) {
        var k :| 0 <= k < |years| && o in TagYear(fetch(years[k]), years[k]);
        if k < |init| {
          assert init[k] == years[k];
        }
      }
    }
  }

  /** Every row of the result carries one of the requested years. */
  lemma ConcatYearsTagged(fetch: int -> seq<Observation>, years: seq<int>, o: Observation)
    requires o in ConcatYears(fetch, years)
    ensures o.year in years
  {
    ConcatYearsMembership(fetch, years, o);
    var k :| 0 <= k < |years| && o in TagYear(fetch(years[k]), years[k]);
  }

  /** The result is empty iff every year's fetch is empty. */
  lemma {:induction false} ConcatYearsEmpty(fetch: int -> seq<Observation>, years: seq<int>)
    ensures ConcatYears(fetch, years) == [] <==> forall k :: 0 <= k < |years| ==> fetch(years[k]) == []
  {
    if years != [] {
      var init := years[..|years| - 1];
      ConcatYearsEmpty(fetch, init);
      assert forall k :: 0 <= k < |init| ==> init[k] == years[k];
    }
  }
}
