/**
 * The weekly baseline: quality gate, fallow exclusion and per-week
 * climatology (mean, sample standard deviation, count) with years collapsed,
 * and the z-score of a current value against it.
 */
module Baseline {
  import opened Wrappers
  import opened Numeric
  import opened Observations
  import opened Fallow

  /** The sigma a week gets when it has a single sample (pandas' std is NaN there). */
  const SigmaFallback: real := 0.05
  /** No sigma is ever below this. */
  const SigmaFloor: real := 0.03

  /** One row of the baseline table. */
  datatype BaselineRow = BaselineRow(
    week: int,
    ndviMu: real,
    ndviSigma: real,
    sampleCount: nat,
    ndmiMu: real,
    ndmiSigma: real)

  /** The populated outcome: rows, the periods used for exclusion, total samples and the years represented. */
  datatype BaselineResult = BaselineResult(
    rows: seq<BaselineRow>,
    fallowPeriods: seq<FallowPeriod>,
    totalSamples: nat,
    yearsUsed: seq<int>)

  /** "No baseline" is its own outcome, distinct from a populated but sparse one. */
  datatype BaselineOutcome = NoBaseline | Computed(result: BaselineResult)

  // ---------------------------------------------------------------------
  // Fallow exclusion
  // ---------------------------------------------------------------------

  /** The row falls in the period's year and inside its inclusive week range. */
  predicate InPeriod(o: Observation, p: FallowPeriod)
  {
    o.year == p.year && p.startWeek <= o.week <= p.endWeek
  }

  predicate InAnyPeriod(o: Observation, ps: seq<FallowPeriod>)
  {
    exists p :: p in ps && InPeriod(o, p)
  }

  /** `df = df[~mask]` for one period. */
  function DropPeriod(s: seq<Observation>, p: FallowPeriod): (r: seq<Observation>)
    ensures |r| <= |s|
    ensures forall o :: o in r <==> o in s && !InPeriod(o, p)
  {
    if s == [] then []
    else (if InPeriod(s[0], p) then [] else [s[0]]) + DropPeriod(s[1..], p)
  }

  /** The rows outside every period, in order. */
  function ExcludeFallow(s: seq<Observation>, ps: seq<FallowPeriod>): (r: seq<Observation>)
    ensures |r| <= |s|
    ensures forall o :: o in r <==> o in s && !InAnyPeriod(o, ps)
    ensures |r| == 0 <==> forall o :: o in s ==> InAnyPeriod(o, ps)
    ensures (exists o :: o in s && InAnyPeriod(o, ps)) ==> |r| < |s|
  {
    if s == [] then []
    else
      var rest := ExcludeFallow(s[1..], ps);
      assert forall o :: o in s <==> o == s[0] || o in s[1..];
      (if InAnyPeriod(s[0], ps) then [] else [s[0]]) + rest
  }

  /**
   * Both exclusions keep each surviving row as many times as it occurs
   * (`Counts`) and distribute over concatenation, so the surviving rows keep
   * their order (`Append`).
   */
  lemma {:induction false} DropPeriodCounts(s: seq<Observation>, p: FallowPeriod)
    ensures forall o :: multiset(DropPeriod(s, p))[o] == if InPeriod(o, p) then 0 else multiset(s)[o]
  {
    if s != [] {
      assert s == [s[0]] + s[1..];
      DropPeriodCounts(s[1..], p);
    }
  }

  lemma {:induction false} DropPeriodAppend(a: seq<Observation>, b: seq<Observation>, p: FallowPeriod)
    ensures DropPeriod(a + b, p) == DropPeriod(a, p) + DropPeriod(b, p)
  {
    if a == [] {
      assert a + b == b;
    } else {
      assert (a + b)[0] == a[0] && (a + b)[1..] == a[1..] + b;
      DropPeriodAppend(a[1..], b, p);
      var h := if InPeriod(a[0], p) then [] else [a[0]];
      assert DropPeriod(a + b, p) == h + DropPeriod(a[1..] + b, p);
      assert DropPeriod(a, p) == h + DropPeriod(a[1..], p);
      ConcatAssoc(h, DropPeriod(a[1..], p), DropPeriod(b, p));
    }
  }

  lemma {:induction false} ExcludeFallowCounts(s: seq<Observation>, ps: seq<FallowPeriod>)
    ensures forall o :: multiset(ExcludeFallow(s, ps))[o] == if InAnyPeriod(o, ps) then 0 else multiset(s)[o]
  {
    if s != [] {
      assert s == [s[0]] + s[1..];
      ExcludeFallowCounts(s[1..], ps);
    }
  }

  lemma {:induction false} ExcludeFallowAppend(a: seq<Observation>, b: seq<Observation>, ps: seq<FallowPeriod>)
    ensures ExcludeFallow(a + b, ps) == ExcludeFallow(a, ps) + ExcludeFallow(b, ps)
  {
    if a == [] {
      assert a + b == b;
    } else {
      assert (a + b)[0] == a[0] && (a + b)[1..] == a[1..] + b;
      ExcludeFallowAppend(a[1..], b, ps);
      var h := if InAnyPeriod(a[0], ps) then [] else [a[0]];
      assert ExcludeFallow(a + b, ps) == h + ExcludeFallow(a[1..] + b, ps);
      assert ExcludeFallow(a, ps) == h + ExcludeFallow(a[1..], ps);
      ConcatAssoc(h, ExcludeFallow(a[1..], ps), ExcludeFallow(b, ps));
    }
  }

  lemma {:induction false} InAnyOneMore(o: Observation, ps: seq<FallowPeriod>, p: FallowPeriod)
    ensures InAnyPeriod(o, ps + [p]) <==> InAnyPeriod(o, ps) || InPeriod(o, p)
  {
    assert forall q :: q in ps + [p] <==> q in ps || q == p;
  }

  /** Dropping the periods one by one, as the source's loop does, equals dropping every row that lies in any of them. */
  lemma {:induction false} ExcludeOneMore(s: seq<Observation>, ps: seq<FallowPeriod>, p: FallowPeriod)
    ensures ExcludeFallow(s, ps + [p]) == DropPeriod(ExcludeFallow(s, ps), p)
  {
    if s != [] {
      var o, t := s[0], s[1..];
      ExcludeOneMore(t, ps, p);
      InAnyOneMore(o, ps, p);
      var e := ExcludeFallow(t, ps);
      if InAnyPeriod(o, ps) {
        assert ExcludeFallow(s, ps) == e;
      } else {
        var a := [o] + e;
        assert ExcludeFallow(s, ps) == a;
        assert a[0] == o && a[1..] == e;
      }
    }
  }

  lemma ExcludePrefixStep(s: seq<Observation>, ps: seq<FallowPeriod>, k: nat)
    requires k < |ps|
    ensures ExcludeFallow(s, ps[..k + 1]) == DropPeriod(ExcludeFallow(s, ps[..k]), ps[k])
  {
    assert ps[..k + 1] == ps[..k] + [ps[k]];
    ExcludeOneMore(s, ps[..k], ps[k]);
  }

  lemma ExcludeWhole(s: seq<Observation>, ps: seq<FallowPeriod>)
    ensures ExcludeFallow(s, ps[..|ps|]) == ExcludeFallow(s, ps)
  {
    assert ps[..|ps|] == ps;
  }

  lemma {:induction false} ExcludeNothing(s: seq<Observation>)
    ensures ExcludeFallow(s, []) == s
  {
    if s != [] {
      ExcludeNothing(s[1..]);
    }
  }

  // ---------------------------------------------------------------------
  // Weekly statistics
  // ---------------------------------------------------------------------

  /** pandas' sample standard deviation: undefined (NaN) below two samples. */
  function SampleStd(xs: seq<real>, ops: FloatOps): Option<real>
  {
    if |xs| >= 2 then Some(ops.sqrt(SampleVariance(xs))) else None
  }

  /** `fillna(0.05)` then `clip(lower=0.03)`, whatever the square root returns. */
  function Sigma(xs: seq<real>, ops: FloatOps): (sigma: real)
    requires |xs| > 0
    ensures sigma >= SigmaFloor
    ensures |xs| == 1 ==> sigma == SigmaFallback
    ensures |xs| >= 2 ==> sigma == Max(ops.sqrt(SampleVariance(xs)), SigmaFloor)
  {
    Max(SampleStd(xs, ops).GetOr(SigmaFallback), SigmaFloor)
  }

  /** The baseline row of week `w`: both indices aggregated over every remaining row of that week, whatever its year. */
  function WeekRow(s: seq<Observation>, w: int, ops: FloatOps): (row: BaselineRow)
    requires |AtWeek(s, w)| > 0
    ensures row.week == w && row.sampleCount == |AtWeek(s, w)|
    ensures row.ndviSigma >= SigmaFloor && row.ndmiSigma >= SigmaFloor
    ensures row.sampleCount == 1 ==> row.ndviSigma == SigmaFallback && row.ndmiSigma == SigmaFallback
    ensures row.ndviMu == Mean(Ndvis(AtWeek(s, w))) && row.ndmiMu == Mean(Ndmis(AtWeek(s, w)))
    ensures row.sampleCount >= 2 ==>
      && row.ndviSigma == Max(ops.sqrt(SampleVariance(Ndvis(AtWeek(s, w)))), SigmaFloor)
      && row.ndmiSigma == Max(ops.sqrt(SampleVariance(Ndmis(AtWeek(s, w)))), SigmaFloor)
  {
    var g := AtWeek(s, w);
    BaselineRow(w, Mean(Ndvis(g)), Sigma(Ndvis(g), ops), |g|, Mean(Ndmis(g)), Sigma(Ndmis(g), ops))
  }

  /** The `week` column of a baseline table. */
  function RowWeeks(rows: seq<BaselineRow>): (ws: seq<int>)
    ensures |ws| == |rows| && forall i :: 0 <= i < |rows| ==> ws[i] == rows[i].week
  {
    seq(|rows|, i requires 0 <= i < |rows| => rows[i].week)
  }

  /** The weeks `ws` all have rows in `s`. */
  predicate WeeksPresent(s: seq<Observation>, ws: seq<int>)
  {
    forall w :: w in ws ==> |AtWeek(s, w)| > 0
  }

  function RowsFor(s: seq<Observation>, ws: seq<int>, ops: FloatOps): (rows: seq<BaselineRow>)
    requires WeeksPresent(s, ws)
    ensures |rows| == |ws|
    ensures forall i :: 0 <= i < |ws| ==> rows[i] == WeekRow(s, ws[i], ops)
  {
    if ws == [] then [] else [WeekRow(s, ws[0], ops)] + RowsFor(s, ws[1..], ops)
  }

  lemma DistinctWeeksPresent(s: seq<Observation>)
    ensures WeeksPresent(s, DistinctWeeks(s))
  {
    forall w | w in DistinctWeeks(s) ensures |AtWeek(s, w)| > 0 {
      var o :| o in s && o.week == w;
      assert o in AtWeek(s, w);
    }
  }

  /**
   * `df.groupby('week').agg(...)`: one row per distinct week, ascending, each
   * holding the mean of that week's values and counting its rows, with both
   * sigmas floored.
   */
  function WeeklyRows(s: seq<Observation>, ops: FloatOps): (rows: seq<BaselineRow>)
    ensures RowWeeks(rows) == DistinctWeeks(s)
    ensures forall i :: 0 <= i < |rows| ==> rows[i].sampleCount == |AtWeek(s, rows[i].week)| > 0
    ensures forall i :: 0 <= i < |rows| ==> rows[i] == WeekRow(s, rows[i].week, ops)
    ensures forall i :: 0 <= i < |rows| ==>
      rows[i].ndviMu == Mean(Ndvis(AtWeek(s, rows[i].week))) && rows[i].ndmiMu == Mean(Ndmis(AtWeek(s, rows[i].week)))
    ensures forall row :: row in rows ==>
      && row.ndviSigma >= SigmaFloor && row.ndmiSigma >= SigmaFloor
      && (row.sampleCount == 1 ==> row.ndviSigma == SigmaFallback && row.ndmiSigma == SigmaFallback)
  {
    var ws := DistinctWeeks(s);
    DistinctWeeksPresent(s);
    var rows := RowsFor(s, ws, ops);
    assert forall i :: 0 <= i < |rows| ==> |AtWeek(s, ws[i])| > 0 by {
      forall i | 0 <= i < |rows| ensures |AtWeek(s, ws[i])| > 0 { assert ws[i] in ws; }
    }
    rows
  }

  // ---------------------------------------------------------------------
  // The builder
  // ---------------------------------------------------------------------

  /** The periods that are excluded: the detected ones, or none when exclusion is off. */
  function ExcludedPeriods(data: seq<Observation>, excludeFallow: bool, threshold: real, minWeeks: nat): seq<FallowPeriod>
  {
    if excludeFallow then FallowPeriods(QualityFilter(data), threshold, minWeeks) else []
  }

  /** The rows that reach the weekly aggregation. */
  function Contributing(data: seq<Observation>, excludeFallow: bool, threshold: real, minWeeks: nat): seq<Observation>
  {
    ExcludeFallow(QualityFilter(data), ExcludedPeriods(data, excludeFallow, threshold, minWeeks))
  }

  /** What `calculate_baseline` computes from the concatenated multi-year data. */
  function BaselineFor(data: seq<Observation>, excludeFallow: bool, threshold: real, minWeeks: nat, ops: FloatOps): BaselineOutcome
  {
    if |data| == 0 then NoBaseline
    else if |QualityFilter(data)| == 0 then NoBaseline
    else
      var rest := Contributing(data, excludeFallow, threshold, minWeeks);
      if |rest| == 0 then NoBaseline
      else Computed(BaselineResult(
        WeeklyRows(rest, ops),
        ExcludedPeriods(data, excludeFallow, threshold, minWeeks),
        |rest|,
        YearsInOrder(rest)))
  }

  /** The source's loop removing each detected period's rows from the frame in turn. */
  method DropPeriods(clear: seq<Observation>, periods: seq<FallowPeriod>) returns (df: seq<Observation>)
    ensures df == ExcludeFallow(clear, periods)
  {
    ExcludeNothing(clear);
    df := clear;
    for k := 0 to |periods|
      invariant df == ExcludeFallow(clear, periods[..k])
    {
      ExcludePrefixStep(clear, periods, k);
      df := DropPeriod(df, periods[k]);
    }
    ExcludeWhole(clear, periods);
  }

  /**
   * `calculate_baseline` after the fetch: quality gate, fallow detection,
   * dropping each period's rows in turn, then the weekly aggregation.
   */
  method CalculateBaseline(data: seq<Observation>, excludeFallow: bool, threshold: real, minWeeks: nat, ops: FloatOps)
    returns (outcome: BaselineOutcome)
    ensures outcome == BaselineFor(data, excludeFallow, threshold, minWeeks, ops)
  {
    if |data| == 0 {
      return NoBaseline;
    }
    var df := QualityFilter(data);
    if |df| == 0 {
      return NoBaseline;
    }
    var periods: seq<FallowPeriod> := [];
    if excludeFallow {
      periods := DetectFallowPeriods(df, threshold, minWeeks);
    }
    df := DropPeriods(df, periods);
    if |df| == 0 {
      return NoBaseline;
    }
    outcome := Computed(BaselineResult(WeeklyRows(df, ops), periods, |df|, YearsInOrder(df)));
  }

  // ---------------------------------------------------------------------
  // What the builder guarantees
  // ---------------------------------------------------------------------

  /**
   * There is no baseline in exactly three cases: no data, no row with
   * clear_pixel_ratio strictly above 0.5, or every clear row excluded as fallow.
   */
  lemma BaselineEmptyIff(data: seq<Observation>, excludeFallow: bool, threshold: real, minWeeks: nat, ops: FloatOps)
    ensures BaselineFor(data, excludeFallow, threshold, minWeeks, ops).NoBaseline? <==>
      || |data| == 0
      || (forall o :: o in data ==> !IsClear(o))
      || (forall o :: o in data && IsClear(o) ==> InAnyPeriod(o, ExcludedPeriods(data, excludeFallow, threshold, minWeeks)))
  {
  }

  /**
   * A row reaches the aggregation iff it is in the data, passes the quality
   * gate and lies in no excluded period; with exclusion off nothing is
   * excluded and no period is reported.
   */
  lemma ContributingRows(data: seq<Observation>, excludeFallow: bool, threshold: real, minWeeks: nat)
    ensures forall o :: o in Contributing(data, excludeFallow, threshold, minWeeks) <==>
      o in data && IsClear(o) && !InAnyPeriod(o, ExcludedPeriods(data, excludeFallow, threshold, minWeeks))
    ensures !excludeFallow ==>
      ExcludedPeriods(data, excludeFallow, threshold, minWeeks) == [] &&
      Contributing(data, excludeFallow, threshold, minWeeks) == QualityFilter(data)
  {
    if !excludeFallow {
      ExcludeNothing(QualityFilter(data));
    }
  }

  /**
   * Fallow exclusion never adds samples, and removes at least one whenever a
   * period is detected (every detected period covers a clear row).
   */
  lemma ExclusionShrinksSamples(data: seq<Observation>, threshold: real, minWeeks: nat)
    ensures |Contributing(data, true, threshold, minWeeks)| <= |Contributing(data, false, threshold, minWeeks)|
    ensures FallowPeriods(QualityFilter(data), threshold, minWeeks) != [] ==>
      |Contributing(data, true, threshold, minWeeks)| < |Contributing(data, false, threshold, minWeeks)|
  {
    var clear := QualityFilter(data);
    var ps := FallowPeriods(clear, threshold, minWeeks);
    ExcludeNothing(clear);
    if ps != [] {
      var p := ps[0];
      FallowPeriodWellFormed(clear, threshold, minWeeks, p);
      var o :| o in clear && o.year == p.year && o.week == p.startWeek;
      assert InPeriod(o, p);
    }
  }

  /** Sum over the weeks `ws` of the number of rows of each week. */
  function CountSum(s: seq<Observation>, ws: seq<int>): nat
  {
    if ws == [] then 0 else |AtWeek(s, ws[0])| + CountSum(s, ws[1..])
  }

  function Occurrences(ws: seq<int>, x: int): nat
  {
    if ws == [] then 0 else (if ws[0] == x then 1 else 0) + Occurrences(ws[1..], x)
  }

  function SumCounts(rows: seq<BaselineRow>): nat
  {
    if rows == [] then 0 else rows[0].sampleCount + SumCounts(rows[1..])
  }

  lemma {:induction false} CountSumCons(o: Observation, t: seq<Observation>, ws: seq<int>)
    ensures CountSum([o] + t, ws) == Occurrences(ws, o.week) + CountSum(t, ws)
  {
    if ws != [] {
      CountSumCons(o, t, ws[1..]);
      assert ([o] + t)[1..] == t;
    }
  }

  lemma {:induction false} CountSumEmpty(ws: seq<int>)
    ensures CountSum([], ws) == 0
  {
    if ws != [] {
      CountSumEmpty(ws[1..]);
    }
  }

  lemma {:induction false} OccursOnce(ws: seq<int>, x: int)
    requires NoDuplicates(ws) && x in ws
    ensures Occurrences(ws, x) == 1
  {
    if ws[0] == x {
      assert x !in ws[1..] by {
        forall k | 0 <= k < |ws[1..]| ensures ws[1..][k] != x {
          assert ws[1..][k] == ws[k + 1];
        }
      }
      OccursNever(ws[1..], x);
    } else {
      OccursOnce(ws[1..], x);
    }
  }

  lemma {:induction false} OccursNever(ws: seq<int>, x: int)
    requires x !in ws
    ensures Occurrences(ws, x) == 0
  {
    if ws != [] {
      OccursNever(ws[1..], x);
    }
  }

  /** Counting each distinct week's rows once counts every row once. */
  lemma {:induction false} CountPartition(s: seq<Observation>, ws: seq<int>)
    requires NoDuplicates(ws)
    requires forall o :: o in s ==> o.week in ws
    ensures CountSum(s, ws) == |s|
  {
    if s == [] {
      CountSumEmpty(ws);
    } else {
      assert s == [s[0]] + s[1..];
      CountSumCons(s[0], s[1..], ws);
      OccursOnce(ws, s[0].week);
      CountPartition(s[1..], ws);
    }
  }

  lemma {:induction false} SumCountsRowsFor(s: seq<Observation>, ws: seq<int>, ops: FloatOps)
    requires WeeksPresent(s, ws)
    ensures SumCounts(RowsFor(s, ws, ops)) == CountSum(s, ws)
  {
    if ws != [] {
      SumCountsRowsFor(s, ws[1..], ops);
    }
  }

  /** The weekly counts add up to the number of rows aggregated: every row is counted in exactly one week. */
  lemma WeeklyCountsSumToRows(s: seq<Observation>, ops: FloatOps)
    ensures SumCounts(WeeklyRows(s, ops)) == |s|
  {
    var ws := DistinctWeeks(s);
    DistinctWeeksPresent(s);
    SumCountsRowsFor(s, ws, ops);
    CountPartition(s, ws);
  }

  /**
   * A computed baseline has rows; their weeks ascend strictly and are exactly
   * the weeks of the contributing rows; each row counts its week's rows; the
   * counts add up to the total, which is the number of contributing rows;
   * the years used are exactly their distinct years, each once.
   */
  lemma BaselineRowsPartitionSamples(data: seq<Observation>, excludeFallow: bool, threshold: real, minWeeks: nat, ops: FloatOps)
    requires BaselineFor(data, excludeFallow, threshold, minWeeks, ops).Computed?
    ensures var res := BaselineFor(data, excludeFallow, threshold, minWeeks, ops).result;
      var rest := Contributing(data, excludeFallow, threshold, minWeeks);
      && |res.rows| > 0
      && StrictlySorted(RowWeeks(res.rows))
      && (forall w :: w in RowWeeks(res.rows) <==> exists o :: o in rest && o.week == w)
      && SumCounts(res.rows) == res.totalSamples == |rest|
      && NoDuplicates(res.yearsUsed)
      && (forall y :: y in res.yearsUsed <==> exists o :: o in rest && o.year == y)
  {
    var rest := Contributing(data, excludeFallow, threshold, minWeeks);
    assert rest[0] in rest;
    assert rest[0].week in DistinctWeeks(rest);
    WeeklyCountsSumToRows(rest, ops);
  }

  /** Every sigma of every row is at least 0.03, and a single-sample week has sigma 0.05. */
  lemma BaselineSigmaFloor(data: seq<Observation>, excludeFallow: bool, threshold: real, minWeeks: nat, ops: FloatOps)
    requires BaselineFor(data, excludeFallow, threshold, minWeeks, ops).Computed?
    ensures forall row :: row in BaselineFor(data, excludeFallow, threshold, minWeeks, ops).result.rows ==>
      && row.ndviSigma >= SigmaFloor && row.ndmiSigma >= SigmaFloor
      && (row.sampleCount == 1 ==> row.ndviSigma == SigmaFallback && row.ndmiSigma == SigmaFallback)
  {
  }

  /**
   * Every row of a built baseline holds, for its week, the mean of the
   * contributing rows' NDVI and NDMI and, from two samples on, the larger of
   * their sample standard deviation and 0.03.
   */
  lemma BaselineRowStatistics(data: seq<Observation>, excludeFallow: bool, threshold: real, minWeeks: nat, ops: FloatOps)
    requires BaselineFor(data, excludeFallow, threshold, minWeeks, ops).Computed?
    ensures var rest := Contributing(data, excludeFallow, threshold, minWeeks);
      forall row :: row in BaselineFor(data, excludeFallow, threshold, minWeeks, ops).result.rows ==>
        && |AtWeek(rest, row.week)| == row.sampleCount > 0
        && row.ndviMu == Mean(Ndvis(AtWeek(rest, row.week)))
        && row.ndmiMu == Mean(Ndmis(AtWeek(rest, row.week)))
        && (row.sampleCount >= 2 ==>
          && row.ndviSigma == Max(ops.sqrt(SampleVariance(Ndvis(AtWeek(rest, row.week)))), SigmaFloor)
          && row.ndmiSigma == Max(ops.sqrt(SampleVariance(Ndmis(AtWeek(rest, row.week)))), SigmaFloor))
  {
    var rest := Contributing(data, excludeFallow, threshold, minWeeks);
    var rows := WeeklyRows(rest, ops);
    forall row | row in rows
      ensures |AtWeek(rest, row.week)| == row.sampleCount > 0
      ensures row == WeekRow(rest, row.week, ops)
    {
      var i :| 0 <= i < |rows| && rows[i] == row;
    }
  }

  // ---------------------------------------------------------------------
  // Z-score
  // ---------------------------------------------------------------------

  datatype IndexKind = NdviIndex | NdmiIndex

  function MuOf(row: BaselineRow, kind: IndexKind): real
  {
    match kind
    case NdviIndex => row.ndviMu
    case NdmiIndex => row.ndmiMu
  }

  function SigmaOf(row: BaselineRow, kind: IndexKind): real
  {
    match kind
    case NdviIndex => row.ndviSigma
    case NdmiIndex => row.ndmiSigma
  }

  /** `baseline_df[baseline_df['week'] == week]`, first row. */
  function FindWeek(rows: seq<BaselineRow>, w: int): (r: Option<BaselineRow>)
    ensures r.None? <==> forall k :: 0 <= k < |rows| ==> rows[k].week != w
    ensures r.Some? ==> r.value in rows && r.value.week == w
    ensures r.Some? ==> exists k :: 0 <= k < |rows| && rows[k] == r.value && forall j :: 0 <= j < k ==> rows[j].week != w
  {
    if rows == [] then None
    else if rows[0].week == w then Some(rows[0])
    else
      var r := FindWeek(rows[1..], w);
      assert forall k :: 1 <= k < |rows| ==> rows[k] == rows[1..][k - 1];
      assert r.Some? ==> exists k :: 0 <= k < |rows| && rows[k] == r.value && forall j :: 0 <= j < k ==> rows[j].week != w by {
        if r.Some? {
          var k :| 0 <= k < |rows[1..]| && rows[1..][k] == r.value && forall j :: 0 <= j < k ==> rows[1..][j].week != w;
          assert forall j :: 0 <= j < k + 1 ==> rows[j].week != w by {
            forall j | 0 <= j < k + 1 ensures rows[j].week != w {
              if j > 0 { assert rows[j] == rows[1..][j - 1]; }
            }
          }
        }
      }
      r
  }

  /** The rows of week `w` only. */
  function RowsOfWeek(rows: seq<BaselineRow>, w: int): seq<BaselineRow>
  {
    if rows == [] then []
    else (if rows[0].week == w then [rows[0]] else []) + RowsOfWeek(rows[1..], w)
  }

  /**
   * `calculate_zscore`: no score when the week has no baseline row or its
   * sigma is zero; otherwise the number of sigmas between value and mu.
   */
  function ZScore(value: real, w: int, rows: seq<BaselineRow>, kind: IndexKind): (z: Option<real>)
    ensures z.None? <==> FindWeek(rows, w).None? || SigmaOf(FindWeek(rows, w).value, kind) == 0.0
    ensures z.Some? ==> z.value * SigmaOf(FindWeek(rows, w).value, kind) == value - MuOf(FindWeek(rows, w).value, kind)
  {
    match FindWeek(rows, w)
    case None => None
    case Some(row) =>
      var sigma := SigmaOf(row, kind);
      if sigma == 0.0 then None else Some((value - MuOf(row, kind)) / sigma)
  }

  lemma {:induction false} FindWeekLocal(rows: seq<BaselineRow>, w: int)
    ensures FindWeek(rows, w) == FindWeek(RowsOfWeek(rows, w), w)
  {
    if rows != [] {
      FindWeekLocal(rows[1..], w);
      var t := RowsOfWeek(rows[1..], w);
      if rows[0].week == w {
        assert RowsOfWeek(rows, w) == [rows[0]] + t;
        assert ([rows[0]] + t)[0] == rows[0];
      } else {
        assert RowsOfWeek(rows, w) == t;
      }
    }
  }

  /** The score reads only the rows of its own week: other weeks never influence it. */
  lemma ZScoreLocal(value: real, w: int, rows: seq<BaselineRow>, kind: IndexKind)
    ensures ZScore(value, w, rows, kind) == ZScore(value, w, RowsOfWeek(rows, w), kind)
  {
    FindWeekLocal(rows, w);
  }

  lemma FindWeekInRows(rows: seq<BaselineRow>, w: int)
    ensures FindWeek(rows, w).Some? <==> w in RowWeeks(rows)
  {
    if w in RowWeeks(rows) {
      var k :| 0 <= k < |rows| && RowWeeks(rows)[k] == w;
      assert rows[k].week == w;
    }
  }

  /** Against weekly rows the score exists iff some aggregated row had that week: the sigma floor rules out a zero sigma. */
  lemma ZScoreOnWeeklyRows(s: seq<Observation>, ops: FloatOps, value: real, w: int, kind: IndexKind)
    ensures ZScore(value, w, WeeklyRows(s, ops), kind).Some? <==> exists o :: o in s && o.week == w
  {
    var rows := WeeklyRows(s, ops);
    FindWeekInRows(rows, w);
    var r := FindWeek(rows, w);
    if r.Some? {
      assert SigmaOf(r.value, kind) >= SigmaFloor;
    }
  }

  /** Against a built baseline the score exists iff some contributing row had that week. */
  lemma ZScoreOnBuiltBaseline(data: seq<Observation>, excludeFallow: bool, threshold: real, minWeeks: nat, ops: FloatOps,
                              value: real, w: int, kind: IndexKind)
    requires BaselineFor(data, excludeFallow, threshold, minWeeks, ops).Computed?
    ensures ZScore(value, w, BaselineFor(data, excludeFallow, threshold, minWeeks, ops).result.rows, kind).Some? <==>
      exists o :: o in Contributing(data, excludeFallow, threshold, minWeeks) && o.week == w
  {
    ZScoreOnWeeklyRows(Contributing(data, excludeFallow, threshold, minWeeks), ops, value, w, kind);
  }
}
