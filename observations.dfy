/**
 * Observation rows of the imagery time series and the configuration
 * constants of the engine, with the row filters every component shares.
 */
module Observations {
  import opened Numeric

  /**
   * One row returned by the imagery service, after the calendar year of its
   * date and the pandas ISO week number have been attached. The model takes
   * the pair (year, week) as given: the source pairs the CALENDAR year with
   * the ISO week, and so does the model.
   */
  datatype Observation = Observation(
    year: int,
    week: int,
    ndvi: real,
    ndmi: real,
    clearRatio: real,
    cloudPct: real)

  /** Quality gate: a row takes part in statistics only when clear_pixel_ratio is strictly above this. */
  const QualityGate: real := 0.5
  /** NADAS_NDVI_THRESHOLD */
  const FallowNdviThreshold: real := 0.15
  /** NADAS_CONSECUTIVE_WEEKS */
  const FallowMinWeeks: nat := 8
  /** BASELINE_YEARS */
  const BaselineYears: seq<int> := [2021, 2022, 2023]

  predicate IsClear(o: Observation)
  {
    o.clearRatio > QualityGate
  }

  /** `df[df['clear_pixel_ratio'] > 0.5]`: keeps exactly the clear rows, in order. */
  function QualityFilter(s: seq<Observation>): (r: seq<Observation>)
    ensures |r| <= |s|
    ensures forall o :: o in r <==> o in s && IsClear(o)
    ensures |r| == 0 <==> forall o :: o in s ==> !IsClear(o)
  {
    if s == [] then []
    else (if IsClear(s[0]) then [s[0]] else []) + QualityFilter(s[1..])
  }

  /** The rows of calendar year `y`, in order. */
  function InYear(s: seq<Observation>, y: int): (r: seq<Observation>)
    ensures |r| <= |s|
    ensures forall o :: o in r <==> o in s && o.year == y
  {
    if s == [] then []
    else (if s[0].year == y then [s[0]] else []) + InYear(s[1..], y)
  }

  /** The rows of ISO week `w`, in order. */
  function AtWeek(s: seq<Observation>, w: int): (r: seq<Observation>)
    ensures |r| <= |s|
    ensures forall o :: o in r <==> o in s && o.week == w
  {
    if s == [] then []
    else (if s[0].week == w then [s[0]] else []) + AtWeek(s[1..], w)
  }

  lemma ConcatAssoc(x: seq<Observation>, y: seq<Observation>, z: seq<Observation>)
    ensures x + (y + z) == (x + y) + z
  {
  }

  /**
   * Like pandas boolean indexing, each filter keeps a selected row as many
   * times as it occurs (the `Counts` lemmas) and keeps the rows in their
   * original order: it distributes over concatenation, so a row kept from
   * the front part stays ahead of every row kept from the back part (the
   * `Append` lemmas).
   */
  lemma {:induction false} QualityFilterCounts(s: seq<Observation>)
    ensures forall o :: multiset(QualityFilter(s))[o] == if IsClear(o) then multiset(s)[o] else 0
  {
    if s != [] {
      assert s == [s[0]] + s[1..];
      QualityFilterCounts(s[1..]);
    }
  }

  lemma {:induction false} QualityFilterAppend(a: seq<Observation>, b: seq<Observation>)
    ensures QualityFilter(a + b) == QualityFilter(a) + QualityFilter(b)
  {
    if a == [] {
      assert a + b == b;
    } else {
      assert (a + b)[0] == a[0] && (a + b)[1..] == a[1..] + b;
      QualityFilterAppend(a[1..], b);
      var h := if IsClear(a[0]) then [a[0]] else [];
      assert QualityFilter(a + b) == h + QualityFilter(a[1..] + b);
      assert QualityFilter(a) == h + QualityFilter(a[1..]);
      ConcatAssoc(h, QualityFilter(a[1..]), QualityFilter(b));
    }
  }

  lemma {:induction false} InYearCounts(s: seq<Observation>, y: int)
    ensures forall o :: multiset(InYear(s, y))[o] == if o.year == y then multiset(s)[o] else 0
  {
    if s != [] {
      assert s == [s[0]] + s[1..];
      InYearCounts(s[1..], y);
    }
  }

  lemma {:induction false} InYearAppend(a: seq<Observation>, b: seq<Observation>, y: int)
    ensures InYear(a + b, y) == InYear(a, y) + InYear(b, y)
  {
    if a == [] {
      assert a + b == b;
    } else {
      assert (a + b)[0] == a[0] && (a + b)[1..] == a[1..] + b;
      InYearAppend(a[1..], b, y);
      var h := if a[0].year == y then [a[0]] else [];
      assert InYear(a + b, y) == h + InYear(a[1..] + b, y);
      assert InYear(a, y) == h + InYear(a[1..], y);
      ConcatAssoc(h, InYear(a[1..], y), InYear(b, y));
    }
  }

  lemma {:induction false} AtWeekCounts(s: seq<Observation>, w: int)
    ensures forall o :: multiset(AtWeek(s, w))[o] == if o.week == w then multiset(s)[o] else 0
  {
    if s != [] {
      assert s == [s[0]] + s[1..];
      AtWeekCounts(s[1..], w);
    }
  }

  lemma {:induction false} AtWeekAppend(a: seq<Observation>, b: seq<Observation>, w: int)
    ensures AtWeek(a + b, w) == AtWeek(a, w) + AtWeek(b, w)
  {
    if a == [] {
      assert a + b == b;
    } else {
      assert (a + b)[0] == a[0] && (a + b)[1..] == a[1..] + b;
      AtWeekAppend(a[1..], b, w);
      var h := if a[0].week == w then [a[0]] else [];
      assert AtWeek(a + b, w) == h + AtWeek(a[1..] + b, w);
      assert AtWeek(a, w) == h + AtWeek(a[1..], w);
      ConcatAssoc(h, AtWeek(a[1..], w), AtWeek(b, w));
    }
  }

  /** The `ndvi_mean` column. */
  function Ndvis(s: seq<Observation>): (r: seq<real>)
    ensures |r| == |s| && forall i :: 0 <= i < |s| ==> r[i] == s[i].ndvi
  {
    seq(|s|, i requires 0 <= i < |s| => s[i].ndvi)
  }

  /** The `ndmi_mean` column. */
  function Ndmis(s: seq<Observation>): (r: seq<real>)
    ensures |r| == |s| && forall i :: 0 <= i < |s| ==> r[i] == s[i].ndmi
  {
    seq(|s|, i requires 0 <= i < |s| => s[i].ndmi)
  }

  /** The distinct calendar years of the rows, ascending (the sorted keys of a pandas groupby). */
  function DistinctYears(s: seq<Observation>): (r: seq<int>)
    ensures StrictlySorted(r)
    ensures forall y :: y in r <==> exists o :: o in s && o.year == y
  {
    if s == [] then []
    else
      var r := SortedInsert(DistinctYears(s[1..]), s[0].year);
      assert forall o :: o in s <==> o == s[0] || o in s[1..];
      r
  }

  /** The distinct ISO weeks of the rows, ascending. */
  function DistinctWeeks(s: seq<Observation>): (r: seq<int>)
    ensures StrictlySorted(r)
    ensures forall w :: w in r <==> exists o :: o in s && o.week == w
  {
    if s == [] then []
    else
      var r := SortedInsert(DistinctWeeks(s[1..]), s[0].week);
      assert forall o :: o in s <==> o == s[0] || o in s[1..];
      r
  }

  /** A row of year `a` comes before every row of year `b`. */
  predicate AppearsBefore(s: seq<Observation>, a: int, b: int)
  {
    exists k :: 0 <= k < |s| && s[k].year == a && forall m :: 0 <= m <= k ==> s[m].year != b
  }

  /** `df['date'].dt.year.unique()`: the distinct years in order of first appearance. */
  function YearsInOrder(s: seq<Observation>): (r: seq<int>)
    ensures NoDuplicates(r)
    ensures forall y :: y in r <==> exists o :: o in s && o.year == y
    ensures forall i, j :: 0 <= i < j < |r| ==> AppearsBefore(s, r[i], r[j])
  {
    if s == [] then []
    else
      var init := s[..|s| - 1];
      var prev := YearsInOrder(init);
      var y := s[|s| - 1].year;
      assert forall o :: o in s <==> o == s[|s| - 1] || o in init;
      var r := if y in prev then prev else prev + [y];
      forall i, j | 0 <= i < j < |r| ensures AppearsBefore(s, r[i], r[j]) {
        if j < |prev| {
          AppearsBeforeExtends(init, s, r[i], r[j]);
        } else {
          assert r[i] in prev && r[j] == y && y !in prev;
          FirstAppearance(init, s, r[i], y);
        }
      }
      r
  }

  lemma AppearsBeforeExtends(init: seq<Observation>, s: seq<Observation>, a: int, b: int)
    requires |init| < |s| && init == s[..|init|] && AppearsBefore(init, a, b)
    ensures AppearsBefore(s, a, b)
  {
    var k :| 0 <= k < |init| && init[k].year == a && forall m :: 0 <= m <= k ==> init[m].year != b;
    assert s[k] == init[k];
    forall m | 0 <= m <= k ensures s[m].year != b {
      assert s[m] == init[m];
    }
  }

  /** A year present in a prefix comes before a year absent from it. */
  lemma FirstAppearance(init: seq<Observation>, s: seq<Observation>, a: int, b: int)
    requires |init| < |s| && init == s[..|init|]
    requires exists o :: o in init && o.year == a
    requires forall o :: o in init ==> o.year != b
    ensures AppearsBefore(s, a, b)
  {
    var o :| o in init && o.year == a;
    var k :| 0 <= k < |init| && init[k] == o;
    assert s[k] == init[k];
    forall m | 0 <= m <= k ensures s[m].year != b {
      assert s[m] == init[m];
      assert init[m] in init;
    }
  }
}
