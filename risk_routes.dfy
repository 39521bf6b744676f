/**
 * The `/baseline` and `/risk` endpoints over the module-level baseline
 * cache. Responses are reduced to their status code and payload; the
 * imagery fetches are parameters.
 */
module RiskRoutes {
  import opened Wrappers
  import opened Numeric
  import opened Observations
  import opened Baseline
  import opened Trend
  import opened RiskEngine
  import opened Imagery

  const Ok: int := 200
  const BadRequest: int := 400
  const NotFound: int := 404
  const InternalError: int := 500

  /**
   * The JSON body of both endpoints. A missing or empty coordinate list is
   * the empty sequence; `field_id` may be absent.
   */
  datatype RiskRequest = RiskRequest(fieldId: Option<string>, coordinates: seq<real>)

  /**
   * The imagery service as seen from the routes: the rows of one calendar
   * year at some coordinates, and the rows of the last 30 days.
   */
  datatype Earth = Earth(
    yearSeries: (seq<real>, int) -> seq<Observation>,
    lastMonth: seq<real> -> seq<Observation>)

  datatype BaselineReply = BaselineReply(status: int, baseline: Option<BaselineResult>)

  datatype RiskReply = RiskReply(status: int, current: Option<Observation>, risk: Option<RiskReport>)

  /** `if field_id:` — a present, non-empty identifier. */
  predicate HasFieldId(req: RiskRequest)
  {
    req.fieldId.Some? && req.fieldId.value != ""
  }

  /** The per-year fetch at the request's coordinates. */
  function YearFetch(earth: Earth, coordinates: seq<real>): int -> seq<Observation>
  {
    (y: int) => earth.yearSeries(coordinates, y)
  }

  /** `BaselineService.calculate_baseline(coordinates)`: the configured years, fallow exclusion on. */
  function ComputeBaseline(earth: Earth, coordinates: seq<real>, ops: FloatOps): BaselineOutcome
  {
    BaselineFor(ConcatYears(YearFetch(earth, coordinates), BaselineYears), true, FallowNdviThreshold, FallowMinWeeks, ops)
  }

  /** The current row as the risk engine reads it: the row always carries its clear ratio. */
  function CurrentOf(o: Observation): (c: CurrentData)
    ensures c.ndviMean == o.ndvi && c.ndmiMean == o.ndmi && c.clearPixelRatio == Some(o.clearRatio)
  {
    CurrentData(o.ndvi, o.ndmi, Some(o.clearRatio))
  }

  // ---------------------------------------------------------------------
  // The emptiness check `not baseline or not baseline['baseline']`
  // ---------------------------------------------------------------------

  datatype CheckOutcome = Pass | Reject | Raise

  /**
   * The check as written: an empty result is an empty DataFrame, whose truth
   * value pandas refuses to compute, so `not baseline` raises and the
   * handler answers 500; a populated result passes unless its row list is
   * empty.
   */
  function BaselineCheckAsWritten(b: BaselineOutcome): (c: CheckOutcome)
    ensures c == Raise <==> b.NoBaseline?
  {
    match b
    case NoBaseline => Raise
    case Computed(r) => if r.rows == [] then Reject else Pass
  }

  /** The check as intended: no baseline, or one without rows, is a 404. */
  function BaselineCheck(b: BaselineOutcome): (c: CheckOutcome)
    ensures c == Pass <==> b.Computed? && b.result.rows != []
    ensures c != Raise
  {
    if b.Computed? && b.result.rows != [] then Pass else Reject
  }

  /**
   * Which emptiness check the endpoints run: the one the source has, which
   * raises on an empty outcome, or the one its 404 message intends.
   */
  datatype CheckMode = AsWritten | Intended

  function Gate(mode: CheckMode, b: BaselineOutcome): (c: CheckOutcome)
    ensures mode == AsWritten ==> c == BaselineCheckAsWritten(b)
    ensures mode == Intended ==> c == BaselineCheck(b)
  {
    match mode
    case AsWritten => BaselineCheckAsWritten(b)
    case Intended => BaselineCheck(b)
  }

  /** The status of a failed check: the handler's `except` answers 500 for a raise, the check itself 404. */
  function Refusal(c: CheckOutcome): (status: int)
    ensures status == InternalError <==> c == Raise
    ensures status == NotFound <==> c != Raise
  {
    if c == Raise then InternalError else NotFound
  }

  /** The two checks disagree exactly on the empty outcome, which the written one turns into a 500. */
  lemma CheckDiscrepancy(b: BaselineOutcome)
    ensures BaselineCheckAsWritten(b) != BaselineCheck(b) <==> b.NoBaseline?
    ensures b.NoBaseline? ==> BaselineCheckAsWritten(b) == Raise && BaselineCheck(b) == Reject
  {
  }

  /**
   * A field for which imagery has no row at all gets no baseline; the
   * check as written then raises (500) where a 404 is intended.
   */
  lemma EmptyImageryRaisesAsWritten(earth: Earth, coordinates: seq<real>, ops: FloatOps)
    requires forall y :: earth.yearSeries(coordinates, y) == []
    ensures ComputeBaseline(earth, coordinates, ops) == NoBaseline
    ensures BaselineCheckAsWritten(ComputeBaseline(earth, coordinates, ops)) == Raise
    ensures BaselineCheck(ComputeBaseline(earth, coordinates, ops)) == Reject
  {
    var fetch := YearFetch(earth, coordinates);
    ConcatYearsEmpty(fetch, BaselineYears);
    assert ConcatYears(fetch, BaselineYears) == [];
  }

  /** A baseline the builder produced always has rows, so on it both checks pass. */
  lemma ComputedBaselinePasses(earth: Earth, coordinates: seq<real>, ops: FloatOps)
    requires ComputeBaseline(earth, coordinates, ops).Computed?
    ensures BaselineCheck(ComputeBaseline(earth, coordinates, ops)) == Pass
    ensures BaselineCheckAsWritten(ComputeBaseline(earth, coordinates, ops)) == Pass
  {
    var data := ConcatYears(YearFetch(earth, coordinates), BaselineYears);
    BaselineRowsPartitionSamples(data, true, FallowNdviThreshold, FallowMinWeeks, ops);
  }

  // ---------------------------------------------------------------------
  // The endpoints as functions of the cache
  // ---------------------------------------------------------------------

  /** `POST /baseline`: the reply and the cache afterwards. */
  function BaselineEndpoint(mode: CheckMode, cache: map<string, BaselineOutcome>, req: RiskRequest, earth: Earth, ops: FloatOps)
    : (BaselineReply, map<string, BaselineOutcome>)
  {
    if req.coordinates == [] then (BaselineReply(BadRequest, None), cache)
    else
      BaselineAnswer(mode, cache, req, ComputeBaseline(earth, req.coordinates, ops))
  }

  /**
   * Whether encoding the `/baseline` reply raises. As written, each fallow
   * period carries its `year` as the numpy integer that `unique()` yields,
   * and `jsonify` cannot encode one, so a reply that lists a period raises
   * and the handler answers 500. As intended, the year is a plain integer
   * like the period's weeks.
   */
  predicate ReplyRaises(mode: CheckMode, b: BaselineOutcome)
  {
    mode == AsWritten && b.Computed? && b.result.fallowPeriods != []
  }

  /**
   * What `POST /baseline` answers once the baseline `b` is built. The cache
   * is written before the reply is encoded, so it keeps the baseline even
   * when encoding raises.
   */
  function BaselineAnswer(mode: CheckMode, cache: map<string, BaselineOutcome>, req: RiskRequest, b: BaselineOutcome)
    : (BaselineReply, map<string, BaselineOutcome>)
  {
    var c := Gate(mode, b);
    if c != Pass then (BaselineReply(Refusal(c), None), cache)
    else
      var cache' := if HasFieldId(req) then cache[req.fieldId.value := b] else cache;
      if ReplyRaises(mode, b) then (BaselineReply(InternalError, None), cache')
      else (BaselineReply(Ok, Some(b.result)), cache')
  }

  /** `if field_id and field_id in baseline_cache` */
  predicate CacheHit(cache: map<string, BaselineOutcome>, req: RiskRequest)
  {
    HasFieldId(req) && req.fieldId.value in cache
  }

  /** `POST /risk`: the reply and the cache afterwards. */
  function RiskEndpoint(mode: CheckMode, cache: map<string, BaselineOutcome>, req: RiskRequest, earth: Earth, week: int,
                        classifier: Classifier, ops: FloatOps): (RiskReply, map<string, BaselineOutcome>)
  {
    if req.coordinates == [] then (RiskReply(BadRequest, None, None), cache)
    else
      var current := CurrentStatus(earth.lastMonth(req.coordinates));
      if current.None? then (RiskReply(NotFound, None, None), cache)
      else
        var b := if CacheHit(cache, req) then cache[req.fieldId.value] else ComputeBaseline(earth, req.coordinates, ops);
        var cache' := if !CacheHit(cache, req) && HasFieldId(req) then cache[req.fieldId.value := b] else cache;
        var c := Gate(mode, b);
        if c != Pass then (RiskReply(Refusal(c), None, None), cache')
        else
          var risk := PredictRisk(CurrentOf(current.value), week, b.result, earth.lastMonth(req.coordinates), classifier, ops);
          (RiskReply(Ok, current, Some(risk)), cache')
  }

  // ---------------------------------------------------------------------
  // The module-level cache
  // ---------------------------------------------------------------------

  /**
   * The blueprint's state. `mode` is `AsWritten` for the source as it
   * stands and `Intended` for the corrected emptiness check.
   */
  class RiskService {
    const mode: CheckMode
    /** `baseline_cache`: field id to the baseline last computed for it (empty outcomes included). */
    var cache: map<string, BaselineOutcome>

    constructor(mode: CheckMode)
      ensures this.mode == mode && cache == map[]
    {
      this.mode := mode;
      cache := map[];
    }

    method PostBaseline(req: RiskRequest, earth: Earth, ops: FloatOps) returns (reply: BaselineReply)
      modifies this
      ensures (reply, cache) == BaselineEndpoint(mode, old(cache), req, earth, ops)
    {
      if req.coordinates == [] {
        reply := BaselineReply(BadRequest, None);
        return;
      }
      var data := GetBaselineData(YearFetch(earth, req.coordinates), None);
      var b := CalculateBaseline(data, true, FallowNdviThreshold, FallowMinWeeks, ops);
      var check := Gate(mode, b);
      if check == Raise {
        reply := BaselineReply(InternalError, None);
        return;
      } else if check == Reject {
        reply := BaselineReply(NotFound, None);
        return;
      }
      if HasFieldId(req) {
        cache := cache[req.fieldId.value := b];
      }
      if mode == AsWritten && b.result.fallowPeriods != [] {
        reply := BaselineReply(InternalError, None);
        return;
      }
      reply := BaselineReply(Ok, Some(b.result));
    }

    method PostRisk(req: RiskRequest, earth: Earth, week: int, classifier: Classifier, ops: FloatOps)
      returns (reply: RiskReply)
      modifies this
      ensures (reply, cache) == RiskEndpoint(mode, old(cache), req, earth, week, classifier, ops)
    {
      if req.coordinates == [] {
        reply := RiskReply(BadRequest, None, None);
        return;
      }
      var current := CurrentStatus(earth.lastMonth(req.coordinates));
      if current.None? {
        reply := RiskReply(NotFound, None, None);
        return;
      }
      var b;
      if CacheHit(cache, req) {
        b := cache[req.fieldId.value];
      } else {
        var data := GetBaselineData(YearFetch(earth, req.coordinates), None);
        b := CalculateBaseline(data, true, FallowNdviThreshold, FallowMinWeeks, ops);
        assert b == ComputeBaseline(earth, req.coordinates, ops);
        if HasFieldId(req) {
          cache := cache[req.fieldId.value := b];
        }
      }
      var check := Gate(mode, b);
      if check == Raise {
        reply := RiskReply(InternalError, None, None);
        return;
      } else if check == Reject {
        reply := RiskReply(NotFound, None, None);
        return;
      }
      var timeseries := earth.lastMonth(req.coordinates);
      var risk := PredictRisk(CurrentOf(current.value), week, b.result, timeseries, classifier, ops);
      reply := RiskReply(Ok, current, Some(risk));
    }
  }

  // ---------------------------------------------------------------------
  // The cache policy
  // ---------------------------------------------------------------------

  /** Without coordinates both endpoints answer 400 and leave the cache alone. */
  lemma MissingCoordinates(mode: CheckMode, cache: map<string, BaselineOutcome>, req: RiskRequest, earth: Earth, week: int,
                           classifier: Classifier, ops: FloatOps)
    requires req.coordinates == []
    ensures BaselineEndpoint(mode, cache, req, earth, ops) == (BaselineReply(BadRequest, None), cache)
    ensures RiskEndpoint(mode, cache, req, earth, week, classifier, ops) == (RiskReply(BadRequest, None, None), cache)
  {
  }

  /**
   * `/baseline` changes the cache exactly when a baseline was built and the
   * request has a field id, and then stores that baseline. It answers 200
   * with the baseline when one was built, except that as written a baseline
   * listing a fallow period is a 500 (with the cache already written); an
   * empty outcome is a 500 as written and a 404 as intended.
   */
  lemma BaselineWritesWhenBuilt(mode: CheckMode, cache: map<string, BaselineOutcome>, req: RiskRequest, earth: Earth, ops: FloatOps)
    ensures var (reply, cache') := BaselineEndpoint(mode, cache, req, earth, ops);
      var b := ComputeBaseline(earth, req.coordinates, ops);
      var built := req.coordinates != [] && b.Computed?;
      (reply.status == Ok <==> built && !ReplyRaises(mode, b)) &&
      (reply.status == Ok ==> reply.baseline == Some(b.result)) &&
      (built && ReplyRaises(mode, b) ==> reply == BaselineReply(InternalError, None)) &&
      (built && HasFieldId(req) ==> cache' == cache[req.fieldId.value := b]) &&
      (!built || !HasFieldId(req) ==> cache' == cache) &&
      (req.coordinates != [] && b.NoBaseline? ==>
        reply == BaselineReply(if mode == AsWritten then InternalError else NotFound, None))
  {
    if req.coordinates != [] && ComputeBaseline(earth, req.coordinates, ops).Computed? {
      ComputedBaselinePasses(earth, req.coordinates, ops);
    }
  }

  /**
   * A built baseline that lists a fallow period: as written the reply
   * cannot be encoded and the handler answers 500 after caching it; as
   * intended it answers 200 with the baseline, caching the same.
   */
  lemma DetectedPeriodRaisesAsWritten(cache: map<string, BaselineOutcome>, req: RiskRequest, b: BaselineOutcome)
    requires b.Computed? && b.result.rows != [] && b.result.fallowPeriods != []
    ensures var cache' := if HasFieldId(req) then cache[req.fieldId.value := b] else cache;
      BaselineAnswer(AsWritten, cache, req, b) == (BaselineReply(InternalError, None), cache') &&
      BaselineAnswer(Intended, cache, req, b) == (BaselineReply(Ok, Some(b.result)), cache')
  {
  }

  /** Without a current observation `/risk` answers 404 before touching the cache. */
  lemma NoCurrentObservation(mode: CheckMode, cache: map<string, BaselineOutcome>, req: RiskRequest, earth: Earth, week: int,
                             classifier: Classifier, ops: FloatOps)
    requires req.coordinates != [] && earth.lastMonth(req.coordinates) == []
    ensures RiskEndpoint(mode, cache, req, earth, week, classifier, ops) == (RiskReply(NotFound, None, None), cache)
  {
  }

  /**
   * On a cache hit `/risk` uses the cached baseline, recomputes nothing and
   * leaves the cache as it was; it answers 200 iff that baseline has rows.
   */
  lemma RiskCacheHit(mode: CheckMode, cache: map<string, BaselineOutcome>, req: RiskRequest, earth: Earth, week: int,
                     classifier: Classifier, ops: FloatOps)
    requires req.coordinates != [] && earth.lastMonth(req.coordinates) != []
    requires HasFieldId(req) && req.fieldId.value in cache
    ensures RiskEndpoint(mode, cache, req, earth, week, classifier, ops).1 == cache
    ensures var reply := RiskEndpoint(mode, cache, req, earth, week, classifier, ops).0;
      reply.status == Ok <==> BaselineCheck(cache[req.fieldId.value]) == Pass
    ensures var reply := RiskEndpoint(mode, cache, req, earth, week, classifier, ops).0;
      reply.status == Ok ==> (reply.risk.value.ruleBased ==
        RuleRisk(CurrentOf(reply.current.value), week, cache[req.fieldId.value].result, earth.lastMonth(req.coordinates)))
  {
  }

  /**
   * On a miss with a field id `/risk` stores the fresh baseline before
   * checking it, so an empty outcome is cached too; as written that request
   * then answers 500, as intended 404.
   */
  lemma RiskCacheMiss(mode: CheckMode, cache: map<string, BaselineOutcome>, req: RiskRequest, earth: Earth, week: int,
                      classifier: Classifier, ops: FloatOps)
    requires req.coordinates != [] && earth.lastMonth(req.coordinates) != []
    requires HasFieldId(req) && req.fieldId.value !in cache
    ensures RiskEndpoint(mode, cache, req, earth, week, classifier, ops).1 ==
      cache[req.fieldId.value := ComputeBaseline(earth, req.coordinates, ops)]
    ensures ComputeBaseline(earth, req.coordinates, ops).NoBaseline? ==>
      RiskEndpoint(mode, cache, req, earth, week, classifier, ops).0.status ==
        if mode == AsWritten then InternalError else NotFound
  {
  }

  /**
   * A successful `/risk` reports the current observation chosen from the
   * last month and a trend over the same raw rows, clear or not.
   */
  lemma RiskUsesRawSeries(mode: CheckMode, cache: map<string, BaselineOutcome>, req: RiskRequest, earth: Earth, week: int,
                          classifier: Classifier, ops: FloatOps)
    ensures var reply := RiskEndpoint(mode, cache, req, earth, week, classifier, ops).0;
      reply.status == Ok ==>
        reply.current == CurrentStatus(earth.lastMonth(req.coordinates)) &&
        reply.risk.value.ruleBased.trend == CalculateTrend(Ndvis(earth.lastMonth(req.coordinates)), DefaultWindow)
  {
  }

  /**
   * The source and its correction leave the same cache behind and give the
   * same reply, except where the source answers 500: on an empty outcome,
   * which the correction answers with 404, and on a baseline listing a
   * fallow period, which the correction answers with 200 and the baseline.
   */
  lemma BaselineModesDiffer(cache: map<string, BaselineOutcome>, req: RiskRequest, earth: Earth, ops: FloatOps)
    ensures var (r1, c1) := BaselineEndpoint(AsWritten, cache, req, earth, ops);
      var (r2, c2) := BaselineEndpoint(Intended, cache, req, earth, ops);
      var b := ComputeBaseline(earth, req.coordinates, ops);
      c1 == c2 && (r1 != r2 <==> r1.status == InternalError) &&
      (r1 != r2 && b.NoBaseline? ==> r2 == BaselineReply(NotFound, None)) &&
      (r1 != r2 && b.Computed? ==> b.result.fallowPeriods != [] && r2 == BaselineReply(Ok, Some(b.result)))
  {
    if req.coordinates != [] {
      BaselineAnswerModes(cache, req, ComputeBaseline(earth, req.coordinates, ops));
    }
  }

  lemma BaselineAnswerModes(cache: map<string, BaselineOutcome>, req: RiskRequest, b: BaselineOutcome)
    ensures var (r1, c1) := BaselineAnswer(AsWritten, cache, req, b);
      var (r2, c2) := BaselineAnswer(Intended, cache, req, b);
      c1 == c2 && (r1 != r2 <==> r1.status == InternalError) &&
      (r1 != r2 && b.NoBaseline? ==> r2 == BaselineReply(NotFound, None)) &&
      (r1 != r2 && b.Computed? ==> b.result.fallowPeriods != [] && r2 == BaselineReply(Ok, Some(b.result)))
  {
    CheckDiscrepancy(b);
  }

  lemma RiskModesDiffer(cache: map<string, BaselineOutcome>, req: RiskRequest, earth: Earth, week: int,
                        classifier: Classifier, ops: FloatOps)
    ensures RiskEndpoint(AsWritten, cache, req, earth, week, classifier, ops).1 ==
      RiskEndpoint(Intended, cache, req, earth, week, classifier, ops).1
    ensures var r1 := RiskEndpoint(AsWritten, cache, req, earth, week, classifier, ops).0;
      var r2 := RiskEndpoint(Intended, cache, req, earth, week, classifier, ops).0;
      (r1 != r2 <==> r1.status == InternalError) && (r1 != r2 ==> r2 == RiskReply(NotFound, None, None))
  {
    RiskModesSameCache(cache, req, earth, week, classifier, ops);
    RiskModesReplies(cache, req, earth, week, classifier, ops);
  }

  lemma RiskModesSameCache(cache: map<string, BaselineOutcome>, req: RiskRequest, earth: Earth, week: int,
                           classifier: Classifier, ops: FloatOps)
    ensures RiskEndpoint(AsWritten, cache, req, earth, week, classifier, ops).1 ==
      RiskEndpoint(Intended, cache, req, earth, week, classifier, ops).1
  {
  }

  lemma RiskModesReplies(cache: map<string, BaselineOutcome>, req: RiskRequest, earth: Earth, week: int,
                         classifier: Classifier, ops: FloatOps)
    ensures var r1 := RiskEndpoint(AsWritten, cache, req, earth, week, classifier, ops).0;
      var r2 := RiskEndpoint(Intended, cache, req, earth, week, classifier, ops).0;
      (r1 != r2 <==> r1.status == InternalError) && (r1 != r2 ==> r2 == RiskReply(NotFound, None, None))
  {
    var current := CurrentStatus(earth.lastMonth(req.coordinates));
    if req.coordinates != [] && current.Some? {
      var b := if CacheHit(cache, req) then cache[req.fieldId.value] else ComputeBaseline(earth, req.coordinates, ops);
      CheckDiscrepancy(b);
      var r1 := RiskEndpoint(AsWritten, cache, req, earth, week, classifier, ops).0;
      var r2 := RiskEndpoint(Intended, cache, req, earth, week, classifier, ops).0;
      if b.NoBaseline? {
        assert r1 == RiskReply(InternalError, None, None) by {}
        assert r2 == RiskReply(NotFound, None, None) by {}
      } else {
        assert r1 == r2 by {
          assert Gate(AsWritten, b) == Gate(Intended, b);
        }
      }
    }
  }
}
