/** The composite score of a model: `recompute_ranking` of src/ranking.py, over exact numbers and before rounding.
    Six factors, some of which may be missing, are averaged with weights renormalized over those that are there. */
module Ranking {
  import opened Sequences

  // ---------------------------------------------------------------------------------------------
  // The weighted average
  // ---------------------------------------------------------------------------------------------

  type Factors = seq<Option<real>>

  function AvailableWeight(weights: seq<real>, factors: Factors): real
    requires |weights| == |factors|
  {
    if factors == [] then 0.0
    else AvailableWeight(Front(weights), Front(factors)) + Present(Last(weights), Last(factors))
  }

  /** A factor times its weight's share of `total`; nothing if it is missing. */
  function Share(weight: real, factor: Option<real>, total: real): real
    requires total > 0.0
  {
    if factor.Some? then weight / total * factor.value else 0.0
  }

  function Shares(weights: seq<real>, factors: Factors, total: real): real
    requires |weights| == |factors| && total > 0.0
  {
    if factors == [] then 0.0
    else Shares(Front(weights), Front(factors), total) + Share(Last(weights), Last(factors), total)
  }

  function Average(weights: seq<real>, factors: Factors): real
    requires |weights| == |factors|
  {
    var total := AvailableWeight(weights, factors);
    if total <= 0.0 then 0.0 else Shares(weights, factors, total)
  }

  method WeightedAverage(weights: seq<real>, factors: Factors) returns (score: real)
    requires |weights| == |factors|
    ensures score == Average(weights, factors)
  {
    var available := 0.0;
    var i := 0;
    while i < |factors|
      invariant 0 <= i <= |factors| && available == AvailableWeight(weights[..i], factors[..i])
    {
      StepBack(weights, factors, i);
      if factors[i].Some? {
        available := available + weights[i];
      }
      i := i + 1;
    }
    assert weights[..i] == weights && factors[..i] == factors;
    score := 0.0;
    if available <= 0.0 {
      return;
    }
    i := 0;
    while i < |factors|
      invariant 0 <= i <= |factors| && score == Shares(weights[..i], factors[..i], available)
    {
      StepBack(weights, factors, i);
      if factors[i].Some? {
        score := score + weights[i] / available * factors[i].value;
      }
      i := i + 1;
    }
  }

  lemma StepBack(weights: seq<real>, factors: Factors, i: nat)
    requires |weights| == |factors| && i < |factors|
    ensures Front(weights[..i + 1]) == weights[..i] && Last(weights[..i + 1]) == weights[i]
    ensures Front(factors[..i + 1]) == factors[..i] && Last(factors[..i + 1]) == factors[i]
  {
  }

  ghost predicate NonNegative(weights: seq<real>) {
    forall i :: 0 <= i < |weights| ==> weights[i] >= 0.0
  }

  ghost predicate Within(factors: Factors, low: real, high: real) {
    forall i :: 0 <= i < |factors| && factors[i].Some? ==> low <= factors[i].value <= high
  }

  /** The weight a factor brings along. */
  function Present(weight: real, factor: Option<real>): real {
    if factor.Some? then weight else 0.0
  }

  /** A sum of shares lies between the bounds times the part of the weight it stands for. */
  predicate Between(sum: real, weight: real, total: real, low: real, high: real)
    requires total > 0.0
  {
    low * (weight / total) <= sum <= high * (weight / total)
  }

  lemma ShareBounds(w: real, factor: Option<real>, total: real, low: real, high: real)
    requires w >= 0.0 && total > 0.0 && (factor.Some? ==> low <= factor.value <= high)
    ensures Between(Share(w, factor, total), Present(w, factor), total, low, high)
  {
    var share := w / total;
    assert share >= 0.0;
    if factor.Some? {
      assert share * (factor.value - low) >= 0.0 && share * (high - factor.value) >= 0.0;
    } else {
      NothingBetween(total, low, high);
    }
  }

  lemma NothingBetween(total: real, low: real, high: real)
    requires total > 0.0
    ensures Between(0.0, 0.0, total, low, high)
  {
    assert 0.0 / total == 0.0;
  }

  lemma AddBetween(x: real, a: real, y: real, b: real, total: real, low: real, high: real)
    requires total > 0.0 && Between(x, a, total, low, high) && Between(y, b, total, low, high)
    ensures Between(x + y, a + b, total, low, high)
  {
    assert (a + b) / total == a / total + b / total;
    assert low * (a / total + b / total) == low * (a / total) + low * (b / total);
    assert high * (a / total + b / total) == high * (a / total) + high * (b / total);
  }

  lemma {:induction false} SharesBounds(weights: seq<real>, factors: Factors, total: real, low: real, high: real)
    requires |weights| == |factors| && total > 0.0 && NonNegative(weights) && Within(factors, low, high)
    ensures Between(Shares(weights, factors, total), AvailableWeight(weights, factors), total, low, high)
  {
    hide Share, Between, Present;
    if factors == [] {
      NothingBetween(total, low, high);
    } else {
      SharesBounds(Front(weights), Front(factors), total, low, high);
      ShareBounds(Last(weights), Last(factors), total, low, high);
      AddBetween(Shares(Front(weights), Front(factors), total), AvailableWeight(Front(weights), Front(factors)),
                 Share(Last(weights), Last(factors), total), Present(Last(weights), Last(factors)), total, low, high);
    }
  }

  /** The average lies between any bounds that the available factors respect, in particular between the least and the
      greatest of them. */
  lemma AverageIsBetween(weights: seq<real>, factors: Factors, low: real, high: real)
    requires |weights| == |factors| && NonNegative(weights) && Within(factors, low, high)
    requires AvailableWeight(weights, factors) > 0.0
    ensures low <= Average(weights, factors) <= high
  {
    hide Shares, AvailableWeight, Within, NonNegative;
    var total := AvailableWeight(weights, factors);
    SharesBounds(weights, factors, total, low, high);
    WholePart(total);
  }

  lemma WholePart(total: real)
    requires total > 0.0
    ensures total / total == 1.0
  {
  }

  function Scaled(weights: seq<real>, c: real): (scaled: seq<real>)
    ensures |scaled| == |weights|
    ensures forall i :: 0 <= i < |weights| ==> scaled[i] == c * weights[i]
  {
    seq(|weights|, i requires 0 <= i < |weights| => c * weights[i])
  }

  lemma ScaledFront(weights: seq<real>, c: real)
    requires weights != []
    ensures Front(Scaled(weights, c)) == Scaled(Front(weights), c) && Last(Scaled(weights, c)) == c * Last(weights)
  {
    var a, b := Front(Scaled(weights, c)), Scaled(Front(weights), c);
    forall i | 0 <= i < |a|
      ensures a[i] == b[i]
    {
      assert Front(weights)[i] == weights[i];
    }
  }

  lemma {:induction false} ScaledWeight(weights: seq<real>, factors: Factors, c: real)
    requires |weights| == |factors|
    ensures AvailableWeight(Scaled(weights, c), factors) == c * AvailableWeight(weights, factors)
  {
    if factors != [] {
      ScaledWeight(Front(weights), Front(factors), c);
      ScaledFront(weights, c);
    }
  }

  lemma SameShare(w: real, scaled: real, factor: Option<real>, total: real, all: real, c: real)
    requires total > 0.0 && c > 0.0 && all > 0.0 && scaled == c * w && all == c * total
    ensures Share(scaled, factor, all) == Share(w, factor, total)
  {
    assert scaled / all == w / total;
  }

  lemma {:induction false} ScaledShares(weights: seq<real>, factors: Factors, total: real, all: real, c: real)
    requires |weights| == |factors| && total > 0.0 && c > 0.0 && all > 0.0 && all == c * total
    ensures Shares(Scaled(weights, c), factors, all) == Shares(weights, factors, total)
  {
    hide Share, Scaled;
    if factors != [] {
      ScaledShares(Front(weights), Front(factors), total, all, c);
      ScaledFront(weights, c);
      SameShare(Last(weights), Last(Scaled(weights, c)), Last(factors), total, all, c);
    }
  }

  /** Only the proportions of the weights matter. */
  lemma ScalingIsIrrelevant(weights: seq<real>, factors: Factors, c: real)
    requires |weights| == |factors| && c > 0.0
    ensures Average(Scaled(weights, c), factors) == Average(weights, factors)
  {
    hide Shares, AvailableWeight, Scaled;
    var total := AvailableWeight(weights, factors);
    ScaledWeight(weights, factors, c);
    if total > 0.0 {
      assert c * total > 0.0;
      ScaledShares(weights, factors, total, c * total, c);
    } else {
      assert c * total <= 0.0;
    }
  }

  /** The same factors are available, and none is smaller in `better`. */
  ghost predicate Dominates(better: Factors, worse: Factors) {
    && |better| == |worse|
    && forall i :: 0 <= i < |better| ==>
        better[i].Some? == worse[i].Some? && (better[i].Some? ==> better[i].value >= worse[i].value)
  }

  lemma {:induction false} SameAvailability(weights: seq<real>, better: Factors, worse: Factors)
    requires |weights| == |better| && Dominates(better, worse)
    ensures AvailableWeight(weights, better) == AvailableWeight(weights, worse)
  {
    if better != [] {
      SameAvailability(Front(weights), Front(better), Front(worse));
    }
  }

  lemma {:induction false} SharesDominate(weights: seq<real>, better: Factors, worse: Factors, total: real)
    requires |weights| == |better| && Dominates(better, worse) && NonNegative(weights) && total > 0.0
    ensures Shares(weights, better, total) >= Shares(weights, worse, total)
  {
    hide Share;
    if better != [] {
      SharesDominate(Front(weights), Front(better), Front(worse), total);
      ShareOrder(Last(weights), Last(better), Last(worse), total);
    }
  }

  lemma ShareOrder(w: real, x: Option<real>, y: Option<real>, total: real)
    requires w >= 0.0 && total > 0.0 && x.Some? == y.Some? && (x.Some? ==> x.value >= y.value)
    ensures Share(w, x, total) >= Share(w, y, total)
  {
    if x.Some? {
      assert w / total >= 0.0;
      assert w / total * (x.value - y.value) >= 0.0;
    }
  }

  /** Between models with the same available factors, one that is no worse in each is no worse overall. */
  lemma DominanceIsRespected(weights: seq<real>, better: Factors, worse: Factors)
    requires |weights| == |better| && Dominates(better, worse) && NonNegative(weights)
    ensures Average(weights, better) >= Average(weights, worse)
  {
    SameAvailability(weights, better, worse);
    var total := AvailableWeight(weights, better);
    if total > 0.0 {
      SharesDominate(weights, better, worse, total);
    }
  }

  // ---------------------------------------------------------------------------------------------
  // The factors
  // ---------------------------------------------------------------------------------------------

  datatype Range = Range(min: real, max: real)

  function Clamp(x: real): (r: real)
    ensures 0.0 <= r <= 1.0
    ensures 0.0 <= x <= 1.0 ==> r == x
  {
    if x < 0.0 then 0.0 else if x > 1.0 then 1.0 else x
  }

  function Normalize(x: real, r: Range): (n: real)
    ensures 0.0 <= n <= 1.0
  {
    if r.max <= r.min then 1.0 else Clamp((x - r.min) / (r.max - r.min))
  }

  function NormalizeInverse(x: real, r: Range): (n: real)
    ensures 0.0 <= n <= 1.0
  {
    1.0 - Normalize(x, r)
  }

  /** A larger value never normalizes to less, the ends of the range map to 0 and 1. */
  lemma NormalizeIsMonotone(x: real, y: real, r: Range)
    requires x <= y
    ensures Normalize(x, r) <= Normalize(y, r) && NormalizeInverse(x, r) >= NormalizeInverse(y, r)
    ensures r.min < r.max ==> Normalize(r.min, r) == 0.0 && Normalize(r.max, r) == 1.0
  {
    if r.min < r.max {
      var width := r.max - r.min;
      assert (x - r.min) / width <= (y - r.min) / width by {
        assert (y - r.min) / width - (x - r.min) / width == (y - x) / width;
        assert (y - x) / width >= 0.0;
      }
      assert width / width == 1.0 && 0.0 / width == 0.0;
    }
  }

  function ColdStartUsage(rank: Option<int>, maxRank: real): (u: real)
    ensures 0.0 <= u <= 1.0
  {
    if rank.None? then 0.5
    else NormalizeInverse(rank.value as real, Range(1.0, if maxRank >= 1.0 then maxRank else 1.0))
  }

  datatype Telemetry = Telemetry(
    totalRequests: nat,
    successRate: real,
    avgLatencyMs: real,
    avgTtfbMs: real,
    rateLimitRatio: real)

  datatype Row = Row(
    isHealthy: bool,
    coolingDown: bool,
    elo: Option<real>,
    openLlm: Option<real>,
    avgLatencyMs: real,
    avgTtfbMs: real,
    consecutiveFailures: int,
    backoffLevel: int,
    contextWindow: int,
    features: (bool, bool, bool, bool),
    rank: Option<int>,
    telemetry: Telemetry)

  datatype Settings = Settings(failureThreshold: int, maxBackoffExponent: int)

  /** The ranges over all active models. */
  datatype Ranges = Ranges(elo: Range, openLlm: Range, context: Range, latency: Range, maxRank: real)

  function BenchmarkFactor(row: Row, r: Ranges): (f: Option<real>)
    ensures f.Some? ==> 0.0 <= f.value <= 1.0
  {
    match (row.elo, row.openLlm)
    case (None, None) => None
    case (Some(elo), None) => Some(Normalize(elo, r.elo))
    case (None, Some(llm)) => Some(Normalize(llm, r.openLlm))
    case (Some(elo), Some(llm)) => Some((Normalize(elo, r.elo) + Normalize(llm, r.openLlm)) / 2.0)
  }

  function UsageFactor(row: Row, r: Ranges): (f: real)
    ensures 0.0 <= f <= 1.0
  {
    var t := row.telemetry;
    if t.totalRequests >= 5 then
      Clamp(t.successRate * 0.6 + (if t.totalRequests <= 50 then t.totalRequests else 50) as real / 50.0 * 0.25
            + (1.0 - t.rateLimitRatio) * 0.15)
    else ColdStartUsage(row.rank, r.maxRank)
  }

  function LatencyReference(row: Row): real {
    var t := row.telemetry;
    if t.avgTtfbMs != 0.0 then t.avgTtfbMs
    else if t.avgLatencyMs != 0.0 then t.avgLatencyMs
    else if row.avgTtfbMs != 0.0 then row.avgTtfbMs
    else row.avgLatencyMs
  }

  function LatencyFactor(row: Row, r: Ranges): (f: Option<real>)
    ensures f.Some? ==> 0.0 <= f.value <= 1.0
  {
    if LatencyReference(row) > 0.0 then Some(NormalizeInverse(LatencyReference(row), r.latency)) else None
  }

  function AvailabilityFactor(row: Row, cfg: Settings): (f: real)
    ensures 0.0 <= f <= 1.0
  {
    var penalty := (if row.isHealthy then 0.0 else 0.45) + (if row.coolingDown then 0.30 else 0.0)
      + Min(row.consecutiveFailures, cfg.failureThreshold) as real * 0.08
      + Min(row.backoffLevel, cfg.maxBackoffExponent) as real * 0.05;
    var bonus := if row.telemetry.totalRequests > 0 then row.telemetry.successRate * 0.20 else 0.10;
    Clamp(1.0 - penalty + bonus)
  }

  function FeatureFactor(row: Row): (f: real)
    ensures 0.0 <= f <= 1.0
  {
    ((if row.features.0 then 1.0 else 0.0) + (if row.features.1 then 1.0 else 0.0)
     + (if row.features.2 then 1.0 else 0.0) + (if row.features.3 then 1.0 else 0.0)) / 4.0
  }

  /** In the order of `factor_values`. */
  function FactorsOf(row: Row, r: Ranges, cfg: Settings): (fs: Factors)
    ensures |fs| == 6 && Within(fs, 0.0, 1.0)
  {
    [BenchmarkFactor(row, r), Some(UsageFactor(row, r)), LatencyFactor(row, r), Some(AvailabilityFactor(row, cfg)),
     Some(Normalize(row.contextWindow as real, r.context)), Some(FeatureFactor(row))]
  }

  // ---------------------------------------------------------------------------------------------
  // The ranges
  // ---------------------------------------------------------------------------------------------

  /** The values of one column, where there are any. */
  function Values(rows: seq<Row>, column: Row -> Option<real>): seq<real> {
    if rows == [] then []
    else Values(Front(rows), column) + if column(Last(rows)).Some? then [column(Last(rows)).value] else []
  }

  /** `min` and `max`, or 0 for both when there are no values. */
  function Spread(values: seq<real>): (r: Range)
    ensures forall x :: x in values ==> r.min <= x <= r.max
    ensures values != [] ==> r.min in values && r.max in values
    ensures values == [] ==> r == Range(0.0, 0.0)
  {
    if values == [] then Range(0.0, 0.0)
    else if |values| == 1 then Range(values[0], values[0])
    else
      var r, x := Spread(Front(values)), Last(values);
      assert values == Front(values) + [x];
      Range(if x < r.min then x else r.min, if x > r.max then x else r.max)
  }

  function EloOf(row: Row): Option<real> {
    row.elo
  }

  function OpenLlmOf(row: Row): Option<real> {
    row.openLlm
  }

  function ContextOf(row: Row): Option<real> {
    Some(row.contextWindow as real)
  }

  function LatencyOf(row: Row): Option<real> {
    if LatencyReference(row) > 0.0 then Some(LatencyReference(row)) else None
  }

  function RankOf(row: Row): Option<real> {
    if row.rank.Some? then Some(row.rank.value as real) else None
  }

  function MaxRank(ranks: seq<real>): real {
    if ranks == [] then 1.0 else Spread(ranks).max
  }

  function RangesOf(rows: seq<Row>): Ranges {
    Ranges(Spread(Values(rows, EloOf)), Spread(Values(rows, OpenLlmOf)), Spread(Values(rows, ContextOf)),
           Spread(Values(rows, LatencyOf)), MaxRank(Values(rows, RankOf)))
  }

  lemma {:induction false} ValuesAre(rows: seq<Row>, column: Row -> Option<real>, x: real)
    ensures x in Values(rows, column) <==> exists row :: row in rows && column(row) == Some(x)
  {
    if rows != [] {
      ValuesAre(Front(rows), column, x);
      assert forall row :: row in rows <==> row in Front(rows) || row == Last(rows);
    }
  }

  /** Over the rows themselves normalizing never clamps: a row's value is placed in proportion between the least and the
      greatest of its column. If two rows differ there, some row is placed at 0 and some row at 1. */
  lemma PlacedInProportion(rows: seq<Row>, column: Row -> Option<real>, row: Row)
    requires row in rows && column(row).Some?
    ensures
      var r, x := Spread(Values(rows, column)), column(row).value;
      && r.min <= x <= r.max
      && (r.min < r.max ==> Normalize(x, r) == (x - r.min) / (r.max - r.min))
      && (exists low :: low in rows && column(low) == Some(r.min))
      && (exists high :: high in rows && column(high) == Some(r.max))
      && (r.min < r.max ==> Normalize(r.min, r) == 0.0 && Normalize(r.max, r) == 1.0)
  {
    var r, x := Spread(Values(rows, column)), column(row).value;
    ValuesAre(rows, column, x);
    ValuesAre(rows, column, r.min);
    ValuesAre(rows, column, r.max);
    NormalizeIsMonotone(r.min, x, r);
    if r.min < r.max {
      Proportion(x, r);
    }
  }

  lemma Proportion(x: real, r: Range)
    requires r.min <= x <= r.max && r.min < r.max
    ensures 0.0 <= (x - r.min) / (r.max - r.min) <= 1.0
  {
    var width := r.max - r.min;
    assert (x - r.min) / width + (r.max - x) / width == 1.0;
  }

  // ---------------------------------------------------------------------------------------------
  // What the factors mean
  // ---------------------------------------------------------------------------------------------

  /** `a` is no worse than `b` in anything that is measured, and the same things are measured for both. */
  ghost predicate NoWorse(a: Row, b: Row) {
    var t, u := a.telemetry, b.telemetry;
    && NoLess(a.elo, b.elo) && NoLess(a.openLlm, b.openLlm)
    && (t.totalRequests >= 5 <==> u.totalRequests >= 5) && (t.totalRequests > 0 <==> u.totalRequests > 0)
    && t.totalRequests >= u.totalRequests && t.successRate >= u.successRate && t.rateLimitRatio <= u.rateLimitRatio
    && a.rank.Some? == b.rank.Some? && (a.rank.Some? ==> a.rank.value <= b.rank.value)
    && (LatencyReference(a) > 0.0 <==> LatencyReference(b) > 0.0) && LatencyReference(a) <= LatencyReference(b)
    && (b.isHealthy ==> a.isHealthy) && (a.coolingDown ==> b.coolingDown)
    && a.consecutiveFailures <= b.consecutiveFailures && a.backoffLevel <= b.backoffLevel
    && a.contextWindow >= b.contextWindow
    && (b.features.0 ==> a.features.0) && (b.features.1 ==> a.features.1)
    && (b.features.2 ==> a.features.2) && (b.features.3 ==> a.features.3)
  }

  predicate NoLess(x: Option<real>, y: Option<real>) {
    x.Some? == y.Some? && (x.Some? ==> x.value >= y.value)
  }

  lemma ClampIsMonotone(x: real, y: real)
    requires x <= y
    ensures Clamp(x) <= Clamp(y)
  {
  }

  lemma BenchmarkIsMonotone(a: Row, b: Row, r: Ranges)
    requires NoWorse(a, b)
    ensures NoLess(BenchmarkFactor(a, r), BenchmarkFactor(b, r))
  {
    hide Normalize;
    if a.elo.Some? {
      NormalizeIsMonotone(b.elo.value, a.elo.value, r.elo);
    }
    if a.openLlm.Some? {
      NormalizeIsMonotone(b.openLlm.value, a.openLlm.value, r.openLlm);
    }
  }

  lemma UsageIsMonotone(a: Row, b: Row, r: Ranges)
    requires NoWorse(a, b)
    ensures UsageFactor(a, r) >= UsageFactor(b, r)
  {
    hide Normalize;
    UsageIs(a, r);
    UsageIs(b, r);
    if a.telemetry.totalRequests >= 5 {
      ClampIsMonotone(UsagePoints(b.telemetry) / 100.0, UsagePoints(a.telemetry) / 100.0);
    } else if a.rank.Some? {
      NormalizeIsMonotone(a.rank.value as real, b.rank.value as real,
                          Range(1.0, if r.maxRank >= 1.0 then r.maxRank else 1.0));
    }
  }

  /** Of a hundred points for real use, 60 are for successes, 25 for fifty requests and 15 for never being
      rate-limited. */
  function UsagePoints(t: Telemetry): real {
    60.0 * t.successRate + Min(t.totalRequests, 50) as real / 2.0 + 15.0 - 15.0 * t.rateLimitRatio
  }

  lemma UsageIs(row: Row, r: Ranges)
    ensures row.telemetry.totalRequests >= 5 ==> UsageFactor(row, r) == Clamp(UsagePoints(row.telemetry) / 100.0)
    ensures row.telemetry.totalRequests < 5 && row.rank.None? ==> UsageFactor(row, r) == 0.5
  {
    hide Clamp;
    var t := row.telemetry;
    assert t.successRate * 0.6 + Min(t.totalRequests, 50) as real / 50.0 * 0.25 + (1.0 - t.rateLimitRatio) * 0.15
        == UsagePoints(t) / 100.0;
  }

  /** The first of four measurements that there is: recent first answers, recent answers, and the averages of both. */
  lemma LatencyReferenceIs(row: Row, i: nat)
    requires i < 4
    ensures
      var all := [row.telemetry.avgTtfbMs, row.telemetry.avgLatencyMs, row.avgTtfbMs, row.avgLatencyMs];
      (forall j :: 0 <= j < i ==> all[j] == 0.0) && (all[i] != 0.0 || i == 3) ==> LatencyReference(row) == all[i]
  {
    var all := [row.telemetry.avgTtfbMs, row.telemetry.avgLatencyMs, row.avgTtfbMs, row.avgLatencyMs];
    if forall j :: 0 <= j < i ==> all[j] == 0.0 {
      assert i > 0 ==> all[0] == 0.0;
      assert i > 1 ==> all[1] == 0.0;
      assert i > 2 ==> all[2] == 0.0;
    }
  }

  /** The mean of the benchmarks that there are, each placed in its own range. */
  lemma BenchmarkIs(row: Row, r: Ranges)
    ensures
      var f := BenchmarkFactor(row, r);
      && (f.Some? <==> row.elo.Some? || row.openLlm.Some?)
      && (f.Some? ==>
          var elo := if row.elo.Some? then Normalize(row.elo.value, r.elo) else f.value;
          var llm := if row.openLlm.Some? then Normalize(row.openLlm.value, r.openLlm) else f.value;
          f.value - elo == llm - f.value)
  {
    hide Normalize;
  }

  /** A quarter for each feature. */
  lemma FeaturesAre(row: Row)
    ensures
      var all := [row.features.0, row.features.1, row.features.2, row.features.3];
      FeatureFactor(row) * 4.0 == Count(all, IsSupported) as real
  {
    hide Count;
    var (a, b, c, d) := row.features;
    CountOne(a, IsSupported);
    CountSnoc([a], b);
    CountSnoc([a, b], c);
    CountSnoc([a, b, c], d);
    assert [a] + [b] == [a, b] && [a, b] + [c] == [a, b, c] && [a, b, c] + [d] == [a, b, c, d];
  }

  predicate IsSupported(feature: bool) {
    feature
  }

  lemma CountSnoc(features: seq<bool>, feature: bool)
    ensures Count(features + [feature], IsSupported) == Count(features, IsSupported) + if feature then 1 else 0
  {
    CountAppend(features, [feature], IsSupported);
    CountOne(feature, IsSupported);
  }

  /** A model without requests enough is placed by its rank between the best and the worst rank there is; if every
      rank is the first, at 0. */
  lemma ColdStartIs(row: Row, r: Ranges)
    requires row.telemetry.totalRequests < 5 && row.rank.Some? && 1 <= row.rank.value
    ensures
      var rank, u := row.rank.value as real, UsageFactor(row, r);
      && (r.maxRank <= 1.0 ==> u == 0.0)
      && (r.maxRank > 1.0 && rank <= r.maxRank ==> u * (r.maxRank - 1.0) == r.maxRank - rank)
  {
    var rank, range := row.rank.value as real, Range(1.0, r.maxRank);
    if r.maxRank > 1.0 && rank <= r.maxRank {
      Proportion(rank, range);
      assert UsageFactor(row, r) == 1.0 - (rank - 1.0) / (r.maxRank - 1.0);
    }
  }

  /** The range runs from the least to the greatest value of the column, or is 0 if there are none. */
  ghost predicate IsTight(rows: seq<Row>, column: Row -> Option<real>, r: Range) {
    && (forall row :: row in rows && column(row).Some? ==> r.min <= column(row).value <= r.max)
    && (if exists row :: row in rows && column(row).Some?
        then (exists row :: row in rows && column(row) == Some(r.min)) &&
             (exists row :: row in rows && column(row) == Some(r.max))
        else r == Range(0.0, 0.0))
  }

  lemma SpreadIsTight(rows: seq<Row>, column: Row -> Option<real>)
    ensures IsTight(rows, column, Spread(Values(rows, column)))
  {
    var values := Values(rows, column);
    var r := Spread(values);
    forall row | row in rows && column(row).Some?
      ensures r.min <= column(row).value <= r.max && column(row).value in values
    {
      ValuesAre(rows, column, column(row).value);
    }
    ValuesAre(rows, column, r.min);
    ValuesAre(rows, column, r.max);
    if values != [] {
      ValuesAre(rows, column, values[0]);
    }
  }

  /** Every range is that of its own column. */
  lemma RangesAreTight(rows: seq<Row>)
    ensures
      var r := RangesOf(rows);
      && IsTight(rows, (row: Row) => row.elo, r.elo)
      && IsTight(rows, (row: Row) => row.openLlm, r.openLlm)
      && IsTight(rows, (row: Row) => Some(row.contextWindow as real), r.context)
      && IsTight(rows, (row: Row) => if LatencyReference(row) > 0.0 then Some(LatencyReference(row)) else None,
                 r.latency)
      && (forall row :: row in rows && row.rank.Some? ==> row.rank.value as real <= r.maxRank)
      && (r.maxRank == 1.0 || exists row :: row in rows && row.rank.Some? && row.rank.value as real == r.maxRank)
  {
    hide Spread, Values, IsTight, LatencyReference;
    SpreadOf(rows, EloOf, (row: Row) => row.elo);
    SpreadOf(rows, OpenLlmOf, (row: Row) => row.openLlm);
    SpreadOf(rows, ContextOf, (row: Row) => Some(row.contextWindow as real));
    SpreadOf(rows, LatencyOf,
             (row: Row) => if LatencyReference(row) > 0.0 then Some(LatencyReference(row)) else None);
    MaxRankIs(rows);
  }

  lemma SpreadOf(rows: seq<Row>, column: Row -> Option<real>, same: Row -> Option<real>)
    requires forall row :: column(row) == same(row)
    ensures IsTight(rows, same, Spread(Values(rows, column)))
  {
    hide Spread, Values;
    SpreadIsTight(rows, column);
  }

  lemma MaxRankIs(rows: seq<Row>)
    ensures
      var most := RangesOf(rows).maxRank;
      && (forall row :: row in rows && row.rank.Some? ==> row.rank.value as real <= most)
      && (most == 1.0 || exists row :: row in rows && row.rank.Some? && row.rank.value as real == most)
  {
    hide Spread, Values;
    var ranks := Values(rows, RankOf);
    forall row | row in rows && row.rank.Some?
      ensures row.rank.value as real in ranks
    {
      assert RankOf(row) == Some(row.rank.value as real);
      ValuesAre(rows, RankOf, row.rank.value as real);
    }
    ValuesAre(rows, RankOf, Spread(ranks).max);
  }

  /** Of a hundred points for availability, a model that is unhealthy loses 45, one that cools down 30, and each failure
      and level of back-off counted loses 8 and 5; successes earn up to 20, and an untried model 10. */
  function AvailabilityPoints(row: Row, cfg: Settings): real {
    100.0 - (if row.isHealthy then 0.0 else 45.0) - (if row.coolingDown then 30.0 else 0.0)
    - 8.0 * Min(row.consecutiveFailures, cfg.failureThreshold) as real
    - 5.0 * Min(row.backoffLevel, cfg.maxBackoffExponent) as real
    + if row.telemetry.totalRequests > 0 then 20.0 * row.telemetry.successRate else 10.0
  }

  lemma AvailabilityIs(row: Row, cfg: Settings)
    ensures AvailabilityFactor(row, cfg) == Clamp(AvailabilityPoints(row, cfg) / 100.0)
  {
    hide Clamp;
  }

  lemma AvailabilityIsMonotone(a: Row, b: Row, cfg: Settings)
    requires NoWorse(a, b)
    ensures AvailabilityFactor(a, cfg) >= AvailabilityFactor(b, cfg)
  {
    AvailabilityIs(a, cfg);
    AvailabilityIs(b, cfg);
    ClampIsMonotone(AvailabilityPoints(b, cfg) / 100.0, AvailabilityPoints(a, cfg) / 100.0);
  }

  lemma LatencyIsMonotone(a: Row, b: Row, r: Ranges)
    requires NoWorse(a, b)
    ensures NoLess(LatencyFactor(a, r), LatencyFactor(b, r))
  {
    NormalizeIsMonotone(LatencyReference(a), LatencyReference(b), r.latency);
  }

  lemma ContextAndFeaturesAreMonotone(a: Row, b: Row, r: Ranges)
    requires NoWorse(a, b)
    ensures Normalize(a.contextWindow as real, r.context) >= Normalize(b.contextWindow as real, r.context)
    ensures FeatureFactor(a) >= FeatureFactor(b)
  {
    NormalizeIsMonotone(b.contextWindow as real, a.contextWindow as real, r.context);
  }

  /** From the columns to the score: under weights that are not negative, a model that is no worse in anything measured
      never scores less. */
  lemma NoWorseNeverScoresLess(a: Row, b: Row, r: Ranges, cfg: Settings, weights: seq<real>)
    requires NoWorse(a, b) && |weights| == 6 && NonNegative(weights)
    ensures Average(weights, FactorsOf(a, r, cfg)) >= Average(weights, FactorsOf(b, r, cfg))
  {
    hide NoWorse, BenchmarkFactor, UsageFactor, LatencyFactor, AvailabilityFactor, FeatureFactor, Normalize, Average;
    BenchmarkIsMonotone(a, b, r);
    UsageIsMonotone(a, b, r);
    LatencyIsMonotone(a, b, r);
    AvailabilityIsMonotone(a, b, cfg);
    ContextAndFeaturesAreMonotone(a, b, r);
    DominanceIsRespected(weights, FactorsOf(a, r, cfg), FactorsOf(b, r, cfg));
  }

  function Weighted(weights: seq<real>, factors: Factors): real
    requires |weights| == |factors|
  {
    if factors == [] then 0.0
    else Weighted(Front(weights), Front(factors)) + Term(Last(weights), Last(factors))
  }

  function Term(weight: real, factor: Option<real>): real {
    if factor.Some? then weight * factor.value else 0.0
  }

  lemma {:induction false} SharesAreWeighted(weights: seq<real>, factors: Factors, total: real)
    requires |weights| == |factors| && total > 0.0
    ensures Shares(weights, factors, total) * total == Weighted(weights, factors)
  {
    if factors != [] {
      SharesAreWeighted(Front(weights), Front(factors), total);
      var before, w, f := Shares(Front(weights), Front(factors), total), Last(weights), Last(factors);
      assert Share(w, f, total) * total == Term(w, f);
      assert (before + Share(w, f, total)) * total == before * total + Share(w, f, total) * total;
    }
  }

  /** Which weight goes with which factor, and what the average is: the weighted factors that there are, over the
      weights of those. */
  lemma AverageIs(w: seq<real>, row: Row, r: Ranges, cfg: Settings)
    requires |w| == 6
    ensures
      var benchmark, latency := BenchmarkFactor(row, r), LatencyFactor(row, r);
      var total := Present(w[0], benchmark) + w[1] + Present(w[2], latency) + w[3] + w[4] + w[5];
      var sum := Term(w[0], benchmark) + w[1] * UsageFactor(row, r) + Term(w[2], latency)
        + w[3] * AvailabilityFactor(row, cfg) + w[4] * Normalize(row.contextWindow as real, r.context)
        + w[5] * FeatureFactor(row);
      var average := Average(w, FactorsOf(row, r, cfg));
      if total > 0.0 then average * total == sum else average == 0.0
  {
    hide BenchmarkFactor, UsageFactor, LatencyFactor, AvailabilityFactor, FeatureFactor, Normalize, Share;
    var f := FactorsOf(row, r, cfg);
    SixTerms(w, f);
    SixWeights(w, f);
    var total := AvailableWeight(w, f);
    if total > 0.0 {
      hide AvailableWeight, Weighted, Shares;
      SharesAreWeighted(w, f, total);
    }
  }

  lemma SixWeights(w: seq<real>, f: Factors)
    requires |w| == |f| == 6
    ensures AvailableWeight(w, f) == Present(w[0], f[0]) + Present(w[1], f[1]) + Present(w[2], f[2])
      + Present(w[3], f[3]) + Present(w[4], f[4]) + Present(w[5], f[5])
  {
    hide AvailableWeight, Weighted, Present, Term;
    OneTerm(w, f, 0);
    OneTerm(w, f, 1);
    OneTerm(w, f, 2);
    OneTerm(w, f, 3);
    OneTerm(w, f, 4);
    OneTerm(w, f, 5);
    NoTerms();
    assert w[..6] == w && f[..6] == f && w[..0] == [] && f[..0] == [];
  }

  lemma SixTerms(w: seq<real>, f: Factors)
    requires |w| == |f| == 6
    ensures Weighted(w, f) == Term(w[0], f[0]) + Term(w[1], f[1]) + Term(w[2], f[2]) + Term(w[3], f[3])
      + Term(w[4], f[4]) + Term(w[5], f[5])
  {
    hide AvailableWeight, Weighted, Present, Term;
    OneTerm(w, f, 0);
    OneTerm(w, f, 1);
    OneTerm(w, f, 2);
    OneTerm(w, f, 3);
    OneTerm(w, f, 4);
    OneTerm(w, f, 5);
    NoTerms();
    assert w[..6] == w && f[..6] == f && w[..0] == [] && f[..0] == [];
  }

  lemma NoTerms()
    ensures AvailableWeight([], []) == 0.0 && Weighted([], []) == 0.0
  {
  }

  lemma OneTerm(w: seq<real>, f: Factors, i: nat)
    requires |w| == |f| && i < |w|
    ensures AvailableWeight(w[..i + 1], f[..i + 1]) == AvailableWeight(w[..i], f[..i]) + Present(w[i], f[i])
    ensures Weighted(w[..i + 1], f[..i + 1]) == Weighted(w[..i], f[..i]) + Term(w[i], f[i])
  {
    StepBack(w, f, i);
  }

  /** Scores every row; with weights that are not negative every score lies between 0 and 100. */
  method RecomputeRanking(rows: seq<Row>, cfg: Settings, weights: seq<real>) returns (scores: seq<real>)
    requires |weights| == 6
    ensures |scores| == |rows|
    ensures forall i :: 0 <= i < |rows| ==>
      scores[i] == Average(weights, FactorsOf(rows[i], RangesOf(rows), cfg)) * 100.0
    ensures NonNegative(weights) ==> forall i :: 0 <= i < |rows| ==> 0.0 <= scores[i] <= 100.0
  {
    hide FactorsOf, Average, AvailableWeight, Spread, NonNegative;
    scores := [];
    var latencies := Latencies(rows);
    var r := Ranges(Spread(Values(rows, EloOf)), Spread(Values(rows, OpenLlmOf)), Spread(Values(rows, ContextOf)),
                    Spread(latencies), MaxRank(Values(rows, RankOf)));
    var i := 0;
    while i < |rows|
      invariant 0 <= i <= |rows| && |scores| == i
      invariant forall j :: 0 <= j < i ==> scores[j] == Average(weights, FactorsOf(rows[j], r, cfg)) * 100.0
      invariant NonNegative(weights) ==> forall j :: 0 <= j < i ==> 0.0 <= scores[j] <= 100.0
    {
      var factors := FactorsOf(rows[i], r, cfg);
      var score := WeightedAverage(weights, factors);
      if NonNegative(weights) {
        AverageIsAFraction(weights, factors);
      }
      scores := scores + [score * 100.0];
      i := i + 1;
    }
  }

  /** The loop over `latency_candidates`. */
  method Latencies(rows: seq<Row>) returns (latencies: seq<real>)
    ensures latencies == Values(rows, LatencyOf)
  {
    latencies := [];
    var i := 0;
    while i < |rows|
      invariant 0 <= i <= |rows| && latencies == Values(rows[..i], LatencyOf)
    {
      assert Front(rows[..i + 1]) == rows[..i];
      if LatencyReference(rows[i]) > 0.0 {
        latencies := latencies + [LatencyReference(rows[i])];
      }
      i := i + 1;
    }
    assert rows[..i] == rows;
  }

  lemma AverageIsAFraction(weights: seq<real>, factors: Factors)
    requires |weights| == |factors| && NonNegative(weights) && Within(factors, 0.0, 1.0)
    ensures 0.0 <= Average(weights, factors) <= 1.0
  {
    if AvailableWeight(weights, factors) > 0.0 {
      AverageIsBetween(weights, factors, 0.0, 1.0);
    }
  }

  /** With equal latencies the range is a point and every latency factor is 0, not 1: `_normalize` gives 1 there and its
      inverse 0. */
  lemma EqualLatenciesScoreZero(row: Row, r: Ranges)
    requires LatencyReference(row) > 0.0
    ensures r.latency.max <= r.latency.min ==> LatencyFactor(row, r) == Some(0.0)
  {
  }
}
