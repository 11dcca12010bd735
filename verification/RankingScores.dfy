/**
  The two engines' scores in fixed point, and the override feedback the second one learns from.
  Weights are hundredths; factor values and totals are ten-thousandths, the precision `round4` keeps.
 */
module RankingScores {
  import opened Platforms
  import opened Rounding
  import P = PublishProtocol
  import T = PublishTheorems

  type Unit = n: int | 0 <= n <= 10_000

  const NEUTRAL: Unit := 5_000

  datatype Factor = Factor(weight: nat, value: Unit)

  /** `round4(weight * value)`. */
  function Contribution(f: Factor): nat {
    RoundHalfUp(f.weight * f.value, 100)
  }

  /** The sum of the contributions, already a whole number of ten-thousandths: its own `round4` keeps it. */
  function Score(factors: seq<Factor>): nat {
    if factors == [] then 0 else Score(factors[..|factors| - 1]) + Contribution(factors[|factors| - 1])
  }

  function Weights(factors: seq<Factor>): nat {
    if factors == [] then 0 else Weights(factors[..|factors| - 1]) + factors[|factors| - 1].weight
  }

  /** The weighted sum without any rounding, in millionths. */
  function Exact(factors: seq<Factor>): nat {
    if factors == [] then 0
    else Exact(factors[..|factors| - 1]) + factors[|factors| - 1].weight * factors[|factors| - 1].value
  }

  lemma ContributionBounds(f: Factor)
    ensures Contribution(f) <= 100 * f.weight
    ensures -50 <= 100 * Contribution(f) - f.weight * f.value <= 50
  {
    Scale(f.weight, f.value, 10_000);
    ShareBounds(f.weight * f.value, f.weight);
  }

  lemma ShareBounds(product: nat, weight: nat)
    requires product <= weight * 10_000
    ensures RoundHalfUp(product, 100) <= 100 * weight
    ensures -50 <= 100 * RoundHalfUp(product, 100) - product <= 50
  {
  }

  lemma Scale(n: nat, a: int, b: int)
    requires a <= b
    ensures n * a <= n * b
  {
  }

  lemma ContributionMonotone(weight: nat, low: Unit, high: Unit)
    requires low <= high
    ensures Contribution(Factor(weight, low)) <= Contribution(Factor(weight, high))
  {
    Scale(weight, low, high);
  }

  /** A score stays in its range: rounding each share cannot carry the sum past the weights. */
  lemma {:induction false} ScoreInRange(factors: seq<Factor>)
    ensures Score(factors) <= 100 * Weights(factors)
  {
    if factors != [] {
      ScoreInRange(factors[..|factors| - 1]);
      ContributionBounds(factors[|factors| - 1]);
    }
  }

  /** And differs from the exact weighted sum by at most half a ten-thousandth per factor. */
  lemma {:induction false} ScoreError(factors: seq<Factor>)
    ensures -50 * |factors| <= 100 * Score(factors) - Exact(factors) <= 50 * |factors|
  {
    if factors != [] {
      ScoreError(factors[..|factors| - 1]);
      ContributionBounds(factors[|factors| - 1]);
    }
  }

  /** Same weights, no value lower. */
  ghost predicate NoWorse(a: seq<Factor>, b: seq<Factor>) {
    |a| == |b| && forall i | 0 <= i < |a| :: a[i].weight == b[i].weight && a[i].value <= b[i].value
  }

  lemma {:induction false} ScoreMonotone(a: seq<Factor>, b: seq<Factor>)
    requires NoWorse(a, b)
    ensures Score(a) <= Score(b)
  {
    if a != [] {
      var n := |a| - 1;
      ScoreMonotone(a[..n], b[..n]);
      ContributionMonotone(a[n].weight, a[n].value, b[n].value);
    }
  }

  // ---------------------------------------------------------------- factor values

  function Clamp01(x: real): real {
    if x < 0.0 then 0.0 else if x > 1.0 then 1.0 else x
  }

  /** `round4(clamp01(x))`. */
  function Value(x: real): Unit {
    (Clamp01(x) * 10_000.0 + 0.5).Floor
  }

  /** What the metrics table says about a pillar on one platform and on all of them. */
  datatype History = History(
    sampleSize: nat, platformAvg: real, overallAvg: real, platformRevenue: real, overallRevenue: real)

  function EngagementV1(pillar: Option<History>): Unit {
    match pillar
    case None => NEUTRAL
    case Some(h) =>
      if h.sampleSize == 0 || h.overallAvg + h.platformAvg == 0.0 then NEUTRAL
      else Value(h.platformAvg / (h.platformAvg + h.overallAvg))
  }

  function RelativeShare(platformAvg: real, overallAvg: real): real {
    if platformAvg + overallAvg == 0.0 then 0.5 else Clamp01(platformAvg / (platformAvg + overallAvg))
  }

  function EngagementV2(pillar: Option<History>): Unit {
    match pillar
    case None => NEUTRAL
    case Some(h) =>
      if h.sampleSize == 0 then NEUTRAL
      else Value(RelativeShare(h.platformAvg, h.overallAvg) * 0.5
                 + RelativeShare(h.platformRevenue, h.overallRevenue) * 0.5)
  }

  /** The target ratio in percent, and the pillar's share of recent live posts. */
  function PillarAlignment(targetPct: Option<real>, totalRecent: nat, pillarRecent: nat): Unit {
    match targetPct
    case None => NEUTRAL
    case Some(target) =>
      var actualPct := if totalRecent == 0 then 0.0 else pillarRecent as real / totalRecent as real * 100.0;
      Value(0.5 + (target - actualPct) / 100.0)
  }

  function CadencePressure(target: Option<int>, published: nat): Unit {
    match target
    case None => NEUTRAL
    case Some(n) => if n <= 0 then NEUTRAL else Value(1.0 - published as real / n as real)
  }

  function FactorsV1(engagement: Unit, api: Unit, pillar: Unit, cadence: Unit): seq<Factor> {
    [Factor(35, engagement), Factor(20, api), Factor(20, pillar), Factor(25, cadence)]
  }

  function FactorsV2(engagement: Unit, override: Unit, cadence: Unit, pillar: Unit, api: Unit): seq<Factor> {
    [Factor(30, engagement), Factor(20, override), Factor(20, cadence), Factor(15, pillar), Factor(15, api)]
  }

  lemma WeightsV1(engagement: Unit, api: Unit, pillar: Unit, cadence: Unit)
    ensures Weights(FactorsV1(engagement, api, pillar, cadence)) == 100
  {
    var f := FactorsV1(engagement, api, pillar, cadence);
    assert f[..3][..2] == f[..2] && f[..2][..1] == f[..1] && f[..1][..0] == [];
    assert Weights(f[..1]) == 35;
    assert Weights(f[..2]) == 55;
    assert Weights(f[..3]) == 75;
  }

  lemma WeightsV2(engagement: Unit, override: Unit, cadence: Unit, pillar: Unit, api: Unit)
    ensures Weights(FactorsV2(engagement, override, cadence, pillar, api)) == 100
  {
    var f := FactorsV2(engagement, override, cadence, pillar, api);
    assert f[..4][..3] == f[..3] && f[..3][..2] == f[..2] && f[..2][..1] == f[..1] && f[..1][..0] == [];
    assert Weights(f[..1]) == 30;
    assert Weights(f[..2]) == 50;
    assert Weights(f[..3]) == 70;
    assert Weights(f[..4]) == 85;
  }

  lemma ExactV1(engagement: Unit, api: Unit, pillar: Unit, cadence: Unit)
    ensures Exact(FactorsV1(engagement, api, pillar, cadence))
         == 35 * engagement + 20 * api + 20 * pillar + 25 * cadence
  {
    var f := FactorsV1(engagement, api, pillar, cadence);
    assert f[..3][..2] == f[..2] && f[..2][..1] == f[..1] && f[..1][..0] == [];
    assert Exact(f[..1]) == 35 * engagement;
    assert Exact(f[..2]) == 35 * engagement + 20 * api;
    assert Exact(f[..3]) == 35 * engagement + 20 * api + 20 * pillar;
  }

  lemma ExactV2(engagement: Unit, override: Unit, cadence: Unit, pillar: Unit, api: Unit)
    ensures Exact(FactorsV2(engagement, override, cadence, pillar, api))
         == 30 * engagement + 20 * override + 20 * cadence + 15 * pillar + 15 * api
  {
    var f := FactorsV2(engagement, override, cadence, pillar, api);
    assert f[..4][..3] == f[..3] && f[..3][..2] == f[..2] && f[..2][..1] == f[..1] && f[..1][..0] == [];
    assert Exact(f[..1]) == 30 * engagement;
    assert Exact(f[..2]) == 30 * engagement + 20 * override;
    assert Exact(f[..3]) == 30 * engagement + 20 * override + 20 * cadence;
    assert Exact(f[..4]) == 30 * engagement + 20 * override + 20 * cadence + 15 * pillar;
  }

  /** The first engine: in range, and within 0.0002 of the weighted sum, whatever the four values. */
  lemma ScoreV1(engagement: Unit, api: Unit, pillar: Unit, cadence: Unit)
    ensures var score := Score(FactorsV1(engagement, api, pillar, cadence));
            && score <= 10_000
            && -200 <= 100 * score - (35 * engagement + 20 * api + 20 * pillar + 25 * cadence) <= 200
  {
    var f := FactorsV1(engagement, api, pillar, cadence);
    WeightsV1(engagement, api, pillar, cadence);
    ExactV1(engagement, api, pillar, cadence);
    ScoreInRange(f);
    ScoreError(f);
  }

  /** The second engine: in range, and within 0.00025 of the weighted sum, whatever the five values. */
  lemma ScoreV2(engagement: Unit, override: Unit, cadence: Unit, pillar: Unit, api: Unit)
    ensures var score := Score(FactorsV2(engagement, override, cadence, pillar, api));
            && score <= 10_000
            && -250 <= 100 * score - (30 * engagement + 20 * override + 20 * cadence + 15 * pillar + 15 * api) <= 250
  {
    var f := FactorsV2(engagement, override, cadence, pillar, api);
    WeightsV2(engagement, override, cadence, pillar, api);
    ExactV2(engagement, override, cadence, pillar, api);
    ScoreInRange(f);
    ScoreError(f);
  }

  /** `q` is `x` held between 0 and 1, in ten-thousandths to within half a unit, halves upward. */
  ghost predicate Rounds(q: Unit, x: real) {
    && (x <= 0.0 ==> q == 0)
    && (x >= 1.0 ==> q == 10_000)
    && (0.0 <= x <= 1.0 ==> -0.5 < q as real - 10_000.0 * x <= 0.5)
  }

  lemma ValueRounds(x: real)
    ensures Rounds(Value(x), x)
  {
  }

  /** Neutral without history, else the platform's share of the two averages. */
  lemma EngagementMeasures(h: History)
    ensures EngagementV1(None) == 5_000
    ensures h.sampleSize == 0 || h.platformAvg + h.overallAvg == 0.0 ==> EngagementV1(Some(h)) == 5_000
    ensures h.sampleSize > 0 && h.platformAvg + h.overallAvg != 0.0 ==>
              Rounds(EngagementV1(Some(h)), h.platformAvg / (h.platformAvg + h.overallAvg))
  {
    if h.platformAvg + h.overallAvg != 0.0 {
      ValueRounds(h.platformAvg / (h.platformAvg + h.overallAvg));
    }
  }

  /** `share` is a's part of a + b: a half where there is nothing to compare, never below 0 or above 1. */
  ghost predicate IsShare(share: real, a: real, b: real) {
    && 0.0 <= share <= 1.0
    && (a + b == 0.0 ==> share == 0.5)
    && (a + b != 0.0 ==>
          share == a / (a + b) || (share == 0.0 && a / (a + b) < 0.0) || (share == 1.0 && a / (a + b) > 1.0))
  }

  /** The second engine takes the middle of the engagement share and the revenue share. */
  lemma BlendMeasures(h: History) returns (engagement: real, revenue: real)
    ensures IsShare(engagement, h.platformAvg, h.overallAvg)
    ensures IsShare(revenue, h.platformRevenue, h.overallRevenue)
    ensures EngagementV2(None) == 5_000 && (h.sampleSize == 0 ==> EngagementV2(Some(h)) == 5_000)
    ensures h.sampleSize > 0 ==> Rounds(EngagementV2(Some(h)), (engagement + revenue) / 2.0)
  {
    engagement := RelativeShare(h.platformAvg, h.overallAvg);
    revenue := RelativeShare(h.platformRevenue, h.overallRevenue);
    var blend := engagement * 0.5 + revenue * 0.5;
    assert blend == (engagement + revenue) / 2.0;
    ValueRounds(blend);
  }

  /** Half, moved by how many hundredths the pillar's share of recent posts is short of its target. */
  lemma PillarMeasures(target: real, totalRecent: nat, pillarRecent: nat)
    ensures PillarAlignment(None, totalRecent, pillarRecent) == 5_000
    ensures totalRecent == 0 ==> Rounds(PillarAlignment(Some(target), 0, pillarRecent), 0.5 + target / 100.0)
    ensures totalRecent > 0 ==>
              Rounds(PillarAlignment(Some(target), totalRecent, pillarRecent),
                     0.5 + target / 100.0 - pillarRecent as real / totalRecent as real)
  {
    var share := if totalRecent == 0 then 0.0 else pillarRecent as real / totalRecent as real;
    var x := 0.5 + (target - share * 100.0) / 100.0;
    assert x == 0.5 + target / 100.0 - share;
    ValueRounds(x);
  }

  /** One less the part of the target already published. */
  lemma CadenceMeasures(target: int, published: nat)
    ensures CadencePressure(None, published) == 5_000
    ensures target <= 0 ==> CadencePressure(Some(target), published) == 5_000
    ensures target > 0 ==>
              Rounds(CadencePressure(Some(target), published), 1.0 - published as real / target as real)
  {
    if target > 0 {
      ValueRounds(1.0 - published as real / target as real);
    }
  }

  /** A platform at the pillar's average is neutral; one above is never below neutral, nor one below above. */
  lemma EngagementAroundAverage(h: History)
    requires h.sampleSize > 0 && h.platformAvg >= 0.0 && h.overallAvg >= 0.0
    ensures h.platformAvg >= h.overallAvg ==> EngagementV1(Some(h)) >= NEUTRAL
    ensures h.platformAvg <= h.overallAvg ==> EngagementV1(Some(h)) <= NEUTRAL
  {
    var a, b := h.platformAvg, h.overallAvg;
    if a + b > 0.0 {
      var share := a / (a + b);
      ShareAroundHalf(a, b, share);
    }
  }

  /** Blending in revenue: at or above average in both is never below neutral, at or below never above. */
  lemma BlendAroundAverage(h: History)
    requires h.sampleSize > 0 && h.platformAvg >= 0.0 && h.overallAvg >= 0.0
    requires h.platformRevenue >= 0.0 && h.overallRevenue >= 0.0
    ensures h.platformAvg >= h.overallAvg && h.platformRevenue >= h.overallRevenue ==> EngagementV2(Some(h)) >= NEUTRAL
    ensures h.platformAvg <= h.overallAvg && h.platformRevenue <= h.overallRevenue ==> EngagementV2(Some(h)) <= NEUTRAL
  {
    RelativeAroundHalf(h.platformAvg, h.overallAvg);
    RelativeAroundHalf(h.platformRevenue, h.overallRevenue);
  }

  lemma RelativeAroundHalf(a: real, b: real)
    requires a >= 0.0 && b >= 0.0
    ensures a >= b ==> RelativeShare(a, b) >= 0.5
    ensures a <= b ==> RelativeShare(a, b) <= 0.5
  {
    if a + b > 0.0 {
      var share := a / (a + b);
      assert share * (a + b) == a;
      ShareAroundHalf(a, b, share);
    }
  }

  /** A pillar below its target share is never pushed down, one above it never pushed up. */
  lemma PillarAroundTarget(target: real, totalRecent: nat, pillarRecent: nat)
    ensures var actual := if totalRecent == 0 then 0.0 else pillarRecent as real / totalRecent as real * 100.0;
            && (actual <= target ==> PillarAlignment(Some(target), totalRecent, pillarRecent) >= NEUTRAL)
            && (actual >= target ==> PillarAlignment(Some(target), totalRecent, pillarRecent) <= NEUTRAL)
  {
    var actual := if totalRecent == 0 then 0.0 else pillarRecent as real / totalRecent as real * 100.0;
    ValueMonotone(0.5, 0.5 + (target - actual) / 100.0);
    ValueMonotone(0.5 + (target - actual) / 100.0, 0.5);
  }

  lemma ValueMonotone(x: real, y: real)
    ensures x <= y ==> Value(x) <= Value(y)
    ensures Value(0.5) == NEUTRAL
  {
  }

  /** Cadence pressure runs from full, with nothing published, down to none at the target and beyond. */
  lemma CadenceFalls(target: int, fewer: nat, more: nat)
    requires target > 0 && fewer <= more
    ensures CadencePressure(Some(target), more) <= CadencePressure(Some(target), fewer)
    ensures CadencePressure(Some(target), 0) == 10_000
    ensures more >= target ==> CadencePressure(Some(target), more) == 0
  {
    var n := target as real;
    RatioMonotone(fewer as real, more as real, n);
    ValueMonotone(1.0 - more as real / n, 1.0 - fewer as real / n);
    if more >= target {
      RatioMonotone(n, more as real, n);
    }
  }

  lemma RatioMonotone(a: real, b: real, n: real)
    requires n > 0.0 && 0.0 <= a <= b
    ensures a / n <= b / n && n / n == 1.0 && 0.0 / n == 0.0
  {
  }

  lemma ShareAroundHalf(a: real, b: real, share: real)
    requires a + b > 0.0 && share * (a + b) == a
    ensures a >= b ==> share >= 0.5
    ensures a <= b ==> share <= 0.5
  {
    assert (share - 0.5) * (a + b) == (a - b) / 2.0;
  }

  // ---------------------------------------------------------------- override feedback

  /** One post that carried a recommendation: what was recommended, what was selected. */
  datatype Decision = Decision(recommended: Platform, selected: Option<Platform>, wasOverride: bool)

  function Away(ds: seq<Decision>, p: Platform): nat {
    if ds == [] then 0 else
    var d, before := ds[|ds| - 1], Away(ds[..|ds| - 1], p);
    if d.recommended == p && d.wasOverride then before + 1 else before
  }

  function Toward(ds: seq<Decision>, p: Platform): nat {
    if ds == [] then 0 else
    var d, before := ds[|ds| - 1], Toward(ds[..|ds| - 1], p);
    if d.wasOverride && d.selected == Some(p) then before + 1 else before
  }

  const OVERRIDE_MIN_SAMPLE_SIZE := 5

  function Clamp(n: int, low: int, high: int): int {
    if n < low then low else if n > high then high else n
  }

  /** `round4(clamp01(0.5 + (towardRate - awayRate) / 2))`, the fraction kept exact until the rounding. */
  function OverrideFeedback(decisions: Option<seq<Decision>>, p: Platform): Unit {
    match decisions
    case None => NEUTRAL
    case Some(ds) =>
      if |ds| < OVERRIDE_MIN_SAMPLE_SIZE then NEUTRAL
      else Rated(Toward(ds, p) - Away(ds, p), |ds|)
  }

  function Rated(net: int, n: nat): Unit
    requires n > 0
  {
    var share := Clamp(n + net, 0, 2 * n);
    RatedInRange(share, n);
    RoundHalfUp(10_000 * share, 2 * n)
  }

  lemma RatedInRange(share: nat, n: nat)
    requires n > 0 && share <= 2 * n
    ensures RoundHalfUp(10_000 * share, 2 * n) <= 10_000
  {
    var q := RoundHalfUp(10_000 * share, 2 * n);
    RoundsToNearest(10_000 * share, 2 * n);
    if q > 10_000 {
      Scale(2 * n, 10_001, q);
    }
  }

  /** The stored flag says exactly that the selection differs from the recommendation. */
  ghost predicate WellRecorded(ds: seq<Decision>) {
    forall i | 0 <= i < |ds| ::
      ds[i].wasOverride <==> ds[i].selected.Some? && ds[i].selected.value != ds[i].recommended
  }

  /** A decision counts for or against a platform, never both. */
  lemma {:induction false} CountedOnce(ds: seq<Decision>, p: Platform)
    requires WellRecorded(ds)
    ensures Away(ds, p) + Toward(ds, p) <= |ds|
  {
    if ds != [] {
      CountedOnce(ds[..|ds| - 1], p);
    }
  }

  /** Every override takes from one platform what it gives to another. */
  lemma {:induction false} SignalIsZeroSum(ds: seq<Decision>)
    requires WellRecorded(ds)
    ensures Toward(ds, Facebook) + Toward(ds, YouTube) + Toward(ds, TikTok) + Toward(ds, LineOa)
         == Away(ds, Facebook) + Away(ds, YouTube) + Away(ds, TikTok) + Away(ds, LineOa)
  {
    if ds != [] {
      var n := |ds| - 1;
      SignalIsZeroSum(ds[..n]);
      assert ds[n].wasOverride ==> ds[n].selected.Some?;
    }
  }

  /** `q` is 10000 times (n + net) / 2n, to within half a unit. */
  predicate Near(q: int, net: int, n: nat) {
    0 <= 2 * (n * q) - 10_000 * (n + net) + n <= 2 * n
  }

  lemma RatedNear(net: int, n: nat)
    requires n > 0 && 0 <= n + net <= 2 * n
    ensures Near(Rated(net, n), net, n)
  {
    var a, q := 10_000 * (n + net), Rated(net, n);
    RoundsToNearest(a, 2 * n);
    assert 2 * n * q == 2 * (n * q);
  }

  /** So the four platforms' values balance around neutral, up to their own rounding. */
  lemma FactorsBalance(ds: seq<Decision>)
    requires WellRecorded(ds)
    ensures var sum := OverrideFeedback(Some(ds), Facebook) + OverrideFeedback(Some(ds), YouTube)
                       + OverrideFeedback(Some(ds), TikTok) + OverrideFeedback(Some(ds), LineOa);
            4 * NEUTRAL - 2 <= sum <= 4 * NEUTRAL + 2
  {
    var n := |ds|;
    if n >= OVERRIDE_MIN_SAMPLE_SIZE {
      var f, y := Toward(ds, Facebook) - Away(ds, Facebook), Toward(ds, YouTube) - Away(ds, YouTube);
      var t, l := Toward(ds, TikTok) - Away(ds, TikTok), Toward(ds, LineOa) - Away(ds, LineOa);
      CountedOnce(ds, Facebook);
      CountedOnce(ds, YouTube);
      CountedOnce(ds, TikTok);
      CountedOnce(ds, LineOa);
      SignalIsZeroSum(ds);
      BalanceOf(f, y, t, l, n);
    }
  }

  lemma BalanceOf(f: int, y: int, t: int, l: int, n: nat)
    requires n > 0 && f + y + t + l == 0
    requires 0 <= n + f <= 2 * n && 0 <= n + y <= 2 * n && 0 <= n + t <= 2 * n && 0 <= n + l <= 2 * n
    ensures 4 * NEUTRAL - 2 <= Rated(f, n) + Rated(y, n) + Rated(t, n) + Rated(l, n) <= 4 * NEUTRAL + 2
  {
    RatedNear(f, n);
    RatedNear(y, n);
    RatedNear(t, n);
    RatedNear(l, n);
    FourNear(Rated(f, n), Rated(y, n), Rated(t, n), Rated(l, n), f, y, t, l, n);
  }

  lemma FourNear(a: int, b: int, c: int, d: int, f: int, y: int, t: int, l: int, n: nat)
    requires n > 0 && f + y + t + l == 0
    requires Near(a, f, n) && Near(b, y, n) && Near(c, t, n) && Near(d, l, n)
    ensures -2 <= a + b + c + d - 20_000 <= 2
  {
    Distribute(n, a, b, c, d);
    Between(n, a + b + c + d);
  }

  lemma Distribute(n: nat, a: int, b: int, c: int, d: int)
    ensures n * (a + b + c + d) == n * a + n * b + n * c + n * d
  {
  }

  lemma Between(n: nat, sum: int)
    requires n > 0 && 0 <= 2 * (n * sum) - 40_000 * n + 4 * n <= 8 * n
    ensures -2 <= sum - 20_000 <= 2
  {
    if sum > 20_002 {
      Scale(n, 20_003, sum);
    } else if sum < 19_998 {
      Scale(n, sum, 19_997);
    }
  }

  /** The decisions that chose `p` over a recommendation. */
  ghost function ChosenAt(ds: seq<Decision>, p: Platform): set<nat> {
    set i | 0 <= i < |ds| && ds[i].wasOverride && ds[i].selected == Some(p)
  }

  /** The decisions that turned a recommendation of `p` down. */
  ghost function RejectedAt(ds: seq<Decision>, p: Platform): set<nat> {
    set i | 0 <= i < |ds| && ds[i].wasOverride && ds[i].recommended == p
  }

  lemma OneMore(was: set<nat>, now: set<nat>, n: nat, hit: bool)
    requires n !in was && forall i: nat :: i in now <==> i in was || (hit && i == n)
    ensures |now| == |was| + if hit then 1 else 0
  {
    assert now == if hit then was + {n} else was;
  }

  lemma OneMoreChosen(ds: seq<Decision>, p: Platform, n: nat)
    requires |ds| == n + 1
    ensures |ChosenAt(ds, p)|
         == |ChosenAt(ds[..n], p)| + if ds[n].wasOverride && ds[n].selected == Some(p) then 1 else 0
  {
    OneMore(ChosenAt(ds[..n], p), ChosenAt(ds, p), n, ds[n].wasOverride && ds[n].selected == Some(p));
  }

  lemma OneMoreRejected(ds: seq<Decision>, p: Platform, n: nat)
    requires |ds| == n + 1
    ensures |RejectedAt(ds, p)|
         == |RejectedAt(ds[..n], p)| + if ds[n].wasOverride && ds[n].recommended == p then 1 else 0
  {
    OneMore(RejectedAt(ds[..n], p), RejectedAt(ds, p), n, ds[n].wasOverride && ds[n].recommended == p);
  }

  lemma {:induction false} CountsOf(ds: seq<Decision>, p: Platform)
    ensures Toward(ds, p) == |ChosenAt(ds, p)| <= |ds|
    ensures Away(ds, p) == |RejectedAt(ds, p)| <= |ds|
  {
    if ds == [] {
      OneMore({}, ChosenAt(ds, p), 0, false);
      OneMore({}, RejectedAt(ds, p), 0, false);
    } else {
      var n := |ds| - 1;
      CountsOf(ds[..n], p);
      OneMoreChosen(ds, p, n);
      OneMoreRejected(ds, p, n);
    }
  }

  /**
    What the factor has learnt: neutral below five decisions; from five on, half of one plus half the
    share by which the decisions that chose the platform outnumber those that turned it down, to
    within half a ten-thousandth.
   */
  lemma OverrideFeedbackMeasures(ds: seq<Decision>, p: Platform)
    ensures OverrideFeedback(None, p) == 5_000
    ensures |ds| < 5 ==> OverrideFeedback(Some(ds), p) == 5_000
    ensures |ds| >= 5 ==>
              var q, net, n := OverrideFeedback(Some(ds), p), |ChosenAt(ds, p)| - |RejectedAt(ds, p)|, |ds|;
              -n <= 2 * (n * q) - 10_000 * (n + net) <= n
  {
    CountsOf(ds, p);
    if |ds| >= 5 {
      RatedNear(Toward(ds, p) - Away(ds, p), |ds|);
    }
  }

  /**
    A platform chosen over recommendations at least as often as rejected is never below neutral, and
    conversely; past one decision in ten thousand the factor leaves neutral.
   */
  lemma SignalPointsTheRightWay(ds: seq<Decision>, p: Platform)
    requires WellRecorded(ds)
    ensures Toward(ds, p) >= Away(ds, p) ==> OverrideFeedback(Some(ds), p) >= NEUTRAL
    ensures Toward(ds, p) <= Away(ds, p) ==> OverrideFeedback(Some(ds), p) <= NEUTRAL
    ensures |ds| >= 5 && 10_000 * (Toward(ds, p) - Away(ds, p)) > |ds| ==> OverrideFeedback(Some(ds), p) > NEUTRAL
    ensures |ds| >= 5 && 10_000 * (Away(ds, p) - Toward(ds, p)) > |ds| ==> OverrideFeedback(Some(ds), p) < NEUTRAL
  {
    CountedOnce(ds, p);
    if |ds| >= OVERRIDE_MIN_SAMPLE_SIZE {
      RatedSign(Toward(ds, p) - Away(ds, p), |ds|);
    }
  }

  lemma RatedSign(net: int, n: nat)
    requires n > 0 && 0 <= n + net <= 2 * n
    ensures net >= 0 ==> Rated(net, n) >= NEUTRAL
    ensures net <= 0 ==> Rated(net, n) <= NEUTRAL
    ensures 10_000 * net > n ==> Rated(net, n) > NEUTRAL
    ensures -10_000 * net > n ==> Rated(net, n) < NEUTRAL
  {
    RatedNear(net, n);
    SignOfNear(Rated(net, n), net, n);
  }

  lemma SignOfNear(q: int, net: int, n: nat)
    requires n > 0 && Near(q, net, n)
    ensures net >= 0 ==> q >= NEUTRAL
    ensures net <= 0 ==> q <= NEUTRAL
    ensures 10_000 * net > n ==> q > NEUTRAL
    ensures -10_000 * net > n ==> q < NEUTRAL
  {
    if 10_000 * net > n && q <= NEUTRAL {
      Scale(n, q, NEUTRAL);
    }
    if -10_000 * net > n && q >= NEUTRAL {
      Scale(n, NEUTRAL, q);
    }
    if net >= 0 && q < NEUTRAL {
      Scale(n, q, NEUTRAL - 1);
    }
    if net <= 0 && q > NEUTRAL {
      Scale(n, NEUTRAL + 1, q);
    }
  }

  /** Whatever the decisions, the signal moves a score by at most a tenth of the scale from neutral. */
  lemma OverrideIsAdvisory(decisions: Option<seq<Decision>>, p: Platform, engagement: Unit, cadence: Unit,
      pillar: Unit, api: Unit)
    ensures var with := Score(FactorsV2(engagement, OverrideFeedback(decisions, p), cadence, pillar, api));
            var without := Score(FactorsV2(engagement, NEUTRAL, cadence, pillar, api));
            -1_000 <= with - without <= 1_000
  {
    AnyValueIsAdvisory(OverrideFeedback(decisions, p), engagement, cadence, pillar, api);
  }

  lemma AnyValueIsAdvisory(x: Unit, engagement: Unit, cadence: Unit, pillar: Unit, api: Unit)
    ensures -1_000 <= Score(FactorsV2(engagement, x, cadence, pillar, api))
                      - Score(FactorsV2(engagement, NEUTRAL, cadence, pillar, api)) <= 1_000
  {
    OneFactor(engagement, x, cadence, pillar, api);
    OneFactor(engagement, NEUTRAL, cadence, pillar, api);
    ContributionBounds(Factor(20, x));
    assert Contribution(Factor(20, NEUTRAL)) == 1_000;
  }

  lemma OneFactor(engagement: Unit, override: Unit, cadence: Unit, pillar: Unit, api: Unit)
    ensures Score(FactorsV2(engagement, override, cadence, pillar, api))
         == Contribution(Factor(30, engagement)) + Contribution(Factor(20, override))
            + Contribution(Factor(20, cadence)) + Contribution(Factor(15, pillar)) + Contribution(Factor(15, api))
  {
    var f := FactorsV2(engagement, override, cadence, pillar, api);
    assert f[..4][..3] == f[..3] && f[..3][..2] == f[..2] && f[..2][..1] == f[..1] && f[..1][..0] == [];
    assert Score(f[..1]) == Contribution(f[0]);
    assert Score(f[..2]) == Score(f[..1]) + Contribution(f[1]);
    assert Score(f[..3]) == Score(f[..2]) + Contribution(f[2]);
    assert Score(f[..4]) == Score(f[..3]) + Contribution(f[3]);
  }

  // ---------------------------------------------------------------- decisions as the publish flow stores them

  /** The decisions a query returns, as any selection of posts that carry a recommendation. */
  function DecisionsOf(posts: map<P.PostId, P.Post>, ids: seq<P.PostId>): (ds: seq<Decision>)
    requires forall i | 0 <= i < |ids| :: ids[i] in posts && posts[ids[i]].recommended.Some?
    ensures |ds| == |ids| && forall i | 0 <= i < |ids| ::
      Some(ds[i].recommended) == posts[ids[i]].recommended && ds[i].selected == posts[ids[i]].selected
      && ds[i].wasOverride == posts[ids[i]].wasOverride
  {
    seq(|ids|, i requires 0 <= i < |ids| =>
      Decision(posts[ids[i]].recommended.value, posts[ids[i]].selected, posts[ids[i]].wasOverride))
  }

  /** Along every run of the publish protocol, what the factor reads is well recorded. */
  lemma StoredDecisions(s: P.State, steps: seq<P.Step>, ids: seq<P.PostId>)
    requires T.DecisionsOk(s.posts)
    requires forall i | 0 <= i < |ids| ::
      ids[i] in P.Run(s, steps).posts && P.Run(s, steps).posts[ids[i]].recommended.Some?
    ensures WellRecorded(DecisionsOf(P.Run(s, steps).posts, ids))
  {
    T.DecisionsKept(s, steps);
  }
}
