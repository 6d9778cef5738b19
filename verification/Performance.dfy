/** The published performance of a department: weighted ratings, or staffing when nothing is rated. */
module Performance {
  import opened Wrappers
  import opened DepartmentMetrics
  import opened DepartmentMetricsTheorems
  import opened Sequences
  import Sums

  /** A metric row as fetched for one period, with the rating recorded in that period if any. */
  datatype RatedMetric = RatedMetric(weight: nat, rating: Option<Rating>)

  /** What the query counts on the roster side. */
  datatype Staffing = Staffing(activeMembers: nat, workers: nat, trainees: nat)

  // ---------- The computation ----------

  /** Math.round: halves go up. */
  function Round(x: real): int {
    (x + 0.5).Floor
  }

  function Min(a: real, b: real): real {
    if a < b then a else b
  }

  function Unit(mode: WeightingMode, m: RatedMetric): nat {
    if mode == CUSTOM then m.weight else 1
  }

  /** An unrated metric counts as 0. */
  function Share(m: RatedMetric): real {
    (if m.rating.Some? then m.rating.value as real else 0.0) / 10.0
  }

  function Part(mode: WeightingMode, m: RatedMetric): real {
    Share(m) * Unit(mode, m) as real
  }

  function TotalWeight(mode: WeightingMode, ms: seq<RatedMetric>): nat {
    if ms == [] then 0 else TotalWeight(mode, ms[..|ms| - 1]) + Unit(mode, ms[|ms| - 1])
  }

  function Score(mode: WeightingMode, ms: seq<RatedMetric>): real {
    if ms == [] then 0.0 else Score(mode, ms[..|ms| - 1]) + Part(mode, ms[|ms| - 1])
  }

  predicate AnyRated(ms: seq<RatedMetric>) {
    exists m :: m in ms && m.rating.Some?
  }

  function RatedRate(mode: WeightingMode, ms: seq<RatedMetric>): int {
    var total := TotalWeight(mode, ms);
    if total > 0 then Round(Score(mode, ms) / total as real * 100.0) else 0
  }

  function StaffingRate(p: Staffing): int {
    var workerScore :=
      if p.activeMembers == 0 then 0.0 else Min(p.workers as real / p.activeMembers as real * 70.0, 70.0);
    var trainingScore :=
      if p.activeMembers == 0 then 0.0 else Min(p.trainees as real / p.activeMembers as real * 30.0, 30.0);
    Round(workerScore + trainingScore)
  }

  function CompletionRate(mode: WeightingMode, ms: seq<RatedMetric>, p: Staffing): int {
    var rate := if |ms| > 0 && AnyRated(ms) then RatedRate(mode, ms) else StaffingRate(p);
    if rate < 100 then rate else 100
  }

  /** The weight shown beside a question. */
  function DisplayedWeight(mode: WeightingMode, count: nat, m: RatedMetric): real
    requires count > 0
  {
    if mode == CUSTOM then m.weight as real else Round(100.0 / count as real * 10.0) as real / 10.0
  }

  // ---------- Bounds ----------

  lemma RoundMonotone(x: real, y: real)
    requires x <= y
    ensures Round(x) <= Round(y)
  {
  }

  lemma {:induction false} ScoreBounds(mode: WeightingMode, ms: seq<RatedMetric>)
    ensures 0.0 <= Score(mode, ms) <= TotalWeight(mode, ms) as real
  {
    if ms != [] {
      var m := ms[|ms| - 1];
      ScoreBounds(mode, ms[..|ms| - 1]);
      PartBounds(mode, m);
    }
  }

  lemma PartBounds(mode: WeightingMode, m: RatedMetric)
    ensures 0.0 <= Part(mode, m) <= Unit(mode, m) as real
  {
    var x, u := Share(m), Unit(mode, m) as real;
    assert 0.0 <= x <= 1.0 && Part(mode, m) == x * u;
    hide Share, Unit, Part;
    ScaleBounds(x, u);
  }

  lemma ScaleBounds(x: real, u: real)
    requires 0.0 <= x <= 1.0 && 0.0 <= u
    ensures 0.0 <= x * u <= u
  {
    ScaleNonnegative(u, x);
    ScaleNonnegative(u, 1.0 - x);
    assert u * (1.0 - x) == u - x * u;
  }

  lemma QuotientBounds(x: real, t: real)
    requires 0.0 <= x <= t && t > 0.0
    ensures 0.0 <= x / t * 100.0 <= 100.0
  {
    assert 0.0 <= x / t <= 1.0;
  }

  /** Whatever is rated and however the department is staffed, the rate is a percentage. */
  lemma RateIsPercentage(mode: WeightingMode, ms: seq<RatedMetric>, p: Staffing)
    ensures 0 <= CompletionRate(mode, ms, p) <= 100
    ensures 0 <= RatedRate(mode, ms) <= 100
    ensures 0 <= StaffingRate(p) <= 100
  {
    ScoreBounds(mode, ms);
    if TotalWeight(mode, ms) > 0 {
      QuotientBounds(Score(mode, ms), TotalWeight(mode, ms) as real);
    }
    if p.activeMembers > 0 {
      assert p.workers as real / p.activeMembers as real >= 0.0;
      assert p.trainees as real / p.activeMembers as real >= 0.0;
    }
  }

  // ---------- In whole numbers ----------

  /** r is num / den rounded to the nearest integer, halves up. */
  predicate IsNearest(r: int, num: int, den: int) {
    -den <= 2 * (num - den * r) < den
  }

  lemma RoundIsNearest(q: real, num: int, den: nat)
    requires den > 0 && q * den as real == num as real
    ensures IsNearest(Round(q), num, den)
  {
    var r, d := Round(q), den as real;
    var low, high := q - r as real + 0.5, r as real + 0.5 - q;
    ScaleNonnegative(d, low);
    ScalePositive(d, high);
    var k := den * r;
    assert d * r as real == k as real;
    assert d * low == num as real - k as real + 0.5 * d;
    assert d * high == k as real - num as real + 0.5 * d;
    assert (2 * (num - k) + den) as real == 2.0 * (d * low);
    assert (2 * (k - num) + den) as real == 2.0 * (d * high);
  }

  lemma ScalePositive(t: real, d: real)
    requires t > 0.0 && d > 0.0
    ensures t * d > 0.0
  {
  }

  /** The ratings, each as often as its weight says. */
  function Points(mode: WeightingMode, ms: seq<RatedMetric>): nat {
    if ms == [] then 0
    else
      var m := ms[|ms| - 1];
      Points(mode, ms[..|ms| - 1]) + (if m.rating.Some? then m.rating.value * Unit(mode, m) else 0)
  }

  lemma {:induction false} ScoreIsPoints(mode: WeightingMode, ms: seq<RatedMetric>)
    ensures Score(mode, ms) * 10.0 == Points(mode, ms) as real
  {
    if ms != [] {
      var m, init := ms[|ms| - 1], ms[..|ms| - 1];
      ScoreIsPoints(mode, init);
      PartIsPoints(mode, m);
      hide Part, Unit;
      assert Score(mode, ms) == Score(mode, init) + Part(mode, m);
    }
  }

  lemma PartIsPoints(mode: WeightingMode, m: RatedMetric)
    ensures Part(mode, m) * 10.0 == (if m.rating.Some? then m.rating.value * Unit(mode, m) else 0) as real
  {
    if m.rating.Some? {
      var r, u := m.rating.value, Unit(mode, m);
      assert Part(mode, m) == r as real / 10.0 * u as real;
      hide *;
      ProductReal(r, u);
    }
  }

  lemma ProductReal(r: nat, u: nat)
    ensures r as real / 10.0 * u as real * 10.0 == (r * u) as real
  {
  }

  /** The rated rate is ten times the weighted mean of the ratings, rounded to the nearest integer. */
  lemma RatedRateIsMean(mode: WeightingMode, ms: seq<RatedMetric>)
    requires TotalWeight(mode, ms) > 0
    ensures IsNearest(RatedRate(mode, ms), 10 * Points(mode, ms), TotalWeight(mode, ms))
  {
    ScoreIsPoints(mode, ms);
    hide Score, Points, TotalWeight;
    var score, t := Score(mode, ms), TotalWeight(mode, ms) as real;
    assert score / t * 100.0 * t == score * 100.0;
    RoundIsNearest(score / t * 100.0, 10 * Points(mode, ms), TotalWeight(mode, ms));
  }

  function AtMost(n: nat, limit: nat): nat {
    if n < limit then n else limit
  }

  lemma CappedShare(n: nat, a: nat, part: real)
    requires a > 0 && part > 0.0
    ensures Min(n as real / a as real * part, part) * a as real == AtMost(n, a) as real * part
  {
    var share := n as real / a as real;
    assert share * a as real == n as real;
    if n < a {
      assert share < 1.0;
      ScalePositive(part, 1.0 - share);
    } else {
      assert share >= 1.0;
      ScaleNonnegative(part, share - 1.0);
    }
  }

  /** Without ratings, 70 points go by the share of workers and 30 by that of trainees among the active members. */
  lemma StaffingRateIsShare(p: Staffing)
    requires p.activeMembers > 0
    ensures
      var a := p.activeMembers;
      IsNearest(StaffingRate(p), 70 * AtMost(p.workers, a) + 30 * AtMost(p.trainees, a), a)
  {
    var a := p.activeMembers;
    CappedShare(p.workers, a, 70.0);
    CappedShare(p.trainees, a, 30.0);
    var x := Min(p.workers as real / a as real * 70.0, 70.0);
    var y := Min(p.trainees as real / a as real * 30.0, 30.0);
    hide Min, AtMost, Round;
    RoundIsNearest(x + y, 70 * AtMost(p.workers, a) + 30 * AtMost(p.trainees, a), a);
  }

  /**
   The published rate: ten times the weighted mean of the ratings once something is rated, and the share of
   workers and trainees before that, rounded to the nearest integer; 0 when there is nothing to divide by.
   */
  lemma PublishedRate(mode: WeightingMode, ms: seq<RatedMetric>, p: Staffing)
    ensures var rate, a := CompletionRate(mode, ms, p), p.activeMembers;
      if exists i :: 0 <= i < |ms| && ms[i].rating.Some? then
        if TotalWeight(mode, ms) == 0 then rate == 0 else IsNearest(rate, 10 * Points(mode, ms), TotalWeight(mode, ms))
      else
        if a == 0 then rate == 0 else IsNearest(rate, 70 * AtMost(p.workers, a) + 30 * AtMost(p.trainees, a), a)
  {
    RateIsPercentage(mode, ms, p);
    SomethingRatedIff(ms);
    if TotalWeight(mode, ms) > 0 {
      RatedRateIsMean(mode, ms);
    }
    if p.activeMembers > 0 {
      StaffingRateIsShare(p);
    }
    hide IsNearest, Points, TotalWeight, Score, AnyRated, AtMost;
  }

  lemma SomethingRatedIff(ms: seq<RatedMetric>)
    ensures AnyRated(ms) <==> exists i :: 0 <= i < |ms| && ms[i].rating.Some?
  {
    if m :| m in ms && m.rating.Some? {
      var i :| 0 <= i < |ms| && ms[i] == m;
    }
    if i :| 0 <= i < |ms| && ms[i].rating.Some? {
      assert ms[i] in ms;
    }
  }

  /** What the sums mean: each metric counts its weight in CUSTOM mode and 1 in EQUAL mode, times its rating. */
  lemma {:induction false} SumsOfOne(mode: WeightingMode, ms: seq<RatedMetric>, m: RatedMetric)
    ensures var w := if mode == CUSTOM then m.weight else 1;
      && TotalWeight(mode, ms + [m]) == TotalWeight(mode, ms) + w
      && Points(mode, ms + [m]) == Points(mode, ms) + (match m.rating case None => 0 case Some(r) => r * w)
  {
    assert (ms + [m])[..|ms|] == ms;
  }

  // ---------- Order ----------

  lemma {:induction false} TakeOut(mode: WeightingMode, ms: seq<RatedMetric>, k: nat)
    requires k < |ms|
    ensures TotalWeight(mode, ms) == TotalWeight(mode, Without(ms, k)) + Unit(mode, ms[k])
    ensures Score(mode, ms) == Score(mode, Without(ms, k)) + Part(mode, ms[k])
    decreases |ms|
  {
    hide Unit, Part;
    var n := |ms| - 1;
    var rest := Without(ms, k);
    if k == n {
      assert rest == ms[..n];
    } else {
      TakeOut(mode, ms[..n], k);
      assert Without(ms[..n], k) == rest[..n - 1];
      assert ms[..n][k] == ms[k];
      assert rest[n - 1] == ms[n];
    }
  }

  lemma {:induction false} OrderIrrelevant(mode: WeightingMode, a: seq<RatedMetric>, b: seq<RatedMetric>)
    requires multiset(a) == multiset(b)
    ensures TotalWeight(mode, a) == TotalWeight(mode, b) && Score(mode, a) == Score(mode, b)
    decreases |a|
  {
    hide Unit, Part;
    SameMembers(a, b);
    if a != [] {
      var k := MatchLast(a, b);
      TakeOut(mode, b, k);
      OrderIrrelevant(mode, a[..|a| - 1], Without(b, k));
    }
  }

  /** The rate does not depend on the order in which the metrics are fetched. */
  lemma RateIgnoresOrder(mode: WeightingMode, a: seq<RatedMetric>, b: seq<RatedMetric>, p: Staffing)
    requires multiset(a) == multiset(b)
    ensures CompletionRate(mode, a, p) == CompletionRate(mode, b, p)
  {
    OrderIrrelevant(mode, a, b);
    SameMembers(a, b);
  }

  // ---------- Monotonicity ----------

  /** b rates every metric at least as high as a, at the same weights. */
  ghost predicate RatedAtLeast(a: seq<RatedMetric>, b: seq<RatedMetric>) {
    && |a| == |b|
    && forall i :: 0 <= i < |a| ==>
         && a[i].weight == b[i].weight
         && (a[i].rating.Some? ==> b[i].rating.Some? && a[i].rating.value <= b[i].rating.value)
  }

  lemma {:induction false} ScoreMonotone(mode: WeightingMode, a: seq<RatedMetric>, b: seq<RatedMetric>)
    requires RatedAtLeast(a, b)
    ensures TotalWeight(mode, a) == TotalWeight(mode, b) && Score(mode, a) <= Score(mode, b)
  {
    if a != [] {
      var n := |a| - 1;
      ScoreMonotone(mode, a[..n], b[..n]);
      assert a[n].weight == b[n].weight;
      PartMonotone(mode, a[n], b[n]);
      assert Score(mode, a) == Score(mode, a[..n]) + Part(mode, a[n]);
      assert Score(mode, b) == Score(mode, b[..n]) + Part(mode, b[n]);
      hide Score, TotalWeight, Part;
    }
  }

  lemma PartMonotone(mode: WeightingMode, a: RatedMetric, b: RatedMetric)
    requires a.weight == b.weight
    requires a.rating.Some? ==> b.rating.Some? && a.rating.value <= b.rating.value
    ensures Part(mode, a) <= Part(mode, b)
  {
    var x, y, u := Share(a), Share(b), Unit(mode, a) as real;
    assert x <= y && Part(mode, a) == x * u && Part(mode, b) == y * u;
    hide *;
    ScaledMonotone(x, y, u, Part(mode, a), Part(mode, b));
  }

  lemma ScaledMonotone(x: real, y: real, u: real, p: real, q: real)
    requires x <= y && u >= 0.0 && p == x * u && q == y * u
    ensures p <= q
  {
    ScaleMonotone(x, y, u);
  }

  lemma ScaleMonotone(x: real, y: real, u: real)
    requires x <= y && u >= 0.0
    ensures x * u <= y * u
  {
    ScaleNonnegative(u, y - x);
    assert u * (y - x) == y * u - x * u;
  }

  lemma ScaledQuotientMonotone(x: real, y: real, t: real)
    requires x <= y && t > 0.0
    ensures x / t * 100.0 <= y / t * 100.0
  {
    assert y / t - x / t == (y - x) / t;
  }

  /** Once something is rated, raising ratings or rating more never lowers the rate. */
  lemma RateMonotone(mode: WeightingMode, a: seq<RatedMetric>, b: seq<RatedMetric>, p: Staffing)
    requires RatedAtLeast(a, b) && AnyRated(a)
    ensures CompletionRate(mode, a, p) <= CompletionRate(mode, b, p)
  {
    ScoreMonotone(mode, a, b);
    var m :| m in a && m.rating.Some?;
    var i :| 0 <= i < |a| && a[i] == m;
    assert b[i] in b && b[i].rating.Some?;
    if TotalWeight(mode, a) > 0 {
      var t := TotalWeight(mode, a) as real;
      ScaledQuotientMonotone(Score(mode, a), Score(mode, b), t);
      RoundMonotone(Score(mode, a) / t * 100.0, Score(mode, b) / t * 100.0);
    }
  }

  /** The department after its first rating: a 1 on metric k. */
  function FirstRated(a: seq<RatedMetric>, k: nat): (b: seq<RatedMetric>)
    requires k < |a|
    ensures |b| == |a|
  {
    a[k := a[k].(rating := Some(1))]
  }

  /** What that rating makes of the rate. */
  function FirstRate(mode: WeightingMode, a: seq<RatedMetric>, k: nat): int
    requires k < |a|
  {
    var total := TotalWeight(mode, a);
    if total > 0 then Round((10 * Unit(mode, a[k])) as real / total as real) else 0
  }

  lemma {:induction false} UnratedScore(mode: WeightingMode, a: seq<RatedMetric>)
    requires !AnyRated(a)
    ensures Score(mode, a) == 0.0
  {
    if a != [] {
      assert a[|a| - 1] in a;
      UnratedScore(mode, a[..|a| - 1]);
    }
  }

  lemma {:induction false} FirstRatedScore(mode: WeightingMode, a: seq<RatedMetric>, k: nat)
    requires !AnyRated(a) && k < |a|
    ensures TotalWeight(mode, FirstRated(a, k)) == TotalWeight(mode, a)
    ensures Score(mode, FirstRated(a, k)) == Unit(mode, a[k]) as real / 10.0
    decreases |a|
  {
    var n := |a| - 1;
    var b := FirstRated(a, k);
    assert a[n] in a;
    if k == n {
      UnratedScore(mode, a[..n]);
      assert b[..n] == a[..n];
    } else {
      FirstRatedScore(mode, a[..n], k);
      assert b[..n] == FirstRated(a[..n], k);
    }
  }

  lemma UnitAtMostTotal(mode: WeightingMode, a: seq<RatedMetric>, k: nat)
    requires k < |a|
    ensures Unit(mode, a[k]) <= TotalWeight(mode, a)
  {
    TakeOut(mode, a, k);
  }

  lemma TenthOfHundred(u: real, t: real)
    requires t > 0.0
    ensures u / 10.0 / t * 100.0 == 10.0 * u / t
  {
    assert 10.0 * u / t == (u / 10.0 * 100.0) / t;
  }

  lemma FirstRateAtMostTen(mode: WeightingMode, a: seq<RatedMetric>, k: nat)
    requires k < |a|
    ensures FirstRate(mode, a, k) <= 10
  {
    UnitAtMostTotal(mode, a, k);
    var u, total := Unit(mode, a[k]), TotalWeight(mode, a);
    if total > 0 {
      assert (10 * u) as real <= 10.0 * total as real;
      ShareAtMost((10 * u) as real, total as real, 10.0);
      RoundMonotone((10 * u) as real / total as real, 10.0);
    }
  }

  lemma ShareAtMost(x: real, t: real, bound: real)
    requires t > 0.0 && x <= bound * t
    ensures x / t <= bound
  {
    assert bound * t / t == bound by {
      CancelFactor(bound, t);
    }
  }

  /** The rate after the first rating, in closed form: at most 10, whatever the staffing was worth. */
  lemma FirstRatedRate(mode: WeightingMode, a: seq<RatedMetric>, k: nat, p: Staffing)
    requires !AnyRated(a) && k < |a|
    ensures AnyRated(FirstRated(a, k)) && CompletionRate(mode, FirstRated(a, k), p) == FirstRate(mode, a, k) <= 10
  {
    var b := FirstRated(a, k);
    assert b[k] in b;
    FirstRatedScore(mode, a, k);
    FirstRateAtMostTen(mode, a, k);
    if TotalWeight(mode, a) > 0 {
      TenthOfHundred(Unit(mode, a[k]) as real, TotalWeight(mode, a) as real);
    }
  }

  /** Whatever is rated later, the published rate does not fall. */
  ghost predicate NeverFalls(mode: WeightingMode, a: seq<RatedMetric>, p: Staffing) {
    forall b :: RatedAtLeast(a, b) ==> CompletionRate(mode, a, p) <= CompletionRate(mode, b, p)
  }

  /** Rating never lowers the rate exactly when something is rated, or a 1 anywhere makes up for the staffing rate. */
  lemma NeverFallsIff(mode: WeightingMode, a: seq<RatedMetric>, p: Staffing)
    ensures NeverFalls(mode, a, p) <==>
      a == [] || AnyRated(a) || forall k: nat :: k < |a| ==> CompletionRate(mode, a, p) <= FirstRate(mode, a, k)
  {
    if a == [] {
      assert NeverFalls(mode, a, p);
    } else if AnyRated(a) {
      forall b | RatedAtLeast(a, b) ensures CompletionRate(mode, a, p) <= CompletionRate(mode, b, p) {
        RateMonotone(mode, a, b, p);
      }
    } else {
      UnratedNeverFallsIff(mode, a, p);
    }
  }

  lemma UnratedNeverFallsIff(mode: WeightingMode, a: seq<RatedMetric>, p: Staffing)
    requires !AnyRated(a)
    ensures NeverFalls(mode, a, p) <==> forall k: nat :: k < |a| ==> CompletionRate(mode, a, p) <= FirstRate(mode, a, k)
  {
    hide CompletionRate, FirstRate;
    forall k: nat | k < |a|
      ensures RatedAtLeast(a, FirstRated(a, k)) && CompletionRate(mode, FirstRated(a, k), p) == FirstRate(mode, a, k)
    {
      assert a[k] in a;
      FirstRatedRate(mode, a, k, p);
    }
    forall b | RatedAtLeast(a, b)
      ensures !AnyRated(b) ==> CompletionRate(mode, b, p) == CompletionRate(mode, a, p)
      ensures AnyRated(b) ==> exists k: nat :: k < |a| && FirstRate(mode, a, k) <= CompletionRate(mode, b, p)
    {
      if AnyRated(b) {
        var k := SomeRated(b);
        FirstRatedRate(mode, a, k, p);
        StartsAtFirst(a, b, k);
        RateMonotone(mode, FirstRated(a, k), b, p);
      } else {
        UnratedRate(mode, a, b, p);
      }
    }
  }

  lemma SomeRated(b: seq<RatedMetric>) returns (k: nat)
    requires AnyRated(b)
    ensures k < |b| && b[k].rating.Some?
  {
    var m :| m in b && m.rating.Some?;
    k :| 0 <= k < |b| && b[k] == m;
  }

  lemma StartsAtFirst(a: seq<RatedMetric>, b: seq<RatedMetric>, k: nat)
    requires !AnyRated(a) && RatedAtLeast(a, b) && k < |b| && b[k].rating.Some?
    ensures RatedAtLeast(FirstRated(a, k), b)
  {
    assert forall i :: 0 <= i < |a| ==> a[i] in a;
  }

  lemma UnratedRate(mode: WeightingMode, a: seq<RatedMetric>, b: seq<RatedMetric>, p: Staffing)
    requires !AnyRated(a) && !AnyRated(b)
    ensures CompletionRate(mode, a, p) == CompletionRate(mode, b, p)
  {
  }

  /** Whatever the staffing, then, exactly a department that is rated, or has nothing to rate, never falls. */
  lemma NeverFallsForAnyStaffingIff(mode: WeightingMode, a: seq<RatedMetric>)
    ensures (forall p :: NeverFalls(mode, a, p)) <==> a == [] || AnyRated(a)
  {
    hide NeverFalls;
    forall p ensures a == [] || AnyRated(a) ==> NeverFalls(mode, a, p) {
      NeverFallsIff(mode, a, p);
    }
    if a != [] && !AnyRated(a) {
      var full := Staffing(1, 1, 1);
      NeverFallsIff(mode, a, full);
      FirstRateAtMostTen(mode, a, 0);
      FullStaffing(mode, a);
      assert !NeverFalls(mode, a, full);
    }
  }

  lemma FullStaffing(mode: WeightingMode, a: seq<RatedMetric>)
    requires !AnyRated(a)
    ensures CompletionRate(mode, a, Staffing(1, 1, 1)) == 100
  {
  }

  /** One unrated question and full staffing: a first rating of 1 takes the rate from 100 to 10. */
  lemma FirstRatingMayLower()
    ensures var a, b, p := [RatedMetric(0, None)], [RatedMetric(0, Some(1))], Staffing(1, 1, 1);
      RatedAtLeast(a, b) && CompletionRate(EQUAL, a, p) == 100 && CompletionRate(EQUAL, b, p) == 10
  {
    var b := [RatedMetric(0, Some(1))];
    assert b[0] in b && b[..0] == [];
    assert TotalWeight(EQUAL, b) == 1 && Score(EQUAL, b) == 0.1;
  }

  // ---------- Meaning ----------

  lemma {:induction false} UniformScore(mode: WeightingMode, ms: seq<RatedMetric>, r: Rating)
    requires forall i :: 0 <= i < |ms| ==> ms[i].rating == Some(r)
    ensures Score(mode, ms) == r as real / 10.0 * TotalWeight(mode, ms) as real
  {
    if ms != [] {
      UniformScore(mode, ms[..|ms| - 1], r);
    }
  }

  /** A department rated r on everything scores 10 r, whatever the weights. */
  lemma UniformRate(mode: WeightingMode, ms: seq<RatedMetric>, r: Rating, p: Staffing)
    requires TotalWeight(mode, ms) > 0
    requires forall i :: 0 <= i < |ms| ==> ms[i].rating == Some(r)
    ensures CompletionRate(mode, ms, p) == 10 * r
  {
    UniformScore(mode, ms, r);
    assert ms[0] in ms;
    UniformQuotient(r, Score(mode, ms), TotalWeight(mode, ms) as real);
  }

  lemma CancelFactor(x: real, t: real)
    requires t > 0.0
    ensures x * t / t == x
  {
  }

  lemma UniformQuotient(r: Rating, score: real, t: real)
    requires t > 0.0 && score == r as real / 10.0 * t
    ensures Round(score / t * 100.0) == 10 * r
  {
    var tenth := r as real / 10.0;
    CancelFactor(tenth, t);
    assert score / t == tenth;
    assert tenth * 100.0 == (10 * r) as real;
    assert score / t * 100.0 == tenth * 100.0;
  }

  lemma ScaleNonnegative(t: real, d: real)
    requires t >= 0.0 && d >= 0.0
    ensures t * d >= 0.0
  {
  }

  lemma ScaleBetween(t: real, x: real, y: real, whole: real)
    requires t >= 0.0 && x - 0.5 <= y <= x + 0.5 && t * x == whole
    ensures (whole - t / 2.0) / 10.0 <= t * (y / 10.0) <= (whole + t / 2.0) / 10.0
  {
    ScaleNonnegative(t, y - x + 0.5);
    ScaleNonnegative(t, x + 0.5 - y);
  }

  /** In equal mode the shown weights add up to 100 within n/20. */
  lemma DisplayedWeightsNear100(n: nat, m: RatedMetric)
    requires n > 0
    ensures var shown := n as real * DisplayedWeight(EQUAL, n, m);
      100.0 - n as real / 20.0 <= shown <= 100.0 + n as real / 20.0
  {
    var t := n as real;
    var x := 100.0 / t * 10.0;
    var y := Round(x) as real;
    assert x - 0.5 <= y <= x + 0.5;
    assert t * x == 1000.0;
    ScaleBetween(t, x, y, 1000.0);
  }

  function ShownTotal(ms: seq<RatedMetric>, n: nat): real
    requires n > 0
  {
    if ms == [] then 0.0 else ShownTotal(ms[..|ms| - 1], n) + DisplayedWeight(CUSTOM, n, ms[|ms| - 1])
  }

  /** In CUSTOM mode the shown weights add up to the total weight, which is 100 in every reachable state. */
  lemma {:induction false} CustomShownIsTotal(ms: seq<RatedMetric>, n: nat)
    requires n > 0
    ensures ShownTotal(ms, n) == TotalWeight(CUSTOM, ms) as real
  {
    if ms != [] {
      CustomShownIsTotal(ms[..|ms| - 1], n);
    }
  }

  // ---------- The fetched data ----------

  /** The rows of department d for one period, in some order of its questions. */
  ghost function Fetched(s: Db, d: DepartmentId, period: string, order: seq<QuestionId>): (ms: seq<RatedMetric>)
    requires forall i :: 0 <= i < |order| ==> Slot(d, order[i]) in s.metrics
    ensures |ms| == |order|
  {
    seq(|order|, i requires 0 <= i < |order| =>
      var row := s.metrics[Slot(d, order[i])];
      var key := EntryKey(d, row.id, period);
      RatedMetric(row.weight, if key in s.entries then Some(s.entries[key]) else None))
  }

  /** Each row comes with its own weight, and with the rating recorded for it in this period and department, if any. */
  lemma FetchedReads(s: Db, d: DepartmentId, period: string, order: seq<QuestionId>, k: nat)
    requires k < |order| && forall j :: 0 <= j < |order| ==> Slot(d, order[j]) in s.metrics
    ensures var m := Fetched(s, d, period, order)[k];
      && View(s, d)[order[k]] == m.weight
      && forall r :: m.rating == Some(r) <==>
           exists key :: key in s.entries && key.department == d && key.metric == s.metrics[Slot(d, order[k])].id
                         && key.period == period && s.entries[key] == r
  {
    var key := EntryKey(d, s.metrics[Slot(d, order[k])].id, period);
    var m := Fetched(s, d, period, order)[k];
    assert order[k] in View(s, d);
    forall r ensures m.rating == Some(r) <==>
      exists e :: e in s.entries && e.department == d && e.metric == key.metric && e.period == period
        && s.entries[e] == r
    {
      if e :| e in s.entries && e.department == d && e.metric == key.metric && e.period == period && s.entries[e] == r {
        assert e == key;
      }
    }
  }

  /** The rate is computed from the last rating recorded for each metric in the period. */
  lemma FetchedUsesLastRating(s: Db, d: DepartmentId, list: seq<Entry>, s': Db, order: seq<QuestionId>, i: nat, k: nat)
    requires AllOwned(s, d, list) && Step(s, RecordEntries(d, list), s')
    requires i < |list| && IsLast(d, list, i)
    requires k < |order| && forall j :: 0 <= j < |order| ==> Slot(d, order[j]) in s.metrics
    requires s.metrics[Slot(d, order[k])].id == list[i].metric
    ensures Fetched(s', d, list[i].period, order)[k].rating == Some(list[i].rating)
  {
    hide AllOwned, IsLast;
    assert KeyOf(d, list[i]) == EntryKey(d, s'.metrics[Slot(d, order[k])].id, list[i].period);
  }

  ghost predicate Enumerates(s: Db, d: DepartmentId, order: seq<QuestionId>) {
    && (forall i, j :: 0 <= i < j < |order| ==> order[i] != order[j])
    && View(s, d).Keys == set q | q in order
  }

  lemma {:induction false} CustomTotalIsSum(ms: seq<RatedMetric>, ws: seq<nat>)
    requires |ms| == |ws| && forall i :: 0 <= i < |ms| ==> ms[i].weight == ws[i]
    ensures TotalWeight(CUSTOM, ms) == Sums.SumSeq(ws)
  {
    if ms != [] {
      CustomTotalIsSum(ms[..|ms| - 1], ws[..|ws| - 1]);
    }
  }

  /**
   In every reachable state a CUSTOM department's weights total 100, in whatever order they are fetched,
   so its rate is the rounded sum of rating times weight over 10.
   */
  lemma ReachableCustomRate(trace: seq<Db>, ops: seq<Op>, n: nat, d: DepartmentId,
                            period: string, order: seq<QuestionId>, p: Staffing)
    requires Run(trace, ops) && trace[0] == EMPTY && n < |trace|
    requires d in trace[n].departments && trace[n].departments[d].mode == CUSTOM
    requires Enumerates(trace[n], d, order)
    ensures forall i :: 0 <= i < |order| ==> Slot(d, order[i]) in trace[n].metrics
    ensures var ms := Fetched(trace[n], d, period, order);
      && TotalWeight(CUSTOM, ms) == 100
      && (AnyRated(ms) ==> CompletionRate(CUSTOM, ms, p) == Round(Score(CUSTOM, ms)))
  {
    hide Run, Step, Inv;
    EmptyInv();
    RunKeepsInv(trace, ops, n);
    CustomRate(trace[n], d, period, order, p);
  }

  lemma CustomRate(s: Db, d: DepartmentId, period: string, order: seq<QuestionId>, p: Staffing)
    requires Inv(s) && d in s.departments && s.departments[d].mode == CUSTOM && Enumerates(s, d, order)
    ensures forall i :: 0 <= i < |order| ==> Slot(d, order[i]) in s.metrics
    ensures var ms := Fetched(s, d, period, order);
      && TotalWeight(CUSTOM, ms) == 100
      && (AnyRated(ms) ==> CompletionRate(CUSTOM, ms, p) == Round(Score(CUSTOM, ms)))
  {
    hide RefCounts, BankOk, RowsOk, EntriesOk;
    forall i | 0 <= i < |order|
      ensures order[i] in View(s, d) && Slot(d, order[i]) in s.metrics
    {
      assert order[i] in order;
    }
    assert Sums.SumMap(View(s, d)) == 100;
    var ms := Fetched(s, d, period, order);
    var ws := seq(|order|, i requires 0 <= i < |order| => View(s, d)[order[i]]);
    OrderedWeights(View(s, d), order, ws);
    CustomTotalIsSum(ms, ws);
    RateIsPercentage(CUSTOM, ms, p);
  }

  lemma OrderedWeights(view: map<QuestionId, nat>, order: seq<QuestionId>, ws: seq<nat>)
    requires forall i, j :: 0 <= i < j < |order| ==> order[i] != order[j]
    requires view.Keys == set q | q in order
    requires |ws| == |order| && forall i :: 0 <= i < |order| ==> order[i] in view && ws[i] == view[order[i]]
    ensures Sums.SumSeq(ws) == Sums.SumMap(view)
  {
    Sums.SumMapInOrder(view, order);
    assert ws == seq(|order|, i requires 0 <= i < |order| => assert order[i] in order; view[order[i]]);
  }
}
