/** The value axis of the dashboard's time chart, in exact numbers. */
module ChartAxis {

  /** 10 to the power e. */
  function PowerOfTen(e: int): (p: real)
    ensures p > 0.0
    decreases if e < 0 then -e else e
  {
    if e == 0 then 1.0
    else if e > 0 then 10.0 * PowerOfTen(e - 1)
    else PowerOfTen(e + 1) / 10.0
  }

  lemma TenTimesMore(e: int)
    ensures PowerOfTen(e + 1) == 10.0 * PowerOfTen(e)
  {
  }

  lemma {:induction false} PowersGrow(e: int, f: int)
    requires e <= f
    ensures PowerOfTen(e) <= PowerOfTen(f)
    decreases f - e
  {
    if e < f {
      PowersGrow(e, f - 1);
      TenTimesMore(f - 1);
    }
  }

  /** The floor of the decimal logarithm. */
  function FloorLog10(x: real): (e: int)
    requires x > 0.0
    ensures PowerOfTen(e) <= x < PowerOfTen(e + 1)
    decreases if x < 1.0 then 1 else 0, if x < 1.0 then (1.0 / x).Floor else x.Floor
  {
    if 1.0 <= x < 10.0 then 0
    else if x >= 10.0 then
      TenTimesMore(FloorLog10(x / 10.0));
      TenTimesMore(FloorLog10(x / 10.0) + 1);
      FloorLog10(x / 10.0) + 1
    else
      InverseShrinks(x);
      TenTimesMore(FloorLog10(x * 10.0) - 1);
      TenTimesMore(FloorLog10(x * 10.0));
      FloorLog10(x * 10.0) - 1
  }

  lemma InverseShrinks(x: real)
    requires 0.0 < x < 1.0
    ensures x * 10.0 < 1.0 ==> (1.0 / (x * 10.0)).Floor < (1.0 / x).Floor
  {
  }

  /** Steps that read well: 1, 2 or 5 times a power of ten. */
  ghost predicate IsNice(step: real) {
    exists e: int :: step == PowerOfTen(e) || step == 2.0 * PowerOfTen(e) || step == 5.0 * PowerOfTen(e)
  }

  function NiceFactor(normalized: real): real {
    if normalized <= 1.0 then 1.0
    else if normalized <= 2.0 then 2.0
    else if normalized <= 5.0 then 5.0
    else 10.0
  }

  function Rough(maxValue: real, targetTicks: int): real {
    maxValue / (if targetTicks - 1 > 1 then (targetTicks - 1) as real else 1.0)
  }

  function NiceAxisStep(maxValue: real, targetTicks: int): real {
    if maxValue <= 0.0 then 1.0
    else
      var rough := Rough(maxValue, targetTicks);
      assert rough > 0.0;
      var magnitude := PowerOfTen(FloorLog10(rough));
      NiceFactor(rough / magnitude) * magnitude
  }

  // The lemmas on products name each product, so that what uses them stays linear.

  lemma TimesKeepsOrder(a: real, b: real, m: real, am: real, bm: real)
    requires m > 0.0 && am == a * m && bm == b * m
    ensures a <= b <==> am <= bm
    ensures a < b <==> am < bm
  {
  }

  lemma Scaling(rough: real, m: real) returns (n: real)
    requires 0.0 < m <= rough < 10.0 * m
    ensures n == rough / m && rough == n * m
    ensures 1.0 <= n < 10.0
  {
    n := rough / m;
    TimesKeepsOrder(1.0, n, m, m, rough);
    TimesKeepsOrder(n, 10.0, m, rough, 10.0 * m);
  }

  /** How the step is made: a factor of 1, 2, 5 or 10 on the power of ten below the rough step. */
  lemma StepParts(maxValue: real, targetTicks: int, rough: real, step: real) returns (n: real, e: int, m: real)
    requires maxValue > 0.0
    requires rough == Rough(maxValue, targetTicks) && step == NiceAxisStep(maxValue, targetTicks)
    ensures 1.0 <= n < 10.0 && m == PowerOfTen(e)
    ensures rough == n * m && step == NiceFactor(n) * m
  {
    assert rough > 0.0;
    e := FloorLog10(rough);
    m := PowerOfTen(e);
    TenTimesMore(e);
    n := Scaling(rough, m);
  }

  lemma FactorBounds(n: real, m: real, rough: real, step: real)
    requires 1.0 <= n < 10.0 && m > 0.0 && rough == n * m && step == NiceFactor(n) * m
    ensures 0.0 < rough <= step < 2.5 * rough
  {
    var more := 2.5 * n;
    assert more * m == 2.5 * rough;
    TimesKeepsOrder(0.0, n, m, 0.0, rough);
    TimesKeepsOrder(n, NiceFactor(n), m, rough, step);
    TimesKeepsOrder(NiceFactor(n), more, m, step, 2.5 * rough);
  }

  /** The step covers the rough step and overshoots it by less than a factor of 2.5. */
  lemma StepBounds(maxValue: real, targetTicks: int, rough: real, step: real)
    requires maxValue > 0.0
    requires rough == Rough(maxValue, targetTicks) && step == NiceAxisStep(maxValue, targetTicks)
    ensures 0.0 < rough <= step < 2.5 * rough
  {
    var n, e, m := StepParts(maxValue, targetTicks, rough, step);
    FactorBounds(n, m, rough, step);
  }

  lemma NiceFactorIsNice(n: real, e: int, m: real, step: real)
    requires m == PowerOfTen(e) && step == NiceFactor(n) * m
    ensures IsNice(step)
  {
    TenTimesMore(e);
    assert step == PowerOfTen(e) || step == 2.0 * PowerOfTen(e) || step == 5.0 * PowerOfTen(e) || step == PowerOfTen(e + 1);
  }

  lemma NiceParts(other: real) returns (d: real, f: int, p: real)
    requires IsNice(other)
    ensures d == 1.0 || d == 2.0 || d == 5.0
    ensures p == PowerOfTen(f) && other == d * p
  {
    f :| other == PowerOfTen(f) || other == 2.0 * PowerOfTen(f) || other == 5.0 * PowerOfTen(f);
    p := PowerOfTen(f);
    d := if other == p then 1.0 else if other == 2.0 * p then 2.0 else 5.0;
  }

  lemma FarBelow(n: real, m: real, rough: real, d: real, p: real, other: real)
    requires 1.0 <= n && d < 10.0 && m > 0.0 && p > 0.0 && 10.0 * p <= m
    requires rough == n * m && other == d * p
    ensures other < rough
  {
    TimesKeepsOrder(d, 10.0, p, other, 10.0 * p);
    TimesKeepsOrder(1.0, n, m, m, rough);
  }

  lemma SameScale(n: real, m: real, rough: real, step: real, d: real, other: real)
    requires (d == 1.0 || d == 2.0 || d == 5.0) && m > 0.0
    requires rough == n * m && step == NiceFactor(n) * m && other == d * m
    requires rough <= other
    ensures step <= other
  {
  }

  lemma FarAbove(n: real, m: real, step: real, d: real, p: real, other: real)
    requires 1.0 <= d && m > 0.0 && p > 0.0 && 10.0 * m <= p
    requires step == NiceFactor(n) * m && other == d * p
    ensures step <= other
  {
  }

  lemma PowersApart(e: int, f: int, m: real, p: real)
    requires e < f && m == PowerOfTen(e) && p == PowerOfTen(f)
    ensures 10.0 * m <= p
  {
    TenTimesMore(e);
    PowersGrow(e + 1, f);
  }

  /** Between n times a power of ten and the nice factor of n times it there is no nice number. */
  lemma NoNiceBetween(n: real, e: int, m: real, rough: real, step: real, other: real)
    requires 1.0 <= n < 10.0 && m == PowerOfTen(e) && rough == n * m && step == NiceFactor(n) * m
    requires IsNice(other) && rough <= other
    ensures step <= other
  {
    var d, f, p := NiceParts(other);
    if f < e {
      PowersApart(f, e, p, m);
      FarBelow(n, m, rough, d, p, other);
    } else if f == e {
      SameScale(n, m, rough, step, d, other);
    } else {
      PowersApart(e, f, m, p);
      FarAbove(n, m, step, d, p, other);
    }
  }

  /** The step is the smallest nice number that is at least the rough step. */
  lemma StepIsLeastNice(maxValue: real, targetTicks: int, rough: real, step: real)
    requires maxValue > 0.0
    requires rough == Rough(maxValue, targetTicks) && step == NiceAxisStep(maxValue, targetTicks)
    ensures IsNice(step)
    ensures forall other :: IsNice(other) && rough <= other ==> step <= other
  {
    var n, e, m := StepParts(maxValue, targetTicks, rough, step);
    NiceFactorIsNice(n, e, m, step);
    forall other | IsNice(other) && rough <= other
      ensures step <= other
    {
      NoNiceBetween(n, e, m, rough, step, other);
    }
  }

  function Ceil(x: real): int {
    -((-x).Floor)
  }

  lemma TickCount(max: real, step: real, count: int, ceiling: real)
    requires max > 0.0 && max <= 4.0 * step && 4.0 * step < 2.5 * max
    requires count == Ceil(max / step) && ceiling == count as real * step
    ensures 2 <= count <= 4
    ensures max <= ceiling < max + step
  {
    var q := max / step;
    assert q * step == max;
    TimesKeepsOrder(q, 4.0, step, max, 4.0 * step);
    TimesKeepsOrder(1.0, q, step, step, max);
    var c := count as real;
    assert q <= c < q + 1.0;
    TimesKeepsOrder(q, c, step, max, ceiling);
    TimesKeepsOrder(c, q + 1.0, step, ceiling, max + step);
  }

  /** The k-th tick. */
  function Tick(k: nat, step: real): real {
    k as real * step
  }

  lemma NextTick(k: nat, count: nat, step: real, value: real, ceiling: real)
    requires step > 0.0 && value == Tick(k, step) && ceiling == Tick(count, step)
    ensures Tick(k + 1, step) == value + step
    ensures value <= ceiling <==> k <= count
  {
  }

  /** The loop: from zero, step by step, up to the ceiling. */
  method TicksUpTo(step: real, ceiling: real, ghost count: nat) returns (ticks: seq<real>)
    requires step > 0.0 && ceiling == Tick(count, step)
    ensures |ticks| == count + 1
    ensures forall i :: 0 <= i < |ticks| ==> ticks[i] == Tick(i, step)
  {
    ticks := [];
    var value := 0.0;
    while value <= ceiling
      invariant |ticks| <= count + 1
      invariant value == Tick(|ticks|, step)
      invariant forall i :: 0 <= i < |ticks| ==> ticks[i] == Tick(i, step)
      decreases count + 1 - |ticks|
    {
      NextTick(|ticks|, count, step, value, ceiling);
      ticks := ticks + [value];
      value := value + step;
    }
    NextTick(|ticks|, count, step, value, ceiling);
  }

  lemma FourSteps(max: real, rough: real, step: real)
    requires rough == max / 4.0 && 0.0 < rough <= step < 2.5 * rough
    ensures max <= 4.0 * step && 4.0 * step < 2.5 * max
  {
  }

  lemma AxisStep(max: real, step: real)
    requires max > 0.0 && step == NiceAxisStep(max, 5)
    ensures step > 0.0 && max <= 4.0 * step && 4.0 * step < 2.5 * max
  {
    StepBounds(max, 5, Rough(max, 5), step);
    FourSteps(max, Rough(max, 5), step);
  }

  predicate Covers(ticks: seq<real>, max: real, step: real) {
    && 3 <= |ticks| <= 5
    && (forall i :: 0 <= i < |ticks| ==> ticks[i] == Tick(i, step))
    && max <= ticks[|ticks| - 1] < max + step
  }

  /** Ticks up to the first multiple of the step that is not below the maximum. */
  method TicksCovering(max: real, step: real) returns (ticks: seq<real>)
    requires max > 0.0 && step > 0.0 && max <= 4.0 * step && 4.0 * step < 2.5 * max
    ensures Covers(ticks, max, step)
  {
    var count := Ceil(max / step);
    var ceiling := count as real * step;
    TickCount(max, step, count, ceiling);
    ticks := TicksUpTo(step, ceiling, count);
  }

  /** For every positive maximum: three to five evenly spaced ticks from zero that just cover it. */
  method BuildTimeChartYAxisTicks(maxRequestCount: real) returns (ticks: seq<real>)
    ensures maxRequestCount <= 0.0 ==> ticks == [0.0]
    ensures maxRequestCount > 0.0 ==> Covers(ticks, maxRequestCount, NiceAxisStep(maxRequestCount, 5))
  {
    if maxRequestCount <= 0.0 {
      return [0.0];
    }
    var step := NiceAxisStep(maxRequestCount, 5);
    AxisStep(maxRequestCount, step);
    ticks := TicksCovering(maxRequestCount, step);
  }

  /** The top of the axis. */
  method TimeChartYAxisCeiling(maxRequestCount: real) returns (top: real)
    ensures maxRequestCount <= 0.0 ==> top == 0.0
    ensures maxRequestCount > 0.0 ==> maxRequestCount <= top < maxRequestCount + NiceAxisStep(maxRequestCount, 5)
  {
    var ticks := BuildTimeChartYAxisTicks(maxRequestCount);
    top := ticks[|ticks| - 1];
  }
}
