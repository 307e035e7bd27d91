/**
 * The value axis: `calculateYRange` and the tick arithmetic of `ChartController.drawLabels` in
 * public/app.js.
 */
module Axis {
  import opened JsNumber

  /** The axis range: `start` and `end` are the bottom and top tick values, `step` their pitch. */
  datatype YRange = YRange(start: real, end: real, step: real)

  /** `Math.floor`. */
  function Floor(x: real): (f: int)
    ensures f as real <= x < f as real + 1.0
  {
    x.Floor
  }

  /** `Math.ceil`, through the floor of the negation. */
  function Ceil(x: real): (c: int)
    ensures c as real - 1.0 < x <= c as real
  {
    -Floor(-x)
  }

  /** `x` is a whole multiple of `step`. */
  predicate IsMultipleOf(x: real, step: real)
    requires step != 0.0
  {
    (x / step).Floor as real == x / step
  }

  /** The three tick pitches `calculateYRange` chooses between. */
  predicate IsAxisStep(step: real) {
    step == 10.0 || step == 25.0 || step == 50.0
  }

  /** The tick pitch chosen for a value range of width `range`. */
  function StepFor(range: real): (step: real)
    ensures IsAxisStep(step)
  {
    if range <= 50.0 then 10.0 else if range <= 100.0 then 25.0 else 50.0
  }

  lemma MultipleOfStep(k: int, step: real)
    requires IsAxisStep(step)
    ensures IsMultipleOf(k as real * step, step)
  {
    assert (k as real * step) / step == k as real;
  }

  /** Rounding `x / step` down and scaling back gives the largest multiple of `step` not above `x`. */
  lemma FloorToStep(x: real, step: real)
    requires IsAxisStep(step)
    ensures Floor(x / step) as real * step <= x < Floor(x / step) as real * step + step
    ensures IsMultipleOf(Floor(x / step) as real * step, step)
  {
    var k := Floor(x / step);
    MultipleOfStep(k, step);
    var m := k as real * step;
    assert IsMultipleOf(m, step);
    if step == 10.0 {
      assert Floor(x / step) as real * step <= x < Floor(x / step) as real * step + step;
    } else if step == 25.0 {
      assert Floor(x / step) as real * step <= x < Floor(x / step) as real * step + step;
    }
  }

  /** Rounding `x / step` up and scaling back gives the smallest multiple of `step` not below `x`. */
  lemma CeilToStep(x: real, step: real)
    requires IsAxisStep(step)
    ensures x <= Ceil(x / step) as real * step < x + step
    ensures IsMultipleOf(Ceil(x / step) as real * step, step)
  {
    var k := Ceil(x / step);
    MultipleOfStep(k, step);
    var m := k as real * step;
    assert IsMultipleOf(m, step);
    if step == 10.0 {
      assert x <= Ceil(x / step) as real * step < x + step;
    } else if step == 25.0 {
      assert x <= Ceil(x / step) as real * step < x + step;
    }
  }

  /**
   * `calculateYRange(minValue, maxValue)`. The step is 10, 25 or 50 by the width of the range;
   * `end` is the smallest multiple of the step not below `maxValue`; `start` is the largest
   * multiple of the step not above both `minValue` and 0. The start is never above zero, but
   * the end can be: `ZeroOnAxis` says when zero lies on the axis.
   */
  function CalculateYRange(minValue: real, maxValue: real): (r: YRange)
    ensures r.step == 10.0 <==> maxValue - minValue <= 50.0
    ensures r.step == 25.0 <==> 50.0 < maxValue - minValue <= 100.0
    ensures r.step == 50.0 <==> 100.0 < maxValue - minValue
    ensures IsAxisStep(r.step)
    ensures IsMultipleOf(r.start, r.step) && IsMultipleOf(r.end, r.step)
    ensures r.start <= minValue && r.start <= 0.0
    ensures minValue < r.start + r.step || 0.0 < r.start + r.step
    ensures minValue >= 0.0 ==> r.start == 0.0
    ensures maxValue <= r.end < maxValue + r.step
    ensures minValue <= maxValue ==> r.start <= r.end
    ensures minValue < maxValue ==> r.start < r.end
  {
    var step := StepFor(maxValue - minValue);
    var roundedMax := Ceil(maxValue / step) as real * step;
    CeilToStep(maxValue, step);
    var start := if minValue < 0.0 then Floor(minValue / step) as real * step else 0.0;
    FloorToStep(minValue, step);
    MultipleOfStep(0, step);
    YRange(start, roundedMax, step)
  }

  /** `Math.floor((end - start) / step) + 1`: the number of value-axis ticks. */
  function TickCount(r: YRange): int
    requires r.step != 0.0
  {
    Floor((r.end - r.start) / r.step) + 1
  }

  /** The value written next to tick `i`. */
  function TickValue(r: YRange, i: int): real {
    r.start + i as real * r.step
  }

  /**
   * For the range of an ordered pair of extremes the tick count is exact: there is at least one
   * tick, the ticks step from `start` by `step`, and the last one lands on `end`.
   */
  lemma TickCountExact(minValue: real, maxValue: real)
    requires minValue <= maxValue
    ensures TickCount(CalculateYRange(minValue, maxValue)) >= 1
    ensures (TickCount(CalculateYRange(minValue, maxValue)) - 1) as real * CalculateYRange(minValue, maxValue).step
            == CalculateYRange(minValue, maxValue).end - CalculateYRange(minValue, maxValue).start
    ensures TickValue(CalculateYRange(minValue, maxValue), TickCount(CalculateYRange(minValue, maxValue)) - 1)
            == CalculateYRange(minValue, maxValue).end
    ensures minValue < maxValue ==> TickCount(CalculateYRange(minValue, maxValue)) > 1
  {
    var r := CalculateYRange(minValue, maxValue);
    CountBetweenMultiples(r);
  }

  /** Between two ordered multiples of an axis step, the tick count covers the gap exactly. */
  lemma CountBetweenMultiples(r: YRange)
    requires IsAxisStep(r.step) && r.start <= r.end
    requires IsMultipleOf(r.start, r.step) && IsMultipleOf(r.end, r.step)
    ensures TickCount(r) >= 1
    ensures (TickCount(r) - 1) as real * r.step == r.end - r.start
    ensures TickValue(r, TickCount(r) - 1) == r.end
    ensures r.start < r.end ==> TickCount(r) > 1
  {
    var a := (r.start / r.step).Floor;
    var b := (r.end / r.step).Floor;
    if r.step == 10.0 {
      assert (r.end - r.start) / r.step == (b - a) as real;
    } else if r.step == 25.0 {
      assert (r.end - r.start) / r.step == (b - a) as real;
    } else {
      assert (r.end - r.start) / r.step == (b - a) as real;
    }
    assert TickCount(r) == b - a + 1;
  }

  /** `(height - 100) / (stepsCount - 1)`: the pixel pitch between ticks, unguarded. */
  function StepY(height: real, count: int): Num {
    Div(height - 100.0, (count - 1) as real)
  }

  /** `height - 50 - i * stepY`: the y-pixel of tick `i`. */
  function TickY(height: real, stepY: Num, i: nat): Num {
    Sub(Fin(height - 50.0), Mul(Fin(i as real), stepY))
  }

  /** A value-axis tick: its label value and the y-pixel of its label and grid line. */
  datatype Tick = Tick(value: real, y: Num)

  /** The ticks the `drawLabels` loop emits, bottom to top. */
  function Ticks(r: YRange, height: real): (ts: seq<Tick>)
    requires r.step != 0.0
  {
    var count := TickCount(r);
    var stepY := StepY(height, count);
    seq(if count > 0 then count else 0, i requires 0 <= i => Tick(TickValue(r, i), TickY(height, stepY, i)))
  }

  /** Multiplying by a positive factor keeps the order. */
  lemma ScaleMonotone(a: real, b: real, c: real)
    requires a < b && c > 0.0
    ensures a * c < b * c
  {
  }

  lemma PositiveQuotient(a: real, b: real)
    requires a > 0.0 && b > 0.0
    ensures a / b > 0.0
  {
  }

  /** With at least two ticks the pitch is finite and tick `i` sits `i` pitches above the bottom margin. */
  lemma TickYEvenlySpaced(height: real, count: int, i: nat)
    requires count > 1
    ensures StepY(height, count).Fin?
    ensures StepY(height, count).v * (count - 1) as real == height - 100.0
    ensures TickY(height, StepY(height, count), i) == Fin(height - 50.0 - i as real * StepY(height, count).v)
  {
  }

  /** The last of `count > 1` ticks sits on the top margin. */
  lemma LastTickOnTopMargin(height: real, count: int)
    requires count > 1
    ensures TickY(height, StepY(height, count), count - 1) == Fin(50.0)
  {
    TickYEvenlySpaced(height, count, count - 1);
  }

  /** On a canvas taller than its margins, tick `j` is strictly above tick `i < j`, and inside the margins. */
  lemma TicksClimb(height: real, count: int, i: nat, j: nat)
    requires count > 1 && height > 100.0 && i < j < count
    ensures TickY(height, StepY(height, count), j).v < TickY(height, StepY(height, count), i).v
    ensures 50.0 <= TickY(height, StepY(height, count), j).v <= height - 50.0
  {
    TickYEvenlySpaced(height, count, i);
    TickYEvenlySpaced(height, count, j);
    var pitch := StepY(height, count).v;
    assert pitch == (height - 100.0) / (count - 1) as real;
    PositiveQuotient(height - 100.0, (count - 1) as real);
    ScaleMonotone(i as real, j as real, pitch);
    if j < count - 1 {
      ScaleMonotone(j as real, (count - 1) as real, pitch);
    }
  }

  /** Tick `i` of `Ticks` carries the `i`-th tick value and y-pixel. */
  lemma TickAt(r: YRange, height: real, i: nat)
    requires r.step != 0.0 && i < TickCount(r)
    ensures |Ticks(r, height)| == TickCount(r)
    ensures Ticks(r, height)[i] == Tick(TickValue(r, i), TickY(height, StepY(height, TickCount(r)), i))
  {
  }

  /**
   * With more than one tick, every tick has a finite y-pixel, tick 0 sits on the bottom margin
   * and the last tick on the top margin.
   */
  lemma TicksSpanCanvas(r: YRange, height: real)
    requires r.step != 0.0 && TickCount(r) > 1
    ensures |Ticks(r, height)| == TickCount(r)
    ensures forall i :: 0 <= i < |Ticks(r, height)| ==> Ticks(r, height)[i].y.Fin?
    ensures Ticks(r, height)[0].y == Fin(height - 50.0)
    ensures Ticks(r, height)[TickCount(r) - 1].y == Fin(50.0)
  {
    var count := TickCount(r);
    forall i | 0 <= i < count
      ensures Ticks(r, height)[i].y.Fin?
    {
      TickAt(r, height, i);
      TickYEvenlySpaced(height, count, i);
    }
    TickAt(r, height, 0);
    TickYEvenlySpaced(height, count, 0);
    TickAt(r, height, count - 1);
    LastTickOnTopMargin(height, count);
  }

  /**
   * On a canvas taller than its margins, the ticks of a range with more than one tick climb
   * strictly from bottom to top and stay inside the margins.
   */
  lemma TicksClimbInsideMargins(r: YRange, height: real)
    requires r.step != 0.0 && TickCount(r) > 1 && height > 100.0
    ensures forall i, j :: 0 <= i < j < |Ticks(r, height)| ==> Ticks(r, height)[j].y.v < Ticks(r, height)[i].y.v
    ensures forall i :: 0 <= i < |Ticks(r, height)| ==> 50.0 <= Ticks(r, height)[i].y.v <= height - 50.0
  {
    var count := TickCount(r);
    forall i, j | 0 <= i < j < count
      ensures Ticks(r, height)[j].y.v < Ticks(r, height)[i].y.v
    {
      TickAt(r, height, i);
      TickAt(r, height, j);
      TicksClimb(height, count, i, j);
    }
    forall i | 0 <= i < count
      ensures 50.0 <= Ticks(r, height)[i].y.v <= height - 50.0
    {
      TickAt(r, height, i);
      TickYEvenlySpaced(height, count, 0);
      if i > 0 {
        TicksClimb(height, count, 0, i);
      }
    }
  }

  /**
   * With a single tick (all values 0, say) the pitch divides by zero, and the tick's y-pixel is
   * `height - 50 - 0 * stepY`, which is NaN whatever the height.
   */
  /**
   * Zero lies on the axis exactly when `maxValue > -step`. The start is never above zero, but an
   * all-negative series whose maximum is a step or more below zero gets an axis that ends below
   * zero: -50 .. -20 gives the axis -50 .. -20.
   */
  lemma {:induction false} ZeroOnAxis(minValue: real, maxValue: real)
    ensures var r := CalculateYRange(minValue, maxValue);
            r.start <= 0.0 && (0.0 <= r.end <==> -r.step < maxValue)
  {
    var r := CalculateYRange(minValue, maxValue);
    var k := Ceil(maxValue / r.step);
    assert r.end == k as real * r.step;
    if -r.step < maxValue {
      ZeroBelowMultiple(k, r.step);
    }
  }

  /** A multiple of a positive step that lies above `-step` is not negative. */
  lemma ZeroBelowMultiple(k: int, step: real)
    requires step > 0.0 && -step < k as real * step
    ensures 0.0 <= k as real * step
  {
  }

  /** Example: the all-negative range -50 .. -20 keeps zero off the axis. */
  lemma NegativeRangeExample()
    ensures CalculateYRange(-50.0, -20.0) == YRange(-50.0, -20.0, 10.0)
  {
  }

  lemma SingleTickHasNoPosition(r: YRange, height: real)
    requires r.step != 0.0 && TickCount(r) == 1
    ensures |Ticks(r, height)| == 1
    ensures Ticks(r, height)[0].value == r.start
    ensures Ticks(r, height)[0].y.NaN?
  {
    assert !StepY(height, 1).Fin?;
  }

  /** Example: values from -30 to 40 get step 25 and the axis -50 .. 50. */
  lemma RangeExample()
    ensures CalculateYRange(-30.0, 40.0) == YRange(-50.0, 50.0, 25.0)
    ensures TickCount(CalculateYRange(-30.0, 40.0)) == 5
  {
  }
}
