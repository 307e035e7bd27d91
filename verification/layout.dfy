/**
 * Pixel coordinates: the x positions of `drawLabels` and `drawLines`, the value-to-pixel map of
 * `drawLines`, and the x-label rotation rule, in public/app.js. The chart has fixed 50-pixel
 * margins on every side.
 */
module Layout {
  import opened JsNumber
  import opened Series
  import opened Axis

  /** `50 + index * stepX`: the x-pixel of point `index`. */
  function XPosition(index: nat, stepX: Num): Num {
    Add(Fin(50.0), Mul(Fin(index as real), stepX))
  }

  /**
   * `height - 50 - ((v - start) / (end - start)) * (height - 100)`: the y-pixel of value `v`
   * on the axis range `r`, with no guard for a flat range.
   */
  function ValueToY(v: real, r: YRange, height: real): Num {
    Sub(Fin(height - 50.0), Mul(Div(v - r.start, r.end - r.start), Fin(height - 100.0)))
  }

  /** A point marker: its centre and the value it shows on hover. */
  datatype Marker = Marker(x: Num, y: Num, value: real)

  /** A label under the x axis: the point's label text, its anchor, and whether it is turned 45 degrees. */
  datatype XLabel = XLabel(text: string, x: Num, y: real, rotated: bool)

  /** What `drawLabels` places: value ticks with grid lines from `gridX1` to `gridX2`, and x labels. */
  datatype LabelLayout = LabelLayout(ticks: seq<Tick>, gridX1: real, gridX2: real, xLabels: seq<XLabel>)

  /** X labels are rotated once a series has more points than this. */
  const RotateAbove := 8

  /**
   * The markers of `drawLines`, in series order; the polyline runs through their centres in the
   * same order.
   */
  function DrawLines(p: Prepared, height: real): (ms: seq<Marker>)
    ensures |ms| == |p.data|
    ensures forall i :: 0 <= i < |ms| ==> ms[i].value == p.data[i].value
  {
    var r := CalculateYRange(p.minValue, p.maxValue);
    seq(|p.data|, i requires 0 <= i < |p.data| =>
      Marker(XPosition(i, p.stepX), ValueToY(p.data[i].value, r, height), p.data[i].value))
  }

  /** The ticks, grid lines and x labels of `drawLabels`. */
  function DrawLabels(p: Prepared, width: real, height: real): (l: LabelLayout)
    ensures |l.xLabels| == |p.data|
    ensures forall i :: 0 <= i < |l.xLabels| ==> l.xLabels[i].text == p.data[i].x
    ensures forall i :: 0 <= i < |l.xLabels| ==> (l.xLabels[i].rotated <==> |p.data| > RotateAbove)
  {
    var r := CalculateYRange(p.minValue, p.maxValue);
    var rotated := |p.data| > RotateAbove;
    LabelLayout(
      Ticks(r, height), 50.0, width - 50.0,
      seq(|p.data|, i requires 0 <= i < |p.data| =>
        XLabel(p.data[i].x, XPosition(i, p.stepX), height - 30.0, rotated)))
  }

  /** The pitch `prepareData` computes for `n` points in a container of width `width`. */
  function Pitch(n: nat, width: real): real
    requires n > 1
  {
    (width - 100.0) / (n - 1) as real
  }

  /**
   * With the pitch of `n > 1` points, point 0 sits on the left margin, point `n - 1` on the right
   * margin, and on a container wider than its margins the points run strictly left to right.
   */
  lemma XSpansWidth(n: nat, width: real)
    requires n > 1
    ensures forall i :: 0 <= i < n ==> XPosition(i, Fin(Pitch(n, width))).Fin?
    ensures XPosition(0, Fin(Pitch(n, width))) == Fin(50.0)
    ensures XPosition(n - 1, Fin(Pitch(n, width))) == Fin(width - 50.0)
    ensures width > 100.0 ==>
              forall i, j :: 0 <= i < j < n ==> XPosition(i, Fin(Pitch(n, width))).v < XPosition(j, Fin(Pitch(n, width))).v
  {
    var pitch := Pitch(n, width);
    assert (n - 1) as real * pitch == width - 100.0;
    if width > 100.0 {
      PositiveQuotient(width - 100.0, (n - 1) as real);
      forall i, j | 0 <= i < j < n
        ensures XPosition(i, Fin(pitch)).v < XPosition(j, Fin(pitch)).v
      {
        ScaleMonotone(i as real, j as real, pitch);
      }
    }
  }

  /**
   * For a prepared series of more than one point, point 0 sits on the left margin and the last
   * point on the right margin; on a container wider than its margins the points run strictly
   * left to right.
   */
  lemma XPositionsSpanWidth<V>(raw: seq<RawPoint<V>>, width: real, toNumber: V -> Optional.Option<real>)
    requires |PrepareData(raw, width, toNumber).data| > 1
    ensures var p := PrepareData(raw, width, toNumber);
            && (forall i :: 0 <= i < |p.data| ==> XPosition(i, p.stepX).Fin?)
            && XPosition(0, p.stepX) == Fin(50.0)
            && XPosition(|p.data| - 1, p.stepX) == Fin(width - 50.0)
    ensures width > 100.0 ==>
            var p := PrepareData(raw, width, toNumber);
            forall i, j :: 0 <= i < j < |p.data| ==> XPosition(i, p.stepX).v < XPosition(j, p.stepX).v
  {
    var p := PrepareData(raw, width, toNumber);
    assert p.stepX == Fin(Pitch(|p.data|, width));
    XSpansWidth(|p.data|, width);
  }

  /**
   * A single surviving point has no x position: its pitch divided by zero, and
   * `50 + 0 * stepX` is NaN.
   */
  lemma SinglePointHasNoX<V>(raw: seq<RawPoint<V>>, width: real, toNumber: V -> Optional.Option<real>)
    requires |PrepareData(raw, width, toNumber).data| == 1
    ensures XPosition(0, PrepareData(raw, width, toNumber).stepX).NaN?
  {
  }

  lemma NonNegativeQuotient(a: real, b: real)
    requires a >= 0.0 && b > 0.0
    ensures a / b >= 0.0
  {
  }

  lemma NonNegativeProduct(a: real, b: real)
    requires a >= 0.0 && b >= 0.0
    ensures a * b >= 0.0
  {
  }

  /** A fraction between 0 and 1 of the plot height lands between the two margins. */
  lemma FractionOfPlot(t: real, height: real)
    requires 0.0 <= t <= 1.0 && height >= 100.0
    ensures 50.0 <= height - 50.0 - t * (height - 100.0) <= height - 50.0
  {
    var c := height - 100.0;
    NonNegativeProduct(t, c);
    NonNegativeProduct(1.0 - t, c);
    assert (1.0 - t) * c == c - t * c;
  }

  /** Dividing by a positive number keeps the order. */
  lemma QuotientMonotone(a: real, b: real, d: real)
    requires a < b && d > 0.0
    ensures a / d < b / d
  {
    PositiveQuotient(b - a, d);
    assert b / d - a / d == (b - a) / d;
  }

  lemma UnitQuotients(d: real)
    requires d > 0.0
    ensures d / d == 1.0 && 0.0 / d == 0.0
  {
  }

  /** Where `v` lies within the axis range, as a fraction: 0 at `start`, 1 at `end`. */
  function Fraction(v: real, r: YRange): real
    requires r.end > r.start
  {
    (v - r.start) / (r.end - r.start)
  }

  lemma FractionEnds(r: YRange)
    requires r.end > r.start
    ensures Fraction(r.start, r) == 0.0
    ensures Fraction(r.end, r) == 1.0
  {
    var d := r.end - r.start;
    assert Fraction(r.start, r) == 0.0 / d;
    assert Fraction(r.end, r) == d / d;
    UnitQuotients(d);
  }

  /** A value inside the axis range lies a fraction between 0 and 1 along it. */
  lemma FractionWithin(v: real, r: YRange)
    requires r.end > r.start && r.start <= v <= r.end
    ensures 0.0 <= Fraction(v, r) <= 1.0
  {
    var d := r.end - r.start;
    NonNegativeQuotient(v - r.start, d);
    NonNegativeQuotient(r.end - v, d);
    assert (r.end - v) / d == d / d - (v - r.start) / d;
    UnitQuotients(d);
  }

  /** For a non-flat range the value map is the finite affine map of the source formula. */
  lemma ValueToYFinite(v: real, r: YRange, height: real)
    requires r.end > r.start
    ensures ValueToY(v, r, height) == Fin(height - 50.0 - Fraction(v, r) * (height - 100.0))
  {
  }

  /** The value map takes `start` to the bottom margin and `end` to the top margin. */
  lemma ValueToYEndpoints(r: YRange, height: real)
    requires r.end > r.start
    ensures ValueToY(r.start, r, height) == Fin(height - 50.0)
    ensures ValueToY(r.end, r, height) == Fin(50.0)
  {
    FractionEnds(r);
    ValueToYFinite(r.start, r, height);
    ValueToYFinite(r.end, r, height);
  }

  /** On a canvas taller than its margins, a larger value is drawn strictly higher. */
  lemma ValueToYDecreasing(v: real, w: real, r: YRange, height: real)
    requires r.end > r.start && height > 100.0 && v < w
    ensures ValueToY(v, r, height).Fin? && ValueToY(w, r, height).Fin?
    ensures ValueToY(w, r, height).v < ValueToY(v, r, height).v
  {
    ValueToYFinite(v, r, height);
    ValueToYFinite(w, r, height);
    QuotientMonotone(v - r.start, w - r.start, r.end - r.start);
    ScaleMonotone(Fraction(v, r), Fraction(w, r), height - 100.0);
  }

  /** Every value of the axis range is drawn between the top and bottom margins. */
  lemma ValueToYInside(v: real, r: YRange, height: real)
    requires r.end > r.start && height >= 100.0 && r.start <= v <= r.end
    ensures ValueToY(v, r, height).Fin?
    ensures 50.0 <= ValueToY(v, r, height).v <= height - 50.0
  {
    var t := Fraction(v, r);
    ValueToYFinite(v, r, height);
    assert ValueToY(v, r, height).v == height - 50.0 - t * (height - 100.0);
    FractionWithin(v, r);
    FractionOfPlot(t, height);
  }

  /** A flat axis range (all values 0, say) leaves every value without a finite y-pixel. */
  lemma FlatRangeHasNoY(v: real, r: YRange, height: real)
    requires r.end == r.start
    ensures !ValueToY(v, r, height).Fin?
  {
  }

  /**
   * The whole plot: for a series of at least two points whose value axis is not flat, on a
   * canvas larger than its margins, every marker is finite, inside the margins, and right of the
   * previous one.
   */
  lemma PlotInsideCanvas<V>(raw: seq<RawPoint<V>>, width: real, height: real, toNumber: V -> Optional.Option<real>)
    requires width > 100.0 && height > 100.0
    requires |PrepareData(raw, width, toNumber).data| > 1
    requires var p := PrepareData(raw, width, toNumber);
             CalculateYRange(p.minValue, p.maxValue).start < CalculateYRange(p.minValue, p.maxValue).end
    ensures var ms := DrawLines(PrepareData(raw, width, toNumber), height);
            forall i :: 0 <= i < |ms| ==>
              && ms[i].x.Fin? && ms[i].y.Fin?
              && 50.0 <= ms[i].x.v <= width - 50.0
              && 50.0 <= ms[i].y.v <= height - 50.0
    ensures var ms := DrawLines(PrepareData(raw, width, toNumber), height);
            forall i, j :: 0 <= i < j < |ms| ==> ms[i].x.v < ms[j].x.v
  {
    var p := PrepareData(raw, width, toNumber);
    XPositionsSpanWidth(raw, width, toNumber);
    assert Bounded(p);
    MarkersWithinHeight(p, height);
    MarkersAcrossWidth(p, width, height);
  }

  /** Every marker of a bounded series on a non-flat axis lies between the vertical margins. */
  lemma MarkersWithinHeight(p: Prepared, height: real)
    requires Bounded(p) && height > 100.0
    requires CalculateYRange(p.minValue, p.maxValue).start < CalculateYRange(p.minValue, p.maxValue).end
    ensures var ms := DrawLines(p, height);
            forall i :: 0 <= i < |ms| ==> ms[i].y.Fin? && 50.0 <= ms[i].y.v <= height - 50.0
  {
    var r := CalculateYRange(p.minValue, p.maxValue);
    var ms := DrawLines(p, height);
    forall i | 0 <= i < |ms|
      ensures ms[i].y.Fin? && 50.0 <= ms[i].y.v <= height - 50.0
    {
      assert ms[i].y == ValueToY(p.data[i].value, r, height);
      ValueToYInside(p.data[i].value, r, height);
    }
  }

  /**
   * Every marker of a series with a finite pitch that runs from 50 to `width - 50` lies between
   * the horizontal margins, right of the markers before it.
   */
  lemma MarkersAcrossWidth(p: Prepared, width: real, height: real)
    requires |p.data| > 1
    requires forall i :: 0 <= i < |p.data| ==> XPosition(i, p.stepX).Fin?
    requires XPosition(0, p.stepX) == Fin(50.0)
    requires XPosition(|p.data| - 1, p.stepX) == Fin(width - 50.0)
    requires forall i, j :: 0 <= i < j < |p.data| ==> XPosition(i, p.stepX).v < XPosition(j, p.stepX).v
    ensures var ms := DrawLines(p, height);
            forall i :: 0 <= i < |ms| ==> ms[i].x.Fin? && 50.0 <= ms[i].x.v <= width - 50.0
    ensures var ms := DrawLines(p, height);
            forall i, j :: 0 <= i < j < |ms| ==> ms[i].x.v < ms[j].x.v
  {
    var ms := DrawLines(p, height);
    forall i | 0 <= i < |ms|
      ensures ms[i].x == XPosition(i, p.stepX)
      ensures 50.0 <= ms[i].x.v <= width - 50.0
    {
      assert ms[i].x == XPosition(i, p.stepX);
      if 0 < i {
        assert XPosition(0, p.stepX).v < XPosition(i, p.stepX).v;
      }
      if i < |ms| - 1 {
        assert XPosition(i, p.stepX).v < XPosition(|ms| - 1, p.stepX).v;
      }
    }
  }
}
