/**
 * Series preparation and structural comparison: `DataController.prepareData` and
 * `deepCompareArrays` in public/app.js.
 */
module Series {
  import opened Optional
  import opened JsNumber

  /** One element of the `data` array a fetch delivers: a label and a value not yet coerced. */
  datatype RawPoint<V> = RawPoint(x: string, value: V)

  /** A point whose value survived numeric coercion. */
  datatype DataPoint = DataPoint(x: string, value: real)

  /** What `prepareData` returns: the surviving points, their extreme values and the x pitch. */
  datatype Prepared = Prepared(data: seq<DataPoint>, maxValue: real, minValue: real, stepX: Num)

  /**
   * The degenerate series returned when no point survives coercion.
   */
  const Empty := Prepared([], 0.0, 0.0, Fin(0.0))

  /**
   * The map-then-filter step of `prepareData`: every raw value is coerced to a number and the
   * points whose value became NaN are dropped. `toNumber` stands for the coercion followed by
   * the NaN test: None means the value coerced to NaN.
   */
  function Coerce<V>(raw: seq<RawPoint<V>>, toNumber: V -> Option<real>): (r: seq<DataPoint>)
    ensures |r| <= |raw|
  {
    if |raw| == 0 then []
    else
      var last := raw[|raw| - 1];
      var rest := Coerce(raw[..|raw| - 1], toNumber);
      match toNumber(last.value)
      case Some(v) => rest + [DataPoint(last.x, v)]
      case None => rest
  }

  /** The positions in `raw` whose value coerces to a number, in ascending order. */
  ghost function Survivors<V>(raw: seq<RawPoint<V>>, toNumber: V -> Option<real>): seq<int> {
    if |raw| == 0 then []
    else
      var rest := Survivors(raw[..|raw| - 1], toNumber);
      if toNumber(raw[|raw| - 1].value).Some? then rest + [|raw| - 1] else rest
  }

  /**
   * The coerced series is exactly the input points whose value coerces to a number, in source
   * order, each with its label unchanged and its coerced value.
   */
  lemma {:induction false} CoerceKeepsExactlyTheNumbers<V>(raw: seq<RawPoint<V>>, toNumber: V -> Option<real>)
    ensures |Survivors(raw, toNumber)| == |Coerce(raw, toNumber)|
    ensures forall k :: 0 <= k < |Survivors(raw, toNumber)| ==>
              0 <= Survivors(raw, toNumber)[k] < |raw|
              && raw[Survivors(raw, toNumber)[k]].x == Coerce(raw, toNumber)[k].x
              && toNumber(raw[Survivors(raw, toNumber)[k]].value) == Some(Coerce(raw, toNumber)[k].value)
    ensures forall k, l :: 0 <= k < l < |Survivors(raw, toNumber)| ==>
              Survivors(raw, toNumber)[k] < Survivors(raw, toNumber)[l]
    ensures forall j :: 0 <= j < |raw| ==>
              (j in Survivors(raw, toNumber) <==> toNumber(raw[j].value).Some?)
  {
    if |raw| > 0 {
      var prefix := raw[..|raw| - 1];
      CoerceKeepsExactlyTheNumbers(prefix, toNumber);
      assert forall j :: 0 <= j < |prefix| ==> prefix[j] == raw[j];
    }
  }

  /** `Math.max(...values)`. */
  function MaxValue(pts: seq<DataPoint>): (m: real)
    requires |pts| > 0
    ensures exists i :: 0 <= i < |pts| && pts[i].value == m
    ensures forall i :: 0 <= i < |pts| ==> pts[i].value <= m
  {
    if |pts| == 1 then pts[0].value
    else
      var front := pts[..|pts| - 1];
      var m := MaxValue(front);
      assert forall i :: 0 <= i < |front| ==> front[i] == pts[i];
      var last := pts[|pts| - 1].value;
      if last > m then last else m
  }

  /** `Math.min(...values)`. */
  function MinValue(pts: seq<DataPoint>): (m: real)
    requires |pts| > 0
    ensures exists i :: 0 <= i < |pts| && pts[i].value == m
    ensures forall i :: 0 <= i < |pts| ==> m <= pts[i].value
  {
    if |pts| == 1 then pts[0].value
    else
      var front := pts[..|pts| - 1];
      var m := MinValue(front);
      assert forall i :: 0 <= i < |front| ==> front[i] == pts[i];
      var last := pts[|pts| - 1].value;
      if last < m then last else m
  }

  /** minValue and maxValue are values of the series and bound every one of its values. */
  ghost predicate Bounded(p: Prepared) {
    && (exists i :: 0 <= i < |p.data| && p.data[i].value == p.minValue)
    && (exists i :: 0 <= i < |p.data| && p.data[i].value == p.maxValue)
    && (forall i :: 0 <= i < |p.data| ==> p.minValue <= p.data[i].value <= p.maxValue)
  }

  /**
   * `prepareData()`: coerce and filter, then take the extremes and the horizontal pitch
   * `(containerWidth - 100) / (n - 1)`. The division is unguarded, so a single surviving point
   * gives a non-finite pitch.
   */
  function PrepareData<V>(raw: seq<RawPoint<V>>, containerWidth: real, toNumber: V -> Option<real>): (p: Prepared)
    ensures p.data == Coerce(raw, toNumber)
    ensures |p.data| == 0 ==> p == Empty
    ensures |p.data| > 0 ==> Bounded(p)
    ensures |p.data| > 1 ==> p.stepX == Fin((containerWidth - 100.0) / (|p.data| - 1) as real)
    ensures |p.data| == 1 ==> !p.stepX.Fin?
  {
    var filtered := Coerce(raw, toNumber);
    if |filtered| == 0 then Empty
    else
      var maxValue := MaxValue(filtered);
      var minValue := MinValue(filtered);
      var stepX := Div(containerWidth - 100.0, (|filtered| - 1) as real);
      var p := Prepared(filtered, maxValue, minValue, stepX);
      assert Bounded(p);
      p
  }

  /** An input with no usable value gives the degenerate series. */
  lemma NothingUsableGivesEmpty<V>(raw: seq<RawPoint<V>>, width: real, toNumber: V -> Option<real>)
    requires forall j :: 0 <= j < |raw| ==> toNumber(raw[j].value).None?
    ensures PrepareData(raw, width, toNumber) == Empty
  {
    CoerceKeepsExactlyTheNumbers(raw, toNumber);
  }

  /** A value that does not coerce is dropped and the rest survive with their labels. */
  lemma InvalidValueIsDropped()
    ensures var toNumber := (s: string) => if s == "5" then Some(5.0) else None;
            PrepareData([RawPoint("a", "oops"), RawPoint("b", "5")], 800.0, toNumber).data == [DataPoint("b", 5.0)]
  {
  }

  /**
   * The container width only feeds the pitch: recomputing after a resize keeps the points and
   * their extremes.
   */
  lemma WidthOnlyAffectsPitch<V>(raw: seq<RawPoint<V>>, w1: real, w2: real, toNumber: V -> Option<real>)
    ensures PrepareData(raw, w1, toNumber).data == PrepareData(raw, w2, toNumber).data
    ensures PrepareData(raw, w1, toNumber).minValue == PrepareData(raw, w2, toNumber).minValue
    ensures PrepareData(raw, w1, toNumber).maxValue == PrepareData(raw, w2, toNumber).maxValue
  {
  }

  /**
   * The loop of `deepCompareArrays` from index `i` on: false at the first index whose label or
   * value differs, true when the end is reached.
   */
  function CompareFrom(a: seq<DataPoint>, b: seq<DataPoint>, i: nat): (same: bool)
    requires |a| == |b| && i <= |a|
    ensures same <==> forall k :: i <= k < |a| ==> a[k].x == b[k].x && a[k].value == b[k].value
    decreases |a| - i
  {
    if i == |a| then true
    else if a[i].x != b[i].x || a[i].value != b[i].value then false
    else CompareFrom(a, b, i + 1)
  }

  /**
   * `deepCompareArrays(a, b)`: two series are equal when they have the same length and the same
   * label and value at every index. Both arguments are always arrays here, so the
   * `Array.isArray` rejection never applies.
   */
  function DeepCompareArrays(a: seq<DataPoint>, b: seq<DataPoint>): (same: bool)
    ensures same <==> |a| == |b| && forall k :: 0 <= k < |a| ==> a[k].x == b[k].x && a[k].value == b[k].value
    ensures same <==> a == b
  {
    if |a| != |b| then false else CompareFrom(a, b, 0)
  }

  /** The comparison is reflexive and symmetric. */
  lemma DeepCompareIsEquivalence(a: seq<DataPoint>, b: seq<DataPoint>)
    ensures DeepCompareArrays(a, a)
    ensures DeepCompareArrays(a, b) == DeepCompareArrays(b, a)
  {
  }

  /** Order matters: swapping two different adjacent points is reported as a change. */
  lemma SwapIsAChange(s: seq<DataPoint>, i: nat)
    requires i + 1 < |s| && s[i] != s[i + 1]
    ensures !DeepCompareArrays(s[i := s[i + 1]][i + 1 := s[i]], s)
  {
    assert s[i := s[i + 1]][i + 1 := s[i]][i] != s[i];
  }
}
