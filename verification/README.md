# line-chart: data path model

A Dafny model of the data path of `public/app.js` in the line-chart application. The application
polls an endpoint for a labelled numeric series, decides whether the series has really changed,
and draws it as an SVG line chart with a value axis rounded to 10, 25 or 50.

The model covers:

- **Series preparation** (`DataController.prepareData`): coerce each raw `{x, value}`, drop the
  ones that coerce to NaN, take the minimum and maximum, and compute the horizontal pitch
  `stepX = (containerWidth - 100) / (n - 1)`.
- **Change detection** (`deepCompareArrays`): same length, same label and value at every index.
- **The poll tick** (the `setInterval` callback of `startPolling`): a step function over the
  controller and its baseline `processedData`, with the fetch outcome as an input. Also the
  constructor, `setUrl`, `fetchData`, `startPolling`'s handle bookkeeping and `stopPolling`.
- **Axis scaling and coordinates** (`calculateYRange`, and the arithmetic of `drawLabels` and
  `drawLines`): tick count, tick values and y-pixels, x positions, the value-to-pixel map, and the
  rule that x labels are rotated above 8 points.

Modules: `Optional` (Option), `JsNumber` (JavaScript numbers), `Series`, `Axis`, `Layout`,
`Poller`.

JavaScript numbers are modelled by `JsNumber.Num`: an exact real, or one of `Infinity`,
`-Infinity` and `NaN`. The code divides without guards in three places: `stepX` when one point
survives, the tick pitch when there is one tick, and the value map when the axis range is flat
(all values 0, for one). The model keeps these divisions as written. The code has no
single-point guard: one surviving point makes `stepX` non-finite. The consequences are stated as lemmas:
`Layout.SinglePointHasNoX`, `Axis.SingleTickHasNoPosition` and `Layout.FlatRangeHasNoY`. The
positive properties carry `n > 1`, `count > 1` or `end > start` as preconditions instead.

The raw value coercion (`Number(v)` followed by `isNaN`) is a parameter `toNumber: V -> Option<real>`.
`None` means the value coerced to NaN. A fetch is an input `Success(points) | Failure`.

## Model

| member | source | states |
|---|---|---|
| `Series.CoerceKeepsExactlyTheNumbers` | public/app.js:16-19 | The filtered series is exactly the raw points whose value coerces to a number. They keep source order, their labels and their coerced values, and no coercible point is dropped. |
| `Series.NothingUsableGivesEmpty` | public/app.js:21-28 | If no raw value coerces, the result is the degenerate series: no points, min = max = 0, stepX = 0. |
| `Series.InvalidValueIsDropped` | public/app.js:16-19 | Worked example: `[{a, "oops"}, {b, "5"}]` prepares to the single point `{b, 5}`. |
| `Series.MaxValue` | public/app.js:32 | `Math.max` of the values is one of the values and bounds all of them from above. |
| `Series.MinValue` | public/app.js:33 | `Math.min` of the values is one of the values and bounds all of them from below. |
| `Series.PrepareData` | public/app.js:15-49 | The points are the coerced series. With no points the result is degenerate. Otherwise min and max are attained and bound every value. With n > 1 points, stepX is `(W-100)/(n-1)`. With one point, stepX is not finite, because the division is unguarded. |
| `Series.WidthOnlyAffectsPitch` | public/app.js:36-40 | The container width only affects stepX. Points, min and max are the same for every width, so a resize recomputes layout only. |
| `Series.CompareFrom` | public/app.js:366-371 | The comparison loop from index i returns true iff every later index has the same label and value in both series. |
| `Series.DeepCompareArrays` | public/app.js:357-372 | True iff the lengths match and every index has the same label and value. Equivalently, iff the two series are equal. |
| `Series.DeepCompareIsEquivalence` | public/app.js:364-371 | The comparison is reflexive and symmetric. |
| `Series.SwapIsAChange` | public/app.js:364-371 | Swapping two different adjacent points makes the comparison false, so order matters. |
| `JsNumber.Div` | public/app.js:40 | Division is finite iff the divisor is non-zero, and then the quotient times the divisor gives back the dividend. A zero divisor gives a signed infinity, or NaN for 0/0. |
| `Axis.CeilToStep` | public/app.js:344 | `ceil(x/step)*step` is the smallest multiple of the step that is not below x. |
| `Axis.FloorToStep` | public/app.js:351 | `floor(x/step)*step` is the largest multiple of the step that is not above x. |
| `Axis.CalculateYRange` | public/app.js:329-355 | The step is 10 iff the range is at most 50, 25 iff it is in (50, 100], and 50 above that. start and end are multiples of the step. start is the largest multiple not above both min and 0, and equals 0 when min >= 0. end is the smallest multiple not below max. min < max implies start < end. |
| `Axis.ZeroOnAxis` | public/app.js:342-354 | The axis start is never above zero, and zero lies on the axis iff max > -step. An all-negative series a step or more below zero gets an axis that stops below zero. |
| `Axis.NegativeRangeExample` | public/app.js:329-355 | Example: min -50 and max -20 give the axis -50..-20 with step 10, which does not include zero. |
| `Axis.RangeExample` | public/app.js:329-355 | Example: min -30 and max 40 give step 25, axis -50..50 and 5 ticks. |
| `Axis.TickCountExact` | public/app.js:149-154 | For min <= max there is at least one tick, and `(count-1)*step = end - start`. The last tick's value equals end, and min < max gives more than one tick. |
| `Axis.TickYEvenlySpaced` | public/app.js:150-155 | With count > 1 the pitch is finite, `pitch*(count-1) = height-100`, and tick i is at `height-50-i*pitch`. |
| `Axis.LastTickOnTopMargin` | public/app.js:150-155 | With count > 1 the last tick is at y = 50. |
| `Axis.TicksClimb` | public/app.js:150-155 | With count > 1 and height > 100, a later tick is strictly higher and stays within [50, height-50]. |
| `Axis.TicksSpanCanvas` | public/app.js:149-155 | With more than one tick, drawLabels emits `count` ticks, all with finite y-pixels. Tick 0 is at height-50 and the last at 50. |
| `Axis.TicksClimbInsideMargins` | public/app.js:149-155 | With more than one tick and a height over 100, the ticks strictly climb and stay within [50, height-50]. |
| `Axis.SingleTickHasNoPosition` | public/app.js:149-155 | With exactly one tick, that tick's value is start and its y-pixel is NaN, because the pitch divides by zero. |
| `Layout.DrawLines` | public/app.js:204-219 | One marker per point, in series order, each carrying that point's value. |
| `Layout.DrawLabels` | public/app.js:178-188 | One x label per point, carrying that point's label. Labels are rotated iff the series has more than 8 points. |
| `Layout.XSpansWidth` | public/app.js:204-205 | With the pitch for n > 1 points, x is finite, point 0 is at 50 and point n-1 at W-50. For W > 100, x strictly increases with the index. |
| `Layout.XPositionsSpanWidth` | public/app.js:178-179 | For a prepared series of more than one point, the x labels and markers start at 50 and end at W-50, strictly increasing when W > 100. |
| `Layout.SinglePointHasNoX` | public/app.js:40 | A prepared series with one point puts it at x = NaN, since `50 + 0*stepX` with a non-finite stepX is NaN. |
| `Layout.ValueToYEndpoints` | public/app.js:208 | For end > start, the value map sends start to height-50 and end to 50. |
| `Layout.ValueToYDecreasing` | public/app.js:208 | For end > start and height > 100, a larger value gets a strictly smaller y-pixel. |
| `Layout.ValueToYInside` | public/app.js:208 | For end > start and height >= 100, every value in [start, end] maps into [50, height-50]. |
| `Layout.FlatRangeHasNoY` | public/app.js:208 | For end = start, no value gets a finite y-pixel. |
| `Layout.MarkersWithinHeight` | public/app.js:197-208 | For a bounded series on a non-flat axis and a height over 100, every marker's y is finite and within [50, height-50]. |
| `Layout.MarkersAcrossWidth` | public/app.js:204-205 | When the x positions run strictly from 50 to width-50, every marker's x is finite, within [50, width-50], and right of the markers before it. |
| `Layout.PlotInsideCanvas` | public/app.js:195-220 | For a prepared series with at least two points whose axis is not flat (start < end, which includes constant series such as all 5s), on a canvas over 100 pixels each way, every marker is finite and inside the margins, and markers run strictly left to right. |
| `Poller.NewController` | public/app.js:2-8 | A new controller has no data, no timer and no baseline. A missing url becomes "" and a missing interval becomes 5000. |
| `Poller.SetUrl` | public/app.js:10-12 | Only the endpoint changes. |
| `Poller.FetchData` | public/app.js:52-62 | Success replaces the raw points and returns their preparation. Failure leaves the controller unchanged and returns `[]`. |
| `Poller.PollTick` | public/app.js:64-99 | Only the raw data and the baseline change. The first tick always notifies. Later ticks notify iff the new series differs from the baseline. Any notification carries the new series, and afterwards the baseline equals the new series' points. |
| `Poller.RepeatedDataIsSilent` | public/app.js:83-97 | After any tick, a second tick does not notify if it gets the same payload or its fetch fails. So two ticks with identical data notify at most once. |
| `Poller.FailedFetchKeepsSeries` | public/app.js:53-72 | A failed fetch keeps the raw points, so the tick re-prepares the same series. If the baseline already holds it, the tick changes nothing and notifies nothing. |
| `Poller.ValueChangeIsNotified` | public/app.js:83-94 | Worked example: after `[{P1, 10}]`, the series `[{P1, 11}]` is handed on. |
| `Poller.ReorderIsNotified` | public/app.js:83-94 | Worked example: after `[{A,1},{B,2}]`, the reordered `[{B,2},{A,1}]` is handed on. |
| `Poller.StartPolling` | public/app.js:64-65 | The new timer handle replaces the held one, and nothing else changes. |
| `Poller.StopPolling` | public/app.js:103-108 | The handle is cleared and the held handle, if any, is the one passed to clearInterval. Nothing else changes. |
| `Poller.StopPollingIdempotent` | public/app.js:103-108 | A second stop clears nothing and changes nothing. |

## Left out

- server.js: the Express static server and `generateRandomData`, which draws from `Math.random`. It is I/O and randomness.
- `fetch`, `response.json()`, `setInterval` timing and async interleaving are left out. One tick is one `Poller.PollTick` call, run to completion. A fetch is the input `Success(points) | Failure`.
- A response whose `data` is missing or is not an array (`null`, an object) is left out. It is stored as is; the `prepareData` call in `fetchData` then throws inside the try block, and the tick's own `prepareData` throws again outside any try block. That is a runtime failure, not modelled behaviour. A fetch is either `Success` with an array of points or `Failure`.
- The `typeof onDataUpdate === 'function'` test is left out. `notified` says the series would be handed to the callback when one is registered.
- `this.rawData` is left out: the tick assigns it and nothing reads it.
- The non-array branch of `deepCompareArrays` is left out. Both arguments are always arrays here, and the model's sequences cannot be anything else.
- `Number()` string parsing is abstracted into the `toNumber` parameter. Its quirks (`""` becomes 0, `Infinity` passes the NaN filter) are not modelled. Surviving values are exact reals.
- IEEE-754 rounding and signed zero are not modelled: finite arithmetic is exact over `real`. A zero divisor is `+0` except in the value map for a series whose values are all `-0`: there `end - start` is `-0`, but the dividend is `±0` too, so the result is NaN either way, as `JsNumber.Div` gives for 0/0.
- DOM and SVG construction, `innerHTML`, the attribute strings and the polyline's `"x,y "` text, `Math.round` on tick label text, and the duplicated draw calls in `drawChart` are left out. So are the tooltip handlers, the Update button, which builds a fresh controller, and the resize wiring. `Series.WidthOnlyAffectsPitch` states what a resize recomputes.
- Calling `startPolling` twice without a stop just overwrites the handle, as `Poller.StartPolling` shows. The first timer keeps running, but timer scheduling is outside the model.
- The grid lines use the chart container's `clientWidth`, while `stepX` uses the controller's `containerWidth`. The model takes both as given numbers.
