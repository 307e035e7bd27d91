/**
 * `DataController`'s state and the polling loop of public/app.js, as pure steps: the fetch
 * outcome is an input, and each timer tick is one call of `PollTick`.
 */
module Poller {
  import opened Optional
  import opened JsNumber
  import opened Series

  /** A timer handle as `setInterval` returns it in a browser: never 0, so always truthy. */
  type Handle = h: int | h > 0 witness 1

  /** What one `fetch` plus `response.json()` delivered: the `data` array, or an exception. */
  datatype FetchOutcome<V> = Success(points: seq<RawPoint<V>>) | Failure

  /**
   * A `DataController`: the raw points of the last successful fetch, the endpoint, the width
   * used for the x pitch, the poll interval, the active timer, and the baseline
   * `processedData` — absent until the first tick, afterwards the last series handed on.
   */
  datatype Controller<V> = Controller(
    data: seq<RawPoint<V>>,
    url: string,
    containerWidth: real,
    updateInterval: int,
    intervalId: Option<Handle>,
    processedData: Option<seq<DataPoint>>)

  /** The `updateInterval` used when the constructor gets none. */
  const DefaultInterval := 5000

  /**
   * `new DataController(containerWidth, url, updateInterval)`: no data, no timer, no baseline. A
   * missing url becomes the empty string and a missing interval the default.
   */
  function NewController<V>(containerWidth: real, url: Option<string>, updateInterval: Option<int>): (c: Controller<V>)
    ensures c.data == [] && c.intervalId == None && c.processedData == None
    ensures c.containerWidth == containerWidth
    ensures url.Some? ==> c.url == url.value
    ensures url.None? ==> c.url == ""
    ensures updateInterval.Some? ==> c.updateInterval == updateInterval.value
    ensures updateInterval.None? ==> c.updateInterval == DefaultInterval
  {
    Controller([], if url.Some? then url.value else "", containerWidth,
               if updateInterval.Some? then updateInterval.value else DefaultInterval, None, None)
  }

  /** `setUrl(url)`: only the endpoint changes. */
  function SetUrl<V>(c: Controller<V>, url: string): (c': Controller<V>)
    ensures c'.url == url
    ensures c'.(url := c.url) == c
  {
    c.(url := url)
  }

  /** `fetchData()`'s value: the prepared series, or the `[]` it returns after an exception. */
  datatype FetchReply = Reply(series: Prepared) | EmptyArray

  datatype FetchResult<V> = FetchResult(next: Controller<V>, reply: FetchReply)

  /**
   * `fetchData()`: a successful fetch replaces the raw points and returns their preparation;
   * a failed one leaves the controller as it was and returns `[]`.
   */
  function FetchData<V>(c: Controller<V>, outcome: FetchOutcome<V>, toNumber: V -> Option<real>): (r: FetchResult<V>)
    ensures outcome.Failure? ==> r.next == c && r.reply == EmptyArray
    ensures outcome.Success? ==>
              r.next == c.(data := outcome.points)
              && r.reply == Reply(PrepareData(outcome.points, c.containerWidth, toNumber))
  {
    match outcome
    case Success(points) =>
      var next := c.(data := points);
      FetchResult(next, Reply(PrepareData(next.data, next.containerWidth, toNumber)))
    case Failure => FetchResult(c, EmptyArray)
  }

  /** The controller after one tick, and the series handed to `onDataUpdate`, if any. */
  datatype TickResult<V> = TickResult(next: Controller<V>, notified: Option<Prepared>)

  /**
   * The body of the `setInterval` callback in `startPolling`: fetch, re-prepare the held raw
   * points, then either seed the baseline (first tick) or compare against it and hand on the
   * series only when it differs.
   */
  function PollTick<V>(c: Controller<V>, outcome: FetchOutcome<V>, toNumber: V -> Option<real>): (r: TickResult<V>)
    ensures r.next.data == (if outcome.Success? then outcome.points else c.data)
    ensures r.next.(processedData := c.processedData, data := c.data) == c
    ensures r.next.processedData == Some(PrepareData(r.next.data, c.containerWidth, toNumber).data)
    ensures r.notified.Some? ==> r.notified.value == PrepareData(r.next.data, c.containerWidth, toNumber)
    ensures c.processedData.None? ==> r.notified.Some?
    ensures c.processedData.Some? ==>
              (r.notified.Some? <==> c.processedData.value != PrepareData(r.next.data, c.containerWidth, toNumber).data)
  {
    var fetched := FetchData(c, outcome, toNumber).next;
    var series := PrepareData(fetched.data, fetched.containerWidth, toNumber);
    match fetched.processedData
    case None => TickResult(fetched.(processedData := Some(series.data)), Some(series))
    case Some(baseline) =>
      if !DeepCompareArrays(series.data, baseline) then
        TickResult(fetched.(processedData := Some(series.data)), Some(series))
      else
        TickResult(fetched, None)
  }

  /**
   * Change suppression: a tick that sees the same data as the tick before it (the same payload
   * again, or a failed fetch) hands nothing on, so two such ticks notify at most once.
   */
  lemma RepeatedDataIsSilent<V>(c: Controller<V>, first: FetchOutcome<V>, second: FetchOutcome<V>, toNumber: V -> Option<real>)
    requires second == first || second.Failure?
    ensures PollTick(PollTick(c, first, toNumber).next, second, toNumber).notified == None
  {
    var c1 := PollTick(c, first, toNumber).next;
    var c2 := PollTick(c1, second, toNumber).next;
    assert c2.data == c1.data;
    assert c1.containerWidth == c.containerWidth;
  }

  /**
   * A failed fetch keeps the raw points, so the tick re-prepares exactly the series of the data
   * already held; it is handed on only if that differs from the baseline.
   */
  lemma FailedFetchKeepsSeries<V>(c: Controller<V>, toNumber: V -> Option<real>)
    ensures PollTick(c, Failure, toNumber).next.data == c.data
    ensures var r := PollTick(c, Failure, toNumber);
            r.notified.Some? ==> r.notified.value == PrepareData(c.data, c.containerWidth, toNumber)
    ensures c.processedData == Some(PrepareData(c.data, c.containerWidth, toNumber).data) ==>
              PollTick(c, Failure, toNumber) == TickResult(c, None)
  {
  }

  /** A change of one value after the first tick is handed on with the new series. */
  lemma ValueChangeIsNotified(c: Controller<real>)
    requires c.processedData == None
    ensures var toNumber := (v: real) => Some(v);
            var first := PollTick(c, Success([RawPoint("P1", 10.0)]), toNumber);
            var second := PollTick(first.next, Success([RawPoint("P1", 11.0)]), toNumber);
            && first.notified.Some?
            && second.notified.Some?
            && second.notified.value.data == [DataPoint("P1", 11.0)]
  {
  }

  /** Reordering the same points after the first tick counts as a change. */
  lemma ReorderIsNotified(c: Controller<real>)
    requires c.processedData == None
    ensures var toNumber := (v: real) => Some(v);
            var first := PollTick(c, Success([RawPoint("A", 1.0), RawPoint("B", 2.0)]), toNumber);
            PollTick(first.next, Success([RawPoint("B", 2.0), RawPoint("A", 1.0)]), toNumber).notified.Some?
  {
    assert [DataPoint("B", 2.0), DataPoint("A", 1.0)] != [DataPoint("A", 1.0), DataPoint("B", 2.0)] by {
      assert [DataPoint("B", 2.0), DataPoint("A", 1.0)][0] != [DataPoint("A", 1.0), DataPoint("B", 2.0)][0];
    }
  }

  /** `startPolling`: the new timer handle replaces whatever was held; nothing else changes. */
  function StartPolling<V>(c: Controller<V>, handle: Handle): (c': Controller<V>)
    ensures c'.intervalId == Some(handle)
    ensures c'.(intervalId := c.intervalId) == c
  {
    c.(intervalId := Some(handle))
  }

  /** The controller after `stopPolling`, and the handle passed to `clearInterval`, if any. */
  datatype StopResult<V> = StopResult(next: Controller<V>, cleared: Option<Handle>)

  /** `stopPolling()`: clear the active timer if there is one and forget its handle. */
  function StopPolling<V>(c: Controller<V>): (r: StopResult<V>)
    ensures r.next.intervalId == None
    ensures r.cleared == c.intervalId
    ensures r.next.(intervalId := c.intervalId) == c
  {
    if c.intervalId.Some? then StopResult(c.(intervalId := None), c.intervalId)
    else StopResult(c, None)
  }

  /** Stopping twice is the same as stopping once: the second call clears nothing. */
  lemma StopPollingIdempotent<V>(c: Controller<V>)
    ensures StopPolling(StopPolling(c).next) == StopResult(StopPolling(c).next, None)
  {
  }
}
