/** Recording and looking up through a declared metric (core/metrics/counter.go, distribution.go and
    the lookups of core/metrics/collector.go): both sides normalize the labels first. */
module MetricRecording {
  import opened ByteStrings
  import opened MetricSeries
  import opened MetricLabels
  import opened MetricLog
  import opened MetricCollectors

  function SeriesOf(m: Metric, labels: seq<Label>, sanitize: Bytes -> Bytes): Identity {
    Identity(m.name, Normalized(m, labels, sanitize))
  }

  /** `Counter.Add`: a negative delta is not recorded. */
  method CounterAdd(c: Collector, m: Metric, delta: int, labels: seq<Label>, sanitize: Bytes -> Bytes)
    requires c.Valid()
    modifies c, c.series.Values
    ensures c.Valid()
    ensures c.log == if delta < 0 then old(c.log) else old(c.log) + [Event(SeriesOf(m, labels, sanitize), Delta(delta))]
  {
    if delta < 0 {
      return;
    }
    var resolved := Normalize(m, labels, sanitize);
    c.Add(Identity(m.name, resolved), delta);
  }

  method DistributionObserve(c: Collector, m: Metric, value: real, labels: seq<Label>, sanitize: Bytes -> Bytes)
    requires c.Valid()
    modifies c, c.series.Values
    ensures c.Valid()
    ensures c.log == old(c.log) + [Event(SeriesOf(m, labels, sanitize), Measured(value))]
  {
    var resolved := Normalize(m, labels, sanitize);
    c.Observe(Identity(m.name, resolved), value);
  }

  method CounterValue(c: Collector, m: Metric, labels: seq<Label>, sanitize: Bytes -> Bytes) returns (v: int)
    requires c.Valid()
    ensures var id := SeriesOf(m, labels, sanitize);
            v == if IsAccepted(c.log, c.maxSeriesPerMetric, id) then Wrap(SumOfDeltas(c.log, id)) else 0
  {
    var looked := Normalize(m, labels, sanitize);
    v := c.Value(Identity(m.name, looked));
  }

  /** Two label lists reach the same series exactly when they agree on the declared keys: what one
      records the other looks up, and the series of different metrics never mix. */
  lemma LookupFindsRecording(m: Metric, a: seq<Label>, m': Metric, b: seq<Label>, sanitize: Bytes -> Bytes)
    requires m.name == m'.name ==> m == m'
    ensures SeriesKey(SeriesOf(m, a, sanitize)) == SeriesKey(SeriesOf(m', b, sanitize))
       <==> m == m' && forall key :: key in m.labelKeys ==> SameCleanValue(a, b, sanitize, key)
  {
    SeriesKeyInjective(SeriesOf(m, a, sanitize), SeriesOf(m', b, sanitize));
    SameSeriesIff(m, a, b, sanitize);
  }
}
