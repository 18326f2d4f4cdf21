/** The metric registry the exporter publishes: every registered series is
    identified by its metric name and its constant label map, and holds the
    last value written to it. Gauges are written by Set, the poll counter by Inc. */
module Metrics {

  /** The identity of one series: name plus labels. Two registrations with the
      same identity are refused by the registry. */
  datatype MetricId = MetricId(name: string, labels: map<string, string>)

  /** A fresh series of every identity in `ids`, each at its initial value 0. */
  function Zeros(ids: set<MetricId>): (m: map<MetricId, nat>)
    ensures m.Keys == ids
  {
    map id | id in ids :: 0
  }

  /** Registering two batches of fresh series one after the other is the same as
      registering their union. */
  lemma ZerosAdd(m: map<MetricId, nat>, a: set<MetricId>, b: set<MetricId>)
    ensures (m + Zeros(a)) + Zeros(b) == m + Zeros(a + b)
  {
    var l := (m + Zeros(a)) + Zeros(b);
    var r := m + Zeros(a + b);
    assert l.Keys == r.Keys;
    forall id | id in l
      ensures l[id] == r[id]
    {
    }
  }

  class Registry {
    /** Every registered series and its current value. */
    var series: map<MetricId, nat>

    constructor ()
      ensures series == map[]
    {
      series := map[];
    }

    /** promauto's NewGauge / NewCounter: a new series at 0. A second
        registration of the same identity is refused by the library, so it is
        excluded here. */
    method Register(id: MetricId)
      requires id !in series
      modifies this
      ensures series == old(series)[id := 0]
    {
      series := series[id := 0];
    }

    /** Gauge.Set: the series now holds `v`; no other series changes. */
    method Set(id: MetricId, v: nat)
      requires id in series
      modifies this
      ensures series == old(series)[id := v]
    {
      series := series[id := v];
    }

    /** Counter.Inc: the series goes up by exactly one; no other series changes. */
    method Inc(id: MetricId)
      requires id in series
      modifies this
      ensures series == old(series)[id := old(series)[id] + 1]
    {
      series := series[id := series[id] + 1];
    }
  }
}
