/** Metric families as the mutable objects the decoders build and the store shares, and what they
    say as values. */
module Objects {
  import opened Dto

  class LabelPair {
    var name: string
    var value: string

    constructor (name: string, value: string)
      ensures this.name == name && this.value == value
    {
      this.name, this.value := name, value;
    }
  }

  class Metric {
    var labels: seq<LabelPair>
    var timestampMs: Option<int>
    var payload: Payload

    constructor (labels: seq<LabelPair>, timestampMs: Option<int>, payload: Payload)
      ensures this.labels == labels && this.timestampMs == timestampMs && this.payload == payload
    {
      this.labels, this.timestampMs, this.payload := labels, timestampMs, payload;
    }
  }

  class MetricFamily {
    var name: string
    var help: string
    var typ: MetricType
    var metric: seq<Metric>

    constructor (name: string, help: string, typ: MetricType, metric: seq<Metric>)
      ensures this.name == name && this.help == help && this.typ == typ && this.metric == metric
    {
      this.name, this.help, this.typ, this.metric := name, help, typ, metric;
    }
  }

  // ------------------------------------------------------------ meaning

  function LabelsOf(ps: seq<LabelPair>): (r: seq<Label>)
    reads ps
    ensures |r| == |ps|
    ensures forall i :: 0 <= i < |ps| ==> r[i] == Label(ps[i].name, ps[i].value)
  {
    seq(|ps|, i requires 0 <= i < |ps| reads ps => Label(ps[i].name, ps[i].value))
  }

  function SampleOf(m: Metric): Sample
    reads m, m.labels
  {
    Sample(LabelsOf(m.labels), m.timestampMs, m.payload)
  }

  twostate lemma SampleUnchanged(m: Metric)
    requires unchanged(m) && forall p :: p in old(m.labels) ==> unchanged(p)
    ensures SampleOf(m) == old(SampleOf(m))
  {
    var a, b := LabelsOf(m.labels), old(LabelsOf(m.labels));
    forall i | 0 <= i < |a| ensures a[i] == b[i] { assert m.labels[i] in old(m.labels); }
    assert a == b;
  }

  function PairsIn(ms: seq<Metric>): (r: set<LabelPair>)
    reads ms
    ensures forall m :: m in ms ==> forall p :: p in m.labels ==> p in r
  {
    set m, p | m in ms && p in m.labels :: p
  }

  function SamplesOf(ms: seq<Metric>): (r: seq<Sample>)
    reads ms, PairsIn(ms)
    ensures |r| == |ms|
    ensures forall i :: 0 <= i < |ms| ==> r[i] == SampleOf(ms[i])
  {
    seq(|ms|, i requires 0 <= i < |ms| reads ms, PairsIn(ms) => assert ms[i] in ms; SampleOf(ms[i]))
  }

  function FamilyOf(f: MetricFamily): Family
    reads f, f.metric, PairsIn(f.metric)
  {
    Family(f.name, f.help, f.typ, SamplesOf(f.metric))
  }

  ghost function MetricsIn(fs: set<MetricFamily>): (r: set<Metric>)
    reads fs
    ensures forall f :: f in fs ==> forall m :: m in f.metric ==> m in r
  {
    set f, m | f in fs && m in f.metric :: m
  }

  ghost function AllPairsIn(fs: set<MetricFamily>): (r: set<LabelPair>)
    reads fs, MetricsIn(fs)
    ensures forall f :: f in fs ==> PairsIn(f.metric) <= r
  {
    set f, p | f in fs && p in PairsIn(f.metric) :: p
  }

  /** No metric occurs twice in the list, and no label pair twice in the same metric or in two. */
  ghost predicate TreeShaped(ms: seq<Metric>)
    reads ms
  {
    && (forall i, j :: 0 <= i < j < |ms| ==> Apart(ms[i], ms[j]))
    && (forall i :: 0 <= i < |ms| ==> DistinctPairs(ms[i].labels))
  }

  ghost predicate Apart(a: Metric, b: Metric)
    reads a, b
  {
    a != b && forall p :: p in a.labels ==> p !in b.labels
  }

  ghost predicate DistinctPairs(ps: seq<LabelPair>) {
    forall i, j :: 0 <= i < j < |ps| ==> ps[i] != ps[j]
  }
}
