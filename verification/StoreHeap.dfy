/** The store's maps as shared, mutable objects, and what they mean as values. */
module StoreHeap {
  import opened Dto
  import opened LabelSpec
  import opened Objects
  import opened Sanitizer
  import opened StoreSpec

  /** The second level of the store: a map object shared by everybody who holds the group. */
  class MetricsMap {
    var m: map<string, Stamped<MetricFamily>>

    constructor (m: map<string, Stamped<MetricFamily>>)
      ensures this.m == m
    {
      this.m := m;
    }
  }

  datatype MetricGroup = MetricGroup(labels: Labels, metrics: MetricsMap)

  /** The first level of the store, keyed by grouping key. */
  type GroupMap = map<string, MetricGroup>

  ghost function MapsIn(g: GroupMap): set<MetricsMap> {
    set k | k in g :: g[k].metrics
  }

  ghost predicate DistinctMaps(g: GroupMap) {
    forall j, k :: j in g && k in g && j != k ==> g[j].metrics != g[k].metrics
  }

  /** The store down to, but not into, the family objects. */
  ghost function ShallowOf(g: GroupMap): Store<MetricFamily>
    reads MapsIn(g)
  {
    map k | k in g :: Group(g[k].labels, g[k].metrics.m)
  }

  ghost function FamiliesIn(s: Store<MetricFamily>): set<MetricFamily> {
    set k, n | k in s && n in s[k].metrics :: s[k].metrics[n].family
  }

  ghost function DeepMetrics(ms: map<string, Stamped<MetricFamily>>): map<string, Stamped<Family>>
    reads Ranged(ms), MetricsIn(Ranged(ms)), AllPairsIn(Ranged(ms))
  {
    map n | n in ms :: assert ms[n].family in Ranged(ms); Stamped(ms[n].timestamp, FamilyOf(ms[n].family))
  }

  ghost function Ranged(ms: map<string, Stamped<MetricFamily>>): set<MetricFamily> {
    set n | n in ms :: ms[n].family
  }

  /** The store as family values. */
  ghost function DeepOf(s: Store<MetricFamily>): Store<Family>
    reads FamiliesIn(s), MetricsIn(FamiliesIn(s)), AllPairsIn(FamiliesIn(s))
  {
    map k | k in s :: Group(s[k].labels, DeepMetrics(s[k].metrics))
  }

  ghost function DeepFamilies(fs: map<string, MetricFamily>): map<string, Family>
    reads fs.Values, MetricsIn(fs.Values), AllPairsIn(fs.Values)
  {
    map n | n in fs :: assert fs[n] in fs.Values; FamilyOf(fs[n])
  }

  // ------------------------------------------------------------ families nobody wrote to

  /** Neither the family nor anything it reaches has been written. */
  twostate predicate Untouched(f: MetricFamily)
    reads f, f.metric, PairsIn(f.metric)
  {
    unchanged(f) && (forall m :: m in f.metric ==> unchanged(m)) && forall p :: p in PairsIn(f.metric) ==> unchanged(p)
  }

  twostate lemma UntouchedFamily(f: MetricFamily)
    requires Untouched(f)
    ensures FamilyOf(f) == old(FamilyOf(f))
  {
    var a, b := SamplesOf(f.metric), old(SamplesOf(f.metric));
    forall i | 0 <= i < |a| ensures a[i] == b[i] {
      assert f.metric[i] in f.metric;
      assert forall p :: p in f.metric[i].labels ==> p in PairsIn(f.metric);
      SampleUnchanged(f.metric[i]);
    }
    assert a == b;
  }

  twostate lemma UntouchedStore(s: Store<MetricFamily>)
    requires forall f :: f in FamiliesIn(s) ==> Untouched(f)
    ensures DeepOf(s) == old(DeepOf(s))
  {
    forall k | k in s ensures DeepMetrics(s[k].metrics) == old(DeepMetrics(s[k].metrics)) {
      forall n | n in s[k].metrics ensures FamilyOf(s[k].metrics[n].family) == old(FamilyOf(s[k].metrics[n].family)) {
        assert s[k].metrics[n].family in FamiliesIn(s);
        UntouchedFamily(s[k].metrics[n].family);
      }
    }
    assert DeepOf(s) == old(DeepOf(s));
  }

  twostate predicate Unwritten(o: object)
    reads o
  {
    unchanged(o)
  }

  /** The same, when no family, metric or label pair at all has been written. */
  twostate lemma SparedStore(s: Store<MetricFamily>)
    requires forall f: MetricFamily :: old(allocated(f)) ==> Unwritten(f)
    requires forall m: Metric :: old(allocated(m)) ==> Unwritten(m)
    requires forall p: LabelPair :: old(allocated(p)) ==> Unwritten(p)
    ensures DeepOf(s) == old(DeepOf(s))
  {
    forall f | f in FamiliesIn(s) ensures Untouched(f) {
      assert Unwritten(f);
      forall m | m in f.metric ensures unchanged(m) { assert Unwritten(m); }
      forall p | p in PairsIn(f.metric) ensures unchanged(p) { assert Unwritten(p); }
    }
    UntouchedStore(s);
  }

  twostate lemma UntouchedFamilies(fs: map<string, MetricFamily>)
    requires forall n :: n in fs ==> Untouched(fs[n])
    ensures DeepFamilies(fs) == old(DeepFamilies(fs))
  {
    forall n | n in fs ensures FamilyOf(fs[n]) == old(FamilyOf(fs[n])) { UntouchedFamily(fs[n]); }
    assert DeepFamilies(fs) == old(DeepFamilies(fs));
  }

  twostate lemma SparedFamilies(fs: map<string, MetricFamily>)
    requires forall f: MetricFamily :: old(allocated(f)) ==> Unwritten(f)
    requires forall m: Metric :: old(allocated(m)) ==> Unwritten(m)
    requires forall p: LabelPair :: old(allocated(p)) ==> Unwritten(p)
    ensures DeepFamilies(fs) == old(DeepFamilies(fs))
  {
    forall n | n in fs ensures Untouched(fs[n]) {
      assert Unwritten(fs[n]);
      forall m | m in fs[n].metric ensures unchanged(m) { assert Unwritten(m); }
      forall p | p in PairsIn(fs[n].metric) ensures unchanged(p) { assert Unwritten(p); }
    }
    UntouchedFamilies(fs);
  }

  // ------------------------------------------------------------ updates commute with meaning

  lemma DeepDelete(s: Store<MetricFamily>, key: string)
    ensures DeepOf(s - {key}) == DeepOf(s) - {key}
  {}

  lemma DeepKept(s: Store<MetricFamily>, key: string, replace: bool)
    ensures DeepMetrics(Kept(s, key, replace)) == Kept(DeepOf(s), key, replace)
  {
    assert DeepMetrics(Kept(s, key, replace)) == Kept(DeepOf(s), key, replace);
  }

  lemma DeepStamped(kept: map<string, Stamped<MetricFamily>>, all: map<string, MetricFamily>, ts: Time)
    ensures DeepMetrics(kept + StampAll(all, ts)) == DeepMetrics(kept) + StampAll(DeepFamilies(all), ts)
  {
    assert DeepMetrics(kept + StampAll(all, ts)) == DeepMetrics(kept) + StampAll(DeepFamilies(all), ts);
  }

  lemma DeepReplaceGroup(s: Store<MetricFamily>, key: string, g: Group<MetricFamily>)
    ensures DeepOf(s[key := g]) == DeepOf(s)[key := Group(g.labels, DeepMetrics(g.metrics))]
  {
    assert DeepOf(s[key := g]) == DeepOf(s)[key := Group(g.labels, DeepMetrics(g.metrics))];
  }

  lemma DeepPutAll(s: Store<MetricFamily>, key: string, labels: Labels, ts: Time, all: map<string, MetricFamily>, replace: bool)
    ensures DeepOf(PutAll(s, key, labels, ts, all, replace))
            == PutAll(DeepOf(s), key, labels, ts, DeepFamilies(all), replace)
  {
    DeepKept(s, key, replace);
    DeepStamped(Kept(s, key, replace), all, ts);
    DeepReplaceGroup(s, key, Group(GroupAt(s, key, labels).labels, Kept(s, key, replace) + StampAll(all, ts)));
    hide DeepMetrics, DeepFamilies, StampAll, Kept;
    assert GroupAt(DeepOf(s), key, labels).labels == GroupAt(s, key, labels).labels;
  }

  lemma DeepWithGauges(fs: map<string, MetricFamily>, kept: map<string, Stamped<MetricFamily>>,
                        pushed: MetricFamily, failed: MetricFamily)
    ensures DeepFamilies(WithGauges(fs, kept, pushed, failed))
            == WithGauges(DeepFamilies(fs), DeepMetrics(kept), FamilyOf(pushed), FamilyOf(failed))
  {
    assert DeepFamilies(WithGauges(fs, kept, pushed, failed))
        == WithGauges(DeepFamilies(fs), DeepMetrics(kept), FamilyOf(pushed), FamilyOf(failed));
  }

  lemma DeepMetricsUpdate(ms: map<string, Stamped<MetricFamily>>, n: string, ts: Time, f: MetricFamily)
    ensures DeepMetrics(ms[n := Stamped(ts, f)]) == DeepMetrics(ms)[n := Stamped(ts, FamilyOf(f))]
  {
    assert DeepMetrics(ms[n := Stamped(ts, f)]) == DeepMetrics(ms)[n := Stamped(ts, FamilyOf(f))];
  }

  lemma DeepPutFailure(s: Store<MetricFamily>, key: string, labels: Labels, ts: Time, pushed: MetricFamily, failed: MetricFamily)
    ensures DeepOf(PutFailure(s, key, labels, ts, pushed, failed))
            == PutFailure(DeepOf(s), key, labels, ts, FamilyOf(pushed), FamilyOf(failed))
  {
    var g := GroupAt(s, key, labels);
    var ms := g.metrics[PUSH_FAILED_METRIC_NAME := Stamped(ts, failed)];
    DeepMetricsUpdate(g.metrics, PUSH_FAILED_METRIC_NAME, ts, failed);
    DeepMetricsUpdate(ms, PUSH_METRIC_NAME, ts, pushed);
    DeepReplaceGroup(s, key, Group(g.labels, if PUSH_METRIC_NAME in ms then ms
                                             else ms[PUSH_METRIC_NAME := Stamped(ts, pushed)]));
    assert DeepMetrics(map[]) == map[];
    assert DeepMetrics(ms).Keys == ms.Keys;
  }
}
