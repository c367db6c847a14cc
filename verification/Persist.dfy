/** Encoding the store and decoding it again: what the persistence file says is the store's meaning. */
module Persist {
  import opened Dto
  import opened LabelSpec
  import opened Objects
  import opened StoreSpec
  import opened StoreHeap
  import opened DiskStore
  import opened Serving

  /** Encodes one group's families, in an arbitrary order. */
  method EncodeMetrics(ms: map<string, Stamped<MetricFamily>>) returns (image: map<string, Stamped<Family>>)
    ensures image == old(DeepMetrics(ms))
  {
    image := map[];
    ghost var meaning := DeepMetrics(ms);
    var todo := ms.Keys;
    while todo != {}
      invariant todo <= ms.Keys && image.Keys == ms.Keys - todo
      invariant forall n :: n in image ==> image[n] == meaning[n]
      decreases todo
    {
      var n :| n in todo;
      image := image[n := Stamped(ms[n].timestamp, FamilyOf(ms[n].family))];
      todo := todo - {n};
    }
    assert image == meaning;
  }

  /** Encodes both levels of the store. */
  method EncodeStore(dms: DiskMetricStore) returns (image: Store<Family>)
    requires dms.Valid()
    ensures image == old(dms.Deep())
  {
    hide DeepMetrics, FamilyOf, DeepOf;
    image := map[];
    ghost var meaning, store := dms.Deep(), dms.Shallow();
    var groups := dms.metricGroups;
    assert ShallowOf(groups) == store;
    GroupsMeaning(groups);
    var todo := groups.Keys;
    while todo != {}
      invariant todo <= groups.Keys && image.Keys == groups.Keys - todo && ShallowOf(groups) == store
      invariant forall k :: k in image ==> image[k] == meaning[k]
      decreases todo
    {
      var k :| k in todo;
      SparedStore(store);
      GroupsMeaning(groups);
      var metrics := EncodeMetrics(groups[k].metrics.m);
      image := image[k := Group(groups[k].labels, metrics)];
      todo := todo - {k};
    }
    SparedStore(store);
    GroupsMeaning(groups);
    assert image == meaning;
  }

  lemma GroupsMeaning(groups: GroupMap)
    ensures DeepOf(ShallowOf(groups)).Keys == groups.Keys
    ensures forall k :: k in groups ==>
              DeepOf(ShallowOf(groups))[k] == Group(groups[k].labels, DeepMetrics(groups[k].metrics.m))
  {}

  // ------------------------------------------------------------ decoding

  /** New label pairs. */
  method NewPairs(ls: seq<Label>) returns (ps: seq<LabelPair>)
    ensures |ps| == |ls| && (forall i :: 0 <= i < |ps| ==> fresh(ps[i])) && DistinctPairs(ps)
    ensures LabelsOf(ps) == ls
  {
    ps := [];
    for i := 0 to |ls|
      invariant |ps| == i && (forall j :: 0 <= j < i ==> fresh(ps[j]) && Label(ps[j].name, ps[j].value) == ls[j])
      invariant DistinctPairs(ps)
    {
      var p := new LabelPair(ls[i].name, ls[i].value);
      ps := ps + [p];
    }
    assert LabelsOf(ps) == ls;
  }

  /** A new metric, with label pairs of its own. */
  method NewMetric(s: Sample) returns (m: Metric)
    ensures fresh(m) && (forall p :: p in m.labels ==> fresh(p)) && DistinctPairs(m.labels) && SampleOf(m) == s
  {
    var ps := NewPairs(s.labels);
    m := new Metric(ps, s.timestampMs, s.payload);
  }

  /** A new family: a tree of new objects. */
  method NewFamily(v: Family) returns (f: MetricFamily)
    ensures fresh(f) && (forall m :: m in f.metric ==> fresh(m)) && (forall p :: p in PairsIn(f.metric) ==> fresh(p))
    ensures TreeShaped(f.metric) && FamilyOf(f) == v
  {
    var ms: seq<Metric> := [];
    for i := 0 to |v.samples|
      invariant |ms| == i && (forall m :: m in ms ==> fresh(m) && forall p :: p in m.labels ==> fresh(p))
      invariant TreeShaped(ms)
      invariant forall j :: 0 <= j < i ==> SampleOf(ms[j]) == v.samples[j]
    {
      label next:
      var m := NewMetric(v.samples[i]);
      forall j | 0 <= j < i ensures Apart(ms[j], m) && SampleOf(ms[j]) == v.samples[j] {
        assert ms[j] in ms;
        assert forall p :: p in ms[j].labels ==> old@next(allocated(p));
        SampleUnchanged@next(ms[j]);
      }
      ms := ms + [m];
    }
    f := new MetricFamily(v.name, v.help, v.typ, ms);
    assert SamplesOf(f.metric) == v.samples;
  }

  twostate lemma ForestGrows(fs: map<string, MetricFamily>, new n: string, new f: MetricFamily)
    requires old(Forest(fs)) && n !in fs && IsNewGauge(f) && TreeShaped(f.metric) && f.name == n
    requires forall g: MetricFamily :: old(allocated(g)) ==> Unwritten(g)
    requires forall m: Metric :: old(allocated(m)) ==> Unwritten(m)
    requires forall p: LabelPair :: old(allocated(p)) ==> Unwritten(p)
    ensures Forest(fs[n := f])
  {
    var all := fs[n := f];
    hide TreeShaped;
    forall a | a in fs ensures fs[a] in fs.Values && Untouched(fs[a]) {
      assert Unwritten(fs[a]) && fs[a] in fs.Values;
      forall m | m in fs[a].metric ensures unchanged(m) { assert Unwritten(m); }
      forall p ensures p in PairsIn(fs[a].metric) <==> p in old(PairsIn(fs[a].metric)) {}
      forall p | p in PairsIn(fs[a].metric) ensures unchanged(p) { assert Unwritten(p); }
    }
    forall a | a in all ensures all[a] in all.Values && TreeShaped(all[a].metric) && all[a].name == a {
      if a != n {
        assert old(TreeShaped(fs[a].metric));
        UntouchedTree(fs[a]);
      }
    }
    forall a, b | a in all && b in all && a != b ensures FamiliesApart(all[a], all[b]) {
      if a != n { UntouchedPairs(fs[a]); }
      if b != n { UntouchedPairs(fs[b]); }
      if a != n && b != n { assert old(FamiliesApart(fs[a], fs[b])); }
    }
  }

  /** New families for the values of a request, sharing nothing with anything. */
  method NewFamilies(vs: map<string, Family>) returns (fs: map<string, MetricFamily>)
    requires NamedFamilies(vs)
    ensures Forest(fs) && DeepFamilies(fs) == vs && forall n :: n in fs ==> IsNewGauge(fs[n])
  {
    hide DeepFamilies, FamilyOf, Forest, TreeShaped;
    fs := map[];
    var todo := vs.Keys;
    ghost var part: map<string, Family> := map[];
    NoFamilies();
    while todo != {}
      invariant todo <= vs.Keys && part == map n | n in vs && n !in todo :: vs[n]
      invariant fs.Keys == part.Keys && Forest(fs) && DeepFamilies(fs) == part
      invariant forall n :: n in fs ==> IsNewGauge(fs[n])
      decreases todo
    {
      var n :| n in todo;
      label next:
      var f := NewFamily(vs[n]);
      NameOf(f);
      ForestGrows@next(fs, n, f);
      SparedFamilies@next(fs);
      DeepFamiliesAdd(fs, n, f);
      fs, part := fs[n := f], part[n := vs[n]];
      todo := todo - {n};
    }
    assert part == vs;
  }

  lemma NoFamilies()
    ensures Forest(map[]) && DeepFamilies(map[]) == map[]
  {}

  lemma NameOf(f: MetricFamily)
    ensures FamilyOf(f).name == f.name
  {}

  lemma DeepFamiliesAdd(fs: map<string, MetricFamily>, n: string, f: MetricFamily)
    ensures DeepFamilies(fs[n := f]) == DeepFamilies(fs)[n := FamilyOf(f)]
  {
    assert DeepFamilies(fs[n := f]) == DeepFamilies(fs)[n := FamilyOf(f)];
  }

  /** Decodes one group. */
  method DecodeMetrics(image: map<string, Stamped<Family>>) returns (ms: map<string, Stamped<MetricFamily>>)
    ensures DeepMetrics(ms) == image
  {
    hide DeepMetrics, FamilyOf, TreeShaped;
    ms := map[];
    var todo := image.Keys;
    ghost var part: map<string, Stamped<Family>> := map[];
    assert DeepMetrics(ms) == map[] by { NoMetrics(); }
    while todo != {}
      invariant todo <= image.Keys && part == map n | n in image && n !in todo :: image[n]
      invariant ms.Keys == part.Keys && DeepMetrics(ms) == part
      decreases todo
    {
      var n :| n in todo;
      label next:
      var f := NewFamily(image[n].family);
      SparedMetrics@next(ms);
      DeepMetricsUpdate(ms, n, image[n].timestamp, f);
      ms, part := ms[n := Stamped(image[n].timestamp, f)], part[n := image[n]];
      todo := todo - {n};
    }
    assert part == image;
  }

  lemma NoMetrics()
    ensures DeepMetrics(map[]) == map[]
  {}

  twostate lemma SparedMetrics(ms: map<string, Stamped<MetricFamily>>)
    requires forall f: MetricFamily :: old(allocated(f)) ==> Unwritten(f)
    requires forall m: Metric :: old(allocated(m)) ==> Unwritten(m)
    requires forall p: LabelPair :: old(allocated(p)) ==> Unwritten(p)
    ensures DeepMetrics(ms) == old(DeepMetrics(ms))
  {
    var one: Store<MetricFamily> := map["" := Group(map[], ms)];
    SparedStore(one);
    assert DeepOf(one)[""].metrics == DeepMetrics(ms) && old(DeepOf(one)[""].metrics) == old(DeepMetrics(ms));
  }

  method DecodeGroup(image: Group<Family>) returns (g: MetricGroup)
    ensures fresh(g.metrics) && Group(g.labels, DeepMetrics(g.metrics.m)) == image
  {
    hide DeepMetrics;
    var ms := DecodeMetrics(image.metrics);
    label decoded:
    var metrics := new MetricsMap(ms);
    SparedMetrics@decoded(ms);
    g := MetricGroup(image.labels, metrics);
  }

  lemma GroupAdded(groups: GroupMap, k: string, g: MetricGroup)
    ensures DeepOf(ShallowOf(groups[k := g]))
            == DeepOf(ShallowOf(groups))[k := Group(g.labels, DeepMetrics(g.metrics.m))]
  {
    hide DeepOf, DeepMetrics;
    assert ShallowOf(groups[k := g]) == ShallowOf(groups)[k := Group(g.labels, g.metrics.m)];
    DeepReplaceGroup(ShallowOf(groups), k, Group(g.labels, g.metrics.m));
  }

  twostate lemma GroupsStay(groups: GroupMap)
    requires forall m :: m in MapsIn(groups) ==> Unwritten(m)
    requires forall f: MetricFamily :: old(allocated(f)) ==> Unwritten(f)
    requires forall m: Metric :: old(allocated(m)) ==> Unwritten(m)
    requires forall p: LabelPair :: old(allocated(p)) ==> Unwritten(p)
    ensures DeepOf(ShallowOf(groups)) == old(DeepOf(ShallowOf(groups)))
  {
    hide DeepOf;
    forall k | k in groups ensures groups[k].metrics.m == old(groups[k].metrics.m) { assert Unwritten(groups[k].metrics); }
    assert ShallowOf(groups) == old(ShallowOf(groups));
    SparedStore(ShallowOf(groups));
  }

  /** Decodes both levels. */
  method DecodeGroups(image: Store<Family>) returns (groups: GroupMap)
    ensures DeepOf(ShallowOf(groups)) == image && DistinctMaps(groups)
    ensures forall k :: k in groups ==> fresh(groups[k].metrics)
  {
    hide DeepOf, DeepMetrics, ShallowOf;
    groups := map[];
    var todo := image.Keys;
    ghost var part: Store<Family> := map[];
    NoGroups();
    while todo != {}
      invariant todo <= image.Keys && part == map k | k in image && k !in todo :: image[k]
      invariant groups.Keys == part.Keys && DeepOf(ShallowOf(groups)) == part && DistinctMaps(groups)
      invariant forall k :: k in groups ==> fresh(groups[k].metrics)
      decreases todo
    {
      var k :| k in todo;
      label next:
      var g := DecodeGroup(image[k]);
      GroupsStay@next(groups);
      GroupAdded(groups, k, g);
      groups, part := groups[k := g], part[k := image[k]];
      todo := todo - {k};
    }
    assert part == image;
  }

  /** Reads a store back from its encoding: new maps, and new families that mean the same. */
  method DecodeStore(image: Store<Family>, predefinedHelp: map<string, string>) returns (dms: DiskMetricStore)
    ensures fresh(dms) && dms.Valid() && dms.Deep() == image && forall m :: m in dms.Maps() ==> fresh(m)
    ensures dms.predefinedHelp == predefinedHelp
  {
    hide DeepOf, ShallowOf, DistinctMaps;
    var groups := DecodeGroups(image);
    label decoded:
    dms := new DiskMetricStore(groups, predefinedHelp);
    GroupsStay@decoded(groups);
  }

  lemma NoGroups()
    ensures DeepOf(ShallowOf(map[])) == map[]
  {}

  /** Writing the store to the file and reading it at the next start gives the same store. */
  method PersistAndRestore(dms: DiskMetricStore) returns (restored: DiskMetricStore)
    requires dms.Valid()
    ensures restored.Valid() && restored.Deep() == old(dms.Deep()) && restored.predefinedHelp == dms.predefinedHelp
  {
    var image := EncodeStore(dms);
    restored := DecodeStore(image, dms.predefinedHelp);
  }

  twostate lemma SparedForest(fs: map<string, MetricFamily>)
    requires old(Forest(fs))
    requires forall g: MetricFamily :: old(allocated(g)) ==> Unwritten(g)
    requires forall m: Metric :: old(allocated(m)) ==> Unwritten(m)
    requires forall p: LabelPair :: old(allocated(p)) ==> Unwritten(p)
    ensures Forest(fs)
  {
    hide TreeShaped;
    forall a | a in fs ensures fs[a] in fs.Values && Untouched(fs[a]) && TreeShaped(fs[a].metric) && fs[a].name == a {
      assert Unwritten(fs[a]) && fs[a] in fs.Values;
      forall m | m in fs[a].metric ensures unchanged(m) { assert Unwritten(m); }
      forall p ensures p in PairsIn(fs[a].metric) <==> p in old(PairsIn(fs[a].metric)) {}
      forall p | p in PairsIn(fs[a].metric) ensures unchanged(p) { assert Unwritten(p); }
      assert old(TreeShaped(fs[a].metric));
      UntouchedTree(fs[a]);
    }
    forall a, b | a in fs && b in fs && a != b ensures FamiliesApart(fs[a], fs[b]) {
      UntouchedPairs(fs[a]);
      UntouchedPairs(fs[b]);
      assert old(FamiliesApart(fs[a], fs[b]));
    }
  }

  /** What a handler submits: a request of new objects that says what it was given. */
  method NewRequest(labels: Labels, timestamp: Time, families: Option<map<string, Family>>, replace: bool, checked: bool)
    returns (wr: WriteRequest)
    requires families.Some? ==> NamedFamilies(families.value)
    ensures wr.labels == labels && wr.timestamp == timestamp && wr.replace == replace
    ensures wr.families != null <==> families.Some?
    ensures wr.families != null ==>
              && fresh(wr.families) && Forest(wr.families.m) && DeepFamilies(wr.families.m) == families.value
    ensures forall f :: f in wr.FamilyObjects() ==> IsNewGauge(f)
    ensures (wr.done != null <==> checked) && (wr.done != null ==> fresh(wr.done) && wr.done.events == [])
  {
    hide DeepFamilies, Forest;
    var families': FamilyMap?, done: DoneChannel? := null, null;
    if checked { done := new DoneChannel(); }
    if families.Some? {
      families' := new FamilyMap(map[]);
      var fs := NewFamilies(families.value);
      label decoded:
      families'.m := fs;
      SparedFamilies@decoded(fs);
      SparedForest@decoded(fs);
    }
    wr := WriteRequest(labels, timestamp, families', replace, done);
  }
}
