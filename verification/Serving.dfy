/** Serving write requests: the check that decides about a request, and what the loop does with
    the verdict. */
module Serving {
  import opened Dto
  import opened LabelSpec
  import opened GroupingKey
  import opened Objects
  import opened Sanitizer
  import opened StoreSpec
  import opened StoreHeap
  import opened GatherCheck
  import opened Gathering
  import opened DiskStore

  // ------------------------------------------------------------ what a request brings

  /** Two families share no metric and no label pair. */
  ghost predicate NothingShared(f: MetricFamily, g: MetricFamily)
    reads f, g, f.metric, g.metric
  {
    (forall m :: m in f.metric ==> m !in g.metric) && forall p :: p in PairsIn(f.metric) ==> p !in PairsIn(g.metric)
  }

  ghost predicate FamiliesApart(f: MetricFamily, g: MetricFamily)
    reads f, g, f.metric, g.metric
  {
    f != g && NothingShared(f, g)
  }

  /** Freshly decoded families: trees that share nothing, keyed by their names. */
  ghost predicate Forest(fs: map<string, MetricFamily>)
    reads fs.Values, MetricsIn(fs.Values)
  {
    && (forall n :: n in fs ==> fs[n] in fs.Values && TreeShaped(fs[n].metric) && fs[n].name == n)
    && forall a, b :: a in fs && b in fs && a != b ==> FamiliesApart(fs[a], fs[b])
  }

  ghost predicate SanitizedFamilies(before: map<string, Family>, grouping: Labels, after: map<string, Family>) {
    before.Keys == after.Keys && forall n :: n in before ==> SanitizedFamily(before[n], grouping, after[n])
  }

  /** Whether any metric carries a timestamp. */
  method AnyTimestamps(fs: map<string, MetricFamily>) returns (present: bool)
    ensures present <==> TimestampsPresent(DeepFamilies(fs))
  {
    var todo := fs.Keys;
    while todo != {}
      invariant todo <= fs.Keys
      invariant forall n, i :: n in fs && n !in todo && 0 <= i < |fs[n].metric| ==> fs[n].metric[i].timestampMs.None?
      decreases todo
    {
      var n :| n in todo;
      for i := 0 to |fs[n].metric|
        invariant forall j :: 0 <= j < i ==> fs[n].metric[j].timestampMs.None?
      {
        if fs[n].metric[i].timestampMs.Some? {
          assert DeepFamilies(fs)[n].samples[i].timestampMs.Some?;
          return true;
        }
      }
      todo := todo - {n};
    }
    present := false;
    forall n, i | n in fs && 0 <= i < |DeepFamilies(fs)[n].samples| ensures DeepFamilies(fs)[n].samples[i].timestampMs.None? {
      assert fs[n].metric[i].timestampMs.None?;
    }
  }

  /** The label pairs of a family are old ones of the same family or fresh. */
  twostate predicate PairsOldOrFresh(f: MetricFamily)
    reads f, f.metric
  {
    forall p :: p in PairsIn(f.metric) ==> p in old(PairsIn(f.metric)) || fresh(p)
  }

  /** Families sharing nothing with the one sanitized are not touched. */
  method SanitizeOne(f: MetricFamily, grouping: Labels, ghost others: set<MetricFamily>)
    requires TreeShaped(f.metric)
    requires forall g :: g in others ==> NothingShared(g, f)
    modifies f.metric, PairsIn(f.metric)
    ensures SanitizedFamily(old(FamilyOf(f)), grouping, FamilyOf(f)) && PairsOldOrFresh(f) && TreeShaped(f.metric)
    ensures forall g :: g in others ==> Untouched(g)
  {
    hide SanitizedFamily, TreeShaped, FamilyOf;
    SanitizeLabels(f, grouping);
    forall g | g in others ensures Untouched(g) {
      assert old(NothingShared(g, f));
    }
  }

  /** Sanitizes one family of a forest. */
  method SanitizeNext(fs: map<string, MetricFamily>, name: string, f: MetricFamily, grouping: Labels)
    requires Forest(fs) && name in fs && fs[name] == f
    modifies f.metric, PairsIn(f.metric)
    ensures Forest(fs)
    ensures SanitizedFamily(old(FamilyOf(f)), grouping, FamilyOf(f)) && PairsOldOrFresh(f)
    ensures forall n :: n in fs && n != name ==> Untouched(fs[n]) && FamilyOf(fs[n]) == old(FamilyOf(fs[n]))
  {
    assert forall n :: n in fs && n != name ==> FamiliesApart(fs[n], f);
    assert TreeShaped(f.metric);
    SanitizeOne(f, grouping, set n | n in fs && n != name :: fs[n]);
    hide SanitizedFamily, FamilyOf;
    forall n | n in fs && n != name
      ensures Untouched(fs[n]) && FamilyOf(fs[n]) == old(FamilyOf(fs[n])) && TreeShaped(fs[n].metric)
    {
      UntouchedFamily(fs[n]);
      assert old(TreeShaped(fs[n].metric));
      UntouchedTree(fs[n]);
    }
    hide TreeShaped;
    forall a, b | a in fs && b in fs && a != b ensures FamiliesApart(fs[a], fs[b]) {
      assert old(FamiliesApart(fs[a], fs[b]));
      if a == name { UntouchedPairs(fs[b]); }
      else if b == name { UntouchedPairs(fs[a]); }
      else { UntouchedPairs(fs[a]); UntouchedPairs(fs[b]); }
    }
  }

  twostate lemma UntouchedTree(f: MetricFamily)
    requires Untouched(f) && old(TreeShaped(f.metric))
    ensures TreeShaped(f.metric)
  {
    assert forall i :: 0 <= i < |f.metric| ==> f.metric[i] in f.metric;
    forall i, j | 0 <= i < j < |f.metric| ensures Apart(f.metric[i], f.metric[j]) {
      assert old(Apart(f.metric[i], f.metric[j]));
    }
  }

  twostate lemma UntouchedPairs(f: MetricFamily)
    requires Untouched(f)
    ensures f.metric == old(f.metric) && PairsIn(f.metric) == old(PairsIn(f.metric))
  {
    forall p ensures p in PairsIn(f.metric) <==> p in old(PairsIn(f.metric)) {}
  }

  /** All families but those in `todo` are sanitized; those are as they were. */
  ghost predicate HalfSanitized(fs: map<string, MetricFamily>, before: map<string, Family>, grouping: Labels, todo: set<string>)
    reads *
  {
    && before.Keys == fs.Keys
    && (forall n :: n in fs && n in todo ==> FamilyOf(fs[n]) == before[n])
    && forall n :: n in fs && n !in todo ==> SanitizedFamily(before[n], grouping, FamilyOf(fs[n]))
  }

  twostate lemma OneMoreSanitized(fs: map<string, MetricFamily>, new before: map<string, Family>, new grouping: Labels,
                                  new todo: set<string>, new name: string)
    requires old(allocated(before)) && old(allocated(grouping)) && old(allocated(todo))
    requires old(HalfSanitized(fs, before, grouping, todo)) && name in fs && name in todo
    requires SanitizedFamily(old(FamilyOf(fs[name])), grouping, FamilyOf(fs[name]))
    requires forall n :: n in fs && n != name ==> FamilyOf(fs[n]) == old(FamilyOf(fs[n]))
    ensures HalfSanitized(fs, before, grouping, todo - {name})
  {
    hide SanitizedFamily, FamilyOf;
  }

  lemma StartSanitizing(fs: map<string, MetricFamily>, grouping: Labels)
    ensures HalfSanitized(fs, DeepFamilies(fs), grouping, fs.Keys)
  {}

  lemma DoneSanitizing(fs: map<string, MetricFamily>, before: map<string, Family>, grouping: Labels)
    requires HalfSanitized(fs, before, grouping, {})
    ensures SanitizedFamilies(before, grouping, DeepFamilies(fs))
  {}

  twostate predicate AllPairsOldOrFresh(fs: map<string, MetricFamily>)
    reads fs.Values, MetricsIn(fs.Values)
  {
    forall n :: n in fs ==> fs[n] in fs.Values && PairsOldOrFresh(fs[n])
  }

  /** Sanitizes all families of a request, in an arbitrary order. */
  method SanitizeAll(fs: map<string, MetricFamily>, grouping: Labels)
    requires Forest(fs)
    modifies MetricsIn(fs.Values), AllPairsIn(fs.Values)
    ensures SanitizedFamilies(old(DeepFamilies(fs)), grouping, DeepFamilies(fs))
    ensures AllPairsOldOrFresh(fs)
  {
    hide Forest, SanitizedFamily, SanitizedFamilies, FamilyOf, DeepFamilies, HalfSanitized, TreeShaped;
    var todo := fs.Keys;
    ghost var before := DeepFamilies(fs);
    StartSanitizing(fs, grouping);
    while todo != {}
      invariant todo <= fs.Keys && Forest(fs)
      invariant HalfSanitized(fs, before, grouping, todo)
      invariant AllPairsOldOrFresh(fs)
      decreases todo
    {
      var name :| name in todo;
      label next:
      SanitizeNext(fs, name, fs[name], grouping);
      OneMoreSanitized@next(fs, before, grouping, todo, name);
      todo := todo - {name};
    }
    DoneSanitizing(fs, before, grouping);
  }

  // ------------------------------------------------------------ the check

  /** A store of its own over copied maps; the families are shared. */
  method CopyStore(dms: DiskMetricStore) returns (tdms: DiskMetricStore)
    requires dms.Valid()
    ensures fresh(tdms) && tdms.Valid() && forall m :: m in tdms.Maps() ==> fresh(m)
    ensures tdms.Shallow() == dms.Shallow()
  {
    hide DistinctMaps;
    var groupsCopy := dms.GetMetricFamiliesMap();
    tdms := new DiskMetricStore(groupsCopy, dms.predefinedHelp);
  }

  /** Applies the request to a test store and gathers it. */
  method TryOn(tdms: DiskMetricStore, wr: WriteRequest, families: FamilyMap, own: OwnMetrics) returns (ok: bool)
    requires tdms.Valid() && wr.families == families
    requires NamedByKey(tdms.Deep()) && NamedFamilies(DeepFamilies(families.m))
    modifies tdms, tdms.Maps(), families
    ensures ok <==> Consistent(own, Commit(old(tdms.Deep()), wr.labels, wr.timestamp, old(DeepFamilies(families.m)), wr.replace))
    ensures DeepFamilies(families.m) == Completed(old(tdms.Deep()), wr, old(DeepFamilies(families.m)))
    ensures forall f :: f in families.m.Values ==> f in old(families.m.Values) || IsNewGauge(f)
  {
    hide Commit, Completed, NamedByKey, NamedFamilies, DeepOf, DeepFamilies, Consistent, KeyOf, FamilyOf;
    CommitNamed(tdms.Deep(), wr, DeepFamilies(families.m));
    tdms.ProcessWriteRequest(wr);
    label processed:
    ghost var completed := families.m;
    ok := GatherStore(tdms, own);
    SparedFamilies@processed(completed);
  }

  /** Gathers a store and checks the result. */
  method GatherStore(tdms: DiskMetricStore, own: OwnMetrics) returns (ok: bool)
    requires tdms.Valid() && NamedByKey(tdms.Deep())
    ensures ok <==> Consistent(own, old(tdms.Deep()))
  {
    hide Consistent, GatherOk, MergedFamilies, Enumerates, NamesIn, NamedByKey, DeepOf, ValuesOf, Listed, IsMergeOf;
    ghost var before := tdms.Shallow();
    ghost var order, names;
    var mfs;
    mfs, order, names := tdms.GetMetricFamilies();
    SparedStore(before);
    assert tdms.Shallow() == before;
    ok := GatherOk(own, ValuesOf(mfs));
    GatherDecidesConsistency(own, tdms.Deep(), order, names, ValuesOf(mfs));
  }

  lemma CommitNamed(s: Store<Family>, wr: WriteRequest, fs: map<string, Family>)
    requires NamedByKey(s) && NamedFamilies(fs)
    ensures NamedByKey(Commit(s, wr.labels, wr.timestamp, fs, wr.replace))
  {
    ApplyKeepsNames(s, Push(wr.labels, wr.timestamp, fs, wr.replace, true), true);
  }

  /** Applies the request to a copy of the store and gathers the copy. The store itself is not
      written; the request's family map comes out completed. */
  method TryOnCopy(dms: DiskMetricStore, wr: WriteRequest, families: FamilyMap, own: OwnMetrics) returns (ok: bool)
    requires dms.Valid() && wr.families == families
    requires NamedByKey(dms.Deep()) && NamedFamilies(DeepFamilies(families.m))
    modifies families
    ensures ok <==> Consistent(own, Commit(old(dms.Deep()), wr.labels, wr.timestamp, old(DeepFamilies(families.m)), wr.replace))
    ensures DeepFamilies(families.m) == Completed(old(dms.Deep()), wr, old(DeepFamilies(families.m)))
    ensures forall f :: f in families.m.Values ==> f in old(families.m.Values) || IsNewGauge(f)
  {
    hide Commit, Completed, NamedByKey, NamedFamilies, DeepOf, DeepFamilies, Consistent, KeyOf, FamilyOf, DistinctMaps;
    ghost var before, fs := dms.Shallow(), families.m;
    var tdms := CopyStore(dms);
    SparedStore(before);
    SparedFamilies(fs);
    assert dms.Shallow() == before && tdms.Shallow() == before;
    ok := TryOn(tdms, wr, families, own);
  }

  /** A family without any of these metrics and label pairs. */
  ghost predicate Avoids(f: MetricFamily, metrics: set<Metric>, pairs: set<LabelPair>)
    reads f, f.metric
  {
    (forall m :: m in f.metric ==> m !in metrics) && forall p :: p in PairsIn(f.metric) ==> p !in pairs
  }

  /** The families of the request share no metric and no label pair with those of the store. */
  ghost predicate ApartFromStore(dms: DiskMetricStore, wr: WriteRequest)
    reads dms, dms.Maps(), dms.Families(), MetricsIn(dms.Families()), wr.families, wr.FamilyObjects(), wr.Metrics()
  {
    forall f :: f in dms.Families() ==> Avoids(f, wr.Metrics(), wr.Pairs())
  }

  /** A request as the handlers submit it: nil families, or a forest of its own. */
  ghost predicate IsRequest(dms: DiskMetricStore, wr: WriteRequest)
    reads dms, dms.Maps(), dms.Families(), MetricsIn(dms.Families()), wr.families, wr.FamilyObjects(), wr.Metrics()
  {
    (wr.families != null ==> Forest(wr.families.m)) && ApartFromStore(dms, wr)
  }

  /** A request as a write, given its families as values. */
  function WriteOf(wr: WriteRequest, families: map<string, Family>): Write {
    if wr.families == null then Delete(wr.labels)
    else Push(wr.labels, wr.timestamp, families, wr.replace, wr.done != null)
  }

  twostate lemma ShallowStays(g: GroupMap)
    requires forall m :: m in MapsIn(g) ==> Unwritten(m)
    ensures ShallowOf(g) == old(ShallowOf(g))
  {
    forall k | k in g ensures g[k].metrics.m == old(g[k].metrics.m) { assert Unwritten(g[k].metrics); }
  }

  twostate lemma UntouchedByRequest(dms: DiskMetricStore, new wr: WriteRequest)
    requires old(allocated(wr))
    requires old(ApartFromStore(dms, wr)) && dms.Shallow() == old(dms.Shallow())
    requires forall f: MetricFamily :: old(allocated(f)) ==> Unwritten(f)
    requires forall m: Metric :: old(allocated(m)) && m !in old(wr.Metrics()) ==> Unwritten(m)
    requires forall p: LabelPair :: old(allocated(p)) && p !in old(wr.Pairs()) ==> Unwritten(p)
    ensures forall f :: f in old(dms.Families()) ==> Untouched(f)
    ensures dms.Deep() == old(dms.Deep())
  {
    forall f | f in old(dms.Families()) ensures Untouched(f) {
      assert Unwritten(f);
      forall m | m in f.metric ensures unchanged(m) { assert Unwritten(m); }
      forall p ensures p in PairsIn(f.metric) <==> p in old(PairsIn(f.metric)) {}
      forall p | p in PairsIn(f.metric) ensures unchanged(p) { assert Unwritten(p); }
    }
    UntouchedStore(dms.Shallow());
  }

  lemma ForestNames(fs: map<string, MetricFamily>)
    requires Forest(fs)
    ensures NamedFamilies(DeepFamilies(fs))
  {}

  lemma SanitizedKeepNames(before: map<string, Family>, grouping: Labels, after: map<string, Family>)
    requires SanitizedFamilies(before, grouping, after) && NamedFamilies(before)
    ensures NamedFamilies(after)
  {}

  method SendError(done: DoneChannel?)
    modifies done
    ensures done != null ==> done.events == old(done.events) + [ErrorSent]
  {
    if done != null {
      done.events := done.events + [ErrorSent];
    }
  }

  /** What sanitizing and checking leave of the request: its values are either untouched, because a
      timestamp rejects it at once, or sanitized. */
  ghost predicate Sane(raw: map<string, Family>, grouping: Labels, sane: map<string, Family>) {
    if TimestampsPresent(raw) then sane == raw else SanitizedFamilies(raw, grouping, sane)
  }

  /** Sanitizes the families of a request; the store is not touched. */
  method SanitizeRequest(dms: DiskMetricStore, wr: WriteRequest, families: FamilyMap)
    requires IsRequest(dms, wr) && wr.families == families
    modifies wr.Metrics(), wr.Pairs()
    ensures dms.Deep() == old(dms.Deep()) && forall f :: f in old(dms.Families()) ==> Untouched(f)
    ensures SanitizedFamilies(old(DeepFamilies(families.m)), wr.labels, DeepFamilies(families.m))
    ensures NamedFamilies(DeepFamilies(families.m))
    ensures AllPairsOldOrFresh(families.m)
  {
    hide DeepFamilies, FamilyOf, SanitizedFamilies, NamedFamilies, Forest, TreeShaped, ApartFromStore;
    ghost var raw := DeepFamilies(families.m);
    ForestNames(families.m);
    SanitizeAll(families.m, wr.labels);
    UntouchedByRequest(dms, wr);
    SanitizedKeepNames(raw, wr.labels, DeepFamilies(families.m));
  }

  /** Every family of `held` is one of `origin`, to which only label pairs have been added, or a new
      gauge. */
  twostate predicate Descend(new held: set<MetricFamily>, origin: set<MetricFamily>)
    reads held, MetricsIn(held)
  {
    forall f :: f in held ==> if old(allocated(f)) then f in origin && PairsOldOrFresh(f) else IsNewGauge(f)
  }

  /** The check of an update without timestamps. */
  method CheckSanitized(dms: DiskMetricStore, wr: WriteRequest, families: FamilyMap, own: OwnMetrics)
    returns (ok: bool, ghost sane: map<string, Family>)
    requires dms.Valid() && NamedByKey(dms.Deep()) && IsRequest(dms, wr) && wr.families == families
    modifies families, wr.Metrics(), wr.Pairs()
    ensures SanitizedFamilies(old(DeepFamilies(families.m)), wr.labels, sane) && NamedFamilies(sane)
    ensures ok <==> (wr.done != null ==> Consistent(own, Commit(old(dms.Deep()), wr.labels, wr.timestamp, sane, wr.replace)))
    ensures DeepFamilies(families.m) == if wr.done == null then sane else Completed(old(dms.Deep()), wr, sane)
    ensures Descend(families.m.Values, old(families.m.Values))
  {
    hide DeepFamilies, FamilyOf, DeepOf, Commit, Completed, SanitizedFamilies, NamedFamilies, NamedByKey, Forest,
         Consistent, TreeShaped, DistinctMaps, ApartFromStore;
    SanitizeRequest(dms, wr, families);
    sane := DeepFamilies(families.m);
    ok := true;
    if wr.done != null {
      ok := TryOnCopy(dms, wr, families, own);
    }
  }

  lemma SanitizedKeepTimestamps(before: map<string, Family>, grouping: Labels, after: map<string, Family>)
    requires SanitizedFamilies(before, grouping, after)
    ensures TimestampsPresent(before) <==> TimestampsPresent(after)
  {
    if TimestampsPresent(before) {
      var n, i :| n in before && 0 <= i < |before[n].samples| && before[n].samples[i].timestampMs.Some?;
      assert after[n].samples[i].timestampMs.Some?;
    }
    if TimestampsPresent(after) {
      var n, i :| n in after && 0 <= i < |after[n].samples| && after[n].samples[i].timestampMs.Some?;
      assert before[n].samples[i].timestampMs.Some?;
    }
  }

  /** The families of a request as it arrives. */
  ghost function Raw(wr: WriteRequest): map<string, Family>
    reads wr.families, wr.FamilyObjects(), wr.Metrics(), wr.Pairs()
  {
    if wr.families == null then map[] else DeepFamilies(wr.families.m)
  }

  /** A request nobody has touched yet. */
  twostate predicate Intact(wr: WriteRequest)
    reads wr.families, wr.FamilyObjects(), wr.Metrics(), wr.Pairs(), wr.done
  {
    && (wr.families != null ==> wr.families.m == old(wr.families.m)) && (wr.done != null ==> unchanged(wr.done))
    && wr.FamilyObjects() == old(wr.FamilyObjects()) && wr.Metrics() == old(wr.Metrics()) && wr.Pairs() == old(wr.Pairs())
    && Raw(wr) == old(Raw(wr))
  }

  twostate lemma NotWritten(wr: WriteRequest)
    requires wr.families != null ==> Unwritten(wr.families)
    requires wr.done != null ==> Unwritten(wr.done)
    requires forall f: MetricFamily :: old(allocated(f)) ==> Unwritten(f)
    requires forall m :: m in old(wr.Metrics()) ==> Unwritten(m)
    requires forall p :: p in old(wr.Pairs()) ==> Unwritten(p)
    ensures Intact(wr)
    ensures wr.families != null && old(Forest(wr.families.m)) ==> Forest(wr.families.m)
  {
    if wr.families == null { return; }
    var fs := wr.families.m;
    forall n | n in fs ensures fs[n] in fs.Values && Untouched(fs[n]) {
      assert Unwritten(fs[n]) && fs[n] in fs.Values;
      forall m | m in fs[n].metric ensures unchanged(m) { assert Unwritten(m); }
      forall p ensures p in PairsIn(fs[n].metric) <==> p in old(PairsIn(fs[n].metric)) {}
      forall p | p in PairsIn(fs[n].metric) ensures unchanged(p) { assert p in old(wr.Pairs()); assert Unwritten(p); }
    }
    UntouchedFamilies(fs);
    forall f | f in fs.Values ensures PairsIn(f.metric) == old(PairsIn(f.metric)) {
      var n :| n in fs && fs[n] == f;
      UntouchedPairs(f);
    }
    assert wr.Pairs() == old(wr.Pairs());
  }

  twostate lemma StaysApart(dms: DiskMetricStore, new wr: WriteRequest)
    requires old(allocated(wr)) && old(ApartFromStore(dms, wr)) && dms.Shallow() == old(dms.Shallow())
    requires wr.Metrics() == old(wr.Metrics()) && wr.Pairs() == old(wr.Pairs())
    requires forall f: MetricFamily :: old(allocated(f)) ==> Unwritten(f)
    requires forall m: Metric :: old(allocated(m)) ==> Unwritten(m)
    ensures ApartFromStore(dms, wr)
  {
    hide MetricsIn, AllPairsIn;
    forall f | f in old(dms.Families()) ensures Avoids(f, wr.Metrics(), wr.Pairs()) {
      assert old(Avoids(f, wr.Metrics(), wr.Pairs()));
      assert Unwritten(f);
      forall m | m in f.metric ensures unchanged(m) { assert Unwritten(m); }
    }
  }

  twostate lemma StaysRequest(dms: DiskMetricStore, new wr: WriteRequest)
    requires old(allocated(wr)) && old(IsRequest(dms, wr)) && dms.Shallow() == old(dms.Shallow())
    requires wr.families != null ==> Unwritten(wr.families)
    requires wr.done != null ==> Unwritten(wr.done)
    requires forall f: MetricFamily :: old(allocated(f)) ==> Unwritten(f)
    requires forall m: Metric :: old(allocated(m)) ==> Unwritten(m)
    requires forall p: LabelPair :: old(allocated(p)) ==> Unwritten(p)
    ensures IsRequest(dms, wr)
  {
    hide Forest, FamilyOf, DeepFamilies, Raw, FamiliesIn, ShallowOf, ApartFromStore;
    NotWritten(wr);
    StaysApart(dms, wr);
  }

  /** The timestamp check alone; it writes nothing. */
  method RejectTimestamps(dms: DiskMetricStore, wr: WriteRequest, families: FamilyMap) returns (present: bool)
    requires dms.Valid() && IsRequest(dms, wr) && wr.families == families
    ensures present <==> TimestampsPresent(DeepFamilies(families.m))
    ensures dms.Deep() == old(dms.Deep()) && DeepFamilies(families.m) == old(DeepFamilies(families.m))
    ensures dms.Valid() && IsRequest(dms, wr)
  {
    hide FamilyOf, TimestampsPresent, DeepOf, DeepFamilies, Forest, IsRequest;
    ghost var before := dms.Shallow();
    present := AnyTimestamps(families.m);
    assert dms.Shallow() == before;
    SparedStore(before);
    SparedFamilies(families.m);
    StaysRequest(dms, wr);
  }

  /** The check of an update. */
  method CheckUpdate(dms: DiskMetricStore, wr: WriteRequest, families: FamilyMap, own: OwnMetrics)
    returns (ok: bool, ghost sane: map<string, Family>)
    requires dms.Valid() && NamedByKey(dms.Deep()) && IsRequest(dms, wr) && wr.families == families
    modifies families, wr.Metrics(), wr.Pairs()
    ensures Sane(old(DeepFamilies(families.m)), wr.labels, sane) && (ok ==> NamedFamilies(sane))
    ensures ok <==> Accepts(own, old(dms.Deep()), WriteOf(wr, sane))
    ensures ok ==> DeepFamilies(families.m) == if wr.done == null then sane else Completed(old(dms.Deep()), wr, sane)
    ensures ok ==> Descend(families.m.Values, old(families.m.Values))
  {
    hide DeepFamilies, FamilyOf, DeepOf, Commit, Completed, SanitizedFamilies, NamedFamilies, NamedByKey, Forest,
         Consistent, TreeShaped, DistinctMaps, ApartFromStore, TimestampsPresent, FamiliesIn, ShallowOf;
    ghost var raw := DeepFamilies(families.m);
    var present := RejectTimestamps(dms, wr, families);
    if present {
      ok, sane := false, raw;
      return;
    }
    ok, sane := CheckSanitized(dms, wr, families, own);
    SanitizedKeepTimestamps(raw, wr.labels, sane);
  }

  /** A push is accepted, replacing or not, exactly if none of its metrics has a timestamp and, if it is
      checked, the store would be consistent with it. */
  lemma VerdictIs(own: OwnMetrics, s: Store<Family>, wr: WriteRequest, raw: map<string, Family>, sane: map<string, Family>)
    requires wr.families != null && Sane(raw, wr.labels, sane)
    ensures Accepts(own, s, WriteOf(wr, sane))
            <==> && (forall n, i :: n in raw && 0 <= i < |raw[n].samples| ==> raw[n].samples[i].timestampMs == None)
                 && (wr.done == null || Consistent(own, Commit(s, wr.labels, wr.timestamp, sane, wr.replace)))
  {
    hide Consistent, Commit, SanitizedFamilies;
    if !TimestampsPresent(raw) { SanitizedKeepTimestamps(raw, wr.labels, sane); }
  }

  /** Decides whether applying the request leaves a consistent store. The store is not changed; the
      request is sanitized, and if it is rejected an error goes to its `Done` channel. */
  method CheckWriteRequest(dms: DiskMetricStore, wr: WriteRequest, own: OwnMetrics)
    returns (ok: bool, ghost sane: map<string, Family>)
    requires dms.Valid() && NamedByKey(dms.Deep()) && IsRequest(dms, wr)
    modifies wr.families, wr.Metrics(), wr.Pairs(), wr.done
    ensures dms.Shallow() == old(dms.Shallow()) && dms.Deep() == old(dms.Deep())
    ensures forall f :: f in old(dms.Families()) ==> Untouched(f)
    ensures wr.families != null ==>
              Sane(old(DeepFamilies(wr.families.m)), wr.labels, sane) && (ok ==> NamedFamilies(sane))
    ensures ok <==> Accepts(own, old(dms.Deep()), WriteOf(wr, sane))
    ensures wr.families == null ==> ok
    ensures wr.families != null ==>
              var raw := old(DeepFamilies(wr.families.m));
              ok <==> && (forall n, i :: n in raw && 0 <= i < |raw[n].samples| ==> raw[n].samples[i].timestampMs == None)
                      && (wr.done == null
                          || Consistent(own, Commit(old(dms.Deep()), wr.labels, wr.timestamp, sane, wr.replace)))
    ensures wr.done != null ==> wr.done.events == old(wr.done.events) + if ok then [] else [ErrorSent]
    ensures wr.families != null && ok ==>
              DeepFamilies(wr.families.m) == if wr.done == null then sane else Completed(old(dms.Deep()), wr, sane)
    ensures wr.families != null && ok ==> Descend(wr.families.m.Values, old(wr.families.m.Values))
  {
    hide DeepFamilies, FamilyOf, DeepOf, Commit, Completed, SanitizedFamilies, NamedFamilies, NamedByKey, Forest,
         Consistent, TreeShaped, DistinctMaps, ApartFromStore, TimestampsPresent, Accepts, FamiliesIn, ShallowOf;
    if wr.families == null {
      ok, sane := true, map[];
      DeleteIsAccepted(own, dms.Deep(), wr);
      return;
    }
    ghost var raw := DeepFamilies(wr.families.m);
    ok, sane := CheckUpdate(dms, wr, wr.families, own);
    VerdictIs(own, old(dms.Deep()), wr, raw, sane);
    if !ok {
      SendError(wr.done);
    }
    ShallowStays(dms.metricGroups);
    UntouchedByRequest(dms, wr);
  }

  lemma DeleteIsAccepted(own: OwnMetrics, s: Store<Family>, wr: WriteRequest)
    requires wr.families == null
    ensures forall sane :: Accepts(own, s, WriteOf(wr, sane))
  {}

  // ------------------------------------------------------------ one round of the loop

  method CloseDone(done: DoneChannel?)
    modifies done
    ensures done != null ==> done.events == old(done.events) + [Closed]
  {
    if done != null {
      done.events := done.events + [Closed];
    }
  }

  /** What the step does with the verdict. */
  method CarryOut(dms: DiskMetricStore, wr: WriteRequest, ok: bool)
    requires dms.Valid()
    modifies dms`metricGroups, dms.Maps(), wr.families
    ensures dms.Valid() && (forall m :: m in dms.Maps() ==> m in old(dms.Maps()) || fresh(m))
    ensures Outcome(old(dms.Deep()), wr, ok, if wr.families == null then map[] else old(DeepFamilies(wr.families.m)), dms.Deep())
    ensures forall f :: f in dms.Families() ==>
              f in old(dms.Families()) || (ok && f in old(wr.FamilyObjects())) || IsNewGauge(f)
  {
    hide DeepFamilies, FamilyOf, DeepOf, Commit, Completed, KeyOf, TreeShaped, DistinctMaps, FamiliesIn, FailStamp;
    if ok {
      dms.ProcessWriteRequest(wr);
    } else {
      dms.SetPushFailedTimestamp(wr);
    }
  }

  ghost predicate Outcome(s: Store<Family>, wr: WriteRequest, ok: bool, families: map<string, Family>, t: Store<Family>) {
    t == if !ok then FailStamp(s, wr.labels, wr.timestamp)
         else if wr.families == null then s - {KeyOf(wr.labels)}
         else Commit(s, wr.labels, wr.timestamp, families, wr.replace)
  }

  /** What goes over a `Done` channel: an error exactly for a rejected request, then the close, which
      only the normal mode sends. */
  function Signals(accepted: bool, draining: bool): seq<DoneEvent> {
    (if accepted then [] else [ErrorSent]) + if draining then [] else [Closed]
  }

  /** Carries out the verdict and, unless the store is draining, closes the `Done` channel. */
  method Finish(dms: DiskMetricStore, wr: WriteRequest, ok: bool, draining: bool)
    requires dms.Valid()
    modifies dms`metricGroups, dms.Maps(), wr.families, wr.done
    ensures dms.Valid() && (forall m :: m in dms.Maps() ==> m in old(dms.Maps()) || fresh(m))
    ensures Outcome(old(dms.Deep()), wr, ok, if wr.families == null then map[] else old(DeepFamilies(wr.families.m)), dms.Deep())
    ensures forall f :: f in dms.Families() ==>
              f in old(dms.Families()) || (ok && f in old(wr.FamilyObjects())) || IsNewGauge(f)
    ensures wr.done != null ==> wr.done.events == old(wr.done.events) + if draining then [] else [Closed]
  {
    hide DeepFamilies, FamilyOf, DeepOf, Outcome, TreeShaped, DistinctMaps;
    CarryOut(dms, wr, ok);
    if !draining {
      label served:
      ghost var store := dms.Shallow();
      CloseDone(wr.done);
      assert dms.Shallow() == store && dms.Families() == old@served(dms.Families());
      SparedStore@served(store);
    }
  }

  /** Serves one request: checks it, then applies it or records its failure. */
  method Serve(dms: DiskMetricStore, wr: WriteRequest, own: OwnMetrics, draining: bool) returns (ghost sane: map<string, Family>)
    requires dms.Valid() && NamedByKey(dms.Deep()) && IsRequest(dms, wr)
    modifies dms`metricGroups, dms.Maps(), wr.families, wr.Metrics(), wr.Pairs(), wr.done
    ensures dms.Valid() && (forall m :: m in dms.Maps() ==> m in old(dms.Maps()) || fresh(m))
    ensures NamedByKey(dms.Deep())
    ensures wr.families != null ==> Sane(old(DeepFamilies(wr.families.m)), wr.labels, sane)
    ensures dms.Deep() == Apply(own, old(dms.Deep()), WriteOf(wr, sane))
    ensures wr.done != null ==>
              wr.done.events == old(wr.done.events) + Signals(Accepts(own, old(dms.Deep()), WriteOf(wr, sane)), draining)
    ensures Descend(dms.Families(), old(dms.Families()) + old(wr.FamilyObjects()))
  {
    hide DeepFamilies, FamilyOf, DeepOf, Commit, Completed, SanitizedFamilies, NamedFamilies, NamedByKey, Forest, KeyOf,
         Consistent, TreeShaped, DistinctMaps, ApartFromStore, TimestampsPresent, Accepts, FamiliesIn, FailStamp, Sane,
         ShallowOf, MetricsIn, AllPairsIn, Outcome, WriteOf;
    ghost var before := dms.Deep();
    var ok;
    ok, sane := CheckWriteRequest(dms, wr, own);
    ghost var held := if ok then dms.Families() + wr.FamilyObjects() else dms.Families();
    ghost var origin := old(dms.Families()) + old(wr.FamilyObjects());
    assert Descend(held, origin);
    label decided:
    ghost var families := if wr.families == null then map[] else DeepFamilies(wr.families.m);
    Finish(dms, wr, ok, draining);
    ServedMeaning(own, before, wr, sane, families, dms.Deep());
    forall f | f in held
      ensures if old(allocated(f)) then f in origin && PairsOldOrFresh(f) else IsNewGauge(f)
    {
      assert PairsIn(f.metric) == old@decided(PairsIn(f.metric));
    }
  }

  lemma ServedMeaning(own: OwnMetrics, s: Store<Family>, wr: WriteRequest, sane: map<string, Family>,
                      families: map<string, Family>, t: Store<Family>)
    requires NamedByKey(s)
    requires Accepts(own, s, WriteOf(wr, sane)) && wr.families != null ==> NamedFamilies(sane)
    requires Outcome(s, wr, Accepts(own, s, WriteOf(wr, sane)), families, t)
    requires Accepts(own, s, WriteOf(wr, sane)) && wr.families != null ==>
               families == if wr.done == null then sane else Completed(s, wr, sane)
    ensures t == Apply(own, s, WriteOf(wr, sane)) && NamedByKey(t)
  {
    CommitAgain(s, wr.labels, wr.timestamp, sane, wr.replace);
    ApplyKeepsNames(s, WriteOf(wr, sane), Accepts(own, s, WriteOf(wr, sane)));
  }
}
