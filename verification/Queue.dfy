/** A queue of requests served in order, beside readers who keep what they were given. */
module Queue {
  import opened Dto
  import opened LabelSpec
  import opened GroupingKey
  import opened Objects
  import opened Sanitizer
  import opened StoreSpec
  import opened StoreHeap
  import opened GatherCheck
  import opened Gathering
  import opened DiskStore
  import opened Serving

  /** Two requests share no object. */
  ghost predicate RequestsApart(a: WriteRequest, b: WriteRequest)
    reads a.families, a.FamilyObjects(), a.Metrics(), b.families, b.FamilyObjects(), b.Metrics()
  {
    && (a.families != null ==> a.families != b.families) && (a.done != null ==> a.done != b.done)
    && a.FamilyObjects() !! b.FamilyObjects() && a.Metrics() !! b.Metrics() && a.Pairs() !! b.Pairs()
  }

  /** A request that shared nothing with the store or with the request served still shares nothing
      with the store. */
  twostate lemma StillApart(dms: DiskMetricStore, new a: WriteRequest, new b: WriteRequest)
    requires old(allocated(a)) && old(allocated(b))
    requires old(ApartFromStore(dms, b)) && old(RequestsApart(a, b)) && Intact(b)
    requires Descend(dms.Families(), old(dms.Families()) + old(a.FamilyObjects()))
    requires forall f: MetricFamily :: old(allocated(f)) ==> Unwritten(f)
    ensures ApartFromStore(dms, b)
  {
    hide FamiliesIn, ShallowOf, Raw, Forest, FamilyOf, DeepFamilies;
    forall f | f in dms.Families() ensures Avoids(f, b.Metrics(), b.Pairs()) {
      if old(allocated(f)) {
        assert Unwritten(f);
        assert f in old(dms.Families()) || f in old(a.FamilyObjects());
      }
    }
  }

  /** A request that shares nothing with the one served is left alone. */
  twostate lemma LeftAlone(dms: DiskMetricStore, new a: WriteRequest, new b: WriteRequest)
    requires old(allocated(a)) && old(allocated(b))
    requires old(IsRequest(dms, b)) && old(RequestsApart(a, b))
    requires forall f: MetricFamily :: old(allocated(f)) ==> Unwritten(f)
    requires forall m: Metric :: old(allocated(m)) && m !in old(a.Metrics()) ==> Unwritten(m)
    requires forall p: LabelPair :: old(allocated(p)) && p !in old(a.Pairs()) ==> Unwritten(p)
    requires forall m: FamilyMap :: old(allocated(m)) && m != a.families ==> Unwritten(m)
    requires forall d: DoneChannel :: old(allocated(d)) && d != a.done ==> Unwritten(d)
    requires Descend(dms.Families(), old(dms.Families()) + old(a.FamilyObjects()))
    ensures IsRequest(dms, b) && Intact(b)
  {
    NotWritten(b);
    StillApart(dms, a, b);
  }

  /** Serving one request of several leaves the others alone. */
  method ServeNext(dms: DiskMetricStore, wr: WriteRequest, own: OwnMetrics, draining: bool, ghost others: seq<WriteRequest>)
    returns (ghost sane: map<string, Family>)
    requires dms.Valid() && NamedByKey(dms.Deep()) && IsRequest(dms, wr)
    requires forall j :: 0 <= j < |others| ==> IsRequest(dms, others[j]) && RequestsApart(wr, others[j])
    modifies dms`metricGroups, dms.Maps(), wr.families, wr.Metrics(), wr.Pairs(), wr.done
    ensures dms.Valid() && NamedByKey(dms.Deep()) && (forall m :: m in dms.Maps() ==> m in old(dms.Maps()) || fresh(m))
    ensures wr.families != null ==> Sane(old(DeepFamilies(wr.families.m)), wr.labels, sane)
    ensures dms.Deep() == Apply(own, old(dms.Deep()), WriteOf(wr, sane))
    ensures wr.done != null ==>
              wr.done.events == old(wr.done.events) + Signals(Accepts(own, old(dms.Deep()), WriteOf(wr, sane)), draining)
    ensures forall j :: 0 <= j < |others| ==> IsRequest(dms, others[j]) && Intact(others[j])
  {
    hide DeepFamilies, FamilyOf, DeepOf, Forest, TreeShaped, DistinctMaps, NamedByKey, KeyOf, Apply, Accepts, Sane,
         IsRequest, RequestsApart, Intact, Descend, FamiliesIn, ShallowOf, Signals;
    sane := Serve(dms, wr, own, draining);
    forall j | 0 <= j < |others| ensures IsRequest(dms, others[j]) && Intact(others[j]) {
      LeftAlone(dms, wr, others[j]);
    }
  }

  ghost function FamilyMapsOf(queue: seq<WriteRequest>): set<FamilyMap> {
    set wr | wr in queue && wr.families != null :: wr.families
  }

  ghost function DonesOf(queue: seq<WriteRequest>): set<DoneChannel> {
    set wr | wr in queue && wr.done != null :: wr.done
  }

  ghost function QueuedMetrics(queue: seq<WriteRequest>): (r: set<Metric>)
    reads *
    ensures forall j :: 0 <= j < |queue| ==> queue[j].Metrics() <= r
  {
    if queue == [] then {} else queue[|queue| - 1].Metrics() + QueuedMetrics(queue[..|queue| - 1])
  }

  ghost function QueuedPairs(queue: seq<WriteRequest>): (r: set<LabelPair>)
    reads *
    ensures forall j :: 0 <= j < |queue| ==> queue[j].Pairs() <= r
  {
    if queue == [] then {} else queue[|queue| - 1].Pairs() + QueuedPairs(queue[..|queue| - 1])
  }

  /** A write is what the request said when it was submitted, sanitized. */
  ghost predicate Means(wr: WriteRequest, raw: map<string, Family>, w: Write) {
    exists sane :: w == WriteOf(wr, sane) && (wr.families != null ==> Sane(raw, wr.labels, sane))
  }

  ghost predicate QueueApart(queue: seq<WriteRequest>)
    reads *
  {
    forall i, j :: 0 <= i < j < |queue| ==> RequestsApart(queue[i], queue[j])
  }

  ghost predicate AllRequests(dms: DiskMetricStore, queue: seq<WriteRequest>)
    reads *
  {
    forall j :: 0 <= j < |queue| ==> IsRequest(dms, queue[j])
  }

  twostate predicate AllIntact(queue: seq<WriteRequest>)
    reads *
  {
    forall j :: 0 <= j < |queue| ==> Intact(queue[j])
  }

  /** One step of the queue. */
  method ServeFirst(dms: DiskMetricStore, queue: seq<WriteRequest>, own: OwnMetrics, draining: bool)
    returns (ghost w: Write)
    requires dms.Valid() && NamedByKey(dms.Deep()) && queue != [] && AllRequests(dms, queue) && QueueApart(queue)
    modifies dms`metricGroups, dms.Maps(), queue[0].families, queue[0].Metrics(), queue[0].Pairs(), queue[0].done
    ensures dms.Valid() && NamedByKey(dms.Deep()) && (forall m :: m in dms.Maps() ==> m in old(dms.Maps()) || fresh(m))
    ensures Means(queue[0], old(Raw(queue[0])), w) && dms.Deep() == Apply(own, old(dms.Deep()), w)
    ensures queue[0].done != null ==>
              queue[0].done.events == old(queue[0].done.events) + Signals(Accepts(own, old(dms.Deep()), w), draining)
    ensures AllRequests(dms, queue[1..]) && QueueApart(queue[1..]) && AllIntact(queue[1..])
  {
    hide DeepFamilies, FamilyOf, DeepOf, Forest, TreeShaped, DistinctMaps, NamedByKey, KeyOf, Apply, Accepts, Sane,
         IsRequest, Intact, FamiliesIn, ShallowOf, Signals, RequestsApart;
    forall j | 0 <= j < |queue[1..]| ensures IsRequest(dms, queue[1..][j]) && RequestsApart(queue[0], queue[1..][j]) {
      assert queue[1..][j] == queue[j + 1];
    }
    ghost var sane := ServeNext(dms, queue[0], own, draining, queue[1..]);
    w := WriteOf(queue[0], sane);
    forall i, j | 0 <= i < j < |queue[1..]| ensures RequestsApart(queue[1..][i], queue[1..][j]) {
      assert old(RequestsApart(queue[i + 1], queue[j + 1]));
      StillDisjoint(queue[1..][i], queue[1..][j]);
    }
  }

  twostate lemma StillDisjoint(a: WriteRequest, new b: WriteRequest)
    requires old(allocated(b))
    requires old(RequestsApart(a, b)) && Intact(a) && Intact(b)
    ensures RequestsApart(a, b)
  {}

  ghost predicate DonesDistinct(queue: seq<WriteRequest>) {
    forall i, j :: 0 <= i < j < |queue| && queue[i].done != null ==> queue[i].done != queue[j].done
  }

  /** The queue as it arrives: the families of every request, and what its channel has seen. */
  datatype Arrival = Arrival(raw: map<string, Family>, events: seq<DoneEvent>)

  ghost function Arrived(wr: WriteRequest): Arrival
    reads *
  {
    Arrival(Raw(wr), if wr.done == null then [] else wr.done.events)
  }

  ghost function Arrivals(queue: seq<WriteRequest>): (r: seq<Arrival>)
    reads *
    ensures |r| == |queue| && forall j :: 0 <= j < |queue| ==> r[j] == Arrived(queue[j])
  {
    if queue == [] then [] else Arrivals(queue[..|queue| - 1]) + [Arrived(queue[|queue| - 1])]
  }

  /** The first requests of a queue have become writes and have been told the verdicts. */
  ghost predicate Answered(queue: seq<WriteRequest>, arrivals: seq<Arrival>, vs: Verdicts, draining: bool)
    requires |vs| <= |queue| == |arrivals|
    reads DonesOf(queue)
  {
    && (forall j :: 0 <= j < |vs| ==> Means(queue[j], arrivals[j].raw, vs[j].0))
    && forall j :: 0 <= j < |vs| && queue[j].done != null ==>
         assert queue[j].done in DonesOf(queue);
         queue[j].done.events == arrivals[j].events + Signals(vs[j].1, draining)
  }

  twostate lemma OneMoreAnswered(queue: seq<WriteRequest>, new arrivals: seq<Arrival>, new vs: Verdicts, new w: Write,
                                 new ok: bool, new draining: bool)
    requires old(allocated(arrivals)) && old(allocated(vs))
    requires |vs| < |queue| == |arrivals| && DonesDistinct(queue)
    requires old(Answered(queue, arrivals, vs, draining))
    requires forall d: DoneChannel :: old(allocated(d)) && d != queue[|vs|].done ==> Unwritten(d)
    requires Means(queue[|vs|], arrivals[|vs|].raw, w)
    requires queue[|vs|].done != null ==> queue[|vs|].done.events == arrivals[|vs|].events + Signals(ok, draining)
    ensures Answered(queue, arrivals, vs + [(w, ok)], draining)
  {
    var all := vs + [(w, ok)];
    forall j | 0 <= j < |all| && queue[j].done != null
      ensures queue[j].done.events == arrivals[j].events + Signals(all[j].1, draining)
    {
      if j < |vs| { assert Unwritten(queue[j].done); }
    }
  }

  /** The requests of a queue, served in order: the store becomes the fold of the writes they mean,
      and every `Done` channel gets exactly the signals its request calls for. */
  method ServeQueue(dms: DiskMetricStore, queue: seq<WriteRequest>, own: OwnMetrics, draining: bool)
    returns (ghost ws: seq<Write>)
    requires dms.Valid() && NamedByKey(dms.Deep()) && AllRequests(dms, queue) && QueueApart(queue)
    modifies dms`metricGroups, dms.Maps(), FamilyMapsOf(queue), QueuedMetrics(queue), QueuedPairs(queue), DonesOf(queue)
    ensures dms.Valid() && NamedByKey(dms.Deep()) && (forall m :: m in dms.Maps() ==> m in old(dms.Maps()) || fresh(m))
    ensures |ws| == |queue| && dms.Deep() == Fold(own, old(dms.Deep()), ws)
    ensures |VerdictsOf(own, old(dms.Deep()), ws)| == |ws|
    ensures Answered(queue, old(Arrivals(queue)), VerdictsOf(own, old(dms.Deep()), ws), draining)
  {
    hide DeepFamilies, FamilyOf, DeepOf, Forest, TreeShaped, DistinctMaps, NamedByKey, KeyOf, Apply, Accepts, Sane,
         IsRequest, FamiliesIn, ShallowOf, Signals, Means, AllRequests, QueueApart, DonesDistinct, Answered,
         RequestsApart, Arrivals, VerdictsOf, Fold, QueuedMetrics, QueuedPairs, MetricsIn, AllPairsIn;
    ghost var start, arrivals := dms.Deep(), Arrivals(queue);
    StartAnswering(queue, arrivals, own, start, draining);
    var i := 0;
    ws := [];
    ghost var vs: Verdicts := [];
    while i < |queue|
      invariant i == |ws| == |vs| <= |queue|
      invariant dms.Valid() && NamedByKey(dms.Deep()) && AllRequests(dms, queue[i..]) && QueueApart(queue[i..])
      invariant forall m :: m in dms.Maps() ==> m in old(dms.Maps()) || fresh(m)
      invariant forall j :: i <= j < |queue| ==> Intact(queue[j])
      invariant dms.Deep() == Fold(own, start, ws) && vs == VerdictsOf(own, start, ws)
      invariant Answered(queue, arrivals, vs, draining)
    {
      label next:
      ghost var w := ServeFirst(dms, queue[i..], own, draining);
      ghost var ok := Accepts(own, Fold(own, start, ws), w);
      OneMoreAnswered@next(queue, arrivals, vs, w, ok, draining);
      FoldSnoc(own, start, ws, w);
      VerdictsSnoc(own, start, ws, w);
      assert queue[i..][1..] == queue[i + 1..];
      ws, vs := ws + [w], vs + [(w, ok)];
      i := i + 1;
    }
  }

  lemma StartAnswering(queue: seq<WriteRequest>, arrivals: seq<Arrival>, own: OwnMetrics, s: Store<Family>, draining: bool)
    requires QueueApart(queue) && |arrivals| == |queue|
    ensures DonesDistinct(queue) && Answered(queue, arrivals, [], draining) && queue[0..] == queue
    ensures Fold(own, s, []) == s && VerdictsOf(own, s, []) == []
  {
    forall i, j | 0 <= i < j < |queue| && queue[i].done != null ensures queue[i].done != queue[j].done {
      assert RequestsApart(queue[i], queue[j]);
    }
  }

  // ------------------------------------------------------------ readers

  /** Nothing the queue depends on has been written. */
  twostate lemma QueueStays(dms: DiskMetricStore, new queue: seq<WriteRequest>)
    requires old(allocated(queue)) && old(AllRequests(dms, queue)) && old(QueueApart(queue))
    requires dms.Shallow() == old(dms.Shallow())
    requires forall m: FamilyMap :: old(allocated(m)) ==> Unwritten(m)
    requires forall d: DoneChannel :: old(allocated(d)) ==> Unwritten(d)
    requires forall f: MetricFamily :: old(allocated(f)) ==> Unwritten(f)
    requires forall m: Metric :: old(allocated(m)) ==> Unwritten(m)
    requires forall p: LabelPair :: old(allocated(p)) ==> Unwritten(p)
    ensures AllRequests(dms, queue) && QueueApart(queue)
    ensures Arrivals(queue) == old(Arrivals(queue))
  {
    hide IsRequest, RequestsApart, Intact, Raw, FamiliesIn, ShallowOf, Arrivals;
    forall j | 0 <= j < |queue|
      ensures IsRequest(dms, queue[j]) && Intact(queue[j]) && Arrived(queue[j]) == old(Arrived(queue[j]))
    {
      NotWritten(queue[j]);
      StaysRequest(dms, queue[j]);
      ArrivedStays(queue[j]);
    }
    forall i, j | 0 <= i < j < |queue| ensures RequestsApart(queue[i], queue[j]) {
      StillDisjoint(queue[i], queue[j]);
    }
    assert Arrivals(queue) == old(Arrivals(queue));
  }

  twostate lemma ArrivedStays(wr: WriteRequest)
    requires Intact(wr)
    ensures Arrived(wr) == old(Arrived(wr))
  {
    hide Raw;
  }

  lemma {:induction false} AvoidsQueued(f: MetricFamily, queue: seq<WriteRequest>)
    requires forall j :: 0 <= j < |queue| ==> Avoids(f, queue[j].Metrics(), queue[j].Pairs())
    ensures Avoids(f, QueuedMetrics(queue), QueuedPairs(queue))
  {
    if queue != [] { AvoidsQueued(f, queue[..|queue| - 1]); }
  }

  lemma {:induction false} MergedFrom(fs: seq<MetricFamily>, m: Metric)
    requires m in MetricsOf(fs)
    ensures exists f :: f in fs && m in f.metric
  {
    if m !in fs[|fs| - 1].metric { MergedFrom(fs[..|fs| - 1], m); }
  }

  /** A merged family reaches only what the families merged reach. */
  lemma MergeAvoids(r: MetricFamily, fs: seq<MetricFamily>, metrics: set<Metric>, pairs: set<LabelPair>)
    requires r.metric == MetricsOf(fs) && forall f :: f in fs ==> Avoids(f, metrics, pairs)
    ensures Avoids(r, metrics, pairs)
  {
    forall m | m in r.metric ensures m !in metrics && forall p :: p in m.labels ==> p !in pairs {
      MergedFrom(fs, m);
      var f :| f in fs && m in f.metric;
      assert Avoids(f, metrics, pairs);
    }
  }

  twostate lemma ValuesStay(fs: seq<MetricFamily>)
    requires forall f :: f in fs ==> Untouched(f)
    ensures ValuesOf(fs) == old(ValuesOf(fs))
  {
    forall i | 0 <= i < |fs| ensures FamilyOf(fs[i]) == old(FamilyOf(fs[i])) { UntouchedFamily(fs[i]); }
    assert ValuesOf(fs) == old(ValuesOf(fs));
  }

  /** Everything a reader can get hold of. */
  method Read(dms: DiskMetricStore, ghost queue: seq<WriteRequest>)
    returns (snapshot: GroupMap, gathered: seq<MetricFamily>, ghost order: seq<string>, ghost names: seq<string>)
    requires dms.Valid() && NamedByKey(dms.Deep()) && AllRequests(dms, queue) && QueueApart(queue)
    ensures dms.Shallow() == old(dms.Shallow()) && dms.Deep() == old(dms.Deep())
    ensures AllRequests(dms, queue) && QueueApart(queue) && Arrivals(queue) == old(Arrivals(queue))
    ensures ShallowOf(snapshot) == dms.Shallow() && forall m :: m in MapsIn(snapshot) ==> fresh(m)
    ensures Enumerates(order, dms.Deep().Keys) && MergedFamilies(dms.Deep(), order, names, ValuesOf(gathered))
    ensures HelpIsRight(dms.Deep(), dms.predefinedHelp, ValuesOf(gathered))
    ensures forall f :: f in dms.Families() ==> Avoids(f, QueuedMetrics(queue), QueuedPairs(queue))
    ensures forall f :: f in gathered ==> Avoids(f, QueuedMetrics(queue), QueuedPairs(queue))
    ensures QueuedMetrics(queue) == old(QueuedMetrics(queue)) && QueuedPairs(queue) == old(QueuedPairs(queue))
  {
    hide HelpIsRight, AllRequests, QueueApart, DeepOf, NamedByKey, DistinctMaps, MergedFamilies, IsMergeOf, FamiliesIn, Avoids,
         QueuedMetrics, QueuedPairs, Arrivals, ValuesOf, Enumerates, NamesIn, Listed;
    ghost var before := dms.Shallow();
    snapshot := dms.GetMetricFamiliesMap();
    SparedStore(before);
    assert dms.Shallow() == before;
    ghost var store := ShallowOf(snapshot);
    gathered, order, names := dms.GetMetricFamilies();
    SparedStore(before);
    assert dms.Shallow() == before && ShallowOf(snapshot) == store;
    QueueStays(dms, queue);
    GatheredAvoids(dms, queue, gathered, order, names);
    forall f | f in dms.Families() ensures Avoids(f, QueuedMetrics(queue), QueuedPairs(queue)) { StoredAvoids(dms, queue, f); }
  }

  lemma GatheredAvoids(dms: DiskMetricStore, queue: seq<WriteRequest>, gathered: seq<MetricFamily>,
                       order: seq<string>, names: seq<string>)
    requires AllRequests(dms, queue) && |gathered| == |names|
    requires forall i :: 0 <= i < |names| ==>
               IsMergeOf(gathered[i], Listed(dms.Shallow(), order, names[i]), names[i], dms.predefinedHelp)
    ensures forall f :: f in gathered ==> Avoids(f, QueuedMetrics(queue), QueuedPairs(queue))
  {
    forall i | 0 <= i < |gathered| ensures Avoids(gathered[i], QueuedMetrics(queue), QueuedPairs(queue)) {
      var fs := Listed(dms.Shallow(), order, names[i]);
      ListedFrom(dms.Shallow(), order, names[i]);
      forall f | f in fs ensures Avoids(f, QueuedMetrics(queue), QueuedPairs(queue)) {
        StoredAvoids(dms, queue, f);
      }
      assert IsMergeOf(gathered[i], fs, names[i], dms.predefinedHelp);
      MergeAvoids(gathered[i], fs, QueuedMetrics(queue), QueuedPairs(queue));
    }
  }

  lemma StoredAvoids(dms: DiskMetricStore, queue: seq<WriteRequest>, f: MetricFamily)
    requires AllRequests(dms, queue) && f in dms.Families()
    ensures Avoids(f, QueuedMetrics(queue), QueuedPairs(queue))
  {
    forall j | 0 <= j < |queue| ensures Avoids(f, queue[j].Metrics(), queue[j].Pairs()) {
      assert IsRequest(dms, queue[j]);
    }
    AvoidsQueued(f, queue);
  }

  twostate lemma AvoidingStays(f: MetricFamily, new metrics: set<Metric>, new pairs: set<LabelPair>)
    requires old(allocated(metrics)) && old(allocated(pairs)) && old(Avoids(f, metrics, pairs)) && Unwritten(f)
    requires forall m: Metric :: old(allocated(m)) && m !in metrics ==> Unwritten(m)
    requires forall p: LabelPair :: old(allocated(p)) && p !in pairs ==> Unwritten(p)
    ensures Untouched(f)
  {
    forall m | m in f.metric ensures unchanged(m) { assert Unwritten(m); }
    forall p ensures p in PairsIn(f.metric) <==> p in old(PairsIn(f.metric)) {}
    forall p | p in PairsIn(f.metric) ensures unchanged(p) { assert Unwritten(p); }
  }

  twostate lemma HeldStays(store: Store<MetricFamily>, new gathered: seq<MetricFamily>, new metrics: set<Metric>,
                            new pairs: set<LabelPair>)
    requires old(allocated(gathered)) && old(allocated(metrics)) && old(allocated(pairs))
    requires old(forall f :: f in FamiliesIn(store) ==> Avoids(f, metrics, pairs))
    requires old(forall f :: f in gathered ==> Avoids(f, metrics, pairs))
    requires forall f: MetricFamily :: old(allocated(f)) ==> Unwritten(f)
    requires forall m: Metric :: old(allocated(m)) && m !in metrics ==> Unwritten(m)
    requires forall p: LabelPair :: old(allocated(p)) && p !in pairs ==> Unwritten(p)
    ensures DeepOf(store) == old(DeepOf(store)) && ValuesOf(gathered) == old(ValuesOf(gathered))
  {
    hide Avoids, Untouched, DeepOf, ValuesOf;
    forall f | f in FamiliesIn(store) ensures Untouched(f) {
      assert Unwritten(f) && old(Avoids(f, metrics, pairs));
      AvoidingStays(f, metrics, pairs);
    }
    forall f | f in gathered ensures Untouched(f) {
      assert Unwritten(f) && old(Avoids(f, metrics, pairs));
      AvoidingStays(f, metrics, pairs);
    }
    UntouchedStore(store);
    ValuesStay(gathered);
  }

  /** Serving a queue beside a reader who holds a copy of the maps and a merged list of families. The
      store and the reader are then as they must be for the next queue. */
  method ServeBeside(dms: DiskMetricStore, queue: seq<WriteRequest>, own: OwnMetrics, draining: bool,
                     ghost snapshot: GroupMap, ghost gathered: seq<MetricFamily>)
    returns (ghost ws: seq<Write>)
    requires dms.Valid() && NamedByKey(dms.Deep()) && AllRequests(dms, queue) && QueueApart(queue)
    requires MapsIn(snapshot) !! dms.Maps()
    requires forall f :: f in FamiliesIn(ShallowOf(snapshot)) ==> Avoids(f, QueuedMetrics(queue), QueuedPairs(queue))
    requires forall f :: f in gathered ==> Avoids(f, QueuedMetrics(queue), QueuedPairs(queue))
    modifies dms`metricGroups, dms.Maps(), FamilyMapsOf(queue), QueuedMetrics(queue), QueuedPairs(queue), DonesOf(queue)
    ensures dms.Valid() && NamedByKey(dms.Deep()) && MapsIn(snapshot) !! dms.Maps()
    ensures |ws| == |queue| && dms.Deep() == Fold(own, old(dms.Deep()), ws)
    ensures ShallowOf(snapshot) == old(ShallowOf(snapshot))
    ensures DeepOf(ShallowOf(snapshot)) == old(DeepOf(ShallowOf(snapshot)))
    ensures ValuesOf(gathered) == old(ValuesOf(gathered))
  {
    hide AllRequests, QueueApart, DeepOf, NamedByKey, DistinctMaps, Avoids, QueuedMetrics, QueuedPairs, Arrivals, ValuesOf,
         Fold, Answered, VerdictsOf, ShallowOf, FamiliesIn;
    ghost var store, metrics, pairs := ShallowOf(snapshot), QueuedMetrics(queue), QueuedPairs(queue);
    ws := ServeQueue(dms, queue, own, draining);
    ShallowStays(snapshot);
    HeldStays(store, gathered, metrics, pairs);
  }

  /** Snapshot isolation for one queue: what a reader got before it is served, a copy of the maps and a
      merged list of families, means the same store afterwards, down to the label pairs. */
  method ReadThenServe(dms: DiskMetricStore, queue: seq<WriteRequest>, own: OwnMetrics, draining: bool)
    returns (snapshot: GroupMap, gathered: seq<MetricFamily>, ghost order: seq<string>, ghost names: seq<string>,
             ghost ws: seq<Write>)
    requires dms.Valid() && NamedByKey(dms.Deep()) && AllRequests(dms, queue) && QueueApart(queue)
    modifies dms`metricGroups, dms.Maps(), FamilyMapsOf(queue), QueuedMetrics(queue), QueuedPairs(queue), DonesOf(queue)
    ensures |ws| == |queue| && dms.Deep() == Fold(own, old(dms.Deep()), ws)
    ensures DeepOf(ShallowOf(snapshot)) == old(dms.Deep())
    ensures Enumerates(order, old(dms.Deep()).Keys) && MergedFamilies(old(dms.Deep()), order, names, ValuesOf(gathered))
    ensures HelpIsRight(old(dms.Deep()), dms.predefinedHelp, ValuesOf(gathered))
  {
    hide HelpIsRight, Enumerates, AllRequests, QueueApart, DeepOf, NamedByKey, DistinctMaps, MergedFamilies, Avoids, QueuedMetrics, QueuedPairs,
         Arrivals, ValuesOf, Fold, Answered, VerdictsOf;
    snapshot, gathered, order, names := Read(dms, queue);
    ws := ServeBeside(dms, queue, own, draining, snapshot, gathered);
  }
}
