/** What the store's loop relies on between two of its steps, on the heap: the store, the queued
    requests, the one in hand, and what readers have been given. */
module LoopHeap {
  import opened Dto
  import opened LabelSpec
  import opened GroupingKey
  import opened Objects
  import opened Sanitizer
  import opened StoreSpec
  import opened StoreHeap
  import opened GatherCheck
  import opened Gathering
  import opened DiskStore
  import opened Serving
  import opened Queue

  /** What one reader holds, and what it meant when it was read. */
  datatype Reader = Reader(snapshot: GroupMap, gathered: seq<MetricFamily>, store: Store<Family>, values: seq<Family>)

  /** None of the families reaches what the request brings. */
  ghost predicate AllAvoid(known: set<MetricFamily>, wr: WriteRequest)
    reads *
  {
    forall f :: f in known ==> Avoids(f, wr.Metrics(), wr.Pairs())
  }

  ghost predicate Queued(known: set<MetricFamily>, wr: WriteRequest)
    reads *
  {
    (wr.families != null ==> Forest(wr.families.m)) && AllAvoid(known, wr)
  }

  ghost predicate QueueReady(known: set<MetricFamily>, queue: seq<WriteRequest>)
    reads *
  {
    (forall j :: 0 <= j < |queue| ==> Queued(known, queue[j])) && QueueApart(queue)
  }

  ghost predicate StoreReady(dms: DiskMetricStore, known: set<MetricFamily>)
    reads *
  {
    dms.Valid() && NamedByKey(dms.Deep()) && dms.Families() <= known
  }

  /** The reader's maps are its own, its families are known, and everything means what it meant. */
  ghost predicate ReaderReady(dms: DiskMetricStore, known: set<MetricFamily>, r: Reader)
    reads *
  {
    && MapsIn(r.snapshot) !! dms.Maps()
    && FamiliesIn(ShallowOf(r.snapshot)) <= known && (forall f :: f in r.gathered ==> f in known)
    && DeepOf(ShallowOf(r.snapshot)) == r.store && ValuesOf(r.gathered) == r.values
  }

  ghost predicate ReadersReady(dms: DiskMetricStore, known: set<MetricFamily>, readers: seq<Reader>)
    reads *
  {
    forall i :: 0 <= i < |readers| ==> ReaderReady(dms, known, readers[i])
  }

  // ------------------------------------------------------------ nothing relevant written

  /** Of what the loop relies on nothing has been written but these metrics and label pairs. */
  twostate lemma KnownUntouched(known: set<MetricFamily>, new metrics: set<Metric>, new pairs: set<LabelPair>)
    requires old(allocated(metrics)) && old(allocated(pairs))
    requires old(forall f :: f in known ==> Avoids(f, metrics, pairs))
    requires forall f: MetricFamily :: old(allocated(f)) ==> Unwritten(f)
    requires forall m: Metric :: old(allocated(m)) && m !in metrics ==> Unwritten(m)
    requires forall p: LabelPair :: old(allocated(p)) && p !in pairs ==> Unwritten(p)
    ensures forall f :: f in known ==> Untouched(f)
  {
    hide Untouched, Avoids;
    forall f | f in known ensures Untouched(f) {
      assert Unwritten(f) && old(Avoids(f, metrics, pairs));
      AvoidingStays(f, metrics, pairs);
    }
  }

  twostate lemma ReaderStays(dms: DiskMetricStore, new known: set<MetricFamily>, new r: Reader)
    requires old(allocated(known)) && old(allocated(r)) && old(ReaderReady(dms, known, r))
    requires forall m :: m in dms.Maps() ==> m in old(dms.Maps()) || fresh(m)
    requires forall m :: m in MapsIn(r.snapshot) ==> Unwritten(m)
    requires forall f :: f in known ==> Untouched(f)
    ensures ReaderReady(dms, known, r)
  {
    hide DeepOf, ValuesOf, Untouched;
    ShallowStays(r.snapshot);
    UntouchedStore(ShallowOf(r.snapshot));
    ValuesStay(r.gathered);
  }

  /** The same families read before and after a write elsewhere avoid the same request. */
  twostate lemma AvoidStays(known: set<MetricFamily>, new wr: WriteRequest)
    requires old(allocated(wr)) && old(AllAvoid(known, wr)) && Intact(wr)
    requires forall f :: f in known ==> Untouched(f)
    ensures AllAvoid(known, wr)
  {
    hide Raw, Forest;
    forall f | f in known ensures Avoids(f, wr.Metrics(), wr.Pairs()) {
      assert Untouched(f);
      UntouchedPairs(f);
      assert old(Avoids(f, wr.Metrics(), wr.Pairs()));
    }
  }

  /** The queue beside a request that is worked on. */
  twostate lemma QueueBeside(known: set<MetricFamily>, new queue: seq<WriteRequest>, new a: WriteRequest)
    requires old(allocated(queue)) && old(allocated(a)) && old(QueueReady(known, queue))
    requires forall j :: 0 <= j < |queue| ==> old(RequestsApart(a, queue[j]))
    requires forall f :: f in known ==> Untouched(f)
    requires forall f: MetricFamily :: old(allocated(f)) ==> Unwritten(f)
    requires forall m: Metric :: old(allocated(m)) && m !in old(a.Metrics()) ==> Unwritten(m)
    requires forall p: LabelPair :: old(allocated(p)) && p !in old(a.Pairs()) ==> Unwritten(p)
    requires forall m: FamilyMap :: old(allocated(m)) && m != a.families ==> Unwritten(m)
    requires forall d: DoneChannel :: old(allocated(d)) && d != a.done ==> Unwritten(d)
    ensures QueueReady(known, queue) && forall j :: 0 <= j < |queue| ==> Intact(queue[j])
  {
    hide Intact, Untouched, AllAvoid, Forest;
    forall j | 0 <= j < |queue| ensures Queued(known, queue[j]) && Intact(queue[j]) {
      ApartUnwritten(a, queue[j]);
      NotWritten(queue[j]);
      AvoidStays(known, queue[j]);
    }
    forall i, j | 0 <= i < j < |queue| ensures RequestsApart(queue[i], queue[j]) {
      StillDisjoint(queue[i], queue[j]);
    }
  }

  twostate lemma ApartUnwritten(a: WriteRequest, new b: WriteRequest)
    requires old(allocated(b)) && old(RequestsApart(a, b))
    requires forall m: Metric :: old(allocated(m)) && m !in old(a.Metrics()) ==> Unwritten(m)
    requires forall p: LabelPair :: old(allocated(p)) && p !in old(a.Pairs()) ==> Unwritten(p)
    requires forall m: FamilyMap :: old(allocated(m)) && m != a.families ==> Unwritten(m)
    requires forall d: DoneChannel :: old(allocated(d)) && d != a.done ==> Unwritten(d)
    ensures b.families != null ==> Unwritten(b.families)
    ensures b.done != null ==> Unwritten(b.done)
    ensures forall m :: m in old(b.Metrics()) ==> Unwritten(m)
    ensures forall p :: p in old(b.Pairs()) ==> Unwritten(p)
  {}

  /** A request of no objects: nothing is worked on. */
  function Nobody(): WriteRequest { WriteRequest(map[], 0, null, false, null) }

  /** What becomes of a request's families avoids the other requests. */
  twostate lemma HandAvoids(a: WriteRequest, new b: WriteRequest, new held: set<MetricFamily>)
    requires old(allocated(b)) && old(RequestsApart(a, b)) && Intact(b)
    requires Descend(held, old(a.FamilyObjects()))
    requires forall f: MetricFamily :: old(allocated(f)) ==> Unwritten(f)
    ensures AllAvoid(held, b)
  {
    hide Raw, Forest, FamilyOf, DeepFamilies;
    forall f | f in held ensures Avoids(f, b.Metrics(), b.Pairs()) {
      if old(allocated(f)) { assert Unwritten(f); }
    }
  }

  lemma QueueKnowsMore(known: set<MetricFamily>, more: set<MetricFamily>, queue: seq<WriteRequest>)
    requires QueueReady(known, queue) && forall j :: 0 <= j < |queue| ==> AllAvoid(more, queue[j])
    ensures QueueReady(known + more, queue)
  {
    hide Avoids, Forest;
  }

  lemma ReadersKnowMore(dms: DiskMetricStore, known: set<MetricFamily>, more: set<MetricFamily>, readers: seq<Reader>)
    requires ReadersReady(dms, known, readers)
    ensures ReadersReady(dms, known + more, readers)
  {
    hide DeepOf, ValuesOf, FamiliesIn, ShallowOf;
    forall i | 0 <= i < |readers| ensures ReaderReady(dms, known + more, readers[i]) {
      assert ReaderReady(dms, known, readers[i]);
    }
  }

  /** The requests of a ready queue are requests to the store. */
  lemma ReadyIsRequests(dms: DiskMetricStore, known: set<MetricFamily>, queue: seq<WriteRequest>)
    requires StoreReady(dms, known) && QueueReady(known, queue)
    ensures AllRequests(dms, queue)
  {
    hide Avoids, Forest, DeepOf, NamedByKey, FamiliesIn, ShallowOf;
    forall j | 0 <= j < |queue| ensures IsRequest(dms, queue[j]) { assert Queued(known, queue[j]); }
  }

  // ------------------------------------------------------------ new requests

  /** A request of objects that were not there before. */
  twostate predicate IsNew(new wr: WriteRequest)
    reads wr.families, wr.FamilyObjects(), wr.Metrics()
  {
    && (wr.families != null ==> fresh(wr.families) && Forest(wr.families.m))
    && (forall f :: f in wr.FamilyObjects() ==> IsNewGauge(f)) && (wr.done != null ==> fresh(wr.done))
  }

  twostate lemma NewParts(new wr: WriteRequest)
    requires IsNew(wr)
    ensures forall f :: f in wr.FamilyObjects() ==> fresh(f)
    ensures forall m :: m in wr.Metrics() ==> fresh(m)
    ensures forall p :: p in wr.Pairs() ==> fresh(p)
    ensures wr.done != null ==> fresh(wr.done)
  {
    hide Forest;
  }

  twostate lemma NewAvoided(f: MetricFamily, new metrics: set<Metric>, new pairs: set<LabelPair>)
    requires forall m :: m in metrics ==> fresh(m)
    requires forall p :: p in pairs ==> fresh(p)
    requires Unwritten(f) && forall m: Metric :: old(allocated(m)) ==> Unwritten(m)
    ensures Avoids(f, metrics, pairs)
  {
    forall m | m in f.metric ensures m !in metrics && forall p :: p in m.labels ==> p !in pairs { assert Unwritten(m); }
  }

  twostate lemma NewIsQueued(known: set<MetricFamily>, new wr: WriteRequest)
    requires IsNew(wr) && forall f: MetricFamily :: old(allocated(f)) ==> Unwritten(f)
    requires forall m: Metric :: old(allocated(m)) ==> Unwritten(m)
    ensures Queued(known, wr)
  {
    hide Forest, IsNewGauge, MetricsIn, AllPairsIn;
    NewParts(wr);
    var metrics, pairs := wr.Metrics(), wr.Pairs();
    forall f | f in known ensures Avoids(f, metrics, pairs) { NewAvoided(f, metrics, pairs); }
  }

  twostate lemma SameMetrics(fs: set<MetricFamily>)
    requires forall f: MetricFamily :: old(allocated(f)) ==> Unwritten(f)
    requires forall m: Metric :: old(allocated(m)) ==> Unwritten(m)
    ensures MetricsIn(fs) == old(MetricsIn(fs)) && AllPairsIn(fs) == old(AllPairsIn(fs))
  {
    forall f | f in fs ensures f.metric == old(f.metric) { assert Unwritten(f); }
    assert MetricsIn(fs) == old(MetricsIn(fs));
    forall f, m | f in fs && m in f.metric ensures m.labels == old(m.labels) { assert Unwritten(m); }
    forall f | f in fs ensures PairsIn(f.metric) == old(PairsIn(f.metric)) {}
  }

  twostate lemma NewIsApart(a: WriteRequest, new wr: WriteRequest)
    requires IsNew(wr) && forall f: MetricFamily :: old(allocated(f)) ==> Unwritten(f)
    requires forall m: FamilyMap :: old(allocated(m)) ==> Unwritten(m)
    requires forall m: Metric :: old(allocated(m)) ==> Unwritten(m)
    ensures RequestsApart(a, wr)
  {
    hide Forest, IsNewGauge, MetricsIn, AllPairsIn;
    NewParts(wr);
    if a.families != null { assert Unwritten(a.families); }
    assert a.FamilyObjects() == old(a.FamilyObjects());
    SameMetrics(a.FamilyObjects());
    var fs, ms, ps := old(a.FamilyObjects()), old(a.Metrics()), old(a.Pairs());
    assert old(allocated(fs)) && old(allocated(ms)) && old(allocated(ps));
  }
}
