/** The steps the loop makes on the heap: checking the request at the head of the queue, and carrying
    out the verdict. Between the two the store is as it was. */
module LoopSteps {
  import opened Dto
  import opened LabelSpec
  import opened GroupingKey
  import opened Objects
  import opened Sanitizer
  import opened StoreSpec
  import opened StoreHeap
  import opened GatherCheck
  import opened Gathering
  import opened DiskStore
  import opened Serving
  import opened Queue
  import opened LoopHeap

  /** Two requests use different family maps and channels. */
  ghost predicate OwnObjects(a: WriteRequest, b: WriteRequest) {
    (a.families != null ==> a.families != b.families) && (a.done != null ==> a.done != b.done)
  }

  /** A request in hand: the verdict is reached, and its families are ready to be stored. */
  ghost predicate HandReady(own: OwnMetrics, dms: DiskMetricStore, known: set<MetricFamily>, queue: seq<WriteRequest>,
                            wr: WriteRequest, ok: bool, sane: map<string, Family>)
    reads *
  {
    && (ok <==> Accepts(own, dms.Deep(), WriteOf(wr, sane)))
    && (ok && wr.families != null ==>
          && NamedFamilies(sane) && wr.FamilyObjects() <= known
          && DeepFamilies(wr.families.m) == if wr.done == null then sane else Completed(dms.Deep(), wr, sane))
    && forall j :: 0 <= j < |queue| ==> OwnObjects(wr, queue[j])
  }

  lemma HandVerdict(own: OwnMetrics, dms: DiskMetricStore, known: set<MetricFamily>, queue: seq<WriteRequest>,
                    wr: WriteRequest, ok: bool, sane: map<string, Family>)
    requires HandReady(own, dms, known, queue, wr, ok, sane)
    ensures ok <==> Accepts(own, dms.Deep(), WriteOf(wr, sane))
  {}

  ghost predicate Ready(dms: DiskMetricStore, known: set<MetricFamily>, queue: seq<WriteRequest>, readers: seq<Reader>)
    reads *
  {
    StoreReady(dms, known) && QueueReady(known, queue) && ReadersReady(dms, known, readers)
  }

  lemma HeadIsRequest(dms: DiskMetricStore, known: set<MetricFamily>, queue: seq<WriteRequest>, readers: seq<Reader>)
    requires Ready(dms, known, queue, readers) && queue != []
    ensures dms.Valid() && NamedByKey(dms.Deep()) && IsRequest(dms, queue[0])
    ensures QueueReady(known, queue[1..])
    ensures forall j :: 0 <= j < |queue[1..]| ==> RequestsApart(queue[0], queue[1..][j]) && OwnObjects(queue[0], queue[1..][j])
    ensures AllAvoid(known, queue[0])
  {
    hide IsRequest, RequestsApart, ReadersReady, Forest, AllAvoid, NamedByKey;
    ReadyIsRequests(dms, known, queue);
    assert Queued(known, queue[0]);
    forall j | 0 <= j < |queue[1..]|
      ensures Queued(known, queue[1..][j]) && RequestsApart(queue[0], queue[1..][j]) && OwnObjects(queue[0], queue[1..][j])
    {
      assert queue[1..][j] == queue[j + 1];
      assert RequestsApart(queue[0], queue[j + 1]);
      ApartObjects(queue[0], queue[j + 1]);
    }
    forall i, j | 0 <= i < j < |queue[1..]| ensures RequestsApart(queue[1..][i], queue[1..][j]) {
      assert RequestsApart(queue[i + 1], queue[j + 1]);
    }
  }

  lemma ApartObjects(a: WriteRequest, b: WriteRequest)
    requires RequestsApart(a, b)
    ensures OwnObjects(a, b)
  {}

  /** Checks the request at the head of the queue. The store keeps its meaning, and so does
      everything readers hold. */
  method CheckHead(dms: DiskMetricStore, queue: seq<WriteRequest>, own: OwnMetrics,
                   ghost known: set<MetricFamily>, ghost readers: seq<Reader>)
    returns (ok: bool, ghost sane: map<string, Family>, ghost known': set<MetricFamily>)
    requires Ready(dms, known, queue, readers) && queue != []
    modifies queue[0].families, queue[0].Metrics(), queue[0].Pairs(), queue[0].done
    ensures Ready(dms, known', queue[1..], readers) && HandReady(own, dms, known', queue[1..], queue[0], ok, sane)
    ensures dms.Deep() == old(dms.Deep()) && Means(queue[0], old(Raw(queue[0])), WriteOf(queue[0], sane))
    ensures queue[0].done != null ==>
              queue[0].done.events == old(queue[0].done.events) + if ok then [] else [ErrorSent]
    ensures forall j :: 0 <= j < |queue[1..]| ==> Intact(queue[1..][j])
  {
    hide DeepOf, NamedByKey, DistinctMaps, DeepFamilies, FamilyOf, Forest, Accepts, Completed, Sane, NamedFamilies, QueueReady,
         RequestsApart, Intact, Avoids, ReaderReady, IsRequest, FamiliesIn, ShallowOf, Descend;
    var wr, rest := queue[0], queue[1..];
    HeadIsRequest(dms, known, queue, readers);
    ghost var metrics, pairs := wr.Metrics(), wr.Pairs();
    ok, sane := CheckWriteRequest(dms, wr, own);
    KnownUntouched(known, metrics, pairs);
    QueueBeside(known, rest, wr);
    forall i | 0 <= i < |readers| ensures ReaderReady(dms, known, readers[i]) {
      ReaderStays(dms, known, readers[i]);
    }
    ghost var more := if ok then wr.FamilyObjects() else {};
    if ok && wr.families != null {
      forall j | 0 <= j < |rest| ensures AllAvoid(more, rest[j]) { HandAvoids(wr, rest[j], more); }
    }
    known' := known + more;
    QueueKnowsMore(known, more, rest);
    ReadersKnowMore(dms, known, more, readers);
  }

  /** Carries out the verdict: the store's meaning becomes the specified one. */
  method FinishHand(dms: DiskMetricStore, ghost queue: seq<WriteRequest>, own: OwnMetrics, wr: WriteRequest, ok: bool,
                    draining: bool, ghost known: set<MetricFamily>, ghost readers: seq<Reader>, ghost sane: map<string, Family>)
    returns (ghost known': set<MetricFamily>)
    requires Ready(dms, known, queue, readers) && HandReady(own, dms, known, queue, wr, ok, sane)
    modifies dms`metricGroups, dms.Maps(), wr.families, wr.done
    ensures Ready(dms, known', queue, readers)
    ensures dms.Deep() == Apply(own, old(dms.Deep()), WriteOf(wr, sane))
    ensures wr.done != null ==> wr.done.events == old(wr.done.events) + if draining then [] else [Closed]
    ensures forall j :: 0 <= j < |queue| ==> Intact(queue[j])
  {
    hide DeepOf, NamedByKey, DistinctMaps, DeepFamilies, FamilyOf, Forest, Accepts, Completed, NamedFamilies,
         RequestsApart, Intact, Avoids, FamiliesIn, ShallowOf, Outcome, Apply, AllAvoid;
    ghost var before := dms.Deep();
    ghost var families := if wr.families == null then map[] else DeepFamilies(wr.families.m);
    Finish(dms, wr, ok, draining);
    ServedMeaning(own, before, wr, sane, families, dms.Deep());
    NobodyWrote(dms, known, queue, wr);
    forall i | 0 <= i < |readers| ensures ReaderReady(dms, known, readers[i]) {
      assert old(ReaderReady(dms, known, readers[i]));
      ReaderStays(dms, known, readers[i]);
    }
    ghost var more := dms.Families();
    known' := known + more;
    forall j | 0 <= j < |queue| ensures AllAvoid(more, queue[j]) { GaugesAvoid(known, queue[j], more); }
    QueueKnowsMore(known, more, queue);
    ReadersKnowMore(dms, known, more, readers);
  }

  /** No family, metric or label pair has been written, and of the rest nothing the queue uses. */
  twostate lemma NobodyWrote(dms: DiskMetricStore, new known: set<MetricFamily>, new queue: seq<WriteRequest>,
                             new wr: WriteRequest)
    requires old(allocated(known)) && old(allocated(queue)) && old(allocated(wr)) && old(QueueReady(known, queue))
    requires forall j :: 0 <= j < |queue| ==> OwnObjects(wr, queue[j])
    requires forall f: MetricFamily :: old(allocated(f)) ==> Unwritten(f)
    requires forall m: Metric :: old(allocated(m)) ==> Unwritten(m)
    requires forall p: LabelPair :: old(allocated(p)) ==> Unwritten(p)
    requires forall m: FamilyMap :: old(allocated(m)) && m != wr.families ==> Unwritten(m)
    requires forall d: DoneChannel :: old(allocated(d)) && d != wr.done ==> Unwritten(d)
    ensures forall f :: f in known ==> Untouched(f)
    ensures QueueReady(known, queue) && forall j :: 0 <= j < |queue| ==> Intact(queue[j])
  {
    hide Intact, Untouched, AllAvoid, Forest, Avoids;
    forall f | f in known ensures Untouched(f) {
      assert Unwritten(f);
      AllUnwritten(f);
    }
    forall j | 0 <= j < |queue| ensures Queued(known, queue[j]) && Intact(queue[j]) {
      NotWritten(queue[j]);
      AvoidStays(known, queue[j]);
    }
    forall i, j | 0 <= i < j < |queue| ensures RequestsApart(queue[i], queue[j]) {
      StillDisjoint(queue[i], queue[j]);
    }
  }

  twostate lemma AllUnwritten(f: MetricFamily)
    requires Unwritten(f)
    requires forall m: Metric :: old(allocated(m)) ==> Unwritten(m)
    requires forall p: LabelPair :: old(allocated(p)) ==> Unwritten(p)
    ensures Untouched(f)
  {
    forall m | m in f.metric ensures unchanged(m) { assert Unwritten(m); }
    forall p ensures p in PairsIn(f.metric) <==> p in old(PairsIn(f.metric)) {}
    forall p | p in PairsIn(f.metric) ensures unchanged(p) { assert Unwritten(p); }
  }

  /** New gauges avoid every request. */
  twostate lemma GaugesAvoid(known: set<MetricFamily>, new wr: WriteRequest, new more: set<MetricFamily>)
    requires old(allocated(wr)) && AllAvoid(known, wr) && Intact(wr)
    requires forall f :: f in more ==> f in known || IsNewGauge(f)
    ensures AllAvoid(more, wr)
  {
    hide Raw, Forest, FamilyOf, DeepFamilies;
    forall f | f in more ensures Avoids(f, wr.Metrics(), wr.Pairs()) {}
  }

  // ------------------------------------------------------------ steps that touch none of this

  /** If neither the store nor a request nor a family has been written, everything is as ready as it
      was, and the store means what it meant. */
  twostate lemma ReadyStays(dms: DiskMetricStore, new known: set<MetricFamily>, new queue: seq<WriteRequest>,
                            new readers: seq<Reader>)
    requires old(allocated(known)) && old(allocated(queue)) && old(allocated(readers)) && old(Ready(dms, known, queue, readers))
    requires Unwritten(dms) && forall m: MetricsMap :: old(allocated(m)) ==> Unwritten(m)
    requires forall m: FamilyMap :: old(allocated(m)) ==> Unwritten(m)
    requires forall d: DoneChannel :: old(allocated(d)) ==> Unwritten(d)
    requires forall f: MetricFamily :: old(allocated(f)) ==> Unwritten(f)
    requires forall m: Metric :: old(allocated(m)) ==> Unwritten(m)
    requires forall p: LabelPair :: old(allocated(p)) ==> Unwritten(p)
    ensures Ready(dms, known, queue, readers) && dms.Deep() == old(dms.Deep()) && dms.Shallow() == old(dms.Shallow())
  {
    hide DeepOf, NamedByKey, RequestsApart, AllAvoid, Forest, FamiliesIn;
    forall j | 0 <= j < |queue| ensures OwnObjects(Nobody(), queue[j]) {}
    NobodyWrote(dms, known, queue, Nobody());
    assert dms.metricGroups == old(dms.metricGroups);
    ShallowStays(dms.metricGroups);
    SparedStore(dms.Shallow());
    forall i | 0 <= i < |readers| ensures ReaderReady(dms, known, readers[i]) {
      assert old(ReaderReady(dms, known, readers[i]));
      ReaderStays(dms, known, readers[i]);
    }
  }

  twostate lemma HandStays(dms: DiskMetricStore, new own: OwnMetrics, new known: set<MetricFamily>, new queue: seq<WriteRequest>,
                           new wr: WriteRequest, new ok: bool, new sane: map<string, Family>)
    requires old(allocated(own)) && old(allocated(known)) && old(allocated(queue)) && old(allocated(wr)) && old(allocated(sane))
    requires old(HandReady(own, dms, known, queue, wr, ok, sane)) && dms.Deep() == old(dms.Deep())
    requires forall m: FamilyMap :: old(allocated(m)) ==> Unwritten(m)
    requires forall f: MetricFamily :: old(allocated(f)) ==> Unwritten(f)
    requires forall m: Metric :: old(allocated(m)) ==> Unwritten(m)
    requires forall p: LabelPair :: old(allocated(p)) ==> Unwritten(p)
    ensures HandReady(own, dms, known, queue, wr, ok, sane)
  {
    hide DeepOf, DeepFamilies, Accepts, Completed, NamedFamilies, FamiliesIn, ShallowOf;
    if wr.families != null {
      assert Unwritten(wr.families);
      SparedFamilies(wr.families.m);
    }
  }

  lemma HandKnowsMore(dms: DiskMetricStore, own: OwnMetrics, known: set<MetricFamily>, more: set<MetricFamily>,
                      queue: seq<WriteRequest>, wr: WriteRequest, ok: bool, sane: map<string, Family>)
    requires HandReady(own, dms, known, queue, wr, ok, sane) && known <= more
    ensures HandReady(own, dms, more, queue, wr, ok, sane)
  {
    hide DeepOf, DeepFamilies, Accepts, Completed, NamedFamilies;
  }

  // ------------------------------------------------------------ reading

  /** Merged families avoid what the store's families avoid. */
  lemma GatheredAvoidQueue(dms: DiskMetricStore, known: set<MetricFamily>, wr: WriteRequest, gathered: seq<MetricFamily>,
                           order: seq<string>, names: seq<string>)
    requires AllAvoid(known, wr) && dms.Families() <= known && |gathered| == |names|
    requires forall i :: 0 <= i < |names| ==>
               IsMergeOf(gathered[i], Listed(dms.Shallow(), order, names[i]), names[i], dms.predefinedHelp)
    ensures AllAvoid((set f | f in gathered), wr)
  {
    hide Avoids, Listed, ShallowOf;
    forall i | 0 <= i < |gathered| ensures Avoids(gathered[i], wr.Metrics(), wr.Pairs()) {
      var fs := Listed(dms.Shallow(), order, names[i]);
      ListedFrom(dms.Shallow(), order, names[i]);
      assert IsMergeOf(gathered[i], fs, names[i], dms.predefinedHelp);
      MergeAvoids(gathered[i], fs, wr.Metrics(), wr.Pairs());
    }
  }

  /** Reads the store: a copy of the maps, and the merged families. */
  method ReadStore(dms: DiskMetricStore, ghost known: set<MetricFamily>, ghost queue: seq<WriteRequest>,
                   ghost readers: seq<Reader>)
    returns (snapshot: GroupMap, gathered: seq<MetricFamily>, ghost order: seq<string>, ghost names: seq<string>,
             ghost known': set<MetricFamily>, ghost r: Reader)
    requires Ready(dms, known, queue, readers)
    ensures known <= known' && Ready(dms, known', queue, readers + [r])
    ensures r == Reader(snapshot, gathered, old(dms.Deep()), ValuesOf(gathered)) && dms.Deep() == old(dms.Deep())
    ensures Enumerates(order, old(dms.Deep()).Keys) && MergedFamilies(old(dms.Deep()), order, names, ValuesOf(gathered))
    ensures HelpIsRight(old(dms.Deep()), dms.predefinedHelp, ValuesOf(gathered))
  {
    hide HelpIsRight, DeepOf, NamedByKey, DistinctMaps, MergedFamilies, IsMergeOf, FamiliesIn, ValuesOf, Enumerates, NamesIn, Listed,
         ReadersReady, AllAvoid, RequestsApart, Forest;
    ghost var before := dms.Shallow();
    snapshot := dms.GetMetricFamiliesMap();
    SparedStore(before);
    assert dms.Shallow() == before;
    ghost var copied := ShallowOf(snapshot);
    gathered, order, names := dms.GetMetricFamilies();
    SparedStore(before);
    assert dms.Shallow() == before && ShallowOf(snapshot) == copied;
    ReadyStays(dms, known, queue, readers);
    ghost var new' := set f | f in gathered;
    forall j | 0 <= j < |queue| ensures AllAvoid(new', queue[j]) {
      assert Queued(known, queue[j]);
      GatheredAvoidQueue(dms, known, queue[j], gathered, order, names);
    }
    known' := known + new';
    QueueKnowsMore(known, new', queue);
    ReadersKnowMore(dms, known, new', readers);
    r := Reader(snapshot, gathered, dms.Deep(), ValuesOf(gathered));
    assert ReaderReady(dms, known', r);
    OneMoreReader(dms, known', readers, r);
  }

  lemma OneMoreReader(dms: DiskMetricStore, known: set<MetricFamily>, readers: seq<Reader>, r: Reader)
    requires ReadersReady(dms, known, readers) && ReaderReady(dms, known, r)
    ensures ReadersReady(dms, known, readers + [r])
  {
    hide ReaderReady;
  }

  /** Everything readers hold means what it meant when they read it. */
  lemma HeldAsRead(dms: DiskMetricStore, known: set<MetricFamily>, queue: seq<WriteRequest>, readers: seq<Reader>, i: nat)
    requires Ready(dms, known, queue, readers) && i < |readers|
    ensures DeepOf(ShallowOf(readers[i].snapshot)) == readers[i].store && ValuesOf(readers[i].gathered) == readers[i].values
  {
    assert ReaderReady(dms, known, readers[i]);
  }
}
