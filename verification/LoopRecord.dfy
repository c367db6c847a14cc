/** What has become of the requests submitted so far: what each means, and what its client has been
    told. */
module LoopRecord {
  import opened Dto
  import opened LabelSpec
  import opened Objects
  import opened StoreSpec
  import opened StoreHeap
  import opened DiskStore
  import opened Serving
  import opened Queue

  /** A request as a client submitted it, with what its families said then. */
  datatype Received = Received(wr: WriteRequest, raw: map<string, Family>)

  /** Each write is what the request submitted in its place means; the queue holds the rest, and
      they still say what they said. */
  ghost predicate AsReceived(received: seq<Received>, writes: seq<Write>, queue: seq<WriteRequest>)
    reads *
  {
    && |received| == |writes| + |queue|
    && (forall i :: 0 <= i < |writes| ==> Means(received[i].wr, received[i].raw, writes[i]))
    && forall j :: 0 <= j < |queue| ==> received[|writes| + j] == Received(queue[j], Raw(queue[j]))
  }

  /** What the channel of the request in that place has carried so far. */
  ghost function Told(own: OwnMetrics, restored: Store<Family>, writes: seq<Write>, closed: nat, i: nat): seq<DoneEvent> {
    (if i < |writes| && !AcceptedAt(own, restored, writes, i) then [ErrorSent] else []) + if i < closed then [Closed] else []
  }

  ghost predicate OwnChannels(received: seq<Received>) {
    forall i, j :: 0 <= i < j < |received| && received[i].wr.done != null ==> received[i].wr.done != received[j].wr.done
  }

  /** The first `closed` requests have had their channels closed. */
  ghost predicate AllTold(own: OwnMetrics, restored: Store<Family>, received: seq<Received>, writes: seq<Write>, closed: nat)
    reads *
  {
    && closed <= |writes| && OwnChannels(received)
    && forall i :: 0 <= i < |received| && received[i].wr.done != null ==>
         received[i].wr.done.events == Told(own, restored, writes, closed, i)
  }

  ghost predicate OnRecord(own: OwnMetrics, restored: Store<Family>, received: seq<Received>, writes: seq<Write>,
                           queue: seq<WriteRequest>, closed: nat)
    reads *
  {
    AsReceived(received, writes, queue) && AllTold(own, restored, received, writes, closed)
  }

  // ------------------------------------------------------------ steps

  twostate lemma RecordKept(own: OwnMetrics, new restored: Store<Family>, new received: seq<Received>, new writes: seq<Write>,
                              new queue: seq<WriteRequest>, new closed: nat)
    requires old(allocated(received)) && old(allocated(queue)) && old(allocated(restored))
    requires old(OnRecord(own, restored, received, writes, queue, closed))
    requires forall j :: 0 <= j < |queue| ==> Raw(queue[j]) == old(Raw(queue[j]))
    requires forall i :: 0 <= i < |received| && received[i].wr.done != null ==>
               received[i].wr.done.events == old(received[i].wr.done.events)
    ensures OnRecord(own, restored, received, writes, queue, closed)
  {
    hide Raw, Means, Told, OwnChannels;
  }

  /** Nothing that matters has been written. */
  twostate lemma RecordStays(own: OwnMetrics, new restored: Store<Family>, new received: seq<Received>, new writes: seq<Write>,
                               new queue: seq<WriteRequest>, new closed: nat)
    requires old(allocated(received)) && old(allocated(queue)) && old(allocated(restored))
    requires old(OnRecord(own, restored, received, writes, queue, closed))
    requires forall m: FamilyMap :: old(allocated(m)) ==> Unwritten(m)
    requires forall d: DoneChannel :: old(allocated(d)) ==> Unwritten(d)
    requires forall f: MetricFamily :: old(allocated(f)) ==> Unwritten(f)
    requires forall m: Metric :: old(allocated(m)) ==> Unwritten(m)
    requires forall p: LabelPair :: old(allocated(p)) ==> Unwritten(p)
    ensures OnRecord(own, restored, received, writes, queue, closed)
  {
    hide Raw, OnRecord;
    forall j | 0 <= j < |queue| ensures Raw(queue[j]) == old(Raw(queue[j])) { RawStays(queue[j]); }
    forall i | 0 <= i < |received| && received[i].wr.done != null
      ensures received[i].wr.done.events == old(received[i].wr.done.events)
    {
      assert Unwritten(received[i].wr.done);
    }
    RecordKept(own, restored, received, writes, queue, closed);
  }

  twostate lemma RawStays(wr: WriteRequest)
    requires forall m: FamilyMap :: old(allocated(m)) ==> Unwritten(m)
    requires forall f: MetricFamily :: old(allocated(f)) ==> Unwritten(f)
    requires forall m: Metric :: old(allocated(m)) ==> Unwritten(m)
    requires forall p: LabelPair :: old(allocated(p)) ==> Unwritten(p)
    ensures Raw(wr) == old(Raw(wr))
  {
    hide DeepFamilies;
    if wr.families != null {
      assert Unwritten(wr.families);
      SparedFamilies(wr.families.m);
    }
  }

  /** One more write: what was told about those before it stays true. */
  lemma ToldStays(own: OwnMetrics, restored: Store<Family>, writes: seq<Write>, w: Write, closed: nat, i: nat)
    requires closed <= |writes|
    ensures i != |writes| ==> Told(own, restored, writes + [w], closed, i) == Told(own, restored, writes, closed, i)
    ensures i == |writes| ==> Told(own, restored, writes, closed, i) == []
    ensures i == |writes| ==>
              Told(own, restored, writes + [w], closed, i)
              == if Accepts(own, Fold(own, restored, writes), w) then [] else [ErrorSent]
  {
    hide Accepts, Fold;
    if i < |writes| { assert (writes + [w])[..i] == writes[..i]; }
    assert (writes + [w])[..|writes|] == writes;
  }

  /** The request at the head of the queue has been checked. */
  twostate lemma RecordTaken(own: OwnMetrics, new restored: Store<Family>, new received: seq<Received>, new writes: seq<Write>,
                               new queue: seq<WriteRequest>, new closed: nat, new w: Write, new ok: bool)
    requires old(allocated(received)) && old(allocated(queue)) && old(allocated(restored))
    requires old(OnRecord(own, restored, received, writes, queue, closed))
    requires queue != [] && Means(queue[0], old(Raw(queue[0])), w)
    requires ok <==> Accepts(own, Fold(own, restored, writes), w)
    requires queue[0].done != null ==> queue[0].done.events == old(queue[0].done.events) + if ok then [] else [ErrorSent]
    requires forall d: DoneChannel :: old(allocated(d)) && d != queue[0].done ==> Unwritten(d)
    requires forall j :: 0 <= j < |queue[1..]| ==> Raw(queue[1..][j]) == old(Raw(queue[1..][j]))
    ensures OnRecord(own, restored, received, writes + [w], queue[1..], closed)
  {
    hide Raw, Means, Told, Accepts, Fold;
    var all, n := writes + [w], |writes|;
    assert received[n + 0] == old(Received(queue[0], Raw(queue[0])));
    forall j | 0 <= j < |queue[1..]| ensures received[|all| + j] == Received(queue[1..][j], Raw(queue[1..][j])) {
      assert received[n + (j + 1)] == old(Received(queue[j + 1], Raw(queue[j + 1])));
    }
    forall i | 0 <= i < |received| && received[i].wr.done != null
      ensures received[i].wr.done.events == Told(own, restored, all, closed, i)
    {
      ToldStays(own, restored, writes, w, closed, i);
      if i != n { assert Unwritten(received[i].wr.done); }
    }
  }

  /** The channel of the request in hand has been closed. */
  twostate lemma RecordClosed(own: OwnMetrics, new restored: Store<Family>, new received: seq<Received>, new writes: seq<Write>,
                                new queue: seq<WriteRequest>, new closed: nat)
    requires old(allocated(received)) && old(allocated(queue)) && old(allocated(restored))
    requires old(OnRecord(own, restored, received, writes, queue, closed))
    requires closed + 1 == |writes| && closed < |received|
    requires var done := received[closed].wr.done;
             && (done != null ==> done.events == old(done.events) + [Closed])
             && forall d: DoneChannel :: old(allocated(d)) && d != done ==> Unwritten(d)
    requires forall j :: 0 <= j < |queue| ==> Raw(queue[j]) == old(Raw(queue[j]))
    ensures OnRecord(own, restored, received, writes, queue, closed + 1)
  {
    hide Raw, Means, AcceptedAt;
    forall i | 0 <= i < |received| && received[i].wr.done != null
      ensures received[i].wr.done.events == Told(own, restored, writes, closed + 1, i)
    {
      if i != closed { assert Unwritten(received[i].wr.done); }
    }
  }

  lemma RecordOneMore(own: OwnMetrics, restored: Store<Family>, received: seq<Received>, writes: seq<Write>,
                        queue: seq<WriteRequest>, closed: nat, wr: WriteRequest)
    requires OnRecord(own, restored, received, writes, queue, closed)
    requires wr.done != null ==> wr.done.events == [] && forall i :: 0 <= i < |received| ==> received[i].wr.done != wr.done
    ensures OnRecord(own, restored, received + [Received(wr, Raw(wr))], writes, queue + [wr], closed)
  {
    hide Raw, Means, AcceptedAt;
  }
}
