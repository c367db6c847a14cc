/** Wiping the store: one delete request for every group of a snapshot. */
module Wipe {
  import opened Dto
  import opened LabelSpec
  import opened GroupingKey
  import opened Objects
  import opened StoreSpec
  import opened StoreHeap
  import opened GatherCheck
  import opened Gathering
  import opened DiskStore
  import opened Serving
  import opened Queue

  /** The store's write queue. */
  class WriteQueue {
    var requests: seq<WriteRequest>

    constructor ()
      ensures requests == []
    {
      requests := [];
    }

    method Submit(wr: WriteRequest)
      modifies this
      ensures requests == old(requests) + [wr]
    {
      requests := requests + [wr];
    }
  }

  predicate IsDelete(wr: WriteRequest, labels: Labels) {
    wr.labels == labels && wr.families == null && wr.done == null
  }

  /** One delete for each group listed. */
  ghost predicate DeletesOf(requests: seq<WriteRequest>, groups: Store<MetricFamily>, order: seq<string>) {
    |requests| == |order| &&
    forall i :: 0 <= i < |order| ==> order[i] in groups && IsDelete(requests[i], groups[order[i]].labels)
  }

  /** Submits a delete for every group of the store, in an arbitrary order. */
  method WipeMetricStore(dms: DiskMetricStore, queue: WriteQueue)
    returns (ghost deletes: seq<WriteRequest>, ghost order: seq<string>)
    requires dms.Valid()
    modifies queue
    ensures queue.requests == old(queue.requests) + deletes
    ensures Enumerates(order, old(dms.Shallow()).Keys) && DeletesOf(deletes, old(dms.Shallow()), order)
  {
    hide Enumerates, DistinctMaps;
    ghost var shallow := dms.Shallow();
    var groups := dms.GetMetricFamiliesMap();
    SnapshotLabels(groups);
    assert dms.Shallow() == shallow;
    deletes, order := [], [];
    var todo := groups.Keys;
    NothingEnumerated(groups.Keys - todo);
    while todo != {}
      invariant todo <= groups.Keys
      invariant queue.requests == old(queue.requests) + deletes
      invariant Enumerates(order, groups.Keys - todo) && DeletesOf(deletes, shallow, order)
      decreases todo
    {
      var k :| k in todo;
      var now: Time := *;
      var wr := WriteRequest(groups[k].labels, now, null, false, null);
      queue.Submit(wr);
      EnumeratesMore(order, groups.Keys - todo, k);
      assert groups.Keys - todo + {k} == groups.Keys - (todo - {k});
      deletes, order := deletes + [wr], order + [k];
      todo := todo - {k};
    }
    assert groups.Keys - todo == groups.Keys;
  }

  lemma SnapshotLabels(groups: GroupMap)
    ensures ShallowOf(groups).Keys == groups.Keys
    ensures forall k :: k in groups ==> ShallowOf(groups)[k].labels == groups[k].labels
  {}

  lemma NothingEnumerated(none: set<string>)
    requires none == {}
    ensures Enumerates([], none)
  {}

  // ------------------------------------------------------------ what wiping achieves

  ghost predicate LastWriteIsPush(ws: seq<Write>, key: string) {
    exists i :: 0 <= i < |ws| && ws[i].Push? && IsLastWrite(ws, i, key)
  }

  ghost predicate IsLastWrite(ws: seq<Write>, i: nat, key: string)
    requires i < |ws|
  {
    KeyOf(ws[i].labels) == key && forall j :: i < j < |ws| ==> KeyOf(ws[j].labels) != key
  }

  ghost predicate Touched(ws: seq<Write>, key: string) {
    exists i :: 0 <= i < |ws| && KeyOf(ws[i].labels) == key
  }

  /** A group is there after a run exactly if the last write to its key was a push, or nothing was
      written to it and it was there before. */
  lemma {:induction false} GroupSurvivesIff(own: OwnMetrics, s: Store<Family>, ws: seq<Write>, key: string)
    ensures key in Fold(own, s, ws) <==> LastWriteIsPush(ws, key) || (!Touched(ws, key) && key in s)
  {
    hide Apply, KeyOf;
    if ws != [] {
      var before, w := ws[..|ws| - 1], ws[|ws| - 1];
      GroupSurvivesIff(own, s, before, key);
      LastWriteDecides(own, Fold(own, s, before), w, key);
      TouchedSnoc(before, w, key);
      assert ws == before + [w];
    }
  }

  lemma LastWriteDecides(own: OwnMetrics, s: Store<Family>, w: Write, key: string)
    ensures key in Apply(own, s, w) <==> if KeyOf(w.labels) == key then w.Push? else key in s
  {
    hide KeyOf, Accepts;
  }

  lemma TouchedSnoc(ws: seq<Write>, w: Write, key: string)
    ensures Touched(ws + [w], key) <==> Touched(ws, key) || KeyOf(w.labels) == key
    ensures LastWriteIsPush(ws + [w], key) <==> if KeyOf(w.labels) == key then w.Push? else LastWriteIsPush(ws, key)
  {
    hide KeyOf;
    var all := ws + [w];
    assert forall i :: 0 <= i < |ws| ==> all[i] == ws[i];
    assert all[|ws|] == w;
    if LastWriteIsPush(ws, key) && KeyOf(w.labels) != key {
      var i :| 0 <= i < |ws| && ws[i].Push? && IsLastWrite(ws, i, key);
      assert all[i].Push? && IsLastWrite(all, i, key);
    }
    if LastWriteIsPush(all, key) && KeyOf(w.labels) != key {
      var i :| 0 <= i < |all| && all[i].Push? && IsLastWrite(all, i, key);
      assert ws[i].Push? && IsLastWrite(ws, i, key);
    }
    if KeyOf(w.labels) == key && w.Push? {
      assert all[|ws|].Push? && IsLastWrite(all, |ws|, key);
    }
  }

  /** Groups are filed under the keys of their labels. */
  ghost predicate KeyedByLabels(s: Store<Family>) {
    forall k :: k in s ==> KeyOf(s[k].labels) == k
  }

  /** Every run keeps it so, separator bytes in labels or not. */
  lemma {:induction false} RunsKeepKeys(own: OwnMetrics, s: Store<Family>, ws: seq<Write>)
    requires KeyedByLabels(s)
    ensures KeyedByLabels(Fold(own, s, ws))
  {
    hide KeyOf, Accepts;
    if ws != [] {
      RunsKeepKeys(own, s, ws[..|ws| - 1]);
      KeysStep(own, Fold(own, s, ws[..|ws| - 1]), ws[|ws| - 1]);
    }
  }

  lemma KeysStep(own: OwnMetrics, s: Store<Family>, w: Write)
    requires KeyedByLabels(s)
    ensures KeyedByLabels(Apply(own, s, w))
  {
    hide KeyOf, Accepts, WithGauges, Kept;
  }

  /** The run contains the deletes of a wipe of `s`, somewhere among other requests. */
  ghost predicate WipesAll(ws: seq<Write>, s: Store<Family>) {
    forall k :: k in s ==> Delete(s[k].labels) in ws
  }

  /** A group that is there after a wipe was pushed after its own delete. */
  lemma WipedGroupWasPushedAgain(own: OwnMetrics, s: Store<Family>, ws: seq<Write>, key: string)
    requires KeyedByLabels(s) && WipesAll(ws, s) && key in Fold(own, s, ws)
    ensures exists i :: 0 <= i < |ws| && ws[i].Push? && KeyOf(ws[i].labels) == key
                        && forall j :: 0 <= j < |ws| && KeyOf(ws[j].labels) == key && ws[j].Delete? ==> j < i
  {
    hide KeyOf, Fold;
    GroupSurvivesIff(own, s, ws, key);
    if key in s {
      var j :| 0 <= j < |ws| && ws[j] == Delete(s[key].labels);
      assert Touched(ws, key);
    }
    var i :| 0 <= i < |ws| && ws[i].Push? && IsLastWrite(ws, i, key);
    assert forall j :: 0 <= j < |ws| && KeyOf(ws[j].labels) == key && ws[j].Delete? ==> j < i;
  }

  /** A wipe and nothing else: every delete is of a group in the store, and each group's is there. */
  ghost predicate OnlyWipes(ws: seq<Write>, s: Store<Family>) {
    WipesAll(ws, s) && forall w :: w in ws ==> exists k :: k in s && w == Delete(s[k].labels)
  }

  /** With no other requests a wipe leaves the groups, and only those, whose key is not the key of
      any group's labels: none, if groups are filed under their own keys. */
  lemma WipeLeavesIff(own: OwnMetrics, s: Store<Family>, ws: seq<Write>, key: string)
    requires OnlyWipes(ws, s)
    ensures key in Fold(own, s, ws) <==> key in s && forall k :: k in s ==> KeyOf(s[k].labels) != key
  {
    hide KeyOf, Fold;
    GroupSurvivesIff(own, s, ws, key);
    forall i | 0 <= i < |ws| ensures ws[i].Delete? { assert ws[i] in ws; }
    if Touched(ws, key) {
      var i :| 0 <= i < |ws| && KeyOf(ws[i].labels) == key;
      assert ws[i] in ws;
      var k :| k in s && ws[i] == Delete(s[k].labels);
    }
    forall k | k in s ensures KeyOf(s[k].labels) == key ==> Touched(ws, key) {
      var i :| 0 <= i < |ws| && ws[i] == Delete(s[k].labels);
    }
  }

  lemma WipeEmpties(own: OwnMetrics, s: Store<Family>, ws: seq<Write>)
    requires OnlyWipes(ws, s) && KeyedByLabels(s)
    ensures Fold(own, s, ws) == map[]
  {
    hide KeyOf, Fold;
    forall key ensures key !in Fold(own, s, ws) {
      WipeLeavesIff(own, s, ws, key);
      if key in s { assert KeyOf(s[key].labels) == key; }
    }
  }

  // ------------------------------------------------------------ wiping a store at rest

  ghost predicate AllDeletes(requests: seq<WriteRequest>) {
    forall i :: 0 <= i < |requests| ==> IsDelete(requests[i], requests[i].labels)
  }

  lemma {:induction false} DeletesBringNothing(dms: DiskMetricStore, requests: seq<WriteRequest>)
    requires AllDeletes(requests)
    ensures AllRequests(dms, requests) && QueueApart(requests)
    ensures QueuedMetrics(requests) == {} && QueuedPairs(requests) == {}
    ensures FamilyMapsOf(requests) == {} && DonesOf(requests) == {}
  {
    if requests != [] {
      var n := |requests| - 1;
      DeletesBringNothing(dms, requests[..n]);
      assert IsDelete(requests[n], requests[n].labels);
    }
  }

  lemma DeletesMean(own: OwnMetrics, s: Store<Family>, requests: seq<WriteRequest>, arrivals: seq<Arrival>,
                    ws: seq<Write>, draining: bool)
    requires AllDeletes(requests) && |requests| == |arrivals| == |ws| == |VerdictsOf(own, s, ws)|
    requires Answered(requests, arrivals, VerdictsOf(own, s, ws), draining)
    ensures forall i :: 0 <= i < |ws| ==> ws[i] == Delete(requests[i].labels)
  {
    VerdictsOfWrites(own, s, ws);
    forall i | 0 <= i < |ws| ensures ws[i] == Delete(requests[i].labels) {
      assert Means(requests[i], arrivals[i].raw, VerdictsOf(own, s, ws)[i].0);
    }
  }

  lemma OrderedDeletesWipe(s: Store<MetricFamily>, requests: seq<WriteRequest>, order: seq<string>, ws: seq<Write>)
    requires Enumerates(order, s.Keys) && DeletesOf(requests, s, order) && |ws| == |requests|
    requires forall i :: 0 <= i < |ws| ==> ws[i] == Delete(requests[i].labels)
    ensures OnlyWipes(ws, DeepOf(s))
  {
    var deep := DeepOf(s);
    assert forall k :: k in s ==> deep[k].labels == s[k].labels;
    forall k | k in deep ensures Delete(deep[k].labels) in ws {
      assert k in order;
      var i :| 0 <= i < |order| && order[i] == k;
      assert ws[i] == Delete(deep[k].labels);
    }
    forall w | w in ws ensures exists k :: k in deep && w == Delete(deep[k].labels) {
      var i :| 0 <= i < |ws| && ws[i] == w;
      assert order[i] in deep && w == Delete(deep[order[i]].labels);
    }
  }

  /** Wiping a store with an empty queue, and serving the deletes, leaves no group. */
  method WipeAtRest(dms: DiskMetricStore, own: OwnMetrics)
    requires dms.Valid() && NamedByKey(dms.Deep()) && KeyedByLabels(dms.Deep())
    modifies dms`metricGroups, dms.Maps()
    ensures dms.Deep() == map[]
  {
    hide NamedByKey, KeyedByLabels, DistinctMaps, Enumerates, DeepOf, AllRequests, QueueApart, Answered, VerdictsOf, Fold,
         Arrivals, QueuedMetrics, QueuedPairs, FamiliesIn;
    ghost var before, s := dms.Shallow(), dms.Deep();
    var queue := new WriteQueue();
    ghost var deletes, order := WipeMetricStore(dms, queue);
    assert dms.Shallow() == before;
    SparedStore(before);
    var requests := queue.requests;
    assert requests == deletes;
    DeletesBringNothing(dms, requests);
    ghost var arrivals := Arrivals(requests);
    ghost var ws := ServeQueue(dms, requests, own, false);
    DeletesMean(own, s, requests, arrivals, ws, false);
    SparedStore(before);
    OrderedDeletesWipe(before, requests, order, ws);
    WipeEmpties(own, s, ws);
  }
}
