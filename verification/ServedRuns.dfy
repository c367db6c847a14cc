/** The store invariant for requests as they arrive: unsanitized, served on the heap. */
module ServedRuns {
  import opened Dto
  import opened LabelSpec
  import opened GroupingKey
  import opened Objects
  import opened Sanitizer
  import opened StoreSpec
  import opened StoreHeap
  import opened StoreRuns
  import opened DiskStore
  import opened Serving
  import opened Queue

  /** No metric names a label twice. */
  ghost predicate DistinctlyLabelled(families: map<string, Family>) {
    forall n, i :: n in families && 0 <= i < |families[n].samples| ==> DistinctNames(families[n].samples[i].labels)
  }

  lemma SanitizedIsSorted(before: seq<Label>, grouping: Labels, after: seq<Label>)
    requires DistinctNames(before) && SanitizedLabels(before, grouping, after)
    ensures WellLabelled(after, grouping)
  {
    SanitizeIsMapOverride(before, grouping, after);
    PairsOfIsMap(WithInstance(AsMap(before) + grouping));
    SanitizedHasGroupingLabels(before, grouping, after);
  }

  lemma SanitizedFamilyIsWellFormed(before: Family, name: string, grouping: Labels, after: Family)
    requires SanitizedFamily(before, grouping, after) && before.name == name
    requires forall i :: 0 <= i < |before.samples| ==>
               before.samples[i].timestampMs.None? && DistinctNames(before.samples[i].labels)
    ensures WellFormedFamily(after, name, grouping)
  {
    hide WellLabelled, SanitizedLabels, DistinctNames;
    forall i | 0 <= i < |after.samples|
      ensures after.samples[i].timestampMs.None? && WellLabelled(after.samples[i].labels, grouping)
    {
      assert SanitizedSample(before.samples[i], grouping, after.samples[i]);
      SanitizedIsSorted(before.samples[i].labels, grouping, after.samples[i].labels);
    }
  }

  /** What is asked of an arriving request: no separator byte in its labels, and no metric naming a
      label twice. Timestamps may be there. */
  ghost predicate Decent(wr: WriteRequest, raw: map<string, Family>) {
    CleanLabels(wr.labels) && (wr.families != null ==> NamedFamilies(raw) && DistinctlyLabelled(raw))
  }

  lemma DecentMeansWellFormed(wr: WriteRequest, raw: map<string, Family>, w: Write)
    requires Means(wr, raw, w) && Decent(wr, raw)
    ensures WellFormedWrite(w)
  {
    hide WellFormedFamily, SanitizedFamily, CleanLabels, DistinctNames;
    if wr.families != null && !TimestampsPresent(w.families) {
      forall n | n in w.families ensures WellFormedFamily(w.families[n], n, w.labels) {
        forall i | 0 <= i < |raw[n].samples| ensures raw[n].samples[i].timestampMs.None? {}
        SanitizedFamilyIsWellFormed(raw[n], n, w.labels, w.families[n]);
      }
    }
  }

  lemma AnsweredKeepsInvariant(own: OwnMetrics, s: Store<Family>, queue: seq<WriteRequest>, arrivals: seq<Arrival>,
                               ws: seq<Write>, draining: bool)
    requires StoreInvariant(s) && |queue| == |arrivals| == |ws| == |VerdictsOf(own, s, ws)|
    requires Answered(queue, arrivals, VerdictsOf(own, s, ws), draining)
    requires forall j :: 0 <= j < |queue| ==> Decent(queue[j], arrivals[j].raw)
    ensures StoreInvariant(Fold(own, s, ws))
  {
    hide StoreInvariant, Decent, Means, WellFormedWrite, Fold, VerdictsOf;
    VerdictsOfWrites(own, s, ws);
    forall j | 0 <= j < |ws| ensures WellFormedWrite(ws[j]) {
      assert Means(queue[j], arrivals[j].raw, VerdictsOf(own, s, ws)[j].0);
      DecentMeansWellFormed(queue[j], arrivals[j].raw, ws[j]);
    }
    RunsKeepInvariant(own, s, ws);
  }

  lemma InvariantNames(s: Store<Family>)
    requires StoreInvariant(s)
    ensures NamedByKey(s)
  {
    forall k, n | k in s && n in s[k].metrics ensures s[k].metrics[n].family.name == n {
      assert GroupInvariant(k, s[k]);
    }
  }

  /** The store invariant is kept by serving any queue of decent requests, in both modes, checked or
      not. */
  method ServeDecent(dms: DiskMetricStore, queue: seq<WriteRequest>, own: OwnMetrics, draining: bool)
    requires dms.Valid() && StoreInvariant(dms.Deep()) && AllRequests(dms, queue) && QueueApart(queue)
    requires forall j :: 0 <= j < |queue| ==> Decent(queue[j], Raw(queue[j]))
    modifies dms`metricGroups, dms.Maps(), FamilyMapsOf(queue), QueuedMetrics(queue), QueuedPairs(queue), DonesOf(queue)
    ensures dms.Valid() && StoreInvariant(dms.Deep())
  {
    hide StoreInvariant, NamedByKey, Decent, Answered, VerdictsOf, Fold, DeepOf, DistinctMaps, AllRequests, QueueApart, Raw,
         QueuedMetrics, QueuedPairs, FamiliesIn, ShallowOf;
    ghost var before, arrivals := dms.Deep(), Arrivals(queue);
    InvariantNames(before);
    ghost var ws := ServeQueue(dms, queue, own, draining);
    AnsweredKeepsInvariant(own, before, queue, arrivals, ws, draining);
  }

  // ------------------------------------------------------------ consistency

  /** A delete, or a push with a channel that brings no failure timestamp of its own. */
  ghost predicate Careful(wr: WriteRequest, raw: map<string, Family>) {
    CleanLabels(wr.labels) && (wr.families != null ==> wr.done != null && PUSH_FAILED_METRIC_NAME !in raw)
  }

  lemma CarefulMeansChecked(queue: seq<WriteRequest>, arrivals: seq<Arrival>, vs: Verdicts, ws: seq<Write>, draining: bool)
    requires |queue| == |arrivals| == |ws| == |vs| && Answered(queue, arrivals, vs, draining)
    requires forall j :: 0 <= j < |ws| ==> vs[j].0 == ws[j] && Careful(queue[j], arrivals[j].raw)
    ensures CheckedWrites(ws) && forall j :: 0 <= j < |ws| ==> ws[j].labels == queue[j].labels
  {
    hide CleanLabels, SanitizedFamily;
    forall j | 0 <= j < |ws|
      ensures ws[j].labels == queue[j].labels && CleanLabels(ws[j].labels)
      ensures ws[j].Push? ==> ws[j].checked && PUSH_FAILED_METRIC_NAME !in ws[j].families
    {
      assert Means(queue[j], arrivals[j].raw, vs[j].0);
    }
  }

  /** From the empty store, checked pushes and deletes keep the exposition consistent, rejected ones
      included, if no two label sets differ only by an empty `instance`. */
  method ServeCareful(dms: DiskMetricStore, queue: seq<WriteRequest>, own: OwnMetrics, draining: bool)
    requires dms.Valid() && dms.Deep() == map[] && AllRequests(dms, queue) && QueueApart(queue)
    requires forall j :: 0 <= j < |queue| ==> Careful(queue[j], Raw(queue[j]))
    requires forall i, j :: 0 <= i < |queue| && 0 <= j < |queue| ==> !Twins(queue[i].labels, queue[j].labels)
    requires Consistent(own, map[]) && KeepsReservedNames(own)
    modifies dms`metricGroups, dms.Maps(), FamilyMapsOf(queue), QueuedMetrics(queue), QueuedPairs(queue), DonesOf(queue)
    ensures dms.Valid() && Consistent(own, dms.Deep())
  {
    hide Careful, Answered, VerdictsOf, Fold, DeepOf, DistinctMaps, AllRequests, QueueApart, Raw, QueuedMetrics, QueuedPairs,
         FamiliesIn, ShallowOf, Consistent, Twins, CheckedWrites;
    ghost var arrivals := Arrivals(queue);
    ghost var ws := ServeQueue(dms, queue, own, draining);
    VerdictsOfWrites(own, map[], ws);
    CarefulMeansChecked(queue, arrivals, VerdictsOf(own, map[], ws), ws, draining);
    CheckedRunsStayConsistent(own, ws);
  }
}
