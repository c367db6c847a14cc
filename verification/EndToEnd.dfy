/** From the client that pushes to the client that reads: what was submitted is what is exposed. */
module EndToEnd {
  import opened Dto
  import opened LabelSpec
  import opened GroupingKey
  import opened Objects
  import opened Sanitizer
  import opened StoreSpec
  import opened StoreHeap
  import opened GatherCheck
  import opened Acceptance
  import opened PushResults
  import opened DiskStore
  import opened Serving
  import opened Queue
  import opened LoopRecord
  import opened StoreLoop

  /** No metric of the family names a label twice. */
  predicate DistinctlyLabelled(f: Family) {
    forall i :: 0 <= i < |f.samples| ==> DistinctNames(f.samples[i].labels)
  }

  /** What the write says that a request becomes: everything it said, with the labels sanitized. */
  lemma MeansIs(wr: WriteRequest, raw: map<string, Family>, w: Write)
    requires Means(wr, raw, w)
    ensures wr.families == null ==> w == Delete(wr.labels)
    ensures wr.families != null ==>
              && w.Push? && w.labels == wr.labels && w.timestamp == wr.timestamp && w.replace == wr.replace
              && (w.checked <==> wr.done != null) && w.families.Keys == raw.Keys
              && (NoTimestamps(w.families) <==> NoTimestamps(raw))
    ensures wr.families != null && NoTimestamps(raw) ==>
              forall n :: n in raw && DistinctlyLabelled(raw[n]) ==> Exposes(raw[n], wr.labels, w.families[n])
  {
    if wr.families != null {
      var sane :| w == WriteOf(wr, sane) && Sane(raw, wr.labels, sane);
      SaneIs(raw, wr.labels, sane);
    }
  }

  lemma SaneIs(raw: map<string, Family>, grouping: Labels, sane: map<string, Family>)
    requires Sane(raw, grouping, sane)
    ensures sane.Keys == raw.Keys && (NoTimestamps(sane) <==> NoTimestamps(raw))
    ensures NoTimestamps(raw) ==> forall n :: n in raw && DistinctlyLabelled(raw[n]) ==> Exposes(raw[n], grouping, sane[n])
  {
    hide SanitizedFamily, Exposes, DistinctlyLabelled;
    assert NoTimestamps(raw) <==> !TimestampsPresent(raw);
    assert NoTimestamps(sane) <==> !TimestampsPresent(sane);
    if NoTimestamps(raw) {
      SanitizedKeepTimestamps(raw, grouping, sane);
      forall n | n in raw && DistinctlyLabelled(raw[n]) ensures Exposes(raw[n], grouping, sane[n]) {
        FamilyIs(raw[n], grouping, sane[n]);
      }
    }
  }

  lemma FamilyIs(before: Family, grouping: Labels, after: Family)
    requires DistinctlyLabelled(before) && SanitizedFamily(before, grouping, after)
    ensures Exposes(before, grouping, after)
  {
    SanitizedFamilyExposes(before, grouping, after);
  }

  /** The family of a request that has been processed is still in the store: nothing since has deleted or
      replaced its group or brought a family of that name. */
  ghost predicate Untroubled(loop: Loop, i: nat, name: string)
    requires i < |loop.received|
    reads loop
  {
    forall j :: i < j < |loop.processed| ==>
      Spares(loop.processed[j], AcceptedAt(loop.config.own, loop.config.restored, loop.processed, j),
             KeyOf(loop.received[i].wr.labels), name)
  }

  /** A metric that was pushed is among the metrics read: same type and value, its labels sanitized. */
  ghost predicate Appears(pushed: Sample, grouping: Labels, samples: seq<Sample>) {
    exists x :: x in samples && x.payload == pushed.payload && x.timestampMs == None
                && ExposesLabels(pushed.labels, grouping, x.labels)
  }

  /** Of an accepted push that nothing has overridden since, every metric of every family is in the store,
      as it was pushed. */
  lemma PushIsInStore(loop: Loop, i: nat, name: string)
    requires loop.Valid() && i < |loop.processed| && i < |loop.received| && loop.received[i].wr.families != null
    requires AcceptedAt(loop.config.own, loop.config.restored, loop.processed, i)
    requires name in loop.received[i].raw && DistinctlyLabelled(loop.received[i].raw[name])
    requires name != "push_time_seconds" && name != "push_failure_time_seconds" && Untroubled(loop, i, name)
    ensures var wr, s := loop.received[i].wr, loop.dms.Deep();
            && KeyOf(wr.labels) in s && name in s[KeyOf(wr.labels)].metrics
            && s[KeyOf(wr.labels)].metrics[name].timestamp == wr.timestamp
            && NoTimestamps(loop.received[i].raw)
            && Exposes(loop.received[i].raw[name], wr.labels, s[KeyOf(wr.labels)].metrics[name].family)
  {
    hide Loop.Valid, KeyOf, Fold, DeepOf, ShallowOf, ValuesOf, Means, Spares, Exposes, DistinctlyLabelled, NoTimestamps;
    loop.LoopIsSafe();
    var wr, w := loop.received[i].wr, loop.processed[i];
    MeansIs(wr, loop.received[i].raw, w);
    AcceptedHasNone(loop.config.own, loop.config.restored, loop.processed, i);
    PushIsStored(loop.config.own, loop.config.restored, loop.processed, i, name);
  }

  lemma AcceptedHasNone(own: OwnMetrics, s: Store<Family>, ws: seq<Write>, i: nat)
    requires i < |ws| && ws[i].Push? && AcceptedAt(own, s, ws, i)
    ensures NoTimestamps(ws[i].families)
  {
    hide Fold, Consistent, Commit;
  }

  lemma FoundAmong(s: Store<Family>, order: seq<string>, names: seq<string>, families: seq<Family>, key: string, name: string,
                   pushed: Family, grouping: Labels)
    requires Enumerates(order, s.Keys) && MergedFamilies(s, order, names, families)
    requires key in s && name in s[key].metrics && Exposes(pushed, grouping, s[key].metrics[name].family)
    requires forall k :: 0 <= k < |pushed.samples| ==> pushed.samples[k].timestampMs == None
    ensures exists r :: 0 <= r < |families| && families[r].name == name
              && forall k :: 0 <= k < |pushed.samples| ==> Appears(pushed.samples[k], grouping, families[r].samples)
  {
    hide ExposesLabels, Enumerates, MergedFamilies;
    ReadShows(s, order, names, families);
    var r :| 0 <= r < |families| && families[r].name == name;
    var f := s[key].metrics[name].family;
    forall k | 0 <= k < |pushed.samples| ensures Appears(pushed.samples[k], grouping, families[r].samples) {
      assert f.samples[k] in f.samples;
      assert f.samples[k] in families[r].samples;
    }
  }

  /** Reading after an accepted push: a family of the pushed name is there, with every metric of the pushed
      one, as long as no later write has deleted or replaced the group or brought a family of that name. */
  method ReadAfterPush(loop: Loop, ghost i: nat, ghost name: string) returns (gathered: seq<MetricFamily>)
    requires loop.Valid() && i < |loop.processed| && i < |loop.received| && loop.received[i].wr.families != null
    requires AcceptedAt(loop.config.own, loop.config.restored, loop.processed, i)
    requires name in loop.received[i].raw && DistinctlyLabelled(loop.received[i].raw[name])
    requires name != "push_time_seconds" && name != "push_failure_time_seconds" && Untroubled(loop, i, name)
    modifies loop
    ensures loop.Valid()
    ensures var pushed, grouping := old(loop.received[i].raw[name]), old(loop.received[i].wr.labels);
            exists r :: 0 <= r < |gathered| && ValuesOf(gathered)[r].name == name
              && forall k :: 0 <= k < |pushed.samples| ==> Appears(pushed.samples[k], grouping, ValuesOf(gathered)[r].samples)
  {
    hide Loop.Valid, KeyOf, DeepOf, ShallowOf, ValuesOf, Exposes, DistinctlyLabelled, MergedFamilies, Enumerates, Untroubled,
         Appears, AcceptedAt;
    PushIsInStore(loop, i, name);
    ghost var pushed, wr, s := loop.received[i].raw[name], loop.received[i].wr, loop.dms.Deep();
    ghost var order, names;
    var maps;
    maps, gathered, order, names := loop.Read();
    FoundAmong(s, order, names, ValuesOf(gathered), KeyOf(wr.labels), name, pushed, wr.labels);
  }
}
