/** The store object: updating groups in place, copying them for readers, checking a request on a
    copy. Families are shared between the store, its copies and the requests that brought them. */
module DiskStore {
  import opened Lex
  import opened Dto
  import opened LabelSpec
  import opened GroupingKey
  import opened Objects
  import opened Sanitizer
  import opened StoreSpec
  import opened StoreHeap
  import opened GatherCheck
  import opened Gathering

  /** The families of a request, keyed by name; a map object the store adds entries to. */
  class FamilyMap {
    var m: map<string, MetricFamily>

    constructor (m: map<string, MetricFamily>)
      ensures this.m == m
    {
      this.m := m;
    }
  }

  datatype DoneEvent = ErrorSent | Closed

  /** What the store does on a request's `Done` channel. */
  class DoneChannel {
    var events: seq<DoneEvent>

    constructor ()
      ensures events == []
    {
      events := [];
    }
  }

  datatype WriteRequest = WriteRequest(labels: Labels, timestamp: Time, families: FamilyMap?, replace: bool, done: DoneChannel?)
  {
    /** The family objects the request carries now. */
    ghost function FamilyObjects(): set<MetricFamily>
      reads families
    {
      if families == null then {} else families.m.Values
    }

    /** The metrics and label pairs sanitizing may write. */
    ghost function Metrics(): set<Metric>
      reads families, FamilyObjects()
    {
      MetricsIn(FamilyObjects())
    }

    ghost function Pairs(): set<LabelPair>
      reads families, FamilyObjects(), Metrics()
    {
      AllPairsIn(FamilyObjects())
    }
  }

  /** The request's families after they have been completed with the timestamp gauges. */
  ghost function Completed(s: Store<Family>, wr: WriteRequest, families: map<string, Family>): map<string, Family> {
    WithGauges(families, Kept(s, KeyOf(wr.labels), wr.replace), PushGauge(wr.labels, wr.timestamp), FailureGauge(wr.labels, 0))
  }

  lemma CommitMeaning(s: Store<MetricFamily>, wr: WriteRequest, families: map<string, MetricFamily>,
                      pushed: MetricFamily, failed: MetricFamily)
    requires var kept := Kept(s, KeyOf(wr.labels), wr.replace);
             && FamilyOf(pushed) == PushGauge(wr.labels, wr.timestamp)
             && (PUSH_FAILED_METRIC_NAME !in kept ==> FamilyOf(failed) == FailureGauge(wr.labels, 0))
    ensures var all := WithGauges(families, Kept(s, KeyOf(wr.labels), wr.replace), pushed, failed);
            && DeepFamilies(all) == Completed(DeepOf(s), wr, DeepFamilies(families))
            && DeepOf(PutAll(s, KeyOf(wr.labels), wr.labels, wr.timestamp, all, wr.replace))
               == Commit(DeepOf(s), wr.labels, wr.timestamp, DeepFamilies(families), wr.replace)
  {
    var key := KeyOf(wr.labels);
    var kept := Kept(s, key, wr.replace);
    var all := WithGauges(families, kept, pushed, failed);
    DeepWithGauges(families, kept, pushed, failed);
    DeepKept(s, key, wr.replace);
    DeepPutAll(s, key, wr.labels, wr.timestamp, all, wr.replace);
    assert kept.Keys == DeepMetrics(kept).Keys;
  }

  lemma DeleteObjects(s: Store<MetricFamily>, key: string)
    ensures FamiliesIn(s - {key}) <= FamiliesIn(s)
  {}

  /** Every object in the updated store was there, came with the request, or is a gauge. */
  lemma CommitObjects(s: Store<MetricFamily>, wr: WriteRequest, families: map<string, MetricFamily>,
                      pushed: MetricFamily, failed: MetricFamily)
    ensures var kept := Kept(s, KeyOf(wr.labels), wr.replace);
            var all := WithGauges(families, kept, pushed, failed);
            && (forall f :: f in all.Values ==>
                  f in families.Values || f == pushed || (f == failed && PUSH_FAILED_METRIC_NAME !in kept))
            && (forall f :: f in FamiliesIn(PutAll(s, KeyOf(wr.labels), wr.labels, wr.timestamp, all, wr.replace)) ==>
                  f in FamiliesIn(s) || f in all.Values)
  {
    var key := KeyOf(wr.labels);
    var all := WithGauges(families, Kept(s, key, wr.replace), pushed, failed);
    var t := PutAll(s, key, wr.labels, wr.timestamp, all, wr.replace);
    forall f | f in FamiliesIn(t) ensures f in FamiliesIn(s) || f in all.Values {
      var k, n :| k in t && n in t[k].metrics && t[k].metrics[n].family == f;
      if k == key && n in all { assert all[n] == f; }
      else { assert k in s && n in s[k].metrics && s[k].metrics[n].family == f; }
    }
  }

  // ------------------------------------------------------------ parts of an update

  /** A family with one gauge and no labels, sanitized. The gauge has the time in seconds. */
  method NewTimestampGauge(name: string, help: string, labels: Labels, t: Time) returns (f: MetricFamily)
    ensures fresh(f) && (forall m :: m in f.metric ==> fresh(m)) && (forall p :: p in PairsIn(f.metric) ==> fresh(p))
    ensures TreeShaped(f.metric)
    ensures FamilyOf(f) == TimestampGauge(name, help, labels, t)
    ensures f.name == name && f.help == help && f.typ == GAUGE && |f.metric| == 1
    ensures f.metric[0].timestampMs == None && f.metric[0].payload.typ == GAUGE
    ensures f.metric[0].payload.value * 1000000000.0 == t as real
  {
    f := NewBareGauge(name, help, t);
    hide SanitizedFamily, TimestampGauge, BareGauge, TreeShaped, FamilyOf;
    SanitizeLabels(f, labels);
    SanitizedGauge(name, help, t, labels, FamilyOf(f));
    GaugeParts(f, name, help, labels, t);
  }

  lemma GaugeParts(f: MetricFamily, name: string, help: string, labels: Labels, t: Time)
    requires FamilyOf(f) == TimestampGauge(name, help, labels, t)
    ensures f.name == name && f.help == help && f.typ == GAUGE && |f.metric| == 1
    ensures f.metric[0].timestampMs == None && f.metric[0].payload.typ == GAUGE
    ensures f.metric[0].payload.value * 1000000000.0 == t as real
  {
    assert SampleOf(f.metric[0]) == SamplesOf(f.metric)[0];
  }

  method NewBareGauge(name: string, help: string, t: Time) returns (f: MetricFamily)
    ensures fresh(f) && |f.metric| == 1 && fresh(f.metric[0]) && PairsIn(f.metric) == {}
    ensures TreeShaped(f.metric) && FamilyOf(f) == BareGauge(name, help, t)
  {
    var m := new Metric([], None, Payload(GAUGE, Seconds(t)));
    f := new MetricFamily(name, help, GAUGE, [m]);
    assert SampleOf(m) == Sample([], None, Payload(GAUGE, Seconds(t)));
  }

  ghost function BareGauge(name: string, help: string, t: Time): Family {
    Family(name, help, GAUGE, [Sample([], None, Payload(GAUGE, Seconds(t)))])
  }

  lemma SanitizedGauge(name: string, help: string, t: Time, labels: Labels, after: Family)
    requires SanitizedFamily(BareGauge(name, help, t), labels, after)
    ensures after == TimestampGauge(name, help, labels, t)
  {
    SanitizeIsMapOverride([], labels, after.samples[0].labels);
    assert map[] + labels == labels;
    assert after.samples == [after.samples[0]];
  }

  /** Deletes all families except the push timestamps, in an arbitrary order. */
  method DeleteUnreserved(group: MetricsMap)
    modifies group
    ensures group.m == map n | n in old(group.m) && n in Reserved() :: old(group.m)[n]
  {
    var todo := group.m.Keys;
    while todo != {}
      invariant todo <= old(group.m.Keys)
      invariant group.m == map n | n in old(group.m) && (n in Reserved() || n in todo) :: old(group.m)[n]
      decreases todo
    {
      var name :| name in todo;
      if name != PUSH_METRIC_NAME && name != PUSH_FAILED_METRIC_NAME {
        group.m := group.m - {name};
      }
      todo := todo - {name};
    }
  }

  /** Stores all families of a request in a group, in an arbitrary order. */
  method StoreFamilies(group: MetricsMap, families: map<string, MetricFamily>, timestamp: Time)
    modifies group
    ensures group.m == old(group.m) + StampAll(families, timestamp)
  {
    var todo := families.Keys;
    while todo != {}
      invariant todo <= families.Keys
      invariant group.m == old(group.m) + (map n | n in families && n !in todo :: Stamped(timestamp, families[n]))
      decreases todo
    {
      var name :| name in todo;
      group.m := group.m[name := Stamped(timestamp, families[name])];
      todo := todo - {name};
    }
    assert (map n | n in families && n !in todo :: Stamped(timestamp, families[n])) == StampAll(families, timestamp);
  }

  twostate predicate IsNewGauge(new f: MetricFamily)
    reads f, f.metric
  {
    fresh(f) && (forall m :: m in f.metric ==> fresh(m)) && (forall p :: p in PairsIn(f.metric) ==> fresh(p))
  }

  /** Adds the timestamp gauges to the request's families: the one for success always, the one for
      failure only if the group has none. */
  method AddGauges(families: FamilyMap, group: MetricsMap, labels: Labels, timestamp: Time)
    returns (ghost pushed: MetricFamily, ghost failed: MetricFamily)
    modifies families
    ensures families.m == WithGauges(old(families.m), group.m, pushed, failed)
    ensures IsNewGauge(pushed) && FamilyOf(pushed) == PushGauge(labels, timestamp)
    ensures PUSH_FAILED_METRIC_NAME !in group.m ==>
              IsNewGauge(failed) && FamilyOf(failed) == FailureGauge(labels, 0)
  {
    hide TimestampGauge, TreeShaped, FamilyOf;
    var pushedGauge := NewTimestampGauge(PUSH_METRIC_NAME, PUSH_METRIC_HELP, labels, timestamp);
    pushed, failed := pushedGauge, pushedGauge;
    families.m := families.m[PUSH_METRIC_NAME := pushedGauge];
    if PUSH_FAILED_METRIC_NAME !in group.m {
      var failedGauge := NewTimestampGauge(PUSH_FAILED_METRIC_NAME, PUSH_FAILED_METRIC_HELP, labels, 0);
      failed := failedGauge;
      families.m := families.m[PUSH_FAILED_METRIC_NAME := failedGauge];
    }
  }

  class DiskMetricStore {
    var metricGroups: GroupMap
    const predefinedHelp: map<string, string>

    ghost predicate Valid()
      reads this
    {
      DistinctMaps(metricGroups)
    }

    ghost function Maps(): set<MetricsMap>
      reads this
    {
      MapsIn(metricGroups)
    }

    ghost function Shallow(): Store<MetricFamily>
      reads this, Maps()
    {
      ShallowOf(metricGroups)
    }

    ghost function Families(): set<MetricFamily>
      reads this, Maps()
    {
      FamiliesIn(Shallow())
    }

    ghost function Deep(): Store<Family>
      reads this, Maps(), Families(), MetricsIn(Families()), AllPairsIn(Families())
    {
      DeepOf(Shallow())
    }

    constructor (metricGroups: GroupMap, predefinedHelp: map<string, string>)
      requires DistinctMaps(metricGroups)
      ensures Valid() && this.metricGroups == metricGroups && this.predefinedHelp == predefinedHelp
    {
      this.metricGroups, this.predefinedHelp := metricGroups, predefinedHelp;
    }

    /** The group to update; it is created if the key is new. */
    method GroupFor(key: string, labels: Labels) returns (group: MetricGroup, existed: bool)
      requires Valid()
      modifies this`metricGroups
      ensures existed <==> key in old(metricGroups)
      ensures Valid() && key in metricGroups && metricGroups[key] == group
      ensures key in old(metricGroups) ==> metricGroups == old(metricGroups)
      ensures key !in old(metricGroups) ==> fresh(group.metrics) && metricGroups == old(metricGroups)[key := group]
      ensures group.metrics in Maps() && group.labels == GroupAt(old(Shallow()), key, labels).labels
      ensures group.metrics.m == GroupAt(old(Shallow()), key, labels).metrics
    {
      existed := key in metricGroups;
      if existed {
        group := metricGroups[key];
      } else {
        var metrics := new MetricsMap(map[]);
        group := MetricGroup(labels, metrics);
        metricGroups := metricGroups[key := group];
      }
    }

    /** In the store only the group of `key` differs from what it was. */
    twostate predicate OnlyGroup(key: string)
      reads this, Maps()
    {
      && Shallow().Keys == old(Shallow()).Keys + {key}
      && forall k :: k in old(Shallow()) && k != key ==> Shallow()[k] == old(Shallow())[k]
    }

    /** Finds or creates the group of an update, and empties it for a replacing one. */
    method KeptGroup(key: string, labels: Labels, replace: bool) returns (group: MetricGroup)
      requires Valid()
      modifies this`metricGroups, Maps()
      ensures Valid() && (forall m :: m in Maps() ==> m in old(Maps()) || fresh(m))
      ensures key in metricGroups && metricGroups[key] == group && OnlyGroup(key)
      ensures group.labels == GroupAt(old(Shallow()), key, labels).labels
      ensures group.metrics.m == old(Kept(Shallow(), key, replace))
    {
      hide Reserved;
      var existed;
      group, existed := GroupFor(key, labels);
      if existed && replace {
        DeleteUnreserved(group.metrics);
      }
    }

    /** Everything an update does before it stores the families: finding or creating the group,
        emptying it for a replacing update, and completing the request's families. */
    method PrepareUpdate(key: string, labels: Labels, timestamp: Time, families: FamilyMap, replace: bool)
      returns (group: MetricGroup, ghost pushed: MetricFamily, ghost failed: MetricFamily)
      requires Valid()
      modifies this`metricGroups, Maps(), families
      ensures Valid() && (forall m :: m in Maps() ==> m in old(Maps()) || fresh(m))
      ensures key in metricGroups && metricGroups[key] == group && OnlyGroup(key)
      ensures group.labels == GroupAt(old(Shallow()), key, labels).labels
      ensures group.metrics.m == old(Kept(Shallow(), key, replace))
      ensures families.m == WithGauges(old(families.m), group.metrics.m, pushed, failed)
      ensures IsNewGauge(pushed) && FamilyOf(pushed) == PushGauge(labels, timestamp)
      ensures PUSH_FAILED_METRIC_NAME !in group.metrics.m ==>
                IsNewGauge(failed) && FamilyOf(failed) == FailureGauge(labels, 0)
    {
      hide WithGauges, PushGauge, FailureGauge, FamilyOf, Reserved, Kept, DistinctMaps;
      group := KeptGroup(key, labels, replace);
      pushed, failed := AddGauges(families, group.metrics, labels, timestamp);
    }

    /** Applies an update whose families are taken from, and completed in, the request's own map. */
    method Update(key: string, labels: Labels, timestamp: Time, families: FamilyMap, replace: bool)
      returns (ghost pushed: MetricFamily, ghost failed: MetricFamily)
      requires Valid()
      modifies this`metricGroups, Maps(), families
      ensures Valid() && (forall m :: m in Maps() ==> m in old(Maps()) || fresh(m))
      ensures families.m == WithGauges(old(families.m), old(Kept(Shallow(), key, replace)), pushed, failed)
      ensures IsNewGauge(pushed) && FamilyOf(pushed) == PushGauge(labels, timestamp)
      ensures PUSH_FAILED_METRIC_NAME !in old(Kept(Shallow(), key, replace)) ==>
                IsNewGauge(failed) && FamilyOf(failed) == FailureGauge(labels, 0)
      ensures Shallow() == PutAll(old(Shallow()), key, labels, timestamp, families.m, replace)
    {
      hide PutAll, StampAll, WithGauges, PushGauge, FailureGauge, FamilyOf, Kept;
      var group;
      group, pushed, failed := PrepareUpdate(key, labels, timestamp, families, replace);
      label prepared:
      StoreFamilies(group.metrics, families.m, timestamp);
      UntouchedFamily@prepared(pushed);
      if PUSH_FAILED_METRIC_NAME !in old(Kept(Shallow(), key, replace)) {
        UntouchedFamily@prepared(failed);
      }
      assert forall k :: k in metricGroups && k != key ==> metricGroups[k].metrics != group.metrics;
      PutAllByParts(old(Shallow()), Shallow(), key, labels, timestamp, families.m, replace);
    }

    /** Applies a request: deletes the group, or updates it. The request's family map comes out
        completed with the timestamp gauges. No family object is written. */
    method ProcessWriteRequest(wr: WriteRequest)
      requires Valid()
      modifies this`metricGroups, Maps(), wr.families
      ensures Valid() && (forall m :: m in Maps() ==> m in old(Maps()) || fresh(m))
      ensures wr.families == null ==> Shallow() == old(Shallow()) - {KeyOf(wr.labels)}
      ensures wr.families == null ==> Deep() == old(Deep()) - {KeyOf(wr.labels)}
      ensures wr.families != null ==>
                Deep() == Commit(old(Deep()), wr.labels, wr.timestamp, old(DeepFamilies(wr.families.m)), wr.replace)
      ensures wr.families != null ==>
                DeepFamilies(wr.families.m) == Completed(old(Deep()), wr, old(DeepFamilies(wr.families.m)))
      ensures forall f :: f in Families() ==> f in old(Families()) || f in old(wr.FamilyObjects()) || IsNewGauge(f)
      ensures forall f :: f in wr.FamilyObjects() ==> f in old(wr.FamilyObjects()) || IsNewGauge(f)
    {
      hide PushGauge, FailureGauge, FamilyOf, DeepOf, DeepFamilies, KeyOf, Commit, Completed, PutAll, Kept, WithGauges,
           FamiliesIn;
      var key := GroupingKeyFor(wr.labels);
      ghost var before := Shallow();
      if wr.families == null {
        metricGroups := metricGroups - {key};
        assert Shallow() == before - {key};
        DeepDelete(before, key);
        DeleteObjects(before, key);
        SparedStore(before);
        return;
      }
      ghost var families := wr.families.m;
      ghost var pushed, failed := Update(key, wr.labels, wr.timestamp, wr.families, wr.replace);
      SparedStore(before);
      SparedFamilies(families);
      CommitMeaning(before, wr, families, pushed, failed);
      CommitObjects(before, wr, families, pushed, failed);
    }

    /** Puts the gauges of a rejected push into its group, on the level of the maps. */
    method PutFailedGauges(key: string, labels: Labels, timestamp: Time)
      returns (ghost pushed: MetricFamily, ghost failed: MetricFamily)
      requires Valid()
      modifies this`metricGroups, Maps()
      ensures Valid() && (forall m :: m in Maps() ==> m in old(Maps()) || fresh(m))
      ensures IsNewGauge(failed) && FamilyOf(failed) == FailureGauge(labels, timestamp)
      ensures IsNewGauge(pushed)
      ensures PUSH_METRIC_NAME !in GroupAt(old(Shallow()), key, labels).metrics ==> FamilyOf(pushed) == PushGauge(labels, 0)
      ensures Shallow() == PutFailure(old(Shallow()), key, labels, timestamp, pushed, failed)
    {
      hide FailureGauge, PushGauge, FamilyOf, PutFailure, PairsIn;
      var group, existed := GroupFor(key, labels);
      pushed, failed := StampFailure(group.metrics, labels, timestamp);
      assert forall k :: k in metricGroups && k != key ==> metricGroups[k].metrics != group.metrics;
      PutFailureByParts(old(Shallow()), Shallow(), key, labels, timestamp, pushed, failed);
    }

    /** Records a rejected push: its failure time always, a zero success time if the group has none. */
    method SetPushFailedTimestamp(wr: WriteRequest)
      requires Valid()
      modifies this`metricGroups, Maps()
      ensures Valid() && (forall m :: m in Maps() ==> m in old(Maps()) || fresh(m))
      ensures Deep() == FailStamp(old(Deep()), wr.labels, wr.timestamp)
      ensures forall f :: f in Families() ==> f in old(Families()) || IsNewGauge(f)
    {
      hide PushGauge, FailureGauge, FamilyOf, DeepOf, KeyOf, FailStamp, PutFailure, Valid, FamiliesIn;
      var key := GroupingKeyFor(wr.labels);
      ghost var before := Shallow();
      ghost var pushed, failed := PutFailedGauges(key, wr.labels, wr.timestamp);
      SparedStore(before);
      FailureMeaning(before, wr.labels, wr.timestamp, pushed, failed);
      FailureObjects(before, key, wr.labels, wr.timestamp, pushed, failed);
    }

    /** A copy of both map levels; the families are shared. */
    method GetMetricFamiliesMap() returns (groupsCopy: GroupMap)
      requires Valid()
      ensures DistinctMaps(groupsCopy) && forall m :: m in MapsIn(groupsCopy) ==> fresh(m)
      ensures ShallowOf(groupsCopy) == Shallow()
    {
      groupsCopy := map[];
      var todo := metricGroups.Keys;
      while todo != {}
        invariant todo <= metricGroups.Keys
        invariant groupsCopy.Keys == metricGroups.Keys - todo
        invariant DistinctMaps(groupsCopy)
        invariant forall k :: k in groupsCopy ==> fresh(groupsCopy[k].metrics)
        invariant forall k :: k in groupsCopy ==>
                    groupsCopy[k].labels == metricGroups[k].labels && groupsCopy[k].metrics.m == metricGroups[k].metrics.m
        decreases todo
      {
        var k :| k in todo;
        var metricsCopy := new MetricsMap(metricGroups[k].metrics.m);
        groupsCopy := groupsCopy[k := MetricGroup(metricGroups[k].labels, metricsCopy)];
        todo := todo - {k};
      }
      assert ShallowOf(groupsCopy) == Shallow();
    }

    /** All families, merged by name over the groups. Families of the store appear as they are or
        as copies; none is written. */
    method GetMetricFamilies() returns (result: seq<MetricFamily>, ghost order: seq<string>, ghost names: seq<string>)
      requires Valid()
      ensures Enumerates(order, Deep().Keys) && Enumerates(names, NamesIn(Shallow())) && |result| == |names|
      ensures forall f :: f in result ==> f in Families() || fresh(f)
      ensures forall i :: 0 <= i < |names| ==> IsMergeOf(result[i], Listed(Shallow(), order, names[i]), names[i], predefinedHelp)
      ensures NamedByKey(Deep()) ==> MergedFamilies(Deep(), order, names, ValuesOf(result))
      ensures NamedByKey(Deep()) ==> HelpIsRight(Deep(), predefinedHelp, ValuesOf(result))
    {
      hide Enumerates, NamesIn, IsMergeOf, Listed, FamilyOf, ShallowOf, DistinctMaps, MergedFamilies, DeepOf, FamiliesIn;
      result, order, names := MergeGroups(metricGroups, predefinedHelp);
      DeepKeys(metricGroups);
      if NamedByKey(Deep()) {
        MergedMeaning(Shallow(), order, names, result, predefinedHelp);
        MergedHelp(Shallow(), order, names, result, predefinedHelp);
      }
    }
  }

  /** Puts the failure gauge into a group, and a zero success gauge if there is none. */
  method StampFailure(group: MetricsMap, labels: Labels, timestamp: Time)
    returns (ghost pushed: MetricFamily, ghost failed: MetricFamily)
    modifies group
    ensures var ms := old(group.m)[PUSH_FAILED_METRIC_NAME := Stamped(timestamp, failed)];
            group.m == if PUSH_METRIC_NAME in ms then ms else ms[PUSH_METRIC_NAME := Stamped(timestamp, pushed)]
    ensures IsNewGauge(failed) && FamilyOf(failed) == FailureGauge(labels, timestamp)
    ensures IsNewGauge(pushed) && (PUSH_METRIC_NAME !in old(group.m) ==> FamilyOf(pushed) == PushGauge(labels, 0))
  {
    hide TimestampGauge, TreeShaped, FamilyOf;
    ReservedNamesDiffer();
    var failedGauge := NewTimestampGauge(PUSH_FAILED_METRIC_NAME, PUSH_FAILED_METRIC_HELP, labels, timestamp);
    pushed, failed := failedGauge, failedGauge;
    group.m := group.m[PUSH_FAILED_METRIC_NAME := Stamped(timestamp, failedGauge)];
    if PUSH_METRIC_NAME !in group.m {
      var pushedGauge := NewTimestampGauge(PUSH_METRIC_NAME, PUSH_METRIC_HELP, labels, 0);
      group.m := group.m[PUSH_METRIC_NAME := Stamped(timestamp, pushedGauge)];
      pushed := pushedGauge;
    }
  }

  lemma FailureObjects(s: Store<MetricFamily>, key: string, labels: Labels, ts: Time, pushed: MetricFamily, failed: MetricFamily)
    ensures FamiliesIn(PutFailure(s, key, labels, ts, pushed, failed)) <= FamiliesIn(s) + {pushed, failed}
  {
    var t := PutFailure(s, key, labels, ts, pushed, failed);
    forall f | f in FamiliesIn(t) ensures f in FamiliesIn(s) + {pushed, failed} {
      var k, n :| k in t && n in t[k].metrics && t[k].metrics[n].family == f;
      if f != pushed && f != failed { assert k in s && n in s[k].metrics && s[k].metrics[n].family == f; }
    }
  }

  lemma FailureMeaning(s: Store<MetricFamily>, labels: Labels, ts: Time, pushed: MetricFamily, failed: MetricFamily)
    requires FamilyOf(failed) == FailureGauge(labels, ts)
    requires PUSH_METRIC_NAME !in GroupAt(s, KeyOf(labels), labels).metrics ==> FamilyOf(pushed) == PushGauge(labels, 0)
    ensures DeepOf(PutFailure(s, KeyOf(labels), labels, ts, pushed, failed)) == FailStamp(DeepOf(s), labels, ts)
  {
    ReservedNamesDiffer();
    DeepPutFailure(s, KeyOf(labels), labels, ts, pushed, failed);
    assert GroupAt(DeepOf(s), KeyOf(labels), labels).metrics.Keys == GroupAt(s, KeyOf(labels), labels).metrics.Keys;
  }

  // ------------------------------------------------------------ meaning of the merged families

  lemma DeepKeys(g: GroupMap)
    ensures DeepOf(ShallowOf(g)).Keys == g.Keys
  {}

  function ValuesOf(fs: seq<MetricFamily>): (r: seq<Family>)
    reads *
    ensures |r| == |fs| && forall i :: 0 <= i < |fs| ==> r[i] == FamilyOf(fs[i])
  {
    if fs == [] then [] else ValuesOf(fs[..|fs| - 1]) + [FamilyOf(fs[|fs| - 1])]
  }

  lemma SamplesConcat(a: seq<Metric>, b: seq<Metric>)
    ensures SamplesOf(a + b) == SamplesOf(a) + SamplesOf(b)
  {
    assert SamplesOf(a + b) == SamplesOf(a) + SamplesOf(b);
  }

  lemma {:induction false} ListedMeaning(s: Store<MetricFamily>, order: seq<string>, n: string)
    ensures SamplesOf(MetricsOf(Listed(s, order, n))) == Flat(map[], DeepOf(s), Groups(order), n)
  {
    if order != [] {
      var before, k := order[..|order| - 1], order[|order| - 1];
      var fs := Listed(s, before, n);
      ListedMeaning(s, before, n);
      assert Groups(order)[..|order| - 1] == Groups(before);
      if k in s && n in s[k].metrics {
        var f := s[k].metrics[n].family;
        assert (fs + [f])[..|fs|] == fs;
        SamplesConcat(MetricsOf(fs), f.metric);
      } else {
        assert fs + [] == fs;
      }
    }
  }

  lemma {:induction false} ListedNames(s: Store<MetricFamily>, order: seq<string>, n: string)
    requires NamedByKey(DeepOf(s))
    ensures forall f :: f in Listed(s, order, n) ==> f.name == n
  {
    if order != [] {
      var k := order[|order| - 1];
      ListedNames(s, order[..|order| - 1], n);
      if k in s && n in s[k].metrics { assert DeepOf(s)[k].metrics[n].family.name == s[k].metrics[n].family.name; }
    }
  }

  lemma {:induction false} ListedType(s: Store<MetricFamily>, order: seq<string>, n: string)
    requires Listed(s, order, n) != []
    ensures FirstType(DeepOf(s), order, n) == Listed(s, order, n)[0].typ
  {
    var before, k := order[..|order| - 1], order[|order| - 1];
    assert order == before + [k];
    FirstTypeSnoc(DeepOf(s), before, k, n);
    ListedFrom(s, before, n);
    assert forall j :: j in s ==> j in DeepOf(s) && DeepOf(s)[j].metrics.Keys == s[j].metrics.Keys;
    if Listed(s, before, n) != [] {
      ListedType(s, before, n);
    } else {
      var f := s[k].metrics[n].family;
      assert Listed(s, order, n) == [f];
      assert DeepOf(s)[k].metrics[n].family == FamilyOf(f);
    }
  }

  lemma {:induction false} FirstTypeSnoc(s: Store<Family>, before: seq<string>, k: string, n: string)
    ensures FirstType(s, before + [k], n)
            == if exists j :: j in before && j in s && n in s[j].metrics then FirstType(s, before, n)
               else FirstType(s, [k], n)
  {
    if before != [] {
      FirstTypeSnoc(s, before[1..], k, n);
      assert (before + [k])[1..] == before[1..] + [k];
      assert before == [before[0]] + before[1..];
    }
  }

  lemma MergedMeaning(s: Store<MetricFamily>, order: seq<string>, names: seq<string>, result: seq<MetricFamily>,
                      predefinedHelp: map<string, string>)
    requires NamedByKey(DeepOf(s)) && Enumerates(names, NamesIn(s)) && |result| == |names|
    requires forall i :: 0 <= i < |names| ==> IsMergeOf(result[i], Listed(s, order, names[i]), names[i], predefinedHelp)
    ensures MergedFamilies(DeepOf(s), order, names, ValuesOf(result))
  {
    assert NamesIn(DeepOf(s)) == NamesIn(s) by {
      forall n ensures n in NamesIn(DeepOf(s)) <==> n in NamesIn(s) {
        if n in NamesIn(s) {
          var k :| k in s && n in s[k].metrics;
          assert k in DeepOf(s) && n in DeepOf(s)[k].metrics;
        }
      }
    }
    hide DeepOf, NamesIn, NamedByKey, Enumerates;
    forall i | 0 <= i < |names|
      ensures ValuesOf(result)[i].name == names[i] && ValuesOf(result)[i].typ == FirstType(DeepOf(s), order, names[i])
      ensures ValuesOf(result)[i].samples == Flat(map[], DeepOf(s), Groups(order), names[i])
    {
      var fs := Listed(s, order, names[i]);
      ListedNames(s, order, names[i]);
      ListedMeaning(s, order, names[i]);
      ListedType(s, order, names[i]);
      assert fs[0] in fs;
    }
  }

  /** A family's help is the predefined one of its name, if there is one, and otherwise that of a stored
      family of the same name. */
  ghost predicate HelpIsRight(s: Store<Family>, predefinedHelp: map<string, string>, families: seq<Family>) {
    forall i :: 0 <= i < |families| ==>
      if families[i].name in predefinedHelp then families[i].help == predefinedHelp[families[i].name]
      else exists k :: k in s && families[i].name in s[k].metrics && families[i].help == s[k].metrics[families[i].name].family.help
  }

  lemma {:induction false} ListedAt(s: Store<MetricFamily>, order: seq<string>, n: string, f: MetricFamily)
    requires f in Listed(s, order, n)
    ensures exists k :: k in s && n in s[k].metrics && s[k].metrics[n].family == f
  {
    var k := order[|order| - 1];
    if f in Listed(s, order[..|order| - 1], n) {
      ListedAt(s, order[..|order| - 1], n, f);
    } else {
      assert k in s && n in s[k].metrics && s[k].metrics[n].family == f;
    }
  }

  lemma MergedHelp(s: Store<MetricFamily>, order: seq<string>, names: seq<string>, result: seq<MetricFamily>,
                   predefinedHelp: map<string, string>)
    requires NamedByKey(DeepOf(s)) && |result| == |names|
    requires forall i :: 0 <= i < |names| ==> IsMergeOf(result[i], Listed(s, order, names[i]), names[i], predefinedHelp)
    ensures HelpIsRight(DeepOf(s), predefinedHelp, ValuesOf(result))
  {
    var families := ValuesOf(result);
    forall i | 0 <= i < |families|
      ensures if families[i].name in predefinedHelp then families[i].help == predefinedHelp[families[i].name]
              else exists k :: k in DeepOf(s) && families[i].name in DeepOf(s)[k].metrics
                               && families[i].help == DeepOf(s)[k].metrics[families[i].name].family.help
    {
      OneHelp(s, result[i], Listed(s, order, names[i]), order, names[i], predefinedHelp);
    }
  }

  lemma OneHelp(s: Store<MetricFamily>, r: MetricFamily, fs: seq<MetricFamily>, order: seq<string>, n: string,
                predefinedHelp: map<string, string>)
    requires NamedByKey(DeepOf(s)) && fs == Listed(s, order, n) && IsMergeOf(r, fs, n, predefinedHelp)
    ensures r.name == n
    ensures if n in predefinedHelp then r.help == predefinedHelp[n]
            else exists k :: k in DeepOf(s) && n in DeepOf(s)[k].metrics && r.help == DeepOf(s)[k].metrics[n].family.help
  {
    ListedNames(s, order, n);
    assert fs[0] in fs;
    ListedAt(s, order, n, fs[0]);
    var k :| k in s && n in s[k].metrics && s[k].metrics[n].family == fs[0];
    assert k in DeepOf(s) && n in DeepOf(s)[k].metrics && DeepOf(s)[k].metrics[n].family.help == fs[0].help;
  }
}
