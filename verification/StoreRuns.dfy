/** What holds over whole runs of the store: its invariant, independence of groups, success
    tracking, and consistency of the exposed metrics. */
module StoreRuns {
  import opened Dto
  import opened LabelSpec
  import opened GroupingKey
  import opened StoreSpec

  // ------------------------------------------------------------ store invariant

  /** Labels as sanitizing leaves them: strictly sorted, every grouping label with its value, and
      an `instance` label. */
  ghost predicate WellLabelled(ls: seq<Label>, grouping: Labels) {
    && StrictlySortedByName(ls)
    && (forall n :: n in grouping ==> Label(n, grouping[n]) in ls)
    && INSTANCE_LABEL in Names(ls)
  }

  ghost predicate WellFormedFamily(f: Family, name: string, grouping: Labels) {
    && f.name == name
    && forall i :: 0 <= i < |f.samples| ==>
         f.samples[i].timestampMs.None? && WellLabelled(f.samples[i].labels, grouping)
  }

  ghost predicate GroupInvariant(key: string, g: Group<Family>) {
    && key == KeyOf(g.labels) && CleanLabels(g.labels)
    && PUSH_METRIC_NAME in g.metrics && PUSH_FAILED_METRIC_NAME in g.metrics
    && forall n :: n in g.metrics ==> WellFormedFamily(g.metrics[n].family, n, g.labels)
  }

  ghost predicate StoreInvariant(s: Store<Family>) {
    forall k :: k in s ==> GroupInvariant(k, s[k])
  }

  /** A write as it arrives after sanitizing metrics with distinct label names; families are keyed
      by their names, and grouping labels do not contain the separator byte. Timestamps may be
      present: such a push is rejected. */
  ghost predicate WellFormedWrite(w: Write) {
    && CleanLabels(w.labels)
    && (w.Push? && !TimestampsPresent(w.families) ==>
          forall n :: n in w.families ==> WellFormedFamily(w.families[n], n, w.labels))
  }

  lemma GaugeIsWellFormed(name: string, help: string, labels: Labels, t: Time)
    ensures WellFormedFamily(TimestampGauge(name, help, labels, t), name, labels)
  {
    var ls := PairsOf(WithInstance(labels));
    PairsOfIsMap(WithInstance(labels));
    AsMapOf(ls);
    forall n | n in labels ensures Label(n, labels[n]) in ls {
      assert n in Names(ls);
      var i :| 0 <= i < |ls| && ls[i].name == n;
      assert ls[i] == Label(n, labels[n]);
    }
  }

  lemma ApplyKeepsInvariant(own: OwnMetrics, s: Store<Family>, w: Write)
    requires StoreInvariant(s) && WellFormedWrite(w)
    ensures StoreInvariant(Apply(own, s, w))
  {
    if w.Push? {
      PushedGroupInvariant(own, s, w);
      ApplyIsLocal(s, s, w, Accepts(own, s, w));
      forall k | k in Apply(own, s, w) && k != KeyOf(w.labels) ensures GroupInvariant(k, Apply(own, s, w)[k]) {
        assert Lookup(Apply(own, s, w), k) == Lookup(s, k);
      }
    }
  }

  lemma PushedGroupInvariant(own: OwnMetrics, s: Store<Family>, w: Write)
    requires StoreInvariant(s) && WellFormedWrite(w) && w.Push?
    ensures GroupInvariant(KeyOf(w.labels), Apply(own, s, w)[KeyOf(w.labels)])
  {
    if Accepts(own, s, w) {
      CommitUpdates(s, w.labels, w.timestamp, w.families, w.replace);
      UpdatedGroupInvariant(s, w.labels, w.families, Apply(own, s, w)[KeyOf(w.labels)]);
    } else {
      FailStampUpdates(s, w.labels, w.timestamp);
      UpdatedGroupInvariant(s, w.labels, map[], Apply(own, s, w)[KeyOf(w.labels)]);
    }
  }

  lemma GaugesAreWellFormed(labels: Labels, t: Time)
    requires CleanLabels(labels)
    ensures WellFormedFamily(PushGauge(labels, t), PUSH_METRIC_NAME, labels)
    ensures WellFormedFamily(FailureGauge(labels, t), PUSH_FAILED_METRIC_NAME, labels)
  {
    hide TimestampGauge, WellFormedFamily;
    GaugeIsWellFormed(PUSH_METRIC_NAME, PUSH_METRIC_HELP, labels, t);
    GaugeIsWellFormed(PUSH_FAILED_METRIC_NAME, PUSH_FAILED_METRIC_HELP, labels, t);
  }

  lemma GroupOfKey(s: Store<Family>, labels: Labels)
    requires StoreInvariant(s) && CleanLabels(labels)
    ensures KeyOf(labels) in s ==> s[KeyOf(labels)].labels == labels && GroupInvariant(KeyOf(labels), s[KeyOf(labels)])
  {
    hide WellFormedFamily;
    var key := KeyOf(labels);
    if key in s {
      assert GroupInvariant(key, s[key]);
      KeysAreUnique(s[key].labels, labels);
    }
  }

  lemma UpdatedGroupInvariant(s: Store<Family>, labels: Labels, families: map<string, Family>, g: Group<Family>)
    requires StoreInvariant(s) && CleanLabels(labels)
    requires forall n :: n in families ==> WellFormedFamily(families[n], n, labels)
    requires UpdatedGroup(s, labels, families, g)
    ensures GroupInvariant(KeyOf(labels), g)
  {
    hide PushGauge, FailureGauge, KeyOf, WellFormedFamily, CleanLabels;
    GroupOfKey(s, labels);
    forall t ensures WellFormedFamily(PushGauge(labels, t), PUSH_METRIC_NAME, labels)
                     && WellFormedFamily(FailureGauge(labels, t), PUSH_FAILED_METRIC_NAME, labels) {
      GaugesAreWellFormed(labels, t);
    }
    forall n | n in g.metrics ensures WellFormedFamily(g.metrics[n].family, n, g.labels) {
      assert Provenance(s, labels, families, n, g.metrics[n].family);
    }
  }

  /** The store invariant holds after any run, checked or not, from any store that satisfies it. */
  lemma {:induction false} RunsKeepInvariant(own: OwnMetrics, s: Store<Family>, ws: seq<Write>)
    requires StoreInvariant(s)
    requires forall i :: 0 <= i < |ws| ==> WellFormedWrite(ws[i])
    ensures StoreInvariant(Fold(own, s, ws))
  {
    if ws != [] {
      RunsKeepInvariant(own, s, ws[..|ws| - 1]);
      ApplyKeepsInvariant(own, Fold(own, s, ws[..|ws| - 1]), ws[|ws| - 1]);
    }
  }

  // ------------------------------------------------------------ independence of groups

  ghost function Replay(s: Store<Family>, vs: Verdicts): Store<Family> {
    if vs == [] then s
    else ApplyAs(Replay(s, vs[..|vs| - 1]), vs[|vs| - 1].0, vs[|vs| - 1].1)
  }

  /** A run is the replay of its requests with the verdicts it reaches. */
  lemma {:induction false} RunIsReplay(own: OwnMetrics, s: Store<Family>, ws: seq<Write>)
    ensures Fold(own, s, ws) == Replay(s, VerdictsOf(own, s, ws))
  {
    hide ApplyAs, Accepts;
    if ws != [] {
      var before, last := ws[..|ws| - 1], ws[|ws| - 1];
      RunIsReplay(own, s, before);
      var vs, verdict := VerdictsOf(own, s, before), Accepts(own, Fold(own, s, before), last);
      assert (vs + [(last, verdict)])[..|vs|] == vs;
      assert Replay(s, vs + [(last, verdict)]) == ApplyAs(Replay(s, vs), last, verdict);
    }
  }

  function OnlyLabelled(vs: Verdicts, labels: Labels): Verdicts {
    if vs == [] then []
    else
      var before := OnlyLabelled(vs[..|vs| - 1], labels);
      if vs[|vs| - 1].0.labels == labels then before + [vs[|vs| - 1]] else before
  }

  /** For fixed verdicts the group of a label set is what the requests with that label set alone
      make of it: traffic for other groups cannot affect it. */
  lemma {:induction false} GroupsAreIndependent(s: Store<Family>, vs: Verdicts, labels: Labels)
    requires CleanLabels(labels)
    requires forall i :: 0 <= i < |vs| ==> CleanLabels(vs[i].0.labels)
    ensures Lookup(Replay(s, vs), KeyOf(labels)) == Lookup(Replay(s, OnlyLabelled(vs, labels)), KeyOf(labels))
  {
    if vs != [] {
      var before, last := vs[..|vs| - 1], vs[|vs| - 1];
      GroupsAreIndependent(s, before, labels);
      KeysAreUnique(labels, last.0.labels);
      ApplyIsLocal(Replay(s, before), Replay(s, OnlyLabelled(before, labels)), last.0, last.1);
      if last.0.labels == labels {
        assert OnlyLabelled(vs, labels)[..|OnlyLabelled(before, labels)|] == OnlyLabelled(before, labels);
      }
    }
  }

  // ------------------------------------------------------------ last push success

  function GaugeValue(m: Sample): real { if m.payload.typ == GAUGE then m.payload.value else 0.0 }

  /** Whether the timestamp families can be read: if present they have a metric. */
  predicate Readable(g: Group<Family>) {
    forall n :: n in Reserved() && n in g.metrics ==> |g.metrics[n].family.samples| > 0
  }

  predicate LastPushSuccess(g: Group<Family>)
    requires Readable(g)
  {
    PUSH_FAILED_METRIC_NAME in g.metrics && PUSH_METRIC_NAME in g.metrics ==>
      assert PUSH_FAILED_METRIC_NAME in Reserved() && PUSH_METRIC_NAME in Reserved();
      GaugeValue(g.metrics[PUSH_FAILED_METRIC_NAME].family.samples[0])
        <= GaugeValue(g.metrics[PUSH_METRIC_NAME].family.samples[0])
  }

  /** The verdict on the last push for a key, if it has not been deleted since. */
  ghost function LastVerdict(own: OwnMetrics, s: Store<Family>, ws: seq<Write>, key: string): Option<bool> {
    if ws == [] then None
    else
      var before, last := ws[..|ws| - 1], ws[|ws| - 1];
      if KeyOf(last.labels) != key then LastVerdict(own, s, before, key)
      else if last.Delete? then None
      else Some(Accepts(own, Fold(own, s, before), last))
  }

  /** Pushes are stamped with strictly increasing positive times, the last of them `upTo`. */
  ghost predicate Increasing(ws: seq<Write>, upTo: Time) {
    if ws == [] then upTo == 0
    else
      var before, last := ws[..|ws| - 1], ws[|ws| - 1];
      if last.Push? then last.timestamp == upTo && exists t :: 0 <= t < upTo && Increasing(before, t)
      else Increasing(before, upTo)
  }

  predicate NoPushedFailure(ws: seq<Write>) {
    forall i :: 0 <= i < |ws| && ws[i].Push? ==> PUSH_FAILED_METRIC_NAME !in ws[i].families
  }

  ghost predicate GaugeUpTo(f: Family, upTo: Time) {
    |f.samples| == 1 && f.samples[0].payload.typ == GAUGE && f.samples[0].payload.value <= Seconds(upTo)
  }

  ghost predicate Tracked(g: Group<Family>, upTo: Time) {
    && PUSH_METRIC_NAME in g.metrics && PUSH_FAILED_METRIC_NAME in g.metrics
    && GaugeUpTo(g.metrics[PUSH_METRIC_NAME].family, upTo)
    && GaugeUpTo(g.metrics[PUSH_FAILED_METRIC_NAME].family, upTo)
  }

  lemma TrackedIsReadable(g: Group<Family>, upTo: Time)
    requires Tracked(g, upTo)
    ensures Readable(g)
  {}

  /** One push on a tracked store: the group's success flag is the verdict. */
  lemma PushTracks(s: Store<Family>, w: Write, accepted: bool, before: Time)
    requires w.Push? && PUSH_FAILED_METRIC_NAME !in w.families && 0 <= before < w.timestamp
    requires KeyOf(w.labels) in s ==> Tracked(s[KeyOf(w.labels)], before)
    ensures var g := ApplyAs(s, w, accepted)[KeyOf(w.labels)];
            Tracked(g, w.timestamp) && (TrackedIsReadable(g, w.timestamp); LastPushSuccess(g) == accepted)
  {
    ReservedNamesDiffer();
    var key := KeyOf(w.labels);
    var g := ApplyAs(s, w, accepted)[key];
    assert Seconds(before) < Seconds(w.timestamp) && Seconds(0) <= Seconds(before);
    if accepted {
      assert g.metrics[PUSH_METRIC_NAME].family == PushGauge(w.labels, w.timestamp);
      if key in s {
        assert g.metrics[PUSH_FAILED_METRIC_NAME] == s[key].metrics[PUSH_FAILED_METRIC_NAME];
      } else {
        assert g.metrics[PUSH_FAILED_METRIC_NAME].family == FailureGauge(w.labels, 0);
      }
    } else {
      assert g.metrics[PUSH_FAILED_METRIC_NAME].family == FailureGauge(w.labels, w.timestamp);
    }
    assert Tracked(g, w.timestamp);
  }

  /** Over any run from the empty store, a group exists exactly when its last write was a push, and
      its `LastPushSuccess` is exactly the verdict on that push. */
  lemma {:induction false} SuccessFlagIsLastVerdict(own: OwnMetrics, ws: seq<Write>, upTo: Time, key: string)
    requires Increasing(ws, upTo) && NoPushedFailure(ws)
    ensures key in Fold(own, map[], ws) <==> LastVerdict(own, map[], ws, key).Some?
    ensures key in Fold(own, map[], ws) ==>
              var g := Fold(own, map[], ws)[key];
              && Tracked(g, upTo)
              && (TrackedIsReadable(g, upTo); LastVerdict(own, map[], ws, key) == Some(LastPushSuccess(g)))
    ensures upTo >= 0
  {
    if ws != [] {
      var before, last := ws[..|ws| - 1], ws[|ws| - 1];
      var s := Fold(own, map[], before);
      var t := if last.Push? then (var t :| 0 <= t < upTo && Increasing(before, t); t) else upTo;
      SuccessFlagIsLastVerdict(own, before, t, key);
      var accepted := Accepts(own, s, last);
      ApplyIsLocal(s, s, last, accepted);
      if key == KeyOf(last.labels) {
        if last.Push? { PushTracks(s, last, accepted, t); }
      } else {
        assert Lookup(Fold(own, map[], ws), key) == Lookup(s, key);
      }
    }
  }

  /** A rejected push changes no family but the two timestamps of its own group. */
  lemma RejectedPushOnlyStamps(s: Store<Family>, labels: Labels, ts: Time, key: string, name: string)
    requires key != KeyOf(labels) || name !in Reserved()
    ensures var t := FailStamp(s, labels, ts);
            && (key in s ==> key in t && t[key].labels == s[key].labels)
            && (key in s && name in s[key].metrics <==> key in t && name in t[key].metrics)
            && (key in s && name in s[key].metrics ==> t[key].metrics[name] == s[key].metrics[name])
  {}

  // ------------------------------------------------------------ consistency over runs

  /** The gauge a rejected push puts into a family clashes with no metric of another source. */
  ghost predicate NoClash(own: OwnMetrics, s: Store<Family>, key: string, name: string, labels: Labels) {
    forall src :: src != In(key) ==>
      BlocksCompatible(Block(own, s, src, name), [GaugeSample(labels, 0)])
  }

  ghost function GaugeSample(labels: Labels, t: Time): Sample {
    Sample(PairsOf(WithInstance(labels)), None, Payload(GAUGE, Seconds(t)))
  }

  lemma CompatibleIsSymmetric(a: seq<Sample>, b: seq<Sample>)
    requires BlocksCompatible(a, b)
    ensures BlocksCompatible(b, a)
  {
    forall i, j | 0 <= i < |b| && 0 <= j < |a| ensures Compatible(b[i], a[j]) {
      assert Compatible(a[j], b[i]);
    }
  }

  /** Replacing one block of one name by a single gauge. */
  lemma OneGaugeConsistent(own: OwnMetrics, s: Store<Family>, t: Store<Family>, key: string, name: string, g: Sample)
    requires ConsistentName(own, s, name)
    requires forall src :: src != In(key) ==> Block(own, t, src, name) == Block(own, s, src, name)
    requires Block(own, t, In(key), name) == [g]
    ensures ConsistentName(own, t, name)
            <==> forall src :: src != In(key) ==> BlocksCompatible(Block(own, s, src, name), [g])
  {
    var me := In(key);
    if ConsistentName(own, t, name) {
      forall src | src != me ensures BlocksCompatible(Block(own, s, src, name), [g]) {
        assert BlocksCompatible(Block(own, t, src, name), Block(own, t, me, name));
      }
    }
    if forall src :: src != me ==> BlocksCompatible(Block(own, s, src, name), [g]) {
      forall a ensures PairwiseCompatible(Block(own, t, a, name)) {
        if a != me { assert PairwiseCompatible(Block(own, s, a, name)); }
      }
      forall a, b | a != b ensures BlocksCompatible(Block(own, t, a, name), Block(own, t, b, name)) {
        if a == me {
          assert BlocksCompatible(Block(own, s, b, name), [g]);
          CompatibleIsSymmetric(Block(own, s, b, name), [g]);
        } else if b != me {
          assert BlocksCompatible(Block(own, s, a, name), Block(own, s, b, name));
        }
      }
    }
  }

  lemma ConsistentNameFrame(own: OwnMetrics, s: Store<Family>, t: Store<Family>, name: string)
    requires forall src :: Block(own, t, src, name) == Block(own, s, src, name)
    requires ConsistentName(own, s, name)
    ensures ConsistentName(own, t, name)
  {
    forall a ensures PairwiseCompatible(Block(own, t, a, name)) {
      assert PairwiseCompatible(Block(own, s, a, name));
    }
    forall a, b | a != b ensures BlocksCompatible(Block(own, t, a, name), Block(own, t, b, name)) {
      assert BlocksCompatible(Block(own, s, a, name), Block(own, s, b, name));
    }
  }

  lemma NoClashAnyTime(own: OwnMetrics, s: Store<Family>, key: string, name: string, labels: Labels, t: Time)
    ensures NoClash(own, s, key, name, labels)
            <==> forall src :: src != In(key) ==> BlocksCompatible(Block(own, s, src, name), [GaugeSample(labels, t)])
  {
    forall src ensures BlocksCompatible(Block(own, s, src, name), [GaugeSample(labels, t)])
                       <==> BlocksCompatible(Block(own, s, src, name), [GaugeSample(labels, 0)]) {
      var b := Block(own, s, src, name);
      assert forall i :: 0 <= i < |b| ==>
        (Compatible(b[i], [GaugeSample(labels, t)][0]) <==> Compatible(b[i], [GaugeSample(labels, 0)][0]));
    }
  }

  lemma FailStampBlocks(own: OwnMetrics, s: Store<Family>, labels: Labels, ts: Time)
    ensures var key := KeyOf(labels); var t := FailStamp(s, labels, ts);
            && Block(own, t, In(key), PUSH_FAILED_METRIC_NAME) == [GaugeSample(labels, ts)]
            && (PUSH_METRIC_NAME !in GroupAt(s, key, labels).metrics ==>
                  Block(own, t, In(key), PUSH_METRIC_NAME) == [GaugeSample(labels, 0)])
            && (forall src, n :: src != In(key) || n !in Reserved()
                                 || (n == PUSH_METRIC_NAME && n in GroupAt(s, key, labels).metrics)
                  ==> Block(own, t, src, n) == Block(own, s, src, n))
  {
    hide KeyOf, TimestampGauge;
    ReservedNamesDiffer();
    FailStampGauges(labels, ts);
  }

  lemma FailStampGauges(labels: Labels, ts: Time)
    ensures FailureGauge(labels, ts).samples == PushGauge(labels, ts).samples == [GaugeSample(labels, ts)]
    ensures PushGauge(labels, 0).samples == [GaugeSample(labels, 0)]
  {}

  /** A rejected push inserts its timestamp gauges without any check. On a consistent store this is
      harmless exactly when the inserted gauges clash with nothing outside the group. */
  lemma RejectedPushConsistentIff(own: OwnMetrics, s: Store<Family>, labels: Labels, ts: Time)
    requires Consistent(own, s)
    ensures var key := KeyOf(labels);
            Consistent(own, FailStamp(s, labels, ts)) <==>
              && NoClash(own, s, key, PUSH_FAILED_METRIC_NAME, labels)
              && (PUSH_METRIC_NAME in GroupAt(s, key, labels).metrics
                  || NoClash(own, s, key, PUSH_METRIC_NAME, labels))
  {
    var key := KeyOf(labels);
    var t := FailStamp(s, labels, ts);
    FailStampBlocks(own, s, labels, ts);
    FailureNameConsistentIff(own, s, labels, ts);
    PushNameConsistentIff(own, s, labels, ts);
    forall name | name !in Reserved() ensures ConsistentName(own, t, name) {
      assert ConsistentName(own, s, name);
      ConsistentNameFrame(own, s, t, name);
    }
    assert forall name :: name in Reserved() ==> name == PUSH_METRIC_NAME || name == PUSH_FAILED_METRIC_NAME;
    if ConsistentName(own, t, PUSH_FAILED_METRIC_NAME) && ConsistentName(own, t, PUSH_METRIC_NAME) {
      assert Consistent(own, t);
    }
  }

  lemma FailureNameConsistentIff(own: OwnMetrics, s: Store<Family>, labels: Labels, ts: Time)
    requires Consistent(own, s)
    ensures ConsistentName(own, FailStamp(s, labels, ts), PUSH_FAILED_METRIC_NAME)
            <==> NoClash(own, s, KeyOf(labels), PUSH_FAILED_METRIC_NAME, labels)
  {
    FailStampBlocks(own, s, labels, ts);
    assert ConsistentName(own, s, PUSH_FAILED_METRIC_NAME);
    OneGaugeConsistent(own, s, FailStamp(s, labels, ts), KeyOf(labels), PUSH_FAILED_METRIC_NAME, GaugeSample(labels, ts));
    NoClashAnyTime(own, s, KeyOf(labels), PUSH_FAILED_METRIC_NAME, labels, ts);
  }

  lemma PushNameConsistentIff(own: OwnMetrics, s: Store<Family>, labels: Labels, ts: Time)
    requires Consistent(own, s)
    ensures ConsistentName(own, FailStamp(s, labels, ts), PUSH_METRIC_NAME)
            <==> (PUSH_METRIC_NAME in GroupAt(s, KeyOf(labels), labels).metrics
                  || NoClash(own, s, KeyOf(labels), PUSH_METRIC_NAME, labels))
  {
    FailStampBlocks(own, s, labels, ts);
    assert ConsistentName(own, s, PUSH_METRIC_NAME);
    if PUSH_METRIC_NAME in GroupAt(s, KeyOf(labels), labels).metrics {
      ConsistentNameFrame(own, s, FailStamp(s, labels, ts), PUSH_METRIC_NAME);
    } else {
      OneGaugeConsistent(own, s, FailStamp(s, labels, ts), KeyOf(labels), PUSH_METRIC_NAME, GaugeSample(labels, 0));
    }
  }

  lemma DeleteKeepsConsistent(own: OwnMetrics, s: Store<Family>, key: string)
    requires Consistent(own, s)
    ensures Consistent(own, s - {key})
  {
    forall name ensures ConsistentName(own, s - {key}, name) {
      assert ConsistentName(own, s, name);
      forall a ensures PairwiseCompatible(Block(own, s - {key}, a, name)) {
        if a != In(key) { assert Block(own, s - {key}, a, name) == Block(own, s, a, name); }
      }
      forall a, b | a != b ensures BlocksCompatible(Block(own, s - {key}, a, name), Block(own, s - {key}, b, name)) {
        if a != In(key) && b != In(key) {
          assert BlocksCompatible(Block(own, s, a, name), Block(own, s, b, name));
        }
      }
    }
  }

  /** Both timestamp families of every group are gauges for the group's own labels. */
  ghost predicate OwnGauges(s: Store<Family>) {
    forall k :: k in s ==> GroupHasOwnGauges(k, s[k])
  }

  ghost predicate GroupHasOwnGauges(k: string, g: Group<Family>) {
    && k == KeyOf(g.labels) && CleanLabels(g.labels)
    && forall n :: n in Reserved() ==> n in g.metrics && IsGaugeFor(g.metrics[n].family, g.labels)
  }

  ghost predicate IsGaugeFor(f: Family, labels: Labels) {
    exists t :: f.samples == [GaugeSample(labels, t)]
  }

  /** Another group whose labels differ from these at most by an explicit empty `instance`. */
  ghost predicate HasTwin(s: Store<Family>, labels: Labels) {
    exists k :: k in s && Twins(s[k].labels, labels)
  }

  predicate Twins(a: Labels, b: Labels) { a != b && WithInstance(a) == WithInstance(b) }

  ghost predicate KeepsReservedNames(own: OwnMetrics) {
    forall n :: n in Reserved() ==> n !in own
  }

  lemma ApplyKeepsOwnGauges(s: Store<Family>, w: Write, accepted: bool)
    requires OwnGauges(s) && CleanLabels(w.labels)
    requires w.Push? ==> PUSH_FAILED_METRIC_NAME !in w.families
    ensures OwnGauges(ApplyAs(s, w, accepted))
  {
    var key := KeyOf(w.labels);
    var t := ApplyAs(s, w, accepted);
    ApplyIsLocal(s, s, w, accepted);
    forall k | k in t && k != key ensures GroupHasOwnGauges(k, t[k]) {
      assert Lookup(t, k) == Lookup(s, k);
      assert GroupHasOwnGauges(k, s[k]);
    }
    if w.Push? { PushedGroupHasOwnGauges(s, w, accepted); }
  }

  lemma PushedGroupHasOwnGauges(s: Store<Family>, w: Write, accepted: bool)
    requires OwnGauges(s) && CleanLabels(w.labels)
    requires w.Push? && PUSH_FAILED_METRIC_NAME !in w.families
    ensures GroupHasOwnGauges(KeyOf(w.labels), ApplyAs(s, w, accepted)[KeyOf(w.labels)])
  {
    var g := ApplyAs(s, w, accepted)[KeyOf(w.labels)];
    if accepted {
      CommitUpdates(s, w.labels, w.timestamp, w.families, w.replace);
      UpdatedGroupHasOwnGauges(s, w.labels, w.families, g);
    } else {
      FailStampUpdates(s, w.labels, w.timestamp);
      UpdatedGroupHasOwnGauges(s, w.labels, map[], g);
    }
  }

  lemma UpdatedGroupHasOwnGauges(s: Store<Family>, labels: Labels, families: map<string, Family>, g: Group<Family>)
    requires OwnGauges(s) && CleanLabels(labels) && PUSH_FAILED_METRIC_NAME !in families
    requires UpdatedGroup(s, labels, families, g)
    requires PUSH_METRIC_NAME in families ==> IsTimestampGauge(PUSH_METRIC_NAME, labels, g.metrics[PUSH_METRIC_NAME].family)
    ensures GroupHasOwnGauges(KeyOf(labels), g)
  {
    ReservedNamesDiffer();
    var key := KeyOf(labels);
    if key in s {
      assert GroupHasOwnGauges(key, s[key]);
      KeysAreUnique(s[key].labels, labels);
    }
    forall t ensures IsGaugeFor(PushGauge(labels, t), labels) && IsGaugeFor(FailureGauge(labels, t), labels) {
      assert PushGauge(labels, t).samples == [GaugeSample(labels, t)] == FailureGauge(labels, t).samples;
    }
    hide PushGauge, FailureGauge, KeyOf, IsGaugeFor, CleanLabels;
    forall n | n in Reserved() ensures n in g.metrics && IsGaugeFor(g.metrics[n].family, labels) {
      assert Provenance(s, labels, families, n, g.metrics[n].family);
    }
  }

  lemma GaugeBlocksCompatibleIff(a: Labels, t: Time, b: Labels)
    ensures BlocksCompatible([GaugeSample(a, t)], [GaugeSample(b, 0)]) <==> WithInstance(a) != WithInstance(b)
  {
    SameBagSameLabels(WithInstance(a), WithInstance(b));
    var x, y := [GaugeSample(a, t)], [GaugeSample(b, 0)];
    assert BlocksCompatible(x, y) <==> Compatible(x[0], y[0]);
  }

  lemma OtherGroupClashIff(own: OwnMetrics, s: Store<Family>, labels: Labels, name: string, k: string)
    requires OwnGauges(s) && name in Reserved() && k in s
    ensures BlocksCompatible(Block(own, s, In(k), name), [GaugeSample(labels, 0)])
            <==> WithInstance(s[k].labels) != WithInstance(labels)
  {
    assert GroupHasOwnGauges(k, s[k]);
    var t :| s[k].metrics[name].family.samples == [GaugeSample(s[k].labels, t)];
    GaugeBlocksCompatibleIff(s[k].labels, t, labels);
  }

  lemma GaugesClashIff(own: OwnMetrics, s: Store<Family>, labels: Labels, name: string)
    requires OwnGauges(s) && CleanLabels(labels) && KeepsReservedNames(own) && name in Reserved()
    ensures NoClash(own, s, KeyOf(labels), name, labels) <==> !HasTwin(s, labels)
  {
    var key := KeyOf(labels);
    if HasTwin(s, labels) {
      var k :| k in s && Twins(s[k].labels, labels);
      assert GroupHasOwnGauges(k, s[k]);
      KeysAreUnique(s[k].labels, labels);
      OtherGroupClashIff(own, s, labels, name, k);
      assert In(k) != In(key);
    } else {
      forall src | src != In(key) ensures BlocksCompatible(Block(own, s, src, name), [GaugeSample(labels, 0)]) {
        if src.In? && src.key in s {
          assert GroupHasOwnGauges(src.key, s[src.key]);
          OtherGroupClashIff(own, s, labels, name, src.key);
        }
      }
    }
  }

  lemma SameBagSameLabels(a: Labels, b: Labels)
    ensures multiset(PairsOf(a)) == multiset(PairsOf(b)) <==> a == b
  {
    PairsOfIsMap(a);
    PairsOfIsMap(b);
    StrictIsDistinct(PairsOf(a));
    StrictIsDistinct(PairsOf(b));
    if multiset(PairsOf(a)) == multiset(PairsOf(b)) { SortedBagIsUnique(PairsOf(a), PairsOf(b)); }
  }

  /** In a run where nobody pushes `push_failure_time_seconds` the unchecked gauges of a rejected
      push break consistency exactly when the store holds a group for the same labels up to an
      explicit empty `instance`. */
  lemma RejectedPushBreaksIffTwin(own: OwnMetrics, s: Store<Family>, labels: Labels, ts: Time)
    requires Consistent(own, s) && OwnGauges(s) && CleanLabels(labels) && KeepsReservedNames(own)
    ensures Consistent(own, FailStamp(s, labels, ts)) <==> !HasTwin(s, labels)
  {
    RejectedPushConsistentIff(own, s, labels, ts);
    forall n | n in Reserved() ensures NoClash(own, s, KeyOf(labels), n, labels) <==> !HasTwin(s, labels) {
      GaugesClashIff(own, s, labels, n);
    }
  }

  /** The writes of a run in which every push is checked and none carries a failure timestamp. */
  ghost predicate CheckedWrites(ws: seq<Write>) {
    && NoPushedFailure(ws)
    && forall i :: 0 <= i < |ws| ==> CleanLabels(ws[i].labels) && (ws[i].Push? ==> ws[i].checked)
  }

  ghost predicate RejectedBesideTwin(own: OwnMetrics, ws: seq<Write>, i: nat)
    requires i < |ws|
  {
    var s := Fold(own, map[], ws[..i]);
    ws[i].Push? && !Accepts(own, s, ws[i]) && HasTwin(s, ws[i].labels)
  }

  lemma {:induction false} RunsKeepOwnGauges(own: OwnMetrics, ws: seq<Write>)
    requires CheckedWrites(ws)
    ensures OwnGauges(Fold(own, map[], ws))
  {
    if ws != [] {
      var before := ws[..|ws| - 1];
      RunsKeepOwnGauges(own, before);
      ApplyKeepsOwnGauges(Fold(own, map[], before), ws[|ws| - 1], Accepts(own, Fold(own, map[], before), ws[|ws| - 1]));
    }
  }

  /** The exposition is consistent after `i` writes. */
  ghost predicate ConsistentAfter(own: OwnMetrics, ws: seq<Write>, i: nat)
    requires i <= |ws|
  {
    Consistent(own, Fold(own, map[], ws[..i]))
  }

  ghost predicate AlwaysConsistent(own: OwnMetrics, ws: seq<Write>) {
    forall i :: 0 <= i <= |ws| ==> ConsistentAfter(own, ws, i)
  }

  ghost predicate NeverRejectedBesideTwin(own: OwnMetrics, ws: seq<Write>) {
    forall i :: 0 <= i < |ws| ==> !RejectedBesideTwin(own, ws, i)
  }

  lemma AlwaysConsistentStep(own: OwnMetrics, ws: seq<Write>)
    requires ws != []
    ensures var before := ws[..|ws| - 1];
            && (AlwaysConsistent(own, ws) <==> AlwaysConsistent(own, before) && ConsistentAfter(own, ws, |ws|))
            && (NeverRejectedBesideTwin(own, ws)
                <==> NeverRejectedBesideTwin(own, before) && !RejectedBesideTwin(own, ws, |ws| - 1))
            && (AlwaysConsistent(own, before) ==> ConsistentAfter(own, ws, |ws| - 1))
  {
    hide Consistent, Fold, Accepts, HasTwin;
    var n := |ws| - 1;
    var before := ws[..n];
    forall i | 0 <= i <= n ensures ConsistentAfter(own, ws, i) <==> ConsistentAfter(own, before, i) {
      assert before[..i] == ws[..i];
    }
    forall i | 0 <= i < n ensures RejectedBesideTwin(own, ws, i) <==> RejectedBesideTwin(own, before, i) {
      assert before[..i] == ws[..i];
    }
  }

  /** Checked runs keep the exposition consistent at every moment, exactly when no push is rejected
      while the store holds a twin of its group. */
  lemma {:induction false} CheckedRunsConsistentIff(own: OwnMetrics, ws: seq<Write>)
    requires CheckedWrites(ws) && Consistent(own, map[]) && KeepsReservedNames(own)
    ensures AlwaysConsistent(own, ws) <==> NeverRejectedBesideTwin(own, ws)
  {
    if ws == [] {
      assert ws[..0] == [];
    } else {
      var n := |ws| - 1;
      var before := ws[..n];
      CheckedRunsConsistentIff(own, before);
      AlwaysConsistentStep(own, ws);
      if AlwaysConsistent(own, before) {
        RunsKeepOwnGauges(own, before);
        assert ws[..n + 1] == ws;
        LastStepConsistentIff(own, Fold(own, map[], before), ws[n]);
      }
    }
  }

  lemma LastStepConsistentIff(own: OwnMetrics, s: Store<Family>, w: Write)
    requires Consistent(own, s) && OwnGauges(s) && CleanLabels(w.labels) && KeepsReservedNames(own)
    requires w.Push? ==> w.checked
    ensures Consistent(own, Apply(own, s, w)) <==> !(w.Push? && !Accepts(own, s, w) && HasTwin(s, w.labels))
  {
    match w
    case Delete(labels) => DeleteKeepsConsistent(own, s, KeyOf(labels));
    case Push(labels, ts, _, _, _) => RejectedPushBreaksIffTwin(own, s, labels, ts);
  }

  /** If no two label sets in use differ only by an explicit empty `instance`, checked runs are
      consistent throughout. */
  lemma CheckedRunsStayConsistent(own: OwnMetrics, ws: seq<Write>)
    requires CheckedWrites(ws) && Consistent(own, map[]) && KeepsReservedNames(own)
    requires forall i, j :: 0 <= i < |ws| && 0 <= j < |ws| ==> !Twins(ws[i].labels, ws[j].labels)
    ensures Consistent(own, Fold(own, map[], ws))
  {
    forall i | 0 <= i < |ws| ensures !RejectedBesideTwin(own, ws, i) {
      var s := Fold(own, map[], ws[..i]);
      forall k | k in s ensures !Twins(s[k].labels, ws[i].labels) {
        LabelsComeFromWrites(own, ws[..i], k);
        var j :| 0 <= j < i && ws[..i][j].labels == s[k].labels;
        assert !Twins(ws[j].labels, ws[i].labels);
      }
    }
    CheckedRunsConsistentIff(own, ws);
    assert ConsistentAfter(own, ws, |ws|);
    assert ws[..|ws|] == ws;
  }

  lemma {:induction false} LabelsComeFromWrites(own: OwnMetrics, ws: seq<Write>, k: string)
    requires k in Fold(own, map[], ws)
    ensures exists j :: 0 <= j < |ws| && ws[j].labels == Fold(own, map[], ws)[k].labels
  {
    hide Apply;
    var n := |ws| - 1;
    var before := ws[..n];
    var s := Fold(own, map[], before);
    LabelsOfGroup(own, s, ws[n], k);
    if k in s && Apply(own, s, ws[n])[k].labels == s[k].labels {
      LabelsComeFromWrites(own, before, k);
      var j :| 0 <= j < n && before[j].labels == s[k].labels;
      assert ws[j].labels == s[k].labels;
    }
  }

  lemma LabelsOfGroup(own: OwnMetrics, s: Store<Family>, w: Write, k: string)
    requires k in Apply(own, s, w)
    ensures Apply(own, s, w)[k].labels == w.labels || (k in s && Apply(own, s, w)[k].labels == s[k].labels)
  {
    hide KeyOf, TimestampGauge, Consistent, TimestampsPresent;
  }

  /** Two pushes rejected for their timestamps, for label sets that are twins, always make the
      exposition inconsistent, although both are checked. */
  lemma RejectedTwinsBreakConsistency(a: Labels, b: Labels, stamped: map<string, Family>, t: Time, u: Time)
    requires Twins(a, b) && CleanLabels(a) && CleanLabels(b) && TimestampsPresent(stamped)
    ensures !Consistent(map[], Fold(map[], map[], [Push(a, t, stamped, false, true), Push(b, u, stamped, false, true)]))
  {
    var w1, w2 := Push(a, t, stamped, false, true), Push(b, u, stamped, false, true);
    var s := FailStamp(map[], a, t);
    FoldTwo(map[], map[], w1, w2);
    assert Fold(map[], map[], [w1, w2]) == FailStamp(s, b, u);
    hide FailStamp, Fold, Accepts, Apply;
    EmptyIsConsistent();
    assert OwnGauges(map[]);
    RejectedPushBreaksIffTwin(map[], map[], a, t);
    FirstFailStamp(a, t);
    RejectedPushBreaksIffTwin(map[], s, b, u);
  }

  lemma FirstFailStamp(a: Labels, t: Time)
    requires CleanLabels(a)
    ensures OwnGauges(FailStamp(map[], a, t))
    ensures forall b :: Twins(a, b) ==> HasTwin(FailStamp(map[], a, t), b)
  {
    var s := FailStamp(map[], a, t);
    ApplyKeepsOwnGauges(map[], Push(a, t, map[], false, true), false);
    FailStampUpdates(map[], a, t);
    assert KeyOf(a) in s && s[KeyOf(a)].labels == a;
  }

  /** Such label sets exist: a job, and the same job with an explicit empty `instance`. */
  lemma TwinsExist()
    ensures var plain: Labels := map[JOB_LABEL := "a"];
            var twin: Labels := map[JOB_LABEL := "a", INSTANCE_LABEL := ""];
            Twins(plain, twin) && CleanLabels(plain) && CleanLabels(twin)
  {
    var plain: Labels := map[JOB_LABEL := "a"];
    assert INSTANCE_LABEL !in plain by { assert INSTANCE_LABEL[0] != JOB_LABEL[0]; }
    assert WithInstance(plain) == plain[INSTANCE_LABEL := ""];
  }

  lemma FoldTwo(own: OwnMetrics, s: Store<Family>, a: Write, b: Write)
    ensures Fold(own, s, [a, b]) == Apply(own, Apply(own, s, a), b)
  {
    assert [a, b] == [a] + [b] && [a] == [] + [a];
    FoldSnoc(own, s, [a], b);
    FoldSnoc(own, s, [], a);
  }

  lemma EmptyIsConsistent()
    ensures Consistent(map[], map[])
  {
    forall name ensures ConsistentName(map[], map[], name) {
      assert forall src :: Block(map[], map[], src, name) == [];
    }
  }
}
