/** What becomes of a push, told without the functions by which the store computes it: the metrics as they
    are exposed, how long they stay, the two timestamps, and the success flag. */
module PushResults {
  import opened Lex
  import opened Dto
  import opened LabelSpec
  import opened GroupingKey
  import opened Sanitizer
  import opened StoreSpec
  import opened StoreRuns
  import opened GatherCheck
  import opened Acceptance

  // ------------------------------------------------------------ metrics as they are exposed

  predicate NamesLabel(ls: seq<Label>, n: string) { exists i :: 0 <= i < |ls| && ls[i].name == n }

  /** A label as it is exposed: the grouping label of that name, or else the pushed one, or else an empty
      `instance`. */
  predicate IsExposed(before: seq<Label>, grouping: Labels, l: Label) {
    if l.name in grouping then l.value == grouping[l.name]
    else if NamesLabel(before, l.name) then l in before
    else l == Label("instance", "")
  }

  /** Sanitized labels are sorted, each name once, and are exactly those that are exposed. */
  ghost predicate ExposesLabels(before: seq<Label>, grouping: Labels, after: seq<Label>) {
    && (forall i, j :: 0 <= i < j < |after| ==> Lt(after[i].name, after[j].name))
    && forall l :: l in after <==> IsExposed(before, grouping, l)
  }

  lemma PairsOfMembers(m: Labels, l: Label)
    ensures l in PairsOf(m) <==> l.name in m && m[l.name] == l.value
  {
    hide SortedNames;
    var ps := PairsOf(m);
    PairsOfIsMap(m);
    if l.name in m && m[l.name] == l.value {
      assert l.name in SortedNames(m.Keys);
      var i :| 0 <= i < |SortedNames(m.Keys)| && SortedNames(m.Keys)[i] == l.name;
      assert ps[i] == l;
    }
  }

  lemma AsMapMembers(ls: seq<Label>, n: string)
    requires DistinctNames(ls)
    ensures n in AsMap(ls) <==> NamesLabel(ls, n)
    ensures n in AsMap(ls) ==> forall v :: Label(n, v) in ls <==> AsMap(ls)[n] == v
  {
    AsMapOf(ls);
    if n in AsMap(ls) {
      var l :| l in ls && l.name == n;
      var i :| 0 <= i < |ls| && ls[i] == l;
      forall v | Label(n, v) in ls ensures AsMap(ls)[n] == v {
        var j :| 0 <= j < |ls| && ls[j] == Label(n, v);
      }
    }
  }

  /** Sanitizing, for a metric that names no label twice: the labels that are exposed, and nothing else. */
  lemma SanitizedIsExposed(before: seq<Label>, grouping: Labels, after: seq<Label>)
    requires DistinctNames(before)
    ensures SanitizedLabels(before, grouping, after) <==> ExposesLabels(before, grouping, after)
  {
    hide SanitizedLabels, PairsOf, WithInstance, AsMap, Lt, IsExposed, DistinctNames;
    var target := WithInstance(AsMap(before) + grouping);
    var ps := PairsOf(target);
    SanitizeIsMapOverride(before, grouping, after);
    PairsOfIsMap(target);
    forall l ensures l in ps <==> IsExposed(before, grouping, l) {
      PairsOfMembers(target, l);
      TargetIs(before, grouping, l);
    }
    if ExposesLabels(before, grouping, after) { SameMembersSame(after, ps); }
  }

  lemma TargetIs(before: seq<Label>, grouping: Labels, l: Label)
    requires DistinctNames(before)
    ensures var target := WithInstance(AsMap(before) + grouping);
            l.name in target && target[l.name] == l.value <==> IsExposed(before, grouping, l)
  {
    AsMapMembers(before, l.name);
    assert l == Label(l.name, l.value);
  }

  /** Strictly sorted lists with the same members are the same. */
  lemma SameMembersSame(a: seq<Label>, b: seq<Label>)
    requires StrictlySortedByName(a) && StrictlySortedByName(b) && forall l :: l in a <==> l in b
    ensures a == b
  {
    StrictIsDistinct(a);
    StrictIsDistinct(b);
    DistinctCounts(a);
    DistinctCounts(b);
    hide Lt, SortedByName, DistinctNames, Agreeing;
    forall l ensures multiset(a)[l] == multiset(b)[l] {}
    assert multiset(a) == multiset(b);
    SortedBagIsUnique(a, b);
  }

  /** After sanitizing, two metrics have the same label set exactly if they expose the same labels. */
  lemma SameLabelSetIff(a: seq<Label>, b: seq<Label>, grouping: Labels, x: seq<Label>, y: seq<Label>)
    requires DistinctNames(a) && DistinctNames(b) && SanitizedLabels(a, grouping, x) && SanitizedLabels(b, grouping, y)
    ensures multiset(x) == multiset(y) <==> forall l :: IsExposed(a, grouping, l) <==> IsExposed(b, grouping, l)
  {
    SanitizedIsExposed(a, grouping, x);
    SanitizedIsExposed(b, grouping, y);
    hide IsExposed, Lt;
    if multiset(x) == multiset(y) {
      SameBagSameMembers(x, y);
      forall l ensures IsExposed(a, grouping, l) <==> IsExposed(b, grouping, l) { assert l in x <==> l in y; }
    }
    if forall l :: IsExposed(a, grouping, l) <==> IsExposed(b, grouping, l) {
      forall l ensures l in x <==> l in y { assert IsExposed(a, grouping, l) <==> IsExposed(b, grouping, l); }
      SameMembersSame(x, y);
    }
  }

  /** A family as it is exposed: same name, help, type and values; only the labels are sanitized. */
  ghost predicate Exposes(before: Family, grouping: Labels, after: Family) {
    && after.name == before.name && after.help == before.help && after.typ == before.typ
    && |after.samples| == |before.samples|
    && forall i :: 0 <= i < |before.samples| ==>
         && after.samples[i].payload == before.samples[i].payload
         && after.samples[i].timestampMs == before.samples[i].timestampMs
         && ExposesLabels(before.samples[i].labels, grouping, after.samples[i].labels)
  }

  lemma SanitizedFamilyExposes(before: Family, grouping: Labels, after: Family)
    requires forall i :: 0 <= i < |before.samples| ==> DistinctNames(before.samples[i].labels)
    ensures SanitizedFamily(before, grouping, after) <==> Exposes(before, grouping, after)
  {
    hide DistinctNames, SanitizedLabels, ExposesLabels;
    if |after.samples| == |before.samples| {
      forall i | 0 <= i < |before.samples|
        ensures SanitizedLabels(before.samples[i].labels, grouping, after.samples[i].labels)
                <==> ExposesLabels(before.samples[i].labels, grouping, after.samples[i].labels)
      {
        SanitizedIsExposed(before.samples[i].labels, grouping, after.samples[i].labels);
      }
    }
    if Exposes(before, grouping, after) {
      forall i | 0 <= i < |before.samples| ensures SanitizedSample(before.samples[i], grouping, after.samples[i]) {}
    }
    if SanitizedFamily(before, grouping, after) {
      forall i | 0 <= i < |before.samples|
        ensures after.samples[i].payload == before.samples[i].payload
        ensures after.samples[i].timestampMs == before.samples[i].timestampMs
        ensures ExposesLabels(before.samples[i].labels, grouping, after.samples[i].labels)
      {
        assert SanitizedSample(before.samples[i], grouping, after.samples[i]);
      }
    }
  }

  // ------------------------------------------------------------ how long a family stays

  /** A write leaves a family of a group alone: it is for another group, or it is a push that is rejected,
      or one that neither replaces the group nor brings the family. */
  ghost predicate Spares(w: Write, accepted: bool, key: string, name: string) {
    KeyOf(w.labels) != key || (w.Push? && (!accepted || (!w.replace && name !in w.families)))
  }

  lemma SparedStays(s: Store<Family>, w: Write, accepted: bool, key: string, name: string)
    requires name !in Reserved() && Spares(w, accepted, key, name)
    requires key in s && name in s[key].metrics
    ensures var t := ApplyAs(s, w, accepted);
            key in t && name in t[key].metrics && t[key].metrics[name] == s[key].metrics[name]
  {
    hide KeyOf, Commit, FailStamp;
    if KeyOf(w.labels) != key {
      ApplyIsLocal(s, s, w, accepted);
      assert Lookup(ApplyAs(s, w, accepted), key) == Lookup(s, key);
    } else if accepted {
      PushContents(s, w.labels, w.timestamp, w.families, w.replace);
      CommitElsewhere(s, w.labels, w.timestamp, w.families, w.replace);
    } else {
      RejectedPushOnlyStamps(s, w.labels, w.timestamp, key, name);
    }
  }

  /** After an accepted push each of its families is in the group of its labels, with the push's time,
      until a later write deletes the group, replaces it, or brings a family of that name. */
  lemma {:induction false} PushIsStored(own: OwnMetrics, restored: Store<Family>, ws: seq<Write>, i: nat, name: string)
    requires i < |ws| && ws[i].Push? && AcceptedAt(own, restored, ws, i)
    requires name in ws[i].families && name != "push_time_seconds" && name != "push_failure_time_seconds"
    requires forall j :: i < j < |ws| ==> Spares(ws[j], AcceptedAt(own, restored, ws, j), KeyOf(ws[i].labels), name)
    ensures var t, key := Fold(own, restored, ws), KeyOf(ws[i].labels);
            key in t && name in t[key].metrics && t[key].metrics[name] == Stamped(ws[i].timestamp, ws[i].families[name])
    decreases |ws|
  {
    hide KeyOf, Accepts, Fold, ApplyAs, Spares, Commit;
    var last := |ws| - 1;
    var before, w := ws[..last], ws[last];
    assert ws == before + [w];
    FoldSnoc(own, restored, before, w);
    if i == last {
      PushContents(Fold(own, restored, before), w.labels, w.timestamp, w.families, w.replace);
      CommitElsewhere(Fold(own, restored, before), w.labels, w.timestamp, w.families, w.replace);
      AcceptedApply(own, Fold(own, restored, before), w);
    } else {
      forall j | 0 <= j < last ensures AcceptedAt(own, restored, ws, j) == AcceptedAt(own, restored, before, j) && ws[j] == before[j] {
        assert before[..j] == ws[..j];
      }
      PushIsStored(own, restored, before, i, name);
      SparedStays(Fold(own, restored, before), w, AcceptedAt(own, restored, ws, last), KeyOf(ws[i].labels), name);
    }
  }

  lemma AcceptedApply(own: OwnMetrics, s: Store<Family>, w: Write)
    requires w.Push? && Accepts(own, s, w)
    ensures Apply(own, s, w) == Commit(s, w.labels, w.timestamp, w.families, w.replace)
  {}

  /** Reading loses nothing and invents nothing: a merged family has exactly the metrics that the groups
      hold under its name, and every stored name has one. */
  lemma ReadShows(s: Store<Family>, order: seq<string>, names: seq<string>, families: seq<Family>)
    requires Enumerates(order, s.Keys) && MergedFamilies(s, order, names, families)
    ensures forall k, n :: k in s && n in s[k].metrics ==> exists i :: 0 <= i < |families| && families[i].name == n
    ensures forall i, j :: 0 <= i < j < |families| ==> families[i].name != families[j].name
    ensures forall i, x :: 0 <= i < |families| ==>
              (x in families[i].samples
               <==> exists k :: k in s && families[i].name in s[k].metrics && x in s[k].metrics[families[i].name].family.samples)
  {
    forall k, n | k in s && n in s[k].metrics ensures exists i :: 0 <= i < |families| && families[i].name == n {
      assert n in NamesIn(s) && n in names;
      var i :| 0 <= i < |names| && names[i] == n;
      assert families[i].name == n;
    }
    forall i, x | 0 <= i < |families|
      ensures x in families[i].samples
              <==> exists k :: k in s && families[i].name in s[k].metrics && x in s[k].metrics[families[i].name].family.samples
    {
      FlatMembers(s, order, names[i], x);
    }
  }

  lemma {:induction false} FlatMembers(s: Store<Family>, order: seq<string>, n: string, x: Sample)
    ensures x in Flat(map[], s, Groups(order), n)
            <==> exists k :: k in order && k in s && n in s[k].metrics && x in s[k].metrics[n].family.samples
  {
    if order != [] {
      var before, k := order[..|order| - 1], order[|order| - 1];
      assert order == before + [k];
      assert Groups(order)[..|order| - 1] == Groups(before);
      FlatMembers(s, before, n, x);
    }
  }

  // ------------------------------------------------------------ timestamps

  /** A gauge family that shows a time in seconds, under the group's labels. */
  ghost predicate ShowsTime(f: Family, name: string, help: string, labels: Labels, t: Time) {
    && f.name == name && f.help == help && f.typ == GAUGE && |f.samples| == 1
    && f.samples[0].timestampMs == None && f.samples[0].payload.typ == GAUGE
    && f.samples[0].payload.value * 1000000000.0 == t as real
    && ExposesLabels([], labels, f.samples[0].labels)
  }

  lemma GaugeShowsTime(name: string, help: string, labels: Labels, t: Time)
    ensures ShowsTime(TimestampGauge(name, help, labels, t), name, help, labels, t)
  {
    hide ExposesLabels, PairsOf, Lt;
    var ls := PairsOf(WithInstance(labels));
    assert map[] + labels == labels;
    assert AsMap([]) == map[];
    SanitizeIsMapOverride([], labels, ls);
    SanitizedIsExposed([], labels, ls);
  }

  /** After an accepted push the group shows its time as that of the last success. If there was no failure
      time yet, it shows zero for it. */
  lemma AcceptedPushShows(s: Store<Family>, labels: Labels, ts: Time, families: map<string, Family>, replace: bool)
    ensures var t, key := Commit(s, labels, ts, families, replace), KeyOf(labels);
            && key in t && "push_time_seconds" in t[key].metrics && "push_failure_time_seconds" in t[key].metrics
            && t[key].metrics["push_time_seconds"].timestamp == ts
            && ShowsTime(t[key].metrics["push_time_seconds"].family, "push_time_seconds",
                         "Last Unix time when changing this group in the Pushgateway succeeded.", labels, ts)
            && (!(key in s && "push_failure_time_seconds" in s[key].metrics) ==>
                  ShowsTime(t[key].metrics["push_failure_time_seconds"].family, "push_failure_time_seconds",
                            "Last Unix time when changing this group in the Pushgateway failed.", labels, 0))
            && (key in s && "push_failure_time_seconds" in s[key].metrics && "push_failure_time_seconds" !in families ==>
                  t[key].metrics["push_failure_time_seconds"] == s[key].metrics["push_failure_time_seconds"])
  {
    hide KeyOf, TimestampGauge, Commit, ShowsTime;
    PushContents(s, labels, ts, families, replace);
    CommitElsewhere(s, labels, ts, families, replace);
    GaugeShowsTime(PUSH_METRIC_NAME, PUSH_METRIC_HELP, labels, ts);
    GaugeShowsTime(PUSH_FAILED_METRIC_NAME, PUSH_FAILED_METRIC_HELP, labels, 0);
  }

  /** After a rejected push the group shows its time as that of the last failure. A success time stays; if
      there was none, it is zero. */
  lemma RejectedPushShows(s: Store<Family>, labels: Labels, ts: Time)
    ensures var t, key := FailStamp(s, labels, ts), KeyOf(labels);
            && key in t && "push_time_seconds" in t[key].metrics && "push_failure_time_seconds" in t[key].metrics
            && t[key].metrics["push_failure_time_seconds"].timestamp == ts
            && ShowsTime(t[key].metrics["push_failure_time_seconds"].family, "push_failure_time_seconds",
                         "Last Unix time when changing this group in the Pushgateway failed.", labels, ts)
            && (!(key in s && "push_time_seconds" in s[key].metrics) ==>
                  ShowsTime(t[key].metrics["push_time_seconds"].family, "push_time_seconds",
                            "Last Unix time when changing this group in the Pushgateway succeeded.", labels, 0))
            && (key in s && "push_time_seconds" in s[key].metrics ==>
                  t[key].metrics["push_time_seconds"] == s[key].metrics["push_time_seconds"])
  {
    hide KeyOf, TimestampGauge, FailStamp, ShowsTime;
    FailStampUpdates(s, labels, ts);
    GaugeShowsTime(PUSH_FAILED_METRIC_NAME, PUSH_FAILED_METRIC_HELP, labels, ts);
    GaugeShowsTime(PUSH_METRIC_NAME, PUSH_METRIC_HELP, labels, 0);
  }

  // ------------------------------------------------------------ the success flag

  /** The flag is false exactly if both timestamps are there and that of the failure is larger. */
  lemma FlagIs(g: Group<Family>)
    requires Readable(g)
    ensures LastPushSuccess(g)
            <==> !("push_failure_time_seconds" in g.metrics && "push_time_seconds" in g.metrics
                   && GaugeValue(g.metrics["push_failure_time_seconds"].family.samples[0])
                      > GaugeValue(g.metrics["push_time_seconds"].family.samples[0]))
  {}

  /** A timestamp family of whatever group that shows this time. */
  ghost predicate ShowsSome(f: Family, t: Time) {
    exists name, help, labels :: ShowsTime(f, name, help, labels, t)
  }

  lemma FlagCompares(g: Group<Family>, success: Time, failure: Time)
    requires "push_time_seconds" in g.metrics && ShowsSome(g.metrics["push_time_seconds"].family, success)
    requires "push_failure_time_seconds" in g.metrics && ShowsSome(g.metrics["push_failure_time_seconds"].family, failure)
    ensures Readable(g) && (LastPushSuccess(g) <==> failure <= success)
  {
    hide ExposesLabels;
    var f, h := g.metrics["push_time_seconds"].family, g.metrics["push_failure_time_seconds"].family;
    assert |f.samples| == 1 && |h.samples| == 1;
    FlagIs(g);
    assert GaugeValue(f.samples[0]) * 1000000000.0 == success as real;
    assert GaugeValue(h.samples[0]) * 1000000000.0 == failure as real;
  }

  /** After an accepted push the flag is set exactly if no later failure is on record. */
  lemma FlagAfterAccepted(s: Store<Family>, w: Write, failure: Time)
    requires w.Push? && "push_failure_time_seconds" !in w.families
    requires var key := KeyOf(w.labels);
             if key in s && "push_failure_time_seconds" in s[key].metrics
             then ShowsSome(s[key].metrics["push_failure_time_seconds"].family, failure) else failure == 0
    ensures var g := ApplyAs(s, w, true)[KeyOf(w.labels)];
            Readable(g) && (LastPushSuccess(g) <==> failure <= w.timestamp)
  {
    hide KeyOf, Commit, ShowsTime;
    AcceptedPushShows(s, w.labels, w.timestamp, w.families, w.replace);
    FlagCompares(ApplyAs(s, w, true)[KeyOf(w.labels)], w.timestamp, failure);
  }

  /** After a rejected push it is set exactly if the push is not later than the last success: a push
      rejected at the very time of that success goes unnoticed. */
  lemma FlagAfterRejected(s: Store<Family>, w: Write, success: Time)
    requires w.Push?
    requires var key := KeyOf(w.labels);
             if key in s && "push_time_seconds" in s[key].metrics
             then ShowsSome(s[key].metrics["push_time_seconds"].family, success) else success == 0
    ensures var g := ApplyAs(s, w, false)[KeyOf(w.labels)];
            Readable(g) && (LastPushSuccess(g) <==> w.timestamp <= success)
  {
    hide KeyOf, FailStamp, ShowsTime;
    RejectedPushShows(s, w.labels, w.timestamp);
    FlagCompares(ApplyAs(s, w, false)[KeyOf(w.labels)], success, w.timestamp);
  }
}
