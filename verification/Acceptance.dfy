/** Which pushes are accepted, told by the metrics themselves: their types, their label sets, and what
    else is exposed under the same names. */
module Acceptance {
  import opened Dto
  import opened LabelSpec
  import opened GroupingKey
  import opened StoreSpec
  import opened StoreRuns

  /** Same type and different label sets. */
  predicate Fit(a: Sample, b: Sample) {
    a.payload.typ == b.payload.typ && multiset(a.labels) != multiset(b.labels)
  }

  /** A store is consistent exactly if any two metrics of one name, wherever they come from, have the same
      type and different label sets. */
  lemma ConsistentIs(own: OwnMetrics, s: Store<Family>)
    ensures Consistent(own, s)
            <==> forall name, a, b, i, j ::
                   0 <= i < |Block(own, s, a, name)| && 0 <= j < |Block(own, s, b, name)| && (a != b || i != j) ==>
                     Fit(Block(own, s, a, name)[i], Block(own, s, b, name)[j])
  {
    if Consistent(own, s) {
      forall name, a, b, i, j
        | 0 <= i < |Block(own, s, a, name)| && 0 <= j < |Block(own, s, b, name)| && (a != b || i != j)
        ensures Fit(Block(own, s, a, name)[i], Block(own, s, b, name)[j])
      {
        assert ConsistentName(own, s, name);
        if a != b {
          assert BlocksCompatible(Block(own, s, a, name), Block(own, s, b, name));
          assert Compatible(Block(own, s, a, name)[i], Block(own, s, b, name)[j]);
        } else {
          assert PairwiseCompatible(Block(own, s, a, name));
          var x, y := if i < j then i else j, if i < j then j else i;
          assert Compatible(Block(own, s, a, name)[x], Block(own, s, a, name)[y]);
        }
      }
    }
    if forall name, a, b, i, j ::
         0 <= i < |Block(own, s, a, name)| && 0 <= j < |Block(own, s, b, name)| && (a != b || i != j) ==>
           Fit(Block(own, s, a, name)[i], Block(own, s, b, name)[j]) {
      forall name ensures ConsistentName(own, s, name) {
        forall a ensures PairwiseCompatible(Block(own, s, a, name)) {}
        forall a, b | a != b ensures BlocksCompatible(Block(own, s, a, name), Block(own, s, b, name)) {}
      }
    }
  }

  /** These metrics can stand under the name in the group of the key: they fit each other, those of
      Pushgateway itself, and those of all other groups. */
  ghost predicate FitsIn(own: OwnMetrics, s: Store<Family>, key: string, name: string, xs: seq<Sample>) {
    && (forall i, j :: 0 <= i < j < |xs| ==> Fit(xs[i], xs[j]))
    && (name in own ==> forall i, j :: 0 <= i < |own[name]| && 0 <= j < |xs| ==> Fit(own[name][i], xs[j]))
    && (forall k :: k in s && k != key && name in s[k].metrics ==> AllFit(s[k].metrics[name].family.samples, xs))
  }

  predicate AllFit(a: seq<Sample>, b: seq<Sample>) {
    forall i, j :: 0 <= i < |a| && 0 <= j < |b| ==> Fit(a[i], b[j])
  }

  lemma FitsInIs(own: OwnMetrics, s: Store<Family>, key: string, name: string, xs: seq<Sample>)
    ensures FitsIn(own, s, key, name, xs)
            <==> PairwiseCompatible(xs) && forall src :: src != In(key) ==> BlocksCompatible(Block(own, s, src, name), xs)
  {
    if FitsIn(own, s, key, name, xs) {
      forall src | src != In(key) ensures BlocksCompatible(Block(own, s, src, name), xs) {
        if src.In? && src.key in s && name in s[src.key].metrics {
          assert AllFit(s[src.key].metrics[name].family.samples, xs);
          var a := Block(own, s, src, name);
          forall i, j | 0 <= i < |a| && 0 <= j < |xs| ensures Compatible(a[i], xs[j]) { assert Fit(a[i], xs[j]); }
        } else if src.Own? && name in own {
          forall i, j | 0 <= i < |own[name]| && 0 <= j < |xs| ensures Compatible(own[name][i], xs[j]) {
            assert Fit(own[name][i], xs[j]);
          }
        }
      }
      forall i, j | 0 <= i < j < |xs| ensures Compatible(xs[i], xs[j]) { assert Fit(xs[i], xs[j]); }
    }
    if PairwiseCompatible(xs) && forall src :: src != In(key) ==> BlocksCompatible(Block(own, s, src, name), xs) {
      forall i, j | 0 <= i < j < |xs| ensures Fit(xs[i], xs[j]) { assert Compatible(xs[i], xs[j]); }
      if name in own {
        assert BlocksCompatible(Block(own, s, Own, name), xs);
        forall i, j | 0 <= i < |own[name]| && 0 <= j < |xs| ensures Fit(own[name][i], xs[j]) {
          assert Compatible(own[name][i], xs[j]);
        }
      }
      forall k | k in s && k != key && name in s[k].metrics ensures AllFit(s[k].metrics[name].family.samples, xs) {
        assert BlocksCompatible(Block(own, s, In(k), name), xs);
        var a := s[k].metrics[name].family.samples;
        forall i, j | 0 <= i < |a| && 0 <= j < |xs| ensures Fit(a[i], xs[j]) { assert Compatible(a[i], xs[j]); }
      }
    }
  }

  /** Replacing one block of one name. */
  lemma OneBlockConsistent(own: OwnMetrics, s: Store<Family>, t: Store<Family>, key: string, name: string, xs: seq<Sample>)
    requires ConsistentName(own, s, name)
    requires forall src :: src != In(key) ==> Block(own, t, src, name) == Block(own, s, src, name)
    requires Block(own, t, In(key), name) == xs
    ensures ConsistentName(own, t, name)
            <==> PairwiseCompatible(xs) && forall src :: src != In(key) ==> BlocksCompatible(Block(own, s, src, name), xs)
  {
    hide Block;
    var me := In(key);
    if ConsistentName(own, t, name) {
      assert PairwiseCompatible(Block(own, t, me, name));
      forall src | src != me ensures BlocksCompatible(Block(own, s, src, name), xs) {
        assert BlocksCompatible(Block(own, t, src, name), Block(own, t, me, name));
      }
    }
    if PairwiseCompatible(xs) && forall src :: src != me ==> BlocksCompatible(Block(own, s, src, name), xs) {
      forall a ensures PairwiseCompatible(Block(own, t, a, name)) {
        if a != me { assert PairwiseCompatible(Block(own, s, a, name)); }
      }
      forall a, b | a != b ensures BlocksCompatible(Block(own, t, a, name), Block(own, t, b, name)) {
        if a == me {
          CompatibleIsSymmetric(Block(own, s, b, name), xs);
        } else if b != me {
          assert BlocksCompatible(Block(own, s, a, name), Block(own, s, b, name));
        }
      }
    }
  }

  /** The metrics of a name in the group of an accepted push. */
  lemma CommitBlocks(own: OwnMetrics, s: Store<Family>, labels: Labels, ts: Time, families: map<string, Family>, replace: bool,
                     name: string)
    ensures var t, key := Commit(s, labels, ts, families, replace), KeyOf(labels);
            && (forall src :: src != In(key) ==> Block(own, t, src, name) == Block(own, s, src, name))
            && (name == PUSH_METRIC_NAME ==> Block(own, t, In(key), name) == [GaugeSample(labels, ts)])
            && (name == PUSH_FAILED_METRIC_NAME && name !in GroupAt(s, key, labels).metrics ==>
                  Block(own, t, In(key), name) == [GaugeSample(labels, 0)])
            && (name in families && name != PUSH_METRIC_NAME
                && (name == PUSH_FAILED_METRIC_NAME ==> name in GroupAt(s, key, labels).metrics) ==>
                  Block(own, t, In(key), name) == families[name].samples)
            && (name !in families && name != PUSH_METRIC_NAME
                && (name == PUSH_FAILED_METRIC_NAME ==> name in GroupAt(s, key, labels).metrics) ==>
                  Block(own, t, In(key), name) == Block(own, s, In(key), name) || Block(own, t, In(key), name) == [])
  {
    hide KeyOf, TimestampGauge, Commit, GaugeSample;
    ReservedNamesDiffer();
    GaugesAre(labels, ts);
    PushContents(s, labels, ts, families, replace);
    CommitElsewhere(s, labels, ts, families, replace);
  }

  lemma CommitElsewhere(s: Store<Family>, labels: Labels, ts: Time, families: map<string, Family>, replace: bool)
    ensures var t, key := Commit(s, labels, ts, families, replace), KeyOf(labels);
            key in t && forall k :: k != key ==> (k in t <==> k in s) && (k in s ==> t[k] == s[k])
  {}

  lemma GaugesAre(labels: Labels, ts: Time)
    ensures PushGauge(labels, ts).samples == [GaugeSample(labels, ts)]
    ensures FailureGauge(labels, 0).samples == [GaugeSample(labels, 0)]
  {}

  /** What a push has to fulfil if the store is consistent: what it stores fits in, name by name. The
      success gauge is stored in any case, the failure gauge unless the group has one. */
  ghost predicate AllFitIn(own: OwnMetrics, s: Store<Family>, labels: Labels, ts: Time, families: map<string, Family>) {
    var key := KeyOf(labels);
    var hasFailure := PUSH_FAILED_METRIC_NAME in GroupAt(s, key, labels).metrics;
    && (forall n :: n in families && n != PUSH_METRIC_NAME && (n == PUSH_FAILED_METRIC_NAME ==> hasFailure) ==>
          FitsIn(own, s, key, n, families[n].samples))
    && FitsIn(own, s, key, PUSH_METRIC_NAME, [GaugeSample(labels, ts)])
    && (!hasFailure ==> FitsIn(own, s, key, PUSH_FAILED_METRIC_NAME, [GaugeSample(labels, 0)]))
  }

  lemma NameFitsIff(own: OwnMetrics, s: Store<Family>, labels: Labels, ts: Time, families: map<string, Family>, replace: bool,
                    name: string, xs: seq<Sample>)
    requires Consistent(own, s) && Block(own, Commit(s, labels, ts, families, replace), In(KeyOf(labels)), name) == xs
    ensures ConsistentName(own, Commit(s, labels, ts, families, replace), name)
            <==> FitsIn(own, s, KeyOf(labels), name, xs)
  {
    hide Commit, KeyOf, Block, FitsIn, ConsistentName;
    CommitBlocks(own, s, labels, ts, families, replace, name);
    assert ConsistentName(own, s, name);
    OneBlockConsistent(own, s, Commit(s, labels, ts, families, replace), KeyOf(labels), name, xs);
    FitsInIs(own, s, KeyOf(labels), name, xs);
  }

  lemma OldBlockFits(own: OwnMetrics, s: Store<Family>, key: string, name: string)
    requires ConsistentName(own, s, name)
    ensures FitsIn(own, s, key, name, Block(own, s, In(key), name)) && FitsIn(own, s, key, name, [])
  {
    var xs := Block(own, s, In(key), name);
    FitsInIs(own, s, key, name, xs);
    FitsInIs(own, s, key, name, []);
    forall src | src != In(key) ensures BlocksCompatible(Block(own, s, src, name), xs) {}
    assert PairwiseCompatible(xs);
  }

  lemma CommitConsistentIff(own: OwnMetrics, s: Store<Family>, labels: Labels, ts: Time, families: map<string, Family>,
                            replace: bool)
    requires Consistent(own, s)
    ensures Consistent(own, Commit(s, labels, ts, families, replace)) <==> AllFitIn(own, s, labels, ts, families)
  {
    hide Commit, KeyOf, Block, FitsIn, ConsistentName, GaugeSample;
    ReservedNamesDiffer();
    var t, key := Commit(s, labels, ts, families, replace), KeyOf(labels);
    var hasFailure := PUSH_FAILED_METRIC_NAME in GroupAt(s, key, labels).metrics;
    forall name
      ensures var xs := Block(own, t, In(key), name);
              ConsistentName(own, t, name) <==> FitsIn(own, s, key, name, xs)
    {
      NameFitsIff(own, s, labels, ts, families, replace, name, Block(own, t, In(key), name));
    }
    forall name ensures FitsIn(own, s, key, name, Block(own, s, In(key), name)) && FitsIn(own, s, key, name, []) {
      assert ConsistentName(own, s, name);
      OldBlockFits(own, s, key, name);
    }
    CommitBlocks(own, s, labels, ts, families, replace, PUSH_METRIC_NAME);
    CommitBlocks(own, s, labels, ts, families, replace, PUSH_FAILED_METRIC_NAME);
    if Consistent(own, t) {
      forall n | n in families && n != PUSH_METRIC_NAME && (n == PUSH_FAILED_METRIC_NAME ==> hasFailure)
        ensures FitsIn(own, s, key, n, families[n].samples)
      {
        CommitBlocks(own, s, labels, ts, families, replace, n);
        assert ConsistentName(own, t, n);
      }
      assert ConsistentName(own, t, PUSH_METRIC_NAME) && ConsistentName(own, t, PUSH_FAILED_METRIC_NAME);
    }
    if AllFitIn(own, s, labels, ts, families) {
      forall name ensures ConsistentName(own, t, name) { CommitBlocks(own, s, labels, ts, families, replace, name); }
    }
  }

  // ------------------------------------------------------------ results

  /** No metric has a timestamp. */
  ghost predicate NoTimestamps(families: map<string, Family>) {
    forall n, i :: n in families && 0 <= i < |families[n].samples| ==> families[n].samples[i].timestampMs == None
  }

  /** An unchecked push is accepted, replacing or not, exactly if it brings no timestamps, and then it is
      carried out. */
  lemma UncheckedIsAcceptedIff(own: OwnMetrics, s: Store<Family>, labels: Labels, ts: Time, families: map<string, Family>,
                               replace: bool)
    ensures Accepts(own, s, Push(labels, ts, families, replace, false)) <==> NoTimestamps(families)
    ensures NoTimestamps(families) ==>
              Apply(own, s, Push(labels, ts, families, replace, false)) == Commit(s, labels, ts, families, replace)
  {
    hide Commit, Consistent;
  }

  /** On a consistent store a checked push is accepted, replacing or not, exactly if it brings no
      timestamps and everything it stores fits in. */
  lemma CheckedIsAcceptedIff(own: OwnMetrics, s: Store<Family>, labels: Labels, ts: Time, families: map<string, Family>,
                             replace: bool)
    requires Consistent(own, s)
    ensures Accepts(own, s, Push(labels, ts, families, replace, true))
            <==> NoTimestamps(families) && AllFitIn(own, s, labels, ts, families)
  {
    hide Commit, Consistent, AllFitIn;
    CommitConsistentIff(own, s, labels, ts, families, replace);
  }

  /** What a push to a well kept store has to fulfil: no timestamps, no group that differs only by an
      empty `instance`, and families that fit in. The gauges then do so by themselves. */
  ghost predicate Welcome(own: OwnMetrics, s: Store<Family>, labels: Labels, families: map<string, Family>) {
    && NoTimestamps(families) && !HasTwin(s, labels)
    && forall n :: n in families && n != "push_time_seconds" ==> FitsIn(own, s, KeyOf(labels), n, families[n].samples)
  }

  /** On a consistent store whose groups have their own gauges, a checked push without a failure time of
      its own is accepted, replacing or not, exactly if it is welcome. */
  lemma WelcomePushIsAccepted(own: OwnMetrics, s: Store<Family>, labels: Labels, ts: Time, families: map<string, Family>,
                              replace: bool)
    requires Consistent(own, s) && OwnGauges(s) && CleanLabels(labels) && KeepsReservedNames(own)
    requires "push_failure_time_seconds" !in families
    ensures Accepts(own, s, Push(labels, ts, families, replace, true)) <==> Welcome(own, s, labels, families)
  {
    hide Consistent, FitsIn, KeyOf, HasTwin, CleanLabels, NoTimestamps, Accepts;
    CheckedIsAcceptedIff(own, s, labels, ts, families, replace);
    forall n, t | n in Reserved() ensures FitsIn(own, s, KeyOf(labels), n, [GaugeSample(labels, t)]) <==> !HasTwin(s, labels) {
      GaugeFitsIff(own, s, labels, n, t);
    }
  }

  lemma GaugeFitsIff(own: OwnMetrics, s: Store<Family>, labels: Labels, name: string, t: Time)
    requires OwnGauges(s) && CleanLabels(labels) && KeepsReservedNames(own) && name in Reserved()
    ensures FitsIn(own, s, KeyOf(labels), name, [GaugeSample(labels, t)]) <==> !HasTwin(s, labels)
  {
    hide OwnGauges, HasTwin, CleanLabels, Block, FitsIn, GaugeSample;
    FitsInIs(own, s, KeyOf(labels), name, [GaugeSample(labels, t)]);
    NoClashAnyTime(own, s, KeyOf(labels), name, labels, t);
    GaugesClashIff(own, s, labels, name);
  }
}
