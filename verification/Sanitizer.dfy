/** Sanitizing label objects in place, as the store does before it checks or stores a push. */
module Sanitizer {
  import opened Lex
  import opened Dto
  import opened LabelSpec
  import opened Objects

  // ------------------------------------------------------------ sorting label pairs

  /** `sort.Sort(labelPairs(...))`: some sorted arrangement of the same pairs. */
  method SortLabelPairs(ps: seq<LabelPair>) returns (r: seq<LabelPair>)
    requires DistinctPairs(ps)
    ensures DistinctPairs(r) && forall p :: p in r <==> p in ps
    ensures SortedByName(LabelsOf(r)) && multiset(LabelsOf(r)) == multiset(LabelsOf(ps))
  {
    hide SortedByName, DistinctPairs, Lt;
    r := [];
    NoPairs();
    assert multiset(LabelsOf(r)) == multiset(LabelsOf(ps[..0]));
    for k := 0 to |ps|
      invariant DistinctPairs(r) && forall p :: p in r <==> p in ps[..k]
      invariant SortedByName(LabelsOf(r)) && multiset(LabelsOf(r)) == multiset(LabelsOf(ps[..k]))
    {
      NotBefore(ps, k);
      r := InsertPair(r, ps[k]);
      assert LabelsOf(ps[..k + 1]) == LabelsOf(ps[..k]) + [Label(ps[k].name, ps[k].value)];
    }
    assert ps[..|ps|] == ps;
  }

  lemma NoPairs()
    ensures DistinctPairs([]) && LabelsOf([]) == [] && SortedByName([])
  {}

  lemma NotBefore(ps: seq<LabelPair>, k: nat)
    requires DistinctPairs(ps) && k < |ps|
    ensures ps[k] !in ps[..k] && forall p :: p in ps[..k + 1] <==> p == ps[k] || p in ps[..k]
  {
    assert ps[..k + 1] == ps[..k] + [ps[k]];
  }

  method InsertPair(s: seq<LabelPair>, p: LabelPair) returns (r: seq<LabelPair>)
    requires DistinctPairs(s) && p !in s
    requires SortedByName(LabelsOf(s))
    ensures DistinctPairs(r) && forall q :: q in r <==> q == p || q in s
    ensures SortedByName(LabelsOf(r))
    ensures multiset(LabelsOf(r)) == multiset(LabelsOf(s)) + multiset{Label(p.name, p.value)}
  {
    hide SortedByName, DistinctPairs, Lt;
    var k := 0;
    while k < |s| && Lt(s[k].name, p.name)
      invariant 0 <= k <= |s|
      invariant forall i :: 0 <= i < k ==> Lt(s[i].name, p.name)
    {
      k := k + 1;
    }
    r := s[..k] + [p] + s[k..];
    ghost var ls, l := LabelsOf(s), Label(p.name, p.value);
    InsertSorted(ls, l, k);
    InsertBag(ls, l, k);
    DistinctInserted(s, p, k);
    assert LabelsOf(r) == ls[..k] + [l] + ls[k..];
  }

  lemma DistinctInserted(s: seq<LabelPair>, p: LabelPair, k: nat)
    requires DistinctPairs(s) && p !in s && k <= |s|
    ensures var r := s[..k] + [p] + s[k..];
            DistinctPairs(r) && forall q :: q in r <==> q == p || q in s
  {
    var r := s[..k] + [p] + s[k..];
    forall q ensures q in r <==> q == p || q in s { assert s == s[..k] + s[k..]; }
    forall i, j | 0 <= i < j < |r| ensures r[i] != r[j] {
      var a, b := if i < k then i else i - 1, if j < k then j else j - 1;
      assert i != k ==> r[i] == s[a];
      assert j != k ==> r[j] == s[b];
    }
  }

  lemma InsertBag(ls: seq<Label>, l: Label, k: nat)
    requires k <= |ls|
    ensures multiset(ls[..k] + [l] + ls[k..]) == multiset(ls) + multiset{l}
  {
    assert ls == ls[..k] + ls[k..];
  }

  lemma InsertSorted(ls: seq<Label>, l: Label, k: nat)
    requires SortedByName(ls) && k <= |ls|
    requires forall i :: 0 <= i < k ==> Lt(ls[i].name, l.name)
    requires k < |ls| ==> !Lt(ls[k].name, l.name)
    ensures SortedByName(ls[..k] + [l] + ls[k..])
  {
    var r := ls[..k] + [l] + ls[k..];
    forall i | 0 <= i < k ensures !Lt(l.name, ls[i].name) { LtTrichotomy(ls[i].name, l.name); }
    forall j | k <= j < |ls| ensures !Lt(ls[j].name, l.name) {
      LtTrichotomy(ls[k].name, ls[j].name);
      if Lt(ls[k].name, ls[j].name) && Lt(ls[j].name, l.name) {
        LtTransitive(ls[k].name, ls[j].name, l.name);
      }
    }
    hide Lt;
    forall i, j | 0 <= i < j < |r| ensures !Lt(r[j].name, r[i].name) {
      assert r[i] == if i < k then ls[i] else if i == k then l else ls[i - 1];
      assert r[j] == if j < k then ls[j] else if j == k then l else ls[j - 1];
    }
  }

  // ------------------------------------------------------------ one metric

  /** What sanitizing makes of a sample: its labels, and nothing else. */
  ghost predicate SanitizedSample(before: Sample, grouping: Labels, after: Sample) {
    && SanitizedLabels(before.labels, grouping, after.labels)
    && after.timestampMs == before.timestampMs && after.payload == before.payload
  }

  /** The list with the first `i` labels overridden. */
  ghost predicate OverriddenUpTo(before: seq<Label>, grouping: Labels, i: nat, now: seq<Label>) {
    |now| == |before| && forall j :: 0 <= j < |before| ==>
      now[j] == if j < i then OverrideAt(before, grouping, j) else before[j]
  }

  ghost function NotYetDone(before: seq<Label>, grouping: Labels, i: nat): Labels
    requires i <= |before|
  {
    map n | n in grouping && n !in Names(before[..i]) :: grouping[n]
  }

  lemma NamesStep(before: seq<Label>, i: nat)
    requires i < |before|
    ensures Names(before[..i + 1]) == Names(before[..i]) + {before[i].name}
  {
    assert before[..i + 1] == before[..i] + [before[i]];
  }

  lemma NamesPrefix(before: seq<Label>, i: nat, j: nat)
    requires i <= j <= |before|
    ensures Names(before[..i]) <= Names(before[..j])
  {
    assert forall l :: l in before[..i] ==> l in before[..j];
  }

  /** Once no grouping label is left to be done, the remaining labels need no change. */
  lemma NothingLeftMeansOverridden(before: seq<Label>, grouping: Labels, i: nat, now: seq<Label>)
    requires i <= |before| && OverriddenUpTo(before, grouping, i, now)
    requires NotYetDone(before, grouping, i) == map[]
    ensures now == Override(before, grouping)
  {
    forall n | n in grouping ensures n in Names(before[..i]) {
      assert n !in NotYetDone(before, grouping, i);
    }
    forall j | i <= j < |before| ensures OverrideAt(before, grouping, j) == before[j] {
      NamesPrefix(before, i, j);
    }
  }

  lemma MissingWhenDone(before: seq<Label>, grouping: Labels)
    ensures var left := NotYetDone(before, grouping, |before|);
            && (INSTANCE_LABEL in Names(before) || INSTANCE_LABEL in left ==> Missing(before, grouping) == left)
            && (INSTANCE_LABEL !in Names(before) && INSTANCE_LABEL !in left ==>
                  Missing(before, grouping) == left[INSTANCE_LABEL := ""])
  {
    assert before[..|before|] == before;
    assert (INSTANCE_LABEL in grouping && INSTANCE_LABEL !in Names(before))
           ==> INSTANCE_LABEL in NotYetDone(before, grouping, |before|);
  }

  method AppendLabel(m: Metric, name: string, value: string)
    requires DistinctPairs(m.labels)
    modifies m`labels
    ensures DistinctPairs(m.labels)
    ensures |m.labels| == |old(m.labels)| + 1 && m.labels[..|m.labels| - 1] == old(m.labels)
    ensures fresh(m.labels[|m.labels| - 1])
    ensures LabelsOf(m.labels) == old(LabelsOf(m.labels)) + [Label(name, value)]
  {
    var p := new LabelPair(name, value);
    m.labels := m.labels + [p];
  }

  ghost function PairBag(m: Labels): multiset<Label> { multiset(PairSet(m)) }

  lemma PairBagStep(m: Labels, n: string, v: string)
    requires n !in m
    ensures PairBag(m[n := v]) == PairBag(m) + multiset{Label(n, v)}
    ensures PairBag(map[]) == multiset{}
  {
    assert PairSet(map[]) == {};
    PairBagOfUnion(m, map[n := v]);
    assert PairSet(map[n := v]) == {Label(n, v)};
    assert m[n := v] == m + map[n := v];
  }

  lemma PairBagRemove(m: Labels, n: string)
    requires n in m
    ensures PairBag(m) == PairBag(m - {n}) + multiset{Label(n, m[n])}
  {
    PairBagStep(m - {n}, n, m[n]);
    assert m == (m - {n})[n := m[n]];
  }

  lemma OverrideStart(before: seq<Label>, grouping: Labels)
    ensures OverriddenUpTo(before, grouping, 0, before)
    ensures NotYetDone(before, grouping, 0) == grouping && Names(before[..0]) == {}
  {}

  /** What one step of the override loop finds at position `i`, and what is left after it. */
  lemma OverrideStepFacts(before: seq<Label>, grouping: Labels, i: nat, was: seq<Label>)
    requires i < |before| && OverriddenUpTo(before, grouping, i, was)
    ensures was[i] == before[i]
    ensures Names(before[..i + 1]) == Names(before[..i]) + {before[i].name}
    ensures NotYetDone(before, grouping, i + 1) == NotYetDone(before, grouping, i) - {before[i].name}
    ensures var todo := NotYetDone(before, grouping, i); var n := before[i].name;
            OverrideAt(before, grouping, i) == if n in todo then Label(n, todo[n]) else before[i]
  {
    NamesStep(before, i);
  }

  lemma OverrideEnd(before: seq<Label>, grouping: Labels, now: seq<Label>)
    requires OverriddenUpTo(before, grouping, |before|, now)
    ensures now == Override(before, grouping) && before[..|before|] == before
  {}

  lemma OverriddenStep(before: seq<Label>, grouping: Labels, i: nat, was: seq<Label>, now: seq<Label>)
    requires i < |before| && OverriddenUpTo(before, grouping, i, was)
    requires |now| == |was| && forall j :: 0 <= j < |now| && j != i ==> now[j] == was[j]
    requires now[i] == OverrideAt(before, grouping, i)
    ensures OverriddenUpTo(before, grouping, i + 1, now)
  {}

  /** Appends a label pair for each label not done, in an arbitrary order. */
  method AppendAll(m: Metric, notYetDone: Labels) returns (rest: Labels, sawInstance: bool)
    requires DistinctPairs(m.labels)
    modifies m`labels
    ensures DistinctPairs(m.labels) && forall p :: p in m.labels ==> p in old(m.labels) || fresh(p)
    ensures rest == map[] && (sawInstance <==> INSTANCE_LABEL in notYetDone)
    ensures multiset(LabelsOf(m.labels)) == multiset(old(LabelsOf(m.labels))) + PairBag(notYetDone)
  {
    hide *;
    rest := notYetDone;
    sawInstance := false;
    PairBagStep(map[], "", "");
    while rest != map[]
      invariant DistinctPairs(m.labels) && forall p :: p in m.labels ==> p in old(m.labels) || fresh(p)
      invariant rest.Keys <= notYetDone.Keys
      invariant sawInstance <==> INSTANCE_LABEL in notYetDone.Keys - rest.Keys
      invariant multiset(LabelsOf(m.labels)) + PairBag(rest)
             == multiset(old(LabelsOf(m.labels))) + PairBag(notYetDone)
      decreases |rest|
    {
      assert rest.Keys != {};
      var ln :| ln in rest.Keys;
      AppendLabel(m, ln, rest[ln]);
      if ln == INSTANCE_LABEL {
        sawInstance := true;
      }
      PairBagRemove(rest, ln);
      rest := rest - {ln};
    }
  }

  /** Overrides the value of one label if its name is not done yet. */
  method OverridePair(ps: seq<LabelPair>, i: nat, notYetDone: Labels) returns (ln: string, rest: Labels)
    requires DistinctPairs(ps) && i < |ps|
    modifies ps[i]
    ensures ln == old(ps[i].name) && rest == notYetDone - {ln}
    ensures forall j :: 0 <= j < |ps| && j != i ==> LabelsOf(ps)[j] == old(LabelsOf(ps)[j])
    ensures LabelsOf(ps)[i] == if ln in notYetDone then Label(ln, notYetDone[ln]) else old(LabelsOf(ps)[i])
  {
    var lp := ps[i];
    ln, rest := lp.name, notYetDone;
    if ln in rest {
      lp.value := rest[ln];
      rest := rest - {ln};
    }
  }

  /** Overrides label values from the front. It stops early, with nothing left to do, once all
      grouping labels are done and an `instance` label has been seen. */
  method OverrideValues(m: Metric, grouping: Labels, scratch: Labels)
    returns (rest: Labels, hasInstanceLabel: bool, early: bool)
    requires scratch == map[] && DistinctPairs(m.labels)
    modifies m.labels
    ensures LabelsOf(m.labels) == Override(old(LabelsOf(m.labels)), grouping)
    ensures early ==> rest == map[] && PairBag(Missing(old(LabelsOf(m.labels)), grouping)) == multiset{}
    ensures !early ==> rest == NotYetDone(old(LabelsOf(m.labels)), grouping, |m.labels|)
    ensures !early ==> (hasInstanceLabel <==> INSTANCE_LABEL in Names(old(LabelsOf(m.labels))))
  {
    ghost var before := LabelsOf(m.labels);
    rest := scratch + grouping;
    hasInstanceLabel, early := false, false;
    var i := 0;
    OverrideStart(before, grouping);
    hide *;
    while i < |m.labels|
      invariant 0 <= i <= |m.labels|
      invariant rest == NotYetDone(before, grouping, i)
      invariant hasInstanceLabel <==> INSTANCE_LABEL in Names(before[..i])
      invariant OverriddenUpTo(before, grouping, i, LabelsOf(m.labels))
    {
      ghost var was := LabelsOf(m.labels);
      OverrideStepFacts(before, grouping, i, was);
      var ln;
      ln, rest := OverridePair(m.labels, i, rest);
      if ln == INSTANCE_LABEL {
        hasInstanceLabel := true;
      }
      OverriddenStep(before, grouping, i, was, LabelsOf(m.labels));
      i := i + 1;
      if |rest| == 0 && hasInstanceLabel {
        assert rest == map[];
        NothingLeftMeansOverridden(before, grouping, i, LabelsOf(m.labels));
        NothingMissing(before, grouping, i);
        early := true;
        return;
      }
    }
    OverrideEnd(before, grouping, LabelsOf(m.labels));
  }

  /** Sanitizes one metric. `scratch` is the map reused from metric to metric; it comes back empty. */
  method SanitizeMetric(m: Metric, grouping: Labels, scratch: Labels) returns (rest: Labels)
    requires scratch == map[] && DistinctPairs(m.labels)
    modifies m`labels, m.labels
    ensures rest == map[]
    ensures DistinctPairs(m.labels) && forall p :: p in m.labels ==> p in old(m.labels) || fresh(p)
    ensures SanitizedLabels(old(LabelsOf(m.labels)), grouping, LabelsOf(m.labels))
  {
    hide *;
    ghost var before, pairs := LabelsOf(m.labels), m.labels;
    var hasInstanceLabel, early;
    rest, hasInstanceLabel, early := OverrideValues(m, grouping, scratch);
    if early {
      ghost var overridden := LabelsOf(m.labels);
      m.labels := SortLabelPairs(m.labels);
      SortedIsSanitized(before, grouping, overridden, LabelsOf(m.labels));
      return;
    }
    rest := AppendMissing(m, before, grouping, rest, hasInstanceLabel);
    ghost var unsorted := LabelsOf(m.labels);
    assert forall p :: p in m.labels ==> p in pairs || fresh(p);
    m.labels := SortLabelPairs(m.labels);
    SortedIsSanitized(before, grouping, unsorted, LabelsOf(m.labels));
  }

  /** Appends the labels not done and, if there is still none, an empty `instance` label. */
  method AppendMissing(m: Metric, ghost before: seq<Label>, grouping: Labels, notYetDone: Labels, hasInstance: bool)
    returns (rest: Labels)
    requires DistinctPairs(m.labels)
    requires LabelsOf(m.labels) == Override(before, grouping)
    requires notYetDone == NotYetDone(before, grouping, |before|)
    requires hasInstance <==> INSTANCE_LABEL in Names(before)
    modifies m`labels
    ensures rest == map[]
    ensures DistinctPairs(m.labels) && forall p :: p in m.labels ==> p in old(m.labels) || fresh(p)
    ensures multiset(LabelsOf(m.labels)) == multiset(Override(before, grouping)) + PairBag(Missing(before, grouping))
  {
    MissingWhenDone(before, grouping);
    hide *;
    var hasInstanceLabel;
    rest, hasInstanceLabel := AppendAll(m, notYetDone);
    hasInstanceLabel := hasInstanceLabel || hasInstance;
    if !hasInstanceLabel {
      AppendLabel(m, INSTANCE_LABEL, "");
      PairBagStep(notYetDone, INSTANCE_LABEL, "");
    }
  }

  lemma SortedIsSanitized(before: seq<Label>, grouping: Labels, unsorted: seq<Label>, after: seq<Label>)
    requires multiset(unsorted) == multiset(Override(before, grouping)) + PairBag(Missing(before, grouping))
    requires SortedByName(after) && multiset(after) == multiset(unsorted)
    ensures SanitizedLabels(before, grouping, after)
  {}

  lemma NothingMissing(before: seq<Label>, grouping: Labels, i: nat)
    requires i <= |before| && NotYetDone(before, grouping, i) == map[]
    requires INSTANCE_LABEL in Names(before[..i])
    ensures PairBag(Missing(before, grouping)) == multiset{}
  {
    PairBagStep(map[], "", "");
    NamesPrefix(before, i, |before|);
    assert before[..|before|] == before;
    forall n | n in grouping ensures n in Names(before) {
      assert n !in NotYetDone(before, grouping, i);
    }
    assert Missing(before, grouping) == map[];
  }

  // ------------------------------------------------------------ one family

  ghost predicate SanitizedFamily(before: Family, grouping: Labels, after: Family) {
    && after.name == before.name && after.help == before.help && after.typ == before.typ
    && |after.samples| == |before.samples|
    && forall i :: 0 <= i < |before.samples| ==>
         SanitizedSample(before.samples[i], grouping, after.samples[i])
  }

  method SanitizeSample(m: Metric, grouping: Labels, scratch: Labels) returns (rest: Labels)
    requires scratch == map[] && DistinctPairs(m.labels)
    modifies m`labels, m.labels
    ensures rest == map[]
    ensures DistinctPairs(m.labels) && forall p :: p in m.labels ==> p in old(m.labels) || fresh(p)
    ensures SanitizedSample(old(SampleOf(m)), grouping, SampleOf(m))
  {
    hide SanitizedLabels, DistinctPairs;
    rest := SanitizeMetric(m, grouping, scratch);
  }

  /** Sanitizes one metric of a list and leaves the others alone. */
  method SanitizeAt(m: Metric, ghost ms: seq<Metric>, ghost i: nat, grouping: Labels, scratch: Labels) returns (rest: Labels)
    requires TreeShaped(ms) && i < |ms| && m == ms[i] && scratch == map[]
    modifies m`labels, m.labels
    ensures rest == map[] && TreeShaped(ms)
    ensures forall p :: p in m.labels ==> p in old(m.labels) || fresh(p)
    ensures forall j :: 0 <= j < |ms| && j != i ==>
              ms[j].labels == old(ms[j].labels) && SampleOf(ms[j]) == old(SampleOf(ms[j]))
    ensures SanitizedSample(old(SampleOf(m)), grouping, SampleOf(m))
  {
    assert forall j :: 0 <= j < i ==> Apart(ms[j], ms[i]);
    assert forall j :: i < j < |ms| ==> Apart(ms[i], ms[j]);
    hide SampleOf, SanitizedSample, DistinctPairs;
    rest := SanitizeSample(m, grouping, scratch);
    forall j | 0 <= j < |ms| && j != i ensures ms[j].labels == old(ms[j].labels) && SampleOf(ms[j]) == old(SampleOf(ms[j])) {
      assert forall p :: p in ms[j].labels ==> p !in old(m.labels);
      SampleUnchanged(ms[j]);
    }
    forall j, k | 0 <= j < k < |ms| ensures Apart(ms[j], ms[k]) {
      assert old(Apart(ms[j], ms[k]));
    }
  }

  /** Metrics are processed one after the other with one reused scratch map; only the metrics of the
      family and their label pairs are written, and new label pairs are fresh. */
  method SanitizeLabels(mf: MetricFamily, grouping: Labels)
    requires TreeShaped(mf.metric)
    modifies mf.metric, PairsIn(mf.metric)
    ensures TreeShaped(mf.metric)
    ensures forall p :: p in PairsIn(mf.metric) ==> p in old(PairsIn(mf.metric)) || fresh(p)
    ensures SanitizedFamily(old(FamilyOf(mf)), grouping, FamilyOf(mf))
  {
    var scratch: Labels := map[];
    ghost var before, pairs := SamplesOf(mf.metric), PairsIn(mf.metric);
    hide SanitizedSample, TreeShaped;
    for i := 0 to |mf.metric|
      invariant scratch == map[] && TreeShaped(mf.metric)
      invariant forall j :: 0 <= j < |mf.metric| ==>
                  forall p :: p in mf.metric[j].labels ==> p in pairs || fresh(p)
      invariant forall j :: i <= j < |mf.metric| ==> SampleOf(mf.metric[j]) == before[j]
      invariant forall j :: 0 <= j < i ==> SanitizedSample(before[j], grouping, SampleOf(mf.metric[j]))
    {
      assert mf.metric[i] in mf.metric;
      scratch := SanitizeAt(mf.metric[i], mf.metric, i, grouping, scratch);
    }
  }
}
