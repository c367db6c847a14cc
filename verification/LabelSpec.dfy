/** Label lists as values: what sanitizing a metric means, independently of how the store
    rewrites the label objects in place. */
module LabelSpec {
  import opened Lex
  import opened Dto

  function Names(ls: seq<Label>): set<string> { set l | l in ls :: l.name }

  predicate DistinctNames(ls: seq<Label>) {
    forall i, j :: 0 <= i < j < |ls| ==> ls[i].name != ls[j].name
  }

  /** Sorted as `sort.Sort(labelPairs(...))` leaves a list; equal names may come in any order. */
  predicate SortedByName(ls: seq<Label>) {
    forall i, j :: 0 <= i < j < |ls| ==> !Lt(ls[j].name, ls[i].name)
  }

  predicate StrictlySortedByName(ls: seq<Label>) {
    forall i, j :: 0 <= i < j < |ls| ==> Lt(ls[i].name, ls[j].name)
  }

  /** A grouping label replaces the value of the first label of that name, and of that one only. */
  function OverrideAt(ls: seq<Label>, grouping: Labels, i: nat): Label
    requires i < |ls|
  {
    if ls[i].name in grouping && ls[i].name !in Names(ls[..i])
    then Label(ls[i].name, grouping[ls[i].name]) else ls[i]
  }

  function Override(ls: seq<Label>, grouping: Labels): (r: seq<Label>)
    ensures |r| == |ls|
    ensures forall i :: 0 <= i < |r| ==> r[i] == OverrideAt(ls, grouping, i) && r[i].name == ls[i].name
  {
    seq(|ls|, i requires 0 <= i < |ls| => OverrideAt(ls, grouping, i))
  }

  function WithInstance(m: Labels): Labels {
    if INSTANCE_LABEL in m then m else m[INSTANCE_LABEL := ""]
  }

  /** The labels that have to be appended. */
  function Missing(ls: seq<Label>, grouping: Labels): Labels {
    map n | n in WithInstance(grouping) && n !in Names(ls) :: WithInstance(grouping)[n]
  }

  function PairSet(m: Labels): (r: set<Label>)
    ensures forall l :: l in r <==> l.name in m && m[l.name] == l.value
  {
    var r := set n | n in m :: Label(n, m[n]);
    assert forall n :: n in m ==> Label(n, m[n]) in r;
    assert forall l: Label :: l.name in m && m[l.name] == l.value ==> l == Label(l.name, m[l.name]);
    r
  }

  /** `after` is an outcome of sanitizing `before`: a sorted arrangement of the overridden labels
      and the missing ones. The arrangement is unique when names are distinct. */
  ghost predicate SanitizedLabels(before: seq<Label>, grouping: Labels, after: seq<Label>) {
    && SortedByName(after)
    && multiset(after) == multiset(Override(before, grouping)) + multiset(PairSet(Missing(before, grouping)))
  }

  /** A label list read as a map (of duplicate names the first counts). */
  function AsMap(ls: seq<Label>): Labels {
    if ls == [] then map[] else AsMap(ls[1..])[ls[0].name := ls[0].value]
  }

  lemma {:induction false} AsMapKeys(ls: seq<Label>)
    ensures AsMap(ls).Keys == Names(ls)
  {
    if ls != [] {
      AsMapKeys(ls[1..]);
      assert forall l :: l in ls <==> l == ls[0] || l in ls[1..];
    }
  }

  lemma {:induction false} AsMapAt(ls: seq<Label>, i: nat)
    requires DistinctNames(ls) && i < |ls|
    ensures ls[i].name in AsMap(ls) && AsMap(ls)[ls[i].name] == ls[i].value
  {
    if i > 0 { AsMapAt(ls[1..], i - 1); }
  }

  lemma AsMapOf(ls: seq<Label>)
    requires DistinctNames(ls)
    ensures AsMap(ls).Keys == Names(ls)
    ensures forall i :: 0 <= i < |ls| ==> ls[i].name in AsMap(ls) && AsMap(ls)[ls[i].name] == ls[i].value
  {
    AsMapKeys(ls);
    forall i | 0 <= i < |ls| ensures ls[i].name in AsMap(ls) && AsMap(ls)[ls[i].name] == ls[i].value {
      AsMapAt(ls, i);
    }
  }

  ghost function PairsOfNames(names: seq<string>, m: Labels): (r: seq<Label>)
    requires forall n :: n in names ==> n in m
    ensures |r| == |names|
    ensures forall i :: 0 <= i < |r| ==> r[i] == Label(names[i], m[names[i]])
  {
    seq(|names|, i requires 0 <= i < |names| => Label(names[i], m[names[i]]))
  }

  /** A label map as the one sorted list of pairs. */
  ghost function PairsOf(m: Labels): (r: seq<Label>)
  {
    PairsOfNames(SortedNames(m.Keys), m)
  }

  lemma PairsOfIsMap(m: Labels)
    ensures StrictlySortedByName(PairsOf(m)) && DistinctNames(PairsOf(m))
    ensures AsMap(PairsOf(m)) == m && Names(PairsOf(m)) == m.Keys
  {
    hide Lt, SortedNames;
    var names := SortedNames(m.Keys);
    var r := PairsOf(m);
    forall i, j | 0 <= i < j < |r| ensures r[i].name != r[j].name {
      LtTrichotomy(names[i], names[j]);
    }
    AsMapOf(r);
    forall n | n in m ensures n in Names(r) && AsMap(r)[n] == m[n] {
      var i :| 0 <= i < |names| && names[i] == n;
      assert r[i] in r;
    }
  }

  // ------------------------------------------------------------ bags of distinct labels

  lemma {:induction false} DistinctBag(ls: seq<Label>)
    requires DistinctNames(ls)
    ensures multiset(ls) == multiset(PairSet(AsMap(ls)))
  {
    AsMapOf(ls);
    forall l ensures l in PairSet(AsMap(ls)) <==> l in ls {
      if l in PairSet(AsMap(ls)) {
        var i :| 0 <= i < |ls| && ls[i].name == l.name;
      }
    }
    DistinctCounts(ls);
    forall l ensures multiset(ls)[l] == multiset(PairSet(AsMap(ls)))[l] {}
  }

  lemma {:induction false} DistinctCounts(ls: seq<Label>)
    requires DistinctNames(ls)
    ensures forall l :: multiset(ls)[l] == if l in ls then 1 else 0
  {
    if ls != [] {
      DistinctCounts(ls[1..]);
      assert ls == [ls[0]] + ls[1..];
      assert ls[0] !in ls[1..];
    }
  }

  /** Labels of one name are equal. */
  predicate Agreeing(ls: seq<Label>) {
    forall i, j :: 0 <= i < j < |ls| && ls[i].name == ls[j].name ==> ls[i] == ls[j]
  }

  lemma AgreeingLabels(ls: seq<Label>, a: Label, b: Label)
    requires Agreeing(ls) && a in ls && b in ls && a.name == b.name
    ensures a == b
  {
    var i :| 0 <= i < |ls| && ls[i] == a;
    var j :| 0 <= j < |ls| && ls[j] == b;
    if i < j { assert ls[i] == ls[j]; } else if j < i { assert ls[j] == ls[i]; }
  }

  lemma SortedHeadsAgree(a: seq<Label>, t: seq<Label>)
    requires a != [] && t != [] && SortedByName(a) && SortedByName(t) && Agreeing(t)
    requires a[0] in t && t[0] in a
    ensures a[0] == t[0]
  {
    var i :| 0 <= i < |t| && t[i] == a[0];
    var j :| 0 <= j < |a| && a[j] == t[0];
    LtTrichotomy(a[0].name, t[0].name);
    LtTrichotomy(a[0].name, a[0].name);
    assert !Lt(a[j].name, a[0].name);
    assert !Lt(t[i].name, t[0].name);
    AgreeingLabels(t, a[0], t[0]);
  }

  lemma TailsOfBag(a: seq<Label>, t: seq<Label>)
    requires a != [] && t != [] && a[0] == t[0] && multiset(a) == multiset(t)
    ensures multiset(a[1..]) == multiset(t[1..])
  {
    assert a == [a[0]] + a[1..] && t == [t[0]] + t[1..];
    assert multiset(a[1..]) == multiset(a) - multiset{a[0]} == multiset(t[1..]);
  }

  lemma SortedTail(a: seq<Label>)
    requires a != []
    ensures SortedByName(a) ==> SortedByName(a[1..])
    ensures Agreeing(a) ==> Agreeing(a[1..])
  {
    hide Lt;
    assert forall i :: 0 <= i < |a[1..]| ==> a[1..][i] == a[i + 1];
  }

  lemma SameBagSameMembers(a: seq<Label>, t: seq<Label>)
    requires multiset(a) == multiset(t)
    ensures |a| == |t| && forall l :: l in a <==> l in t
  {
    assert |a| == |multiset(a)| == |multiset(t)| == |t|;
    assert forall l :: l in a <==> l in multiset(a);
    assert forall l :: l in t <==> l in multiset(t);
  }

  /** A bag whose labels of one name are equal has one sorted arrangement. */
  lemma {:induction false} SortedBagIsUnique(a: seq<Label>, t: seq<Label>)
    requires SortedByName(a) && SortedByName(t) && Agreeing(t) && multiset(a) == multiset(t)
    ensures a == t
    decreases |a|
  {
    hide SortedByName, Agreeing;
    SameBagSameMembers(a, t);
    if a != [] {
      SortedHeadsAgree(a, t);
      TailsOfBag(a, t);
      SortedTail(a);
      SortedTail(t);
      SortedBagIsUnique(a[1..], t[1..]);
      assert a == [a[0]] + a[1..] && t == [t[0]] + t[1..];
    }
  }

  lemma StrictIsDistinct(ls: seq<Label>)
    requires StrictlySortedByName(ls)
    ensures DistinctNames(ls) && SortedByName(ls) && Agreeing(ls)
  {
    forall i, j | 0 <= i < j < |ls| ensures ls[i].name != ls[j].name && !Lt(ls[j].name, ls[i].name) {
      LtTrichotomy(ls[i].name, ls[j].name);
    }
  }

  // ------------------------------------------------------------ main results

  lemma OverrideAsMap(before: seq<Label>, grouping: Labels)
    requires DistinctNames(before)
    ensures DistinctNames(Override(before, grouping))
    ensures AsMap(Override(before, grouping)).Keys == Names(before) == AsMap(before).Keys
    ensures forall n :: n in Names(before) ==>
              AsMap(Override(before, grouping))[n] == (AsMap(before) + grouping)[n]
  {
    var over := Override(before, grouping);
    SameNames(over, before);
    AsMapOf(before);
    AsMapOf(over);
    forall n | n in Names(before) ensures AsMap(over)[n] == (AsMap(before) + grouping)[n] {
      var i :| 0 <= i < |before| && before[i].name == n;
      assert AsMap(over)[over[i].name] == over[i].value;
      assert over[i] == OverrideAt(before, grouping, i);
      assert before[i].name !in Names(before[..i]);
    }
  }

  /** The overridden list and the missing labels split the target map. */
  lemma TargetSplits(before: seq<Label>, grouping: Labels)
    requires DistinctNames(before)
    ensures AsMap(Override(before, grouping)).Keys !! Missing(before, grouping).Keys
    ensures AsMap(Override(before, grouping)) + Missing(before, grouping)
            == WithInstance(AsMap(before) + grouping)
  {
    hide Override, AsMap, Names, DistinctNames;
    OverrideAsMap(before, grouping);
    var over, missing := AsMap(Override(before, grouping)), Missing(before, grouping);
    var target := WithInstance(AsMap(before) + grouping);
    assert (over + missing).Keys == target.Keys;
    forall n | n in target ensures (over + missing)[n] == target[n] {}
  }

  lemma SameNames(a: seq<Label>, b: seq<Label>)
    requires |a| == |b| && forall i :: 0 <= i < |a| ==> a[i].name == b[i].name
    ensures Names(a) == Names(b)
  {
    forall n | n in Names(a) ensures n in Names(b) {
      var i :| 0 <= i < |a| && a[i].name == n;
      assert b[i] in b;
    }
    forall n | n in Names(b) ensures n in Names(a) {
      var i :| 0 <= i < |b| && b[i].name == n;
      assert a[i] in a;
    }
  }

  lemma PairBagOfUnion(a: Labels, b: Labels)
    requires a.Keys !! b.Keys
    ensures multiset(PairSet(a + b)) == multiset(PairSet(a)) + multiset(PairSet(b))
  {
    forall l ensures multiset(PairSet(a + b))[l] == (multiset(PairSet(a)) + multiset(PairSet(b)))[l] {}
  }

  /** For distinct label names sanitizing is the simple map operation: original labels, overridden
      by the grouping labels, plus an empty `instance` if there is none, listed in sorted order. */
  lemma SanitizeIsMapOverride(before: seq<Label>, grouping: Labels, after: seq<Label>)
    requires DistinctNames(before)
    ensures SanitizedLabels(before, grouping, after)
            <==> after == PairsOf(WithInstance(AsMap(before) + grouping))
  {
    var target := WithInstance(AsMap(before) + grouping);
    var over := Override(before, grouping);
    OverrideAsMap(before, grouping);
    TargetSplits(before, grouping);
    PairBagOfUnion(AsMap(over), Missing(before, grouping));
    DistinctBag(over);
    PairsOfIsMap(target);
    DistinctBag(PairsOf(target));
    StrictIsDistinct(PairsOf(target));
    if SanitizedLabels(before, grouping, after) {
      SortedBagIsUnique(after, PairsOf(target));
    }
  }

  lemma OverrideTwice(m: Labels, grouping: Labels)
    ensures var once := PairsOf(WithInstance(m + grouping));
            DistinctNames(once) && PairsOf(WithInstance(AsMap(once) + grouping)) == once
  {
    var target := WithInstance(m + grouping);
    PairsOfIsMap(target);
    assert target + grouping == target;
  }

  /** A sanitized list of distinct names is left as it is by sanitizing again. */
  lemma SanitizeIsIdempotent(before: seq<Label>, grouping: Labels, once: seq<Label>, twice: seq<Label>)
    requires DistinctNames(before)
    requires SanitizedLabels(before, grouping, once) && SanitizedLabels(once, grouping, twice)
    ensures twice == once
  {
    SanitizeIsMapOverride(before, grouping, once);
    OverrideTwice(AsMap(before), grouping);
    SanitizeIsMapOverride(once, grouping, twice);
  }

  /** Whatever the input, duplicates included: every grouping label is there with its value, and so
      is an `instance` label. */
  lemma SanitizedHasGroupingLabels(before: seq<Label>, grouping: Labels, after: seq<Label>)
    requires SanitizedLabels(before, grouping, after)
    ensures forall n :: n in grouping ==> Label(n, grouping[n]) in after
    ensures INSTANCE_LABEL in Names(after)
  {
    var over := Override(before, grouping);
    forall l | l in over || l in PairSet(Missing(before, grouping)) ensures l in after {
      assert l in multiset(after);
    }
    forall n | n in grouping ensures Label(n, grouping[n]) in after {
      if n in Names(before) {
        FirstOccurrence(before, n);
        var i :| 0 <= i < |before| && before[i].name == n && n !in Names(before[..i]);
        assert over[i] == Label(n, grouping[n]);
        assert over[i] in over;
      } else {
        assert n in Missing(before, grouping);
        assert Label(n, grouping[n]) in PairSet(Missing(before, grouping));
      }
    }
    if INSTANCE_LABEL in Names(before) {
      var i :| 0 <= i < |before| && before[i].name == INSTANCE_LABEL;
      assert over[i] in over && over[i] in after;
    } else {
      var l := Label(INSTANCE_LABEL, WithInstance(grouping)[INSTANCE_LABEL]);
      assert INSTANCE_LABEL in Missing(before, grouping);
      assert l in PairSet(Missing(before, grouping)) && l in after;
    }
  }

  lemma {:induction false} FirstOccurrence(ls: seq<Label>, n: string)
    requires n in Names(ls)
    ensures exists i :: 0 <= i < |ls| && ls[i].name == n && n !in Names(ls[..i])
  {
    var last := |ls| - 1;
    if n in Names(ls[..last]) {
      FirstOccurrence(ls[..last], n);
      var i :| 0 <= i < last && ls[..last][i].name == n && n !in Names(ls[..last][..i]);
      assert ls[..last][..i] == ls[..i];
      assert ls[i].name == n;
    } else {
      var i :| 0 <= i < |ls| && ls[i].name == n;
      assert forall k :: 0 <= k < last ==> ls[..last][k] in ls[..last];
      assert i == last;
    }
  }
}
