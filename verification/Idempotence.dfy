/** Whether sanitizing twice is sanitizing once, for label lists that may name a label twice. */
module Idempotence {
  import opened Lex
  import opened Dto
  import opened LabelSpec

  // ------------------------------------------------------------ a stable sort

  function InsertStably(ls: seq<Label>, x: Label): (r: seq<Label>)
    ensures |r| == |ls| + 1
  {
    if ls == [] || !Lt(x.name, ls[|ls| - 1].name) then ls + [x]
    else InsertStably(ls[..|ls| - 1], x) + [ls[|ls| - 1]]
  }

  /** Insertion sort: equal names stay in order. */
  function StableSort(ls: seq<Label>): (r: seq<Label>)
    ensures |r| == |ls|
  {
    if ls == [] then [] else InsertStably(StableSort(ls[..|ls| - 1]), ls[|ls| - 1])
  }

  lemma {:induction false} InsertKeepsSorted(ls: seq<Label>, x: Label)
    requires SortedByName(ls)
    ensures SortedByName(InsertStably(ls, x)) && multiset(InsertStably(ls, x)) == multiset(ls) + multiset{x}
    ensures forall l :: l in InsertStably(ls, x) ==> l == x || l in ls
  {
    if ls == [] || !Lt(x.name, ls[|ls| - 1].name) {
      AppendedSorted(ls, x);
    } else {
      var rest, last := ls[..|ls| - 1], ls[|ls| - 1];
      assert ls == rest + [last];
      InsertKeepsSorted(rest, x);
      LastStays(rest, last, InsertStably(rest, x), x);
    }
  }

  lemma AppendedSorted(ls: seq<Label>, x: Label)
    requires SortedByName(ls) && (ls != [] ==> !Lt(x.name, ls[|ls| - 1].name))
    ensures SortedByName(ls + [x])
  {
    forall i | 0 <= i < |ls| ensures !Lt(x.name, ls[i].name) {
      if i < |ls| - 1 { NotBelow(x.name, ls[|ls| - 1].name, ls[i].name); }
    }
  }

  lemma LastStays(rest: seq<Label>, last: Label, r: seq<Label>, x: Label)
    requires SortedByName(rest + [last]) && SortedByName(r) && Lt(x.name, last.name)
    requires forall l :: l in r ==> l == x || l in rest
    ensures SortedByName(r + [last])
  {
    var ls := rest + [last];
    LtTrichotomy(x.name, last.name);
    forall i | 0 <= i < |r| ensures !Lt(last.name, r[i].name) {
      assert r[i] in r;
      if r[i] != x {
        var j :| 0 <= j < |rest| && rest[j] == r[i];
        assert ls[j] == r[i] && ls[|rest|] == last;
      }
    }
  }

  /** `!Lt` is transitive. */
  lemma NotBelow(a: string, b: string, c: string)
    requires !Lt(a, b) && !Lt(b, c)
    ensures !Lt(a, c)
  {
    LtTrichotomy(a, b);
    LtTrichotomy(b, c);
    LtTrichotomy(a, c);
    if Lt(a, c) {
      if Lt(b, a) { LtTransitive(b, a, c); }
    }
  }

  lemma {:induction false} StableSortSorts(ls: seq<Label>)
    ensures SortedByName(StableSort(ls)) && multiset(StableSort(ls)) == multiset(ls)
  {
    if ls != [] {
      StableSortSorts(ls[..|ls| - 1]);
      InsertKeepsSorted(StableSort(ls[..|ls| - 1]), ls[|ls| - 1]);
      assert ls == ls[..|ls| - 1] + [ls[|ls| - 1]];
    }
  }

  /** The labels of one name, in order. */
  function Named(ls: seq<Label>, n: string): (r: seq<Label>) {
    if ls == [] then []
    else Named(ls[..|ls| - 1], n) + if ls[|ls| - 1].name == n then [ls[|ls| - 1]] else []
  }

  lemma NamedSnoc(ls: seq<Label>, x: Label, n: string)
    ensures Named(ls + [x], n) == Named(ls, n) + if x.name == n then [x] else []
  {
    assert (ls + [x])[..|ls|] == ls;
  }

  lemma {:induction false} InsertKeepsNamed(ls: seq<Label>, x: Label, n: string)
    requires SortedByName(ls)
    ensures Named(InsertStably(ls, x), n) == Named(ls, n) + if x.name == n then [x] else []
  {
    if ls == [] || !Lt(x.name, ls[|ls| - 1].name) {
      NamedSnoc(ls, x, n);
    } else {
      var rest, last := ls[..|ls| - 1], ls[|ls| - 1];
      LtTrichotomy(x.name, last.name);
      InsertKeepsNamed(rest, x, n);
      NamedSnoc(InsertStably(rest, x), last, n);
    }
  }

  /** Sorting does not move labels of one name past each other. */
  lemma {:induction false} StableSortKeepsNamed(ls: seq<Label>, n: string)
    ensures Named(StableSort(ls), n) == Named(ls, n)
  {
    if ls != [] {
      var rest := ls[..|ls| - 1];
      StableSortKeepsNamed(rest, n);
      StableSortSorts(rest);
      InsertKeepsNamed(StableSort(rest), ls[|ls| - 1], n);
    }
  }

  lemma {:induction false} SortedIsStable(ls: seq<Label>)
    requires SortedByName(ls)
    ensures StableSort(ls) == ls
  {
    hide Lt;
    if ls != [] {
      var rest, last := ls[..|ls| - 1], ls[|ls| - 1];
      SortedIsStable(rest);
      assert ls == rest + [last];
    }
  }

  // ------------------------------------------------------------ what a second round overrides

  lemma {:induction false} NamedMembers(ls: seq<Label>, n: string)
    ensures forall l :: l in Named(ls, n) <==> l in ls && l.name == n
  {
    if ls != [] {
      NamedMembers(ls[..|ls| - 1], n);
      assert ls == ls[..|ls| - 1] + [ls[|ls| - 1]];
    }
  }

  lemma {:induction false} NamedConcat(a: seq<Label>, b: seq<Label>, n: string)
    ensures Named(a + b, n) == Named(a, n) + Named(b, n)
  {
    if b == [] {
      assert a + b == a;
    } else {
      var rest, last := b[..|b| - 1], b[|b| - 1];
      assert a + b == (a + rest) + [last] && b == rest + [last];
      NamedConcat(a, rest, n);
      hide Named;
      NamedSnoc(a + rest, last, n);
      NamedSnoc(rest, last, n);
    }
  }

  /** The first label of a name heads the labels of that name. */
  lemma FirstHeads(ls: seq<Label>, i: nat)
    requires i < |ls| && ls[i].name !in Names(ls[..i])
    ensures var named := Named(ls, ls[i].name); named != [] && named[0] == ls[i]
  {
    hide Named, Names;
    var n, first, rest := ls[i].name, ls[..i], ls[i + 1..];
    NoneNamed(first, n);
    NamedSnoc(first, ls[i], n);
    NamedConcat(first + [ls[i]], rest, n);
    assert ls == first + [ls[i]] + rest;
  }

  lemma {:induction false} NoneNamed(ls: seq<Label>, n: string)
    requires n !in Names(ls)
    ensures Named(ls, n) == []
  {
    if ls != [] {
      var rest := ls[..|ls| - 1];
      assert forall l :: l in rest ==> l in ls;
      NoneNamed(rest, n);
    }
  }

  /** Sanitizing again overrides nothing if the first label of each grouping name has its value. */
  lemma NothingToOverride(ls: seq<Label>, grouping: Labels)
    requires forall n :: n in grouping && Named(ls, n) != [] ==> Named(ls, n)[0] == Label(n, grouping[n])
    ensures Override(ls, grouping) == ls
  {
    forall i | 0 <= i < |ls| ensures OverrideAt(ls, grouping, i) == ls[i] {
      if ls[i].name in grouping && ls[i].name !in Names(ls[..i]) { FirstHeads(ls, i); }
    }
  }

  lemma NothingMissing(before: seq<Label>, grouping: Labels, once: seq<Label>)
    requires SanitizedLabels(before, grouping, once)
    ensures Missing(once, grouping) == map[] && multiset(PairSet(Missing(once, grouping))) == multiset{}
  {
    SanitizedHasGroupingLabels(before, grouping, once);
    forall n | n in WithInstance(grouping) ensures n in Names(once) {
      if n in grouping { assert Label(n, grouping[n]).name == n; }
    }
    assert Missing(once, grouping) == map[];
    assert PairSet(map[]) == {};
  }

  // ------------------------------------------------------------ a sort that keeps equal names in order

  /** An outcome of sanitizing when the sort is stable; the missing labels are appended in any order. */
  ghost predicate SanitizedStably(before: seq<Label>, grouping: Labels, after: seq<Label>) {
    exists added :: multiset(added) == multiset(PairSet(Missing(before, grouping)))
                    && after == StableSort(Override(before, grouping) + added)
  }

  lemma StablyIsSanitized(before: seq<Label>, grouping: Labels, after: seq<Label>)
    requires SanitizedStably(before, grouping, after)
    ensures SanitizedLabels(before, grouping, after)
  {
    var added :| multiset(added) == multiset(PairSet(Missing(before, grouping)))
                 && after == StableSort(Override(before, grouping) + added);
    StableSortSorts(Override(before, grouping) + added);
  }

  lemma FirstIsOverridden(before: seq<Label>, grouping: Labels, added: seq<Label>, n: string)
    requires n in grouping && multiset(added) == multiset(PairSet(Missing(before, grouping)))
    ensures var named := Named(Override(before, grouping) + added, n); named != [] ==> named[0] == Label(n, grouping[n])
  {
    hide Named, OverrideAt;
    var over := Override(before, grouping);
    NamedConcat(over, added, n);
    SameNames(over, before);
    if n in Names(before) {
      FirstOfName(before, grouping, n);
    } else {
      NoneNamed(over, n);
      NamedMembers(added, n);
      if Named(added, n) != [] {
        var l := Named(added, n)[0];
        assert l in Named(added, n);
        assert l in multiset(added);
      }
    }
  }

  lemma FirstOfName(before: seq<Label>, grouping: Labels, n: string)
    requires n in grouping && n in Names(before)
    ensures var named := Named(Override(before, grouping), n); named != [] && named[0] == Label(n, grouping[n])
  {
    hide Named;
    var over := Override(before, grouping);
    FirstOccurrence(before, n);
    var i :| 0 <= i < |before| && before[i].name == n && n !in Names(before[..i]);
    SameNames(over[..i], before[..i]);
    FirstHeads(over, i);
  }

  /** With a sort that keeps equal names in order sanitizing is idempotent, names repeated or not. */
  lemma StableSanitizingIsIdempotent(before: seq<Label>, grouping: Labels, once: seq<Label>, twice: seq<Label>)
    requires SanitizedStably(before, grouping, once) && SanitizedStably(once, grouping, twice)
    ensures twice == once
  {
    hide Override, Missing, PairSet, SortedByName;
    StablyIsSanitized(before, grouping, once);
    NothingMissing(before, grouping, once);
    var added :| multiset(added) == multiset(PairSet(Missing(before, grouping)))
                 && once == StableSort(Override(before, grouping) + added);
    forall n | n in grouping && Named(once, n) != [] ensures Named(once, n)[0] == Label(n, grouping[n]) {
      FirstIsOverridden(before, grouping, added, n);
      StableSortKeepsNamed(Override(before, grouping) + added, n);
    }
    NothingToOverride(once, grouping);
    var none :| multiset(none) == multiset(PairSet(Missing(once, grouping)))
                && twice == StableSort(Override(once, grouping) + none);
    assert |none| == |multiset(none)| == 0;
    assert once + none == once;
    SanitizedIsSorted(before, grouping, once);
    SortedIsStable(once);
  }

  lemma SanitizedIsSorted(before: seq<Label>, grouping: Labels, after: seq<Label>)
    requires SanitizedLabels(before, grouping, after)
    ensures SortedByName(after)
  {}

  // ------------------------------------------------------------ any sort

  /** Every outcome of sanitizing is left as it is by sanitizing again. */
  ghost predicate SettlesAtOnce(before: seq<Label>, grouping: Labels) {
    forall once, twice ::
      SanitizedLabels(before, grouping, once) && SanitizedLabels(once, grouping, twice) ==> twice == once
  }

  lemma OutcomeAgrees(before: seq<Label>, grouping: Labels, once: seq<Label>)
    requires Agreeing(Override(before, grouping)) && SanitizedLabels(before, grouping, once)
    ensures Agreeing(once)
  {
    var over, missing := Override(before, grouping), PairSet(Missing(before, grouping));
    SameNames(over, before);
    forall i, j | 0 <= i < j < |once| && once[i].name == once[j].name ensures once[i] == once[j] {
      assert once[i] in multiset(once) && once[j] in multiset(once);
      assert (once[i] in over || once[i] in missing) && (once[j] in over || once[j] in missing);
      if once[i] in over && once[j] in over { AgreeingLabels(over, once[i], once[j]); }
    }
  }

  lemma AgreeingSettles(before: seq<Label>, grouping: Labels, once: seq<Label>, twice: seq<Label>)
    requires Agreeing(Override(before, grouping))
    requires SanitizedLabels(before, grouping, once) && SanitizedLabels(once, grouping, twice)
    ensures twice == once
  {
    OutcomeAgrees(before, grouping, once);
    NothingMissing(before, grouping, once);
    SanitizedHasGroupingLabels(before, grouping, once);
    forall n | n in grouping && Named(once, n) != [] ensures Named(once, n)[0] == Label(n, grouping[n]) {
      NamedMembers(once, n);
      assert Named(once, n)[0] in once;
      AgreeingLabels(once, Named(once, n)[0], Label(n, grouping[n]));
    }
    NothingToOverride(once, grouping);
    SortedBagIsUnique(twice, once);
  }

  function Swapped(ls: seq<Label>, i: nat, j: nat): (r: seq<Label>)
    requires i < j < |ls|
    ensures |r| == |ls|
  {
    ls[i := ls[j]][j := ls[i]]
  }

  lemma SwappedKeeps(ls: seq<Label>, i: nat, j: nat)
    requires i < j < |ls| && ls[i].name == ls[j].name
    ensures multiset(Swapped(ls, i, j)) == multiset(ls)
    ensures SortedByName(ls) ==> SortedByName(Swapped(ls, i, j))
  {
    hide Lt;
    var r := Swapped(ls, i, j);
    assert forall k :: 0 <= k < |ls| ==> r[k].name == ls[k].name;
  }

  lemma SomeOutcome(before: seq<Label>, grouping: Labels) returns (once: seq<Label>)
    ensures SanitizedLabels(before, grouping, once)
  {
    var missing := Missing(before, grouping);
    PairsOfIsMap(missing);
    DistinctBag(PairsOf(missing));
    once := StableSort(Override(before, grouping) + PairsOf(missing));
    StableSortSorts(Override(before, grouping) + PairsOf(missing));
  }

  /** Two different labels of one name can change places, or the second round overrides one. */
  lemma DisagreeingMoves(before: seq<Label>, grouping: Labels)
    requires !Agreeing(Override(before, grouping))
    ensures !SettlesAtOnce(before, grouping)
  {
    var once := SomeOutcome(before, grouping);
    NothingMissing(before, grouping, once);
    var over := Override(once, grouping);
    if multiset(over) != multiset(once) {
      var twice := SomeOutcome(once, grouping);
      assert multiset(twice) == multiset(over);
    } else {
      var i, j := DifferentTwins(before, grouping, once);
      SwappedKeeps(once, i, j);
      assert SanitizedLabels(once, grouping, Swapped(once, i, j));
      assert Swapped(once, i, j)[i] != once[i];
    }
  }

  lemma DifferentTwins(before: seq<Label>, grouping: Labels, once: seq<Label>) returns (i: nat, j: nat)
    requires !Agreeing(Override(before, grouping)) && SanitizedLabels(before, grouping, once)
    ensures i < j < |once| && once[i].name == once[j].name && once[i] != once[j]
  {
    var over := Override(before, grouping);
    var p, q :| 0 <= p < q < |over| && over[p].name == over[q].name && over[p] != over[q];
    assert over[p] in multiset(over) && over[q] in multiset(over);
    assert over[p] in multiset(once) && over[q] in multiset(once);
    var k :| 0 <= k < |once| && once[k] == over[p];
    var l :| 0 <= l < |once| && once[l] == over[q];
    if k < l { i, j := k, l; } else { i, j := l, k; }
  }

  /** For any sort: sanitizing a list is idempotent exactly if, after overriding, the labels of each
      name are equal; in particular if no name is repeated. */
  lemma SanitizeIsIdempotentIff(before: seq<Label>, grouping: Labels)
    ensures SettlesAtOnce(before, grouping) <==> Agreeing(Override(before, grouping))
  {
    if Agreeing(Override(before, grouping)) {
      forall once, twice | SanitizedLabels(before, grouping, once) && SanitizedLabels(once, grouping, twice)
        ensures twice == once
      {
        AgreeingSettles(before, grouping, once, twice);
      }
    } else {
      DisagreeingMoves(before, grouping);
    }
  }

  /** A sort that moved two labels of one name would make a difference: of `instance=a, instance=b`
      under `instance=g` the override leaves `g, b`; sorted to `b, g`, the next round gives `g, g`. */
  lemma MovedDuplicatesBreakIdempotence()
    ensures var before := [Label("instance", "a"), Label("instance", "b")];
            var grouping: Labels := map["instance" := "g"];
            var once := [Label("instance", "b"), Label("instance", "g")];
            var twice := [Label("instance", "g"), Label("instance", "g")];
            SanitizedLabels(before, grouping, once) && SanitizedLabels(once, grouping, twice) && twice != once
  {
    var before := [Label("instance", "a"), Label("instance", "b")];
    var grouping: Labels := map["instance" := "g"];
    var once := [Label("instance", "b"), Label("instance", "g")];
    var twice := [Label("instance", "g"), Label("instance", "g")];
    hide SanitizedLabels;
    SwapIsSanitized(before, grouping, once);
    SwapIsSanitized(once, grouping, twice);
    assert twice[0].value != once[0].value;
  }

  lemma SwapIsSanitized(before: seq<Label>, grouping: Labels, after: seq<Label>)
    requires |before| == 2 && before[0].name == before[1].name == INSTANCE_LABEL && grouping.Keys == {INSTANCE_LABEL}
    requires after == [before[1], Label(INSTANCE_LABEL, grouping[INSTANCE_LABEL])]
    ensures SanitizedLabels(before, grouping, after)
  {
    OverrideTwin(before, grouping);
    LtTrichotomy(INSTANCE_LABEL, INSTANCE_LABEL);
    hide Override, Missing, PairSet, Lt;
    assert Override(before, grouping) == [after[1], after[0]];
  }

  lemma OverrideTwin(ls: seq<Label>, grouping: Labels)
    requires |ls| == 2 && ls[0].name == ls[1].name == INSTANCE_LABEL
    requires grouping.Keys == {INSTANCE_LABEL}
    ensures Override(ls, grouping) == [Label(INSTANCE_LABEL, grouping[INSTANCE_LABEL]), ls[1]]
    ensures PairSet(Missing(ls, grouping)) == {}
  {
    assert ls[0] in ls[..1] && ls[0] in ls;
    assert INSTANCE_LABEL in Names(ls);
    assert Missing(ls, grouping) == map[];
  }
}
