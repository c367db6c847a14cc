/** The consistency check as it is performed: on the merged families, one after the other. It
    decides exactly the store's consistency, whatever the order in which groups were merged. */
module GatherCheck {
  import opened Dto
  import opened LabelSpec
  import opened StoreSpec

  /** The samples of a name, source after source. */
  function Flat(own: OwnMetrics, s: Store<Family>, srcs: seq<Source>, name: string): seq<Sample> {
    if srcs == [] then []
    else Flat(own, s, srcs[..|srcs| - 1], name) + Block(own, s, srcs[|srcs| - 1], name)
  }

  function Groups(order: seq<string>): (r: seq<Source>)
    ensures |r| == |order| && forall i :: 0 <= i < |order| ==> r[i] == In(order[i])
  {
    seq(|order|, i requires 0 <= i < |order| => In(order[i]))
  }

  ghost predicate Distinct<T>(a: seq<T>) {
    forall i, j :: 0 <= i < j < |a| ==> a[i] != a[j]
  }

  /** An order in which all keys are visited once. */
  ghost predicate Enumerates(order: seq<string>, keys: set<string>) {
    Distinct(order) && forall k :: k in order <==> k in keys
  }

  ghost function NamesIn<F>(s: Store<F>): set<string> {
    set k, n | k in s && n in s[k].metrics :: n
  }

  /** The type of a merged family is that of the family met first. */
  function FirstType(s: Store<Family>, order: seq<string>, name: string): MetricType {
    if order == [] then UNTYPED
    else if order[0] in s && name in s[order[0]].metrics then s[order[0]].metrics[name].family.typ
    else FirstType(s, order[1..], name)
  }

  /** The merged families: one for each name, with the samples of all groups. */
  ghost predicate MergedFamilies(s: Store<Family>, order: seq<string>, names: seq<string>, families: seq<Family>) {
    && Enumerates(names, NamesIn(s)) && |families| == |names|
    && forall i :: 0 <= i < |names| ==>
         families[i].name == names[i] && families[i].typ == FirstType(s, order, names[i])
         && families[i].samples == Flat(map[], s, Groups(order), names[i])
  }

  function OwnOf(own: OwnMetrics, name: string): seq<Sample> { if name in own then own[name] else [] }

  /** The check: within each family, Pushgateway's own metrics included, all metrics are pairwise
      compatible. */
  predicate GatherOk(own: OwnMetrics, families: seq<Family>) {
    && (forall n :: n in own ==> PairwiseCompatible(own[n]))
    && forall i :: 0 <= i < |families| ==>
         PairwiseCompatible(OwnOf(own, families[i].name) + families[i].samples)
  }

  // ------------------------------------------------------------ results

  lemma PairwiseConcat(a: seq<Sample>, b: seq<Sample>)
    ensures PairwiseCompatible(a + b) <==> PairwiseCompatible(a) && PairwiseCompatible(b) && BlocksCompatible(a, b)
  {
    var c := a + b;
    if PairwiseCompatible(c) {
      forall i, j | 0 <= i < j < |a| ensures Compatible(a[i], a[j]) { assert Compatible(c[i], c[j]); }
      forall i, j | 0 <= i < j < |b| ensures Compatible(b[i], b[j]) { assert Compatible(c[|a| + i], c[|a| + j]); }
      forall i, j | 0 <= i < |a| && 0 <= j < |b| ensures Compatible(a[i], b[j]) { assert Compatible(c[i], c[|a| + j]); }
    }
    if PairwiseCompatible(a) && PairwiseCompatible(b) && BlocksCompatible(a, b) {
      forall i, j | 0 <= i < j < |c| ensures Compatible(c[i], c[j]) {
        if j < |a| { assert Compatible(a[i], a[j]); }
        else if i >= |a| { assert Compatible(b[i - |a|], b[j - |a|]); }
        else { assert Compatible(a[i], b[j - |a|]); }
      }
    }
  }

  lemma BlocksConcat(a: seq<Sample>, b: seq<Sample>, c: seq<Sample>)
    ensures BlocksCompatible(a + b, c) <==> BlocksCompatible(a, c) && BlocksCompatible(b, c)
  {
    var d := a + b;
    if BlocksCompatible(d, c) {
      forall i, j | 0 <= i < |a| && 0 <= j < |c| ensures Compatible(a[i], c[j]) { assert Compatible(d[i], c[j]); }
      forall i, j | 0 <= i < |b| && 0 <= j < |c| ensures Compatible(b[i], c[j]) { assert Compatible(d[|a| + i], c[j]); }
    }
    if BlocksCompatible(a, c) && BlocksCompatible(b, c) {
      forall i, j | 0 <= i < |d| && 0 <= j < |c| ensures Compatible(d[i], c[j]) {
        if i < |a| { assert Compatible(a[i], c[j]); } else { assert Compatible(b[i - |a|], c[j]); }
      }
    }
  }

  ghost predicate AllBelow(own: OwnMetrics, s: Store<Family>, srcs: seq<Source>, c: seq<Sample>, name: string) {
    forall i :: 0 <= i < |srcs| ==> BlocksCompatible(Block(own, s, srcs[i], name), c)
  }

  lemma {:induction false} FlatAgainst(own: OwnMetrics, s: Store<Family>, srcs: seq<Source>, c: seq<Sample>, name: string)
    ensures BlocksCompatible(Flat(own, s, srcs, name), c) <==> AllBelow(own, s, srcs, c, name)
  {
    hide BlocksCompatible, Block, AllBelow;
    if srcs == [] {
      NoneBelow(own, s, c, name);
    } else {
      var n := |srcs| - 1;
      FlatAgainst(own, s, srcs[..n], c, name);
      BlocksConcat(Flat(own, s, srcs[..n], name), Block(own, s, srcs[n], name), c);
      AllBelowStep(own, s, srcs, c, name);
    }
  }

  lemma NoneBelow(own: OwnMetrics, s: Store<Family>, c: seq<Sample>, name: string)
    ensures AllBelow(own, s, [], c, name) && BlocksCompatible([], c)
  {}

  lemma AllBelowStep(own: OwnMetrics, s: Store<Family>, srcs: seq<Source>, c: seq<Sample>, name: string)
    requires srcs != []
    ensures AllBelow(own, s, srcs, c, name)
            <==> AllBelow(own, s, srcs[..|srcs| - 1], c, name) && BlocksCompatible(Block(own, s, srcs[|srcs| - 1], name), c)
  {
    hide BlocksCompatible, Block;
    var n := |srcs| - 1;
    assert forall i :: 0 <= i < n ==> srcs[..n][i] == srcs[i];
  }

  ghost predicate SourcesCompatible(own: OwnMetrics, s: Store<Family>, srcs: seq<Source>, name: string) {
    && (forall i :: 0 <= i < |srcs| ==> PairwiseCompatible(Block(own, s, srcs[i], name)))
    && forall i, j :: 0 <= i < j < |srcs| ==>
         BlocksCompatible(Block(own, s, srcs[i], name), Block(own, s, srcs[j], name))
  }

  lemma SourcesCompatibleStep(own: OwnMetrics, s: Store<Family>, srcs: seq<Source>, name: string)
    requires srcs != []
    ensures var n := |srcs| - 1; var last := Block(own, s, srcs[n], name);
            SourcesCompatible(own, s, srcs, name) <==>
              SourcesCompatible(own, s, srcs[..n], name) && PairwiseCompatible(last) && AllBelow(own, s, srcs[..n], last, name)
  {
    hide BlocksCompatible, PairwiseCompatible, Block;
    var n := |srcs| - 1;
    assert forall i :: 0 <= i < n ==> srcs[..n][i] == srcs[i];
    if SourcesCompatible(own, s, srcs, name) {
      forall i, j | 0 <= i < j < n
        ensures BlocksCompatible(Block(own, s, srcs[..n][i], name), Block(own, s, srcs[..n][j], name)) {
        assert BlocksCompatible(Block(own, s, srcs[i], name), Block(own, s, srcs[j], name));
      }
    }
    if SourcesCompatible(own, s, srcs[..n], name) && PairwiseCompatible(Block(own, s, srcs[n], name))
       && AllBelow(own, s, srcs[..n], Block(own, s, srcs[n], name), name) {
      forall i, j | 0 <= i < j < |srcs|
        ensures BlocksCompatible(Block(own, s, srcs[i], name), Block(own, s, srcs[j], name)) {
        assert BlocksCompatible(Block(own, s, srcs[..n][i], name), Block(own, s, srcs[j], name));
      }
      forall i | 0 <= i < |srcs| ensures PairwiseCompatible(Block(own, s, srcs[i], name)) {
        if i < n { assert PairwiseCompatible(Block(own, s, srcs[..n][i], name)); }
      }
    }
  }

  lemma {:induction false} FlatIsPairwise(own: OwnMetrics, s: Store<Family>, srcs: seq<Source>, name: string)
    ensures PairwiseCompatible(Flat(own, s, srcs, name)) <==> SourcesCompatible(own, s, srcs, name)
  {
    if srcs != [] {
      var n := |srcs| - 1;
      FlatIsPairwise(own, s, srcs[..n], name);
      PairwiseConcat(Flat(own, s, srcs[..n], name), Block(own, s, srcs[n], name));
      FlatAgainst(own, s, srcs[..n], Block(own, s, srcs[n], name), name);
      SourcesCompatibleStep(own, s, srcs, name);
    }
  }

  lemma {:induction false} FlatConcat(own: OwnMetrics, s: Store<Family>, a: seq<Source>, b: seq<Source>, name: string)
    ensures Flat(own, s, a + b, name) == Flat(own, s, a, name) + Flat(own, s, b, name)
  {
    if b == [] {
      assert a + b == a;
    } else {
      var n := |b| - 1;
      assert (a + b)[..|a + b| - 1] == a + b[..n];
      FlatConcat(own, s, a, b[..n], name);
    }
  }

  lemma {:induction false} FlatWithoutOwn(own: OwnMetrics, s: Store<Family>, order: seq<string>, name: string)
    ensures Flat(own, s, Groups(order), name) == Flat(map[], s, Groups(order), name)
  {
    if order != [] {
      var n := |order| - 1;
      FlatWithoutOwn(own, s, order[..n], name);
      assert Groups(order)[..n] == Groups(order[..n]);
    }
  }

  /** All sources, own metrics first. */
  function AllSources(order: seq<string>): seq<Source> { [Own] + Groups(order) }

  /** Each source with a block is listed once. */
  lemma SourcesListed(own: OwnMetrics, s: Store<Family>, order: seq<string>, name: string)
    requires Enumerates(order, s.Keys)
    ensures Distinct(AllSources(order))
    ensures forall src :: src !in AllSources(order) ==> Block(own, s, src, name) == []
  {
    var srcs := AllSources(order);
    forall k | k in order ensures In(k) in srcs {
      var i :| 0 <= i < |order| && order[i] == k;
      assert srcs[i + 1] == In(k);
    }
    assert srcs[0] == Own;
    forall src | src !in srcs ensures Block(own, s, src, name) == [] {
      assert src == In(src.key);
    }
  }

  lemma SourcesCompatibleIsConsistent(own: OwnMetrics, s: Store<Family>, order: seq<string>, name: string)
    requires Enumerates(order, s.Keys)
    ensures SourcesCompatible(own, s, AllSources(order), name) <==> ConsistentName(own, s, name)
  {
    hide Block, Enumerates, AllSources, Compatible;
    var srcs := AllSources(order);
    SourcesListed(own, s, order, name);
    if ConsistentName(own, s, name) {
      forall i, j | 0 <= i < j < |srcs|
        ensures BlocksCompatible(Block(own, s, srcs[i], name), Block(own, s, srcs[j], name)) {
        assert srcs[i] != srcs[j];
      }
    }
    if SourcesCompatible(own, s, srcs, name) {
      forall a ensures PairwiseCompatible(Block(own, s, a, name)) {
        if a in srcs {
          var i :| 0 <= i < |srcs| && srcs[i] == a;
          assert PairwiseCompatible(Block(own, s, srcs[i], name));
        }
      }
      forall a, b | a != b ensures BlocksCompatible(Block(own, s, a, name), Block(own, s, b, name)) {
        if a in srcs && b in srcs {
          var i :| 0 <= i < |srcs| && srcs[i] == a;
          var j :| 0 <= j < |srcs| && srcs[j] == b;
          EitherOrder(own, s, srcs, i, j, name);
        }
      }
    }
  }

  lemma EitherOrder(own: OwnMetrics, s: Store<Family>, srcs: seq<Source>, i: nat, j: nat, name: string)
    requires SourcesCompatible(own, s, srcs, name) && i < |srcs| && j < |srcs| && i != j
    ensures BlocksCompatible(Block(own, s, srcs[i], name), Block(own, s, srcs[j], name))
  {
    var a, b := Block(own, s, srcs[i], name), Block(own, s, srcs[j], name);
    if i > j {
      assert BlocksCompatible(b, a);
      forall x, y | 0 <= x < |a| && 0 <= y < |b| ensures Compatible(a[x], b[y]) { assert Compatible(b[y], a[x]); }
    }
  }

  lemma FamilyCheckIsConsistentName(own: OwnMetrics, s: Store<Family>, order: seq<string>, name: string)
    requires Enumerates(order, s.Keys)
    ensures PairwiseCompatible(OwnOf(own, name) + Flat(map[], s, Groups(order), name)) <==> ConsistentName(own, s, name)
  {
    SourcesCompatibleIsConsistent(own, s, order, name);
    FlatIsPairwise(own, s, AllSources(order), name);
    FlatConcat(own, s, [Own], Groups(order), name);
    FlatWithoutOwn(own, s, order, name);
    assert [Own][..0] == [];
    assert Flat(own, s, [Own], name) == OwnOf(own, name);
  }

  lemma AbsentName(own: OwnMetrics, s: Store<Family>, name: string)
    requires name !in NamesIn(s)
    ensures ConsistentName(own, s, name) <==> PairwiseCompatible(OwnOf(own, name))
  {
    assert forall k :: Block(own, s, In(k), name) == [];
    assert Block(own, s, Own, name) == OwnOf(own, name);
    hide Block;
    if PairwiseCompatible(OwnOf(own, name)) {
      forall a ensures PairwiseCompatible(Block(own, s, a, name)) { if a.In? { assert Block(own, s, In(a.key), name) == []; } }
      forall a, b | a != b ensures BlocksCompatible(Block(own, s, a, name), Block(own, s, b, name)) {
        if a.In? { assert Block(own, s, In(a.key), name) == []; }
        if b.In? { assert Block(own, s, In(b.key), name) == []; }
      }
    }
  }

  /** Checking the merged families decides the consistency of the store, for every order in which
      the groups and names were visited. */
  lemma GatherDecidesConsistency(own: OwnMetrics, s: Store<Family>, order: seq<string>, names: seq<string>, families: seq<Family>)
    requires Enumerates(order, s.Keys) && MergedFamilies(s, order, names, families)
    ensures GatherOk(own, families) <==> Consistent(own, s)
  {
    if Consistent(own, s) {
      forall n | n in own ensures PairwiseCompatible(own[n]) {
        assert ConsistentName(own, s, n);
        assert PairwiseCompatible(Block(own, s, Own, n));
      }
      forall i | 0 <= i < |families| ensures PairwiseCompatible(OwnOf(own, families[i].name) + families[i].samples) {
        assert ConsistentName(own, s, names[i]);
        FamilyCheckIsConsistentName(own, s, order, names[i]);
      }
    }
    if GatherOk(own, families) {
      forall n ensures ConsistentName(own, s, n) {
        if n in NamesIn(s) {
          var i :| 0 <= i < |names| && names[i] == n;
          FamilyCheckIsConsistentName(own, s, order, names[i]);
        } else {
          AbsentName(own, s, n);
        }
      }
    }
  }
}
