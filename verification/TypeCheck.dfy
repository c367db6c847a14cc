/** The further check that every metric has the type its merged family declares. The declared type is
    that of the family met first, so for badly typed families the outcome can depend on the order in
    which the groups are visited. */
module TypeCheck {
  import opened Lex
  import opened Dto
  import opened LabelSpec
  import opened StoreSpec
  import opened GatherCheck

  /** Every metric of a name, Pushgateway's own included, has the type of the merged family. */
  predicate TypesOk(own: OwnMetrics, families: seq<Family>) {
    forall i :: 0 <= i < |families| ==>
      AllOfType(OwnOf(own, families[i].name), families[i].typ) && AllOfType(families[i].samples, families[i].typ)
  }

  predicate AllOfType(samples: seq<Sample>, typ: MetricType) {
    forall i :: 0 <= i < |samples| ==> samples[i].payload.typ == typ
  }

  /** Every metric of a name has the type that each family of that name declares. */
  ghost predicate OneType(own: OwnMetrics, s: Store<Family>, name: string) {
    forall k, src :: k in s && name in s[k].metrics ==> AllOfType(Block(own, s, src, name), s[k].metrics[name].family.typ)
  }

  lemma {:induction false} FlatOfType(s: Store<Family>, order: seq<string>, name: string, typ: MetricType)
    ensures AllOfType(Flat(map[], s, Groups(order), name), typ)
            <==> forall k :: k in order ==> AllOfType(Block(map[], s, In(k), name), typ)
  {
    if order != [] {
      var before, k := order[..|order| - 1], order[|order| - 1];
      FlatOfType(s, before, name, typ);
      assert Groups(order)[..|order| - 1] == Groups(before);
      ConcatOfType(Flat(map[], s, Groups(before), name), Block(map[], s, In(k), name), typ);
      assert order == before + [k];
    }
  }

  lemma ConcatOfType(a: seq<Sample>, b: seq<Sample>, typ: MetricType)
    ensures AllOfType(a + b, typ) <==> AllOfType(a, typ) && AllOfType(b, typ)
  {
    var c := a + b;
    if AllOfType(c, typ) {
      forall i | 0 <= i < |a| ensures a[i].payload.typ == typ { assert c[i] == a[i]; }
      forall i | 0 <= i < |b| ensures b[i].payload.typ == typ { assert c[|a| + i] == b[i]; }
    }
  }

  lemma {:induction false} FirstTypeIsDeclared(s: Store<Family>, order: seq<string>, name: string)
    requires exists k :: k in order && k in s && name in s[k].metrics
    ensures exists k :: k in order && k in s && name in s[k].metrics && FirstType(s, order, name) == s[k].metrics[name].family.typ
  {
    if !(order[0] in s && name in s[order[0]].metrics) {
      assert order == [order[0]] + order[1..];
      FirstTypeIsDeclared(s, order[1..], name);
    }
  }

  /** The check of one name. */
  ghost predicate NameTyped(own: OwnMetrics, s: Store<Family>, order: seq<string>, name: string) {
    AllOfType(OwnOf(own, name), FirstType(s, order, name))
    && AllOfType(Flat(map[], s, Groups(order), name), FirstType(s, order, name))
  }

  lemma OneTypeIsTyped(own: OwnMetrics, s: Store<Family>, order: seq<string>, name: string)
    requires Enumerates(order, s.Keys) && name in NamesIn(s) && OneType(own, s, name)
    ensures NameTyped(own, s, order, name)
  {
    var j :| j in s && name in s[j].metrics;
    FirstTypeIsDeclared(s, order, name);
    var k :| k in order && k in s && name in s[k].metrics && FirstType(s, order, name) == s[k].metrics[name].family.typ;
    FlatOfType(s, order, name, FirstType(s, order, name));
    forall o | o in order ensures AllOfType(Block(map[], s, In(o), name), FirstType(s, order, name)) {
      assert AllOfType(Block(own, s, In(o), name), s[k].metrics[name].family.typ);
    }
    assert AllOfType(Block(own, s, Own, name), s[k].metrics[name].family.typ);
  }

  /** An order that visits a given group first. */
  lemma OrderFrom(keys: set<string>, k: string) returns (order: seq<string>)
    requires k in keys
    ensures Enumerates(order, keys) && order != [] && order[0] == k
  {
    var rest := SortedNames(keys - {k});
    order := [k] + rest;
    forall i, j | 0 <= i < j < |order| ensures order[i] != order[j] {
      if i == 0 { assert order[j] in rest; } else { LtTrichotomy(rest[i - 1], rest[j - 1]); }
    }
  }

  lemma TypedFromEachIsOneType(own: OwnMetrics, s: Store<Family>, name: string)
    requires forall order :: Enumerates(order, s.Keys) ==> NameTyped(own, s, order, name)
    ensures OneType(own, s, name)
  {
    forall k, src | k in s && name in s[k].metrics
      ensures AllOfType(Block(own, s, src, name), s[k].metrics[name].family.typ)
    {
      var order := OrderFrom(s.Keys, k);
      var typ := FirstType(s, order, name);
      assert NameTyped(own, s, order, name) && typ == s[k].metrics[name].family.typ;
      FlatOfType(s, order, name, typ);
      if src.In? && src.key in s { assert AllOfType(Block(map[], s, In(src.key), name), typ); }
    }
  }

  lemma TypesOkByName(own: OwnMetrics, s: Store<Family>, order: seq<string>, names: seq<string>, families: seq<Family>)
    requires MergedFamilies(s, order, names, families)
    ensures TypesOk(own, families) <==> forall n :: n in NamesIn(s) ==> NameTyped(own, s, order, n)
  {
    hide Flat, FirstType, AllOfType;
    if TypesOk(own, families) {
      forall n | n in NamesIn(s) ensures NameTyped(own, s, order, n) {
        var i :| 0 <= i < |names| && names[i] == n;
        assert AllOfType(OwnOf(own, families[i].name), families[i].typ);
      }
    }
    if forall n :: n in NamesIn(s) ==> NameTyped(own, s, order, n) {
      forall i | 0 <= i < |families|
        ensures AllOfType(OwnOf(own, families[i].name), families[i].typ) && AllOfType(families[i].samples, families[i].typ)
      {
        assert names[i] in NamesIn(s) && NameTyped(own, s, order, names[i]);
      }
    }
  }

  /** The type check passes for every order of the groups exactly if each name has one type. */
  lemma TypesDecided(own: OwnMetrics, s: Store<Family>)
    ensures (forall order :: Enumerates(order, s.Keys) ==> forall n :: n in NamesIn(s) ==> NameTyped(own, s, order, n))
            <==> forall n :: n in NamesIn(s) ==> OneType(own, s, n)
  {
    if forall n :: n in NamesIn(s) ==> OneType(own, s, n) {
      forall order, n | Enumerates(order, s.Keys) && n in NamesIn(s) ensures NameTyped(own, s, order, n) {
        OneTypeIsTyped(own, s, order, n);
      }
    }
    if forall order :: Enumerates(order, s.Keys) ==> forall n :: n in NamesIn(s) ==> NameTyped(own, s, order, n) {
      forall n | n in NamesIn(s) ensures OneType(own, s, n) { TypedFromEachIsOneType(own, s, n); }
    }
  }

  // ------------------------------------------------------------ well-typed stores

  /** Each family has metrics, all of the type it declares, as the text parser delivers them. */
  ghost predicate WellTyped(s: Store<Family>) {
    forall k, n :: k in s && n in s[k].metrics ==>
      s[k].metrics[n].family.samples != [] && AllOfType(s[k].metrics[n].family.samples, s[k].metrics[n].family.typ)
  }

  lemma ConsistentIsOneType(own: OwnMetrics, s: Store<Family>, name: string)
    requires WellTyped(s) && ConsistentName(own, s, name)
    ensures OneType(own, s, name)
  {
    forall k, src | k in s && name in s[k].metrics
      ensures AllOfType(Block(own, s, src, name), s[k].metrics[name].family.typ)
    {
      var mine, other := Block(own, s, In(k), name), Block(own, s, src, name);
      assert mine[0].payload.typ == s[k].metrics[name].family.typ;
      forall i | 0 <= i < |other| ensures other[i].payload.typ == mine[0].payload.typ {
        if src != In(k) { assert BlocksCompatible(mine, other); assert Compatible(mine[0], other[i]); }
      }
    }
  }

  /** For well-typed families the type check adds nothing: in every order, the families pass both
      checks exactly if the store is consistent. */
  lemma WellTypedGatherDecides(own: OwnMetrics, s: Store<Family>, order: seq<string>, names: seq<string>, families: seq<Family>)
    requires WellTyped(s) && Enumerates(order, s.Keys) && MergedFamilies(s, order, names, families)
    ensures GatherOk(own, families) && TypesOk(own, families) <==> Consistent(own, s)
  {
    GatherDecidesConsistency(own, s, order, names, families);
    TypesOkByName(own, s, order, names, families);
    if Consistent(own, s) {
      forall n | n in NamesIn(s) ensures NameTyped(own, s, order, n) {
        assert ConsistentName(own, s, n);
        ConsistentIsOneType(own, s, n);
        OneTypeIsTyped(own, s, order, n);
      }
    }
  }

  /** A gauge declared as a counter passes beside a gauge family if that is visited first, and fails
      if not: the verdict on such a push depends on the order in which a map is enumerated. */
  lemma BadTypeDependsOnOrder(own: OwnMetrics, s: Store<Family>, a: string, b: string, name: string)
    requires s.Keys == {a, b} && a != b && name in s[a].metrics && name in s[b].metrics && name !in own
    requires s[a].metrics[name].family.typ == GAUGE && s[b].metrics[name].family.typ == COUNTER
    requires AllOfType(s[a].metrics[name].family.samples, GAUGE) && AllOfType(s[b].metrics[name].family.samples, GAUGE)
    requires s[a].metrics[name].family.samples != []
    ensures Enumerates([a, b], s.Keys) && NameTyped(own, s, [a, b], name)
    ensures Enumerates([b, a], s.Keys) && !NameTyped(own, s, [b, a], name)
  {
    FlatOfType(s, [a, b], name, GAUGE);
    FlatOfType(s, [b, a], name, COUNTER);
    assert a in [b, a] && Block(map[], s, In(a), name)[0].payload.typ == GAUGE;
  }
}
