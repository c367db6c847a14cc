/** Grouping keys: label names and values, sorted by name and joined with the separator byte. */
module GroupingKey {
  import opened Lex
  import opened Dto

  const SEPARATOR: char := 255 as char

  function Joined(names: seq<string>, labels: Labels): string
    requires forall n :: n in names ==> n in labels
  {
    if names == [] then ""
    else if |names| == 1 then names[0] + [SEPARATOR] + labels[names[0]]
    else names[0] + [SEPARATOR] + labels[names[0]] + [SEPARATOR] + Joined(names[1..], labels)
  }

  /** The grouping key as a function of the label map alone. */
  ghost function KeyOf(labels: Labels): string {
    Joined(SortedNames(labels.Keys), labels)
  }

  /** The keys of a map in an arbitrary order: every choice of `:|` is covered. */
  method InAnyOrder(labels: Labels) returns (labelNames: seq<string>)
    ensures Elements(labelNames) == labels.Keys
    ensures forall i, j :: 0 <= i < j < |labelNames| ==> labelNames[i] != labelNames[j]
  {
    labelNames := [];
    var rest := labels.Keys;
    while rest != {}
      invariant rest <= labels.Keys
      invariant Elements(labelNames) == labels.Keys - rest
      invariant forall i, j :: 0 <= i < j < |labelNames| ==> labelNames[i] != labelNames[j]
      decreases rest
    {
      var labelName :| labelName in rest;
      assert labelName !in Elements(labelNames);
      assert Elements(labelNames + [labelName]) == Elements(labelNames) + {labelName};
      labelNames := labelNames + [labelName];
      rest := rest - {labelName};
    }
  }

  lemma JoinedStep(names: seq<string>, labels: Labels, i: nat)
    requires forall n :: n in names ==> n in labels
    requires i < |names|
    ensures Joined(names[i..], labels) == names[i] + [SEPARATOR] + labels[names[i]]
              + (if i + 1 < |names| then [SEPARATOR] + Joined(names[i + 1..], labels) else "")
  {
    var todo := names[i..];
    assert todo[0] == names[i] && todo[1..] == names[i + 1..];
    if i + 1 < |names| {
      var j := Joined(names[i + 1..], labels);
      assert names[i] + [SEPARATOR] + labels[names[i]] + [SEPARATOR] + j
          == names[i] + [SEPARATOR] + labels[names[i]] + ([SEPARATOR] + j);
    }
  }

  /** Writes one label to the builder, with no separator at the end. */
  method WriteLabel(key: string, name: string, value: string, more: bool, ghost rest: string) returns (r: string)
    requires !more ==> rest == ""
    ensures r + rest == key + (name + [SEPARATOR] + value + (if more then [SEPARATOR] + rest else ""))
  {
    r := key + name + [SEPARATOR] + value;
    if more {
      r := r + [SEPARATOR];
    }
  }

  /** Computes the key. The result does not depend on the order in which the map is enumerated. */
  method GroupingKeyFor(labels: Labels) returns (key: string)
    ensures key == KeyOf(labels)
  {
    hide Joined, SortedNames, KeyOf, Elements;
    if |labels| == 0 {
      NoLabelsNoKey(labels);
      return "";
    }
    var labelNames := InAnyOrder(labels);
    labelNames := SortStrings(labelNames);
    SortedNamesLength(labels.Keys);
    KeyIsJoined(labels);
    key := "";
    var i := 0;
    assert labelNames[0..] == labelNames;
    while i < |labelNames|
      invariant 0 <= i <= |labelNames|
      invariant key + Joined(labelNames[i..], labels) == Joined(labelNames, labels)
    {
      JoinedStep(labelNames, labels, i);
      assert i + 1 == |labelNames| ==> labelNames[i + 1..] == [];
      key := WriteLabel(key, labelNames[i], labels[labelNames[i]], i + 1 < |labels|,
                        Joined(labelNames[i + 1..], labels));
      i := i + 1;
    }
    assert labelNames[i..] == [];
  }

  lemma NoLabelsNoKey(labels: Labels)
    requires |labels| == 0
    ensures KeyOf(labels) == ""
  {
    assert labels.Keys == {};
  }

  lemma KeyIsJoined(labels: Labels)
    ensures KeyOf(labels) == Joined(SortedNames(labels.Keys), labels) && Joined([], labels) == ""
  {}

  // ------------------------------------------------------------ uniqueness of keys

  predicate Clean(s: string) { SEPARATOR !in s }

  predicate CleanLabels(labels: Labels) {
    forall n :: n in labels ==> Clean(n) && Clean(labels[n])
  }

  function Parts(names: seq<string>, labels: Labels): (r: seq<string>)
    requires forall n :: n in names ==> n in labels
    ensures |r| == 2 * |names|
  {
    if names == [] then [] else [names[0], labels[names[0]]] + Parts(names[1..], labels)
  }

  function JoinParts(parts: seq<string>): string {
    if parts == [] then "" else if |parts| == 1 then parts[0]
    else parts[0] + [SEPARATOR] + JoinParts(parts[1..])
  }

  lemma {:induction false} JoinedIsJoinParts(names: seq<string>, labels: Labels)
    requires forall n :: n in names ==> n in labels
    ensures Joined(names, labels) == JoinParts(Parts(names, labels))
  {
    if names != [] {
      JoinedIsJoinParts(names[1..], labels);
      var parts := Parts(names, labels);
      assert parts[1..][1..] == Parts(names[1..], labels);
      if |names| > 1 {
        assert JoinParts(parts) == parts[0] + [SEPARATOR] + (parts[1] + [SEPARATOR] + JoinParts(parts[1..][1..]));
      } else {
        assert Parts(names[1..], labels) == [];
      }
    }
  }

  function Separators(s: string): nat {
    if s == "" then 0 else (if s[0] == SEPARATOR then 1 else 0) + Separators(s[1..])
  }

  lemma {:induction false} SeparatorsConcat(a: string, b: string)
    ensures Separators(a + b) == Separators(a) + Separators(b)
  {
    if a == "" {
      assert a + b == b;
    } else {
      assert (a + b)[1..] == a[1..] + b;
      SeparatorsConcat(a[1..], b);
    }
  }

  lemma {:induction false} CleanHasNoSeparators(s: string)
    ensures Clean(s) <==> Separators(s) == 0
  {
    if s != "" {
      CleanHasNoSeparators(s[1..]);
      assert s == [s[0]] + s[1..];
    }
  }

  lemma {:induction false} JoinPartsSeparators(parts: seq<string>)
    requires parts != []
    ensures Separators(JoinParts(parts)) >= |parts| - 1
    ensures Separators(JoinParts(parts)) == |parts| - 1 <==> AllClean(parts)
  {
    CleanHasNoSeparators(parts[0]);
    if |parts| > 1 {
      JoinPartsSeparators(parts[1..]);
      SeparatorsConcat([SEPARATOR], JoinParts(parts[1..]));
      SeparatorsConcat(parts[0], [SEPARATOR] + JoinParts(parts[1..]));
      assert JoinParts(parts) == parts[0] + ([SEPARATOR] + JoinParts(parts[1..]));
      assert forall p :: p in parts <==> p == parts[0] || p in parts[1..];
    }
  }

  lemma {:induction false} JoinPartsInjective(p: seq<string>, q: seq<string>)
    requires |p| == |q|
    requires AllClean(p) && AllClean(q)
    requires JoinParts(p) == JoinParts(q)
    ensures p == q
  {
    if |p| > 1 {
      SameCleanPrefix(p[0], q[0], JoinParts(p[1..]), JoinParts(q[1..]));
      JoinPartsInjective(p[1..], q[1..]);
      assert p == [p[0]] + p[1..] && q == [q[0]] + q[1..];
    }
  }

  function FirstSeparator(s: string): nat {
    if s == "" || s[0] == SEPARATOR then 0 else 1 + FirstSeparator(s[1..])
  }

  lemma {:induction false} CleanPrefixEnds(a: string, rest: string)
    requires Clean(a)
    ensures FirstSeparator(a + [SEPARATOR] + rest) == |a|
  {
    if a != "" {
      CleanPrefixEnds(a[1..], rest);
      assert (a + [SEPARATOR] + rest)[1..] == a[1..] + [SEPARATOR] + rest;
    }
  }

  lemma SameCleanPrefix(a: string, b: string, restA: string, restB: string)
    requires Clean(a) && Clean(b)
    requires a + [SEPARATOR] + restA == b + [SEPARATOR] + restB
    ensures a == b && restA == restB
  {
    var s := a + [SEPARATOR] + restA;
    CleanPrefixEnds(a, restA);
    CleanPrefixEnds(b, restB);
    assert a == s[..|a|] && b == s[..|b|];
    assert restA == s[|a| + 1..] && restB == s[|b| + 1..];
  }

  predicate AllClean(parts: seq<string>) { forall p :: p in parts ==> Clean(p) }

  lemma {:induction false} CleanParts(names: seq<string>, labels: Labels)
    requires forall n :: n in names ==> n in labels
    ensures AllClean(Parts(names, labels)) <==> forall n :: n in names ==> Clean(n) && Clean(labels[n])
  {
    if names != [] {
      var rest := Parts(names[1..], labels);
      CleanParts(names[1..], labels);
      assert forall p :: p in Parts(names, labels) <==> p == names[0] || p == labels[names[0]] || p in rest;
      assert forall n :: n in names <==> n == names[0] || n in names[1..];
    }
  }

  lemma {:induction false} PartsInjective(na: seq<string>, a: Labels, nb: seq<string>, b: Labels)
    requires (forall n :: n in na ==> n in a) && (forall n :: n in nb ==> n in b)
    requires Parts(na, a) == Parts(nb, b)
    ensures na == nb && forall n :: n in na ==> a[n] == b[n]
  {
    if na == [] {
      assert nb == [];
    } else {
      var pa, pb := Parts(na, a), Parts(nb, b);
      assert pa[0] == na[0] && pa[1] == a[na[0]] && pa[2..] == Parts(na[1..], a);
      assert pb[0] == nb[0] && pb[1] == b[nb[0]] && pb[2..] == Parts(nb[1..], b);
      PartsInjective(na[1..], a, nb[1..], b);
      assert na == [na[0]] + na[1..] && nb == [nb[0]] + nb[1..];
    }
  }

  lemma PartsDetermineLabels(a: Labels, b: Labels)
    requires Parts(SortedNames(a.Keys), a) == Parts(SortedNames(b.Keys), b)
    ensures a == b
  {
    PartsInjective(SortedNames(a.Keys), a, SortedNames(b.Keys), b);
    assert a.Keys == Elements(SortedNames(a.Keys)) == b.Keys;
    forall n | n in a ensures a[n] == b[n] { assert n in SortedNames(a.Keys); }
  }

  /** Keys are unique: label maps free of the separator byte have equal keys only if they are
      equal. More sharply, the second map may contain separators, as long as it does not have
      fewer labels than the first. */
  lemma KeysAreUnique(a: Labels, b: Labels)
    requires CleanLabels(a) && (CleanLabels(b) || |a| <= |b|)
    ensures KeyOf(a) == KeyOf(b) <==> a == b
  {
    if KeyOf(a) == KeyOf(b) {
      var pa, pb := Parts(SortedNames(a.Keys), a), Parts(SortedNames(b.Keys), b);
      SortedNamesLength(a.Keys);
      SortedNamesLength(b.Keys);
      JoinedIsJoinParts(SortedNames(a.Keys), a);
      JoinedIsJoinParts(SortedNames(b.Keys), b);
      CleanParts(SortedNames(a.Keys), a);
      CleanParts(SortedNames(b.Keys), b);
      if pa != [] { JoinPartsSeparators(pa); }
      if pb != [] { JoinPartsSeparators(pb); }
      JoinPartsInjective(pa, pb);
      PartsDetermineLabels(a, b);
    }
  }

  /** Uniqueness with the separator written out: label maps in whose names and values the byte 0xFF
      does not occur have equal keys exactly if they are equal. */
  lemma KeysWithout255AreUnique(a: Labels, b: Labels)
    requires forall n :: n in a ==> 255 as char !in n && 255 as char !in a[n]
    requires forall n :: n in b ==> 255 as char !in n && 255 as char !in b[n]
    ensures KeyOf(a) == KeyOf(b) <==> a == b
  {
    KeysAreUnique(a, b);
  }

  /** So all label maps of ASCII characters have keys of their own. */
  lemma AsciiKeysAreUnique(a: Labels, b: Labels)
    requires forall n :: n in a ==> Ascii(n) && Ascii(a[n])
    requires forall n :: n in b ==> Ascii(n) && Ascii(b[n])
    ensures KeyOf(a) == KeyOf(b) <==> a == b
  {
    KeysWithout255AreUnique(a, b);
  }

  predicate Ascii(s: string) { forall i :: 0 <= i < |s| ==> s[i] as int < 128 }

  /** With a separator byte in a value (which a base64 value can contain) two different label maps
      with legal names can share a key. */
  lemma SeparatorInValueBreaksUniqueness()
    ensures var a: Labels := map["a" := ['b', 255 as char, 'c', 255 as char, 'd']];
            var b: Labels := map["a" := "b", "c" := "d"];
            a != b && KeyOf(a) == KeyOf(b)
  {
    var a: Labels := map["a" := ['b', SEPARATOR, 'c', SEPARATOR, 'd']];
    var b: Labels := map["a" := "b", "c" := "d"];
    AscendingIsUnique(SortedNames(a.Keys), ["a"]);
    AscendingIsUnique(SortedNames(b.Keys), ["a", "c"]);
    assert a.Keys != b.Keys by { assert "c" in b && "c" !in a; }
    assert Joined(["a"], a) == ['a', SEPARATOR, 'b', SEPARATOR, 'c', SEPARATOR, 'd'];
    assert ["a", "c"][1..] == ["c"];
    assert Joined(["c"], b) == ['c', SEPARATOR, 'd'];
    assert Joined(["a", "c"], b) == ['a', SEPARATOR, 'b', SEPARATOR, 'c', SEPARATOR, 'd'];
  }

  // ------------------------------------------------------------ exactly when a key is a map's own

  lemma {:induction false} JoinedAgrees(names: seq<string>, a: Labels, b: Labels)
    requires forall n :: n in names ==> n in a && n in b && a[n] == b[n]
    ensures Joined(names, a) == Joined(names, b)
  {
    if names != [] { JoinedAgrees(names[1..], a, b); }
  }

  lemma AscendingMore(n: string, rest: seq<string>)
    requires Ascending(rest) && forall m :: m in rest ==> Lt(n, m)
    ensures Ascending([n] + rest) && Elements([n] + rest) == {n} + Elements(rest)
  {
    hide Lt;
    var all := [n] + rest;
    forall i, j | 0 <= i < j < |all| ensures Lt(all[i], all[j]) { assert all[j] == rest[j - 1] && all[j] in rest; }
    forall m ensures m in Elements(all) <==> m in {n} + Elements(rest) {}
  }

  lemma SmallestFirst(names: set<string>, n: string)
    requires n in names && forall m :: m in names && m != n ==> Lt(n, m)
    ensures SortedNames(names) == [n] + SortedNames(names - {n})
  {
    hide Lt, SortedNames, Ascending, Elements;
    var rest := SortedNames(names - {n});
    AscendingMore(n, rest);
    assert {n} + (names - {n}) == names;
    AscendingIsUnique(SortedNames(names), [n] + rest);
  }

  lemma JoinedHead(n: string, rest: seq<string>, labels: Labels)
    requires n in labels && forall m :: m in rest ==> m in labels
    ensures Joined([n] + rest, labels)
            == n + [SEPARATOR] + labels[n] + if rest == [] then "" else [SEPARATOR] + Joined(rest, labels)
  {
    var names := [n] + rest;
    assert names[0..] == names && names[0 + 1..] == rest;
    JoinedStep(names, labels, 0);
  }

  /** The whole key, label after label in the order of the names: the smallest name, 0xFF, its value,
      and, if there are more labels, 0xFF and the key of the rest. */
  lemma KeyIsSpelledOut(labels: Labels, n: string)
    requires n in labels && forall m :: m in labels && m != n ==> Lt(n, m)
    ensures KeyOf(labels) == n + [255 as char] + labels[n] + if |labels| == 1 then "" else [255 as char] + KeyOf(labels - {n})
    ensures KeyOf(map[]) == ""
  {
    hide Lt, Joined, SortedNames;
    var others := labels - {n};
    var rest := SortedNames(others.Keys);
    assert others.Keys == labels.Keys - {n} && |others| == |labels| - 1;
    SmallestFirst(labels.Keys, n);
    SortedNamesLength(others.Keys);
    JoinedAgrees(rest, labels, others);
    JoinedHead(n, rest, labels);
    NoLabelsNoKey(map[]);
  }

  /** The label `y` folded into the value of `x`. */
  function Folded(labels: Labels, x: string, y: string): Labels
    requires x in labels && y in labels
  {
    (labels - {y})[x := labels[x] + [SEPARATOR] + y + [SEPARATOR] + labels[y]]
  }

  lemma JoinedFoldHead(x: string, y: string, rest: seq<string>, labels: Labels)
    requires x != y && x !in rest && y !in rest && x in labels && y in labels && forall n :: n in rest ==> n in labels
    ensures forall n :: n in [x] + rest ==> n in Folded(labels, x, y)
    ensures Joined([x] + rest, Folded(labels, x, y)) == Joined([x, y] + rest, labels)
  {
    var b := Folded(labels, x, y);
    JoinedAgrees(rest, labels, b);
    assert ([x] + rest)[1..] == rest;
    assert ([x, y] + rest)[1..] == [y] + rest && ([y] + rest)[1..] == rest;
    var key := x + [SEPARATOR] + (labels[x] + [SEPARATOR] + y + [SEPARATOR] + labels[y]);
    assert key == x + [SEPARATOR] + labels[x] + [SEPARATOR] + (y + [SEPARATOR] + labels[y]);
    if rest != [] {
      var more := Joined(rest, labels);
      assert key + [SEPARATOR] + more
          == x + [SEPARATOR] + labels[x] + [SEPARATOR] + (y + [SEPARATOR] + labels[y] + [SEPARATOR] + more);
    }
  }

  lemma {:induction false} JoinedFold(before: seq<string>, x: string, y: string, rest: seq<string>, labels: Labels)
    requires x != y && x !in before + rest && y !in before + rest && x in labels && y in labels
    requires forall n :: n in before + rest ==> n in labels
    ensures forall n :: n in before + [x] + rest ==> n in Folded(labels, x, y)
    ensures Joined(before + [x] + rest, Folded(labels, x, y)) == Joined(before + [x, y] + rest, labels)
  {
    if before == [] {
      assert before + [x] + rest == [x] + rest && before + [x, y] + rest == [x, y] + rest;
      JoinedFoldHead(x, y, rest, labels);
    } else {
      JoinedFold(before[1..], x, y, rest, labels);
      assert (before + [x] + rest)[1..] == before[1..] + [x] + rest;
      assert (before + [x, y] + rest)[1..] == before[1..] + [x, y] + rest;
    }
  }

  /** Folding a label into the one before it keeps the key. */
  lemma FoldKeepsKey(labels: Labels, k: nat)
    requires k + 1 < |SortedNames(labels.Keys)|
    ensures var names := SortedNames(labels.Keys);
            names[k] != names[k + 1] && KeyOf(Folded(labels, names[k], names[k + 1])) == KeyOf(labels)
  {
    hide Lt, Ascending, Elements, Joined, SortedNames;
    var names := SortedNames(labels.Keys);
    var before, x, y, rest := names[..k], names[k], names[k + 1], names[k + 2..];
    assert names == before + [x, y] + rest;
    SplitAscending(before, x, y, rest);
    JoinedFold(before, x, y, rest, labels);
    AscendingIsUnique(SortedNames(Folded(labels, x, y).Keys), before + [x] + rest);
  }

  lemma SplitAscending(before: seq<string>, x: string, y: string, rest: seq<string>)
    requires Ascending(before + [x, y] + rest)
    ensures x != y && x !in before + rest && y !in before + rest && Ascending(before + [x] + rest)
    ensures Elements(before + [x] + rest) == Elements(before + [x, y] + rest) - {y}
  {
    var all, k := before + [x, y] + rest, |before|;
    var one := before + [x] + rest;
    hide Lt;
    forall i, j | 0 <= i < j < |all| ensures all[i] != all[j] { LtTrichotomy(all[i], all[j]); }
    assert all[k] == x && all[k + 1] == y;
    forall n | n in before + rest ensures n != x && n != y {
      var i :| 0 <= i < |before + rest| && (before + rest)[i] == n;
      assert n == all[if i < k then i else i + 2];
    }
    forall i | 0 <= i < |one| ensures one[i] == all[if i <= k then i else i + 1] {}
  }

  /** No other map has the key. */
  ghost predicate OwnsKey(a: Labels) {
    forall b :: KeyOf(b) == KeyOf(a) ==> b == a
  }

  lemma OneLabel(a: Labels)
    requires |a| == 1
    ensures exists n :: n in a && a == map[n := a[n]] && KeyOf(a) == n + [SEPARATOR] + a[n]
  {
    SortedNamesLength(a.Keys);
    var n := SortedNames(a.Keys)[0];
    assert SortedNames(a.Keys) == [n] && n in a;
    forall o | o in a ensures o == n { assert o in SortedNames(a.Keys); }
    assert a == map[n := a[n]];
  }

  lemma KeyOfOne(n: string, v: string)
    ensures KeyOf(map[n := v]) == n + [SEPARATOR] + v
  {
    var a: Labels := map[n := v];
    assert |a.Keys| == 1;
    OneLabel(a);
  }

  lemma SplitAtSeparator(s: string) returns (p: string, q: string)
    requires !Clean(s)
    ensures s == p + [SEPARATOR] + q
  {
    var i :| 0 <= i < |s| && s[i] == SEPARATOR;
    p, q := s[..i], s[i + 1..];
  }

  lemma UncleanNameShares(n: string, v: string)
    requires !Clean(n)
    ensures !OwnsKey(map[n := v])
  {
    var p, q := SplitAtSeparator(n);
    assert n + [SEPARATOR] + v == p + [SEPARATOR] + (q + [SEPARATOR] + v);
    KeyOfOne(n, v);
    KeyOfOne(p, q + [SEPARATOR] + v);
    assert n !in map[p := q + [SEPARATOR] + v];
  }

  lemma UncleanValueShares(n: string, v: string)
    requires !Clean(v)
    ensures !OwnsKey(map[n := v])
  {
    var p, q := SplitAtSeparator(v);
    assert n + [SEPARATOR] + v == (n + [SEPARATOR] + p) + [SEPARATOR] + q;
    KeyOfOne(n, v);
    KeyOfOne(n + [SEPARATOR] + p, q);
    assert n !in map[n + [SEPARATOR] + p := q];
  }

  /** A separator in the only label allows the boundary between name and value to move. */
  lemma UncleanLabelShares(a: Labels)
    requires |a| == 1 && !CleanLabels(a)
    ensures !OwnsKey(a)
  {
    hide OwnsKey;
    OneLabel(a);
    var n :| n in a && a == map[n := a[n]] && KeyOf(a) == n + [SEPARATOR] + a[n];
    if !Clean(n) { UncleanNameShares(n, a[n]); } else { UncleanValueShares(n, a[n]); }
  }

  /** Among all label maps a key belongs to one map only exactly if that map has at most one label and
      no separator byte in it: every map with two labels shares its key with one whose value has a
      separator. */
  lemma KeyIsOwnIff(a: Labels)
    ensures (forall b :: KeyOf(b) == KeyOf(a) ==> b == a)
            <==> |a| <= 1 && forall n :: n in a ==> 255 as char !in n && 255 as char !in a[n]
  {
    assert OwnsKey(a) <==> forall b :: KeyOf(b) == KeyOf(a) ==> b == a;
    SortedNamesLength(a.Keys);
    if |a| >= 2 {
      var names := SortedNames(a.Keys);
      FoldKeepsKey(a, 0);
      assert names[1] in a && names[1] !in Folded(a, names[0], names[1]);
      assert KeyOf(Folded(a, names[0], names[1])) == KeyOf(a);
    } else if !CleanLabels(a) {
      UncleanLabelShares(a);
    } else {
      forall b | KeyOf(b) == KeyOf(a) ensures b == a {
        if b == map[] { assert CleanLabels(b); }
        KeysAreUnique(a, b);
      }
    }
  }

  // ------------------------------------------------------------ maps as the handlers build them

  /** Names are legal, hence free of the separator byte, and there is a job; values are any bytes. */
  predicate FromHandler(a: Labels) {
    JOB_LABEL in a && forall n :: n in a ==> Clean(n)
  }

  ghost predicate OwnsKeyAmongHandled(a: Labels) {
    forall b :: FromHandler(b) && KeyOf(b) == KeyOf(a) ==> b == a
  }

  lemma OneNameFirst(a: Labels, b: Labels)
    requires |b| == 1 && FromHandler(b) && (forall n :: n in a ==> Clean(n)) && a != map[] && KeyOf(a) == KeyOf(b)
    ensures SortedNames(a.Keys)[0] == JOB_LABEL
  {
    hide SortedNames, KeyOf;
    OneLabel(b);
    var m :| m in b && b == map[m := b[m]] && KeyOf(b) == m + [SEPARATOR] + b[m];
    var rest := FirstName(a);
    SameCleanPrefix(SortedNames(a.Keys)[0], m, rest, b[m]);
  }

  lemma FirstName(a: Labels) returns (rest: string)
    requires a != map[]
    ensures SortedNames(a.Keys) != [] && SortedNames(a.Keys)[0] in a
    ensures KeyOf(a) == SortedNames(a.Keys)[0] + [SEPARATOR] + rest
  {
    hide Joined, SortedNames;
    var names := SortedNames(a.Keys);
    SortedNamesLength(a.Keys);
    assert a.Keys != {};
    assert names[0] in a.Keys && names[0..] == names;
    var value, more := a[names[0]], if |names| > 1 then [SEPARATOR] + Joined(names[1..], a) else "";
    JoinedStep(names, a, 0);
    rest := value + more;
    assert names[0] + [SEPARATOR] + rest == names[0] + [SEPARATOR] + value + more;
  }

  /** Among the maps the handlers build, a map without separators owns its key exactly if every name
      but the smallest is `job`, so that no label can be folded into the one before it. */
  lemma HandledKeyIsOwnIff(a: Labels)
    requires "job" in a && forall n :: n in a ==> 255 as char !in n && 255 as char !in a[n]
    ensures (forall b: Labels :: "job" in b && (forall n :: n in b ==> 255 as char !in n) && KeyOf(b) == KeyOf(a) ==> b == a)
            <==> forall k :: 0 < k < |SortedNames(a.Keys)| ==> SortedNames(a.Keys)[k] == "job"
  {
    hide KeyOf, SortedNames, Joined;
    assert OwnsKeyAmongHandled(a)
           <==> forall b: Labels :: "job" in b && (forall n :: n in b ==> 255 as char !in n) && KeyOf(b) == KeyOf(a) ==> b == a;
    var names := SortedNames(a.Keys);
    SortedNamesLength(a.Keys);
    if k :| 0 < k < |names| && names[k] != JOB_LABEL {
      FoldKeepsKey(a, k - 1);
      var b := Folded(a, names[k - 1], names[k]);
      assert names[k] in a && names[k] !in b && names[k - 1] in a;
      assert FromHandler(b);
    } else {
      forall b | FromHandler(b) && KeyOf(b) == KeyOf(a) ensures b == a {
        NotFewerLabels(a, b);
        KeysAreUnique(a, b);
      }
    }
  }

  lemma NeighboursDiffer(names: seq<string>, k: nat)
    requires Ascending(names) && k + 1 < |names|
    ensures names[k] != names[k + 1]
  {
    LtTrichotomy(names[k], names[k + 1]);
  }

  lemma AtMostTwo(names: seq<string>)
    requires Ascending(names) && forall k :: 0 < k < |names| ==> names[k] == JOB_LABEL
    ensures |names| <= 2
  {
    if |names| > 2 { NeighboursDiffer(names, 1); }
  }

  lemma NotFewerLabels(a: Labels, b: Labels)
    requires FromHandler(a) && FromHandler(b) && KeyOf(a) == KeyOf(b)
    requires forall k :: 0 < k < |SortedNames(a.Keys)| ==> SortedNames(a.Keys)[k] == JOB_LABEL
    ensures |a| <= |b|
  {
    SortedNamesLength(a.Keys);
    AtMostTwo(SortedNames(a.Keys));
    assert b.Keys != {};
    if |b| < |a| {
      NeighboursDiffer(SortedNames(a.Keys), 0);
      OneNameFirst(a, b);
    }
  }
}
