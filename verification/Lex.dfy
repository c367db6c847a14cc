/** Byte-wise lexicographic order on names, as `sort.Strings` uses it. A Go string is a
    sequence of bytes; here every `char` stands for one byte. */
module Lex {

  predicate Lt(a: string, b: string) {
    if b == [] then false
    else if a == [] then true
    else if a[0] != b[0] then a[0] < b[0]
    else Lt(a[1..], b[1..])
  }

  lemma {:induction false} LtTransitive(a: string, b: string, c: string)
    requires Lt(a, b) && Lt(b, c)
    ensures Lt(a, c)
  {
    if a != [] && a[0] == b[0] == c[0] {
      LtTransitive(a[1..], b[1..], c[1..]);
    }
  }

  lemma {:induction false} LtTrichotomy(a: string, b: string)
    ensures Lt(a, b) || a == b || Lt(b, a)
    ensures !(Lt(a, b) && Lt(b, a))
    ensures Lt(a, b) ==> a != b
  {
    if a != [] && b != [] && a[0] == b[0] {
      LtTrichotomy(a[1..], b[1..]);
      assert a == [a[0]] + a[1..] && b == [b[0]] + b[1..];
    }
  }

  lemma LtUnfolds(a: string, b: string)
    requires a != "" && b != "" && a[0] == b[0]
    ensures a < b <==> a[1..] < b[1..]
    ensures FirstDifference(a, b) <==> FirstDifference(a[1..], b[1..])
  {
    assert a == [a[0]] + a[1..] && b == [b[0]] + b[1..];
    if FirstDifference(a, b) {
      var i :| 0 <= i < |a| && i < |b| && a[..i] == b[..i] && a[i] < b[i];
      assert i > 0 && a[1..][..i - 1] == a[..i][1..] && b[1..][..i - 1] == b[..i][1..];
      assert a[1..][i - 1] < b[1..][i - 1];
    }
    if FirstDifference(a[1..], b[1..]) {
      var i :| 0 <= i < |a[1..]| && i < |b[1..]| && a[1..][..i] == b[1..][..i] && a[1..][i] < b[1..][i];
      assert a[..i + 1] == [a[0]] + a[1..][..i] && b[..i + 1] == [b[0]] + b[1..][..i];
      assert a[i + 1] < b[i + 1];
    }
  }

  /** At the first index where the two differ, `a` has the smaller byte. */
  predicate FirstDifference(a: string, b: string) {
    exists i :: 0 <= i < |a| && i < |b| && a[..i] == b[..i] && a[i] < b[i]
  }

  /** The order is that of `sort.Strings`: a proper prefix comes first, and otherwise the first byte
      that differs decides. */
  lemma {:induction false} LtIs(a: string, b: string)
    ensures Lt(a, b)
            <==> (|a| < |b| && b[..|a|] == a)
                 || exists i :: 0 <= i < |a| && i < |b| && a[..i] == b[..i] && a[i] < b[i]
  {
    assert a < b <==> |a| < |b| && b[..|a|] == a;
    if b == "" || a == "" {
    } else if a[0] != b[0] {
      if a[0] < b[0] { assert a[..0] == b[..0] && a[0] < b[0]; }
      assert forall i :: 0 < i <= |a| && i <= |b| ==> a[..i][0] == a[0] && b[..i][0] == b[0];
    } else {
      LtIs(a[1..], b[1..]);
      LtUnfolds(a, b);
      assert a[1..] < b[1..] <==> |a[1..]| < |b[1..]| && b[1..][..|a[1..]|] == a[1..];
    }
  }

  /** Strictly increasing, hence without duplicates. */
  predicate Ascending(names: seq<string>) {
    forall i, j :: 0 <= i < j < |names| ==> Lt(names[i], names[j])
  }

  function Elements(names: seq<string>): set<string> {
    set n | n in names
  }

  lemma {:induction false} AscendingIsUnique(a: seq<string>, b: seq<string>)
    requires Ascending(a) && Ascending(b)
    requires Elements(a) == Elements(b)
    ensures a == b
  {
    assert b != [] ==> b[0] in Elements(b);
    if a == [] {
      assert b == [];
    } else {
      assert a[0] in Elements(a);
      var j :| 0 <= j < |b| && b[j] == a[0];
      assert b[0] in Elements(b);
      var i :| 0 <= i < |a| && a[i] == b[0];
      LtTrichotomy(a[0], b[0]);
      TailElements(a);
      TailElements(b);
      AscendingIsUnique(a[1..], b[1..]);
      assert a == [a[0]] + a[1..] && b == [b[0]] + b[1..];
    }
  }

  lemma TailElements(a: seq<string>)
    requires a != [] && Ascending(a)
    ensures Elements(a[1..]) == Elements(a) - {a[0]}
  {
    forall i | 1 <= i < |a| ensures a[i] != a[0] { LtTrichotomy(a[0], a[i]); }
    forall n | n in Elements(a) - {a[0]} ensures n in a[1..] {
      var i :| 0 <= i < |a| && a[i] == n;
      assert a[1..][i - 1] == n;
    }
  }

  ghost predicate IsFirst(m: string, names: set<string>) {
    m in names && forall n :: n in names && n != m ==> Lt(m, n)
  }

  lemma {:induction false} FirstExists(names: set<string>)
    requires names != {}
    ensures exists m :: IsFirst(m, names)
    decreases names
  {
    var x :| x in names;
    if names == {x} {
      assert IsFirst(x, names);
    } else {
      FirstExists(names - {x});
      var m :| IsFirst(m, names - {x});
      LtTrichotomy(m, x);
      if Lt(x, m) {
        forall n | n in names && n != x ensures Lt(x, n) {
          if n != m { LtTransitive(x, m, n); }
        }
        assert IsFirst(x, names);
      } else {
        assert IsFirst(m, names);
      }
    }
  }

  /** The one ascending enumeration of a finite set of names. */
  ghost function SortedNames(names: set<string>): (r: seq<string>)
    ensures Ascending(r) && Elements(r) == names
    ensures forall n :: n in r <==> n in names
    decreases names
  {
    if names == {} then []
    else
      FirstExists(names);
      var m :| IsFirst(m, names);
      var rest := SortedNames(names - {m});
      assert forall i :: 0 <= i < |rest| ==> rest[i] in names - {m};
      [m] + rest
  }

  lemma SortedNamesLength(names: set<string>)
    ensures |SortedNames(names)| == |names|
    decreases names
  {
    AscendingLength(SortedNames(names));
  }

  lemma {:induction false} AscendingLength(a: seq<string>)
    requires Ascending(a)
    ensures |Elements(a)| == |a|
  {
    if a != [] {
      TailElements(a);
      AscendingLength(a[1..]);
      assert a[0] in Elements(a);
    }
  }

  /** `sort.Strings` on the distinct keys of a map. */
  method SortStrings(names: seq<string>) returns (r: seq<string>)
    requires forall i, j :: 0 <= i < j < |names| ==> names[i] != names[j]
    ensures r == SortedNames(Elements(names))
  {
    r := [];
    for k := 0 to |names|
      invariant Ascending(r) && Elements(r) == Elements(names[..k])
    {
      assert names[k] !in Elements(names[..k]);
      r := InsertName(r, names[k]);
      assert Elements(names[..k + 1]) == Elements(names[..k]) + {names[k]};
    }
    assert names[..|names|] == names;
    AscendingIsUnique(r, SortedNames(Elements(names)));
  }

  method InsertName(s: seq<string>, n: string) returns (r: seq<string>)
    requires Ascending(s) && n !in Elements(s)
    ensures Ascending(r) && Elements(r) == Elements(s) + {n}
  {
    var k := 0;
    while k < |s| && Lt(s[k], n)
      invariant 0 <= k <= |s|
      invariant forall i :: 0 <= i < k ==> Lt(s[i], n)
    {
      k := k + 1;
    }
    r := s[..k] + [n] + s[k..];
    forall i | k <= i < |s| ensures Lt(n, s[i]) {
      assert s[k] in Elements(s);
      LtTrichotomy(s[k], n);
      if i != k { LtTransitive(n, s[k], s[i]); }
    }
    forall x | x in Elements(s) + {n} ensures x in r {
      if x == n { assert r[k] == n; }
      else {
        var i :| 0 <= i < |s| && s[i] == x;
        assert r[if i < k then i else i + 1] == x;
      }
    }
  }
}
