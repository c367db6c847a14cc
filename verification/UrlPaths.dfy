/** Which label paths the handlers accept, what they make of them, and which error they report for the
    others; and the paths of a label map, in any order and any mixture of plain and base64 values. */
module UrlPaths {
  import opened Dto
  import opened Lex
  import opened Base64
  import opened UrlLabels

  // ------------------------------------------------------------ components and pairs

  /** Splitting loses nothing, and leaves no slash. */
  lemma {:induction false} JoinInvertsSplit(s: string)
    ensures Join(Split(s)) == s && forall e :: e in Split(s) ==> '/' !in e
  {
    if s != "" {
      JoinInvertsSplit(s[1..]);
      var rest, all := Split(s[1..]), Split(s);
      assert s == [s[0]] + s[1..];
      assert rest == [rest[0]] + rest[1..];
      if s[0] == '/' {
        assert all[1..] == rest;
      } else {
        assert all[1..] == rest[1..];
      }
    }
  }

  /** Components two by two: a name and its value. */
  function PairUp(c: seq<string>): (r: seq<(string, string)>)
    ensures |r| == |c| / 2 && forall i :: 0 <= i < |r| ==> r[i] == (c[2 * i], c[2 * i + 1])
  {
    seq(|c| / 2, i requires 0 <= i < |c| / 2 => (c[2 * i], c[2 * i + 1]))
  }

  lemma PairUpTail(c: seq<string>)
    requires |c| >= 2
    ensures PairUp(c) == [(c[0], c[1])] + PairUp(c[2..])
  {
    var p, q := PairUp(c), [(c[0], c[1])] + PairUp(c[2..]);
    forall i | 0 <= i < |p| ensures p[i] == q[i] {
      if i > 0 { assert c[2..][2 * (i - 1)] == c[2 * i] && c[2..][2 * (i - 1) + 1] == c[2 * i + 1]; }
    }
  }

  /** The component announces a base64 value. */
  predicate IsCoded(component: string) { |component| >= 7 && component[|component| - 7..] == "@base64" }

  function LabelName(component: string): string {
    if IsCoded(component) then component[..|component| - 7] else component
  }

  predicate LegalName(n: string) {
    && n != "" && !('0' <= n[0] <= '9')
    && (forall i :: 0 <= i < |n| ==>
          'a' <= n[i] <= 'z' || 'A' <= n[i] <= 'Z' || '0' <= n[i] <= '9' || n[i] == '_')
    && !(|n| >= 2 && n[0] == '_' && n[1] == '_')
  }

  lemma LegalIsPushable(n: string)
    ensures LegalName(n) <==> IsPushableName(n)
  {
    assert RESERVED_PREFIX <= n <==> |n| >= 2 && n[0] == '_' && n[1] == '_';
  }

  predicate GoodPair(p: (string, string)) {
    LegalName(LabelName(p.0)) && (IsCoded(p.0) ==> DecodeBase64(p.1).Some?)
  }

  function PairValue(p: (string, string)): string
    requires GoodPair(p)
  {
    if IsCoded(p.0) then DecodeBase64(p.1).value else p.1
  }

  function PairError(p: (string, string)): ParseError {
    if LegalName(LabelName(p.0)) then InvalidBase64(LabelName(p.0), p.1) else ImproperLabelName(LabelName(p.0))
  }

  lemma PairIs(name: string, value: string)
    ensures ParsePair(name, value)
            == if GoodPair((name, value)) then Ok((LabelName(name), PairValue((name, value))))
               else Err(PairError((name, value)))
  {
    LegalIsPushable(LabelName(name));
    assert TrimSuffix(name, BASE64_SUFFIX) == LabelName(name);
    assert name == LabelName(name) <==> !IsCoded(name);
  }

  // ------------------------------------------------------------ what a path means

  /** The pair in that place is the first one that is wrong. */
  ghost predicate FirstBad(p: seq<(string, string)>, i: int) {
    0 <= i < |p| && !GoodPair(p[i]) && forall j :: 0 <= j < i ==> GoodPair(p[j])
  }

  /** No later pair has the same name. */
  ghost predicate IsLast(p: seq<(string, string)>, i: int) {
    0 <= i < |p| && forall j :: i < j < |p| ==> LabelName(p[j].0) != LabelName(p[i].0)
  }

  ghost predicate Named(p: seq<(string, string)>, n: string) {
    exists i :: 0 <= i < |p| && LabelName(p[i].0) == n
  }

  /** `m` is `acc` with the pairs added; a repeated name has its last value. */
  ghost predicate Collects(p: seq<(string, string)>, acc: Labels, m: Labels) {
    && (forall i :: 0 <= i < |p| ==> GoodPair(p[i]))
    && (forall n :: n in m <==> n in acc || Named(p, n))
    && (forall n :: n in acc && !Named(p, n) ==> m[n] == acc[n])
    && forall i :: 0 <= i < |p| && IsLast(p, i) ==> LabelName(p[i].0) in m && m[LabelName(p[i].0)] == PairValue(p[i])
  }

  lemma NamedMore(x: (string, string), p: seq<(string, string)>, n: string)
    ensures Named([x] + p, n) <==> LabelName(x.0) == n || Named(p, n)
  {
    var q := [x] + p;
    if Named(p, n) {
      var i :| 0 <= i < |p| && LabelName(p[i].0) == n;
      assert q[i + 1] == p[i];
    }
    if LabelName(x.0) == n { assert q[0] == x; }
    if Named(q, n) {
      var i :| 0 <= i < |q| && LabelName(q[i].0) == n;
      if i > 0 { assert p[i - 1] == q[i]; }
    }
  }

  lemma LastMore(x: (string, string), p: seq<(string, string)>, i: int)
    requires IsLast([x] + p, i)
    ensures if i == 0 then !Named(p, LabelName(x.0)) else IsLast(p, i - 1) && p[i - 1] == ([x] + p)[i]
  {
    hide LabelName;
    var q := [x] + p;
    assert forall j :: 0 <= j < |p| ==> p[j] == q[j + 1];
  }

  lemma CollectsMore(x: (string, string), p: seq<(string, string)>, acc: Labels, m: Labels)
    requires GoodPair(x) && Collects(p, acc[LabelName(x.0) := PairValue(x)], m)
    ensures Collects([x] + p, acc, m)
  {
    hide LabelName, GoodPair, PairValue, Named, IsLast;
    var q, name := [x] + p, LabelName(x.0);
    forall n ensures Named(q, n) <==> name == n || Named(p, n) { NamedMore(x, p, n); }
    assert forall i :: 0 <= i < |q| ==> GoodPair(q[i]) by { assert forall i :: 0 < i < |q| ==> q[i] == p[i - 1]; }
    forall i | 0 <= i < |q| && IsLast(q, i) ensures LabelName(q[i].0) in m && m[LabelName(q[i].0)] == PairValue(q[i]) {
      LastMore(x, p, i);
    }
  }

  lemma FirstBadMore(x: (string, string), p: seq<(string, string)>, i: int)
    requires GoodPair(x) && FirstBad(p, i)
    ensures FirstBad([x] + p, i + 1) && ([x] + p)[i + 1] == p[i]
  {
    hide GoodPair;
    assert forall j :: 0 <= j < |p| ==> p[j] == ([x] + p)[j + 1];
  }

  ghost predicate Parses(r: Result<Labels>, p: seq<(string, string)>, acc: Labels) {
    match r
    case Ok(m) => Collects(p, acc, m)
    case Err(e) => exists i :: 0 <= i < |p| && FirstBad(p, i) && e == PairError(p[i])
  }

  lemma NothingParses(acc: Labels)
    ensures Collects([], acc, acc)
  {}

  lemma BadHead(x: (string, string), p: seq<(string, string)>, acc: Labels)
    requires !GoodPair(x)
    ensures Parses(Err(PairError(x)), [x] + p, acc)
  {
    hide GoodPair, PairError;
    assert FirstBad([x] + p, 0) && ([x] + p)[0] == x;
  }

  lemma GoodHead(x: (string, string), p: seq<(string, string)>, acc: Labels, r: Result<Labels>)
    requires GoodPair(x) && Parses(r, p, acc[LabelName(x.0) := PairValue(x)])
    ensures Parses(r, [x] + p, acc)
  {
    hide GoodPair, PairError, PairValue, LabelName, FirstBad, Collects;
    match r
    case Ok(m) => CollectsMore(x, p, acc, m);
    case Err(e) =>
      var i :| 0 <= i < |p| && FirstBad(p, i) && e == PairError(p[i]);
      FirstBadMore(x, p, i);
  }

  lemma {:induction false} PairsParse(c: seq<string>, acc: Labels)
    requires |c| % 2 == 0
    ensures Parses(ParsePairs(c, acc), PairUp(c), acc)
    decreases |c|
  {
    hide GoodPair, PairError, PairValue, LabelName, FirstBad, Collects, Parses, ParsePair;
    if c == [] {
      NothingParses(acc);
      assert PairUp(c) == [];
      ParsesNothing(acc);
    } else {
      var x := (c[0], c[1]);
      PairUpTail(c);
      PairIs(c[0], c[1]);
      if GoodPair(x) {
        PairsParse(c[2..], acc[LabelName(x.0) := PairValue(x)]);
        GoodHead(x, PairUp(c[2..]), acc, ParsePairs(c, acc));
      } else {
        BadHead(x, PairUp(c[2..]), acc);
      }
    }
  }

  lemma ParsesNothing(acc: Labels)
    requires Collects([], acc, acc)
    ensures Parses(Ok(acc), [], acc)
  {}

  /** What any label path gives. A path of at most one character is empty. An odd number of components
      is an error. Otherwise the first pair that is wrong decides about the error: an improper name, or
      else a base64 value that does not decode. If none is wrong, the names are those of the pairs, and
      each has the value of its last pair, as it is or decoded. */
  lemma ParsedPathIs(labels: string)
    ensures |labels| <= 1 ==> ParseLabels(labels) == Ok(map[])
    ensures |labels| > 1 ==>
              var c := Split(labels[1..]);
              var p := PairUp(c);
              if |c| % 2 == 1 then ParseLabels(labels) == Err(OddComponents)
              else match ParseLabels(labels)
                case Err(e) => exists i :: 0 <= i < |p| && FirstBad(p, i) && e == PairError(p[i])
                case Ok(m) =>
                  && (forall i :: 0 <= i < |p| ==> GoodPair(p[i]))
                  && (forall n :: n in m <==> exists i :: 0 <= i < |p| && LabelName(p[i].0) == n)
                  && (forall i :: 0 <= i < |p| && IsLast(p, i) ==> m[LabelName(p[i].0)] == PairValue(p[i]))
  {
    hide GoodPair, PairError, PairValue, LabelName, FirstBad, ParsePairs;
    if |labels| > 1 && |Split(labels[1..])| % 2 == 0 { PairsParse(Split(labels[1..]), map[]); }
  }

  // ------------------------------------------------------------ writing paths

  datatype Form = Plain | Coded(padding: nat)

  /** A label to be written, and the form to write it in. */
  datatype Piece = Piece(name: string, value: string, form: Form)

  /** Legal names; a plain value has no slash, a base64 one consists of bytes. */
  predicate Writable(x: Piece) {
    LegalName(x.name) && if x.form.Plain? then '/' !in x.value else forall i :: 0 <= i < |x.value| ==> x.value[i] as int < 256
  }

  function Components(x: Piece): (string, string)
    requires Writable(x)
  {
    match x.form
    case Plain => (x.name, x.value)
    case Coded(padding) => (x.name + "@base64", Encode(x.value) + Padding(padding))
  }

  function Written(ps: seq<Piece>): (r: seq<string>)
    requires forall x :: x in ps ==> Writable(x)
    ensures |r| == 2 * |ps|
    ensures forall i :: 0 <= i < |ps| ==> (r[2 * i], r[2 * i + 1]) == Components(ps[i])
  {
    if ps == [] then []
    else
      var last := Components(ps[|ps| - 1]);
      Written(ps[..|ps| - 1]) + [last.0, last.1]
  }

  lemma PieceIs(x: Piece)
    requires Writable(x)
    ensures var p := Components(x);
            && '/' !in p.0 && '/' !in p.1 && p.0 != ""
            && LabelName(p.0) == x.name && GoodPair(p) && PairValue(p) == x.value
  {
    LegalIsPushable(x.name);
    match x.form
    case Plain =>
      assert |x.name| >= 7 ==> x.name[|x.name| - 7..][0] == x.name[|x.name| - 7];
    case Coded(padding) =>
      var name := x.name + "@base64";
      assert name[|name| - 7..] == "@base64" && name[..|x.name|] == x.name;
      Base64RoundTrip(x.value, padding);
      EncodedHasNoSlash(x.value, padding);
  }

  lemma EncodedHasNoSlash(v: string, padding: nat)
    requires IsBytes(v)
    ensures '/' !in Encode(v) + Padding(padding)
  {
    DigitsValues(Pack(v));
    var e := Encode(v);
    forall i | 0 <= i < |e| ensures e[i] != '/' { assert Value(e[i]).Some?; }
  }

  /** Writing labels in any order, each plain or in base64 with any padding, and parsing the path gives
      the labels; a name written twice has its last value. */
  lemma WrittenPathParses(ps: seq<Piece>)
    requires forall x :: x in ps ==> Writable(x)
    ensures match ParseLabels("/" + Join(Written(ps)))
            case Err(_) => false
            case Ok(m) =>
              && (forall n :: n in m <==> exists i :: 0 <= i < |ps| && ps[i].name == n)
              && (forall i :: 0 <= i < |ps| && (forall j :: i < j < |ps| ==> ps[j].name != ps[i].name) ==>
                    m[ps[i].name] == ps[i].value)
  {
    hide Writable, GoodPair, PairValue, LabelName, ParseLabels, Join, Split, Written, PairUp, IsLast;
    var path := "/" + Join(Written(ps));
    ParsedPathIs(path);
    PathOfPieces(ps);
    if ps != [] {
      var p := PairUp(Split(path[1..]));
      WrittenPairs(ps);
      forall i | 0 <= i < |ps| && (forall j :: i < j < |ps| ==> ps[j].name != ps[i].name) ensures IsLast(p, i) {
        LastPiece(ps, p, i);
      }
    }
  }

  lemma LastPiece(ps: seq<Piece>, p: seq<(string, string)>, i: nat)
    requires |p| == |ps| && i < |ps| && forall j :: 0 <= j < |ps| ==> LabelName(p[j].0) == ps[j].name
    requires forall j :: i < j < |ps| ==> ps[j].name != ps[i].name
    ensures IsLast(p, i)
  {}

  lemma WrittenPairs(ps: seq<Piece>)
    requires forall x :: x in ps ==> Writable(x)
    ensures var p := PairUp(Written(ps));
            |p| == |ps| && forall i :: 0 <= i < |ps| ==>
              LabelName(p[i].0) == ps[i].name && GoodPair(p[i]) && PairValue(p[i]) == ps[i].value
  {
    hide Writable, GoodPair, PairValue, LabelName, Components, Written;
    forall i | 0 <= i < |ps|
      ensures var x := PairUp(Written(ps))[i]; LabelName(x.0) == ps[i].name && GoodPair(x) && PairValue(x) == ps[i].value
    {
      PieceIs(ps[i]);
    }
  }

  lemma PathOfPieces(ps: seq<Piece>)
    requires forall x :: x in ps ==> Writable(x)
    ensures ps == [] ==> |"/" + Join(Written(ps))| == 1
    ensures ps != [] ==> |"/" + Join(Written(ps))| > 1 && Split(("/" + Join(Written(ps)))[1..]) == Written(ps)
  {
    hide Writable, Components, Written, Join, Split, GoodPair, PairValue, LabelName;
    var c := Written(ps);
    if ps == [] {
      JoinNothing();
      assert c == [];
    } else {
      forall e | e in c ensures '/' !in e { NoSlashWritten(ps, e); }
      PieceIs(ps[0]);
      assert (c[2 * 0], c[2 * 0 + 1]) == Components(ps[0]);
      SplitInvertsJoin(c);
      JoinIsLong(c);
      assert ("/" + Join(c))[1..] == Join(c);
    }
  }

  lemma JoinNothing()
    ensures Join([]) == ""
  {}

  lemma JoinIsLong(c: seq<string>)
    requires |c| >= 2
    ensures |Join(c)| > 0
  {}

  lemma NoSlashWritten(ps: seq<Piece>, e: string)
    requires (forall x :: x in ps ==> Writable(x)) && e in Written(ps)
    ensures '/' !in e
  {
    hide Writable, Components, Written, GoodPair, PairValue, LabelName;
    var c := Written(ps);
    var i :| 0 <= i < |c| && c[i] == e;
    var k := i / 2;
    assert (c[2 * k], c[2 * k + 1]) == Components(ps[k]);
    PieceIs(ps[k]);
  }

  // ------------------------------------------------------------ label maps

  function Pieces(order: seq<string>, labels: Labels, forms: map<string, Form>): (r: seq<Piece>)
    requires forall n :: n in order ==> n in labels && n in forms
    ensures |r| == |order| && forall i :: 0 <= i < |r| ==> r[i] == Piece(order[i], labels[order[i]], forms[order[i]])
  {
    seq(|order|, i requires 0 <= i < |order| => Piece(order[i], labels[order[i]], forms[order[i]]))
  }

  /** A label map, written in any order and with any choice of plain and base64 values, parses back to
      itself. */
  lemma MixedPathParsesBack(labels: Labels, order: seq<string>, forms: map<string, Form>)
    requires Elements(order) == labels.Keys && labels.Keys <= forms.Keys
    requires forall n :: n in labels ==> Writable(Piece(n, labels[n], forms[n]))
    ensures (forall n :: n in order ==> n in labels && n in forms)
            && (forall x :: x in Pieces(order, labels, forms) ==> Writable(x))
            && ParseLabels("/" + Join(Written(Pieces(order, labels, forms)))) == Ok(labels)
  {
    hide Writable, Written, ParseLabels, Join;
    forall n | n in order ensures n in labels && n in forms { assert n in Elements(order); }
    var ps := Pieces(order, labels, forms);
    WrittenPathParses(ps);
    var m := ParseLabels("/" + Join(Written(ps))).value;
    forall n | n in labels ensures n in m && m[n] == labels[n] {
      assert n in Elements(order);
      LastOf(order, n);
      var i :| 0 <= i < |order| && order[i] == n && forall j :: i < j < |order| ==> order[j] != n;
      assert ps[i].name == n;
    }
    forall n | n in m ensures n in labels {
      var i :| 0 <= i < |ps| && ps[i].name == n;
      assert n in order;
    }
    assert m == labels;
  }

  lemma {:induction false} LastOf(order: seq<string>, n: string)
    requires n in order
    ensures exists i :: 0 <= i < |order| && order[i] == n && forall j :: i < j < |order| ==> order[j] != n
  {
    var last := |order| - 1;
    var rest := order[..last];
    if order[last] == n {
      assert order[last] == n;
    } else {
      assert order == rest + [order[last]];
      LastOf(rest, n);
      var i :| 0 <= i < last && rest[i] == n && forall j :: i < j < last ==> rest[j] != n;
      forall j | i < j < |order| ensures order[j] != n { if j < last { assert order[j] == rest[j]; } }
      assert order[i] == n;
    }
  }
}
