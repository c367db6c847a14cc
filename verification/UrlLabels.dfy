/** The label part of a grouping-key URL: parsing it (`splitLabels`) and printing it as the
    status page's delete button does (`deleteGroup`). */
module UrlLabels {
  import opened Dto
  import opened Lex
  import opened Base64
  import GroupingKey

  const BASE64_SUFFIX: string := "@base64"
  const RESERVED_PREFIX: string := "__"

  datatype ParseError =
    | OddComponents
    | ImproperLabelName(name: string)
    | InvalidBase64(name: string, text: string)

  datatype Result<+T> = Ok(value: T) | Err(error: ParseError)

  // ------------------------------------------------------------ names

  predicate IsNameStart(c: char) { 'a' <= c <= 'z' || 'A' <= c <= 'Z' || c == '_' }

  /** A label name valid under the legacy scheme. */
  predicate IsValidLabelName(n: string) {
    n != "" && IsNameStart(n[0]) && forall i :: 0 <= i < |n| ==> IsNameStart(n[i]) || '0' <= n[i] <= '9'
  }

  predicate IsPushableName(n: string) { IsValidLabelName(n) && !(RESERVED_PREFIX <= n) }

  function TrimSuffix(s: string, suffix: string): string {
    if |suffix| <= |s| && s[|s| - |suffix|..] == suffix then s[..|s| - |suffix|] else s
  }

  // ------------------------------------------------------------ splitting and joining

  /** `strings.Split(s, "/")` */
  function Split(s: string): (r: seq<string>)
    ensures |r| > 0
  {
    if s == "" then [""]
    else
      var rest := Split(s[1..]);
      if s[0] == '/' then [""] + rest else [[s[0]] + rest[0]] + rest[1..]
  }

  /** `elements.join('/')` */
  function Join(elements: seq<string>): string {
    if elements == [] then "" else if |elements| == 1 then elements[0]
    else elements[0] + "/" + Join(elements[1..])
  }

  // ------------------------------------------------------------ parsing

  /** One name and its value. */
  function ParsePair(name: string, value: string): Result<(string, string)> {
    var trimmed := TrimSuffix(name, BASE64_SUFFIX);
    if !IsPushableName(trimmed) then Err(ImproperLabelName(trimmed))
    else if name == trimmed then Ok((trimmed, value))
    else match DecodeBase64(value)
         case None => Err(InvalidBase64(trimmed, value))
         case Some(decoded) => Ok((trimmed, decoded))
  }

  /** Adds the pairs to `acc` from left to right; a repeated name takes its last value. */
  function ParsePairs(components: seq<string>, acc: Labels): Result<Labels> {
    if |components| < 2 then Ok(acc)
    else match ParsePair(components[0], components[1])
         case Err(e) => Err(e)
         case Ok((n, v)) => ParsePairs(components[2..], acc[n := v])
  }

  function ParseLabels(labels: string): Result<Labels> {
    if |labels| <= 1 then Ok(map[])
    else
      var components := Split(labels[1..]);
      if |components| % 2 != 0 then Err(OddComponents) else ParsePairs(components, map[])
  }

  method SplitLabels(labels: string) returns (r: Result<Labels>)
    ensures r == ParseLabels(labels)
  {
    var result: Labels := map[];
    if |labels| <= 1 {
      return Ok(result);
    }
    var components := Split(labels[1..]);
    if |components| % 2 != 0 {
      return Err(OddComponents);
    }
    var i := 0;
    while i < |components| - 1
      invariant 0 <= i <= |components| && i % 2 == 0
      invariant ParsePairs(components, map[]) == ParsePairs(components[i..], result)
    {
      ghost var todo := components[i..];
      assert todo[0] == components[i] && todo[1] == components[i + 1] && todo[2..] == components[i + 2..];
      var name, value := components[i], components[i + 1];
      i := i + 2;
      var trimmedName := TrimSuffix(name, BASE64_SUFFIX);
      if !IsValidLabelName(trimmedName) || RESERVED_PREFIX <= trimmedName {
        return Err(ImproperLabelName(trimmedName));
      }
      if name == trimmedName {
        result := result[trimmedName := value];
        continue;
      }
      var decodedValue := DecodeBase64(value);
      if decodedValue.None? {
        return Err(InvalidBase64(trimmedName, value));
      }
      result := result[trimmedName := decodedValue.value];
    }
    r := Ok(result);
  }

  // ------------------------------------------------------------ printing

  /** The path elements for the labels other than `job`, in the order `names`. */
  function Elements64(names: seq<string>, encoded: Labels): seq<string>
    requires forall n :: n in names ==> n in encoded
  {
    if names == [] then []
    else if names[0] == JOB_LABEL then Elements64(names[1..], encoded)
    else [names[0] + BASE64_SUFFIX, encoded[names[0]] + "="] + Elements64(names[1..], encoded)
  }

  function GroupPath(names: seq<string>, encoded: Labels): string
    requires forall n :: n in names ==> n in encoded
  {
    var path := Join(Elements64(names, encoded));
    if |path| > 0 then "/" + path else path
  }

  /** Builds the URL of the group whose label values are given base64 encoded: the encoded job and
      the label path. The labels are visited in an arbitrary order. */
  method DeleteGroup(encoded: Labels) returns (job: string, groupPath: string, ghost order: seq<string>)
    requires JOB_LABEL in encoded
    ensures job == encoded[JOB_LABEL]
    ensures Elements(order) == encoded.Keys
    ensures groupPath == GroupPath(order, encoded)
  {
    var pathElements: seq<string> := [];
    var names := GroupingKey.InAnyOrder(encoded);
    order := names;
    for i := 0 to |names|
      invariant pathElements + Elements64(names[i..], encoded) == Elements64(names, encoded)
    {
      var ln := names[i];
      ghost var todo, before := names[i..], pathElements;
      assert todo[0] == ln && todo[1..] == names[i + 1..];
      assert ln in Elements(names);
      if ln != JOB_LABEL {
        pathElements := pathElements + [ln + BASE64_SUFFIX];
        // The padding keeps an empty value from becoming an empty component.
        pathElements := pathElements + [encoded[ln] + "="];
        assert pathElements + Elements64(todo[1..], encoded) == before + Elements64(todo, encoded);
      }
    }
    assert pathElements == Elements64(names, encoded);
    groupPath := Join(pathElements);
    if |groupPath| > 0 {
      groupPath := "/" + groupPath;
    }
    job := encoded[JOB_LABEL];
  }

  // ------------------------------------------------------------ results

  predicate NoSlash(s: string) { '/' !in s }

  lemma {:induction false} SplitElement(a: string, rest: string)
    requires NoSlash(a)
    ensures Split(a) == [a]
    ensures Split(a + "/" + rest) == [a] + Split(rest)
  {
    if a == "" {
      assert a + "/" + rest == "/" + rest;
      assert ("/" + rest)[1..] == rest;
    } else {
      SplitElement(a[1..], rest);
      assert (a + "/" + rest)[1..] == a[1..] + "/" + rest;
      assert a == [a[0]] + a[1..];
    }
  }

  lemma {:induction false} SplitInvertsJoin(elements: seq<string>)
    requires elements != [] && forall e :: e in elements ==> NoSlash(e)
    ensures Split(Join(elements)) == elements
  {
    if |elements| == 1 {
      SplitElement(elements[0], "");
    } else {
      SplitElement(elements[0], Join(elements[1..]));
      SplitInvertsJoin(elements[1..]);
      assert elements == [elements[0]] + elements[1..];
    }
  }

  lemma ParsePrintedPair(n: string, v: string)
    requires IsPushableName(n) && IsBytes(v)
    ensures ParsePair(n + BASE64_SUFFIX, Encode(v) + "=") == Ok((n, v))
    ensures NoSlash(n + BASE64_SUFFIX) && NoSlash(Encode(v) + "=")
  {
    var name := n + BASE64_SUFFIX;
    assert name[|name| - |BASE64_SUFFIX|..] == BASE64_SUFFIX;
    assert name[..|n|] == n;
    assert TrimSuffix(name, BASE64_SUFFIX) == n;
    assert Padding(1) == "=";
    Base64RoundTrip(v, 1);
    DigitsValues(Pack(v));
  }

  /** The base64 form of a label map, as the status page embeds it. */
  function EncodedValues(labels: Labels): Labels
    requires forall n :: n in labels ==> IsBytes(labels[n])
  {
    map n | n in labels :: Encode(labels[n])
  }

  predicate Printable(labels: Labels) {
    forall n :: n in labels ==> IsBytes(labels[n]) && (n != JOB_LABEL ==> IsPushableName(n))
  }

  function Restrict(names: seq<string>, labels: Labels): Labels {
    map n | n in names && n in labels && n != JOB_LABEL :: labels[n]
  }

  /** Prefixing one printed pair to elements that parse. */
  lemma ParsePrintedStep(n: string, labels: Labels, rest: seq<string>, acc: Labels)
    requires Printable(labels) && n in labels && n != JOB_LABEL
    ensures ParsePairs([n + BASE64_SUFFIX, EncodedValues(labels)[n] + "="] + rest, acc)
            == ParsePairs(rest, acc[n := labels[n]])
    ensures NoSlash(n + BASE64_SUFFIX) && NoSlash(EncodedValues(labels)[n] + "=")
  {
    ParsePrintedPair(n, labels[n]);
    var elements := [n + BASE64_SUFFIX, EncodedValues(labels)[n] + "="] + rest;
    assert elements[2..] == rest;
  }

  lemma RestrictStep(names: seq<string>, labels: Labels, acc: Labels)
    requires names != [] && names[0] in labels && names[0] != JOB_LABEL
    ensures acc[names[0] := labels[names[0]]] + Restrict(names[1..], labels) == acc + Restrict(names, labels)
  {
    var a, b := acc[names[0] := labels[names[0]]] + Restrict(names[1..], labels), acc + Restrict(names, labels);
    assert forall x :: x in names <==> x == names[0] || x in names[1..];
    assert a.Keys == b.Keys;
    forall x | x in a ensures a[x] == b[x] {}
  }

  lemma {:induction false} EvenElements(names: seq<string>, encoded: Labels)
    requires forall n :: n in names ==> n in encoded
    ensures |Elements64(names, encoded)| % 2 == 0
  {
    if names != [] { EvenElements(names[1..], encoded); }
  }

  lemma {:induction false} PrintedHasNoSlash(names: seq<string>, labels: Labels, e: string)
    requires Printable(labels) && forall n :: n in names ==> n in labels
    requires e in Elements64(names, EncodedValues(labels))
    ensures NoSlash(e)
  {
    if names != [] {
      if names[0] != JOB_LABEL { ParsePrintedStep(names[0], labels, [], map[]); }
      if e in Elements64(names[1..], EncodedValues(labels)) { PrintedHasNoSlash(names[1..], labels, e); }
    }
  }

  lemma {:induction false} ParsePrinted(names: seq<string>, labels: Labels, acc: Labels)
    requires Printable(labels) && forall n :: n in names ==> n in labels
    ensures ParsePairs(Elements64(names, EncodedValues(labels)), acc) == Ok(acc + Restrict(names, labels))
    decreases |names|
  {
    if names == [] {
      assert acc + Restrict(names, labels) == acc;
    } else {
      var n, rest := names[0], names[1..];
      if n == JOB_LABEL {
        ParsePrinted(rest, labels, acc);
        assert Restrict(names, labels) == Restrict(rest, labels);
      } else {
        ParsePrintedStep(n, labels, Elements64(rest, EncodedValues(labels)), acc);
        ParsePrinted(rest, labels, acc[n := labels[n]]);
        RestrictStep(names, labels, acc);
      }
    }
  }

  /** Printing a label map, in any order of its labels, and parsing the result gives the map back;
      the job travels separately. So a delete button reaches exactly the group it is shown for. */
  lemma PrintedGroupParsesBack(labels: Labels, order: seq<string>)
    requires Printable(labels) && JOB_LABEL in labels
    requires Elements(order) == labels.Keys
    ensures ParseLabels(GroupPath(order, EncodedValues(labels))) == Ok(labels - {JOB_LABEL})
    ensures DecodeBase64(EncodedValues(labels)[JOB_LABEL]) == Some(labels[JOB_LABEL])
    ensures (labels - {JOB_LABEL})[JOB_LABEL := labels[JOB_LABEL]] == labels
  {
    hide ParsePairs, ParseLabels, Elements64, Encode, DecodeBase64;
    assert forall n :: n in order <==> n in Elements(order);
    JobRoundTrips(labels[JOB_LABEL]);
    ParsePrinted(order, labels, map[]);
    assert map[] + Restrict(order, labels) == labels - {JOB_LABEL};
    PathSplits(order, labels);
  }

  lemma JobRoundTrips(job: string)
    requires IsBytes(job)
    ensures DecodeBase64(Encode(job)) == Some(job)
  {
    Base64RoundTrip(job, 0);
    assert Encode(job) + Padding(0) == Encode(job);
  }

  lemma PathSplits(order: seq<string>, labels: Labels)
    requires Printable(labels) && forall n :: n in order ==> n in labels
    ensures ParseLabels(GroupPath(order, EncodedValues(labels)))
            == ParsePairs(Elements64(order, EncodedValues(labels)), map[])
  {
    var elements := Elements64(order, EncodedValues(labels));
    EvenElements(order, EncodedValues(labels));
    forall e | e in elements ensures NoSlash(e) { PrintedHasNoSlash(order, labels, e); }
    if elements != [] {
      JoinedPathIsLong(order, EncodedValues(labels));
      SplitInvertsJoin(elements);
      assert GroupPath(order, EncodedValues(labels))[1..] == Join(elements);
    }
  }

  lemma {:induction false} JoinedPathIsLong(names: seq<string>, encoded: Labels)
    requires forall n :: n in names ==> n in encoded
    requires Elements64(names, encoded) != []
    ensures |Join(Elements64(names, encoded))| >= |BASE64_SUFFIX|
  {
    if names[0] == JOB_LABEL {
      JoinedPathIsLong(names[1..], encoded);
    } else {
      assert Elements64(names, encoded)[0] == names[0] + BASE64_SUFFIX;
    }
  }

  /** What is accepted can only carry legal names: no parsed path yields a reserved or invalid one. */
  lemma ParsedNamesAreLegal(labels: string)
    ensures match ParseLabels(labels)
            case Ok(m) => forall n :: n in m ==> IsPushableName(n)
            case Err(_) => true
  {
    if |labels| > 1 { ParsedPairNamesAreLegal(Split(labels[1..]), map[]); }
  }

  lemma {:induction false} ParsedPairNamesAreLegal(components: seq<string>, acc: Labels)
    requires forall n :: n in acc ==> IsPushableName(n)
    ensures match ParsePairs(components, acc)
            case Ok(m) => forall n :: n in m ==> IsPushableName(n)
            case Err(_) => true
    decreases |components|
  {
    if |components| >= 2 {
      match ParsePair(components[0], components[1])
      case Ok((n, v)) => ParsedPairNamesAreLegal(components[2..], acc[n := v]);
      case Err(_) =>
    }
  }
}
