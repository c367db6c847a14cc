/** Base 64 with the URL and filename safe alphabet, unpadded (section 5 of RFC 4648), as the
    grouping-key URLs use it. */
module Base64 {
  import opened Dto

  /** Six bits, the content of one digit. */
  type Sextet = v: int | 0 <= v < 64

  predicate IsBytes(s: string) { forall i :: 0 <= i < |s| ==> s[i] as int < 256 }

  function Digit(v: Sextet): char {
    if v < 26 then (v + 65) as char        // A-Z
    else if v < 52 then (v + 71) as char   // a-z
    else if v < 62 then (v - 4) as char    // 0-9
    else if v == 62 then '-' else '_'
  }

  /** The value of a character of the alphabet. */
  function Value(c: char): Option<Sextet> {
    if 'A' <= c <= 'Z' then Some(c as int - 65)
    else if 'a' <= c <= 'z' then Some(c as int - 71)
    else if '0' <= c <= '9' then Some(c as int + 4)
    else if c == '-' then Some(62)
    else if c == '_' then Some(63) else None
  }

  predicate InAlphabet(s: string) { forall i :: 0 <= i < |s| ==> Value(s[i]).Some? }

  /** Regroups bytes into sextets; a short last quantum is filled up with zero bits. */
  function Pack(s: string): seq<Sextet>
    requires IsBytes(s)
  {
    if s == "" then []
    else
      var a := s[0] as int;
      if |s| == 1 then [a / 4, a % 4 * 16]
      else
        var b := s[1] as int;
        if |s| == 2 then [a / 4, a % 4 * 16 + b / 16, b % 16 * 4]
        else
          var c := s[2] as int;
          [a / 4, a % 4 * 16 + b / 16, b % 16 * 4 + c / 64, c % 64] + Pack(s[3..])
  }

  /** Regroups sextets into bytes; the unused low bits of a short last quantum are ignored. */
  function Unpack(d: seq<Sextet>): Option<string> {
    if d == [] then Some("")
    else if |d| == 1 then None
    else
      var v: int, w: int := d[0], d[1];
      var first := (v * 4 + w / 16) as char;
      if |d| == 2 then Some([first])
      else
        var x: int := d[2];
        var second := (w % 16 * 16 + x / 4) as char;
        if |d| == 3 then Some([first, second])
        else
          var y: int := d[3];
          var third := (x % 4 * 64 + y) as char;
          match Unpack(d[4..])
          case None => None
          case Some(rest) => Some([first, second, third] + rest)
  }

  function Digits(d: seq<Sextet>): string { seq(|d|, i requires 0 <= i < |d| => Digit(d[i])) }

  function Values(s: string): seq<Sextet>
    requires InAlphabet(s)
  {
    seq(|s|, i requires 0 <= i < |s| => Value(s[i]).value)
  }

  function Encode(s: string): string
    requires IsBytes(s)
  {
    Digits(Pack(s))
  }

  function DecodeDigits(s: string): Option<string> {
    if InAlphabet(s) then Unpack(Values(s)) else None
  }

  function TrimRight(s: string, c: char): string {
    if s != "" && s[|s| - 1] == c then TrimRight(s[..|s| - 1], c) else s
  }

  /** The decoder skips line breaks wherever they are. */
  function WithoutNewlines(s: string): string {
    if s == "" then ""
    else (if s[0] == '\n' || s[0] == '\r' then "" else [s[0]]) + WithoutNewlines(s[1..])
  }

  /** `decodeBase64`: trailing padding is ignored. */
  function DecodeBase64(s: string): Option<string> {
    DecodeDigits(WithoutNewlines(TrimRight(s, '=')))
  }

  // ------------------------------------------------------------ results

  lemma DigitValue(v: Sextet)
    ensures Value(Digit(v)) == Some(v)
  {}

  lemma DigitsValues(d: seq<Sextet>)
    ensures InAlphabet(Digits(d)) && Values(Digits(d)) == d
  {
    forall i | 0 <= i < |d| ensures Value(Digits(d)[i]) == Some(d[i]) { DigitValue(d[i]); }
  }

  /** The sextets carry all bits of the bytes. */
  lemma SextetsCarryBytes(a: int, b: int, c: int)
    requires 0 <= a < 256 && 0 <= b < 256 && 0 <= c < 256
    ensures var w, x := a % 4 * 16 + b / 16, b % 16 * 4 + c / 64;
            && w < 64 && x < 64
            && a / 4 * 4 + w / 16 == a
            && w % 16 * 16 + x / 4 == b
            && x % 4 * 64 + c % 64 == c
  {}

  lemma UnpackFour(v: Sextet, w: Sextet, x: Sextet, y: Sextet, a: char, b: char, c: char, rest: seq<Sextet>)
    requires v * 4 + w / 16 == a as int && w % 16 * 16 + x / 4 == b as int && x % 4 * 64 + y == c as int
    ensures Unpack([v, w, x, y] + rest)
            == match Unpack(rest) case None => None case Some(r) => Some([a, b, c] + r)
  {
    assert ([v, w, x, y] + rest)[4..] == rest;
  }

  lemma UnpackThree(v: Sextet, w: Sextet, x: Sextet, a: char, b: char)
    requires v * 4 + w / 16 == a as int && w % 16 * 16 + x / 4 == b as int
    ensures Unpack([v, w, x]) == Some([a, b])
  {}

  lemma PackedFour(s: string) returns (v: Sextet, w: Sextet, x: Sextet, y: Sextet)
    requires |s| >= 3 && IsBytes(s)
    ensures Pack(s) == [v, w, x, y] + Pack(s[3..])
    ensures v * 4 + w / 16 == s[0] as int && w % 16 * 16 + x / 4 == s[1] as int && x % 4 * 64 + y == s[2] as int
  {
    var a, b, c := s[0] as int, s[1] as int, s[2] as int;
    SextetsCarryBytes(a, b, c);
    v, w, x, y := a / 4, a % 4 * 16 + b / 16, b % 16 * 4 + c / 64, c % 64;
  }

  lemma PackTwo(s: string)
    requires |s| == 2 && IsBytes(s)
    ensures Unpack(Pack(s)) == Some(s)
  {
    hide Unpack;
    var a, b := s[0] as int, s[1] as int;
    SextetsCarryBytes(a, b, 0);
    UnpackThree(a / 4, a % 4 * 16 + b / 16, b % 16 * 4, s[0], s[1]);
    assert s == [s[0], s[1]];
  }

  lemma PackMore(s: string, packed: seq<Sextet>, rest: seq<Sextet>)
    requires |s| >= 3 && IsBytes(s)
    requires packed == Pack(s) && rest == Pack(s[3..]) && Unpack(rest) == Some(s[3..])
    ensures Unpack(packed) == Some(s)
  {
    var v, w, x, y := PackedFour(s);
    UnpackFour(v, w, x, y, s[0], s[1], s[2], rest);
    assert s == [s[0], s[1], s[2]] + s[3..];
  }

  lemma {:induction false} UnpackInvertsPack(s: string)
    requires IsBytes(s)
    ensures Unpack(Pack(s)) == Some(s)
  {
    if |s| == 1 {
      SextetsCarryBytes(s[0] as int, 0, 0);
      assert s == [s[0]];
    } else if |s| == 2 {
      PackTwo(s);
    } else if |s| > 2 {
      UnpackInvertsPack(s[3..]);
      PackMore(s, Pack(s), Pack(s[3..]));
    }
  }

  lemma {:induction false} NoNewlines(s: string)
    requires InAlphabet(s)
    ensures WithoutNewlines(s) == s
  {
    if s != "" {
      assert Value(s[0]).Some?;
      NoNewlines(s[1..]);
      assert s == [s[0]] + s[1..];
    }
  }

  /** Any number of trailing padding characters makes no difference, whatever precedes them. */
  lemma {:induction false} PaddingIsIgnored(s: string, n: nat)
    ensures DecodeBase64(s + Padding(n)) == DecodeBase64(s)
  {
    if n == 0 {
      assert s + Padding(0) == s;
    } else {
      var t := s + Padding(n);
      assert t[..|t| - 1] == s + Padding(n - 1);
      PaddingIsIgnored(s, n - 1);
    }
  }

  function Padding(n: nat): string { seq(n, _ => '=') }

  /** Encoding any byte string, padding it any way, and decoding gives the byte string back. */
  lemma Base64RoundTrip(s: string, n: nat)
    requires IsBytes(s)
    ensures DecodeBase64(Encode(s) + Padding(n)) == Some(s)
  {
    PaddingIsIgnored(Encode(s), n);
    DigitsValues(Pack(s));
    var e := Encode(s);
    assert e != "" ==> Value(e[|e| - 1]).Some?;
    NoNewlines(e);
    UnpackInvertsPack(s);
  }

  /** Trimming takes off exactly the padding at the end. */
  lemma {:induction false} TrimmedIs(s: string, c: char)
    ensures var t := TrimRight(s, c);
            t <= s && (forall i :: |t| <= i < |s| ==> s[i] == c) && (t != "" ==> t[|t| - 1] != c)
  {
    if s != "" && s[|s| - 1] == c { TrimmedIs(s[..|s| - 1], c); }
  }

  lemma {:induction false} PartByPart(a: string, b: string)
    ensures WithoutNewlines(a + b) == WithoutNewlines(a) + WithoutNewlines(b)
  {
    if a == "" {
      assert a + b == b;
    } else {
      assert (a + b)[1..] == a[1..] + b;
      PartByPart(a[1..], b);
    }
  }

  /** Exactly the line breaks are dropped, wherever they are. */
  lemma LineBreaksGo(a: string, c: char, b: string)
    ensures WithoutNewlines(a + [c] + b)
            == WithoutNewlines(a) + (if c == '\n' || c == '\r' then "" else [c]) + WithoutNewlines(b)
  {
    assert [c][1..] == "";
    assert WithoutNewlines([c]) == if c == '\n' || c == '\r' then "" else [c];
    hide WithoutNewlines;
    PartByPart(a + [c], b);
    PartByPart(a, [c]);
  }

  /** Exactly which texts are accepted: after trimming padding and dropping line breaks, only
      characters of the alphabet, and not one left over digit. */
  lemma DecodeAccepts(s: string)
    ensures var digits := WithoutNewlines(TrimRight(s, '='));
            DecodeBase64(s).Some? <==> InAlphabet(digits) && |digits| % 4 != 1
  {
    var digits := WithoutNewlines(TrimRight(s, '='));
    if InAlphabet(digits) { UnpackAccepts(Values(digits)); }
  }

  lemma UnpackShort(d: seq<Sextet>)
    requires |d| < 4
    ensures Unpack(d).Some? <==> |d| != 1
  {}

  lemma UnpackLong(d: seq<Sextet>)
    requires |d| >= 4
    ensures Unpack(d).Some? <==> Unpack(d[4..]).Some?
  {}

  lemma {:induction false} UnpackAccepts(d: seq<Sextet>)
    ensures Unpack(d).Some? <==> |d| % 4 != 1
  {
    hide Unpack;
    if |d| < 4 {
      UnpackShort(d);
    } else {
      UnpackLong(d);
      UnpackAccepts(d[4..]);
    }
  }

  // ------------------------------------------------------------ against the standard

  lemma UpperAt(v: int)
    requires 0 <= v < 26
    ensures "ABCDEFGHIJKLMNOPQRSTUVWXYZ"[v] as int == v + 65
  {}

  lemma LowerAt(v: int)
    requires 0 <= v < 26
    ensures "abcdefghijklmnopqrstuvwxyz"[v] as int == v + 97
  {}

  lemma FigureAt(v: int)
    requires 0 <= v < 10
    ensures "0123456789"[v] as int == v + 48
  {}

  /** The digits are the 64 characters of table 2 of RFC 4648, in its order, and a character has a value
      exactly if it is the digit of that value. */
  lemma AlphabetIs(c: char, v: Sextet)
    ensures var alphabet := "ABCDEFGHIJKLMNOPQRSTUVWXYZ" + "abcdefghijklmnopqrstuvwxyz" + "0123456789" + "-_";
            |alphabet| == 64 && Digit(v) == alphabet[v] && (Value(c) == Some(v) <==> c == alphabet[v])
  {
    assert Value(c) == Some(v) <==> c == Digit(v);
    if v < 26 { UpperAt(v); } else if v < 52 { LowerAt(v - 26); } else if v < 62 { FigureAt(v - 52); }
  }

  /** Sextets read as the digits of one number. */
  function Number(d: seq<Sextet>): int {
    if d == [] then 0 else 64 * Number(d[..|d| - 1]) + d[|d| - 1] as int
  }

  lemma NumberSnoc(d: seq<Sextet>, v: Sextet)
    ensures Number(d + [v]) == 64 * Number(d) + v as int
  {
    assert (d + [v])[..|d|] == d;
  }

  lemma NumberOfFour(v: Sextet, w: Sextet, x: Sextet, y: Sextet)
    ensures Number([v, w]) == 64 * v as int + w as int
    ensures Number([v, w, x]) == 64 * (64 * v as int + w as int) + x as int
    ensures Number([v, w, x, y]) == 64 * (64 * (64 * v as int + w as int) + x as int) + y as int
  {
    assert [v, w] == [v] + [w] && [v, w, x] == [v, w] + [x] && [v, w, x, y] == [v, w, x] + [y] && [v] == [] + [v];
    NumberSnoc([], v);
    NumberSnoc([v], w);
    NumberSnoc([v, w], x);
    NumberSnoc([v, w, x], y);
  }

  /** A quantum carries the bits of its bytes in order: three bytes make four sextets of the same
      number; two and one are filled up with zero bits, two and four of them. */
  lemma QuantumIs(s: string)
    requires IsBytes(s)
    ensures |s| >= 3 ==>
              && |Pack(s)| >= 4 && Pack(s)[4..] == Pack(s[3..])
              && Number(Pack(s)[..4]) == 256 * (256 * s[0] as int + s[1] as int) + s[2] as int
    ensures |s| == 2 ==> |Pack(s)| == 3 && Number(Pack(s)) == 4 * (256 * s[0] as int + s[1] as int)
    ensures |s| == 1 ==> |Pack(s)| == 2 && Number(Pack(s)) == 16 * s[0] as int
  {
    hide Number;
    if |s| >= 3 {
      var v, w, x, y := PackedFour(s);
      assert Pack(s)[..4] == [v, w, x, y];
      NumberOfFour(v, w, x, y);
      FourAsNumber(v as int, w as int, x as int, y as int, s[0] as int, s[1] as int, s[2] as int);
    } else if s != "" {
      ShortQuantumIs(s);
    }
  }

  lemma ShortQuantumIs(s: string)
    requires IsBytes(s) && 0 < |s| < 3
    ensures |s| == 2 ==> |Pack(s)| == 3 && Number(Pack(s)) == 4 * (256 * s[0] as int + s[1] as int)
    ensures |s| == 1 ==> |Pack(s)| == 2 && Number(Pack(s)) == 16 * s[0] as int
  {
    hide Number;
    var d := Pack(s);
    if |s| == 2 {
      SextetsCarryBytes(s[0] as int, s[1] as int, 0);
      assert d == [d[0], d[1], d[2]];
      NumberOfFour(d[0], d[1], d[2], 0);
    } else {
      assert d == [d[0], d[1]];
      NumberOfFour(d[0], d[1], 0, 0);
    }
  }

  lemma FourAsNumber(v: int, w: int, x: int, y: int, a: int, b: int, c: int)
    requires 0 <= w && 0 <= x && v * 4 + w / 16 == a && w % 16 * 16 + x / 4 == b && x % 4 * 64 + y == c
    ensures 64 * (64 * (64 * v + w) + x) + y == 256 * (256 * a + b) + c
  {}
}
