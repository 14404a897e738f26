/** UTF-16 text as JavaScript holds it, and its UTF-8 form (section 3 of RFC 3629). */
module Text {
  import opened Wrappers

  type Unit = u: nat | u < 0x1_0000
  type Byte = b: nat | b < 0x100
  type CodePoint = c: nat | c <= 0x10_FFFF

  const REPLACEMENT: Unit := 0xFFFD

  predicate IsHigh(u: nat) {
    0xD800 <= u <= 0xDBFF
  }

  predicate IsLow(u: nat) {
    0xDC00 <= u <= 0xDFFF
  }

  predicate IsScalar(c: nat) {
    c < 0xD800 || 0xE000 <= c <= 0x10_FFFF
  }

  ghost predicate AllScalar(cs: seq<CodePoint>) {
    forall i :: 0 <= i < |cs| ==> IsScalar(cs[i])
  }

  function Combine(high: Unit, low: Unit): CodePoint
    requires IsHigh(high) && IsLow(low)
  {
    0x1_0000 + (high - 0xD800) * 0x400 + (low - 0xDC00)
  }

  predicate StartsPair(s: seq<Unit>) {
    |s| >= 2 && IsHigh(s[0]) && IsLow(s[1])
  }

  /** The reference reading: surrogate pairs are joined, and a surrogate outside a
    * pair is read as U+FFFD.
    */
  function Scalars(s: seq<Unit>): (cs: seq<CodePoint>)
    ensures AllScalar(cs)
  {
    if s == [] then []
    else if StartsPair(s) then [Combine(s[0], s[1])] + Scalars(s[2..])
    else [if IsHigh(s[0]) || IsLow(s[0]) then REPLACEMENT else s[0]] + Scalars(s[1..])
  }

  /** Iteration by code point: a surrogate outside a pair stands for itself. */
  function CodePoints(s: seq<Unit>): seq<CodePoint> {
    if s == [] then []
    else if StartsPair(s) then [Combine(s[0], s[1])] + CodePoints(s[2..])
    else [s[0]] + CodePoints(s[1..])
  }

  function UnitsOf(c: CodePoint): (s: seq<Unit>)
    ensures 1 <= |s| <= 2
  {
    if c < 0x1_0000 then [c]
    else [0xD800 + (c - 0x1_0000) / 0x400, 0xDC00 + (c - 0x1_0000) % 0x400]
  }

  function Join(cs: seq<CodePoint>): seq<Unit> {
    if cs == [] then [] else UnitsOf(cs[0]) + Join(cs[1..])
  }

  lemma UnitsOfPair(c: CodePoint)
    requires c >= 0x1_0000
    ensures var u := UnitsOf(c); IsHigh(u[0]) && IsLow(u[1]) && Combine(u[0], u[1]) == c
  {
  }

  /** The first code point of joined text. */
  lemma JoinStarts(c: CodePoint, rest: seq<Unit>)
    requires IsScalar(c)
    ensures CodePoints(UnitsOf(c) + rest) == [c] + CodePoints(rest)
    ensures Scalars(UnitsOf(c) + rest) == [c] + Scalars(rest)
  {
    if c >= 0x1_0000 {
      UnitsOfPair(c);
      assert (UnitsOf(c) + rest)[2..] == rest;
    } else {
      assert (UnitsOf(c) + rest)[1..] == rest;
    }
  }

  /** Joining code points and reading them back: nothing is split and nothing merges. */
  lemma {:induction false} CodePointsOfJoin(cs: seq<CodePoint>)
    requires AllScalar(cs)
    ensures CodePoints(Join(cs)) == cs && Scalars(Join(cs)) == cs
  {
    if cs != [] {
      var rest := Join(cs[1..]);
      CodePointsOfJoin(cs[1..]);
      JoinStarts(cs[0], rest);
      assert Join(cs) == UnitsOf(cs[0]) + rest && cs == [cs[0]] + cs[1..];
    }
  }

  /** Text that begins with something other than a low surrogate can follow any text
    * without changing how either is read.
    */
  lemma {:induction false} ScalarsConcat(a: seq<Unit>, b: seq<Unit>)
    requires b == [] || !IsLow(b[0])
    ensures Scalars(a + b) == Scalars(a) + Scalars(b)
    decreases |a|
  {
    if a == [] {
      assert a + b == b;
    } else {
      var n := if StartsPair(a) then 2 else 1;
      assert (a + b)[n..] == a[n..] + b;
      ScalarsConcat(a[n..], b);
      PairsStay(a, b);
      Regroup(Scalars(a)[..1], Scalars(a[n..]), Scalars(b));
    }
  }

  lemma PairsStay(a: seq<Unit>, b: seq<Unit>)
    requires a != [] && (b == [] || !IsLow(b[0]))
    ensures StartsPair(a + b) == StartsPair(a)
    ensures var n := if StartsPair(a) then 2 else 1;
            Scalars(a) == Scalars(a)[..1] + Scalars(a[n..]) &&
            Scalars(a + b) == Scalars(a)[..1] + Scalars((a + b)[n..])
  {
    assert (a + b)[0] == a[0] && (|a| > 1 ==> (a + b)[1] == a[1]);
  }

  // ---- UTF-8 ---------------------------------------------------------------------------

  function Utf8(c: CodePoint): (bs: seq<Byte>)
    ensures 1 <= |bs| <= 4
  {
    if c < 0x80 then [c]
    else if c < 0x800 then [0xC0 + c / 0x40, 0x80 + c % 0x40]
    else if c < 0x1_0000 then [0xE0 + c / 0x1000, 0x80 + c / 0x40 % 0x40, 0x80 + c % 0x40]
    else [0xF0 + c / 0x4_0000, 0x80 + c / 0x1000 % 0x40, 0x80 + c / 0x40 % 0x40, 0x80 + c % 0x40]
  }

  function Utf8All(cs: seq<CodePoint>): seq<Byte> {
    if cs == [] then [] else Utf8(cs[0]) + Utf8All(cs[1..])
  }

  predicate IsTail(b: Byte) {
    0x80 <= b < 0xC0
  }

  /** The two highest bits are one and zero. */
  lemma TailIff(b: Byte)
    ensures IsTail(b) <==> b / 64 == 2
  {
  }

  /** Reads one character, refusing short, overlong, surrogate and too large forms. */
  function DecodeOne(bs: seq<Byte>): (r: Option<(CodePoint, nat)>)
    ensures r.Some? ==> 1 <= r.value.1 <= |bs|
  {
    if bs == [] then None
    else if bs[0] < 0x80 then Some((bs[0], 1))
    else if 0xC0 <= bs[0] < 0xE0 && |bs| >= 2 && IsTail(bs[1]) then
      var c: nat := (bs[0] as int - 0xC0) * 0x40 + (bs[1] as int - 0x80);
      if c >= 0x80 then Some((c, 2)) else None
    else if 0xE0 <= bs[0] < 0xF0 && |bs| >= 3 && IsTail(bs[1]) && IsTail(bs[2]) then
      var c: nat := (bs[0] as int - 0xE0) * 0x1000 + (bs[1] as int - 0x80) * 0x40 + (bs[2] as int - 0x80);
      if c >= 0x800 && IsScalar(c) then Some((c, 3)) else None
    else if 0xF0 <= bs[0] < 0xF8 && |bs| >= 4 && IsTail(bs[1]) && IsTail(bs[2]) && IsTail(bs[3]) then
      var c: nat := (bs[0] as int - 0xF0) * 0x4_0000 + (bs[1] as int - 0x80) * 0x1000
                    + (bs[2] as int - 0x80) * 0x40 + (bs[3] as int - 0x80);
      if 0x1_0000 <= c <= 0x10_FFFF then Some((c, 4)) else None
    else None
  }

  function DecodeUtf8(bs: seq<Byte>): Option<seq<CodePoint>> {
    if bs == [] then Some([])
    else
      match DecodeOne(bs)
      case None => None
      case Some((c, n)) =>
        match DecodeUtf8(bs[n..])
        case None => None
        case Some(rest) => Some([c] + rest)
  }

  /** A number in three places of base 64. */
  lemma ThreePlaces(c: nat)
    ensures c == c / 0x1000 * 0x1000 + c / 0x40 % 0x40 * 0x40 + c % 0x40
  {
    var x := c / 0x40;
    assert c == x * 0x40 + c % 0x40;
    assert c / 0x1000 == x / 0x40 && x == c / 0x1000 * 0x40 + x % 0x40;
  }

  lemma DecodeThree(bs: seq<Byte>)
    requires |bs| >= 3 && 0xE0 <= bs[0] < 0xF0 && IsTail(bs[1]) && IsTail(bs[2])
    ensures var c := (bs[0] as int - 0xE0) * 0x1000 + (bs[1] as int - 0x80) * 0x40 + (bs[2] as int - 0x80);
            c >= 0x800 && IsScalar(c) ==> DecodeOne(bs) == Some((c, 3))
  {
  }

  lemma ThreeBytes(c: CodePoint, rest: seq<Byte>)
    requires 0x800 <= c < 0x1_0000 && IsScalar(c)
    ensures DecodeOne(Utf8(c) + rest) == Some((c, 3))
  {
    var bs := Utf8(c) + rest;
    ThreePlaces(c);
    assert bs[0] == 0xE0 + c / 0x1000 && bs[1] == 0x80 + c / 0x40 % 0x40 && bs[2] == 0x80 + c % 0x40;
    DecodeThree(bs);
  }

  /** A number in four places of base 64. */
  lemma FourPlaces(c: nat)
    ensures c == c / 0x4_0000 * 0x4_0000 + c / 0x1000 % 0x40 * 0x1000 + c / 0x40 % 0x40 * 0x40 + c % 0x40
  {
    var (x, y) := (c / 0x40, c / 0x1000);
    assert c == x * 0x40 + c % 0x40;
    assert y == x / 0x40 && x == y * 0x40 + x % 0x40;
    assert c / 0x4_0000 == y / 0x40 && y == c / 0x4_0000 * 0x40 + y % 0x40;
  }

  lemma DecodeFour(bs: seq<Byte>)
    requires |bs| >= 4 && 0xF0 <= bs[0] < 0xF8 && IsTail(bs[1]) && IsTail(bs[2]) && IsTail(bs[3])
    ensures var c := (bs[0] as int - 0xF0) * 0x4_0000 + (bs[1] as int - 0x80) * 0x1000
                     + (bs[2] as int - 0x80) * 0x40 + (bs[3] as int - 0x80);
            0x1_0000 <= c <= 0x10_FFFF ==> DecodeOne(bs) == Some((c, 4))
  {
  }

  lemma FourBytes(c: CodePoint, rest: seq<Byte>)
    requires 0x1_0000 <= c
    ensures DecodeOne(Utf8(c) + rest) == Some((c, 4))
  {
    var bs := Utf8(c) + rest;
    FourPlaces(c);
    assert bs[0] == 0xF0 + c / 0x4_0000 && bs[1] == 0x80 + c / 0x1000 % 0x40;
    assert bs[2] == 0x80 + c / 0x40 % 0x40 && bs[3] == 0x80 + c % 0x40;
    DecodeFour(bs);
  }

  lemma DecodeOneOfUtf8(c: CodePoint, rest: seq<Byte>)
    requires IsScalar(c)
    ensures DecodeOne(Utf8(c) + rest) == Some((c, |Utf8(c)|))
  {
    var bs := Utf8(c) + rest;
    if c >= 0x1_0000 {
      FourBytes(c, rest);
    } else if c >= 0x800 {
      ThreeBytes(c, rest);
    } else if c >= 0x80 {
      assert bs[0] == 0xC0 + c / 0x40 && bs[1] == 0x80 + c % 0x40;
    } else {
      assert bs[0] == c;
    }
  }

  /** Encoding and decoding is the identity on every sequence of scalar values. */
  lemma {:induction false} DecodeUtf8OfUtf8All(cs: seq<CodePoint>)
    requires AllScalar(cs)
    ensures DecodeUtf8(Utf8All(cs)) == Some(cs)
  {
    if cs != [] {
      var rest := Utf8All(cs[1..]);
      DecodeOneOfUtf8(cs[0], rest);
      assert Utf8All(cs) == Utf8(cs[0]) + rest;
      assert (Utf8(cs[0]) + rest)[|Utf8(cs[0])|..] == rest;
      DecodeUtf8OfUtf8All(cs[1..]);
      assert [cs[0]] + cs[1..] == cs;
    }
  }

  lemma {:induction false} Utf8AllConcat(a: seq<CodePoint>, b: seq<CodePoint>)
    ensures Utf8All(a + b) == Utf8All(a) + Utf8All(b)
  {
    if a == [] {
      assert a + b == b;
    } else {
      assert (a + b)[1..] == a[1..] + b;
      Utf8AllConcat(a[1..], b);
    }
  }

  // ---- Blank space ----------------------------------------------------------------------

  predicate IsSpace(u: Unit) {
    || 0x09 <= u <= 0x0D || u == 0x20 || u == 0xA0 || u == 0x1680 || 0x2000 <= u <= 0x200A
    || u == 0x2028 || u == 0x2029 || u == 0x202F || u == 0x205F || u == 0x3000 || u == 0xFEFF
  }

  /** The white space and the line terminators of ECMAScript. */
  lemma SpacesAre(u: Unit)
    ensures IsSpace(u) <==>
            || u in {9, 10, 11, 12, 13, 32, 160, 5760, 8192, 8193, 8194, 8195, 8196, 8197, 8198, 8199, 8200, 8201, 8202}
            || u in {8232, 8233, 8239, 8287, 12288, 65279}
  {
  }

  function DropBlank(s: seq<Unit>): (t: seq<Unit>)
    ensures |t| <= |s| && t == s[|s| - |t|..]
    ensures t != [] ==> !IsSpace(t[0])
  {
    if s != [] && IsSpace(s[0]) then DropBlank(s[1..]) else s
  }

  function DropBlankAtEnd(s: seq<Unit>): (t: seq<Unit>)
    ensures |t| <= |s| && t == s[..|t|]
    ensures t != [] ==> !IsSpace(t[|t| - 1])
  {
    if s != [] && IsSpace(s[|s| - 1]) then DropBlankAtEnd(s[..|s| - 1]) else s
  }

  /** `trim` */
  function Trim(s: seq<Unit>): seq<Unit> {
    DropBlankAtEnd(DropBlank(s))
  }

  predicate AllBlank(s: seq<Unit>) {
    forall i :: 0 <= i < |s| ==> IsSpace(s[i])
  }

  /** What is left of text between the blanks at both ends. */
  ghost predicate TrimmedAt(s: seq<Unit>, a: nat, b: nat)
    requires a <= b <= |s|
  {
    && (forall i :: 0 <= i < a || b <= i < |s| ==> IsSpace(s[i]))
    && (a < b ==> !IsSpace(s[a]) && !IsSpace(s[b - 1]))
  }

  lemma {:induction false} DroppedIsBlank(s: seq<Unit>)
    ensures forall i :: 0 <= i < |s| - |DropBlank(s)| ==> IsSpace(s[i])
  {
    if s != [] && IsSpace(s[0]) {
      DroppedIsBlank(s[1..]);
      assert forall i :: 0 < i < |s| ==> s[i] == s[1..][i - 1];
    }
  }

  lemma {:induction false} DroppedAtEndIsBlank(s: seq<Unit>)
    ensures forall i :: |DropBlankAtEnd(s)| <= i < |s| ==> IsSpace(s[i])
  {
    if s != [] && IsSpace(s[|s| - 1]) {
      DroppedAtEndIsBlank(s[..|s| - 1]);
    }
  }

  /** There is one way to trim. */
  lemma TrimmedOnce(s: seq<Unit>, a: nat, b: nat, a': nat, b': nat)
    requires a <= b <= |s| && a' <= b' <= |s|
    requires TrimmedAt(s, a, b) && TrimmedAt(s, a', b')
    ensures s[a..b] == s[a'..b']
  {
    assert a < b || a' < b' ==> a == a' && b == b';
  }

  /** A part of the rest of `s` is a part of `s`. */
  lemma PartOfRest(s: seq<Unit>, a: nat, rest: seq<Unit>, n: nat, part: seq<Unit>, b: nat)
    requires a <= |s| && rest == s[a..] && n <= |rest| && part == rest[..n] && b == a + n
    requires forall i :: 0 <= i < a ==> IsSpace(s[i])
    requires forall i :: n <= i < |rest| ==> IsSpace(rest[i])
    requires n > 0 ==> !IsSpace(rest[0]) && !IsSpace(rest[n - 1])
    ensures part == s[a..b] && TrimmedAt(s, a, b)
  {
    assert forall i :: a <= i < |s| ==> s[i] == rest[i - a];
  }

  /** Where the text that is left begins and ends. */
  function StartOf(s: seq<Unit>): (n: nat)
    ensures n <= |s|
  {
    |s| - |DropBlank(s)|
  }

  function EndOf(s: seq<Unit>): (n: nat)
    ensures StartOf(s) <= n <= |s|
  {
    StartOf(s) + |DropBlankAtEnd(DropBlank(s))|
  }

  lemma FrontDropped(s: seq<Unit>) returns (rest: seq<Unit>)
    ensures rest == DropBlank(s) && rest == s[StartOf(s)..] && (rest != [] ==> !IsSpace(rest[0]))
    ensures forall i :: 0 <= i < StartOf(s) ==> IsSpace(s[i])
  {
    rest := DropBlank(s);
    DroppedIsBlank(s);
  }

  lemma EndDropped(rest: seq<Unit>) returns (n: nat)
    ensures n == |DropBlankAtEnd(rest)| <= |rest| && DropBlankAtEnd(rest) == rest[..n] && (n > 0 ==> !IsSpace(rest[n - 1]))
    ensures forall i :: n <= i < |rest| ==> IsSpace(rest[i])
  {
    n := |DropBlankAtEnd(rest)|;
    DroppedAtEndIsBlank(rest);
  }

  lemma TrimTrims(s: seq<Unit>)
    ensures Trim(s) == s[StartOf(s)..EndOf(s)]
    ensures TrimmedAt(s, StartOf(s), EndOf(s))
  {
    var rest := FrontDropped(s);
    var n := EndDropped(rest);
    PartOfRest(s, StartOf(s), rest, n, Trim(s), EndOf(s));
  }

  /** `trim` takes the blanks off both ends, and nothing else. */
  lemma TrimIff(s: seq<Unit>, t: seq<Unit>)
    ensures t == Trim(s) <==> exists a, b | 0 <= a <= b <= |s| :: t == s[a..b] && TrimmedAt(s, a, b)
  {
    TrimTrims(s);
    var a, b := StartOf(s), EndOf(s);
    forall a', b' | 0 <= a' <= b' <= |s| && TrimmedAt(s, a', b') ensures s[a'..b'] == s[a..b] {
      TrimmedOnce(s, a, b, a', b');
    }
  }

  lemma BlankIff(s: seq<Unit>)
    ensures Trim(s) == [] <==> AllBlank(s)
  {
    TrimTrims(s);
  }

  // ---- Literals ------------------------------------------------------------------------

  /** A literal of ASCII text. */
  function Ascii(s: string): (t: seq<Unit>)
    requires forall i :: 0 <= i < |s| ==> s[i] < 128 as char
    ensures |t| == |s| && forall i :: 0 <= i < |t| ==> t[i] == s[i] as int && t[i] < 128
  {
    seq(|s|, i requires 0 <= i < |s| => s[i] as int)
  }

  /** The same for literals that are ASCII to be seen: anything else would be "?". */
  function Literal(s: string): (t: seq<Unit>)
    ensures |t| == |s| && forall i :: 0 <= i < |t| ==> t[i] < 128
  {
    seq(|s|, i requires 0 <= i < |s| => if s[i] < 128 as char then s[i] as int else 0x3F)
  }

  /** A literal that is one word. */
  function Word(s: string): (t: seq<Unit>)
    ensures |t| == |s| && forall i :: 0 <= i < |t| ==> t[i] != 0x20
  {
    seq(|s|, i requires 0 <= i < |s| => if s[i] < 128 as char && s[i] != ' ' then s[i] as int else 0x3F)
  }

  /** ASCII text is its own code points and its own bytes. */
  lemma {:induction false} AsciiIsBytes(s: seq<Unit>)
    requires forall i :: 0 <= i < |s| ==> s[i] < 128
    ensures Scalars(s) == s && Utf8All(s) == s
  {
    if s != [] {
      AsciiIsBytes(s[1..]);
    }
  }
}
