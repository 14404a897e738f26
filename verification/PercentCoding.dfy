/** `encodeURIComponent`, and the reader that undoes it (section 2.1 of RFC 3986). */
module PercentCoding {
  import opened Wrappers
  import opened Text

  const PERCENT: Unit := 0x25

  /** The characters `encodeURIComponent` leaves as they are. */
  predicate Kept(c: nat) {
    || 0x41 <= c <= 0x5A || 0x61 <= c <= 0x7A || 0x30 <= c <= 0x39
    || c == 0x2D || c == 0x5F || c == 0x2E || c == 0x21 || c == 0x7E
    || c == 0x2A || c == 0x27 || c == 0x28 || c == 0x29
  }

  function HexDigit(n: nat): (u: Unit)
    requires n < 16
    ensures Kept(u)
  {
    if n < 10 then 0x30 + n else 0x37 + n
  }

  function HexValue(u: Unit): Option<nat> {
    if 0x30 <= u <= 0x39 then Some(u - 0x30)
    else if 0x41 <= u <= 0x46 then Some(u - 0x37)
    else if 0x61 <= u <= 0x66 then Some(u - 0x57)
    else None
  }

  function EscapeAll(bs: seq<Byte>): seq<Unit> {
    if bs == [] then []
    else [PERCENT, HexDigit(bs[0] / 16), HexDigit(bs[0] % 16)] + EscapeAll(bs[1..])
  }

  function EncodeAll(cs: seq<CodePoint>): seq<Unit> {
    if cs == [] then []
    else (if Kept(cs[0]) then [cs[0]] else EscapeAll(Utf8(cs[0]))) + EncodeAll(cs[1..])
  }

  predicate HasLoneSurrogate(cs: seq<CodePoint>) {
    exists i :: 0 <= i < |cs| && !IsScalar(cs[i])
  }

  /** None where `encodeURIComponent` throws: on a surrogate outside a pair. */
  function EncodeUriComponent(s: seq<Unit>): Option<seq<Unit>> {
    var cs := CodePoints(s);
    if HasLoneSurrogate(cs) then None else Some(EncodeAll(cs))
  }

  /** The reader: a percent sign takes two hexadecimal digits, any other ASCII
    * character is its own byte.
    */
  function PercentDecode(s: seq<Unit>): Option<seq<Byte>> {
    if s == [] then Some([])
    else if s[0] == PERCENT then
      if |s| < 3 || HexValue(s[1]).None? || HexValue(s[2]).None? then None
      else
        match PercentDecode(s[3..])
        case None => None
        case Some(rest) => Some([HexValue(s[1]).value * 16 + HexValue(s[2]).value] + rest)
    else if s[0] >= 0x80 then None
    else
      match PercentDecode(s[1..])
      case None => None
      case Some(rest) => Some([s[0]] + rest)
  }

  function DecodeUriComponent(s: seq<Unit>): Option<seq<CodePoint>> {
    match PercentDecode(s)
    case None => None
    case Some(bs) => DecodeUtf8(bs)
  }

  lemma OneEscape(b: Byte, rest: seq<Unit>)
    requires PercentDecode(rest).Some?
    ensures PercentDecode([PERCENT, HexDigit(b / 16), HexDigit(b % 16)] + rest) == Some([b] + PercentDecode(rest).value)
  {
    assert ([PERCENT, HexDigit(b / 16), HexDigit(b % 16)] + rest)[3..] == rest;
  }

  lemma EscapeFirst(bs: seq<Byte>, tail: seq<Unit>)
    requires bs != []
    ensures EscapeAll(bs) + tail == [PERCENT, HexDigit(bs[0] / 16), HexDigit(bs[0] % 16)] + (EscapeAll(bs[1..]) + tail)
  {
  }

  lemma OneMoreByte(bs: seq<Byte>, tail: seq<Unit>, more: seq<Byte>)
    requires bs != [] && PercentDecode(EscapeAll(bs[1..]) + tail) == Some(more)
    ensures PercentDecode(EscapeAll(bs) + tail) == Some([bs[0]] + more)
  {
    OneEscape(bs[0], EscapeAll(bs[1..]) + tail);
    EscapeFirst(bs, tail);
  }

  lemma FirstOfAll(bs: seq<Byte>, more: seq<Byte>)
    requires bs != []
    ensures bs + more == [bs[0]] + (bs[1..] + more)
  {
  }

  lemma {:induction false} PercentDecodeOfEscape(bs: seq<Byte>, tail: seq<Unit>)
    requires PercentDecode(tail).Some?
    ensures PercentDecode(EscapeAll(bs) + tail) == Some(bs + PercentDecode(tail).value)
  {
    var more := PercentDecode(tail).value;
    if bs == [] {
      assert EscapeAll(bs) + tail == tail && bs + more == more;
    } else {
      PercentDecodeOfEscape(bs[1..], tail);
      OneMoreByte(bs, tail, bs[1..] + more);
      FirstOfAll(bs, more);
    }
  }

  lemma {:induction false} PercentDecodeOfEncode(cs: seq<CodePoint>)
    ensures PercentDecode(EncodeAll(cs)) == Some(Utf8All(cs))
  {
    if cs != [] {
      var rest := EncodeAll(cs[1..]);
      PercentDecodeOfEncode(cs[1..]);
      if Kept(cs[0]) {
        assert ([cs[0]] + rest)[1..] == rest;
      } else {
        PercentDecodeOfEscape(Utf8(cs[0]), rest);
      }
    }
  }

  /** What was encoded is what is decoded. */
  lemma DecodeOfEncode(cs: seq<CodePoint>)
    requires AllScalar(cs)
    ensures DecodeUriComponent(EncodeAll(cs)) == Some(cs)
  {
    PercentDecodeOfEncode(cs);
    DecodeUtf8OfUtf8All(cs);
  }

  /** Encoded text holds only kept characters and percent signs, so none of the
    * characters that separate the parts of a URL.
    */
  lemma {:induction false} EncodedAlphabet(cs: seq<CodePoint>)
    ensures forall i :: 0 <= i < |EncodeAll(cs)| ==> Kept(EncodeAll(cs)[i]) || EncodeAll(cs)[i] == PERCENT
  {
    if cs != [] {
      EscapedAlphabet(Utf8(cs[0]));
      EncodedAlphabet(cs[1..]);
    }
  }

  lemma {:induction false} EscapedAlphabet(bs: seq<Byte>)
    ensures forall i :: 0 <= i < |EscapeAll(bs)| ==> Kept(EscapeAll(bs)[i]) || EscapeAll(bs)[i] == PERCENT
  {
    if bs != [] {
      EscapedAlphabet(bs[1..]);
    }
  }

  /** Letters, digits and nine marks are left as they are. */
  lemma KeptIff(c: CodePoint)
    ensures Kept(c) <==>
            || 'A' as int <= c <= 'Z' as int || 'a' as int <= c <= 'z' as int || '0' as int <= c <= '9' as int
            || exists i :: 0 <= i < |MARKS| && c == MARKS[i] as int
  {
    assert MARKS == ['-', '_', '.', '!', '~', '*', '\'', '(', ')'];
    if exists i :: 0 <= i < |MARKS| && c == MARKS[i] as int {
    } else {
      assert c != MARKS[0] as int && c != MARKS[1] as int && c != MARKS[2] as int && c != MARKS[3] as int
             && c != MARKS[4] as int && c != MARKS[5] as int && c != MARKS[6] as int && c != MARKS[7] as int
             && c != MARKS[8] as int;
    }
  }

  const MARKS: string := "-_.!~*'()"

  const DIGITS: string := "0123456789ABCDEF"

  const SMALL_DIGITS: string := "0123456789abcdef"

  lemma HexDigitIs(n: nat)
    requires n < 16
    ensures HexDigit(n) == DIGITS[n] as int
  {
  }

  lemma HexValueIs(n: nat)
    requires n < 16
    ensures HexValue(DIGITS[n] as int) == Some(n) && HexValue(SMALL_DIGITS[n] as int) == Some(n)
  {
  }

  /** A character that is not left as it is becomes, byte by byte, a percent sign and two
    * hexadecimal digits in capitals.
    */
  lemma {:induction false} EscapeExact(bs: seq<Byte>, i: nat)
    requires i < |bs|
    ensures |EscapeAll(bs)| == 3 * |bs|
    ensures EscapeAll(bs)[3 * i] == PERCENT
    ensures EscapeAll(bs)[3 * i + 1] == DIGITS[bs[i] / 16] as int && EscapeAll(bs)[3 * i + 2] == DIGITS[bs[i] % 16] as int
  {
    HexDigitIs(bs[0] / 16);
    HexDigitIs(bs[0] % 16);
    if |bs| > 1 {
      EscapeExact(bs[1..], if i > 0 then i - 1 else 0);
    }
  }

  /** Each character is encoded by itself, in order. */
  lemma {:induction false} EncodeConcat(a: seq<CodePoint>, b: seq<CodePoint>)
    ensures EncodeAll(a + b) == EncodeAll(a) + EncodeAll(b)
  {
    if a == [] {
      assert a + b == b;
    } else {
      assert (a + b)[1..] == a[1..] + b;
      EncodeConcat(a[1..], b);
    }
  }

  lemma EncodeOne(c: CodePoint)
    ensures EncodeAll([c]) == if Kept(c) then [c] else EscapeAll(Utf8(c))
  {
    assert [c][1..] == [];
  }

  /** `encodeURIComponent` succeeds exactly on well-formed UTF-16, and decoding its
    * answer reads the text back.
    */
  lemma EncodeUriComponentExact(s: seq<Unit>)
    ensures EncodeUriComponent(s).Some? <==> CodePoints(s) == Scalars(s)
    ensures EncodeUriComponent(s).Some? ==> DecodeUriComponent(EncodeUriComponent(s).value) == Some(Scalars(s))
  {
    WellFormedIff(s);
    if EncodeUriComponent(s).Some? {
      DecodeOfEncode(CodePoints(s));
    }
  }

  lemma {:induction false} WellFormedIff(s: seq<Unit>)
    ensures !HasLoneSurrogate(CodePoints(s)) <==> CodePoints(s) == Scalars(s)
  {
    if s != [] {
      var n := if StartsPair(s) then 2 else 1;
      WellFormedIff(s[n..]);
      var (c, rest) := (CodePoints(s)[0], CodePoints(s[n..]));
      assert CodePoints(s) == [c] + rest && CodePoints(s)[1..] == rest;
      assert Scalars(s)[1..] == Scalars(s[n..]);
      assert HasLoneSurrogate(CodePoints(s)) <==> !IsScalar(c) || HasLoneSurrogate(rest) by {
        if HasLoneSurrogate(rest) {
          var i :| 0 <= i < |rest| && !IsScalar(rest[i]);
          assert !IsScalar(CodePoints(s)[i + 1]);
        }
      }
    }
  }
}
