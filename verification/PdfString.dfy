/** A document's name as a literal string of a PDF, and the reader of such strings
  * (section 7.3.4.2 of ISO 32000-1).
  */
module PdfString {
  import opened SeedPdf
  import opened Text
  import opened Wrappers

  function EscapeBytes(bs: seq<Byte>): seq<Byte> {
    if bs == [] then []
    else (if IsSpecial(bs[0]) then [BACKSLASH, bs[0]] else [bs[0]]) + EscapeBytes(bs[1..])
  }

  function EscapePoints(cs: seq<CodePoint>): seq<CodePoint> {
    if cs == [] then []
    else (if IsSpecial(cs[0]) then [BACKSLASH, cs[0]] else [cs[0]]) + EscapePoints(cs[1..])
  }

  predicate IsOctal(b: Byte) {
    0x30 <= b <= 0x37
  }

  /** What a backslash and the bytes after it stand for, and how many there are. */
  function Escaped(bs: seq<Byte>): (r: (seq<Byte>, nat))
    requires bs != []
    ensures 1 <= r.1 <= |bs|
  {
    var b := bs[0];
    if b == 0x6E then ([LF], 1)
    else if b == 0x72 then ([CR], 1)
    else if b == 0x74 then ([0x09], 1)
    else if b == 0x62 then ([0x08], 1)
    else if b == 0x66 then ([0x0C], 1)
    else if IsSpecial(b) then ([b], 1)
    else if b == CR then ([], if |bs| > 1 && bs[1] == LF then 2 else 1)
    else if b == LF then ([], 1)
    else if IsOctal(b) then
      if |bs| > 2 && IsOctal(bs[1]) && IsOctal(bs[2]) then
        ([((b as int - 0x30) * 64 + (bs[1] as int - 0x30) * 8 + (bs[2] as int - 0x30)) % 256], 3)
      else if |bs| > 1 && IsOctal(bs[1]) then ([(b as int - 0x30) * 8 + (bs[1] as int - 0x30)], 2)
      else ([b - 0x30], 1)
    else ([b], 1)
  }

  /** Table 3 of section 7.3.4.2 of ISO 32000-1. */
  lemma EscapedIsTable(b: Byte, after: seq<Byte>)
    ensures var r := Escaped([b] + after);
            && (b == 'n' as int ==> r == ([10], 1)) && (b == 'r' as int ==> r == ([13], 1))
            && (b == 't' as int ==> r == ([9], 1)) && (b == 'b' as int ==> r == ([8], 1)) && (b == 'f' as int ==> r == ([12], 1))
            && (b == '(' as int || b == ')' as int || b == '\\' as int ==> r == ([b], 1))
            && (b == 10 || (b == 13 && (after == [] || after[0] != 10)) ==> r == ([], 1))
            && (b == 13 && after != [] && after[0] == 10 ==> r == ([], 2))
  {
  }

  /** One, two or three octal digits; more than a byte wraps around. */
  lemma OctalIsRead(d: nat, e: nat, f: nat, after: seq<Byte>)
    requires d < 8 && e < 8 && f < 8
    requires after == [] || !('0' as int <= after[0] <= '7' as int)
    ensures Escaped(['0' as int + d, '0' as int + e, '0' as int + f] + after) == ([(64 * d + 8 * e + f) % 256], 3)
    ensures Escaped(['0' as int + d, '0' as int + e] + after) == ([8 * d + e], 2)
    ensures Escaped(['0' as int + d] + after) == ([d], 1)
  {
  }

  /** Reads a literal string up to the parenthesis that closes it, and says what is
    * left. Parentheses that are not escaped must balance, and an end of line is read
    * as a line feed.
    */
  function ReadString(bs: seq<Byte>, depth: nat): Option<(seq<Byte>, seq<Byte>)>
    decreases |bs|
  {
    if bs == [] then None
    else if bs[0] == RIGHT && depth == 0 then Some(([], bs[1..]))
    else if bs[0] == BACKSLASH then
      if |bs| == 1 then None
      else
        var (text, n) := Escaped(bs[1..]);
        Before(text, ReadString(bs[1 + n..], depth))
    else if bs[0] == CR then
      Before([LF], ReadString(if |bs| > 1 && bs[1] == LF then bs[2..] else bs[1..], depth))
    else
      var inner := if bs[0] == LEFT then depth + 1 else if bs[0] == RIGHT then depth - 1 else depth;
      Before([bs[0]], ReadString(bs[1..], inner))
  }

  function Before(text: seq<Byte>, read: Option<(seq<Byte>, seq<Byte>)>): Option<(seq<Byte>, seq<Byte>)> {
    match read
    case None => None
    case Some((s, rest)) => Some((text + s, rest))
  }

  /** Parentheses that match need no backslash. */
  lemma ParenthesesNest(rest: seq<Byte>)
    ensures ReadString([LEFT as Byte, RIGHT as Byte, RIGHT as Byte] + rest, 0) == Some(([LEFT as Byte, RIGHT as Byte], rest))
  {
    var bs := [LEFT as Byte, RIGHT as Byte, RIGHT as Byte] + rest;
    assert bs[1..][1..][1..] == rest;
    assert ReadString(bs[1..][1..], 0) == Some(([], rest));
    assert [RIGHT as Byte] + [] == [RIGHT as Byte] && bs[1..][0] == RIGHT;
    assert ReadString(bs[1..], 1) == Before([RIGHT as Byte], ReadString(bs[1..][1..], 0));
    assert [LEFT as Byte] + [RIGHT as Byte] == [LEFT as Byte, RIGHT as Byte];
  }

  /** Every end of line as a line feed. */
  function LineFeeds(bs: seq<Byte>): seq<Byte>
    decreases |bs|
  {
    if bs == [] then []
    else if bs[0] == CR then [LF as Byte] + LineFeeds(if |bs| > 1 && bs[1] == LF then bs[2..] else bs[1..])
    else [bs[0]] + LineFeeds(bs[1..])
  }

  lemma EscapeStep(bs: seq<Byte>, end: seq<Byte>)
    requires bs != []
    ensures EscapeBytes(bs) + end ==
            (if IsSpecial(bs[0]) then [BACKSLASH as Byte, bs[0]] else [bs[0]]) + (EscapeBytes(bs[1..]) + end)
  {
  }

  lemma ReadEscape(b: Byte, tail: seq<Byte>)
    requires IsSpecial(b)
    ensures ReadString([BACKSLASH as Byte, b] + tail, 0) == Before([b], ReadString(tail, 0))
  {
    var s := [BACKSLASH as Byte, b] + tail;
    assert s[1..] == [b] + tail && s[2..] == tail;
  }

  lemma ReadPlain(b: Byte, tail: seq<Byte>)
    requires !IsSpecial(b) && b != CR
    ensures ReadString([b] + tail, 0) == Before([b], ReadString(tail, 0))
  {
    assert ([b] + tail)[1..] == tail;
  }

  lemma ReadReturn(tail: seq<Byte>)
    requires tail != []
    ensures ReadString([CR as Byte] + tail, 0) == Before([LF], ReadString(if tail[0] == LF then tail[1..] else tail, 0))
  {
    var s := [CR as Byte] + tail;
    assert s[1..] == tail && s[1] == tail[0] && s[2..] == tail[1..];
  }

  /** The reader stops at the parenthesis after the escaped text and has read the text,
    * with its ends of lines as line feeds.
    */
  lemma {:induction false} ReadsEscaped(bs: seq<Byte>, rest: seq<Byte>)
    ensures ReadString(EscapeBytes(bs) + ([RIGHT as Byte] + rest), 0) == Some((LineFeeds(bs), rest))
    decreases |bs|
  {
    var end := [RIGHT as Byte] + rest;
    if bs == [] {
      assert EscapeBytes(bs) + end == end && end[1..] == rest;
    } else {
      var tail := EscapeBytes(bs[1..]) + end;
      EscapeStep(bs, end);
      ReadsEscaped(bs[1..], rest);
      if IsSpecial(bs[0]) {
        ReadEscape(bs[0], tail);
      } else if bs[0] != CR {
        ReadPlain(bs[0], tail);
      } else {
        ReadReturn(tail);
        if |bs| > 1 && bs[1] == LF {
          LineFeedSkipped(bs, end);
          ReadsEscaped(bs[2..], rest);
        } else {
          NoLineFeedFirst(bs[1..], end);
        }
      }
    }
  }

  lemma LineFeedSkipped(bs: seq<Byte>, end: seq<Byte>)
    requires |bs| > 1 && bs[1] == LF
    ensures (EscapeBytes(bs[1..]) + end)[0] == LF && (EscapeBytes(bs[1..]) + end)[1..] == EscapeBytes(bs[2..]) + end
  {
    EscapeStep(bs[1..], end);
    assert bs[1..][1..] == bs[2..];
  }

  lemma NoLineFeedFirst(bs: seq<Byte>, end: seq<Byte>)
    requires end != [] && end[0] == RIGHT && (bs != [] ==> bs[0] != LF)
    ensures (EscapeBytes(bs) + end)[0] != LF
  {
    if bs != [] {
      EscapeStep(bs, end);
    }
  }

  lemma {:induction false} NoReturnsLeft(bs: seq<Byte>)
    ensures CR !in LineFeeds(bs)
    decreases |bs|
  {
    if bs != [] {
      NoReturnsLeft(if bs[0] == CR && |bs| > 1 && bs[1] == LF then bs[2..] else bs[1..]);
    }
  }

  lemma {:induction false} SameWithoutReturns(bs: seq<Byte>)
    requires CR !in bs
    ensures LineFeeds(bs) == bs
  {
    if bs != [] {
      SameWithoutReturns(bs[1..]);
      assert bs == [bs[0]] + bs[1..];
    }
  }

  lemma {:induction false} EscapeOfUtf8(cs: seq<CodePoint>)
    ensures Utf8All(EscapePoints(cs)) == EscapeBytes(Utf8All(cs))
  {
    if cs != [] {
      EscapeOfUtf8(cs[1..]);
      var first := if IsSpecial(cs[0]) then [BACKSLASH as CodePoint, cs[0]] else [cs[0]];
      Utf8AllConcat(first, EscapePoints(cs[1..]));
      EscapeConcat(Utf8(cs[0]), Utf8All(cs[1..]));
      EscapeOfOne(cs[0]);
    }
  }

  lemma EscapeOfOne(c: CodePoint)
    ensures EscapeBytes(Utf8(c)) == Utf8All(if IsSpecial(c) then [BACKSLASH as CodePoint, c] else [c])
  {
    if IsSpecial(c) {
      assert [BACKSLASH as CodePoint, c][1..] == [c] && [c][1..] == [];
      assert Utf8(c) == [c] && [c as Byte][1..] == [];
      assert Utf8All([c]) == [c];
    } else {
      assert [c][1..] == [];
      forall i | 0 <= i < |Utf8(c)| ensures !IsSpecial(Utf8(c)[i]) {
      }
      NothingToEscape(Utf8(c));
    }
  }

  lemma {:induction false} NothingToEscape(bs: seq<Byte>)
    requires forall i :: 0 <= i < |bs| ==> !IsSpecial(bs[i])
    ensures EscapeBytes(bs) == bs
  {
    if bs != [] {
      NothingToEscape(bs[1..]);
      assert bs == [bs[0]] + bs[1..];
    }
  }

  lemma {:induction false} EscapeConcat(a: seq<Byte>, b: seq<Byte>)
    ensures EscapeBytes(a + b) == EscapeBytes(a) + EscapeBytes(b)
  {
    if a == [] {
      assert a + b == b;
    } else {
      assert (a + b)[1..] == a[1..] + b;
      EscapeConcat(a[1..], b);
    }
  }

  lemma {:induction false} EscapeOfScalars(s: seq<Unit>)
    ensures Scalars(EscapePdfText(s)) == EscapePoints(Scalars(s))
    decreases |s|
  {
    if s != [] {
      if StartsPair(s) {
        EscapeOfScalars(s[2..]);
        EscapePair(s);
      } else {
        EscapeOfScalars(s[1..]);
        EscapeSingle(s);
      }
    }
  }

  lemma EscapePair(s: seq<Unit>)
    requires StartsPair(s)
    ensures Scalars(EscapePdfText(s)) == [Combine(s[0], s[1])] + Scalars(EscapePdfText(s[2..]))
    ensures EscapePoints(Scalars(s)) == [Combine(s[0], s[1])] + EscapePoints(Scalars(s[2..]))
  {
    assert s[1..][1..] == s[2..];
    assert EscapePdfText(s) == [s[0], s[1]] + EscapePdfText(s[2..]);
    assert EscapePdfText(s)[2..] == EscapePdfText(s[2..]);
    assert Scalars(s)[1..] == Scalars(s[2..]);
  }

  lemma ScalarsOfSingle(u: Unit, rest: seq<Unit>)
    requires !StartsPair([u] + rest)
    ensures Scalars([u] + rest) == [if IsHigh(u) || IsLow(u) then REPLACEMENT else u] + Scalars(rest)
  {
    assert ([u] + rest)[1..] == rest;
  }

  /** The escaped text begins with the same unit, or with a backslash. */
  lemma EscapedStart(s: seq<Unit>)
    requires s != []
    ensures EscapePdfText(s) != [] && EscapePdfText(s)[0] == if IsSpecial(s[0]) then BACKSLASH else s[0]
  {
  }

  /** The escaped rest does not begin with a low surrogate where the rest does not. */
  lemma EscapedApart(s: seq<Unit>)
    requires s != [] && !StartsPair(s)
    ensures !StartsPair([s[0]] + EscapePdfText(s[1..]))
  {
    if s[1..] != [] {
      EscapedStart(s[1..]);
    }
  }

  lemma EscapedSpecial(u: Unit, rest: seq<Unit>)
    requires IsSpecial(u)
    ensures Scalars([BACKSLASH, u] + rest) == [BACKSLASH as CodePoint, u] + Scalars(rest)
  {
    ScalarsOfSingle(u, rest);
    ScalarsOfSingle(BACKSLASH, [u] + rest);
    assert [BACKSLASH, u] + rest == [BACKSLASH] + ([u] + rest);
    Regroup([BACKSLASH as CodePoint], [u as CodePoint], Scalars(rest));
  }

  lemma EscapedSingle(s: seq<Unit>)
    requires s != [] && !StartsPair(s)
    ensures var c: CodePoint := if IsHigh(s[0]) || IsLow(s[0]) then REPLACEMENT else s[0];
            Scalars(EscapePdfText(s)) ==
            (if IsSpecial(s[0]) then [BACKSLASH as CodePoint, s[0]] else [c]) + Scalars(EscapePdfText(s[1..]))
  {
    if IsSpecial(s[0]) {
      EscapedSpecial(s[0], EscapePdfText(s[1..]));
    } else {
      EscapedApart(s);
      ScalarsOfSingle(s[0], EscapePdfText(s[1..]));
    }
  }

  lemma EscapeSingle(s: seq<Unit>)
    requires s != [] && !StartsPair(s) && Scalars(EscapePdfText(s[1..])) == EscapePoints(Scalars(s[1..]))
    ensures Scalars(EscapePdfText(s)) == EscapePoints(Scalars(s))
  {
    assert s == [s[0]] + s[1..];
    EscapedSingle(s);
    ScalarsOfSingle(s[0], s[1..]);
    assert Scalars(s)[1..] == Scalars(s[1..]);
  }

  lemma {:induction false} ReturnsInBytes(s: seq<Unit>)
    ensures CR in Bytes(s) <==> CR in s
    decreases |s|
  {
    if s != [] {
      var n := if StartsPair(s) then 2 else 1;
      var c := Scalars(s)[0];
      ReturnsInBytes(s[n..]);
      assert Scalars(s)[1..] == Scalars(s[n..]);
      assert Bytes(s) == Utf8(c) + Bytes(s[n..]);
      assert s == s[..n] + s[n..];
      assert CR in Utf8(c) <==> c == CR;
      assert CR in s[..n] <==> c == CR;
    }
  }

  /** The reader stops after an escaped text and has read it, with its ends of lines as
    * line feeds.
    */
  lemma ReadsEscapedText(name: seq<Unit>, rest: seq<Byte>)
    ensures ReadString(Bytes(EscapePdfText(name)) + ([RIGHT as Byte] + rest), 0) == Some((LineFeeds(Bytes(name)), rest))
  {
    EscapeOfScalars(name);
    EscapeOfUtf8(Scalars(name));
    ReadsEscaped(Bytes(name), rest);
  }

  /** That is the very text exactly when there is no carriage return in it. */
  lemma SameTextIff(name: seq<Unit>)
    ensures LineFeeds(Bytes(name)) == Bytes(name) <==> CR !in name
  {
    ReturnsInBytes(name);
    NoReturnsLeft(Bytes(name));
    if CR !in name {
      SameWithoutReturns(Bytes(name));
    }
  }

  // ---- In the file -----------------------------------------------------------------------------

  lemma BeforeTwice(a: seq<Byte>, b: seq<Byte>, read: Option<(seq<Byte>, seq<Byte>)>)
    ensures Before(a, Before(b, read)) == Before(a + b, read)
  {
    if read.Some? {
      assert a + (b + read.value.0) == a + b + read.value.0;
    }
  }

  lemma {:induction false} ReadsPlainFirst(plain: seq<Byte>, tail: seq<Byte>)
    requires forall i :: 0 <= i < |plain| ==> !IsSpecial(plain[i]) && plain[i] != CR
    ensures ReadString(plain + tail, 0) == Before(plain, ReadString(tail, 0))
  {
    if plain == [] {
      assert plain + tail == tail;
      BeforeNothing(ReadString(tail, 0));
    } else {
      assert plain == [plain[0]] + plain[1..];
      ReadsPlainFirst(plain[1..], tail);
      assert plain + tail == [plain[0]] + (plain[1..] + tail);
      ReadPlain(plain[0], plain[1..] + tail);
      BeforeTwice([plain[0]], plain[1..], ReadString(tail, 0));
    }
  }

  lemma BeforeNothing(read: Option<(seq<Byte>, seq<Byte>)>)
    ensures Before([], read) == read
  {
    if read.Some? {
      assert [] + read.value.0 == read.value.0;
    }
  }

  lemma LabelledReads(caption: seq<Byte>, name: seq<Unit>, rest: seq<Byte>)
    requires forall i :: 0 <= i < |caption| ==> !IsSpecial(caption[i]) && caption[i] != CR
    ensures ReadString(caption + Bytes(EscapePdfText(name)) + [RIGHT as Byte] + rest, 0) ==
            Some((caption + LineFeeds(Bytes(name)), rest))
  {
    var tail := Bytes(EscapePdfText(name)) + ([RIGHT as Byte] + rest);
    assert caption + Bytes(EscapePdfText(name)) + [RIGHT as Byte] + rest == caption + tail;
    ReadsPlainFirst(caption, tail);
    ReadsEscapedText(name, rest);
  }

  lemma LabelIsPlain()
    ensures forall i :: 0 <= i < |Label()| ==> !IsSpecial(Label()[i]) && Label()[i] != CR
  {
  }

  /** The string on the page, up to and with its right parenthesis. */
  function Shown(caption: seq<Unit>, name: seq<Unit>): seq<nat> {
    caption + Bytes(EscapePdfText(name)) + [RIGHT]
  }

  lemma FromThere(part: seq<nat>, file: seq<Byte>, at: nat)
    requires StandsAt(part, file, at)
    ensures file[at..] == part + file[at + |part|..]
  {
  }

  /** Where the text of the literal string begins, after its left parenthesis. */
  function StringAt(name: seq<Unit>): nat {
    ContentAt(name) + |Show()|
  }

  /** ... and where what follows its right parenthesis begins. */
  function AfterString(name: seq<Unit>): nat {
    StringAt(name) + |Shown(Label(), name)|
  }

  lemma ContentBytes(show: seq<Unit>, caption: seq<Unit>, name: seq<Unit>, end: seq<Unit>)
    requires (forall i :: 0 <= i < |show| ==> show[i] < 128) && (forall i :: 0 <= i < |caption| ==> caption[i] < 128)
    requires forall i :: 0 <= i < |end| ==> end[i] < 128
    ensures Bytes(show + caption + EscapePdfText(name) + ([RIGHT] + end)) == show + Shown(caption, name) + end
  {
    var escaped := EscapePdfText(name);
    AsciiIsBytes([RIGHT] + end);
    AsciiFirst(show + caption, escaped);
    BytesConcat(show + caption + escaped, [RIGHT] + end);
    assert show + caption + Bytes(escaped) + ([RIGHT] + end) == show + (caption + Bytes(escaped) + [RIGHT]) + end;
  }

  lemma ContentParts(name: seq<Unit>)
    ensures Bytes(Content(name)) == Show() + Shown(Label(), name) + Literal(" Tj ET")
  {
    assert Literal(") Tj ET") == [RIGHT] + Literal(" Tj ET");
    ContentBytes(Show(), Label(), name, Literal(" Tj ET"));
  }

  /** A literal string whose text lies between these places is read as the label and the
    * name, up to its right parenthesis and the end of the content. The name is read as
    * its very bytes exactly when it has no carriage return; what is read has the ends of
    * lines as line feeds.
    */
  ghost predicate ReadsAsName(name: seq<Unit>, file: seq<Byte>, from: nat, to: nat) {
    && 1 <= from <= to <= |file|
    && file[from - 1] == LEFT
    && ReadString(file[from..], 0) == Some((Label() + LineFeeds(Bytes(name)), file[to..]))
    && StandsAt(Literal(" Tj ET"), file, to)
    && (LineFeeds(Bytes(name)) == Bytes(name) <==> CR !in name)
  }

  lemma ContentReadsAsName(name: seq<Unit>, file: seq<Byte>, at: nat, from: nat, to: nat)
    requires StandsAt(Bytes(Content(name)), file, at)
    requires from == at + |Show()| && to == from + |Shown(Label(), name)|
    ensures ReadsAsName(name, file, from, to)
  {
    ContentParts(name);
    InTheMiddle(Show(), Shown(Label(), name), Literal(" Tj ET"), file, at);
    LastOfShow();
    NameReads(name, file, from);
    SameTextIff(name);
  }

  /** So it is in the file of every document. */
  lemma NameIsReadBackIff(name: seq<Unit>)
    ensures ReadsAsName(name, Bytes(Pdf(Objects(name))), StringAt(name), AfterString(name))
  {
    StreamInPlace(name);
    ContentReadsAsName(name, Bytes(Pdf(Objects(name))), ContentAt(name),
                       StringAt(name), AfterString(name));
  }

  lemma LastOfShow()
    ensures Show()[|Show()| - 1] == LEFT
  {
  }

  lemma NameReads(name: seq<Unit>, file: seq<Byte>, at: nat)
    requires StandsAt(Shown(Label(), name), file, at)
    ensures ReadString(file[at..], 0) == Some((Label() + LineFeeds(Bytes(name)), file[at + |Shown(Label(), name)|..]))
  {
    FromThere(Shown(Label(), name), file, at);
    LabelIsPlain();
    LabelledReads(Label(), name, file[at + |Shown(Label(), name)|..]);
  }
}
