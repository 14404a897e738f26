/** The PDF that stands in for a seeded document (apps/api/prisma/seed.ts:79-108),
  * against sections 7.3.4.2, 7.3.8 and 7.5.4 of ISO 32000-1.
  */
module SeedPdf {
  import opened Decimal
  import opened Text
  import opened Wrappers

  const BACKSLASH: Unit := 0x5C
  const LEFT: Unit := 0x28
  const RIGHT: Unit := 0x29
  const CR: Unit := 0x0D
  const LF: Unit := 0x0A

  /** `Buffer.from(s, 'utf8')`: a surrogate outside a pair is written as U+FFFD. */
  function Bytes(s: seq<Unit>): seq<Byte> {
    Utf8All(Scalars(s))
  }

  lemma BytesConcat(a: seq<Unit>, b: seq<Unit>)
    requires b == [] || !IsLow(b[0])
    ensures Bytes(a + b) == Bytes(a) + Bytes(b)
  {
    ScalarsConcat(a, b);
    Utf8AllConcat(Scalars(a), Scalars(b));
  }

  /** Nothing in text without surrogates takes part in a pair with what follows. */
  lemma {:induction false} AsciiFirst(a: seq<Unit>, b: seq<Unit>)
    requires forall i :: 0 <= i < |a| ==> a[i] < 128
    ensures Bytes(a + b) == a + Bytes(b)
  {
    if a == [] {
      assert a + b == b;
    } else {
      var s := a + b;
      AsciiFirst(a[1..], b);
      assert s[1..] == a[1..] + b;
      assert Scalars(s)[1..] == Scalars(s[1..]);
    }
  }

  predicate IsSpecial(u: nat) {
    u == BACKSLASH || u == LEFT || u == RIGHT
  }

  function EscapePdfText(s: seq<Unit>): seq<Unit> {
    if s == [] then []
    else (if IsSpecial(s[0]) then [BACKSLASH, s[0]] else [s[0]]) + EscapePdfText(s[1..])
  }

  // ---- The file ------------------------------------------------------------------------------

  /** What the page shows before the document's name. */
  function Label(): (s: seq<Unit>)
    ensures forall i :: 0 <= i < |s| ==> s[i] < 128
  {
    Literal("CharityPilot local seed document: ")
  }

  function Show(): (s: seq<Unit>)
    ensures s != [] && forall i :: 0 <= i < |s| ==> s[i] < 128
  {
    Literal("BT /F1 12 Tf 36 96 Td (")
  }

  function Content(name: seq<Unit>): seq<Unit> {
    Show() + Label() + EscapePdfText(name) + Literal(") Tj ET")
  }

  function Tag(number: nat): seq<Unit> {
    Digits(number) + Literal(" 0 obj")
  }

  /** What stands before the content in its object, after the tag. */
  function StreamHead(length: nat): (s: seq<Unit>)
    ensures forall i :: 0 <= i < |s| ==> s[i] < 128
  {
    Literal("<< /Length ") + Digits(length) + Literal(" >>\nstream\n")
  }

  function StreamEnd(): (s: seq<Unit>)
    ensures forall i :: 0 <= i < |s| ==> s[i] < 128
    ensures Apart(s)
  {
    Literal("\nendstream\nendobj\n")
  }

  /** The object that holds the content, after its tag. */
  function StreamText(content: seq<Unit>): seq<Unit> {
    StreamHead(|Bytes(content)|) + content + StreamEnd()
  }

  /** The objects that are the same in every file: catalog, pages, page and font. */
  function FixedText(k: nat): seq<Unit> {
    if k == 0 then Literal("<< /Type /Catalog /Pages 2 0 R >>\nendobj\n")
    else if k == 1 then Literal("<< /Type /Pages /Kids [3 0 R] /Count 1 >>\nendobj\n")
    else if k == 2 then
      Literal("<< /Type /Page /Parent 2 0 R /MediaBox [0 0 420 144] /Resources << /Font << /F1 5 0 R >> >> /Contents 4 0 R >>\nendobj\n")
    else Literal("<< /Type /Font /Subtype /Type1 /BaseFont /Helvetica >>\nendobj\n")
  }

  /** The five objects, each after its tag. */
  function Texts(name: seq<Unit>): seq<seq<Unit>> {
    seq(5, k requires 0 <= k < 5 => if k == 3 then StreamText(Content(name)) else FixedText(k))
  }

  /** "1 0 obj", "2 0 obj" and so on, each with its text. */
  function Numbered(texts: seq<seq<Unit>>): seq<seq<Unit>> {
    seq(|texts|, k requires 0 <= k < |texts| => Tag(k + 1) + ([LF] + texts[k]))
  }

  function Objects(name: seq<Unit>): seq<seq<Unit>> {
    Numbered(Texts(name))
  }

  /** The header and the first objects. */
  function Body(objects: seq<seq<Unit>>): seq<Unit> {
    if objects == [] then Literal("%PDF-1.4\n")
    else Body(objects[..|objects| - 1]) + objects[|objects| - 1]
  }

  /** `padStart(10, '0')`: it fills up and never cuts. */
  function Padded(n: nat): seq<Unit> {
    var digits := Digits(n);
    if |digits| >= 10 then digits else Zeros(10 - |digits|) + digits
  }

  function Zeros(n: nat): (s: seq<Unit>)
    ensures |s| == n && forall i :: 0 <= i < n ==> s[i] == 0x30
  {
    if n == 0 then [] else Zeros(n - 1) + [0x30]
  }

  function Entry(offset: nat): (s: seq<Unit>)
    ensures forall i :: 0 <= i < |s| ==> s[i] < 128
  {
    Padded(offset) + Literal(" 00000 n \n")
  }

  function Flat(parts: seq<seq<Unit>>): seq<Unit> {
    if parts == [] then [] else Flat(parts[..|parts| - 1]) + parts[|parts| - 1]
  }

  function EntryList(offsets: seq<nat>): seq<seq<Unit>> {
    seq(|offsets|, i requires 0 <= i < |offsets| => Entry(offsets[i]))
  }

  function Entries(offsets: seq<nat>): seq<Unit> {
    Flat(EntryList(offsets))
  }

  function TableHead(count: nat): seq<Unit> {
    Literal("xref\n0 ") + Digits(count + 1) + Literal("\n0000000000 65535 f \n")
  }

  function Trailer(count: nat, xref: nat): seq<Unit> {
    Literal("trailer\n<< /Root 1 0 R /Size ") + Digits(count + 1) + Literal(" >>\nstartxref\n")
    + Digits(xref) + Literal("\n%%EOF\n")
  }

  /** Where the first `k` objects end. */
  function OffsetOf(objects: seq<seq<Unit>>, k: nat): nat
    requires k <= |objects|
  {
    |Bytes(Body(objects[..k]))|
  }

  function OffsetsOf(objects: seq<seq<Unit>>): seq<nat> {
    seq(|objects|, k requires 0 <= k < |objects| => OffsetOf(objects, k))
  }

  /** Everything after the objects. */
  function Tail(objects: seq<seq<Unit>>): seq<Unit> {
    TableHead(|objects|) + Entries(OffsetsOf(objects)) + Trailer(|objects|, OffsetOf(objects, |objects|))
  }

  function Pdf(objects: seq<seq<Unit>>): seq<Unit> {
    Body(objects) + Tail(objects)
  }

  lemma NextObject(objects: seq<seq<Unit>>, i: nat)
    requires i < |objects|
    ensures Body(objects[..i + 1]) == Body(objects[..i]) + objects[i]
    ensures OffsetsOf(objects)[..i + 1] == OffsetsOf(objects)[..i] + [|Bytes(Body(objects[..i]))|]
  {
    assert objects[..i + 1][..i] == objects[..i] && objects[..i + 1][i] == objects[i];
  }

  method WriteObjects(objects: seq<seq<Unit>>) returns (output: seq<Unit>, offsets: seq<nat>)
    ensures output == Body(objects) && offsets == OffsetsOf(objects)
  {
    output := Literal("%PDF-1.4\n");
    offsets := [];
    for i := 0 to |objects|
      invariant output == Body(objects[..i]) && offsets == OffsetsOf(objects)[..i]
    {
      NextObject(objects, i);
      offsets := offsets + [|Bytes(output)|];
      output := output + objects[i];
    }
    assert objects[..|objects|] == objects && OffsetsOf(objects)[..|objects|] == OffsetsOf(objects);
  }

  lemma NextEntry(offsets: seq<nat>, i: nat, before: seq<Unit>)
    requires i < |offsets|
    ensures before + Entries(offsets[..i]) + Entry(offsets[i]) == before + Entries(offsets[..i + 1])
  {
    var (head, more) := (EntryList(offsets[..i]), EntryList(offsets[..i + 1]));
    assert more[..i] == head && more[i] == Entry(offsets[i]);
    Regroup(before, Flat(head), Entry(offsets[i]));
  }

  method WriteFile(objects: seq<seq<Unit>>) returns (output: seq<Unit>)
    ensures output == Pdf(objects)
  {
    var offsets: seq<nat>;
    output, offsets := WriteObjects(objects);
    assert objects[..|objects|] == objects;
    var xrefOffset := |Bytes(output)|;
    output := output + TableHead(|objects|);
    ghost var before := output;
    assert before + Entries(offsets[..0]) == before;
    for i := 0 to |offsets|
      invariant output == before + Entries(offsets[..i])
    {
      NextEntry(offsets, i, before);
      output := output + Entry(offsets[i]);
    }
    assert offsets[..|offsets|] == offsets;
    output := output + Trailer(|objects|, xrefOffset);
    Grouped(Body(objects), TableHead(|objects|), Entries(offsets), Trailer(|objects|, xrefOffset));
  }

  lemma Grouped(a: seq<Unit>, b: seq<Unit>, c: seq<Unit>, d: seq<Unit>)
    ensures a + b + c + d == a + (b + c + d)
  {
  }

  method SeededDocumentPdf(name: seq<Unit>) returns (file: seq<Byte>)
    ensures file == Bytes(Pdf(Objects(name)))
  {
    var output := WriteFile(Objects(name));
    return Bytes(output);
  }

  // ---- Positions ---------------------------------------------------------------------------------

  /** Text that no surrogate pair reaches into from the left. */
  predicate Apart(s: seq<Unit>) {
    s == [] || !IsLow(s[0])
  }

  ghost predicate AllApart(objects: seq<seq<Unit>>) {
    forall i :: 0 <= i < |objects| ==> objects[i] != [] && Apart(objects[i])
  }

  /** `part` stands in `file` from byte `at` on. */
  ghost predicate StandsAt(part: seq<nat>, file: seq<Byte>, at: nat) {
    at + |part| <= |file| && forall i :: 0 <= i < |part| ==> file[at + i] == part[i]
  }

  /** What stands in two parts stands one after the other. */
  lemma StandsInParts(a: seq<nat>, b: seq<nat>, file: seq<Byte>, at: nat)
    ensures StandsAt(a + b, file, at) <==> StandsAt(a, file, at) && StandsAt(b, file, at + |a|)
  {
    if StandsAt(a + b, file, at) {
      forall i | 0 <= i < |a| ensures file[at + i] == a[i] {
        assert (a + b)[i] == a[i];
      }
      forall i | 0 <= i < |b| ensures file[at + |a| + i] == b[i] {
        assert (a + b)[|a| + i] == b[i];
      }
    }
  }

  lemma InTheMiddle(a: seq<nat>, b: seq<nat>, c: seq<nat>, file: seq<Byte>, at: nat)
    requires StandsAt(a + b + c, file, at)
    ensures StandsAt(a, file, at) && StandsAt(b, file, at + |a|) && StandsAt(c, file, at + |a| + |b|)
  {
    StandsInParts(a + b, c, file, at);
    StandsInParts(a, b, file, at);
  }

  /** Text in the middle of text stands at the length of what comes before it. */
  lemma BytesStand(a: seq<Unit>, b: seq<Unit>, c: seq<Unit>)
    requires Apart(b) && Apart(c)
    ensures StandsAt(Bytes(b), Bytes(a + b + c), |Bytes(a)|)
    ensures Bytes(a + b + c) == Bytes(a) + Bytes(b) + Bytes(c)
  {
    BytesConcat(a, b);
    BytesConcat(a + b, c);
    InTheMiddle(Bytes(a), Bytes(b), Bytes(c), Bytes(a + b + c), 0);
  }

  /** What follows the first `k` objects. */
  function RestOf(objects: seq<seq<Unit>>, k: nat): seq<Unit>
    requires k <= |objects|
    decreases |objects| - k
  {
    if k == |objects| then [] else objects[k] + RestOf(objects, k + 1)
  }

  lemma {:induction false} BodySplits(objects: seq<seq<Unit>>, k: nat)
    requires k <= |objects|
    ensures Body(objects) == Body(objects[..k]) + RestOf(objects, k)
    decreases |objects| - k
  {
    if k == |objects| {
      assert objects[..k] == objects;
    } else {
      BodySplits(objects, k + 1);
      NextObject(objects, k);
      assert Body(objects[..k]) + objects[k] + RestOf(objects, k + 1) == Body(objects[..k]) + (objects[k] + RestOf(objects, k + 1));
    }
  }

  lemma TailStart(objects: seq<seq<Unit>>)
    ensures Tail(objects) != [] && Apart(Tail(objects))
  {
    assert Tail(objects)[0] == TableHead(|objects|)[0];
  }

  lemma TailApart(objects: seq<seq<Unit>>, k: nat)
    requires k <= |objects| && AllApart(objects)
    ensures Apart(RestOf(objects, k) + Tail(objects))
  {
    TailStart(objects);
  }

  lemma FourParts(a: seq<Unit>, b: seq<Unit>, c: seq<Unit>, d: seq<Unit>)
    ensures a + (b + c) + d == a + b + (c + d)
  {
  }

  /** Each recorded offset is the exact byte position of its object. */
  lemma OffsetIsExact(objects: seq<seq<Unit>>, k: nat)
    requires AllApart(objects) && k < |objects|
    ensures StandsAt(Bytes(objects[k]), Bytes(Pdf(objects)), OffsetsOf(objects)[k])
  {
    BodySplits(objects, k);
    var after := RestOf(objects, k + 1) + Tail(objects);
    TailApart(objects, k + 1);
    FourParts(Body(objects[..k]), objects[k], RestOf(objects, k + 1), Tail(objects));
    BytesStand(Body(objects[..k]), objects[k], after);
  }

  lemma TailInPlace(objects: seq<seq<Unit>>)
    ensures StandsAt(Bytes(Tail(objects)), Bytes(Pdf(objects)), OffsetOf(objects, |objects|))
  {
    assert objects[..|objects|] == objects;
    TailStart(objects);
    BytesConcat(Body(objects), Tail(objects));
    StandsInParts(Bytes(Body(objects)), Bytes(Tail(objects)), Bytes(Pdf(objects)), 0);
  }

  /** `startxref` is the exact byte position of the table. */
  lemma XrefIsExact(objects: seq<seq<Unit>>)
    ensures StandsAt(Bytes(Tail(objects)), Bytes(Pdf(objects)), OffsetOf(objects, |objects|))
    ensures Tail(objects)[..5] == Literal("xref\n")
  {
    TailInPlace(objects);
    assert forall i :: 0 <= i < 5 ==> Tail(objects)[i] == Literal("xref\n0 ")[i] == Literal("xref\n")[i];
  }

  lemma TagApart(number: nat, rest: seq<Unit>)
    ensures Tag(number) + rest != [] && Apart(Tag(number) + rest)
  {
    assert (Tag(number) + rest)[0] == Digits(number)[0];
  }

  lemma NumberedApart(texts: seq<seq<Unit>>)
    ensures AllApart(Numbered(texts))
  {
    forall k | 0 <= k < |texts| ensures Numbered(texts)[k] != [] && Apart(Numbered(texts)[k]) {
      TagApart(k + 1, [LF] + texts[k]);
    }
  }

  lemma AsciiTag(number: nat)
    ensures Bytes(Tag(number)) == Tag(number)
  {
    AsciiIsBytes(Tag(number));
  }

  lemma PrefixStands(prefix: seq<Unit>, rest: seq<Unit>, file: seq<Byte>, at: nat)
    requires StandsAt(Bytes(prefix + rest), file, at) && Apart(rest)
    ensures StandsAt(Bytes(prefix), file, at)
  {
    BytesConcat(prefix, rest);
    StandsInParts(Bytes(prefix), Bytes(rest), file, at);
  }

  lemma NumberedStands(texts: seq<seq<Unit>>, k: nat)
    requires k < |texts|
    ensures StandsAt(Bytes(Tag(k + 1) + ([LF] + texts[k])), Bytes(Pdf(Numbered(texts))), OffsetsOf(Numbered(texts))[k])
  {
    var objects := Numbered(texts);
    NumberedApart(texts);
    OffsetIsExact(objects, k);
    assert objects[k] == Tag(k + 1) + ([LF] + texts[k]);
  }

  /** Whatever the objects: where the table says object `n` is, there is "n 0 obj". */
  lemma NumberedInPlace(texts: seq<seq<Unit>>, k: nat)
    requires k < |texts|
    ensures StandsAt(Tag(k + 1), Bytes(Pdf(Numbered(texts))), OffsetsOf(Numbered(texts))[k])
  {
    NumberedStands(texts, k);
    AsciiTag(k + 1);
    PrefixStands(Tag(k + 1), [LF] + texts[k], Bytes(Pdf(Numbered(texts))), OffsetsOf(Numbered(texts))[k]);
  }

  // ---- The table ---------------------------------------------------------------------------------

  /** What ten digits cannot write. */
  const LIMIT: nat := 10_000_000_000

  lemma LimitIsPower()
    ensures Power10(10) == LIMIT
  {
    assert Power10(2) == 100 && Power10(4) == 10_000 && Power10(6) == 1_000_000 && Power10(8) == 100_000_000;
  }

  /** An entry is twenty bytes exactly as long as ten digits are enough. */
  lemma EntryIsTwentyBytes(offset: nat)
    ensures Bytes(Entry(offset)) == Entry(offset)
    ensures |Entry(offset)| == 20 <==> offset < LIMIT
  {
    AsciiIsBytes(Entry(offset));
    LimitIsPower();
    if offset < LIMIT {
      DigitsLength(offset, 10);
    } else {
      DigitsTooMany(offset, 10);
    }
  }

  lemma {:induction false} DigitsTooMany(n: nat, places: nat)
    requires n >= Power10(places)
    ensures |Digits(n)| > places
    decreases places
  {
    if places > 0 {
      assert n >= 10;
      DigitsTooMany(n / 10, places - 1);
    }
  }

  /** The ten digits of an entry are read as the offset. */
  lemma EntryReads(offset: nat)
    requires offset < LIMIT
    ensures AllDigits(Entry(offset)[..10]) && Value(Entry(offset)[..10]) == offset
  {
    LimitIsPower();
    DigitsLength(offset, 10);
    assert Entry(offset)[..10] == Padded(offset);
    ValueOfDigits(offset);
    if |Digits(offset)| < 10 {
      ZerosInFront(10 - |Digits(offset)|, Digits(offset));
    }
  }

  lemma {:induction false} ZerosInFront(zeros: nat, digits: seq<Unit>)
    requires AllDigits(digits)
    ensures AllDigits(Zeros(zeros) + digits) && Value(Zeros(zeros) + digits) == Value(digits)
    decreases zeros + |digits|
  {
    var s := Zeros(zeros) + digits;
    if digits != [] {
      assert s[..|s| - 1] == Zeros(zeros) + digits[..|digits| - 1];
      ZerosInFront(zeros, digits[..|digits| - 1]);
    } else if zeros > 0 {
      assert s[..|s| - 1] == Zeros(zeros - 1) + [];
      ZerosInFront(zeros - 1, []);
    }
  }

  /** Parts of twenty bytes stand twenty bytes apart. */
  lemma {:induction false} FlatPosition(parts: seq<seq<Unit>>, k: nat)
    requires k < |parts| && forall i :: 0 <= i < |parts| ==> |parts[i]| == 20
    ensures 20 * k + 20 <= |Flat(parts)| == 20 * |parts|
    ensures Flat(parts)[20 * k..20 * k + 20] == parts[k]
    decreases |parts|
  {
    var last := |parts| - 1;
    var before := Flat(parts[..last]);
    if last > 0 {
      FlatPosition(parts[..last], if k < last then k else 0);
    }
    if k < last {
      PrefixPart(before, parts[last], 20 * k, 20 * k + 20);
    } else {
      LastPart(before, parts[last]);
    }
  }

  lemma PrefixPart(a: seq<Unit>, b: seq<Unit>, from: nat, to: nat)
    requires from <= to <= |a|
    ensures (a + b)[from..to] == a[from..to]
  {
  }

  lemma LastPart(a: seq<Unit>, b: seq<Unit>)
    ensures (a + b)[|a|..|a| + |b|] == b
  {
  }

  lemma {:induction false} FlatAscii(parts: seq<seq<Unit>>)
    requires forall i, j :: 0 <= i < |parts| && 0 <= j < |parts[i]| ==> parts[i][j] < 128
    ensures forall i :: 0 <= i < |Flat(parts)| ==> Flat(parts)[i] < 128
  {
    if parts != [] {
      FlatAscii(parts[..|parts| - 1]);
    }
  }

  lemma OffsetsAreInside(objects: seq<seq<Unit>>, k: nat)
    requires AllApart(objects) && k < |objects|
    ensures OffsetsOf(objects)[k] <= |Bytes(Pdf(objects))|
  {
    OffsetIsExact(objects, k);
  }

  lemma EntriesAscii(offsets: seq<nat>)
    ensures forall i :: 0 <= i < |Entries(offsets)| ==> Entries(offsets)[i] < 128
  {
    FlatAscii(EntryList(offsets));
  }

  lemma OffsetsAreSmall(objects: seq<seq<Unit>>)
    requires AllApart(objects) && |Bytes(Pdf(objects))| < LIMIT
    ensures forall i :: 0 <= i < |objects| ==> OffsetsOf(objects)[i] < LIMIT
  {
    forall i | 0 <= i < |objects| ensures OffsetsOf(objects)[i] < LIMIT {
      OffsetsAreInside(objects, i);
    }
  }

  /** Where the entries begin. */
  function EntriesAt(objects: seq<seq<Unit>>): nat {
    OffsetOf(objects, |objects|) + |Bytes(TableHead(|objects|))|
  }

  lemma TailParts(head: seq<Unit>, entries: seq<Unit>, end: seq<Unit>, file: seq<Byte>, at: nat)
    requires StandsAt(Bytes(head + entries + end), file, at) && Apart(entries) && Apart(end)
    ensures StandsAt(Bytes(entries), file, at + |Bytes(head)|)
  {
    BytesStand(head, entries, end);
    InTheMiddle(Bytes(head), Bytes(entries), Bytes(end), file, at);
  }

  lemma TrailerApart(count: nat, xref: nat)
    ensures Apart(Trailer(count, xref))
  {
    assert Trailer(count, xref)[0] == Literal("trailer\n<< /Root 1 0 R /Size ")[0];
  }

  lemma EntriesInPlace(objects: seq<seq<Unit>>)
    ensures StandsAt(Bytes(Entries(OffsetsOf(objects))), Bytes(Pdf(objects)), EntriesAt(objects))
  {
    TailInPlace(objects);
    EntriesAscii(OffsetsOf(objects));
    TrailerApart(|objects|, OffsetOf(objects, |objects|));
    TailParts(TableHead(|objects|), Entries(OffsetsOf(objects)), Trailer(|objects|, OffsetOf(objects, |objects|)),
              Bytes(Pdf(objects)), OffsetOf(objects, |objects|));
  }

  lemma AsciiPartReads(s: seq<Unit>, part: seq<Unit>, from: nat, file: seq<Byte>, at: nat)
    requires from + |part| <= |s| && s[from..from + |part|] == part
    requires (forall i :: 0 <= i < |s| ==> s[i] < 128) && StandsAt(Bytes(s), file, at)
    ensures StandsAt(part, file, at + from)
  {
    AsciiIsBytes(s);
    forall i | 0 <= i < |part| ensures file[at + from + i] == part[i] {
      assert s[from..from + |part|][i] == s[from + i];
    }
  }

  ghost predicate AllAscii(parts: seq<seq<Unit>>) {
    forall i, j :: 0 <= i < |parts| && 0 <= j < |parts[i]| ==> parts[i][j] < 128
  }

  lemma PartReads(parts: seq<seq<Unit>>, k: nat, file: seq<Byte>, at: nat)
    requires k < |parts| && AllAscii(parts) && forall i :: 0 <= i < |parts| ==> |parts[i]| == 20
    requires StandsAt(Bytes(Flat(parts)), file, at)
    ensures StandsAt(parts[k], file, at + 20 * k)
  {
    FlatPosition(parts, k);
    FlatAscii(parts);
    AsciiPartReads(Flat(parts), parts[k], 20 * k, file, at);
  }

  /** In a file of less than ten thousand million bytes the entry for each object stands
    * twenty bytes after the one before.
    */
  lemma EntryInPlace(objects: seq<seq<Unit>>, k: nat)
    requires AllApart(objects) && k < |objects| && |Bytes(Pdf(objects))| < LIMIT
    ensures StandsAt(Entry(OffsetsOf(objects)[k]), Bytes(Pdf(objects)), EntriesAt(objects) + 20 * k)
  {
    var offsets := OffsetsOf(objects);
    var parts := EntryList(offsets);
    OffsetsAreSmall(objects);
    forall i | 0 <= i < |parts| ensures |parts[i]| == 20 {
      EntryIsTwentyBytes(offsets[i]);
    }
    EntriesInPlace(objects);
    PartReads(parts, k, Bytes(Pdf(objects)), EntriesAt(objects));
  }

  // ---- The stream --------------------------------------------------------------------------------

  lemma StreamBytes(content: seq<Unit>)
    requires Apart(content)
    ensures Bytes(StreamText(content)) ==
            StreamHead(|Bytes(content)|) + Bytes(content) + StreamEnd()
  {
    AsciiIsBytes(StreamHead(|Bytes(content)|));
    AsciiIsBytes(StreamEnd());
    BytesStand(StreamHead(|Bytes(content)|), content, StreamEnd());
  }

  lemma ContentApart(name: seq<Unit>)
    ensures Apart(Content(name))
  {
    assert Content(name)[0] == Show()[0];
  }

  /** Where the text of an object begins, after its tag and the end of that line. */
  function TextAt(texts: seq<seq<Unit>>, k: nat): nat
    requires k < |texts|
  {
    OffsetsOf(Numbered(texts))[k] + |Tag(k + 1)| + 1
  }

  lemma TextInPlace(texts: seq<seq<Unit>>, k: nat)
    requires k < |texts| && Apart(texts[k])
    ensures StandsAt(Bytes(texts[k]), Bytes(Pdf(Numbered(texts))), TextAt(texts, k))
  {
    NumberedStands(texts, k);
    TextAfterTag(k + 1, texts[k], Bytes(Pdf(Numbered(texts))), OffsetsOf(Numbered(texts))[k]);
  }

  lemma TextAfterTag(number: nat, text: seq<Unit>, file: seq<Byte>, at: nat)
    requires StandsAt(Bytes(Tag(number) + ([LF] + text)), file, at) && Apart(text)
    ensures StandsAt(Bytes(text), file, at + |Tag(number)| + 1)
  {
    var before := Tag(number) + [LF];
    Regroup(Tag(number), [LF], text);
    AsciiIsBytes(before);
    BytesConcat(before, text);
    StandsInParts(before, Bytes(text), file, at);
  }

  /** Where the content of the document with this name begins in its file. */
  function ContentAt(name: seq<Unit>): nat {
    TextAt(Texts(name), 3) + |StreamHead(|Bytes(Content(name))|)|
  }

  /** A stream object stands from byte `from` on, and its content from byte `to` on: the
    * length it declares is the number of bytes between "stream" and "endstream", and
    * those are the content's.
    */
  ghost predicate HoldsStream(content: seq<Byte>, file: seq<Byte>, from: nat, to: nat) {
    && to == from + |StreamHead(|content|)|
    && StandsAt(StreamHead(|content|), file, from)
    && StandsAt(content, file, to)
    && StandsAt(StreamEnd(), file, to + |content|)
  }

  lemma StreamApart(content: seq<Unit>)
    ensures Apart(StreamText(content))
  {
    assert StreamText(content)[0] == Literal("<< /Length ")[0];
  }

  lemma TextHoldsStream(content: seq<Unit>, file: seq<Byte>, from: nat, to: nat)
    requires Apart(content) && StandsAt(Bytes(StreamText(content)), file, from)
    requires to == from + |StreamHead(|Bytes(content)|)|
    ensures HoldsStream(Bytes(content), file, from, to)
  {
    StreamBytes(content);
    InTheMiddle(StreamHead(|Bytes(content)|), Bytes(content), StreamEnd(), file, from);
  }

  /** So it is in the file of every document, in its fourth object. */
  lemma StreamInPlace(name: seq<Unit>)
    ensures |Texts(name)| == 5
    ensures HoldsStream(Bytes(Content(name)), Bytes(Pdf(Objects(name))), TextAt(Texts(name), 3), ContentAt(name))
  {
    ContentApart(name);
    StreamApart(Content(name));
    TextInPlace(Texts(name), 3);
    TextHoldsStream(Content(name), Bytes(Pdf(Objects(name))), TextAt(Texts(name), 3), ContentAt(name));
  }

  // ---- The file of a document, in full -----------------------------------------------------------

  /** Its five objects: a catalog of one page, which shows the fourth in the font of the fifth. */
  lemma FiveObjects(name: seq<Unit>)
    ensures Texts(name) ==
            [ Literal("<< /Type /Catalog /Pages 2 0 R >>\nendobj\n"),
              Literal("<< /Type /Pages /Kids [3 0 R] /Count 1 >>\nendobj\n"),
              Literal("<< /Type /Page /Parent 2 0 R /MediaBox [0 0 420 144] /Resources << /Font << /F1 5 0 R >> >> /Contents 4 0 R >>\nendobj\n"),
              StreamText(Content(name)),
              Literal("<< /Type /Font /Subtype /Type1 /BaseFont /Helvetica >>\nendobj\n") ]
  {
  }

  /** Each has its number in front. */
  lemma ObjectsInFull(name: seq<Unit>, k: nat)
    requires k < 5
    ensures |Objects(name)| == |Texts(name)| == 5
    ensures Objects(name)[k] == [0x31 + k] + Literal(" 0 obj") + ([LF] + Texts(name)[k])
  {
    assert Digits(k + 1) == [0x31 + k];
  }

  /** The object with the content says how many bytes that has. */
  lemma StreamInFull(content: seq<Unit>)
    ensures StreamText(content) ==
            Literal("<< /Length ") + Digits(|Bytes(content)|) + Literal(" >>\nstream\n") + content
            + Literal("\nendstream\nendobj\n")
  {
  }

  /** What follows them: six entries, the first of them free, the size of the table again, and
    * the number that is read back as the position of the table.
    */
  lemma TailOfFive(name: seq<Unit>)
    ensures |Objects(name)| == 5
    ensures var xref := OffsetOf(Objects(name), 5);
            Tail(Objects(name)) ==
            Literal("xref\n0 ") + [0x36] + Literal("\n0000000000 65535 f \n") + Entries(OffsetsOf(Objects(name)))
            + (Literal("trailer\n<< /Root 1 0 R /Size ") + [0x36] + Literal(" >>\nstartxref\n")
               + Digits(xref) + Literal("\n%%EOF\n"))
            && Value(Digits(xref)) == xref
  {
    ValueOfDigits(OffsetOf(Objects(name), 5));
    assert Digits(6) == [0x36];
  }
}
