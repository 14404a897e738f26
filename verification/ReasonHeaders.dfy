/** The header or headers that carry a change's reason (mcp/src/client.ts). */
module ReasonHeaders {
  import opened Wrappers
  import opened Text
  import opened PercentCoding

  const MAX_CODE_POINTS: nat := 500

  /** The reason header, and whether the encoding header marks it as percent-encoded. */
  datatype Headers = Headers(value: seq<Unit>, percent: bool)

  /** The regular expression of the source: a high surrogate that no low surrogate
    * follows, or a low surrogate that no high surrogate precedes.
    */
  predicate LoneAt(s: seq<Unit>, i: nat)
    requires i < |s|
  {
    || (IsHigh(s[i]) && !(i + 1 < |s| && IsLow(s[i + 1])))
    || (IsLow(s[i]) && !(i > 0 && IsHigh(s[i - 1])))
  }

  function ReplaceLone(s: seq<Unit>): seq<Unit> {
    seq(|s|, i requires 0 <= i < |s| => if LoneAt(s, i) then REPLACEMENT else s[i])
  }

  function Capped(cs: seq<CodePoint>): seq<CodePoint> {
    if |cs| <= MAX_CODE_POINTS then cs else cs[..MAX_CODE_POINTS]
  }

  predicate Printable(s: seq<Unit>) {
    forall i :: 0 <= i < |s| ==> 0x20 <= s[i] <= 0x7E
  }

  function HeadersOf(cs: seq<CodePoint>): Option<Headers> {
    if Printable(Join(cs)) then Some(Headers(Join(cs), false))
    else
      match EncodeUriComponent(Join(cs))
      case None => None
      case Some(encoded) => Some(Headers(encoded, true))
  }

  /** None would be an exception. */
  function Build(reason: seq<Unit>): Option<Headers> {
    HeadersOf(Capped(CodePoints(ReplaceLone(reason))))
  }

  /** How the receiver reads the reason, by the marker. */
  function Read(h: Headers): Option<seq<CodePoint>> {
    if h.percent then DecodeUriComponent(h.value) else Some(Scalars(h.value))
  }

  /** Replacing by position is replacing by reading. */
  lemma {:induction false} ReplaceLoneReads(s: seq<Unit>)
    ensures CodePoints(ReplaceLone(s)) == Scalars(s)
  {
    if s != [] {
      var n := if StartsPair(s) then 2 else 1;
      var r := ReplaceLone(s);
      forall i | 0 <= i < |s| - n ensures LoneAt(s[n..], i) == LoneAt(s, i + n) {
        assert s[n..][i] == s[i + n];
        assert i > 0 ==> s[n..][i - 1] == s[i + n - 1];
        assert i + 1 < |s| - n ==> s[n..][i + 1] == s[i + n + 1];
      }
      assert r[n..] == ReplaceLone(s[n..]);
      assert StartsPair(r) <==> StartsPair(s);
      ReplaceLoneReads(s[n..]);
    }
  }

  lemma EncodedIsPrintable(cs: seq<CodePoint>)
    requires AllScalar(cs)
    ensures Printable(EncodeAll(cs))
  {
    EncodedAlphabet(cs);
  }

  /** The headers of whole code points can be built and are read as those. */
  lemma HeadersSurvive(cs: seq<CodePoint>)
    requires AllScalar(cs)
    ensures HeadersOf(cs).Some? && Printable(HeadersOf(cs).value.value) && Read(HeadersOf(cs).value) == Some(cs)
  {
    CodePointsOfJoin(cs);
    if !Printable(Join(cs)) {
      assert !HasLoneSurrogate(cs);
      DecodeOfEncode(cs);
      EncodedIsPrintable(cs);
    }
  }

  /** For every UTF-16 string the headers can be built, hold printable ASCII only,
    * and are read as the reason itself, with surrogates outside pairs replaced and
    * cut to 500 whole code points.
    */
  lemma ReasonSurvives(reason: seq<Unit>)
    ensures Build(reason).Some?
    ensures Printable(Build(reason).value.value)
    ensures Read(Build(reason).value) == Some(Capped(Scalars(reason)))
    ensures |Capped(Scalars(reason))| <= MAX_CODE_POINTS && Capped(Scalars(reason)) <= Scalars(reason)
  {
    ReplaceLoneReads(reason);
    HeadersSurvive(Capped(Scalars(reason)));
  }

  lemma PrintableConcat(a: seq<Unit>, b: seq<Unit>)
    ensures Printable(a + b) == (Printable(a) && Printable(b))
  {
    if Printable(a + b) {
      assert forall i :: 0 <= i < |a| ==> a[i] == (a + b)[i];
      assert forall i :: 0 <= i < |b| ==> b[i] == (a + b)[|a| + i];
    }
  }

  predicate InRange(cs: seq<CodePoint>) {
    forall i :: 0 <= i < |cs| ==> 0x20 <= cs[i] <= 0x7E
  }

  lemma OnePrintable(c: CodePoint)
    ensures Printable(UnitsOf(c)) <==> 0x20 <= c <= 0x7E
  {
    if c < 0x1_0000 {
      assert UnitsOf(c)[0] == c;
    } else {
      assert UnitsOf(c)[0] >= 0xD800;
    }
  }

  lemma FirstInRange(cs: seq<CodePoint>)
    requires cs != []
    ensures InRange(cs) <==> 0x20 <= cs[0] <= 0x7E && InRange(cs[1..])
  {
    assert forall i :: 0 < i < |cs| ==> cs[i] == cs[1..][i - 1];
  }

  lemma {:induction false} JoinPrintableIff(cs: seq<CodePoint>)
    ensures Printable(Join(cs)) == InRange(cs)
    ensures InRange(cs) ==> Join(cs) == cs
  {
    if cs != [] {
      JoinPrintableIff(cs[1..]);
      OnePrintable(cs[0]);
      PrintableConcat(UnitsOf(cs[0]), Join(cs[1..]));
      FirstInRange(cs);
      assert cs == [cs[0]] + cs[1..];
    }
  }

  /** A reason of printable ASCII travels as it is, to the five hundredth character, and any
    * other is marked as encoded.
    */
  lemma PlainIff(reason: seq<Unit>)
    ensures var cs := Scalars(reason);
            var sent := if |cs| <= 500 then cs else cs[..500];
            var headers := Build(reason);
            && headers.Some? && Read(headers.value) == Some(sent)
            && (!headers.value.percent <==> forall i :: 0 <= i < |sent| ==> ' ' as int <= sent[i] <= '~' as int)
            && (!headers.value.percent ==> headers.value.value == sent)
            && (headers.value.percent ==> headers.value.value == EncodeAll(sent))
  {
    ReasonSurvives(reason);
    ReplaceLoneReads(reason);
    var sent := Capped(Scalars(reason));
    JoinPrintableIff(sent);
    CodePointsOfJoin(sent);
  }

  /** Two reasons travel the same way exactly when they read the same up to the cut. */
  lemma SameHeadersIff(a: seq<Unit>, b: seq<Unit>)
    ensures Build(a) == Build(b) <==> Capped(Scalars(a)) == Capped(Scalars(b))
  {
    ReasonSurvives(a);
    ReasonSurvives(b);
    ReplaceLoneReads(a);
    ReplaceLoneReads(b);
  }
}
