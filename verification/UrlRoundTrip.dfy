/** What the URL builder keeps: the segments of its template, whatever the order of
  * the parameters, and every argument, which reading the URL recovers.
  */
module UrlRoundTrip {
  import opened Decimal
  import opened Json
  import opened PercentCoding
  import opened Text
  import opened TextLists
  import opened ToolBody
  import opened ToolInput
  import opened Wrappers

  // ---- Templates -----------------------------------------------------------------------------

  ghost predicate DistinctNames(params: seq<ParamSpec>) {
    forall i, j :: 0 <= i < j < |params| ==> ParamName(params[i]) != ParamName(params[j])
  }

  /** A segment to be replaced by one of the identifiers. */
  ghost predicate IsPlaceholder(seg: seq<Unit>, params: seq<ParamSpec>) {
    exists i :: 0 <= i < |params| && params[i].IdParam? && seg == Placeholder(params[i].id)
  }

  /** Ordinary text, which an identifier is too. */
  ghost predicate IsPlain(seg: seq<Unit>) {
    !Has(seg, COLON) && !Has(seg, SLASH) && !Has(seg, QUESTION)
  }

  ghost predicate PlacedOnce(segs: seq<seq<Unit>>, name: Name) {
    exists j :: PlacedAt(segs, name, j)
  }

  ghost predicate PlacedAt(segs: seq<seq<Unit>>, name: Name, j: nat) {
    j < |segs| && segs[j] == Placeholder(name) && forall i :: 0 <= i < |segs| && i != j ==> segs[i] != Placeholder(name)
  }

  /** Every segment is plain or a placeholder, every identifier has its place, and no
    * identifier's name begins another's.
    */
  ghost predicate Fillable(segs: seq<seq<Unit>>, params: seq<ParamSpec>) {
    && segs != [] && DistinctNames(params)
    && (forall i :: 0 <= i < |segs| ==> IsPlain(segs[i]) || IsPlaceholder(segs[i], params))
    && (forall i :: 0 <= i < |params| && params[i].IdParam? ==> PlacedOnce(segs, params[i].id))
    && (forall i, j :: 0 <= i < |params| && 0 <= j < |params| && i != j && params[i].IdParam? && params[j].IdParam? ==>
          !(params[i].id <= params[j].id))
  }

  ghost predicate WellFormed(template: seq<Unit>, params: seq<ParamSpec>) {
    Fillable(Split(template, SLASH), params)
  }

  /** The segments once filled in: this does not mention any order. */
  ghost predicate FilledIn(done: seq<seq<Unit>>, segs: seq<seq<Unit>>, params: seq<ParamSpec>, args: map<string, Json>) {
    && |done| == |segs|
    && (forall i :: 0 <= i < |segs| && IsPlain(segs[i]) ==> done[i] == segs[i])
    && (forall i, k :: 0 <= i < |segs| && 0 <= k < |params| && params[k].IdParam? && segs[i] == Placeholder(params[k].id) ==>
          done[i] == IdText(args, params[k].id))
  }

  // ---- Filling one placeholder ---------------------------------------------------------------

  lemma NameUnits(name: Name)
    ensures forall i :: 0 <= i < |Units(name)| ==> IsIdCharacter(Units(name)[i])
    ensures IsPlain(Units(name))
  {
  }

  lemma UnitsPrefix(a: Name, b: Name)
    ensures Units(a) <= Units(b) <==> a <= b
  {
    if Units(a) <= Units(b) {
      forall i | 0 <= i < |a| ensures a[i] == b[i] {
        assert Units(a)[i] == Units(b)[i];
      }
    }
  }

  lemma SamePlaceholderIff(a: Name, b: Name)
    ensures Placeholder(a) == Placeholder(b) <==> a == b
  {
    if Placeholder(a) == Placeholder(b) {
      assert Units(a) == Placeholder(a)[1..] == Placeholder(b)[1..] == Units(b);
      UnitsPrefix(a, b);
      UnitsPrefix(b, a);
    }
  }

  /** A placeholder at the start of text that begins with another one begins that one. */
  lemma PlaceholderAtOther(name: Name, other: Name, rest: seq<Unit>)
    requires Placeholder(name) <= Placeholder(other) + rest
    requires rest == [] || !IsIdCharacter(rest[0])
    ensures name <= other
  {
    var s := Placeholder(other) + rest;
    NameUnits(name);
    assert forall i :: 0 <= i < |name| ==> s[i + 1] == Placeholder(name)[i + 1] == Units(name)[i];
    assert s[|other| + 1..] == rest;
    assert |name| <= |other|;
    assert forall i :: 0 <= i < |other| ==> s[i + 1] == Placeholder(other)[i + 1] == Units(other)[i];
    UnitsPrefix(name, other);
  }

  lemma ColonComesFirst(name: Name, i: nat)
    requires i < |Placeholder(name)| && Placeholder(name)[i] == COLON
    ensures i == 0
  {
    NameUnits(name);
    assert forall j :: 0 < j < |Placeholder(name)| ==> Placeholder(name)[j] == Units(name)[j - 1];
  }

  lemma NotInPlain(name: Name, s: seq<Unit>, i: nat)
    requires i < |s| && s[i] != COLON
    ensures !(Placeholder(name) <= s[i..])
  {
    assert s[i..][0] == s[i] && Placeholder(name)[0] == COLON;
  }

  /** A segment that a placeholder's name does not begin. */
  ghost predicate Passes(seg: seq<Unit>, name: Name) {
    IsPlain(seg) || exists other: Name :: seg == Placeholder(other) && !(name <= other)
  }

  lemma NotInSegment(name: Name, seg: seq<Unit>, rest: seq<Unit>, i: nat)
    requires Passes(seg, name) && i <= |seg| && (rest == [] || rest[0] == SLASH)
    requires i < |seg| || rest != []
    ensures !(Placeholder(name) <= (seg + rest)[i..])
  {
    var s := seg + rest;
    if s[i] == COLON {
      var other: Name :| seg == Placeholder(other) && !(name <= other);
      ColonComesFirst(other, i);
      assert s[0..] == s;
      if Placeholder(name) <= s {
        PlaceholderAtOther(name, other, rest);
      }
    } else {
      NotInPlain(name, s, i);
    }
  }

  // ---- Filling one placeholder among the segments ----------------------------------------------

  lemma JoinHead(segs: seq<seq<Unit>>)
    requires segs != []
    ensures var rest := if |segs| == 1 then [] else [SLASH] + JoinWith(segs[1..], SLASH);
            JoinWith(segs, SLASH) == segs[0] + rest
  {
    if |segs| > 1 {
      Regroup(segs[0], [SLASH], JoinWith(segs[1..], SLASH));
    }
  }

  /** Replacing a placeholder in the text replaces the segment it is. */
  lemma {:induction false} ReplaceInSegments(segs: seq<seq<Unit>>, j: nat, name: Name, value: seq<Unit>)
    requires j < |segs| && segs[j] == Placeholder(name)
    requires forall i :: 0 <= i < j ==> Passes(segs[i], name)
    ensures Replace(JoinWith(segs, SLASH), Placeholder(name), value) == JoinWith(segs[j := value], SLASH)
    decreases j
  {
    var s := JoinWith(segs, SLASH);
    JoinHead(segs);
    JoinHead(segs[j := value]);
    if j == 0 {
      assert Placeholder(name) <= s;
      assert s[|Placeholder(name)|..] == if |segs| == 1 then [] else [SLASH] + JoinWith(segs[1..], SLASH);
      assert segs[0 := value][1..] == segs[1..];
    } else {
      var rest := [SLASH] + JoinWith(segs[1..], SLASH);
      var n := |segs[0]| + 1;
      forall i | 0 <= i < n ensures !(Placeholder(name) <= s[i..]) {
        NotInSegment(name, segs[0], rest, i);
      }
      ReplaceSkips(s, n, Placeholder(name), value);
      assert s[..n] == segs[0] + [SLASH] && s[n..] == JoinWith(segs[1..], SLASH);
      ReplaceInSegments(segs[1..], j - 1, name, value);
      assert segs[j := value][1..] == segs[1..][j - 1 := value];
      Regroup(segs[0], [SLASH], JoinWith(segs[1..][j - 1 := value], SLASH));
    }
  }

  // ---- Filling them all --------------------------------------------------------------------------

  function FilledSegment(seg: seq<Unit>, params: seq<ParamSpec>, args: map<string, Json>): seq<Unit> {
    if params == [] then seg
    else if params[0].IdParam? && seg == Placeholder(params[0].id) then IdText(args, params[0].id)
    else FilledSegment(seg, params[1..], args)
  }

  function Filled(segs: seq<seq<Unit>>, params: seq<ParamSpec>, args: map<string, Json>): (done: seq<seq<Unit>>)
    ensures |done| == |segs|
  {
    seq(|segs|, i requires 0 <= i < |segs| => FilledSegment(segs[i], params, args))
  }

  ghost predicate PlainIds(params: seq<ParamSpec>, args: map<string, Json>) {
    forall spec | spec in params && spec.IdParam? :: IsPlain(IdText(args, spec.id))
  }

  lemma PlainIsNoPlaceholder(seg: seq<Unit>, name: Name)
    requires IsPlain(seg)
    ensures seg != Placeholder(name)
  {
    assert Placeholder(name)[0] == COLON;
  }

  lemma {:induction false} PlainStays(seg: seq<Unit>, params: seq<ParamSpec>, args: map<string, Json>)
    requires IsPlain(seg)
    ensures FilledSegment(seg, params, args) == seg
  {
    if params != [] {
      if params[0].IdParam? {
        PlainIsNoPlaceholder(seg, params[0].id);
      }
      PlainStays(seg, params[1..], args);
    }
  }

  lemma OthersPass(segs: seq<seq<Unit>>, params: seq<ParamSpec>, j: nat)
    requires Fillable(segs, params) && params != [] && params[0].IdParam? && PlacedAt(segs, params[0].id, j)
    ensures forall i :: 0 <= i < |segs| && i != j ==> Passes(segs[i], params[0].id)
  {
    forall i | 0 <= i < |segs| && i != j ensures Passes(segs[i], params[0].id) {
      if !IsPlain(segs[i]) {
        var k :| 0 <= k < |params| && params[k].IdParam? && segs[i] == Placeholder(params[k].id);
        assert k != 0;
      }
    }
  }

  /** What is left to fill once the first parameter has been dealt with. */
  lemma OthersPlaced(segs: seq<seq<Unit>>, params: seq<ParamSpec>, j: nat, value: seq<Unit>, k: nat)
    requires Fillable(segs, params) && params != [] && params[0].IdParam? && PlacedAt(segs, params[0].id, j)
    requires IsPlain(value) && 0 < k < |params| && params[k].IdParam?
    ensures PlacedOnce(segs[j := value], params[k].id)
  {
    var name := params[k].id;
    var at: nat :| PlacedAt(segs, name, at);
    SamePlaceholderIff(params[0].id, name);
    PlainIsNoPlaceholder(value, name);
    assert PlacedAt(segs[j := value], name, at);
  }

  lemma OthersStay(segs: seq<seq<Unit>>, params: seq<ParamSpec>, j: nat, value: seq<Unit>, i: nat)
    requires Fillable(segs, params) && params != [] && params[0].IdParam? && PlacedAt(segs, params[0].id, j)
    requires IsPlain(value) && i < |segs|
    ensures IsPlain(segs[j := value][i]) || IsPlaceholder(segs[j := value][i], params[1..])
  {
    if i != j && !IsPlain(segs[i]) {
      var k :| 0 <= k < |params| && params[k].IdParam? && segs[i] == Placeholder(params[k].id);
      assert params[1..][k - 1] == params[k];
    }
  }

  lemma StillFillable(segs: seq<seq<Unit>>, params: seq<ParamSpec>, j: nat, value: seq<Unit>)
    requires Fillable(segs, params) && params != [] && params[0].IdParam? && PlacedAt(segs, params[0].id, j)
    requires IsPlain(value)
    ensures Fillable(segs[j := value], params[1..])
  {
    var (segs', rest) := (segs[j := value], params[1..]);
    forall i | 0 <= i < |segs'| ensures IsPlain(segs'[i]) || IsPlaceholder(segs'[i], rest) {
      OthersStay(segs, params, j, value, i);
    }
    forall k | 0 <= k < |rest| && rest[k].IdParam? ensures PlacedOnce(segs', rest[k].id) {
      OthersPlaced(segs, params, j, value, k + 1);
    }
  }

  lemma RestFillable(segs: seq<seq<Unit>>, params: seq<ParamSpec>)
    requires Fillable(segs, params) && params != [] && !params[0].IdParam?
    ensures Fillable(segs, params[1..])
  {
    var rest := params[1..];
    forall i | 0 <= i < |segs| ensures IsPlain(segs[i]) || IsPlaceholder(segs[i], rest) {
      if !IsPlain(segs[i]) {
        var k :| 0 <= k < |params| && params[k].IdParam? && segs[i] == Placeholder(params[k].id);
        assert rest[k - 1] == params[k];
      }
    }
  }

  lemma SegmentsAfterStep(segs: seq<seq<Unit>>, params: seq<ParamSpec>, args: map<string, Json>, j: nat)
    requires params != [] && params[0].IdParam? && PlacedAt(segs, params[0].id, j)
    requires IsPlain(IdText(args, params[0].id))
    ensures Filled(segs[j := IdText(args, params[0].id)], params[1..], args) == Filled(segs, params, args)
  {
    PlainStays(IdText(args, params[0].id), params[1..], args);
  }

  /** Replacing first occurrences, in the order of the parameters, is filling in segments. */
  lemma {:induction false} FillSegments(segs: seq<seq<Unit>>, params: seq<ParamSpec>, args: map<string, Json>)
    requires Fillable(segs, params) && PlainIds(params, args)
    ensures Fill(JoinWith(segs, SLASH), params, args) == JoinWith(Filled(segs, params, args), SLASH)
    decreases |params|
  {
    if params == [] {
      assert Filled(segs, params, args) == segs;
    } else if params[0].IdParam? {
      var name, value := params[0].id, IdText(args, params[0].id);
      assert PlacedOnce(segs, name);
      var j: nat :| PlacedAt(segs, name, j);
      OthersPass(segs, params, j);
      ReplaceInSegments(segs, j, name, value);
      StillFillable(segs, params, j, value);
      FillSegments(segs[j := value], params[1..], args);
      SegmentsAfterStep(segs, params, args, j);
    } else {
      RestFillable(segs, params);
      FillSegments(segs, params[1..], args);
      assert Filled(segs, params, args) == Filled(segs, params[1..], args);
    }
  }

  // ---- The path keeps its segments ---------------------------------------------------------------

  function PathOf(url: seq<Unit>): seq<Unit> {
    url[..Find(url, QUESTION)]
  }

  lemma IdIsPlain(s: seq<Unit>)
    requires IsId(s)
    ensures IsPlain(s)
  {
  }

  lemma AcceptedIdsArePlain(params: seq<ParamSpec>, args: map<string, Json>)
    requires Accepted(params, args)
    ensures PlainIds(params, args)
  {
    forall spec | spec in params && spec.IdParam? ensures IsPlain(IdText(args, spec.id)) {
      assert Accepts(spec, args);
      IdIsPlain(args[spec.id].s);
    }
  }

  /** A filled placeholder is its identifier, wherever in the list its parameter stands. */
  lemma {:induction false} PlaceholderBecomes(params: seq<ParamSpec>, k: nat, args: map<string, Json>)
    requires DistinctNames(params) && k < |params| && params[k].IdParam?
    ensures FilledSegment(Placeholder(params[k].id), params, args) == IdText(args, params[k].id)
  {
    if k > 0 {
      if params[0].IdParam? {
        assert ParamName(params[0]) != ParamName(params[k]);
        SamePlaceholderIff(params[k].id, params[0].id);
      }
      PlaceholderBecomes(params[1..], k - 1, args);
    }
  }

  lemma FilledIsFilledIn(segs: seq<seq<Unit>>, params: seq<ParamSpec>, args: map<string, Json>)
    requires Fillable(segs, params)
    ensures FilledIn(Filled(segs, params, args), segs, params, args)
  {
    var done := Filled(segs, params, args);
    forall i | 0 <= i < |segs| && IsPlain(segs[i]) ensures done[i] == segs[i] {
      PlainStays(segs[i], params, args);
    }
    forall i, k | 0 <= i < |segs| && 0 <= k < |params| && params[k].IdParam? && segs[i] == Placeholder(params[k].id)
      ensures done[i] == IdText(args, params[k].id)
    {
      PlaceholderBecomes(params, k, args);
    }
  }

  lemma FilledArePlain(segs: seq<seq<Unit>>, params: seq<ParamSpec>, args: map<string, Json>)
    requires Fillable(segs, params) && PlainIds(params, args)
    ensures forall i :: 0 <= i < |segs| ==> IsPlain(Filled(segs, params, args)[i])
  {
    var done := Filled(segs, params, args);
    FilledIsFilledIn(segs, params, args);
    forall i | 0 <= i < |segs| ensures IsPlain(done[i]) {
      if !IsPlain(segs[i]) {
        assert IsPlaceholder(segs[i], params);
      }
    }
  }

  lemma {:induction false} JoinLacks(parts: seq<seq<Unit>>, sep: Unit, u: Unit)
    requires u != sep && forall i :: 0 <= i < |parts| ==> !Has(parts[i], u)
    ensures !Has(JoinWith(parts, sep), u)
  {
    if |parts| == 1 {
      assert !Has(parts[0], u);
    } else if |parts| > 1 {
      assert !Has(parts[0], u);
      JoinLacks(parts[1..], sep, u);
    }
  }

  lemma {:induction false} NoColonNoPlaceholder(s: seq<Unit>)
    requires !Has(s, COLON)
    ensures !Includes(s, [SLASH, COLON])
  {
    if |s| >= 2 {
      assert s[1] != COLON;
      NoColonNoPlaceholder(s[1..]);
    }
  }

  /** The filled path, and that nothing is left in it to be filled. */
  lemma FilledPath(template: seq<Unit>, params: seq<ParamSpec>, args: map<string, Json>)
    requires WellFormed(template, params) && Accepted(params, args)
    ensures var path := Fill(template, params, args);
            && path == JoinWith(Filled(Split(template, SLASH), params, args), SLASH)
            && !Includes(path, [SLASH, COLON]) && !Has(path, QUESTION)
  {
    var segs := Split(template, SLASH);
    var done := Filled(segs, params, args);
    AcceptedIdsArePlain(params, args);
    JoinOfSplit(template, SLASH);
    FillSegments(segs, params, args);
    FilledArePlain(segs, params, args);
    assert forall i :: 0 <= i < |done| ==> IsPlain(done[i]);
    JoinLacks(done, SLASH, COLON);
    JoinLacks(done, SLASH, QUESTION);
    NoColonNoPlaceholder(JoinWith(done, SLASH));
  }

  /** A well-formed tool answers every acceptable call with a URL, and refuses no other. */
  lemma UrlIffAccepted(template: seq<Unit>, params: seq<ParamSpec>, args: map<string, Json>)
    requires WellFormed(template, params)
    ensures Url(template, params, args).Some? <==> Accepted(params, args)
  {
    if Accepted(params, args) {
      FilledPath(template, params, args);
    }
  }

  lemma PathOfUrl(path: seq<Unit>, query: seq<seq<Unit>>)
    requires !Has(path, QUESTION)
    ensures PathOf(WithQuery(path, query)) == path
    ensures query != [] ==>
              Find(WithQuery(path, query), QUESTION) == |path| &&
              WithQuery(path, query)[|path| + 1..] == JoinWith(query, AMPERSAND)
    ensures query == [] ==> Find(WithQuery(path, query), QUESTION) == |path| == |WithQuery(path, query)|
  {
    if query != [] {
      FindAfter(path, QUESTION, JoinWith(query, AMPERSAND));
    }
  }

  /** The path has the segments of its template: the plain ones as they are, each
    * placeholder its identifier. No identifier opens a segment of its own.
    */
  lemma PathKeepsSegments(template: seq<Unit>, params: seq<ParamSpec>, args: map<string, Json>)
    requires WellFormed(template, params) && Url(template, params, args).Some?
    ensures FilledIn(Split(PathOf(Url(template, params, args).value), SLASH), Split(template, SLASH), params, args)
  {
    var segs := Split(template, SLASH);
    var done := Filled(segs, params, args);
    FilledPath(template, params, args);
    PathOfUrl(Fill(template, params, args), Query(params, args));
    AcceptedIdsArePlain(params, args);
    FilledArePlain(segs, params, args);
    FilledIsFilledIn(segs, params, args);
    assert forall i :: 0 <= i < |done| ==> IsPlain(done[i]);
    SplitOfJoin(done, SLASH);
  }

  /** The order in which the parameters are declared makes no difference to the path. */
  lemma OrderIsIrrelevant(template: seq<Unit>, ps: seq<ParamSpec>, qs: seq<ParamSpec>, args: map<string, Json>)
    requires WellFormed(template, ps) && WellFormed(template, qs) && Accepted(ps, args)
    requires forall spec :: spec in ps <==> spec in qs
    ensures Fill(template, ps, args) == Fill(template, qs, args)
  {
    var segs := Split(template, SLASH);
    assert ParamNames(ps) == ParamNames(qs);
    assert Accepted(qs, args);
    FilledPath(template, ps, args);
    FilledPath(template, qs, args);
    FilledIsFilledIn(segs, ps, args);
    FilledIsFilledIn(segs, qs, args);
    forall i | 0 <= i < |segs| ensures Filled(segs, ps, args)[i] == Filled(segs, qs, args)[i] {
      if !IsPlain(segs[i]) {
        var k :| 0 <= k < |ps| && ps[k].IdParam? && segs[i] == Placeholder(ps[k].id);
        assert ps[k] in qs;
        var l :| 0 <= l < |qs| && qs[l] == ps[k];
      }
    }
    assert Filled(segs, ps, args) == Filled(segs, qs, args);
  }

  const A: Unit := 0x61
  const B: Unit := 0x62
  const ONE: seq<Unit> := [0x31]
  const TWO: seq<Unit> := [0x32]

  /** Without the condition on names the order does matter: here ":a" is also found in
    * ":ab", and the second placeholder stays unfilled.
    */
  lemma PrefixNameIsTakenForAnother(args: map<string, Json>)
    requires args == map["a" := Str(ONE), "ab" := Str(TWO)]
    ensures var template := [SLASH, COLON, A, B, SLASH, COLON, A];
            && Url(template, [IdParam("ab"), IdParam("a")], args).Some?
            && Url(template, [IdParam("a"), IdParam("ab")], args).None?
  {
    BothAccepted(args);
    FillInOrder(args);
    FillOutOfOrder(args);
    NoColonNoPlaceholder([SLASH] + TWO + [SLASH] + ONE);
    StaysUnfilled();
  }

  lemma BothAccepted(args: map<string, Json>)
    requires args == map["a" := Str(ONE), "ab" := Str(TWO)]
    ensures Accepted([IdParam("ab"), IdParam("a")], args) && Accepted([IdParam("a"), IdParam("ab")], args)
  {
    assert AcceptsValue(IdParam("a"), Str(ONE)) && AcceptsValue(IdParam("ab"), Str(TWO));
    assert IdParam("a") in [IdParam("ab"), IdParam("a")] && IdParam("ab") in [IdParam("ab"), IdParam("a")];
    assert IdParam("a") in [IdParam("a"), IdParam("ab")] && IdParam("ab") in [IdParam("a"), IdParam("ab")];
    assert ParamName(IdParam("a")) == "a" && ParamName(IdParam("ab")) == "ab";
  }

  lemma StaysUnfilled()
    ensures Includes([SLASH] + ONE + [B, SLASH, COLON, A], [SLASH, COLON])
  {
    var left := [SLASH] + ONE + [B, SLASH, COLON, A];
    assert left[3..] == [SLASH, COLON, A];
    forall i | 0 <= i < 3 ensures !([SLASH, COLON] <= left[i..]) {
      assert left[i..][0] == left[i] && left[i..][1] == left[i + 1];
    }
    IncludesSkips(left, 3, [SLASH, COLON]);
  }

  lemma PlaceholdersOf()
    ensures Placeholder("a") == [COLON, A] && Placeholder("ab") == [COLON, A, B]
  {
  }

  lemma FillTwo(out: seq<Unit>, first: Name, second: Name, args: map<string, Json>)
    ensures Fill(out, [IdParam(first), IdParam(second)], args) ==
            Replace(Replace(out, Placeholder(first), IdText(args, first)), Placeholder(second), IdText(args, second))
  {
    var params := [IdParam(first), IdParam(second)];
    assert params[1..] == [IdParam(second)] && params[1..][1..] == [];
    assert Fill(out, params, args) == Fill(Replace(out, Placeholder(first), IdText(args, first)), params[1..], args);
  }

  lemma FirstIsFilled(template: seq<Unit>)
    requires template == [SLASH, COLON, A, B, SLASH, COLON, A]
    ensures Replace(template, [COLON, A, B], TWO) == [SLASH] + TWO + [SLASH, COLON, A]
  {
    ReplaceAt([SLASH], [COLON, A, B], [SLASH, COLON, A], TWO);
    assert template == [SLASH] + [COLON, A, B] + [SLASH, COLON, A];
  }

  lemma SecondIsFilled(left: seq<Unit>)
    requires left == [SLASH] + TWO + [SLASH, COLON, A]
    ensures Replace(left, [COLON, A], ONE) == [SLASH] + TWO + [SLASH] + ONE
  {
    ReplaceAt([SLASH] + TWO + [SLASH], [COLON, A], [], ONE);
    assert left == [SLASH] + TWO + [SLASH] + [COLON, A] + [];
  }

  lemma FillInOrder(args: map<string, Json>)
    requires args == map["a" := Str(ONE), "ab" := Str(TWO)]
    ensures Fill([SLASH, COLON, A, B, SLASH, COLON, A], [IdParam("ab"), IdParam("a")], args) ==
            [SLASH] + TWO + [SLASH] + ONE
  {
    PlaceholdersOf();
    FillTwo([SLASH, COLON, A, B, SLASH, COLON, A], "ab", "a", args);
    FirstIsFilled([SLASH, COLON, A, B, SLASH, COLON, A]);
    SecondIsFilled([SLASH] + TWO + [SLASH, COLON, A]);
  }

  lemma SecondIsMissing(left: seq<Unit>)
    requires left == [SLASH] + ONE + [B, SLASH, COLON, A]
    ensures Replace(left, [COLON, A, B], TWO) == left
  {
    forall i | 0 <= i < 4 ensures !([COLON, A, B] <= left[i..]) {
      assert left[i..][0] == left[i];
    }
    ReplaceSkips(left, 4, [COLON, A, B], TWO);
    assert left[..4] + left[4..] == left;
  }

  lemma FillOutOfOrder(args: map<string, Json>)
    requires args == map["a" := Str(ONE), "ab" := Str(TWO)]
    ensures Fill([SLASH, COLON, A, B, SLASH, COLON, A], [IdParam("a"), IdParam("ab")], args) ==
            [SLASH] + ONE + [B, SLASH, COLON, A]
  {
    PlaceholdersOf();
    FillTwo([SLASH, COLON, A, B, SLASH, COLON, A], "a", "ab", args);
    ReplaceAt([SLASH], [COLON, A], [B, SLASH, COLON, A], ONE);
    assert [SLASH, COLON, A, B, SLASH, COLON, A] == [SLASH] + [COLON, A] + [B, SLASH, COLON, A];
    SecondIsMissing([SLASH] + ONE + [B, SLASH, COLON, A]);
  }
}
