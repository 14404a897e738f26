/** Reading a URL that the builder made: every argument comes back as it was given. */
module UrlReader {
  import opened Decimal
  import opened Json
  import opened PercentCoding
  import opened Text
  import opened TextLists
  import opened ToolBody
  import opened ToolInput
  import opened UrlRoundTrip
  import opened Wrappers

  // ---- The reader ------------------------------------------------------------------------------

  function QueryOf(url: seq<Unit>): seq<seq<Unit>> {
    var n := Find(url, QUESTION);
    if n == |url| then [] else Split(url[n + 1..], AMPERSAND)
  }

  /** What stands after the name and the equals sign. */
  function Lookup(entries: seq<seq<Unit>>, name: seq<Unit>): Option<seq<Unit>> {
    if entries == [] then None
    else
      var n := Find(entries[0], EQUALS);
      if n < |entries[0]| && entries[0][..n] == name then Some(entries[0][n + 1..])
      else Lookup(entries[1..], name)
  }

  function DecodedText(raw: seq<Unit>): Option<Json> {
    match DecodeUriComponent(raw)
    case None => None
    case Some(cs) => Some(Str(Join(cs)))
  }

  function DecodedList(raws: seq<seq<Unit>>): Option<seq<Json>> {
    if raws == [] then Some([])
    else
      match (DecodedText(raws[0]), DecodedList(raws[1..]))
      case (Some(first), Some(rest)) => Some([first] + rest)
      case _ => None
  }

  function Decoded(spec: ParamSpec, raw: seq<Unit>): Option<Json> {
    match spec
    case IdParam(_) => None
    case FreeText(_, _) => DecodedText(raw)
    case CursorParam(_) => DecodedText(raw)
    case EnumParam(_, _) => DecodedText(raw)
    case Flag(_) => if raw == Ascii("true") then Some(Bool(true)) else None
    case EnumList(_, _) =>
      (match DecodedList(Split(raw, COMMA))
       case None => None
       case Some(items) => Some(Arr(items)))
    case _ =>
      (match Read(raw)
       case None => None
       case Some(n) => Some(Num(n as real)))
  }

  function IndexOf(segs: seq<seq<Unit>>, seg: seq<Unit>): (n: nat)
    ensures n <= |segs|
    ensures n < |segs| ==> segs[n] == seg
    ensures n == |segs| ==> seg !in segs
  {
    if segs == [] || segs[0] == seg then 0 else 1 + IndexOf(segs[1..], seg)
  }

  /** The argument that a URL gives a parameter. */
  function ReadArgument(template: seq<Unit>, spec: ParamSpec, url: seq<Unit>): Option<Json> {
    if spec.IdParam? then
      var j := IndexOf(Split(template, SLASH), Placeholder(spec.id));
      var segs := Split(PathOf(url), SLASH);
      if j < |segs| then Some(Str(segs[j])) else None
    else
      match Lookup(QueryOf(url), Units(ParamName(spec)))
      case None => None
      case Some(raw) => Decoded(spec, raw)
  }

  /** The argument as it was given. A flag that is off and an empty list say nothing. */
  function Given(spec: ParamSpec, args: map<string, Json>): Option<Json> {
    if ParamName(spec) !in args then None
    else if args[ParamName(spec)] == Bool(false) || args[ParamName(spec)] == Arr([]) then None
    else Some(args[ParamName(spec)])
  }

  // ---- One value ---------------------------------------------------------------------------------

  lemma {:induction false} JoinOfCodePoints(s: seq<Unit>)
    ensures Join(CodePoints(s)) == s
  {
    if s != [] {
      var n := if StartsPair(s) then 2 else 1;
      JoinOfCodePoints(s[n..]);
      assert CodePoints(s)[1..] == CodePoints(s[n..]);
      assert UnitsOf(CodePoints(s)[0]) == s[..n];
    }
  }

  lemma DecodedTextOfEncoded(s: seq<Unit>)
    requires Encodable(s)
    ensures DecodedText(Encoded(s)) == Some(Str(s))
  {
    EncodeUriComponentExact(s);
    JoinOfCodePoints(s);
  }

  lemma {:induction false} IdIsEncodable(s: seq<Unit>)
    requires forall i :: 0 <= i < |s| ==> IsIdCharacter(s[i])
    ensures CodePoints(s) == s && Encodable(s)
  {
    if s != [] {
      IdIsEncodable(s[1..]);
      assert CodePoints(s)[1..] == CodePoints(s[1..]);
    }
  }

  /** The characters a value is written with: none of those that separate. */
  ghost predicate Unseparated(raw: seq<Unit>) {
    forall i :: 0 <= i < |raw| ==> Kept(raw[i]) || raw[i] == PERCENT
  }

  lemma OneMoreDecoded(raw: seq<Unit>, raws: seq<seq<Unit>>, item: Json, items: seq<Json>)
    requires DecodedText(raw) == Some(item) && DecodedList(raws) == Some(items)
    ensures DecodedList([raw] + raws) == Some([item] + items)
  {
    assert ([raw] + raws)[1..] == raws;
  }

  lemma {:induction false} DecodedListOfEncoded(items: seq<Json>, raws: seq<seq<Unit>>)
    requires |raws| == |items|
    requires forall i :: 0 <= i < |items| ==> items[i].Str? && Encodable(items[i].s) && raws[i] == Encoded(items[i].s)
    ensures DecodedList(raws) == Some(items)
  {
    if items != [] {
      DecodedTextOfEncoded(items[0].s);
      DecodedListOfEncoded(items[1..], raws[1..]);
      OneMoreDecoded(raws[0], raws[1..], items[0], items[1..]);
      assert [items[0]] + items[1..] == items && [raws[0]] + raws[1..] == raws;
    }
  }

  lemma PrintedUnseparated(n: int)
    ensures Unseparated(Printed(n))
  {
  }

  lemma ValuesUnseparated(spec: ParamSpec, args: map<string, Json>)
    requires ToolInput.Accepts(spec, args) && Values(spec, args).Some?
    ensures forall i :: 0 <= i < |Values(spec, args).value| ==> Unseparated(Values(spec, args).value[i])
  {
    var v := args[ParamName(spec)];
    if v.Str? {
      EncodedAlphabet(CodePoints(v.s));
    } else if v.Arr? {
      forall i | 0 <= i < |v.items| ensures Unseparated(Encoded(v.items[i].s)) {
        EncodedAlphabet(CodePoints(v.items[i].s));
      }
    } else if v.Num? {
      PrintedUnseparated(v.n.Floor);
    }
  }

  lemma SplitOfValues(values: seq<seq<Unit>>)
    requires values != [] && forall i :: 0 <= i < |values| ==> Unseparated(values[i])
    ensures Split(JoinWith(values, COMMA), COMMA) == values
  {
    SplitOfJoin(values, COMMA);
  }

  lemma DecodedString(spec: ParamSpec, args: map<string, Json>)
    requires ToolInput.Accepts(spec, args) && Values(spec, args).Some? && args[ParamName(spec)].Str?
    ensures Decoded(spec, JoinWith(Values(spec, args).value, COMMA)) == Some(args[ParamName(spec)])
  {
    var s := args[ParamName(spec)].s;
    if spec.CursorParam? {
      IdIsEncodable(s);
    }
    DecodedTextOfEncoded(s);
  }

  lemma DecodedListing(spec: ParamSpec, args: map<string, Json>)
    requires ToolInput.Accepts(spec, args) && Values(spec, args).Some? && args[ParamName(spec)].Arr?
    ensures Decoded(spec, JoinWith(Values(spec, args).value, COMMA)) == Some(args[ParamName(spec)])
  {
    ValuesUnseparated(spec, args);
    SplitOfValues(Values(spec, args).value);
    DecodedListOfEncoded(args[ParamName(spec)].items, Values(spec, args).value);
  }

  lemma DecodedNumber(spec: ParamSpec, args: map<string, Json>)
    requires ToolInput.Accepts(spec, args) && Values(spec, args).Some? && args[ParamName(spec)].Num?
    ensures Decoded(spec, JoinWith(Values(spec, args).value, COMMA)) == Some(args[ParamName(spec)])
  {
    ReadOfPrinted(args[ParamName(spec)].n.Floor);
  }

  lemma DecodedFlag(spec: ParamSpec, args: map<string, Json>)
    requires ToolInput.Accepts(spec, args) && Values(spec, args).Some? && args[ParamName(spec)].Bool?
    ensures Decoded(spec, JoinWith(Values(spec, args).value, COMMA)) == Some(args[ParamName(spec)]) == Some(Bool(true))
  {
  }

  /** What is written at all was given. */
  lemma WrittenIsGiven(spec: ParamSpec, args: map<string, Json>)
    requires ToolInput.Accepts(spec, args) && Values(spec, args).Some?
    ensures Given(spec, args) == Some(args[ParamName(spec)])
    ensures var v := args[ParamName(spec)]; v.Str? || v.Arr? || v.Num? || v.Bool?
  {
  }

  /** A value that was written is read as it was. */
  lemma DecodedIsGiven(spec: ParamSpec, args: map<string, Json>)
    requires ToolInput.Accepts(spec, args) && Values(spec, args).Some?
    ensures Decoded(spec, JoinWith(Values(spec, args).value, COMMA)) == Given(spec, args)
  {
    WrittenIsGiven(spec, args);
    var v := args[ParamName(spec)];
    if v.Str? {
      DecodedString(spec, args);
    } else if v.Arr? {
      DecodedListing(spec, args);
    } else if v.Num? {
      DecodedNumber(spec, args);
    } else {
      DecodedFlag(spec, args);
    }
  }

  // ---- The query ---------------------------------------------------------------------------------

  lemma NameLacks(name: Name, u: Unit)
    requires !IsIdCharacter(u)
    ensures !Has(Units(name), u)
  {
  }

  lemma EntryReads(name: Name, values: seq<seq<Unit>>)
    ensures var e := Entry(name, values);
            && Find(e, EQUALS) == |Units(name)| < |e|
            && e[..|Units(name)|] == Units(name) && e[|Units(name)| + 1..] == JoinWith(values, COMMA)
  {
    NameLacks(name, EQUALS);
    FindAfter(Units(name), EQUALS, JoinWith(values, COMMA));
  }

  lemma EntryLacks(name: Name, values: seq<seq<Unit>>, u: Unit)
    requires u == AMPERSAND || u == QUESTION
    requires forall i :: 0 <= i < |values| ==> Unseparated(values[i])
    ensures !Has(Entry(name, values), u)
  {
    NameLacks(name, u);
    forall i | 0 <= i < |values| ensures !Has(values[i], u) {
      assert Unseparated(values[i]);
    }
    JoinLacks(values, COMMA, u);
  }

  lemma {:induction false} QueryLacks(params: seq<ParamSpec>, args: map<string, Json>)
    requires forall spec | spec in params :: ToolInput.Accepts(spec, args)
    ensures forall i :: 0 <= i < |Query(params, args)| ==> !Has(Query(params, args)[i], AMPERSAND)
  {
    if params != [] {
      QueryLacks(params[1..], args);
      var values := Values(params[0], args);
      if values.Some? {
        ValuesUnseparated(params[0], args);
        EntryLacks(ParamName(params[0]), values.value, AMPERSAND);
      }
    }
  }

  ghost predicate Unnamed(params: seq<ParamSpec>, name: Name) {
    forall i :: 0 <= i < |params| ==> ParamName(params[i]) != name
  }

  lemma {:induction false} LookupMisses(params: seq<ParamSpec>, args: map<string, Json>, name: Name)
    requires forall spec | spec in params :: ToolInput.Accepts(spec, args)
    requires Unnamed(params, name)
    ensures Lookup(Query(params, args), Units(name)).None?
  {
    if params != [] {
      LookupMisses(params[1..], args, name);
      var values := Values(params[0], args);
      if values.Some? {
        EntryReads(ParamName(params[0]), values.value);
        SameUnits(ParamName(params[0]), name);
        assert Query(params, args)[1..] == Query(params[1..], args);
      }
    }
  }

  lemma SameUnits(a: Name, b: Name)
    ensures Units(a) == Units(b) <==> a == b
  {
    UnitsPrefix(a, b);
    UnitsPrefix(b, a);
  }

  /** The query has the values of each parameter, under its name. */
  lemma {:induction false} LookupFinds(params: seq<ParamSpec>, k: nat, args: map<string, Json>)
    requires forall spec | spec in params :: ToolInput.Accepts(spec, args)
    requires DistinctNames(params) && k < |params|
    ensures Lookup(Query(params, args), Units(ParamName(params[k]))) ==
            match Values(params[k], args) { case None => None case Some(vs) => Some(JoinWith(vs, COMMA)) }
  {
    var values := Values(params[0], args);
    if values.Some? {
      EntryReads(ParamName(params[0]), values.value);
      SameUnits(ParamName(params[0]), ParamName(params[k]));
      assert Query(params, args)[1..] == Query(params[1..], args);
    }
    if k > 0 {
      LookupFinds(params[1..], k - 1, args);
    } else {
      LookupMisses(params[1..], args, ParamName(params[0]));
    }
  }

  lemma NothingGiven(spec: ParamSpec, args: map<string, Json>)
    requires ToolInput.Accepts(spec, args) && !spec.IdParam? && Values(spec, args).None?
    ensures Given(spec, args).None?
  {
  }

  lemma QueryOfUrl(path: seq<Unit>, params: seq<ParamSpec>, args: map<string, Json>)
    requires !Has(path, QUESTION) && forall spec | spec in params :: ToolInput.Accepts(spec, args)
    ensures QueryOf(WithQuery(path, Query(params, args))) == Query(params, args)
  {
    var query := Query(params, args);
    PathOfUrl(path, query);
    if query != [] {
      QueryLacks(params, args);
      SplitOfJoin(query, AMPERSAND);
    }
  }

  // ---- The round trip ------------------------------------------------------------------------------

  /** Reading the URL of a call gives every parameter the argument it was given. */
  lemma ReadsWhatWasGiven(template: seq<Unit>, params: seq<ParamSpec>, k: nat, args: map<string, Json>)
    requires WellFormed(template, params) && k < |params|
    requires Url(template, params, args).Some?
    ensures ReadArgument(template, params[k], Url(template, params, args).value) == Given(params[k], args)
  {
    var spec := params[k];
    assert ToolInput.Accepts(spec, args);
    if spec.IdParam? {
      ReadsIdentifier(template, params, k, args);
    } else {
      FilledPath(template, params, args);
      QueryOfUrl(Fill(template, params, args), params, args);
      LookupFinds(params, k, args);
      if Values(spec, args).Some? {
        DecodedIsGiven(spec, args);
      } else {
        NothingGiven(spec, args);
      }
    }
  }

  lemma ReadsIdentifier(template: seq<Unit>, params: seq<ParamSpec>, k: nat, args: map<string, Json>)
    requires WellFormed(template, params) && k < |params| && params[k].IdParam?
    requires Url(template, params, args).Some?
    ensures ReadArgument(template, params[k], Url(template, params, args).value) == Given(params[k], args)
  {
    var segs := Split(template, SLASH);
    PathKeepsSegments(template, params, args);
    assert PlacedOnce(segs, params[k].id);
    var at: nat :| PlacedAt(segs, params[k].id, at);
    assert segs[at] in segs;
    assert ToolInput.Accepts(params[k], args);
  }

  /** So two calls that ask for the same URL were given the same arguments. */
  lemma SameUrlSameArguments(template: seq<Unit>, params: seq<ParamSpec>, a: map<string, Json>, b: map<string, Json>)
    requires WellFormed(template, params)
    requires Url(template, params, a).Some? && Url(template, params, a) == Url(template, params, b)
    ensures forall spec | spec in params :: Given(spec, a) == Given(spec, b)
  {
    forall spec | spec in params ensures Given(spec, a) == Given(spec, b) {
      var k :| 0 <= k < |params| && params[k] == spec;
      ReadsWhatWasGiven(template, params, k, a);
      ReadsWhatWasGiven(template, params, k, b);
    }
  }
}
