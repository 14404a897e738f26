/** The tool that voids an entry of the minute book (mcp/src/write-tools.ts:697-719): a
  * closed gate hides it, and yet withholds no call of it.
  */
module VoidTool {
  import opened FieldPolicy
  import opened Json
  import opened Text
  import opened TextLists
  import opened ToolBody
  import opened ToolInput
  import opened ToolPipeline
  import opened ToolWrites
  import opened UrlRoundTrip
  import opened Wrappers

  const PARAMS: seq<ParamSpec> := [IdParam("id")]
  const EXPECTED := FieldSpec("expectedUpdatedAt", TimestampField, true, true)
  const REASON := FieldSpec("reason", TextField(2000, None), true, false)

  /** The segments of the route. The one before the last is the identifier's. */
  function Route(): seq<seq<Unit>> {
    [[], Literal("api"), Literal("v1"), Literal("governing-acts"), Placeholder("id"), Literal("void")]
  }

  predicate IsVoidTool(tool: Tool) {
    && tool.template == JoinWith(Route(), SLASH) && tool.params == PARAMS
    && tool.verb == Some(Post) && tool.destructive
    && tool.model == Some(GoverningActVoid) && tool.body == Some([EXPECTED, REASON])
  }

  function Voiding(id: seq<Unit>, expected: seq<Unit>, why: seq<Unit>): Args {
    map["id" := Str(id), "expectedUpdatedAt" := Str(expected), "reason" := Str(why)]
  }

  lemma SegmentIsPlain(s: string)
    requires forall i :: 0 <= i < |s| ==> 'a' <= s[i] <= 'z' || '0' <= s[i] <= '9' || s[i] == '-'
    ensures IsPlain(Literal(s))
  {
  }

  lemma RouteSegments()
    ensures IsPlain([]) && IsPlain(Literal("api")) && IsPlain(Literal("v1"))
    ensures IsPlain(Literal("governing-acts")) && IsPlain(Literal("void"))
    ensures Placeholder("id") == [COLON] + Ascii("id")
  {
    SegmentIsPlain("api");
    SegmentIsPlain("v1");
    SegmentIsPlain("governing-acts");
    SegmentIsPlain("void");
  }

  lemma RouteIsSplit()
    ensures Split(JoinWith(Route(), SLASH), SLASH) == Route()
  {
    var route := Route();
    RouteSegments();
    forall i | 0 <= i < |route| ensures !Has(route[i], SLASH) {
      assert i != 4 ==> IsPlain(route[i]);
    }
    SplitOfJoin(route, SLASH);
  }

  lemma RouteIsFillable()
    ensures Fillable(Route(), PARAMS)
  {
    var route := Route();
    RouteSegments();
    assert Has(Placeholder("id"), COLON) by {
      assert Placeholder("id")[0] == COLON;
    }
    forall i | 0 <= i < |route| && i != 4 ensures IsPlain(route[i]) && route[i] != Placeholder("id") {
    }
    assert PARAMS[0].IdParam? && route[4] == Placeholder(PARAMS[0].id);
    assert IsPlaceholder(route[4], PARAMS);
    assert PlacedAt(route, "id", 4);
  }

  lemma RouteIsWellFormed()
    ensures WellFormed(JoinWith(Route(), SLASH), PARAMS)
  {
    RouteIsSplit();
    RouteIsFillable();
  }

  lemma OneParam()
    ensures ParamNames(PARAMS) == {"id"}
  {
    assert PARAMS[0] in PARAMS && ParamName(PARAMS[0]) == "id";
  }

  lemma VoidingParts(tool: Tool, id: seq<Unit>, expected: seq<Unit>, why: seq<Unit>)
    requires tool.params == PARAMS
    ensures PathArgs(tool, Voiding(id, expected, why)) == map["id" := Str(id)]
    ensures BodyArgs(tool, Voiding(id, expected, why)) == map["expectedUpdatedAt" := Str(expected)]
  {
    OneParam();
  }

  lemma BothFields(expected: seq<Unit>, why: seq<Unit>)
    requires IsTimestamp(expected) && |why| <= 2000
    ensures IsBody([EXPECTED, REASON], map["expectedUpdatedAt" := Str(expected), "reason" := Str(why)])
  {
    var fields := [EXPECTED, REASON];
    var body := map["expectedUpdatedAt" := Str(expected), "reason" := Str(why)];
    assert fields[0].name in Names(fields) && fields[1].name in Names(fields);
    forall f | f in fields ensures Meets(f, body) {
      assert f == EXPECTED || f == REASON;
    }
  }

  lemma VoidingIsBody(tool: Tool, expected: seq<Unit>, why: seq<Unit>)
    requires tool.body == Some([EXPECTED, REASON]) && IsTimestamp(expected) && |why| <= 2000
    ensures IsBody([EXPECTED, REASON], WithReason(tool, map["expectedUpdatedAt" := Str(expected)], Some(why)))
  {
    BothFields(expected, why);
    assert tool.body.value[1].name in Names(tool.body.value);
  }

  lemma OneId(id: seq<Unit>)
    requires IsId(id)
    ensures Accepted(PARAMS, map["id" := Str(id)])
  {
    OneParam();
    assert AcceptsValue(PARAMS[0], Str(id));
  }

  lemma VoidingHasUrl(tool: Tool, id: seq<Unit>)
    requires tool.template == JoinWith(Route(), SLASH) && tool.params == PARAMS && IsId(id)
    ensures Url(tool.template, tool.params, map["id" := Str(id)]).Some?
  {
    RouteIsWellFormed();
    OneId(id);
    UrlIffAccepted(tool.template, PARAMS, map["id" := Str(id)]);
  }

  /** The gate withholds nothing from a tool with these fields: a call is sent, or refused, as it would
    * be with the gate open.
    */
  lemma GateSparesVoid(policy: Policy, tool: Tool, args: Args)
    requires tool.verb.Some? && tool.model.Some? && tool.body == Some([EXPECTED, REASON])
    ensures PrepareWrite(policy, tool, false, args) == PrepareWrite(policy, tool, true, args)
  {
    assert GatedFieldsOf(policy, tool) <= {"reason"};
    assert GatedFieldsInCall(policy, tool, BodyArgs(tool, args)) == {};
  }

  lemma GoodVoiding(id: seq<Unit>, expected: seq<Unit>, why: seq<Unit>)
    requires Trim(why) != []
    ensures HasGoodReason(Voiding(id, expected, why)) && HasGoodApproval(Voiding(id, expected, why))
    ensures ReasonOf(Voiding(id, expected, why)) == Some(Trim(why))
  {
  }

  /** With the gate open, a write with a reason, a good URL and a good body is sent. */
  lemma SentWhen(policy: Policy, tool: Tool, args: Args, path: Args, body: Args)
    requires tool.verb.Some? && HasGoodReason(args) && HasGoodApproval(args) && ReasonOf(args).Some?
    requires path == PathArgs(tool, args) && Url(tool.template, tool.params, path).Some?
    requires body == WithReason(tool, BodyArgs(tool, args), ReasonOf(args))
    requires tool.body.Some? ==> IsBody(tool.body.value, body)
    ensures GoesThrough(policy, tool, true, args)
  {
  }

  /** Every call with an identifier, a timestamp and a reason that is not too long goes
    * through the closed gate.
    */
  lemma VoidingGoesThrough(policy: Policy, tool: Tool, id: seq<Unit>, expected: seq<Unit>, why: seq<Unit>)
    requires IsVoidTool(tool) && IsId(id) && IsTimestamp(expected) && Trim(why) != [] && |Trim(why)| <= 2000
    ensures GoesThrough(policy, tool, false, Voiding(id, expected, why))
  {
    var args := Voiding(id, expected, why);
    VoidingParts(tool, id, expected, why);
    VoidingIsBody(tool, expected, Trim(why));
    VoidingHasUrl(tool, id);
    GateSparesVoid(policy, tool, args);
    GoodVoiding(id, expected, why);
    SentWhen(policy, tool, args, map["id" := Str(id)],
             WithReason(tool, map["expectedUpdatedAt" := Str(expected)], Some(Trim(why))));
  }

  // ---- There is such a call ----------------------------------------------------------------

  /** A picture with a zero for each digit. */
  function Zeroed(picture: string): seq<Unit>
    requires forall i :: 0 <= i < |picture| ==> picture[i] < 128 as char
  {
    seq(|picture|, i requires 0 <= i < |picture| => if picture[i] == 'd' then 0x30 else picture[i] as int)
  }

  lemma ZeroedIsPictured(picture: string)
    requires forall i :: 0 <= i < |picture| ==> picture[i] < 128 as char
    ensures Pictured(Zeroed(picture), picture)
  {
  }

  lemma SomeTimestamp() returns (t: seq<Unit>)
    ensures IsTimestamp(t)
  {
    var (day, zone) := (Zeroed("dddd-dd-ddTdd:dd:dd"), Zeroed("Z"));
    ZeroedIsPictured("dddd-dd-ddTdd:dd:dd");
    ZeroedIsPictured("Z");
    t := day + zone;
    assert |day| == 19 && t[..19] == day && t[19..19] == [] && t[19..] == zone;
    assert IsFraction(t[19..19]) && IsZone(t[19..]);
  }

  lemma VoidIsHidden(policy: Policy, tool: Tool)
    requires IsVoidTool(tool) && "reason" !in policy(GoverningActVoid)
    ensures NeedsPersonalData(policy, tool)
  {
    assert REASON in tool.body.value;
  }

  lemma SomeWord() returns (s: seq<Unit>)
    ensures IsId(s) && Trim(s) != [] && |Trim(s)| <= 2000
  {
    s := [0x41];
    assert Trim(s) == s;
  }

  lemma SomeVoidingGoesThrough(policy: Policy, tool: Tool, word: seq<Unit>)
    requires IsVoidTool(tool) && IsId(word) && Trim(word) != [] && |Trim(word)| <= 2000
    ensures Usable(policy, tool, false)
  {
    var t := SomeTimestamp();
    VoidingGoesThrough(policy, tool, word, t, word);
  }

  /** A closed gate does not list the tool, although it can be used. */
  lemma VoidIsHiddenYetUsable(policy: Policy, tool: Tool)
    requires IsVoidTool(tool) && "reason" !in policy(GoverningActVoid)
    ensures NeedsPersonalData(policy, tool) && Usable(policy, tool, false)
  {
    VoidIsHidden(policy, tool);
    var word := SomeWord();
    SomeVoidingGoesThrough(policy, tool, word);
  }
}
