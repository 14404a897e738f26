/** What a call makes the connector send, argument by argument, and exactly which calls
  * are refused before anything is sent (mcp/src/tools.ts).
  */
module ToolRequests {
  import opened FieldPolicy
  import opened Json
  import opened Text
  import opened ToolBody
  import opened ToolInput
  import opened ToolPipeline
  import opened Wrappers

  // ---- What a write sends --------------------------------------------------------------------

  /** The headers of an accepted write: its own verb, the approval exactly where one was
    * given and as it was given, and the reason exactly where one was given, trimmed and
    * never empty.
    */
  lemma WriteHeaders(policy: Policy, tool: Tool, allowPersonalData: bool, args: Args)
    requires tool.verb.Some? && PrepareWrite(policy, tool, allowPersonalData, args).Success?
    ensures var request := PrepareWrite(policy, tool, allowPersonalData, args).value.request;
            && request.verb == tool.verb
            && (forall a :: request.approvalId == Some(a) <==> "approvalId" in args && args["approvalId"] == Str(a))
            && (request.reason.Some? <==> "reason" in args)
            && (request.reason.Some? ==>
                  args["reason"].Str? && request.reason.value == Trim(args["reason"].s) && request.reason.value != [])
  {
  }

  /** An argument of the body: no parameter of the URL and no header. */
  predicate IsBodyArgument(tool: Tool, key: string) {
    key != "reason" && key != "approvalId" && forall spec :: spec in tool.params ==> ParamName(spec) != key
  }

  predicate Declares(tool: Tool, key: string) {
    tool.body.Some? && exists field :: field in tool.body.value && field.name == key
  }

  /** The body of an accepted write: none for a deletion, an empty one where the tool
    * declares none, and otherwise every argument that is no parameter and no header, as it
    * was given, and the trimmed reason where the tool declares a field of that name.
    */
  lemma WriteBody(policy: Policy, tool: Tool, allowPersonalData: bool, args: Args)
    requires tool.verb.Some? && PrepareWrite(policy, tool, allowPersonalData, args).Success?
    ensures var body := PrepareWrite(policy, tool, allowPersonalData, args).value.request.body;
            && (body.None? <==> tool.verb == Some(Delete))
            && (body.Some? && tool.body.None? ==> body.value == map[])
            && (body.Some? && tool.body.Some? ==> IsBody(tool.body.value, body.value))
            && (body.Some? && tool.body.Some? ==> forall k ::
                  k in body.value <==> k in args && (IsBodyArgument(tool, k) || (k == "reason" && Declares(tool, "reason"))))
            && (body.Some? && tool.body.Some? ==> forall k :: k in body.value && k != "reason" ==> body.value[k] == args[k])
            && (body.Some? && tool.body.Some? && "reason" in body.value ==>
                  args["reason"].Str? && body.value["reason"] == Str(Trim(args["reason"].s)))
  {
    if tool.body.Some? {
      BodyParts(tool, args);
    }
  }

  lemma BodyParts(tool: Tool, args: Args)
    requires tool.body.Some? && HasGoodReason(args)
    ensures var body := WithReason(tool, BodyArgs(tool, args), ReasonOf(args));
            && (forall k :: k in body <==> k in args && (IsBodyArgument(tool, k) || (k == "reason" && Declares(tool, "reason"))))
            && (forall k :: k in body && k != "reason" ==> body[k] == args[k])
            && ("reason" in body ==> body["reason"] == Str(Trim(args["reason"].s)))
  {
    forall k ensures k in BodyArgs(tool, args) <==> k in args && IsBodyArgument(tool, k) {
      ArgumentOfBody(tool, k);
    }
    assert "reason" in Names(tool.body.value) <==> Declares(tool, "reason");
  }

  lemma ArgumentOfBody(tool: Tool, k: string)
    ensures IsBodyArgument(tool, k) <==> k !in ParamNames(tool.params) && k !in HEADER_ARGS
  {
    if spec :| spec in tool.params && ParamName(spec) == k {
      assert k in ParamNames(tool.params);
    }
  }

  /** The path of an accepted write is built of the parameters that were given, and of
    * nothing else.
    */
  lemma WritePath(policy: Policy, tool: Tool, allowPersonalData: bool, args: Args, path: Args)
    requires tool.verb.Some? && PrepareWrite(policy, tool, allowPersonalData, args).Success?
    requires IsPathOf(tool, args, path)
    ensures Url(tool.template, tool.params, path) ==
            Some(PrepareWrite(policy, tool, allowPersonalData, args).value.request.path)
  {
    PathParts(tool, args, path);
  }

  /** The arguments that are parameters of the URL. */
  ghost predicate IsPathOf(tool: Tool, args: Args, path: Args) {
    && (forall k :: k in path <==>
          k in args && k != "reason" && k != "approvalId" && exists spec :: spec in tool.params && ParamName(spec) == k)
    && (forall k :: k in path ==> path[k] == args[k])
  }

  lemma PathParts(tool: Tool, args: Args, path: Args)
    requires IsPathOf(tool, args, path)
    ensures path == PathArgs(tool, args)
  {
    forall k ensures k in path <==> k in PathArgs(tool, args) {
    }
  }

  // ---- Which writes are refused --------------------------------------------------------------

  /** A field that the closed gate withholds. */
  predicate Gated(policy: Policy, tool: Tool, key: string) {
    tool.model.Some? && tool.body.Some? && key !in policy(tool.model.value)
    && exists field :: field in tool.body.value && field.name == key && !field.control
  }

  predicate WritesGated(policy: Policy, tool: Tool, args: Args) {
    exists k :: k in args && IsBodyArgument(tool, k) && Gated(policy, tool, k)
  }

  /** The arguments of the headers are of the right form. */
  predicate GoodHeaders(args: Args) {
    && ("reason" in args ==> args["reason"].Str? && Trim(args["reason"].s) != [])
    && ("approvalId" in args ==> args["approvalId"].Str?)
  }

  lemma GatedIff(policy: Policy, tool: Tool, args: Args)
    ensures forall k :: k in GatedFieldsInCall(policy, tool, BodyArgs(tool, args)) <==>
                        k in args && IsBodyArgument(tool, k) && Gated(policy, tool, k)
    ensures GatedFieldsInCall(policy, tool, BodyArgs(tool, args)) != {} <==> WritesGated(policy, tool, args)
  {
    var gated := GatedFieldsInCall(policy, tool, BodyArgs(tool, args));
    forall k ensures k in gated <==> k in args && IsBodyArgument(tool, k) && Gated(policy, tool, k) {
      ArgumentOfBody(tool, k);
    }
    if WritesGated(policy, tool, args) {
      var k :| k in args && IsBodyArgument(tool, k) && Gated(policy, tool, k);
      assert k in gated;
    }
    if gated != {} {
      var k :| k in gated;
    }
  }

  /** The three refusals of a write, in their order: headers of the wrong form, fields that
    * the gate withholds, all of them named, and a destructive tool without a reason.
    */
  lemma WriteRefusals(policy: Policy, tool: Tool, allowPersonalData: bool, args: Args)
    requires tool.verb.Some?
    ensures var r := PrepareWrite(policy, tool, allowPersonalData, args);
            && (!GoodHeaders(args) ==> r == Failure(Invalid))
            && (r.Failure? && r.error.Withheld? <==> GoodHeaders(args) && !allowPersonalData && WritesGated(policy, tool, args))
            && (r.Failure? && r.error.Withheld? ==>
                  forall k :: k in r.error.fields <==> k in args && IsBodyArgument(tool, k) && Gated(policy, tool, k))
            && (r == Failure(ReasonRequired) <==>
                  GoodHeaders(args) && (allowPersonalData || !WritesGated(policy, tool, args))
                  && tool.destructive && "reason" !in args)
            && (r.Failure? ==> r.error.Invalid? || r.error.Withheld? || r.error.ReasonRequired?)
  {
    GatedIff(policy, tool, args);
  }

  /** The writes that are sent. */
  lemma AcceptedWriteIff(policy: Policy, tool: Tool, allowPersonalData: bool, args: Args, path: Args, body: Args)
    requires tool.verb.Some? && GoodHeaders(args)
    requires IsPathOf(tool, args, path)
    requires forall k :: k in body <==> k in args && (IsBodyArgument(tool, k) || (k == "reason" && Declares(tool, "reason")))
    requires forall k :: k in body ==> body[k] == if k == "reason" then Str(Trim(args["reason"].s)) else args[k]
    ensures PrepareWrite(policy, tool, allowPersonalData, args).Success? <==>
            && (allowPersonalData || !WritesGated(policy, tool, args))
            && (tool.destructive ==> "reason" in args)
            && Url(tool.template, tool.params, path).Some?
            && (tool.body.Some? ==> IsBody(tool.body.value, body))
  {
    GatedIff(policy, tool, args);
    PathParts(tool, args, path);
    if tool.body.Some? {
      BodyIs(tool, args, body);
      AcceptedWithBody(policy, tool, allowPersonalData, args, path, body);
    }
  }

  lemma SameArguments(a: Args, b: Args)
    requires (forall k :: k in a <==> k in b) && forall k :: k in a ==> a[k] == b[k]
    ensures a == b
  {
  }

  lemma BodyIs(tool: Tool, args: Args, body: Args)
    requires tool.body.Some? && GoodHeaders(args)
    requires forall k :: k in body <==> k in args && (IsBodyArgument(tool, k) || (k == "reason" && Declares(tool, "reason")))
    requires forall k :: k in body ==> body[k] == if k == "reason" then Str(Trim(args["reason"].s)) else args[k]
    ensures body == WithReason(tool, BodyArgs(tool, args), ReasonOf(args))
  {
    BodyParts(tool, args);
    var sent := WithReason(tool, BodyArgs(tool, args), ReasonOf(args));
    SameArguments(body, sent);
  }

  lemma AcceptedWithBody(policy: Policy, tool: Tool, allowPersonalData: bool, args: Args, path: Args, body: Args)
    requires tool.verb.Some? && tool.body.Some? && HasGoodReason(args) && HasGoodApproval(args)
    requires path == PathArgs(tool, args) && body == WithReason(tool, BodyArgs(tool, args), ReasonOf(args))
    ensures PrepareWrite(policy, tool, allowPersonalData, args).Success? <==>
            && (allowPersonalData || GatedFieldsInCall(policy, tool, BodyArgs(tool, args)) == {})
            && (tool.destructive ==> "reason" in args)
            && Url(tool.template, tool.params, path).Some?
            && IsBody(tool.body.value, body)
  {
  }

  // ---- Reads ---------------------------------------------------------------------------------

  /** The value is text that spells a key. */
  predicate Spells(v: Json, key: string) {
    v.Str? && |v.s| == |key| && forall i :: 0 <= i < |key| ==> v.s[i] == key[i] as int && v.s[i] < 128
  }

  lemma KeyOfIff(v: Json, key: string)
    ensures KeyOf(v) == Some(key) <==> Spells(v, key)
  {
    if Spells(v, key) {
      assert KeyOf(v).value == key;
    }
  }

  lemma {:induction false} KeysOfIff(vs: seq<Json>, safe: set<string>, keys: seq<string>)
    ensures KeysOf(vs, safe) == Some(keys) <==>
            |keys| == |vs| && forall i :: 0 <= i < |keys| ==> Spells(vs[i], keys[i]) && keys[i] in safe
    decreases |vs|
  {
    if vs != [] && keys != [] {
      KeyOfIff(vs[0], keys[0]);
      KeysOfIff(vs[1..], safe, keys[1..]);
      assert keys == [keys[0]] + keys[1..];
      assert forall i :: 1 <= i < |keys| && i < |vs| ==> keys[1..][i - 1] == keys[i] && vs[1..][i - 1] == vs[i];
    } else if vs != [] {
      assert KeysOf(vs, safe) != Some([]);
    }
  }

  /** A read asks for its path and nothing else. */
  lemma ReadSends(policy: Policy, tool: Tool, args: Args)
    requires tool.verb.None? && PrepareRead(policy, tool, args).Success?
    ensures var call := PrepareRead(policy, tool, args).value;
            && call.request.verb == None && call.request.body == None
            && call.request.reason == None && call.request.approvalId == None
            && Url(tool.template, tool.params, args - {"fields"}) == Some(call.request.path)
  {
  }

  /** The reads that are sent, and the fields they select: none asked for, or a list of
    * names that all are on the allowlist of the tool's model.
    */
  lemma AcceptedReadIff(policy: Policy, tool: Tool, args: Args, keys: seq<string>)
    requires tool.verb.None?
    ensures PrepareRead(policy, tool, args).Success? && PrepareRead(policy, tool, args).value.fields == keys <==>
            && Url(tool.template, tool.params, args - {"fields"}).Some?
            && ("fields" !in args ==> keys == [])
            && ("fields" in args ==>
                  && tool.model.Some? && args["fields"].Arr? && |keys| == |args["fields"].items|
                  && forall i :: 0 <= i < |keys| ==>
                       Spells(args["fields"].items[i], keys[i]) && keys[i] in policy(tool.model.value))
    ensures PrepareRead(policy, tool, args).Failure? ==> PrepareRead(policy, tool, args).error == Invalid
  {
    if "fields" in args && tool.model.Some? && args["fields"].Arr? {
      KeysOfIff(args["fields"].items, policy(tool.model.value), keys);
    }
  }

  /** A tool without a verb reads and any other writes. */
  lemma VerbDecides(policy: Policy, tool: Tool, allowPersonalData: bool, args: Args)
    ensures Prepare(policy, tool, allowPersonalData, args).Success? ==>
              (Prepare(policy, tool, allowPersonalData, args).value.request.verb == tool.verb)
    ensures tool.verb.None? ==> Prepare(policy, tool, allowPersonalData, args) == PrepareRead(policy, tool, args)
    ensures tool.verb.Some? ==>
              Prepare(policy, tool, allowPersonalData, args) == PrepareWrite(policy, tool, allowPersonalData, args)
  {
  }

  // ---- What comes back -----------------------------------------------------------------------

  /** A refusal by the API is passed on as it is, and apart from that only a tool that is
    * declared in two ways fails once its request is sent.
    */
  lemma AnswerFailsIff(
      policy: Policy, tool: Tool, allowPersonalData: bool, fields: seq<string>, world: World, sent: seq<Request>)
    ensures var r := Answer(policy, tool, allowPersonalData, fields, world, sent);
            && (forall status: nat :: r == Failure(FromApi(status)) <==> world(sent) == Failure(status))
            && (r == Failure(Contradictory) <==> world(sent).Success? && tool.model.Some? && tool.shape.Some?)
            && (r.Failure? ==> r.error.FromApi? || r.error.Contradictory?)
  {
  }
}
