/** From a tool call to a request, and from the API's answer to the tool's
  * (mcp/src/tools.ts).
  */
module ToolPipeline {
  import opened FieldPolicy
  import opened Json
  import opened Text
  import opened ToolBody
  import opened ToolInput
  import opened Wrappers

  datatype Level = ReadLevel | WriteLevel | AdminLevel

  datatype Verb = Post | Patch | Put | Delete

  datatype Tool = Tool(
    name: string,
    template: seq<Unit>,
    params: seq<ParamSpec>,
    model: Option<ModelName>,
    shape: Option<ShapeName>,
    verb: Option<Verb>,
    body: Option<seq<FieldSpec>>,
    level: Level,
    destructive: bool,
    redactAlways: seq<string>)

  datatype Request = Request(
    verb: Option<Verb>,
    path: seq<Unit>,
    body: Option<map<string, Json>>,
    reason: Option<seq<Unit>>,
    approvalId: Option<seq<Unit>>)

  /** Why a call fails: an argument of the wrong form, the closed gate, a destructive
    * action without a reason, a tool declared in two ways, or the API's own refusal.
    */
  datatype Refusal = Invalid | Withheld(fields: set<string>) | ReasonRequired | Contradictory | FromApi(status: nat)

  datatype Call = Call(request: Request, fields: seq<string>)

  type Args = map<string, Json>

  // ---- What is taken out of an answer ------------------------------------------------------

  function StripKeys(v: Json, keys: seq<string>): Json {
    match v
    case Arr(items) => Arr(seq(|items|, i requires 0 <= i < |items| => StripKeys(items[i], keys)))
    case Obj(fields) => Obj(map k | k in fields && k !in keys :: StripKeys(fields[k], keys))
    case _ => v
  }

  /** `stripKeys`, entry by entry. */
  method StripKeysLoop(v: Json, keys: seq<string>) returns (r: Json)
    ensures r == StripKeys(v, keys)
    decreases v
  {
    match v {
      case Arr(items) =>
        var out: seq<Json> := [];
        for i := 0 to |items|
          invariant |out| == i && forall j :: 0 <= j < i ==> out[j] == StripKeys(items[j], keys)
        {
          var item := StripKeysLoop(items[i], keys);
          out := out + [item];
        }
        return Arr(out);
      case Obj(fields) =>
        var out: map<string, Json> := map[];
        var todo := fields.Keys;
        while todo != {}
          invariant todo <= fields.Keys
          invariant out == map k | k in fields && k !in todo && k !in keys :: StripKeys(fields[k], keys)
          decreases todo
        {
          var key :| key in todo;
          todo := todo - {key};
          if key in keys {
            continue;
          }
          var item := StripKeysLoop(fields[key], keys);
          out := out[key := item];
        }
        return Obj(out);
      case _ =>
        return v;
    }
  }

  /** Narrows each record to the fields asked for; none asked for means all. The page
    * around the records is not narrowed.
    */
  function SelectFields(v: Json, fields: seq<string>): Json {
    if fields == [] then v
    else if v.Obj? && "data" in v.fields then
      Obj(v.fields["data" := FilterRecord(KeySet(fields), v.fields["data"])])
    else FilterRecord(KeySet(fields), v)
  }

  function ApplyPolicy(policy: Policy, tool: Tool, raw: Json, allowPersonalData: bool): Result<Json, Refusal> {
    if tool.model.Some? && tool.shape.Some? then Failure(Contradictory)
    else if tool.model.Some? then Success(ApplyFieldPolicy(policy(tool.model.value), raw, allowPersonalData))
    else if tool.shape.Some? then Success(ApplyShapePolicy(policy, tool.shape.value, raw, allowPersonalData))
    else Success(raw)
  }

  function Finish(policy: Policy, tool: Tool, raw: Json, allowPersonalData: bool, fields: seq<string>): Result<Json, Refusal> {
    match ApplyPolicy(policy, tool, raw, allowPersonalData)
    case Failure(e) => Failure(e)
    case Success(v) => Success(SelectFields(StripKeys(v, tool.redactAlways), fields))
  }

  // ---- A read ------------------------------------------------------------------------------

  /** The key that text names, if it can name one of the allowlisted fields. */
  function KeyOf(v: Json): Option<string> {
    if v.Str? && forall i :: 0 <= i < |v.s| ==> v.s[i] < 128
    then Some(seq(|v.s|, i requires 0 <= i < |v.s| => v.s[i] as char)) else None
  }

  function KeysOf(vs: seq<Json>, safe: set<string>): Option<seq<string>> {
    if vs == [] then Some([])
    else
      match (KeyOf(vs[0]), KeysOf(vs[1..], safe))
      case (Some(key), Some(rest)) => if key in safe then Some([key] + rest) else None
      case _ => None
  }

  /** The fields asked for. Only fields the closed gate would release can be asked for. */
  function TakeFields(policy: Policy, tool: Tool, args: Args): Option<seq<string>> {
    if "fields" !in args then Some([])
    else if tool.model.None? || !args["fields"].Arr? then None
    else KeysOf(args["fields"].items, policy(tool.model.value))
  }

  function PrepareRead(policy: Policy, tool: Tool, args: Args): Result<Call, Refusal> {
    match TakeFields(policy, tool, args)
    case None => Failure(Invalid)
    case Some(fields) =>
      match Url(tool.template, tool.params, args - {"fields"})
      case None => Failure(Invalid)
      case Some(path) => Success(Call(Request(None, path, None, None, None), fields))
  }

  // ---- A write -----------------------------------------------------------------------------

  datatype Parts = Parts(path: Args, body: Args, reason: Option<seq<Unit>>, approvalId: Option<seq<Unit>>)

  const HEADER_ARGS: set<string> := {"reason", "approvalId"}

  predicate HasGoodReason(args: Args) {
    "reason" in args ==> args["reason"].Str? && Trim(args["reason"].s) != []
  }

  predicate HasGoodApproval(args: Args) {
    "approvalId" in args ==> args["approvalId"].Str?
  }

  function PathArgs(tool: Tool, args: Args): Args {
    map k | k in args && k in ParamNames(tool.params) && k !in HEADER_ARGS :: args[k]
  }

  function BodyArgs(tool: Tool, args: Args): Args {
    map k | k in args && k !in ParamNames(tool.params) && k !in HEADER_ARGS :: args[k]
  }

  function ReasonOf(args: Args): Option<seq<Unit>> {
    if "reason" in args && args["reason"].Str? then Some(Trim(args["reason"].s)) else None
  }

  function ApprovalOf(args: Args): Option<seq<Unit>> {
    if "approvalId" in args && args["approvalId"].Str? then Some(args["approvalId"].s) else None
  }

  /** One more argument goes to one of the parts. */
  lemma OneMoreArgument(tool: Tool, args: Args, key: string, value: Json)
    requires key !in args && key !in HEADER_ARGS
    ensures var more := args[key := value];
            var inPath := key in ParamNames(tool.params);
            && PathArgs(tool, more) == (if inPath then PathArgs(tool, args)[key := value] else PathArgs(tool, args))
            && BodyArgs(tool, more) == (if inPath then BodyArgs(tool, args) else BodyArgs(tool, args)[key := value])
  {
    var more := args[key := value];
    if key in ParamNames(tool.params) {
      assert PathArgs(tool, more) == PathArgs(tool, args)[key := value];
      assert BodyArgs(tool, more) == BodyArgs(tool, args);
    } else {
      assert PathArgs(tool, more) == PathArgs(tool, args);
      assert BodyArgs(tool, more) == BodyArgs(tool, args)[key := value];
    }
  }

  lemma HeaderArgument(tool: Tool, args: Args, key: string, value: Json)
    requires key in HEADER_ARGS
    ensures PathArgs(tool, args[key := value]) == PathArgs(tool, args)
    ensures BodyArgs(tool, args[key := value]) == BodyArgs(tool, args)
  {
  }

  /** The arguments of the URL, of the body and of the headers, which share nothing. */
  method Partition(tool: Tool, args: Args) returns (parts: Option<Parts>)
    ensures parts == if HasGoodReason(args) && HasGoodApproval(args)
                     then Some(Parts(PathArgs(tool, args), BodyArgs(tool, args), ReasonOf(args), ApprovalOf(args)))
                     else None
  {
    var pathNames := ParamNames(tool.params);
    var path: Args := map[];
    var body: Args := map[];
    var reason: Option<seq<Unit>> := None;
    var approvalId: Option<seq<Unit>> := None;
    var todo := args.Keys;
    ghost var done: Args := map[];
    while todo != {}
      invariant todo <= args.Keys && done == args - todo
      invariant path == PathArgs(tool, done) && body == BodyArgs(tool, done)
      invariant HasGoodReason(done) && HasGoodApproval(done)
      invariant reason == ReasonOf(done) && approvalId == ApprovalOf(done)
      decreases todo
    {
      var key :| key in todo;
      var value := args[key];
      todo := todo - {key};
      ghost var before := done;
      done := done[key := value];
      assert done == args - todo;
      if key == "reason" {
        HeaderArgument(tool, before, key, value);
        if !value.Str? || Trim(value.s) == [] {
          return None;
        }
        reason := Some(Trim(value.s));
      } else if key == "approvalId" {
        HeaderArgument(tool, before, key, value);
        if !value.Str? {
          return None;
        }
        approvalId := Some(value.s);
      } else {
        OneMoreArgument(tool, before, key, value);
        if key in pathNames {
          path := path[key := value];
        } else {
          body := body[key := value];
        }
      }
    }
    assert done == args;
    return Some(Parts(path, body, reason, approvalId));
  }

  /** The body fields that a closed gate withholds on the way out. */
  function GatedFieldsOf(policy: Policy, tool: Tool): set<string> {
    if tool.model.None? || tool.body.None? then {}
    else set f | f in tool.body.value && !f.control && f.name !in policy(tool.model.value) :: f.name
  }

  function GatedFieldsInCall(policy: Policy, tool: Tool, body: Args): set<string> {
    body.Keys * GatedFieldsOf(policy, tool)
  }

  /** A field that the API requires is one that the gate withholds. */
  predicate NeedsPersonalData(policy: Policy, tool: Tool) {
    tool.model.Some? && tool.body.Some? &&
    exists f :: f in tool.body.value && f.required && !f.control && f.name !in policy(tool.model.value)
  }

  /** A field named `reason` is given the reason that travels in the header as well. */
  function WithReason(tool: Tool, body: Args, reason: Option<seq<Unit>>): Args {
    if reason.Some? && tool.body.Some? && "reason" in Names(tool.body.value)
    then body["reason" := Str(reason.value)] else body
  }

  /** What is sent as the body: nothing for a deletion, an empty object where the tool
    * declares none.
    */
  function SentBody(verb: Verb, body: Option<Args>): Option<Args> {
    if verb.Delete? then None else if body.None? then Some(map[]) else body
  }

  function PrepareWrite(policy: Policy, tool: Tool, allowPersonalData: bool, args: Args): Result<Call, Refusal>
    requires tool.verb.Some?
  {
    if !HasGoodReason(args) || !HasGoodApproval(args) then Failure(Invalid)
    else
      var gated := GatedFieldsInCall(policy, tool, BodyArgs(tool, args));
      if gated != {} && !allowPersonalData then Failure(Withheld(gated))
      else if tool.destructive && ReasonOf(args).None? then Failure(ReasonRequired)
      else
        var body := WithReason(tool, BodyArgs(tool, args), ReasonOf(args));
        match Url(tool.template, tool.params, PathArgs(tool, args))
        case None => Failure(Invalid)
        case Some(path) =>
          if tool.body.Some? && !IsBody(tool.body.value, body) then Failure(Invalid)
          else
            var built := if tool.body.Some? then Some(body) else None;
            Success(Call(Request(tool.verb, path, SentBody(tool.verb.value, built), ReasonOf(args), ApprovalOf(args)), []))
  }

  function Prepare(policy: Policy, tool: Tool, allowPersonalData: bool, args: Args): Result<Call, Refusal> {
    if tool.verb.None? then PrepareRead(policy, tool, args) else PrepareWrite(policy, tool, allowPersonalData, args)
  }

  // ---- A whole call ------------------------------------------------------------------------

  /** What the API answers the last of the requests it has been sent. It is not told
    * which tool made them.
    */
  type World = seq<Request> -> Result<Json, nat>

  class Api {
    const world: World
    var sent: seq<Request>

    constructor (world: World)
      ensures this.world == world && sent == []
    {
      this.world := world;
      sent := [];
    }

    method Send(request: Request) returns (answer: Result<Json, nat>)
      modifies this
      ensures sent == old(sent) + [request] && answer == world(sent)
    {
      sent := sent + [request];
      answer := world(sent);
    }
  }

  /** The answer to a call that was sent as the last of `sent`. */
  function Answer(policy: Policy, tool: Tool, allowPersonalData: bool, fields: seq<string>, world: World, sent: seq<Request>)
    : Result<Json, Refusal>
  {
    match world(sent)
    case Failure(status) => Failure(FromApi(status))
    case Success(raw) => Finish(policy, tool, raw, allowPersonalData, fields)
  }

  /** One call: refused before anything is sent, or one request and its filtered answer. */
  method RunTool(policy: Policy, tool: Tool, api: Api, allowPersonalData: bool, args: Args)
    returns (r: Result<Json, Refusal>)
    modifies api
    ensures match Prepare(policy, tool, allowPersonalData, args)
            case Failure(refusal) => r == Failure(refusal) && api.sent == old(api.sent)
            case Success(call) =>
              api.sent == old(api.sent) + [call.request] &&
              r == Answer(policy, tool, allowPersonalData, call.fields, api.world, api.sent)
  {
    if tool.verb.None? {
      r := RunRead(policy, tool, api, allowPersonalData, args);
    } else {
      r := RunWrite(policy, tool, api, allowPersonalData, args);
    }
  }

  method RunRead(policy: Policy, tool: Tool, api: Api, allowPersonalData: bool, args: Args)
    returns (r: Result<Json, Refusal>)
    requires tool.verb.None?
    modifies api
    ensures match PrepareRead(policy, tool, args)
            case Failure(refusal) => r == Failure(refusal) && api.sent == old(api.sent)
            case Success(call) =>
              api.sent == old(api.sent) + [call.request] &&
              r == Answer(policy, tool, allowPersonalData, call.fields, api.world, api.sent)
  {
    var fields := TakeFields(policy, tool, args);
    if fields.None? {
      return Failure(Invalid);
    }
    var path := BuildPath(tool.template, tool.params, args - {"fields"});
    if path.None? {
      return Failure(Invalid);
    }
    var answer := api.Send(Request(None, path.value, None, None, None));
    r := Filtered(policy, tool, answer, allowPersonalData, fields.value);
  }

  method Filtered(policy: Policy, tool: Tool, answer: Result<Json, nat>, allowPersonalData: bool, fields: seq<string>)
    returns (r: Result<Json, Refusal>)
    ensures r == match answer
                 case Failure(status) => Failure(FromApi(status))
                 case Success(raw) => Finish(policy, tool, raw, allowPersonalData, fields)
  {
    if answer.Failure? {
      return Failure(FromApi(answer.error));
    }
    var filtered := ApplyPolicy(policy, tool, answer.value, allowPersonalData);
    if filtered.Failure? {
      return filtered;
    }
    var stripped := StripKeysLoop(filtered.value, tool.redactAlways);
    return Success(SelectFields(stripped, fields));
  }

  method RunWrite(policy: Policy, tool: Tool, api: Api, allowPersonalData: bool, args: Args)
    returns (r: Result<Json, Refusal>)
    requires tool.verb.Some?
    modifies api
    ensures match PrepareWrite(policy, tool, allowPersonalData, args)
            case Failure(refusal) => r == Failure(refusal) && api.sent == old(api.sent)
            case Success(call) =>
              api.sent == old(api.sent) + [call.request] &&
              r == Answer(policy, tool, allowPersonalData, call.fields, api.world, api.sent)
  {
    var parts := Partition(tool, args);
    if parts.None? {
      return Failure(Invalid);
    }
    var p := parts.value;
    var gated := GatedFieldsInCall(policy, tool, p.body);
    if gated != {} && !allowPersonalData {
      return Failure(Withheld(gated));
    }
    if tool.destructive && p.reason.None? {
      return Failure(ReasonRequired);
    }
    var path := BuildPath(tool.template, tool.params, p.path);
    if path.None? {
      return Failure(Invalid);
    }
    var body: Option<Args> := None;
    if tool.body.Some? {
      body := BuildBody(tool.body.value, WithReason(tool, p.body, p.reason));
      if body.None? {
        return Failure(Invalid);
      }
    }
    var request := Request(tool.verb, path.value, SentBody(tool.verb.value, body), p.reason, p.approvalId);
    var answer := api.Send(request);
    r := Filtered(policy, tool, answer, allowPersonalData, []);
  }
}
