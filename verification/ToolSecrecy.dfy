/** What a tool call shows and what it can send, with the personal-data gate closed. */
module ToolSecrecy {
  import opened FieldPolicy
  import opened FieldViews
  import opened Json
  import opened PolicyViews
  import opened Text
  import opened ToolBody
  import opened ToolInput
  import opened ToolPipeline
  import opened Wrappers

  // ---- Stripping and selecting only remove ---------------------------------------------------

  /** A path that goes through none of the keys. */
  predicate Avoids(path: seq<Step>, keys: seq<string>) {
    forall i :: 0 <= i < |path| && path[i].Key? ==> path[i].key !in keys
  }

  /** The keys are gone at every depth, and nothing else is. */
  lemma {:induction false} StripsExactly(v: Json, keys: seq<string>, path: seq<Step>)
    ensures At(StripKeys(v, keys), path) ==
            if At(v, path).Some? && Avoids(path, keys) then Some(StripKeys(At(v, path).value, keys)) else None
    decreases |path|
  {
    if path != [] {
      assert Avoids(path, keys) <==> Avoids(path[..1], keys) && Avoids(path[1..], keys) by {
        assert path == path[..1] + path[1..];
      }
      var child := Child(v, path[0]);
      if child.Some? {
        StripsExactly(child.value, keys, path[1..]);
      }
    }
  }

  lemma {:induction false} StripPrunes(v: Json, keys: seq<string>)
    ensures Prunes(StripKeys(v, keys), v)
  {
    match v
    case Arr(items) =>
      forall i | 0 <= i < |items| ensures Prunes(StripKeys(items[i], keys), items[i]) {
        StripPrunes(items[i], keys);
      }
    case Obj(fields) =>
      forall k | k in fields && k !in keys ensures Prunes(StripKeys(fields[k], keys), fields[k]) {
        StripPrunes(fields[k], keys);
      }
    case _ =>
  }

  lemma SelectPrunes(v: Json, fields: seq<string>)
    ensures Prunes(SelectFields(v, fields), v)
  {
    PrunesItself(v);
    var allowed := KeySet(fields);
    if fields != [] {
      FilterRecordIsView(allowed, v);
      ProjectPrunes(RecordView(allowed), v);
      if v.Obj? && "data" in v.fields {
        var data := v.fields["data"];
        FilterRecordIsView(allowed, data);
        ProjectPrunes(RecordView(allowed), data);
        forall k | k in v.fields ensures Prunes(v.fields[k], v.fields[k]) {
          PrunesItself(v.fields[k]);
        }
      }
    }
  }

  /** Which paths a choice of fields leaves: of a page everything around the records,
    * and of each record the fields chosen.
    */
  predicate Selected(fields: seq<string>, isPage: bool, path: seq<Step>) {
    if fields == [] || path == [] then true
    else if !isPage then Visible(RecordView(KeySet(fields)), path)
    else if path[0] == Key("data") then Visible(RecordView(KeySet(fields)), path[1..])
    else true
  }

  predicate IsPage(v: Json) {
    v.Obj? && "data" in v.fields
  }

  lemma FilterShowsExactly(allowed: set<string>, v: Json, path: seq<Step>)
    ensures At(FilterRecord(allowed, v), path).Some? <==> At(v, path).Some? && Visible(RecordView(allowed), path)
    ensures At(FilterRecord(allowed, v), path).Some? && IsLeaf(At(v, path).value) ==>
              At(FilterRecord(allowed, v), path) == At(v, path)
  {
    FilterRecordIsView(allowed, v);
    RecordConforms(allowed, v);
    ShownExactly(RecordView(allowed), v, path);
  }

  predicate IsLeaf(v: Json) {
    !v.Obj? && !v.Arr?
  }

  lemma SelectsExactly(v: Json, fields: seq<string>, path: seq<Step>)
    ensures At(SelectFields(v, fields), path).Some? <==> At(v, path).Some? && Selected(fields, IsPage(v), path)
    ensures At(SelectFields(v, fields), path).Some? && IsLeaf(At(v, path).value) ==>
              At(SelectFields(v, fields), path) == At(v, path)
  {
    if fields != [] && path != [] {
      if IsPage(v) {
        if path[0] == Key("data") {
          FilterShowsExactly(KeySet(fields), v.fields["data"], path[1..]);
        } else {
          assert Child(SelectFields(v, fields), path[0]) == Child(v, path[0]);
        }
      } else {
        FilterShowsExactly(KeySet(fields), v, path);
      }
    }
  }

  // ---- What a call shows -----------------------------------------------------------------------

  /** The view that a tool's gate is: everything when it is open, or when the tool
    * declares that it carries no records.
    */
  function GateView(policy: Policy, tool: Tool, raw: Json, allowPersonalData: bool): View {
    if allowPersonalData then Whole
    else if tool.model.Some? then ModelView(policy(tool.model.value), raw)
    else if tool.shape.Some? then ShapeView(policy, tool.shape.value, raw)
    else Whole
  }

  ghost predicate DeclaredFor(policy: Policy, tool: Tool, raw: Json) {
    tool.model.None? && tool.shape.Some? ==>
      Declared(tool.shape.value, raw) && Conforms(ShapeView(policy, tool.shape.value, raw), raw)
  }

  lemma PolicyIsView(policy: Policy, tool: Tool, raw: Json, allowPersonalData: bool)
    requires !(tool.model.Some? && tool.shape.Some?) && DeclaredFor(policy, tool, raw)
    ensures var view := GateView(policy, tool, raw, allowPersonalData);
            ApplyPolicy(policy, tool, raw, allowPersonalData) == Success(Project(view, raw)) && Conforms(view, raw)
  {
    if tool.model.Some? {
      ModelFilterIsView(policy(tool.model.value), raw);
      ModelConforms(policy(tool.model.value), raw);
    } else if tool.shape.Some? {
      ShapeFilterIsView(policy, tool.shape.value, raw);
    }
  }

  /** A path that survives the gate and the stripping. */
  ghost predicate Shown(policy: Policy, tool: Tool, raw: Json, allowPersonalData: bool, path: seq<Step>) {
    && At(raw, path).Some?
    && Visible(GateView(policy, tool, raw, allowPersonalData), path)
    && Avoids(path, tool.redactAlways)
  }

  lemma FilteredShowsExactly(policy: Policy, tool: Tool, raw: Json, allowPersonalData: bool, path: seq<Step>)
    requires !(tool.model.Some? && tool.shape.Some?) && DeclaredFor(policy, tool, raw)
    ensures var v := StripKeys(ApplyPolicy(policy, tool, raw, allowPersonalData).value, tool.redactAlways);
            && (At(v, path).Some? <==> Shown(policy, tool, raw, allowPersonalData, path))
            && (At(v, path).Some? && IsLeaf(At(raw, path).value) ==> At(v, path) == At(raw, path))
  {
    PolicyIsView(policy, tool, raw, allowPersonalData);
    var filtered := ApplyPolicy(policy, tool, raw, allowPersonalData).value;
    ShownExactly(GateView(policy, tool, raw, allowPersonalData), raw, path);
    StripsExactly(filtered, tool.redactAlways, path);
  }

  /** The whole of what a call shows of an answer, path by path: what the gate's view
    * names, under no key that is always stripped, in a field that was asked for. What
    * is shown is the answer's own.
    */
  lemma ResultShowsExactly(
      policy: Policy, tool: Tool, raw: Json, allowPersonalData: bool, fields: seq<string>, path: seq<Step>)
    requires !(tool.model.Some? && tool.shape.Some?) && DeclaredFor(policy, tool, raw)
    ensures Finish(policy, tool, raw, allowPersonalData, fields).Success?
    ensures var out := Finish(policy, tool, raw, allowPersonalData, fields).value;
            var isPage := Shown(policy, tool, raw, allowPersonalData, [Key("data")]);
            && (At(out, path).Some? <==>
                Shown(policy, tool, raw, allowPersonalData, path) && Selected(fields, isPage, path))
            && (At(out, path).Some? && IsLeaf(At(raw, path).value) ==> At(out, path) == At(raw, path))
  {
    PolicyIsView(policy, tool, raw, allowPersonalData);
    var v := StripKeys(ApplyPolicy(policy, tool, raw, allowPersonalData).value, tool.redactAlways);
    FilteredShowsExactly(policy, tool, raw, allowPersonalData, path);
    FilteredShowsExactly(policy, tool, raw, allowPersonalData, [Key("data")]);
    PageByPath(v);
    SelectsExactly(v, fields, path);
  }

  lemma PageByPath(v: Json)
    ensures IsPage(v) <==> At(v, [Key("data")]).Some?
  {
    assert [Key("data")][1..] == [];
  }

  /** A result is the answer with keys removed and nothing else done to it. */
  lemma ResultPrunes(policy: Policy, tool: Tool, raw: Json, allowPersonalData: bool, fields: seq<string>)
    requires !(tool.model.Some? && tool.shape.Some?) && DeclaredFor(policy, tool, raw)
    ensures Prunes(Finish(policy, tool, raw, allowPersonalData, fields).value, raw)
  {
    PolicyIsView(policy, tool, raw, allowPersonalData);
    var filtered := ApplyPolicy(policy, tool, raw, allowPersonalData).value;
    var stripped := StripKeys(filtered, tool.redactAlways);
    ProjectPrunes(GateView(policy, tool, raw, allowPersonalData), raw);
    StripPrunes(filtered, tool.redactAlways);
    SelectPrunes(stripped, fields);
    PrunesTransitively(stripped, filtered, raw);
    PrunesTransitively(SelectFields(stripped, fields), stripped, raw);
  }

  // ---- Noninterference over whole sessions --------------------------------------------------------

  /** Two answers that agree on everything a tool's closed gate names. */
  ghost predicate Alike(policy: Policy, tool: Tool, a: Result<Json, nat>, b: Result<Json, nat>) {
    match (a, b)
    case (Failure(i), Failure(j)) => i == j
    case (Success(x), Success(y)) =>
      && DeclaredFor(policy, tool, x) && DeclaredFor(policy, tool, y)
      && GateView(policy, tool, x, false) == GateView(policy, tool, y, false)
      && Agree(GateView(policy, tool, x, false), x, y)
    case _ => false
  }

  /** What a caller does next, given everything it has been answered. */
  type Agent = seq<Result<Json, Refusal>> -> (Tool, Args)

  datatype Transcript = Transcript(sent: seq<Request>, answers: seq<Result<Json, Refusal>>)

  /** One more call, as `RunTool` makes it. */
  function Called(policy: Policy, world: World, tool: Tool, args: Args, t: Transcript): Transcript {
    match Prepare(policy, tool, false, args)
    case Failure(refusal) => Transcript(t.sent, t.answers + [Failure(refusal)])
    case Success(call) =>
      var sent := t.sent + [call.request];
      Transcript(sent, t.answers + [Answer(policy, tool, false, call.fields, world, sent)])
  }

  /** A call adds one answer, and one request exactly where it is not refused. */
  lemma CalledExact(policy: Policy, world: World, tool: Tool, args: Args, t: Transcript)
    ensures var after := Called(policy, world, tool, args, t);
            match Prepare(policy, tool, false, args)
            case Failure(refusal) => after.sent == t.sent && after.answers == t.answers + [Failure(refusal)]
            case Success(call) =>
              && after.sent == t.sent + [call.request] && |after.answers| == |t.answers| + 1 && t.answers <= after.answers
              && after.answers[|t.answers|] == Answer(policy, tool, false, call.fields, world, after.sent)
  {
  }

  function Next(policy: Policy, world: World, agent: Agent, t: Transcript): Transcript {
    Called(policy, world, agent(t.answers).0, agent(t.answers).1, t)
  }

  function Session(policy: Policy, world: World, agent: Agent, calls: nat): Transcript {
    if calls == 0 then Transcript([], []) else Next(policy, world, agent, Session(policy, world, agent, calls - 1))
  }

  lemma AlikeAnswers(
      policy: Policy, tool: Tool, a: World, b: World, sent: seq<Request>, fields: seq<string>)
    requires Alike(policy, tool, a(sent), b(sent))
    ensures Answer(policy, tool, false, fields, a, sent) == Answer(policy, tool, false, fields, b, sent)
  {
    if a(sent).Success? && !(tool.model.Some? && tool.shape.Some?) {
      var (x, y) := (a(sent).value, b(sent).value);
      PolicyIsView(policy, tool, x, false);
      PolicyIsView(policy, tool, y, false);
      AgreeIffSameProjection(GateView(policy, tool, x, false), x, y);
    }
  }

  /** Two charities behind the same API: whenever one of the tools makes a request, the
    * answers agree on everything that tool's closed gate names.
    */
  ghost predicate SameBehindGate(policy: Policy, tools: set<Tool>, a: World, b: World) {
    forall tool, args, before :: tool in tools && Prepare(policy, tool, false, args).Success? ==>
      var sent := before + [Prepare(policy, tool, false, args).value.request];
      Alike(policy, tool, a(sent), b(sent))
  }

  lemma SameCall(policy: Policy, tools: set<Tool>, a: World, b: World, tool: Tool, args: Args, t: Transcript)
    requires SameBehindGate(policy, tools, a, b) && tool in tools
    ensures Called(policy, a, tool, args, t) == Called(policy, b, tool, args, t)
  {
    if Prepare(policy, tool, false, args).Success? {
      var call := Prepare(policy, tool, false, args).value;
      AlikeAnswers(policy, tool, a, b, t.sent + [call.request], call.fields);
    }
  }

  lemma {:induction false} SameSteps(policy: Policy, a: World, b: World, agent: Agent, calls: nat)
    requires forall t :: Next(policy, a, agent, t) == Next(policy, b, agent, t)
    ensures Session(policy, a, agent, calls) == Session(policy, b, agent, calls)
  {
    if calls > 0 {
      SameSteps(policy, a, b, agent, calls - 1);
    }
  }

  /** Whatever a caller asks of these tools, and however its next question depends on
    * what it has been told, with the gate closed it cannot tell the two charities
    * apart: the same requests are sent and the same answers given.
    */
  lemma SessionsAreTheSame(policy: Policy, tools: set<Tool>, a: World, b: World, agent: Agent, calls: nat)
    requires forall answers :: agent(answers).0 in tools
    requires SameBehindGate(policy, tools, a, b)
    ensures Session(policy, a, agent, calls) == Session(policy, b, agent, calls)
  {
    forall t ensures Next(policy, a, agent, t) == Next(policy, b, agent, t) {
      SameCall(policy, tools, a, b, agent(t.answers).0, agent(t.answers).1, t);
    }
    SameSteps(policy, a, b, agent, calls);
  }

  // ---- Two charities that differ -------------------------------------------------------------

  /** A charity whose records have this one field. */
  function Holding(key: string, value: Json): World {
    (sent: seq<Request>) => Success(Obj(map[key := value]))
  }

  lemma HoldingAlike(policy: Policy, tool: Tool, key: string, x: Json, y: Json)
    requires tool.model.Some? && tool.shape.None? && key != "data" && key !in policy(tool.model.value)
    ensures Alike(policy, tool, Success(Obj(map[key := x])), Success(Obj(map[key := y])))
  {
    var view := RecordView(policy(tool.model.value));
    var (a, b) := (Obj(map[key := x]), Obj(map[key := y]));
    assert GateView(policy, tool, a, false) == view == GateView(policy, tool, b, false);
    assert Agree(view.item, a, b);
  }

  /** Charities that answer every request differently can be the same behind the gate:
    * it is enough that no tool's allowlist names the field they differ in.
    */
  lemma DifferentYetSame(policy: Policy, tools: set<Tool>, key: string, x: Json, y: Json)
    requires key != "data" && x != y
    requires forall tool :: tool in tools ==>
               tool.model.Some? && tool.shape.None? && key !in policy(tool.model.value)
    ensures SameBehindGate(policy, tools, Holding(key, x), Holding(key, y))
    ensures forall sent :: Holding(key, x)(sent) != Holding(key, y)(sent)
  {
    forall tool, args, before | tool in tools && Prepare(policy, tool, false, args).Success?
      ensures var sent := before + [Prepare(policy, tool, false, args).value.request];
              Alike(policy, tool, Holding(key, x)(sent), Holding(key, y)(sent))
    {
      HoldingAlike(policy, tool, key, x, y);
    }
    assert map[key := x][key] != map[key := y][key];
  }
}
