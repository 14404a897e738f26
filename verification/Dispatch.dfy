/** Which tools a connector offers, and which calls it lets through
  * (mcp/src/server.ts, mcp/src/session-level.ts).
  */
module Dispatch {
  import opened FieldPolicy
  import opened Json
  import opened References
  import opened ToolPipeline
  import opened ToolWrites
  import opened Wrappers

  datatype Realm = Charity | Operator

  datatype Directory = UploadRoot | DownloadDir | Nothing

  datatype FileTool = FileTool(name: string, level: Level, needs: Directory)

  datatype Catalogue = Catalogue(
    tools: seq<Tool>,
    fileTools: seq<FileTool>,
    operatorTools: seq<Tool>,
    groupOf: Tool -> string,
    policy: Policy,
    targets: seq<Target>)

  datatype Config = Config(realm: Realm, toolsets: Option<set<string>>, uploadRoot: bool, downloadDir: bool)

  /** What the session holds, as the API says. */
  datatype Held = Held(level: Level, allowPersonalData: bool)

  const SESSION_INFO := "session_info"
  const FETCH := "fetch"
  const FILE_GROUP := "documents"
  const ALWAYS_OFFERED := "search"
  const WHOLE_FILES: set<string> := {"report_export", "document_download"}

  datatype Denial = UnknownTool | WrongRealm | ToolDisabled | LevelTooLow | ScopeRequired | ReferenceInvalid

  /** What becomes of a call once the checks are done. */
  datatype Decision =
    | Info
    | Run(tool: Tool, allowPersonalData: bool, args: Args)
    | RunFile(fileTool: FileTool, args: Args)
    | Denied(denial: Denial)

  function Rank(level: Level): nat {
    match level
    case ReadLevel => 0
    case WriteLevel => 1
    case AdminLevel => 2
  }

  predicate Permits(held: Level, tool: Tool) {
    Rank(held) >= Rank(tool.level)
  }

  predicate InToolsets(group: string, toolsets: Option<set<string>>) {
    group == ALWAYS_OFFERED || toolsets.None? || group in toolsets.value
  }

  predicate FileToolEnabled(tool: FileTool, config: Config) {
    match tool.needs
    case UploadRoot => config.uploadRoot
    case DownloadDir => config.downloadDir
    case Nothing => true
  }

  // ---- The listing ---------------------------------------------------------------------------

  /** Offered to the level, and not a write that a closed gate makes useless. */
  predicate Offered(policy: Policy, held: Held, allowPersonalData: bool, tool: Tool) {
    Permits(held.level, tool) && (allowPersonalData || !NeedsPersonalData(policy, tool))
  }

  predicate FileOffered(config: Config, held: Held, tool: FileTool) {
    && Rank(held.level) >= Rank(tool.level)
    && (tool.name in WHOLE_FILES ==> held.allowPersonalData)
    && FileToolEnabled(tool, config)
  }

  function NamesWhere(tools: seq<Tool>, keep: Tool -> bool): (names: seq<string>)
    ensures forall n :: n in names <==> exists i :: 0 <= i < |tools| && keep(tools[i]) && tools[i].name == n
  {
    if tools == [] then []
    else
      var rest := NamesWhere(tools[1..], keep);
      assert forall i :: 0 < i < |tools| ==> tools[i] == tools[1..][i - 1];
      if keep(tools[0]) then [tools[0].name] + rest else rest
  }

  function FileNamesWhere(tools: seq<FileTool>, keep: FileTool -> bool): (names: seq<string>)
    ensures forall n :: n in names <==> exists i :: 0 <= i < |tools| && keep(tools[i]) && tools[i].name == n
  {
    if tools == [] then []
    else
      var rest := FileNamesWhere(tools[1..], keep);
      assert forall i :: 0 < i < |tools| ==> tools[i] == tools[1..][i - 1];
      if keep(tools[0]) then [tools[0].name] + rest else rest
  }

  /** The operator realm replaces the charity's tools; it does not add to them. */
  function BuildToolList(c: Catalogue, config: Config, held: Held): seq<string> {
    if config.realm.Operator? then
      [SESSION_INFO] + NamesWhere(c.operatorTools, t => Offered(c.policy, held, false, t))
    else
      [SESSION_INFO, FETCH]
      + NamesWhere(c.tools, t => Offered(c.policy, held, held.allowPersonalData, t) && InToolsets(c.groupOf(t), config.toolsets))
      + (if InToolsets(FILE_GROUP, config.toolsets) then FileNamesWhere(c.fileTools, t => FileOffered(config, held, t)) else [])
  }

  // ---- The dispatch --------------------------------------------------------------------------

  function FindTool(tools: seq<Tool>, name: string): (r: Option<Tool>)
    ensures r.Some? ==> r.value in tools && r.value.name == name
    ensures r.None? <==> forall i :: 0 <= i < |tools| ==> tools[i].name != name
  {
    if tools == [] then None
    else if tools[0].name == name then Some(tools[0])
    else
      assert forall i :: 0 < i < |tools| ==> tools[i] == tools[1..][i - 1];
      FindTool(tools[1..], name)
  }

  function FindFileTool(tools: seq<FileTool>, name: string): (r: Option<FileTool>)
    ensures r.Some? ==> r.value in tools && r.value.name == name
    ensures r.None? <==> forall i :: 0 <= i < |tools| ==> tools[i].name != name
  {
    if tools == [] then None
    else if tools[0].name == name then Some(tools[0])
    else
      assert forall i :: 0 < i < |tools| ==> tools[i] == tools[1..][i - 1];
      FindFileTool(tools[1..], name)
  }

  function DispatchOperator(c: Catalogue, held: Held, name: string, args: Args): Decision {
    match FindTool(c.operatorTools, name)
    case None =>
      var isCharityTool := FindTool(c.tools, name).Some? || FindFileTool(c.fileTools, name).Some? || name == FETCH;
      Denied(if isCharityTool then WrongRealm else UnknownTool)
    case Some(tool) => if Permits(held.level, tool) then Run(tool, false, args) else Denied(LevelTooLow)
  }

  function DispatchFile(config: Config, held: Held, tool: FileTool, args: Args): Decision {
    if !InToolsets(FILE_GROUP, config.toolsets) then Denied(ToolDisabled)
    else if Rank(held.level) < Rank(tool.level) then Denied(LevelTooLow)
    else if tool.name in WHOLE_FILES && !held.allowPersonalData then Denied(ScopeRequired)
    else if !FileToolEnabled(tool, config) then Denied(ToolDisabled)
    else RunFile(tool, args)
  }

  function DispatchTool(c: Catalogue, config: Config, held: Held, name: string, args: Args): Decision {
    match FindTool(c.tools, name)
    case None => Denied(UnknownTool)
    case Some(tool) =>
      if !InToolsets(c.groupOf(tool), config.toolsets) then Denied(ToolDisabled)
      else if !Permits(held.level, tool) then Denied(LevelTooLow)
      else Run(tool, held.allowPersonalData, args)
  }

  function RefOf(args: Args): Option<Json> {
    if "ref" in args then Some(args["ref"]) else None
  }

  /** `fetch` becomes an ordinary call, and that call is dispatched again. It cannot
    * come back here: no reference is read by `fetch`.
    */
  function Decide(c: Catalogue, config: Config, held: Held, name: string, args: Args): Decision
    requires References.WellFormed(c.targets)
    decreases if name == FETCH then 1 else 0
  {
    if config.realm.Operator? && name != SESSION_INFO then DispatchOperator(c, held, name, args)
    else if name == FETCH then
      var resolved := ResolveReference(c.targets, RefOf(args));
      if resolved.None? then Denied(ReferenceInvalid)
      else if resolved.value.NoTool? then Denied(UnknownTool)
      else
        ResolvedTarget(c.targets, RefOf(args).value.s);
        Decide(c, config, held, resolved.value.tool, map[resolved.value.arg := Str(resolved.value.id)])
    else if name == SESSION_INFO then Info
    else
      match FindFileTool(c.fileTools, name)
      case Some(tool) => DispatchFile(config, held, tool, args)
      case None => DispatchTool(c, config, held, name, args)
  }

  // ---- Listing and dispatch agree ---------------------------------------------------------------

  /** No two tools share a name. */
  ghost predicate DistinctNames(c: Catalogue) {
    && (forall i, j :: 0 <= i < j < |c.tools| ==> c.tools[i].name != c.tools[j].name)
    && (forall i, j :: 0 <= i < j < |c.fileTools| ==> c.fileTools[i].name != c.fileTools[j].name)
    && (forall i, j :: 0 <= i < j < |c.operatorTools| ==> c.operatorTools[i].name != c.operatorTools[j].name)
    && (forall i, j :: 0 <= i < |c.tools| && 0 <= j < |c.fileTools| ==> c.tools[i].name != c.fileTools[j].name)
    && (forall i :: 0 <= i < |c.tools| ==> c.tools[i].name !in {SESSION_INFO, FETCH})
    && (forall i :: 0 <= i < |c.fileTools| ==> c.fileTools[i].name !in {SESSION_INFO, FETCH})
    && (forall i :: 0 <= i < |c.operatorTools| ==> c.operatorTools[i].name !in {SESSION_INFO, FETCH})
  }

  /** A write that is only left off the list because the gate is closed. */
  ghost predicate HiddenByGate(c: Catalogue, config: Config, held: Held, name: string) {
    if config.realm.Operator? then
      exists i :: 0 <= i < |c.operatorTools| && c.operatorTools[i].name == name &&
        Permits(held.level, c.operatorTools[i]) && NeedsPersonalData(c.policy, c.operatorTools[i])
    else
      !held.allowPersonalData &&
      exists i :: 0 <= i < |c.tools| && c.tools[i].name == name &&
        InToolsets(c.groupOf(c.tools[i]), config.toolsets) &&
        Permits(held.level, c.tools[i]) && NeedsPersonalData(c.policy, c.tools[i])
  }

  lemma FoundTool(tools: seq<Tool>, name: string, i: nat)
    requires i < |tools| && tools[i].name == name
    requires forall j, k :: 0 <= j < k < |tools| ==> tools[j].name != tools[k].name
    ensures FindTool(tools, name) == Some(tools[i])
  {
    var found := FindTool(tools, name).value;
    var k :| 0 <= k < |tools| && tools[k] == found;
    assert k == i;
  }

  lemma OperatorListing(c: Catalogue, config: Config, held: Held, name: string, args: Args)
    requires References.WellFormed(c.targets) && DistinctNames(c) && config.realm.Operator? && name != FETCH
    ensures !Decide(c, config, held, name, args).Denied? <==>
            name in BuildToolList(c, config, held) || HiddenByGate(c, config, held, name)
  {
    var tools := c.operatorTools;
    forall i | 0 <= i < |tools| && tools[i].name == name ensures FindTool(tools, name) == Some(tools[i]) {
      FoundTool(tools, name, i);
    }
  }

  lemma OnlyFileTool(c: Catalogue, name: string) returns (k: nat)
    requires DistinctNames(c) && FindFileTool(c.fileTools, name).Some?
    ensures k < |c.fileTools| && c.fileTools[k] == FindFileTool(c.fileTools, name).value
    ensures forall i :: 0 <= i < |c.fileTools| && c.fileTools[i].name == name ==> i == k
    ensures forall i :: 0 <= i < |c.tools| ==> c.tools[i].name != name
  {
    k :| 0 <= k < |c.fileTools| && c.fileTools[k] == FindFileTool(c.fileTools, name).value;
    forall i | 0 <= i < |c.fileTools| && c.fileTools[i].name == name ensures i == k {
      assert c.fileTools[i].name == c.fileTools[k].name;
    }
  }

  lemma FileListing(c: Catalogue, config: Config, held: Held, name: string, args: Args)
    requires References.WellFormed(c.targets) && DistinctNames(c) && config.realm.Charity?
    requires FindFileTool(c.fileTools, name).Some?
    ensures !Decide(c, config, held, name, args).Denied? <==> name in BuildToolList(c, config, held)
    ensures !HiddenByGate(c, config, held, name)
  {
    var k := OnlyFileTool(c, name);
  }

  lemma ToolListing(c: Catalogue, config: Config, held: Held, name: string, args: Args)
    requires References.WellFormed(c.targets) && DistinctNames(c) && config.realm.Charity? && name !in {FETCH, SESSION_INFO}
    requires FindFileTool(c.fileTools, name).None?
    ensures !Decide(c, config, held, name, args).Denied? <==>
            name in BuildToolList(c, config, held) || HiddenByGate(c, config, held, name)
  {
    var tools := c.tools;
    forall i | 0 <= i < |tools| && tools[i].name == name ensures FindTool(tools, name) == Some(tools[i]) {
      FoundTool(tools, name, i);
    }
    assert forall i :: 0 <= i < |c.fileTools| ==> c.fileTools[i].name != name;
  }

  /** What the gate hides is not listed. */
  lemma HiddenIsNotListed(c: Catalogue, config: Config, held: Held, name: string)
    requires DistinctNames(c) && HiddenByGate(c, config, held, name)
    ensures name !in BuildToolList(c, config, held)
  {
    var tools := if config.realm.Operator? then c.operatorTools else c.tools;
    var i :| 0 <= i < |tools| && tools[i].name == name && NeedsPersonalData(c.policy, tools[i]);
    assert forall j :: 0 <= j < |tools| && tools[j].name == name ==> j == i;
  }

  /** For every level, scope, toolset and realm: a call by name passes every check
    * exactly when the name is listed, or only the closed gate keeps it off the list,
    * never both. (`fetch` passes or fails with the call it stands for.)
    */
  lemma ListedIffLetThrough(c: Catalogue, config: Config, held: Held, name: string, args: Args)
    requires References.WellFormed(c.targets) && DistinctNames(c) && name != FETCH
    ensures !Decide(c, config, held, name, args).Denied? <==>
            name in BuildToolList(c, config, held) || HiddenByGate(c, config, held, name)
    ensures !(name in BuildToolList(c, config, held) && HiddenByGate(c, config, held, name))
  {
    if HiddenByGate(c, config, held, name) {
      HiddenIsNotListed(c, config, held, name);
    }
    if config.realm.Operator? {
      OperatorListing(c, config, held, name, args);
    } else if name == SESSION_INFO {
      assert name in BuildToolList(c, config, held);
    } else if FindFileTool(c.fileTools, name).Some? {
      FileListing(c, config, held, name, args);
    } else {
      ToolListing(c, config, held, name, args);
    }
  }

  lemma GatedIsRefused(policy: Policy, tool: Tool, args: Args)
    requires tool.verb.Some? && RequiresGated(policy, tool)
    ensures Prepare(policy, tool, false, args).Failure?
  {
    NoCallGoesThrough(policy, tool, args);
  }

  lemma HiddenIsClosed(c: Catalogue, config: Config, held: Held, name: string, args: Args)
    requires References.WellFormed(c.targets) && DistinctNames(c) && HiddenByGate(c, config, held, name)
    requires Decide(c, config, held, name, args).Run? && Decide(c, config, held, name, args).tool.verb.Some?
    ensures !Decide(c, config, held, name, args).allowPersonalData
  {
  }

  /** A write that only the gate hides refuses every call before anything is sent, unless
    * the one gated field it requires is the reason.
    */
  lemma HiddenRefusesEveryCall(c: Catalogue, config: Config, held: Held, name: string, args: Args)
    requires References.WellFormed(c.targets) && DistinctNames(c) && HiddenByGate(c, config, held, name)
    requires Decide(c, config, held, name, args).Run? && Decide(c, config, held, name, args).tool.verb.Some?
    requires RequiresGated(c.policy, Decide(c, config, held, name, args).tool)
    ensures var d := Decide(c, config, held, name, args);
            Prepare(c.policy, d.tool, d.allowPersonalData, d.args).Failure?
  {
    var d := Decide(c, config, held, name, args);
    HiddenIsClosed(c, config, held, name, args);
    GatedIsRefused(c.policy, d.tool, d.args);
  }

  /** `fetch` is the call that its reference stands for, checks and all. */
  lemma FetchIsItsTarget(c: Catalogue, config: Config, held: Held, args: Args, target: Target, id: seq<Text.Unit>)
    requires References.WellFormed(c.targets) && config.realm.Charity? && target in c.targets
    requires ResolveReference(c.targets, RefOf(args)) == Some(Resolved(target.tool, target.arg, id))
    ensures Decide(c, config, held, FETCH, args) == Decide(c, config, held, target.tool, map[target.arg := Str(id)])
  {
    ResolvedTarget(c.targets, RefOf(args).value.s);
  }

  /** Whatever is called in the operator realm, no charity tool, no file and no record is
    * reached, and no gate is open.
    */
  lemma OperatorReachesOnlyItsOwn(c: Catalogue, config: Config, held: Held, name: string, args: Args)
    requires References.WellFormed(c.targets) && config.realm.Operator?
    ensures match Decide(c, config, held, name, args)
            case Info => name == SESSION_INFO
            case Run(tool, allow, _) => tool in c.operatorTools && tool.name == name && !allow
            case RunFile(_, _) => false
            case Denied(denial) => denial in {UnknownTool, WrongRealm, LevelTooLow}
  {
  }
}
