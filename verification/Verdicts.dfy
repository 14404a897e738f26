/** Every call and what becomes of it: which checks it has to pass, and which refusal it
  * meets otherwise (mcp/src/server.ts, mcp/src/session-level.ts).
  */
module Verdicts {
  import opened Dispatch
  import opened Json
  import opened References
  import opened Text
  import opened ToolPipeline
  import opened Wrappers

  /** A session that holds one level may do what needs the other. */
  predicate Suffices(held: Level, needed: Level) {
    held == AdminLevel || needed == ReadLevel || (held == WriteLevel && needed == WriteLevel)
  }

  /** The search is in every set of tools. */
  predicate Enabled(group: string, config: Config) {
    config.toolsets == None || group == "search" || group in config.toolsets.value
  }

  lemma SufficesIff(held: Level, needed: Level)
    ensures Suffices(held, needed) <==> Rank(held) >= Rank(needed)
  {
  }

  /** The first tool of a name, which is the one that a call by that name means. */
  ghost predicate Means(tools: seq<Tool>, name: string, i: nat) {
    i < |tools| && tools[i].name == name && forall j :: 0 <= j < i ==> tools[j].name != name
  }

  ghost predicate MeansFile(tools: seq<FileTool>, name: string, i: nat) {
    i < |tools| && tools[i].name == name && forall j :: 0 <= j < i ==> tools[j].name != name
  }

  ghost predicate IsTool(tools: seq<Tool>, name: string) {
    exists i :: 0 <= i < |tools| && tools[i].name == name
  }

  ghost predicate IsFileTool(tools: seq<FileTool>, name: string) {
    exists i :: 0 <= i < |tools| && tools[i].name == name
  }

  lemma {:induction false} FirstTool(tools: seq<Tool>, name: string, i: nat)
    requires Means(tools, name, i)
    ensures FindTool(tools, name) == Some(tools[i])
  {
    if i > 0 {
      assert forall j :: 0 <= j < i ==> tools[1..][j] == tools[j + 1];
      FirstTool(tools[1..], name, i - 1);
    }
  }

  lemma {:induction false} FirstFileTool(tools: seq<FileTool>, name: string, i: nat)
    requires MeansFile(tools, name, i)
    ensures FindFileTool(tools, name) == Some(tools[i])
  {
    if i > 0 {
      assert forall j :: 0 <= j < i ==> tools[1..][j] == tools[j + 1];
      FirstFileTool(tools[1..], name, i - 1);
    }
  }

  // ---- The charity's tools -------------------------------------------------------------------

  ghost predicate IsPlain(c: Catalogue, config: Config, name: string) {
    config.realm.Charity? && name != "fetch" && name != "session_info" && !IsFileTool(c.fileTools, name)
  }

  /** A call by a charity tool's name runs the tool that the name means, with the arguments
    * as they were given and with the session's own gate, exactly where its group is enabled
    * and the level suffices. Otherwise it is the first of these that refuses it.
    */
  lemma ToolVerdict(c: Catalogue, config: Config, held: Held, name: string, args: Args, i: nat)
    requires References.WellFormed(c.targets) && IsPlain(c, config, name) && Means(c.tools, name, i)
    ensures Decide(c, config, held, name, args) ==
            if !Enabled(c.groupOf(c.tools[i]), config) then Denied(ToolDisabled)
            else if !Suffices(held.level, c.tools[i].level) then Denied(LevelTooLow)
            else Run(c.tools[i], held.allowPersonalData, args)
  {
    FirstTool(c.tools, name, i);
    SufficesIff(held.level, c.tools[i].level);
    assert FindFileTool(c.fileTools, name).None?;
  }

  /** A name that no tool has is unknown, and no other is. */
  lemma UnknownIff(c: Catalogue, config: Config, held: Held, name: string, args: Args)
    requires References.WellFormed(c.targets) && IsPlain(c, config, name)
    ensures Decide(c, config, held, name, args) == Denied(UnknownTool) <==> !IsTool(c.tools, name)
  {
    assert FindFileTool(c.fileTools, name).None?;
  }

  /** The tools that write to or read from a directory need that directory. */
  predicate HasDirectory(tool: FileTool, config: Config) {
    (tool.needs == UploadRoot ==> config.uploadRoot) && (tool.needs == DownloadDir ==> config.downloadDir)
  }

  predicate DownloadsWholeFiles(tool: FileTool) {
    tool.name == "report_export" || tool.name == "document_download"
  }

  /** The same for the tools that move whole files, which cannot be redacted: a download
    * needs the gate to be open.
    */
  lemma FileVerdict(c: Catalogue, config: Config, held: Held, name: string, args: Args, i: nat)
    requires References.WellFormed(c.targets)
    requires config.realm.Charity? && name != "fetch" && name != "session_info" && MeansFile(c.fileTools, name, i)
    ensures var tool := c.fileTools[i];
            Decide(c, config, held, name, args) ==
            if !Enabled("documents", config) then Denied(ToolDisabled)
            else if !Suffices(held.level, tool.level) then Denied(LevelTooLow)
            else if DownloadsWholeFiles(tool) && !held.allowPersonalData then Denied(ScopeRequired)
            else if !HasDirectory(tool, config) then Denied(ToolDisabled)
            else RunFile(tool, args)
  {
    FirstFileTool(c.fileTools, name, i);
    SufficesIff(held.level, c.fileTools[i].level);
  }

  /** An operator's call runs an operator's tool, with the gate closed, where the level
    * suffices.
    */
  lemma OperatorVerdict(c: Catalogue, config: Config, held: Held, name: string, args: Args, i: nat)
    requires References.WellFormed(c.targets) && config.realm.Operator? && name != "session_info"
    requires Means(c.operatorTools, name, i)
    ensures Decide(c, config, held, name, args) ==
            if Suffices(held.level, c.operatorTools[i].level) then Run(c.operatorTools[i], false, args) else Denied(LevelTooLow)
  {
    FirstTool(c.operatorTools, name, i);
    SufficesIff(held.level, c.operatorTools[i].level);
  }

  /** A name that only a charity's session could use is refused as such. */
  lemma WrongRealmIff(c: Catalogue, config: Config, held: Held, name: string, args: Args)
    requires References.WellFormed(c.targets) && config.realm.Operator? && name != "session_info"
    ensures var d := Decide(c, config, held, name, args);
            var elsewhere := IsTool(c.tools, name) || IsFileTool(c.fileTools, name) || name == "fetch";
            && (d == Denied(WrongRealm) <==> !IsTool(c.operatorTools, name) && elsewhere)
            && (d == Denied(UnknownTool) <==> !IsTool(c.operatorTools, name) && !elsewhere)
  {
  }

  /** Who is asking is always told. */
  lemma InfoIff(c: Catalogue, config: Config, held: Held, name: string, args: Args)
    requires References.WellFormed(c.targets) && name != "fetch"
    ensures Decide(c, config, held, name, args) == Info <==> name == "session_info"
  {
  }

  // ---- fetch ---------------------------------------------------------------------------------

  /** `fetch` is refused exactly where its reference is not text that stands for a record of
    * some kind, and ends with an unknown tool where the kind is an inherited name.
    */
  lemma FetchVerdict(c: Catalogue, config: Config, held: Held, args: Args)
    requires References.WellFormed(c.targets) && config.realm.Charity?
    ensures var resolved := ResolveReference(c.targets, if "ref" in args then Some(args["ref"]) else None);
            var d := Decide(c, config, held, "fetch", args);
            && (resolved == None ==> d == Denied(ReferenceInvalid))
            && (resolved == Some(NoTool) ==> d == Denied(UnknownTool))
            && (resolved.Some? && resolved.value.Resolved? ==>
                  resolved.value.tool != "fetch" &&
                  d == Decide(c, config, held, resolved.value.tool, map[resolved.value.arg := Str(resolved.value.id)]))
  {
    var resolved := ResolveReference(c.targets, RefOf(args));
    if resolved.Some? && resolved.value.Resolved? {
      ResolvedTarget(c.targets, args["ref"].s);
    }
  }
}
