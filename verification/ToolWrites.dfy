/** What a write can send while the personal-data gate is closed, and which tools no
  * call gets through at all.
  */
module ToolWrites {
  import opened FieldPolicy
  import opened Json
  import opened Text
  import opened ToolBody
  import opened ToolInput
  import opened ToolPipeline
  import opened Wrappers

  // ---- The write gate ------------------------------------------------------------------------

  /** A field that the closed gate lets a call write: one it would also show, one that
    * is about the request only, or the reason, which is peeled off before the gate
    * looks at the body.
    */
  predicate MayWrite(policy: Policy, tool: Tool, key: string)
    requires tool.model.Some? && tool.body.Some?
  {
    || key == "reason"
    || key in policy(tool.model.value)
    || exists f :: f in tool.body.value && f.name == key && f.control
  }

  /** What an accepted write has been checked for, and what it sends. */
  lemma AcceptedWrite(policy: Policy, tool: Tool, args: Args)
    requires tool.verb.Some? && tool.body.Some? && PrepareWrite(policy, tool, false, args).Success?
    ensures GatedFieldsInCall(policy, tool, BodyArgs(tool, args)) == {}
    ensures IsBody(tool.body.value, WithReason(tool, BodyArgs(tool, args), ReasonOf(args)))
    ensures var sent := PrepareWrite(policy, tool, false, args).value.request.body;
            sent.Some? ==> sent.value == WithReason(tool, BodyArgs(tool, args), ReasonOf(args))
  {
  }

  /** A body sent through a closed gate holds nothing else, and every value in it is
    * the caller's.
    */
  lemma ClosedGateSendsOnly(policy: Policy, tool: Tool, args: Args)
    requires tool.verb.Some? && tool.model.Some? && tool.body.Some?
    requires PrepareWrite(policy, tool, false, args).Success?
    ensures var sent := PrepareWrite(policy, tool, false, args).value.request.body;
            sent.Some? ==> forall k :: k in sent.value ==>
              MayWrite(policy, tool, k) && k in args && (k != "reason" ==> sent.value[k] == args[k])
  {
    AcceptedWrite(policy, tool, args);
    BodyMayBeWritten(policy, tool, args);
  }

  /** Every value of a body was given, as it is, but for the reason, which is trimmed. */
  lemma BodyIsGiven(tool: Tool, args: Args, k: string)
    requires k in WithReason(tool, BodyArgs(tool, args), ReasonOf(args))
    ensures k in args
    ensures k != "reason" ==>
              k in BodyArgs(tool, args) && WithReason(tool, BodyArgs(tool, args), ReasonOf(args))[k] == args[k]
  {
  }

  lemma BodyMayBeWritten(policy: Policy, tool: Tool, args: Args)
    requires tool.model.Some? && tool.body.Some? && GatedFieldsInCall(policy, tool, BodyArgs(tool, args)) == {}
    requires IsBody(tool.body.value, WithReason(tool, BodyArgs(tool, args), ReasonOf(args)))
    ensures var body := WithReason(tool, BodyArgs(tool, args), ReasonOf(args));
            forall k :: k in body ==> MayWrite(policy, tool, k) && k in args && (k != "reason" ==> body[k] == args[k])
  {
    var body := WithReason(tool, BodyArgs(tool, args), ReasonOf(args));
    forall k | k in body
      ensures MayWrite(policy, tool, k) && k in args && (k != "reason" ==> body[k] == args[k])
    {
      BodyIsGiven(tool, args, k);
      if k != "reason" {
        UngatedMayWrite(policy, tool, BodyArgs(tool, args), k);
      }
    }
  }

  lemma UngatedMayWrite(policy: Policy, tool: Tool, body: Args, k: string)
    requires tool.model.Some? && tool.body.Some? && GatedFieldsInCall(policy, tool, body) == {}
    requires k in body && k in Names(tool.body.value)
    ensures MayWrite(policy, tool, k)
  {
    var f :| f in tool.body.value && f.name == k;
    assert k !in GatedFieldsInCall(policy, tool, body);
  }

  /** The gate only ever refuses: a call it lets through is sent as it would be with
    * the gate open.
    */
  lemma ClosedGateAgreesWithOpen(policy: Policy, tool: Tool, args: Args)
    requires tool.verb.Some?
    ensures HasGoodReason(args) && HasGoodApproval(args) && GatedFieldsInCall(policy, tool, BodyArgs(tool, args)) != {} ==>
              PrepareWrite(policy, tool, false, args) == Failure(Withheld(GatedFieldsInCall(policy, tool, BodyArgs(tool, args))))
    ensures !(HasGoodReason(args) && HasGoodApproval(args) && GatedFieldsInCall(policy, tool, BodyArgs(tool, args)) != {}) ==>
              PrepareWrite(policy, tool, false, args) == PrepareWrite(policy, tool, true, args)
  {
  }

  // ---- Tools that nothing gets through --------------------------------------------------------

  /** A required field is gated, and it is not the reason. */
  predicate RequiresGated(policy: Policy, tool: Tool) {
    tool.body.Some? &&
    exists f :: f in tool.body.value && f.required && f.name in GatedFieldsOf(policy, tool) && f.name != "reason"
  }

  predicate GoesThrough(policy: Policy, tool: Tool, allowPersonalData: bool, args: Args)
    requires tool.verb.Some?
  {
    PrepareWrite(policy, tool, allowPersonalData, args).Success?
  }

  ghost predicate Usable(policy: Policy, tool: Tool, allowPersonalData: bool)
    requires tool.verb.Some?
  {
    exists args :: GoesThrough(policy, tool, allowPersonalData, args)
  }

  /** Such a tool refuses every call before anything is sent. */
  lemma NoCallGoesThrough(policy: Policy, tool: Tool, args: Args)
    requires tool.verb.Some? && RequiresGated(policy, tool)
    ensures !GoesThrough(policy, tool, false, args)
  {
    var f :| f in tool.body.value && f.required && f.name in GatedFieldsOf(policy, tool) && f.name != "reason";
    var body := BodyArgs(tool, args);
    if GatedFieldsInCall(policy, tool, body) == {} {
      assert f.name !in body;
      assert !Meets(f, WithReason(tool, body, ReasonOf(args)));
    }
  }

  /** A call without its gated fields. */
  function Spared(policy: Policy, tool: Tool, args: Args): Args {
    args - (GatedFieldsOf(policy, tool) - HEADER_ARGS - ParamNames(tool.params))
  }

  lemma SparedParts(policy: Policy, tool: Tool, args: Args)
    ensures PathArgs(tool, Spared(policy, tool, args)) == PathArgs(tool, args)
    ensures ReasonOf(Spared(policy, tool, args)) == ReasonOf(args)
    ensures HasGoodReason(Spared(policy, tool, args)) == HasGoodReason(args)
    ensures HasGoodApproval(Spared(policy, tool, args)) == HasGoodApproval(args)
    ensures GatedFieldsInCall(policy, tool, BodyArgs(tool, Spared(policy, tool, args))) == {}
  {
    assert PathArgs(tool, Spared(policy, tool, args)) == PathArgs(tool, args);
  }

  lemma SparedBodyArgs(policy: Policy, tool: Tool, args: Args)
    ensures BodyArgs(tool, Spared(policy, tool, args)) == BodyArgs(tool, args) - (GatedFieldsOf(policy, tool) - {"reason"})
  {
    var gone := GatedFieldsOf(policy, tool) - {"reason"};
    var (a, b) := (BodyArgs(tool, Spared(policy, tool, args)), BodyArgs(tool, args) - gone);
    forall k ensures k in a <==> k in b {
    }
  }

  /** Giving the reason to the body and taking other fields away from it go together. */
  lemma ReasonStays(tool: Tool, body: Args, reason: Option<seq<Unit>>, gone: set<string>)
    requires "reason" !in gone
    ensures WithReason(tool, body - gone, reason) == WithReason(tool, body, reason) - gone
  {
  }

  lemma SparedBody(policy: Policy, tool: Tool, args: Args)
    ensures var gone := GatedFieldsOf(policy, tool) - {"reason"};
            WithReason(tool, BodyArgs(tool, Spared(policy, tool, args)), ReasonOf(args)) ==
            WithReason(tool, BodyArgs(tool, args), ReasonOf(args)) - gone
  {
    SparedBodyArgs(policy, tool, args);
    ReasonStays(tool, BodyArgs(tool, args), ReasonOf(args), GatedFieldsOf(policy, tool) - {"reason"});
  }

  lemma SparedGoesThrough(policy: Policy, tool: Tool, args: Args)
    requires tool.verb.Some? && GoesThrough(policy, tool, true, args) && !RequiresGated(policy, tool)
    ensures GoesThrough(policy, tool, false, Spared(policy, tool, args))
  {
    SparedParts(policy, tool, args);
    SparedBody(policy, tool, args);
    if tool.body.Some? {
      WithoutField(tool.body.value, WithReason(tool, BodyArgs(tool, args), ReasonOf(args)),
                   GatedFieldsOf(policy, tool) - {"reason"});
    }
  }

  /** Closing the gate makes a tool useless exactly when a field it requires, other
    * than the reason, is one the gate withholds.
    */
  lemma UsableClosedIff(policy: Policy, tool: Tool)
    requires tool.verb.Some?
    ensures Usable(policy, tool, false) <==> Usable(policy, tool, true) && !RequiresGated(policy, tool)
  {
    if Usable(policy, tool, false) {
      var args :| GoesThrough(policy, tool, false, args);
      ClosedGateAgreesWithOpen(policy, tool, args);
      if RequiresGated(policy, tool) {
        NoCallGoesThrough(policy, tool, args);
      }
      assert GoesThrough(policy, tool, true, args);
    }
    if Usable(policy, tool, true) && !RequiresGated(policy, tool) {
      var args :| GoesThrough(policy, tool, true, args);
      SparedGoesThrough(policy, tool, args);
    }
  }

  /** The listing's own test is the same but for the reason. */
  lemma NeedsPersonalDataExact(policy: Policy, tool: Tool)
    requires tool.body.Some? ==> forall f, g :: f in tool.body.value && g in tool.body.value && f.name == g.name ==> f == g
    ensures NeedsPersonalData(policy, tool) <==>
            RequiresGated(policy, tool) ||
            (tool.body.Some? && "reason" in GatedFieldsOf(policy, tool) &&
             exists f :: f in tool.body.value && f.name == "reason" && f.required)
  {
  }

  // ---- Arguments that belong nowhere ----------------------------------------------------------

  ghost predicate Stray(tool: Tool, key: string) {
    key !in HEADER_ARGS && key !in ParamNames(tool.params) && (tool.body.Some? ==> key !in Names(tool.body.value))
  }

  /** Where a stray argument turns up: among those of the body, and nowhere else. */
  lemma StrayParts(tool: Tool, args: Args, key: string, value: Json)
    requires Stray(tool, key) && key !in args
    ensures var more := args[key := value];
            && PathArgs(tool, more) == PathArgs(tool, args)
            && BodyArgs(tool, more) == BodyArgs(tool, args)[key := value]
            && HasGoodReason(more) == HasGoodReason(args) && HasGoodApproval(more) == HasGoodApproval(args)
            && ReasonOf(more) == ReasonOf(args) && ApprovalOf(more) == ApprovalOf(args)
  {
    var more := args[key := value];
    assert key != "reason" && key != "approvalId" by {
      assert "reason" in HEADER_ARGS && "approvalId" in HEADER_ARGS;
    }
    assert PathArgs(tool, more) == PathArgs(tool, args);
    assert BodyArgs(tool, more) == BodyArgs(tool, args)[key := value];
  }

  lemma StrayIsDropped(policy: Policy, tool: Tool, allowPersonalData: bool, args: Args, key: string, value: Json)
    requires tool.verb.Some? && Stray(tool, key) && key !in args && tool.body.None?
    ensures PrepareWrite(policy, tool, allowPersonalData, args[key := value]) ==
            PrepareWrite(policy, tool, allowPersonalData, args)
  {
    StrayParts(tool, args, key, value);
  }

  lemma StrayIsRefused(policy: Policy, tool: Tool, allowPersonalData: bool, args: Args, key: string, value: Json)
    requires tool.verb.Some? && Stray(tool, key) && key !in args && tool.body.Some?
    ensures !GoesThrough(policy, tool, allowPersonalData, args[key := value])
  {
    var more := args[key := value];
    StrayParts(tool, args, key, value);
    assert key in WithReason(tool, BodyArgs(tool, more), ReasonOf(more));
  }

  /** A tool that declares a body refuses an argument that belongs nowhere. A tool that
    * declares none, as the deletions do, drops it without a word.
    */
  lemma StrayArgument(policy: Policy, tool: Tool, allowPersonalData: bool, args: Args, key: string, value: Json)
    requires tool.verb.Some? && Stray(tool, key) && key !in args
    ensures tool.body.None? ==>
              PrepareWrite(policy, tool, allowPersonalData, args[key := value]) ==
              PrepareWrite(policy, tool, allowPersonalData, args)
    ensures tool.body.Some? ==> !GoesThrough(policy, tool, allowPersonalData, args[key := value])
  {
    if tool.body.None? {
      StrayIsDropped(policy, tool, allowPersonalData, args, key, value);
    } else {
      StrayIsRefused(policy, tool, allowPersonalData, args, key, value);
    }
  }
}
