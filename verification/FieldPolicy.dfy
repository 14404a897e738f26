/** The personal-data gate on what the API answers (mcp/src/field-policy.ts).
  *
  * The allowlist of each model is a parameter. A property whose value is
  * `undefined` is one that is not there: that is how the result leaves the
  * connector, as JSON.
  */
module FieldPolicy {
  import opened Wrappers
  import opened Json
  import opened FieldViews

  datatype ModelName =
    | BoardMember | Member | ConflictRecord | ComplaintRecord | GoverningAct | RiskRecord
    | FundraisingRecord | FinancialControlReview | AnnualReportReadiness | ComplianceRecord
    | ComplianceSignoff | Deadline | Document | Resolution | GovernancePrinciple | GovernanceStandard
    | Organisation | User | TeamInvite | GoverningActVoid | Subscription

  datatype ShapeName =
    | Dashboard | Team | BoardSubmissions | SignoffShape | ComplianceRecords | TeamSessions
    | SecurityAudit | ReminderHistory | Search | ConfluencePublications

  type Policy = ModelName -> set<string>

  const ENVELOPE_META: seq<string> := ["total", "page", "pageSize", "hasMore"]
  const ALERT_KEYS: seq<string> := ["memberId", "memberName", "alertType"]
  const ACTIVITY_KEYS: seq<string> := ["id", "type", "timestamp"]
  const APPROVAL_KEYS: seq<string> := ["id", "approvalSequence", "evidenceHash", "snapshotHash", "approvedAt"]
  const SESSION_KEYS: seq<string> :=
    ["familyId", "displaySuffix", "familyCreatedAt", "latestCreatedAt", "expiresAt",
     "clientKind", "accessLevel", "active", "current", "revokedAt"]
  const AUDIT_KEYS: seq<string> := ["type", "occurredAt"]
  const REMINDER_KEYS: seq<string> :=
    ["id", "deadlineId", "deadlineTitle", "deadlineDueDate", "deadlineScheduleVersion",
     "deadlineContextKind", "deadlineSnapshotKnown", "deliveryTimingKnown",
     "legacyDeliveryStatus", "legacyRecordedAt", "reminderDays", "status",
     "reservedAt", "attemptedAt", "providerRequestStartedAt", "reconciliationOutcome",
     "reconciledAt", "sentAt"]
  const HIT_KEYS: seq<string> := ["type", "id", "title", "field", "snippet", "ref"]
  const SEARCH_KEYS: seq<string> := ["query", "dataScope", "truncated", "searched", "note", "planNote"]
  const PUBLICATION_KEYS: seq<string> := ["id", "documentId", "pageTitle", "retiredAt", "erasureRequested"]

  // ---- The pieces ------------------------------------------------------------------------

  function Get(fields: map<string, Json>, key: string): Option<Json> {
    if key in fields then Some(fields[key]) else None
  }

  /** Assigns a property; `undefined` is no property. */
  function With(fields: map<string, Json>, key: string, v: Option<Json>): map<string, Json> {
    if v.Some? then fields[key := v.value] else fields - {key}
  }

  function Only(fields: map<string, Json>, keys: set<string>): map<string, Json> {
    map k | k in fields && k in keys :: fields[k]
  }

  function KeySet(keys: seq<string>): set<string> {
    set k | k in keys
  }

  function Pick(keys: seq<string>, v: Json): Json {
    if v.Obj? then Obj(Only(v.fields, KeySet(keys))) else v
  }

  /** The loop of `pick`, over the keys it keeps. */
  method PickLoop(keys: seq<string>, v: Json) returns (r: Json)
    ensures r == Pick(keys, v)
  {
    if !v.Obj? {
      return v;
    }
    var out: map<string, Json> := map[];
    for i := 0 to |keys|
      invariant out == Only(v.fields, KeySet(keys[..i]))
    {
      if keys[i] in v.fields {
        out := out[keys[i] := v.fields[keys[i]]];
      }
      assert keys[..i + 1] == keys[..i] + [keys[i]];
    }
    assert keys[..|keys|] == keys;
    return Obj(out);
  }

  function MapArray(v: Json, f: Json -> Json): Json {
    if v.Arr? then Arr(seq(|v.items|, i requires 0 <= i < |v.items| => f(v.items[i]))) else v
  }

  function MapArrayOpt(v: Option<Json>, f: Json -> Json): Option<Json> {
    if v.Some? then Some(MapArray(v.value, f)) else None
  }

  function FilterRecord(allowed: set<string>, v: Json): Json {
    match v
    case Arr(items) => Arr(seq(|items|, i requires 0 <= i < |items| => FilterRecord(allowed, items[i])))
    case Obj(fields) => Obj(Only(fields, allowed))
    case _ => v
  }

  /** The loop of `filterRecord`, over the entries of one object or the items of an array. */
  method FilterRecordLoop(allowed: set<string>, v: Json) returns (r: Json)
    ensures r == FilterRecord(allowed, v)
  {
    if v.Arr? {
      var out: seq<Json> := [];
      for i := 0 to |v.items|
        invariant |out| == i && forall j :: 0 <= j < i ==> out[j] == FilterRecord(allowed, v.items[j])
      {
        var item := FilterRecordLoop(allowed, v.items[i]);
        out := out + [item];
      }
      return Arr(out);
    }
    if !v.Obj? {
      return v;
    }
    var fields := v.fields;
    var out: map<string, Json> := map[];
    var todo := fields.Keys;
    while todo != {}
      invariant todo <= fields.Keys
      invariant out == Only(fields, allowed * (fields.Keys - todo))
      decreases todo
    {
      var key :| key in todo;
      if key in allowed {
        out := out[key := fields[key]];
      }
      todo := todo - {key};
    }
    assert out == Only(fields, allowed);
    return Obj(out);
  }

  function FilterRecordOpt(allowed: set<string>, v: Option<Json>): Option<Json> {
    if v.Some? then Some(FilterRecord(allowed, v.value)) else None
  }

  // ---- One model -------------------------------------------------------------------------

  predicate IsEnvelope(v: Json) {
    v.Obj? && "data" in v.fields && (v.fields["data"].Arr? || v.fields["data"].Obj?)
  }

  function FilterEnvelope(allowed: set<string>, fields: map<string, Json>): Json
    requires "data" in fields
  {
    Obj(Only(fields, KeySet(ENVELOPE_META))["data" := FilterRecord(allowed, fields["data"])])
  }

  function ApplyFieldPolicy(allowed: set<string>, v: Json, allowPersonalData: bool): Json {
    if allowPersonalData then v
    else if IsEnvelope(v) then FilterEnvelope(allowed, v.fields)
    else FilterRecord(allowed, v)
  }

  // ---- Payloads that mix models ------------------------------------------------------------

  /** The object under `data`, when there is one. */
  function DataOf(v: Json): Option<map<string, Json>> {
    if v.Obj? && "data" in v.fields && v.fields["data"].Obj? then Some(v.fields["data"].fields) else None
  }

  /** The filters that find no object under `data` answer with it as it is. */
  function OnlyData(v: Json): Json
    requires v.Obj?
  {
    Obj(With(map[], "data", Get(v.fields, "data")))
  }

  function FilterDashboard(policy: Policy, v: Json): Json {
    if !v.Obj? then v
    else
      match DataOf(v)
      case None => OnlyData(v)
      case Some(data) =>
        var d0 := With(map[], "compliance", Get(data, "compliance"));
        var d1 := With(d0, "upcomingDeadlines", FilterRecordOpt(policy(Deadline), Get(data, "upcomingDeadlines")));
        var d2 := With(d1, "boardAlerts", MapArrayOpt(Get(data, "boardAlerts"), alert => Pick(ALERT_KEYS, alert)));
        var d3 := With(d2, "recentActivity", MapArrayOpt(Get(data, "recentActivity"), item => Pick(ACTIVITY_KEYS, item)));
        Obj(map["data" := Obj(d3)])
  }

  function FilterTeamMember(policy: Policy, member: Json): Json {
    var filtered := FilterRecord(policy(User), member);
    var out := if filtered.Obj? then filtered.fields else map[];
    if member.Obj? && "activeSessionCount" in member.fields
    then Obj(out["activeSessionCount" := member.fields["activeSessionCount"]])
    else Obj(out)
  }

  function FilterTeam(policy: Policy, v: Json): Json {
    if !v.Obj? then v
    else
      var out := With(map[], "members", MapArrayOpt(Get(v.fields, "members"), m => FilterTeamMember(policy, m)));
      Obj(With(out, "invites", MapArrayOpt(Get(v.fields, "invites"), i => FilterRecord(policy(TeamInvite), i))))
  }

  function FilterResolution(policy: Policy, v: Json): Json {
    if !v.Obj? then v
    else
      var out := Only(v.fields, policy(Resolution));
      if "governingAct" in v.fields
      then Obj(out["governingAct" := FilterRecord(policy(GoverningAct), v.fields["governingAct"])])
      else Obj(out)
  }

  function FilterBoardSubmission(policy: Policy, v: Json): Json {
    if !v.Obj? then v
    else
      var out := Only(v.fields, policy(Document));
      var out1 := if "evidenced" in v.fields then out["evidenced" := v.fields["evidenced"]] else out;
      Obj(if "resolution" in v.fields then out1["resolution" := FilterResolution(policy, v.fields["resolution"])] else out1)
  }

  function FilterOutstanding(policy: Policy, v: Option<Json>): Option<Json> {
    if v.Some? && v.value.Obj? then
      var f := v.value.fields;
      var out := With(map[], "notEvidenced", MapArrayOpt(Get(f, "notEvidenced"), s => FilterBoardSubmission(policy, s)));
      Some(Obj(With(out, "notSubmitted", MapArrayOpt(Get(f, "notSubmitted"), s => FilterBoardSubmission(policy, s)))))
    else v
  }

  function FilterBoardSubmissions(policy: Policy, v: Json): Json {
    if !v.Obj? then v
    else
      match DataOf(v)
      case None => OnlyData(v)
      case Some(data) =>
        var d := With(map[], "evidenced", MapArrayOpt(Get(data, "evidenced"), s => FilterBoardSubmission(policy, s)));
        Obj(map["data" := Obj(With(d, "outstanding", FilterOutstanding(policy, Get(data, "outstanding"))))])
  }

  function PickInto(out: map<string, Json>, data: map<string, Json>, key: string): map<string, Json> {
    if key in data then out[key := if data[key].Null? then Null else Pick(APPROVAL_KEYS, data[key])] else out
  }

  function FilterComplianceSignoff(policy: Policy, v: Json): Json {
    if !v.Obj? then v
    else
      match DataOf(v)
      case None => OnlyData(v)
      case Some(data) =>
        var out := PickInto(Only(data, policy(ComplianceSignoff)), data, "currentApproval");
        Obj(map["data" := Obj(PickInto(out, data, "latestApproval"))])
  }

  function FilterStandard(policy: Policy, v: Json): Json {
    if !v.Obj? then v
    else
      var out := Only(v.fields, policy(GovernanceStandard));
      if "principle" in v.fields
      then Obj(out["principle" := FilterRecord(policy(GovernancePrinciple), v.fields["principle"])])
      else Obj(out)
  }

  function FilterComplianceRecord(policy: Policy, v: Json): Json {
    if !v.Obj? then v
    else
      var out := Only(v.fields, policy(ComplianceRecord));
      Obj(if "standard" in v.fields then out["standard" := FilterStandard(policy, v.fields["standard"])] else out)
  }

  function FilterComplianceRecords(policy: Policy, v: Json): Json {
    if !v.Obj? then MapArray(v, r => FilterComplianceRecord(policy, r))
    else if "data" !in v.fields then FilterComplianceRecord(policy, v)
    else if v.fields["data"].Arr? then
      Obj(map["data" := MapArray(v.fields["data"], r => FilterComplianceRecord(policy, r))])
    else Obj(map["data" := FilterComplianceRecord(policy, v.fields["data"])])
  }

  function FilterTeamSessions(v: Json): Json {
    MapArray(v, row => Pick(SESSION_KEYS, row))
  }

  /** A cursor that is not text is answered as null. */
  function Cursor(fields: map<string, Json>): Json {
    if "nextCursor" in fields && fields["nextCursor"].Str? then fields["nextCursor"] else Null
  }

  function FilterSecurityAudit(v: Json): Json {
    if v.Obj? && "data" in v.fields && v.fields["data"].Arr? then
      Obj(map["data" := MapArray(v.fields["data"], row => Pick(AUDIT_KEYS, row)), "nextCursor" := Cursor(v.fields)])
    else MapArray(v, row => Pick(AUDIT_KEYS, row))
  }

  function FilterReminderHistory(v: Json): Json {
    if !v.Obj? || "data" !in v.fields then MapArray(v, row => Pick(REMINDER_KEYS, row))
    else
      Obj(Only(v.fields, KeySet(ENVELOPE_META))["data" := MapArray(v.fields["data"], row => Pick(REMINDER_KEYS, row))])
  }

  function FilterSearch(v: Json): Json {
    match DataOf(v)
    case None => v
    case Some(result) =>
      var out := Only(result, KeySet(SEARCH_KEYS));
      Obj(map["data" := Obj(With(out, "data", MapArrayOpt(Get(result, "data"), hit => Pick(HIT_KEYS, hit))))])
  }

  function FilterConfluencePublications(v: Json): Json {
    if !v.Obj? then v
    else
      match DataOf(v)
      case None => Obj(map["data" := Obj(map["publications" := Arr([]), "nextCursor" := Null])])
      case Some(envelope) =>
        var out := With(map[], "publications",
                        MapArrayOpt(Get(envelope, "publications"), row => Pick(PUBLICATION_KEYS, row)));
        Obj(map["data" := Obj(out["nextCursor" := Cursor(envelope)])])
  }

  function FilterShape(policy: Policy, shape: ShapeName, v: Json): Json {
    match shape
    case Dashboard => FilterDashboard(policy, v)
    case Team => FilterTeam(policy, v)
    case BoardSubmissions => FilterBoardSubmissions(policy, v)
    case SignoffShape => FilterComplianceSignoff(policy, v)
    case ComplianceRecords => FilterComplianceRecords(policy, v)
    case TeamSessions => FilterTeamSessions(v)
    case SecurityAudit => FilterSecurityAudit(v)
    case ReminderHistory => FilterReminderHistory(v)
    case Search => FilterSearch(v)
    case ConfluencePublications => FilterConfluencePublications(v)
  }

  function ApplyShapePolicy(policy: Policy, shape: ShapeName, v: Json, allowPersonalData: bool): Json {
    if allowPersonalData then v else FilterShape(policy, shape, v)
  }
}
