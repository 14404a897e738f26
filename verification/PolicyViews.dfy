/** Every hand-written filter of the gate is one view of the payload, so what a
  * closed gate shows can be said, and proved, for all of them at once.
  */
module PolicyViews {
  import opened Wrappers
  import opened Json
  import opened FieldViews
  import opened FieldPolicy

  function Columns(keys: set<string>): map<string, View> {
    map k | k in keys :: Whole
  }

  function RecordView(allowed: set<string>): View {
    Nested(Fields(Columns(allowed)))
  }

  function PickView(keys: seq<string>): View {
    Fields(Columns(KeySet(keys)))
  }

  // ---- The pieces -----------------------------------------------------------------------

  lemma {:induction false} FilterRecordIsView(allowed: set<string>, v: Json)
    ensures FilterRecord(allowed, v) == Project(RecordView(allowed), v)
  {
    if v.Arr? {
      forall i | 0 <= i < |v.items|
        ensures FilterRecord(allowed, v.items[i]) == Project(RecordView(allowed), v.items[i])
      {
        FilterRecordIsView(allowed, v.items[i]);
      }
    } else if v.Obj? {
      assert Only(v.fields, allowed) == Project(Fields(Columns(allowed)), v).fields;
    }
  }

  lemma PickIsView(keys: seq<string>, v: Json)
    ensures Pick(keys, v) == Project(PickView(keys), v)
  {
    if v.Obj? {
      assert Only(v.fields, KeySet(keys)) == Project(PickView(keys), v).fields;
    }
  }

  lemma MapArrayIsView(v: Json, f: Json -> Json, view: View)
    requires v.Arr? ==> forall i :: 0 <= i < |v.items| ==> f(v.items[i]) == Project(view, v.items[i])
    ensures MapArray(v, f) == Project(List(view), v)
  {
  }

  lemma PickListIsView(keys: seq<string>, v: Json)
    ensures MapArray(v, row => Pick(keys, row)) == Project(List(PickView(keys)), v)
  {
    if v.Arr? {
      forall i | 0 <= i < |v.items| ensures Pick(keys, v.items[i]) == Project(PickView(keys), v.items[i]) {
        PickIsView(keys, v.items[i]);
      }
    }
  }

  /** What an object is, given what it is at each key. */
  lemma ObjectIsView(out: map<string, Json>, fields: map<string, View>, v: Json)
    requires v.Obj?
    requires forall k :: k in out <==> k in fields && k in v.fields
    requires forall k :: k in out ==> out[k] == Project(fields[k], v.fields[k])
    ensures Obj(out) == Project(Fields(fields), v)
  {
    assert out == Project(Fields(fields), v).fields;
  }

  // ---- One model --------------------------------------------------------------------------

  function EnvelopeView(allowed: set<string>): View {
    Fields(Columns(KeySet(ENVELOPE_META))["data" := RecordView(allowed)])
  }

  function ModelView(allowed: set<string>, v: Json): View {
    if IsEnvelope(v) then EnvelopeView(allowed) else RecordView(allowed)
  }

  lemma ModelFilterIsView(allowed: set<string>, v: Json)
    ensures ApplyFieldPolicy(allowed, v, false) == Project(ModelView(allowed, v), v)
  {
    FilterRecordIsView(allowed, v);
    if IsEnvelope(v) {
      FilterRecordIsView(allowed, v.fields["data"]);
      ObjectIsView(FilterEnvelope(allowed, v.fields).fields, EnvelopeView(allowed).fields, v);
    }
  }

  /** `out` is the part of a record that may be shown. */
  ghost predicate Released(allowed: set<string>, record: map<string, Json>, out: Json) {
    && out.Obj? && (forall k :: k in out.fields <==> k in record && k in allowed)
    && (forall k :: k in out.fields ==> out.fields[k] == record[k])
  }

  /** The gate in full. An object with an object or an array under `data` is an envelope: of it
    * the four page figures are shown, and of the record or the records under `data` what is
    * allowed. Any other object is a record itself, also inside an array, and a value that is
    * neither is shown. An open gate shows everything.
    */
  lemma ModelGateExact(allowed: set<string>, v: Json)
    ensures ApplyFieldPolicy(allowed, v, true) == v
    ensures var out := ApplyFieldPolicy(allowed, v, false);
            var wrapped := v.Obj? && "data" in v.fields && (v.fields["data"].Obj? || v.fields["data"].Arr?);
            && (wrapped ==>
                  && out.Obj? && "data" in out.fields
                  && (forall k :: k in out.fields <==> k in v.fields && k in {"data", "total", "page", "pageSize", "hasMore"})
                  && (forall k :: k in out.fields && k != "data" ==> out.fields[k] == v.fields[k])
                  && (v.fields["data"].Obj? ==> Released(allowed, v.fields["data"].fields, out.fields["data"]))
                  && (v.fields["data"].Arr? ==> out.fields["data"] == FilterRecord(allowed, v.fields["data"])))
            && (v.Obj? && !wrapped ==> Released(allowed, v.fields, out))
            && (v.Arr? ==> out == FilterRecord(allowed, v))
            && (!v.Obj? && !v.Arr? ==> out == v)
  {
  }

  /** Arrays are gone through to any depth, and a record inside one is never an envelope. */
  lemma ArrayGateExact(allowed: set<string>, v: Json)
    requires v.Arr?
    ensures var out := FilterRecord(allowed, v);
            && out.Arr? && |out.items| == |v.items|
            && (forall i :: 0 <= i < |v.items| && v.items[i].Obj? ==> Released(allowed, v.items[i].fields, out.items[i]))
            && (forall i :: 0 <= i < |v.items| && v.items[i].Arr? ==> out.items[i] == FilterRecord(allowed, v.items[i]))
            && (forall i :: 0 <= i < |v.items| && !v.items[i].Obj? && !v.items[i].Arr? ==> out.items[i] == v.items[i])
  {
  }

  // ---- Payloads that mix models -------------------------------------------------------------

  function DataView(fields: map<string, View>): View {
    Fields(map["data" := Fields(fields)])
  }

  function DashboardFields(policy: Policy): map<string, View> {
    map["compliance" := Whole,
        "upcomingDeadlines" := RecordView(policy(Deadline)),
        "boardAlerts" := List(PickView(ALERT_KEYS)),
        "recentActivity" := List(PickView(ACTIVITY_KEYS))]
  }

  function MemberView(policy: Policy): View {
    Fields(Columns(policy(User))["activeSessionCount" := Whole])
  }

  function TeamView(policy: Policy): View {
    Fields(map["members" := List(MemberView(policy)), "invites" := List(RecordView(policy(TeamInvite)))])
  }

  function ResolutionView(policy: Policy): View {
    Fields(Columns(policy(Resolution))["governingAct" := RecordView(policy(GoverningAct))])
  }

  function SubmissionView(policy: Policy): View {
    Fields(Columns(policy(Document))["evidenced" := Whole]["resolution" := ResolutionView(policy)])
  }

  function OutstandingView(policy: Policy): View {
    Fields(map["notEvidenced" := List(SubmissionView(policy)), "notSubmitted" := List(SubmissionView(policy))])
  }

  function SubmissionsFields(policy: Policy): map<string, View> {
    map["evidenced" := List(SubmissionView(policy)), "outstanding" := OutstandingView(policy)]
  }

  function SignoffFields(policy: Policy): map<string, View> {
    Columns(policy(ComplianceSignoff))["currentApproval" := PickView(APPROVAL_KEYS)]["latestApproval" := PickView(APPROVAL_KEYS)]
  }

  function StandardView(policy: Policy): View {
    Fields(Columns(policy(GovernanceStandard))["principle" := RecordView(policy(GovernancePrinciple))])
  }

  function ComplianceView(policy: Policy): View {
    Fields(Columns(policy(ComplianceRecord))["standard" := StandardView(policy)])
  }

  function SearchFields(): map<string, View> {
    Columns(KeySet(SEARCH_KEYS))["data" := List(PickView(HIT_KEYS))]
  }

  /** The view that a filter takes of this payload. Three routes answer in more than
    * one form, and the filter goes by the form it meets.
    */
  function ShapeView(policy: Policy, shape: ShapeName, v: Json): View {
    match shape
    case Dashboard => DataView(DashboardFields(policy))
    case Team => TeamView(policy)
    case BoardSubmissions => DataView(SubmissionsFields(policy))
    case SignoffShape => DataView(SignoffFields(policy))
    case ComplianceRecords =>
      if !v.Obj? then List(ComplianceView(policy))
      else if "data" !in v.fields then ComplianceView(policy)
      else if v.fields["data"].Arr? then Fields(map["data" := List(ComplianceView(policy))])
      else Fields(map["data" := ComplianceView(policy)])
    case TeamSessions => List(PickView(SESSION_KEYS))
    case SecurityAudit =>
      if v.Obj? && "data" in v.fields && v.fields["data"].Arr?
      then Fields(map["data" := List(PickView(AUDIT_KEYS)), "nextCursor" := Whole])
      else List(PickView(AUDIT_KEYS))
    case ReminderHistory =>
      if v.Obj? && "data" in v.fields
      then Fields(Columns(KeySet(ENVELOPE_META))["data" := List(PickView(REMINDER_KEYS))])
      else List(PickView(REMINDER_KEYS))
    case Search => DataView(SearchFields())
    case ConfluencePublications =>
      DataView(map["publications" := List(PickView(PUBLICATION_KEYS)), "nextCursor" := Whole])
  }

  /** Whatever the API answers, a cursor that is shown is text, as it was given, or null; and
    * a list of publications without its object is an empty page.
    */
  lemma CursorsExact(v: Json)
    ensures v.Obj? && "data" in v.fields && v.fields["data"].Arr? ==>
              var out := FilterSecurityAudit(v);
              && out.Obj? && "nextCursor" in out.fields
              && out.fields["nextCursor"] ==
                 if "nextCursor" in v.fields && v.fields["nextCursor"].Str? then v.fields["nextCursor"] else Null
    ensures !v.Obj? ==> FilterConfluencePublications(v) == v
    ensures v.Obj? ==>
              var out := FilterConfluencePublications(v);
              && out.Obj? && out.fields.Keys == {"data"} && out.fields["data"].Obj?
              && var page := out.fields["data"].fields;
                 && "nextCursor" in page
                 && (DataOf(v).None? ==> page == map["publications" := Arr([]), "nextCursor" := Null])
                 && (DataOf(v).Some? ==>
                       var given := DataOf(v).value;
                       page["nextCursor"] ==
                       if "nextCursor" in given && given["nextCursor"].Str? then given["nextCursor"] else Null)
  {
  }

  predicate HasCursor(fields: map<string, Json>) {
    "nextCursor" in fields && (fields["nextCursor"].Str? || fields["nextCursor"].Null?)
  }

  /** The declared form of a payload, as far as a filter relies on it: the members of a
    * team are objects, a search has a result object, a page has a cursor.
    */
  predicate Declared(shape: ShapeName, v: Json) {
    match shape
    case Team =>
      v.Obj? && "members" in v.fields && v.fields["members"].Arr? ==>
        forall i :: 0 <= i < |v.fields["members"].items| ==> v.fields["members"].items[i].Obj?
    case Search => DataOf(v).Some?
    case SecurityAudit => v.Obj? && "data" in v.fields && v.fields["data"].Arr? ==> HasCursor(v.fields)
    case ConfluencePublications => DataOf(v).Some? && HasCursor(DataOf(v).value)
    case _ => true
  }

  lemma OnlyDataIsView(fields: map<string, View>, v: Json)
    requires v.Obj? && DataOf(v).None?
    ensures OnlyData(v) == Project(DataView(fields), v)
  {
    ObjectIsView(OnlyData(v).fields, map["data" := Fields(fields)], v);
  }

  lemma DataIsView(out: map<string, Json>, fields: map<string, View>, v: Json)
    requires DataOf(v).Some?
    requires forall k :: k in out <==> k in fields && k in DataOf(v).value
    requires forall k :: k in out ==> out[k] == Project(fields[k], DataOf(v).value[k])
    ensures Obj(map["data" := Obj(out)]) == Project(DataView(fields), v)
  {
    ObjectIsView(out, fields, v.fields["data"]);
    ObjectIsView(map["data" := Obj(out)], map["data" := Fields(fields)], v);
  }

  lemma DashboardIsView(policy: Policy, v: Json)
    ensures FilterDashboard(policy, v) == Project(DataView(DashboardFields(policy)), v)
  {
    if v.Obj? {
      if DataOf(v).None? {
        OnlyDataIsView(DashboardFields(policy), v);
      } else {
        DashboardDataIsView(policy, v);
        DataIsView(FilterDashboard(policy, v).fields["data"].fields, DashboardFields(policy), v);
      }
    }
  }

  lemma DashboardKeys(policy: Policy, v: Json)
    requires DataOf(v).Some?
    ensures var out := FilterDashboard(policy, v).fields["data"].fields;
            forall k :: k in out <==> k in DashboardFields(policy) && k in DataOf(v).value
  {
  }

  lemma DashboardValues(policy: Policy, v: Json, k: string)
    requires DataOf(v).Some? && k in FilterDashboard(policy, v).fields["data"].fields
    requires k in DashboardFields(policy) && k in DataOf(v).value
    ensures FilterDashboard(policy, v).fields["data"].fields[k] == Project(DashboardFields(policy)[k], DataOf(v).value[k])
  {
    var data := DataOf(v).value;
    if k == "upcomingDeadlines" {
      FilterRecordIsView(policy(Deadline), data[k]);
    } else if k == "boardAlerts" {
      PickListIsView(ALERT_KEYS, data[k]);
    } else if k == "recentActivity" {
      PickListIsView(ACTIVITY_KEYS, data[k]);
    }
  }

  lemma DashboardDataIsView(policy: Policy, v: Json)
    requires DataOf(v).Some?
    ensures var out := FilterDashboard(policy, v).fields["data"].fields;
            && (forall k :: k in out <==> k in DashboardFields(policy) && k in DataOf(v).value)
            && (forall k :: k in out ==> out[k] == Project(DashboardFields(policy)[k], DataOf(v).value[k]))
  {
    DashboardKeys(policy, v);
    var out := FilterDashboard(policy, v).fields["data"].fields;
    forall k | k in out ensures out[k] == Project(DashboardFields(policy)[k], DataOf(v).value[k]) {
      DashboardValues(policy, v, k);
    }
  }

  lemma MemberIsView(policy: Policy, member: Json)
    requires member.Obj?
    ensures FilterTeamMember(policy, member) == Project(MemberView(policy), member)
  {
    ObjectIsView(FilterTeamMember(policy, member).fields, MemberView(policy).fields, member);
  }

  lemma TeamIsView(policy: Policy, v: Json)
    requires Declared(Team, v)
    ensures FilterTeam(policy, v) == Project(TeamView(policy), v)
  {
    if v.Obj? {
      if "members" in v.fields {
        var members := v.fields["members"];
        if members.Arr? {
          forall i | 0 <= i < |members.items|
            ensures FilterTeamMember(policy, members.items[i]) == Project(MemberView(policy), members.items[i])
          {
            MemberIsView(policy, members.items[i]);
          }
        }
        MapArrayIsView(members, m => FilterTeamMember(policy, m), MemberView(policy));
      }
      if "invites" in v.fields {
        RecordListIsView(policy(TeamInvite), v.fields["invites"]);
      }
      ObjectIsView(FilterTeam(policy, v).fields, TeamView(policy).fields, v);
    }
  }

  lemma RecordListIsView(allowed: set<string>, v: Json)
    ensures MapArray(v, i => FilterRecord(allowed, i)) == Project(List(RecordView(allowed)), v)
  {
    if v.Arr? {
      forall i | 0 <= i < |v.items|
        ensures FilterRecord(allowed, v.items[i]) == Project(RecordView(allowed), v.items[i])
      {
        FilterRecordIsView(allowed, v.items[i]);
      }
    }
  }

  lemma ResolutionIsView(policy: Policy, v: Json)
    ensures FilterResolution(policy, v) == Project(ResolutionView(policy), v)
  {
    if v.Obj? {
      if "governingAct" in v.fields {
        FilterRecordIsView(policy(GoverningAct), v.fields["governingAct"]);
      }
      ObjectIsView(FilterResolution(policy, v).fields, ResolutionView(policy).fields, v);
    }
  }

  lemma SubmissionIsView(policy: Policy, v: Json)
    ensures FilterBoardSubmission(policy, v) == Project(SubmissionView(policy), v)
  {
    if v.Obj? {
      if "resolution" in v.fields {
        ResolutionIsView(policy, v.fields["resolution"]);
      }
      ObjectIsView(FilterBoardSubmission(policy, v).fields, SubmissionView(policy).fields, v);
    }
  }

  lemma SubmissionListIsView(policy: Policy, v: Json)
    ensures MapArray(v, s => FilterBoardSubmission(policy, s)) == Project(List(SubmissionView(policy)), v)
  {
    if v.Arr? {
      forall i | 0 <= i < |v.items|
        ensures FilterBoardSubmission(policy, v.items[i]) == Project(SubmissionView(policy), v.items[i])
      {
        SubmissionIsView(policy, v.items[i]);
      }
    }
  }

  lemma OutstandingIsView(policy: Policy, v: Json)
    ensures FilterOutstanding(policy, Some(v)) == Some(Project(OutstandingView(policy), v))
  {
    if v.Obj? {
      if "notEvidenced" in v.fields {
        SubmissionListIsView(policy, v.fields["notEvidenced"]);
      }
      if "notSubmitted" in v.fields {
        SubmissionListIsView(policy, v.fields["notSubmitted"]);
      }
      ObjectIsView(FilterOutstanding(policy, Some(v)).value.fields, OutstandingView(policy).fields, v);
    }
  }

  lemma SubmissionsIsView(policy: Policy, v: Json)
    ensures FilterBoardSubmissions(policy, v) == Project(DataView(SubmissionsFields(policy)), v)
  {
    if v.Obj? {
      if DataOf(v).None? {
        OnlyDataIsView(SubmissionsFields(policy), v);
      } else {
        var data := DataOf(v).value;
        if "evidenced" in data {
          SubmissionListIsView(policy, data["evidenced"]);
        }
        if "outstanding" in data {
          OutstandingIsView(policy, data["outstanding"]);
        }
        DataIsView(FilterBoardSubmissions(policy, v).fields["data"].fields, SubmissionsFields(policy), v);
      }
    }
  }

  lemma SignoffIsView(policy: Policy, v: Json)
    ensures FilterComplianceSignoff(policy, v) == Project(DataView(SignoffFields(policy)), v)
  {
    if v.Obj? {
      if DataOf(v).None? {
        OnlyDataIsView(SignoffFields(policy), v);
      } else {
        var data := DataOf(v).value;
        if "currentApproval" in data {
          PickIsView(APPROVAL_KEYS, data["currentApproval"]);
        }
        if "latestApproval" in data {
          PickIsView(APPROVAL_KEYS, data["latestApproval"]);
        }
        DataIsView(FilterComplianceSignoff(policy, v).fields["data"].fields, SignoffFields(policy), v);
      }
    }
  }

  lemma StandardIsView(policy: Policy, v: Json)
    ensures FilterStandard(policy, v) == Project(StandardView(policy), v)
  {
    if v.Obj? {
      if "principle" in v.fields {
        FilterRecordIsView(policy(GovernancePrinciple), v.fields["principle"]);
      }
      ObjectIsView(FilterStandard(policy, v).fields, StandardView(policy).fields, v);
    }
  }

  lemma ComplianceIsView(policy: Policy, v: Json)
    ensures FilterComplianceRecord(policy, v) == Project(ComplianceView(policy), v)
  {
    if v.Obj? {
      if "standard" in v.fields {
        StandardIsView(policy, v.fields["standard"]);
      }
      ObjectIsView(FilterComplianceRecord(policy, v).fields, ComplianceView(policy).fields, v);
    }
  }

  lemma ComplianceListIsView(policy: Policy, v: Json)
    ensures MapArray(v, r => FilterComplianceRecord(policy, r)) == Project(List(ComplianceView(policy)), v)
  {
    if v.Arr? {
      forall i | 0 <= i < |v.items|
        ensures FilterComplianceRecord(policy, v.items[i]) == Project(ComplianceView(policy), v.items[i])
      {
        ComplianceIsView(policy, v.items[i]);
      }
    }
  }

  lemma ComplianceRecordsIsView(policy: Policy, v: Json)
    ensures FilterComplianceRecords(policy, v) == Project(ShapeView(policy, ComplianceRecords, v), v)
  {
    if v.Obj? && "data" in v.fields {
      ComplianceListIsView(policy, v.fields["data"]);
      ComplianceIsView(policy, v.fields["data"]);
      ObjectIsView(FilterComplianceRecords(policy, v).fields, ShapeView(policy, ComplianceRecords, v).fields, v);
    } else {
      ComplianceListIsView(policy, v);
      ComplianceIsView(policy, v);
    }
  }

  lemma SecurityAuditIsView(policy: Policy, v: Json)
    requires Declared(SecurityAudit, v)
    ensures FilterSecurityAudit(v) == Project(ShapeView(policy, SecurityAudit, v), v)
  {
    if v.Obj? && "data" in v.fields && v.fields["data"].Arr? {
      PickListIsView(AUDIT_KEYS, v.fields["data"]);
      ObjectIsView(FilterSecurityAudit(v).fields, ShapeView(policy, SecurityAudit, v).fields, v);
    } else {
      PickListIsView(AUDIT_KEYS, v);
    }
  }

  lemma ReminderHistoryIsView(policy: Policy, v: Json)
    ensures FilterReminderHistory(v) == Project(ShapeView(policy, ReminderHistory, v), v)
  {
    if v.Obj? && "data" in v.fields {
      PickListIsView(REMINDER_KEYS, v.fields["data"]);
      ObjectIsView(FilterReminderHistory(v).fields, ShapeView(policy, ReminderHistory, v).fields, v);
    } else {
      PickListIsView(REMINDER_KEYS, v);
    }
  }

  lemma SearchIsView(v: Json)
    requires Declared(Search, v)
    ensures FilterSearch(v) == Project(DataView(SearchFields()), v)
  {
    var result := DataOf(v).value;
    if "data" in result {
      PickListIsView(HIT_KEYS, result["data"]);
    }
    DataIsView(FilterSearch(v).fields["data"].fields, SearchFields(), v);
  }

  lemma PublicationsIsView(policy: Policy, v: Json)
    requires Declared(ConfluencePublications, v)
    ensures FilterConfluencePublications(v) == Project(ShapeView(policy, ConfluencePublications, v), v)
  {
    var envelope := DataOf(v).value;
    if "publications" in envelope {
      PickListIsView(PUBLICATION_KEYS, envelope["publications"]);
    }
    DataIsView(FilterConfluencePublications(v).fields["data"].fields,
               map["publications" := List(PickView(PUBLICATION_KEYS)), "nextCursor" := Whole], v);
  }

  /** Every filter is its view. */
  lemma ShapeFilterIsView(policy: Policy, shape: ShapeName, v: Json)
    requires Declared(shape, v)
    ensures FilterShape(policy, shape, v) == Project(ShapeView(policy, shape, v), v)
  {
    match shape
    case Dashboard => DashboardIsView(policy, v);
    case Team => TeamIsView(policy, v);
    case BoardSubmissions => SubmissionsIsView(policy, v);
    case SignoffShape => SignoffIsView(policy, v);
    case ComplianceRecords => ComplianceRecordsIsView(policy, v);
    case TeamSessions => PickListIsView(SESSION_KEYS, v);
    case SecurityAudit => SecurityAuditIsView(policy, v);
    case ReminderHistory => ReminderHistoryIsView(policy, v);
    case Search => SearchIsView(v);
    case ConfluencePublications => PublicationsIsView(policy, v);
  }

  // ---- What a closed gate promises ------------------------------------------------------------

  /** Two answers of one model look the same through a closed gate exactly when they
    * agree on the allowlisted fields, at any nesting of arrays.
    */
  lemma ModelNoninterference(allowed: set<string>, a: Json, b: Json)
    requires IsEnvelope(a) == IsEnvelope(b)
    ensures ApplyFieldPolicy(allowed, a, false) == ApplyFieldPolicy(allowed, b, false) <==>
            Agree(ModelView(allowed, a), a, b)
  {
    ModelFilterIsView(allowed, a);
    ModelFilterIsView(allowed, b);
    AgreeIffSameProjection(ModelView(allowed, a), a, b);
  }

  /** The same for the payloads that mix models. */
  lemma ShapeNoninterference(policy: Policy, shape: ShapeName, a: Json, b: Json)
    requires Declared(shape, a) && Declared(shape, b)
    requires ShapeView(policy, shape, a) == ShapeView(policy, shape, b)
    ensures ApplyShapePolicy(policy, shape, a, false) == ApplyShapePolicy(policy, shape, b, false) <==>
            Agree(ShapeView(policy, shape, a), a, b)
  {
    ShapeFilterIsView(policy, shape, a);
    ShapeFilterIsView(policy, shape, b);
    AgreeIffSameProjection(ShapeView(policy, shape, a), a, b);
  }

  /** A closed gate shows exactly the named paths of a payload of the declared form. */
  lemma ClosedGateShowsExactly(policy: Policy, shape: ShapeName, v: Json, path: seq<Step>)
    requires Declared(shape, v) && Conforms(ShapeView(policy, shape, v), v)
    ensures At(ApplyShapePolicy(policy, shape, v, false), path).Some? <==>
            At(v, path).Some? && Visible(ShapeView(policy, shape, v), path)
  {
    ShapeFilterIsView(policy, shape, v);
    ShownExactly(ShapeView(policy, shape, v), v, path);
  }

  /** Of one model, every payload at all. */
  lemma ModelGateShowsExactly(allowed: set<string>, v: Json, path: seq<Step>)
    ensures At(ApplyFieldPolicy(allowed, v, false), path).Some? <==>
            At(v, path).Some? && Visible(ModelView(allowed, v), path)
  {
    ModelFilterIsView(allowed, v);
    ModelConforms(allowed, v);
    ShownExactly(ModelView(allowed, v), v, path);
  }

  lemma {:induction false} RecordConforms(allowed: set<string>, v: Json)
    ensures Conforms(RecordView(allowed), v)
  {
    if v.Arr? {
      forall i | 0 <= i < |v.items| ensures Conforms(RecordView(allowed), v.items[i]) {
        RecordConforms(allowed, v.items[i]);
      }
    }
  }

  lemma ModelConforms(allowed: set<string>, v: Json)
    ensures Conforms(ModelView(allowed, v), v)
  {
    RecordConforms(allowed, v);
    if IsEnvelope(v) {
      RecordConforms(allowed, v.fields["data"]);
    }
  }

  /** The gate only removes keys, and a second pass removes nothing more: what the
    * first pass left is not taken for an envelope it was not.
    */
  lemma ModelFilterIdempotent(allowed: set<string>, v: Json)
    ensures var once := ApplyFieldPolicy(allowed, v, false);
            ApplyFieldPolicy(allowed, once, false) == once && Prunes(once, v)
  {
    var once := ApplyFieldPolicy(allowed, v, false);
    ModelFilterIsView(allowed, v);
    ModelFilterIsView(allowed, once);
    if IsEnvelope(v) {
      ProjectKeepsArrays(RecordView(allowed), v.fields["data"]);
    }
    assert ModelView(allowed, once) == ModelView(allowed, v);
    ProjectIdempotent(ModelView(allowed, v), v);
    ProjectPrunes(ModelView(allowed, v), v);
  }

  lemma ShapeFilterIdempotent(policy: Policy, shape: ShapeName, v: Json)
    requires Declared(shape, v)
    ensures var once := FilterShape(policy, shape, v);
            FilterShape(policy, shape, once) == once && Prunes(once, v)
  {
    var view := ShapeView(policy, shape, v);
    var once := FilterShape(policy, shape, v);
    ShapeFilterIsView(policy, shape, v);
    ProjectIdempotent(view, v);
    ProjectPrunes(view, v);
    SecondPassSeesSameForm(policy, shape, v);
    ShapeFilterIsView(policy, shape, once);
  }

  lemma TeamSecondPass(policy: Policy, v: Json)
    requires Declared(Team, v)
    ensures Declared(Team, Project(TeamView(policy), v))
  {
    if v.Obj? && "members" in v.fields && v.fields["members"].Arr? {
      var members := v.fields["members"].items;
      var once := Project(List(MemberView(policy)), v.fields["members"]);
      assert Project(TeamView(policy), v).fields["members"] == once;
      forall i | 0 <= i < |once.items| ensures once.items[i].Obj? {
        assert members[i].Obj? && once.items[i] == Project(MemberView(policy), members[i]);
      }
    } else if v.Obj? && "members" in v.fields {
      assert Project(TeamView(policy), v).fields["members"] == Project(List(MemberView(policy)), v.fields["members"]);
    }
  }

  lemma PublicationsSecondPass(policy: Policy, v: Json)
    requires Declared(ConfluencePublications, v)
    ensures Declared(ConfluencePublications, Project(ShapeView(policy, ConfluencePublications, v), v))
  {
    var once := Project(ShapeView(policy, ConfluencePublications, v), v);
    var fields := map["publications" := List(PickView(PUBLICATION_KEYS)), "nextCursor" := Whole];
    assert once.fields["data"] == Project(Fields(fields), v.fields["data"]);
    assert DataOf(once).value["nextCursor"] == Project(Whole, DataOf(v).value["nextCursor"]);
  }

  lemma RecordsSecondPass(policy: Policy, v: Json)
    ensures ShapeView(policy, ComplianceRecords, Project(ShapeView(policy, ComplianceRecords, v), v)) ==
            ShapeView(policy, ComplianceRecords, v)
  {
    var once := Project(ShapeView(policy, ComplianceRecords, v), v);
    if v.Obj? && "data" in v.fields {
      var item := if v.fields["data"].Arr? then List(ComplianceView(policy)) else ComplianceView(policy);
      assert once.fields["data"] == Project(item, v.fields["data"]);
      ProjectKeepsArrays(item, v.fields["data"]);
    } else if v.Obj? {
      assert "data" !in once.fields;
    }
  }

  lemma PagesSecondPass(policy: Policy, shape: ShapeName, v: Json)
    requires shape in {SecurityAudit, ReminderHistory} && Declared(shape, v)
    ensures var once := Project(ShapeView(policy, shape, v), v);
            Declared(shape, once) && ShapeView(policy, shape, once) == ShapeView(policy, shape, v)
  {
  }

  lemma SearchSecondPass(policy: Policy, v: Json)
    requires Declared(Search, v)
    ensures Declared(Search, Project(ShapeView(policy, Search, v), v))
  {
    assert Project(ShapeView(policy, Search, v), v).fields["data"] == Project(Fields(SearchFields()), v.fields["data"]);
  }

  lemma SecondPassSeesSameForm(policy: Policy, shape: ShapeName, v: Json)
    requires Declared(shape, v)
    ensures var once := Project(ShapeView(policy, shape, v), v);
            Declared(shape, once) && ShapeView(policy, shape, once) == ShapeView(policy, shape, v)
  {
    match shape
    case Team => TeamSecondPass(policy, v);
    case ComplianceRecords => RecordsSecondPass(policy, v);
    case SecurityAudit => PagesSecondPass(policy, shape, v);
    case ReminderHistory => PagesSecondPass(policy, shape, v);
    case Search => SearchSecondPass(policy, v);
    case ConfluencePublications => PublicationsSecondPass(policy, v);
    case _ =>
  }
}
