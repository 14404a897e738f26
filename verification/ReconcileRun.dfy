/** One bounded pass over the tenants (apps/api/src/jobs/production-scheduler.ts:599-766). */
module ReconcileRun {
  import opened Wrappers

  type Id = nat
  type RemoteState = nat
  type Outcome = nat

  datatype Tenant = Tenant(organisation: Id, integration: Id, site: Id)

  /** A claimed page and the remote state recorded for it, if any. */
  datatype Page = Page(id: Id, remoteState: Option<RemoteState>)

  datatype Reading = Reading(page: Id, state: RemoteState)

  datatype Reconciled = Reconciled(outcome: Outcome, readings: seq<Reading>, abortRun: bool)

  datatype Notice = Notice(integration: Id, expired: bool)

  datatype Report = Report(
    visited: nat, skipped: nat, pagesRead: nat, rateLimited: bool, notices: nat, orphans: Option<(nat, nat)>)

  /** What the run asks of the services around it, in order. */
  datatype Effect =
    | RetireOrphans
    | ListTenants(limit: nat)
    | Claim(organisation: Id, limit: nat)
    | Reconcile(tenant: Tenant, pages: seq<Page>)
    | RecordState(page: Id, state: RemoteState, previous: Option<RemoteState>)
    | RecordOutcome(integration: Id, outcome: Outcome)
    | SweepDormant
    | Audit(integration: Id)
    | Completed(report: Report)
    | Alert

  /** What they answer. Any of them may throw. */
  datatype Reply =
    | Threw
    | Done
    | Orphans(retired: nat, deleted: nat)
    | Tenants(tenants: seq<Tenant>)
    | Pages(pages: seq<Page>)
    | Read(result: Reconciled)
    | Notices(notices: seq<Notice>)

  /** A reply of the right kind; a listing and a claim keep to their limits. */
  predicate Fits(effect: Effect, reply: Reply) {
    match effect
    case RetireOrphans => reply.Threw? || reply.Orphans?
    case ListTenants(limit) => reply.Threw? || (reply.Tenants? && |reply.tenants| <= limit)
    case Claim(_, limit) => reply.Threw? || (reply.Pages? && |reply.pages| <= limit)
    case Reconcile(_, _) => reply.Threw? || reply.Read?
    case SweepDormant => reply.Threw? || reply.Notices?
    case _ => reply.Threw? || reply.Done?
  }

  type World = seq<Effect> -> Reply

  ghost predicate Lawful(world: World) {
    forall log, e :: Fits(e, world(log + [e]))
  }

  /** The services, which see everything that was asked before. */
  class Services {
    const world: World
    var log: seq<Effect>

    constructor (world: World)
      ensures this.world == world && log == []
    {
      this.world := world;
      log := [];
    }

    method Ask(e: Effect) returns (reply: Reply)
      requires Lawful(world)
      modifies this
      ensures log == old(log) + [e] && reply == world(log) && Fits(e, reply)
    {
      log := log + [e];
      reply := world(log);
    }
  }

  // ---- What a completed run did ------------------------------------------------------------------

  /** A tenant that was processed: what was claimed for it and what came of it. */
  datatype Visit = Visit(tenant: Tenant, pages: seq<Page>, result: Reconciled)

  /** `publications.find(...)?.remoteState ?? null` */
  function PriorState(pages: seq<Page>, id: Id): Option<RemoteState> {
    if pages == [] then None
    else if pages[0].id == id then pages[0].remoteState
    else PriorState(pages[1..], id)
  }

  function Recorded(pages: seq<Page>, readings: seq<Reading>): (effects: seq<Effect>)
    ensures |effects| == |readings|
  {
    seq(|readings|, i requires 0 <= i < |readings| =>
      RecordState(readings[i].page, readings[i].state, PriorState(pages, readings[i].page)))
  }

  function VisitLog(v: Visit, pagesPerRun: nat): seq<Effect> {
    [Claim(v.tenant.organisation, pagesPerRun), Reconcile(v.tenant, v.pages)]
    + Recorded(v.pages, v.result.readings)
    + (if v.pages == [] then [] else [RecordOutcome(v.tenant.integration, v.result.outcome)])
  }

  function VisitsLog(visits: seq<Visit>, pagesPerRun: nat): seq<Effect> {
    if visits == [] then []
    else VisitsLog(visits[..|visits| - 1], pagesPerRun) + VisitLog(visits[|visits| - 1], pagesPerRun)
  }

  function Visited(visits: seq<Visit>): nat {
    if visits == [] then 0
    else Visited(visits[..|visits| - 1]) + (if visits[|visits| - 1].pages == [] then 0 else 1)
  }

  function Skipped(visits: seq<Visit>): nat {
    if visits == [] then 0
    else Skipped(visits[..|visits| - 1]) + (if visits[|visits| - 1].pages == [] then 1 else 0)
  }

  function PagesRead(visits: seq<Visit>): nat {
    if visits == [] then 0 else PagesRead(visits[..|visits| - 1]) + |visits[|visits| - 1].result.readings|
  }

  function PagesClaimed(visits: seq<Visit>): nat {
    if visits == [] then 0 else PagesClaimed(visits[..|visits| - 1]) + |visits[|visits| - 1].pages|
  }

  function Audits(notices: seq<Notice>): seq<Effect> {
    if notices == [] then []
    else Audits(notices[..|notices| - 1])
         + (if notices[|notices| - 1].expired then [Audit(notices[|notices| - 1].integration)] else [])
  }

  /** The tenants were taken in turn, and the run went on only after a result that did
    * not abort it.
    */
  ghost predicate InTurn(visits: seq<Visit>, tenants: seq<Tenant>, pagesPerRun: nat) {
    && |visits| <= |tenants|
    && (forall i :: 0 <= i < |visits| ==> visits[i].tenant == tenants[i] && |visits[i].pages| <= pagesPerRun)
    && (forall i :: 0 <= i < |visits| - 1 ==> !visits[i].result.abortRun)
  }

  predicate Aborted(visits: seq<Visit>) {
    visits != [] && visits[|visits| - 1].result.abortRun
  }

  function ReportOf(visits: seq<Visit>, notices: seq<Notice>, orphans: Option<(nat, nat)>): Report {
    Report(Visited(visits), Skipped(visits), PagesRead(visits), Aborted(visits), |notices|, orphans)
  }

  /** What a run asks for first. */
  function OrphansLog(orphans: Option<(nat, nat)>): seq<Effect> {
    [RetireOrphans] + (if orphans.None? then [Alert] else [])
  }

  function SweptLog(limit: nat, visits: seq<Visit>, pagesPerRun: nat): seq<Effect> {
    [ListTenants(limit)] + VisitsLog(visits, pagesPerRun) + [SweepDormant]
  }

  /** What a run that completed asked for then: the dormancy sweep comes once, after
    * every tenant.
    */
  function TenantsLog(
      orphans: Option<(nat, nat)>, limit: nat, visits: seq<Visit>, pagesPerRun: nat, notices: seq<Notice>): seq<Effect>
  {
    SweptLog(limit, visits, pagesPerRun) + Audits(notices) + [Completed(ReportOf(visits, notices, orphans))]
  }

  // ---- What the services answered ---------------------------------------------------------------

  /** A visit is about what the services answered: the pages are those of the claim, and the
    * result is that of the reconciliation.
    */
  ghost predicate Answered(world: World, before: seq<Effect>, v: Visit, pagesPerRun: nat) {
    var claim := Claim(v.tenant.organisation, pagesPerRun);
    && world(before + [claim]) == Pages(v.pages)
    && world(before + [claim] + [Reconcile(v.tenant, v.pages)]) == Read(v.result)
  }

  ghost predicate AllAnswered(world: World, before: seq<Effect>, visits: seq<Visit>, pagesPerRun: nat) {
    forall i :: 0 <= i < |visits| ==> Answered(world, before + VisitsLog(visits[..i], pagesPerRun), visits[i], pagesPerRun)
  }

  /** None of what was asked from some point on threw. */
  ghost predicate NoneThrew(world: World, log: seq<Effect>, from: nat) {
    forall k :: from < k <= |log| ==> !world(log[..k]).Threw?
  }

  lemma OneMoreDone(world: World, log: seq<Effect>, from: nat, e: Effect)
    requires from <= |log| && NoneThrew(world, log, from) && !world(log + [e]).Threw?
    ensures NoneThrew(world, log + [e], from)
  {
    forall k | from < k <= |log| + 1 ensures !world((log + [e])[..k]).Threw? {
      assert (log + [e])[..k] == if k <= |log| then log[..k] else log + [e];
    }
  }

  lemma ThenNoneThrew(world: World, log: seq<Effect>, from: nat, more: seq<Effect>)
    requires from <= |log| <= |more| && log <= more
    requires NoneThrew(world, log, from) && NoneThrew(world, more, |log|)
    ensures NoneThrew(world, more, from)
  {
    forall k | from < k <= |more| ensures !world(more[..k]).Threw? {
      assert k <= |log| ==> more[..k] == log[..k];
    }
  }

  lemma OneMoreAnswered(world: World, before: seq<Effect>, visits: seq<Visit>, visit: Visit, pagesPerRun: nat)
    requires AllAnswered(world, before, visits, pagesPerRun)
    requires Answered(world, before + VisitsLog(visits, pagesPerRun), visit, pagesPerRun)
    ensures AllAnswered(world, before, visits + [visit], pagesPerRun)
  {
    var all := visits + [visit];
    forall i | 0 <= i < |all|
      ensures Answered(world, before + VisitsLog(all[..i], pagesPerRun), all[i], pagesPerRun)
    {
      assert all[..i] == if i < |visits| then visits[..i] else visits;
    }
  }

  // ---- The run -----------------------------------------------------------------------------------

  method RetireFirst(services: Services) returns (orphans: Option<(nat, nat)>)
    requires Lawful(services.world)
    modifies services
    ensures services.log == old(services.log) + OrphansLog(orphans)
    ensures match services.world(old(services.log) + [RetireOrphans])
            case Orphans(retired, deleted) => orphans == Some((retired, deleted))
            case _ => orphans == None
  {
    var reply := services.Ask(RetireOrphans);
    if reply.Orphans? {
      return Some((reply.retired, reply.deleted));
    }
    var _ := services.Ask(Alert);
    return None;
  }

  /** Each reading of a page, with the state the page was claimed in, up to one that throws. */
  method RecordStates(services: Services, pages: seq<Page>, readings: seq<Reading>) returns (done: bool)
    requires Lawful(services.world)
    modifies services
    ensures old(services.log) <= services.log
    ensures done ==> services.log == old(services.log) + Recorded(pages, readings)
    ensures done ==> NoneThrew(services.world, services.log, |old(services.log)|)
    ensures !done ==> old(services.log) != services.log && services.world(services.log).Threw?
  {
    for i := 0 to |readings|
      invariant services.log == old(services.log) + Recorded(pages, readings[..i])
      invariant NoneThrew(services.world, services.log, |old(services.log)|)
    {
      var reading := readings[i];
      assert readings[..i + 1][..i] == readings[..i];
      var effect := RecordState(reading.page, reading.state, PriorState(pages, reading.page));
      assert Recorded(pages, readings[..i + 1]) == Recorded(pages, readings[..i]) + [effect];
      ghost var before := services.log;
      var recorded := services.Ask(effect);
      if recorded.Threw? {
        return false;
      }
      OneMoreDone(services.world, before, |old(services.log)|, effect);
    }
    assert readings[..|readings|] == readings;
    return true;
  }

  /** The outcome of a tenant that had something to check. */
  method RecordTenant(services: Services, tenant: Tenant, pages: seq<Page>, outcome: Outcome) returns (done: bool)
    requires Lawful(services.world)
    modifies services
    ensures services.log == old(services.log) + (if pages == [] then [] else [RecordOutcome(tenant.integration, outcome)])
    ensures done ==> NoneThrew(services.world, services.log, |old(services.log)|)
    ensures !done ==> old(services.log) != services.log && services.world(services.log).Threw?
  {
    if pages == [] {
      return true;
    }
    var effect := RecordOutcome(tenant.integration, outcome);
    OneThrew(services.world, services.log, effect);
    var recorded := services.Ask(effect);
    return !recorded.Threw?;
  }

  lemma OneThrew(world: World, log: seq<Effect>, e: Effect)
    ensures NoneThrew(world, log + [e], |log|) <==> !world(log + [e]).Threw?
  {
    assert (log + [e])[..|log| + 1] == log + [e];
  }

  /** The claim and the reconciliation of one tenant. */
  method Reconciliation(services: Services, tenant: Tenant, pagesPerRun: nat) returns (visit: Option<Visit>)
    requires Lawful(services.world)
    modifies services
    ensures old(services.log) <= services.log
    ensures visit.Some? ==>
              && services.log == old(services.log) + [Claim(tenant.organisation, pagesPerRun)]
                                 + [Reconcile(tenant, visit.value.pages)]
              && visit.value.tenant == tenant && |visit.value.pages| <= pagesPerRun
    ensures visit.Some? ==> Answered(services.world, old(services.log), visit.value, pagesPerRun)
    ensures visit.Some? ==> NoneThrew(services.world, services.log, |old(services.log)|)
    ensures visit.None? ==> old(services.log) != services.log && services.world(services.log).Threw?
  {
    var claim := Claim(tenant.organisation, pagesPerRun);
    var claimed := services.Ask(claim);
    if claimed.Threw? {
      return None;
    }
    OneThrew(services.world, old(services.log), claim);
    var reconcile := Reconcile(tenant, claimed.pages);
    var read := services.Ask(reconcile);
    if read.Threw? {
      return None;
    }
    OneMoreDone(services.world, old(services.log) + [claim], |old(services.log)|, reconcile);
    return Some(Visit(tenant, claimed.pages, read.result));
  }

  /** One tenant. None where a service threw. */
  method ProcessTenant(services: Services, tenant: Tenant, pagesPerRun: nat) returns (visit: Option<Visit>)
    requires Lawful(services.world)
    modifies services
    ensures old(services.log) <= services.log
    ensures visit.Some? ==>
              services.log == old(services.log) + VisitLog(visit.value, pagesPerRun) &&
              visit.value.tenant == tenant && |visit.value.pages| <= pagesPerRun
    ensures visit.Some? ==> Answered(services.world, old(services.log), visit.value, pagesPerRun)
    ensures visit.Some? ==> NoneThrew(services.world, services.log, |old(services.log)|)
    ensures visit.None? ==> old(services.log) != services.log && services.world(services.log).Threw?
  {
    visit := Reconciliation(services, tenant, pagesPerRun);
    if visit.None? {
      return None;
    }
    var (pages, result) := (visit.value.pages, visit.value.result);
    ghost var head := services.log;
    var recorded := RecordStates(services, pages, result.readings);
    if !recorded {
      return None;
    }
    ghost var body := services.log;
    recorded := RecordTenant(services, tenant, pages, result.outcome);
    if !recorded {
      return None;
    }
    ThenNoneThrew(services.world, head, |old(services.log)|, body);
    ThenNoneThrew(services.world, body, |old(services.log)|, services.log);
  }

  /** Counts one more tenant. */
  function Counted(report: Report, visit: Visit): Report {
    report.(visited := report.visited + (if visit.pages == [] then 0 else 1),
            skipped := report.skipped + (if visit.pages == [] then 1 else 0),
            pagesRead := report.pagesRead + |visit.result.readings|,
            rateLimited := visit.result.abortRun)
  }

  lemma CountedIsReport(visits: seq<Visit>, visit: Visit)
    ensures Counted(ReportOf(visits, [], None), visit) == ReportOf(visits + [visit], [], None)
  {
    assert (visits + [visit])[..|visits|] == visits;
  }

  lemma OneMoreInTurn(visits: seq<Visit>, tenants: seq<Tenant>, pagesPerRun: nat, visit: Visit)
    requires InTurn(visits, tenants, pagesPerRun) && !Aborted(visits) && |visits| < |tenants|
    requires visit.tenant == tenants[|visits|] && |visit.pages| <= pagesPerRun
    ensures InTurn(visits + [visit], tenants, pagesPerRun)
    ensures VisitsLog(visits + [visit], pagesPerRun) == VisitsLog(visits, pagesPerRun) + VisitLog(visit, pagesPerRun)
  {
    assert (visits + [visit])[..|visits|] == visits;
  }

  method ProcessTenants(services: Services, tenants: seq<Tenant>, pagesPerRun: nat)
    returns (visits: seq<Visit>, finished: bool, report: Report)
    requires Lawful(services.world)
    modifies services
    ensures old(services.log) <= services.log
    ensures finished ==>
              services.log == old(services.log) + VisitsLog(visits, pagesPerRun) &&
              InTurn(visits, tenants, pagesPerRun) && (Aborted(visits) || |visits| == |tenants|) &&
              report == ReportOf(visits, [], None)
    ensures finished ==> AllAnswered(services.world, old(services.log), visits, pagesPerRun)
    ensures finished ==> NoneThrew(services.world, services.log, |old(services.log)|)
    ensures !finished ==> old(services.log) != services.log && services.world(services.log).Threw?
  {
    visits := [];
    report := Report(0, 0, 0, false, 0, None);
    for i := 0 to |tenants|
      invariant i == |visits| && !Aborted(visits)
      invariant services.log == old(services.log) + VisitsLog(visits, pagesPerRun)
      invariant InTurn(visits, tenants, pagesPerRun)
      invariant AllAnswered(services.world, old(services.log), visits, pagesPerRun)
      invariant NoneThrew(services.world, services.log, |old(services.log)|)
      invariant report == ReportOf(visits, [], None)
    {
      ghost var before := VisitsLog(visits, pagesPerRun);
      ghost var log := services.log;
      var visit := ProcessTenant(services, tenants[i], pagesPerRun);
      if visit.None? {
        return visits, false, report;
      }
      CountedIsReport(visits, visit.value);
      OneMoreInTurn(visits, tenants, pagesPerRun, visit.value);
      OneMoreAnswered(services.world, old(services.log), visits, visit.value, pagesPerRun);
      ThenNoneThrew(services.world, log, |old(services.log)|, services.log);
      Regroup(old(services.log), before, VisitLog(visit.value, pagesPerRun));
      report := Counted(report, visit.value);
      visits := visits + [visit.value];
      if report.rateLimited {
        break;
      }
    }
    return visits, true, report;
  }

  method AuditNotices(services: Services, notices: seq<Notice>)
    requires Lawful(services.world)
    modifies services
    ensures services.log == old(services.log) + Audits(notices)
  {
    for i := 0 to |notices|
      invariant services.log == old(services.log) + Audits(notices[..i])
    {
      assert notices[..i + 1][..i] == notices[..i];
      if notices[i].expired {
        var _ := services.Ask(Audit(notices[i].integration));
      }
    }
    assert notices[..|notices|] == notices;
  }

  /** The listing, the tenants and the sweep: everything that makes the run fail. */
  method SweepTenants(services: Services, tenantsPerRun: nat, pagesPerRun: nat)
    returns (completed: bool, tenants: seq<Tenant>, visits: seq<Visit>, notices: seq<Notice>, report: Report)
    requires Lawful(services.world)
    modifies services
    ensures old(services.log) <= services.log
    ensures completed ==> services.log == old(services.log) + SweptLog(tenantsPerRun, visits, pagesPerRun)
    ensures completed ==>
              && InTurn(visits, tenants, pagesPerRun) && |tenants| <= tenantsPerRun
              && (Aborted(visits) || |visits| == |tenants|) && report == ReportOf(visits, [], None)
    ensures completed ==>
              && services.world(old(services.log) + [ListTenants(tenantsPerRun)]) == Tenants(tenants)
              && AllAnswered(services.world, old(services.log) + [ListTenants(tenantsPerRun)], visits, pagesPerRun)
              && services.world(services.log) == Notices(notices)
    ensures completed ==> NoneThrew(services.world, services.log, |old(services.log)|)
    ensures !completed ==> old(services.log) != services.log && services.world(services.log).Threw?
  {
    tenants, visits, notices, report := [], [], [], Report(0, 0, 0, false, 0, None);
    var listed := services.Ask(ListTenants(tenantsPerRun));
    if listed.Threw? {
      return false, tenants, visits, notices, report;
    }
    OneThrew(services.world, old(services.log), ListTenants(tenantsPerRun));
    ghost var start := services.log;
    tenants := listed.tenants;
    var finished: bool;
    visits, finished, report := ProcessTenants(services, tenants, pagesPerRun);
    if !finished {
      return false, tenants, visits, notices, report;
    }
    ghost var visited := services.log;
    ThenNoneThrew(services.world, start, |old(services.log)|, visited);
    var swept := services.Ask(SweepDormant);
    if swept.Threw? {
      return false, tenants, visits, notices, report;
    }
    OneMoreDone(services.world, visited, |old(services.log)|, SweepDormant);
    Regroup(old(services.log), [ListTenants(tenantsPerRun)], VisitsLog(visits, pagesPerRun));
    Regroup(old(services.log), [ListTenants(tenantsPerRun)] + VisitsLog(visits, pagesPerRun), [SweepDormant]);
    return true, tenants, visits, swept.notices, report;
  }

  /** What was asked for, and what was answered, in a run that completed. */
  ghost predicate TrueRun(
      world: World, before: seq<Effect>, tenantsPerRun: nat, pagesPerRun: nat,
      tenants: seq<Tenant>, visits: seq<Visit>, notices: seq<Notice>)
  {
    var list := before + [ListTenants(tenantsPerRun)];
    var swept := before + SweptLog(tenantsPerRun, visits, pagesPerRun);
    && world(list) == Tenants(tenants) && |tenants| <= tenantsPerRun
    && InTurn(visits, tenants, pagesPerRun) && (Aborted(visits) || |visits| == |tenants|)
    && AllAnswered(world, list, visits, pagesPerRun)
    && world(swept) == Notices(notices)
    && NoneThrew(world, swept, |before|)
  }

  /** From the listing of the tenants on. */
  method RunTenants(services: Services, orphans: Option<(nat, nat)>, tenantsPerRun: nat, pagesPerRun: nat)
    returns (completed: bool, tenants: seq<Tenant>, visits: seq<Visit>, notices: seq<Notice>)
    requires Lawful(services.world)
    modifies services
    ensures old(services.log) <= services.log
    ensures completed ==>
              && services.log == old(services.log) + TenantsLog(orphans, tenantsPerRun, visits, pagesPerRun, notices)
              && TrueRun(services.world, old(services.log), tenantsPerRun, pagesPerRun, tenants, visits, notices)
    ensures !completed ==> old(services.log) != services.log && services.world(services.log).Threw?
  {
    var report: Report;
    completed, tenants, visits, notices, report := SweepTenants(services, tenantsPerRun, pagesPerRun);
    if !completed {
      return;
    }
    AuditNotices(services, notices);
    var last := Completed(report.(notices := |notices|, orphans := orphans));
    var _ := services.Ask(last);
    Regroup(old(services.log), SweptLog(tenantsPerRun, visits, pagesPerRun), Audits(notices));
    Regroup(old(services.log), SweptLog(tenantsPerRun, visits, pagesPerRun) + Audits(notices), [last]);
  }

  /** The whole run. Whether it completed and what it did are reported beside whether
    * it failed. Orphans are retired first whatever happens afterwards, and a run that
    * does not complete fails and raises an alert, last, right after the service that threw.
    */
  method RunDocumentReconcile(services: Services, tenantsPerRun: nat, pagesPerRun: nat)
    returns (failed: bool, completed: bool, orphans: Option<(nat, nat)>,
             tenants: seq<Tenant>, visits: seq<Visit>, notices: seq<Notice>)
    requires Lawful(services.world)
    modifies services
    ensures completed ==>
              && services.log == old(services.log) + OrphansLog(orphans)
                                 + TenantsLog(orphans, tenantsPerRun, visits, pagesPerRun, notices)
              && TrueRun(services.world, old(services.log) + OrphansLog(orphans), tenantsPerRun, pagesPerRun,
                         tenants, visits, notices)
    ensures match services.world(old(services.log) + [RetireOrphans])
            case Orphans(retired, deleted) => orphans == Some((retired, deleted))
            case _ => orphans == None
    ensures failed <==> !completed || orphans.None?
    ensures old(services.log) + OrphansLog(orphans) <= services.log
    ensures !completed ==>
              exists log :: services.log == log + [Alert] && |log| > |old(services.log)| + |OrphansLog(orphans)|
                            && services.world(log).Threw?
  {
    orphans := RetireFirst(services);
    completed, tenants, visits, notices := RunTenants(services, orphans, tenantsPerRun, pagesPerRun);
    if !completed {
      ghost var log := services.log;
      var _ := services.Ask(Alert);
      assert services.log == log + [Alert];
    }
    failed := !completed || orphans.None?;
  }

  // ---- The shape of a run --------------------------------------------------------------------------

  /** The orphans come first, with an alert where they could not be retired; then the listing,
    * the visits, the sweep, the audits and the report.
    */
  lemma RunShape(
      orphans: Option<(nat, nat)>, limit: nat, visits: seq<Visit>, pagesPerRun: nat, notices: seq<Notice>)
    ensures OrphansLog(orphans) == if orphans == None then [RetireOrphans, Alert] else [RetireOrphans]
    ensures var (log, v, a) := (TenantsLog(orphans, limit, visits, pagesPerRun, notices), VisitsLog(visits, pagesPerRun), Audits(notices));
            && |log| == 3 + |v| + |a| && log[0] == ListTenants(limit) && log[1..1 + |v|] == v && log[1 + |v|] == SweepDormant
            && log[2 + |v|..2 + |v| + |a|] == a && log[2 + |v| + |a|] == Completed(ReportOf(visits, notices, orphans))
  {
    FiveParts(ListTenants(limit), VisitsLog(visits, pagesPerRun), SweepDormant, Audits(notices),
              Completed(ReportOf(visits, notices, orphans)));
  }

  lemma FiveParts(first: Effect, v: seq<Effect>, sweep: Effect, a: seq<Effect>, last: Effect)
    ensures var log := [first] + v + [sweep] + a + [last];
            && |log| == 3 + |v| + |a| && log[0] == first && log[1..1 + |v|] == v && log[1 + |v|] == sweep
            && log[2 + |v|..2 + |v| + |a|] == a && log[2 + |v| + |a|] == last
  {
  }

  // ---- What a visit records ------------------------------------------------------------------------

  lemma {:induction false} PriorStateIs(pages: seq<Page>, id: Id)
    ensures forall k :: FirstWith(pages, id, k) ==> PriorState(pages, id) == pages[k].remoteState
    ensures (forall k :: 0 <= k < |pages| ==> pages[k].id != id) ==> PriorState(pages, id) == None
  {
    if pages != [] && pages[0].id != id {
      PriorStateIs(pages[1..], id);
      forall k | FirstWith(pages, id, k) ensures PriorState(pages, id) == pages[k].remoteState {
        FirstInRest(pages, id, k);
      }
      assert forall k :: 0 <= k < |pages| - 1 ==> pages[1..][k] == pages[k + 1];
    }
  }

  /** The first page with this identifier is at `k`. */
  ghost predicate FirstWith(pages: seq<Page>, id: Id, k: int) {
    0 <= k < |pages| && pages[k].id == id && forall j :: 0 <= j < k ==> pages[j].id != id
  }

  lemma FirstInRest(pages: seq<Page>, id: Id, k: int)
    requires FirstWith(pages, id, k) && pages[0].id != id
    ensures k > 0 && FirstWith(pages[1..], id, k - 1)
  {
    assert forall j :: 0 <= j < |pages| - 1 ==> pages[1..][j] == pages[j + 1];
  }

  /** A visit, effect by effect: the claim, the reconciliation of what was claimed, each
    * reading in turn with the state of the first claimed page of its identifier, and the
    * outcome, if anything was claimed.
    */
  lemma VisitExact(v: Visit, pagesPerRun: nat)
    ensures var log := VisitLog(v, pagesPerRun);
            var readings := v.result.readings;
            && |log| == 2 + |readings| + (if v.pages == [] then 0 else 1)
            && log[0] == Claim(v.tenant.organisation, pagesPerRun) && log[1] == Reconcile(v.tenant, v.pages)
            && (forall i :: 0 <= i < |readings| ==>
                  log[2 + i].RecordState? && log[2 + i].page == readings[i].page && log[2 + i].state == readings[i].state)
            && (forall i, k :: 0 <= i < |readings| && FirstWith(v.pages, readings[i].page, k) ==>
                  log[2 + i].previous == v.pages[k].remoteState)
            && (forall i :: 0 <= i < |readings| && (forall k :: 0 <= k < |v.pages| ==> v.pages[k].id != readings[i].page) ==>
                  log[2 + i].previous == None)
            && (v.pages != [] ==> log[|log| - 1] == RecordOutcome(v.tenant.integration, v.result.outcome))
  {
    var (log, readings) := (VisitLog(v, pagesPerRun), v.result.readings);
    forall i | 0 <= i < |readings|
      ensures log[2 + i] == RecordState(readings[i].page, readings[i].state, PriorState(v.pages, readings[i].page))
    {
      assert log[2 + i] == Recorded(v.pages, readings)[i];
    }
    forall i | 0 <= i < |readings|
      ensures forall k :: FirstWith(v.pages, readings[i].page, k) ==> log[2 + i].previous == v.pages[k].remoteState
      ensures (forall k :: 0 <= k < |v.pages| ==> v.pages[k].id != readings[i].page) ==> log[2 + i].previous == None
    {
      PriorStateIs(v.pages, readings[i].page);
    }
  }

  /** The visits follow each other. */
  lemma {:induction false} VisitsFollow(visits: seq<Visit>, pagesPerRun: nat, i: nat)
    requires i < |visits|
    ensures VisitsLog(visits[..i], pagesPerRun) + VisitLog(visits[i], pagesPerRun) <= VisitsLog(visits, pagesPerRun)
  {
    if i < |visits| - 1 {
      VisitsFollow(visits[..|visits| - 1], pagesPerRun, i);
      assert visits[..|visits| - 1][..i] == visits[..i];
    }
  }

  /** The expired ones among the notices, in order: `at` tells which. */
  ghost predicate Expired(notices: seq<Notice>, audits: seq<Effect>, at: seq<nat>) {
    && |at| == |audits|
    && (forall i :: 0 <= i < |at| ==> at[i] < |notices| && notices[at[i]].expired
                                      && audits[i] == Audit(notices[at[i]].integration))
    && (forall i, j :: 0 <= i < j < |at| ==> at[i] < at[j])
    && (forall k :: 0 <= k < |notices| && notices[k].expired ==> k in at)
  }

  lemma OneMoreNotice(before: seq<Notice>, notice: Notice, audits: seq<Effect>, at: seq<nat>)
    requires Expired(before, audits, at)
    ensures notice.expired ==> Expired(before + [notice], audits + [Audit(notice.integration)], at + [|before|])
    ensures !notice.expired ==> Expired(before + [notice], audits, at)
  {
    if notice.expired {
      forall k | 0 <= k <= |before| && (before + [notice])[k].expired ensures k in at + [|before|] {
        assert (at + [|before|])[|at|] == |before|;
        assert k < |before| ==> k in at;
      }
    }
  }

  /** Exactly the notices of what has expired are audited, each once, in order. */
  lemma {:induction false} AuditsExact(notices: seq<Notice>) returns (at: seq<nat>)
    ensures Expired(notices, Audits(notices), at)
  {
    if notices == [] {
      at := [];
    } else {
      var (before, last) := (notices[..|notices| - 1], notices[|notices| - 1]);
      at := AuditsExact(before);
      OneMoreNotice(before, last, Audits(before), at);
      assert notices == before + [last];
      if last.expired {
        at := at + [|before|];
      }
    }
  }

  lemma {:induction false} VisitedAreDue(visits: seq<Visit>)
    ensures Visited(visits) == |DueOutcomes(visits)| && PagesRead(visits) == |DueStates(visits)|
  {
    if visits != [] {
      VisitedAreDue(visits[..|visits| - 1]);
    }
  }

  /** What the report says is what was done: a tenant is visited where an outcome was
    * recorded and skipped otherwise, and a page is read where a state was recorded.
    */
  lemma ReportExact(visits: seq<Visit>, notices: seq<Notice>, orphans: Option<(nat, nat)>, pagesPerRun: nat)
    ensures var report := ReportOf(visits, notices, orphans);
            && report.visited == |Outcomes(VisitsLog(visits, pagesPerRun))|
            && report.visited + report.skipped == |visits|
            && report.pagesRead == |States(VisitsLog(visits, pagesPerRun))|
            && (report.rateLimited <==> visits != [] && visits[|visits| - 1].result.abortRun)
            && report.notices == |notices| && report.orphans == orphans
  {
    VisitsRecord(visits, pagesPerRun);
    VisitedAreDue(visits);
    CountsOnce(visits);
  }

  lemma {:induction false} CountsOnce(visits: seq<Visit>)
    ensures Visited(visits) + Skipped(visits) == |visits|
  {
    if visits != [] {
      CountsOnce(visits[..|visits| - 1]);
    }
  }

  // ---- What that amounts to ------------------------------------------------------------------------

  /** Every tenant processed is counted once, as visited or as skipped, and what is
    * claimed is bounded by the two limits.
    */
  lemma {:induction false} CountsAddUp(visits: seq<Visit>, tenants: seq<Tenant>, pagesPerRun: nat)
    requires InTurn(visits, tenants, pagesPerRun)
    ensures Visited(visits) + Skipped(visits) == |visits|
    ensures PagesClaimed(visits) <= |visits| * pagesPerRun <= |tenants| * pagesPerRun
  {
    CountsOnce(visits);
    ClaimsAddUp(visits, pagesPerRun);
    More(|visits|, |tenants|, pagesPerRun);
  }

  lemma {:induction false} ClaimsAddUp(visits: seq<Visit>, pagesPerRun: nat)
    requires forall i :: 0 <= i < |visits| ==> |visits[i].pages| <= pagesPerRun
    ensures PagesClaimed(visits) <= |visits| * pagesPerRun
  {
    if visits != [] {
      ClaimsAddUp(visits[..|visits| - 1], pagesPerRun);
      OneMoreTime(|visits|, pagesPerRun);
    }
  }

  lemma OneMoreTime(a: nat, n: nat)
    requires a > 0
    ensures a * n == (a - 1) * n + n
  {
  }

  lemma More(a: nat, b: nat, n: nat)
    requires a <= b
    ensures a * n <= b * n
  {
  }

  lemma ClaimsAreBounded(visits: seq<Visit>, tenants: seq<Tenant>, tenantsPerRun: nat, pagesPerRun: nat)
    requires InTurn(visits, tenants, pagesPerRun) && |tenants| <= tenantsPerRun
    ensures PagesClaimed(visits) <= tenantsPerRun * pagesPerRun
  {
    CountsAddUp(visits, tenants, pagesPerRun);
    More(|tenants|, tenantsPerRun, pagesPerRun);
  }

  /** The effects of one kind, in order. */
  function Outcomes(log: seq<Effect>): seq<Effect> {
    if log == [] then []
    else Outcomes(log[..|log| - 1]) + (if log[|log| - 1].RecordOutcome? then [log[|log| - 1]] else [])
  }

  function States(log: seq<Effect>): seq<Effect> {
    if log == [] then []
    else States(log[..|log| - 1]) + (if log[|log| - 1].RecordState? then [log[|log| - 1]] else [])
  }

  lemma {:induction false} OutcomesConcat(a: seq<Effect>, b: seq<Effect>)
    ensures Outcomes(a + b) == Outcomes(a) + Outcomes(b)
    decreases |b|
  {
    if b == [] {
      assert a + b == a;
    } else {
      assert (a + b)[..|a + b| - 1] == a + b[..|b| - 1];
      OutcomesConcat(a, b[..|b| - 1]);
    }
  }

  lemma {:induction false} StatesConcat(a: seq<Effect>, b: seq<Effect>)
    ensures States(a + b) == States(a) + States(b)
    decreases |b|
  {
    if b == [] {
      assert a + b == a;
    } else {
      assert (a + b)[..|a + b| - 1] == a + b[..|b| - 1];
      StatesConcat(a, b[..|b| - 1]);
    }
  }

  lemma {:induction false} NoOutcomes(log: seq<Effect>)
    requires forall e :: e in log ==> !e.RecordOutcome?
    ensures Outcomes(log) == []
  {
    if log != [] {
      NoOutcomes(log[..|log| - 1]);
    }
  }

  lemma {:induction false} OnlyStates(log: seq<Effect>)
    ensures (forall e :: e in log ==> e.RecordState?) ==> States(log) == log
    ensures (forall e :: e in log ==> !e.RecordState?) ==> States(log) == []
  {
    if log != [] {
      OnlyStates(log[..|log| - 1]);
      assert log == log[..|log| - 1] + [log[|log| - 1]];
    }
  }

  /** The outcomes to be recorded: one for each tenant whose claim was not empty. */
  function DueOutcomes(visits: seq<Visit>): seq<Effect> {
    if visits == [] then []
    else
      var v := visits[|visits| - 1];
      DueOutcomes(visits[..|visits| - 1])
      + (if v.pages == [] then [] else [RecordOutcome(v.tenant.integration, v.result.outcome)])
  }

  /** The readings to be recorded, each with the state its page was claimed in. */
  function DueStates(visits: seq<Visit>): seq<Effect> {
    if visits == [] then []
    else
      var v := visits[|visits| - 1];
      DueStates(visits[..|visits| - 1]) + Recorded(v.pages, v.result.readings)
  }

  lemma VisitRecordsOutcome(v: Visit, pagesPerRun: nat)
    ensures Outcomes(VisitLog(v, pagesPerRun)) ==
            if v.pages == [] then [] else [RecordOutcome(v.tenant.integration, v.result.outcome)]
  {
    var head := [Claim(v.tenant.organisation, pagesPerRun), Reconcile(v.tenant, v.pages)];
    var body := Recorded(v.pages, v.result.readings);
    var tail := if v.pages == [] then [] else [RecordOutcome(v.tenant.integration, v.result.outcome)];
    NoOutcomes(head);
    NoOutcomes(body);
    OutcomesConcat(head, body);
    OutcomesConcat(head + body, tail);
    assert tail != [] ==> tail[..0] == [];
    assert VisitLog(v, pagesPerRun) == head + body + tail;
  }

  lemma StatesOfThree(head: seq<Effect>, body: seq<Effect>, tail: seq<Effect>)
    requires States(head) == [] && States(tail) == []
    ensures States(head + body + tail) == States(body)
  {
    StatesConcat(head, body);
    StatesConcat(head + body, tail);
  }

  lemma VisitRecordsStates(v: Visit, pagesPerRun: nat)
    ensures States(VisitLog(v, pagesPerRun)) == Recorded(v.pages, v.result.readings)
  {
    var head := [Claim(v.tenant.organisation, pagesPerRun), Reconcile(v.tenant, v.pages)];
    var body := Recorded(v.pages, v.result.readings);
    var tail := if v.pages == [] then [] else [RecordOutcome(v.tenant.integration, v.result.outcome)];
    OnlyStates(head);
    OnlyStates(body);
    OnlyStates(tail);
    StatesOfThree(head, body, tail);
  }

  lemma {:induction false} VisitsRecord(visits: seq<Visit>, pagesPerRun: nat)
    ensures Outcomes(VisitsLog(visits, pagesPerRun)) == DueOutcomes(visits)
    ensures States(VisitsLog(visits, pagesPerRun)) == DueStates(visits)
  {
    if visits != [] {
      var before := visits[..|visits| - 1];
      VisitsRecord(before, pagesPerRun);
      VisitRecordsOutcome(visits[|visits| - 1], pagesPerRun);
      VisitRecordsStates(visits[|visits| - 1], pagesPerRun);
      OutcomesConcat(VisitsLog(before, pagesPerRun), VisitLog(visits[|visits| - 1], pagesPerRun));
      StatesConcat(VisitsLog(before, pagesPerRun), VisitLog(visits[|visits| - 1], pagesPerRun));
    }
  }

  lemma {:induction false} VisitsDoNotSweep(visits: seq<Visit>, pagesPerRun: nat)
    ensures forall e :: e in VisitsLog(visits, pagesPerRun) ==>
              e.Claim? || e.Reconcile? || e.RecordState? || e.RecordOutcome?
  {
    if visits != [] {
      VisitsDoNotSweep(visits[..|visits| - 1], pagesPerRun);
    }
  }

  lemma {:induction false} AuditsOnly(notices: seq<Notice>)
    ensures forall e :: e in Audits(notices) ==> e.Audit?
  {
    if notices != [] {
      AuditsOnly(notices[..|notices| - 1]);
    }
  }

  /** The dormancy sweep runs once, and everything that touches a tenant comes before it. */
  lemma SweepIsOnceAndLast(
      orphans: Option<(nat, nat)>, limit: nat, visits: seq<Visit>, pagesPerRun: nat, notices: seq<Notice>, k: nat)
    requires k < |TenantsLog(orphans, limit, visits, pagesPerRun, notices)|
    ensures var log := TenantsLog(orphans, limit, visits, pagesPerRun, notices);
            var at := 1 + |VisitsLog(visits, pagesPerRun)|;
            && (log[k].SweepDormant? <==> k == at)
            && (log[k].Claim? || log[k].Reconcile? || log[k].RecordState? || log[k].RecordOutcome? ==> k < at)
  {
    VisitsDoNotSweep(visits, pagesPerRun);
    AuditsOnly(notices);
    var (v, a) := (VisitsLog(visits, pagesPerRun), Audits(notices));
    var log := TenantsLog(orphans, limit, visits, pagesPerRun, notices);
    if 1 <= k <= |v| {
      assert log[k] == v[k - 1] && v[k - 1] in v;
    } else if |v| + 2 <= k < |v| + 2 + |a| {
      assert log[k] == a[k - |v| - 2] && a[k - |v| - 2] in a;
    }
  }
}
