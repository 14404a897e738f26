/** Releasing billing authority that no provider will use any more
  * (apps/api/src/jobs/reconcile-billing-authority.ts).
  */
module Billing {
  import opened Phrases
  import opened Text
  import opened Wrappers

  type Time = nat

  datatype Kind = Checkout | Portal

  datatype Lifecycle = Lifecycle(status: nat, version: nat)

  datatype Actor = Actor(user: nat, session: nat, membershipVersion: nat)

  /** What a release leaves behind; all of it or none. */
  datatype Record = Record(
    at: Time,
    reason: ReleaseReason,
    bySystem: bool,
    operator: seq<Unit>,
    lifecycle: Lifecycle,
    previousState: GrantState,
    caseReference: seq<Unit>,
    providerEvidence: seq<Unit>,
    quiesced: bool,
    confirmation: seq<Unit>)

  datatype State = Held(held: GrantState) | Released

  datatype Grant = Grant(
    organisation: seq<Unit>,
    kind: Kind,
    actor: Actor,
    state: State,
    resource: Option<nat>,
    safeReleaseAfter: Option<Time>,
    claimedAt: Time,
    startedAt: Option<Time>,
    issuedAt: Option<Time>,
    release: Option<Record>)

  datatype Database = Database(organisations: map<seq<Unit>, Lifecycle>, grants: map<seq<Unit>, Grant>)

  datatype Input = Input(
    organisation: seq<Unit>,
    grant: seq<Unit>,
    expected: GrantState,
    reason: ReleaseReason,
    operator: seq<Unit>,
    caseReference: seq<Unit>,
    providerEvidence: seq<Unit>,
    authorityVerified: bool,
    quiesced: bool)

  datatype Command = List | DryRun(input: Input) | Release(input: Input, confirmation: seq<Unit>)

  datatype Refusal =
    | NotCanonical | EvidenceHasSecret | AuthorityUnverified | QuiescenceMismatch | WrongConfirmation
    | OrganisationMissing | GrantMissing | AlreadyReleased | OtherState | HasReleaseEvidence
    | BeforeClaim | ReasonUnsupported | ChangedConcurrently | CheckFailed

  datatype Outcome = Listed(grants: set<seq<Unit>>) | Previewed(phrase: seq<Unit>) | Done(phrase: seq<Unit>)

  /** Whether provider evidence reads like a URL or a provider's secret. */
  type SecretTest = seq<Unit> -> bool

  /** What is checked of a command before the database is asked. */
  type Check = Input -> Option<Refusal>

  // ---- What the table's checks demand ---------------------------------------------------------

  ghost predicate LawfulTimeline(g: Grant) {
    && (g.startedAt.Some? ==> g.startedAt.value >= g.claimedAt)
    && (g.issuedAt.Some? ==> g.startedAt.Some? && g.issuedAt.value >= g.startedAt.value)
    && (g.safeReleaseAfter.Some? ==> g.kind.Checkout? && g.safeReleaseAfter.value >= g.claimedAt)
    && (g.release.Some? ==> g.release.value.at >= g.claimedAt)
  }

  ghost predicate LawfulState(g: Grant) {
    match g.state
    case Held(Claimed) =>
      g.startedAt.None? && g.issuedAt.None? && g.resource.None? && g.safeReleaseAfter.None? && g.release.None?
    case Held(ProviderStarted) =>
      g.startedAt.Some? && g.issuedAt.None? && g.resource.None? && g.safeReleaseAfter.None? && g.release.None?
    case Held(CapabilityIssued) =>
      g.startedAt.Some? && g.issuedAt.Some? && g.resource.Some? && g.release.None?
      && (g.kind.Checkout? <==> g.safeReleaseAfter.Some?)
    case Released => g.release.Some? && (g.issuedAt.Some? ==> g.resource.Some?)
  }

  /** The reason's own check. */
  ghost predicate LawfulReason(g: Grant) {
    g.release.Some? ==>
      match g.release.value.reason
      case RestrictedOperatorAttestation => g.kind.Portal?
      case ProviderConfirmedNotIssued => g.issuedAt.None? && (g.kind.Checkout? || g.release.value.bySystem)
      case ProviderCapabilityRevoked => g.kind.Checkout? && g.resource.Some? && g.startedAt.Some?
      case ProviderCapabilityTerminal => g.kind.Checkout? && g.resource.Some? && g.issuedAt.Some?
      case CheckoutSafeReleaseAfterElapsed =>
        g.kind.Checkout? && g.issuedAt.Some? && g.resource.Some? && g.safeReleaseAfter.Some?
        && g.release.value.at >= g.safeReleaseAfter.value
  }

  ghost predicate Lawful(g: Grant) {
    LawfulTimeline(g) && LawfulState(g) && LawfulReason(g)
  }

  ghost predicate LawfulDatabase(db: Database) {
    forall id :: id in db.grants ==> Lawful(db.grants[id])
  }

  // ---- The checks of the job --------------------------------------------------------------------

  predicate IsControl(u: Unit) {
    u < 0x20 || u == 0x7F
  }

  /** `boundedEvidence(value) === value` */
  predicate IsCanonical(value: seq<Unit>, maximum: nat) {
    && value != [] && |value| <= maximum && Trim(value) == value
    && forall i :: 0 <= i < |value| ==> !IsControl(value[i])
  }

  predicate IsHex(u: Unit) {
    0x30 <= u <= 0x39 || 0x61 <= u <= 0x66
  }

  /** A lower-case UUID of versions 1 to 5. */
  predicate IsUuid(s: seq<Unit>) {
    && |s| == 36
    && (forall i :: 0 <= i < 36 ==> if i == 8 || i == 13 || i == 18 || i == 23 then s[i] == 0x2D else IsHex(s[i]))
    && 0x31 <= s[14] <= 0x35
    && (s[19] == 0x38 || s[19] == 0x39 || s[19] == 0x61 || s[19] == 0x62)
  }

  function PhraseOf(i: Input): seq<Unit> {
    ReleasePhrase(i.grant, i.organisation, i.expected, i.reason)
  }

  predicate AreCanonical(i: Input) {
    && IsCanonical(i.organisation, 200) && IsCanonical(i.grant, 36) && IsCanonical(i.operator, 120)
    && IsCanonical(i.caseReference, 128) && IsCanonical(i.providerEvidence, 1000)
  }

  /** `assertRuntimeCommand`, without the confirmation. */
  function CheckInput(isSecret: SecretTest, i: Input): (r: Option<Refusal>)
    ensures r.None? ==> IsUuid(i.grant)
  {
    FirstRefusal(AreCanonical(i) && IsUuid(i.grant), isSecret(i.providerEvidence), i.authorityVerified,
                 NeedsQuiescence(i.expected) == i.quiesced)
  }

  function FirstRefusal(canonical: bool, secret: bool, verified: bool, quiet: bool): Option<Refusal> {
    if !canonical then Some(NotCanonical)
    else if secret then Some(EvidenceHasSecret)
    else if !verified then Some(AuthorityUnverified)
    else if !quiet then Some(QuiescenceMismatch)
    else None
  }

  function RuntimeCheck(isSecret: SecretTest): Check {
    i => CheckInput(isSecret, i)
  }

  /** `assertReasonAllowed`: what a reason takes of the evidence on record. */
  predicate Supports(g: Grant, reason: ReleaseReason, now: Time) {
    if g.kind.Portal? then reason.RestrictedOperatorAttestation?
    else
      match reason
      case ProviderConfirmedNotIssued => g.issuedAt.None? && g.resource.None?
      case ProviderCapabilityRevoked => g.startedAt.Some? && g.resource.Some?
      case ProviderCapabilityTerminal => g.issuedAt.Some? && g.resource.Some?
      case CheckoutSafeReleaseAfterElapsed =>
        g.state == Held(CapabilityIssued) && g.issuedAt.Some? && g.resource.Some?
        && g.safeReleaseAfter.Some? && g.safeReleaseAfter.value <= now
      case RestrictedOperatorAttestation => false
  }

  /** What the transaction finds before it writes. */
  function CheckGrant(db: Database, i: Input, now: Time): Option<Refusal> {
    if i.organisation !in db.organisations then Some(OrganisationMissing)
    else if i.grant !in db.grants || db.grants[i.grant].organisation != i.organisation then Some(GrantMissing)
    else
      var g := db.grants[i.grant];
      if g.state.Released? then Some(AlreadyReleased)
      else if g.state != Held(i.expected) then Some(OtherState)
      else if g.release.Some? then Some(HasReleaseEvidence)
      else if now < g.claimedAt then Some(BeforeClaim)
      else if !Supports(g, i.reason, now) then Some(ReasonUnsupported)
      else None
  }

  function RecordOf(db: Database, i: Input, now: Time, confirmation: seq<Unit>): Record
    requires i.organisation in db.organisations
  {
    Record(now, i.reason, false, i.operator, db.organisations[i.organisation], i.expected,
           i.caseReference, i.providerEvidence, i.quiesced, confirmation)
  }

  function ReleasedGrant(g: Grant, record: Record): Grant {
    g.(state := Released, release := Some(record))
  }

  // ---- The job ------------------------------------------------------------------------------------

  class Store {
    const check: Check
    var organisations: map<seq<Unit>, Lifecycle>
    var grants: map<seq<Unit>, Grant>

    constructor (check: Check, db: Database)
      ensures this.check == check && Now() == db
    {
      this.check := check;
      organisations, grants := db.organisations, db.grants;
    }

    function Now(): Database
      reads this
    {
      Database(organisations, grants)
    }

    /** The conditional update: how many rows it changed, or None when a check of the
      * table refuses the new row.
      */
    ghost predicate Matches(id: seq<Unit>, i: Input, seen: Grant)
      reads this
    {
      && id in grants && grants[id].organisation == i.organisation && grants[id].kind == seen.kind
      && grants[id].state == Held(i.expected) && grants[id].actor == seen.actor && grants[id].release.None?
    }

    method UpdateMany(i: Input, seen: Grant, record: Record) returns (count: nat)
      modifies this`grants
      ensures count == if old(Matches(i.grant, i, seen)) then 1 else 0
      ensures grants == if count == 1 then old(grants)[i.grant := ReleasedGrant(old(grants)[i.grant], record)]
                        else old(grants)
    {
      if i.grant in grants {
        var g := grants[i.grant];
        if g.organisation == i.organisation && g.kind == seen.kind && g.state == Held(i.expected)
           && g.actor == seen.actor && g.release.None? {
          grants := grants[i.grant := ReleasedGrant(g, record)];
          return 1;
        }
      }
      return 0;
    }

    method Execute(command: Command, now: Time) returns (r: Result<Outcome, Refusal>)
      modifies this
      ensures organisations == old(organisations)
      ensures (Now(), r) == Executed(check, old(Now()), command, now)
    {
      match command {
        case List =>
          return Success(Listed(set id | id in grants && !grants[id].state.Released?));
        case DryRun(i) =>
          var refusal := check(i);
          if refusal.Some? {
            return Failure(refusal.value);
          }
          refusal := CheckGrant(Now(), i, now);
          if refusal.Some? {
            return Failure(refusal.value);
          }
          return Success(Previewed(PhraseOf(i)));
        case Release(i, confirmation) =>
          var refusal := check(i);
          if refusal.Some? {
            return Failure(refusal.value);
          }
          if confirmation != PhraseOf(i) {
            return Failure(WrongConfirmation);
          }
          refusal := CheckGrant(Now(), i, now);
          if refusal.Some? {
            return Failure(refusal.value);
          }
          var count := UpdateMany(i, grants[i.grant], RecordOf(Now(), i, now, confirmation));
          if count != 1 {
            return Failure(ChangedConcurrently);
          }
          return Success(Done(PhraseOf(i)));
      }
    }
  }

  /** What a command leaves and answers. */
  function Executed(check: Check, db: Database, command: Command, now: Time): (Database, Result<Outcome, Refusal>) {
    match command
    case List => (db, Success(Listed(set id | id in db.grants && !db.grants[id].state.Released?)))
    case DryRun(i) =>
      (db,
       if check(i).Some? then Failure(check(i).value)
       else if CheckGrant(db, i, now).Some? then Failure(CheckGrant(db, i, now).value)
       else Success(Previewed(PhraseOf(i))))
    case Release(i, confirmation) =>
      if check(i).Some? then (db, Failure(check(i).value))
      else if confirmation != PhraseOf(i) then (db, Failure(WrongConfirmation))
      else if CheckGrant(db, i, now).Some? then (db, Failure(CheckGrant(db, i, now).value))
      else
        var released := ReleasedGrant(db.grants[i.grant], RecordOf(db, i, now, confirmation));
        (db.(grants := db.grants[i.grant := released]), Success(Done(PhraseOf(i))))
  }

  // ---- Which releases are accepted ------------------------------------------------------------------

  /** Text of so many characters at most, without blanks at its ends and control characters. */
  predicate Plain(value: seq<Unit>, most: nat) {
    && 1 <= |value| <= most && !IsSpace(value[0]) && !IsSpace(value[|value| - 1])
    && forall i :: 0 <= i < |value| ==> 0x1F < value[i] && value[i] != 0x7F
  }

  /** Five groups of lower-case hexadecimal digits, of a version from 1 to 5 and the one variant. */
  predicate IsGrantName(s: seq<Unit>) {
    && |s| == 36 && s[8] == s[13] == s[18] == s[23] == '-' as int
    && '1' as int <= s[14] <= '5' as int
    && ('8' as int <= s[19] <= '9' as int || 'a' as int <= s[19] <= 'b' as int)
    && forall i :: 0 <= i < 36 && i != 8 && i != 13 && i != 18 && i != 23 ==>
         '0' as int <= s[i] <= '9' as int || 'a' as int <= s[i] <= 'f' as int
  }

  lemma CanonicalIff(value: seq<Unit>, most: nat)
    ensures IsCanonical(value, most) == Plain(value, most)
  {
    if value != [] {
      if IsSpace(value[0]) {
        assert |DropBlank(value)| < |value|;
      } else {
        assert DropBlank(value) == value;
        assert IsSpace(value[|value| - 1]) ==> |DropBlankAtEnd(value)| < |value|;
      }
    }
  }

  lemma UuidIff(s: seq<Unit>)
    ensures IsUuid(s) == IsGrantName(s)
  {
    if IsUuid(s) {
      forall i | 0 <= i < 36
        ensures if i == 8 || i == 13 || i == 18 || i == 23 then s[i] == '-' as int
                else '0' as int <= s[i] <= '9' as int || 'a' as int <= s[i] <= 'f' as int
      {
      }
    }
    if IsGrantName(s) {
      forall i | 0 <= i < 36
        ensures if i == 8 || i == 13 || i == 18 || i == 23 then s[i] == 0x2D else IsHex(s[i])
      {
      }
    }
  }

  lemma GrantNameIsPlain(s: seq<Unit>)
    requires IsGrantName(s)
    ensures Plain(s, 36)
  {
  }

  /** The first check that a command fails, if it fails one. */
  lemma CheckInputExact(isSecret: SecretTest, i: Input)
    ensures var named := Plain(i.organisation, 200) && Plain(i.operator, 120) && Plain(i.caseReference, 128)
                         && Plain(i.providerEvidence, 1000) && IsGrantName(i.grant);
            var quiet := i.quiesced <==> i.expected == Claimed || i.expected == ProviderStarted;
            RuntimeCheck(isSecret)(i) ==
            if !named then Some(NotCanonical)
            else if isSecret(i.providerEvidence) then Some(EvidenceHasSecret)
            else if !i.authorityVerified then Some(AuthorityUnverified)
            else if !quiet then Some(QuiescenceMismatch)
            else None
  {
    TextsIff(i);
    UuidIff(i.grant);
    assert NeedsQuiescence(i.expected) <==> i.expected == Claimed || i.expected == ProviderStarted;
  }

  lemma TextsIff(i: Input)
    ensures AreCanonical(i) ==
            (Plain(i.organisation, 200) && Plain(i.grant, 36) && Plain(i.operator, 120) && Plain(i.caseReference, 128)
             && Plain(i.providerEvidence, 1000))
    ensures IsGrantName(i.grant) ==> Plain(i.grant, 36)
  {
    CanonicalIff(i.organisation, 200);
    CanonicalIff(i.grant, 36);
    CanonicalIff(i.operator, 120);
    CanonicalIff(i.caseReference, 128);
    CanonicalIff(i.providerEvidence, 1000);
    if IsGrantName(i.grant) {
      GrantNameIsPlain(i.grant);
    }
  }

  /** The evidence on record that a reason calls for: a portal is released on the operator's
    * word, and a checkout never is.
    */
  predicate Evidenced(g: Grant, reason: ReleaseReason, now: Time) {
    && (g.kind == Portal <==> reason == RestrictedOperatorAttestation)
    && (reason == ProviderConfirmedNotIssued ==> g.issuedAt == None && g.resource == None)
    && (reason == ProviderCapabilityRevoked ==> g.startedAt.Some? && g.resource.Some?)
    && (reason == ProviderCapabilityTerminal ==> g.issuedAt.Some? && g.resource.Some?)
    && (reason == CheckoutSafeReleaseAfterElapsed ==>
          g.state == Held(CapabilityIssued) && g.issuedAt.Some? && g.resource.Some?
          && g.safeReleaseAfter.Some? && g.safeReleaseAfter.value <= now)
  }

  /** What has to be found: the grant, of that organisation, in the expected state, with
    * nothing recorded of a release, claimed by now, and with the evidence for the reason.
    */
  predicate Releasable(db: Database, i: Input, now: Time) {
    && i.organisation in db.organisations && i.grant in db.grants
    && db.grants[i.grant].organisation == i.organisation
    && db.grants[i.grant].state == Held(i.expected) && db.grants[i.grant].release == None
    && db.grants[i.grant].claimedAt <= now && Evidenced(db.grants[i.grant], i.reason, now)
  }

  lemma CheckGrantIff(db: Database, i: Input, now: Time)
    ensures CheckGrant(db, i, now).None? <==> Releasable(db, i, now)
  {
  }

  /** Which refusal the database gives rise to. */
  lemma GrantRefusals(db: Database, i: Input, now: Time)
    ensures var r := CheckGrant(db, i, now);
            var found := i.organisation in db.organisations && i.grant in db.grants
                         && db.grants[i.grant].organisation == i.organisation;
            && (r == Some(OrganisationMissing) <==> i.organisation !in db.organisations)
            && (r == Some(GrantMissing) <==> i.organisation in db.organisations && !found)
            && (r == Some(AlreadyReleased) <==> found && db.grants[i.grant].state == Released)
            && (r == Some(OtherState) <==> found && db.grants[i.grant].state !in {Released, Held(i.expected)})
            && (r == Some(HasReleaseEvidence) <==>
                  found && db.grants[i.grant].state == Held(i.expected) && db.grants[i.grant].release.Some?)
            && (r == Some(BeforeClaim) <==>
                  found && db.grants[i.grant].state == Held(i.expected) && db.grants[i.grant].release.None?
                  && now < db.grants[i.grant].claimedAt)
            && (r == Some(ReasonUnsupported) <==>
                  found && db.grants[i.grant].state == Held(i.expected) && db.grants[i.grant].release.None?
                  && db.grants[i.grant].claimedAt <= now && !Evidenced(db.grants[i.grant], i.reason, now))
  {
  }

  /** A release is accepted exactly where the checks of the command and of the database are
    * met and the phrase is typed back. It records when, why, by whom, for what case and on
    * what evidence, from which state, the organisation as it was, and the phrase.
    */
  lemma ReleaseExact(check: Check, db: Database, i: Input, typed: seq<Unit>, now: Time)
    ensures var (after, r) := Executed(check, db, Release(i, typed), now);
            var phrase := ReleasePhrase(i.grant, i.organisation, i.expected, i.reason);
            && (r.Success? <==> check(i).None? && typed == phrase && Releasable(db, i, now))
            && (check(i).Some? ==> r == Failure(check(i).value))
            && (check(i).None? && typed != phrase ==> r == Failure(WrongConfirmation))
            && (check(i).None? && typed == phrase && CheckGrant(db, i, now).Some? ==>
                  r == Failure(CheckGrant(db, i, now).value))
            && (r.Success? ==>
                  && r.value == Done(phrase) && i.grant in after.grants && after.grants[i.grant].release.Some?
                  && var record := after.grants[i.grant].release.value;
                     && record.at == now && record.reason == i.reason && record.operator == i.operator && !record.bySystem
                     && record.caseReference == i.caseReference && record.providerEvidence == i.providerEvidence
                     && record.previousState == i.expected && record.quiesced == i.quiesced
                     && record.lifecycle == db.organisations[i.organisation] && record.confirmation == phrase)
  {
    CheckGrantIff(db, i, now);
  }

  /** A list is of the grants that are held. */
  lemma ListExact(check: Check, db: Database, now: Time, held: set<seq<Unit>>)
    requires forall id :: id in held <==> id in db.grants && db.grants[id].state != Released
    ensures Executed(check, db, List, now) == (db, Success(Listed(held)))
  {
    assert held == set id | id in db.grants && !db.grants[id].state.Released?;
  }

  // ---- One command -----------------------------------------------------------------------------------

  /** A dry-run is accepted exactly when the release with its printed phrase is. */
  lemma DryRunIffRelease(check: Check, db: Database, i: Input, now: Time)
    ensures Executed(check, db, DryRun(i), now).1.Success? <==>
            exists phrase :: Executed(check, db, Release(i, phrase), now).1.Success?
    ensures Executed(check, db, DryRun(i), now).1.Success? ==>
              var phrase := Executed(check, db, DryRun(i), now).1.value.phrase;
              Executed(check, db, Release(i, phrase), now).1.Success?
    ensures Executed(check, db, DryRun(i), now).1.Failure? ==>
              Executed(check, db, DryRun(i), now).1 ==
              Executed(check, db, Release(i, ReleasePhrase(i.grant, i.organisation, i.expected, i.reason)), now).1
  {
    if Executed(check, db, DryRun(i), now).1.Success? {
      assert Executed(check, db, Release(i, PhraseOf(i)), now).1.Success?;
    }
  }

  /** A check that lets only grants through whose identifier is one word. */
  ghost predicate NamesGrants(check: Check) {
    forall i :: check(i).None? ==> IsWord(i.grant)
  }

  lemma RuntimeCheckNamesGrants(isSecret: SecretTest)
    ensures NamesGrants(RuntimeCheck(isSecret))
  {
    forall i | RuntimeCheck(isSecret)(i).None? ensures IsWord(i.grant) {
      UuidIsWord(i.grant);
    }
  }

  lemma UuidIsWord(s: seq<Unit>)
    requires IsUuid(s)
    ensures IsWord(s)
  {
    forall i | 0 <= i < |s| ensures s[i] != SPACE {
      assert if i == 8 || i == 13 || i == 18 || i == 23 then s[i] == 0x2D else IsHex(s[i]);
    }
  }

  /** A phrase that a dry-run printed releases what that dry-run was of, and nothing else. */
  lemma PhraseBindsTarget(
      check: Check, db: Database, reviewed: Input, earlier: Time, db': Database, i: Input, now: Time)
    requires NamesGrants(check)
    requires Executed(check, db, DryRun(reviewed), earlier).1.Success?
    requires Executed(check, db', Release(i, PhraseOf(reviewed)), now).1.Success?
    ensures i.grant == reviewed.grant && i.organisation == reviewed.organisation
    ensures i.expected == reviewed.expected && i.reason == reviewed.reason
  {
    ReleasePhraseInjective(i.grant, i.organisation, i.expected, i.reason,
                           reviewed.grant, reviewed.organisation, reviewed.expected, reviewed.reason);
  }

  /** So it is behind the checks that the command line makes. */
  lemma RuntimePhraseBindsTarget(
      isSecret: SecretTest, db: Database, reviewed: Input, earlier: Time, db': Database, i: Input, now: Time)
    requires Executed(RuntimeCheck(isSecret), db, DryRun(reviewed), earlier).1.Success?
    requires Executed(RuntimeCheck(isSecret), db', Release(i, PhraseOf(reviewed)), now).1.Success?
    ensures i.grant == reviewed.grant && i.organisation == reviewed.organisation
    ensures i.expected == reviewed.expected && i.reason == reviewed.reason
  {
    RuntimeCheckNamesGrants(isSecret);
    PhraseBindsTarget(RuntimeCheck(isSecret), db, reviewed, earlier, db', i, now);
  }

  /** A list, a dry-run and a refusal change nothing. A release changes one grant, which
    * was held and is released, and keeps what was recorded of it. No check of the
    * table ever refuses.
    */
  lemma CommandChanges(check: Check, db: Database, command: Command, now: Time)
    ensures var (after, r) := Executed(check, db, command, now);
            && (!(command.Release? && r.Success?) ==> after == db)
            && (command.Release? && r.Success? ==>
                  && command.input.grant in db.grants
                  && var (g, g') := (db.grants[command.input.grant], after.grants[command.input.grant]);
                     && after.organisations == db.organisations
                     && after.grants == db.grants[command.input.grant := g']
                     && g.state == Held(command.input.expected) && g'.state == Released
                     && Supports(g, command.input.reason, now) && g'.release.value.reason == command.input.reason
                     && g'.(state := g.state, release := g.release) == g)
            && (LawfulDatabase(db) ==> LawfulDatabase(after))
  {
    var (after, r) := Executed(check, db, command, now);
    if command.Release? && r.Success? {
      var (g, g') := (db.grants[command.input.grant], after.grants[command.input.grant]);
      if LawfulDatabase(db) {
        assert Lawful(g);
        ReleasedIsLawful(g, command.input.reason, now, g'.release.value);
      }
    }
  }

  lemma ReleasedIsLawful(g: Grant, reason: ReleaseReason, now: Time, record: Record)
    requires Lawful(g) && !g.state.Released? && Supports(g, reason, now) && now >= g.claimedAt
    requires record.reason == reason && record.at == now
    ensures Lawful(ReleasedGrant(g, record))
  {
  }

  // ---- Every run -------------------------------------------------------------------------------------

  function After(check: Check, db: Database, commands: seq<(Command, Time)>): Database
    decreases |commands|
  {
    if commands == [] then db
    else After(check, Executed(check, db, commands[0].0, commands[0].1).0, commands[1..])
  }

  /** How many releases of a grant are accepted in a run. */
  function Releases(check: Check, db: Database, commands: seq<(Command, Time)>, id: seq<Unit>): nat
    decreases |commands|
  {
    if commands == [] then 0
    else
      var (c, now) := commands[0];
      var (next, r) := Executed(check, db, c, now);
      (if c.Release? && c.input.grant == id && r.Success? then 1 else 0) + Releases(check, next, commands[1..], id)
  }

  /** Over any run each grant is released at most once, exactly when it ends up released
    * and did not begin so; a released grant never changes; and grants are neither made
    * nor lost.
    */
  lemma {:induction false} ReleasedAtMostOnce(check: Check, db: Database, commands: seq<(Command, Time)>, id: seq<Unit>)
    requires id in db.grants
    ensures var after := After(check, db, commands);
            && after.grants.Keys == db.grants.Keys
            && Releases(check, db, commands, id) ==
                 (if after.grants[id].state.Released? && !db.grants[id].state.Released? then 1 else 0)
            && (db.grants[id].state.Released? ==> after.grants[id] == db.grants[id])
            && (after.grants[id] != db.grants[id] ==> after.grants[id].state.Released?)
    decreases |commands|
  {
    if commands != [] {
      var (c, now) := commands[0];
      CommandChanges(check, db, c, now);
      ReleasedAtMostOnce(check, Executed(check, db, c, now).0, commands[1..], id);
    }
  }

  /** The evidence on a grant supports the reason it was released for. */
  ghost predicate WellReleased(g: Grant) {
    g.state.Released? ==>
      g.release.Some? &&
      Supports(g.(state := Held(g.release.value.previousState), release := None), g.release.value.reason, g.release.value.at)
  }

  /** Every grant released in a run was released for a reason its evidence supports. */
  lemma {:induction false} ReasonsAreSupported(check: Check, db: Database, commands: seq<(Command, Time)>, id: seq<Unit>)
    requires id in db.grants && WellReleased(db.grants[id])
    ensures id in After(check, db, commands).grants && WellReleased(After(check, db, commands).grants[id])
    decreases |commands|
  {
    if commands != [] {
      var (c, now) := commands[0];
      CommandChanges(check, db, c, now);
      var next := Executed(check, db, c, now).0;
      if next.grants[id] != db.grants[id] {
        assert next.grants[id].(state := db.grants[id].state, release := None) == db.grants[id];
      }
      ReasonsAreSupported(check, next, commands[1..], id);
    }
  }
}
