/** The tables of the authentication-recovery rebind, and the evidence counted in
  * them (apps/api/src/jobs/rebind-personal-server-auth-recovery-secret.ts).
  */
module RecoveryTables {
  import opened Wrappers

  type Id = nat
  type Time = nat
  /** A SHA-256 fingerprint. The table constraints admit no other text, so a number stands for one. */
  type Fingerprint = nat

  const MAX_SAFE_INTEGER: nat := 9007199254740991
  /** The generation column is a 32-bit signed integer. */
  const MAX_GENERATION: nat := 2147483647

  datatype DeliveryState = Suppressed | Pending | Sending | Accepted | Rejected | Uncertain
  datatype Termination = KeyRotated | OtherReason(code: nat)

  datatype Request = Request(
    deliveryState: DeliveryState,
    claimToken: Option<nat>,
    finalizedAt: Option<Time>,
    terminatedAt: Option<Time>,
    terminationReason: Option<Termination>,
    nextAttemptAt: Option<Time>,
    identifierDigest: Option<nat>,
    ipDigest: Option<nat>,
    networkDigest: Option<nat>,
    rateKeyVersion: Option<nat>,
    redactedAt: Option<Time>,
    rest: nat)                    // the columns no statement here touches

  datatype User = User(resetToken: Option<nat>, resetTokenExpiry: Option<Time>, rest: nat)

  datatype Control = Control(
    blocked: bool,
    generation: nat,
    active: Option<Fingerprint>,
    retired: Option<Fingerprint>)

  datatype Database = Database(
    control: Control,
    requests: map<Id, Request>,
    users: map<Id, User>,
    buckets: map<Id, nat>,
    notices: map<Id, nat>,
    retired: map<Fingerprint, nat>,   // the generation each fingerprint was retired at
    identity: nat)

  // ---- Evidence ---------------------------------------------------------------------

  datatype ControlState = Unbound | Active | Blocked

  datatype Counts = Counts(
    capabilities: nat,
    requestEvidenceRows: nat,
    legacySlots: nat,
    rateBuckets: nat,
    securityNotices: nat,
    retiredSecrets: nat)

  datatype Evidence = Evidence(state: ControlState, generation: nat, counts: Counts, identity: nat)

  /** A link that could still be used. */
  predicate Capable(r: Request) {
    r.deliveryState != Suppressed && r.terminatedAt.None?
  }

  predicate HasEvidence(r: Request) {
    r.identifierDigest.Some? || r.ipDigest.Some? || r.networkDigest.Some? || r.rateKeyVersion.Some?
  }

  predicate HasSlot(u: User) {
    u.resetToken.Some? || u.resetTokenExpiry.Some?
  }

  function CapableRows(requests: map<Id, Request>): set<Id> {
    set id | id in requests && Capable(requests[id])
  }

  function EvidenceRows(requests: map<Id, Request>): set<Id> {
    set id | id in requests && HasEvidence(requests[id])
  }

  function SlotRows(users: map<Id, User>): set<Id> {
    set id | id in users && HasSlot(users[id])
  }

  /** The named state of a control row, or None for a row that has none. */
  function ControlStateOf(c: Control): Option<ControlState> {
    if c.blocked && c.active.None? && c.retired.Some? then Some(Blocked)
    else if !c.blocked && c.generation == 1 && c.active.None? && c.retired.None? then Some(Unbound)
    else if !c.blocked && c.active.Some? && (c.retired.None? || c.active != c.retired) then Some(Active)
    else None
  }

  function CountsOf(db: Database): Counts {
    Counts(|CapableRows(db.requests)|, |EvidenceRows(db.requests)|, |SlotRows(db.users)|,
           |db.buckets|, |db.notices|, |db.retired|)
  }

  predicate SafeCounts(c: Counts) {
    && c.capabilities <= MAX_SAFE_INTEGER && c.requestEvidenceRows <= MAX_SAFE_INTEGER
    && c.legacySlots <= MAX_SAFE_INTEGER && c.rateBuckets <= MAX_SAFE_INTEGER
    && c.securityNotices <= MAX_SAFE_INTEGER && c.retiredSecrets <= MAX_SAFE_INTEGER
  }

  predicate Invalidated(c: Counts) {
    c.capabilities == 0 && c.requestEvidenceRows == 0 && c.legacySlots == 0 && c.rateBuckets == 0
  }

  /** What `assertEvidence` demands of evidence from any source. */
  predicate ValidEvidence(e: Evidence) {
    && 1 <= e.generation <= MAX_SAFE_INTEGER
    && SafeCounts(e.counts)
    && e.counts.retiredSecrets == e.generation - 1
    && (e.state == Unbound ==> e.generation == 1 && e.counts.retiredSecrets == 0)
    && (e.state == Blocked ==> Invalidated(e.counts))
  }

  /** The evidence counted under the table locks. None stands for a refusal. */
  function LockedSnapshot(db: Database): Option<Evidence> {
    if db.control.generation < 1 || ControlStateOf(db.control).None? then None
    else
      var e := Evidence(ControlStateOf(db.control).value, db.control.generation, CountsOf(db), db.identity);
      if ValidEvidence(e) then Some(e) else None
  }

  /** The replacement is not the active secret, not the last retired one, and in no
    * row of the retired history.
    */
  predicate FreshReplacement(db: Database, fp: Fingerprint) {
    db.control.active != Some(fp) && db.control.retired != Some(fp) && fp !in db.retired
  }

  /** The read-only dry run. */
  function Inspect(db: Database, fp: Fingerprint): Option<Evidence> {
    if FreshReplacement(db, fp) then LockedSnapshot(db) else None
  }

  // ---- The tables after a committed rebind ---------------------------------------------

  function TerminatedRow(r: Request, now: Time): Request {
    if !Capable(r) then r
    else
      var sending := r.deliveryState == Sending;
      r.(deliveryState := if sending then Uncertain else r.deliveryState,
         claimToken := if sending then None else r.claimToken,
         finalizedAt := if sending then Some(now) else r.finalizedAt,
         terminatedAt := Some(now),
         terminationReason := Some(KeyRotated),
         nextAttemptAt := None)
  }

  function RedactedRow(r: Request, now: Time): Request {
    if !HasEvidence(r) then r
    else r.(identifierDigest := None, ipDigest := None, networkDigest := None, rateKeyVersion := None,
            redactedAt := Some(now))
  }

  /** The row `r` ended: a usable link is terminated, one being sent becomes uncertain, and
    * a link that was ended or suppressed before is left as it is.
    */
  predicate Ended(r: Request, r': Request, now: Time) {
    var usable := r.deliveryState != Suppressed && r.terminatedAt == None;
    && r'.deliveryState == (if usable && r.deliveryState == Sending then Uncertain else r.deliveryState)
    && r'.claimToken == (if usable && r.deliveryState == Sending then None else r.claimToken)
    && r'.finalizedAt == (if usable && r.deliveryState == Sending then Some(now) else r.finalizedAt)
    && r'.terminatedAt == (if usable then Some(now) else r.terminatedAt)
    && r'.terminationReason == (if usable then Some(KeyRotated) else r.terminationReason)
    && r'.nextAttemptAt == (if usable then None else r.nextAttemptAt)
    && r'.rest == r.rest
  }

  /** Who asked is kept as it was. */
  predicate Remembered(r: Request, r': Request) {
    && r'.identifierDigest == r.identifierDigest && r'.ipDigest == r.ipDigest
    && r'.networkDigest == r.networkDigest && r'.rateKeyVersion == r.rateKeyVersion
    && r'.redactedAt == r.redactedAt
  }

  /** Nothing of who asked is left, and the time of that is recorded exactly where there
    * was something.
    */
  predicate Forgotten(r: Request, r': Request, now: Time) {
    && r'.identifierDigest == None && r'.ipDigest == None && r'.networkDigest == None && r'.rateKeyVersion == None
    && (r'.redactedAt == if r.identifierDigest.Some? || r.ipDigest.Some? || r.networkDigest.Some? || r.rateKeyVersion.Some?
                         then Some(now) else r.redactedAt)
  }

  lemma TerminatedColumns(r: Request, now: Time)
    ensures Ended(r, TerminatedRow(r, now), now) && Remembered(r, TerminatedRow(r, now))
  {
  }

  lemma RedactedColumns(r: Request, now: Time)
    ensures Forgotten(r, RedactedRow(r, now), now)
    ensures r.(identifierDigest := None, ipDigest := None, networkDigest := None, rateKeyVersion := None, redactedAt := None) ==
            RedactedRow(r, now).(
              identifierDigest := None, ipDigest := None, networkDigest := None, rateKeyVersion := None, redactedAt := None)
  {
  }

  ghost predicate AllEnded(before: map<Id, Request>, after: map<Id, Request>, now: Time) {
    && after.Keys == before.Keys
    && forall id :: id in before ==> Ended(before[id], after[id], now) && Remembered(before[id], after[id])
  }

  ghost predicate AllForgotten(before: map<Id, Request>, after: map<Id, Request>, now: Time) {
    && after.Keys == before.Keys
    && forall id :: id in before ==> Forgotten(before[id], after[id], now)
  }

  lemma AllTerminated(requests: map<Id, Request>, now: Time)
    ensures AllEnded(requests, map id | id in requests :: TerminatedRow(requests[id], now), now)
  {
    forall id | id in requests
      ensures Ended(requests[id], TerminatedRow(requests[id], now), now)
      ensures Remembered(requests[id], TerminatedRow(requests[id], now))
    {
      TerminatedColumns(requests[id], now);
    }
  }

  lemma AllRedacted(requests: map<Id, Request>, now: Time)
    ensures AllForgotten(requests, map id | id in requests :: RedactedRow(requests[id], now), now)
  {
    forall id | id in requests ensures Forgotten(requests[id], RedactedRow(requests[id], now), now) {
      RedactedColumns(requests[id], now);
    }
  }

  function ClearedSlot(u: User): User {
    u.(resetToken := None, resetTokenExpiry := None)
  }

  /** The control row bound to the replacement. Only an active control retires its
    * fingerprint and moves to the next generation.
    */
  function BoundControl(c: Control, fp: Fingerprint): Control {
    if c.blocked || c.active.None? then c.(blocked := false, active := Some(fp))
    else Control(false, c.generation + 1, Some(fp), c.active)
  }

  function RetiredHistory(db: Database): map<Fingerprint, nat> {
    if db.control.blocked || db.control.active.None? then db.retired
    else db.retired[db.control.active.value := db.control.generation]
  }

  function Rebound(db: Database, fp: Fingerprint, now: Time): Database {
    db.(control := BoundControl(db.control, fp),
        requests := map id | id in db.requests :: RedactedRow(TerminatedRow(db.requests[id], now), now),
        users := map id | id in db.users :: ClearedSlot(db.users[id]),
        buckets := map[],
        retired := RetiredHistory(db))
  }

  /** The table constraints that the retirement of an active secret meets: a
    * fingerprint and a generation are retired once, and the generation column has
    * a next value.
    */
  predicate CanRetire(db: Database) {
    db.control.active.Some? ==>
      && db.control.active.value !in db.retired
      && db.control.generation !in db.retired.Values
      && db.control.generation < MAX_GENERATION
  }

  /** Terminating links first does not change which rows hold request evidence. */
  lemma TerminationKeepsEvidence(requests: map<Id, Request>, now: Time)
    ensures EvidenceRows(map id | id in requests :: TerminatedRow(requests[id], now)) == EvidenceRows(requests)
  {
    var terminated := map id | id in requests :: TerminatedRow(requests[id], now);
    forall id | id in requests ensures HasEvidence(terminated[id]) <==> HasEvidence(requests[id]) {
    }
  }

  /** After a rebind nothing is left to terminate, redact, clear or delete, and the
    * notices are as they were.
    */
  lemma ReboundCounts(db: Database, fp: Fingerprint, now: Time)
    ensures CountsOf(Rebound(db, fp, now)) ==
            Counts(0, 0, 0, 0, |db.notices|, |RetiredHistory(db)|)
  {
    var after := Rebound(db, fp, now);
    assert CapableRows(after.requests) == {};
    assert EvidenceRows(after.requests) == {};
    assert SlotRows(after.users) == {};
  }
}
