/** What a committed rebind leaves in each column, what is counted before it, and when
  * it is refused, in terms of the rows themselves.
  */
module RebindColumns {
  import opened Wrappers
  import opened RecoveryTables
  import opened Rebind

  /** Every request after a committed rebind, column by column. */
  lemma RequestColumns(db: Database, fp: Fingerprint, now: Time)
    ensures var after := Rebound(db, fp, now);
            && after.requests.Keys == db.requests.Keys
            && (forall id :: id in db.requests ==> Ended(db.requests[id], after.requests[id], now))
            && (forall id :: id in db.requests ==> Forgotten(db.requests[id], after.requests[id], now))
  {
    forall id | id in db.requests
      ensures Ended(db.requests[id], Rebound(db, fp, now).requests[id], now)
      ensures Forgotten(db.requests[id], Rebound(db, fp, now).requests[id], now)
    {
      var r := db.requests[id];
      TerminatedColumns(r, now);
      RedactedColumns(TerminatedRow(r, now), now);
    }
  }

  /** The other tables after a committed rebind. */
  lemma OtherTables(db: Database, fp: Fingerprint, now: Time)
    ensures var after := Rebound(db, fp, now);
            && after.users.Keys == db.users.Keys
            && (forall id :: id in db.users ==> after.users[id] == User(None, None, db.users[id].rest))
            && after.buckets == map[] && after.notices == db.notices && after.identity == db.identity
  {
  }

  /** The control row and the history after a committed rebind: the replacement is bound,
    * and a secret that was in use, and no other, is retired at its generation.
    */
  lemma ControlColumns(db: Database, fp: Fingerprint, now: Time)
    requires Lawful(db.control)
    ensures var (c, after) := (db.control, Rebound(db, fp, now));
            && after.control == Control(false, if c.active.Some? then c.generation + 1 else c.generation, Some(fp),
                                        if c.active.Some? then c.active else c.retired)
            && (forall f :: f in after.retired <==> f in db.retired || c.active == Some(f))
            && (forall f :: f in after.retired ==>
                  after.retired[f] == if c.active == Some(f) then c.generation else db.retired[f])
  {
  }

  // ---- What is counted, and what is refused -------------------------------------------------

  /** The table's constraints on the control row: never used, blocked, or in use with a
    * secret that is not the last retired one.
    */
  predicate Lawful(c: Control) {
    || (c.generation == 1 && !c.blocked && c.active == None && c.retired == None)
    || (c.blocked && c.active == None && c.retired.Some?)
    || (!c.blocked && c.active.Some? && c.active != c.retired)
  }

  /** A control row has a named state exactly when the table admits it. */
  lemma NamedStateIff(c: Control)
    ensures ControlStateOf(c).Some? <==> Lawful(c)
    ensures Lawful(c) ==>
              ControlStateOf(c) == Some(if c.blocked then Blocked else if c.active.Some? then Active else Unbound)
  {
  }

  /** The evidence counts the links that could still be used, the requests of which it is
    * still known who made them, the users with a reset slot of the old kind, and the rows of
    * three tables.
    */
  lemma CountsExact(db: Database, usable: set<Id>, known: set<Id>, slots: set<Id>)
    requires forall id :: id in usable <==>
               id in db.requests && db.requests[id].deliveryState != Suppressed && db.requests[id].terminatedAt.None?
    requires forall id :: id in known <==>
               id in db.requests && (db.requests[id].identifierDigest.Some? || db.requests[id].ipDigest.Some?
                                     || db.requests[id].networkDigest.Some? || db.requests[id].rateKeyVersion.Some?)
    requires forall id :: id in slots <==>
               id in db.users && (db.users[id].resetToken.Some? || db.users[id].resetTokenExpiry.Some?)
    ensures CountsOf(db) == Counts(|usable|, |known|, |slots|, |db.buckets|, |db.notices|, |db.retired|)
  {
    assert usable == CapableRows(db.requests);
    assert known == EvidenceRows(db.requests);
    assert slots == SlotRows(db.users);
  }

  predicate Countable(n: nat) {
    n <= 9007199254740991
  }

  /** Evidence is valid exactly when every number is a safe integer, as many secrets were
    * retired as generations went by, and a blocked control has nothing left to end.
    */
  lemma ValidEvidenceIff(e: Evidence)
    ensures ValidEvidence(e) <==>
            && 1 <= e.generation && Countable(e.generation)
            && Countable(e.counts.capabilities) && Countable(e.counts.requestEvidenceRows)
            && Countable(e.counts.legacySlots) && Countable(e.counts.rateBuckets) && Countable(e.counts.securityNotices)
            && e.counts.retiredSecrets == e.generation - 1
            && (e.state == Unbound ==> e.generation == 1)
            && (e.state == Blocked ==> e.counts.capabilities == 0 && e.counts.requestEvidenceRows == 0
                                       && e.counts.legacySlots == 0 && e.counts.rateBuckets == 0)
  {
  }

  /** The dry run answers exactly on a lawful control with valid evidence and for a secret
    * that was never used, and what it answers is what there is.
    */
  lemma InspectExact(db: Database, fp: Fingerprint, e: Evidence)
    ensures Inspect(db, fp) == Some(e) <==>
            && Lawful(db.control) && ValidEvidence(e)
            && e.counts == CountsOf(db) && e.generation == db.control.generation && e.identity == db.identity
            && e.state == (if db.control.blocked then Blocked else if db.control.active.Some? then Active else Unbound)
            && db.control.active != Some(fp) && db.control.retired != Some(fp) && fp !in db.retired
  {
    NamedStateIff(db.control);
  }

  /** A transaction commits exactly on the evidence the dry run would print, and, where a
    * secret is in use, if that one can be retired at the generation of the control and
    * there is a next one.
    */
  lemma AcceptsIff(db: Database, e: Evidence, fp: Fingerprint)
    ensures Accepts(db, e, fp) <==>
            && Inspect(db, fp) == Some(e)
            && (e.state == Active ==> db.control.active.Some?
                                      && db.control.active.value !in db.retired
                                      && db.control.generation !in db.retired.Values
                                      && db.control.generation < 2147483647)
  {
    NamedStateIff(db.control);
  }
}
