/** The rebind job over its tables: one transaction of counted statements, tried
  * twice (apps/api/src/jobs/rebind-personal-server-auth-recovery-secret.ts).
  */
module Rebind {
  import opened Wrappers
  import opened RecoveryTables

  datatype Refusal =
    | InvalidExpected
    | InvalidState
    | EvidenceChanged
    | NotFresh
    | LostFence
    | ConstraintViolated
    | CountsChanged
    | PostconditionFailed
    | SerializationFailure

  datatype Mutation = Mutation(before: Evidence, after: Evidence, priorRetired: bool)

  /** The checks that stand between a transaction and its commit. */
  predicate Accepts(db: Database, expected: Evidence, fp: Fingerprint) {
    && LockedSnapshot(db) == Some(expected)
    && FreshReplacement(db, fp)
    && (expected.state == Active ==> CanRetire(db))
  }

  function AfterEvidence(before: Evidence): Evidence {
    var retires := before.state == Active;
    Evidence(Active,
             before.generation + (if retires then 1 else 0),
             Counts(0, 0, 0, 0, before.counts.securityNotices,
                    before.counts.retiredSecrets + (if retires then 1 else 0)),
             before.identity)
  }

  /** The recovery tables of one database, and the replacement secret to bind. */
  class RecoveryStore {
    var db: Database
    const replacement: Fingerprint

    constructor (db: Database, replacement: Fingerprint)
      ensures this.db == db && this.replacement == replacement
    {
      this.db := db;
      this.replacement := replacement;
    }

    // One method per statement. Each returns the number of rows it changed.

    method TerminateCapabilities(now: Time) returns (count: nat)
      modifies this
      ensures db == old(db).(requests := map id | id in old(db).requests :: TerminatedRow(old(db).requests[id], now))
      ensures AllEnded(old(db).requests, db.requests, now)
      ensures count == |CapableRows(old(db).requests)|
    {
      AllTerminated(db.requests, now);
      count := |CapableRows(db.requests)|;
      db := db.(requests := map id | id in db.requests :: TerminatedRow(db.requests[id], now));
    }

    method RedactEvidence(now: Time) returns (count: nat)
      modifies this
      ensures db == old(db).(requests := map id | id in old(db).requests :: RedactedRow(old(db).requests[id], now))
      ensures AllForgotten(old(db).requests, db.requests, now)
      ensures count == |EvidenceRows(old(db).requests)|
    {
      AllRedacted(db.requests, now);
      count := |EvidenceRows(db.requests)|;
      db := db.(requests := map id | id in db.requests :: RedactedRow(db.requests[id], now));
    }

    method ClearLegacySlots() returns (count: nat)
      modifies this
      ensures db == old(db).(users := map id | id in old(db).users :: ClearedSlot(old(db).users[id]))
      ensures count == |SlotRows(old(db).users)|
    {
      count := |SlotRows(db.users)|;
      var users := db.users;
      db := db.(users := map id | id in users :: if HasSlot(users[id]) then ClearedSlot(users[id]) else users[id]);
      assert db.users == map id | id in users :: ClearedSlot(users[id]);
    }

    method DeleteRateBuckets() returns (count: nat)
      modifies this
      ensures db == old(db).(buckets := map[]) && count == |old(db).buckets|
    {
      count := |db.buckets|;
      db := db.(buckets := map[]);
    }

    /** The fence of both retirement statements. SQL equality with NULL is no match. */
    predicate Fenced(generation: nat, active: Option<Fingerprint>)
      reads this
    {
      !db.control.blocked && db.control.generation == generation && active.Some? && db.control.active == active
    }

    method RetireActive(generation: nat, active: Option<Fingerprint>) returns (r: Result<nat, Refusal>)
      modifies this
      ensures !old(Fenced(generation, active)) ==> r == Success(0) && db == old(db)
      ensures old(Fenced(generation, active)) ==>
                if active.value in old(db).retired || generation in old(db).retired.Values
                then r == Failure(ConstraintViolated) && db == old(db)
                else r == Success(1) && db == old(db).(retired := old(db).retired[active.value := generation])
    {
      if !Fenced(generation, active) {
        return Success(0);
      }
      if active.value in db.retired || generation in db.retired.Values {
        return Failure(ConstraintViolated);
      }
      db := db.(retired := db.retired[active.value := generation]);
      return Success(1);
    }

    method BlockControl(generation: nat, active: Option<Fingerprint>) returns (r: Result<nat, Refusal>)
      modifies this
      ensures !old(Fenced(generation, active)) ==> r == Success(0) && db == old(db)
      ensures old(Fenced(generation, active)) ==>
                if generation >= MAX_GENERATION
                then r == Failure(ConstraintViolated) && db == old(db)
                else r == Success(1) && db == old(db).(control := Control(true, generation + 1, None, active))
    {
      if !Fenced(generation, active) {
        return Success(0);
      }
      if generation >= MAX_GENERATION {
        return Failure(ConstraintViolated);
      }
      db := db.(control := Control(true, generation + 1, None, active));
      return Success(1);
    }

    method ActivateUnbound() returns (count: nat)
      modifies this
      ensures var c := old(db).control;
              var matches := !c.blocked && c.generation == 1 && c.active.None? && c.retired.None?;
              && count == (if matches then 1 else 0)
              && db == if matches then old(db).(control := c.(active := Some(replacement))) else old(db)
    {
      var c := db.control;
      if c.blocked || c.generation != 1 || c.active.Some? || c.retired.Some? {
        return 0;
      }
      db := db.(control := c.(active := Some(replacement)));
      return 1;
    }

    method ActivateBlocked(generation: nat) returns (count: nat)
      modifies this
      ensures var c := old(db).control;
              var matches := c.blocked && c.generation == generation && c.active.None? && c.retired != Some(replacement);
              && count == (if matches then 1 else 0)
              && db == if matches then old(db).(control := c.(blocked := false, active := Some(replacement))) else old(db)
    {
      var c := db.control;
      if !c.blocked || c.generation != generation || c.active.Some? || c.retired == Some(replacement) {
        return 0;
      }
      db := db.(control := c.(blocked := false, active := Some(replacement)));
      return 1;
    }

    /** Retires the active fingerprint and blocks the control, both under one fence. */
    method RetireAndBlock(generation: nat, active: Option<Fingerprint>) returns (r: Result<(), Refusal>)
      modifies this
      ensures r.Success? <==>
              && !old(db).control.blocked && old(db).control.generation == generation
              && active.Some? && old(db).control.active == active
              && active.value !in old(db).retired && generation !in old(db).retired.Values && generation < 2147483647
      ensures r.Success? ==>
                db == old(db).(retired := old(db).retired[active.value := generation],
                               control := Control(true, generation + 1, None, active))
    {
      var retired := RetireActive(generation, active);
      if retired.Failure? {
        return Failure(retired.error);
      }
      var blocked := BlockControl(generation, active);
      if blocked.Failure? {
        return Failure(blocked.error);
      }
      if retired.value != 1 || blocked.value != 1 {
        return Failure(LostFence);
      }
      return Success(());
    }

    /** Ends every link, forgets every requester and empties the slots and the buckets. */
    method Invalidate(now: Time) returns (terminated: nat, redacted: nat, cleared: nat, deleted: nat)
      modifies this
      ensures db == old(db).(
                requests := map id | id in old(db).requests :: RedactedRow(TerminatedRow(old(db).requests[id], now), now),
                users := map id | id in old(db).users :: ClearedSlot(old(db).users[id]),
                buckets := map[])
      ensures terminated == |CapableRows(old(db).requests)| && redacted == |EvidenceRows(old(db).requests)|
      ensures cleared == |SlotRows(old(db).users)| && deleted == |old(db).buckets|
    {
      TerminationKeepsEvidence(db.requests, now);
      terminated := TerminateCapabilities(now);
      redacted := RedactEvidence(now);
      cleared := ClearLegacySlots();
      deleted := DeleteRateBuckets();
    }

    /** Retires an active secret and binds the replacement. */
    method Bind(state: ControlState, generation: nat, active: Option<Fingerprint>) returns (r: Result<nat, Refusal>)
      requires ControlStateOf(db.control) == Some(state) && FreshReplacement(db, replacement)
      requires db.control.generation == generation && db.control.active == active
      modifies this
      ensures r.Success? <==> (state == Active ==> CanRetire(old(db)))
      ensures r.Success? ==>
                && r.value == 1
                && db == old(db).(control := BoundControl(old(db).control, replacement), retired := RetiredHistory(old(db)))
    {
      if state == Active {
        var fenced := RetireAndBlock(generation, active);
        if fenced.Failure? {
          return Failure(fenced.error);
        }
      }
      var finalGeneration := generation + (if state == Active then 1 else 0);
      var activated: nat;
      if state == Unbound {
        activated := ActivateUnbound();
      } else {
        activated := ActivateBlocked(finalGeneration);
      }
      return Success(activated);
    }

    /** The body of the transaction. On a failure the tables are left wherever the
      * statements got to: rolling back is the caller's.
      */
    method Statements(expected: Evidence, now: Time) returns (r: Result<Mutation, Refusal>)
      modifies this
      ensures r.Success? <==> Accepts(old(db), expected, replacement)
      ensures r.Success? ==>
                && db == Rebound(old(db), replacement, now)
                && r.value == Mutation(expected, AfterEvidence(expected), expected.state == Active)
    {
      var snapshot := LockedSnapshot(db);
      if snapshot == None {
        return Failure(InvalidState);
      }
      var before := snapshot.value;
      var control := db.control;
      if before != expected {
        return Failure(EvidenceChanged);
      }
      if !FreshReplacement(db, replacement) {
        return Failure(NotFresh);
      }
      ghost var db0 := db;
      ReboundCounts(db, replacement, now);
      var terminated, redacted, cleared, deleted := Invalidate(now);
      var activated := Bind(before.state, before.generation, control.active);
      if activated.Failure? {
        return Failure(activated.error);
      }
      if terminated != before.counts.capabilities || redacted != before.counts.requestEvidenceRows ||
         cleared != before.counts.legacySlots || deleted != before.counts.rateBuckets || activated.value != 1
      {
        return Failure(CountsChanged);
      }
      assert db == Rebound(db0, replacement, now);
      var after := LockedSnapshot(db);
      if after == None || after.value != AfterEvidence(before) || db.control.active != Some(replacement) {
        return Failure(PostconditionFailed);
      }
      return Success(Mutation(before, after.value, before.state == Active));
    }

    /** One serializable transaction: everything or nothing. */
    method Transaction(expected: Evidence, now: Time) returns (r: Result<Mutation, Refusal>)
      modifies this
      ensures r.Success? <==> Accepts(old(db), expected, replacement)
      ensures r.Failure? ==> db == old(db)
      ensures r.Success? ==>
                && db == Rebound(old(db), replacement, now)
                && r.value == Mutation(expected, AfterEvidence(expected), expected.state == Active)
    {
      var savepoint := db;
      r := Statements(expected, now);
      if r.Failure? {
        db := savepoint;
      }
    }

    /** The dry run reads and rolls nothing forward. */
    method Inspect() returns (r: Option<Evidence>)
      ensures r == RecoveryTables.Inspect(db, replacement)
    {
      r := LockedSnapshot(db);
      if r.Some? && !FreshReplacement(db, replacement) {
        return None;
      }
    }

    /** At most two transactions. The database refuses attempt `i` with a
      * serialization conflict when `conflicts(i)` holds; a conflict means other
      * writers committed, and they left the tables as `between`.
      */
    method Rebind(expected: Evidence, now: Time, conflicts: nat -> bool, between: Database)
      returns (r: Result<Mutation, Refusal>)
      modifies this
      ensures !ValidEvidence(expected) ==> r.Failure? && db == old(db)
      ensures ValidEvidence(expected) && conflicts(0) && conflicts(1) ==>
                r == Failure(SerializationFailure) && db == between
      ensures ValidEvidence(expected) && !(conflicts(0) && conflicts(1)) ==>
                var found := if conflicts(0) then between else old(db);
                && (r.Success? <==> Accepts(found, expected, replacement))
                && db == (if r.Success? then Rebound(found, replacement, now) else found)
                && (r.Success? ==> r.value == Mutation(expected, AfterEvidence(expected), expected.state == Active))
    {
      if !ValidEvidence(expected) {
        return Failure(InvalidExpected);
      }
      var attempt := 0;
      while attempt < 2
        invariant attempt <= 2
        invariant attempt == 0 ==> db == old(db)
        invariant attempt >= 1 ==> conflicts(0) && db == between
        invariant attempt == 2 ==> false
      {
        if conflicts(attempt) {
          if attempt == 1 {
            return Failure(SerializationFailure);
          }
          db := between;
        } else {
          r := Transaction(expected, now);
          return;
        }
        attempt := attempt + 1;
      }
      return Failure(SerializationFailure);
    }
  }

  /** The command line's own check of what the store reported. */
  predicate RunnerAccepts(expected: Evidence, m: Mutation) {
    && ValidEvidence(m.before) && ValidEvidence(m.after) && m.before == expected
    && m.after.state == Active
    && m.after.generation == expected.generation + (if expected.state == Active then 1 else 0)
    && m.after.identity == expected.identity
    && Invalidated(m.after.counts)
    && m.after.counts.securityNotices == expected.counts.securityNotices
    && m.after.counts.retiredSecrets == expected.counts.retiredSecrets + (if expected.state == Active then 1 else 0)
    && m.priorRetired == (expected.state == Active)
  }

  /** A committed rebind is never reported as a failure by the second check. */
  lemma RunnerNeverRejects(db: Database, expected: Evidence, fp: Fingerprint)
    requires Accepts(db, expected, fp)
    ensures RunnerAccepts(expected, Mutation(expected, AfterEvidence(expected), expected.state == Active))
  {
    if expected.state == Active {
      assert expected.generation < MAX_GENERATION;
    }
  }
}
