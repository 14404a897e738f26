/** Runs of rebinds, interleaved with whatever sign-in traffic the API produced
  * between them.
  */
module RebindRuns {
  import opened Wrappers
  import opened RecoveryTables
  import opened Rebind

  /** The control row and the retired history agree. */
  ghost predicate WellFormed(db: Database) {
    && ControlStateOf(db.control).Some?
    && 1 <= db.control.generation <= MAX_GENERATION
    && |db.retired| == db.control.generation - 1
    && (forall fp :: fp in db.retired ==> db.retired[fp] < db.control.generation)
    && (db.control.active.Some? ==> db.control.active.value !in db.retired)
    && (db.control.retired.Some? ==> db.control.retired.value in db.retired)
  }

  datatype Step =
    | Attempt(expected: Evidence, replacement: Fingerprint, now: Time)
    | Traffic(requests: map<Id, Request>, users: map<Id, User>, buckets: map<Id, nat>, notices: map<Id, nat>)

  predicate Commits(db: Database, step: Step) {
    step.Attempt? && ValidEvidence(step.expected) && Accepts(db, step.expected, step.replacement)
  }

  function Next(db: Database, step: Step): Database {
    match step
    case Attempt(expected, replacement, now) => if Commits(db, step) then Rebound(db, replacement, now) else db
    case Traffic(requests, users, buckets, notices) =>
      db.(requests := requests, users := users, buckets := buckets, notices := notices)
  }

  function After(db: Database, steps: seq<Step>): Database
    decreases |steps|
  {
    if steps == [] then db else After(Next(db, steps[0]), steps[1..])
  }

  /** Generation first, then control state: unbound and blocked before active. */
  function Rank(db: Database): nat {
    2 * db.control.generation + if db.control.active.Some? then 1 else 0
  }

  /** Every fingerprint the control has ever been bound to. */
  function Used(db: Database): set<Fingerprint> {
    db.retired.Keys + if db.control.active.Some? then {db.control.active.value} else {}
  }

  /** The only thing that can stop a rebind of freshly inspected evidence, when no
    * writer intervenes, is an active control at the last generation the column holds.
    */
  lemma InspectedRebindCommitsIff(db: Database, fp: Fingerprint)
    requires WellFormed(db) && Inspect(db, fp).Some?
    ensures var e := Inspect(db, fp).value;
            Accepts(db, e, fp) <==> !(e.state == Active && e.generation == MAX_GENERATION)
  {
    GenerationNotRetired(db);
  }

  lemma GenerationNotRetired(db: Database)
    requires WellFormed(db)
    ensures db.control.generation !in db.retired.Values
  {
  }

  lemma OneMoreRetired(retired: map<Fingerprint, nat>, fp: Fingerprint, generation: nat)
    requires fp !in retired
    ensures |retired[fp := generation]| == |retired| + 1
  {
    assert retired[fp := generation].Keys == retired.Keys + {fp};
  }

  lemma HistoryKeys(db: Database)
    requires ControlStateOf(db.control).Some?
    ensures RetiredHistory(db).Keys == Used(db)
  {
  }

  /** The retired history after a rebind. */
  lemma HistoryAfter(db: Database)
    requires WellFormed(db) && CanRetire(db)
    ensures var h := RetiredHistory(db);
            && |h| == (if db.control.active.Some? then |db.retired| + 1 else |db.retired|)
            && h.Keys == Used(db)
            && (forall fp | fp in db.retired :: fp in h && h[fp] == db.retired[fp])
            && (forall fp | fp in h :: h[fp] <= db.control.generation)
            && (db.control.active.None? ==> h == db.retired)
  {
    HistoryKeys(db);
    if db.control.active.Some? {
      OneMoreRetired(db.retired, db.control.active.value, db.control.generation);
    }
  }

  lemma ReboundIsWellFormed(db: Database, fp: Fingerprint, now: Time)
    requires WellFormed(db) && FreshReplacement(db, fp) && CanRetire(db)
    ensures WellFormed(Rebound(db, fp, now))
  {
    HistoryAfter(db);
    var after := Rebound(db, fp, now);
    assert after.retired == RetiredHistory(db);
    assert after.control == BoundControl(db.control, fp);
  }

  lemma ReboundUses(db: Database, fp: Fingerprint, now: Time)
    requires RetiredHistory(db).Keys == Used(db)
    ensures Used(Rebound(db, fp, now)) == Used(db) + {fp}
  {
    assert Rebound(db, fp, now).control.active == Some(fp);
  }

  lemma ReboundRises(db: Database, fp: Fingerprint, now: Time)
    requires ControlStateOf(db.control).Some? && FreshReplacement(db, fp)
    ensures Rank(db) < Rank(Rebound(db, fp, now)) && ControlStateOf(Rebound(db, fp, now).control) == Some(Active)
  {
    assert Rebound(db, fp, now).control == BoundControl(db.control, fp);
  }

  lemma BoundFacts(db: Database, fp: Fingerprint, now: Time)
    requires WellFormed(db) && FreshReplacement(db, fp) && CanRetire(db)
    ensures var after := Rebound(db, fp, now);
            && WellFormed(after)
            && Used(after) == Used(db) + {fp}
            && Rank(db) < Rank(after)
            && ControlStateOf(after.control) == Some(Active)
  {
    ReboundIsWellFormed(db, fp, now);
    HistoryAfter(db);
    ReboundUses(db, fp, now);
    ReboundRises(db, fp, now);
  }

  lemma CommitConditions(db: Database, step: Step)
    requires WellFormed(db) && Commits(db, step)
    ensures FreshReplacement(db, step.replacement) && CanRetire(db)
    ensures ControlStateOf(db.control) == Some(step.expected.state)
  {
  }

  /** A committed rebind: a new fingerprint, the old one in the history, a larger rank. */
  lemma CommitFacts(db: Database, step: Step)
    requires WellFormed(db) && Commits(db, step)
    ensures var after := Next(db, step);
            && WellFormed(after)
            && step.replacement !in Used(db)
            && Used(after) == Used(db) + {step.replacement}
            && Rank(db) < Rank(after)
            && (forall fp | fp in db.retired :: fp in after.retired && after.retired[fp] == db.retired[fp])
            && ControlStateOf(after.control) == Some(Active)
  {
    CommitConditions(db, step);
    HistoryAfter(db);
    BoundFacts(db, step.replacement, step.now);
  }

  /** One step of any kind. */
  lemma StepFacts(db: Database, step: Step)
    requires WellFormed(db)
    ensures var after := Next(db, step);
            && WellFormed(after)
            && Used(db) <= Used(after)
            && Rank(db) <= Rank(after)
            && (Commits(db, step) ==> Rank(db) < Rank(after))
            && (forall fp | fp in db.retired :: fp in after.retired && after.retired[fp] == db.retired[fp])
  {
    if Commits(db, step) {
      CommitFacts(db, step);
    }
  }

  /** Over any run the retired history only grows, has one entry for each finished
    * generation, and never contains the active fingerprint.
    */
  lemma {:induction false} HistoryOnlyGrows(db: Database, steps: seq<Step>)
    requires WellFormed(db)
    ensures var after := After(db, steps);
            && WellFormed(after)
            && |after.retired| == after.control.generation - 1
            && (after.control.active.Some? ==> after.control.active.value !in after.retired)
            && (forall fp | fp in db.retired :: fp in after.retired && after.retired[fp] == db.retired[fp])
            && Used(db) <= Used(after) && Rank(db) <= Rank(after)
    decreases |steps|
  {
    if steps != [] {
      StepFacts(db, steps[0]);
      HistoryOnlyGrows(Next(db, steps[0]), steps[1..]);
    }
  }

  lemma {:induction false} AfterConcat(db: Database, a: seq<Step>, b: seq<Step>)
    ensures After(db, a + b) == After(After(db, a), b)
    decreases |a|
  {
    if a == [] {
      assert a + b == b;
    } else {
      assert (a + b)[0] == a[0] && (a + b)[1..] == a[1..] + b;
      AfterConcat(Next(db, a[0]), a[1..], b);
    }
  }

  /** Reviewed evidence is accepted at most once, and no secret is bound twice, over
    * any run and whatever the traffic between the attempts.
    */
  lemma AcceptedOnce(db: Database, steps: seq<Step>, i: nat, j: nat)
    requires WellFormed(db) && i < j < |steps|
    requires Commits(After(db, steps[..i]), steps[i]) && Commits(After(db, steps[..j]), steps[j])
    ensures steps[i].expected != steps[j].expected
    ensures steps[i].replacement != steps[j].replacement
  {
    var before := After(db, steps[..i]);
    var mid := Next(before, steps[i]);
    var later := After(db, steps[..j]);
    HistoryOnlyGrows(db, steps[..i]);
    CommitFacts(before, steps[i]);
    AfterSplit(db, steps, i, j);
    HistoryOnlyGrows(mid, steps[i + 1..j]);
    CommitFacts(later, steps[j]);
    assert Rank(before) < Rank(later);
    RankOfEvidence(before, steps[i]);
    RankOfEvidence(later, steps[j]);
  }

  /** The evidence of a committed rebind determines the rank it started from. */
  lemma RankOfEvidence(db: Database, step: Step)
    requires Commits(db, step)
    ensures Rank(db) == 2 * step.expected.generation + if step.expected.state == Active then 1 else 0
  {
  }

  lemma AfterSplit(db: Database, steps: seq<Step>, i: nat, j: nat)
    requires i < j <= |steps|
    ensures After(db, steps[..j]) == After(Next(After(db, steps[..i]), steps[i]), steps[i + 1..j])
  {
    var rest := steps[i..j];
    assert steps[..j] == steps[..i] + rest;
    AfterConcat(db, steps[..i], rest);
    assert rest[0] == steps[i] && rest[1..] == steps[i + 1..j];
  }

  /** What a rebind leaves alone: every row still exists, columns outside the
    * statements keep their values, a link terminated earlier keeps its reason, and
    * suppressed requests are never terminated.
    */
  lemma ReboundConserves(db: Database, fp: Fingerprint, now: Time)
    ensures var after := Rebound(db, fp, now);
            && after.requests.Keys == db.requests.Keys && after.users.Keys == db.users.Keys
            && after.notices == db.notices && after.identity == db.identity
            && (forall id | id in db.requests ::
                  var (r, r') := (db.requests[id], after.requests[id]);
                  && r'.rest == r.rest
                  && !Capable(r') && !HasEvidence(r')
                  && (!Capable(r) ==> r'.terminationReason == r.terminationReason && r'.deliveryState == r.deliveryState)
                  && (Capable(r) ==> r'.terminationReason == Some(KeyRotated) && r'.deliveryState != Sending)
                  && (r.deliveryState == Suppressed ==> r'.terminatedAt == r.terminatedAt))
            && (forall id | id in db.users :: after.users[id].rest == db.users[id].rest && !HasSlot(after.users[id]))
  {
  }

  // ---- The last generation is reached ------------------------------------------------------

  /** The secrets 1 to `n - 1`, each retired at the generation of its own number. */
  function History(n: nat): map<Fingerprint, nat> {
    if n <= 1 then map[] else History(n - 1)[n - 1 := n - 1]
  }

  lemma {:induction false} HistoryHolds(n: nat)
    ensures IsHistory(History(n), n)
  {
    if n > 1 {
      HistoryHolds(n - 1);
    }
  }

  ghost predicate IsHistory(h: map<Fingerprint, nat>, n: nat) {
    && |h| == (if n == 0 then 0 else n - 1)
    && (forall fp :: fp in h <==> 1 <= fp < n)
    && (forall fp :: fp in h ==> h[fp] == fp)
  }

  /** An otherwise empty database that has been bound to the secrets 1 to `n` in turn. */
  function Bound(n: nat, history: map<Fingerprint, nat>): Database {
    var control :=
      if n == 0 then Control(false, 1, None, None)
      else Control(false, n, Some(n), if n == 1 then None else Some(n - 1));
    Database(control, map[], map[], map[], map[], history, 0)
  }

  function EvidenceOf(n: nat): Evidence {
    if n == 0 then Evidence(Unbound, 1, Counts(0, 0, 0, 0, 0, 0), 0)
    else Evidence(Active, n, Counts(0, 0, 0, 0, 0, n - 1), 0)
  }

  lemma BoundIsWellFormed(n: nat, h: map<Fingerprint, nat>)
    requires n <= MAX_GENERATION && IsHistory(h, n)
    ensures WellFormed(Bound(n, h)) && FreshReplacement(Bound(n, h), n + 1)
  {
  }

  lemma BoundCounts(n: nat, h: map<Fingerprint, nat>)
    requires IsHistory(h, n)
    ensures CountsOf(Bound(n, h)) == EvidenceOf(n).counts
  {
    var db := Bound(n, h);
    assert CapableRows(db.requests) == {} && EvidenceRows(db.requests) == {} && SlotRows(db.users) == {};
  }

  lemma BoundInspects(n: nat, h: map<Fingerprint, nat>)
    requires n <= MAX_GENERATION && IsHistory(h, n)
    ensures WellFormed(Bound(n, h)) && Inspect(Bound(n, h), n + 1) == Some(EvidenceOf(n))
  {
    BoundIsWellFormed(n, h);
    BoundCounts(n, h);
  }

  function Again(n: nat): Step {
    Attempt(EvidenceOf(n), n + 1, 0)
  }

  lemma InspectedCommits(db: Database, e: Evidence, fp: Fingerprint, now: Time)
    requires WellFormed(db) && Inspect(db, fp) == Some(e) && !(e.state == Active && e.generation == MAX_GENERATION)
    ensures Commits(db, Attempt(e, fp, now)) && Next(db, Attempt(e, fp, now)) == Rebound(db, fp, now)
  {
    InspectedRebindCommitsIff(db, fp);
  }

  lemma NotTheLast(n: nat)
    requires n < MAX_GENERATION
    ensures !(EvidenceOf(n).state == Active && EvidenceOf(n).generation == MAX_GENERATION)
  {
  }

  lemma AgainCommits(db: Database, n: nat)
    requires n < MAX_GENERATION && WellFormed(db) && Inspect(db, n + 1) == Some(EvidenceOf(n))
    ensures Next(db, Again(n)) == Rebound(db, n + 1, 0)
  {
    NotTheLast(n);
    InspectedCommits(db, EvidenceOf(n), n + 1, 0);
  }

  lemma BoundAgain(n: nat, h: map<Fingerprint, nat>)
    requires n < MAX_GENERATION && IsHistory(h, n)
    ensures Next(Bound(n, h), Again(n)) == Bound(n + 1, if n == 0 then h else h[n := n])
  {
    BoundInspects(n, h);
    AgainCommits(Bound(n, h), n);
    ReboundIsBound(n, h);
  }

  lemma ReboundIsBound(n: nat, h: map<Fingerprint, nat>)
    ensures Rebound(Bound(n, h), n + 1, 0) == Bound(n + 1, if n == 0 then h else h[n := n])
  {
    var (a, b) := (Rebound(Bound(n, h), n + 1, 0), Bound(n + 1, if n == 0 then h else h[n := n]));
    assert a.control == b.control && a.retired == b.retired;
    assert a.requests == map[] && a.users == map[];
  }

  /** Binding to the secrets 1 to `n`, each time with the evidence inspected just before. */
  function Rebinds(n: nat): seq<Step> {
    if n == 0 then [] else Rebinds(n - 1) + [Again(n - 1)]
  }

  lemma AfterOneMore(db: Database, steps: seq<Step>, step: Step, mid: Database, next: Database)
    requires After(db, steps) == mid && Next(mid, step) == next
    ensures After(db, steps + [step]) == next
  {
    AfterConcat(db, steps, [step]);
    assert [step][1..] == [];
  }

  ghost predicate Binds(n: nat) {
    After(Bound(0, map[]), Rebinds(n)) == Bound(n, History(n))
  }

  lemma OnceMore(n: nat)
    requires n < MAX_GENERATION && Binds(n)
    ensures Binds(n + 1)
  {
    BoundOnce(n);
    AfterOneMore(Bound(0, map[]), Rebinds(n), Again(n), Bound(n, History(n)), Bound(n + 1, History(n + 1)));
    assert Rebinds(n + 1) == Rebinds(n) + [Again(n)];
  }

  lemma {:induction false} RebindsBind(n: nat)
    requires n <= MAX_GENERATION
    ensures Binds(n)
  {
    if n > 0 {
      RebindsBind(n - 1);
      OnceMore(n - 1);
    } else {
      assert History(0) == map[];
    }
  }

  lemma BoundOnce(n: nat)
    requires n < MAX_GENERATION
    ensures Next(Bound(n, History(n)), Again(n)) == Bound(n + 1, History(n + 1))
  {
    HistoryHolds(n);
    BoundAgain(n, History(n));
  }

  /** A database that nothing but accepted rebinds has touched can be inspected at the
    * last generation, and the rebind it was inspected for is refused.
    */
  lemma LastGenerationIsRefused()
    ensures var db := After(Bound(0, map[]), Rebinds(MAX_GENERATION));
            && WellFormed(db) && Inspect(db, MAX_GENERATION + 1) == Some(EvidenceOf(MAX_GENERATION))
            && !Accepts(db, EvidenceOf(MAX_GENERATION), MAX_GENERATION + 1)
  {
    RebindsBind(MAX_GENERATION);
    HistoryHolds(MAX_GENERATION);
    RefusedAtLast(History(MAX_GENERATION));
  }

  lemma RefusedAtLast(h: map<Fingerprint, nat>)
    requires IsHistory(h, MAX_GENERATION)
    ensures var db := Bound(MAX_GENERATION, h);
            && WellFormed(db) && Inspect(db, MAX_GENERATION + 1) == Some(EvidenceOf(MAX_GENERATION))
            && !Accepts(db, EvidenceOf(MAX_GENERATION), MAX_GENERATION + 1)
  {
    BoundInspects(MAX_GENERATION, h);
    InspectedRebindCommitsIff(Bound(MAX_GENERATION, h), MAX_GENERATION + 1);
  }
}
