/** Recovering a deletion of a stored document that has been given up
  * (apps/api/src/jobs/recover-document-storage-deletion.ts).
  */
module DocumentRecovery {
  import opened Phrases
  import opened Text
  import opened Wrappers

  datatype Provider = Supabase | OtherProvider

  /** A dead letter of one organisation. */
  datatype Deletion = Deletion(
    organisation: seq<Unit>, provider: Provider, attempts: nat, reason: Option<TerminalReason>, dead: bool)

  datatype Reviewed = Reviewed(attempts: nat, reason: TerminalReason, authority: Digest, path: Option<Digest>)

  /** `path` is the digest of the corrected path, where one is given. */
  datatype Request = Request(
    organisation: seq<Unit>, deletion: seq<Unit>, disposition: Disposition, path: Option<Digest>)

  datatype Command = DryRun(request: Request) | Execute(request: Request, reviewed: Reviewed, confirmation: seq<Unit>)

  datatype Refusal =
    | NotCanonical | AuthorityChanged | PathChanged | NotFound | PathUnsupported | EvidenceChanged | WrongConfirmation

  datatype Outcome = Previewed(evidence: Reviewed, phrase: seq<Unit>) | HandedOn(deletion: seq<Unit>)

  predicate IsIdCharacter(u: Unit) {
    0x30 <= u <= 0x39 || 0x41 <= u <= 0x5A || 0x61 <= u <= 0x7A || u == 0x5F || u == 0x2D
  }

  predicate IsIdentifier(s: seq<Unit>) {
    1 <= |s| <= 200 && forall i :: 0 <= i < |s| ==> IsIdCharacter(s[i])
  }

  lemma IdentifierIsWord(s: seq<Unit>)
    requires IsIdentifier(s)
    ensures IsWord(s)
  {
  }

  /** `assertPlatformRecoveryCommand`: a path is given for a corrected path only. */
  predicate IsCanonical(r: Request) {
    IsIdentifier(r.organisation) && IsIdentifier(r.deletion) && (r.disposition.RequeueCorrectedPath? <==> r.path.Some?)
  }

  function RecoveryOf(r: Request, attempts: nat, reason: TerminalReason, authority: Digest): Recovery {
    Recovery(r.organisation, r.deletion, r.disposition, attempts, reason, authority, r.path)
  }

  /** The job: what it answers to a command, with the dead letters and the authority of
    * the database as they are now. It writes nothing itself; an execution that is let
    * through is handed on to the document service.
    */
  method Run(deletions: map<seq<Unit>, Deletion>, authority: Digest, command: Command)
    returns (r: Result<Outcome, Refusal>)
    ensures r == Answer(deletions, authority, command)
  {
    var q := command.request;
    if !IsCanonical(q) {
      return Failure(NotCanonical);
    }
    if command.Execute? {
      if command.reviewed.authority != authority {
        return Failure(AuthorityChanged);
      }
      if q.disposition.RequeueCorrectedPath? && command.reviewed.path != q.path {
        return Failure(PathChanged);
      }
    }
    if q.deletion !in deletions {
      return Failure(NotFound);
    }
    var d := deletions[q.deletion];
    if d.organisation != q.organisation || !d.dead || d.reason.None? {
      return Failure(NotFound);
    }
    if q.disposition.RequeueCorrectedPath? && !d.provider.Supabase? {
      return Failure(PathUnsupported);
    }
    var phrase := RecoveryPhrase(RecoveryOf(q, d.attempts, d.reason.value, authority));
    if command.DryRun? {
      return Success(Previewed(Reviewed(d.attempts, d.reason.value, authority, q.path), phrase));
    }
    if command.reviewed.attempts != d.attempts || command.reviewed.reason != d.reason.value {
      return Failure(EvidenceChanged);
    }
    if command.confirmation != phrase {
      return Failure(WrongConfirmation);
    }
    return Success(HandedOn(q.deletion));
  }

  /** The dead letter that a request is of. */
  predicate Finds(deletions: map<seq<Unit>, Deletion>, q: Request) {
    && q.deletion in deletions && deletions[q.deletion].organisation == q.organisation
    && deletions[q.deletion].dead && deletions[q.deletion].reason.Some?
  }

  function Answer(deletions: map<seq<Unit>, Deletion>, authority: Digest, command: Command): Result<Outcome, Refusal> {
    var q := command.request;
    if !IsCanonical(q) then Failure(NotCanonical)
    else if command.Execute? && command.reviewed.authority != authority then Failure(AuthorityChanged)
    else if command.Execute? && q.disposition.RequeueCorrectedPath? && command.reviewed.path != q.path then Failure(PathChanged)
    else if !Finds(deletions, q) then Failure(NotFound)
    else
      var d := deletions[q.deletion];
      if q.disposition.RequeueCorrectedPath? && !d.provider.Supabase? then Failure(PathUnsupported)
      else
        var phrase := RecoveryPhrase(RecoveryOf(q, d.attempts, d.reason.value, authority));
        match command
        case DryRun(_) => Success(Previewed(Reviewed(d.attempts, d.reason.value, authority, q.path), phrase))
        case Execute(_, reviewed, confirmation) =>
          if reviewed.attempts != d.attempts || reviewed.reason != d.reason.value then Failure(EvidenceChanged)
          else if confirmation != phrase then Failure(WrongConfirmation)
          else Success(HandedOn(q.deletion))
  }

  // ---- What is accepted, and what is refused -------------------------------------------------------

  predicate PlainIdentifier(s: seq<Unit>) {
    1 <= |s| <= 200 && forall i :: 0 <= i < |s| ==>
      'a' as int <= s[i] <= 'z' as int || 'A' as int <= s[i] <= 'Z' as int || '0' as int <= s[i] <= '9' as int
      || s[i] == '_' as int || s[i] == '-' as int
  }

  /** The request is of two identifiers, and it has a path exactly where it corrects one. */
  predicate WellAsked(q: Request) {
    PlainIdentifier(q.organisation) && PlainIdentifier(q.deletion)
    && (q.path.Some? <==> q.disposition == RequeueCorrectedPath)
  }

  /** There is a dead letter of that organisation with a reason, and a path is corrected only
    * with the one provider that has paths.
    */
  predicate Recoverable(deletions: map<seq<Unit>, Deletion>, q: Request) {
    && q.deletion in deletions && deletions[q.deletion].organisation == q.organisation
    && deletions[q.deletion].dead && deletions[q.deletion].reason.Some?
    && (q.disposition == RequeueCorrectedPath ==> deletions[q.deletion].provider == Supabase)
  }

  function PhraseFor(deletions: map<seq<Unit>, Deletion>, authority: Digest, q: Request): seq<Unit>
    requires Recoverable(deletions, q)
  {
    var d := deletions[q.deletion];
    RecoveryPhrase(Recovery(q.organisation, q.deletion, q.disposition, d.attempts, d.reason.value, authority, q.path))
  }

  /** A dry-run is answered exactly for such a request, with the attempts and the reason on
    * record, the authority of the database, the path asked for, and the phrase made of them.
    */
  lemma DryRunExact(deletions: map<seq<Unit>, Deletion>, authority: Digest, q: Request)
    ensures Answer(deletions, authority, DryRun(q)).Success? <==> WellAsked(q) && Recoverable(deletions, q)
    ensures WellAsked(q) && Recoverable(deletions, q) ==>
              var d := deletions[q.deletion];
              Answer(deletions, authority, DryRun(q)) ==
              Success(Previewed(Reviewed(d.attempts, d.reason.value, authority, q.path), PhraseFor(deletions, authority, q)))
  {
  }

  /** An execution is handed on exactly for such a request, where everything that was
    * reviewed is still so and the phrase is typed back.
    */
  lemma ExecutionIff(
      deletions: map<seq<Unit>, Deletion>, authority: Digest, q: Request, reviewed: Reviewed, typed: seq<Unit>)
    ensures var r := Answer(deletions, authority, Execute(q, reviewed, typed));
            && (r.Success? <==>
                  && WellAsked(q) && Recoverable(deletions, q)
                  && reviewed.authority == authority
                  && reviewed.attempts == deletions[q.deletion].attempts
                  && Some(reviewed.reason) == deletions[q.deletion].reason
                  && (q.disposition == RequeueCorrectedPath ==> reviewed.path == q.path)
                  && typed == PhraseFor(deletions, authority, q))
            && (r.Success? ==> r.value == HandedOn(q.deletion))
  {
  }

  /** What a request that is not let through is told. */
  lemma RefusalsExact(deletions: map<seq<Unit>, Deletion>, authority: Digest, command: Command)
    ensures var (r, q) := (Answer(deletions, authority, command), command.request);
            && (r == Failure(NotCanonical) <==> !WellAsked(q))
            && (WellAsked(q) && command.Execute? && command.reviewed.authority != authority ==> r == Failure(AuthorityChanged))
            && (r == Failure(PathUnsupported) ==>
                  q.disposition == RequeueCorrectedPath && q.deletion in deletions
                  && deletions[q.deletion].provider != Supabase)
            && (r == Failure(NotFound) ==>
                  !(q.deletion in deletions && deletions[q.deletion].organisation == q.organisation
                    && deletions[q.deletion].dead && deletions[q.deletion].reason.Some?))
            && (command.DryRun? && r.Failure? ==> r.error in {NotCanonical, NotFound, PathUnsupported})
            && (r == Failure(WrongConfirmation) ==>
                  command.Execute? && Recoverable(deletions, q) && command.confirmation != PhraseFor(deletions, authority, q))
  {
  }

  /** While nothing changes, what a dry-run prints is what an execution takes. */
  lemma DryRunIffExecution(deletions: map<seq<Unit>, Deletion>, authority: Digest, q: Request)
    ensures Answer(deletions, authority, DryRun(q)).Success? <==>
            exists reviewed, phrase :: Answer(deletions, authority, Execute(q, reviewed, phrase)).Success?
    ensures Answer(deletions, authority, DryRun(q)).Success? ==>
              var preview := Answer(deletions, authority, DryRun(q)).value;
              Answer(deletions, authority, Execute(q, preview.evidence, preview.phrase)).Success?
  {
    if Answer(deletions, authority, DryRun(q)).Success? {
      var preview := Answer(deletions, authority, DryRun(q)).value;
      assert Answer(deletions, authority, Execute(q, preview.evidence, preview.phrase)).Success?;
    }
  }

  /** A phrase from a dry-run executes nothing but what that dry-run was of: the same
    * deletion, disposition and corrected path, against a database of the same
    * authority, with the attempts and the reason still those that were reviewed.
    */
  lemma PhraseBindsReview(
      deletions: map<seq<Unit>, Deletion>, authority: Digest, reviewed: Request,
      deletions': map<seq<Unit>, Deletion>, authority': Digest, q: Request, evidence: Reviewed)
    requires Answer(deletions, authority, DryRun(reviewed)).Success?
    requires var phrase := Answer(deletions, authority, DryRun(reviewed)).value.phrase;
             Answer(deletions', authority', Execute(q, evidence, phrase)).Success?
    ensures q == reviewed && authority' == authority
    ensures deletions'[q.deletion].attempts == deletions[q.deletion].attempts
    ensures deletions'[q.deletion].reason == deletions[q.deletion].reason
  {
    var (d, d') := (deletions[reviewed.deletion], deletions'[q.deletion]);
    IdentifierIsWord(reviewed.organisation);
    IdentifierIsWord(reviewed.deletion);
    IdentifierIsWord(q.organisation);
    IdentifierIsWord(q.deletion);
    RecoveryPhraseInjective(RecoveryOf(reviewed, d.attempts, d.reason.value, authority),
                            RecoveryOf(q, d'.attempts, d'.reason.value, authority'));
  }
}
