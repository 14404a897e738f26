/** The phrases that an operator reviews and types back
  * (apps/api/src/jobs/rebind-personal-server-auth-recovery-secret.ts,
  * recover-document-storage-deletion.ts, reconcile-billing-authority.ts).
  */
module Phrases {
  import opened Decimal
  import opened RecoveryTables
  import opened Text
  import opened TextLists
  import opened Wrappers

  const SPACE: Unit := 0x20

  predicate IsWord(s: seq<Unit>) {
    !Has(s, SPACE)
  }

  /** Fixed text and values in turn, ending with fixed text. */
  function Compose(fixed: seq<seq<Unit>>, values: seq<seq<Unit>>): seq<Unit>
    requires |fixed| == |values| + 1
  {
    if values == [] then fixed[0] else fixed[0] + (values[0] + Compose(fixed[1..], values[1..]))
  }

  /** Every value is followed by a blank, or ends the phrase. */
  ghost predicate Delimits(fixed: seq<seq<Unit>>) {
    && fixed != []
    && (forall i :: 1 <= i < |fixed| - 1 ==> fixed[i] != [] && fixed[i][0] == SPACE)
    && (|fixed| > 1 ==> fixed[|fixed| - 1] == [] || fixed[|fixed| - 1][0] == SPACE)
  }

  lemma SameWord(v: seq<Unit>, rest: seq<Unit>, w: seq<Unit>, rest': seq<Unit>)
    requires IsWord(v) && IsWord(w) && v + rest == w + rest'
    requires (rest == [] || rest[0] == SPACE) && (rest' == [] || rest'[0] == SPACE)
    ensures v == w && rest == rest'
  {
    WordFound(v, rest);
    WordFound(w, rest');
    assert v == (v + rest)[..|v|] && rest == (v + rest)[|v|..];
    assert w == (w + rest')[..|w|] && rest' == (w + rest')[|w|..];
  }

  lemma WordFound(v: seq<Unit>, rest: seq<Unit>)
    requires IsWord(v) && (rest == [] || rest[0] == SPACE)
    ensures Find(v + rest, SPACE) == |v|
  {
    var s := v + rest;
    assert forall i :: 0 <= i < |v| ==> s[i] == v[i];
    assert rest != [] ==> s[|v|] == SPACE;
  }

  lemma ComposeStarts(fixed: seq<seq<Unit>>, values: seq<seq<Unit>>)
    requires |fixed| == |values| + 1 && fixed[0] != []
    ensures Compose(fixed, values) != [] && Compose(fixed, values)[0] == fixed[0][0]
  {
  }

  /** Composing words is injective: the phrase can be read back. */
  lemma {:induction false} ComposeInjective(fixed: seq<seq<Unit>>, a: seq<seq<Unit>>, b: seq<seq<Unit>>)
    requires Delimits(fixed) && |fixed| == |a| + 1 == |b| + 1
    requires (forall i :: 0 <= i < |a| ==> IsWord(a[i])) && (forall i :: 0 <= i < |b| ==> IsWord(b[i]))
    requires Compose(fixed, a) == Compose(fixed, b)
    ensures a == b
    decreases |fixed|
  {
    if a == [] {
      assert b == [];
    } else {
      var (x, y) := (Compose(fixed[1..], a[1..]), Compose(fixed[1..], b[1..]));
      assert a[0] + x == Compose(fixed, a)[|fixed[0]|..] == b[0] + y;
      BlankAfter(fixed, a);
      BlankAfter(fixed, b);
      SameWord(a[0], x, b[0], y);
      if |a| > 1 {
        DelimitsOn(fixed);
        ComposeInjective(fixed[1..], a[1..], b[1..]);
      }
      assert a == [a[0]] + a[1..] && b == [b[0]] + b[1..];
    }
  }

  lemma DelimitsOn(fixed: seq<seq<Unit>>)
    requires Delimits(fixed) && |fixed| > 2
    ensures Delimits(fixed[1..])
  {
  }

  lemma BlankAfter(fixed: seq<seq<Unit>>, values: seq<seq<Unit>>)
    requires Delimits(fixed) && |fixed| == |values| + 1 && values != []
    ensures var rest := Compose(fixed[1..], values[1..]); rest == [] || rest[0] == SPACE
  {
    if fixed[1] != [] {
      ComposeStarts(fixed[1..], values[1..]);
    }
  }

  // ---- Values ------------------------------------------------------------------------------------

  /** A digest as lower-case hexadecimal text of so many places. */
  function Hex(n: nat, places: nat): (s: seq<Unit>)
    ensures |s| == places && IsWord(s)
  {
    if places == 0 then []
    else Hex(n / 16, places - 1) + [if n % 16 < 10 then 0x30 + n % 16 else 0x57 + n % 16]
  }

  const SMALL_DIGITS: string := "0123456789abcdef"

  /** The last digit is that of the remainder, and those before it are of the quotient. */
  lemma HexExact(n: nat, places: nat)
    requires places > 0
    ensures Hex(n, places)[places - 1] == SMALL_DIGITS[n % 16] as int
    ensures Hex(n, places)[..places - 1] == Hex(n / 16, places - 1)
  {
  }

  function Power16(n: nat): (p: nat)
    ensures p > 0
  {
    if n == 0 then 1 else 16 * Power16(n - 1)
  }

  type Digest = n: nat | n < Power16(64) witness (assert Power16(64) > 0; 0)

  lemma {:induction false} HexInjective(a: nat, b: nat, places: nat)
    requires a < Power16(places) && b < Power16(places) && Hex(a, places) == Hex(b, places)
    ensures a == b
  {
    if places > 0 {
      var (x, y) := (Hex(a, places), Hex(b, places));
      assert x[places - 1] == y[places - 1];
      assert x[..places - 1] == Hex(a / 16, places - 1) && y[..places - 1] == Hex(b / 16, places - 1);
      HexInjective(a / 16, b / 16, places - 1);
      assert a == a / 16 * 16 + a % 16 && b == b / 16 * 16 + b % 16;
    }
  }

  // ---- The rebind --------------------------------------------------------------------------------

  function StateText(state: ControlState): seq<Unit> {
    match state
    case Unbound => Word("unbound")
    case Active => Word("active")
    case Blocked => Word("blocked")
  }

  lemma StateTextInjective(a: ControlState, b: ControlState)
    requires StateText(a) == StateText(b)
    ensures a == b
  {
    assert StateText(Unbound)[0] == 0x75 && StateText(Active)[0] == 0x61 && StateText(Blocked)[0] == 0x62;
  }

  function RebindFixed(): seq<seq<Unit>> {
    [ Literal("REBIND PERSONAL SERVER AUTH RECOVERY SECRET RECOVERY SET "),
      Literal(" MANIFEST SHA256 "),
      Literal(" CONTROL "),
      Literal(" GENERATION "),
      Literal(" TERMINATE "),
      Literal(" CAPABILITIES REDACT "),
      Literal(" REQUEST EVIDENCE ROWS CLEAR "),
      Literal(" LEGACY SLOTS DELETE "),
      Literal(" RATE BUCKETS PRESERVE "),
      Literal(" SECURITY NOTICES RETIRED HISTORY "),
      Literal(" DATABASE SHA256 "),
      Literal(" PROFILE personal-server") ]
  }

  function RebindValues(recoverySet: seq<Unit>, manifest: Digest, e: Evidence): seq<seq<Unit>> {
    [ recoverySet, Hex(manifest, 64), StateText(e.state), Digits(e.generation),
      Digits(e.counts.capabilities), Digits(e.counts.requestEvidenceRows), Digits(e.counts.legacySlots),
      Digits(e.counts.rateBuckets), Digits(e.counts.securityNotices), Digits(e.counts.retiredSecrets),
      Hex(e.identity, 64) ]
  }

  function RebindPhrase(recoverySet: seq<Unit>, manifest: Digest, e: Evidence): seq<Unit> {
    Compose(RebindFixed(), RebindValues(recoverySet, manifest, e))
  }

  lemma RebindDelimits()
    ensures Delimits(RebindFixed())
  {
  }

  lemma RebindWords(recoverySet: seq<Unit>, manifest: Digest, e: Evidence)
    requires IsWord(recoverySet)
    ensures forall i :: 0 <= i < 11 ==> IsWord(RebindValues(recoverySet, manifest, e)[i])
  {
  }

  /** Equal phrases are of the same recovery set, manifest, state, counts and database. */
  lemma RebindPhraseInjective(
      set1: seq<Unit>, manifest1: Digest, e1: Evidence, set2: seq<Unit>, manifest2: Digest, e2: Evidence)
    requires IsWord(set1) && IsWord(set2) && e1.identity < Power16(64) && e2.identity < Power16(64)
    requires RebindPhrase(set1, manifest1, e1) == RebindPhrase(set2, manifest2, e2)
    ensures set1 == set2 && manifest1 == manifest2 && e1 == e2
  {
    var (a, b) := (RebindValues(set1, manifest1, e1), RebindValues(set2, manifest2, e2));
    RebindDelimits();
    RebindWords(set1, manifest1, e1);
    RebindWords(set2, manifest2, e2);
    ComposeInjective(RebindFixed(), a, b);
    assert forall i :: 0 <= i < 11 ==> a[i] == b[i];
    assert a[1] == b[1] && a[2] == b[2] && a[3] == b[3] && a[4] == b[4] && a[5] == b[5];
    assert a[6] == b[6] && a[7] == b[7] && a[8] == b[8] && a[9] == b[9] && a[10] == b[10];
    HexInjective(manifest1, manifest2, 64);
    HexInjective(e1.identity, e2.identity, 64);
    StateTextInjective(e1.state, e2.state);
    DigitsInjective(e1.generation, e2.generation);
    CountsInjective(e1.counts, e2.counts);
  }

  lemma CountsInjective(a: Counts, b: Counts)
    requires Digits(a.capabilities) == Digits(b.capabilities)
    requires Digits(a.requestEvidenceRows) == Digits(b.requestEvidenceRows)
    requires Digits(a.legacySlots) == Digits(b.legacySlots) && Digits(a.rateBuckets) == Digits(b.rateBuckets)
    requires Digits(a.securityNotices) == Digits(b.securityNotices)
    requires Digits(a.retiredSecrets) == Digits(b.retiredSecrets)
    ensures a == b
  {
    DigitsInjective(a.capabilities, b.capabilities);
    DigitsInjective(a.requestEvidenceRows, b.requestEvidenceRows);
    DigitsInjective(a.legacySlots, b.legacySlots);
    DigitsInjective(a.rateBuckets, b.rateBuckets);
    DigitsInjective(a.securityNotices, b.securityNotices);
    DigitsInjective(a.retiredSecrets, b.retiredSecrets);
  }

  // ---- The recovery of a document's deletion --------------------------------------------------------

  datatype TerminalReason = MaxAttemptsExhausted | PermanentStoragePathRejected | ProviderNotErasable

  datatype Disposition = RequeueUnchanged | RequeueCorrectedPath | CompleteExternallyRemediated

  function ReasonText(reason: TerminalReason): seq<Unit> {
    match reason
    case MaxAttemptsExhausted => Word("MAX_ATTEMPTS_EXHAUSTED")
    case PermanentStoragePathRejected => Word("PERMANENT_STORAGE_PATH_REJECTED")
    case ProviderNotErasable => Word("PROVIDER_NOT_ERASABLE")
  }

  function DispositionText(disposition: Disposition): seq<Unit> {
    match disposition
    case RequeueUnchanged => Word("REQUEUE_UNCHANGED")
    case RequeueCorrectedPath => Word("REQUEUE_CORRECTED_PATH")
    case CompleteExternallyRemediated => Word("COMPLETE_EXTERNALLY_REMEDIATED")
  }

  lemma ReasonTextInjective(a: TerminalReason, b: TerminalReason)
    requires ReasonText(a) == ReasonText(b)
    ensures a == b
  {
  }

  lemma DispositionTextInjective(a: Disposition, b: Disposition)
    requires DispositionText(a) == DispositionText(b)
    ensures a == b
  {
  }

  /** What a recovery is of: `[A-Za-z0-9_-]+` identifiers, and what was reviewed. */
  datatype Recovery = Recovery(
    organisation: seq<Unit>,
    deletion: seq<Unit>,
    disposition: Disposition,
    attempts: nat,
    reason: TerminalReason,
    authority: Digest,
    correctedPath: Option<Digest>)

  function PathText(digest: Option<Digest>): seq<Unit> {
    if digest.None? then Word("NONE") else Hex(digest.value, 64)
  }

  function RecoveryFixed(): seq<seq<Unit>> {
    [ Literal("RECOVER DOCUMENT STORAGE DELETION "),
      Literal(" FOR "),
      Literal(" AT ATTEMPTS "),
      Literal(" REASON "),
      Literal(" AS "),
      Literal(" DATABASE AUTHORITY SHA256 "),
      Literal(" CORRECTED PATH SHA256 "),
      [] ]
  }

  function RecoveryValues(r: Recovery): seq<seq<Unit>> {
    [ r.deletion, r.organisation, Digits(r.attempts), ReasonText(r.reason), DispositionText(r.disposition),
      Hex(r.authority, 64), PathText(r.correctedPath) ]
  }

  function RecoveryPhrase(r: Recovery): seq<Unit> {
    Compose(RecoveryFixed(), RecoveryValues(r))
  }

  lemma RecoveryWords(r: Recovery)
    requires IsWord(r.organisation) && IsWord(r.deletion)
    ensures forall i :: 0 <= i < 7 ==> IsWord(RecoveryValues(r)[i])
  {
  }

  /** A digest is printed in full. */
  lemma DigestsInFull(recoverySet: seq<Unit>, manifest: Digest, e: Evidence, r: Recovery)
    ensures |RebindValues(recoverySet, manifest, e)[1]| == 64 && |RebindValues(recoverySet, manifest, e)[10]| == 64
    ensures |RecoveryValues(r)[5]| == 64 && (r.correctedPath.Some? ==> |RecoveryValues(r)[6]| == 64)
  {
  }

  lemma PathTextInjective(a: Option<Digest>, b: Option<Digest>)
    requires PathText(a) == PathText(b)
    ensures a == b
  {
    if a.Some? && b.Some? {
      HexInjective(a.value, b.value, 64);
    }
  }

  lemma RecoveryDelimits()
    ensures Delimits(RecoveryFixed())
  {
  }

  lemma RecoveryPhraseInjective(a: Recovery, b: Recovery)
    requires IsWord(a.organisation) && IsWord(a.deletion) && IsWord(b.organisation) && IsWord(b.deletion)
    requires RecoveryPhrase(a) == RecoveryPhrase(b)
    ensures a == b
  {
    var (x, y) := (RecoveryValues(a), RecoveryValues(b));
    RecoveryDelimits();
    RecoveryWords(a);
    RecoveryWords(b);
    ComposeInjective(RecoveryFixed(), x, y);
    assert x[0] == y[0] && x[1] == y[1] && x[2] == y[2] && x[3] == y[3] && x[4] == y[4] && x[5] == y[5] && x[6] == y[6];
    DigitsInjective(a.attempts, b.attempts);
    ReasonTextInjective(a.reason, b.reason);
    DispositionTextInjective(a.disposition, b.disposition);
    HexInjective(a.authority, b.authority, 64);
    PathTextInjective(a.correctedPath, b.correctedPath);
  }

  // ---- The release of a billing grant -----------------------------------------------------------------

  datatype GrantState = Claimed | ProviderStarted | CapabilityIssued

  datatype ReleaseReason =
    | ProviderConfirmedNotIssued
    | ProviderCapabilityRevoked
    | ProviderCapabilityTerminal
    | CheckoutSafeReleaseAfterElapsed
    | RestrictedOperatorAttestation

  function GrantStateText(state: GrantState): seq<Unit> {
    match state
    case Claimed => Word("CLAIMED")
    case ProviderStarted => Word("PROVIDER_STARTED")
    case CapabilityIssued => Word("CAPABILITY_ISSUED")
  }

  function ReleaseReasonText(reason: ReleaseReason): seq<Unit> {
    match reason
    case ProviderConfirmedNotIssued => Word("PROVIDER_CONFIRMED_NOT_ISSUED")
    case ProviderCapabilityRevoked => Word("PROVIDER_CAPABILITY_REVOKED")
    case ProviderCapabilityTerminal => Word("PROVIDER_CAPABILITY_TERMINAL")
    case CheckoutSafeReleaseAfterElapsed => Word("CHECKOUT_SAFE_RELEASE_AFTER_ELAPSED")
    case RestrictedOperatorAttestation => Word("RESTRICTED_OPERATOR_ATTESTATION")
  }

  predicate NeedsQuiescence(state: GrantState) {
    state.Claimed? || state.ProviderStarted?
  }

  /** All of the phrase from the organisation on, but for its last words. */
  function BeforeReason(organisation: seq<Unit>, state: GrantState): seq<Unit> {
    organisation + Literal(" FROM ") + GrantStateText(state) + Literal(" AS ")
  }

  function Quiet(state: GrantState): seq<Unit> {
    if NeedsQuiescence(state) then Literal(" WITH BILLING PROVIDER IO ") + Word("QUIESCED") else []
  }

  function ReleaseTarget(organisation: seq<Unit>, state: GrantState, reason: ReleaseReason): seq<Unit> {
    BeforeReason(organisation, state) + ReleaseReasonText(reason) + Quiet(state)
  }

  function ReleasePhrase(grant: seq<Unit>, organisation: seq<Unit>, state: GrantState, reason: ReleaseReason): seq<Unit> {
    Literal("RELEASE BILLING AUTHORITY ") + (grant + (Literal(" FOR ") + ReleaseTarget(organisation, state, reason)))
  }

  /** The last word of text can be told from what comes before it. */
  lemma SameLastWord(a: seq<Unit>, v: seq<Unit>, b: seq<Unit>, w: seq<Unit>)
    requires IsWord(v) && IsWord(w) && a + v == b + w
    requires a != [] && a[|a| - 1] == SPACE && b != [] && b[|b| - 1] == SPACE
    ensures v == w && a == b
  {
    LastBlank(a, v, b, w);
    LastBlank(b, w, a, v);
    assert v == (a + v)[|a|..] && w == (b + w)[|b|..];
    assert a == (a + v)[..|a|] && b == (b + w)[..|b|];
  }

  lemma LastBlank(a: seq<Unit>, v: seq<Unit>, b: seq<Unit>, w: seq<Unit>)
    requires IsWord(v) && a + v == b + w && b != [] && b[|b| - 1] == SPACE
    ensures |b| <= |a|
  {
    assert (b + w)[|b| - 1] == SPACE;
    assert forall i :: |a| <= i < |a| + |v| ==> (a + v)[i] == v[i - |a|];
  }

  lemma LiteralsEndBlank()
    ensures Literal(" FROM ")[5] == SPACE && Literal(" AS ")[3] == SPACE && Literal(" FOR ")[0] == SPACE
    ensures Literal(" WITH BILLING PROVIDER IO ")[25] == SPACE
  {
  }

  lemma SameSuffix(a: seq<Unit>, b: seq<Unit>, end: seq<Unit>)
    requires a + end == b + end
    ensures a == b
  {
    assert a == (a + end)[..|a|] && b == (b + end)[..|b|];
  }

  lemma SamePrefix(start: seq<Unit>, a: seq<Unit>, b: seq<Unit>)
    requires start + a == start + b
    ensures a == b
  {
    assert a == (start + a)[|start|..] && b == (start + b)[|start|..];
  }

  /** Any text, and one word after it. */
  lemma SameMiddle(a: seq<Unit>, v: seq<Unit>, b: seq<Unit>, w: seq<Unit>, before: seq<Unit>, after: seq<Unit>)
    requires IsWord(v) && IsWord(w) && before != [] && before[|before| - 1] == SPACE
    requires a + before + v + after == b + before + w + after
    ensures a == b && v == w
  {
    SameSuffix(a + before + v, b + before + w, after);
    SameLastWord(a + before, v, b + before, w);
    SameSuffix(a, b, before);
  }

  lemma StateTextsDiffer(s1: GrantState, s2: GrantState)
    requires GrantStateText(s1) == GrantStateText(s2)
    ensures s1 == s2
  {
  }

  /** The texts differ in length. */
  lemma ReasonTextsDiffer(r1: ReleaseReason, r2: ReleaseReason)
    ensures ReleaseReasonText(r1) == ReleaseReasonText(r2) ==> r1 == r2
    ensures ReleaseReasonText(r1) != Word("QUIESCED")
  {
    assert |ReleaseReasonText(r1)| != |Word("QUIESCED")|;
    if r1 != r2 {
      assert |ReleaseReasonText(r1)| != |ReleaseReasonText(r2)|;
    }
  }

  lemma EndsBlank(organisation: seq<Unit>, state: GrantState)
    ensures BeforeReason(organisation, state) != []
    ensures BeforeReason(organisation, state)[|BeforeReason(organisation, state)| - 1] == SPACE
  {
    LiteralsEndBlank();
  }

  lemma SameThree(
      o1: seq<Unit>, v1: seq<Unit>, w1: seq<Unit>, o2: seq<Unit>, v2: seq<Unit>, w2: seq<Unit>,
      before: seq<Unit>, after: seq<Unit>)
    requires IsWord(v1) && IsWord(v2) && IsWord(w1) && IsWord(w2)
    requires before != [] && before[|before| - 1] == SPACE && after != [] && after[|after| - 1] == SPACE
    requires o1 + before + v1 + after + w1 == o2 + before + v2 + after + w2
    ensures o1 == o2 && v1 == v2 && w1 == w2
  {
    SameLastWord(o1 + before + v1 + after, w1, o2 + before + v2 + after, w2);
    SameMiddle(o1, v1, o2, v2, before, after);
  }

  lemma TextsAreWords(state: GrantState, reason: ReleaseReason)
    ensures IsWord(GrantStateText(state)) && IsWord(ReleaseReasonText(reason))
  {
  }

  /** The state and the organisation, whatever words the organisation is made of. */
  lemma SameBeforeReason(o1: seq<Unit>, s1: GrantState, r1: ReleaseReason, o2: seq<Unit>, s2: GrantState, r2: ReleaseReason)
    requires BeforeReason(o1, s1) + ReleaseReasonText(r1) == BeforeReason(o2, s2) + ReleaseReasonText(r2)
    ensures o1 == o2 && s1 == s2 && r1 == r2
  {
    LiteralsEndBlank();
    TextsAreWords(s1, r1);
    TextsAreWords(s2, r2);
    SameThree(o1, GrantStateText(s1), ReleaseReasonText(r1), o2, GrantStateText(s2), ReleaseReasonText(r2),
              Literal(" FROM "), Literal(" AS "));
    ReasonTextsDiffer(r1, r2);
    StateTextsDiffer(s1, s2);
  }

  lemma QuietDiffers(o1: seq<Unit>, s1: GrantState, r1: ReleaseReason, o2: seq<Unit>, s2: GrantState, r2: ReleaseReason)
    requires NeedsQuiescence(s1) && !NeedsQuiescence(s2)
    ensures ReleaseTarget(o1, s1, r1) != ReleaseTarget(o2, s2, r2)
  {
    var spoken := BeforeReason(o1, s1) + ReleaseReasonText(r1);
    LiteralsEndBlank();
    EndsBlank(o2, s2);
    Regroup(spoken, Literal(" WITH BILLING PROVIDER IO "), Word("QUIESCED"));
    ReasonTextsDiffer(r2, r2);
    if ReleaseTarget(o1, s1, r1) == ReleaseTarget(o2, s2, r2) {
      assert ReleaseTarget(o2, s2, r2) == BeforeReason(o2, s2) + ReleaseReasonText(r2);
      SameLastWord(spoken + Literal(" WITH BILLING PROVIDER IO "), Word("QUIESCED"),
                   BeforeReason(o2, s2), ReleaseReasonText(r2));
    }
  }

  lemma SameTarget(o1: seq<Unit>, s1: GrantState, r1: ReleaseReason, o2: seq<Unit>, s2: GrantState, r2: ReleaseReason)
    requires ReleaseTarget(o1, s1, r1) == ReleaseTarget(o2, s2, r2)
    ensures o1 == o2 && s1 == s2 && r1 == r2
  {
    if NeedsQuiescence(s1) && !NeedsQuiescence(s2) {
      QuietDiffers(o1, s1, r1, o2, s2, r2);
    } else if NeedsQuiescence(s2) && !NeedsQuiescence(s1) {
      QuietDiffers(o2, s2, r2, o1, s1, r1);
    } else {
      SameSuffix(BeforeReason(o1, s1) + ReleaseReasonText(r1), BeforeReason(o2, s2) + ReleaseReasonText(r2), Quiet(s1));
      SameBeforeReason(o1, s1, r1, o2, s2, r2);
    }
  }

  /** Equal phrases are of the same grant, organisation, state and reason. A grant's
    * identifier is one word; an organisation's may be any text at all.
    */
  lemma ReleasePhraseInjective(
      g1: seq<Unit>, o1: seq<Unit>, s1: GrantState, r1: ReleaseReason,
      g2: seq<Unit>, o2: seq<Unit>, s2: GrantState, r2: ReleaseReason)
    requires IsWord(g1) && IsWord(g2)
    requires ReleasePhrase(g1, o1, s1, r1) == ReleasePhrase(g2, o2, s2, r2)
    ensures g1 == g2 && o1 == o2 && s1 == s2 && r1 == r2
  {
    var (rest1, rest2) := (Literal(" FOR ") + ReleaseTarget(o1, s1, r1), Literal(" FOR ") + ReleaseTarget(o2, s2, r2));
    SamePrefix(Literal("RELEASE BILLING AUTHORITY "), g1 + rest1, g2 + rest2);
    LiteralsEndBlank();
    SameWord(g1, rest1, g2, rest2);
    SamePrefix(Literal(" FOR "), ReleaseTarget(o1, s1, r1), ReleaseTarget(o2, s2, r2));
    SameTarget(o1, s1, r1, o2, s2, r2);
  }
}
