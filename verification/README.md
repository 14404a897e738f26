# What the connector and the offline jobs keep

A Dafny 4.11 model of the parts of CharityPilot in which a mistake would be hardest to see:
the MCP connector (`mcp/src`), four restricted offline jobs and the scheduler
(`apps/api/src/jobs`), and the PDF writer of the seed script. `dafny verify dfyconfig.toml`
checks all of it.

- **One credential, many processes.** `RefreshProtocol` is a state machine of any number of
  connector processes, a server that accepts each refresh token once, a store that can refuse,
  and a loopback port as the lock. `RefreshSafety` holds its inductive invariant,
  `RefreshTheorems` what follows for whole runs, `RefreshRuns` runs that attain the bounds and
  break the promises, `Session` the session object itself, and `RefreshAlone` the proof that the
  two agree. `RefreshLock` and `Credentials` are the lock and the keyring underneath.
- **Transactions over tables.** `RecoveryTables`, `Rebind`, `RebindColumns` and `RebindRuns` are
  the rebind of the authentication-recovery secret; `Billing`, `DocumentRecovery` and `Reminder`
  its relatives. `Phrases` shows that the phrases operators type back mean one thing only, and
  `Arguments` that the command lines do.
- **The HTTP client.** `RetryClient` is the retry machine, `IdempotentLedger` composes it with a
  server that remembers keys, `ReasonHeaders`, `PercentCoding` and `Text` are the header codec.
- **The personal-data gate.** `FieldPolicy` has the filters as they are written, `FieldViews` and
  `PolicyViews` what they show. `ToolBody`, `ToolInput` and `ToolPipeline` are a tool call from
  its arguments to its answer; `ToolRequests` says argument by argument which calls are sent and
  with what, `ToolSecrecy` and `ToolWrites` what a call can reveal and send, `VoidTool` what becomes
  of one tool, `UrlRoundTrip` and `UrlReader` that its URL can be read back. `References`,
  `Dispatch`, `Verdicts` and `Posture` decide which call is made at all; `Redact` and `Redactor`
  keep secrets out of text.
- **The scheduler.** `RecurringJob` in every interleaving of timers, runs and stops,
  `JobShutdown` in the race of all stops against a timeout, and `ReconcileRun` with everything it
  asks of the services around it.
- **The seed PDF.** `SeedPdf` and `PdfString`.

## Where the code and its promises differ

The model follows the code. Five comments promise more than it does, and each has a lemma:

- a successor credential can be removed (`RefreshRuns.SuccessorIsLost`);
- an undeclared argument of a deletion is dropped, not refused (`ToolWrites.StrayArgument`);
- a tool that the closed gate hides can accept calls (`VoidTool.VoidIsHiddenYetUsable`);
- a keyring that is locked during a clear still serves the credential later
  (`Credentials.ClearReportsTruthIff`);
- a create with an empty key can happen twice (`IdempotentLedger.AtMostOnceIff`).

Three properties that look plausible are false without a condition, which is then proved exact or
bounded, and attained: repeats are not bounded by deaths (`RefreshRuns.OneDeathAnyRepeats`,
`RefreshTheorems.RepeatsBounded`, `RefreshRuns.BoundIsAttained`); a stop that a run calls while it
is being entered does not wait for it (`RecurringJob.StopWaitsIff`); and an inspected rebind is
refused at the last generation of its column (`RebindRuns.InspectedRebindCommitsIff`,
`RebindRuns.LastGenerationIsRefused`).

## Model

| member | source | states |
|---|---|---|
| Renewal.JudgeExact | mcp/src/session.ts:330-354 | The stored credential is kept for exactly the statuses 400, 403, 404 and 429; a renewal succeeds with exactly these two tokens for exactly the successful answers that carry them, the access token as the one and the refresh token as the other. |
| RefreshSafety.StepKeepsInv | mcp/src/session.ts:291-363 | Every event of the protocol of N connector processes, the server, the store and the lock keeps the inductive invariant: one holder, fresh tokens private, consumed tokens accounted for. |
| RefreshSafety.RunKeepsInv | mcp/src/session.ts:291-363 | So does every run. |
| RefreshTheorems.FreeLockMeansUsable | mcp/src/session.ts:308-363 | In every interleaving, sign-ins and disconnects included: with no death under the lock and every spent credential cleared, a free lock means an empty store or a token that no request has put at risk. |
| RefreshTheorems.EverySendIsFirst | mcp/src/session.ts:330-331 | Under the same conditions the token of every renewal request has neither been rotated nor been offered before in a request that might have rotated it. |
| RefreshTheorems.RepeatsBounded | mcp/src/session.ts:308-363 | With failures, repeats are at most deaths under the lock, plus spent credentials left in the store, plus safe refusals of a token already at risk. |
| RefreshTheorems.RepeatsBoundedByDeaths | mcp/src/session.ts:308-363 | Repeats are at most the deaths as long as every spent credential is cleared and no token already at risk is refused safely. |
| RefreshTheorems.FailuresCounted | mcp/src/session.ts:308-363 | What the four counters of the protocol count, event by event. |
| RefreshTheorems.WaitingEnds | mcp/src/refresh-coordination.ts:70-80 | Who waits takes a free lock or gives up; the answer to a sign-in can be lost after its token was issued. |
| RefreshRuns.BoundIsAttained | mcp/src/session.ts:308-363 | For any numbers of the three kinds of failure, not only late refusals, a run has exactly as many repeats as their sum. |
| RefreshRuns.OneDeathAnyRepeats | mcp/src/session.ts:336-340 | The bound by deaths alone is false: after one death a rotated token can be offered any number of times, because the credential is kept on 429. |
| RefreshTheorems.OneHolder | mcp/src/refresh-coordination.ts:74-84 | Two processes never hold the lock together. |
| RefreshTheorems.AtMostOneSendPerLock | mcp/src/refresh-coordination.ts:74-84 | A process reads the credential and sends a renewal at most once for each time it got the lock; one that never gets the lock does neither. |
| RefreshTheorems.ClearsOwnTokenIff | mcp/src/session.ts:315-318 | The entry cleared after a spent renewal is its own exactly when nobody signed in or disconnected between the read-back and the clear. |
| RefreshTheorems.SuccessorCleared | mcp/src/session.ts:316-318 | A sign-in in that gap is lost, although the comment there says that a successor is never removed. |
| RefreshRuns.SuccessorIsLost | mcp/src/session.ts:312-325 | A run in which it happens: a sign-in is stored, never used, and cleared. |
| RefreshTheorems.StepWhileClearing | mcp/src/session.ts:315-318 | In that gap only a sign-in or a disconnect changes the store, and nothing brings the spent token back. |
| RefreshAlone.UninterruptedRenewal | mcp/src/session.ts:308-363 | The protocol steps of an uninterrupted renewal end in the very store that the session object leaves. |
| RefreshLock.Process.WithLock | mcp/src/refresh-coordination.ts:64-85 | The lock is taken at the first attempt that can listen, and refused at an error or at the first attempt past the deadline; the action runs once, between taking and giving back, or not at all. |
| RefreshLock.SharedCredentialSharedLock | mcp/src/refresh-coordination.ts:26-30 | Connectors of one user that could read the same stored credential contend for the same port. |
| RefreshLock.PortExact | mcp/src/refresh-coordination.ts:26-30 | The port lies between 20000 and 29999, and two connectors share it exactly when their digests agree modulo 10000. |
| Session.RenewedMeansPersisted | mcp/src/session.ts:355-362 | An access token is handed out exactly when both replacements arrived and the store kept the refresh token, which is then the stored one. |
| Session.SpentTokenRemainsIff | mcp/src/session.ts:308-363 | Exactly when a presented token is still the stored one afterwards. |
| Session.RenewalTable | mcp/src/session.ts:308-363 | Answer by answer, what a renewal hands out and what it leaves in the store. |
| Session.Session.EndConsumedRefresh | mcp/src/session.ts:312-325 | The session is dropped, and the store gives up the entry only if it is still the spent token. |
| Session.Session.RefreshLocked | mcp/src/session.ts:308-363 | A successful answer with both tokens hands out and caches the access token and stores the refresh token; every other answer and every failure of the store has the outcome and leaves the store that the code gives it. |
| Session.Session.AccessToken | mcp/src/session.ts:291-306 | A cached token needs no lock and changes nothing; without the lock nothing changes either; otherwise one renewal, whose access token, and no other, is answered and cached. |
| Session.Session.InvalidateAccessToken | mcp/src/session.ts:366-368 | Only the cached token is dropped. |
| Session.Session.Login | mcp/src/session.ts:238-289 | What a sign-in stores, caches and remembers, for every answer and every failure of the store. |
| Session.Session.Logout | mcp/src/session.ts:485-511 | Memory is dropped even when the store refuses; the store is cleared exactly when success is reported. |
| Rebind.RecoveryStore.TerminateCapabilities | apps/api/src/jobs/rebind-personal-server-auth-recovery-secret.ts:656-679 | The update terminates every usable link, makes the ones being sent uncertain, touches nothing else, column by column, and counts exactly the usable ones. |
| Rebind.RecoveryStore.RedactEvidence | apps/api/src/jobs/rebind-personal-server-auth-recovery-secret.ts:680-693 | The update redacts every row with evidence and counts exactly those. |
| Rebind.RecoveryStore.RetireAndBlock | apps/api/src/jobs/rebind-personal-server-auth-recovery-secret.ts:703-737 | Retiring the active fingerprint and blocking the control happen together, behind one fence. |
| Rebind.RecoveryStore.Invalidate | apps/api/src/jobs/rebind-personal-server-auth-recovery-secret.ts:656-701 | The four statements end every link, forget every requester and empty slots and buckets, and count exactly the rows that still needed it. |
| Rebind.RecoveryStore.Bind | apps/api/src/jobs/rebind-personal-server-auth-recovery-secret.ts:703-782 | Binding the replacement fails exactly when an active secret cannot be retired, and changes the control and the history only. |
| Rebind.RecoveryStore.Statements | apps/api/src/jobs/rebind-personal-server-auth-recovery-secret.ts:647-810 | The statements succeed exactly when the evidence matches, the secret is fresh and the history has room, and then leave exactly the rebound database. |
| Rebind.RecoveryStore.Transaction | apps/api/src/jobs/rebind-personal-server-auth-recovery-secret.ts:647-815 | All or nothing: on any refusal every table is unchanged. |
| Rebind.RecoveryStore.Inspect | apps/api/src/jobs/rebind-personal-server-auth-recovery-secret.ts:629-639 | The dry run answers the locked snapshot of a database whose replacement is fresh, and changes nothing. |
| Rebind.RecoveryStore.Rebind | apps/api/src/jobs/rebind-personal-server-auth-recovery-secret.ts:641-822 | At most two transactions; a serialization conflict is retried once, against the tables as other writers left them. |
| Rebind.RunnerNeverRejects | apps/api/src/jobs/rebind-personal-server-auth-recovery-secret.ts:858-886 | A committed rebind always passes the second check of the command line. |
| RecoveryTables.ReboundCounts | apps/api/src/jobs/rebind-personal-server-auth-recovery-secret.ts:783-805 | After a rebind the four invalidation counts are zero, notices are as before and the history has one more entry exactly when a secret was active. |
| RebindColumns.RequestColumns | apps/api/src/jobs/rebind-personal-server-auth-recovery-secret.ts:656-693 | Every request after a commit, column by column: usable links terminated for the rotated key and those being sent uncertain, all others as they were, and nothing left of who asked, with the time of that where there was something. |
| RebindColumns.OtherTables | apps/api/src/jobs/rebind-personal-server-auth-recovery-secret.ts:694-701 | Both columns of every reset slot empty, no bucket left, users, notices and the identity kept. |
| RebindColumns.ControlColumns | apps/api/src/jobs/rebind-personal-server-auth-recovery-secret.ts:703-782 | The control is bound to the replacement; a secret in use, and no other, goes to the history at its generation, and the generation rises by one. |
| RebindColumns.NamedStateIff | apps/api/prisma/migrations/20260712013000_add_password_recovery_integrity/migration.sql:508-541 | A control row has a named state exactly when the checks of its table admit it. |
| RebindColumns.CountsExact | apps/api/src/jobs/rebind-personal-server-auth-recovery-secret.ts:558-580 | What the six counts of the evidence count. |
| RebindColumns.ValidEvidenceIff | apps/api/src/jobs/rebind-personal-server-auth-recovery-secret.ts:155-203 | The exact conditions on evidence from any source. |
| RebindColumns.InspectExact | apps/api/src/jobs/rebind-personal-server-auth-recovery-secret.ts:590-639 | The dry run answers exactly the evidence there is, on a lawful control and for a secret never used. |
| RebindColumns.AcceptsIff | apps/api/src/jobs/rebind-personal-server-auth-recovery-secret.ts:641-737 | A transaction commits exactly on the evidence a dry run would print, where a secret in use can still be retired. |
| RebindRuns.InspectedRebindCommitsIff | apps/api/src/jobs/rebind-personal-server-auth-recovery-secret.ts:541-588 | If no writer intervenes, inspected evidence and a fresh secret commit, with every count as reviewed; the one exception is an active control at the last generation a 32-bit column holds. |
| RebindRuns.LastGenerationIsRefused | apps/api/src/jobs/rebind-personal-server-auth-recovery-secret.ts:703-737 | A run of accepted rebinds leads to that exception. |
| RebindRuns.CommitFacts | apps/api/src/jobs/rebind-personal-server-auth-recovery-secret.ts:703-806 | A commit binds a secret never used before, keeps the history, and strictly increases generation and control state. |
| RebindRuns.HistoryOnlyGrows | apps/api/src/jobs/rebind-personal-server-auth-recovery-secret.ts:440-466 | Over any run the history only grows, has generation minus one entries, and never holds the active fingerprint. |
| RebindRuns.AcceptedOnce | apps/api/src/jobs/rebind-personal-server-auth-recovery-secret.ts:641-653 | Over any run no reviewed evidence is accepted twice and no secret is bound twice. |
| RebindRuns.ReboundConserves | apps/api/src/jobs/rebind-personal-server-auth-recovery-secret.ts:656-701 | No request, user or notice is lost; links terminated before keep their reason, suppressed ones are never terminated. |
| RetryClient.NetworkFailureExact | mcp/src/client.ts:54-62 | A failure counts as one of the network exactly when one of the first five causes, reached through errors only, is marked as such. |
| RetryClient.AfterFetchThrew | mcp/src/client.ts:437-474 | From the causes of a failed fetch to what follows: nothing was sent and the call ends, or it is sent again exactly where it has a key, is no upload and was not sent again before. |
| RetryClient.AfterResponse | mcp/src/client.ts:476-495 | An answer leads to another attempt exactly when it is the first 401 of a call that is no upload. |
| RetryClient.SettleEnds | mcp/src/client.ts:437-524 | How a call ends is decided by the last thing that happened to it: each of the nine endings has its exact condition, success being a status from 200 to 299 with JSON, or 204. |
| RetryClient.PlayShape | mcp/src/client.ts:411-499 | Every call is an ending attempt after at most one expiry and at most one drop, in either order; the drop only for a keyed call, neither for an upload. |
| RetryClient.ThreeRequestsHappen | mcp/src/client.ts:459-495 | Three requests are possible: the bound of three is exact. |
| RetryClient.ApiClient.Send | mcp/src/client.ts:411-525 | The recursion sends the requests of its specification, and each of the nine endings is reached exactly on the last event that it stands for. |
| RetryClient.TraceSends | mcp/src/client.ts:419-441 | Every request of a call has the same method, path, body, reason, approval and key, and the token of the one before it unless that one was answered 401. |
| RetryClient.TracePlays | mcp/src/client.ts:411-499 | Every attempt is sent but a last one that had no token or could not be built. |
| RetryClient.ApiClient.Start | mcp/src/client.ts:396-409 | A whole call: three requests at most, two without a key, one for an upload, the first with the cached token; and the exact endings. |
| RetryClient.ApiClient.PostJson | mcp/src/client.ts:315-320 | A create sends at most three requests, all alike and with one key, and ends exactly as its last event says. |
| RetryClient.ApiClient.Upload | mcp/src/client.ts:341-355 | An upload makes one attempt and sends at most one request; a 401 is an upload to be repeated. |
| IdempotentLedger.OncePerKey | mcp/src/client.ts:453-458 | A server that indexes creates by key makes one record for a key however often and in whatever order its requests arrive. |
| IdempotentLedger.CreateHappensOnce | mcp/src/client.ts:306-320 | For every schedule of drops, expiries and late arrivals a create with a key that arrives happens at most once, and exactly once when the call reports success; the success is the answer for that record. |
| IdempotentLedger.AtMostOnceIff | mcp/src/client.ts:434-468 | Every call leaves at most one record under every schedule, with one exception: no upload, and an empty key, which no header carries but after which the client sends again. |
| IdempotentLedger.KeylessRunsOnce | mcp/src/client.ts:459-468 | A write without a key is carried out at most once, because it is never resent after a drop. |
| IdempotentLedger.TwoKeysTwoRecords | mcp/src/client.ts:315-319 | A fresh key for the second attempt would make a second record. |
| ReasonHeaders.ReasonSurvives | mcp/src/client.ts:26-37 | For every UTF-16 string the headers are built, hold printable ASCII only, and decode by their marker to the reason with lone surrogates replaced and cut to 500 whole code points. |
| ReasonHeaders.ReplaceLoneReads | mcp/src/client.ts:15 | Replacing by the pattern is reading the text as scalar values. |
| ReasonHeaders.SameHeadersIff | mcp/src/client.ts:26-37 | Two reasons have the same headers exactly when they read the same up to the cut. |
| ReasonHeaders.PlainIff | mcp/src/client.ts:11-37 | A reason travels as it is exactly when it is printable ASCII up to its five hundredth code point; otherwise percent-encoded and marked. |
| PercentCoding.EncodeUriComponentExact | mcp/src/client.ts:34 | Percent-encoding fails exactly on ill-formed UTF-16, and otherwise decodes to the text (section 2.1 of RFC 3986, section 3 of RFC 3629). |
| PercentCoding.KeptIff | mcp/src/client.ts:34 | Letters, digits and nine marks are left as they are (section 2.3 of RFC 3986 and five more). |
| PercentCoding.EscapeExact | mcp/src/client.ts:34 | Any other character is, byte by byte, a percent sign and two capital hexadecimal digits. |
| FieldPolicy.PickLoop | mcp/src/field-policy.ts:319-327 | The loop keeps exactly the listed keys that are there. |
| FieldPolicy.FilterRecordLoop | mcp/src/field-policy.ts:276-286 | The loop over entries and items is the allowlist filter. |
| PolicyViews.ModelFilterIsView | mcp/src/field-policy.ts:221-286 | A closed gate over one model shows what its view names; the envelope is recognised at the top only. |
| PolicyViews.ModelGateExact | mcp/src/field-policy.ts:221-286 | The gate over one model in full: what is an envelope and what is a record, the four page figures, and exactly the allowed fields of each record. |
| PolicyViews.ArrayGateExact | mcp/src/field-policy.ts:276-286 | Arrays are gone through to any depth, and a record inside one is never an envelope. |
| PolicyViews.ShapeFilterIsView | mcp/src/field-policy.ts:345-646 | So does each of the ten filters for mixed payloads, on payloads of the declared form. |
| PolicyViews.CursorsExact | mcp/src/field-policy.ts:520-625 | Whatever the API answers, a cursor that is shown is the given text or null. |
| FieldViews.AgreeIffSameProjection | mcp/src/field-policy.ts:221-286 | A view shows the same of two values exactly when they agree on what it names. |
| FieldViews.ShownExactly | mcp/src/field-policy.ts:276-286 | A view shows exactly the paths it names, and the leaves as they are. |
| PolicyViews.ModelNoninterference | mcp/src/field-policy.ts:221-286 | Two answers look alike through the closed gate exactly when they agree on the allowlisted fields, at any nesting of arrays. |
| PolicyViews.ShapeNoninterference | mcp/src/field-policy.ts:345-646 | The same for mixed payloads. |
| PolicyViews.ModelGateShowsExactly | mcp/src/field-policy.ts:221-286 | Of any payload of one model exactly the allowlisted paths are shown. |
| PolicyViews.ClosedGateShowsExactly | mcp/src/field-policy.ts:637-646 | Of a mixed payload exactly the named paths are shown. |
| PolicyViews.ModelFilterIdempotent | mcp/src/field-policy.ts:221-286 | Filtering twice is filtering once, and filtering only removes keys. |
| PolicyViews.ShapeFilterIdempotent | mcp/src/field-policy.ts:345-646 | The same for mixed payloads. |
| ToolPipeline.StripKeysLoop | mcp/src/tools.ts:90-101 | The loop removes the keys at every depth. |
| ToolPipeline.Partition | mcp/src/tools.ts:722-758 | The arguments are split into URL, body and headers, which share nothing; a reason or an approval of the wrong form refuses the call. |
| ToolPipeline.RunTool | mcp/src/tools.ts:915-983 | A call is refused before anything is sent, or sends one request and answers what the filters leave of the reply. |
| ToolPipeline.RunRead | mcp/src/tools.ts:921-929 | The same for a read: the fields asked for are peeled off before the path is built. |
| ToolPipeline.RunWrite | mcp/src/tools.ts:931-982 | The same for a write: arguments, gate, reason, path and body are checked in that order. |
| ToolRequests.WriteHeaders | mcp/src/tools.ts:739-748 | Every accepted write is sent with the verb of its tool, with the approval exactly where one was given and as it was given, and with the reason exactly where one was given, trimmed and not empty. |
| ToolRequests.WriteBody | mcp/src/tools.ts:961-980 | What its body holds: every argument that is no parameter and no header, as it was given, and the trimmed reason where the tool declares that field. |
| ToolRequests.WritePath | mcp/src/tools.ts:749-752 | Its path is built of the parameters given and of nothing else. |
| ToolRequests.WriteRefusals | mcp/src/tools.ts:933-956 | The three refusals of a write, in their order, each with its exact condition and the fields it names. |
| ToolRequests.AcceptedWriteIff | mcp/src/tools.ts:931-969 | Exactly which writes are sent. |
| ToolRequests.AcceptedReadIff | mcp/src/tools.ts:891-928 | Exactly which reads are sent, and the fields they select: names on the allowlist of the model, in the order given. |
| ToolRequests.ReadSends | mcp/src/tools.ts:922-926 | A read asks for its path and nothing else. |
| ToolRequests.AnswerFailsIff | mcp/src/tools.ts:701-712 | A refusal by the API is passed on as it is; apart from that only a tool declared in two ways fails after sending. |
| Text.TrimIff | mcp/src/tools.ts:740 | Trimming takes the blanks off both ends and nothing else. |
| ToolSecrecy.StripsExactly | mcp/src/tools.ts:90-101 | Exactly the paths through a stripped key are gone, whatever the gate says. |
| ToolSecrecy.SelectsExactly | mcp/src/tools.ts:59-80 | A choice of fields leaves exactly those fields of each record, and everything around the records of a page. |
| ToolSecrecy.ResultShowsExactly | mcp/src/tools.ts:921-928 | The whole result of a call, path by path: shown exactly what the gate names, under no stripped key, in a field asked for, with the values of the answer. |
| ToolSecrecy.ResultPrunes | mcp/src/tools.ts:701-712 | Gate, stripping and selection only ever remove keys. |
| ToolSecrecy.SessionsAreTheSame | mcp/src/tools.ts:915-983 | Noninterference of whole sessions: of two APIs that see requests only and whose answers to the requests of these tools agree on the allowlisted fields, a caller whose every question may depend on all earlier answers sees the same. Requests and answers are the same. |
| ToolSecrecy.CalledExact | mcp/src/tools.ts:915-983 | A call of such a session adds one answer, and one request exactly where it is not refused. |
| ToolSecrecy.DifferentYetSame | mcp/src/tools.ts:915-983 | There are such APIs that answer every request differently. |
| ToolBody.BuildBody | mcp/src/tool-body.ts:119-225 | A body is what was asked for, unchanged, or a refusal: every declared field as declared, nothing else. |
| ToolBody.AdmitsExact | mcp/src/tool-body.ts:132-219 | What a field of each of the eight kinds takes, character by character. |
| ToolWrites.ClosedGateSendsOnly | mcp/src/tools.ts:936-946 | Through a closed gate a write sends only fields the gate would show, control fields and the reason, with the values of the caller. |
| ToolWrites.ClosedGateAgreesWithOpen | mcp/src/tools.ts:936-946 | The closed gate refuses exactly the calls that supply gated fields; every other call is sent as through an open one. |
| ToolWrites.NoCallGoesThrough | mcp/src/tools.ts:806-812 | A tool that requires a gated field other than the reason refuses every call before sending. |
| ToolWrites.UsableClosedIff | mcp/src/tools.ts:798-812 | Closing the gate makes a tool useless exactly when it requires a gated field other than the reason. |
| ToolWrites.NeedsPersonalDataExact | mcp/src/tools.ts:806-812 | The test behind the listing differs from that by the reason only. |
| VoidTool.VoidingGoesThrough | mcp/src/write-tools.ts:697-719 | Every call of the voiding tool with an identifier, a timestamp and a reason goes through the closed gate. |
| VoidTool.VoidIsHiddenYetUsable | mcp/src/session-level.ts:112-121 | The tool that voids a minute-book entry is hidden by a closed gate, yet there are calls of it that go through: the comment says that a hidden tool refuses every valid call. |
| ToolWrites.StrayArgument | mcp/src/tools.ts:718-755 | An argument that belongs nowhere is refused by tools with a body and silently dropped by tools without one, where the comment promises refusal. |
| ToolInput.BuildPath | mcp/src/tool-input.ts:142-247 | The loop that replaces placeholders and collects the query builds the specified URL or refuses. |
| ToolInput.AcceptsExact | mcp/src/tool-input.ts:160-239 | What an argument of each of the ten kinds takes. |
| UrlRoundTrip.FillSegments | mcp/src/tool-input.ts:157-171 | Replacing first occurrences one after the other is filling in the segments. |
| UrlRoundTrip.UrlIffAccepted | mcp/src/tool-input.ts:142-247 | A well-formed tool answers exactly the acceptable calls with a URL. |
| UrlRoundTrip.PathKeepsSegments | mcp/src/tool-input.ts:31-38 | The path has the segments of its template; no identifier opens another. |
| UrlRoundTrip.OrderIsIrrelevant | mcp/src/tool-input.ts:160-171 | The order of the parameters makes no difference to the path. |
| UrlRoundTrip.PrefixNameIsTakenForAnother | mcp/src/tool-input.ts:170 | Where one placeholder name begins another, it does. |
| UrlReader.ReadsWhatWasGiven | mcp/src/tool-input.ts:142-247 | Splitting and percent-decoding the URL recovers every argument (section 2.1 of RFC 3986); a flag that is off and an empty list read as absent. |
| UrlReader.SameUrlSameArguments | mcp/src/tool-input.ts:142-247 | Two calls with one URL were given the same arguments. |
| References.ResolvesIff | mcp/src/references.ts:100-137 | A reference resolves to a call exactly when, but for blanks around it, it is the reference for that tool and identifier. |
| References.DistinctReferencesDistinctCalls | mcp/src/references.ts:100-137 | Distinct references make distinct calls. |
| References.NoToolIff | mcp/src/references.ts:121-130 | Exactly the references to inherited names are accepted and name no tool. |
| References.RefusedIff | mcp/src/references.ts:100-137 | Every other reference that is not to a record of some kind is refused. |
| References.ResolvedTarget | mcp/src/references.ts:93-137 | Every declared target is reached by its own tool, never by fetch. |
| References.TableIsWellFormed | mcp/src/references.ts:33-46 | The table of targets has distinct kinds and distinct tools. |
| Dispatch.ListedIffLetThrough | mcp/src/server.ts:111-165 | For every level, scope, toolset and realm a call passes all checks exactly when its tool is listed, or hidden by the closed gate alone. |
| Dispatch.HiddenRefusesEveryCall | mcp/src/session-level.ts:115-121 | A tool hidden by the gate alone refuses every call before sending, unless the gated field it requires is the reason. |
| Dispatch.FetchIsItsTarget | mcp/src/server.ts:237-244 | Fetch is dispatched as the call its reference stands for; the recursion ends. |
| Dispatch.OperatorReachesOnlyItsOwn | mcp/src/server.ts:294-335 | In the operator realm nothing but operator tools and the session information is reached, and never through an open gate. |
| Verdicts.ToolVerdict | mcp/src/server.ts:272-291 | A call by a tool's name runs the first tool of that name, with the arguments given and the session's own gate, exactly where its group is enabled and the level suffices; otherwise the first of these refuses it. |
| Verdicts.UnknownIff | mcp/src/server.ts:272-275 | A name is unknown exactly when no tool has it. |
| Verdicts.FileVerdict | mcp/src/server.ts:250-270 | The five outcomes of a call that moves whole files, in their order. |
| Verdicts.OperatorVerdict | mcp/src/server.ts:318-335 | An operator's call runs with the gate closed, or its level is too low. |
| Verdicts.WrongRealmIff | mcp/src/server.ts:298-316 | A name that only a charity's session could use is refused as such, any other as unknown. |
| Verdicts.FetchVerdict | mcp/src/server.ts:237-244 | What becomes of a fetch, by what its reference resolves to. |
| Posture.Resolver.Resolve | mcp/src/session-level.ts:80-103 | A held posture is answered at once; otherwise a call joins the one fetch under way or starts it. |
| Posture.Resolver.Fetched | mcp/src/session-level.ts:83-100 | Every call that waited is told the same: the level the API says, with its scope or, where it says none, the operator's; or the operator's choice where it could not be asked. Only an answer is kept. |
| Posture.OneFetchAtATime | mcp/src/session-level.ts:73-104 | Over any run there is one fetch at a time, each fetch before the last found nothing out, and every call is told once, in turn, the fallback or the answer. |
| Posture.AnswerIsKept | mcp/src/session-level.ts:58-66 | Once the API has answered, nothing more is fetched and every later call is told that. |
| Posture.RunGoesOn | mcp/src/session-level.ts:80-103 | A call can be made at any time, and a fetch ends exactly when one is under way. |
| Redact.NothingNewAppears | mcp/src/redact.ts:19-20 | No pass makes bracket-free text of more than eight characters that was not there. |
| Redact.ReplacedIsGone | mcp/src/redact.ts:19 | A replaced secret does not occur any more. |
| Redact.PassLeavesOnlyMarkers | mcp/src/redact.ts:3-6 | After a pattern has been applied every credential it knows is the marker. |
| Redact.BearerExact | mcp/src/redact.ts:4 | Exactly what the first pattern matches, and how much of it is replaced. |
| Redact.CookieExact | mcp/src/redact.ts:5 | The same for the second. |
| Redactor.NoSecretSurvives | mcp/src/redact.ts:16-22 | For any set of overlapping or nested secrets and any input no bracket-free secret is left, and both patterns find markers only: the second does not undo the first. |
| Redactor.Redactor.RegisterSecret | mcp/src/redact.ts:8-10 | Only secrets of more than eight characters are kept. |
| Redactor.Redactor.Ordered | mcp/src/redact.ts:18 | The secrets, each of them, longest first. |
| Redactor.Redactor.RedactSecrets | mcp/src/redact.ts:16-22 | The loops establish that guarantee. |
| Redactor.BracketedSecretCanAppear | mcp/src/redact.ts:19 | A secret with brackets can be put together by redacting another. |
| Redactor.EightCharactersAreNotEnough | mcp/src/redact.ts:9 | With eight characters "redacted" would survive its own redaction. |
| RecurringJob.Job.RunAndSchedule | apps/api/src/jobs/production-scheduler.ts:993-1005 | A timeout that fires starts one run, or nothing once the job is stopped. |
| RecurringJob.Job.Continue | apps/api/src/jobs/production-scheduler.ts:1006-1011 | The end of a run plans the next one unless the job is stopped. |
| RecurringJob.Job.Stop | apps/api/src/jobs/production-scheduler.ts:1018-1022 | Stopping cancels the timeout and waits for the run that is active then. |
| RecurringJob.DelayBounds | apps/api/src/jobs/production-scheduler.ts:980-991 | Each delay lies between the interval and the rounded interval times one plus the clamped jitter. |
| RecurringJob.DelayExact | apps/api/src/jobs/production-scheduler.ts:980-991 | The delay is the interval itself without jitter, and otherwise the interval and the random share of the clamped jitter to the nearest millisecond. |
| RecurringJob.ContinuesExact | apps/api/src/jobs/production-scheduler.ts:1006-1012 | What follows a run is one timeout and one such delay, unless the job was stopped. |
| RecurringJob.NeverTwoRuns | apps/api/src/jobs/production-scheduler.ts:993-1012 | In every interleaving there is one run, one continuation or one timeout at most, and until the job is stopped exactly one. |
| RecurringJob.NoneStartsAfterStop | apps/api/src/jobs/production-scheduler.ts:994-1023 | After stop no run is started and no timeout is pending. |
| RecurringJob.StopWaitsIff | apps/api/src/jobs/production-scheduler.ts:1005-1022 | However things go on, no run is at work once a stop has resolved: true of exactly the stops that a run does not call while it is being entered. |
| RecurringJob.SomeRunIsEntered | apps/api/src/jobs/production-scheduler.ts:993-1005 | A run can be at that point with a stop in hand. |
| JobShutdown.TrueMeansIdle | apps/api/src/jobs/production-scheduler.ts:1026-1038 | When the wait for all jobs answers true nothing is running in any of them, then or later. |
| JobShutdown.AnswersFalseIff | apps/api/src/jobs/production-scheduler.ts:1030-1037 | It answers false exactly when its timeout fires before the last stop has resolved. |
| JobShutdown.WaitBegins | apps/api/src/jobs/production-scheduler.ts:1030-1037 | The wait begins once every job has been told to stop. |
| JobShutdown.WaitGoesOn | apps/api/src/jobs/production-scheduler.ts:1030-1037 | It goes on with everything that can happen, and its first answer stands: true with the last stop that resolves, false with the timeout. |
| ReconcileRun.ProcessTenant | apps/api/src/jobs/production-scheduler.ts:653-685 | One tenant: its pages are what the claim answered and its result what the reconciliation answered; it is given up exactly where a service threw. |
| ReconcileRun.VisitExact | apps/api/src/jobs/production-scheduler.ts:668-685 | A visit effect by effect: the claim, the reconciliation of what was claimed, each reading in turn with the state of the first claimed page of its identifier or none, and an outcome exactly for a claim that was not empty. |
| ReconcileRun.VisitsFollow | apps/api/src/jobs/production-scheduler.ts:647-694 | The visits of a run follow each other whole. |
| ReconcileRun.AuditsExact | apps/api/src/jobs/production-scheduler.ts:701-739 | Exactly the notices of what has expired are audited, each once, in order. |
| ReconcileRun.ReportExact | apps/api/src/jobs/production-scheduler.ts:744-752 | The report counts what was done: outcomes recorded, readings recorded, tenants passed over, notices, and whether the last result aborted the run. |
| ReconcileRun.ProcessTenants | apps/api/src/jobs/production-scheduler.ts:647-694 | The tenants are taken in turn up to the first abort, each with what the services answered for it, and the counters count them. |
| ReconcileRun.RunShape | apps/api/src/jobs/production-scheduler.ts:625-752 | A completed run in its order: orphans, an alert where they could not be retired, listing, visits, sweep, audits, report. |
| ReconcileRun.RunDocumentReconcile | apps/api/src/jobs/production-scheduler.ts:614-766 | Orphans are retired first whatever follows; a run completes exactly when no service that it depends on throws, and then did what was listed, claimed and answered; one that does not complete fails with an alert as its last act. |
| ReconcileRun.CountsAddUp | apps/api/src/jobs/production-scheduler.ts:674-680 | Visited and skipped make up the tenants processed. |
| ReconcileRun.ClaimsAreBounded | apps/api/src/jobs/production-scheduler.ts:642-657 | Pages claimed are at most tenants per run times pages per run. |
| ReconcileRun.VisitsRecord | apps/api/src/jobs/production-scheduler.ts:668-685 | The outcomes and readings recorded in a run are exactly those due. |
| ReconcileRun.SweepIsOnceAndLast | apps/api/src/jobs/production-scheduler.ts:604-607 | The dormancy sweep runs once, after everything that touches a tenant. |
| Reminder.Reminders.Execute | apps/api/src/jobs/reconcile-deadline-reminder.ts:129-223 | Each command leaves exactly the rows and gives exactly the answer of the specification. |
| Reminder.CutoverRows | apps/api/src/jobs/reconcile-deadline-reminder.ts:172-196 | Every row after the cutover, column by column: reservations released, deliveries of unknown fate uncertain, all others as they were. |
| Reminder.CutoverCounts | apps/api/src/jobs/reconcile-deadline-reminder.ts:187-204 | What it counts, and exactly when it refuses. |
| Reminder.ListingExact | apps/api/src/jobs/reconcile-deadline-reminder.ts:122-170 | A list and a check change nothing and say what is still in the way. |
| Reminder.ReconcileExact | apps/api/src/jobs/reconcile-deadline-reminder.ts:206-222 | A reconciliation records outcome, operator, reference and time in one uncertain row without evidence, or changes nothing. |
| Reminder.StepKeeps | apps/api/src/jobs/reconcile-deadline-reminder.ts:172-222 | No command makes or loses a row, breaks a check of the table, touches recorded evidence, or changes a row that was not in the way. |
| Reminder.RunKeeps | apps/api/src/jobs/reconcile-deadline-reminder.ts:129-223 | Nor does any run of commands. |
| Reminder.CutoverExact | apps/api/src/jobs/reconcile-deadline-reminder.ts:172-204 | The cutover leaves no reservation even when it refuses, succeeds exactly when nothing was being sent and nothing is unreconciled, and changes nothing a second time. |
| Reminder.ReachesClearIff | apps/api/src/jobs/reconcile-deadline-reminder.ts:122-127 | After it, reconciling each listed row reaches clear exactly when no row being sent already carried evidence. |
| Reminder.LawfulReachesClear | apps/api/prisma/migrations/20260710190000_add_deadline_calendar_lifecycle/migration.sql:998-1018 | The checks of the table rule that out. |
| Phrases.RebindPhraseInjective | apps/api/src/jobs/rebind-personal-server-auth-recovery-secret.ts:221-244 | Equal phrases are of the same recovery set, manifest, control state, generation, counts and database. |
| Phrases.RecoveryPhraseInjective | apps/api/src/jobs/recover-document-storage-deletion.ts:126-136 | Equal phrases are of the same deletion, organisation, attempts, reason, disposition, authority and path. |
| Phrases.ReleasePhraseInjective | apps/api/src/jobs/reconcile-billing-authority.ts:124-134 | Equal phrases are of the same grant, organisation, state and reason, whatever words and blanks an organisation identifier is made of. |
| Phrases.ComposeInjective | apps/api/src/jobs/rebind-personal-server-auth-recovery-secret.ts:229-243 | Fixed text and words in turn can be read back. |
| Decimal.ValueOfDigits | apps/api/src/jobs/rebind-personal-server-auth-recovery-secret.ts:234-240 | Printed numbers are read back. |
| Arguments.ScanArguments | apps/api/src/jobs/reconcile-billing-authority.ts:139-144 | The loop that skips the argument after an option with a value. |
| Arguments.AcceptedIffCommand | apps/api/src/jobs/reconcile-billing-authority.ts:136-149 | Arguments are accepted exactly when they are some command written out: options each given once, in any order; no value is taken for an option. |
| Arguments.ValueIff | apps/api/src/jobs/reconcile-billing-authority.ts:90-96 | What can be the value of an option. |
| Arguments.RenderedIsRead | apps/api/src/jobs/reconcile-billing-authority.ts:90-96 | Every option is read as it was given. |
| Billing.Store.UpdateMany | apps/api/src/jobs/reconcile-billing-authority.ts:503-523 | The conditional update changes the one row that still is as it was read, or none. |
| Billing.Store.Execute | apps/api/src/jobs/reconcile-billing-authority.ts:423-533 | Each command leaves exactly the grants and gives exactly the answer of the specification. |
| Billing.ReleaseExact | apps/api/src/jobs/reconcile-billing-authority.ts:449-527 | Exactly which releases are accepted, and what each of them records. |
| Billing.CheckInputExact | apps/api/src/jobs/reconcile-billing-authority.ts:357-408 | The first check of the command line that a command fails, if any: trimmed texts of limited length, a lower-case UUID, no secret, verified authority, and quiescence exactly where it applies. |
| Billing.GrantRefusals | apps/api/src/jobs/reconcile-billing-authority.ts:449-500 | Each refusal by the database with its exact condition. |
| Billing.CheckGrantIff | apps/api/src/jobs/reconcile-billing-authority.ts:237-289 | Exactly which grants can be released for which reason. |
| Billing.ListExact | apps/api/src/jobs/reconcile-billing-authority.ts:428-448 | A list is of the grants that are held. |
| Billing.DryRunIffRelease | apps/api/src/jobs/reconcile-billing-authority.ts:449-500 | In the same state a dry-run is accepted exactly when the release with its printed phrase is. |
| Billing.PhraseBindsTarget | apps/api/src/jobs/reconcile-billing-authority.ts:405-407 | A printed phrase releases the grant, organisation, state and reason it was printed for, and nothing else. |
| Billing.RuntimePhraseBindsTarget | apps/api/src/jobs/reconcile-billing-authority.ts:357-408 | So it is behind the checks of the command line, which let only word-like grant names through. |
| Billing.CommandChanges | apps/api/src/jobs/reconcile-billing-authority.ts:478-527 | Lists, dry-runs and refusals change nothing; a release changes one grant, for a supported reason, and keeps its record. The checks of the table never refuse it. |
| Billing.ReleasedIsLawful | apps/api/prisma/migrations/20260711120000_add_billing_authority_grants/migration.sql:88-206 | A release for a supported reason satisfies every check of the table. |
| Billing.ReleasedAtMostOnce | apps/api/src/jobs/reconcile-billing-authority.ts:478-480 | Over any run each grant is released at most once and never changes afterwards. |
| Billing.ReasonsAreSupported | apps/api/src/jobs/reconcile-billing-authority.ts:237-289 | Over any run every grant is released for a reason its recorded evidence supports. |
| DocumentRecovery.Run | apps/api/src/jobs/recover-document-storage-deletion.ts:403-513 | The job answers as specified, check by check, and hands on only what passes all of them. |
| DocumentRecovery.DryRunExact | apps/api/src/jobs/recover-document-storage-deletion.ts:424-481 | Exactly which dry-runs are answered, and with what evidence and phrase. |
| DocumentRecovery.ExecutionIff | apps/api/src/jobs/recover-document-storage-deletion.ts:411-499 | Exactly which executions are handed on. |
| DocumentRecovery.RefusalsExact | apps/api/src/jobs/recover-document-storage-deletion.ts:411-499 | What the others are told. |
| DocumentRecovery.DryRunIffExecution | apps/api/src/jobs/recover-document-storage-deletion.ts:468-499 | While nothing changes, what a dry-run prints is what an execution takes. |
| DocumentRecovery.PhraseBindsReview | apps/api/src/jobs/recover-document-storage-deletion.ts:482-499 | A printed phrase executes only what its dry-run was of, with attempts, reason and authority as reviewed. |
| SeedPdf.WriteFile | apps/api/prisma/seed.ts:92-105 | The loops write the specified file. |
| SeedPdf.SeededDocumentPdf | apps/api/prisma/seed.ts:83-108 | For every name the file of its five objects. |
| SeedPdf.FiveObjects | apps/api/prisma/seed.ts:85-91 | Its five objects. |
| SeedPdf.ObjectsInFull | apps/api/prisma/seed.ts:85-91 | Each object has its number in front. |
| SeedPdf.StreamInFull | apps/api/prisma/seed.ts:89 | The object with the content says how many bytes that has. |
| SeedPdf.TailOfFive | apps/api/prisma/seed.ts:100-105 | What follows them: six entries, the free one first, the size of the table, and the position of the table as a number that reads as it. |
| SeedPdf.OffsetIsExact | apps/api/prisma/seed.ts:95-98 | Each recorded offset is the exact byte position of its object. |
| SeedPdf.NumberedInPlace | apps/api/prisma/seed.ts:85-98 | At each offset stands the number of the object and "0 obj". |
| SeedPdf.XrefIsExact | apps/api/prisma/seed.ts:100-105 | The recorded startxref is the byte position of "xref" (section 7.5.4 of ISO 32000-1). |
| SeedPdf.EntryIsTwentyBytes | apps/api/prisma/seed.ts:103 | An entry is twenty bytes exactly when ten digits hold its offset. |
| SeedPdf.EntryReads | apps/api/prisma/seed.ts:103 | Its ten digits are read as the offset. |
| SeedPdf.EntryInPlace | apps/api/prisma/seed.ts:101-104 | In a file of less than ten thousand million bytes each entry stands in its place in the table. |
| SeedPdf.StreamInPlace | apps/api/prisma/seed.ts:84-98 | In the file of every document the length that the fourth object declares is the number of bytes between stream and endstream, and those are the bytes of the content (section 7.3.8 of ISO 32000-1). |
| PdfString.ReadsEscaped | apps/api/prisma/seed.ts:79-81 | A reader of literal strings stops at the right parenthesis and reads the text, ends of lines as line feeds (section 7.3.4.2 of ISO 32000-1). |
| PdfString.NameIsReadBackIff | apps/api/prisma/seed.ts:79-98 | In the file of every document the literal string, read from its left parenthesis on, is the label and the name, with the very bytes of the name exactly when it has no carriage return. |
| Credentials.AccountsNeverCollide | mcp/src/credentials.ts:124-128 | No two of version, realm and origin share an account, and none has the old shared one. |
| Credentials.BoundStore.Read | mcp/src/credentials.ts:371-386 | The token for this origin, none, or a refusal. |
| Credentials.BoundStore.Write | mcp/src/credentials.ts:387-390 | The write binds the token to the origin, or changes nothing. |
| Credentials.BoundStore.Clear | mcp/src/credentials.ts:176-181 | The entry goes, and the old shared one with it where it is this host's. |
| Credentials.ReadExact | mcp/src/credentials.ts:371-386 | Exactly which token a store gives out, from its own entry or the old shared one, and when it refuses. |
| Credentials.ClearExact | mcp/src/credentials.ts:170-181 | Exactly which entries a clear takes away, and when it fails. |
| Credentials.Keyring.Delete | mcp/src/credentials.ts:39-58 | What a clear reports, for a keyring that works, is locked, or cannot be changed. |
| Credentials.ReadsLast | mcp/src/credentials.ts:143-183 | Over any run of stores for any hosts and realms a store gives out the last token written for its own origin and realm, and none after a clear. |
| Credentials.ClearLeavesOthersIff | mcp/src/credentials.ts:176-181 | A clear changes what another host reads exactly when both honour the old shared entry, it is bound to no origin, and the other has none of its own. |
| Credentials.ClearReportsTruthIff | mcp/src/credentials.ts:46-52 | A reported clear is one exactly when the keyring was not locked. |

## Left out

- The database, the operating system's keyring, sockets, fetch, clocks and randomness: maps, parameters and outcomes chosen by the world. The locks of a transaction are its atomicity.
- SHA-256: a digest is a number printed in 64 hexadecimal places, so two databases or paths with one digest count as the same.
- JSON text: the model starts from parsed values; `JSON.parse(JSON.stringify(x))` is taken to be `x`, and a property that is `undefined` to be absent.
- Names that JavaScript objects inherit: they matter in `References`, where such a kind resolves to no tool (`NoTool`); for records, policies and `fields` they are not modelled.
- ToolRequests.WriteHeaders: an approval that is the empty text is handed to the client, which then sends no approval header.
- Error messages and guidance: a refusal is a kind, not its wording; where several arguments are wrong, which is reported first.
- Two calls that race inside one connector process: the single flight of `Session.accessToken` makes one process one actor of the protocol.
- `approve` and `describeApproval` in session.ts, `download` and the refusal parsing in client.ts: single requests around the modelled parts.
- The advertised JSON schemas, descriptions and annotations: generated text.
- The tables of tools, allowlists and groups are parameters with the well-formedness that the theorems state; only the table of references is written out.
- ToolSecrecy.SessionsAreTheSame: answers of the mixed payloads are of the declared form, since some filters return a malformed payload unchanged.
- Redactor.NoSecretSurvives: says nothing of secrets that contain a square bracket; `BracketedSecretCanAppear` is why.
- Phrases.RebindPhraseInjective: takes the recovery-set identifier as any text without a blank, which its pattern implies.
- Billing.Store.Execute: whether provider evidence reads like a URL or a secret is a parameter, and control characters are those the job tests, not those of the database's own character classes.
- RecurringJob.DelayBounds: over real numbers, so without floating-point rounding.
- ReconcileRun.RunDocumentReconcile: times of records are not modelled, and the limits of a listing and a claim are what the services promise.
- Credentials.IsOrigin: an origin is lower-case text with a scheme and two slashes, or "null"; parsing URLs is not modelled. The file store is one entry and would add nothing.
- Claims of dead-letter alerts, and the services behind the scheduler's runners: they rest on services that are not part of this model.
- The triggers of the database that refuse updates the jobs never make.
- The environment checks of the offline jobs, the host screening of recover-document-storage-deletion.ts and assertLinuxLockPortSafe: finite case tables.
- Demo data, slugs and storage paths in the seed script.
