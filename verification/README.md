# The Passport ledger and its delivery machinery

A Dafny model, with proofs, of the NextGen "Passport" ledger and of what is built around it:

- **The ledger** (`Ledger`, `LedgerRuns`, `Repeats`, `Interleaving`, `Forks`). An append reads the head of the
  passport early, is checked against an idempotency record and against the state its caller expects, and commits late:
  a compare-and-set on the revision, a sequence number, an entry chained to the remembered head, a seal, the new head,
  a receipt and an idempotency record. `Ledger.PassportStore` performs these database calls in place. `LedgerRuns` lets
  any number of appends interleave at every database call, with the transaction of strict mode as one step; faults,
  crashes and the clean-up after a failure are steps too. `Repeats` follows the idempotency record of a key through
  such runs. `Interleaving` is the mode without a transaction, `Forks` says exactly what that mode loses.
- **The checker** (`Seals`, `Verifier`, `Evidence`, `Faults`). The bounded walk over whatever rows are stored, and what
  its answer is worth: an exact reading of a clean answer, agreement with the writer, evidence of altered history, and
  the fault behind each code.
- **The conflict queue** (`Conflicts`), where identical refused appends share one active record.
- **The outbox** (`Outbox`, `OutboxRuns`, `OutboxHistory`, `Leases`): emission, leases, retries with backoff, dead
  letters, replay, and the backlog report, with workers that may act long after their lease ran out.
- **The dead-letter scrubber** (`Sanitizer`, `Redaction`, `Abridged`, `StoredSize`, `JsonText`): a recursive traversal
  that shares one byte budget and one set of flags; what it hides, what it keeps of a payload, and how large that is.
- **Derived state** (`Projection`, `Reports`, `ReportRuns`, `DeliveryRequests`, `Announcements`): drift between a
  projection marker and the ledger head, and the report lifecycle that feeds the outbox.
- **Two algorithms**: the sliding-window limiter of development logins (`RateLimiting`), and the Newell sums behind
  roof facets (`Newell`).

SHA-256 and HMAC (section 2 of RFC 2104) are symbolic: a digest remembers the body it was made from, so two digests
agree exactly when their bodies do. A stored hash field may also hold any other text. Times are integers (real numbers
in the limiter), payloads of ledger entries are opaque strings, identifiers and clock readings are parameters.

Code that updates rows or fields in place is a class or a method with loops, proved equal to a function of the old
state; the main theorems are about those functions, over every input, every run and every reachable state.

## Where the code does less than its comments say

- A FAILED idempotency record is documented as allowing a retry (`backend/nextgen/passport_service.py:403-410`). It
  never does: the retry passes the pre-check and then meets the unique index on the key, in every later state
  (`LedgerRuns.RecordedKeyIsSpent`, `LedgerRuns.RetryAfterFailureFails`; `Repeats.FailedRequestFailsAgain` is a run;
  `LedgerRuns.CommitsIff` gives the exact condition under which an append commits).
- Repeating a committed request returns the original exactly if no call of the same key that was already past its
  pre-check when the entry was committed has recorded a failure since (`Repeats.OriginalReturnedIff`,
  `Repeats.RecordKeptIff`). Calls of a key that never overlap are one way to have that
  (`LedgerRuns.RepeatReturnsOriginal`); a request sent twice at once is a run that loses it
  (`Repeats.RepeatedRequestSpoilsRecord`).
- The checker answers VALID for a passport whose entries are all gone, whatever its head says
  (`Evidence.EmptyHistoryPasses`); this is the only shortened history it accepts (`Evidence.PrefixAcceptedIff`).
- The checker has nothing to compare a passport with that was never written: it skips an empty head and compares only
  the last revision (`backend/nextgen/passport_verify.py:218-234`). A forged unsealed entry with revision 0 is accepted
  (`Evidence.ForgedEntryPasses`; `Evidence.UnwrittenPassportIff` says exactly what is). Next to a passport with entries
  it accepts the written history or none (`Evidence.AlteredHistoryIsFlagged`).
- A governed publication happens at most once per idempotency key (`Ledger.PublishedOncePerKey`), not once per source:
  under two keys of the caller's own a source is published twice (`Ledger.TwoKeysPublishTwice`). The key derived from
  a source does not name it either: it is also that of another source whose type contains `.publish:` and continues
  the first one (`Ledger.PublishKeysAgreeIff`).
- Callers choose the schema version of an entry freely, so a sound ledger may be answered with UNSUPPORTED_SCHEMA
  (`Evidence.WriterCheckerAgree` gives the exact answer).
- Without a transaction two neighbouring entries are linked exactly if `head_claim_pending` was clear when the writer
  of the second one read the passport row, a field that it reads and does not test (`Forks.LinkedIff`,
  `Forks.ChainedIff`; `Forks.ChainCanFork` is a run that forks).
- Without a transaction, once no call is under way any more, the counts are right exactly if the calls that failed
  behind their claim left equally many unreleased claims, drawn numbers and inserted entries
  (`Forks.CountsAgreeIff`). After a single failure, whatever else was going on, that is so in two cases only: nobody had
  claimed on top and the caller had drawn no number, or somebody had and the caller had inserted its entry
  (`Forks.FailureRepairedIff`; `Forks.SupersededCaller` is a run that reaches the second case).
- `max_bytes` of the scrubber does not bound what is stored: keys and brackets are not charged
  (`StoredSize.KeysAndContainersAreFree`), and a text is charged by its JSON bytes but cut by its characters
  (`StoredSize.EscapesAreFree`). A payload of any kind is stored untruncated and within the limit exactly if nothing
  in it has to be cut for its own sake and its copy, with secrets and binaries replaced, is within the limit
  (`StoredSize.WholeWithinLimitIff`); every stored payload keeps to a bound in the limit, the outline and the number of
  containers (`StoredSize.StoredSizeBound`).
- A row is both delivered and dead-lettered exactly if an outcome was recorded on a row that already had the opposite
  one and no replay followed (`OutboxHistory.BothIff`; `OutboxRuns.LateDeliveryOfDeadLetter` is a run). The delivery
  lacks the filter on `dead_lettered_at` and the dead letter the filter on `delivered_at`. If outcomes come
  within the lease or never, and replay touches only dead letters, it does not happen (`OutboxRuns.OnTimeOutbox`).
- `max_attempts` bounds the attempts only of events whose workers do not crash: each claim given up without an outcome
  allows one more (`Leases.AttemptsWithinCrashes`; `Leases.CrashExceedsLimit` is a run).
- A failure is recorded without asking who holds the lease (`backend/nextgen/outbox_worker.py:575-590`), so a late one
  ends the running lease of another worker and the event is handed out twice (`Leases.StaleFailureFreesLease`;
  `Leases.LeaseEndsIff` says which steps end a lease, `Leases.SecondClaimNeedsEndedLease` that nothing else does it).
- The acknowledgement that a delivery needs (`backend/nextgen/report_publication.py:590-601`) guards only the mark; a
  bare transition reaches DELIVERED without it (`ReportRuns.DeliveredWithoutConsumer`, `ReportRuns.DeliveringSteps`).

## Model

| member | source | states |
|---|---|---|
| Ledger.PassportStore.constructor | backend/nextgen/passport_service.py:172-193 | A provisioned passport has revision 0, no head, next sequence number 1 and no rows. |
| Ledger.PassportStore.NextSeq | backend/nextgen/passport_service.py:211-222 | Hands out the current sequence number and advances the sequence row by one. |
| Ledger.PassportStore.Restore | backend/nextgen/passport_service.py:636-639 | An aborted transaction puts every collection back as it was. |
| Ledger.PassportStore.CommitBody | backend/nextgen/passport_service.py:491-633 | The transaction body, call by call, has exactly the effect of the specification `Commit`, or none and the reason. |
| Ledger.PassportStore.ReleaseClaimedRevision | backend/nextgen/passport_service.py:695-713 | Gives back a revision that is claimed and still pending, clears the marker, and changes nothing else. |
| Ledger.PassportStore.UpsertFailed | backend/nextgen/passport_service.py:677-690 | Marks the key's record FAILED with the new fingerprint, keeping any entry and receipt it names. |
| Ledger.PassportStore.AppendEntry | backend/nextgen/passport_service.py:340-746 | An uninterrupted append: refused, repeated, without transaction, committed, or failed and cleaned up; `LedgerRuns.AppendAnswers` says which, and `LedgerRuns.AdmitAnswers` over which nine request fields a repeated key is compared. |
| Ledger.PassportStore.PublishGoverned | backend/nextgen/governed_publish_service.py:65-182 | A governed publication commits only if it names the state it replaces, and always under an idempotency key. |
| Ledger.FingerprintsAgreeIff | backend/nextgen/passport_service.py:53-86 | Two requests have the same fingerprint exactly if they agree on source type and id, entry type, payload, schema version, context, expected revision, expected head and the demand for an expected state. |
| Ledger.GovernedFields | backend/nextgen/governed_publish_service.py:101-137 | What a governed publication asks of the ledger: the source, the caller's key or one derived from the source, the caller's context or the source, and the demand for an expected state; all else is the caller's. |
| Ledger.GovernedSame | backend/nextgen/governed_publish_service.py:118-138 | Two governed publications are the same request exactly if source, content, schema, expected state and effective context agree. |
| Ledger.PublishKeysAgreeIff | backend/nextgen/governed_publish_service.py:101 | Two sources have the same derived key exactly if they are the same, or the type of one contains the mark and the rest of its key continues the other's. |
| Ledger.PublishedOncePerKey | backend/nextgen/governed_publish_service.py:87-138 | After a governed publication, and on any later ledger on which the record of its key is unchanged, another one with the same effective key (the caller's, or the one derived from the source) writes nothing: if source, content, schema, context and expected state are the same it gets the original entry and receipt back, otherwise it is turned away. |
| Ledger.TwoKeysPublishTwice | backend/nextgen/governed_publish_service.py:101-138 | One source published under two keys of the caller's own leaves two committed entries. |
| LedgerRuns.CommitShape | backend/nextgen/passport_service.py:524-602 | The whole ledger after a commit, field by field: one entry behind all earlier ones with the request's content, time, hash, key, schema version and the seal that the environment can make; head, sequence, one receipt and the key's record, made for exactly this request. |
| LedgerRuns.CommitErrors | backend/nextgen/passport_service.py:498-622 | On a reachable ledger, which of the three reasons aborts a transaction, exactly. |
| LedgerRuns.CommitAnswers | backend/nextgen/passport_service.py:498-622 | The same on any rows: the compare-and-set compares the revision, and the head if one was expected. |
| LedgerRuns.StaleIff | backend/nextgen/passport_service.py:412-419 | A request is current exactly if the revision and the head that it names, if any, are those of the passport; an empty expected head fits a passport without head. |
| LedgerRuns.AdmitAnswers | backend/nextgen/passport_service.py:340-419 | Which answer the pre-check gives: missing expected state, a conflict exactly for a recorded request that differs in one of the nine fields, the stored record exactly for a committed one that does not, stale, or admission. |
| LedgerRuns.AppendAnswers | backend/nextgen/passport_service.py:340-746 | Which answer an uninterrupted append of a sound ledger gives, and what it leaves behind, in every case. |
| LedgerRuns.FailureRecord | backend/nextgen/passport_service.py:677-690 | A failure changes the record of its key alone: it says FAILED for this request and keeps the entry and receipt that it named. |
| LedgerRuns.CommitKeepsChain | backend/nextgen/passport_service.py:498-583 | A commit against a stale but matching snapshot still extends the chain and moves the head to the new entry. |
| LedgerRuns.CommitKeepsReceipts | backend/nextgen/passport_service.py:585-602 | Every entry keeps its own receipt, with its id, hash, sequence number and revision. |
| LedgerRuns.CommitKeepsKeys | backend/nextgen/passport_service.py:604-622 | Every keyed entry is named by the record of its key; every committed record names an entry and receipt made for its fingerprint. |
| LedgerRuns.CommitFulfils | backend/nextgen/passport_service.py:412-419 | A commit writes what was asked, on top of exactly the revision and head that the request expected. |
| LedgerRuns.StepKeepsInv | backend/nextgen/passport_service.py:251-746 | Every step of every caller keeps the ledger invariant and only extends the history. |
| LedgerRuns.RunKeepsInv | backend/nextgen/passport_service.py:251-746 | The invariant holds in every state that any interleaving reaches. |
| LedgerRuns.ChainTheorem | backend/nextgen/passport_service.py:491-633 | In every reachable state the entries carry sequence number and revision 1..n in commit order, each chained to its predecessor, and passport, sequence row and receipts agree. |
| LedgerRuns.HistoryOnlyGrows | backend/nextgen/passport_service.py:572-583 | An earlier ledger is a prefix of every later one. |
| LedgerRuns.HeadsNeverRepeat | backend/nextgen/passport_service.py:526-535 | The head after m entries differs from the head after n entries. |
| LedgerRuns.NoLostUpdate | backend/nextgen/passport_service.py:412-419 | A committed append found exactly what it expected; of all appends expecting the same revision or head at most one ever commits. |
| LedgerRuns.GovernedWritesArePinned | backend/nextgen/governed_publish_service.py:87-138 | An entry written for a caller that must name the expected state directly follows the revision or head it named. |
| LedgerRuns.OneEntryPerKey | backend/nextgen/passport_indexes.py:64-71 | At most one entry per idempotency key, despite races, retries and FAILED overwrites. |
| LedgerRuns.CommitsIff | backend/nextgen/passport_service.py:498-622 | On a reachable ledger a transaction commits exactly when the revision is unchanged, sealing is possible or optional, the entry id is new and the key has never been recorded. |
| LedgerRuns.RecordedKeyIsSpent | backend/nextgen/passport_service.py:604-622 | Once a key has a record, committed or failed, no later entry is ever written with it. |
| LedgerRuns.RetryAfterFailureFails | backend/nextgen/passport_service.py:403-410 | Wherever the record of a key says FAILED for the same request, that request is admitted unless stale and then fails, whatever seal, ids and head it meets. |
| LedgerRuns.GovernedCommitsIff | backend/nextgen/governed_publish_service.py:87-138 | A governed publication of a sound ledger commits exactly if it names the current state, has a session and a seal or needs none, a new entry id, and an effective key without a record. |
| LedgerRuns.StepKeepsKeyInv | backend/nextgen/passport_service.py:354-410 | While calls of a key do not overlap, the key's record keeps naming its committed entry. |
| LedgerRuns.RepeatReturnsOriginal | backend/nextgen/passport_service.py:354-402 | When calls of a key never overlap, repeating a committed request, the same in all nine fields, yields the record of the original entry and receipt and touches no row; a request that differs in one of them is turned away. |
| LedgerRuns.OverlapHidesCommittedEntry | backend/nextgen/passport_service.py:649-690 | From any state with two admitted calls of a key on one snapshot, the second leaves the committed entry of the first and a FAILED record with its own fingerprint. |
| Repeats.RecordKeptIff | backend/nextgen/passport_service.py:677-690 | A committed idempotency record is kept unchanged exactly as long as no call that was past its check when it was committed records a failure; otherwise it says FAILED for good. |
| Repeats.WriteMoment | backend/nextgen/passport_service.py:604-622 | Every entry of a call was written by one transaction step of that call, which left a committed record with its fingerprint. |
| Repeats.CheckAnswer | backend/nextgen/passport_service.py:354-410 | A check is answered with the stored record exactly if that is committed for a request that agrees on the nine fields, and as a conflict exactly if one of them differs. |
| Repeats.OriginalReturnedIff | backend/nextgen/passport_service.py:354-402 | In every run, repeating a committed request returns the record of its entry and receipt exactly if no call already past its check at the commit has recorded a failure since. |
| Repeats.RepeatedRequestSpoilsRecord | backend/nextgen/passport_service.py:649-690 | A concrete run: a request sent twice leaves its one committed entry and a FAILED record. |
| Repeats.FailedRequestFailsAgain | backend/nextgen/passport_service.py:695-740 | A concrete run: a request fails, its retry is admitted, and breaks on the failure record. |
| LedgerRuns.AloneIsUninterrupted | backend/nextgen/passport_service.py:340-746 | The uninterrupted append is one schedule of the interleaved machine, with the same rows and the same answer. |
| Interleaving.StepKeepsClaims | backend/nextgen/passport_service.py:496-522 | Each revision has exactly one winner, also when calls interleave without a transaction. |
| Interleaving.StepKeepsHead | backend/nextgen/passport_service.py:574-583 | Once the newest winner has moved the head, the head stays its entry. |
| Interleaving.StepKeepsTickets | backend/nextgen/passport_service.py:211-222 | Each sequence number is drawn by exactly one winner. |
| Interleaving.StepKeepsEntries | backend/nextgen/passport_service.py:546-572 | Each entry belongs to one winner and carries its number and revision. |
| Interleaving.CountStages | backend/nextgen/passport_service.py:496-583 | Winners, drawn numbers and inserted entries are counted by the revision, the sequence row and the entries. |
| Interleaving.QuiescentLedger | backend/nextgen/passport_service.py:482-583 | At quiescence revisions and sequence numbers are gap-free permutations of 1..n, n is the revision, and the head is the entry of revision n. |
| Interleaving.LoserLeavesNothing | backend/nextgen/passport_service.py:496-522 | A caller that lost the compare-and-set has left no row and drawn no number. |
| Interleaving.EntryIsAsRequested | backend/nextgen/passport_service.py:489-583 | Behind every entry there are four steps of its writer in order: it began, its claim found the state it began with, it drew the entry's number, and it inserted exactly what it was asked to write, chained to the head it began with. |
| Interleaving.ClaimWinsIff | backend/nextgen/passport_service.py:496-522 | A claim wins exactly if the revision, and the head if one was named, are those that the call began with; a lost claim changes nothing else. |
| Forks.StepKeepsExcess | backend/nextgen/passport_service.py:496-583 | No step of a call that goes on changes how far the revision, the sequence row and the entries are ahead of the calls that account for them. |
| Forks.FailureAddsLoss | backend/nextgen/passport_service.py:695-713 | A failure and its release put the counters ahead by the unreleased claim, the drawn number and the inserted entry of the failed call. |
| Forks.FailureReleases | backend/nextgen/passport_service.py:695-713 | The failure takes back exactly what the release of a claim takes back, and loses the call. |
| Forks.CountsAgreeIff | backend/nextgen/passport_service.py:496-713 | After any run with any number of failures, once no call is under way, the counts agree exactly if the failed calls left equally many unreleased claims, drawn numbers and entries. |
| Forks.FailureRepairedIff | backend/nextgen/passport_service.py:695-713 | After one failure, with any other calls in flight and once these have gone on to their end, the counts agree exactly if at the failure the caller was at its claim and still the newest, or had inserted and was superseded. |
| Forks.ReleaseRepairsIff | backend/nextgen/passport_service.py:695-713 | The same right after the failure when no other call stands behind a claim. |
| Forks.ChainCanFork | backend/nextgen/passport_service.py:482-486 | A concrete run without a transaction leaves two entries with the same predecessor. |
| Forks.StepKeepsPending | backend/nextgen/passport_service.py:506-583 | The claim marker is set exactly while the newest winner has not moved the head. |
| Forks.SnapshotIsOfBegin | backend/nextgen/passport_service.py:301-303 | A caller's snapshot is the passport row at the moment its call began. |
| Forks.LinkedIff | backend/nextgen/passport_service.py:525-583 | Entries of neighbouring revisions are linked exactly if no claim was pending when the writer of the second one read the passport row. |
| Forks.FirstHasNone | backend/nextgen/passport_service.py:525-534 | An entry of revision 1 has no predecessor. |
| Forks.ChainedIff | backend/nextgen/passport_service.py:482-583 | At quiescence all entries form one chain exactly if every writer began while no claim was pending. |
| Forks.SupersededCaller | backend/nextgen/passport_service.py:506-513 | A concrete run reaches a caller that stands behind its claim, or its insert, while another one has claimed on top and finished. |
| Seals.SealRoundTrip | backend/nextgen/passport_seal.py:55-122 | A sealed row is valid exactly while it agrees with the sealed body on all nine fields; made without a key it reads as unsealed. |
| Seals.SealedWhenPossible | backend/nextgen/passport_seal.py:55-89 | An entry is sealed under the active key exactly if that key is configured, and goes unsealed only where sealing is optional. |
| Verifier.VerifyChain | backend/nextgen/passport_verify.py:52-275 | The checker's loop computes the specified report for any stored rows, limit and key ring; `Faults.ReportIs` and `Faults.VerdictIs` say what is in that report, over the fields of the rows. |
| Evidence.WalkFollowsSoundPrefix | backend/nextgen/passport_verify.py:93-174 | Over a sound prefix of length i the walk expects number i+1 and the last hash, and has seen no higher number. |
| Evidence.NothingFoundIff | backend/nextgen/passport_verify.py:106-188 | The checks of one row find nothing exactly when number, predecessor, hash, schema, seal and receipt are all right. |
| Evidence.CleanIff | backend/nextgen/passport_verify.py:93-259 | A clean answer holds exactly for a chain within the limit that is sound, accepted row by row and matched by the passport row; VALID exactly if every row is sealed too. |
| Evidence.MostSevereFirst | backend/nextgen/passport_verify.py:236-259 | The verdict names the first reported code of the severity order. |
| Evidence.FirstIssueLocates | backend/nextgen/passport_verify.py:93-188 | The first issue points at the first row at fault: every row before it is clean. |
| Evidence.ChainsAgree | backend/nextgen/passport_verify.py:25-35 | Two sound chains with the same last hash have equal length and agree on every hashed field. |
| Evidence.TamperEvidence | backend/nextgen/passport_verify.py:93-259 | Two accepted histories that end in the same hash are the same history. |
| Evidence.SealsPinHistory | backend/nextgen/passport_verify.py:149-172 | If only the writer can make a seal that checks out, an answer of VALID means that the stored rows are the first of the written entries on all nine sealed fields, whatever the passport row says. |
| Evidence.RunSealsEntries | backend/nextgen/passport_service.py:536-564 | In every reachable state each entry is unsealed or carries a seal over its own nine fields. |
| Evidence.WriterCheckerAgree | backend/nextgen/passport_verify.py:52-275 | On every reachable ledger the answer is decided by the limit, the schema versions and unsealed entries alone: INCOMPLETE, UNSUPPORTED_SCHEMA, VALID_WITH_LEGACY_UNSEALED_ENTRIES or VALID. |
| Evidence.AlteredHistoryIsFlagged | backend/nextgen/passport_verify.py:218-259 | Beside an untouched passport row with entries the answer is clean exactly for rows that fit the limit, are each accepted, and are the written history or none at all. |
| Evidence.UnwrittenPassportIff | backend/nextgen/passport_verify.py:218-234 | Beside the untouched row of a passport without entries the answer is clean exactly for every sound chain of accepted rows within the limit whose last revision is absent or zero. |
| Evidence.ForgedEntryPasses | backend/nextgen/passport_verify.py:218-255 | One forged unsealed row with revision 0 beside a fresh passport row is answered with VALID_WITH_LEGACY_UNSEALED_ENTRIES. |
| Evidence.EmptyHistoryPasses | backend/nextgen/passport_verify.py:218-257 | With no entry rows the answer is VALID whatever the passport row says. |
| Evidence.PrefixAcceptedIff | backend/nextgen/passport_verify.py:190-259 | A truncated history is accepted exactly when nothing, or everything, was dropped. |
| Faults.SealStatusIff | backend/nextgen/passport_seal.py:92-122 | Which of the fields of a row decide each seal status. |
| Faults.ExpectedIs | backend/nextgen/passport_verify.py:106-130 | The walk expects the least positive number above all that it has seen. |
| Faults.PriorIs | backend/nextgen/passport_verify.py:132-174 | The walk compares a row with the hash of the last numbered row before it. |
| Faults.CodeAtIff | backend/nextgen/passport_verify.py:106-188 | At every row, whatever stands before it, each code is reported exactly for its fault: a repeated number, a gap, a number that falls behind, another predecessor hash, a hash unlike the row or its receipt, each fault of the seal, an unsupported schema. |
| Faults.ReportIs | backend/nextgen/passport_verify.py:52-275 | The issues of a report are the faults of the inspected rows, each at its own position, and one more for a contradicted head or a cut inspection. |
| Faults.VerdictIs | backend/nextgen/passport_verify.py:236-259 | The verdict on any rows within the limit, from the faults of the rows alone, in order of severity. |
| Faults.RunsAreWritten | backend/nextgen/passport_service.py:491-583 | Every reachable history is numbered 1..n, chained, hashed and sealed over its own fields. |
| Faults.ChangedEntryIsNamed | backend/nextgen/passport_verify.py:132-147 | A written history with one changed entry is answered INVALID_PREVIOUS_HASH if its link was changed and INVALID_ENTRY_HASH otherwise, whatever seals and passport row say. |
| Faults.DroppedEntryIsNamed | backend/nextgen/passport_verify.py:115-130 | A written history without one entry before its last is answered MISSING_ENTRY. |
| Faults.RepeatedEntryIsNamed | backend/nextgen/passport_verify.py:102-105 | A written history with an entry stored twice is answered DUPLICATE_SEQUENCE. |
| Faults.ChangedSealIsNamed | backend/nextgen/passport_verify.py:149-158 | A written history with one seal replaced is answered INVALID_SIGNATURE. |
| Faults.MovedHeadIsNamed | backend/nextgen/passport_verify.py:218-234 | A written history beside a passport row with another head or revision is answered HEAD_MISMATCH. |
| Faults.NoPassport | backend/nextgen/passport_verify.py:63-77 | Without a passport row the answer is UNAVAILABLE and nothing is inspected. |
| Conflicts.FindActive | backend/nextgen/passport_conflicts.py:101-106 | Finds the first active record with the attempt's fingerprint, or none if there is none. |
| Conflicts.ConflictsAgreeIff | backend/nextgen/passport_conflicts.py:35-63 | Attempts share a fingerprint exactly if request, expected state, actual state and reason agree, whatever their keys and actors; a record can be reused exactly until it is closed. |
| Conflicts.ConflictQueue.CreateRecord | backend/nextgen/passport_conflicts.py:66-176 | Counts up the first open record of the same conflict and nothing else of it, exactly if there is one; otherwise appends an open record of the attempt with count 1. |
| Conflicts.ConflictQueue.MarkStatus | backend/nextgen/passport_conflicts.py:187-222 | Sets status and reviewer of the named record and of no other; unknown ids, and exactly the changes that would break the unique index, are refused without effect. |
| Conflicts.CreateCounts | backend/nextgen/passport_conflicts.py:101-158 | An attempt raises the tally of its own conflict by one and no other, rewrites no attempt, and keeps open records different conflicts. |
| Conflicts.MarkCounts | backend/nextgen/passport_indexes.py:78-91 | A status change keeps every tally, every attempt, and open records different conflicts. |
| Conflicts.QueueTheorem | backend/nextgen/passport_conflicts.py:101-222 | Over every sequence of operations open records are different conflicts, and delivery counts sum to the number of attempts, in total and per conflict. |
| Conflicts.AttemptsNeverRewritten | backend/nextgen/passport_conflicts.py:107-117 | No later operation changes the original attempt of a record. |
| Sanitizer.SanitizeValue | backend/nextgen/outbox_worker.py:169-278 | The traversal with its shared budget and flags computes the specified output, budget and flags. |
| Sanitizer.SanitizeText | backend/nextgen/outbox_worker.py:201-220 | A text is stored as its redacted text, or as the first 2048 characters of it and a marker, or as the beginning that the budget has room for and a marker; a binary one is omitted. |
| Sanitizer.TextIsStored | backend/nextgen/outbox_worker.py:201-220 | What is stored of a text, what is left of the budget, and which flags are raised. |
| Sanitizer.SanitizeDict | backend/nextgen/outbox_worker.py:222-246 | The dictionary loop, with secret keys, budget stop and item limit. |
| Sanitizer.SanitizeList | backend/nextgen/outbox_worker.py:248-268 | The list loop, with budget stop and item limit. |
| Sanitizer.SanitizeDlqPayload | backend/nextgen/outbox_worker.py:281-317 | The wrapper scrubs missing, object and other payloads into an object with its flags; `Abridged.StoredCopyAbridges` says what is kept. |
| Abridged.ScrubStores | backend/nextgen/outbox_worker.py:169-278 | For any value and limits: what is stored in its place, the budget and flags after it, and for each dictionary and list which members were put out with which budget and why the loop ended. |
| Abridged.StoredIsAbridged | backend/nextgen/outbox_worker.py:169-278 | Each stored value stands at the path of its original and is that scalar, a beginning of that text, or a marker; a cut dictionary or list keeps its first members in order. |
| Abridged.StoredCopyAbridges | backend/nextgen/outbox_worker.py:281-317 | The same for whole dead-letter payloads of any kind, missing ones included; a limit that leaves nothing to traverse stores one marker. |
| JsonText.SizeIsLength | backend/nextgen/outbox_worker.py:157-166 | The charge for a text is the length of its JSON form, escapes and surrogate pairs included. |
| JsonText.BytesAreLength | backend/nextgen/outbox_worker.py:157-166 | The size that the bounds speak of is the length of the compact JSON text. |
| Redaction.NonInterference | backend/nextgen/outbox_worker.py:169-278 | Values that differ only under secret keys, at any depth, give the same output, budget and flags. |
| Redaction.StoredCopyHidesSecrets | backend/nextgen/outbox_worker.py:281-317 | For payloads of any kind, missing ones included, the stored copy and its flags are the same if they differ only in secrets. |
| Redaction.ScrubRedactsSecrets | backend/nextgen/outbox_worker.py:233-238 | Every secret key kept in the output, at any depth, maps to the redaction marker. |
| Redaction.ScrubPays | backend/nextgen/outbox_worker.py:169-278 | The budget never grows or falls below zero, flags never fall, and every leaf is paid for but loop-break markers and the one marker of a value met without budget. |
| Redaction.LeavesWithinBudget | backend/nextgen/outbox_worker.py:281-317 | Any stored payload has at most `max_bytes` scalar leaves plus one marker per loop that stopped early; a limit of zero or less stores exactly one. |
| StoredSize.KeysAndContainersAreFree | backend/nextgen/outbox_worker.py:222-246 | A payload made of a key of any length and an empty object passes unchanged and unflagged under any positive budget. |
| StoredSize.EscapesAreFree | backend/nextgen/outbox_worker.py:210-220 | A text of escaped characters that just exceeds the budget is kept whole with a marker and stored beyond the limit. |
| StoredSize.TextPays | backend/nextgen/outbox_worker.py:201-220 | Any stored text is at most eighteen times as large as the budget it used. |
| StoredSize.ScrubBytes | backend/nextgen/outbox_worker.py:169-278 | The JSON size of any scrubbed value is bounded by the budget it used, the outline of the original and its early stops. |
| StoredSize.StoredSizeBound | backend/nextgen/outbox_worker.py:281-317 | The stored size of any payload is at most eighteen times `max_bytes`, plus its keys, brackets and separators, plus 32 bytes per container. |
| StoredSize.UncutIsCharged | backend/nextgen/outbox_worker.py:169-278 | A value that needs no cut and leaves budget over is charged exactly its leaves and markers, and flagged exactly for what was replaced. |
| StoredSize.UntruncatedIsWhole | backend/nextgen/outbox_worker.py:169-278 | What was stored without the truncation flag needed no cut and is the whole copy. |
| StoredSize.WholeWithinLimitIff | backend/nextgen/outbox_worker.py:281-317 | A payload of any kind is stored untruncated and within `max_bytes` exactly if nothing in it has to be cut and its copy, with secrets and binaries replaced, is within `max_bytes`; the other flags say what was replaced. |
| StoredSize.StoredWithinLimitIff | backend/nextgen/outbox_worker.py:281-317 | An object payload is stored unflagged and within `max_bytes` exactly if, in addition, nothing is replaced. |
| Redaction.ScrubShapes | backend/nextgen/outbox_worker.py:182-268 | Containers nest at most `max_depth`+1 deep and have at most 65 members. |
| Redaction.FlagsOnlyRise | backend/nextgen/outbox_worker.py:169-278 | A raised flag stays raised through the rest of the traversal. |
| Redaction.UnflaggedIsFaithful | backend/nextgen/outbox_worker.py:169-278 | A traversal that raises no flag changes nothing but texts, by redaction. |
| Redaction.UnflaggedPayloadIsFaithful | backend/nextgen/outbox_worker.py:281-317 | An object payload stored without a flag is the payload itself up to redacted texts. |
| Outbox.OutboxStore.Emit | backend/nextgen/outbox.py:14-49 | The first event of a key is stored as given; a later one names the stored event and adds nothing. |
| Outbox.OutboxStore.ClaimNext | backend/nextgen/outbox_worker.py:374-415 | Leases the first candidate that is still claimable, to this worker until now plus the lease, and hands out its payload and raised attempts; returns nothing only if none is claimable. |
| Outbox.OutboxStore.MarkDelivered | backend/nextgen/outbox_worker.py:447-469 | Sets the delivery time once and ends the lease; a row already delivered is untouched. |
| Outbox.OutboxStore.RecordFailure | backend/nextgen/outbox_worker.py:486-609 | At the attempt limit the row is dead and exactly one letter is added, with the event's id and attempts and a forensic copy of its payload: no readable secret, within the depth and size limits of dead letters, its parts those of the payload or beginnings of them. Before the limit an open row waits for its backoff, any other is untouched. |
| Outbox.OutboxStore.ProcessOne | backend/nextgen/outbox_worker.py:612-638 | One claim followed by exactly one outcome; the handler is given the stored payload, and exactly for a last failure one letter is added, with the event's id, its attempts and a forensic copy of the stored payload. |
| Outbox.OutboxStore.Replay | backend/nextgen/outbox_worker.py:678-705 | Requeues exactly undelivered rows that are dead-lettered or failed, idle and available at once, leaving key and payload alone. |
| Outbox.DeadLetterIsForensic | backend/nextgen/outbox_worker.py:486-514 | Every dead letter holds a forensic copy of the payload, whatever the payload was. |
| Outbox.LettersHideSecrets | backend/nextgen/outbox_worker.py:486-514 | Events that differ only in values under secret keys leave equal letters. |
| Outbox.BackoffShape | backend/nextgen/outbox_worker.py:106-108 | The delay is monotone, within 2..300, and doubles until it is capped. |
| Outbox.AlwaysFailing | backend/nextgen/outbox_worker.py:554-638 | On the immediate schedule an always failing handler is dead-lettered in its last round, after the sum of min(300, 2^k). |
| Outbox.ReplayStartsAfresh | backend/nextgen/outbox_worker.py:686-705 | A replay with reset attempts is the row as emitted; without a reset, a used-up row gets one more attempt. |
| Outbox.OpenRowsPartition | backend/nextgen/outbox_worker.py:751-771 | Rows neither delivered nor dead are exactly one of pending, leased and deferred. |
| Outbox.BacklogCounts | backend/nextgen/outbox_worker.py:751-777 | What each of the five counts counts, in the fields of the rows. |
| Outbox.BacklogPartition | backend/nextgen/outbox_worker.py:751-777 | The five counts exceed all rows by exactly the rows that are both delivered and dead. |
| Outbox.NothingPendingIff | backend/nextgen/outbox_worker.py:374-415 | Pending is zero exactly when the candidate query is empty, and its first candidate is the oldest. |
| Outbox.CandidatesAreEight | backend/nextgen/outbox_worker.py:385-387 | The candidate query returns the pending rows, or eight of them if there are more. |
| OutboxRuns.StepKeepsInv | backend/nextgen/outbox_worker.py:361-609 | Every step, also of stale workers, keeps leases started, keys unique and claims true to their rows. |
| OutboxRuns.HandlersSeeTheOriginal | backend/nextgen/outbox_worker.py:658-716 | After dead letters and replays a handler is still given the payload as emitted, not the scrubbed copy. |
| OutboxRuns.DeliveryIsFinal | backend/nextgen/outbox_worker.py:361-371 | A delivery time never changes and no claim succeeds after it. |
| OutboxRuns.OneRowPerKey | backend/nextgen/outbox.py:42-49 | At most one row per idempotency key in every reachable state. |
| OutboxRuns.ReportedCounts | backend/nextgen/outbox_worker.py:743-777 | In every reachable state, at every later time, the reported counts partition the rows. |
| OutboxRuns.OnTimeStep | backend/nextgen/outbox_worker.py:374-609 | While outcomes come within the lease or never, every claim in flight holds its open row alone and no row is both delivered and dead. |
| OutboxRuns.OnTimeOutbox | backend/nextgen/outbox_worker.py:743-777 | If outcomes come within the lease or never and replay touches only dead letters, no row is both delivered and dead and the five counts sum to all rows; crashes, old clock readings, kept attempts and differing limits included. |
| OutboxRuns.DisciplinedStep | backend/nextgen/outbox_worker.py:374-609 | With one limit, resetting replays and no crash in addition, each lease has its one live claim and attempts stay within bounds. |
| OutboxRuns.DisciplinedOutbox | backend/nextgen/outbox_worker.py:374-638 | Under that discipline attempts never exceed the maximum and an open row without a lease has one left. |
| OutboxRuns.LateDeliveryOfDeadLetter | backend/nextgen/outbox_worker.py:458-469 | A concrete run in which a late delivery leaves a row both delivered and dead. |
| OutboxHistory.StepBothIff | backend/nextgen/outbox_worker.py:458-529 | A step leaves a row both delivered and dead exactly if it was both and is not replayed, or the step records the opposite outcome. |
| OutboxHistory.BothIff | backend/nextgen/outbox_worker.py:458-529 | In every run a row is both exactly if such a collision happened and no replay followed. |
| OutboxHistory.ReplayableIff | backend/nextgen/outbox_worker.py:678-705 | In every run an event can be replayed exactly if it is undelivered and a failure was recorded on it since it was last replayed. |
| OutboxHistory.LetterOfEmittedEvent | backend/nextgen/outbox_worker.py:486-514 | The letter of a last failure, however late that comes, is a forensic copy of the payload once emitted under its id. |
| OutboxHistory.AttemptsAreClaims | backend/nextgen/outbox_worker.py:396-405 | In every run the attempts of an event are the claims since its emission or its last resetting replay. |
| OutboxHistory.DeadIff | backend/nextgen/outbox_worker.py:554-570 | Under the lease discipline an undelivered event is dead exactly after `max_attempts` claims with no outcome outstanding. |
| OutboxHistory.RetriesTakeTime | backend/nextgen/outbox_worker.py:572-590 | Under the lease discipline retries take at least the sum of min(300, 2^k), and exactly that sum when claims and failures come at once. |
| OutboxHistory.FailingRoundsRun | backend/nextgen/outbox_worker.py:612-638 | The rounds of an always failing handler are a run under the lease discipline. |
| Leases.AttemptsWithinCrashes | backend/nextgen/outbox_worker.py:396-405 | With crashing workers an event is handed out at most `max_attempts` times plus once per claim given up, and is not dead before the limit. |
| Leases.CrashExceedsLimit | backend/nextgen/outbox_worker.py:361-371 | A concrete run hands an event with one attempt out twice. |
| Leases.LeaseEndsIff | backend/nextgen/outbox_worker.py:458-590 | A lease is ended exactly by a delivery of an undelivered row, a last failure, a failure of an open row, or a replay, whoever holds it. |
| Leases.LeaseStays | backend/nextgen/outbox_worker.py:361-371 | A lease that has not run out stays, and its event is not handed out, unless one of those steps comes. |
| Leases.SecondClaimNeedsEndedLease | backend/nextgen/outbox_worker.py:361-415 | An event is claimable while an earlier lease still runs only if one of those steps came in between. |
| Leases.FailureOpensIff | backend/nextgen/outbox_worker.py:572-590 | After a failure that leaves a retry, whoever reports it, the event is claimable exactly after the backoff. |
| Leases.OneClaimInFlight | backend/nextgen/outbox_worker.py:374-415 | When outcomes come in time each event has at most one claim in flight. |
| Leases.StaleFailureFreesLease | backend/nextgen/outbox_worker.py:575-590 | A concrete run in which a late failure frees a running lease and two claims of one event are live. |
| Projection.MarkerStore.ReconcileProperty | backend/nextgen/projection_reconciliation.py:67-135 | Reports a match exactly for two present, equal hashes, missing data exactly if one is absent or empty, and drift otherwise. |
| Projection.MarkerStore.RepairMarker | backend/nextgen/projection_reconciliation.py:176-268 | Refuses exactly for a missing head or a marker of another tenant; otherwise the marker is or becomes the head; nothing else changes. |
| Projection.RepairTwice | backend/nextgen/projection_reconciliation.py:227-234 | Repair is idempotent: a second one changes nothing and reports the marker as current. |
| Projection.StatusMeansLag | backend/nextgen/projection_reconciliation.py:98-127 | The status is a match exactly when the marker has seen every entry, drift exactly when it lags. |
| Projection.MarkerIsAPastHead | backend/nextgen/projection_reconciliation.py:222-248 | In every reachable state the marker is a head that the ledger really had. |
| Projection.RepairCarriesHead | backend/nextgen/projection_reconciliation.py:188-222 | Between its database calls a repair carries the head it read, which stays the head of the same entry. |
| Projection.RepairAlone | backend/nextgen/projection_reconciliation.py:176-268 | The calls of an uninterrupted repair add up to the repair of the marker store. |
| Projection.DriftIsNeverMissed | backend/nextgen/projection_reconciliation.py:98-127 | After a successful repair, until a marker is next written, the answer is a match exactly as long as no append committed since that repair read the head, and drift otherwise. |
| Reports.DeliveryKeyInjective | backend/nextgen/report_publication.py:480 | A delivery key determines its package and channel. |
| Reports.DeliveredKeyInjective | backend/nextgen/report_publication.py:618 | An announcement key determines its package and is no request key. |
| Reports.PayloadsSay | backend/nextgen/report_publication.py:481-500 | A request tells package, channel, checksum, object reference and the seven descriptive fields; an announcement tells package, checksum, property and cache identity; neither says more. |
| Reports.ReportStore.Propose | backend/nextgen/report_publication.py:247-368 | Incomplete inputs are refused; otherwise one package per idempotency key, new ones in PROPOSED with what was given. |
| Reports.ReportStore.Transition | backend/nextgen/report_publication.py:371-438 | Accepted exactly for an existing package and an allowed or repeated stage; sets stage, reference, checksum, the first 500 characters of a failure reason and 300 of the notes, clears an older reason except on FAILED; refusals change nothing. |
| Reports.ReportStore.EnqueueDelivery | backend/nextgen/report_publication.py:441-520 | Requests delivery exactly from the two delivery stages, emits at most once per channel a request that describes the package, and remembers only a new event. |
| Reports.ReportStore.MarkDelivered | backend/nextgen/report_publication.py:583-624 | Succeeds exactly with a wired or acknowledging consumer on a package being or already delivered; the first time it adds the announcement of this package with its checksum, later it adds nothing. |
| ReportRuns.EveryStageIsEarned | backend/nextgen/report_publication.py:118-133 | A package at a stage went through all earlier stages in order since it was last PROPOSED; DELIVERED means all eight. |
| ReportRuns.MovesAre | backend/nextgen/report_publication.py:118-133 | Stages move on by one, back from review to rendering, to FAILED and back to PROPOSED, and to SUPERSEDED, each exactly where allowed. |
| ReportRuns.FinalStages | backend/nextgen/report_publication.py:118-133 | SUPERSEDED is final and only SUPERSEDED follows DELIVERED. |
| ReportRuns.DeliveringSteps | backend/nextgen/report_publication.py:583-607 | A step delivers a package exactly if it was DELIVERING and the step is an acknowledged mark or a bare transition. |
| ReportRuns.DeliveredWithoutConsumer | backend/nextgen/report_publication.py:371-438 | A concrete run of bare transitions reaches DELIVERED with an unwired consumer. |
| DeliveryRequests.OutboxStep | backend/nextgen/report_publication.py:441-520 | Report steps keep the outbox invariant and never touch the key or payload of an existing event. |
| DeliveryRequests.StepKeepsInv | backend/nextgen/report_publication.py:441-624 | Each database call keeps every remembered event a request of its package, and every request owned by a package that remembers one or has a caller about to tell it. |
| DeliveryRequests.OneRequestPerChannel | backend/nextgen/report_publication.py:480-511 | At most one request row per package and channel; a package with a request remembers one of its own, or a caller stopped before its last update. |
| DeliveryRequests.RequestNamesItsPackage | backend/nextgen/report_publication.py:480-500 | No request row answers for two packages or two channels. |
| DeliveryRequests.RequestsAreApproved | backend/nextgen/report_publication.py:466-500 | Before any request row appeared, its package had been delivering, exactly as the row describes it, after all earlier stages with review and approval. |
| DeliveryRequests.EmitAgain | backend/nextgen/report_publication.py:480-511 | Emitting a request again at any later time leaves the outbox unchanged and ends the call. |
| DeliveryRequests.DeliveryAlone | backend/nextgen/report_publication.py:441-520 | The calls of an uninterrupted request add up to the request of the store. |
| Announcements.AnnouncementsAreEarned | backend/nextgen/report_publication.py:590-621 | Behind every announcement there is an earlier acknowledgement of its package, which had gone through all stages; it carries the checksum that the package had whenever it stood at DELIVERED. |
| Announcements.AnnouncedOnce | backend/nextgen/report_publication.py:608-621 | From its emission on, the outbox holds exactly one announcement of the package, with the checksum it was delivered with, whatever else happens. |
| Announcements.AnnouncementNamesItsPackage | backend/nextgen/report_publication.py:608-621 | Announcements of different packages are different rows. |
| Announcements.DeliveredChecksum | backend/nextgen/report_publication.py:393-413 | A package keeps checksum and descriptive fields for as long as it stands at DELIVERED. |
| Announcements.MarkAlone | backend/nextgen/report_publication.py:583-624 | The calls of an uninterrupted acknowledgement add up to the acknowledgement of the store. |
| RateLimiting.RateLimiter.constructor | backend/dev_auth.py:42 | The limiter starts with no bucket and an empty history. |
| RateLimiting.RateLimiter.DropStale | backend/dev_auth.py:114-122 | Keeps exactly the buckets with an attempt in the window. |
| RateLimiting.RateLimiter.Prune | backend/dev_auth.py:114-132 | Drops stale buckets and, beyond 4096, only the least recently active ones. |
| RateLimiting.RateLimiter.PopStale | backend/dev_auth.py:139-141 | Pops exactly the leading times that left the window. |
| RateLimiting.RateLimiter.Check | backend/dev_auth.py:135-149 | Decides as the full log of accepted attempts would unless the cap dropped the key; at most 4097 buckets; waiting Retry-After (section 10.2.3 of RFC 9110) suffices and a second less does not; other keys keep their bucket or lose it. |
| RateLimiting.OthersCannotDelay | backend/dev_auth.py:114-149 | What a key may do at a later time, a promised wait included, survives any attempts of other keys. |
| RateLimiting.AtMostTenPerWindow | backend/dev_auth.py:135-149 | At most ten accepted attempts in any closed window of sixty seconds. |
| RateLimiting.PoppedDequeCountsLog | backend/dev_auth.py:139-142 | The popped deque holds exactly the recent part of the whole log. |
| RateLimiting.OrderedDecision | backend/dev_auth.py:138-149 | A deque stays sorted, at most ten long and in agreement with the log through pruning and popping. |
| RateLimiting.RetryAfterSuffices | backend/dev_auth.py:143 | The announced wait lets the next attempt pass, a second less does not, and an attempt passes exactly when the oldest one has left the window. |
| Newell.Accumulate | backend/roof_topology.py:92-119 | The accumulation loop computes the Newell sum of the closed polygon. |
| Newell.AreaSquared | backend/roof_topology.py:92-104 | The accumulated area, squared, is that of the vector area: half the sum of the cross products along the boundary. |
| Newell.AreaIsIntrinsic | backend/roof_topology.py:92-104 | The area does not change with the first vertex, the place or the direction of the polygon. |
| Newell.TriangleArea | backend/roof_topology.py:92-104 | Of a triangle it is half the parallelogram that two sides span. |
| Newell.RotationInvariant | backend/roof_topology.py:94-103 | The sum does not depend on the first vertex. |
| Newell.TranslationInvariant | backend/roof_topology.py:94-103 | The sum does not depend on where the polygon lies. |
| Newell.ReversalNegates | backend/roof_topology.py:217-220 | Reversing the vertices negates the sum. |
| Newell.NewellIsVectorArea | backend/roof_topology.py:92-104 | The Newell sum equals the sum of cross products of consecutive vertices. |
| Newell.PlanarNormal | backend/roof_topology.py:107-119 | For a planar polygon the vector is parallel to the normal of its plane. |
| Newell.ProjectionKeepsVertical | backend/roof_topology.py:222-224 | The footprint keeps exactly the vertical component. |
| Newell.PlanarBelowTrue | backend/roof_topology.py:122-128 | Planar area never exceeds true area, and true² = planar²·(1 + (pitch/12)²) for an upward vector. |
| Newell.FacetAreas | backend/roof_topology.py:221-231 | The same for surface and footprint of any polygon whose vector points upward. |
| Newell.MakeFacet | backend/roof_topology.py:215-233 | A facet faces upward, reverses exactly a boundary that faces downward, keeps the area of the given polygon, and its surface, footprint and pitch fit together. |

## Left out

- Audit events, logging, HTTP routes, environment variables and authorization of operators.
- MongoDB itself: one database call is one atomic step unless a line below says otherwise, a strict-mode transaction is one atomic step, unique indexes are conditions on inserts and updates. A transaction whose commit succeeds but is reported as an error, and the fallback for sessions without `start_transaction`, are not modelled.
- `_ensure_passport`: provisioning under a lock and legacy passport rows without a revision; runs start from a provisioned passport. Runs are those of one passport; tenant and property are constants of the run.
- Real SHA-256, HMAC, JSON bytes and regular expressions. Which keys are secret and what redaction makes of a text are parameters of the scrubber; `ScrubRedactsSecrets` takes the scrubber's own two marker keys to be non-secret.
- Payloads of ledger entries as structured values, correlation ids, publication context beyond its part in the fingerprint, the compatibility `signature` field and `sealed_at`.
- Ledger.PassportStore.AppendEntry: starts behind the index-readiness gate and the refusals of empty or mismatching tenant, property and passport ids, which touch no row, and does not hand a stale attempt to the conflict queue.
- Interleaving: receipts and idempotency records of the mode without a transaction. A failed call and the release of its claim are one step.
- Conflicts: the race of two identical inserts, free-text resolution fields, and the hand-over from a refused append; the queue takes attempts as its input.
- OutboxRuns: inbox receipts, the audit trail of replays, `replayed_at` on dead letters, and the warning thresholds and oldest row of the backlog report. The candidate query is the predicate `IsCandidateList`, not a computation.
- Abridged.ScrubStores: takes the keys of each dictionary to be distinct; only keys of other types than text can have the same string form.
- Redaction: idempotence of the scrubber and the payload checksum, which depends on the secrets by design.
- ReportRuns: a transition, with the read that a request or an acknowledgement makes before it, is one atomic step, so two transitions of one package do not race between read and update; likewise the look-up and the insert of an emission. `consume_report_delivery_event`, the Habitat projection, the derivation of cache identities and checksums, the type and tenant columns of outbox rows and `produce_bounded_passport_projection` are not part of this model.
- Projection: `reconcile_source_publication_state`, and two repairs that race to insert the first marker of a property: there is one marker row per tenant.
- RateLimiting: the caller's address as key is an opaque string; among equally old buckets the eviction order is left open.
- Newell: square roots, rounding and floating point; areas and pitch are compared through their squares, and the normal is not scaled to unit length.
- The other services of the repository (mission state, approval policy, pricing, weather, billing, builders of documents, the hardware gateway), which are mostly table lookups and single checks.
