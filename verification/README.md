# Detection and money recovery: a Dafny model

Services find completed work that nobody invoiced, open a case for it, and carry its value from a
candidate through approval to an export for a bookkeeper. They share rows and run concurrently. Each
`@transaction.atomic` service, or each separately committed UPDATE, is one atomic step here; every theorem about
runs ranges over all finite interleavings of those steps. A refused or rolled-back step leaves the state alone.

Each service appears twice: as a function on values, and as a method of a class that updates the stored rows as
the source does, proved to compute that function. The theorems are about the functions.

| files | component |
|---|---|
| `Common`, `Rounding` | optional values, sums, increasing lists; Decimal quantization |
| `Accounting`, `AccountingLaws`, `ItemHistory` | invoice matching, the derived stage and amounts, the fixed point of refresh, accounting and dispute history |
| `Ledger`, `ExportKey`, `LedgerInvariant`, `LedgerRuns`, `LedgerDecisions`, `Provenance`, `RecoveryStore` | snapshots, approvals, exports, stage events of recovery items; when each operation commits; where exported terms come from |
| `DetectorLease`, `LeaseRuns` | the worker lease: claim, heartbeat, persist, fail |
| `Dispatch`, `EndToEnd`, `Readiness` | readiness, durable intents, publishers, broker, workers |
| `Detection`, `Cases`, `CaseInvariant`, `CaseRuns`, `CaseHistory`, `CaseLaws`, `Poison`, `MoneyTrail`, `CaseStore`, `Evaluations` | exception cases, detector writes, human transitions, the desk and its ledger; from detector to export; the desk under the worker lease |
| `Operations`, `UnbilledDetector`, `UnbilledRule`, `DetectorLaws`, `Checklist`, `Agreement`, `RescheduledWork` | the completed-but-unbilled rule, the evidence checklist, their agreement, a poisoned work order |
| `Identity`, `SourceVersions`, `Quarantine`, `QuarantineLaws`, `Promotion`, `IntakeStore`, `Upload` | references, version history, quarantined rows, upload validation |

Money is a whole number of ten-thousandths, hours of hundredths, instants are seconds, dates are day numbers. Rows
are named by position where the source only appends. A hash stands for its canonical input. A site's calendar date
is an arbitrary function of zone and instant.

## What the proofs found

Properties that fail in the code are stated with the input that breaks them and the exact condition under which they
hold.

- A worker whose commit succeeds but whose acknowledgement is lost reports a failure, because `fail` looks only at the
  owner; the succeeded run is reopened and evaluated again (`LeaseRuns.LostAcknowledgementCommitsTwice`). In every run
  the number of commits is the number of such reopenings plus one if the run now stands succeeded (`LeaseRuns.CommitLaw`).
- An evaluation need not have been handed to the broker: the manual command claims any ready run
  (`EndToEnd.EffectWithoutHandOff`). Without such a claim a hand-off came first
  (`EndToEnd.EffectNeedsHandOffOrCommand`); with or without it, the effect is for the frozen manifest and not repeated
  (`EndToEnd.EffectAtMostOnceForReadyManifest`).
- One `refresh` is a fixed point unless a payment was reversed on work first seen as collected by that same refresh
  (`AccountingLaws.RefreshSettles`, `AccountingLaws.OneRefreshMayNotSettle`).
- A refresh may give an open dispute another reason without an event (`ItemHistory.RefreshWrites`), and settling a dispute
  whose cause is still in the books opens it again at once (`LedgerDecisions.SettlementCommitsIff`).
- The currency is not among the inputs that are compared: a contract that only changes its currency keeps its old
  snapshot (`LedgerDecisions.CurrencyChangeIsIgnored`, exact condition in `LedgerDecisions.LatestInAskedCurrencyIff`).
- After an approval no approval of the item commits again before a new candidate is recorded, whatever happens in
  between (`LedgerRuns.ReapprovalCollides`, a reachable case in `LedgerRuns.ReapprovalIsRefused`); an otherwise valid
  approval commits exactly when the candidate is the latest snapshot (`LedgerRuns.ApproveCommitsIff`).
- A work order whose service date moves after its item was recorded makes every later persist that matches it roll
  back, with everything else that run found, for ever (`Poison.PoisonedForever`, two evaluations of one job in
  `RescheduledWork.RescheduledJobIsPoisoned`, exact condition in `CaseHistory.PersistCommitsIff`); such an evaluation
  never succeeds (`Evaluations.PoisonedNeverSucceeds`).
- Batches that miss the same identity share one issue, and resolving it reprocesses only the batch the issue names. The
  other batch keeps its rows quarantined with every reference resolved and no issue open, so its coverage cannot
  prove absence (`QuarantineLaws.PromotedOnlyInTheIssuesBatch`, `QuarantineLaws.SharedIssueStrandsRow`).
- A source record that returns to an earlier content keeps the later content as its newest version
  (`SourceVersions.HeadFollowsSource`, `SourceVersions.ReturningContentIsNotHead`).
- Attaching a batch does not look at the run's status, so a ready run's manifest may stop describing its inputs
  (`Readiness.ManifestMayStopDescribing`, exact condition in `Readiness.AttachKeepsDescriptionIff`). The model class's
  documentation calls the manifest immutable; the code decides.
- Rounding a value to four places and then to cents can give one cent more than rounding once
  (`Rounding.RoundingTwiceGainsACent`, exact condition in `Rounding.CentsAfterRounding`).

## Model

| member | source | states |
|---|---|---|
| LedgerRuns.ExportedMoneyIsConserved | apps/recovery/services/exports.py:193-322 | in every reachable ledger the totals of all exports add up to the approved values of all exported items; each export totals its own members in one currency; an item is in exactly the export its reference names |
| MoneyTrail.ExportedMoneyWasDetected | apps/recovery/services/exports.py:193-322 | over any run of the desk, every member of every export belongs to a case, and some persisted detector run matched that case's work order on its date with exactly the exported value, when the contract was in the export's currency |
| Provenance.ExportCarriesRecordedTerms | apps/recovery/services/approvals.py:152-175 | over any run, every member of every export was approved from a candidate of its case and is exported in the currency, with the value and on the basis under which that candidate was recorded |
| LedgerRuns.ExportCommitsIff | apps/recovery/services/exports.py:226-258 | an export of ready items commits exactly when every item still proves unbilled with no invoice stage, and all share one currency |
| LedgerRuns.ExportReplay | apps/recovery/services/exports.py:113-133 | once a request exported exactly the set it named, every later request naming that set, in any order, after anything else, returns that export and changes nothing |
| LedgerRuns.NamedExportIsReturned | apps/recovery/services/exports.py:207-213 | a request naming exactly an export's members is answered with that export |
| LedgerRuns.ReturnedExportWasNamed | apps/recovery/services/exports.py:113-133 | a request answered with an existing export named exactly its members |
| LedgerRuns.ReadyItemsHaveNoExport | apps/recovery/services/exports.py:214-219 | the existing-export branch for items that are still ready is unreachable |
| LedgerRuns.KeysAreUnique | apps/recovery/models.py:172-183 | no two exports carry the same key |
| LedgerRuns.SelectedIsSound | apps/recovery/services/exports.py:81-98 | every exportable item passes the in-ledger parts of the hand-off's re-check |
| LedgerDecisions.CreatedExportTakesRipeItems | apps/recovery/services/exports.py:193-322 | a created export holds all requested items that are invoice-ready and undisputed and no others, once each and in order, with their number and the sum of their values; its members leave under its reference and the next version, every other item is untouched |
| LedgerDecisions.ExportRefusals | apps/recovery/services/exports.py:201-258 | each refusal of an export has its own exact circumstances |
| LedgerDecisions.KeyNamesSnapshots | apps/recovery/services/exports.py:101-110 | the key of every export names exactly its members, each with the snapshot it was approved under |
| ExportKey.SortSorts | apps/recovery/services/exports.py:101-110 | the key lists the same parts in ascending order |
| ExportKey.AscendingUnique | apps/recovery/services/exports.py:101-110 | ascending lists of the same parts are equal, so the key ignores the order of the items |
| ExportKey.KeyDeterminesParts | apps/recovery/services/exports.py:101-110 | equal keys mean the same items at the same approved snapshots, and conversely |
| LedgerRuns.ItemLifecycle | apps/recovery/services/approvals.py:89-267 | an item is ready or exported exactly when it has a ready snapshot and one live approval naming it; its version is one plus its workflow events, which chain from candidate to the stored state |
| LedgerRuns.ExportedIsFinal | apps/recovery/services/exports.py:286-311 | an exported item stays exported under the same reference and value in every later state |
| LedgerRuns.SnapshotsNumberedFromOne | apps/exceptions/services/financial.py:26-77 | a case's snapshot versions are exactly 1 to n over any run |
| LedgerRuns.ApproveCommitsIff | apps/recovery/services/approvals.py:134-175 | an otherwise valid approval commits exactly when the candidate is the latest snapshot, and approves that candidate's value |
| LedgerDecisions.ApprovalRefusals | apps/recovery/services/approvals.py:99-133 | each refusal of an approval has its own exact circumstances |
| LedgerDecisions.ApprovalCopiesTerms | apps/recovery/services/approvals.py:152-183 | the approved snapshot has the candidate's currency, calculation version, basis and value, invoices that value and names the version it was approved from; the item is ready under it and the next version, nothing else changes |
| LedgerDecisions.RevokeCommitsIff | apps/recovery/services/approvals.py:203-232 | a revocation commits exactly when the item exists, the actor may act, the version is the expected one, the item is invoice-ready and in no export, and a reason was given; each refusal has its own circumstances |
| LedgerDecisions.RevocationReturnsItem | apps/recovery/services/approvals.py:234-247 | after a revocation the item is a candidate under the next version with nothing to invoice and no live approval, and its snapshots are as they were |
| LedgerDecisions.OneDecisionPerVersion | apps/recovery/services/approvals.py:105-108 | of all approvals and revocations of an item that expect one version, at most one is carried out in any run |
| LedgerDecisions.InExportIff | apps/recovery/services/checklist.py:267-293 | being listed by an export, being exported and failing the duplicate check are one and the same |
| LedgerDecisions.CandidateAppendedIff | apps/exceptions/services/financial.py:36-76 | for a case with an item: repeated inputs change nothing, amounts that are not allowed are refused, and anything else becomes the next snapshot and the candidate |
| LedgerDecisions.FirstCandidateIff | apps/exceptions/services/financial.py:53-76 | for a case without one: an item is opened exactly when the amount is allowed and its work order has no item |
| LedgerDecisions.LatestInAskedCurrencyIff | apps/exceptions/services/financial.py:41-51 | after a recording the latest snapshot is in the asked currency exactly when it already was or the other inputs differ |
| LedgerDecisions.CurrencyChangeIsIgnored | apps/exceptions/services/financial.py:41-47 | an item recorded in dollars and again, alike, in euros stays as it was |
| LedgerRuns.ApprovedCandidateIsSpent | apps/recovery/services/approvals.py:154-157 | after an approval and any run, no approval of the item commits while the approved candidate is still its candidate |
| LedgerRuns.ReapprovalCollides | apps/recovery/services/approvals.py:154-157 | after an approval and any run that records no new candidate for the case, every approval of the item is refused |
| LedgerRuns.ReapprovalIsRefused | apps/exceptions/models.py:594-596 | a reachable ledger where an approved and revoked item is approvable in every other respect and hits the snapshot numbering |
| LedgerRuns.ReplayAppendsAtMostOne | apps/exceptions/services/financial.py:36-51 | identical inputs append at most one snapshot between two approvals of a case, over any interleaving |
| LedgerRuns.NoCompetingItem | apps/exceptions/models.py:709-722 | no two items of one work order are active together |
| LedgerInvariant.RecordCandidateKeeps | apps/exceptions/services/financial.py:26-77 | recording a candidate keeps the ledger invariant |
| LedgerInvariant.ApproveKeeps | apps/recovery/services/approvals.py:89-200 | approving keeps the ledger invariant |
| LedgerInvariant.RevokeKeeps | apps/recovery/services/approvals.py:203-267 | revoking keeps the ledger invariant and leaves no live invoice-ready approval |
| LedgerInvariant.ExportKeeps | apps/recovery/services/exports.py:193-322 | exporting keeps the ledger invariant, conservation included |
| LedgerInvariant.RefreshKeeps | apps/recovery/services/accounting.py:192-255 | refreshing keeps the ledger invariant |
| LedgerInvariant.ResolveDisputeKeeps | apps/recovery/services/accounting.py:273-303 | settling a dispute keeps the ledger invariant |
| LedgerInvariant.HandOffMoney | apps/recovery/services/exports.py:286-311 | handing items off one after the other adds exactly their approved values to the exported money |
| LedgerInvariant.OneCurrency | apps/recovery/services/exports.py:246-258 | with at most one currency in a set, every item with a snapshot carries the recorded one |
| RecoveryStore.Store.RecordCandidate | apps/exceptions/services/financial.py:26-77 | the row updates compute the specified candidate step |
| RecoveryStore.Store.ApproveInvoiceReady | apps/recovery/services/approvals.py:89-200 | the row updates compute the specified approval, with the specified refusal |
| RecoveryStore.Store.RevokeInvoiceReady | apps/recovery/services/approvals.py:203-267 | the row updates compute the specified revocation, with the specified refusal |
| RecoveryStore.Store.ExportInvoiceReady | apps/recovery/services/exports.py:193-322 | the re-check, currency, total and hand-off loops compute the specified export |
| RecoveryStore.Store.SumReady | apps/recovery/services/exports.py:264-272 | the summing loop computes the total of the members' approved values |
| RecoveryStore.Store.CollectCurrencies | apps/recovery/services/exports.py:246-250 | the loop collects the currencies of the ready snapshots |
| RecoveryStore.Store.RefreshItem | apps/recovery/services/accounting.py:192-255 | the row updates compute the specified refresh |
| RecoveryStore.Store.RefreshOrganization | apps/recovery/services/accounting.py:258-270 | every item is refreshed once, and the count is the number of items whose stage moved |
| RecoveryStore.Store.ResolveItemDispute | apps/recovery/services/accounting.py:273-303 | the row updates compute the specified settlement |
| Accounting.Matching | apps/recovery/services/accounting.py:54-83 | exactly the invoices of the status linked to the work order when there is one, otherwise exactly those of its customer, site and day, in order |
| AccountingLaws.InvoicedOnce | apps/recovery/services/accounting.py:97-189 | the invoiced amount counts the invoice once for any payments |
| AccountingLaws.LinkWins | apps/recovery/services/accounting.py:69-83 | an item whose work order one posted invoice names is billed by that invoice, whatever else there is for its customer, site and day |
| AccountingLaws.CollectedIsAdditive | apps/recovery/services/accounting.py:97-189 | collected money adds up over batches of payments |
| AccountingLaws.CollectedCountsPosted | apps/recovery/services/accounting.py:163-171 | a payment row adds its amount when it is posted on the invoice and nothing otherwise |
| AccountingLaws.StageComparesAmounts | apps/recovery/services/accounting.py:97-189 | the stage is the exact comparison of posted collections with the invoice; amounts are present exactly for one posted invoice in the item's currency; over-collection opens a dispute |
| AccountingLaws.InvoiceDisputes | apps/recovery/services/accounting.py:97-189 | each dispute about invoices is opened exactly in its own circumstances |
| AccountingLaws.UncountedInvoices | apps/recovery/services/accounting.py:99-150 | without a posted invoice an item is unbilled; invoices in another currency or several of them leave the stage as it was, without amounts, and are listed |
| AccountingLaws.PaymentDisputes | apps/recovery/services/accounting.py:97-189 | each dispute about payments of a billed item is opened exactly in its own circumstances |
| AccountingLaws.SecondDerivation | apps/recovery/services/accounting.py:175-187 | deriving again from the derived stage gives the same stage, amounts and invoices, and a new dispute exactly for a late reversal |
| AccountingLaws.RefreshSettles | apps/recovery/services/accounting.py:192-255 | over unchanged rows one refresh settles stage and amounts, the second changes something exactly to open the late-reversal dispute, the third changes nothing |
| AccountingLaws.OneRefreshMayNotSettle | apps/recovery/services/accounting.py:175-187 | an invoice, a posted and a reversed payment for which one refresh is not a fixed point |
| ItemHistory.HistoryTellsItem | apps/recovery/services/accounting.py:192-303 | in every reachable ledger the accounting events of an item chain from no invoice to its stage, its dispute events alternate and end in its dispute status, an open dispute has a reason, and both amounts are shown or neither |
| ItemHistory.RefreshWrites | apps/recovery/services/accounting.py:203-255 | a refresh writes the derived stage and amounts, an event exactly when the stage moved or a dispute opens, and may rewrite the reason of an open dispute without one |
| ItemHistory.ComparedInOwnCurrency | apps/recovery/services/accounting.py:126-128 | invoices are compared in the currency of the approved snapshot, or of the candidate while nothing is approved |
| LedgerDecisions.RefreshCommitsIff | apps/recovery/services/accounting.py:192-203 | a refresh commits exactly when the item exists and touches no other item |
| LedgerDecisions.SettlementCommitsIff | apps/recovery/services/accounting.py:273-303 | settling commits exactly for an open dispute with a note by a permitted actor, recomputes the item, and leaves the dispute open exactly when the rows still give one |
| LeaseRuns.CommitLaw | apps/exceptions/services/runs.py:50-119 | for any callers: commits on a key are its reopenings plus one if it stands succeeded; a key has a run row exactly when a lease was granted; attempt_count counts the leases granted |
| LeaseRuns.TakesEffectAtMostOnce | apps/exceptions/services/runs.py:391-416 | for workers that do not fail what they saw commit, at most one persist commits per key, and one has exactly when the run stands succeeded |
| LeaseRuns.SucceededIsFinal | apps/exceptions/services/runs.py:391-416 | with such workers a succeeded run row never changes again |
| LeaseRuns.LostAcknowledgementCommitsTwice | apps/exceptions/services/runs.py:378-388 | a run of calls in which one evaluation commits twice |
| LeaseRuns.FencedForever | apps/exceptions/services/runs.py:128-136 | a worker whose lease was reclaimed can never again heartbeat, persist or fail |
| LeaseRuns.ReclaimFences | apps/exceptions/services/runs.py:80-107 | a granted reclaim fences the previous holder |
| LeaseRuns.LeasesNeverOverlap | apps/exceptions/services/runs.py:50-136 | with a clock that moves forward, from the last grant or accepted heartbeat of a holder and over any later calls: every later grant on the key recovers a failed run or comes more than 300 seconds after it, until one comes the run stays the holder's, and a claim of a run that has not failed is refused until then |
| LeaseRuns.GrantsAreSpaced | apps/exceptions/services/runs.py:50-119 | any two grants on a key are more than 300 seconds apart unless the later one recovers a failed run |
| LeaseRuns.LeaseIsTakenOverIff | apps/exceptions/services/runs.py:80-119 | after the last grant or accepted heartbeat on a run, whatever else is called, a claim gets it exactly when it failed or still runs more than 300 seconds later, and hears of success exactly when it succeeded |
| DetectorLease.ClaimAnswers | apps/exceptions/services/runs.py:50-119 | a claim is granted exactly for a key without a row, a failed run or a running one whose lease ran out; what a granted one writes |
| DetectorLease.HolderMay | apps/exceptions/services/runs.py:128-136 | heartbeat and persist are accepted exactly from the holder of a running run, fail from the holder of any; what each writes |
| DetectorLease.RunTable.ClaimRun | apps/exceptions/services/runs.py:50-119 | the row updates compute the specified claim |
| DetectorLease.RunTable.HeartbeatRun | apps/exceptions/services/runs.py:128-136 | the guarded update computes the specified heartbeat |
| DetectorLease.RunTable.PersistRun | apps/exceptions/services/runs.py:258-296 | the lease guard and final status of persist |
| DetectorLease.RunTable.FailRun | apps/exceptions/services/runs.py:378-388 | the owner-only guard and status of fail |
| Dispatch.IntentTable.CreateIntents | apps/exceptions/services/dispatch.py:39-55 | an intent is inserted for every key that had none |
| Dispatch.IntentTable.PublishIntent | apps/exceptions/services/dispatch.py:66-112 | claim, hand-off and mark compute the specified attempt; an unclaimable intent is left alone |
| Dispatch.IntentTable.Sweep | apps/exceptions/services/dispatch.py:143-157 | the loop attempts the oldest claimable intents up to the limit and counts those the broker took |
| Dispatch.PublishAllPointwise | apps/exceptions/services/dispatch.py:143-157 | a sweep attempts every chosen intent exactly once and no other |
| Dispatch.AttemptedRests | apps/exceptions/services/dispatch.py:66-112 | whatever the broker did, an attempted intent is not claimable before its lease ends |
| Dispatch.ClaimTakesIff | apps/exceptions/services/dispatch.py:80-93 | an intent is claimed exactly when it is pending, or publishing with an expired lease; what the claim writes |
| Dispatch.AttemptLeaves | apps/exceptions/services/dispatch.py:88-112 | an attempt leaves the intent published with its task and instant, or claimed with the error noted, one attempt on either way |
| Dispatch.OneSweepDrains | apps/exceptions/services/dispatch.py:143-157 | one sweep with a healthy broker shortens the queue by the limit |
| Dispatch.HealthySweep | apps/exceptions/services/dispatch.py:143-157 | a sweep whose hand-offs are all taken publishes exactly the chosen intents |
| Dispatch.SweepsDrain | apps/exceptions/services/dispatch.py:143-157 | sweeping over and over with a healthy broker and no rivals, n intents are all published after r sweeps exactly when r times the limit reaches n |
| EndToEnd.OneIntentPerDetector | apps/ingestion/services/reconciliation.py:123-151 | a ready run has exactly one intent per enabled detector, a waiting one none |
| EndToEnd.HandOffsWithinAttempts | apps/exceptions/services/dispatch.py:66-112 | broker hand-offs of an intent never exceed its attempts, and a published intent had one |
| EndToEnd.AbsorbedForever | apps/exceptions/services/dispatch.py:66-112 | READY with its manifest and PUBLISHED are never left |
| EndToEnd.SupersededForever | apps/exceptions/services/dispatch.py:88-112 | a publisher whose claim was taken over can never mark or touch the intent again |
| EndToEnd.IntentIsTakenOverIff | apps/exceptions/services/dispatch.py:80-93 | after a claim of an intent, whatever else happens, the next claim takes it exactly when it is unpublished and more than 120 seconds have passed |
| EndToEnd.EffectAtMostOnceForReadyManifest | apps/exceptions/services/runs.py:391-416 | over readiness, publishers, broker, workers and manual commands in any interleaving: an evaluation takes effect only for a ready run's manifest with its intent written; as often as its succeeded run was reopened plus one if it stands succeeded; at most once with workers that do not fail what they saw commit |
| EndToEnd.EffectNeedsHandOffOrCommand | apps/exceptions/services/dispatch.py:66-112 | without a manual claim an evaluation takes effect only after its intent was handed to the broker |
| EndToEnd.EffectWithoutHandOff | apps/exceptions/management/commands/run_detectors.py:39-47 | a run in which the manual command's evaluation takes effect while its intent is pending with no attempt |
| Readiness.UnblockedIff | apps/ingestion/services/reconciliation.py:98-120 | nothing blocks exactly when every domain has a committed batch with coverage and no issue is open |
| Readiness.BlockersName | apps/ingestion/services/reconciliation.py:98-120 | each blocker is reported exactly in its own circumstances, naming its domain |
| Readiness.ManifestDescribesReadiness | apps/ingestion/services/reconciliation.py:136-142 | the readiness step records exactly the inputs it then has, all committed and covered |
| Readiness.ManifestDeterminesInputs | apps/ingestion/services/reconciliation.py:39-54 | equal manifests mean the same batch, watermark and coverage per domain, in any order |
| Readiness.ReadyOnce | apps/ingestion/services/reconciliation.py:123-151 | once ready a run keeps status, manifest and domains whatever happens |
| Readiness.AttachKeepsDescriptionIff | apps/ingestion/services/reconciliation.py:75-95 | after an attach the manifest still describes the inputs exactly when the batch was ignored or is already named |
| Readiness.ManifestMayStopDescribing | apps/ingestion/services/reconciliation.py:75-95 | a run that becomes ready on one batch and is then attached to another, whose manifest no longer describes its inputs |
| Readiness.RunRow.AttachBatch | apps/ingestion/services/reconciliation.py:75-95 | the row updates compute the specified attach |
| Readiness.RunRow.ReadinessBlockers | apps/ingestion/services/reconciliation.py:98-120 | the loops build the specified list of blockers in order |
| Readiness.RunRow.EvaluateReadiness | apps/ingestion/services/reconciliation.py:123-142 | the guarded updates compute the specified readiness step |
| Detection.MatchedOrSkipped | apps/exceptions/detectors/base.py:93-103 | matches plus the sum of all skip counts is the number of results |
| Detection.MatchesInOrder | apps/exceptions/detectors/base.py:93-95 | the matches of two lists of results, one after the other, are their matches one after the other |
| Detection.SkipReasonsCount | apps/exceptions/detectors/base.py:97-103 | the dictionary holds exactly the reasons that occurred, each with its number of occurrences |
| CaseRuns.OneCasePerOccurrence | apps/exceptions/services/runs.py:139-240 | case numbers are 1 to n; no work order and service date has two cases, whatever their states and rule versions |
| CaseRuns.NumberAlwaysAllocated | apps/exceptions/services/runs.py:188-215 | the first case number tried is always free |
| CaseInvariant.OccurrenceDecides | apps/exceptions/services/runs.py:153-168 | the fingerprint lookup never finds a case that the occurrence lookup missed |
| CaseInvariant.UpsertKeeps | apps/exceptions/services/runs.py:144-240 | an upsert succeeds, keeps the invariant, touches only the case of its occurrence and creates it exactly when there was none |
| CaseInvariant.PersistKeeps | apps/exceptions/services/runs.py:258-296 | a persist keeps the invariant of cases and ledger, committed or rolled back |
| CaseRuns.PersistWritesEvidence | apps/exceptions/services/runs.py:258-367 | an earlier case is refreshed by the last match of its own occurrence if open, left alone if only another date matched, and flagged only if its work order did not match: never both |
| CaseRuns.DetectorNeverDecides | apps/exceptions/services/runs.py:170-183 | a persist changes no state, version, owner or code; closed cases not at all; a timeline grows only by one contradiction |
| CaseRuns.PersistShowsFinding | apps/exceptions/services/runs.py:174-186 | a refreshed case shows the finding's evidence and the run; a contradicted one the reported reason, the run and the overall freshness |
| CaseRuns.PersistCoversMatches | apps/exceptions/services/runs.py:268-284 | after a persist every matched occurrence has a case, and every added case is new, at version 1, and was matched |
| CaseLaws.NewCasesShowFinding | apps/exceptions/services/runs.py:185-240 | every case a persist adds shows the last finding for its occurrence, the run and its moment, and nothing that people decide |
| CaseLaws.ContradictedIff | apps/exceptions/services/runs.py:299-367 | an earlier case is contradicted exactly when it is open, was evaluated and skipped, and this run has not contradicted it already; with the reported reason |
| CaseLaws.ContradictionShows | apps/exceptions/services/runs.py:299-375 | a contradicted case shows finance review, the run and evidence as bad as the worse feed, and keeps the rest of the earlier finding |
| CaseRuns.TimelineReplays | apps/exceptions/services/transitions.py:46-66 | every timeline replays along allowed edges from New to the stored state and version; human events carry versions 2, 3, and so on up to it |
| CaseRuns.OwnedOnceAcknowledged | apps/exceptions/services/transitions.py:137-220 | past New a case has an owner and was acknowledged exactly once, unless dismissed straight from New; closed cases carry a code of their kind |
| CaseRuns.TransitionEffects | apps/exceptions/services/transitions.py:162-189 | who owns the case afterwards, when it was first acknowledged, which code closes it and by whose role, and that detector columns are untouched |
| CaseLaws.TransitionCommitsIff | apps/exceptions/services/transitions.py:46-220 | a request is carried out exactly when it expects the version, the state diagram leads there, the member is entitled, what the target takes is given and the named owner is active; each refusal has its own circumstances |
| CaseLaws.AssignmentCommitsIff | apps/exceptions/services/transitions.py:223-283 | an assignment is carried out exactly when it expects the version, the case is open, the member is entitled and the owner active; it changes owner and version and tells so |
| CaseHistory.TerminalIsFrozen | apps/exceptions/services/runs.py:170-173 | a resolved or dismissed case never changes again in any column |
| CaseHistory.OneCommitPerVersion | apps/exceptions/services/transitions.py:151-154 | of all requests that expect one version at most one is ever carried out |
| CaseHistory.VersionCountsDecisions | apps/exceptions/services/transitions.py:137-283 | the version counts the human decisions; without one, state and owner stay |
| CaseHistory.CountsAreExact | apps/exceptions/services/runs.py:284-295 | created is the number of new cases; created plus updated is matches plus contradictions; matches plus skipped is the number of results |
| CaseHistory.PersistCommitsIff | apps/exceptions/models.py:709-722 | a persist commits exactly when no match with a value is for a work order whose item belongs to a case of another date |
| Poison.PoisonedForever | apps/exceptions/models.py:711-717 | such a match rolls back every later persist that contains it, after any run |
| Poison.DeskCarriesReachableLedger | apps/exceptions/services/runs.py:268-284 | the ledger beside the cases is always one the recovery operations alone reach, with one item per case and work order |
| RescheduledWork.RescheduledJobIsPoisoned | apps/exceptions/detectors/revenue_unbilled.py:92-128 | one job, evaluated and persisted, then rescheduled to another local day: it matches again and its persist is rolled back, then and after any later actions |
| Evaluations.RunSplits | apps/exceptions/services/runs.py:258-296 | every run of leases and cases together is a run of the lease table and a run of the desk |
| Evaluations.FencedNeverWrites | apps/exceptions/services/runs.py:258-266 | the persist of a worker whose lease was reclaimed changes nothing, in every later state |
| Evaluations.DeskWrittenAtMostOnce | apps/exceptions/services/runs.py:258-296 | an evaluation writes the desk as often as its succeeded run was reopened plus one if it stands succeeded; at most once with workers that do not fail what they saw commit |
| Evaluations.EvaluationFinishesIff | apps/exceptions/services/runs.py:258-296 | persisting an evaluation finishes exactly when the worker holds the running lease and no matched work order has an item under another date |
| Evaluations.RedeliveryFinishesIff | apps/exceptions/services/runs.py:391-416 | a delivery that finds the run never started, failed or abandoned claims it, and finishes it exactly when no matched work order has an item under another date |
| Evaluations.PoisonedNeverSucceeds | apps/exceptions/services/runs.py:408-416 | an evaluation that keeps matching a work order recorded under another date never succeeds, whatever workers and people do |
| Evaluations.EvaluationService.PersistEvaluation | apps/exceptions/services/runs.py:258-296 | the lease check, the writes and the final status happen together or not at all |
| Evaluations.EvaluationService.EvaluateAndPersist | apps/exceptions/services/runs.py:391-416 | without interleaving, a held or succeeded run is left alone, and any other ends succeeded with its output on the desk or failed with the desk untouched |
| CaseStore.CaseDesk.UpsertRow | apps/exceptions/services/runs.py:144-240 | lookups, refresh and the numbering loop compute the specified upsert |
| CaseStore.CaseDesk.FlagRows | apps/exceptions/services/runs.py:299-367 | the loop flags and counts exactly the specified cases |
| CaseStore.CaseDesk.PersistOutput | apps/exceptions/services/runs.py:258-296 | the loops over matches and open cases compute the specified persist and counts, or restore everything |
| CaseStore.CaseDesk.TransitionRow | apps/exceptions/services/transitions.py:137-220 | the guards in order and the column updates compute the specified transition |
| CaseStore.CaseDesk.AssignRow | apps/exceptions/services/transitions.py:223-283 | the guards in order and the column updates compute the specified assignment |
| UnbilledDetector.Evaluate | apps/exceptions/detectors/revenue_unbilled.py:288-462 | the loop gives one result per work order, each the verdict of the rule |
| UnbilledDetector.Judge | apps/exceptions/detectors/revenue_unbilled.py:323-396 | the early exits give a match when all conditions hold and otherwise the first failing condition in coded order |
| UnbilledDetector.ProvesAbsence | apps/exceptions/detectors/revenue_unbilled.py:151-200 | the loop answers whether some admissible declaration contains every date |
| UnbilledDetector.ServiceDates | apps/exceptions/detectors/revenue_unbilled.py:92-128 | dates exist exactly when some timestamp does, and the primary date is a candidate |
| DetectorLaws.VerdictIffJustified | apps/exceptions/detectors/revenue_unbilled.py:323-396 | the verdict is the only one that names the first failing condition, or the full match |
| UnbilledRule.VerdictFollowsRule | apps/exceptions/detectors/revenue_unbilled.py:323-396 | a work order matches exactly when no reason applies, and is skipped for a reason exactly when it applies and none ranked before it does, every reason being stated on the rows: freshness limits, local days, coverage, authorization, contract term, invoices |
| UnbilledRule.MatchReports | apps/exceptions/detectors/revenue_unbilled.py:398-410 | a match reports the occurrence's day, a deadline thirty days after the delay ran out, the severity by age and amount, and aging exactly between three quarters of a feed's limit and the limit |
| UnbilledRule.OutputReports | apps/exceptions/detectors/revenue_unbilled.py:67-85 | the reported freshness of each feed is stale exactly past its limit, aging exactly past three quarters of it, unknown exactly without one |
| DetectorLaws.OneResultPerWorkOrder | apps/exceptions/detectors/revenue_unbilled.py:323-330 | one result per work order in order; scanned is matches plus skipped |
| DetectorLaws.MatchRestsOnEvidence | apps/exceptions/detectors/revenue_unbilled.py:151-217 | a match has an admissible declaration containing every candidate date, and no invoice that is not void is linked or on any of them |
| DetectorLaws.InvoicesNeverCreateMatch | apps/exceptions/detectors/revenue_unbilled.py:203-217 | more invoices never create a match, and never change one that remains |
| DetectorLaws.VoidInvoicesAreIgnored | apps/exceptions/detectors/revenue_unbilled.py:203-217 | a void invoice changes no verdict |
| DetectorLaws.ValueKnownIff | apps/exceptions/detectors/revenue_unbilled.py:220-276 | when a candidate has an amount and which: the fixed amount, or hours at the pricing rate within half a ten-thousandth; a zero rate counts as no rate |
| UnbilledRule.ValueNamesItsGrounds | apps/exceptions/detectors/revenue_unbilled.py:220-276 | a value names its source and the figures it was computed from, or the figure that is missing |
| DetectorLaws.ManualIffNoAmount | apps/exceptions/detectors/revenue_unbilled.py:220-276 | manual exactly without an amount and exactly with a missing input named; amounts are not negative |
| DetectorLaws.SeverityGrows | apps/exceptions/detectors/revenue_unbilled.py:279-285 | severity never falls with age or amount |
| DetectorLaws.MatchIsUnbilled | apps/recovery/services/accounting.py:97-189 | on the invoices a match was decided on, the accounting derivation finds a fresh item unbilled and undisputed |
| DetectorLaws.EvaluationCommitsIff | apps/exceptions/services/runs.py:391-416 | evaluate and persist commits exactly when no matched work order has an item under another date |
| DetectorLaws.RunCountsBalance | apps/exceptions/services/runs.py:284-295 | the recorded scanned count is matches plus skipped, and created plus updated is matches plus contradictions |
| Checklist.Evaluate | apps/recovery/services/checklist.py:81-307 | the ten items in order, each by its own condition; no checklist only when a dateless work order raises |
| Checklist.CompleteMeans | apps/recovery/services/checklist.py:44-50 | all ten pass exactly when the outside facts, the value, the duplicate check and the approver's role do |
| Agreement.ChecklistAsks | apps/recovery/services/checklist.py:97-293 | in every ledger that keeps the invariant each of the ten items passes exactly when the rows give what it asks |
| Agreement.ApprovalIffCompleteChecklist | apps/recovery/services/approvals.py:105-175 | an approval commits exactly when all ten items pass, the version and state are the expected ones, no dispute is open and the candidate is the latest snapshot |
| Agreement.ExportIffChecklistStillHolds | apps/recovery/services/exports.py:221-258 | selected items are handed over exactly when each still passes checklist items 8 and 9 on current rows, has no invoice by its stage, and all share one currency |
| Agreement.MatchesPassChecklist | apps/recovery/services/checklist.py:97-293 | after a committed persist each matched work order has an item under a case of that date whose checklist on the same run passes items 1, 2, 3, 5, 6 and 8, passes 7 exactly when the basis is not manual, and has no competing item |
| Agreement.MatchPassesFacts | apps/recovery/services/checklist.py:97-264 | whatever the ledger holds, a match passes items 1, 2, 3, 5, 6 and 8 over the same run and rows |
| Agreement.PersistRecords | apps/exceptions/services/financial.py:36-76 | after a committed persist the current candidate of each matched work order carries the reported inputs, also after approvals and revocations |
| Rounding.HalfUpIsNearest | apps/exceptions/services/financial.py:19-23 | the quantized value is a nearest multiple and ties go away from zero |
| Rounding.HalfUpIsUnique | apps/exceptions/services/financial.py:19-23 | for values of either sign, the quantized value is the one nearest multiple with ties away from zero |
| Rounding.HourlyValueIsExactEnough | apps/exceptions/detectors/revenue_unbilled.py:255-257 | hours times rate is kept within half a ten-thousandth |
| Rounding.HourlyValueGrows | apps/exceptions/detectors/revenue_unbilled.py:255-257 | the value is monotone in hours and in rate |
| Rounding.CentsAfterRounding | apps/exceptions/services/financial.py:19-23 | rounding again to cents gives the directly rounded cents, or one more exactly when the first rounding lifts the value to a half cent |
| Rounding.RoundingTwiceGainsACent | apps/exceptions/services/financial.py:19-23 | an hourly value that is nothing in cents and becomes one cent when rounded to four places first |
| Identity.ConfirmRefines | apps/ingestion/services/identity.py:85-150 | a confirmation extends the map by one entry, leaves it, or is refused exactly when the key is mapped elsewhere; the table stays valid |
| Identity.ResolveIff | apps/ingestion/services/identity.py:48-82 | a reference resolves to a target exactly when a confirmed row of a known source says so; each failure has its own circumstances |
| Identity.FirstConfirmationWins | apps/ingestion/services/identity.py:85-150 | over any sequence each key keeps its target, else gets that of the first request for it, for ever |
| Identity.AtMostOneConfirmed | apps/ingestion/services/identity.py:76-77 | a key has at most one confirmed row, so the ambiguous branch is unreachable |
| Identity.ReferenceTable.ResolveReference | apps/ingestion/services/identity.py:48-82 | the bounded scan answers the partial map, with the failures in order |
| Identity.ReferenceTable.ConfirmReference | apps/ingestion/services/identity.py:85-150 | the row updates compute the specified confirmation |
| Quarantine.ReprocessSettles | apps/ingestion/services/imports.py:326-353 | after reprocessing, a row is invalid exactly when it was and carries a failure that is not about identity or a reference that does not resolve; other rows are untouched |
| Quarantine.RowsSettle | apps/ingestion/services/normalizers.py:331-355 | every row is settled by the references as they stood before the batch |
| Promotion.PromotedRow | apps/ingestion/services/normalizers.py:331-470 | a row whose references resolve is promoted: its record keeps its target or gets a new one, no other identity changes, its content is recorded, and the status says whether it was new |
| Promotion.BlockedRow | apps/ingestion/services/normalizers.py:331-355 | a row is quarantined under its first reference that does not resolve, with an open issue for it when its source is known |
| Promotion.ReopenedIff | apps/ingestion/services/imports.py:326-353 | a row is reopened exactly when it is invalid and all its errors are about identity |
| Promotion.OnlyCommittedIsReprocessed | apps/ingestion/services/imports.py:326-353 | reprocessing leaves a batch that has not committed as it is |
| Promotion.PromotedRowsStayRecorded | apps/ingestion/services/normalizers.py:358-470 | over any run every promoted row of every committed batch has a canonical record whose versions contain its content |
| Promotion.IntakeKeepsChains | apps/ingestion/services/imports.py:236-279 | over any run the versions of every record form one unbranched chain in import order |
| QuarantineLaws.ResolutionPromotes | apps/ingestion/services/identity.py:188-227 | after a manual resolution a row of the issue's batch stays invalid exactly for a failure of another kind or another missing reference |
| QuarantineLaws.PromotedOnlyInTheIssuesBatch | apps/ingestion/services/identity.py:220-226 | a row waiting only for the resolved identity is promoted exactly when it lies in the issue's batch |
| QuarantineLaws.SharedIssueStrandsRow | apps/ingestion/services/identity.py:173-184 | two files for which one stays quarantined with every reference resolved and no open issue |
| QuarantineLaws.ResolutionShrinksOpenKeys | apps/ingestion/services/identity.py:188-227 | a resolution removes its identity from those the batch waits for and adds none |
| QuarantineLaws.ResolutionShrinksEverywhere | apps/ingestion/services/identity.py:188-227 | a resolution removes its identity from those awaited by rows of any batch and adds none anywhere |
| QuarantineLaws.DrainingTerminates | apps/ingestion/services/identity.py:188-227 | in any sequence of resolutions, on issues of any batches, those of an awaited identity plus the identities awaited at the end are at most the identities awaited at the start |
| QuarantineLaws.DrainedIffNothingRetriable | apps/ingestion/services/imports.py:326-353 | after a resolution nothing is awaited exactly when no row is quarantined on identity alone |
| QuarantineLaws.OneOpenIssuePerKey | apps/ingestion/services/identity.py:153-185 | over any run of imports, confirmations and resolutions each key has at most one open issue |
| IntakeStore.Store.ResolveOrQuarantine | apps/ingestion/services/normalizers.py:331-355 | the loop resolves all references or quarantines at the first that fails and opens or reuses an issue |
| IntakeStore.Store.NormalizeBatch | apps/ingestion/services/normalizers.py:358-470 | the loop promotes or quarantines the valid rows in order |
| IntakeStore.Store.Commit | apps/ingestion/services/imports.py:282-323 | only a fully valid batch is promoted, whole; committing twice changes nothing |
| IntakeStore.Store.ReprocessQuarantined | apps/ingestion/services/imports.py:326-353 | reopening and normalizing compute the specified reprocess |
| IntakeStore.Store.ResolveIssueManually | apps/ingestion/services/identity.py:188-227 | confirm, close and reprocess compute the specified resolution; a conflict changes nothing |
| SourceVersions.HistoryIsOneChain | apps/ingestion/services/imports.py:236-279 | the versions of a record form one unbranched chain listing each content once by first arrival |
| SourceVersions.ChainCountsContents | apps/ingestion/services/imports.py:236-279 | the chain is as long as the number of distinct contents imported |
| SourceVersions.ReplayAppendsNothing | apps/ingestion/services/imports.py:249-257 | importing any content already seen appends nothing |
| SourceVersions.HeadFollowsSource | apps/ingestion/services/imports.py:249-267 | the newest version is what the source said last exactly when that is new or already was the newest |
| SourceVersions.ReturningContentIsNotHead | apps/ingestion/services/imports.py:249-267 | A, B, A leaves B as the newest version |
| Upload.AcceptedRowsAgree | apps/ingestion/services/imports.py:153-185 | an accepted identifier is repeated only by invoice rows that agree on all nine compared columns |
| Upload.ReadyIff | apps/ingestion/services/imports.py:206-213 | a file is ready exactly when its rows carry no error but an unknown column, and every two of them may stand together |
| Upload.DuplicateErrorsMean | apps/ingestion/services/imports.py:153-185 | which error a repeated identifier earns, by the first row that carries it |
| Upload.ValidateRows | apps/ingestion/services/imports.py:144-214 | the loop with its dictionary gives each row its specified errors and status; total is valid plus invalid; ready exactly when all are accepted |

## Left out

- Views, forms, selectors, URL routing, settings, health checks and logging: input and presentation.
- Database locking, Celery and Redis: a transaction is an atomic step, a constraint violation a rolled-back step, the broker a source of duplicated or dropped deliveries.
- Audit records, source links, explanation texts, labels, display references and request ids: no behaviour depends on them.
- CSV parsing, per-column validation, coverage declarations of an upload and the exact-replay lookup of an identical upload: a parsed row carries the errors those steps found.
- CSV content and file name of an export: the export row keeps its key, members, count, total and currency.
- Roles and site scope of recovery services: one boolean for "may act"; case transitions keep their role sets.
- Schedule leases and run windows in apps/exceptions/services/dispatch.py:163-223: they only thin out scheduling and guard nothing that evaluation relies on.
- Recovery VOID, intent FAILED, run PARTIAL, reference SUPERSEDED and export superseding: no modelled service writes them.
- The sites-contracts and crosswalk normalizers: rows are work-order and invoice rows.
- Other columns of work orders and invoices that a promotion copies: a row's content is one value.
- Approval.expires_at and comments: nothing modelled reads them.
- LeaseRuns.TakesEffectAtMostOnce: asks that a worker which saw its persist commit does not call fail, which evaluate-and-persist guarantees except for a lost acknowledgement; CommitLaw covers every caller.
- EndToEnd.EffectAtMostOnceForReadyManifest: the effect is a committed persist of the lease machine, which Evaluations joins to the case writes; blockers and manifest are one flag and one number, which Readiness has in full.
- LedgerRuns.ExportCommitsIff: takes the items that still prove unbilled as any set; Agreement.ExportIffChecklistStillHolds has the set the checklist computes.
- Evaluations.EvaluationService.EvaluateAndPersist: one call without interleaving; the runs of Evaluations interleave its steps.
- ExportKey.SortSorts: parts are ordered by item and snapshot position, not by the text of their identifiers.
- Readiness.RunRow.EvaluateReadiness: does not insert intents; Dispatch and EndToEnd do.
- UnbilledDetector.Evaluate: ages are compared in whole seconds, and assumptions keep numbers rather than their decimal text.
- IntakeStore.Store.NormalizeBatch: payment references and missing required values inside a row are not modelled; its own record is promoted without failing.
- IntakeStore.Store.Commit: the refresh of all recovery items after an invoice commit is RecoveryStore.Store.RefreshOrganization and is not called here.
- DetectorLease.RunTable.PersistRun: the lease guard and final status alone; Evaluations joins them to the case writes.
- CaseStore.CaseDesk.PersistOutput: starts after the lease check, which Evaluations.EvaluationService.PersistEvaluation makes.
- CaseHistory.PersistCommitsIff: speaks of the writes; Evaluations.EvaluationFinishesIff adds the lease.
- CaseInvariant.PersistKeeps: holds with or without the lease check, so it has none.
- DetectorLaws.EvaluationCommitsIff: speaks of the writes; Evaluations.EvaluationFinishesIff adds the lease.
- CaseStore.CaseDesk.UpsertRow: retries recompute the same number within the transaction; the race between two transactions is left to the serialized steps.
