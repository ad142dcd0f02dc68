/**
 The recovery ledger: snapshots, approvals, exports, stage events and accounting stage of
 every recovery item. One record holds an item together with the rows whose foreign key
 names it; the position of a record is the item's identity and its case-number order.
 Every operation maps a ledger to an outcome: refused operations roll back entirely.
 */
module Ledger {
  import opened Common
  import opened Accounting
  import opened ExportKey

  datatype WorkflowState = Candidate | InvoiceReady | Exported | Void

  datatype DisputeStatus = NoDispute | OpenDispute | ResolvedDispute

  datatype Basis = FixedWorkOrder | HourlyActual | HourlyScheduled | ManualAmountRequired

  datatype Note = Text(text: string) | Number(number: nat)

  datatype Snapshot = Snapshot(
    version: nat, calculationVersion: nat, currency: Currency,
    candidateValue: Option<Money>, invoiceReadyValue: Option<Money>,
    basis: Basis, assumptions: map<string, Note>)

  datatype ApprovalKind = InvoiceReadyApproval | FinanceExportApproval

  /** Every approval row the services write has decision "approved". */
  datatype Approval = Approval(kind: ApprovalKind, subjectVersion: nat, snapshot: Option<nat>, revoked: bool)

  datatype StageEvent =
    WorkflowEvent(was: WorkflowState, now: WorkflowState)
  | AccountingEvent(from: Stage, to: Stage, invoice: Option<nat>)
  | DisputeOpened(reason: DisputeReason)
  | DisputeClosed

  datatype Item = Item(
    workflow: WorkflowState, stage: Stage, dispute: DisputeStatus, disputeReason: Option<DisputeReason>,
    candidate: Option<nat>, ready: Option<nat>,
    invoiced: Option<Money>, collected: Option<Money>,
    exportReference: Option<nat>, version: nat)

  /** candidate and ready point into snapshots. */
  datatype Record = Record(
    caseId: nat, workOrder: nat, item: Item,
    snapshots: seq<Snapshot>, approvals: seq<Approval>, events: seq<StageEvent>)

  datatype FinanceExport = FinanceExport(
    key: seq<Part>, items: seq<nat>, rowCount: nat, total: Money, currency: Currency)

  datatype State = State(records: seq<Record>, exports: seq<FinanceExport>)

  const EMPTY := State([], [])

  datatype Error =
    NotFound | Denied | StaleSubject | WrongWorkflowState | DisputeBlocks | EvidenceIncomplete
  | IntegrityError | AlreadyExportedError | ReasonRequired | NothingToExport | NoLongerExportable | MixedCurrencies

  datatype Outcome = Committed(state: State) | Refused(error: Error)

  /** The state a caller finds afterwards: a refused operation changed nothing. */
  function After(s: State, o: Outcome): State {
    if o.Committed? then o.state else s
  }

  // ---------------------------------------------------------------- snapshots

  /** The row constraints on amounts: never negative, and a manual basis carries none. */
  predicate AmountsAllowed(s: Snapshot) {
    && (s.candidateValue.Some? ==> s.candidateValue.value >= 0)
    && (s.invoiceReadyValue.Some? ==> s.invoiceReadyValue.value >= 0)
    && (s.basis.ManualAmountRequired? ==> s.candidateValue.None? && s.invoiceReadyValue.None?)
  }

  predicate VersionTaken(snapshots: seq<Snapshot>, version: nat) {
    exists k | 0 <= k < |snapshots| :: snapshots[k].version == version
  }

  predicate SnapshotInsertable(snapshots: seq<Snapshot>, s: Snapshot) {
    !VersionTaken(snapshots, s.version) && AmountsAllowed(s)
  }

  /** Position of the snapshot with the greatest version. */
  function Latest(snapshots: seq<Snapshot>): (k: nat)
    requires snapshots != []
    ensures k < |snapshots|
    ensures forall j | 0 <= j < |snapshots| :: snapshots[j].version <= snapshots[k].version
  {
    var last := |snapshots| - 1;
    if last == 0 then 0
    else
      var k := Latest(snapshots[..last]);
      if snapshots[last].version > snapshots[k].version then last else k
  }

  // ---------------------------------------------------------------- candidates

  datatype FinancialInputs = FinancialInputs(
    basis: Basis, candidateValue: Option<Money>, assumptions: map<string, Note>)

  predicate SameInputs(s: Snapshot, calculationVersion: nat, f: FinancialInputs) {
    && s.basis == f.basis
    && s.candidateValue == f.candidateValue
    && s.assumptions == f.assumptions
    && s.calculationVersion == calculationVersion
  }

  function CandidateSnapshot(version: nat, calculationVersion: nat, currency: Currency, f: FinancialInputs): Snapshot {
    Snapshot(version, calculationVersion, currency, f.candidateValue, None, f.basis, f.assumptions)
  }

  function NewRecord(caseId: nat, workOrder: nat, s: Snapshot): Record {
    Record(caseId, workOrder,
           Item(Candidate, NoInvoice, NoDispute, None, Some(0), None, None, None, None, 1),
           [s], [], [])
  }

  function FindCase(records: seq<Record>, caseId: nat): (found: Option<nat>)
    ensures found.Some? ==> found.value < |records| && records[found.value].caseId == caseId
    ensures found.None? ==> forall i | 0 <= i < |records| :: records[i].caseId != caseId
  {
    if records == [] then None
    else
      var last := |records| - 1;
      if records[last].caseId == caseId then Some(last) else FindCase(records[..last], caseId)
  }

  predicate WorkOrderTaken(records: seq<Record>, workOrder: nat) {
    exists i | 0 <= i < |records| :: records[i].workOrder == workOrder && !records[i].item.workflow.Void?
  }

  /** Append a candidate snapshot to the case's record, unless the latest one says the same. */
  function RecordCandidate(
    s: State, caseId: nat, workOrder: nat, currency: Currency, calculationVersion: nat, f: FinancialInputs
  ): Outcome {
    match FindCase(s.records, caseId)
    case Some(i) =>
      var r := s.records[i];
      if r.snapshots != [] && SameInputs(r.snapshots[Latest(r.snapshots)], calculationVersion, f) then
        Committed(s)
      else
        var version := if r.snapshots == [] then 1 else r.snapshots[Latest(r.snapshots)].version + 1;
        var appended := CandidateSnapshot(version, calculationVersion, currency, f);
        if !SnapshotInsertable(r.snapshots, appended) then Refused(IntegrityError)
        else
          var r' := r.(snapshots := r.snapshots + [appended], item := r.item.(candidate := Some(|r.snapshots|)));
          Committed(s.(records := s.records[i := r']))
    case None =>
      var appended := CandidateSnapshot(1, calculationVersion, currency, f);
      if !AmountsAllowed(appended) || WorkOrderTaken(s.records, workOrder) then Refused(IntegrityError)
      else Committed(s.(records := s.records + [NewRecord(caseId, workOrder, appended)]))
  }

  // ---------------------------------------------------------------- approvals

  /** Positions of the unrevoked approvals of one kind. */
  function Live(approvals: seq<Approval>, kind: ApprovalKind): set<nat> {
    set k: nat | k < |approvals| && approvals[k].kind == kind && !approvals[k].revoked
  }

  predicate BasisSupported(r: Record) {
    r.item.candidate.Some? && r.item.candidate.value < |r.snapshots| &&
    var s := r.snapshots[r.item.candidate.value];
    !s.basis.ManualAmountRequired? && s.candidateValue.Some?
  }

  predicate InSomeExport(s: State, i: nat) {
    exists e | 0 <= e < |s.exports| :: i in s.exports[e].items
  }

  predicate CompetingItem(s: State, i: nat)
    requires i < |s.records|
  {
    exists j | 0 <= j < |s.records| ::
      j != i && s.records[j].workOrder == s.records[i].workOrder && !s.records[j].item.workflow.Void?
  }

  /** The duplicate case or export check of the evidence checklist. */
  predicate NoDuplicate(s: State, i: nat)
    requires i < |s.records|
  {
    !s.records[i].item.workflow.Exported? && !InSomeExport(s, i) && !CompetingItem(s, i)
  }

  function ReadySnapshot(c: Snapshot): Snapshot {
    c.(version := c.version + 1,
       invoiceReadyValue := c.candidateValue,
       assumptions := c.assumptions["approved_from_snapshot" := Number(c.version)])
  }

  /** The record once its candidate snapshot has been approved. */
  function Approved(r: Record): Record
    requires BasisSupported(r)
  {
    var appended := ReadySnapshot(r.snapshots[r.item.candidate.value]);
    r.(snapshots := r.snapshots + [appended],
       approvals := r.approvals + [Approval(InvoiceReadyApproval, r.item.version, Some(|r.snapshots|), false)],
       item := r.item.(workflow := InvoiceReady, ready := Some(|r.snapshots|), version := r.item.version + 1),
       events := r.events + [WorkflowEvent(r.item.workflow, InvoiceReady)])
  }

  /** `facts` says whether the checklist items read from outside the ledger (1 to 6 and 8) hold now. */
  function Approve(s: State, i: nat, mayAct: bool, expectedVersion: nat, facts: bool): Outcome {
    if i >= |s.records| then Refused(NotFound)
    else if !mayAct then Refused(Denied)
    else
      var r := s.records[i];
      if r.item.version != expectedVersion then Refused(StaleSubject)
      else if !r.item.workflow.Candidate? then Refused(WrongWorkflowState)
      else if r.item.dispute.OpenDispute? then Refused(DisputeBlocks)
      else if !(facts && BasisSupported(r) && NoDuplicate(s, i)) then Refused(EvidenceIncomplete)
      else if Live(r.approvals, InvoiceReadyApproval) != {} then Refused(IntegrityError)
      else if !SnapshotInsertable(r.snapshots, ReadySnapshot(r.snapshots[r.item.candidate.value])) then
        Refused(IntegrityError)
      else Committed(s.(records := s.records[i := Approved(r)]))
  }

  /** Position of the first unrevoked invoice-ready approval among the first n, counted from `k`. */
  function FirstLive(approvals: seq<Approval>, kind: ApprovalKind, k: nat): (found: Option<nat>)
    requires k <= |approvals|
    ensures found.Some? ==> found.value in Live(approvals, kind)
    ensures found.None? ==> forall j | k <= j < |approvals| :: j !in Live(approvals, kind)
    decreases |approvals| - k
  {
    if k == |approvals| then None
    else if approvals[k].kind == kind && !approvals[k].revoked then Some(k)
    else FirstLive(approvals, kind, k + 1)
  }

  function WithdrawLive(approvals: seq<Approval>): seq<Approval> {
    match FirstLive(approvals, InvoiceReadyApproval, 0)
    case None => approvals
    case Some(k) => approvals[k := approvals[k].(revoked := true)]
  }

  function Revoked(r: Record): Record {
    r.(approvals := WithdrawLive(r.approvals),
       item := r.item.(workflow := Candidate, ready := None, version := r.item.version + 1),
       events := r.events + [WorkflowEvent(InvoiceReady, Candidate)])
  }

  function Revoke(s: State, i: nat, mayAct: bool, expectedVersion: nat, reasonGiven: bool): Outcome {
    if i >= |s.records| then Refused(NotFound)
    else if !mayAct then Refused(Denied)
    else
      var r := s.records[i];
      if r.item.version != expectedVersion then Refused(StaleSubject)
      else if r.item.workflow.Exported? || InSomeExport(s, i) then Refused(AlreadyExportedError)
      else if !r.item.workflow.InvoiceReady? then Refused(WrongWorkflowState)
      else if !reasonGiven then Refused(ReasonRequired)
      else Committed(s.(records := s.records[i := Revoked(r)]))
  }

  // ---------------------------------------------------------------- exports

  /** Identity of every item is below the number of records. */
  predicate InRange(records: seq<Record>, ids: seq<nat>) {
    forall k | 0 <= k < |ids| :: ids[k] < |records|
  }

  predicate Exportable(item: Item) {
    item.workflow.InvoiceReady? && !item.dispute.OpenDispute?
  }

  predicate Requested(request: Option<seq<nat>>, i: nat) {
    request.None? || i in request.value
  }

  /** The first n items that pass the test, in case-number order. */
  function Filter(records: seq<Record>, test: (nat, Item) -> bool, n: nat): (ids: seq<nat>)
    requires n <= |records|
    ensures InRange(records, ids) && Increasing(ids)
    ensures forall k | 0 <= k < |ids| :: ids[k] < n && test(ids[k], records[ids[k]].item)
    ensures forall i: nat | i < n && test(i, records[i].item) :: i in ids
  {
    if n == 0 then []
    else
      var before := Filter(records, test, n - 1);
      if test(n - 1, records[n - 1].item) then before + [n - 1] else before
  }

  function Selected(records: seq<Record>, request: Option<seq<nat>>): (ids: seq<nat>)
    ensures InRange(records, ids) && Increasing(ids)
    ensures forall k | 0 <= k < |ids| :: Exportable(records[ids[k]].item) && Requested(request, ids[k])
    ensures forall i: nat | i < |records| && Exportable(records[i].item) && Requested(request, i) :: i in ids
  {
    Filter(records, (i: nat, item: Item) => Exportable(item) && Requested(request, i), |records|)
  }

  /** Items a resubmitted request names that have already been exported. */
  function NamedExported(records: seq<Record>, ids: seq<nat>): seq<nat> {
    Filter(records, (i: nat, item: Item) => item.workflow.Exported? && i in ids, |records|)
  }

  function Parts(records: seq<Record>, ids: seq<nat>): seq<Part>
    requires InRange(records, ids)
  {
    seq(|ids|, k requires 0 <= k < |ids| => Part(ids[k], records[ids[k]].item.ready))
  }

  function Key(records: seq<Record>, ids: seq<nat>): seq<Part>
    requires InRange(records, ids)
  {
    Sort(Parts(records, ids))
  }

  function FindKey(exports: seq<FinanceExport>, key: seq<Part>, e: nat): (found: Option<nat>)
    requires e <= |exports|
    ensures found.Some? ==> found.value < |exports| && exports[found.value].key == key
    ensures found.None? ==> forall j | e <= j < |exports| :: exports[j].key != key
    decreases |exports| - e
  {
    if e == |exports| then None
    else if exports[e].key == key then Some(e)
    else FindKey(exports, key, e + 1)
  }

  /** The approved value an item would contribute to an export. */
  function ReadyValue(r: Record): Money {
    if r.item.ready.Some? && r.item.ready.value < |r.snapshots|
       && r.snapshots[r.item.ready.value].invoiceReadyValue.Some?
    then r.snapshots[r.item.ready.value].invoiceReadyValue.value
    else 0
  }

  function Total(records: seq<Record>, ids: seq<nat>): Money
    requires InRange(records, ids)
  {
    Sum(ReadyValues(records, ids))
  }

  function ReadyValues(records: seq<Record>, ids: seq<nat>): seq<Money>
    requires InRange(records, ids)
  {
    seq(|ids|, k requires 0 <= k < |ids| => ReadyValue(records[ids[k]]))
  }

  function Currencies(records: seq<Record>, ids: seq<nat>): set<Currency>
    requires InRange(records, ids)
  {
    set k | 0 <= k < |ids| && ReadyCurrency(records[ids[k]]).Some? :: ReadyCurrency(records[ids[k]]).value
  }

  function ReadyCurrency(r: Record): Option<Currency> {
    if r.item.ready.Some? && r.item.ready.value < |r.snapshots|
    then Some(r.snapshots[r.item.ready.value].currency)
    else None
  }

  function FirstCurrency(records: seq<Record>, ids: seq<nat>): Currency
    requires InRange(records, ids)
  {
    if ids == [] then "USD"
    else if ReadyCurrency(records[ids[0]]).Some? then ReadyCurrency(records[ids[0]]).value
    else FirstCurrency(records, ids[1..])
  }

  /** Re-proved for each item just before the hand-off. */
  predicate StillExportable(s: State, i: nat, unbilled: set<nat>)
    requires i < |s.records|
  {
    i in unbilled && NoDuplicate(s, i)
    && s.records[i].item.stage.NoInvoice? && !s.records[i].item.dispute.OpenDispute?
  }

  /** The first reason, in coded order, not to hand over these items together. */
  function Objection(s: State, ids: seq<nat>, unbilled: set<nat>): Option<Error>
    requires InRange(s.records, ids)
  {
    if exists k | 0 <= k < |ids| :: !StillExportable(s, ids[k], unbilled) then Some(NoLongerExportable)
    else if |Currencies(s.records, ids)| > 1 then Some(MixedCurrencies)
    else if Total(s.records, ids) < 0 then Some(IntegrityError)
    else if exists k | 0 <= k < |ids| :: Live(s.records[ids[k]].approvals, FinanceExportApproval) != {} then
      Some(IntegrityError)
    else None
  }

  function HandedOff(r: Record, e: nat): Record {
    r.(item := r.item.(workflow := Exported, exportReference := Some(e), version := r.item.version + 1),
       approvals := r.approvals + [Approval(FinanceExportApproval, r.item.version + 1, None, false)],
       events := r.events + [WorkflowEvent(r.item.workflow, Exported)])
  }

  /** Hand off the items one after the other. */
  function HandOffAll(records: seq<Record>, ids: seq<nat>, e: nat): (records': seq<Record>)
    requires InRange(records, ids)
    ensures |records'| == |records|
  {
    if ids == [] then records
    else
      var last := |ids| - 1;
      var before := HandOffAll(records, ids[..last], e);
      before[ids[last] := HandedOff(before[ids[last]], e)]
  }

  datatype ExportOutcome =
    Created(state: State, reference: nat) | Existing(reference: nat) | ExportRefused(error: Error)

  function AfterExport(s: State, o: ExportOutcome): State {
    if o.Created? then o.state else s
  }

  function NewExport(s: State, ids: seq<nat>, currency: Currency): FinanceExport
    requires InRange(s.records, ids)
  {
    FinanceExport(Key(s.records, ids), ids, |ids|, Total(s.records, ids), currency)
  }

  /** Resolve a resubmitted request to the export that already handled it. */
  function Replay(s: State, request: Option<seq<nat>>): Option<nat> {
    if request.None? || request.value == [] then None
    else
      var named := NamedExported(s.records, request.value);
      if |named| != |Elements(request.value)| then None
      else FindKey(s.exports, Key(s.records, named), 0)
  }

  /** `unbilled` holds the items whose accounting coverage and invoice absence hold now. */
  function Export(s: State, mayAct: bool, request: Option<seq<nat>>, unbilled: set<nat>): ExportOutcome {
    if !mayAct then ExportRefused(Denied)
    else
      var ids := Selected(s.records, request);
      if ids == [] then
        match Replay(s, request)
        case Some(e) => Existing(e)
        case None => ExportRefused(NothingToExport)
      else
        match FindKey(s.exports, Key(s.records, ids), 0)
        case Some(e) => Existing(e)
        case None =>
          match Objection(s, ids, unbilled)
          case Some(error) => ExportRefused(error)
          case None =>
            Created(State(HandOffAll(s.records, ids, |s.exports|),
                          s.exports + [NewExport(s, ids, FirstCurrency(s.records, ids))]), |s.exports|)
  }

  // ---------------------------------------------------------------- accounting

  function ItemCurrency(r: Record): Currency {
    var reference := if r.item.ready.Some? then r.item.ready else r.item.candidate;
    if reference.Some? && reference.value < |r.snapshots| then r.snapshots[reference.value].currency else "USD"
  }

  function DeriveFor(r: Record, scope: Scope, books: Books): Derivation {
    Derive(r.item.stage, ItemCurrency(r), scope, books)
  }

  /** Recompute one item's accounting columns; append events only for real changes. */
  function Refreshed(r: Record, scope: Scope, books: Books): Record {
    var d := DeriveFor(r, scope, books);
    var stageChanged := r.item.stage != d.stage;
    var amountsChanged := r.item.invoiced != d.invoiced || r.item.collected != d.collected;
    var disputeChanged := d.dispute.Some? && !r.item.dispute.OpenDispute?;
    if !(stageChanged || amountsChanged || disputeChanged) then r
    else
      var item := r.item.(stage := d.stage, invoiced := d.invoiced, collected := d.collected);
      var disputed := if d.dispute.Some? then item.(dispute := OpenDispute, disputeReason := d.dispute) else item;
      var staged := if stageChanged
                    then [AccountingEvent(r.item.stage, d.stage,
                                               if d.invoices == [] then None else Some(d.invoices[0]))]
                    else [];
      var openings := if disputeChanged then [DisputeOpened(d.dispute.value)] else [];
      r.(item := disputed, events := r.events + staged + openings)
  }

  function Refresh(s: State, i: nat, scope: Scope, books: Books): Outcome {
    if i >= |s.records| then Refused(NotFound)
    else Committed(s.(records := s.records[i := Refreshed(s.records[i], scope, books)]))
  }

  function Settled(r: Record): Record {
    r.(item := r.item.(dispute := ResolvedDispute), events := r.events + [DisputeClosed])
  }

  function ResolveDispute(s: State, i: nat, mayAct: bool, noteGiven: bool, scope: Scope, books: Books): Outcome {
    if !mayAct then Refused(Denied)
    else if i >= |s.records| then Refused(NotFound)
    else if !s.records[i].item.dispute.OpenDispute? then Refused(WrongWorkflowState)
    else if !noteGiven then Refused(ReasonRequired)
    else Committed(s.(records := s.records[i := Refreshed(Settled(s.records[i]), scope, books)]))
  }
}
