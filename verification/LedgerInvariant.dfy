/** What every reachable ledger satisfies, and the proof that each operation keeps it. */
module LedgerInvariant {
  import opened Common
  import opened Accounting
  import opened ExportKey
  import opened Ledger

  // ---------------------------------------------------------------- one item

  predicate LegalEdge(was: WorkflowState, now: WorkflowState) {
    || (was.Candidate? && now.InvoiceReady?)
    || (was.InvoiceReady? && now.Candidate?)
    || (was.InvoiceReady? && now.Exported?)
  }

  /** Replay the workflow events from Candidate; None when they do not chain along legal edges. */
  function Walk(events: seq<StageEvent>): Option<WorkflowState> {
    if events == [] then Some(Candidate)
    else
      var before := Walk(events[..|events| - 1]);
      match events[|events| - 1]
      case WorkflowEvent(was, now) => if before == Some(was) && LegalEdge(was, now) then Some(now) else None
      case _ => before
  }

  function WorkflowCount(events: seq<StageEvent>): nat {
    if events == [] then 0
    else WorkflowCount(events[..|events| - 1]) + if events[|events| - 1].WorkflowEvent? then 1 else 0
  }

  predicate NumberedFromOne(snapshots: seq<Snapshot>) {
    forall k | 0 <= k < |snapshots| :: snapshots[k].version == k + 1 && AmountsAllowed(snapshots[k])
  }

  /** Exactly one approval of the kind is live; it names the snapshot and the version it was decided on. */
  ghost predicate OneLive(approvals: seq<Approval>, kind: ApprovalKind, snapshot: Option<nat>, subjectVersion: int) {
    exists k: nat :: Live(approvals, kind) == {k} && k < |approvals|
                  && approvals[k].snapshot == snapshot && approvals[k].subjectVersion == subjectVersion
  }

  /** Workflow steps taken since the live invoice-ready approval was decided. */
  function StepsSinceApproval(workflow: WorkflowState): nat {
    if workflow.Exported? then 2 else 1
  }

  predicate Approvable(workflow: WorkflowState) {
    workflow.InvoiceReady? || workflow.Exported?
  }

  ghost predicate SnapshotsInv(r: Record) {
    && NumberedFromOne(r.snapshots)
    && r.item.candidate.Some? && r.item.candidate.value < |r.snapshots|
    && (r.item.ready.Some? ==>
          && r.item.ready.value < |r.snapshots|
          && r.snapshots[r.item.ready.value].invoiceReadyValue.Some?
          && r.snapshots[r.item.ready.value].invoiceReadyValue == r.snapshots[r.item.ready.value].candidateValue)
  }

  ghost predicate ApprovalsInv(r: Record) {
    && (r.item.ready.None? ==> Live(r.approvals, InvoiceReadyApproval) == {})
    && (r.item.ready.Some? ==>
          OneLive(r.approvals, InvoiceReadyApproval, r.item.ready,
                  r.item.version - StepsSinceApproval(r.item.workflow)))
    && (!r.item.workflow.Exported? ==> Live(r.approvals, FinanceExportApproval) == {})
    && (r.item.workflow.Exported? ==> OneLive(r.approvals, FinanceExportApproval, None, r.item.version))
  }

  predicate HistoryInv(r: Record) {
    && Walk(r.events) == Some(r.item.workflow)
    && r.item.version == 1 + WorkflowCount(r.events)
  }

  /**
   An item is approved exactly when it has a current invoice-ready snapshot and exactly one live
   invoice-ready approval naming it; its version counts its workflow events, which replay to its state.
   */
  ghost predicate RecordInv(r: Record) {
    && SnapshotsInv(r)
    && ApprovalsInv(r)
    && HistoryInv(r)
    && !r.item.workflow.Void?
    && (r.item.ready.Some? <==> Approvable(r.item.workflow))
    && (r.item.exportReference.Some? <==> r.item.workflow.Exported?)
  }

  // ---------------------------------------------------------------- the whole ledger

  function ExportedValue(r: Record): Money {
    if r.item.workflow.Exported? then ReadyValue(r) else 0
  }

  /** Money of every exported item. */
  function ExportedMoney(records: seq<Record>): Money {
    Sum(ExportedValues(records))
  }

  function ExportedValues(records: seq<Record>): seq<Money> {
    seq(|records|, i requires 0 <= i < |records| => ExportedValue(records[i]))
  }

  /** Money of every export ever made. */
  function ExportTotals(exports: seq<FinanceExport>): Money {
    Sum(TotalValues(exports))
  }

  function TotalValues(exports: seq<FinanceExport>): seq<Money> {
    seq(|exports|, e requires 0 <= e < |exports| => exports[e].total)
  }

  predicate Distinct(records: seq<Record>) {
    && (forall i, j | 0 <= i < j < |records| :: records[i].caseId != records[j].caseId)
    && (forall i, j | 0 <= i < j < |records| :: records[i].workOrder != records[j].workOrder)
  }

  predicate ExportInv(records: seq<Record>, x: FinanceExport, e: nat) {
    && x.items != [] && InRange(records, x.items) && Increasing(x.items)
    && (forall k | 0 <= k < |x.items| ::
          records[x.items[k]].item.workflow.Exported? && records[x.items[k]].item.exportReference == Some(e))
    && x.key == Key(records, x.items)
    && x.total == Total(records, x.items)
    && x.rowCount == |x.items|
    && (forall k | 0 <= k < |x.items| :: ReadyCurrency(records[x.items[k]]) == Some(x.currency))
  }

  predicate ReferenceInv(s: State, i: nat)
    requires i < |s.records|
  {
    s.records[i].item.exportReference.Some? ==>
      && s.records[i].item.exportReference.value < |s.exports|
      && i in s.exports[s.records[i].item.exportReference.value].items
  }

  ghost predicate RecordsInv(records: seq<Record>) {
    forall i | 0 <= i < |records| :: RecordInv(records[i])
  }

  predicate ExportsInv(records: seq<Record>, exports: seq<FinanceExport>) {
    forall e | 0 <= e < |exports| :: ExportInv(records, exports[e], e)
  }

  predicate ReferencesInv(s: State) {
    forall i | 0 <= i < |s.records| :: ReferenceInv(s, i)
  }

  ghost predicate Inv(s: State) {
    && RecordsInv(s.records)
    && Distinct(s.records)
    && ExportsInv(s.records, s.exports)
    && ReferencesInv(s)
    && ExportTotals(s.exports) == ExportedMoney(s.records)
  }

  lemma EmptyInv()
    ensures Inv(EMPTY)
  {
  }

  // ---------------------------------------------------------------- frames

  predicate KeptAfterExport(r: Record, r': Record) {
    r.item.workflow.Exported? ==>
      && r'.item.workflow.Exported? && r'.item.exportReference == r.item.exportReference
      && r'.item.ready == r.item.ready && ReadyValue(r') == ReadyValue(r) && ReadyCurrency(r') == ReadyCurrency(r)
  }

  /** Everything an export remembers about an item. */
  predicate SameExportFacts(r: Record, r': Record) {
    && r'.caseId == r.caseId && r'.workOrder == r.workOrder
    && (r'.item.workflow.Exported? <==> r.item.workflow.Exported?)
    && r'.item.exportReference == r.item.exportReference
    && KeptAfterExport(r, r')
  }

  /** Exported items stay exported, under the same reference and the same approved snapshot. */
  predicate Continues(records: seq<Record>, records': seq<Record>) {
    && |records| <= |records'|
    && forall i | 0 <= i < |records| :: KeptAfterExport(records[i], records'[i])
  }

  lemma ExportFrame(records: seq<Record>, records': seq<Record>, x: FinanceExport, e: nat)
    requires ExportInv(records, x, e) && Continues(records, records')
    ensures ExportInv(records', x, e)
  {
    assert Parts(records', x.items) == Parts(records, x.items);
    assert ReadyValues(records', x.items) == ReadyValues(records, x.items);
  }

  lemma ExportsFrame(s: State, records': seq<Record>)
    requires ExportsInv(s.records, s.exports) && Continues(s.records, records')
    ensures ExportsInv(records', s.exports)
  {
    forall e | 0 <= e < |s.exports| ensures ExportInv(records', s.exports[e], e) {
      ExportFrame(s.records, records', s.exports[e], e);
    }
  }

  lemma ReferencesUpdate(s: State, i: nat, r': Record)
    requires ReferencesInv(s) && i < |s.records|
    requires r'.item.exportReference == s.records[i].item.exportReference
    ensures ReferencesInv(s.(records := s.records[i := r']))
  {
    var s' := s.(records := s.records[i := r']);
    forall j | 0 <= j < |s'.records| ensures ReferenceInv(s', j) {
      assert ReferenceInv(s, j);
    }
  }

  lemma MoneyUpdate(records: seq<Record>, i: nat, r': Record)
    requires i < |records| && SameExportFacts(records[i], r')
    ensures ExportedMoney(records[i := r']) == ExportedMoney(records)
  {
    assert ExportedValues(records[i := r']) == ExportedValues(records);
  }

  lemma DistinctUpdate(records: seq<Record>, i: nat, r': Record)
    requires Distinct(records) && i < |records| && SameExportFacts(records[i], r')
    ensures Distinct(records[i := r'])
  {
  }

  /** Replacing one record by a good one with the same export facts keeps the ledger good. */
  lemma InvUpdate(s: State, i: nat, r': Record)
    requires Inv(s) && i < |s.records|
    requires RecordInv(r') && SameExportFacts(s.records[i], r')
    ensures Inv(s.(records := s.records[i := r']))
  {
    var records' := s.records[i := r'];
    assert Continues(s.records, records');
    ExportsFrame(s, records');
    ReferencesUpdate(s, i, r');
    MoneyUpdate(s.records, i, r');
    DistinctUpdate(s.records, i, r');
  }

  lemma MoneyAppend(records: seq<Record>, r': Record)
    requires !r'.item.workflow.Exported?
    ensures ExportedMoney(records + [r']) == ExportedMoney(records)
  {
    assert ExportedValues(records + [r']) == ExportedValues(records) + [0];
    SumAppend(ExportedValues(records), 0);
  }

  lemma ReferencesAppend(s: State, r': Record)
    requires ReferencesInv(s) && r'.item.exportReference.None?
    ensures ReferencesInv(s.(records := s.records + [r']))
  {
    var s' := s.(records := s.records + [r']);
    forall j | 0 <= j < |s'.records| ensures ReferenceInv(s', j) {
      assert j < |s.records| ==> ReferenceInv(s, j);
    }
  }

  lemma RecordsAppend(records: seq<Record>, r': Record)
    requires RecordsInv(records) && Distinct(records) && RecordInv(r')
    requires forall i | 0 <= i < |records| :: records[i].caseId != r'.caseId && records[i].workOrder != r'.workOrder
    ensures RecordsInv(records + [r']) && Distinct(records + [r']) && Continues(records, records + [r'])
  {
    hide RecordInv, ReadyValue, ReadyCurrency;
  }

  lemma InvAppend(s: State, r': Record)
    requires Inv(s)
    requires RecordInv(r') && !r'.item.workflow.Exported?
    requires forall i | 0 <= i < |s.records| ::
               s.records[i].caseId != r'.caseId && s.records[i].workOrder != r'.workOrder
    ensures Inv(s.(records := s.records + [r']))
  {
    assert r'.item.exportReference.None?;
    hide RecordInv, RecordsInv, Distinct, Continues, ExportsInv, ReferencesInv, ExportedMoney, ExportTotals;
    RecordsAppend(s.records, r');
    ExportsFrame(s, s.records + [r']);
    ReferencesAppend(s, r');
    MoneyAppend(s.records, r');
  }

  // ---------------------------------------------------------------- histories

  lemma WalkAppend(events: seq<StageEvent>, e: StageEvent)
    ensures Walk(events + [e]) ==
      match e
      case WorkflowEvent(was, now) => if Walk(events) == Some(was) && LegalEdge(was, now) then Some(now) else None
      case _ => Walk(events)
    ensures WorkflowCount(events + [e]) == WorkflowCount(events) + if e.WorkflowEvent? then 1 else 0
  {
    assert (events + [e])[..|events|] == events;
  }

  /** Accounting and dispute events do not move the workflow. */
  lemma {:induction false} WalkQuiet(events: seq<StageEvent>, quiet: seq<StageEvent>)
    requires forall k | 0 <= k < |quiet| :: !quiet[k].WorkflowEvent?
    ensures Walk(events + quiet) == Walk(events) && WorkflowCount(events + quiet) == WorkflowCount(events)
  {
    if quiet == [] {
      assert events + quiet == events;
    } else {
      var last := |quiet| - 1;
      WalkQuiet(events, quiet[..last]);
      WalkAppend(events + quiet[..last], quiet[last]);
      assert events + quiet == events + quiet[..last] + [quiet[last]];
    }
  }

  lemma LiveAppend(approvals: seq<Approval>, a: Approval, kind: ApprovalKind)
    ensures Live(approvals + [a], kind)
            == Live(approvals, kind) + if a.kind == kind && !a.revoked then {|approvals|} else {}
  {
  }

  /** The greatest version of a gap-free numbering is the last one. */
  lemma LatestIsLast(snapshots: seq<Snapshot>)
    requires NumberedFromOne(snapshots) && snapshots != []
    ensures Latest(snapshots) == |snapshots| - 1
  {
    var k := Latest(snapshots);
    assert snapshots[|snapshots| - 1].version <= snapshots[k].version;
  }

  lemma TakenVersions(snapshots: seq<Snapshot>, version: nat)
    requires NumberedFromOne(snapshots)
    ensures VersionTaken(snapshots, version) <==> 1 <= version <= |snapshots|
  {
    if 1 <= version <= |snapshots| {
      assert snapshots[version - 1].version == version;
    }
  }

  // ---------------------------------------------------------------- operations

  lemma RecordCandidateKeeps(
    s: State, caseId: nat, workOrder: nat, currency: Currency, version: nat, f: FinancialInputs)
    requires Inv(s)
    ensures Inv(After(s, RecordCandidate(s, caseId, workOrder, currency, version, f)))
  {
    var o := RecordCandidate(s, caseId, workOrder, currency, version, f);
    match FindCase(s.records, caseId)
    case Some(i) =>
      var r := s.records[i];
      assert RecordInv(r);
      LatestIsLast(r.snapshots);
      if o.Committed? && o.state != s {
        InvUpdate(s, i, o.state.records[i]);
      }
    case None =>
      if o.Committed? {
        var appended := CandidateSnapshot(1, version, currency, f);
        NewRecordInv(caseId, workOrder, appended);
        InvAppend(s, NewRecord(caseId, workOrder, appended));
      }
  }

  lemma NewRecordInv(caseId: nat, workOrder: nat, s: Snapshot)
    requires s.version == 1 && AmountsAllowed(s)
    ensures RecordInv(NewRecord(caseId, workOrder, s)) && !NewRecord(caseId, workOrder, s).item.workflow.Exported?
  {
    var r := NewRecord(caseId, workOrder, s);
    assert Live(r.approvals, InvoiceReadyApproval) == {} == Live(r.approvals, FinanceExportApproval);
  }

  lemma ApprovedInv(r: Record)
    requires RecordInv(r) && r.item.workflow.Candidate? && BasisSupported(r)
    requires SnapshotInsertable(r.snapshots, ReadySnapshot(r.snapshots[r.item.candidate.value]))
    ensures RecordInv(Approved(r)) && SameExportFacts(r, Approved(r))
    ensures r.item.candidate.value == |r.snapshots| - 1
  {
    var c := r.item.candidate.value;
    TakenVersions(r.snapshots, c + 2);
    WalkAppend(r.events, WorkflowEvent(Candidate, InvoiceReady));
    var a := Approval(InvoiceReadyApproval, r.item.version, Some(|r.snapshots|), false);
    LiveAppend(r.approvals, a, InvoiceReadyApproval);
    LiveAppend(r.approvals, a, FinanceExportApproval);
    assert Live(Approved(r).approvals, InvoiceReadyApproval) == {|r.approvals|};
  }

  lemma ApproveKeeps(s: State, i: nat, mayAct: bool, expectedVersion: nat, facts: bool)
    requires Inv(s)
    ensures Inv(After(s, Approve(s, i, mayAct, expectedVersion, facts)))
  {
    var o := Approve(s, i, mayAct, expectedVersion, facts);
    if o.Committed? {
      ApprovedInv(s.records[i]);
      InvUpdate(s, i, Approved(s.records[i]));
    }
  }

  /** Withdrawing the one live approval leaves none and touches no other kind. */
  lemma WithdrawLeavesNone(approvals: seq<Approval>, snapshot: Option<nat>, subjectVersion: int)
    requires OneLive(approvals, InvoiceReadyApproval, snapshot, subjectVersion)
    ensures Live(WithdrawLive(approvals), InvoiceReadyApproval) == {}
    ensures Live(WithdrawLive(approvals), FinanceExportApproval) == Live(approvals, FinanceExportApproval)
  {
    var k: nat :| Live(approvals, InvoiceReadyApproval) == {k};
    assert k in Live(approvals, InvoiceReadyApproval);
    var found := FirstLive(approvals, InvoiceReadyApproval, 0);
    assert found.Some? && found.value == k;
    var after := approvals[k := approvals[k].(revoked := true)];
    assert WithdrawLive(approvals) == after;
    forall j: nat | j < |approvals|
      ensures j in Live(after, InvoiceReadyApproval) <==> j in Live(approvals, InvoiceReadyApproval) && j != k
      ensures j in Live(after, FinanceExportApproval) <==> j in Live(approvals, FinanceExportApproval)
    {
      assert j != k ==> after[j] == approvals[j];
    }
  }

  lemma RevokeKeeps(s: State, i: nat, mayAct: bool, expectedVersion: nat, reasonGiven: bool)
    requires Inv(s)
    ensures Inv(After(s, Revoke(s, i, mayAct, expectedVersion, reasonGiven)))
  {
    var o := Revoke(s, i, mayAct, expectedVersion, reasonGiven);
    if o.Committed? {
      var r := s.records[i];
      WithdrawLeavesNone(r.approvals, r.item.ready, r.item.version - 1);
      WalkAppend(r.events, WorkflowEvent(InvoiceReady, Candidate));
      InvUpdate(s, i, Revoked(r));
    }
  }

  /** A refresh touches the accounting columns only and appends no workflow event. */
  lemma RefreshedShape(r: Record, scope: Scope, books: Books)
    ensures var r' := Refreshed(r, scope, books);
            && r'.caseId == r.caseId && r'.workOrder == r.workOrder
            && r'.snapshots == r.snapshots && r'.approvals == r.approvals
            && r'.item.workflow == r.item.workflow && r'.item.version == r.item.version
            && r'.item.candidate == r.item.candidate && r'.item.ready == r.item.ready
            && r'.item.exportReference == r.item.exportReference
    ensures var events := Refreshed(r, scope, books).events;
            && |r.events| <= |events| && events[..|r.events|] == r.events
            && forall k | |r.events| <= k < |events| :: !events[k].WorkflowEvent?
  {
    hide DeriveFor;
  }

  lemma RefreshedInv(r: Record, scope: Scope, books: Books)
    requires RecordInv(r)
    ensures RecordInv(Refreshed(r, scope, books)) && SameExportFacts(r, Refreshed(r, scope, books))
  {
    RefreshedShape(r, scope, books);
    var events := Refreshed(r, scope, books).events;
    hide Refreshed;
    assert events == r.events + events[|r.events|..];
    WalkQuiet(r.events, events[|r.events|..]);
  }

  lemma RefreshKeeps(s: State, i: nat, scope: Scope, books: Books)
    requires Inv(s)
    ensures Inv(After(s, Refresh(s, i, scope, books)))
  {
    if i < |s.records| {
      RefreshedInv(s.records[i], scope, books);
      InvUpdate(s, i, Refreshed(s.records[i], scope, books));
    }
  }

  lemma ResolveDisputeKeeps(s: State, i: nat, mayAct: bool, noteGiven: bool, scope: Scope, books: Books)
    requires Inv(s)
    ensures Inv(After(s, ResolveDispute(s, i, mayAct, noteGiven, scope, books)))
  {
    if ResolveDispute(s, i, mayAct, noteGiven, scope, books).Committed? {
      var r := s.records[i];
      WalkAppend(r.events, DisputeClosed);
      assert RecordInv(Settled(r));
      RefreshedInv(Settled(r), scope, books);
      InvUpdate(s, i, Refreshed(Settled(r), scope, books));
    }
  }

  // ---------------------------------------------------------------- exports

  lemma {:induction false} HandOffPointwise(records: seq<Record>, ids: seq<nat>, e: nat)
    requires InRange(records, ids) && Increasing(ids)
    ensures forall i: nat | i < |records| ::
              HandOffAll(records, ids, e)[i] == if i in ids then HandedOff(records[i], e) else records[i]
  {
    if ids != [] {
      var last := |ids| - 1;
      HandOffPointwise(records, ids[..last], e);
      assert ids == ids[..last] + [ids[last]];
      assert ids[last] !in ids[..last];
    }
  }

  /** Conservation across one export: what leaves the approved pile is what the file totals. */
  lemma {:induction false} HandOffMoney(records: seq<Record>, ids: seq<nat>, e: nat)
    requires InRange(records, ids) && Increasing(ids)
    requires forall k | 0 <= k < |ids| :: records[ids[k]].item.workflow.InvoiceReady?
    ensures ExportedMoney(HandOffAll(records, ids, e)) == ExportedMoney(records) + Total(records, ids)
  {
    if ids != [] {
      var last := |ids| - 1;
      HandOffMoney(records, ids[..last], e);
      HandOffPointwise(records, ids[..last], e);
      assert ids[last] !in ids[..last];
      OneHandOffMoney(HandOffAll(records, ids[..last], e), ids[last], e);
      assert ReadyValues(records, ids) == ReadyValues(records, ids[..last]) + [ReadyValue(records[ids[last]])];
      SumAppend(ReadyValues(records, ids[..last]), ReadyValue(records[ids[last]]));
    }
  }

  lemma OneHandOffMoney(records: seq<Record>, i: nat, e: nat)
    requires i < |records| && !records[i].item.workflow.Exported?
    ensures ExportedMoney(records[i := HandedOff(records[i], e)]) == ExportedMoney(records) + ReadyValue(records[i])
  {
    var value := ReadyValue(records[i]);
    assert ExportedValues(records[i := HandedOff(records[i], e)]) == ExportedValues(records)[i := value];
    SumUpdate(ExportedValues(records), i, value);
  }

  lemma HandedOffInv(r: Record, e: nat)
    requires RecordInv(r) && r.item.workflow.InvoiceReady?
    ensures RecordInv(HandedOff(r, e)) && ReadyValue(HandedOff(r, e)) == ReadyValue(r)
  {
    HandedOffApprovals(r, e);
    HandedOffHistory(r, e);
    hide ApprovalsInv, HistoryInv, NumberedFromOne;
  }

  lemma HandedOffHistory(r: Record, e: nat)
    requires HistoryInv(r) && r.item.workflow.InvoiceReady?
    ensures HistoryInv(HandedOff(r, e))
  {
    WalkAppend(r.events, WorkflowEvent(InvoiceReady, Exported));
  }

  lemma HandedOffApprovals(r: Record, e: nat)
    requires ApprovalsInv(r) && r.item.workflow.InvoiceReady? && r.item.ready.Some?
    ensures ApprovalsInv(HandedOff(r, e))
  {
    var a := Approval(FinanceExportApproval, r.item.version + 1, None, false);
    LiveAppend(r.approvals, a, InvoiceReadyApproval);
    LiveAppend(r.approvals, a, FinanceExportApproval);
    var k: nat :| Live(r.approvals, InvoiceReadyApproval) == {k} && k < |r.approvals|
               && r.approvals[k].snapshot == r.item.ready && r.approvals[k].subjectVersion == r.item.version - 1;
    assert HandedOff(r, e).approvals[k] == r.approvals[k];
    assert Live(HandedOff(r, e).approvals, InvoiceReadyApproval) == {k};
    assert Live(HandedOff(r, e).approvals, FinanceExportApproval) == {|r.approvals|};
  }

  /** Handing off moves an item but not what it says about its approved money. */
  predicate MovedTo(r: Record, r': Record, e: nat) {
    && r'.item.workflow.Exported? && r'.item.exportReference == Some(e) && r'.item.ready == r.item.ready
    && ReadyValue(r') == ReadyValue(r) && ReadyCurrency(r') == ReadyCurrency(r)
  }

  lemma HandOffMembers(records: seq<Record>, ids: seq<nat>, e: nat)
    requires InRange(records, ids) && Increasing(ids)
    ensures forall k | 0 <= k < |ids| :: MovedTo(records[ids[k]], HandOffAll(records, ids, e)[ids[k]], e)
  {
    HandOffPointwise(records, ids, e);
    hide HandOffAll;
    forall k | 0 <= k < |ids| ensures MovedTo(records[ids[k]], HandOffAll(records, ids, e)[ids[k]], e) {
      assert ids[k] in ids;
      assert MovedTo(records[ids[k]], HandedOff(records[ids[k]], e), e);
    }
  }

  lemma MembersKeepKeyAndTotal(records: seq<Record>, records': seq<Record>, ids: seq<nat>, e: nat)
    requires InRange(records, ids) && InRange(records', ids)
    requires forall k | 0 <= k < |ids| :: MovedTo(records[ids[k]], records'[ids[k]], e)
    ensures Key(records', ids) == Key(records, ids) && Total(records', ids) == Total(records, ids)
  {
    hide ReadyValue, ReadyCurrency;
    assert Parts(records', ids) == Parts(records, ids);
    assert ReadyValues(records', ids) == ReadyValues(records, ids);
  }

  lemma NewExportInv(s: State, ids: seq<nat>, currency: Currency)
    requires InRange(s.records, ids) && Increasing(ids) && ids != []
    requires forall k | 0 <= k < |ids| :: ReadyCurrency(s.records[ids[k]]) == Some(currency)
    ensures ExportInv(HandOffAll(s.records, ids, |s.exports|), NewExport(s, ids, currency), |s.exports|)
  {
    hide HandOffAll, ReadyValue, ReadyCurrency, Key, Total;
    var e, records' := |s.exports|, HandOffAll(s.records, ids, |s.exports|);
    HandOffMembers(s.records, ids, e);
    MembersKeepKeyAndTotal(s.records, records', ids, e);
    forall k | 0 <= k < |ids|
      ensures records'[ids[k]].item.workflow.Exported? && records'[ids[k]].item.exportReference == Some(e)
      ensures ReadyCurrency(records'[ids[k]]) == Some(currency)
    {
      assert MovedTo(s.records[ids[k]], records'[ids[k]], e);
    }
    hide MovedTo;
  }

  lemma HandOffKeepsFacts(records: seq<Record>, ids: seq<nat>, e: nat, i: nat)
    requires InRange(records, ids) && Increasing(ids) && i < |records|
    requires forall k | 0 <= k < |ids| :: !records[ids[k]].item.workflow.Exported?
    ensures var r, r' := records[i], HandOffAll(records, ids, e)[i];
            KeptAfterExport(r, r') && r'.caseId == r.caseId && r'.workOrder == r.workOrder
  {
    hide HandOffAll, ReadyValue, ReadyCurrency;
    HandOffPointwise(records, ids, e);
    if i in ids {
      var k :| 0 <= k < |ids| && ids[k] == i;
      assert !records[ids[k]].item.workflow.Exported?;
    }
  }

  lemma HandOffRecords(s: State, ids: seq<nat>, currency: Currency)
    requires RecordsInv(s.records) && InRange(s.records, ids) && Increasing(ids) && ids != []
    requires forall k | 0 <= k < |ids| :: s.records[ids[k]].item.workflow.InvoiceReady?
    ensures RecordsInv(HandOffAll(s.records, ids, |s.exports|))
    ensures Continues(s.records, HandOffAll(s.records, ids, |s.exports|))
  {
    hide RecordInv, HandedOff, HandOffAll, KeptAfterExport;
    HandOffPointwise(s.records, ids, |s.exports|);
    forall i | 0 <= i < |s.records| ensures KeptAfterExport(s.records[i], HandOffAll(s.records, ids, |s.exports|)[i]) {
      HandOffKeepsFacts(s.records, ids, |s.exports|, i);
    }
    forall i | 0 <= i < |s.records| ensures RecordInv(HandOffAll(s.records, ids, |s.exports|)[i]) {
      if i in ids {
        HandedOffInv(s.records[i], |s.exports|);
      }
    }
  }

  lemma HandOffReferences(s: State, ids: seq<nat>, x: FinanceExport)
    requires ReferencesInv(s) && InRange(s.records, ids) && Increasing(ids) && x.items == ids
    ensures ReferencesInv(State(HandOffAll(s.records, ids, |s.exports|), s.exports + [x]))
  {
    HandOffPointwise(s.records, ids, |s.exports|);
    var s' := State(HandOffAll(s.records, ids, |s.exports|), s.exports + [x]);
    forall i | 0 <= i < |s'.records| ensures ReferenceInv(s', i) {
      assert ReferenceInv(s, i);
    }
  }

  lemma HandOffExports(s: State, ids: seq<nat>, currency: Currency)
    requires ExportsInv(s.records, s.exports)
    requires InRange(s.records, ids) && Increasing(ids) && ids != []
    requires Continues(s.records, HandOffAll(s.records, ids, |s.exports|))
    requires forall k | 0 <= k < |ids| :: ReadyCurrency(s.records[ids[k]]) == Some(currency)
    ensures ExportsInv(HandOffAll(s.records, ids, |s.exports|), s.exports + [NewExport(s, ids, currency)])
  {
    hide HandOffAll, NewExport, ExportInv, Continues, ReadyCurrency;
    var records', x := HandOffAll(s.records, ids, |s.exports|), NewExport(s, ids, currency);
    ExportsFrame(s, records');
    NewExportInv(s, ids, currency);
    forall e | 0 <= e <= |s.exports| ensures ExportInv(records', (s.exports + [x])[e], e) {
      if e < |s.exports| {
        assert (s.exports + [x])[e] == s.exports[e];
      }
    }
  }

  lemma HandOffDistinct(records: seq<Record>, ids: seq<nat>, e: nat)
    requires Distinct(records) && InRange(records, ids) && Increasing(ids)
    ensures Distinct(HandOffAll(records, ids, e))
  {
    HandOffPointwise(records, ids, e);
  }

  lemma TotalsAppend(exports: seq<FinanceExport>, x: FinanceExport)
    ensures ExportTotals(exports + [x]) == ExportTotals(exports) + x.total
  {
    assert TotalValues(exports + [x]) == TotalValues(exports) + [x.total];
    SumAppend(TotalValues(exports), x.total);
  }

  lemma HandOffConserves(s: State, ids: seq<nat>, x: FinanceExport)
    requires ExportTotals(s.exports) == ExportedMoney(s.records)
    requires InRange(s.records, ids) && Increasing(ids) && x.total == Total(s.records, ids)
    requires forall k | 0 <= k < |ids| :: s.records[ids[k]].item.workflow.InvoiceReady?
    ensures ExportTotals(s.exports + [x]) == ExportedMoney(HandOffAll(s.records, ids, |s.exports|))
  {
    HandOffMoney(s.records, ids, |s.exports|);
    TotalsAppend(s.exports, x);
  }

  lemma HandOffKeeps(s: State, ids: seq<nat>, currency: Currency)
    requires Inv(s) && InRange(s.records, ids) && Increasing(ids) && ids != []
    requires forall k | 0 <= k < |ids| :: s.records[ids[k]].item.workflow.InvoiceReady?
    requires forall k | 0 <= k < |ids| :: ReadyCurrency(s.records[ids[k]]) == Some(currency)
    ensures Inv(State(HandOffAll(s.records, ids, |s.exports|), s.exports + [NewExport(s, ids, currency)]))
  {
    HandOffRecords(s, ids, currency);
    HandOffReferences(s, ids, NewExport(s, ids, currency));
    HandOffExports(s, ids, currency);
    HandOffDistinct(s.records, ids, |s.exports|);
    HandOffConserves(s, ids, NewExport(s, ids, currency));
  }

  lemma {:induction false} FirstCurrencyIsOne(records: seq<Record>, ids: seq<nat>)
    requires InRange(records, ids)
    ensures if Currencies(records, ids) == {} then FirstCurrency(records, ids) == "USD"
            else FirstCurrency(records, ids) in Currencies(records, ids)
  {
    if ids != [] {
      var rest := ids[1..];
      FirstCurrencyIsOne(records, rest);
      assert ids == [ids[0]] + rest;
      assert Currencies(records, ids) == Currencies(records, [ids[0]]) + Currencies(records, rest) by {
        CurrenciesConcat(records, [ids[0]], rest);
      }
      if ReadyCurrency(records[ids[0]]).Some? {
        assert [ids[0]][0] == ids[0];
        assert ReadyCurrency(records[ids[0]]).value in Currencies(records, [ids[0]]);
      } else {
        assert Currencies(records, [ids[0]]) == {};
      }
    }
  }

  lemma CurrenciesConcat(records: seq<Record>, x: seq<nat>, y: seq<nat>)
    requires InRange(records, x) && InRange(records, y)
    ensures InRange(records, x + y)
    ensures Currencies(records, x + y) == Currencies(records, x) + Currencies(records, y)
  {
    var z := x + y;
    forall c | c in Currencies(records, x) ensures c in Currencies(records, z) {
      var k :| 0 <= k < |x| && ReadyCurrency(records[x[k]]) == Some(c);
      assert z[k] == x[k];
    }
    forall c | c in Currencies(records, y) ensures c in Currencies(records, z) {
      var k :| 0 <= k < |y| && ReadyCurrency(records[y[k]]) == Some(c);
      assert z[|x| + k] == y[k];
    }
  }

  lemma OneOf(c: Currency, d: Currency, s: set<Currency>)
    requires c in s && d in s && |s| <= 1
    ensures c == d
  {
    assert |s - {c}| == |s| - 1 <= 0;
    assert d !in s - {c};
  }

  /** A file in at most one currency is in the currency it is labelled with. */
  lemma OneCurrency(records: seq<Record>, ids: seq<nat>)
    requires InRange(records, ids) && |Currencies(records, ids)| <= 1
    requires forall k | 0 <= k < |ids| :: ReadyCurrency(records[ids[k]]).Some?
    ensures forall k | 0 <= k < |ids| :: ReadyCurrency(records[ids[k]]) == Some(FirstCurrency(records, ids))
  {
    FirstCurrencyIsOne(records, ids);
    forall k | 0 <= k < |ids| ensures ReadyCurrency(records[ids[k]]) == Some(FirstCurrency(records, ids)) {
      var c := ReadyCurrency(records[ids[k]]).value;
      assert c in Currencies(records, ids);
      OneOf(c, FirstCurrency(records, ids), Currencies(records, ids));
    }
  }

  lemma CreatedMeansChecked(s: State, mayAct: bool, request: Option<seq<nat>>, unbilled: set<nat>)
    requires Export(s, mayAct, request, unbilled).Created?
    ensures var ids := Selected(s.records, request);
            && ids != [] && |Currencies(s.records, ids)| <= 1
            && Export(s, mayAct, request, unbilled)
               == Created(State(HandOffAll(s.records, ids, |s.exports|),
                                s.exports + [NewExport(s, ids, FirstCurrency(s.records, ids))]), |s.exports|)
  {
    hide Selected, HandOffAll, NewExport, Currencies, FirstCurrency, Total, Live, StillExportable, Key;
  }

  lemma ExportKeeps(s: State, mayAct: bool, request: Option<seq<nat>>, unbilled: set<nat>)
    requires Inv(s)
    ensures Inv(AfterExport(s, Export(s, mayAct, request, unbilled)))
  {
    if Export(s, mayAct, request, unbilled).Created? {
      CreatedMeansChecked(s, mayAct, request, unbilled);
      var ids := Selected(s.records, request);
      hide Export, Selected, Currencies, FirstCurrency, HandOffAll, NewExport;
      forall k | 0 <= k < |ids| ensures ReadyCurrency(s.records[ids[k]]).Some? {
        assert Exportable(s.records[ids[k]].item) && RecordInv(s.records[ids[k]]);
      }
      hide Inv, ReadyCurrency;
      OneCurrency(s.records, ids);
      HandOffKeeps(s, ids, FirstCurrency(s.records, ids));
    }
  }
}
