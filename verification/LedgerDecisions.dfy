/**
 When each recovery operation is carried out, what it answers otherwise, and exactly what it writes; and that one
 version of an item is decided on at most once.
 */
module LedgerDecisions {
  import opened Common
  import opened Accounting
  import ExportKey
  import opened Ledger
  import opened LedgerInvariant
  import opened LedgerRuns

  /** The same ledger with one record replaced. */
  predicate OnlyRecord(s: State, s': State, i: nat) {
    && i < |s.records| == |s'.records| && s'.exports == s.exports
    && forall j | 0 <= j < |s.records| && j != i :: s'.records[j] == s.records[j]
  }

  // ---------------------------------------------------------------- candidates

  /** Amounts a candidate may carry: none below zero, and none at all on a manual basis. */
  predicate Payable(f: FinancialInputs) {
    f.candidateValue.Some? ==> f.candidateValue.value >= 0 && !f.basis.ManualAmountRequired?
  }

  /** The snapshot repeats the inputs; the currency is not among them. */
  predicate Repeats(s: Snapshot, calculationVersion: nat, f: FinancialInputs) {
    && s.calculationVersion == calculationVersion
    && FinancialInputs(s.basis, s.candidateValue, s.assumptions) == f
  }

  lemma NextVersionIsFree(s: State, i: nat)
    requires Inv(s) && i < |s.records|
    ensures var r := s.records[i];
            var n := |r.snapshots|;
            && FindCase(s.records, r.caseId) == Some(i)
            && n > 0 && Latest(r.snapshots) == n - 1 && r.snapshots[n - 1].version == n
            && !VersionTaken(r.snapshots, n + 1)
  {
    var r := s.records[i];
    assert RecordInv(r);
    LatestIsLast(r.snapshots);
    TakenVersions(r.snapshots, |r.snapshots| + 1);
    hide Inv, RecordInv, Latest;
  }

  /**
   Recording for a case that has an item: inputs that the latest snapshot repeats change nothing; other inputs are
   refused exactly when their amount is not allowed, and otherwise become the next snapshot and the item's candidate.
   */
  lemma CandidateAppendedIff(
    s: State, i: nat, workOrder: nat, currency: Currency, calculationVersion: nat, f: FinancialInputs)
    requires Inv(s) && i < |s.records|
    ensures s.records[i].snapshots != []
    ensures var r := s.records[i];
            var n := |r.snapshots|;
            var o := RecordCandidate(s, r.caseId, workOrder, currency, calculationVersion, f);
            if Repeats(r.snapshots[n - 1], calculationVersion, f) then o == Committed(s)
            else if !Payable(f) then o == Refused(IntegrityError)
            else
              && o.Committed? && OnlyRecord(s, o.state, i)
              && o.state.records[i] == r.(
                   snapshots := r.snapshots
                     + [Snapshot(n + 1, calculationVersion, currency, f.candidateValue, None, f.basis, f.assumptions)],
                   item := r.item.(candidate := Some(n)))
  {
    hide Inv, RecordInv, Latest, FindCase, VersionTaken;
    NextVersionIsFree(s, i);
  }

  /**
   The currency is not compared. After a committed recording the latest snapshot is in the currency that was asked for
   exactly when it already was or the other inputs differ: a contract that only changes its currency keeps the old one.
   */
  lemma LatestInAskedCurrencyIff(
    s: State, i: nat, workOrder: nat, currency: Currency, calculationVersion: nat, f: FinancialInputs)
    requires Inv(s) && i < |s.records|
    requires RecordCandidate(s, s.records[i].caseId, workOrder, currency, calculationVersion, f).Committed?
    ensures var before := s.records[i].snapshots;
            var o := RecordCandidate(s, s.records[i].caseId, workOrder, currency, calculationVersion, f);
            && i < |o.state.records| && before != [] && o.state.records[i].snapshots != []
            && var after := o.state.records[i].snapshots;
               after[|after| - 1].currency == currency
               <==> before[|before| - 1].currency == currency || !Repeats(before[|before| - 1], calculationVersion, f)
  {
    CandidateAppendedIff(s, i, workOrder, currency, calculationVersion, f);
    hide Inv, RecordCandidate;
  }

  /** An item recorded in dollars and recorded again, alike, in euros: the ledger stays as it was, in dollars. */
  lemma CurrencyChangeIsIgnored()
    ensures var s := Step(EMPTY, EXAMPLE_CANDIDATE);
            && |s.records| == 1 && s.records[0].snapshots[0].currency == "USD"
            && Step(s, EXAMPLE_CANDIDATE.(currency := "EUR")) == s
  {
    EmptyInv();
    StepKeeps(EMPTY, EXAMPLE_CANDIDATE);
    var s := Step(EMPTY, EXAMPLE_CANDIDATE);
    assert s.records == [NewRecord(0, 0, CandidateSnapshot(1, 1, "USD", EXAMPLE_INPUTS))];
    CandidateAppendedIff(s, 0, 0, "EUR", 1, EXAMPLE_INPUTS);
    hide Inv;
  }

  /** Recording for a case without an item: one is opened unless its work order has one or the amount is not allowed. */
  lemma FirstCandidateIff(
    s: State, caseId: nat, workOrder: nat, currency: Currency, calculationVersion: nat, f: FinancialInputs)
    requires Inv(s) && forall j | 0 <= j < |s.records| :: s.records[j].caseId != caseId
    ensures var o := RecordCandidate(s, caseId, workOrder, currency, calculationVersion, f);
            var first := Snapshot(1, calculationVersion, currency, f.candidateValue, None, f.basis, f.assumptions);
            && (o.Committed? <==> Payable(f) && forall j | 0 <= j < |s.records| :: s.records[j].workOrder != workOrder)
            && (o.Refused? ==> o.error == IntegrityError)
            && (o.Committed? ==>
                  && o.state.exports == s.exports && |o.state.records| == |s.records| + 1
                  && o.state.records[..|s.records|] == s.records
                  && o.state.records[|s.records|]
                     == Record(caseId, workOrder,
                               Item(Candidate, NoInvoice, NoDispute, None, Some(0), None, None, None, None, 1),
                               [first], [], []))
  {
    hide Inv, FindCase;
    NothingIsVoid(s);
  }

  lemma NothingIsVoid(s: State)
    requires Inv(s)
    ensures forall j | 0 <= j < |s.records| :: !s.records[j].item.workflow.Void?
  {
    forall j | 0 <= j < |s.records| ensures !s.records[j].item.workflow.Void? {
      assert RecordInv(s.records[j]);
    }
  }

  // ---------------------------------------------------------------- approval and revocation

  predicate May(s: State, i: nat, mayAct: bool) {
    i < |s.records| && mayAct
  }

  predicate Expected(s: State, i: nat, mayAct: bool, version: nat) {
    May(s, i, mayAct) && s.records[i].item.version == version
  }

  /** Each refusal of an approval has its own circumstances. */
  lemma ApprovalRefusals(s: State, i: nat, mayAct: bool, expectedVersion: nat, facts: bool)
    requires Inv(s)
    ensures var o := Approve(s, i, mayAct, expectedVersion, facts);
            && (o == Refused(NotFound) <==> i >= |s.records|)
            && (o == Refused(Denied) <==> i < |s.records| && !mayAct)
            && (o == Refused(StaleSubject) <==> May(s, i, mayAct) && s.records[i].item.version != expectedVersion)
            && (o == Refused(WrongWorkflowState) <==>
                  Expected(s, i, mayAct, expectedVersion) && !s.records[i].item.workflow.Candidate?)
            && (o == Refused(DisputeBlocks) <==>
                  && Expected(s, i, mayAct, expectedVersion) && s.records[i].item.workflow.Candidate?
                  && s.records[i].item.dispute.OpenDispute?)
            && (o == Refused(EvidenceIncomplete) <==>
                  && Expected(s, i, mayAct, expectedVersion) && s.records[i].item.workflow.Candidate?
                  && !s.records[i].item.dispute.OpenDispute?
                  && (!facts || s.records[i].snapshots[s.records[i].item.candidate.value].candidateValue.None?))
  {
    if i < |s.records| {
      assert RecordInv(s.records[i]);
      if s.records[i].item.workflow.Candidate? {
        OpenItemIsNoDuplicate(s, i);
      }
    }
    hide Inv, NoDuplicate, Live, SnapshotInsertable;
  }

  /**
   What an approval writes: the candidate's terms, unchanged, become the next snapshot, with the candidate's value as
   the value to invoice and the version it was approved from; the item is ready under that snapshot and the next
   version.
   */
  lemma ApprovalCopiesTerms(s: State, i: nat, mayAct: bool, expectedVersion: nat, facts: bool)
    requires Inv(s) && Approve(s, i, mayAct, expectedVersion, facts).Committed?
    ensures i < |s.records| && s.records[i].item.candidate.Some?
    ensures s.records[i].item.candidate.value < |s.records[i].snapshots|
    ensures var s' := Approve(s, i, mayAct, expectedVersion, facts).state;
            var r, r' := s.records[i], s'.records[i];
            var c := r.snapshots[r.item.candidate.value];
            && OnlyRecord(s, s', i)
            && c.candidateValue.Some? && c.candidateValue.value >= 0
            && r'.snapshots == r.snapshots
                 + [Snapshot(c.version + 1, c.calculationVersion, c.currency, c.candidateValue, c.candidateValue,
                             c.basis, c.assumptions["approved_from_snapshot" := Number(c.version)])]
            && r'.item == r.item.(workflow := InvoiceReady, ready := Some(|r.snapshots|),
                                  version := expectedVersion + 1)
  {
    assert RecordInv(s.records[i]);
    hide Inv, NoDuplicate, Live;
  }

  /**
   A revocation commits exactly when the item exists, the actor may act, the version is the expected one, the item is
   invoice-ready and a reason was given; an invoice-ready item is in no export. Each refusal has its own circumstances.
   */
  lemma RevokeCommitsIff(s: State, i: nat, mayAct: bool, expectedVersion: nat, reasonGiven: bool)
    requires Inv(s)
    ensures var o := Revoke(s, i, mayAct, expectedVersion, reasonGiven);
            && (o.Committed? <==>
                  && Expected(s, i, mayAct, expectedVersion) && s.records[i].item.workflow.InvoiceReady?
                  && !InSomeExport(s, i) && reasonGiven)
            && (o == Refused(NotFound) <==> i >= |s.records|)
            && (o == Refused(Denied) <==> i < |s.records| && !mayAct)
            && (o == Refused(StaleSubject) <==> May(s, i, mayAct) && s.records[i].item.version != expectedVersion)
            && (o == Refused(AlreadyExportedError) <==>
                  Expected(s, i, mayAct, expectedVersion) && s.records[i].item.workflow.Exported?)
            && (o == Refused(WrongWorkflowState) <==>
                  Expected(s, i, mayAct, expectedVersion) && s.records[i].item.workflow.Candidate?)
            && (o == Refused(ReasonRequired) <==>
                  && Expected(s, i, mayAct, expectedVersion) && s.records[i].item.workflow.InvoiceReady?
                  && !reasonGiven)
  {
    if i < |s.records| {
      InExportIff(s, i);
      assert RecordInv(s.records[i]);
    }
    hide Inv, InSomeExport;
  }

  /** Being listed by an export and being exported are the same thing. */
  lemma InExportIff(s: State, i: nat)
    requires Inv(s) && i < |s.records|
    ensures InSomeExport(s, i) <==> s.records[i].item.workflow.Exported?
    ensures NoDuplicate(s, i) <==> !s.records[i].item.workflow.Exported?
  {
    assert RecordInv(s.records[i]) && ReferenceInv(s, i);
    NoCompetingItem(s, i);
    if InSomeExport(s, i) {
      var e :| 0 <= e < |s.exports| && i in s.exports[e].items;
      MembershipIsReference(s, i, e);
    }
    hide Inv, RecordInv;
  }

  /** An item can be approved on its value exactly when its candidate has one. */
  lemma SupportedIff(s: State, i: nat)
    requires Inv(s) && i < |s.records|
    ensures var r := s.records[i];
            && r.item.candidate.Some? && r.item.candidate.value < |r.snapshots|
            && (BasisSupported(r) <==> r.snapshots[r.item.candidate.value].candidateValue.Some?)
  {
    assert RecordInv(s.records[i]);
    hide Inv;
  }

  /** What a revocation writes: the item is a candidate again, under the next version, with nothing to invoice. */
  lemma RevocationReturnsItem(s: State, i: nat, mayAct: bool, expectedVersion: nat, reasonGiven: bool)
    requires Inv(s) && Revoke(s, i, mayAct, expectedVersion, reasonGiven).Committed?
    ensures i < |s.records|
    ensures var s' := Revoke(s, i, mayAct, expectedVersion, reasonGiven).state;
            var r, r' := s.records[i], s'.records[i];
            && OnlyRecord(s, s', i)
            && r'.snapshots == r.snapshots && Live(r'.approvals, InvoiceReadyApproval) == {}
            && r'.item == r.item.(workflow := Candidate, ready := None, version := expectedVersion + 1)
  {
    var r := s.records[i];
    assert RecordInv(r);
    WithdrawLeavesNone(r.approvals, r.item.ready, r.item.version - 1);
    hide Inv, WithdrawLive, Live;
  }

  // ---------------------------------------------------------------- one decision per version

  /** The action is an approval or a revocation of the item that expects the version and is carried out. */
  predicate Decides(s: State, a: Action, i: nat, version: nat) {
    match a
    case ApprovalAsked(item, mayAct, expected, facts) =>
      item == i && expected == version && Approve(s, item, mayAct, expected, facts).Committed?
    case RevocationAsked(item, mayAct, expected, given) =>
      item == i && expected == version && Revoke(s, item, mayAct, expected, given).Committed?
    case _ => false
  }

  function DecisionsOn(s: State, actions: seq<Action>, i: nat, version: nat): nat
    decreases |actions|
  {
    if actions == [] then 0
    else
      (if Decides(s, actions[0], i, version) then 1 else 0)
      + DecisionsOn(Step(s, actions[0]), actions[1..], i, version)
  }

  predicate Past(s: State, i: nat, version: nat) {
    i < |s.records| && s.records[i].item.version > version
  }

  lemma VersionStep(s: State, a: Action, i: nat, version: nat)
    ensures Past(s, i, version) ==> Past(Step(s, a), i, version) && !Decides(s, a, i, version)
    ensures Decides(s, a, i, version) ==> Past(Step(s, a), i, version)
  {
    if i < |s.records| {
      if a.ExportAsked? {
        ExportVersions(s, a, i);
      } else if a.CandidateRecorded? {
        CandidateVersions(s, a, i);
      } else if a.BooksRefreshed? || a.DisputeSettled? {
        BooksVersions(s, a, i);
      } else {
        DecisionVersions(s, a, i, version);
      }
    }
    DecidesOnItem(s, a, i, version);
    hide Step, Decides;
  }

  lemma DecidesOnItem(s: State, a: Action, i: nat, version: nat)
    ensures Decides(s, a, i, version) ==>
              i < |s.records| && s.records[i].item.version == version && (a.ApprovalAsked? || a.RevocationAsked?)
  {
    hide NoDuplicate, Live, SnapshotInsertable, BasisSupported, InSomeExport;
  }

  lemma DecisionVersions(s: State, a: Action, i: nat, version: nat)
    requires (a.ApprovalAsked? || a.RevocationAsked?) && i < |s.records|
    ensures i < |Step(s, a).records| && Step(s, a).records[i].item.version >= s.records[i].item.version
    ensures Decides(s, a, i, version) ==> Step(s, a).records[i].item.version == version + 1
  {
    hide NoDuplicate, Live, SnapshotInsertable, InSomeExport, ReadySnapshot, WithdrawLive;
  }

  lemma ExportVersions(s: State, a: Action, i: nat)
    requires a.ExportAsked? && i < |s.records|
    ensures i < |Step(s, a).records| && Step(s, a).records[i].item.version >= s.records[i].item.version
  {
    hide HandOffAll, Objection, NewExport, Key;
    if Export(s, a.mayAct, a.request, a.unbilled).Created? {
      HandOffPointwise(s.records, Selected(s.records, a.request), |s.exports|);
    }
  }

  lemma CandidateVersions(s: State, a: Action, i: nat)
    requires a.CandidateRecorded? && i < |s.records|
    ensures i < |Step(s, a).records| && Step(s, a).records[i].item.version == s.records[i].item.version
  {
    hide Latest, SnapshotInsertable, SameInputs;
  }

  lemma BooksVersions(s: State, a: Action, i: nat)
    requires (a.BooksRefreshed? || a.DisputeSettled?) && i < |s.records|
    ensures i < |Step(s, a).records| && Step(s, a).records[i].item.version == s.records[i].item.version
  {
    hide DeriveFor;
  }

  /** Of all approvals and revocations of an item that expect the same version, at most one is ever carried out. */
  lemma {:induction false} OneDecisionPerVersion(s: State, actions: seq<Action>, i: nat, version: nat)
    ensures DecisionsOn(s, actions, i, version) <= 1
    ensures Past(s, i, version) ==> DecisionsOn(s, actions, i, version) == 0
    decreases |actions|
  {
    if actions != [] {
      VersionStep(s, actions[0], i, version);
      hide Step, Decides, Past;
      OneDecisionPerVersion(Step(s, actions[0]), actions[1..], i, version);
    }
  }

  // ---------------------------------------------------------------- export

  /** An approved item that nothing contests and that the request does not leave out. */
  predicate Ripe(s: State, request: Option<seq<nat>>, i: nat) {
    && i < |s.records| && s.records[i].item.workflow.InvoiceReady? && !s.records[i].item.dispute.OpenDispute?
    && (request.Some? ==> i in request.value)
  }

  /**
   What a created export is: the ripe items, all of them and no others, each once and in order, with their number
   and the sum of their approved values, filed after the earlier exports; its members leave as exported under its
   reference and the next version, and every other item stays as it was.
   */
  lemma CreatedExportTakesRipeItems(s: State, mayAct: bool, request: Option<seq<nat>>, unbilled: set<nat>)
    requires Inv(s) && Export(s, mayAct, request, unbilled).Created?
    ensures var o := Export(s, mayAct, request, unbilled);
            && mayAct && o.reference == |s.exports|
            && |o.state.exports| == |s.exports| + 1 && o.state.exports[..|s.exports|] == s.exports
            && |o.state.records| == |s.records|
    ensures var o := Export(s, mayAct, request, unbilled);
            var x := o.state.exports[o.reference];
            && Increasing(x.items) && x.rowCount == |x.items|
            && InRange(s.records, x.items) && x.total == Sum(ReadyValues(s.records, x.items))
            && (forall i: nat | i < |s.records| :: i in x.items <==> Ripe(s, request, i))
            && (forall i: nat | i < |s.records| && i !in x.items :: o.state.records[i] == s.records[i])
            && (forall i: nat | i < |s.records| && i in x.items ::
                  && o.state.records[i].snapshots == s.records[i].snapshots
                  && o.state.records[i].item == s.records[i].item.(
                       workflow := Exported, exportReference := Some(|s.exports|),
                       version := s.records[i].item.version + 1))
  {
    hide Inv, HandOffAll, Objection, Key, Currencies, FirstCurrency, ReadyValues, Selected, Exportable;
    var ids := Selected(s.records, request);
    HandOffPointwise(s.records, ids, |s.exports|);
    RipeSelected(s, request);
    assert Export(s, mayAct, request, unbilled).state.exports[|s.exports|].items == ids;
  }

  lemma RipeSelected(s: State, request: Option<seq<nat>>)
    ensures forall i: nat | i < |s.records| :: i in Selected(s.records, request) <==> Ripe(s, request, i)
  {
  }

  /** The key of every export names exactly its members, each with the snapshot it was approved under. */
  lemma KeyNamesSnapshots(s: State, e: nat)
    requires Inv(s) && e < |s.exports|
    ensures var x := s.exports[e];
            && InRange(s.records, x.items) && |x.key| == x.rowCount && ExportKey.Ascending(x.key)
            && (forall i <- x.items :: s.records[i].item.ready.Some?)
            && forall part: ExportKey.Part ::
                 part in x.key <==> part.item in x.items && part.snapshot == s.records[part.item].item.ready
  {
    var x := s.exports[e];
    assert ExportInv(s.records, x, e);
    MembersHaveSnapshots(s, e);
    hide Inv, Key;
    KeyListsParts(s.records, x.items);
  }

  lemma MembersHaveSnapshots(s: State, e: nat)
    requires Inv(s) && e < |s.exports|
    ensures InRange(s.records, s.exports[e].items)
    ensures forall i <- s.exports[e].items :: s.records[i].item.ready.Some?
  {
    assert ExportInv(s.records, s.exports[e], e);
    forall i <- s.exports[e].items ensures s.records[i].item.ready.Some? {
      assert RecordInv(s.records[i]);
    }
  }

  lemma KeyListsParts(records: seq<Record>, ids: seq<nat>)
    requires InRange(records, ids)
    ensures |Key(records, ids)| == |ids| && ExportKey.Ascending(Key(records, ids))
    ensures forall part: ExportKey.Part ::
              part in Key(records, ids) <==> part.item in ids && part.snapshot == records[part.item].item.ready
  {
    var parts := Parts(records, ids);
    ExportKey.SortSorts(parts);
    hide ExportKey.Sort, ExportKey.Ascending;
    assert |Key(records, ids)| == |multiset(Key(records, ids))| == |multiset(parts)| == |parts|;
    forall part: ExportKey.Part
      ensures part in Key(records, ids) <==> part.item in ids && part.snapshot == records[part.item].item.ready
    {
      assert part in Key(records, ids) <==> part in multiset(Key(records, ids));
      assert part in parts <==> part in multiset(parts);
      if part.item in ids {
        var k :| 0 <= k < |ids| && ids[k] == part.item;
        assert parts[k].item == part.item;
      }
    }
  }

  /** Each refusal of an export has its own circumstances. */
  lemma ExportRefusals(s: State, mayAct: bool, request: Option<seq<nat>>, unbilled: set<nat>)
    requires Inv(s)
    ensures var o, ids := Export(s, mayAct, request, unbilled), Selected(s.records, request);
            && (o == ExportRefused(Denied) <==> !mayAct)
            && (o == ExportRefused(NoLongerExportable) <==>
                  && mayAct
                  && exists k | 0 <= k < |ids| :: ids[k] !in unbilled || !s.records[ids[k]].item.stage.NoInvoice?)
            && (o == ExportRefused(MixedCurrencies) <==>
                  && mayAct && |Currencies(s.records, ids)| > 1
                  && forall k | 0 <= k < |ids| :: ids[k] in unbilled && s.records[ids[k]].item.stage.NoInvoice?)
            && (o.ExportRefused? ==>
                  o.error == Denied || o.error == NothingToExport || o.error == NoLongerExportable
                  || o.error == MixedCurrencies)
            && (o == ExportRefused(NothingToExport) <==>
                  && mayAct && ids == []
                  && (request.None?
                      || forall e | 0 <= e < |s.exports| :: !NamesExactly(request.value, s.exports[e].items)))
  {
    var ids := Selected(s.records, request);
    if mayAct && ids == [] {
      EmptySelectionIff(s, request, unbilled);
    } else if mayAct {
      ReadyItemsHaveNoExport(s, request);
      ObjectionsIff(s, request, unbilled);
    }
    hide Inv, Objection, HandOffAll, NewExport, Replay, Selected, Currencies, NamesExactly;
  }

  lemma EmptySelectionIff(s: State, request: Option<seq<nat>>, unbilled: set<nat>)
    requires Inv(s) && Selected(s.records, request) == []
    ensures Export(s, true, request, unbilled) == ExportRefused(NothingToExport)
       <==> request.None? || forall e | 0 <= e < |s.exports| :: !NamesExactly(request.value, s.exports[e].items)
    ensures var o := Export(s, true, request, unbilled); o.Existing? || o == ExportRefused(NothingToExport)
  {
    if request.Some? {
      var o := Export(s, true, request, unbilled);
      if e :| 0 <= e < |s.exports| && NamesExactly(request.value, s.exports[e].items) {
        NamedExportIsReturned(s, e, request.value, unbilled);
      } else if o.Existing? {
        ReturnedExportWasNamed(s, o.reference, request.value, unbilled);
      }
    }
    hide Inv, Selected, Replay, NamesExactly;
  }

  lemma ObjectionsIff(s: State, request: Option<seq<nat>>, unbilled: set<nat>)
    requires Inv(s)
    ensures var ids := Selected(s.records, request);
            var objection := Objection(s, ids, unbilled);
            && (objection == Some(NoLongerExportable) <==>
                  exists k | 0 <= k < |ids| :: ids[k] !in unbilled || !s.records[ids[k]].item.stage.NoInvoice?)
            && (objection == Some(MixedCurrencies) <==>
                  && |Currencies(s.records, ids)| > 1
                  && forall k | 0 <= k < |ids| :: ids[k] in unbilled && s.records[ids[k]].item.stage.NoInvoice?)
            && (objection.Some? ==> objection.value == NoLongerExportable || objection.value == MixedCurrencies)
  {
    hide Inv, NoDuplicate, Live, Selected, Currencies, ReadyValue;
    var ids := Selected(s.records, request);
    forall k | 0 <= k < |ids|
      ensures NoDuplicate(s, ids[k]) && Exportable(s.records[ids[k]].item)
      ensures Live(s.records[ids[k]].approvals, FinanceExportApproval) == {}
      ensures ReadyValues(s.records, ids)[k] >= 0
    {
      SelectedIsSound(s, request, ids[k]);
    }
    SumNonNegative(ReadyValues(s.records, ids));
  }

  // ---------------------------------------------------------------- disputes

  /** A refresh needs nothing but the item, and touches no other. */
  lemma RefreshCommitsIff(s: State, i: nat, scope: Scope, books: Books)
    ensures var o := Refresh(s, i, scope, books);
            && (o.Committed? <==> i < |s.records|)
            && (i >= |s.records| ==> o == Refused(NotFound))
            && (o.Committed? ==> OnlyRecord(s, o.state, i))
  {
    hide Refreshed;
  }

  /**
   Settling a dispute commits exactly when the actor may act, the item exists with an open dispute and a note was
   given. It recomputes the item at once: the dispute is open again exactly when the rows still give one.
   */
  lemma SettlementCommitsIff(s: State, i: nat, mayAct: bool, noteGiven: bool, scope: Scope, books: Books)
    ensures var o := ResolveDispute(s, i, mayAct, noteGiven, scope, books);
            && (o.Committed? <==> May(s, i, mayAct) && s.records[i].item.dispute.OpenDispute? && noteGiven)
            && (o == Refused(Denied) <==> !mayAct)
            && (o == Refused(NotFound) <==> mayAct && i >= |s.records|)
            && (o == Refused(WrongWorkflowState) <==> May(s, i, mayAct) && !s.records[i].item.dispute.OpenDispute?)
            && (o == Refused(ReasonRequired) <==>
                  May(s, i, mayAct) && s.records[i].item.dispute.OpenDispute? && !noteGiven)
            && (o.Committed? ==>
                  && OnlyRecord(s, o.state, i)
                  && var d, item := DeriveFor(s.records[i], scope, books), o.state.records[i].item;
                     && item.stage == d.stage && item.invoiced == d.invoiced && item.collected == d.collected
                     && item.dispute == if d.dispute.Some? then OpenDispute else ResolvedDispute)
  {
    hide Derive;
  }
}
