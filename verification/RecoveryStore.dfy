/** The recovery services as they run: each updates the stored rows in place or leaves them alone. */
module RecoveryStore {
  import opened Common
  import opened Accounting
  import opened Ledger
  import opened LedgerInvariant

  function RefusalOf(o: Outcome): Option<Error> {
    if o.Refused? then Some(o.error) else None
  }

  /** The rows after refreshing the first n items one after the other. */
  function RefreshedUpTo(was: seq<Record>, scopes: seq<Scope>, books: Books, n: nat): (now: seq<Record>)
    requires n <= |was| == |scopes|
    ensures |now| == |was|
  {
    if n == 0 then was
    else
      var before := RefreshedUpTo(was, scopes, books, n - 1);
      before[n - 1 := Refreshed(before[n - 1], scopes[n - 1], books)]
  }

  lemma {:induction false} RefreshedPointwise(was: seq<Record>, scopes: seq<Scope>, books: Books, n: nat)
    requires n <= |was| == |scopes|
    ensures forall i: nat | i < |was| ::
              RefreshedUpTo(was, scopes, books, n)[i] == if i < n then Refreshed(was[i], scopes[i], books) else was[i]
  {
    hide Refreshed;
    if n > 0 {
      RefreshedPointwise(was, scopes, books, n - 1);
    }
  }

  /** Items among the first n whose accounting stage moved. */
  function Moved(was: seq<Record>, now: seq<Record>, n: nat): set<nat>
    requires n <= |was| == |now|
  {
    set i: nat | i < n && was[i].item.stage != now[i].item.stage
  }

  lemma MovedStep(was: seq<Record>, scopes: seq<Scope>, books: Books, n: nat)
    requires n < |was| == |scopes|
    ensures RefreshedUpTo(was, scopes, books, n)[n] == was[n]
    ensures var earlier, now := RefreshedUpTo(was, scopes, books, n), RefreshedUpTo(was, scopes, books, n + 1);
            |Moved(was, now, n + 1)|
            == |Moved(was, earlier, n)| + if was[n].item.stage != now[n].item.stage then 1 else 0
  {
    hide Refreshed;
    RefreshedPointwise(was, scopes, books, n);
    var earlier, now := RefreshedUpTo(was, scopes, books, n), RefreshedUpTo(was, scopes, books, n + 1);
    assert Moved(was, now, n + 1)
             == Moved(was, earlier, n) + if was[n].item.stage != now[n].item.stage then {n} else {};
    assert n !in Moved(was, earlier, n);
  }

  class Store {
    var records: seq<Record>
    var exports: seq<FinanceExport>

    function Now(): State
      reads this
    {
      State(records, exports)
    }

    constructor ()
      ensures Now() == EMPTY
    {
      records, exports := [], [];
    }

    method RecordCandidate(
      caseId: nat, workOrder: nat, currency: Currency, calculationVersion: nat, f: FinancialInputs
    ) returns (refusal: Option<Error>)
      modifies this
      ensures var o := Ledger.RecordCandidate(old(Now()), caseId, workOrder, currency, calculationVersion, f);
              Now() == After(old(Now()), o) && refusal == RefusalOf(o)
    {
      var found := FindCase(records, caseId);
      var snapshots := if found.Some? then records[found.value].snapshots else [];
      var version := 1;
      if snapshots != [] {
        var latest := snapshots[Latest(snapshots)];
        if SameInputs(latest, calculationVersion, f) {
          return None;
        }
        version := latest.version + 1;
      }
      var snapshot := CandidateSnapshot(version, calculationVersion, currency, f);
      if !SnapshotInsertable(snapshots, snapshot) {
        return Some(IntegrityError);
      }
      if found.Some? {
        var r := records[found.value];
        r := r.(snapshots := r.snapshots + [snapshot]);
        r := r.(item := r.item.(candidate := Some(|snapshots|)));
        records := records[found.value := r];
      } else {
        if WorkOrderTaken(records, workOrder) {
          return Some(IntegrityError);
        }
        records := records + [NewRecord(caseId, workOrder, snapshot)];
      }
      return None;
    }

    method ApproveInvoiceReady(i: nat, mayAct: bool, expectedVersion: nat, facts: bool) returns (refusal: Option<Error>)
      modifies this
      ensures var o := Approve(old(Now()), i, mayAct, expectedVersion, facts);
              Now() == After(old(Now()), o) && refusal == RefusalOf(o)
    {
      if i >= |records| {
        return Some(NotFound);
      }
      if !mayAct {
        return Some(Denied);
      }
      var r := records[i];
      if r.item.version != expectedVersion {
        return Some(StaleSubject);
      }
      if r.item.workflow != Candidate {
        return Some(WrongWorkflowState);
      }
      if r.item.dispute == OpenDispute {
        return Some(DisputeBlocks);
      }
      if !(facts && BasisSupported(r) && NoDuplicate(Now(), i)) {
        return Some(EvidenceIncomplete);
      }
      var snapshot := r.snapshots[r.item.candidate.value];
      var previousState := r.item.workflow;
      if Live(r.approvals, InvoiceReadyApproval) != {} {
        return Some(IntegrityError);
      }
      var approval := Approval(InvoiceReadyApproval, r.item.version, r.item.candidate, false);
      var ready := ReadySnapshot(snapshot);
      if !SnapshotInsertable(r.snapshots, ready) {
        return Some(IntegrityError);
      }
      var readyAt := |r.snapshots|;
      r := r.(snapshots := r.snapshots + [ready]);
      approval := approval.(snapshot := Some(readyAt));
      r := r.(approvals := r.approvals + [approval]);
      r := r.(item := r.item.(workflow := InvoiceReady, ready := Some(readyAt), version := r.item.version + 1));
      r := r.(events := r.events + [WorkflowEvent(previousState, r.item.workflow)]);
      records := records[i := r];
      return None;
    }

    method RevokeInvoiceReady(i: nat, mayAct: bool, expectedVersion: nat, reasonGiven: bool)
      returns (refusal: Option<Error>)
      modifies this
      ensures var o := Revoke(old(Now()), i, mayAct, expectedVersion, reasonGiven);
              Now() == After(old(Now()), o) && refusal == RefusalOf(o)
    {
      if i >= |records| {
        return Some(NotFound);
      }
      if !mayAct {
        return Some(Denied);
      }
      var r := records[i];
      if r.item.version != expectedVersion {
        return Some(StaleSubject);
      }
      if r.item.workflow == Exported || InSomeExport(Now(), i) {
        return Some(AlreadyExportedError);
      }
      if r.item.workflow != InvoiceReady {
        return Some(WrongWorkflowState);
      }
      if !reasonGiven {
        return Some(ReasonRequired);
      }
      var live := FirstLive(r.approvals, InvoiceReadyApproval, 0);
      if live.Some? {
        r := r.(approvals := r.approvals[live.value := r.approvals[live.value].(revoked := true)]);
      }
      r := r.(item := r.item.(workflow := Candidate, ready := None, version := r.item.version + 1));
      r := r.(events := r.events + [WorkflowEvent(InvoiceReady, Candidate)]);
      records := records[i := r];
      return None;
    }

    method ExportInvoiceReady(mayAct: bool, request: Option<seq<nat>>, unbilled: set<nat>)
      returns (outcome: ExportOutcome)
      modifies this
      ensures outcome == Export(old(Now()), mayAct, request, unbilled)
      ensures Now() == AfterExport(old(Now()), outcome)
    {
      hide StillExportable, Selected, Replay, Key, Currencies, Total, FirstCurrency, Live, HandOffAll;
      if !mayAct {
        return ExportRefused(Denied);
      }
      var ids := Selected(records, request);
      if ids == [] {
        var replayed := Replay(Now(), request);
        return if replayed.Some? then Existing(replayed.value) else ExportRefused(NothingToExport);
      }
      var key := Key(records, ids);
      var existing := FindKey(exports, key, 0);
      if existing.Some? {
        return Existing(existing.value);
      }
      var passed := Recheck(ids, unbilled);
      if !passed {
        return ExportRefused(NoLongerExportable);
      }
      var currencies := CollectCurrencies(ids);
      if |currencies| > 1 {
        return ExportRefused(MixedCurrencies);
      }
      var total := SumReady(ids);
      if total < 0 {
        return ExportRefused(IntegrityError);
      }
      var currency: Currency := "USD";
      FirstCurrencyIsOne(records, ids);
      if currencies != {} {
        currency :| currency in currencies;
        OneOf(currency, FirstCurrency(records, ids), currencies);
      }
      var e := |exports|;
      exports := exports + [FinanceExport(key, ids, |ids|, total, currency)];
      var refused := HandOff(ids, e);
      if refused {
        exports := exports[..e];
        return ExportRefused(IntegrityError);
      }
      return Created(Now(), e);
    }

    method Recheck(ids: seq<nat>, unbilled: set<nat>) returns (passed: bool)
      requires InRange(records, ids)
      ensures passed <==> forall k | 0 <= k < |ids| :: StillExportable(Now(), ids[k], unbilled)
    {
      for k := 0 to |ids|
        invariant forall j | 0 <= j < k :: StillExportable(Now(), ids[j], unbilled)
      {
        if !StillExportable(Now(), ids[k], unbilled) {
          return false;
        }
      }
      return true;
    }

    method CollectCurrencies(ids: seq<nat>) returns (currencies: set<Currency>)
      requires InRange(records, ids)
      ensures currencies == Currencies(records, ids)
    {
      currencies := {};
      for k := 0 to |ids|
        invariant currencies == Currencies(records, ids[..k])
      {
        CurrenciesConcat(records, ids[..k], [ids[k]]);
        assert ids[..k + 1] == ids[..k] + [ids[k]];
        assert [ids[k]][0] == ids[k];
        var c := ReadyCurrency(records[ids[k]]);
        if c.Some? {
          assert Currencies(records, [ids[k]]) == {c.value};
          currencies := currencies + {c.value};
        } else {
          assert Currencies(records, [ids[k]]) == {};
        }
      }
      assert ids[..|ids|] == ids;
    }

    method SumReady(ids: seq<nat>) returns (total: Money)
      requires InRange(records, ids)
      ensures total == Total(records, ids)
    {
      total := 0;
      for k := 0 to |ids|
        invariant total == Total(records, ids[..k])
      {
        assert ReadyValues(records, ids[..k + 1]) == ReadyValues(records, ids[..k]) + [ReadyValue(records[ids[k]])];
        SumAppend(ReadyValues(records, ids[..k]), ReadyValue(records[ids[k]]));
        total := total + ReadyValue(records[ids[k]]);
      }
      assert ids[..|ids|] == ids;
    }

    /** Move the items to Exported one by one; a violated constraint restores every row. */
    method HandOff(ids: seq<nat>, e: nat) returns (refused: bool)
      requires InRange(records, ids) && Increasing(ids)
      modifies this`records
      ensures refused <==>
              exists k | 0 <= k < |ids| :: old(Live(records[ids[k]].approvals, FinanceExportApproval)) != {}
      ensures records == if refused then old(records) else HandOffAll(old(records), ids, e)
    {
      var was := records;
      for k := 0 to |ids|
        invariant records == HandOffAll(was, ids[..k], e)
        invariant forall j | 0 <= j < k :: Live(was[ids[j]].approvals, FinanceExportApproval) == {}
      {
        HandOffPointwise(was, ids[..k], e);
        assert ids[k] !in ids[..k];
        assert ids[..k + 1][..k] == ids[..k];
        var r := records[ids[k]];
        var previous := r.item.workflow;
        r := r.(item := r.item.(workflow := Exported, exportReference := Some(e), version := r.item.version + 1));
        r := r.(events := r.events + [WorkflowEvent(previous, r.item.workflow)]);
        if Live(r.approvals, FinanceExportApproval) != {} {
          records := was;
          return true;
        }
        r := r.(approvals := r.approvals + [Approval(FinanceExportApproval, r.item.version, None, false)]);
        records := records[ids[k] := r];
      }
      assert ids[..|ids|] == ids;
      return false;
    }

    method RefreshItem(i: nat, scope: Scope, books: Books) returns (refusal: Option<Error>)
      modifies this
      ensures var o := Refresh(old(Now()), i, scope, books);
              Now() == After(old(Now()), o) && refusal == RefusalOf(o)
      ensures exports == old(exports)
      ensures i < |old(records)| ==> records == old(records)[i := Refreshed(old(records)[i], scope, books)]
    {
      if i >= |records| {
        return Some(NotFound);
      }
      var r := records[i];
      var result := DeriveFor(r, scope, books);
      var stageChanged := r.item.stage != result.stage;
      var amountsChanged := r.item.invoiced != result.invoiced || r.item.collected != result.collected;
      var disputeChanged := result.dispute.Some? && r.item.dispute != OpenDispute;
      if !(stageChanged || amountsChanged || disputeChanged) {
        return None;
      }
      var previousStage := r.item.stage;
      r := r.(item := r.item.(stage := result.stage, invoiced := result.invoiced, collected := result.collected));
      if result.dispute.Some? {
        r := r.(item := r.item.(dispute := OpenDispute, disputeReason := result.dispute));
      }
      if stageChanged {
        var source := if result.invoices == [] then None else Some(result.invoices[0]);
        r := r.(events := r.events + [AccountingEvent(previousStage, result.stage, source)]);
      }
      if disputeChanged {
        r := r.(events := r.events + [DisputeOpened(result.dispute.value)]);
      }
      assert forall x: seq<StageEvent> {:trigger x + []} :: x + [] == x;
      records := records[i := r];
      return None;
    }

    method ResolveItemDispute(i: nat, mayAct: bool, noteGiven: bool, scope: Scope, books: Books)
      returns (refusal: Option<Error>)
      modifies this
      ensures var o := ResolveDispute(old(Now()), i, mayAct, noteGiven, scope, books);
              Now() == After(old(Now()), o) && refusal == RefusalOf(o)
    {
      if !mayAct {
        return Some(Denied);
      }
      if i >= |records| {
        return Some(NotFound);
      }
      if records[i].item.dispute != OpenDispute {
        return Some(WrongWorkflowState);
      }
      if !noteGiven {
        return Some(ReasonRequired);
      }
      var r := records[i];
      r := r.(item := r.item.(dispute := ResolvedDispute));
      r := r.(events := r.events + [DisputeClosed]);
      records := records[i := r];
      refusal := RefreshItem(i, scope, books);
    }

    /** Recompute every item; the result counts those whose stage moved. */
    method RefreshOrganization(scopes: seq<Scope>, books: Books) returns (changed: nat)
      requires |scopes| == |records|
      modifies this
      ensures exports == old(exports) && |records| == |old(records)|
      ensures records == RefreshedUpTo(old(records), scopes, books, |scopes|)
      ensures changed == |Moved(old(records), records, |records|)|
    {
      hide Refreshed, Refresh, After;
      ghost var was := records;
      changed := 0;
      assert Moved(was, records, 0) == {};
      hide Moved;
      for i := 0 to |records|
        invariant exports == old(exports)
        invariant records == RefreshedUpTo(was, scopes, books, i)
        invariant changed == |Moved(was, records, i)|
      {
        MovedStep(was, scopes, books, i);
        var before := records[i].item.stage;
        var _ := RefreshItem(i, scopes[i], books);
        if records[i].item.stage != before {
          changed := changed + 1;
        }
      }
    }
  }
}
