/** Safety of the recovery ledger over every run of its operations, in any order. */
module LedgerRuns {
  import opened Common
  import opened Accounting
  import opened ExportKey
  import opened Ledger
  import opened LedgerInvariant

  datatype Action =
    CandidateRecorded(caseId: nat, workOrder: nat, currency: Currency, calculationVersion: nat, inputs: FinancialInputs)
  | ApprovalAsked(item: nat, mayAct: bool, expectedVersion: nat, facts: bool)
  | RevocationAsked(item: nat, mayAct: bool, expectedVersion: nat, reasonGiven: bool)
  | ExportAsked(mayAct: bool, request: Option<seq<nat>>, unbilled: set<nat>)
  | BooksRefreshed(item: nat, scope: Scope, books: Books)
  | DisputeSettled(item: nat, mayAct: bool, noteGiven: bool, scope: Scope, books: Books)

  function Step(s: State, a: Action): State {
    match a
    case CandidateRecorded(c, w, currency, v, f) => After(s, RecordCandidate(s, c, w, currency, v, f))
    case ApprovalAsked(i, mayAct, v, facts) => After(s, Approve(s, i, mayAct, v, facts))
    case RevocationAsked(i, mayAct, v, given) => After(s, Revoke(s, i, mayAct, v, given))
    case ExportAsked(mayAct, request, unbilled) => AfterExport(s, Export(s, mayAct, request, unbilled))
    case BooksRefreshed(i, scope, books) => After(s, Refresh(s, i, scope, books))
    case DisputeSettled(i, mayAct, given, scope, books) => After(s, ResolveDispute(s, i, mayAct, given, scope, books))
  }

  function Run(s: State, actions: seq<Action>): State
    decreases |actions|
  {
    if actions == [] then s else Run(Step(s, actions[0]), actions[1..])
  }

  lemma StepKeeps(s: State, a: Action)
    requires Inv(s)
    ensures Inv(Step(s, a))
  {
    match a
    case CandidateRecorded(c, w, currency, v, f) => RecordCandidateKeeps(s, c, w, currency, v, f);
    case ApprovalAsked(i, mayAct, v, facts) => ApproveKeeps(s, i, mayAct, v, facts);
    case RevocationAsked(i, mayAct, v, given) => RevokeKeeps(s, i, mayAct, v, given);
    case ExportAsked(mayAct, request, unbilled) => ExportKeeps(s, mayAct, request, unbilled);
    case BooksRefreshed(i, scope, books) => RefreshKeeps(s, i, scope, books);
    case DisputeSettled(i, mayAct, given, scope, books) => ResolveDisputeKeeps(s, i, mayAct, given, scope, books);
  }

  lemma {:induction false} RunKeeps(s: State, actions: seq<Action>)
    requires Inv(s)
    ensures Inv(Run(s, actions))
    decreases |actions|
  {
    hide Inv, Step;
    if actions != [] {
      StepKeeps(s, actions[0]);
      RunKeeps(Step(s, actions[0]), actions[1..]);
    }
  }

  ghost predicate Reachable(s: State) {
    exists actions :: s == Run(EMPTY, actions)
  }

  lemma ReachableInv(s: State)
    requires Reachable(s)
    ensures Inv(s)
  {
    var actions :| s == Run(EMPTY, actions);
    EmptyInv();
    RunKeeps(EMPTY, actions);
  }

  // ---------------------------------------------------------------- conservation

  /** An item is listed by the export its reference names, and by no other. */
  lemma MembershipIsReference(s: State, i: nat, e: nat)
    requires Inv(s) && i < |s.records| && e < |s.exports|
    ensures i in s.exports[e].items <==> s.records[i].item.exportReference == Some(e)
  {
    assert ExportInv(s.records, s.exports[e], e);
    assert ReferenceInv(s, i);
  }

  /**
   Conservation of exported money: whatever happened, the totals of all exports add up to the approved
   values of all exported items; each export totals its own members, all in its currency, under the
   key of their approved snapshots; every exported item is in exactly the export its reference
   names, and no other item is in any.
   */
  lemma ExportedMoneyIsConserved(s: State)
    requires Reachable(s)
    ensures ExportTotals(s.exports) == ExportedMoney(s.records)
    ensures forall e | 0 <= e < |s.exports| :: ExportInv(s.records, s.exports[e], e)
    ensures forall i, e | 0 <= i < |s.records| && 0 <= e < |s.exports| ::
              i in s.exports[e].items <==> s.records[i].item.exportReference == Some(e)
    ensures forall i | 0 <= i < |s.records| ::
              if s.records[i].item.workflow.Exported?
              then s.records[i].item.exportReference.Some? && s.records[i].item.exportReference.value < |s.exports|
              else s.records[i].item.exportReference.None?
  {
    ReachableInv(s);
    forall i, e | 0 <= i < |s.records| && 0 <= e < |s.exports|
      ensures i in s.exports[e].items <==> s.records[i].item.exportReference == Some(e)
    {
      MembershipIsReference(s, i, e);
    }
    forall i | 0 <= i < |s.records| ensures RecordInv(s.records[i]) && ReferenceInv(s, i) {
    }
  }

  // ---------------------------------------------------------------- what never changes

  /** Exports are only added; items keep their place and their identity; exported items are frozen. */
  predicate Extends(s: State, s': State) {
    && |s.exports| <= |s'.exports| && s'.exports[..|s.exports|] == s.exports
    && Continues(s.records, s'.records)
    && forall i | 0 <= i < |s.records| ::
         s'.records[i].caseId == s.records[i].caseId && s'.records[i].workOrder == s.records[i].workOrder
  }

  lemma UpdateExtends(s: State, i: nat, r': Record)
    requires i < |s.records| && KeptAfterExport(s.records[i], r')
    requires r'.caseId == s.records[i].caseId && r'.workOrder == s.records[i].workOrder
    ensures Extends(s, s.(records := s.records[i := r']))
  {
  }

  lemma CandidateExtends(s: State, a: Action)
    requires RecordsInv(s.records) && a.CandidateRecorded?
    ensures Extends(s, Step(s, a))
  {
    var found := FindCase(s.records, a.caseId);
    if found.Some? {
      var i := found.value;
      assert RecordInv(s.records[i]);
      var r' := Step(s, a).records[i];
      hide RecordsInv;
      assert KeptAfterExport(s.records[i], r');
      UpdateExtends(s, i, r');
    }
  }

  lemma ExportExtends(s: State, a: Action)
    requires a.ExportAsked?
    ensures Extends(s, Step(s, a))
  {
    hide HandOffAll, Objection, NewExport, Extends, Key;
    if Export(s, a.mayAct, a.request, a.unbilled).Created? {
      var ids := Selected(s.records, a.request);
      HandOffExtends(s, ids, NewExport(s, ids, FirstCurrency(s.records, ids)));
    }
    NothingExtends(s);
  }

  lemma NothingExtends(s: State)
    ensures Extends(s, s)
  {
  }

  lemma HandOffExtends(s: State, ids: seq<nat>, x: FinanceExport)
    requires InRange(s.records, ids) && Increasing(ids)
    requires forall k | 0 <= k < |ids| :: !s.records[ids[k]].item.workflow.Exported?
    ensures Extends(s, State(HandOffAll(s.records, ids, |s.exports|), s.exports + [x]))
  {
    hide HandOffAll, KeptAfterExport;
    forall i | 0 <= i < |s.records|
      ensures var r, r' := s.records[i], HandOffAll(s.records, ids, |s.exports|)[i];
              KeptAfterExport(r, r') && r'.caseId == r.caseId && r'.workOrder == r.workOrder
    {
      HandOffKeepsFacts(s.records, ids, |s.exports|, i);
    }
  }

  lemma DecisionExtends(s: State, a: Action)
    requires a.ApprovalAsked? || a.RevocationAsked?
    ensures Extends(s, Step(s, a))
  {
    if Step(s, a) != s {
      UpdateExtends(s, a.item, Step(s, a).records[a.item]);
    }
  }

  lemma RefreshedExtends(s: State, i: nat, r: Record, scope: Scope, books: Books)
    requires i < |s.records| && (r == s.records[i] || r == Settled(s.records[i]))
    ensures Extends(s, s.(records := s.records[i := Refreshed(r, scope, books)]))
  {
    RefreshedShape(r, scope, books);
    hide Refreshed, Extends;
    UpdateExtends(s, i, Refreshed(r, scope, books));
  }

  lemma AccountingExtends(s: State, a: Action)
    requires a.BooksRefreshed? || a.DisputeSettled?
    ensures Extends(s, Step(s, a))
  {
    hide Refreshed, Extends;
    NothingExtends(s);
    if a.item < |s.records| {
      RefreshedExtends(s, a.item, s.records[a.item], a.scope, a.books);
      RefreshedExtends(s, a.item, Settled(s.records[a.item]), a.scope, a.books);
    }
  }

  lemma StepExtends(s: State, a: Action)
    requires Inv(s)
    ensures Extends(s, Step(s, a))
  {
    hide Step, Extends;
    if a.CandidateRecorded? {
      CandidateExtends(s, a);
    } else if a.ApprovalAsked? || a.RevocationAsked? {
      DecisionExtends(s, a);
    } else if a.ExportAsked? {
      ExportExtends(s, a);
    } else {
      AccountingExtends(s, a);
    }
  }

  lemma {:induction false} RunExtends(s: State, actions: seq<Action>)
    requires Inv(s)
    ensures Extends(s, Run(s, actions))
    decreases |actions|
  {
    hide Inv, Step;
    if actions != [] {
      StepExtends(s, actions[0]);
      StepKeeps(s, actions[0]);
      RunExtends(Step(s, actions[0]), actions[1..]);
    }
  }

  /** Exported is never left, in any later state. */
  lemma ExportedIsFinal(s: State, actions: seq<Action>, i: nat)
    requires Reachable(s) && i < |s.records| && s.records[i].item.workflow.Exported?
    ensures i < |Run(s, actions).records|
    ensures Run(s, actions).records[i].item.workflow.Exported?
    ensures Run(s, actions).records[i].item.exportReference == s.records[i].item.exportReference
    ensures ReadyValue(Run(s, actions).records[i]) == ReadyValue(s.records[i])
  {
    ReachableInv(s);
    RunExtends(s, actions);
  }

  // ---------------------------------------------------------------- one item over a run

  /** State, approvals, version and history of an item agree in every reachable ledger. */
  lemma ItemLifecycle(s: State, i: nat)
    requires Reachable(s) && i < |s.records|
    ensures var r := s.records[i];
            && (Approvable(r.item.workflow) <==> r.item.ready.Some?)
            && (r.item.ready.Some? ==> OneLive(r.approvals, InvoiceReadyApproval, r.item.ready,
                                                  r.item.version - StepsSinceApproval(r.item.workflow)))
            && (r.item.ready.None? ==> Live(r.approvals, InvoiceReadyApproval) == {})
            && r.item.version == 1 + WorkflowCount(r.events)
            && Walk(r.events) == Some(r.item.workflow)
            && !r.item.workflow.Void?
  {
    ReachableInv(s);
    assert RecordInv(s.records[i]);
  }

  /** Snapshot versions are gap-free: the k-th snapshot of a case has version k. */
  lemma SnapshotsNumberedFromOne(s: State, i: nat)
    requires Reachable(s) && i < |s.records|
    ensures s.records[i].snapshots != []
    ensures forall k | 0 <= k < |s.records[i].snapshots| :: s.records[i].snapshots[k].version == k + 1
  {
    ReachableInv(s);
    assert RecordInv(s.records[i]);
  }

  /** The competing-item test of the checklist is never true. */
  lemma NoCompetingItem(s: State, i: nat)
    requires Inv(s) && i < |s.records|
    ensures !CompetingItem(s, i)
  {
  }

  predicate OtherwiseApprovable(s: State, i: nat, mayAct: bool, expectedVersion: nat, facts: bool) {
    && i < |s.records| && mayAct && facts
    && s.records[i].item.version == expectedVersion
    && s.records[i].item.workflow.Candidate?
    && !s.records[i].item.dispute.OpenDispute?
    && BasisSupported(s.records[i])
  }

  /**
   An otherwise valid approval commits exactly when the current candidate is the latest snapshot;
   the value it approves is that candidate's value.
   */
  lemma ApproveCommitsIff(s: State, i: nat, mayAct: bool, expectedVersion: nat, facts: bool)
    requires Inv(s) && OtherwiseApprovable(s, i, mayAct, expectedVersion, facts)
    ensures Approve(s, i, mayAct, expectedVersion, facts).Committed?
       <==> s.records[i].item.candidate.value == |s.records[i].snapshots| - 1
    ensures var o := Approve(s, i, mayAct, expectedVersion, facts);
            o.Committed? ==>
              ReadyValue(o.state.records[i])
              == s.records[i].snapshots[s.records[i].item.candidate.value].candidateValue.value
    ensures var o := Approve(s, i, mayAct, expectedVersion, facts);
            o.Refused? ==> o.error == IntegrityError
  {
    var r := s.records[i];
    assert RecordInv(r);
    OpenItemIsNoDuplicate(s, i);
    hide Inv, NoDuplicate;
    var c := r.item.candidate.value;
    TakenVersions(r.snapshots, c + 2);
  }

  /** An item that was not exported passes the duplicate check. */
  lemma OpenItemIsNoDuplicate(s: State, i: nat)
    requires Inv(s) && i < |s.records| && !s.records[i].item.workflow.Exported?
    ensures NoDuplicate(s, i)
  {
    assert RecordInv(s.records[i]);
    NoCompetingItem(s, i);
    hide Inv;
    forall e | 0 <= e < |s.exports| ensures i !in s.exports[e].items {
      MembershipIsReference(s, i, e);
    }
  }

  /** A run that only re-evaluates one case on the same inputs and approves nothing for it. */
  predicate Replays(actions: seq<Action>, i: nat, caseId: nat, calculationVersion: nat, f: FinancialInputs) {
    forall k | 0 <= k < |actions| ::
      && (actions[k].CandidateRecorded? && actions[k].caseId == caseId ==>
            actions[k].inputs == f && actions[k].calculationVersion == calculationVersion)
      && !(actions[k].ApprovalAsked? && actions[k].item == i)
  }

  predicate SaysAlready(snapshots: seq<Snapshot>, calculationVersion: nat, f: FinancialInputs) {
    snapshots != [] && SameInputs(snapshots[|snapshots| - 1], calculationVersion, f)
  }

  predicate AtMostOneMore(before: seq<Snapshot>, now: seq<Snapshot>, calculationVersion: nat, f: FinancialInputs) {
    || now == before
    || (!SaysAlready(before, calculationVersion, f) && SaysAlready(now, calculationVersion, f) && |now| == |before| + 1)
  }

  lemma CandidateReplay(s: State, a: Action, i: nat)
    requires RecordsInv(s.records) && Distinct(s.records) && i < |s.records| && a.CandidateRecorded?
    ensures i < |Step(s, a).records|
    ensures s.records[i].caseId != a.caseId ==> Step(s, a).records[i] == s.records[i]
    ensures s.records[i].caseId == a.caseId ==>
              AtMostOneMore(s.records[i].snapshots, Step(s, a).records[i].snapshots, a.calculationVersion, a.inputs)
  {
    if s.records[i].caseId == a.caseId {
      assert FindCase(s.records, a.caseId) == Some(i);
      OwnCandidateReplay(s, a, i);
    }
    hide RecordsInv, Distinct, SnapshotInsertable, SameInputs, AtMostOneMore;
  }

  lemma OwnCandidateReplay(s: State, a: Action, i: nat)
    requires RecordsInv(s.records) && a.CandidateRecorded? && FindCase(s.records, a.caseId) == Some(i)
    ensures i < |Step(s, a).records|
    ensures AtMostOneMore(s.records[i].snapshots, Step(s, a).records[i].snapshots, a.calculationVersion, a.inputs)
  {
    assert RecordInv(s.records[i]);
    hide RecordsInv, SnapshotInsertable;
    LatestIsLast(s.records[i].snapshots);
  }

  lemma DecisionKeepsCandidate(s: State, a: Action, i: nat)
    requires (a.ApprovalAsked? || a.RevocationAsked?) && i < |s.records|
    ensures |Step(s, a).records| == |s.records|
    ensures Step(s, a).records[i].item.candidate == s.records[i].item.candidate
    ensures |Step(s, a).records[i].snapshots| ==
            |s.records[i].snapshots| + if a.ApprovalAsked? && a.item == i && Step(s, a) != s then 1 else 0
  {
  }

  lemma ExportKeepsCandidate(s: State, a: Action, i: nat)
    requires a.ExportAsked? && i < |s.records|
    ensures |Step(s, a).records| == |s.records|
    ensures Step(s, a).records[i].item.candidate == s.records[i].item.candidate
    ensures Step(s, a).records[i].snapshots == s.records[i].snapshots
  {
    if Export(s, a.mayAct, a.request, a.unbilled).Created? {
      HandOffPointwise(s.records, Selected(s.records, a.request), |s.exports|);
      hide Selected, Objection, NewExport, HandOffAll, ReadyValue, ReadyCurrency;
    }
  }

  lemma AccountingKeepsCandidate(s: State, a: Action, i: nat)
    requires (a.BooksRefreshed? || a.DisputeSettled?) && i < |s.records|
    ensures |Step(s, a).records| == |s.records|
    ensures Step(s, a).records[i].item.candidate == s.records[i].item.candidate
    ensures Step(s, a).records[i].snapshots == s.records[i].snapshots
  {
    hide Refreshed;
    RefreshedShape(s.records[i], a.scope, a.books);
    RefreshedShape(Settled(s.records[i]), a.scope, a.books);
  }

  lemma OtherStepsKeepSnapshots(s: State, a: Action, i: nat)
    requires i < |s.records| && !a.CandidateRecorded? && !(a.ApprovalAsked? && a.item == i)
    ensures |Step(s, a).records| == |s.records|
    ensures Step(s, a).records[i].snapshots == s.records[i].snapshots
  {
    if a.ApprovalAsked? || a.RevocationAsked? {
      OtherDecisionKeepsSnapshots(s, a, i);
    } else if a.ExportAsked? {
      ExportKeepsCandidate(s, a, i);
    } else {
      AccountingKeepsCandidate(s, a, i);
    }
    hide Step;
  }

  lemma OtherDecisionKeepsSnapshots(s: State, a: Action, i: nat)
    requires (a.ApprovalAsked? || a.RevocationAsked?) && i < |s.records| && !(a.ApprovalAsked? && a.item == i)
    ensures |Step(s, a).records| == |s.records|
    ensures Step(s, a).records[i].snapshots == s.records[i].snapshots
  {
  }

  lemma ReplayStep(s: State, a: Action, i: nat, calculationVersion: nat, f: FinancialInputs)
    requires Inv(s) && i < |s.records|
    requires a.CandidateRecorded? && a.caseId == s.records[i].caseId ==>
               a.inputs == f && a.calculationVersion == calculationVersion
    requires !(a.ApprovalAsked? && a.item == i)
    ensures Inv(Step(s, a)) && i < |Step(s, a).records| && Step(s, a).records[i].caseId == s.records[i].caseId
    ensures AtMostOneMore(s.records[i].snapshots, Step(s, a).records[i].snapshots, calculationVersion, f)
  {
    if a.CandidateRecorded? {
      CandidateReplay(s, a, i);
    } else {
      OtherStepsKeepSnapshots(s, a, i);
    }
    StepKeeps(s, a);
    StepExtends(s, a);
    hide Inv, Step;
  }

  /** Replaying identical inputs appends at most one snapshot between two approvals of a case. */
  lemma {:induction false} ReplayAppendsAtMostOne(
    s: State, actions: seq<Action>, i: nat, calculationVersion: nat, f: FinancialInputs)
    requires Inv(s) && i < |s.records|
    requires Replays(actions, i, s.records[i].caseId, calculationVersion, f)
    ensures i < |Run(s, actions).records|
    ensures var before, now := s.records[i].snapshots, Run(s, actions).records[i].snapshots;
            |now| <= |before| + if SaysAlready(before, calculationVersion, f) then 0 else 1
    decreases |actions|
  {
    if actions != [] {
      hide Inv, Step, SameInputs;
      ReplayStep(s, actions[0], i, calculationVersion, f);
      ReplayAppendsAtMostOne(Step(s, actions[0]), actions[1..], i, calculationVersion, f);
    }
  }

  lemma NotOtherwiseApprovable(s: State, i: nat, a: Action)
    requires a.ApprovalAsked? && !OtherwiseApprovable(s, i, a.mayAct, a.expectedVersion, a.facts)
    ensures Approve(s, i, a.mayAct, a.expectedVersion, a.facts).Refused?
  {
  }

  /** A step that records no candidate for the case leaves its item's candidate; snapshots never get fewer. */
  lemma StepKeepsCandidate(s: State, a: Action, i: nat)
    requires Inv(s) && i < |s.records|
    ensures Inv(Step(s, a)) && i < |Step(s, a).records| && Step(s, a).records[i].caseId == s.records[i].caseId
    ensures |Step(s, a).records[i].snapshots| >= |s.records[i].snapshots|
    ensures !(a.CandidateRecorded? && a.caseId == s.records[i].caseId) ==>
              Step(s, a).records[i].item.candidate == s.records[i].item.candidate
  {
    StepKeeps(s, a);
    StepExtends(s, a);
    if a.CandidateRecorded? {
      CandidateReplay(s, a, i);
    } else if a.ApprovalAsked? || a.RevocationAsked? {
      DecisionKeepsCandidate(s, a, i);
    } else if a.ExportAsked? {
      ExportKeepsCandidate(s, a, i);
    } else {
      AccountingKeepsCandidate(s, a, i);
    }
    hide Inv, Step, Extends;
  }

  lemma {:induction false} SnapshotsNeverFewer(s: State, actions: seq<Action>, i: nat)
    requires Inv(s) && i < |s.records|
    ensures Inv(Run(s, actions)) && i < |Run(s, actions).records|
    ensures |Run(s, actions).records[i].snapshots| >= |s.records[i].snapshots|
    decreases |actions|
  {
    hide Inv, Step;
    if actions != [] {
      StepKeepsCandidate(s, actions[0], i);
      SnapshotsNeverFewer(Step(s, actions[0]), actions[1..], i);
    }
  }

  /**
   An approved candidate is spent: after any run, as long as it is still the item's candidate, no approval
   of the item commits again, revoked in between or not.
   */
  lemma ApprovedCandidateIsSpent(s: State, i: nat, approval: Action, actions: seq<Action>, again: Action)
    requires Inv(s) && i < |s.records| && approval.ApprovalAsked? && approval.item == i
    requires Approve(s, i, approval.mayAct, approval.expectedVersion, approval.facts).Committed?
    requires again.ApprovalAsked? && again.item == i
    ensures var t := Run(Step(s, approval), actions);
            && i < |t.records|
            && (t.records[i].item.candidate == s.records[i].item.candidate ==>
                  Approve(t, i, again.mayAct, again.expectedVersion, again.facts).Refused?)
  {
    var s1 := Step(s, approval);
    StepKeeps(s, approval);
    DecisionKeepsCandidate(s, approval, i);
    assert s1 != s && BasisSupported(s.records[i]);
    SnapshotsNeverFewer(s1, actions, i);
    var t := Run(s1, actions);
    hide Inv, Step, Run;
    if OtherwiseApprovable(t, i, again.mayAct, again.expectedVersion, again.facts) {
      ApproveCommitsIff(t, i, again.mayAct, again.expectedVersion, again.facts);
    } else {
      NotOtherwiseApprovable(t, i, again);
    }
  }

  /** No action records a candidate for the case. */
  predicate NoNewCandidate(actions: seq<Action>, caseId: nat) {
    forall k | 0 <= k < |actions| :: !(actions[k].CandidateRecorded? && actions[k].caseId == caseId)
  }

  lemma {:induction false} CandidateStays(s: State, actions: seq<Action>, i: nat)
    requires Inv(s) && i < |s.records| && NoNewCandidate(actions, s.records[i].caseId)
    ensures i < |Run(s, actions).records|
    ensures Run(s, actions).records[i].item.candidate == s.records[i].item.candidate
    decreases |actions|
  {
    hide Inv, Step;
    if actions != [] {
      StepKeepsCandidate(s, actions[0], i);
      CandidateStays(Step(s, actions[0]), actions[1..], i);
    }
  }

  /**
   Approving again is refused after any run that records no new candidate for the case: revocations, exports,
   refreshes and whatever happens to other items in between make no difference.
   */
  lemma ReapprovalCollides(s: State, i: nat, approval: Action, actions: seq<Action>, again: Action)
    requires Inv(s) && i < |s.records| && approval.ApprovalAsked? && approval.item == i
    requires Approve(s, i, approval.mayAct, approval.expectedVersion, approval.facts).Committed?
    requires NoNewCandidate(actions, s.records[i].caseId)
    requires again.ApprovalAsked? && again.item == i
    ensures var t := Run(Step(s, approval), actions);
            Approve(t, i, again.mayAct, again.expectedVersion, again.facts).Refused?
  {
    StepKeepsCandidate(s, approval, i);
    CandidateStays(Step(s, approval), actions, i);
    ApprovedCandidateIsSpent(s, i, approval, actions, again);
    hide Inv, Step, Run, Approve;
  }

  const EXAMPLE_INPUTS := FinancialInputs(FixedWorkOrder, Some(1_0000), map[])
  const EXAMPLE_CANDIDATE := CandidateRecorded(0, 0, "USD", 1, EXAMPLE_INPUTS)
  const EXAMPLE_APPROVAL := ApprovalAsked(0, true, 1, true)
  const EXAMPLE_REVOCATION := RevocationAsked(0, true, 2, true)

  lemma RunOfThree(s: State, actions: seq<Action>)
    requires |actions| == 3
    ensures Run(s, actions) == Step(Step(Step(s, actions[0]), actions[1]), actions[2])
  {
    hide Step;
    assert actions[1..][1..] == [actions[2]] && [actions[2]][1..] == [];
    var s2 := Step(Step(s, actions[0]), actions[1]);
    assert Run(s2, [actions[2]]) == Step(s2, actions[2]);
    assert Run(Step(s, actions[0]), actions[1..]) == Run(s2, actions[1..][1..]);
  }

  /** The first approval of a recorded candidate. */
  lemma ExampleIsApproved()
    ensures var s1 := Step(EMPTY, EXAMPLE_CANDIDATE);
            && Inv(s1) && |s1.records| == 1 && s1.records[0].caseId == 0 && s1.exports == []
            && OtherwiseApprovable(s1, 0, true, 1, true) && Approve(s1, 0, true, 1, true).Committed?
  {
    EmptyInv();
    StepKeeps(EMPTY, EXAMPLE_CANDIDATE);
    var s1 := Step(EMPTY, EXAMPLE_CANDIDATE);
    assert s1.records == [NewRecord(0, 0, CandidateSnapshot(1, 1, "USD", EXAMPLE_INPUTS))];
    hide Inv;
    ApproveCommitsIff(s1, 0, true, 1, true);
  }

  /**
   A reachable ledger in which an item was approved and revoked, is a candidate again in every other respect,
   and cannot be approved: the new snapshot's number is taken.
   */
  lemma ReapprovalIsRefused()
    ensures var t := Run(EMPTY, [EXAMPLE_CANDIDATE, EXAMPLE_APPROVAL, EXAMPLE_REVOCATION]);
            && |t.records| == 1 && t.records[0].item.workflow.Candidate? && t.records[0].item.version == 3
            && OtherwiseApprovable(t, 0, true, 3, true)
            && Approve(t, 0, true, 3, true) == Refused(IntegrityError)
  {
    ExampleIsApproved();
    var s1 := Step(EMPTY, EXAMPLE_CANDIDATE);
    var s2 := Step(s1, EXAMPLE_APPROVAL);
    var t := Step(s2, EXAMPLE_REVOCATION);
    StepKeeps(s1, EXAMPLE_APPROVAL);
    StepKeeps(s2, EXAMPLE_REVOCATION);
    RevokedExample(s1);
    hide Inv, Step, OtherwiseApprovable, Approve;
    RunOfThree(EMPTY, [EXAMPLE_CANDIDATE, EXAMPLE_APPROVAL, EXAMPLE_REVOCATION]);
    ReapprovalCollides(s1, 0, EXAMPLE_APPROVAL, [EXAMPLE_REVOCATION], ApprovalAsked(0, true, 3, true));
    assert [EXAMPLE_REVOCATION][1..] == [];
    assert Run(s2, [EXAMPLE_REVOCATION]) == Run(t, [EXAMPLE_REVOCATION][1..]);
    ApproveCommitsIff(t, 0, true, 3, true);
  }

  lemma RevokedExample(s: State)
    requires |s.records| == 1 && s.exports == [] && OtherwiseApprovable(s, 0, true, 1, true)
    requires Approve(s, 0, true, 1, true).Committed?
    ensures var t := Step(Step(s, EXAMPLE_APPROVAL), EXAMPLE_REVOCATION);
            && |t.records| == 1 && t.records[0].item.workflow.Candidate? && t.records[0].item.version == 3
            && OtherwiseApprovable(t, 0, true, 3, true)
  {
    var r := s.records[0];
    var s2 := Step(s, EXAMPLE_APPROVAL);
    assert s2.records == [Approved(r)] && s2.exports == [];
    RevokedIsApprovable(r);
    hide Approve, Live, WithdrawLive, BasisSupported, NoDuplicate, Approved, Revoked;
    assert Revoke(s2, 0, true, 2, true) == Committed(s2.(records := s2.records[0 := Revoked(Approved(r))]));
  }

  lemma RevokedIsApprovable(r: Record)
    requires BasisSupported(r) && r.item.version == 1 && !r.item.dispute.OpenDispute?
    ensures Approved(r).item.version == 2 && Approved(r).item.workflow.InvoiceReady?
    ensures var r' := Revoked(Approved(r));
            r'.item.version == 3 && r'.item.workflow.Candidate? && !r'.item.dispute.OpenDispute? && BasisSupported(r')
  {
    hide WithdrawLive;
  }

  // ---------------------------------------------------------------- export replay

  lemma SharedKeySharesItems(records: seq<Record>, x: seq<nat>, y: seq<nat>)
    requires InRange(records, x) && InRange(records, y) && Key(records, x) == Key(records, y)
    ensures forall i :: i in x ==> i in y
  {
    var p, q := Parts(records, x), Parts(records, y);
    KeyDeterminesParts(p, q);
    forall i | i in x ensures i in y {
      var k :| 0 <= k < |x| && x[k] == i;
      assert p[k] in multiset(q);
      var j :| 0 <= j < |q| && q[j] == p[k];
    }
  }

  /** Two different exports never carry the same key. */
  lemma KeysAreUnique(s: State, d: nat, e: nat)
    requires Inv(s) && d < |s.exports| && e < |s.exports| && s.exports[d].key == s.exports[e].key
    ensures d == e
  {
    assert ExportInv(s.records, s.exports[d], d) && ExportInv(s.records, s.exports[e], e);
    SharedKeySharesItems(s.records, s.exports[d].items, s.exports[e].items);
    var i := s.exports[d].items[0];
    MembershipIsReference(s, i, d);
    MembershipIsReference(s, i, e);
  }

  ghost predicate NamesExactly(request: seq<nat>, items: seq<nat>) {
    forall i :: i in request <==> i in items
  }

  /** A request that names exactly the members of an export finds that export. */
  lemma NamedExportIsReturned(s: State, e: nat, request: seq<nat>, unbilled: set<nat>)
    requires Inv(s) && e < |s.exports| && NamesExactly(request, s.exports[e].items)
    ensures Export(s, true, Some(request), unbilled) == Existing(e)
  {
    var x := s.exports[e];
    assert ExportInv(s.records, x, e);
    assert x.items[0] in request;
    NothingLeftToExport(s, e, request);
    MembersAreNamed(s, e, request);
    hide Selected, NamedExported, Key, Inv;
    var found := FindKey(s.exports, x.key, 0);
    assert found.Some?;
    KeysAreUnique(s, found.value, e);
  }

  lemma NothingLeftToExport(s: State, e: nat, request: seq<nat>)
    requires Inv(s) && e < |s.exports| && NamesExactly(request, s.exports[e].items)
    ensures Selected(s.records, Some(request)) == []
  {
    assert ExportInv(s.records, s.exports[e], e);
    hide Inv;
    var ids := Selected(s.records, Some(request));
    if ids != [] {
      MemberIsExported(s, e, ids[0]);
    }
  }

  lemma MemberIsExported(s: State, e: nat, i: nat)
    requires e < |s.exports| && ExportInv(s.records, s.exports[e], e) && i in s.exports[e].items
    ensures i < |s.records| && s.records[i].item.workflow.Exported?
  {
  }

  lemma MembersAreNamed(s: State, e: nat, request: seq<nat>)
    requires Inv(s) && e < |s.exports| && NamesExactly(request, s.exports[e].items)
    ensures var named := NamedExported(s.records, request);
            named == s.exports[e].items && |named| == |Elements(request)|
  {
    var x := s.exports[e];
    assert ExportInv(s.records, x, e);
    hide Inv;
    var named := NamedExported(s.records, request);
    forall i ensures i in named <==> i in x.items {
      if i in x.items {
        MemberIsExported(s, e, i);
      }
    }
    assert Elements(named) == Elements(x.items) == Elements(request);
    IncreasingUnique(named, x.items);
    IncreasingSize(named);
  }

  /** Conversely, a request answered with an export named exactly that export's members. */
  lemma ReturnedExportWasNamed(s: State, e: nat, request: seq<nat>, unbilled: set<nat>)
    requires Inv(s) && Export(s, true, Some(request), unbilled) == Existing(e)
    ensures e < |s.exports| && NamesExactly(request, s.exports[e].items)
  {
    if Selected(s.records, Some(request)) != [] {
      ReadyItemsHaveNoExport(s, Some(request));
    }
    var named := NamedExported(s.records, request);
    assert ExportInv(s.records, s.exports[e], e);
    hide Inv;
    SharedKeySharesItems(s.records, named, s.exports[e].items);
    SharedKeySharesItems(s.records, s.exports[e].items, named);
    EveryNameExported(s.records, request);
  }

  /** When as many exported items are named as there are distinct names, every name is exported. */
  lemma EveryNameExported(records: seq<Record>, request: seq<nat>)
    requires |NamedExported(records, request)| == |Elements(request)|
    ensures NamesExactly(request, NamedExported(records, request))
  {
    var named := NamedExported(records, request);
    IncreasingSize(named);
    forall i | i in Elements(named) ensures i in Elements(request) {
      var k :| 0 <= k < |named| && named[k] == i;
    }
    SubsetOfSameSize(Elements(named), Elements(request));
    forall i ensures i in request <==> i in named {
      assert i in Elements(request) <==> i in Elements(named);
    }
  }

  lemma {:induction false} SubsetOfSameSize(a: set<nat>, b: set<nat>)
    requires a <= b && |a| == |b|
    ensures a == b
  {
    assert |b - a| == |b| - |a|;
    assert b == a + (b - a);
  }

  /** The existing-export branch for items that are still ready can never be taken. */
  lemma ReadyItemsHaveNoExport(s: State, request: Option<seq<nat>>)
    requires Inv(s) && Selected(s.records, request) != []
    ensures FindKey(s.exports, Key(s.records, Selected(s.records, request)), 0).None?
  {
    var ids := Selected(s.records, request);
    var found := FindKey(s.exports, Key(s.records, ids), 0);
    if found.Some? {
      var e := found.value;
      assert ExportInv(s.records, s.exports[e], e);
      SharedKeySharesItems(s.records, ids, s.exports[e].items);
      MembershipIsReference(s, ids[0], e);
    }
  }

  /**
   Export replay: once a request exported exactly the set it named, every later request naming that
   set, in any order and with repetitions, after anything else has happened, returns that export
   and changes nothing.
   */
  lemma ExportReplay(
    s: State, first: seq<nat>, unbilled: set<nat>, actions: seq<Action>, again: seq<nat>, unbilledThen: set<nat>)
    requires Reachable(s)
    requires Export(s, true, Some(first), unbilled).Created?
    requires var o := Export(s, true, Some(first), unbilled);
             o.reference < |o.state.exports| && NamesExactly(first, o.state.exports[o.reference].items)
    requires NamesExactly(again, first)
    ensures var o := Export(s, true, Some(first), unbilled);
            var later := Run(o.state, actions);
            && Export(later, true, Some(again), unbilledThen) == Existing(o.reference)
            && AfterExport(later, Export(later, true, Some(again), unbilledThen)) == later
  {
    ReachableInv(s);
    ExportKeeps(s, true, Some(first), unbilled);
    var o := Export(s, true, Some(first), unbilled);
    RunExtends(o.state, actions);
    RunKeeps(o.state, actions);
    var later := Run(o.state, actions);
    assert later.exports[o.reference] == later.exports[..|o.state.exports|][o.reference];
    NamedExportIsReturned(later, o.reference, again, unbilledThen);
  }

  lemma {:induction false} SumNonNegative(s: seq<int>)
    requires forall k | 0 <= k < |s| :: s[k] >= 0
    ensures Sum(s) >= 0
  {
    if s != [] {
      SumNonNegative(s[..|s| - 1]);
    }
  }

  /** What the hand-off re-checks inside the ledger always holds of a selected item. */
  lemma SelectedIsSound(s: State, request: Option<seq<nat>>, i: nat)
    requires Inv(s) && i in Selected(s.records, request)
    ensures i < |s.records| && NoDuplicate(s, i) && Exportable(s.records[i].item)
    ensures Live(s.records[i].approvals, FinanceExportApproval) == {}
    ensures ReadyValue(s.records[i]) >= 0
  {
    var ids := Selected(s.records, request);
    var k :| 0 <= k < |ids| && ids[k] == i;
    assert RecordInv(s.records[i]) && Exportable(s.records[i].item);
    assert AmountsAllowed(s.records[i].snapshots[s.records[i].item.ready.value]);
    OpenItemIsNoDuplicate(s, i);
  }

  /** An export of ready items commits exactly when each still passes its checks in one currency. */
  lemma ExportCommitsIff(s: State, request: Option<seq<nat>>, unbilled: set<nat>)
    requires Inv(s) && Selected(s.records, request) != []
    ensures var ids := Selected(s.records, request);
            Export(s, true, request, unbilled).Created?
            <==> && (forall k | 0 <= k < |ids| :: ids[k] in unbilled && s.records[ids[k]].item.stage.NoInvoice?)
                 && |Currencies(s.records, ids)| <= 1
  {
    var ids := Selected(s.records, request);
    ReadyItemsHaveNoExport(s, request);
    ObjectionIff(s, request, unbilled);
    hide Inv, Objection, HandOffAll, NewExport;
  }

  lemma ObjectionIff(s: State, request: Option<seq<nat>>, unbilled: set<nat>)
    requires Inv(s)
    ensures var ids := Selected(s.records, request);
            Objection(s, ids, unbilled).None?
            <==> && (forall k | 0 <= k < |ids| :: ids[k] in unbilled && s.records[ids[k]].item.stage.NoInvoice?)
                 && |Currencies(s.records, ids)| <= 1
  {
    hide Inv, NoDuplicate, Live, Selected, Currencies, ReadyValue;
    var ids := Selected(s.records, request);
    forall k | 0 <= k < |ids|
      ensures NoDuplicate(s, ids[k]) && Exportable(s.records[ids[k]].item)
      ensures Live(s.records[ids[k]].approvals, FinanceExportApproval) == {}
      ensures ReadyValues(s.records, ids)[k] >= 0
    {
      SelectedIsSound(s, request, ids[k]);
    }
    SumNonNegative(ReadyValues(s.records, ids));
  }
}
