/** Where exported money comes from: every snapshot, approved or not, carries the terms some detector run recorded. */
module Provenance {
  import opened Accounting
  import opened Common
  import opened Ledger
  import opened LedgerInvariant
  import opened LedgerRuns
  import LedgerDecisions

  // ---------------------------------------------------------------- what was recorded

  /** One of the actions recorded these terms as a candidate of the case. */
  predicate RecordedBy(actions: seq<Action>, caseId: nat, s: Snapshot) {
    exists a <- actions ::
      && a.CandidateRecorded? && a.caseId == caseId
      && a.currency == s.currency && a.calculationVersion == s.calculationVersion
      && a.inputs.basis == s.basis && a.inputs.candidateValue == s.candidateValue
  }

  /** A snapshot approved from an earlier one repeats its terms and invoices its value. */
  predicate ApprovedFrom(snapshots: seq<Snapshot>, k: nat, c: nat)
    requires k < |snapshots|
  {
    && c < k && snapshots[c].invoiceReadyValue.None?
    && snapshots[k].currency == snapshots[c].currency
    && snapshots[k].calculationVersion == snapshots[c].calculationVersion
    && snapshots[k].basis == snapshots[c].basis
    && snapshots[k].candidateValue == snapshots[c].candidateValue == snapshots[k].invoiceReadyValue
    && snapshots[k].assumptions == snapshots[c].assumptions["approved_from_snapshot" := Number(c + 1)]
  }

  predicate SnapshotTraced(actions: seq<Action>, r: Record, k: nat)
    requires k < |r.snapshots|
  {
    && RecordedBy(actions, r.caseId, r.snapshots[k])
    && (r.snapshots[k].invoiceReadyValue.Some? ==> exists c: nat :: c < k && ApprovedFrom(r.snapshots, k, c))
  }

  /** Snapshots are traced, the candidate is one that was recorded, and the ready one was approved. */
  predicate Traced(actions: seq<Action>, r: Record) {
    && (forall k | 0 <= k < |r.snapshots| :: SnapshotTraced(actions, r, k))
    && r.item.candidate.Some? && r.item.candidate.value < |r.snapshots|
    && r.snapshots[r.item.candidate.value].invoiceReadyValue.None?
  }

  predicate AllTraced(actions: seq<Action>, s: State) {
    forall i | 0 <= i < |s.records| :: Traced(actions, s.records[i])
  }

  // ---------------------------------------------------------------- every step keeps it

  /** More history and the same snapshots. */
  lemma TracedStays(actions: seq<Action>, a: Action, r: Record, r': Record)
    requires Traced(actions, r)
    requires r'.caseId == r.caseId && r'.snapshots == r.snapshots && r'.item.candidate == r.item.candidate
    ensures Traced(actions + [a], r')
  {
    forall k | 0 <= k < |r'.snapshots| ensures SnapshotTraced(actions + [a], r', k) {
      assert SnapshotTraced(actions, r, k);
      RecordedStays(actions, a, r.caseId, r.snapshots[k]);
      hide RecordedBy;
    }
  }

  lemma RecordedStays(actions: seq<Action>, a: Action, caseId: nat, s: Snapshot)
    requires RecordedBy(actions, caseId, s)
    ensures RecordedBy(actions + [a], caseId, s)
  {
    var b :| b in actions && b.CandidateRecorded? && b.caseId == caseId && b.currency == s.currency
             && b.calculationVersion == s.calculationVersion
             && b.inputs.basis == s.basis && b.inputs.candidateValue == s.candidateValue;
    assert b in actions + [a];
  }

  /** One more snapshot, traced itself. */
  lemma TracedAppends(actions: seq<Action>, a: Action, r: Record, r': Record, s: Snapshot)
    requires Traced(actions, r)
    requires r'.caseId == r.caseId && r'.snapshots == r.snapshots + [s]
    requires RecordedBy(actions + [a], r.caseId, s)
    requires s.invoiceReadyValue.Some? ==>
               exists c: nat :: c < |r.snapshots| && ApprovedFrom(r'.snapshots, |r.snapshots|, c)
    requires r'.item.candidate == if s.invoiceReadyValue.None? then Some(|r.snapshots|) else r.item.candidate
    ensures Traced(actions + [a], r')
  {
    forall k | 0 <= k < |r'.snapshots| ensures SnapshotTraced(actions + [a], r', k) {
      if k < |r.snapshots| {
        assert SnapshotTraced(actions, r, k) && r'.snapshots[k] == r.snapshots[k];
        RecordedStays(actions, a, r.caseId, r.snapshots[k]);
        if r.snapshots[k].invoiceReadyValue.Some? {
          var c: nat :| c < k && ApprovedFrom(r.snapshots, k, c);
          assert ApprovedFrom(r'.snapshots, k, c);
        }
      }
      hide RecordedBy;
    }
  }

  lemma CandidateStep(actions: seq<Action>, s: State, a: Action)
    requires Inv(s) && AllTraced(actions, s) && a.CandidateRecorded?
    ensures AllTraced(actions + [a], Step(s, a))
  {
    hide Inv, Step, Traced;
    var t := Step(s, a);
    FirstShape(s, a);
    forall i | 0 <= i < |t.records| ensures Traced(actions + [a], t.records[i]) {
      if i < |s.records| {
        assert Traced(actions, s.records[i]);
        CandidateShape(s, a, i);
        if t.records[i].snapshots == s.records[i].snapshots {
          TracedStays(actions, a, s.records[i], t.records[i]);
        } else {
          RecordedLast(actions, a, s.records[i].caseId, t.records[i].snapshots[|s.records[i].snapshots|]);
          hide RecordedBy;
          TracedAppends(actions, a, s.records[i], t.records[i], t.records[i].snapshots[|s.records[i].snapshots|]);
        }
      } else {
        FirstTraced(actions, a, t.records[i]);
      }
    }
  }

  lemma RecordedLast(actions: seq<Action>, a: Action, caseId: nat, s: Snapshot)
    requires a.CandidateRecorded? && a.caseId == caseId && Terms(a, s)
    ensures RecordedBy(actions + [a], caseId, s)
  {
    assert a in actions + [a];
  }

  lemma FirstTraced(actions: seq<Action>, a: Action, r: Record)
    requires a.CandidateRecorded? && r.caseId == a.caseId && |r.snapshots| == 1
    requires Terms(a, r.snapshots[0]) && r.item.candidate == Some(0)
    ensures Traced(actions + [a], r)
  {
    RecordedLast(actions, a, r.caseId, r.snapshots[0]);
    hide RecordedBy;
  }

  /** The terms of an action, as a snapshot carries them. */
  predicate Terms(a: Action, s: Snapshot)
    requires a.CandidateRecorded?
  {
    && s.currency == a.currency && s.calculationVersion == a.calculationVersion
    && s.basis == a.inputs.basis && s.candidateValue == a.inputs.candidateValue && s.invoiceReadyValue.None?
  }

  lemma CandidateShape(s: State, a: Action, i: nat)
    requires Inv(s) && a.CandidateRecorded? && i < |s.records|
    ensures i < |Step(s, a).records|
    ensures var r, r' := s.records[i], Step(s, a).records[i];
            && r'.caseId == r.caseId
            && if r'.snapshots == r.snapshots then r'.item.candidate == r.item.candidate
               else
                 && r.caseId == a.caseId && |r'.snapshots| == |r.snapshots| + 1
                 && r'.snapshots == r.snapshots + [r'.snapshots[|r.snapshots|]]
                 && Terms(a, r'.snapshots[|r.snapshots|]) && r'.item.candidate == Some(|r.snapshots|)
  {
    hide Inv, RecordCandidate, FindCase;
    var found := FindCase(s.records, a.caseId);
    if found.Some? {
      LedgerDecisions.CandidateAppendedIff(
        s, found.value, a.workOrder, a.currency, a.calculationVersion, a.inputs);
    } else {
      FirstShape(s, a);
    }
  }

  lemma FirstShape(s: State, a: Action)
    requires Inv(s) && a.CandidateRecorded?
    ensures var t := Step(s, a);
            && |s.records| <= |t.records|
            && (FindCase(s.records, a.caseId).None? ==> t.records[..|s.records|] == s.records)
            && forall i | |s.records| <= i < |t.records| ::
                 && t.records[i].caseId == a.caseId && |t.records[i].snapshots| == 1
                 && Terms(a, t.records[i].snapshots[0]) && t.records[i].item.candidate == Some(0)
  {
    hide Inv, RecordCandidate, FindCase;
    var found := FindCase(s.records, a.caseId);
    if found.None? {
      LedgerDecisions.FirstCandidateIff(s, a.caseId, a.workOrder, a.currency, a.calculationVersion, a.inputs);
    } else {
      LedgerDecisions.CandidateAppendedIff(
        s, found.value, a.workOrder, a.currency, a.calculationVersion, a.inputs);
    }
  }

  lemma ApprovalStep(actions: seq<Action>, s: State, a: Action)
    requires Inv(s) && AllTraced(actions, s) && a.ApprovalAsked?
    ensures AllTraced(actions + [a], Step(s, a))
  {
    var t := Step(s, a);
    var approved := Approve(s, a.item, a.mayAct, a.expectedVersion, a.facts).Committed?;
    if approved {
      LedgerDecisions.ApprovalCopiesTerms(s, a.item, a.mayAct, a.expectedVersion, a.facts);
    }
    hide Approve;
    forall i | 0 <= i < |t.records| ensures Traced(actions + [a], t.records[i]) {
      assert Traced(actions, s.records[i]);
      if approved && i == a.item {
        ApprovedTraced(actions, s, a);
      } else {
        TracedStays(actions, a, s.records[i], t.records[i]);
      }
    }
  }

  lemma ApprovedTraced(actions: seq<Action>, s: State, a: Action)
    requires Inv(s) && AllTraced(actions, s) && a.ApprovalAsked?
    requires Approve(s, a.item, a.mayAct, a.expectedVersion, a.facts).Committed?
    ensures Traced(actions + [a], Step(s, a).records[a.item])
  {
    LedgerDecisions.ApprovalCopiesTerms(s, a.item, a.mayAct, a.expectedVersion, a.facts);
    var r, r' := s.records[a.item], Step(s, a).records[a.item];
    var c, k := r.item.candidate.value, |r.snapshots|;
    assert Traced(actions, r) && SnapshotTraced(actions, r, c);
    assert RecordInv(r);
    RecordedStays(actions, a, r.caseId, r.snapshots[c]);
    assert r'.caseId == r.caseId;
    assert r.snapshots[c].version == c + 1;
    assert ApprovedFrom(r'.snapshots, k, c);
    hide Approve, Inv, RecordInv, ApprovedFrom;
    SameTerms(actions + [a], r.caseId, r.snapshots[c], r'.snapshots[k]);
    TracedAppends(actions, a, r, r', r'.snapshots[k]);
  }

  lemma SameTerms(actions: seq<Action>, caseId: nat, s: Snapshot, t: Snapshot)
    requires RecordedBy(actions, caseId, s)
    requires t.currency == s.currency && t.calculationVersion == s.calculationVersion
    requires t.basis == s.basis && t.candidateValue == s.candidateValue
    ensures RecordedBy(actions, caseId, t)
  {
  }

  /** The other operations add no snapshot and leave the candidate where it is. */
  lemma QuietShape(s: State, a: Action, i: nat)
    requires !a.CandidateRecorded? && !a.ApprovalAsked? && i < |s.records|
    ensures i < |Step(s, a).records| == |s.records|
    ensures var r, r' := s.records[i], Step(s, a).records[i];
            r'.caseId == r.caseId && r'.snapshots == r.snapshots && r'.item.candidate == r.item.candidate
  {
    hide Step;
    if a.ExportAsked? {
      ExportShape(s, a, i);
    } else if a.RevocationAsked? {
      RevocationShape(s, a, i);
    } else {
      BooksShape(s, a, i);
    }
  }

  lemma BooksShape(s: State, a: Action, i: nat)
    requires (a.BooksRefreshed? || a.DisputeSettled?) && i < |s.records|
    ensures i < |Step(s, a).records| == |s.records|
    ensures var r, r' := s.records[i], Step(s, a).records[i];
            r'.caseId == r.caseId && r'.snapshots == r.snapshots && r'.item.candidate == r.item.candidate
  {
    hide Refreshed, Settled;
    BooksLeaveSnapshots(s.records[i], a.scope, a.books);
  }

  lemma ExportShape(s: State, a: Action, i: nat)
    requires a.ExportAsked? && i < |s.records|
    ensures i < |Step(s, a).records| == |s.records|
    ensures var r, r' := s.records[i], Step(s, a).records[i];
            r'.caseId == r.caseId && r'.snapshots == r.snapshots && r'.item.candidate == r.item.candidate
  {
    hide HandOffAll, Objection, NewExport, Key;
    if Export(s, a.mayAct, a.request, a.unbilled).Created? {
      HandOffPointwise(s.records, Selected(s.records, a.request), |s.exports|);
    }
  }

  lemma RevocationShape(s: State, a: Action, i: nat)
    requires a.RevocationAsked? && i < |s.records|
    ensures i < |Step(s, a).records| == |s.records|
    ensures var r, r' := s.records[i], Step(s, a).records[i];
            r'.caseId == r.caseId && r'.snapshots == r.snapshots && r'.item.candidate == r.item.candidate
  {
    hide WithdrawLive, InSomeExport;
  }

  lemma BooksLeaveSnapshots(r: Record, scope: Scope, books: Books)
    ensures Refreshed(r, scope, books).caseId == r.caseId && Settled(r).caseId == r.caseId
    ensures Refreshed(r, scope, books).snapshots == r.snapshots && Settled(r).snapshots == r.snapshots
    ensures Refreshed(r, scope, books).item.candidate == r.item.candidate
    ensures Settled(r).item.candidate == r.item.candidate
    ensures Refreshed(Settled(r), scope, books).caseId == r.caseId
    ensures Refreshed(Settled(r), scope, books).snapshots == r.snapshots
    ensures Refreshed(Settled(r), scope, books).item.candidate == r.item.candidate
  {
    hide DeriveFor;
  }

  lemma TraceStep(actions: seq<Action>, s: State, a: Action)
    requires Inv(s) && AllTraced(actions, s)
    ensures AllTraced(actions + [a], Step(s, a))
  {
    if a.CandidateRecorded? {
      CandidateStep(actions, s, a);
    } else if a.ApprovalAsked? {
      ApprovalStep(actions, s, a);
    } else {
      hide Step, Inv, Traced;
      forall i | 0 <= i < |s.records| ensures i < |Step(s, a).records| && Traced(actions + [a], Step(s, a).records[i]) {
        QuietShape(s, a, i);
        TracedStays(actions, a, s.records[i], Step(s, a).records[i]);
      }
      if s.records == [] {
        QuietFromNothing(s, a);
      } else {
        QuietShape(s, a, 0);
      }
    }
  }

  lemma QuietFromNothing(s: State, a: Action)
    requires !a.CandidateRecorded? && !a.ApprovalAsked? && s.records == []
    ensures Step(s, a).records == []
  {
    hide Objection, NewExport, Key;
  }

  lemma {:induction false} TraceRun(before: seq<Action>, s: State, actions: seq<Action>)
    requires Inv(s) && AllTraced(before, s)
    ensures AllTraced(before + actions, Run(s, actions))
    decreases |actions|
  {
    hide Inv, Step, AllTraced;
    if actions == [] {
      assert before + actions == before;
    } else {
      TraceStep(before, s, actions[0]);
      StepKeeps(s, actions[0]);
      TraceRun(before + [actions[0]], Step(s, actions[0]), actions[1..]);
      assert before + [actions[0]] + actions[1..] == before + actions;
    }
  }

  // ---------------------------------------------------------------- theorems

  /** The terms on which an exported item's money was recorded. */
  predicate PaidAsRecorded(actions: seq<Action>, s: State, x: FinanceExport, i: nat) {
    && i < |s.records|
    && var r := s.records[i];
       exists a <- actions ::
         && a.CandidateRecorded? && a.caseId == r.caseId
         && a.currency == x.currency && a.inputs.candidateValue == Some(ReadyValue(r))
         && !a.inputs.basis.ManualAmountRequired?
  }

  /**
   Over any run, every member of every export was approved from a candidate of its case, and is exported in the
   currency, with the value and on the basis under which that candidate had been recorded.
   */
  lemma ExportCarriesRecordedTerms(actions: seq<Action>, e: nat, i: nat)
    requires e < |Run(EMPTY, actions).exports| && i in Run(EMPTY, actions).exports[e].items
    ensures var s := Run(EMPTY, actions);
            && i < |s.records| && PaidAsRecorded(actions, s, s.exports[e], i)
            && var r := s.records[i];
               && r.item.ready.Some? && r.item.ready.value < |r.snapshots|
               && exists c: nat :: c < r.item.ready.value && ApprovedFrom(r.snapshots, r.item.ready.value, c)
                                && RecordedBy(actions, r.caseId, r.snapshots[c])
                                && r.snapshots[c].currency == s.exports[e].currency
  {
    var s := Run(EMPTY, actions);
    EmptyInv();
    RunKeeps(EMPTY, actions);
    TraceRun([], EMPTY, actions);
    assert [] + actions == actions;
    hide Run;
    ReadyIsTraced(actions, s, e, i);
  }

  lemma ReadyIsTraced(actions: seq<Action>, s: State, e: nat, i: nat)
    requires Inv(s) && AllTraced(actions, s) && e < |s.exports| && i in s.exports[e].items
    ensures i < |s.records| && PaidAsRecorded(actions, s, s.exports[e], i)
    ensures var r := s.records[i];
            && r.item.ready.Some? && r.item.ready.value < |r.snapshots|
            && exists c: nat :: c < r.item.ready.value && ApprovedFrom(r.snapshots, r.item.ready.value, c)
                             && RecordedBy(actions, r.caseId, r.snapshots[c])
                             && r.snapshots[c].currency == s.exports[e].currency
  {
    assert ExportInv(s.records, s.exports[e], e);
    var r := s.records[i];
    assert RecordInv(r) && Traced(actions, r);
    var k := r.item.ready.value;
    assert ReadyCurrency(r) == Some(s.exports[e].currency);
    assert SnapshotTraced(actions, r, k) && AmountsAllowed(r.snapshots[k]);
    hide Inv, ExportInv, RecordInv;
    var c: nat :| c < k && ApprovedFrom(r.snapshots, k, c);
    assert SnapshotTraced(actions, r, c);
  }
}
