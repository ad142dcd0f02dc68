/** From the detector to the finance file: all exported money was detected, and is exported as it was detected. */
module MoneyTrail {
  import opened Common
  import opened Detection
  import opened Cases
  import opened CaseInvariant
  import opened CaseRuns
  import CaseHistory
  import Ledger
  import LedgerInvariant
  import LedgerRuns
  import Poison
  import Provenance

  /** A persisted match for the work order on the date, with this value, priced in this currency. */
  predicate Found(a: Action, workOrder: nat, serviceDate: int, value: Money, currency: Currency) {
    && a.PersistAsked?
    && exists r <- a.output.results ::
         && r.subject == workOrder && r.verdict.Matched? && r.verdict.finding.serviceDate == serviceDate
         && r.verdict.finding.financial.Some?
         && r.verdict.finding.financial.value.candidateValue == Some(value)
         && currency == if workOrder in a.currencies then a.currencies[workOrder] else "USD"
  }

  /**
   Over any run of the desk, every member of every export belongs to a case, and some persisted detector run matched
   that case's work order on that case's date with exactly the exported value, at a time when the work order's contract
   was in the export's currency.
   */
  lemma ExportedMoneyWasDetected(actions: seq<Action>, e: nat, i: nat)
    requires e < |Run(EMPTY_DESK, actions).ledger.exports|
    requires i in Run(EMPTY_DESK, actions).ledger.exports[e].items
    ensures var d := Run(EMPTY_DESK, actions);
            && i < |d.ledger.records| && d.ledger.records[i].caseId < |d.cases|
            && var r := d.ledger.records[i];
               exists a <- actions ::
                 Found(a, r.workOrder, d.cases[r.caseId].serviceDate, Ledger.ReadyValue(r),
                       d.ledger.exports[e].currency)
  {
    var d := Run(EMPTY_DESK, actions);
    assert Reachable(d);
    Poison.DeskCarriesReachableLedger(d);
    LedgerInvariant.EmptyInv();
    var steps := Poison.RunAsLedgerRun(EMPTY_DESK, actions);
    hide Run, Reachable, DeskInv, LedgerRuns.Run;
    Provenance.ExportCarriesRecordedTerms(steps, e, i);
    hide Provenance.RecordedBy, Provenance.ApprovedFrom;
    TraceIsDetected(d, actions, steps, e, i);
  }

  lemma TraceIsDetected(d: Desk, actions: seq<Action>, steps: seq<LedgerRuns.Action>, e: nat, i: nat)
    requires e < |d.ledger.exports| && Provenance.PaidAsRecorded(steps, d.ledger, d.ledger.exports[e], i)
    requires forall b <- steps :: b.CandidateRecorded? ==> Poison.DetectedBy(b, d.cases, actions)
    requires forall k | 0 <= k < |d.ledger.records| ::
               d.ledger.records[k].caseId < |d.cases|
               && d.ledger.records[k].workOrder == d.cases[d.ledger.records[k].caseId].workOrder
    ensures var r := d.ledger.records[i];
            exists a <- actions ::
              Found(a, r.workOrder, d.cases[r.caseId].serviceDate, Ledger.ReadyValue(r), d.ledger.exports[e].currency)
  {
    var r, x := d.ledger.records[i], d.ledger.exports[e];
    hide Ledger.ReadyValue;
    var b :| b in steps && b.CandidateRecorded? && b.caseId == r.caseId
             && b.currency == x.currency && b.inputs.candidateValue == Some(Ledger.ReadyValue(r))
             && !b.inputs.basis.ManualAmountRequired?;
    var a :| a in actions && Poison.Detected(b, d.cases, a);
    var m :| m in a.output.results && Poison.RecordsMatch(b, d.cases, m, a.currencies);
    assert Found(a, r.workOrder, d.cases[r.caseId].serviceDate, Ledger.ReadyValue(r), x.currency);
  }
}
