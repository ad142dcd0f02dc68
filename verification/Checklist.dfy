/** The ten-item evidence gate in front of an approval, re-read from current rows. */
module Checklist {
  import opened Common
  import opened Operations
  import opened UnbilledDetector
  import Ledger

  datatype Code =
    SourceIdAndServiceDate | CompletedStateAndTime | ActiveContract | ObligationAndCrosswalks | BillableFlag
  | AuthorizationWhenRequired | RateBasisAndAmount | CoverageAndNoInvoice | DuplicateCheck | FinanceApproval

  const CODES: seq<Code> := [
    SourceIdAndServiceDate, CompletedStateAndTime, ActiveContract, ObligationAndCrosswalks, BillableFlag,
    AuthorizationWhenRequired, RateBasisAndAmount, CoverageAndNoInvoice, DuplicateCheck, FinanceApproval]

  datatype Line = Line(code: Code, satisfied: bool)

  /** Canonical rows that a confirmed external reference names. */
  datatype Crosswalks = Crosswalks(customers: set<nat>, sites: set<nat>, contracts: set<nat>, obligations: set<nat>)

  /** What the checklist reads outside the ledger: current rows, crosswalks and the latest ready run. */
  datatype Present = Present(e: Evidence, crosswalks: Crosswalks, run: Option<Manifest>)

  predicate CrosswalksConfirmed(c: Crosswalks, w: WorkOrder) {
    && w.obligation.Some?
    && w.customer in c.customers && w.site in c.sites && w.contract.id in c.contracts
    && w.obligation.value.id in c.obligations
  }

  predicate UnbilledNow(p: Present, w: WorkOrder) {
    && p.run.Some?
    && var dates := ServiceDates(p.e.calendar, w);
    && dates.Some?
    && CoverageProvesAbsence(p.e.calendar, p.run.value, w, dates.value.candidates)
    && !InvoiceExists(p.e.invoices, w, dates.value.candidates)
  }

  /** One item of the checklist for the recovery item at position i and its case's service date. */
  predicate Passes(code: Code, p: Present, w: WorkOrder, serviceDate: int, s: Ledger.State, i: nat, finance: bool)
    requires i < |s.records|
  {
    match code
    case SourceIdAndServiceDate => w.id in p.e.mapped
    case CompletedStateAndTime => w.status.Completed? && w.completedAt.Some?
    case ActiveContract => ActiveOn(w.contract, serviceDate)
    case ObligationAndCrosswalks => CrosswalksConfirmed(p.crosswalks, w)
    case BillableFlag => w.billable
    case AuthorizationWhenRequired => w.obligation.Some? && HasAuthorization(w, w.obligation.value)
    case RateBasisAndAmount => Ledger.BasisSupported(s.records[i])
    case CoverageAndNoInvoice => UnbilledNow(p, w)
    case DuplicateCheck => Ledger.NoDuplicate(s, i)
    case FinanceApproval => finance
  }

  /** The items an approval takes from outside the ledger. */
  predicate Facts(p: Present, w: WorkOrder, serviceDate: int) {
    && w.id in p.e.mapped
    && w.status.Completed? && w.completedAt.Some?
    && ActiveOn(w.contract, serviceDate)
    && CrosswalksConfirmed(p.crosswalks, w)
    && w.billable
    && HasAuthorization(w, w.obligation.value)
    && UnbilledNow(p, w)
  }

  predicate Complete(lines: seq<Line>) {
    forall line <- lines :: line.satisfied
  }

  function Position(code: Code): (k: nat)
    ensures k < |CODES| && CODES[k] == code
  {
    match code
    case SourceIdAndServiceDate => 0
    case CompletedStateAndTime => 1
    case ActiveContract => 2
    case ObligationAndCrosswalks => 3
    case BillableFlag => 4
    case AuthorizationWhenRequired => 5
    case RateBasisAndAmount => 6
    case CoverageAndNoInvoice => 7
    case DuplicateCheck => 8
    case FinanceApproval => 9
  }

  function LineFor(code: Code, p: Present, w: WorkOrder, serviceDate: int, s: Ledger.State, i: nat, finance: bool): Line
    requires i < |s.records|
  {
    Line(code, Passes(code, p, w, serviceDate, s, i, finance))
  }

  /** The ten items, in checklist order. */
  function LinesFor(p: Present, w: WorkOrder, serviceDate: int, s: Ledger.State, i: nat, finance: bool): seq<Line>
    requires i < |s.records|
  {
    [LineFor(SourceIdAndServiceDate, p, w, serviceDate, s, i, finance)]
    + [LineFor(CompletedStateAndTime, p, w, serviceDate, s, i, finance)]
    + [LineFor(ActiveContract, p, w, serviceDate, s, i, finance)]
    + [LineFor(ObligationAndCrosswalks, p, w, serviceDate, s, i, finance)]
    + [LineFor(BillableFlag, p, w, serviceDate, s, i, finance)]
    + [LineFor(AuthorizationWhenRequired, p, w, serviceDate, s, i, finance)]
    + [LineFor(RateBasisAndAmount, p, w, serviceDate, s, i, finance)]
    + [LineFor(CoverageAndNoInvoice, p, w, serviceDate, s, i, finance)]
    + [LineFor(DuplicateCheck, p, w, serviceDate, s, i, finance)]
    + [LineFor(FinanceApproval, p, w, serviceDate, s, i, finance)]
  }

  lemma LinesAt(p: Present, w: WorkOrder, serviceDate: int, s: Ledger.State, i: nat, finance: bool, k: nat)
    requires i < |s.records| && k < |CODES|
    ensures var lines := LinesFor(p, w, serviceDate, s, i, finance);
            |lines| == |CODES| && lines[k] == LineFor(CODES[k], p, w, serviceDate, s, i, finance)
  {
    hide Passes;
  }

  /** Build the checklist; None when the work order carries no date at all, which raises. */
  method Evaluate(p: Present, w: WorkOrder, serviceDate: int, s: Ledger.State, i: nat, finance: bool)
    returns (checklist: Option<seq<Line>>)
    requires i < |s.records|
    ensures checklist == if p.run.Some? && w.scheduledAt.None? && w.completedAt.None? then None
                         else Some(LinesFor(p, w, serviceDate, s, i, finance))
  {
    hide HasAuthorization, ActiveOn, CrosswalksConfirmed, UnbilledNow, Ledger.NoDuplicate, Ledger.BasisSupported;
    var lines := [Line(SourceIdAndServiceDate, w.id in p.e.mapped)];
    lines := lines + [Line(CompletedStateAndTime, w.status == Completed && w.completedAt != None)];
    lines := lines + [Line(ActiveContract, ActiveOn(w.contract, serviceDate))];
    lines := lines + [Line(ObligationAndCrosswalks, CrosswalksConfirmed(p.crosswalks, w))];
    lines := lines + [Line(BillableFlag, w.billable)];
    var authorized := w.obligation != None && HasAuthorization(w, w.obligation.value);
    lines := lines + [Line(AuthorizationWhenRequired, authorized)];
    lines := lines + [Line(RateBasisAndAmount, Ledger.BasisSupported(s.records[i]))];
    var unbilled := Unbilled(p, w);
    if unbilled == None {
      return None;
    }
    lines := lines + [Line(CoverageAndNoInvoice, unbilled.value)];
    lines := lines + [Line(DuplicateCheck, Ledger.NoDuplicate(s, i))];
    lines := lines + [Line(FinanceApproval, finance)];
    return Some(lines);
  }

  /** Item 8: re-evaluated against current rows; None when no date can be told. */
  method Unbilled(p: Present, w: WorkOrder) returns (unbilled: Option<bool>)
    ensures unbilled == if p.run.Some? && w.scheduledAt.None? && w.completedAt.None? then None
                        else Some(UnbilledNow(p, w))
  {
    var coverageProven, invoiceAbsent := false, false;
    if p.run != None {
      var dates := ServiceDates(p.e.calendar, w);
      if dates == None {
        return None;
      }
      coverageProven := ProvesAbsence(p.e.calendar, p.run.value, w, dates.value.candidates);
      invoiceAbsent := !InvoiceExists(p.e.invoices, w, dates.value.candidates);
    }
    return Some(coverageProven && invoiceAbsent);
  }

  /** Every item passes exactly when the outside facts, the value, the duplicate check and the approver do. */
  lemma CompleteMeans(p: Present, w: WorkOrder, serviceDate: int, s: Ledger.State, i: nat, finance: bool)
    requires i < |s.records|
    ensures Complete(LinesFor(p, w, serviceDate, s, i, finance))
       <==> Facts(p, w, serviceDate) && Ledger.BasisSupported(s.records[i]) && Ledger.NoDuplicate(s, i) && finance
  {
    var lines := LinesFor(p, w, serviceDate, s, i, finance);
    forall k | 0 <= k < |CODES|
      ensures |lines| == |CODES| && lines[k] == LineFor(CODES[k], p, w, serviceDate, s, i, finance)
    {
      LinesAt(p, w, serviceDate, s, i, finance, k);
    }
    EveryCodeMeans(p, w, serviceDate, s, i, finance);
    hide LinesFor, Passes, Facts, Ledger.NoDuplicate, Ledger.BasisSupported;
    if Complete(lines) {
      forall code: Code ensures Passes(code, p, w, serviceDate, s, i, finance) {
        assert lines[Position(code)] in lines;
      }
    }
  }

  lemma EveryCodeMeans(p: Present, w: WorkOrder, serviceDate: int, s: Ledger.State, i: nat, finance: bool)
    requires i < |s.records|
    ensures (forall code: Code :: Passes(code, p, w, serviceDate, s, i, finance))
       <==> Facts(p, w, serviceDate) && Ledger.BasisSupported(s.records[i]) && Ledger.NoDuplicate(s, i) && finance
  {
    CrosswalksNeedObligation(p.crosswalks, w);
    hide CrosswalksConfirmed, HasAuthorization, ActiveOn, UnbilledNow, Ledger.NoDuplicate, Ledger.BasisSupported;
    if forall code: Code :: Passes(code, p, w, serviceDate, s, i, finance) {
      assert Passes(SourceIdAndServiceDate, p, w, serviceDate, s, i, finance);
      assert Passes(CompletedStateAndTime, p, w, serviceDate, s, i, finance);
      assert Passes(ActiveContract, p, w, serviceDate, s, i, finance);
      assert Passes(ObligationAndCrosswalks, p, w, serviceDate, s, i, finance);
      assert Passes(BillableFlag, p, w, serviceDate, s, i, finance);
      assert Passes(AuthorizationWhenRequired, p, w, serviceDate, s, i, finance);
      assert Passes(RateBasisAndAmount, p, w, serviceDate, s, i, finance);
      assert Passes(CoverageAndNoInvoice, p, w, serviceDate, s, i, finance);
      assert Passes(DuplicateCheck, p, w, serviceDate, s, i, finance);
      assert Passes(FinanceApproval, p, w, serviceDate, s, i, finance);
    }
  }

  lemma CrosswalksNeedObligation(c: Crosswalks, w: WorkOrder)
    ensures CrosswalksConfirmed(c, w) ==> w.obligation.Some?
  {
  }
}
