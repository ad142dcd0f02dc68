/** The detector and the checklist read the same facts, and agree on what a committed run recorded. */
module Agreement {
  import opened Common
  import opened Detection
  import opened Operations
  import opened UnbilledDetector
  import opened Checklist
  import opened Cases
  import Accounting
  import CaseInvariant
  import CaseHistory
  import CaseRuns
  import DetectorLaws
  import Ledger
  import LedgerDecisions
  import LedgerInvariant
  import LedgerRuns
  import Poison
  import UnbilledRule

  // ---------------------------------------------------------------- the current candidate

  const APPROVED_FROM := "approved_from_snapshot"

  /** Everything newer than the current candidate was minted by an approval. */
  predicate CandidateCurrent(r: Ledger.Record) {
    r.item.candidate.Some? ==>
      forall k | r.item.candidate.value < k < |r.snapshots| :: APPROVED_FROM in r.snapshots[k].assumptions
  }

  predicate CandidatesCurrent(s: Ledger.State) {
    forall i | 0 <= i < |s.records| :: CandidateCurrent(s.records[i])
  }

  lemma RefreshedKeepsSnapshots(r: Ledger.Record, scope: Accounting.Scope, books: Accounting.Books)
    ensures var r' := Ledger.Refreshed(r, scope, books);
            r'.snapshots == r.snapshots && r'.item.candidate == r.item.candidate
  {
  }

  lemma StepKeepsCurrent(s: Ledger.State, a: LedgerRuns.Action)
    requires CandidatesCurrent(s)
    ensures CandidatesCurrent(LedgerRuns.Step(s, a))
  {
    var s' := LedgerRuns.Step(s, a);
    match a
    case CandidateRecorded(c, w, currency, v, f) => RecordedCurrent(s, c, w, currency, v, f);
    case ApprovalAsked(i, mayAct, v, facts) => ApprovedCurrent(s, i, mayAct, v, facts);
    case RevocationAsked(i, mayAct, v, given) =>
    case ExportAsked(mayAct, request, unbilled) => ExportedCurrent(s, mayAct, request, unbilled);
    case BooksRefreshed(i, scope, books) => RefreshedCurrent(s, i, scope, books);
    case DisputeSettled(i, mayAct, given, scope, books) => RefreshedCurrent(s, i, scope, books);
  }

  lemma ExportedCurrent(s: Ledger.State, mayAct: bool, request: Option<seq<nat>>, unbilled: set<nat>)
    requires CandidatesCurrent(s)
    ensures CandidatesCurrent(Ledger.AfterExport(s, Ledger.Export(s, mayAct, request, unbilled)))
  {
    if Ledger.Export(s, mayAct, request, unbilled).Created? {
      LedgerInvariant.HandOffPointwise(s.records, Ledger.Selected(s.records, request), |s.exports|);
      hide Ledger.Selected, Ledger.Objection, Ledger.NewExport, Ledger.HandOffAll;
    }
  }

  lemma RefreshedCurrent(s: Ledger.State, i: nat, scope: Accounting.Scope, books: Accounting.Books)
    requires CandidatesCurrent(s)
    ensures i < |s.records| ==>
              CandidatesCurrent(s.(records := s.records[i := Ledger.Refreshed(s.records[i], scope, books)]))
              && CandidatesCurrent(
                   s.(records := s.records[i := Ledger.Refreshed(Ledger.Settled(s.records[i]), scope, books)]))
  {
    if i < |s.records| {
      RefreshedKeepsSnapshots(s.records[i], scope, books);
      RefreshedKeepsSnapshots(Ledger.Settled(s.records[i]), scope, books);
      assert CandidateCurrent(s.records[i]);
    }
    hide Ledger.Refreshed;
  }

  lemma RecordedCurrent(
    s: Ledger.State, c: nat, w: nat, currency: Currency, v: nat, f: Ledger.FinancialInputs)
    requires CandidatesCurrent(s)
    ensures CandidatesCurrent(Ledger.After(s, Ledger.RecordCandidate(s, c, w, currency, v, f)))
  {
  }

  lemma ApprovedCurrent(s: Ledger.State, i: nat, mayAct: bool, v: nat, facts: bool)
    requires CandidatesCurrent(s)
    ensures CandidatesCurrent(Ledger.After(s, Ledger.Approve(s, i, mayAct, v, facts)))
  {
    if Ledger.Approve(s, i, mayAct, v, facts).Committed? {
      assert CandidateCurrent(s.records[i]);
      assert CandidateCurrent(Ledger.Approved(s.records[i]));
    }
  }

  lemma {:induction false} RunKeepsCurrent(s: Ledger.State, actions: seq<LedgerRuns.Action>)
    requires CandidatesCurrent(s)
    ensures CandidatesCurrent(LedgerRuns.Run(s, actions))
    decreases |actions|
  {
    hide LedgerRuns.Step, CandidatesCurrent;
    if actions != [] {
      StepKeepsCurrent(s, actions[0]);
      RunKeepsCurrent(LedgerRuns.Step(s, actions[0]), actions[1..]);
    }
  }

  lemma ReachableIsCurrent(s: Ledger.State)
    requires LedgerRuns.Reachable(s)
    ensures CandidatesCurrent(s)
  {
    var actions :| s == LedgerRuns.Run(Ledger.EMPTY, actions);
    RunKeepsCurrent(Ledger.EMPTY, actions);
  }

  // ---------------------------------------------------------------- what a persist records

  /** The record's current candidate carries exactly these inputs. */
  predicate Says(r: Ledger.Record, f: Ledger.FinancialInputs) {
    && r.item.candidate.Some? && r.item.candidate.value < |r.snapshots|
    && Ledger.SameInputs(r.snapshots[r.item.candidate.value], CALCULATION_VERSION, f)
  }

  predicate RecordFor(d: Desk, i: nat, r: DetectionResult)
    requires i < |d.ledger.records|
  {
    var record := d.ledger.records[i];
    && r.verdict.Matched? && r.verdict.finding.financial.Some?
    && record.workOrder == r.subject
    && record.caseId < |d.cases|
    && SameOccurrence(d.cases[record.caseId], r.subject, r.verdict.finding.serviceDate)
    && Says(record, r.verdict.finding.financial.value)
  }

  predicate Recorded(d: Desk, r: DetectionResult) {
    exists i | 0 <= i < |d.ledger.records| :: RecordFor(d, i, r)
  }

  /** A committed candidate leaves the case's item saying what was reported. */
  lemma CommittedCandidateSays(s: Ledger.State, at: nat, w: nat, currency: Currency, f: Ledger.FinancialInputs)
    requires LedgerInvariant.Inv(s) && CandidatesCurrent(s) && APPROVED_FROM !in f.assumptions
    ensures var o := Ledger.RecordCandidate(s, at, w, currency, CALCULATION_VERSION, f);
            o.Committed? ==>
              exists i | 0 <= i < |o.state.records| :: o.state.records[i].caseId == at && Says(o.state.records[i], f)
  {
    var o := Ledger.RecordCandidate(s, at, w, currency, CALCULATION_VERSION, f);
    var found := Ledger.FindCase(s.records, at);
    if o.Committed? {
      if found.Some? {
        var r := s.records[found.value];
        assert LedgerInvariant.RecordInv(r) && CandidateCurrent(r);
        LedgerInvariant.LatestIsLast(r.snapshots);
        hide LedgerInvariant.Inv, LedgerInvariant.RecordInv;
        assert o.state.records[found.value].caseId == at && Says(o.state.records[found.value], f);
      } else {
        var k := |s.records|;
        assert o.state.records[k].caseId == at && Says(o.state.records[k], f);
      }
    }
  }

  /** Records of other cases are left alone. */
  lemma OtherRecordsKept(s: Ledger.State, at: nat, w: nat, currency: Currency, f: Ledger.FinancialInputs)
    ensures var s' := Ledger.After(s, Ledger.RecordCandidate(s, at, w, currency, CALCULATION_VERSION, f));
            |s.records| <= |s'.records|
            && forall k | 0 <= k < |s.records| && s.records[k].caseId != at :: s'.records[k] == s.records[k]
  {
  }

  lemma MatchIsRecorded(d: Desk, r: DetectionResult, ruleVersion: nat, run: RunInfo, currencies: map<nat, Currency>)
    requires CaseInvariant.DeskInv(d) && CandidatesCurrent(d.ledger)
    requires r.verdict.Matched? && r.verdict.finding.financial.Some?
    requires APPROVED_FROM !in r.verdict.finding.financial.value.assumptions
    ensures var p := PersistMatch(d, r.subject, r.verdict.finding, ruleVersion, run, currencies);
            p.Progress? ==> Recorded(p.desk, r) && CandidatesCurrent(p.desk.ledger) && CaseInvariant.DeskInv(p.desk)
  {
    hide UpsertCase, Ledger.RecordCandidate, CaseInvariant.CasesInv, LedgerInvariant.Inv, CandidatesCurrent, Says;
    var f := r.verdict.finding;
    CaseInvariant.UpsertKeeps(d.cases, r.subject, f, ruleVersion, run);
    CaseInvariant.PersistMatchKeeps(d, r.subject, f, ruleVersion, run, currencies);
    var u := UpsertCase(d.cases, r.subject, f, ruleVersion, run);
    var currency := CurrencyOf(currencies, r.subject);
    CommittedCandidateSays(d.ledger, u.at, r.subject, currency, f.financial.value);
    RecordedCurrent(d.ledger, u.at, r.subject, currency, CALCULATION_VERSION, f.financial.value);
    var p := PersistMatch(d, r.subject, f, ruleVersion, run, currencies);
    if p.Progress? {
      var i :| 0 <= i < |p.desk.ledger.records| && p.desk.ledger.records[i].caseId == u.at
               && Says(p.desk.ledger.records[i], f.financial.value);
      assert RecordFor(p.desk, i, r);
    }
  }

  lemma OtherMatchKeepsRecorded(
    d: Desk, r: DetectionResult, ruleVersion: nat, run: RunInfo, currencies: map<nat, Currency>, other: DetectionResult)
    requires CaseInvariant.DeskInv(d) && r.verdict.Matched? && Recorded(d, other) && r.subject != other.subject
    ensures var p := PersistMatch(d, r.subject, r.verdict.finding, ruleVersion, run, currencies);
            p.Progress? ==> Recorded(p.desk, other)
  {
    hide UpsertCase, Ledger.RecordCandidate, CaseInvariant.CasesInv, LedgerInvariant.Inv, CaseInvariant.Linked, Says;
    var f := r.verdict.finding;
    CaseInvariant.UpsertKeeps(d.cases, r.subject, f, ruleVersion, run);
    var u := UpsertCase(d.cases, r.subject, f, ruleVersion, run);
    if f.financial.Some? {
      OtherRecordsKept(d.ledger, u.at, r.subject, CurrencyOf(currencies, r.subject), f.financial.value);
    }
    var p := PersistMatch(d, r.subject, f, ruleVersion, run, currencies);
    if p.Progress? {
      var i :| 0 <= i < |d.ledger.records| && RecordFor(d, i, other);
      assert CaseInvariant.RefreshedOnly(d.cases[d.ledger.records[i].caseId], u.cases[d.ledger.records[i].caseId]);
      assert RecordFor(p.desk, i, other);
    }
  }

  predicate Reported(matches: seq<DetectionResult>) {
    forall r <- matches ::
      r.verdict.Matched? && r.verdict.finding.financial.Some?
      && APPROVED_FROM !in r.verdict.finding.financial.value.assumptions
  }

  predicate AllRecorded(d: Desk, matches: seq<DetectionResult>) {
    forall r <- matches :: Recorded(d, r)
  }

  lemma {:induction false} MatchesAreRecorded(
    d: Desk, matches: seq<DetectionResult>, ruleVersion: nat, run: RunInfo, currencies: map<nat, Currency>)
    requires CaseInvariant.DeskInv(d) && CandidatesCurrent(d.ledger)
    requires AllMatched(matches) && Reported(matches) && CaseHistory.SubjectsDistinct(matches)
    ensures var p := PersistMatches(d, matches, ruleVersion, run, currencies);
            p.Progress? ==>
              AllRecorded(p.desk, matches) && CandidatesCurrent(p.desk.ledger) && CaseInvariant.DeskInv(p.desk)
  {
    hide PersistMatch, CandidatesCurrent, Recorded, CaseInvariant.DeskInv;
    if matches != [] {
      var shorter, r := matches[..|matches| - 1], matches[|matches| - 1];
      assert matches == shorter + [r];
      var before := PersistMatches(d, shorter, ruleVersion, run, currencies);
      assert forall m <- shorter :: m in matches;
      MatchesAreRecorded(d, shorter, ruleVersion, run, currencies);
      if before.Progress? {
        MatchIsRecorded(before.desk, r, ruleVersion, run, currencies);
        forall m <- shorter
          ensures var p := PersistMatch(before.desk, r.subject, r.verdict.finding, ruleVersion, run, currencies);
                  p.Progress? ==> Recorded(p.desk, m)
        {
          OtherMatchKeepsRecorded(before.desk, r, ruleVersion, run, currencies, m);
        }
      }
    }
  }

  lemma PersistRecords(
    d: Desk, output: DetectorOutput, run: RunInfo, currencies: map<nat, Currency>, r: DetectionResult)
    requires CaseInvariant.DeskInv(d) && CandidatesCurrent(d.ledger)
    requires Reported(Matches(output.results)) && CaseHistory.SubjectsDistinct(output.results)
    requires r in output.results && r.verdict.Matched?
    ensures var o := Persist(d, output, run, currencies);
            o.Persisted? ==> Recorded(o.desk, r)
  {
    hide PersistMatches, CaseInvariant.DeskInv, CandidatesCurrent, Says, SkippedTotal, Reported,
         CaseHistory.SubjectsDistinct, FlagCount;
    var matches := Matches(output.results);
    CaseHistory.MatchesStayDistinct(output.results);
    MatchesAreRecorded(d, matches, output.ruleVersion, run, currencies);
    var p := PersistMatches(d, matches, output.ruleVersion, run, currencies);
    if p.Progress? {
      var i :| 0 <= i < |p.desk.ledger.records| && RecordFor(p.desk, i, r);
      var flagged := p.desk.(cases := FlagCases(p.desk.cases, output, run));
      assert RecordFor(flagged, i, r);
    }
  }

  // ---------------------------------------------------------------- detector and checklist

  /** Every value the rule reports can be recorded under its own name. */
  lemma FindingsAreReported(e: Evidence, run: Manifest, now: int)
    ensures Reported(Matches(OutputFor(e, run, now).results))
  {
    forall r <- Matches(OutputFor(e, run, now).results)
      ensures r.verdict.finding.financial.Some?
              && APPROVED_FROM !in r.verdict.finding.financial.value.assumptions
    {
      var k :| 0 <= k < |e.workOrders| && ResultsFor(e, run, now)[k] == r;
      DetectorLaws.MatchFacts(e, run, now, e.workOrders[k]);
      DetectorLaws.ManualIffNoAmount(e.workOrders[k], e.workOrders[k].obligation.value);
      hide VerdictOn, Holds, CandidateValue;
    }
  }

  /** Items 1, 2, 3, 5, 6 and 8: what the detector established too. */
  predicate DetectorItem(code: Code) {
    || code.SourceIdAndServiceDate? || code.CompletedStateAndTime? || code.ActiveContract?
    || code.BillableFlag? || code.AuthorizationWhenRequired? || code.CoverageAndNoInvoice?
  }

  /** The facts a match establishes are the checklist's items 1, 2, 3, 5, 6 and 8 over the same run and rows. */
  lemma MatchPassesFacts(
    p: Present, run: Manifest, now: int, w: WorkOrder, s: Ledger.State, i: nat, finance: bool)
    requires p.run == Some(run) && i < |s.records| && VerdictOn(p.e, run, now, w).Matched?
    ensures forall code | DetectorItem(code) ::
              Passes(code, p, w, VerdictOn(p.e, run, now, w).finding.serviceDate, s, i, finance)
  {
    DetectorLaws.MatchFacts(p.e, run, now, w);
    forall k | 0 <= k < |GATES| ensures Holds(GATES[k], p.e, run, now, w) {
      assert GATES[k] in GATES;
    }
    WorkGatesRead(p.e, run, now, w);
    EvidenceGatesRead(p.e, run, now, w);
    hide Holds, VerdictOn, HasAuthorization, ActiveOn, CoverageProvesAbsence, InvoiceExists, CandidateValue,
         Ledger.NoDuplicate, Ledger.BasisSupported, ServiceDates;
  }

  /** Item 7 passes exactly when the reported basis is not manual. */
  lemma ValueItemFollowsBasis(
    p: Present, w: WorkOrder, date: int, s: Ledger.State, i: nat, finance: bool, f: Ledger.FinancialInputs)
    requires i < |s.records|
    requires Says(s.records[i], f) && (f.basis.ManualAmountRequired? <==> f.candidateValue.None?)
    ensures Passes(RateBasisAndAmount, p, w, date, s, i, finance) <==> !f.basis.ManualAmountRequired?
  {
  }

  /**
   Detector and checklist agree. When a reachable desk commits the persist of an evaluation, every matched
   work order has a recovery item, under a case of the matched date, for which the checklist over the same
   run and rows passes items 1, 2, 3, 5, 6 and 8, passes item 7 exactly when the reported basis is not
   manual, and finds no competing item.
   */
  lemma MatchesPassChecklist(
    d: Desk, p: Present, run: Manifest, now: int, info: RunInfo, currencies: map<nat, Currency>,
    d': Desk, counts: Counts, w: WorkOrder, finance: bool)
    requires CaseRuns.Reachable(d) && p.run == Some(run) && KeysUnique(p.e.workOrders)
    requires Persist(d, OutputFor(p.e, run, now), info, currencies) == Persisted(d', counts)
    requires w in p.e.workOrders && VerdictOn(p.e, run, now, w).Matched?
    ensures var finding := VerdictOn(p.e, run, now, w).finding;
            exists i | 0 <= i < |d'.ledger.records| ::
              && RecordFor(d', i, DetectionResult(w.id, VerdictOn(p.e, run, now, w)))
              && (forall code | DetectorItem(code) ::
                    Passes(code, p, w, finding.serviceDate, d'.ledger, i, finance))
              && (Passes(RateBasisAndAmount, p, w, finding.serviceDate, d'.ledger, i, finance)
                  <==> !finding.financial.value.basis.ManualAmountRequired?)
              && !Ledger.CompetingItem(d'.ledger, i)
  {
    var output := OutputFor(p.e, run, now);
    var r := DetectionResult(w.id, VerdictOn(p.e, run, now, w));
    CaseRuns.ReachableInv(d);
    Poison.DeskCarriesReachableLedger(d);
    ReachableIsCurrent(d.ledger);
    FindingsAreReported(p.e, run, now);
    DetectorLaws.OneResultPerWorkOrder(p.e, run, now);
    DetectorLaws.ResultIsListed(p.e, run, now, w);
    PersistRecords(d, output, info, currencies, r);
    CaseInvariant.PersistKeeps(d, output, info, currencies);
    hide OutputFor, Persist, VerdictOn, CandidateValue, Says, CaseInvariant.CasesInv, LedgerInvariant.Inv,
         CaseRuns.Reachable, LedgerRuns.Reachable, Holds, Passes, Ledger.CompetingItem, Reported, CandidatesCurrent;
    var i :| 0 <= i < |d'.ledger.records| && RecordFor(d', i, r);
    ItemAgrees(p, run, now, w, d', i, finance);
  }

  lemma ItemAgrees(p: Present, run: Manifest, now: int, w: WorkOrder, d: Desk, i: nat, finance: bool)
    requires p.run == Some(run) && VerdictOn(p.e, run, now, w).Matched?
    requires LedgerInvariant.Inv(d.ledger) && i < |d.ledger.records|
    requires RecordFor(d, i, DetectionResult(w.id, VerdictOn(p.e, run, now, w)))
    ensures var finding := VerdictOn(p.e, run, now, w).finding;
            && (forall code | DetectorItem(code) ::
                  Passes(code, p, w, finding.serviceDate, d.ledger, i, finance))
            && (Passes(RateBasisAndAmount, p, w, finding.serviceDate, d.ledger, i, finance)
                <==> !finding.financial.value.basis.ManualAmountRequired?)
            && !Ledger.CompetingItem(d.ledger, i)
  {
    MatchPassesFacts(p, run, now, w, d.ledger, i, finance);
    LedgerRuns.NoCompetingItem(d.ledger, i);
    DetectorLaws.MatchFacts(p.e, run, now, w);
    DetectorLaws.ManualIffNoAmount(w, w.obligation.value);
    hide VerdictOn, CandidateValue, Says, LedgerInvariant.Inv, Holds, Ledger.CompetingItem, Passes, DetectorItem;
    var finding := VerdictOn(p.e, run, now, w).finding;
    ValueItemFollowsBasis(p, w, finding.serviceDate, d.ledger, i, finance, finding.financial.value);
  }

  // ---------------------------------------------------------------- what the checklist asks

  /** What each item of the checklist asks of the rows. */
  predicate Asks(code: Code, p: Present, w: WorkOrder, serviceDate: int, r: Ledger.Record, finance: bool) {
    match code
    case SourceIdAndServiceDate => w.id in p.e.mapped
    case CompletedStateAndTime => w.status == Completed && w.completedAt.Some?
    case ActiveContract => UnbilledRule.InForce(w.contract, serviceDate)
    case ObligationAndCrosswalks =>
      && w.obligation.Some? && w.obligation.value.id in p.crosswalks.obligations
      && w.customer in p.crosswalks.customers && w.site in p.crosswalks.sites && w.contract.id in p.crosswalks.contracts
    case BillableFlag => w.billable
    case AuthorizationWhenRequired => w.obligation.Some? && !UnbilledRule.Unauthorized(w)
    case RateBasisAndAmount =>
      && r.item.candidate.Some? && r.item.candidate.value < |r.snapshots|
      && r.snapshots[r.item.candidate.value].candidateValue.Some?
    case CoverageAndNoInvoice =>
      && p.run.Some? && UnbilledRule.Dated(w)
      && UnbilledRule.Covered(p.e.calendar, p.run.value, w)
      && !UnbilledRule.Billed(p.e.calendar, p.e.invoices, w)
    case DuplicateCheck => !r.item.workflow.Exported?
    case FinanceApproval => finance
  }

  /**
   Every item of the checklist passes exactly when the rows give what it asks; of other items of the ledger none can
   compete, and being in an export is being exported.
   */
  lemma ChecklistAsks(
    code: Code, p: Present, w: WorkOrder, serviceDate: int, s: Ledger.State, i: nat, finance: bool)
    requires LedgerInvariant.Inv(s) && i < |s.records|
    ensures Passes(code, p, w, serviceDate, s, i, finance) <==> Asks(code, p, w, serviceDate, s.records[i], finance)
  {
    hide LedgerInvariant.Inv, Ledger.NoDuplicate, Ledger.BasisSupported, UnbilledNow, UnbilledRule.Covered,
         UnbilledRule.Billed, ActiveOn, HasAuthorization, UnbilledRule.InForce, UnbilledRule.Unauthorized;
    CoverageItemAsks(p, w, serviceDate, s, i, finance);
    LedgerItemsAsk(p, w, serviceDate, s, i, finance);
    WorkItemsAsk(w, serviceDate);
  }

  lemma CoverageItemAsks(p: Present, w: WorkOrder, serviceDate: int, s: Ledger.State, i: nat, finance: bool)
    requires i < |s.records|
    ensures Passes(CoverageAndNoInvoice, p, w, serviceDate, s, i, finance)
       <==> Asks(CoverageAndNoInvoice, p, w, serviceDate, s.records[i], finance)
  {
    if UnbilledRule.Dated(w) && p.run.Some? {
      UnbilledRule.DaysMean(p.e.calendar, w);
      UnbilledRule.CoverageMeans(p.e.calendar, p.run.value, w);
      UnbilledRule.InvoicesMean(p.e.calendar, p.e.invoices, w);
    }
    hide CoverageProvesAbsence, InvoiceExists, UnbilledRule.Covered, UnbilledRule.Billed, UnbilledRule.BillingDay,
         UnbilledRule.OccurrenceDay;
  }

  lemma WorkItemsAsk(w: WorkOrder, serviceDate: int)
    ensures ActiveOn(w.contract, serviceDate) <==> UnbilledRule.InForce(w.contract, serviceDate)
    ensures w.obligation.Some? ==> (HasAuthorization(w, w.obligation.value) <==> !UnbilledRule.Unauthorized(w))
  {
  }

  lemma LedgerItemsAsk(p: Present, w: WorkOrder, serviceDate: int, s: Ledger.State, i: nat, finance: bool)
    requires LedgerInvariant.Inv(s) && i < |s.records|
    ensures Ledger.NoDuplicate(s, i) <==> Asks(DuplicateCheck, p, w, serviceDate, s.records[i], finance)
    ensures Ledger.BasisSupported(s.records[i]) <==> Asks(RateBasisAndAmount, p, w, serviceDate, s.records[i], finance)
  {
    hide LedgerInvariant.Inv, Ledger.NoDuplicate, Ledger.BasisSupported;
    LedgerDecisions.InExportIff(s, i);
    LedgerDecisions.SupportedIff(s, i);
  }

  // ---------------------------------------------------------------- the checklist as a gate

  /** What approving asks beside the checklist: the version, the state, no dispute and an unspent candidate. */
  predicate Unhindered(s: Ledger.State, i: nat, expectedVersion: nat) {
    && i < |s.records|
    && s.records[i].item.version == expectedVersion
    && s.records[i].item.workflow.Candidate?
    && !s.records[i].item.dispute.OpenDispute?
    && s.records[i].item.candidate == Some(|s.records[i].snapshots| - 1)
  }

  /**
   The checklist is the gate of an approval: decided on its facts, an approval commits exactly when all ten items
   pass and nothing else hinders it.
   */
  lemma ApprovalIffCompleteChecklist(
    p: Present, w: WorkOrder, serviceDate: int, s: Ledger.State, i: nat, mayAct: bool, expectedVersion: nat)
    requires LedgerInvariant.Inv(s) && i < |s.records|
    ensures Ledger.Approve(s, i, mayAct, expectedVersion, Facts(p, w, serviceDate)).Committed?
       <==> Complete(LinesFor(p, w, serviceDate, s, i, mayAct)) && Unhindered(s, i, expectedVersion)
  {
    hide Complete, LinesFor, Facts, Ledger.Live, Ledger.NoDuplicate, LedgerInvariant.Inv, Ledger.SnapshotInsertable;
    var facts := Facts(p, w, serviceDate);
    CompleteMeans(p, w, serviceDate, s, i, mayAct);
    if LedgerRuns.OtherwiseApprovable(s, i, mayAct, expectedVersion, facts) {
      LedgerRuns.ApproveCommitsIff(s, i, mayAct, expectedVersion, facts);
      LedgerRuns.OpenItemIsNoDuplicate(s, i);
    }
  }

  /** The items whose work still proves unbilled on current rows; `work` names each item's work order. */
  function UnbilledItems(p: Present, work: seq<WorkOrder>): set<nat> {
    set i: nat | i < |work| && UnbilledNow(p, work[i])
  }

  /** Checklist items 8 and 9, which the hand-off asks again. */
  predicate ExportTimeItem(code: Code) {
    code.CoverageAndNoInvoice? || code.DuplicateCheck?
  }

  predicate StillPasses(p: Present, w: WorkOrder, serviceDate: int, s: Ledger.State, i: nat, finance: bool)
    requires i < |s.records|
  {
    forall code | ExportTimeItem(code) :: Passes(code, p, w, serviceDate, s, i, finance)
  }

  lemma StillPassesMeans(p: Present, w: WorkOrder, serviceDate: int, s: Ledger.State, i: nat, finance: bool)
    requires i < |s.records|
    ensures StillPasses(p, w, serviceDate, s, i, finance) <==> UnbilledNow(p, w) && Ledger.NoDuplicate(s, i)
  {
    hide UnbilledNow, Ledger.NoDuplicate;
    if StillPasses(p, w, serviceDate, s, i, finance) {
      assert Passes(CoverageAndNoInvoice, p, w, serviceDate, s, i, finance);
      assert Passes(DuplicateCheck, p, w, serviceDate, s, i, finance);
    }
  }

  /**
   The checklist is the gate of an export too: items selected for hand-off are handed over exactly when each
   still passes checklist items 8 and 9 on the rows and the ledger as they now stand, has no invoice by its
   recorded stage, and all share one currency.
   */
  lemma ExportIffChecklistStillHolds(
    p: Present, work: seq<WorkOrder>, dates: seq<int>, s: Ledger.State, request: Option<seq<nat>>, finance: bool)
    requires LedgerInvariant.Inv(s) && |work| == |s.records| == |dates|
    requires Ledger.Selected(s.records, request) != []
    ensures var ids := Ledger.Selected(s.records, request);
            Ledger.Export(s, true, request, UnbilledItems(p, work)).Created?
            <==> && (forall k | 0 <= k < |ids| ::
                       StillPasses(p, work[ids[k]], dates[ids[k]], s, ids[k], finance)
                       && s.records[ids[k]].item.stage.NoInvoice?)
                 && |Ledger.Currencies(s.records, ids)| <= 1
  {
    var ids := Ledger.Selected(s.records, request);
    LedgerRuns.ExportCommitsIff(s, request, UnbilledItems(p, work));
    forall k | 0 <= k < |ids|
      ensures StillPasses(p, work[ids[k]], dates[ids[k]], s, ids[k], finance) <==> ids[k] in UnbilledItems(p, work)
    {
      hide Ledger.Selected, Ledger.NoDuplicate, Ledger.Live, UnbilledNow, StillPasses, LedgerInvariant.Inv;
      LedgerRuns.SelectedIsSound(s, request, ids[k]);
      StillPassesMeans(p, work[ids[k]], dates[ids[k]], s, ids[k], finance);
    }
    hide Ledger.Selected, Ledger.Export, Ledger.NoDuplicate, Ledger.Currencies, UnbilledNow, StillPasses,
         UnbilledItems, LedgerInvariant.Inv;
  }
}
