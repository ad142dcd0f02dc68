/** The completed-but-unbilled rule: which work orders it flags, and with what value. */
module UnbilledDetector {
  import opened Common
  import opened Detection
  import opened Operations
  import opened Rounding
  import Accounting
  import Ledger

  const RULE_VERSION := 1
  const ACCOUNTING_CONTRACT_VERSION := 1
  const DEADLINE_GRACE_DAYS := 30
  const LARGE_AMOUNT: Money := 1000_0000

  // ---------------------------------------------------------------- facts

  function FreshnessOf(run: Option<RunInput>, now: int): Freshness {
    if run.None? || run.value.batch.None? || run.value.batch.value.maximumAgeMinutes.None? then UnknownAge
    else
      var age := now - run.value.batch.value.observedAt;
      var maximum := run.value.batch.value.maximumAgeMinutes.value * MINUTE;
      if age > maximum then StaleData else if 4 * age > 3 * maximum then AgingData else FreshData
  }

  datatype Dates = Dates(primary: int, candidates: set<int>)

  /** The occurrence's date and every date an invoice for it might carry; None without any timestamp. */
  function ServiceDates(calendar: Calendar, w: WorkOrder): (d: Option<Dates>)
    ensures d.Some? <==> w.scheduledAt.Some? || w.completedAt.Some?
    ensures d.Some? ==> d.value.primary in d.value.candidates
  {
    var completed := if w.completedAt.Some? then Some(calendar.date(w.zone, w.completedAt.value)) else None;
    var scheduled := if w.scheduledAt.Some? then Some(calendar.date(w.zone, w.scheduledAt.value)) else None;
    var primary := if scheduled.Some? then scheduled else completed;
    if primary.None? then None
    else Some(Dates(primary.value, {primary.value} + if completed.Some? then {completed.value} else {}))
  }

  predicate AuthorizationRequired(w: WorkOrder, o: Obligation) {
    w.authorizationRequired || (o.extraWorkRequiresAuthorization && o.scope.AuthorizedExtra?)
  }

  predicate HasAuthorization(w: WorkOrder, o: Obligation) {
    AuthorizationRequired(w, o) ==> w.authorizationReference != "" && w.authorizedAt.Some?
  }

  predicate InScope(scope: CoverageScope, w: WorkOrder) {
    match scope
    case WholeOrganization => true
    case SourceLedger => true
    case OneCustomer(customer) => customer == Some(w.customer)
    case OneSite(site) => site == Some(w.site)
    case OtherScope => false
  }

  /** A complete, authoritative, committed snapshot of the right ledger, without quarantined rows. */
  predicate Admissible(c: Coverage, w: WorkOrder) {
    && c.complete && c.authoritative && c.committed && c.snapshot
    && c.contract.AccountingServiceDateLedger? && c.contractVersion == ACCOUNTING_CONTRACT_VERSION
    && InScope(c.scope, w)
    && !c.batchHasInvalidRows
  }

  predicate Covers(calendar: Calendar, c: Coverage, w: WorkOrder, dates: set<int>) {
    && Admissible(c, w)
    && forall d <- dates :: calendar.date(w.zone, c.startAt) <= d < calendar.date(w.zone, c.endAt)
  }

  predicate CoverageProvesAbsence(calendar: Calendar, run: Manifest, w: WorkOrder, dates: set<int>) {
    run.invoiceStatus.Some? && exists c <- run.invoiceStatus.value.coverage :: Covers(calendar, c, w, dates)
  }

  predicate Bills(i: Accounting.Invoice, w: WorkOrder, dates: set<int>) {
    && !i.status.VoidInvoice?
    && (i.workOrder == Some(w.id) || (i.customer == w.customer && i.site == w.site && i.serviceDate in dates))
  }

  predicate InvoiceExists(invoices: seq<Accounting.Invoice>, w: WorkOrder, dates: set<int>) {
    exists i <- invoices :: Bills(i, w, dates)
  }

  // ---------------------------------------------------------------- value

  function Manual(assumptions: map<string, Ledger.Note>, missing: string): Ledger.FinancialInputs {
    Ledger.FinancialInputs(Ledger.ManualAmountRequired, None, assumptions["missing" := Ledger.Text(missing)])
  }

  function DeclaredBasis(w: WorkOrder, o: Obligation): BillingBasis {
    w.basis.GetOr(o.basis)
  }

  /** A rate of zero on the work order counts as no rate. */
  function EffectiveRate(w: WorkOrder, o: Obligation): Option<nat> {
    if w.rate.Some? && w.rate.value != 0 then w.rate else o.defaultRate
  }

  function CandidateValue(w: WorkOrder, o: Obligation): Ledger.FinancialInputs {
    var assumptions := map[
      "work_order_id" := Ledger.Number(w.id),
      "basis_source" := Ledger.Text(if w.basis.Some? then "work_order" else "service_obligation")];
    match DeclaredBasis(w, o)
    case FixedAmount =>
      if w.fixedAmount.None? then Manual(assumptions, "approved_fixed_amount")
      else
        Ledger.FinancialInputs(Ledger.FixedWorkOrder, w.fixedAmount,
                               assumptions["approved_fixed_amount" := Ledger.Number(w.fixedAmount.value)])
    case ActualHours =>
      var rate := EffectiveRate(w, o);
      if w.hours.None? then Manual(assumptions, "approved_hours")
      else if rate.None? then Manual(assumptions, "bill_rate")
      else
        Ledger.FinancialInputs(
          Ledger.HourlyActual, Some(HourlyValue(w.hours.value, rate.value)),
          assumptions["approved_hours" := Ledger.Number(w.hours.value)]
                     ["bill_rate" := Ledger.Number(rate.value)]
                     ["rate_source" := Ledger.Text(if w.rate.Some? && w.rate.value != 0
                                                   then "work_order" else "service_obligation")])
    case ScheduledHours => Manual(assumptions, "scheduled_hours")
    case _ => Manual(assumptions, "billing_basis")
  }

  function SeverityOf(candidate: Option<Money>, daysOverdue: int): Severity {
    if daysOverdue >= 60 then High
    else if daysOverdue >= 30 || (candidate.Some? && candidate.value >= LARGE_AMOUNT) then Medium
    else Low
  }

  // ---------------------------------------------------------------- the rule

  /** The conditions of the rule, in the order in which the first failing one is reported. */
  datatype Gate =
    NothingBlocks | IsBillable | IsMapped | IsCompleted | HasObligation | DelayElapsed | IsAuthorized
  | ContractIsActive | BasisIsSeparate | OperationsNotStale | AccountingNotStale | AbsenceProvable | NotInvoiced

  const GATES: seq<Gate> := [
    NothingBlocks, IsBillable, IsMapped, IsCompleted, HasObligation, DelayElapsed, IsAuthorized,
    ContractIsActive, BasisIsSeparate, OperationsNotStale, AccountingNotStale, AbsenceProvable, NotInvoiced]

  function SkipFor(g: Gate): SkipReason {
    match g
    case NothingBlocks => BlockingReconciliationIssue
    case IsBillable => NotBillable
    case IsMapped => IdentityUnresolved
    case IsCompleted => NotCompleted
    case HasObligation => NoServiceObligation
    case DelayElapsed => DelayNotElapsed
    case IsAuthorized => AuthorizationMissing
    case ContractIsActive => ContractNotActive
    case BasisIsSeparate => BillingBasisUnsupported
    case OperationsNotStale => OperationsStale
    case AccountingNotStale => AccountingStale
    case AbsenceProvable => InsufficientCoverage
    case NotInvoiced => InvoicePresent
  }

  predicate Holds(g: Gate, e: Evidence, run: Manifest, now: int, w: WorkOrder) {
    match g
    case NothingBlocks => !(e.blockingIssue || e.unresolvedIdentity)
    case IsBillable => w.billable
    case IsMapped => w.id in e.mapped
    case IsCompleted => w.status.Completed? && w.completedAt.Some?
    case HasObligation => w.obligation.Some?
    case DelayElapsed => w.obligation.Some? && w.completedAt.Some? && now >= DueAt(w)
    case IsAuthorized => w.obligation.Some? && HasAuthorization(w, w.obligation.value)
    case ContractIsActive =>
      var dates := ServiceDates(e.calendar, w);
      dates.Some? && ActiveOn(w.contract, dates.value.primary)
    case BasisIsSeparate => w.obligation.Some? && !DeclaredBasis(w, w.obligation.value).Included?
    case OperationsNotStale => !FreshnessOf(run.serviceEvents, now).StaleData?
    case AccountingNotStale => !FreshnessOf(run.invoiceStatus, now).StaleData?
    case AbsenceProvable =>
      var dates := ServiceDates(e.calendar, w);
      dates.Some? && CoverageProvesAbsence(e.calendar, run, w, dates.value.candidates)
    case NotInvoiced =>
      var dates := ServiceDates(e.calendar, w);
      dates.Some? && !InvoiceExists(e.invoices, w, dates.value.candidates)
  }

  /** When unbilled work becomes a candidate. */
  function DueAt(w: WorkOrder): int
    requires w.obligation.Some? && w.completedAt.Some?
  {
    w.completedAt.value + w.obligation.value.delayDays * DAY
  }

  predicate Qualifies(e: Evidence, run: Manifest, now: int, w: WorkOrder) {
    forall g <- GATES :: Holds(g, e, run, now, w)
  }

  /** What a match reports. */
  function FindingOf(e: Evidence, run: Manifest, now: int, w: WorkOrder): Finding
    requires w.obligation.Some? && w.completedAt.Some?
  {
    var financial := CandidateValue(w, w.obligation.value);
    Finding(ServiceDates(e.calendar, w).value.primary,
            Overall(FreshnessOf(run.serviceEvents, now), FreshnessOf(run.invoiceStatus, now)),
            SeverityOf(financial.candidateValue, (now - DueAt(w)) / DAY),
            DueAt(w) + DEADLINE_GRACE_DAYS * DAY,
            Some(financial))
  }

  predicate AllBefore(k: nat, e: Evidence, run: Manifest, now: int, w: WorkOrder)
    requires k <= |GATES|
  {
    forall j | 0 <= j < k :: Holds(GATES[j], e, run, now, w)
  }

  /** The verdict the rule prescribes: a match when every gate holds, otherwise the first that fails. */
  predicate Justified(e: Evidence, run: Manifest, now: int, w: WorkOrder, v: Verdict) {
    match v
    case Matched(finding) =>
      && Qualifies(e, run, now, w)
      && w.obligation.Some? && w.completedAt.Some?
      && finding == FindingOf(e, run, now, w)
    case Skipped(reason) =>
      exists k | 0 <= k < |GATES| ::
        AllBefore(k, e, run, now, w) && !Holds(GATES[k], e, run, now, w) && reason == SkipFor(GATES[k])
  }

  /** Position of the first gate that fails, from k on. */
  function FirstFailing(k: nat, e: Evidence, run: Manifest, now: int, w: WorkOrder): (found: Option<nat>)
    requires k <= |GATES|
    ensures found.Some? ==> k <= found.value < |GATES| && !Holds(GATES[found.value], e, run, now, w)
    ensures forall j | k <= j < found.GetOr(|GATES|) :: Holds(GATES[j], e, run, now, w)
    decreases |GATES| - k
  {
    if k == |GATES| then None
    else if !Holds(GATES[k], e, run, now, w) then Some(k)
    else FirstFailing(k + 1, e, run, now, w)
  }

  function VerdictOn(e: Evidence, run: Manifest, now: int, w: WorkOrder): Verdict {
    match FirstFailing(0, e, run, now, w)
    case Some(k) => Skipped(SkipFor(GATES[k]))
    case None =>
      assert Holds(GATES[3], e, run, now, w) && Holds(GATES[4], e, run, now, w);
      Matched(FindingOf(e, run, now, w))
  }

  function ResultsFor(e: Evidence, run: Manifest, now: int): (results: seq<DetectionResult>)
    ensures |results| == |e.workOrders|
  {
    seq(|e.workOrders|, k requires 0 <= k < |e.workOrders| =>
      DetectionResult(e.workOrders[k].id, VerdictOn(e, run, now, e.workOrders[k])))
  }

  function OutputFor(e: Evidence, run: Manifest, now: int): DetectorOutput {
    DetectorOutput(RULE_VERSION, ResultsFor(e, run, now), |e.workOrders|,
                   FreshnessOf(run.serviceEvents, now), FreshnessOf(run.invoiceStatus, now))
  }

  // ---------------------------------------------------------------- as it runs

  method ProvesAbsence(calendar: Calendar, run: Manifest, w: WorkOrder, dates: set<int>) returns (proves: bool)
    ensures proves == CoverageProvesAbsence(calendar, run, w, dates)
  {
    if run.invoiceStatus.None? {
      return false;
    }
    var declarations := run.invoiceStatus.value.coverage;
    var k := 0;
    while k < |declarations|
      invariant k <= |declarations|
      invariant forall j | 0 <= j < k :: !Covers(calendar, declarations[j], w, dates)
    {
      var c := declarations[k];
      k := k + 1;
      if !(c.complete && c.authoritative && c.committed && c.snapshot) {
        continue;
      }
      if c.contract != AccountingServiceDateLedger || c.contractVersion != ACCOUNTING_CONTRACT_VERSION {
        continue;
      }
      if !InScope(c.scope, w) {
        continue;
      }
      if c.batchHasInvalidRows {
        continue;
      }
      var start, end := calendar.date(w.zone, c.startAt), calendar.date(w.zone, c.endAt);
      if forall d <- dates :: start <= d < end {
        assert c in declarations && Covers(calendar, c, w, dates);
        return true;
      }
    }
    return false;
  }

  lemma {:induction false} FirstFailure(j: nat, k: nat, e: Evidence, run: Manifest, now: int, w: WorkOrder)
    requires j <= k < |GATES| && AllBefore(k, e, run, now, w) && !Holds(GATES[k], e, run, now, w)
    ensures FirstFailing(j, e, run, now, w) == Some(k)
    decreases k - j
  {
    hide Holds;
    if j < k {
      assert Holds(GATES[j], e, run, now, w);
      FirstFailure(j + 1, k, e, run, now, w);
    }
  }

  lemma GateFails(k: nat, e: Evidence, run: Manifest, now: int, w: WorkOrder)
    requires k < |GATES| && AllBefore(k, e, run, now, w) && !Holds(GATES[k], e, run, now, w)
    ensures VerdictOn(e, run, now, w) == Skipped(SkipFor(GATES[k]))
    ensures Justified(e, run, now, w, Skipped(SkipFor(GATES[k])))
  {
    FirstFailure(0, k, e, run, now, w);
    hide Holds, FindingOf;
  }

  lemma GatePasses(k: nat, e: Evidence, run: Manifest, now: int, w: WorkOrder)
    requires k < |GATES| && AllBefore(k, e, run, now, w) && Holds(GATES[k], e, run, now, w)
    ensures AllBefore(k + 1, e, run, now, w)
  {
    hide Holds;
  }

  lemma AllHold(e: Evidence, run: Manifest, now: int, w: WorkOrder)
    requires AllBefore(|GATES|, e, run, now, w) && w.obligation.Some? && w.completedAt.Some?
    ensures VerdictOn(e, run, now, w) == Matched(FindingOf(e, run, now, w))
    ensures Justified(e, run, now, w, Matched(FindingOf(e, run, now, w)))
  {
    hide Holds, FindingOf;
  }

  /** Each gate about the work itself, by its position, as the loop tests it. */
  lemma WorkGatesRead(e: Evidence, run: Manifest, now: int, w: WorkOrder)
    ensures Holds(GATES[0], e, run, now, w) <==> !(e.blockingIssue || e.unresolvedIdentity)
    ensures Holds(GATES[1], e, run, now, w) <==> w.billable
    ensures Holds(GATES[2], e, run, now, w) <==> w.id in e.mapped
    ensures Holds(GATES[3], e, run, now, w) <==> w.status.Completed? && w.completedAt.Some?
    ensures Holds(GATES[4], e, run, now, w) <==> w.obligation.Some?
    ensures w.completedAt.Some? && w.obligation.Some? ==>
              && (Holds(GATES[5], e, run, now, w) <==> now >= DueAt(w))
              && (Holds(GATES[6], e, run, now, w) <==> HasAuthorization(w, w.obligation.value))
              && (Holds(GATES[8], e, run, now, w) <==> !DeclaredBasis(w, w.obligation.value).Included?)
  {
    hide HasAuthorization, DeclaredBasis, DueAt;
  }

  /** Each gate about the evidence, by its position. */
  lemma EvidenceGatesRead(e: Evidence, run: Manifest, now: int, w: WorkOrder)
    requires w.completedAt.Some?
    ensures var dates := ServiceDates(e.calendar, w).value;
            && (Holds(GATES[7], e, run, now, w) <==> ActiveOn(w.contract, dates.primary))
            && (Holds(GATES[11], e, run, now, w) <==> CoverageProvesAbsence(e.calendar, run, w, dates.candidates))
            && (Holds(GATES[12], e, run, now, w) <==> !InvoiceExists(e.invoices, w, dates.candidates))
    ensures Holds(GATES[9], e, run, now, w) <==> !FreshnessOf(run.serviceEvents, now).StaleData?
    ensures Holds(GATES[10], e, run, now, w) <==> !FreshnessOf(run.invoiceStatus, now).StaleData?
  {
    hide FreshnessOf, CoverageProvesAbsence, InvoiceExists, ActiveOn, ServiceDates;
  }

  lemma EvidenceGatesReport()
    ensures |GATES| == 13
    ensures SkipFor(GATES[9]) == OperationsStale && SkipFor(GATES[10]) == AccountingStale
    ensures SkipFor(GATES[11]) == InsufficientCoverage && SkipFor(GATES[12]) == InvoicePresent
  {
  }

  /** Evaluate every work order of the organization, in query order. */
  method Evaluate(e: Evidence, run: Manifest, now: int) returns (output: DetectorOutput)
    ensures output == OutputFor(e, run, now)
  {
    var operations := FreshnessOf(run.serviceEvents, now);
    var accounting := FreshnessOf(run.invoiceStatus, now);
    var blocked := e.blockingIssue || e.unresolvedIdentity;
    var results: seq<DetectionResult> := [];
    var scanned := 0;
    while scanned < |e.workOrders|
      invariant scanned <= |e.workOrders|
      invariant results == ResultsFor(e, run, now)[..scanned]
    {
      var w := e.workOrders[scanned];
      scanned := scanned + 1;
      var verdict := Judge(e, run, now, w, operations, accounting, blocked);
      results := results + [DetectionResult(w.id, verdict)];
    }
    output := DetectorOutput(RULE_VERSION, results, scanned, operations, accounting);
  }

  /** One pass of the loop: the gates in coded order, leaving at the first that fails. */
  method Judge(
    e: Evidence, run: Manifest, now: int, w: WorkOrder, operations: Freshness, accounting: Freshness, blocked: bool)
    returns (verdict: Verdict)
    requires operations == FreshnessOf(run.serviceEvents, now) && accounting == FreshnessOf(run.invoiceStatus, now)
    requires blocked == (e.blockingIssue || e.unresolvedIdentity)
    ensures verdict == VerdictOn(e, run, now, w)
    ensures Justified(e, run, now, w, verdict)
  {
    assert AllBefore(0, e, run, now, w);
    WorkGatesRead(e, run, now, w);
    hide AllBefore, Holds, FreshnessOf, CandidateValue, CoverageProvesAbsence, InvoiceExists,
         HasAuthorization, ActiveOn,
         DeclaredBasis, ServiceDates, FindingOf, FirstFailing, VerdictOn, Justified;
    if blocked {
      GateFails(0, e, run, now, w);
      return Skipped(BlockingReconciliationIssue);
    }
    GatePasses(0, e, run, now, w);
    if !w.billable {
      GateFails(1, e, run, now, w);
      return Skipped(NotBillable);
    }
    GatePasses(1, e, run, now, w);
    if w.id !in e.mapped {
      GateFails(2, e, run, now, w);
      return Skipped(IdentityUnresolved);
    }
    GatePasses(2, e, run, now, w);
    if w.status != Completed || w.completedAt == None {
      GateFails(3, e, run, now, w);
      return Skipped(NotCompleted);
    }
    GatePasses(3, e, run, now, w);
    if w.obligation.None? {
      GateFails(4, e, run, now, w);
      return Skipped(NoServiceObligation);
    }
    GatePasses(4, e, run, now, w);
    var o := w.obligation.value;
    var due := w.completedAt.value + o.delayDays * DAY;
    if now < due {
      GateFails(5, e, run, now, w);
      return Skipped(DelayNotElapsed);
    }
    GatePasses(5, e, run, now, w);
    if !HasAuthorization(w, o) {
      GateFails(6, e, run, now, w);
      return Skipped(AuthorizationMissing);
    }
    GatePasses(6, e, run, now, w);
    EvidenceGatesRead(e, run, now, w);
    var dates := ServiceDates(e.calendar, w).value;
    if !ActiveOn(w.contract, dates.primary) {
      GateFails(7, e, run, now, w);
      return Skipped(ContractNotActive);
    }
    GatePasses(7, e, run, now, w);
    if DeclaredBasis(w, o) == Included {
      GateFails(8, e, run, now, w);
      return Skipped(BillingBasisUnsupported);
    }
    GatePasses(8, e, run, now, w);
    verdict := JudgeEvidence(e, run, now, w, operations, accounting, due, dates);
  }

  /** The rest of the pass: stale feeds, then the negative claim, then the match. */
  method JudgeEvidence(
    e: Evidence, run: Manifest, now: int, w: WorkOrder, operations: Freshness, accounting: Freshness,
    due: int, dates: Dates)
    returns (verdict: Verdict)
    requires operations == FreshnessOf(run.serviceEvents, now) && accounting == FreshnessOf(run.invoiceStatus, now)
    requires w.obligation.Some? && w.completedAt.Some? && AllBefore(9, e, run, now, w)
    requires due == DueAt(w) && dates == ServiceDates(e.calendar, w).value
    ensures verdict == VerdictOn(e, run, now, w)
    ensures Justified(e, run, now, w, verdict)
  {
    EvidenceGatesRead(e, run, now, w);
    EvidenceGatesReport();
    hide GATES, SkipFor, AllBefore, Holds, FreshnessOf, CandidateValue, CoverageProvesAbsence,
         InvoiceExists, ServiceDates,
         DueAt, FindingOf, FirstFailing, VerdictOn, Justified;
    if operations == StaleData {
      GateFails(9, e, run, now, w);
      return Skipped(OperationsStale);
    }
    GatePasses(9, e, run, now, w);
    if accounting == StaleData {
      GateFails(10, e, run, now, w);
      return Skipped(AccountingStale);
    }
    GatePasses(10, e, run, now, w);
    var provable := ProvesAbsence(e.calendar, run, w, dates.candidates);
    if !provable {
      GateFails(11, e, run, now, w);
      return Skipped(InsufficientCoverage);
    }
    GatePasses(11, e, run, now, w);
    if InvoiceExists(e.invoices, w, dates.candidates) {
      GateFails(12, e, run, now, w);
      return Skipped(InvoicePresent);
    }
    GatePasses(12, e, run, now, w);
    AllHold(e, run, now, w);
    var finding := Describe(e, run, now, w, operations, accounting, due, dates);
    return Matched(finding);
  }

  method Describe(
    e: Evidence, run: Manifest, now: int, w: WorkOrder, operations: Freshness, accounting: Freshness,
    due: int, dates: Dates)
    returns (finding: Finding)
    requires operations == FreshnessOf(run.serviceEvents, now) && accounting == FreshnessOf(run.invoiceStatus, now)
    requires w.obligation.Some? && w.completedAt.Some?
    requires due == DueAt(w) && dates == ServiceDates(e.calendar, w).value
    ensures finding == FindingOf(e, run, now, w)
  {
    hide CandidateValue, FreshnessOf, ServiceDates, DueAt;
    var financial := CandidateValue(w, w.obligation.value);
    var daysOverdue := (now - due) / DAY;
    finding := Finding(dates.primary, Overall(operations, accounting),
                       SeverityOf(financial.candidateValue, daysOverdue),
                       due + DEADLINE_GRACE_DAYS * DAY, Some(financial));
  }
}
