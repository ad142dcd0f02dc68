/**
 The completed-but-unbilled rule, reason by reason in terms of the rows: why a work order is skipped, which reason
 is reported when several apply, and what a match says.
 */
module UnbilledRule {
  import opened Common
  import opened Detection
  import opened Operations
  import opened Rounding
  import opened UnbilledDetector
  import Accounting
  import DetectorLaws
  import Ledger

  // ---------------------------------------------------------------- facts about the rows

  predicate Dated(w: WorkOrder) {
    w.scheduledAt.Some? || w.completedAt.Some?
  }

  /** The day of the occurrence where the work was done: when it was scheduled, otherwise when it was completed. */
  function OccurrenceDay(calendar: Calendar, w: WorkOrder): int
    requires Dated(w)
  {
    calendar.date(w.zone, if w.scheduledAt.Some? then w.scheduledAt.value else w.completedAt.value)
  }

  /** The days an invoice for it may carry: the local day of either instant. */
  predicate BillingDay(calendar: Calendar, w: WorkOrder, day: int) {
    || (w.scheduledAt.Some? && day == calendar.date(w.zone, w.scheduledAt.value))
    || (w.completedAt.Some? && day == calendar.date(w.zone, w.completedAt.value))
  }


  predicate Limited(input: Option<RunInput>) {
    input.Some? && input.value.batch.Some? && input.value.batch.value.maximumAgeMinutes.Some?
  }

  function AgeOf(input: Option<RunInput>, now: int): int
    requires Limited(input)
  {
    now - input.value.batch.value.observedAt
  }

  /** Seconds that a batch of the feed may be old. */
  function LimitOf(input: Option<RunInput>): int
    requires Limited(input)
  {
    input.value.batch.value.maximumAgeMinutes.value * 60
  }

  predicate TooOld(input: Option<RunInput>, now: int) {
    Limited(input) && AgeOf(input, now) > LimitOf(input)
  }

  /** Past three quarters of the limit, and within it. */
  predicate GettingOld(input: Option<RunInput>, now: int) {
    Limited(input) && LimitOf(input) >= AgeOf(input, now) && 4 * AgeOf(input, now) > 3 * LimitOf(input)
  }

  predicate Unauthorized(w: WorkOrder) {
    && w.obligation.Some?
    && (w.authorizationRequired
        || (w.obligation.value.extraWorkRequiresAuthorization && w.obligation.value.scope == AuthorizedExtra))
    && (w.authorizationReference == "" || w.authorizedAt.None?)
  }

  /** The declaration speaks of everybody, of the whole ledger, or of this customer or site. */
  predicate Concerns(c: Coverage, w: WorkOrder) {
    c.scope == WholeOrganization || c.scope == SourceLedger
    || c.scope == OneCustomer(Some(w.customer)) || c.scope == OneSite(Some(w.site))
  }

  /**
   A declaration that proves what the books do not contain: complete, authoritative, from a committed snapshot of the
   service-date ledger in which no row was left out, about this work, and its days include every billing day.
   */
  predicate Proves(calendar: Calendar, c: Coverage, w: WorkOrder) {
    && c.complete && c.authoritative && c.committed && c.snapshot && !c.batchHasInvalidRows
    && c.contract == AccountingServiceDateLedger && c.contractVersion == 1
    && Concerns(c, w)
    && (w.scheduledAt.Some? ==> Within(calendar, c, w.zone, w.scheduledAt.value))
    && (w.completedAt.Some? ==> Within(calendar, c, w.zone, w.completedAt.value))
  }

  predicate Within(calendar: Calendar, c: Coverage, zone: nat, instant: int) {
    calendar.date(zone, c.startAt) <= calendar.date(zone, instant) < calendar.date(zone, c.endAt)
  }

  predicate Covered(calendar: Calendar, run: Manifest, w: WorkOrder) {
    run.invoiceStatus.Some? && exists c <- run.invoiceStatus.value.coverage :: Proves(calendar, c, w)
  }

  /** An invoice that is not void names the work order, or is for its customer, site and one of its billing days. */
  predicate Billed(calendar: Calendar, invoices: seq<Accounting.Invoice>, w: WorkOrder) {
    exists i <- invoices ::
      && i.status != Accounting.VoidInvoice
      && (i.workOrder == Some(w.id)
          || (i.customer == w.customer && i.site == w.site && BillingDay(calendar, w, i.serviceDate)))
  }

  predicate InForce(c: Contract, day: int) {
    c.active && c.startsOn <= day && (c.endsOn.None? || day <= c.endsOn.value)
  }

  // ---------------------------------------------------------------- the rule

  /** The reason applies to the work order. */
  predicate Applies(reason: SkipReason, e: Evidence, run: Manifest, now: int, w: WorkOrder) {
    match reason
    case BlockingReconciliationIssue => e.blockingIssue || e.unresolvedIdentity
    case NotBillable => !w.billable
    case IdentityUnresolved => w.id !in e.mapped
    case NotCompleted => w.status != Completed || w.completedAt.None?
    case NoServiceObligation => w.obligation.None?
    case DelayNotElapsed =>
      && w.completedAt.Some? && w.obligation.Some?
      && now < w.completedAt.value + w.obligation.value.delayDays * 86400
    case AuthorizationMissing => Unauthorized(w)
    case ContractNotActive => w.completedAt.Some? && !InForce(w.contract, OccurrenceDay(e.calendar, w))
    case BillingBasisUnsupported =>
      w.obligation.Some? && (if w.basis.Some? then w.basis.value else w.obligation.value.basis) == Included
    case OperationsStale => TooOld(run.serviceEvents, now)
    case AccountingStale => TooOld(run.invoiceStatus, now)
    case InsufficientCoverage => !Covered(e.calendar, run, w)
    case InvoicePresent => Billed(e.calendar, e.invoices, w)
    case AlreadyRepresented => false
  }

  /** When several reasons apply, the one with the lowest rank is reported. */
  function Rank(reason: SkipReason): nat {
    match reason
    case BlockingReconciliationIssue => 0
    case NotBillable => 1
    case IdentityUnresolved => 2
    case NotCompleted => 3
    case NoServiceObligation => 4
    case DelayNotElapsed => 5
    case AuthorizationMissing => 6
    case ContractNotActive => 7
    case BillingBasisUnsupported => 8
    case OperationsStale => 9
    case AccountingStale => 10
    case InsufficientCoverage => 11
    case InvoicePresent => 12
    case AlreadyRepresented => 13
  }

  // ---------------------------------------------------------------- the detector follows it

  lemma FreshnessMeans(input: Option<RunInput>, now: int)
    ensures FreshnessOf(input, now).StaleData? <==> TooOld(input, now)
    ensures FreshnessOf(input, now).AgingData? <==> GettingOld(input, now)
    ensures FreshnessOf(input, now).UnknownAge? <==> !Limited(input)
  {
  }

  lemma DaysMean(calendar: Calendar, w: WorkOrder)
    requires Dated(w)
    ensures var dates := ServiceDates(calendar, w);
            && dates.Some? && dates.value.primary == OccurrenceDay(calendar, w)
            && forall day: int :: day in dates.value.candidates <==> BillingDay(calendar, w, day)
  {
  }

  lemma CoverageMeans(calendar: Calendar, run: Manifest, w: WorkOrder)
    requires Dated(w)
    ensures CoverageProvesAbsence(calendar, run, w, ServiceDates(calendar, w).value.candidates)
       <==> Covered(calendar, run, w)
  {
    var dates := ServiceDates(calendar, w).value.candidates;
    if run.invoiceStatus.Some? {
      forall c <- run.invoiceStatus.value.coverage ensures Covers(calendar, c, w, dates) <==> Proves(calendar, c, w) {
        DeclarationMeans(calendar, c, w);
      }
      hide Covers, Proves, ServiceDates;
    }
  }

  lemma DeclarationMeans(calendar: Calendar, c: Coverage, w: WorkOrder)
    requires Dated(w)
    ensures Covers(calendar, c, w, ServiceDates(calendar, w).value.candidates) <==> Proves(calendar, c, w)
  {
    var dates := ServiceDates(calendar, w).value.candidates;
    assert w.completedAt.Some? ==> calendar.date(w.zone, w.completedAt.value) in dates;
    assert w.scheduledAt.Some? ==> calendar.date(w.zone, w.scheduledAt.value) in dates;
  }

  lemma InvoicesMean(calendar: Calendar, invoices: seq<Accounting.Invoice>, w: WorkOrder)
    requires Dated(w)
    ensures InvoiceExists(invoices, w, ServiceDates(calendar, w).value.candidates) <==> Billed(calendar, invoices, w)
  {
    DaysMean(calendar, w);
    hide ServiceDates, BillingDay;
  }

  lemma {:induction false} ReasonsAreGates(k: nat)
    requires k < |GATES|
    ensures Rank(SkipFor(GATES[k])) == k && !SkipFor(GATES[k]).AlreadyRepresented?
  {
  }

  /** A reason of lower rank than the last is the one of the gate at its rank. */
  lemma RankedIsGate(reason: SkipReason)
    requires !reason.AlreadyRepresented?
    ensures Rank(reason) < |GATES| && SkipFor(GATES[Rank(reason)]) == reason
  {
  }

  /** Each gate fails exactly when its reason applies, once the gates before it hold. */
  lemma GateMeans(k: nat, e: Evidence, run: Manifest, now: int, w: WorkOrder)
    requires k < |GATES| && AllBefore(k, e, run, now, w)
    ensures Holds(GATES[k], e, run, now, w) <==> !Applies(SkipFor(GATES[k]), e, run, now, w)
  {
    WorkGatesRead(e, run, now, w);
    ReasonNames();
    hide Holds, GATES, SkipFor;
    if k <= 4 {
      EarlyMeans(k, e, run, now, w);
    } else {
      assert Holds(GATES[3], e, run, now, w) && Holds(GATES[4], e, run, now, w);
      if k <= 8 && k != 7 {
        WorkMeans(k, e, run, now, w);
      } else {
        EvidenceMeans(k, e, run, now, w);
      }
    }
  }

  lemma ReasonNames()
    ensures |GATES| == 13
  {
  }

  lemma EarlyMeans(k: nat, e: Evidence, run: Manifest, now: int, w: WorkOrder)
    requires k <= 4
    ensures k < |GATES| && (Holds(GATES[k], e, run, now, w) <==> !Applies(SkipFor(GATES[k]), e, run, now, w))
  {
    WorkGatesRead(e, run, now, w);
    hide Holds;
  }

  lemma WorkMeans(k: nat, e: Evidence, run: Manifest, now: int, w: WorkOrder)
    requires 5 <= k <= 8 && k != 7 && w.completedAt.Some? && w.obligation.Some?
    ensures k < |GATES| && (Holds(GATES[k], e, run, now, w) <==> !Applies(SkipFor(GATES[k]), e, run, now, w))
  {
    WorkGatesRead(e, run, now, w);
    hide Holds;
  }

  lemma EvidenceMeans(k: nat, e: Evidence, run: Manifest, now: int, w: WorkOrder)
    requires (k == 7 || 9 <= k) && k < |GATES| && w.completedAt.Some?
    ensures Holds(GATES[k], e, run, now, w) <==> !Applies(SkipFor(GATES[k]), e, run, now, w)
  {
    EvidenceGatesRead(e, run, now, w);
    DaysMean(e.calendar, w);
    CoverageMeans(e.calendar, run, w);
    InvoicesMean(e.calendar, e.invoices, w);
    FreshnessMeans(run.serviceEvents, now);
    FreshnessMeans(run.invoiceStatus, now);
    hide Holds, ServiceDates, CoverageProvesAbsence, InvoiceExists, Covered, Billed, FreshnessOf, TooOld;
  }

  /** Over gates that hold, no reason applies. */
  lemma {:induction false} NoReasonBefore(k: nat, e: Evidence, run: Manifest, now: int, w: WorkOrder, q: SkipReason)
    requires k <= |GATES| && AllBefore(k, e, run, now, w) && Rank(q) < k
    ensures !Applies(q, e, run, now, w)
  {
    RankedIsGate(q);
    hide Holds, Applies;
    GateMeans(Rank(q), e, run, now, w);
  }

  /**
   The whole rule. A work order matches exactly when no reason applies to it; it is skipped for a reason exactly when
   that reason applies and none that ranks before it does.
   */
  lemma VerdictFollowsRule(e: Evidence, run: Manifest, now: int, w: WorkOrder, reason: SkipReason)
    ensures VerdictOn(e, run, now, w).Matched? <==> forall q: SkipReason :: !Applies(q, e, run, now, w)
    ensures VerdictOn(e, run, now, w) == Skipped(reason)
       <==> Applies(reason, e, run, now, w)
            && forall q: SkipReason | Rank(q) < Rank(reason) :: !Applies(q, e, run, now, w)
  {
    var found := FirstFailing(0, e, run, now, w);
    var k := found.GetOr(|GATES|);
    assert AllBefore(k, e, run, now, w);
    forall q: SkipReason | Rank(q) < k ensures !Applies(q, e, run, now, w) {
      NoReasonBefore(k, e, run, now, w, q);
    }
    if found.Some? {
      GateMeans(k, e, run, now, w);
      ReasonsAreGates(k);
      hide Holds, Applies, FindingOf, SkipFor, GATES;
      OneRank(reason, SkipFor(GATES[k]));
    } else {
      NothingApplies(e, run, now, w, reason);
      hide Holds, Applies, FindingOf, SkipFor;
      forall q: SkipReason ensures !Applies(q, e, run, now, w) {
        NothingApplies(e, run, now, w, q);
      }
    }
  }

  lemma NothingApplies(e: Evidence, run: Manifest, now: int, w: WorkOrder, q: SkipReason)
    requires AllBefore(|GATES|, e, run, now, w)
    ensures !Applies(q, e, run, now, w)
  {
    if !q.AlreadyRepresented? {
      RankedIsGate(q);
      NoReasonBefore(|GATES|, e, run, now, w, q);
    }
  }

  lemma OneRank(p: SkipReason, q: SkipReason)
    ensures Rank(p) == Rank(q) <==> p == q
  {
  }

  // ---------------------------------------------------------------- what a match says

  /**
   What a match reports: the day of the occurrence; a deadline thirty days after the delay ran out; high severity from
   sixty days after it, else medium from thirty days or from a thousand, else low; never stale evidence, aging when one
   of the feeds is past three quarters of its limit, unknown when none is and one has no limit.
   */
  lemma MatchReports(e: Evidence, run: Manifest, now: int, w: WorkOrder)
    requires VerdictOn(e, run, now, w).Matched?
    ensures w.completedAt.Some? && w.obligation.Some?
    ensures var f := VerdictOn(e, run, now, w).finding;
            var due := w.completedAt.value + w.obligation.value.delayDays * 86400;
            && f.serviceDate == OccurrenceDay(e.calendar, w)
            && due <= now && f.deadline == due + 30 * 86400
            && f.financial == Some(CandidateValue(w, w.obligation.value))
            && (f.severity.High? <==> now - due >= 60 * 86400)
            && (f.severity.Medium? <==>
                  && now - due < 60 * 86400
                  && (now - due >= 30 * 86400
                      || (f.financial.value.candidateValue.Some?
                          && f.financial.value.candidateValue.value >= 1000_0000)))
            && !f.severity.Critical?
            && !f.freshness.StaleData?
            && (f.freshness.AgingData? <==>
                  GettingOld(run.serviceEvents, now) || GettingOld(run.invoiceStatus, now))
            && (f.freshness.UnknownAge? <==>
                  && !GettingOld(run.serviceEvents, now) && !GettingOld(run.invoiceStatus, now)
                  && !(Limited(run.serviceEvents) && Limited(run.invoiceStatus)))
  {
    DetectorLaws.MatchFacts(e, run, now, w);
    hide Holds, VerdictOn, ServiceDates, CandidateValue, FreshnessOf, Applies, TooOld, GettingOld;
    DaysMean(e.calendar, w);
    VerdictFollowsRule(e, run, now, w, AlreadyRepresented);
    Unstale(e, run, now, w);
    FreshnessMeans(run.serviceEvents, now);
    FreshnessMeans(run.invoiceStatus, now);
  }

  lemma Unstale(e: Evidence, run: Manifest, now: int, w: WorkOrder)
    requires w.completedAt.Some? && w.obligation.Some?
    requires forall q: SkipReason :: !Applies(q, e, run, now, w)
    ensures !TooOld(run.serviceEvents, now) && !TooOld(run.invoiceStatus, now)
    ensures w.completedAt.value + w.obligation.value.delayDays * 86400 <= now
  {
    assert !Applies(OperationsStale, e, run, now, w) && !Applies(AccountingStale, e, run, now, w);
    assert !Applies(DelayNotElapsed, e, run, now, w);
    hide TooOld;
  }

  /** What an evaluation reports besides its verdicts: its version, and for each feed whether it is stale or aging. */
  lemma OutputReports(e: Evidence, run: Manifest, now: int)
    ensures var o := OutputFor(e, run, now);
            && o.ruleVersion == 1
            && (o.operations.StaleData? <==> TooOld(run.serviceEvents, now))
            && (o.operations.AgingData? <==> GettingOld(run.serviceEvents, now))
            && (o.operations.UnknownAge? <==> !Limited(run.serviceEvents))
            && (o.accounting.StaleData? <==> TooOld(run.invoiceStatus, now))
            && (o.accounting.AgingData? <==> GettingOld(run.invoiceStatus, now))
            && (o.accounting.UnknownAge? <==> !Limited(run.invoiceStatus))
  {
    FreshnessMeans(run.serviceEvents, now);
    FreshnessMeans(run.invoiceStatus, now);
    hide VerdictOn, FreshnessOf;
  }

  /** What a reported value rests on: its source, the figures it was computed from, or the figure that is missing. */
  lemma ValueNamesItsGrounds(w: WorkOrder, o: Obligation)
    ensures var notes := CandidateValue(w, o).assumptions;
            var basis := if w.basis.Some? then w.basis.value else o.basis;
            var pays := w.rate.Some? && w.rate.value > 0;
            && "work_order_id" in notes && notes["work_order_id"] == Ledger.Number(w.id)
            && "basis_source" in notes
            && notes["basis_source"] == Ledger.Text(if w.basis.Some? then "work_order" else "service_obligation")
            && ("missing" in notes ==>
                  notes["missing"] == Ledger.Text(
                    match basis
                    case FixedAmount => "approved_fixed_amount"
                    case ActualHours => if w.hours.None? then "approved_hours" else "bill_rate"
                    case ScheduledHours => "scheduled_hours"
                    case _ => "billing_basis"))
            && ("approved_fixed_amount" in notes <==> basis.FixedAmount? && w.fixedAmount.Some?)
            && ("approved_fixed_amount" in notes ==>
                  notes["approved_fixed_amount"] == Ledger.Number(w.fixedAmount.value))
            && ("bill_rate" in notes <==> basis.ActualHours? && w.hours.Some? && (pays || o.defaultRate.Some?))
            && ("bill_rate" in notes ==>
                  && "approved_hours" in notes && notes["approved_hours"] == Ledger.Number(w.hours.value)
                  && notes["bill_rate"] == Ledger.Number(if pays then w.rate.value else o.defaultRate.value)
                  && "rate_source" in notes
                  && notes["rate_source"] == Ledger.Text(if pays then "work_order" else "service_obligation"))
  {
    hide HourlyValue;
  }
}
