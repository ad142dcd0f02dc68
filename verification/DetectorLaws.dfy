/** What the completed-but-unbilled rule guarantees, whatever the evidence. */
module DetectorLaws {
  import opened Common
  import opened Detection
  import opened Operations
  import opened Rounding
  import opened UnbilledDetector
  import Accounting
  import Cases
  import CaseHistory
  import CaseInvariant
  import Ledger

  lemma VerdictIsJustified(e: Evidence, run: Manifest, now: int, w: WorkOrder)
    ensures Justified(e, run, now, w, VerdictOn(e, run, now, w))
  {
    var found := FirstFailing(0, e, run, now, w);
    hide Holds, FindingOf;
    if found.None? {
      assert Holds(GATES[3], e, run, now, w) && Holds(GATES[4], e, run, now, w);
      GateFacts(e, run, now, w);
    }
  }

  lemma GateFacts(e: Evidence, run: Manifest, now: int, w: WorkOrder)
    ensures Holds(GATES[3], e, run, now, w) ==> w.completedAt.Some?
    ensures Holds(GATES[4], e, run, now, w) ==> w.obligation.Some?
  {
  }

  /** A work order matches exactly when all thirteen conditions hold. */
  lemma MatchIffQualifies(e: Evidence, run: Manifest, now: int, w: WorkOrder)
    ensures VerdictOn(e, run, now, w).Matched? <==> Qualifies(e, run, now, w)
  {
    var found := FirstFailing(0, e, run, now, w);
    hide Holds, FindingOf;
    if found.Some? {
      assert GATES[found.value] in GATES;
    }
  }

  /**
   The verdict is the only justified one: a match with the prescribed finding when every condition holds,
   and otherwise the reason of the first condition, in coded order, that fails.
   */
  lemma VerdictIffJustified(e: Evidence, run: Manifest, now: int, w: WorkOrder, v: Verdict)
    ensures v == VerdictOn(e, run, now, w) <==> Justified(e, run, now, w, v)
  {
    VerdictIsJustified(e, run, now, w);
    MatchIffQualifies(e, run, now, w);
    if Justified(e, run, now, w, v) {
      hide Holds, FindingOf;
      if v.Skipped? {
        var k :| 0 <= k < |GATES| && AllBefore(k, e, run, now, w) && !Holds(GATES[k], e, run, now, w)
                 && v.reason == SkipFor(GATES[k]);
        FirstFailure(0, k, e, run, now, w);
      }
    }
  }

  /** One result per work order, in order; scanned is matches plus skipped. */
  lemma OneResultPerWorkOrder(e: Evidence, run: Manifest, now: int)
    ensures var o := OutputFor(e, run, now);
            && |o.results| == o.scanned == |e.workOrders|
            && (forall k | 0 <= k < |o.results| :: o.results[k].subject == e.workOrders[k].id)
            && o.scanned == |Matches(o.results)| + SkippedTotal(SkipReasons(o.results))
    ensures KeysUnique(e.workOrders) ==> CaseHistory.SubjectsDistinct(OutputFor(e, run, now).results)
  {
    hide VerdictOn, SkippedTotal;
    MatchedOrSkipped(OutputFor(e, run, now).results);
  }

  lemma MatchFacts(e: Evidence, run: Manifest, now: int, w: WorkOrder)
    requires VerdictOn(e, run, now, w).Matched?
    ensures w.obligation.Some? && w.completedAt.Some? && ServiceDates(e.calendar, w).Some?
    ensures VerdictOn(e, run, now, w).finding == FindingOf(e, run, now, w)
    ensures forall g <- GATES :: Holds(g, e, run, now, w)
  {
    MatchIffQualifies(e, run, now, w);
    VerdictIsJustified(e, run, now, w);
    hide Holds, FindingOf;
  }

  /**
   A match rests on evidence: some declaration in the run's accounting input is a complete, authoritative,
   committed snapshot of the right ledger, in scope, with no row left out, whose interval contains every
   date an invoice for the occurrence might carry; and no invoice that is not void is linked to the work
   order, or stands for its customer and site on any of those dates.
   */
  lemma MatchRestsOnEvidence(e: Evidence, run: Manifest, now: int, w: WorkOrder)
    requires VerdictOn(e, run, now, w).Matched?
    ensures var dates := ServiceDates(e.calendar, w).value.candidates;
            && run.invoiceStatus.Some?
            && (exists c <- run.invoiceStatus.value.coverage :: Covers(e.calendar, c, w, dates))
            && (forall i <- e.invoices :: !i.status.VoidInvoice? ==>
                  && i.workOrder != Some(w.id)
                  && !(i.customer == w.customer && i.site == w.site && i.serviceDate in dates))
  {
    MatchFacts(e, run, now, w);
    assert GATES[11] in GATES && GATES[12] in GATES;
    EvidenceGatesRead(e, run, now, w);
    hide Covers, VerdictOn, ServiceDates, Holds, FindingOf;
    var dates := ServiceDates(e.calendar, w).value.candidates;
    forall i <- e.invoices | !i.status.VoidInvoice?
      ensures i.workOrder != Some(w.id) && !(i.customer == w.customer && i.site == w.site && i.serviceDate in dates)
    {
      assert !Bills(i, w, dates);
    }
  }

  lemma InvoicesOnlyDecideTheLastGate(
    g: Gate, e: Evidence, invoices: seq<Accounting.Invoice>, run: Manifest, now: int, w: WorkOrder)
    requires g != NotInvoiced
    ensures Holds(g, e.(invoices := invoices), run, now, w) <==> Holds(g, e, run, now, w)
  {
  }

  /** More invoices never create a match: what matches with them matched without them, with the same finding. */
  lemma InvoicesNeverCreateMatch(
    e: Evidence, more: seq<Accounting.Invoice>, run: Manifest, now: int, w: WorkOrder)
    requires forall i <- e.invoices :: i in more
    requires VerdictOn(e.(invoices := more), run, now, w).Matched?
    ensures VerdictOn(e, run, now, w) == VerdictOn(e.(invoices := more), run, now, w)
  {
    var e' := e.(invoices := more);
    MatchFacts(e', run, now, w);
    forall g <- GATES ensures Holds(g, e, run, now, w) {
      if g.NotInvoiced? {
        assert Holds(g, e', run, now, w);
        FewerInvoices(e, more, run, now, w);
      } else {
        InvoicesOnlyDecideTheLastGate(g, e, more, run, now, w);
      }
    }
    MatchIffQualifies(e, run, now, w);
    MatchFacts(e, run, now, w);
    hide Holds, VerdictOn, CandidateValue;
  }

  lemma FewerInvoices(e: Evidence, more: seq<Accounting.Invoice>, run: Manifest, now: int, w: WorkOrder)
    requires forall i <- e.invoices :: i in more
    requires Holds(NotInvoiced, e.(invoices := more), run, now, w)
    ensures Holds(NotInvoiced, e, run, now, w)
  {
    hide Bills;
  }

  /** Void invoices make no difference at all. */
  lemma VoidInvoicesAreIgnored(
    e: Evidence, added: Accounting.Invoice, run: Manifest, now: int, w: WorkOrder)
    requires added.status.VoidInvoice?
    ensures VerdictOn(e.(invoices := e.invoices + [added]), run, now, w) == VerdictOn(e, run, now, w)
  {
    var e' := e.(invoices := e.invoices + [added]);
    forall g: Gate ensures Holds(g, e', run, now, w) <==> Holds(g, e, run, now, w) {
      if g.NotInvoiced? {
        forall dates: set<int> ensures InvoiceExists(e'.invoices, w, dates) <==> InvoiceExists(e.invoices, w, dates) {
          if i :| i in e.invoices && Bills(i, w, dates) {
            assert i in e'.invoices;
          }
        }
      } else {
        InvoicesOnlyDecideTheLastGate(g, e, e.invoices + [added], run, now, w);
      }
    }
    hide Holds;
    SameGatesSameVerdict(e, e', run, now, w);
  }

  lemma SameGatesSameVerdict(e: Evidence, e': Evidence, run: Manifest, now: int, w: WorkOrder)
    requires e'.calendar == e.calendar
    requires forall g: Gate :: Holds(g, e', run, now, w) <==> Holds(g, e, run, now, w)
    ensures VerdictOn(e', run, now, w) == VerdictOn(e, run, now, w)
  {
    var found, found' := FirstFailing(0, e, run, now, w), FirstFailing(0, e', run, now, w);
    hide Holds;
    assert found == found';
    if found.None? {
      MatchFacts(e, run, now, w);
      MatchFacts(e', run, now, w);
    }
  }

  // ---------------------------------------------------------------- value

  /** A candidate is manual exactly when it has no amount; an amount is never negative. */
  lemma ManualIffNoAmount(w: WorkOrder, o: Obligation)
    ensures var f := CandidateValue(w, o);
            && (f.basis.ManualAmountRequired? <==> f.candidateValue.None?)
            && (f.candidateValue.Some? ==> f.candidateValue.value >= 0)
            && "approved_from_snapshot" !in f.assumptions
            && (f.basis.ManualAmountRequired? <==> "missing" in f.assumptions)
  {
  }

  /** The rate that prices the hours: a positive one on the work order, else the obligation's. */
  predicate Prices(w: WorkOrder, o: Obligation, rate: nat) {
    if w.rate.Some? && w.rate.value > 0 then rate == w.rate.value else o.defaultRate == Some(rate)
  }

  /**
   When a value is known, and which: the fixed amount, or the hours at the pricing rate within half a
   ten-thousandth. A rate of zero on the work order is no rate.
   */
  lemma ValueKnownIff(w: WorkOrder, o: Obligation)
    ensures CandidateValue(w, o).candidateValue.Some? <==>
            || (DeclaredBasis(w, o).FixedAmount? && w.fixedAmount.Some?)
            || (DeclaredBasis(w, o).ActualHours? && w.hours.Some? && exists rate: nat :: Prices(w, o, rate))
    ensures DeclaredBasis(w, o).FixedAmount? && w.fixedAmount.Some? ==>
              CandidateValue(w, o).candidateValue == w.fixedAmount && CandidateValue(w, o).basis.FixedWorkOrder?
    ensures DeclaredBasis(w, o).ActualHours? && w.hours.Some? ==>
              forall rate: nat | Prices(w, o, rate) ::
                && CandidateValue(w, o).basis.HourlyActual?
                && -100 < 2 * (CandidateValue(w, o).candidateValue.value * 100 - w.hours.value * rate) <= 100
  {
    var rate := EffectiveRate(w, o);
    if rate.Some? {
      assert Prices(w, o, rate.value);
      if w.hours.Some? {
        HourlyValueIsExactEnough(w.hours.value, rate.value);
      }
    }
    hide HourlyValue;
  }

  function SeverityRank(s: Severity): nat {
    match s case Low => 0 case Medium => 1 case High => 2 case Critical => 3
  }

  /** Severity never falls as a candidate ages or grows. */
  lemma SeverityGrows(value: Money, more: Money, days: int, later: int)
    requires value <= more && days <= later
    ensures SeverityRank(SeverityOf(Some(value), days)) <= SeverityRank(SeverityOf(Some(more), later))
    ensures SeverityRank(SeverityOf(None, days)) <= SeverityRank(SeverityOf(Some(value), later))
  {
  }

  // ---------------------------------------------------------------- with the books and the desk

  /**
   The accounting derivation agrees with a match: on the same invoices a fresh item for the occurrence is
   unbilled, undisputed and has no amounts.
   */
  lemma MatchIsUnbilled(
    e: Evidence, run: Manifest, now: int, w: WorkOrder, payments: seq<Accounting.Payment>, currency: Currency)
    requires VerdictOn(e, run, now, w).Matched?
    ensures var scope := Accounting.Scope(w.id, w.customer, w.site,
                Some(VerdictOn(e, run, now, w).finding.serviceDate));
            Accounting.Derive(Accounting.NoInvoice, currency, scope, Accounting.Books(e.invoices, payments))
            == Accounting.Derivation(Accounting.NoInvoice, None, None, None, [])
  {
    MatchRestsOnEvidence(e, run, now, w);
    MatchFacts(e, run, now, w);
    var dates := ServiceDates(e.calendar, w).value;
    var scope := Accounting.Scope(w.id, w.customer, w.site, Some(dates.primary));
    assert dates.primary in dates.candidates;
    hide VerdictOn, Holds, ServiceDates, Covers, Accounting.Matching;
    forall k, status | 0 <= k < |e.invoices| && status != Accounting.VoidInvoice
      ensures !Accounting.Matches(e.invoices[k], scope, status)
    {
      assert e.invoices[k] in e.invoices;
    }
    assert FindingOf(e, run, now, w).serviceDate == dates.primary;
  }

  /** The condition on values that a persist asks of every match is always met. */
  lemma FindingsAreSound(e: Evidence, run: Manifest, now: int)
    ensures forall r <- OutputFor(e, run, now).results :: r.verdict.Matched? ==>
              CaseHistory.SoundFinding(r.verdict.finding) && r.verdict.finding.financial.Some?
  {
    forall r <- OutputFor(e, run, now).results | r.verdict.Matched?
      ensures CaseHistory.SoundFinding(r.verdict.finding) && r.verdict.finding.financial.Some?
    {
      var k :| 0 <= k < |e.workOrders| && ResultsFor(e, run, now)[k] == r;
      MatchFacts(e, run, now, e.workOrders[k]);
      ManualIffNoAmount(e.workOrders[k], e.workOrders[k].obligation.value);
      hide VerdictOn, Holds, CandidateValue;
    }
  }

  /**
   Evaluating and persisting commits exactly when no matched work order already has a recovery item under
   another service date.
   */
  lemma EvaluationCommitsIff(
    d: Cases.Desk, e: Evidence, run: Manifest, now: int, info: Cases.RunInfo, currencies: map<nat, Currency>)
    requires CaseInvariant.DeskInv(d) && KeysUnique(e.workOrders)
    ensures Cases.Persist(d, OutputFor(e, run, now), info, currencies).Persisted?
       <==> forall w <- e.workOrders :: VerdictOn(e, run, now, w).Matched? ==>
              !CaseHistory.OtherOccurrence(d, w.id, VerdictOn(e, run, now, w).finding.serviceDate)
  {
    var output := OutputFor(e, run, now);
    OneResultPerWorkOrder(e, run, now);
    FindingsAreSound(e, run, now);
    CaseHistory.PersistCommitsIff(d, output, info, currencies);
    hide CaseInvariant.CasesInv, CaseInvariant.Linked, Cases.Persist, CaseHistory.OtherOccurrence, OutputFor,
         VerdictOn, ServiceDates, CaseHistory.SoundFinding;
    forall w <- e.workOrders ensures DetectionResult(w.id, VerdictOn(e, run, now, w)) in output.results {
      ResultIsListed(e, run, now, w);
    }
    forall r <- output.results | r.verdict.Matched?
      ensures exists w <- e.workOrders :: r == DetectionResult(w.id, VerdictOn(e, run, now, w))
    {
      ResultHasWorkOrder(e, run, now, r);
    }
  }

  lemma ResultIsListed(e: Evidence, run: Manifest, now: int, w: WorkOrder)
    requires w in e.workOrders
    ensures DetectionResult(w.id, VerdictOn(e, run, now, w)) in OutputFor(e, run, now).results
    ensures VerdictOn(e, run, now, w).Matched? ==>
              && ServiceDates(e.calendar, w).Some?
              && VerdictOn(e, run, now, w).finding.serviceDate == ServiceDates(e.calendar, w).value.primary
  {
    var k :| 0 <= k < |e.workOrders| && e.workOrders[k] == w;
    assert OutputFor(e, run, now).results[k] == DetectionResult(w.id, VerdictOn(e, run, now, w));
    if VerdictOn(e, run, now, w).Matched? {
      MatchFacts(e, run, now, w);
    }
    hide VerdictOn, Holds, CandidateValue;
  }

  lemma ResultHasWorkOrder(e: Evidence, run: Manifest, now: int, r: DetectionResult)
    requires r in OutputFor(e, run, now).results
    ensures exists w <- e.workOrders :: r == DetectionResult(w.id, VerdictOn(e, run, now, w))
  {
    hide VerdictOn;
    var k :| 0 <= k < |e.workOrders| && ResultsFor(e, run, now)[k] == r;
    assert e.workOrders[k] in e.workOrders;
  }

  /**
   The counts of a committed evaluation balance: every scanned work order is a match or skipped, and every
   match created or refreshed a case, besides the earlier cases whose timeline gained a contradiction.
   */
  lemma RunCountsBalance(
    d: Cases.Desk, e: Evidence, run: Manifest, now: int, info: Cases.RunInfo, currencies: map<nat, Currency>)
    requires CaseInvariant.DeskInv(d) && Cases.Persist(d, OutputFor(e, run, now), info, currencies).Persisted?
    ensures var o := Cases.Persist(d, OutputFor(e, run, now), info, currencies);
            var matches := |Matches(OutputFor(e, run, now).results)|;
            && o.counts.scanned == |e.workOrders| == matches + o.counts.skipped
            && o.counts.created == |o.desk.cases| - |d.cases|
            && o.counts.created + o.counts.updated == matches + |CaseHistory.GainedEvent(d.cases, o.desk.cases)|
  {
    CaseHistory.CountsAreExact(d, OutputFor(e, run, now), info, currencies);
    ScannedIsRecorded(d, OutputFor(e, run, now), info, currencies);
    hide CaseInvariant.DeskInv, Cases.Persist, VerdictOn, CaseHistory.GainedEvent;
  }

  lemma ScannedIsRecorded(d: Cases.Desk, output: DetectorOutput, info: Cases.RunInfo, currencies: map<nat, Currency>)
    ensures var o := Cases.Persist(d, output, info, currencies); o.Persisted? ==> o.counts.scanned == output.scanned
  {
    hide Cases.PersistMatches, SkippedTotal, Cases.FlagCount;
  }
}
