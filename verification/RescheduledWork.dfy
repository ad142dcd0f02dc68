/** A completed work order whose scheduled day moves between two evaluations poisons every later persist. */
module RescheduledWork {
  import opened Common
  import opened Detection
  import opened Operations
  import opened UnbilledDetector
  import opened Cases
  import Agreement
  import CaseHistory
  import CaseInvariant
  import CaseRuns
  import DetectorLaws
  import Ledger
  import LedgerInvariant
  import Poison

  const NOW := 10 * DAY
  const TERMS := Obligation(0, BaseRecurring, FixedAmount, None, false, 5)
  const AGREEMENT := Contract(0, true, 0, None, "USD")
  const FIRST_RUN := RunInfo(1, NOW)
  const SECOND_RUN := RunInfo(2, NOW)

  /** A snapshot of the ledger that covers the first twenty days without a quarantined row. */
  const FEED := RunInput(
    None, [Coverage(true, true, true, true, AccountingServiceDateLedger, 1, WholeOrganization, false, 0, 20 * DAY)])
  const MANIFEST := Manifest(None, Some(FEED))

  /** Completed on day 1 for a fixed 100.00, scheduled on the given day. */
  function Job(day: nat): WorkOrder {
    WorkOrder(0, 0, 0, 0, AGREEMENT, Some(TERMS), Some(day * DAY), Some(DAY), Completed,
              true, false, "", None, None, Some(100_0000), None, None)
  }

  /** Every site in one zone, days of 86400 seconds. */
  function Rows(day: nat): Evidence {
    Evidence([Job(day)], {0}, [], false, false, Calendar((zone: nat, instant: int) => instant / DAY))
  }

  lemma JobDates(day: nat)
    requires day <= 1
    ensures ServiceDates(Rows(day).calendar, Job(day)) == Some(Dates(day, {day, 1}))
  {
    assert Rows(day).calendar.date(0, day * DAY) == day;
    assert Rows(day).calendar.date(0, DAY) == 1;
    var both: set<int> := {day} + {1};
    assert both == {day, 1};
  }

  lemma JobIsCovered(day: nat)
    requires day <= 1
    ensures CoverageProvesAbsence(Rows(day).calendar, MANIFEST, Job(day), {day, 1})
  {
    var calendar, c, dates: set<int> := Rows(day).calendar, FEED.coverage[0], {day, 1};
    assert calendar.date(0, 0) == 0 && calendar.date(0, 20 * DAY) == 20;
    assert Admissible(c, Job(day));
    assert Covers(calendar, c, Job(day), dates);
    hide Covers;
    assert MANIFEST.invoiceStatus == Some(FEED) && c in FEED.coverage;
    assert exists k <- FEED.coverage :: Covers(calendar, k, Job(day), dates);
    assert CoverageProvesAbsence(calendar, MANIFEST, Job(day), dates);
  }

  /** Whichever of the two days it is scheduled on, the job matches, under that day. */
  lemma JobMatches(day: nat)
    requires day <= 1
    ensures VerdictOn(Rows(day), MANIFEST, NOW, Job(day)).Matched?
    ensures VerdictOn(Rows(day), MANIFEST, NOW, Job(day)).finding.serviceDate == day
  {
    var e, w := Rows(day), Job(day);
    JobDates(day);
    JobIsCovered(day);
    WorkGatesRead(e, MANIFEST, NOW, w);
    EvidenceGatesRead(e, MANIFEST, NOW, w);
    hide Holds, CoverageProvesAbsence, ServiceDates, Rows, FindingOf;
    forall g <- GATES ensures Holds(g, e, MANIFEST, NOW, w) {
      var k :| 0 <= k < |GATES| && GATES[k] == g;
    }
    DetectorLaws.MatchIffQualifies(e, MANIFEST, NOW, w);
    DetectorLaws.MatchFacts(e, MANIFEST, NOW, w);
    JobFinding(day);
  }

  lemma JobFinding(day: nat)
    requires day <= 1
    ensures FindingOf(Rows(day), MANIFEST, NOW, Job(day)).serviceDate == day
  {
    JobDates(day);
    hide ServiceDates, Rows;
  }

  lemma OneJob(day: nat)
    ensures KeysUnique(Rows(day).workOrders)
    ensures forall w <- Rows(day).workOrders :: w == Job(day)
    ensures Job(day) in Rows(day).workOrders
  {
    assert Rows(day).workOrders == [Job(day)];
  }

  function Output(day: nat): DetectorOutput {
    OutputFor(Rows(day), MANIFEST, NOW)
  }

  lemma NothingRecordedYet()
    ensures CaseInvariant.DeskInv(EMPTY_DESK)
    ensures forall w, date :: !CaseHistory.OtherOccurrence(EMPTY_DESK, w, date)
  {
    LedgerInvariant.EmptyInv();
  }

  /** The first evaluation commits. */
  lemma FirstPersistCommits()
    ensures Persist(EMPTY_DESK, Output(1), FIRST_RUN, map[]).Persisted?
  {
    NothingRecordedYet();
    OneJob(1);
    hide Output, CaseInvariant.DeskInv, CaseHistory.OtherOccurrence, VerdictOn, Rows, Persist;
    DetectorLaws.EvaluationCommitsIff(EMPTY_DESK, Rows(1), MANIFEST, NOW, FIRST_RUN, map[]);
    OutputMeans(1);
  }

  lemma OutputMeans(day: nat)
    ensures Output(day) == OutputFor(Rows(day), MANIFEST, NOW)
  {
  }

  function FirstAction(): CaseRuns.Action {
    CaseRuns.PersistAsked(Output(1), FIRST_RUN, map[])
  }

  lemma DeskAfterFirst()
    ensures var o := Persist(EMPTY_DESK, Output(1), FIRST_RUN, map[]);
            o.Persisted? && CaseRuns.Run(EMPTY_DESK, [FirstAction()]) == o.desk
  {
    FirstPersistCommits();
    hide Output, Persist;
    assert [FirstAction()][1..] == [];
    var d := CaseRuns.Step(EMPTY_DESK, FirstAction());
    assert CaseRuns.Run(d, []) == d;
  }

  function JobResult(day: nat): DetectionResult {
    DetectionResult(0, VerdictOn(Rows(day), MANIFEST, NOW, Job(day)))
  }

  lemma JobIsReported(day: nat)
    requires day <= 1
    ensures JobResult(day) in Output(day).results && JobResult(day).subject == 0
    ensures JobResult(day).verdict.Matched? && JobResult(day).verdict.finding.serviceDate == day
    ensures JobResult(day).verdict.finding.financial.Some?
    ensures CaseHistory.SubjectsDistinct(Output(day).results) && Agreement.Reported(Matches(Output(day).results))
  {
    JobMatches(day);
    OneJob(day);
    DetectorLaws.OneResultPerWorkOrder(Rows(day), MANIFEST, NOW);
    DetectorLaws.ResultIsListed(Rows(day), MANIFEST, NOW, Job(day));
    DetectorLaws.FindingsAreSound(Rows(day), MANIFEST, NOW);
    Agreement.FindingsAreReported(Rows(day), MANIFEST, NOW);
    hide OutputFor, VerdictOn, Rows, Agreement.Reported, CaseHistory.SubjectsDistinct, CaseHistory.SoundFinding;
  }

  /** Afterwards the job carries an item under day 1. */
  lemma JobIsRecorded(d: Desk, counts: Counts)
    requires Persist(EMPTY_DESK, Output(1), FIRST_RUN, map[]) == Persisted(d, counts)
    ensures CaseInvariant.DeskInv(d) && Agreement.Recorded(d, JobResult(1))
  {
    NothingRecordedYet();
    JobIsReported(1);
    EmptyIsCurrent();
    hide Output, JobResult, Persist, CaseInvariant.DeskInv, Agreement.CandidatesCurrent, Agreement.Reported,
         Agreement.Recorded, CaseHistory.OtherOccurrence;
    Agreement.PersistRecords(EMPTY_DESK, Output(1), FIRST_RUN, map[], JobResult(1));
    CaseInvariant.PersistKeeps(EMPTY_DESK, Output(1), FIRST_RUN, map[]);
  }

  lemma RecordedElsewhere(d: Desk, r: DetectionResult, date: int)
    requires CaseInvariant.DeskInv(d) && Agreement.Recorded(d, r)
             && r.verdict.Matched? && r.verdict.finding.serviceDate != date
    ensures CaseHistory.OtherOccurrence(d, r.subject, date)
  {
    hide CaseInvariant.CasesInv, LedgerInvariant.Inv, Agreement.Says;
    var i :| 0 <= i < |d.ledger.records| && Agreement.RecordFor(d, i, r);
    assert d.cases[d.ledger.records[i].caseId].serviceDate != date;
  }

  lemma EmptyIsCurrent()
    ensures Agreement.CandidatesCurrent(EMPTY_DESK.ledger)
  {
  }

  /**
   The job is evaluated as scheduled on day 1, and the evaluation commits. Its schedule moves to day 0 and it is
   evaluated again: it matches, and the persist is rolled back, now and after anything else that happens.
   */
  lemma RescheduledJobIsPoisoned(later: seq<CaseRuns.Action>)
    ensures var d := CaseRuns.Run(EMPTY_DESK, [FirstAction()]);
            && Persist(EMPTY_DESK, Output(1), FIRST_RUN, map[]).Persisted?
            && VerdictOn(Rows(0), MANIFEST, NOW, Job(0)).Matched?
            && Persist(CaseRuns.Run(d, later), Output(0), SECOND_RUN, map[]).RolledBack?
  {
    FirstPersistCommits();
    DeskAfterFirst();
    JobIsReported(1);
    JobIsReported(0);
    hide Output, JobResult, Persist, CaseRuns.Run, CaseInvariant.CasesInv, LedgerInvariant.Inv,
         CaseHistory.OtherOccurrence, Agreement.Recorded, Agreement.Reported, CaseHistory.SubjectsDistinct;
    var o := Persist(EMPTY_DESK, Output(1), FIRST_RUN, map[]);
    JobIsRecorded(o.desk, o.counts);
    RecordedElsewhere(o.desk, JobResult(1), 0);
    JobMatches(0);
    assert CaseHistory.Collides(o.desk, JobResult(0));
    Poison.PoisonedForever(o.desk, later, JobResult(0), Output(0), SECOND_RUN, map[]);
  }
}
