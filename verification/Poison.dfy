/**
 The desk and the recovery ledger together: every reachable desk carries a reachable ledger, and a work order
 whose service date moved after its item was recorded can never be persisted again.
 */
module Poison {
  import opened Common
  import opened Detection
  import opened Cases
  import opened CaseInvariant
  import opened CaseRuns
  import opened CaseHistory
  import Ledger
  import LedgerInvariant
  import LedgerRuns

  // ---------------------------------------------------------------- the ledger inside the desk

  lemma {:induction false} LedgerRunAppend(s: Ledger.State, a: seq<LedgerRuns.Action>, b: seq<LedgerRuns.Action>)
    ensures LedgerRuns.Run(s, a + b) == LedgerRuns.Run(LedgerRuns.Run(s, a), b)
    decreases |a|
  {
    hide LedgerRuns.Step;
    if a == [] {
      assert a + b == b;
    } else {
      assert (a + b)[0] == a[0] && (a + b)[1..] == a[1..] + b;
      LedgerRunAppend(LedgerRuns.Step(s, a[0]), a[1..], b);
    }
  }

  lemma OneLedgerStep(s: Ledger.State, a: LedgerRuns.Action)
    ensures LedgerRuns.Run(s, [a]) == LedgerRuns.Step(s, a)
  {
    hide LedgerRuns.Step;
    assert [a][1..] == [];
    assert LedgerRuns.Run(LedgerRuns.Step(s, a), []) == LedgerRuns.Step(s, a);
  }

  /** The earlier cases are still there, each for its work order and date. */
  predicate CasesKept(cases: seq<Case>, cases': seq<Case>) {
    && |cases| <= |cases'|
    && forall i | 0 <= i < |cases| :: SameOccurrence(cases'[i], cases[i].workOrder, cases[i].serviceDate)
  }

  lemma RefreshedAreKept(cases: seq<Case>, cases': seq<Case>)
    requires RefreshedAll(cases, cases')
    ensures CasesKept(cases, cases')
  {
    forall i | 0 <= i < |cases| ensures SameOccurrence(cases'[i], cases[i].workOrder, cases[i].serviceDate) {
      assert RefreshedOnly(cases[i], cases'[i]);
    }
  }

  lemma KeptTwice(cases: seq<Case>, cases': seq<Case>, cases'': seq<Case>)
    requires CasesKept(cases, cases') && CasesKept(cases', cases'')
    ensures CasesKept(cases, cases'')
  {
    forall i | 0 <= i < |cases| ensures SameOccurrence(cases''[i], cases[i].workOrder, cases[i].serviceDate) {
      assert SameOccurrence(cases'[i], cases[i].workOrder, cases[i].serviceDate);
    }
  }

  lemma StepKeepsCases(d: Desk, a: Action)
    requires DeskInv(d)
    ensures CasesKept(d.cases, Step(d, a).cases)
  {
    hide DeskInv, Step;
    forall i | 0 <= i < |d.cases|
      ensures i < |Step(d, a).cases|
      ensures SameOccurrence(Step(d, a).cases[i], d.cases[i].workOrder, d.cases[i].serviceDate)
    {
      CaseStep(d, a, i);
    }
    CaseCountGrows(d, a);
  }

  lemma CaseCountGrows(d: Desk, a: Action)
    requires DeskInv(d)
    ensures |d.cases| <= |Step(d, a).cases|
  {
    if |d.cases| > 0 {
      hide DeskInv, Step;
      CaseStep(d, a, |d.cases| - 1);
    }
  }

  /** The ledger action records what the match reports, in the currency of its contract, for the match's own case. */
  predicate RecordsMatch(
    b: LedgerRuns.Action, cases: seq<Case>, r: DetectionResult, currencies: map<nat, Currency>)
  {
    && b.CandidateRecorded? && r.verdict.Matched?
    && r.verdict.finding.financial == Some(b.inputs) && b.calculationVersion == 1
    && b.workOrder == r.subject && b.caseId < |cases|
    && SameOccurrence(cases[b.caseId], r.subject, r.verdict.finding.serviceDate)
    && b.currency == if r.subject in currencies then currencies[r.subject] else "USD"
  }

  predicate RecordsSome(
    b: LedgerRuns.Action, cases: seq<Case>, results: seq<DetectionResult>, currencies: map<nat, Currency>)
  {
    exists r <- results :: RecordsMatch(b, cases, r, currencies)
  }

  lemma RecordsStay(
    b: LedgerRuns.Action, cases: seq<Case>, cases': seq<Case>,
    results: seq<DetectionResult>, more: seq<DetectionResult>, currencies: map<nat, Currency>)
    requires RecordsSome(b, cases, results, currencies) && CasesKept(cases, cases')
    requires forall r <- results :: r in more
    ensures RecordsSome(b, cases', more, currencies)
  {
    var r :| r in results && RecordsMatch(b, cases, r, currencies);
    assert RecordsMatch(b, cases', r, currencies);
  }

  /** Writing the matches is a run of ledger actions, each recording one of the matches. */
  lemma {:induction false} MatchesAsLedgerRun(
    d: Desk, matches: seq<DetectionResult>, ruleVersion: nat, run: RunInfo, currencies: map<nat, Currency>)
    returns (recorded: seq<LedgerRuns.Action>)
    requires DeskInv(d)
    requires AllMatched(matches) && PersistMatches(d, matches, ruleVersion, run, currencies).Progress?
    ensures var after := PersistMatches(d, matches, ruleVersion, run, currencies).desk;
            && LedgerRuns.Run(d.ledger, recorded) == after.ledger
            && forall b <- recorded :: RecordsSome(b, after.cases, matches, currencies)
  {
    recorded := [];
    hide PersistMatch, CasesInv, Linked, LedgerInvariant.Inv, RecordsSome, CasesKept;
    if matches != [] {
      var shorter, r := matches[..|matches| - 1], matches[|matches| - 1];
      assert matches == shorter + [r];
      var before := PersistMatches(d, shorter, ruleVersion, run, currencies).desk;
      var earlier := MatchesAsLedgerRun(d, shorter, ruleVersion, run, currencies);
      PersistMatchesKeep(d, shorter, ruleVersion, run, currencies);
      var last := MatchAsLedgerRun(before, r, ruleVersion, run, currencies);
      LedgerRunAppend(d.ledger, earlier, last);
      recorded := earlier + last;
      var after := PersistMatches(d, matches, ruleVersion, run, currencies).desk;
      KeptBySelf(after.cases);
      forall b <- recorded ensures RecordsSome(b, after.cases, matches, currencies) {
        if b in earlier {
          RecordsStay(b, before.cases, after.cases, shorter, matches, currencies);
        } else {
          RecordsStay(b, after.cases, after.cases, [r], matches, currencies);
        }
      }
    }
  }

  lemma KeptBySelf(cases: seq<Case>)
    ensures CasesKept(cases, cases)
  {
  }

  lemma MatchAsLedgerRun(
    d: Desk, r: DetectionResult, ruleVersion: nat, run: RunInfo, currencies: map<nat, Currency>)
    returns (recorded: seq<LedgerRuns.Action>)
    requires DeskInv(d) && r.verdict.Matched?
    requires PersistMatch(d, r.subject, r.verdict.finding, ruleVersion, run, currencies).Progress?
    ensures var after := PersistMatch(d, r.subject, r.verdict.finding, ruleVersion, run, currencies).desk;
            && LedgerRuns.Run(d.ledger, recorded) == after.ledger
            && CasesKept(d.cases, after.cases)
            && forall b <- recorded :: RecordsSome(b, after.cases, [r], currencies)
  {
    recorded := [];
    var f := r.verdict.finding;
    var u := UpsertCase(d.cases, r.subject, f, ruleVersion, run);
    UpsertKeeps(d.cases, r.subject, f, ruleVersion, run);
    hide UpsertCase, Ledger.RecordCandidate, CasesInv, LedgerInvariant.Inv, RefreshedAll, CasesKept;
    RefreshedAreKept(d.cases, u.cases);
    assert LedgerRuns.Run(d.ledger, []) == d.ledger;
    if f.financial.Some? {
      var c := u.cases[u.at];
      var a := LedgerRuns.CandidateRecorded(
        u.at, c.workOrder, CurrencyOf(currencies, c.workOrder), CALCULATION_VERSION, f.financial.value);
      OneLedgerStep(d.ledger, a);
      recorded := [a];
      assert r in [r] && RecordsMatch(a, u.cases, r, currencies);
    }
  }

  /** What any action does to the ledger is a run of the ledger's own operations. */
  lemma StepAsLedgerRun(d: Desk, a: Action) returns (steps: seq<LedgerRuns.Action>)
    requires DeskInv(d)
    ensures LedgerRuns.Run(d.ledger, steps) == Step(d, a).ledger
    ensures forall b <- steps :: b.CandidateRecorded? ==> Detected(b, Step(d, a).cases, a)
  {
    steps := [];
    if a.PersistAsked? {
      var matches := Matches(a.output.results);
      var p := PersistMatches(d, matches, a.output.ruleVersion, a.run, a.currencies);
      if p.Progress? {
        steps := MatchesAsLedgerRun(d, matches, a.output.ruleVersion, a.run, a.currencies);
        hide PersistMatches, SkippedTotal, FlagCount, DeskInv, RecordsSome;
        FlaggedAreKept(p.desk.cases, a.output, a.run);
        forall b <- steps ensures RecordsSome(b, Step(d, a).cases, a.output.results, a.currencies) {
          RecordsStay(b, p.desk.cases, Step(d, a).cases, matches, a.output.results, a.currencies);
        }
      }
    } else if a.RecoveryAsked? && !a.action.CandidateRecorded? {
      steps := [a.action];
      OneLedgerStep(d.ledger, a.action);
    }
  }

  lemma FlaggedAreKept(cases: seq<Case>, output: DetectorOutput, run: RunInfo)
    ensures CasesKept(cases, FlagCases(cases, output, run))
  {
  }

  /** The ledger action records a match that the desk action persists. */
  predicate Detected(b: LedgerRuns.Action, cases: seq<Case>, a: Action) {
    a.PersistAsked? && RecordsSome(b, cases, a.output.results, a.currencies)
  }

  predicate DetectedBy(b: LedgerRuns.Action, cases: seq<Case>, actions: seq<Action>) {
    exists a <- actions :: Detected(b, cases, a)
  }

  lemma DetectionStays(b: LedgerRuns.Action, cases: seq<Case>, cases': seq<Case>, a: Action)
    requires Detected(b, cases, a) && CasesKept(cases, cases')
    ensures Detected(b, cases', a)
  {
    RecordsStay(b, cases, cases', a.output.results, a.output.results, a.currencies);
  }

  lemma {:induction false} RunKeepsCases(d: Desk, actions: seq<Action>)
    requires DeskInv(d)
    ensures CasesKept(d.cases, Run(d, actions).cases)
    decreases |actions|
  {
    KeptBySelf(d.cases);
    hide DeskInv, Step, CasesKept;
    if actions != [] {
      StepKeeps(d, actions[0]);
      StepKeepsCases(d, actions[0]);
      RunKeepsCases(Step(d, actions[0]), actions[1..]);
      KeptTwice(d.cases, Step(d, actions[0]).cases, Run(d, actions).cases);
    }
  }

  lemma {:induction false} RunAsLedgerRun(d: Desk, actions: seq<Action>) returns (steps: seq<LedgerRuns.Action>)
    requires DeskInv(d)
    ensures LedgerRuns.Run(d.ledger, steps) == Run(d, actions).ledger
    ensures forall b <- steps :: b.CandidateRecorded? ==> DetectedBy(b, Run(d, actions).cases, actions)
    decreases |actions|
  {
    hide Step, DeskInv, Detected, CasesKept;
    steps := [];
    if actions != [] {
      var first := StepAsLedgerRun(d, actions[0]);
      StepKeeps(d, actions[0]);
      var rest := RunAsLedgerRun(Step(d, actions[0]), actions[1..]);
      RunKeepsCases(Step(d, actions[0]), actions[1..]);
      LedgerRunAppend(d.ledger, first, rest);
      steps := first + rest;
      forall b <- steps | b.CandidateRecorded? ensures DetectedBy(b, Run(d, actions).cases, actions) {
        if b in first {
          DetectionStays(b, Step(d, actions[0]).cases, Run(d, actions).cases, actions[0]);
        } else {
          var a :| a in actions[1..] && Detected(b, Run(d, actions).cases, a);
          assert a in actions;
        }
      }
    }
  }

  /**
   Whatever detectors and people do to the cases, the ledger beside them is one the recovery operations alone
   can reach, so conservation, approvals, numbering and replay hold of it; and every recovery item belongs
   to the one case of its work order and date that it was recorded for.
   */
  lemma DeskCarriesReachableLedger(d: Desk)
    requires Reachable(d)
    ensures LedgerRuns.Reachable(d.ledger)
    ensures forall k | 0 <= k < |d.ledger.records| ::
              d.ledger.records[k].caseId < |d.cases|
              && d.ledger.records[k].workOrder == d.cases[d.ledger.records[k].caseId].workOrder
    ensures forall j, k | 0 <= j < k < |d.ledger.records| ::
              d.ledger.records[j].caseId != d.ledger.records[k].caseId
              && d.ledger.records[j].workOrder != d.ledger.records[k].workOrder
  {
    ReachableInv(d);
    LedgerInvariant.EmptyInv();
    var actions :| d == Run(EMPTY_DESK, actions);
    hide Run;
    var steps := RunAsLedgerRun(EMPTY_DESK, actions);
    assert LedgerRuns.Run(Ledger.EMPTY, steps) == d.ledger;
  }

  // ---------------------------------------------------------------- poison

  /** Once a work order is recorded under another date, that stays so. */
  lemma OtherOccurrenceStays(d: Desk, d': Desk, workOrder: nat, serviceDate: int)
    requires Linked(d.cases, d.ledger.records) && Linked(d'.cases, d'.ledger.records)
    requires CasesKept(d.cases, d'.cases) && LedgerRuns.Extends(d.ledger, d'.ledger)
    requires OtherOccurrence(d, workOrder, serviceDate)
    ensures OtherOccurrence(d', workOrder, serviceDate)
  {
    var k :| 0 <= k < |d.ledger.records| && d.ledger.records[k].workOrder == workOrder
             && d.cases[d.ledger.records[k].caseId].serviceDate != serviceDate;
    assert d'.ledger.records[k].workOrder == workOrder
        && d'.cases[d'.ledger.records[k].caseId].serviceDate != serviceDate;
  }

  /** A match that collides aborts, whatever value it reports. */
  lemma CollisionAborts(d: Desk, r: DetectionResult, ruleVersion: nat, run: RunInfo, currencies: map<nat, Currency>)
    requires DeskInv(d) && r.verdict.Matched? && Collides(d, r)
    ensures PersistMatch(d, r.subject, r.verdict.finding, ruleVersion, run, currencies).Aborted?
  {
    var f := r.verdict.finding;
    UpsertKeeps(d.cases, r.subject, f, ruleVersion, run);
    var u := UpsertCase(d.cases, r.subject, f, ruleVersion, run);
    SameOtherOccurrence(d, u.cases, r.subject, f.serviceDate);
    var found := Ledger.FindCase(d.ledger.records, u.at);
    if found.Some? {
      KnownCaseIsAlone(u.cases, d.ledger.records, found.value, u.at);
    }
    assert found.None?;
    var k :| 0 <= k < |d.ledger.records| && d.ledger.records[k].workOrder == r.subject;
    assert LedgerInvariant.RecordInv(d.ledger.records[k]);
    hide UpsertCase, CasesInv, LedgerInvariant.Inv;
    assert Ledger.WorkOrderTaken(d.ledger.records, r.subject);
  }

  lemma ProgressExtends(
    d: Desk, matches: seq<DetectionResult>, ruleVersion: nat, run: RunInfo, currencies: map<nat, Currency>)
    requires DeskInv(d) && AllMatched(matches)
    ensures var p := PersistMatches(d, matches, ruleVersion, run, currencies);
            p.Progress? ==>
              DeskInv(p.desk) && CasesKept(d.cases, p.desk.cases) && LedgerRuns.Extends(d.ledger, p.desk.ledger)
  {
    PersistMatchesKeep(d, matches, ruleVersion, run, currencies);
    var p := PersistMatches(d, matches, ruleVersion, run, currencies);
    hide PersistMatches;
    if p.Progress? {
      var recorded := MatchesAsLedgerRun(d, matches, ruleVersion, run, currencies);
      LedgerRuns.RunExtends(d.ledger, recorded);
      hide DeskInv, LedgerRuns.Extends;
      forall i | 0 <= i < |d.cases|
        ensures SameOccurrence(p.desk.cases[i], d.cases[i].workOrder, d.cases[i].serviceDate)
      {
        assert RefreshedOnly(d.cases[i], p.desk.cases[i]);
      }
    }
  }

  lemma {:induction false} OneCollisionAbortsAll(
    d: Desk, matches: seq<DetectionResult>, ruleVersion: nat, run: RunInfo, currencies: map<nat, Currency>, k: nat)
    requires DeskInv(d) && AllMatched(matches) && k < |matches| && Collides(d, matches[k])
    ensures PersistMatches(d, matches, ruleVersion, run, currencies).Aborted?
  {
    hide CasesInv, Linked, LedgerInvariant.Inv, PersistMatch, LedgerRuns.Extends, CasesKept, OtherOccurrence;
    var shorter, r := matches[..|matches| - 1], matches[|matches| - 1];
    var before := PersistMatches(d, shorter, ruleVersion, run, currencies);
    if k < |matches| - 1 {
      OneCollisionAbortsAll(d, shorter, ruleVersion, run, currencies, k);
    } else if before.Progress? {
      ProgressExtends(d, shorter, ruleVersion, run, currencies);
      OtherOccurrenceStays(d, before.desk, r.subject, r.verdict.finding.serviceDate);
      CollisionAborts(before.desk, r, ruleVersion, run, currencies);
    }
  }

  lemma StepKeepsOthers(d: Desk, a: Action, workOrder: nat, serviceDate: int)
    requires DeskInv(d) && OtherOccurrence(d, workOrder, serviceDate)
    ensures DeskInv(Step(d, a)) && OtherOccurrence(Step(d, a), workOrder, serviceDate)
  {
    hide CasesInv, Linked, LedgerInvariant.Inv, Step, LedgerRuns.Extends, OtherOccurrence;
    StepKeeps(d, a);
    var d' := Step(d, a);
    var steps := StepAsLedgerRun(d, a);
    LedgerRuns.RunExtends(d.ledger, steps);
    StepKeepsCases(d, a);
    OtherOccurrenceStays(d, d', workOrder, serviceDate);
  }

  lemma {:induction false} OtherOccurrenceForever(d: Desk, actions: seq<Action>, workOrder: nat, serviceDate: int)
    requires DeskInv(d) && OtherOccurrence(d, workOrder, serviceDate)
    ensures DeskInv(Run(d, actions)) && OtherOccurrence(Run(d, actions), workOrder, serviceDate)
    decreases |actions|
  {
    hide DeskInv, Step, OtherOccurrence;
    if actions != [] {
      StepKeepsOthers(d, actions[0], workOrder, serviceDate);
      OtherOccurrenceForever(Step(d, actions[0]), actions[1..], workOrder, serviceDate);
    }
  }

  /**
   Once a work order carries a recovery item under one service date, no later persist that matches it with
   a value under another date can ever commit, and everything else it found is rolled back with it.
   */
  lemma PoisonedForever(
    d: Desk, actions: seq<Action>, r: DetectionResult,
    output: DetectorOutput, run: RunInfo, currencies: map<nat, Currency>)
    requires DeskInv(d) && r.verdict.Matched? && Collides(d, r)
    requires r in output.results
    ensures Persist(Run(d, actions), output, run, currencies).RolledBack?
    ensures Step(Run(d, actions), PersistAsked(output, run, currencies)) == Run(d, actions)
  {
    var later := Run(d, actions);
    OtherOccurrenceForever(d, actions, r.subject, r.verdict.finding.serviceDate);
    var matches := Matches(output.results);
    assert r in matches;
    var k :| 0 <= k < |matches| && matches[k] == r;
    hide Run, DeskInv, OtherOccurrence, PersistMatches;
    OneCollisionAbortsAll(later, matches, output.ruleVersion, run, currencies, k);
  }
}
