/** Consequences for whole histories of the desk: frozen cases, optimistic versions, counts, poison. */
module CaseHistory {
  import opened Common
  import opened Detection
  import opened Cases
  import opened CaseInvariant
  import opened CaseRuns
  import Ledger
  import LedgerInvariant
  import LedgerRuns

  // ---------------------------------------------------------------- one step on one case

  function ExpectedVersion(a: Action): nat
    requires Human(a)
  {
    if a.TransitionAsked? then a.request.expectedVersion else a.expectedVersion
  }

  /** A human request on the case that changes it. */
  predicate Commits(d: Desk, a: Action, at: nat) {
    Human(a) && a.at == at && at < |d.cases| && Decide(d.cases[at], a).Moved?
  }

  lemma CaseStep(d: Desk, a: Action, at: nat)
    requires DeskInv(d) && at < |d.cases|
    ensures DeskInv(Step(d, a)) && at < |Step(d, a).cases|
    ensures var c, c' := d.cases[at], Step(d, a).cases[at];
            && SameOccurrence(c', c.workOrder, c.serviceDate)
            && (Terminal(c.state) ==> c' == c)
            && c'.version == c.version + (if Commits(d, a, at) then 1 else 0)
            && (!Commits(d, a, at) ==> c'.state == c.state && c'.owner == c.owner)
            && (Commits(d, a, at) ==> ExpectedVersion(a) == c.version)
  {
    StepKeeps(d, a);
    if a.PersistAsked? {
      PersistCaseStep(d, a, at);
    } else if Commits(d, a, at) {
      HumanCaseStep(d, a, at);
    } else {
      QuietCaseStep(d, a, at);
    }
    hide DeskInv, Step, Decide;
  }

  lemma PersistCaseStep(d: Desk, a: Action, at: nat)
    requires DeskInv(d) && at < |d.cases| && a.PersistAsked?
    ensures at < |Step(d, a).cases| && EvidenceOnly(d.cases[at], Step(d, a).cases[at])
  {
    DetectorNeverDecides(d, a.output, a.run, a.currencies, at);
    hide DeskInv, Persist, EvidenceOnly;
  }

  lemma HumanCaseStep(d: Desk, a: Action, at: nat)
    requires DeskInv(d) && Commits(d, a, at)
    ensures at < |Step(d, a).cases|
    ensures var c, c' := d.cases[at], Step(d, a).cases[at];
            && SameOccurrence(c', c.workOrder, c.serviceDate) && !Terminal(c.state)
            && c'.version == c.version + 1 && ExpectedVersion(a) == c.version
  {
    assert CaseInv(d.cases[at]);
    hide DeskInv, CaseInv, Decide;
    DecisionShape(d.cases[at], a);
  }

  lemma QuietCaseStep(d: Desk, a: Action, at: nat)
    requires at < |d.cases| && !a.PersistAsked? && !Commits(d, a, at)
    ensures at < |Step(d, a).cases| && Step(d, a).cases[at] == d.cases[at]
  {
    hide Decide, LedgerRuns.Step;
  }

  // ---------------------------------------------------------------- frozen cases

  /** A resolved or dismissed case is never written again, in any column, by anyone. */
  lemma {:induction false} TerminalIsFrozen(d: Desk, actions: seq<Action>, at: nat)
    requires DeskInv(d) && at < |d.cases| && Terminal(d.cases[at].state)
    ensures at < |Run(d, actions).cases| && Run(d, actions).cases[at] == d.cases[at]
    decreases |actions|
  {
    hide DeskInv, Step;
    if actions != [] {
      CaseStep(d, actions[0], at);
      TerminalIsFrozen(Step(d, actions[0]), actions[1..], at);
    }
  }

  // ---------------------------------------------------------------- optimistic versions

  /** How many requests on the case that expected one version were carried out. */
  function CommitsExpecting(d: Desk, actions: seq<Action>, at: nat, version: nat): nat
    decreases |actions|
  {
    if actions == [] then 0
    else
      var a := actions[0];
      (if Commits(d, a, at) && ExpectedVersion(a) == version then 1 else 0)
      + CommitsExpecting(Step(d, a), actions[1..], at, version)
  }

  /** Of all requests that expect the same version, at most one is ever carried out. */
  lemma {:induction false} OneCommitPerVersion(d: Desk, actions: seq<Action>, at: nat, version: nat)
    requires DeskInv(d) && at < |d.cases|
    ensures CommitsExpecting(d, actions, at, version) <= 1
    ensures d.cases[at].version > version ==> CommitsExpecting(d, actions, at, version) == 0
    decreases |actions|
  {
    hide DeskInv, Step, Decide;
    if actions != [] {
      CaseStep(d, actions[0], at);
      OneCommitPerVersion(Step(d, actions[0]), actions[1..], at, version);
    }
  }

  function CommitCount(d: Desk, actions: seq<Action>, at: nat): nat
    decreases |actions|
  {
    if actions == [] then 0
    else (if Commits(d, actions[0], at) then 1 else 0) + CommitCount(Step(d, actions[0]), actions[1..], at)
  }

  /** The version counts the human decisions; detector runs and recovery work never move it. */
  lemma {:induction false} VersionCountsDecisions(d: Desk, actions: seq<Action>, at: nat)
    requires DeskInv(d) && at < |d.cases|
    ensures at < |Run(d, actions).cases|
    ensures Run(d, actions).cases[at].version == d.cases[at].version + CommitCount(d, actions, at)
    ensures CommitCount(d, actions, at) == 0 ==>
              Run(d, actions).cases[at].state == d.cases[at].state
              && Run(d, actions).cases[at].owner == d.cases[at].owner
    decreases |actions|
  {
    hide DeskInv, Step, Commits;
    if actions != [] {
      CaseStep(d, actions[0], at);
      VersionCountsDecisions(Step(d, actions[0]), actions[1..], at);
    }
  }

  // ---------------------------------------------------------------- counts

  function GainedEvent(cases: seq<Case>, cases': seq<Case>): set<nat> {
    set i: nat | i < |cases| && i < |cases'| && |cases'[i].events| > |cases[i].events|
  }

  function StoppedMatching(cases: seq<Case>, output: DetectorOutput, run: RunInfo): set<nat> {
    set i: nat | i < |cases| && Contradicts(cases[i], output, run)
  }

  lemma {:induction false} FlagCountIsSize(cases: seq<Case>, output: DetectorOutput, run: RunInfo)
    ensures FlagCount(cases, output, run) == |StoppedMatching(cases, output, run)|
  {
    if cases != [] {
      var last := |cases| - 1;
      FlagCountIsSize(cases[..last], output, run);
      var before := StoppedMatching(cases[..last], output, run);
      assert last !in before;
      assert StoppedMatching(cases, output, run)
          == before + if Contradicts(cases[last], output, run) then {last} else {};
    } else {
      assert StoppedMatching(cases, output, run) == {};
    }
  }

  /**
   The counts a run records: created is the number of new cases, created plus updated is the number of matches
   plus the number of earlier cases whose timeline grew, and, for an output that lists every scanned work
   order once, scanned is matches plus skipped.
   */
  lemma CountsAreExact(d: Desk, output: DetectorOutput, run: RunInfo, currencies: map<nat, Currency>)
    requires DeskInv(d) && Persist(d, output, run, currencies).Persisted?
    ensures var o := Persist(d, output, run, currencies);
            && o.counts.created == |o.desk.cases| - |d.cases|
            && o.counts.created + o.counts.updated == |Matches(output.results)| + |GainedEvent(d.cases, o.desk.cases)|
            && |Matches(output.results)| + o.counts.skipped == |output.results|
  {
    var matches := Matches(output.results);
    var p := PersistMatches(d, matches, output.ruleVersion, run, currencies);
    var o := Persist(d, output, run, currencies);
    MatchedOrSkipped(output.results);
    PersistMatchesKeep(d, matches, output.ruleVersion, run, currencies);
    MatchesGetCases(d, matches, output.ruleVersion, run, currencies);
    FlagCountIsSize(p.desk.cases, output, run);
    hide DeskInv, PersistMatches, SkippedTotal, FlagCount, RefreshedAll, FreshFrom, GainedEvent,
         StoppedMatching, FlagCases;
    OnlyEarlierCasesAreFlagged(d.cases, p.desk.cases, output, run);
  }

  lemma OnlyEarlierCasesAreFlagged(cases: seq<Case>, cases': seq<Case>, output: DetectorOutput, run: RunInfo)
    requires RefreshedAll(cases, cases') && FreshFrom(cases', |cases|, Matches(output.results))
    ensures StoppedMatching(cases', output, run) == GainedEvent(cases, FlagCases(cases', output, run))
  {
    var flagged := FlagCases(cases', output, run);
    forall i: nat ensures i in StoppedMatching(cases', output, run) <==> i in GainedEvent(cases, flagged) {
      if i < |cases| {
        assert RefreshedOnly(cases[i], cases'[i]);
      } else if i < |cases'| {
        assert FreshCase(cases'[i], Matches(output.results));
        var r :| r in Matches(output.results) && MatchFor(r, cases'[i]);
        assert r in output.results;
      }
    }
  }

  // ---------------------------------------------------------------- a second occurrence

  /** The ledger already carries the work order for a case of another service date. */
  predicate OtherOccurrence(d: Desk, workOrder: nat, serviceDate: int)
    requires Linked(d.cases, d.ledger.records)
  {
    exists k | 0 <= k < |d.ledger.records| ::
      d.ledger.records[k].workOrder == workOrder && d.cases[d.ledger.records[k].caseId].serviceDate != serviceDate
  }

  /** Amounts a detector can report: never negative, and none on a manual basis. */
  predicate SoundFinding(f: Finding) {
    f.financial.Some? ==>
      && (f.financial.value.candidateValue.Some? ==> f.financial.value.candidateValue.value >= 0)
      && (f.financial.value.basis.ManualAmountRequired? ==> f.financial.value.candidateValue.None?)
  }

  predicate Collides(d: Desk, r: DetectionResult)
    requires Linked(d.cases, d.ledger.records) && r.verdict.Matched?
  {
    r.verdict.finding.financial.Some? && OtherOccurrence(d, r.subject, r.verdict.finding.serviceDate)
  }

  predicate SoundInputs(f: Ledger.FinancialInputs) {
    && (f.candidateValue.Some? ==> f.candidateValue.value >= 0)
    && (f.basis.ManualAmountRequired? ==> f.candidateValue.None?)
  }

  /** A case that already has an item can always be given another candidate. */
  lemma KnownCaseCommits(
    s: Ledger.State, found: nat, at: nat, workOrder: nat, currency: Currency, f: Ledger.FinancialInputs)
    requires LedgerInvariant.RecordsInv(s.records) && SoundInputs(f)
    requires Ledger.FindCase(s.records, at) == Some(found)
    ensures Ledger.RecordCandidate(s, at, workOrder, currency, CALCULATION_VERSION, f).Committed?
  {
    var r := s.records[found];
    assert LedgerInvariant.RecordInv(r);
    LedgerInvariant.LatestIsLast(r.snapshots);
    LedgerInvariant.TakenVersions(r.snapshots, |r.snapshots| + 1);
    hide LedgerInvariant.RecordsInv;
  }

  lemma KnownCaseIsAlone(cases: seq<Case>, records: seq<Ledger.Record>, found: nat, at: nat)
    requires Linked(cases, records) && LedgerInvariant.Distinct(records) && at < |cases|
    requires Ledger.FindCase(records, at) == Some(found)
    ensures forall k | 0 <= k < |records| && records[k].workOrder == cases[at].workOrder :: k == found
  {
  }

  /** A case without an item can be given one exactly when its work order has none. */
  lemma NewCaseCommitsIff(s: Ledger.State, at: nat, workOrder: nat, currency: Currency, f: Ledger.FinancialInputs)
    requires LedgerInvariant.RecordsInv(s.records) && SoundInputs(f)
    requires Ledger.FindCase(s.records, at).None?
    ensures Ledger.RecordCandidate(s, at, workOrder, currency, CALCULATION_VERSION, f).Committed?
       <==> forall k | 0 <= k < |s.records| :: s.records[k].workOrder != workOrder
  {
    forall k | 0 <= k < |s.records| ensures !s.records[k].item.workflow.Void? {
      assert LedgerInvariant.RecordInv(s.records[k]);
    }
    hide LedgerInvariant.RecordsInv;
  }

  lemma UnknownCaseIsOther(cases: seq<Case>, records: seq<Ledger.Record>, at: nat)
    requires OccurrencesDistinct(cases) && Linked(cases, records) && at < |cases|
    requires Ledger.FindCase(records, at).None?
    ensures forall k | 0 <= k < |records| && records[k].workOrder == cases[at].workOrder ::
              cases[records[k].caseId].serviceDate != cases[at].serviceDate
  {
    forall k | 0 <= k < |records| && records[k].workOrder == cases[at].workOrder
      ensures cases[records[k].caseId].serviceDate != cases[at].serviceDate
    {
      assert records[k].caseId != at;
    }
  }

  /** A candidate is refused exactly when a case for another date holds the work order's item. */
  lemma CandidateCommitsIff(
    cases: seq<Case>, s: Ledger.State, at: nat, currency: Currency, f: Ledger.FinancialInputs)
    requires CasesInv(cases) && Linked(cases, s.records) && LedgerInvariant.Inv(s) && at < |cases| && SoundInputs(f)
    ensures Ledger.RecordCandidate(s, at, cases[at].workOrder, currency, CALCULATION_VERSION, f).Committed?
       <==> !OtherOccurrence(Desk(cases, s), cases[at].workOrder, cases[at].serviceDate)
  {
    var found := Ledger.FindCase(s.records, at);
    if found.Some? {
      KnownCaseCommits(s, found.value, at, cases[at].workOrder, currency, f);
      KnownCaseIsAlone(cases, s.records, found.value, at);
    } else {
      NewCaseCommitsIff(s, at, cases[at].workOrder, currency, f);
      UnknownCaseIsOther(cases, s.records, at);
    }
    hide Ledger.RecordCandidate, CasesInv, Ledger.FindCase, LedgerInvariant.RecordsInv, LedgerInvariant.ExportsInv;
  }

  /** What one match leaves of the records of other work orders. */
  lemma OtherWorkOrdersKept(
    cases: seq<Case>, s: Ledger.State, at: nat, currency: Currency, f: Ledger.FinancialInputs,
    workOrder: nat, date: int)
    requires Linked(cases, s.records) && at < |cases| && cases[at].workOrder != workOrder
    ensures var s' := Ledger.After(s,
                    Ledger.RecordCandidate(s, at, cases[at].workOrder, currency, CALCULATION_VERSION, f));
            Linked(cases, s'.records) ==>
              (OtherOccurrence(Desk(cases, s'), workOrder, date) <==> OtherOccurrence(Desk(cases, s), workOrder, date))
  {
    CandidateIdentity(s, at, cases[at].workOrder, currency, CALCULATION_VERSION, f);
    hide Ledger.RecordCandidate;
    var s' := Ledger.After(s, Ledger.RecordCandidate(s, at, cases[at].workOrder, currency, CALCULATION_VERSION, f));
    if Linked(cases, s'.records) && OtherOccurrence(Desk(cases, s), workOrder, date) {
      var k :| 0 <= k < |s.records| && s.records[k].workOrder == workOrder
               && cases[s.records[k].caseId].serviceDate != date;
      assert s'.records[k].workOrder == workOrder;
    }
  }

  /** Refreshing cases moves no occurrence. */
  lemma SameOtherOccurrence(d: Desk, cases': seq<Case>, workOrder: nat, serviceDate: int)
    requires Linked(d.cases, d.ledger.records) && RefreshedAll(d.cases, cases')
    ensures Linked(cases', d.ledger.records)
    ensures OtherOccurrence(d.(cases := cases'), workOrder, serviceDate) <==> OtherOccurrence(d, workOrder, serviceDate)
  {
    LinkedAfterRefresh(d.cases, cases', d.ledger.records);
    forall k | 0 <= k < |d.ledger.records|
      ensures cases'[d.ledger.records[k].caseId].serviceDate == d.cases[d.ledger.records[k].caseId].serviceDate
    {
      assert RefreshedOnly(d.cases[d.ledger.records[k].caseId], cases'[d.ledger.records[k].caseId]);
    }
  }

  lemma MatchCommitsIff(d: Desk, r: DetectionResult, ruleVersion: nat, run: RunInfo, currencies: map<nat, Currency>)
    requires DeskInv(d) && r.verdict.Matched? && SoundFinding(r.verdict.finding)
    ensures PersistMatch(d, r.subject, r.verdict.finding, ruleVersion, run, currencies).Progress? <==> !Collides(d, r)
  {
    var f := r.verdict.finding;
    UpsertKeeps(d.cases, r.subject, f, ruleVersion, run);
    var u := UpsertCase(d.cases, r.subject, f, ruleVersion, run);
    SameOtherOccurrence(d, u.cases, r.subject, f.serviceDate);
    if f.financial.Some? {
      CandidateCommitsIff(u.cases, d.ledger, u.at, CurrencyOf(currencies, r.subject), f.financial.value);
    }
    hide Ledger.RecordCandidate, UpsertCase, CasesInv, OtherOccurrence, LedgerInvariant.Inv;
  }

  lemma MatchKeepsOthers(
    d: Desk, r: DetectionResult, ruleVersion: nat, run: RunInfo, currencies: map<nat, Currency>, other: DetectionResult)
    requires DeskInv(d) && r.verdict.Matched? && other.verdict.Matched? && r.subject != other.subject
    ensures var p := PersistMatch(d, r.subject, r.verdict.finding, ruleVersion, run, currencies);
            p.Progress? ==> DeskInv(p.desk) && (Collides(p.desk, other) <==> Collides(d, other))
  {
    hide Ledger.RecordCandidate, UpsertCase, CasesInv, OtherOccurrence, LedgerInvariant.Inv;
    var f := r.verdict.finding;
    PersistMatchKeeps(d, r.subject, f, ruleVersion, run, currencies);
    UpsertKeeps(d.cases, r.subject, f, ruleVersion, run);
    var u := UpsertCase(d.cases, r.subject, f, ruleVersion, run);
    SameOtherOccurrence(d, u.cases, other.subject, other.verdict.finding.serviceDate);
    if f.financial.Some? {
      OtherWorkOrdersKept(
        u.cases, d.ledger, u.at, CurrencyOf(currencies, r.subject), f.financial.value, other.subject,
        other.verdict.finding.serviceDate);
    }
  }

  predicate SubjectsDistinct(results: seq<DetectionResult>) {
    forall j, k | 0 <= j < k < |results| :: results[j].subject != results[k].subject
  }

  predicate NoneCollides(d: Desk, matches: seq<DetectionResult>)
    requires Linked(d.cases, d.ledger.records) && AllMatched(matches)
  {
    forall k | 0 <= k < |matches| :: !Collides(d, matches[k])
  }

  lemma {:induction false} MatchesKeepOthers(
    d: Desk, matches: seq<DetectionResult>, ruleVersion: nat, run: RunInfo, currencies: map<nat, Currency>,
    other: DetectionResult)
    requires DeskInv(d) && AllMatched(matches) && other.verdict.Matched?
    requires forall r <- matches :: r.subject != other.subject
    ensures var p := PersistMatches(d, matches, ruleVersion, run, currencies);
            p.Progress? ==> DeskInv(p.desk) && (Collides(p.desk, other) <==> Collides(d, other))
  {
    if matches != [] {
      var shorter, r := matches[..|matches| - 1], matches[|matches| - 1];
      var before := PersistMatches(d, shorter, ruleVersion, run, currencies);
      assert r in matches;
      MatchesKeepOthers(d, shorter, ruleVersion, run, currencies, other);
      if before.Progress? {
        MatchKeepsOthers(before.desk, r, ruleVersion, run, currencies, other);
        hide DeskInv, PersistMatch, Collides;
      }
    }
  }

  lemma NoneCollidesAppend(d: Desk, matches: seq<DetectionResult>, r: DetectionResult)
    requires Linked(d.cases, d.ledger.records) && AllMatched(matches) && r.verdict.Matched?
    ensures AllMatched(matches + [r])
    ensures NoneCollides(d, matches + [r]) <==> NoneCollides(d, matches) && !Collides(d, r)
  {
    hide Collides, Linked;
    if NoneCollides(d, matches + [r]) {
      assert forall k | 0 <= k < |matches| :: (matches + [r])[k] == matches[k];
      assert (matches + [r])[|matches|] == r;
    }
  }

  lemma {:induction false} MatchesCommitIff(
    d: Desk, matches: seq<DetectionResult>, ruleVersion: nat, run: RunInfo, currencies: map<nat, Currency>)
    requires DeskInv(d) && AllMatched(matches) && SubjectsDistinct(matches)
    requires forall r <- matches :: SoundFinding(r.verdict.finding)
    ensures PersistMatches(d, matches, ruleVersion, run, currencies).Progress? <==> NoneCollides(d, matches)
  {
    hide CasesInv, Linked, LedgerInvariant.Inv, PersistMatches, Collides, SoundFinding, NoneCollides;
    if matches == [] {
      NoMatchCommits(d, ruleVersion, run, currencies);
    } else {
      var shorter, r := matches[..|matches| - 1], matches[|matches| - 1];
      assert matches == shorter + [r];
      MatchesCommitIff(d, shorter, ruleVersion, run, currencies);
      NoneCollidesAppend(d, shorter, r);
      LastMatchCommitsIff(d, shorter, r, ruleVersion, run, currencies);
    }
  }

  lemma NoMatchCommits(d: Desk, ruleVersion: nat, run: RunInfo, currencies: map<nat, Currency>)
    requires Linked(d.cases, d.ledger.records)
    ensures PersistMatches(d, [], ruleVersion, run, currencies).Progress? && NoneCollides(d, [])
  {
  }

  lemma LastMatchCommitsIff(
    d: Desk, shorter: seq<DetectionResult>, r: DetectionResult, ruleVersion: nat, run: RunInfo,
    currencies: map<nat, Currency>)
    requires DeskInv(d) && AllMatched(shorter) && r.verdict.Matched? && SoundFinding(r.verdict.finding)
    requires forall m <- shorter :: m.subject != r.subject
    ensures AllMatched(shorter + [r])
    ensures PersistMatches(d, shorter + [r], ruleVersion, run, currencies).Progress?
       <==> PersistMatches(d, shorter, ruleVersion, run, currencies).Progress? && !Collides(d, r)
  {
    hide CasesInv, Linked, LedgerInvariant.Inv, PersistMatch, Collides, SoundFinding;
    var longer := shorter + [r];
    assert longer[..|longer| - 1] == shorter && longer[|longer| - 1] == r;
    MatchesKeepOthers(d, shorter, ruleVersion, run, currencies, r);
    var before := PersistMatches(d, shorter, ruleVersion, run, currencies);
    if before.Progress? {
      MatchCommitsIff(before.desk, r, ruleVersion, run, currencies);
    }
  }

  lemma {:induction false} MatchesStayDistinct(results: seq<DetectionResult>)
    requires SubjectsDistinct(results)
    ensures SubjectsDistinct(Matches(results))
  {
    if results != [] {
      var shorter, last := results[..|results| - 1], results[|results| - 1];
      MatchesStayDistinct(shorter);
      forall k | 0 <= k < |Matches(shorter)| ensures Matches(shorter)[k].subject != last.subject {
        assert Matches(shorter)[k] in shorter;
      }
    }
  }

  /**
   A persist of an output that names each work order once commits exactly when no match with a value is for
   a work order whose recovery item belongs to a case of another service date. One such match rolls back
   the cases and values of all others.
   */
  lemma PersistCommitsIff(d: Desk, output: DetectorOutput, run: RunInfo, currencies: map<nat, Currency>)
    requires DeskInv(d) && SubjectsDistinct(output.results)
    requires forall r <- output.results :: r.verdict.Matched? ==> SoundFinding(r.verdict.finding)
    ensures Persist(d, output, run, currencies).Persisted?
       <==> forall r <- output.results :: r.verdict.Matched? ==> !Collides(d, r)
  {
    var matches := Matches(output.results);
    MatchesStayDistinct(output.results);
    MatchesCommitIff(d, matches, output.ruleVersion, run, currencies);
    hide DeskInv, PersistMatches, Collides, SkippedTotal, FlagCount;
    assert NoneCollides(d, matches) <==> forall r <- matches :: !Collides(d, r);
  }
}
