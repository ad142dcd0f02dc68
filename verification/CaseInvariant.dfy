/** What every reachable desk satisfies, and the proof that persists and people keep it. */
module CaseInvariant {
  import opened Common
  import opened Detection
  import opened Cases
  import Ledger
  import LedgerInvariant
  import LedgerRuns

  // ---------------------------------------------------------------- one case

  /** Where a timeline leaves its case. */
  datatype Position = Position(state: CaseState, version: nat)

  function Follow(p: Position, e: CaseEvent): Option<Position> {
    match e
    case Detected(_) => None
    case Contradicted(_, version) => if !Terminal(p.state) && version == p.version then Some(p) else None
    case Transitioned(from, to, _, version) =>
      if from == p.state && (from, to) in ALLOWED_EDGES && version == p.version + 1 then Some(Position(to, version))
      else None
    case OwnerAssigned(_, version) =>
      if !Terminal(p.state) && version == p.version + 1 then Some(Position(p.state, version)) else None
  }

  /** Replay a timeline; None when some event could not have followed the ones before it. */
  function Replay(events: seq<CaseEvent>): Option<Position> {
    if events == [] then None
    else if events == [Detected(1)] then Some(Position(New, 1))
    else
      var before := Replay(events[..|events| - 1]);
      if before.None? then None else Follow(before.value, events[|events| - 1])
  }

  function Acknowledgements(events: seq<CaseEvent>): nat {
    if events == [] then 0
    else
      var last := events[|events| - 1];
      Acknowledgements(events[..|events| - 1]) + if last.Transitioned? && last.to.Acknowledged? then 1 else 0
  }

  predicate IsStraightDismissal(e: CaseEvent) {
    e.Transitioned? && e.from.New? && e.to.Dismissed?
  }

  predicate DismissedStraight(events: seq<CaseEvent>) {
    exists k | 0 <= k < |events| :: IsStraightDismissal(events[k])
  }

  predicate OwnershipInv(c: Case) {
    && Acknowledgements(c.events) == (if c.firstAcknowledgedAt.Some? then 1 else 0)
    && (c.state.New? ==> c.firstAcknowledgedAt.None?)
    && (DismissedStraight(c.events) ==> c.state.Dismissed? && c.firstAcknowledgedAt.None?)
    && (!c.state.New? && !DismissedStraight(c.events) ==> c.owner.Some? && c.firstAcknowledgedAt.Some?)
  }

  predicate ClosureInv(c: Case) {
    && (c.state.Resolved? <==> c.resolvedAt.Some?)
    && (if c.state.Resolved? then c.resolutionCode in RESOLUTION_CODES else c.resolutionCode == "")
    && (if c.state.Dismissed? then c.dismissalCode in DISMISSAL_CODES else c.dismissalCode == "")
  }

  predicate CaseInv(c: Case) {
    && Replay(c.events) == Some(Position(c.state, c.version))
    && OwnershipInv(c)
    && ClosureInv(c)
    && c.fingerprint.workOrder == c.workOrder && c.fingerprint.serviceDate == c.serviceDate
  }

  lemma EventsAppend(events: seq<CaseEvent>, e: CaseEvent)
    requires events != []
    ensures Replay(events + [e]) == if Replay(events).None? then None else Follow(Replay(events).value, e)
    ensures Acknowledgements(events + [e])
         == Acknowledgements(events) + if e.Transitioned? && e.to.Acknowledged? then 1 else 0
    ensures DismissedStraight(events + [e]) <==> DismissedStraight(events) || IsStraightDismissal(e)
  {
    var longer := events + [e];
    assert longer[..|longer| - 1] == events && longer[|longer| - 1] == e;
    if DismissedStraight(events) {
      var k :| 0 <= k < |events| && IsStraightDismissal(events[k]);
      assert IsStraightDismissal(longer[k]);
    }
  }

  lemma DetectedInv(c: Case, number: nat, workOrder: nat, finding: Finding, ruleVersion: nat, run: RunInfo)
    requires c == NewCase(number, workOrder, finding, ruleVersion, run).(events := [Detected(1)])
    ensures CaseInv(c)
  {
    assert Acknowledgements(c.events[..0]) == 0;
  }

  lemma FlaggedInv(c: Case, output: DetectorOutput, run: RunInfo)
    requires CaseInv(c)
    ensures CaseInv(FlaggedCase(c, output, run))
  {
    if Contradicts(c, output, run) {
      EventsAppend(c.events, Contradicted(ReasonFor(output.results, c.workOrder).value, c.version));
    }
  }

  lemma MovedOwnership(c: Case, m: Member, q: Request, now: int)
    requires OwnershipInv(c) && c.events != [] && (c.state, q.to) in ALLOWED_EDGES && DataComplete(c, q)
    ensures OwnershipInv(MovedCase(c, m, q, now))
  {
    hide Replay, Acknowledgements, DismissedStraight;
    EventsAppend(c.events, Transitioned(c.state, q.to, m.id, c.version + 1));
  }

  lemma MovedClosure(c: Case, m: Member, q: Request, now: int)
    requires ClosureInv(c) && !Terminal(c.state) && DataComplete(c, q)
    ensures ClosureInv(MovedCase(c, m, q, now))
  {
  }

  lemma EdgesLeaveOpenStates(from: CaseState, to: CaseState)
    requires (from, to) in ALLOWED_EDGES
    ensures !Terminal(from)
  {
  }

  lemma MovedInv(c: Case, m: Member, q: Request, now: int)
    requires CaseInv(c) && (c.state, q.to) in ALLOWED_EDGES && DataComplete(c, q)
    ensures CaseInv(MovedCase(c, m, q, now))
  {
    MovedOwnership(c, m, q, now);
    EdgesLeaveOpenStates(c.state, q.to);
    MovedClosure(c, m, q, now);
    EventsAppend(c.events, Transitioned(c.state, q.to, m.id, c.version + 1));
    hide OwnershipInv, ClosureInv, DataComplete, Replay;
  }

  lemma AssignedInv(c: Case, m: Member, expectedVersion: nat, owner: nat, activeMembers: set<nat>)
    requires CaseInv(c) && AssignOwner(c, m, expectedVersion, owner, activeMembers).Moved?
    ensures CaseInv(AssignOwner(c, m, expectedVersion, owner, activeMembers).c)
  {
    EventsAppend(c.events, OwnerAssigned(m.id, c.version + 1));
  }

  // ---------------------------------------------------------------- the desk

  predicate NumberedFromOne(cases: seq<Case>) {
    forall i | 0 <= i < |cases| :: cases[i].number == i + 1
  }

  predicate OccurrencesDistinct(cases: seq<Case>) {
    forall i, j | 0 <= i < j < |cases| :: !SameOccurrence(cases[i], cases[j].workOrder, cases[j].serviceDate)
  }

  predicate AllCasesInv(cases: seq<Case>) {
    forall i | 0 <= i < |cases| :: CaseInv(cases[i])
  }

  predicate CasesInv(cases: seq<Case>) {
    NumberedFromOne(cases) && OccurrencesDistinct(cases) && AllCasesInv(cases)
  }

  /** Every recovery record belongs to a case of its work order. */
  predicate Linked(cases: seq<Case>, records: seq<Ledger.Record>) {
    forall k | 0 <= k < |records| ::
      records[k].caseId < |cases| && records[k].workOrder == cases[records[k].caseId].workOrder
  }

  ghost predicate DeskInv(d: Desk) {
    CasesInv(d.cases) && Linked(d.cases, d.ledger.records) && LedgerInvariant.Inv(d.ledger)
  }

  // ---------------------------------------------------------------- what a detector may write

  /** Only the evidence columns and the timeline may differ. */
  predicate SameForPeople(c: Case, c': Case) {
    c' == c.(severity := c'.severity, deadline := c'.deadline, freshness := c'.freshness,
             ruleVersion := c'.ruleVersion, nextAction := c'.nextAction, lastRefreshedBy := c'.lastRefreshedBy,
             events := c'.events)
  }

  predicate EvidenceOnly(c: Case, c': Case) {
    SameForPeople(c, c') && (Terminal(c.state) ==> c' == c)
  }

  /** Refreshed by a match: no event is written. */
  predicate RefreshedOnly(c: Case, c': Case) {
    EvidenceOnly(c, c') && c'.events == c.events
  }

  /** Earlier cases stay in place with their identity, and only their evidence moves. */
  predicate RefreshedAll(cases: seq<Case>, cases': seq<Case>) {
    && |cases| <= |cases'|
    && forall i | 0 <= i < |cases| :: RefreshedOnly(cases[i], cases'[i])
  }

  lemma RefreshKeeps(cases: seq<Case>, i: nat, c': Case)
    requires CasesInv(cases) && i < |cases| && RefreshedOnly(cases[i], c')
    ensures CasesInv(cases[i := c'])
  {
    assert CaseInv(cases[i]);
  }

  lemma AppendKeeps(cases: seq<Case>, c: Case)
    requires CasesInv(cases) && CaseInv(c) && c.number == |cases| + 1
    requires forall i | 0 <= i < |cases| :: !SameOccurrence(cases[i], c.workOrder, c.serviceDate)
    ensures CasesInv(cases + [c])
  {
  }

  /** The fingerprint lookup never finds a case that the occurrence lookup missed. */
  lemma OccurrenceDecides(cases: seq<Case>, workOrder: nat, serviceDate: int, ruleVersion: nat)
    requires CasesInv(cases)
    ensures FindExisting(cases, workOrder, serviceDate, ruleVersion) == FindOccurrence(cases, workOrder, serviceDate)
  {
    forall i | 0 <= i < |cases| ensures CaseInv(cases[i]) {
    }
  }

  /**
   An upsert always succeeds, at its first case number; it leaves one case for the occurrence, refreshes at
   most that one, and creates it exactly when there was none.
   */
  lemma UpsertKeeps(cases: seq<Case>, workOrder: nat, finding: Finding, ruleVersion: nat, run: RunInfo)
    requires CasesInv(cases)
    ensures var u := UpsertCase(cases, workOrder, finding, ruleVersion, run);
            && u.Upserted? && CasesInv(u.cases) && RefreshedAll(cases, u.cases)
            && SameOccurrence(u.cases[u.at], workOrder, finding.serviceDate)
            && (forall i | 0 <= i < |cases| && i != u.at :: u.cases[i] == cases[i])
            && |u.cases| == |cases| + (if u.created then 1 else 0)
            && (u.created <==> FindOccurrence(cases, workOrder, finding.serviceDate).None?)
  {
    OccurrenceDecides(cases, workOrder, finding.serviceDate, ruleVersion);
    var found := FindOccurrence(cases, workOrder, finding.serviceDate);
    if found.Some? {
      if !Terminal(cases[found.value].state) {
        var c' := RefreshedCase(cases[found.value], finding, ruleVersion, run);
        assert RefreshedOnly(cases[found.value], c');
        RefreshKeeps(cases, found.value, c');
      }
    } else {
      forall i | 0 <= i < |cases| ensures CaseInv(cases[i]) {
      }
      var c := NewCase(|cases| + 1, workOrder, finding, ruleVersion, run);
      assert Insertable(cases, c);
      var c' := c.(events := [Detected(c.version)]);
      DetectedInv(c', |cases| + 1, workOrder, finding, ruleVersion, run);
      AppendKeeps(cases, c');
    }
  }

  lemma LinkedAfterRefresh(cases: seq<Case>, cases': seq<Case>, records: seq<Ledger.Record>)
    requires Linked(cases, records) && RefreshedAll(cases, cases')
    ensures Linked(cases', records)
  {
    forall k | 0 <= k < |records|
      ensures records[k].caseId < |cases'| && records[k].workOrder == cases'[records[k].caseId].workOrder
    {
      assert RefreshedOnly(cases[records[k].caseId], cases'[records[k].caseId]);
    }
  }

  /** Recording a candidate keeps every record's identity and adds at most one record, for its own case. */
  lemma CandidateIdentity(
    s: Ledger.State, at: nat, workOrder: nat, currency: Currency, version: nat, f: Ledger.FinancialInputs)
    ensures var s' := Ledger.After(s, Ledger.RecordCandidate(s, at, workOrder, currency, version, f));
            && |s.records| <= |s'.records| <= |s.records| + 1
            && (forall k | 0 <= k < |s.records| ::
                  s'.records[k].workOrder == s.records[k].workOrder && s'.records[k].caseId == s.records[k].caseId)
            && (|s'.records| > |s.records| ==>
                  s'.records[|s.records|].workOrder == workOrder && s'.records[|s.records|].caseId == at)
  {
    hide Ledger.SameInputs, Ledger.SnapshotInsertable, Ledger.AmountsAllowed, Ledger.WorkOrderTaken;
  }

  /** A recorded candidate keeps the ledger sound, and gives at most the case itself a new record. */
  lemma CandidateLinked(
    cases: seq<Case>, s: Ledger.State, at: nat, currency: Currency, version: nat, f: Ledger.FinancialInputs)
    requires Linked(cases, s.records) && LedgerInvariant.Inv(s) && at < |cases|
    ensures var s' := Ledger.After(s, Ledger.RecordCandidate(s, at, cases[at].workOrder, currency, version, f));
            Linked(cases, s'.records) && LedgerInvariant.Inv(s')
  {
    hide LedgerInvariant.Inv, Ledger.RecordCandidate;
    LedgerInvariant.RecordCandidateKeeps(s, at, cases[at].workOrder, currency, version, f);
    CandidateIdentity(s, at, cases[at].workOrder, currency, version, f);
  }

  lemma PersistMatchKeeps(
    d: Desk, workOrder: nat, finding: Finding, ruleVersion: nat, run: RunInfo, currencies: map<nat, Currency>)
    requires DeskInv(d)
    ensures var p := PersistMatch(d, workOrder, finding, ruleVersion, run, currencies);
            p.Progress? ==>
              && DeskInv(p.desk) && RefreshedAll(d.cases, p.desk.cases)
              && p.created + p.updated == 1 && |p.desk.cases| == |d.cases| + p.created
  {
    hide LedgerInvariant.Inv, CasesInv, UpsertCase, Ledger.RecordCandidate;
    UpsertKeeps(d.cases, workOrder, finding, ruleVersion, run);
    var u := UpsertCase(d.cases, workOrder, finding, ruleVersion, run);
    LinkedAfterRefresh(d.cases, u.cases, d.ledger.records);
    if finding.financial.Some? {
      var c := u.cases[u.at];
      CandidateLinked(u.cases, d.ledger, u.at, CurrencyOf(currencies, c.workOrder), CALCULATION_VERSION,
                      finding.financial.value);
    }
  }

  lemma RefreshedTwice(a: seq<Case>, b: seq<Case>, c: seq<Case>)
    requires RefreshedAll(a, b) && RefreshedAll(b, c)
    ensures RefreshedAll(a, c)
  {
    forall i | 0 <= i < |a| ensures RefreshedOnly(a[i], c[i]) {
      assert RefreshedOnly(a[i], b[i]) && RefreshedOnly(b[i], c[i]);
    }
  }

  lemma {:induction false} PersistMatchesKeep(
    d: Desk, matches: seq<DetectionResult>, ruleVersion: nat, run: RunInfo, currencies: map<nat, Currency>)
    requires DeskInv(d) && AllMatched(matches)
    ensures var p := PersistMatches(d, matches, ruleVersion, run, currencies);
            p.Progress? ==>
              && DeskInv(p.desk) && RefreshedAll(d.cases, p.desk.cases)
              && p.created + p.updated == |matches| && |p.desk.cases| == |d.cases| + p.created
  {
    if matches != [] {
      hide DeskInv, PersistMatch;
      var before := PersistMatches(d, matches[..|matches| - 1], ruleVersion, run, currencies);
      PersistMatchesKeep(d, matches[..|matches| - 1], ruleVersion, run, currencies);
      if before.Progress? {
        var r := matches[|matches| - 1];
        PersistMatchKeeps(before.desk, r.subject, r.verdict.finding, ruleVersion, run, currencies);
        var p := PersistMatch(before.desk, r.subject, r.verdict.finding, ruleVersion, run, currencies);
        if p.Progress? {
          hide RefreshedAll;
          RefreshedTwice(d.cases, before.desk.cases, p.desk.cases);
        }
      }
    }
  }

  lemma FlagKeeps(d: Desk, output: DetectorOutput, run: RunInfo)
    requires DeskInv(d)
    ensures DeskInv(d.(cases := FlagCases(d.cases, output, run)))
  {
    hide LedgerInvariant.Inv;
    var cases' := FlagCases(d.cases, output, run);
    forall i | 0 <= i < |cases'| ensures CaseInv(cases'[i]) && SameForPeople(d.cases[i], cases'[i]) {
      FlaggedInv(d.cases[i], output, run);
    }
    hide CaseInv, FlaggedCase, FlagCases;
  }

  lemma PersistKeeps(d: Desk, output: DetectorOutput, run: RunInfo, currencies: map<nat, Currency>)
    requires DeskInv(d)
    ensures DeskInv(AfterPersist(d, Persist(d, output, run, currencies)))
  {
    hide DeskInv, PersistMatches;
    PersistMatchesKeep(d, Matches(output.results), output.ruleVersion, run, currencies);
    var p := PersistMatches(d, Matches(output.results), output.ruleVersion, run, currencies);
    if p.Progress? {
      FlagKeeps(p.desk, output, run);
    }
  }

  /** Replacing a case by a good one of the same identity keeps the desk good. */
  lemma HumanKeeps(d: Desk, at: nat, c': Case)
    requires DeskInv(d) && at < |d.cases| && CaseInv(c')
    requires c'.number == d.cases[at].number && SameOccurrence(c', d.cases[at].workOrder, d.cases[at].serviceDate)
    ensures DeskInv(d.(cases := d.cases[at := c']))
  {
    hide LedgerInvariant.Inv, CaseInv;
  }

  lemma LedgerKeeps(d: Desk, a: LedgerRuns.Action)
    requires DeskInv(d) && !a.CandidateRecorded?
    ensures DeskInv(d.(ledger := LedgerRuns.Step(d.ledger, a)))
  {
    hide LedgerInvariant.Inv, CasesInv, LedgerRuns.Step, LedgerInvariant.Continues;
    LedgerRuns.StepKeeps(d.ledger, a);
    LedgerRuns.StepExtends(d.ledger, a);
    SameRecords(d.ledger, a);
  }

  /** Only a recorded candidate adds a recovery item. */
  lemma SameRecords(s: Ledger.State, a: LedgerRuns.Action)
    requires !a.CandidateRecorded?
    ensures |LedgerRuns.Step(s, a).records| == |s.records|
  {
    hide Ledger.Selected, Ledger.Key, Ledger.Objection;
  }
}
