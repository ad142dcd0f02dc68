/** Safety of the case desk over every interleaving of persists, people and recovery work. */
module CaseRuns {
  import opened Common
  import opened Detection
  import opened Cases
  import opened CaseInvariant
  import Ledger
  import LedgerInvariant
  import LedgerRuns

  datatype Action =
    PersistAsked(output: DetectorOutput, run: RunInfo, currencies: map<nat, Currency>)
  | TransitionAsked(at: nat, member: Member, request: Request, activeMembers: set<nat>, now: int)
  | AssignmentAsked(at: nat, member: Member, expectedVersion: nat, owner: nat, activeMembers: set<nat>)
  | RecoveryAsked(action: LedgerRuns.Action)

  predicate Human(a: Action) {
    a.TransitionAsked? || a.AssignmentAsked?
  }

  function Decide(c: Case, a: Action): CaseOutcome
    requires Human(a)
  {
    match a
    case TransitionAsked(_, m, q, activeMembers, now) => Transition(c, m, q, activeMembers, now)
    case AssignmentAsked(_, m, v, owner, activeMembers) => AssignOwner(c, m, v, owner, activeMembers)
  }

  function AfterDecision(d: Desk, at: nat, o: CaseOutcome): Desk
    requires at < |d.cases|
  {
    if o.Moved? then d.(cases := d.cases[at := o.c]) else d
  }

  /** Candidates reach the ledger only through a persist. */
  function Step(d: Desk, a: Action): Desk {
    match a
    case PersistAsked(output, run, currencies) => AfterPersist(d, Persist(d, output, run, currencies))
    case RecoveryAsked(b) => if b.CandidateRecorded? then d else d.(ledger := LedgerRuns.Step(d.ledger, b))
    case _ => if a.at >= |d.cases| then d else AfterDecision(d, a.at, Decide(d.cases[a.at], a))
  }

  function Run(d: Desk, actions: seq<Action>): Desk
    decreases |actions|
  {
    if actions == [] then d else Run(Step(d, actions[0]), actions[1..])
  }

  /** What a committed human decision does to its case. */
  lemma DecisionShape(c: Case, a: Action)
    requires CaseInv(c) && Human(a) && Decide(c, a).Moved?
    ensures var c' := Decide(c, a).c;
            && CaseInv(c') && c'.version == c.version + 1 && !Terminal(c.state)
            && c'.number == c.number && SameOccurrence(c', c.workOrder, c.serviceDate)
    ensures c.version == if a.TransitionAsked? then a.request.expectedVersion else a.expectedVersion
  {
    if a.TransitionAsked? {
      TransitionShape(c, a.member, a.request, a.activeMembers, a.now);
    } else {
      AssignedInv(c, a.member, a.expectedVersion, a.owner, a.activeMembers);
    }
    hide CaseInv, Transition;
  }

  lemma TransitionShape(c: Case, m: Member, q: Request, activeMembers: set<nat>, now: int)
    requires CaseInv(c) && Transition(c, m, q, activeMembers, now).Moved?
    ensures var c' := Transition(c, m, q, activeMembers, now).c;
            && CaseInv(c') && c'.version == c.version + 1 == q.expectedVersion + 1 && !Terminal(c.state)
            && c'.number == c.number && SameOccurrence(c', c.workOrder, c.serviceDate)
  {
    MovedInv(c, m, q, now);
    EdgesLeaveOpenStates(c.state, q.to);
    hide CaseInv, DataComplete, MayMove;
  }

  lemma StepKeeps(d: Desk, a: Action)
    requires DeskInv(d)
    ensures DeskInv(Step(d, a))
  {
    hide Persist, Decide, LedgerInvariant.Inv, Linked, CaseInv, NumberedFromOne;
    match a
    case PersistAsked(output, run, currencies) => PersistKeeps(d, output, run, currencies);
    case RecoveryAsked(b) =>
      if !b.CandidateRecorded? {
        LedgerKeeps(d, b);
      }
    case _ =>
      if a.at < |d.cases| && Decide(d.cases[a.at], a).Moved? {
        assert CaseInv(d.cases[a.at]);
        DecisionShape(d.cases[a.at], a);
        HumanKeeps(d, a.at, Decide(d.cases[a.at], a).c);
      }
  }

  lemma {:induction false} RunKeeps(d: Desk, actions: seq<Action>)
    requires DeskInv(d)
    ensures DeskInv(Run(d, actions))
    decreases |actions|
  {
    hide DeskInv, Step;
    if actions != [] {
      StepKeeps(d, actions[0]);
      RunKeeps(Step(d, actions[0]), actions[1..]);
    }
  }

  ghost predicate Reachable(d: Desk) {
    exists actions :: d == Run(EMPTY_DESK, actions)
  }

  lemma ReachableInv(d: Desk)
    requires Reachable(d)
    ensures DeskInv(d)
  {
    var actions :| d == Run(EMPTY_DESK, actions);
    LedgerInvariant.EmptyInv();
    RunKeeps(EMPTY_DESK, actions);
  }

  // ---------------------------------------------------------------- identity

  /** Case numbers are 1 to n, and no work order and service date has two cases, open or closed. */
  lemma OneCasePerOccurrence(d: Desk)
    requires Reachable(d)
    ensures forall i | 0 <= i < |d.cases| :: d.cases[i].number == i + 1
    ensures forall i, j | 0 <= i < |d.cases| && 0 <= j < |d.cases| ::
              SameOccurrence(d.cases[i], d.cases[j].workOrder, d.cases[j].serviceDate) ==> i == j
    ensures forall i, j | 0 <= i < |d.cases| && 0 <= j < |d.cases| ::
              d.cases[i].fingerprint == d.cases[j].fingerprint ==> i == j
  {
    ReachableInv(d);
    forall i | 0 <= i < |d.cases| ensures CaseInv(d.cases[i]) {
    }
  }

  /** The number tried first is always free, so five attempts are never needed. */
  lemma NumberAlwaysAllocated(d: Desk, workOrder: nat, finding: Finding, ruleVersion: nat, run: RunInfo)
    requires Reachable(d)
    ensures UpsertCase(d.cases, workOrder, finding, ruleVersion, run).Upserted?
  {
    ReachableInv(d);
    UpsertKeeps(d.cases, workOrder, finding, ruleVersion, run);
  }

  // ---------------------------------------------------------------- timelines

  /** Versions of the events people caused. */
  function HumanVersions(events: seq<CaseEvent>): seq<nat> {
    if events == [] then []
    else
      var before, last := HumanVersions(events[..|events| - 1]), events[|events| - 1];
      if last.Transitioned? || last.OwnerAssigned? then before + [last.version] else before
  }

  lemma {:induction false} VersionsCountUp(events: seq<CaseEvent>)
    requires Replay(events).Some?
    ensures |HumanVersions(events)| == Replay(events).value.version - 1
    ensures forall k | 0 <= k < |HumanVersions(events)| :: HumanVersions(events)[k] == k + 2
  {
    if events == [Detected(1)] {
      assert HumanVersions(events[..0]) == [];
    } else {
      VersionsCountUp(events[..|events| - 1]);
    }
  }

  /**
   The timeline of every case replays, along allowed edges from New, to the stored state and version, and
   its human events carry the versions 2, 3, and so on up to the stored one.
   */
  lemma TimelineReplays(d: Desk, i: nat)
    requires Reachable(d) && i < |d.cases|
    ensures var c := d.cases[i];
            && Replay(c.events) == Some(Position(c.state, c.version))
            && |HumanVersions(c.events)| == c.version - 1
            && forall k | 0 <= k < |HumanVersions(c.events)| :: HumanVersions(c.events)[k] == k + 2
  {
    ReachableInv(d);
    assert CaseInv(d.cases[i]);
    VersionsCountUp(d.cases[i].events);
  }

  /**
   A case past New has an owner and was acknowledged exactly once, unless it was dismissed straight from
   New; a new case was never acknowledged. Closed cases carry a code of their own kind.
   */
  lemma OwnedOnceAcknowledged(d: Desk, i: nat)
    requires Reachable(d) && i < |d.cases|
    ensures var c := d.cases[i];
            && (c.firstAcknowledgedAt.Some? <==> !c.state.New? && !DismissedStraight(c.events))
            && Acknowledgements(c.events) == (if c.firstAcknowledgedAt.Some? then 1 else 0)
            && (c.firstAcknowledgedAt.Some? ==> c.owner.Some?)
            && (c.state.Resolved? <==> c.resolutionCode in RESOLUTION_CODES)
            && (c.state.Dismissed? <==> c.dismissalCode in DISMISSAL_CODES)
  {
    ReachableInv(d);
    assert CaseInv(d.cases[i]);
  }

  // ---------------------------------------------------------------- what one persist writes

  /** The last finding among the matches for one occurrence. */
  function FindingFor(matches: seq<DetectionResult>, workOrder: nat, serviceDate: int): Option<Finding>
    requires AllMatched(matches)
  {
    if matches == [] then None
    else
      var r := matches[|matches| - 1];
      if r.subject == workOrder && r.verdict.finding.serviceDate == serviceDate then Some(r.verdict.finding)
      else FindingFor(matches[..|matches| - 1], workOrder, serviceDate)
  }

  function Rewritten(c: Case, matches: seq<DetectionResult>, ruleVersion: nat, run: RunInfo): Case
    requires AllMatched(matches)
  {
    var f := FindingFor(matches, c.workOrder, c.serviceDate);
    if f.None? || Terminal(c.state) then c else RefreshedCase(c, f.value, ruleVersion, run)
  }

  /** One upsert rewrites the case of its occurrence and no other. */
  lemma UpsertPointwise(cases: seq<Case>, workOrder: nat, finding: Finding, ruleVersion: nat, run: RunInfo, i: nat)
    requires CasesInv(cases) && i < |cases|
    ensures var u := UpsertCase(cases, workOrder, finding, ruleVersion, run);
            && u.Upserted? && i < |u.cases|
            && u.cases[i] == if SameOccurrence(cases[i], workOrder, finding.serviceDate) && !Terminal(cases[i].state)
                             then RefreshedCase(cases[i], finding, ruleVersion, run) else cases[i]
  {
    UpsertKeeps(cases, workOrder, finding, ruleVersion, run);
    OccurrenceDecides(cases, workOrder, finding.serviceDate, ruleVersion);
    hide UpsertCase, CasesInv;
    var u := UpsertCase(cases, workOrder, finding, ruleVersion, run);
    UpsertAtOccurrence(cases, workOrder, finding, ruleVersion, run, i);
  }

  lemma UpsertAtOccurrence(cases: seq<Case>, workOrder: nat, finding: Finding, ruleVersion: nat, run: RunInfo, i: nat)
    requires CasesInv(cases) && i < |cases|
    ensures SameOccurrence(cases[i], workOrder, finding.serviceDate) ==>
              var u := UpsertCase(cases, workOrder, finding, ruleVersion, run);
              && u.Upserted? && u.at == i && |u.cases| == |cases|
              && u.cases[i] == if Terminal(cases[i].state) then cases[i]
                               else RefreshedCase(cases[i], finding, ruleVersion, run)
    ensures !SameOccurrence(cases[i], workOrder, finding.serviceDate) ==>
              var u := UpsertCase(cases, workOrder, finding, ruleVersion, run);
              u.Upserted? && i < |u.cases| && u.cases[i] == cases[i]
  {
    UpsertKeeps(cases, workOrder, finding, ruleVersion, run);
    OccurrenceDecides(cases, workOrder, finding.serviceDate, ruleVersion);
    hide AllCasesInv, NumberedFromOne;
  }

  lemma PersistMatchPointwise(
    d: Desk, workOrder: nat, finding: Finding, ruleVersion: nat, run: RunInfo, currencies: map<nat, Currency>, i: nat)
    requires CasesInv(d.cases) && i < |d.cases|
    ensures var p := PersistMatch(d, workOrder, finding, ruleVersion, run, currencies);
            p.Progress? ==>
              && i < |p.desk.cases|
              && p.desk.cases[i] == if SameOccurrence(d.cases[i], workOrder, finding.serviceDate)
                                       && !Terminal(d.cases[i].state)
                                    then RefreshedCase(d.cases[i], finding, ruleVersion, run) else d.cases[i]
  {
    UpsertPointwise(d.cases, workOrder, finding, ruleVersion, run, i);
    hide UpsertCase, CasesInv, Ledger.RecordCandidate;
  }

  lemma {:induction false} PersistMatchesPointwise(
    d: Desk, matches: seq<DetectionResult>, ruleVersion: nat, run: RunInfo, currencies: map<nat, Currency>, i: nat)
    requires DeskInv(d) && AllMatched(matches) && i < |d.cases|
    ensures var p := PersistMatches(d, matches, ruleVersion, run, currencies);
            p.Progress? ==> i < |p.desk.cases| && p.desk.cases[i] == Rewritten(d.cases[i], matches, ruleVersion, run)
  {
    hide PersistMatch, CasesInv, Linked, LedgerInvariant.Inv;
    if matches != [] {
      var before := PersistMatches(d, matches[..|matches| - 1], ruleVersion, run, currencies);
      PersistMatchesPointwise(d, matches[..|matches| - 1], ruleVersion, run, currencies, i);
      PersistMatchesKeep(d, matches[..|matches| - 1], ruleVersion, run, currencies);
      if before.Progress? {
        var r := matches[|matches| - 1];
        PersistMatchPointwise(before.desk, r.subject, r.verdict.finding, ruleVersion, run, currencies, i);
      }
    }
  }

  lemma {:induction false} NoFindingWithoutMatch(results: seq<DetectionResult>, workOrder: nat, serviceDate: int)
    requires !MatchedSubject(results, workOrder)
    ensures FindingFor(Matches(results), workOrder, serviceDate).None?
  {
    NoFindingAmong(Matches(results), workOrder, serviceDate);
  }

  lemma {:induction false} NoFindingAmong(matches: seq<DetectionResult>, workOrder: nat, serviceDate: int)
    requires AllMatched(matches) && forall r <- matches :: r.subject != workOrder
    ensures FindingFor(matches, workOrder, serviceDate).None?
  {
    if matches != [] {
      assert matches[|matches| - 1] in matches;
      NoFindingAmong(matches[..|matches| - 1], workOrder, serviceDate);
    }
  }

  /**
   What one persist does to a case that was there before. If its work order matched, it is refreshed when
   the match is for its own occurrence and it is open, and otherwise left alone; it is never contradicted.
   If its work order did not match, it is never refreshed, only flagged when it was evaluated and is open.
   */
  lemma PersistWritesEvidence(d: Desk, output: DetectorOutput, run: RunInfo, currencies: map<nat, Currency>, i: nat)
    requires DeskInv(d) && i < |d.cases|
    ensures var o := Persist(d, output, run, currencies);
            o.Persisted? ==>
              && i < |o.desk.cases|
              && (MatchedSubject(output.results, d.cases[i].workOrder) ==>
                    o.desk.cases[i] == Rewritten(d.cases[i], Matches(output.results), output.ruleVersion, run))
              && (!MatchedSubject(output.results, d.cases[i].workOrder) ==>
                    o.desk.cases[i] == FlaggedCase(d.cases[i], output, run))
  {
    var matches := Matches(output.results);
    PersistMatchesPointwise(d, matches, output.ruleVersion, run, currencies, i);
    if !MatchedSubject(output.results, d.cases[i].workOrder) {
      NoFindingWithoutMatch(output.results, d.cases[i].workOrder, d.cases[i].serviceDate);
    }
    hide DeskInv, PersistMatches, FindingFor, SkippedTotal;
  }

  /** No case is both refreshed and contradicted, and nothing a person decided is touched. */
  lemma DetectorNeverDecides(d: Desk, output: DetectorOutput, run: RunInfo, currencies: map<nat, Currency>, i: nat)
    requires DeskInv(d) && i < |d.cases|
    ensures var d' := AfterPersist(d, Persist(d, output, run, currencies));
            && i < |d'.cases| && EvidenceOnly(d.cases[i], d'.cases[i])
            && (d'.cases[i].events != d.cases[i].events ==>
                  && !MatchedSubject(output.results, d.cases[i].workOrder)
                  && d'.cases[i].nextAction.FinanceReviewContradiction?
                  && |d'.cases[i].events| == |d.cases[i].events| + 1
                  && d'.cases[i].events[|d.cases[i].events|].Contradicted?)
  {
    PersistWritesEvidence(d, output, run, currencies, i);
    hide DeskInv, Persist, MatchedSubject, FindingFor;
  }

  /**
   The evidence an open case shows is the finding's; a contradicted one shows the run, the reason and
   finance review.
   */
  lemma PersistShowsFinding(d: Desk, output: DetectorOutput, run: RunInfo, currencies: map<nat, Currency>, i: nat)
    requires DeskInv(d) && i < |d.cases| && !Terminal(d.cases[i].state)
    requires Persist(d, output, run, currencies).Persisted?
    ensures i < |Persist(d, output, run, currencies).desk.cases|
    ensures var c, c' := d.cases[i], Persist(d, output, run, currencies).desk.cases[i];
            var f := FindingFor(Matches(output.results), c.workOrder, c.serviceDate);
            f.Some? ==>
              && c'.severity == f.value.severity && c'.deadline == f.value.deadline
              && c'.freshness == f.value.freshness && c'.ruleVersion == output.ruleVersion
              && c'.nextAction.FinanceReviewCandidate? && c'.lastRefreshedBy == run.id && c'.events == c.events
    ensures var c, c' := d.cases[i], Persist(d, output, run, currencies).desk.cases[i];
            c'.events != c.events ==>
              && ReasonFor(output.results, c.workOrder).Some?
              && c'.events == c.events + [Contradicted(ReasonFor(output.results, c.workOrder).value, c.version)]
              && c'.nextAction.FinanceReviewContradiction? && c'.lastRefreshedBy == run.id
              && c'.freshness == Overall(output.operations, output.accounting)
              && c'.severity == c.severity && c'.deadline == c.deadline && c'.ruleVersion == c.ruleVersion
  {
    PersistWritesEvidence(d, output, run, currencies, i);
    var c := d.cases[i];
    hide DeskInv, Persist;
    if !MatchedSubject(output.results, c.workOrder) {
      NoFindingWithoutMatch(output.results, c.workOrder, c.serviceDate);
    }
    hide MatchedSubject, FindingFor, FlaggedCase, Rewritten, Overall, ReasonFor;
    RewrittenShows(c, Matches(output.results), output.ruleVersion, run);
    FlaggedShows(c, output, run);
  }

  lemma RewrittenShows(c: Case, matches: seq<DetectionResult>, ruleVersion: nat, run: RunInfo)
    requires AllMatched(matches) && !Terminal(c.state)
    ensures var c', f := Rewritten(c, matches, ruleVersion, run), FindingFor(matches, c.workOrder, c.serviceDate);
            && c'.events == c.events
            && (f.Some? ==>
                  && c'.severity == f.value.severity && c'.deadline == f.value.deadline
                  && c'.freshness == f.value.freshness && c'.ruleVersion == ruleVersion
                  && c'.nextAction.FinanceReviewCandidate? && c'.lastRefreshedBy == run.id)
  {
    hide FindingFor;
  }

  lemma FlaggedShows(c: Case, output: DetectorOutput, run: RunInfo)
    ensures var c' := FlaggedCase(c, output, run);
            c'.events != c.events ==>
              && ReasonFor(output.results, c.workOrder).Some?
              && c'.events == c.events + [Contradicted(ReasonFor(output.results, c.workOrder).value, c.version)]
              && c'.nextAction.FinanceReviewContradiction? && c'.lastRefreshedBy == run.id
              && c'.freshness == Overall(output.operations, output.accounting)
              && c'.severity == c.severity && c'.deadline == c.deadline && c'.ruleVersion == c.ruleVersion
  {
    hide ReasonFor, MatchedSubject;
  }

  /**
   What a committed transition leaves: the asked state under the next version, the named active owner if one
   was named, else the owner there was, else the person who acknowledged; a first acknowledgement is never
   overwritten; detector columns are untouched.
   */
  lemma TransitionEffects(c: Case, m: Member, q: Request, activeMembers: set<nat>, now: int)
    requires CaseInv(c) && Transition(c, m, q, activeMembers, now).Moved?
    ensures var c' := Transition(c, m, q, activeMembers, now).c;
            && c'.state == q.to && c'.version == q.expectedVersion + 1 && m.active
            && (q.owner.Some? ==> c'.owner == q.owner && q.owner.value in activeMembers)
            && (q.owner.None? && c.owner.Some? ==> c'.owner == c.owner)
            && (q.owner.None? && c.owner.None? ==>
                  c'.owner == if q.to.Acknowledged? then Some(m.id) else None)
            && c'.firstAcknowledgedAt == (if q.to.Acknowledged? then Some(now) else c.firstAcknowledgedAt)
            && (q.to.Acknowledged? ==> c.firstAcknowledgedAt.None?)
            && (q.to.Resolved? ==>
                  c'.resolvedAt == Some(now) && c'.resolutionCode == q.code && q.code in RESOLUTION_CODES)
            && (q.to.Dismissed? ==> c'.dismissalCode == q.code && q.code in DISMISSAL_CODES)
            && (Terminal(q.to) ==> m.roles * {Owner, FinanceReviewer} != {} && q.noteGiven)
            && c' == c.(state := c'.state, version := c'.version, owner := c'.owner,
                        firstAcknowledgedAt := c'.firstAcknowledgedAt, resolvedAt := c'.resolvedAt,
                        resolutionCode := c'.resolutionCode, dismissalCode := c'.dismissalCode,
                        events := c.events + [Transitioned(c.state, q.to, m.id, c.version + 1)])
  {
    hide Replay, Acknowledgements, DismissedStraight;
    EdgeIntoAcknowledged(c.state, q.to);
  }

  lemma EdgeIntoAcknowledged(from: CaseState, to: CaseState)
    requires (from, to) in ALLOWED_EDGES
    ensures to.Acknowledged? ==> from.New?
  {
  }

  predicate HasCase(cases: seq<Case>, workOrder: nat, serviceDate: int) {
    exists i | 0 <= i < |cases| :: SameOccurrence(cases[i], workOrder, serviceDate)
  }

  predicate MatchFor(r: DetectionResult, c: Case) {
    r.verdict.Matched? && SameOccurrence(c, r.subject, r.verdict.finding.serviceDate)
  }

  /** A case as a match creates it: new, unowned, at version 1, with one event. */
  predicate FreshCase(c: Case, matches: seq<DetectionResult>) {
    && c.state.New? && c.version == 1 && c.events == [Detected(1)] && c.owner.None?
    && exists r <- matches :: MatchFor(r, c)
  }

  predicate CasesFor(cases: seq<Case>, matches: seq<DetectionResult>) {
    forall r <- matches :: r.verdict.Matched? ==> HasCase(cases, r.subject, r.verdict.finding.serviceDate)
  }

  predicate FreshFrom(cases: seq<Case>, n: nat, matches: seq<DetectionResult>) {
    n <= |cases| && forall i | n <= i < |cases| :: FreshCase(cases[i], matches)
  }

  lemma MatchGetsCase(d: Desk, r: DetectionResult, ruleVersion: nat, run: RunInfo, currencies: map<nat, Currency>)
    requires CasesInv(d.cases) && r.verdict.Matched?
    ensures var p := PersistMatch(d, r.subject, r.verdict.finding, ruleVersion, run, currencies);
            p.Progress? ==>
              && RefreshedAll(d.cases, p.desk.cases)
              && HasCase(p.desk.cases, r.subject, r.verdict.finding.serviceDate)
              && FreshFrom(p.desk.cases, |d.cases|, [r])
  {
    hide CasesInv, Ledger.RecordCandidate, UpsertCase, RefreshedAll, FreshFrom;
    var u := UpsertCase(d.cases, r.subject, r.verdict.finding, ruleVersion, run);
    UpsertKeeps(d.cases, r.subject, r.verdict.finding, ruleVersion, run);
    UpsertIsFresh(d.cases, r, ruleVersion, run);
  }

  lemma UpsertIsFresh(cases: seq<Case>, r: DetectionResult, ruleVersion: nat, run: RunInfo)
    requires CasesInv(cases) && r.verdict.Matched?
    ensures var u := UpsertCase(cases, r.subject, r.verdict.finding, ruleVersion, run);
            u.Upserted? ==> FreshFrom(u.cases, |cases|, [r])
  {
    var u := UpsertCase(cases, r.subject, r.verdict.finding, ruleVersion, run);
    if u.Upserted? && u.created {
      assert r in [r] && MatchFor(r, u.cases[u.at]);
    }
  }

  lemma CasesStay(cases: seq<Case>, cases': seq<Case>, matches: seq<DetectionResult>)
    requires RefreshedAll(cases, cases') && CasesFor(cases, matches)
    ensures CasesFor(cases', matches)
  {
    forall r <- matches | r.verdict.Matched?
      ensures HasCase(cases', r.subject, r.verdict.finding.serviceDate)
    {
      var i :| 0 <= i < |cases| && SameOccurrence(cases[i], r.subject, r.verdict.finding.serviceDate);
      assert RefreshedOnly(cases[i], cases'[i]);
    }
  }

  lemma FreshStay(
    cases: seq<Case>, cases': seq<Case>, n: nat, matches: seq<DetectionResult>, r: DetectionResult)
    requires RefreshedAll(cases, cases') && FreshFrom(cases, n, matches) && FreshFrom(cases', |cases|, [r])
    ensures FreshFrom(cases', n, matches + [r])
  {
    forall i | n <= i < |cases'| ensures FreshCase(cases'[i], matches + [r]) {
      if i < |cases| {
        assert RefreshedOnly(cases[i], cases'[i]) && FreshCase(cases[i], matches);
        var m :| m in matches && MatchFor(m, cases[i]);
        assert m in matches + [r] && MatchFor(m, cases'[i]);
      } else {
        assert FreshCase(cases'[i], [r]);
        assert r in matches + [r] && MatchFor(r, cases'[i]);
      }
    }
  }

  lemma NothingFresh(cases: seq<Case>)
    ensures FreshFrom(cases, |cases|, [])
  {
  }

  lemma {:induction false} MatchesGetCases(
    d: Desk, matches: seq<DetectionResult>, ruleVersion: nat, run: RunInfo, currencies: map<nat, Currency>)
    requires DeskInv(d) && AllMatched(matches)
    ensures var p := PersistMatches(d, matches, ruleVersion, run, currencies);
            p.Progress? ==> CasesFor(p.desk.cases, matches) && FreshFrom(p.desk.cases, |d.cases|, matches)
  {
    NothingFresh(d.cases);
    hide PersistMatch, CasesInv, Linked, LedgerInvariant.Inv, RefreshedAll, FreshFrom, HasCase;
    if matches != [] {
      var shorter, r := matches[..|matches| - 1], matches[|matches| - 1];
      assert matches == shorter + [r];
      var before := PersistMatches(d, shorter, ruleVersion, run, currencies);
      MatchesGetCases(d, shorter, ruleVersion, run, currencies);
      PersistMatchesKeep(d, shorter, ruleVersion, run, currencies);
      if before.Progress? {
        MatchGetsCase(before.desk, r, ruleVersion, run, currencies);
        var p := PersistMatch(before.desk, r.subject, r.verdict.finding, ruleVersion, run, currencies);
        if p.Progress? {
          CasesStay(before.desk.cases, p.desk.cases, shorter);
          FreshStay(before.desk.cases, p.desk.cases, |d.cases|, shorter, r);
          hide PersistMatches;
          assert CasesFor(p.desk.cases, [r]);
        }
      }
    }
  }

  /** After a persist every matched occurrence has a case, and every added case is fresh and was matched. */
  lemma PersistCoversMatches(d: Desk, output: DetectorOutput, run: RunInfo, currencies: map<nat, Currency>)
    requires DeskInv(d)
    ensures var o := Persist(d, output, run, currencies);
            o.Persisted? ==>
              && CasesFor(o.desk.cases, Matches(output.results))
              && FreshFrom(o.desk.cases, |d.cases|, Matches(output.results))
  {
    var matches := Matches(output.results);
    var p := PersistMatches(d, matches, output.ruleVersion, run, currencies);
    MatchesGetCases(d, matches, output.ruleVersion, run, currencies);
    hide DeskInv, PersistMatches, SkippedTotal, FlagCount, CasesFor, FreshFrom;
    if p.Progress? {
      FlaggingKeepsMatches(p.desk.cases, |d.cases|, output, run);
    }
  }

  lemma FlaggingKeepsMatches(cases: seq<Case>, n: nat, output: DetectorOutput, run: RunInfo)
    requires CasesFor(cases, Matches(output.results)) && FreshFrom(cases, n, Matches(output.results))
    ensures CasesFor(FlagCases(cases, output, run), Matches(output.results))
    ensures FreshFrom(FlagCases(cases, output, run), n, Matches(output.results))
  {
    var matches, flagged := Matches(output.results), FlagCases(cases, output, run);
    forall r <- matches ensures HasCase(flagged, r.subject, r.verdict.finding.serviceDate) {
      var i :| 0 <= i < |cases| && SameOccurrence(cases[i], r.subject, r.verdict.finding.serviceDate);
      assert SameOccurrence(flagged[i], r.subject, r.verdict.finding.serviceDate);
    }
    forall i | n <= i < |flagged| ensures FreshCase(flagged[i], matches) {
      assert FreshCase(cases[i], matches);
      var r :| r in matches && MatchFor(r, cases[i]);
      assert r in output.results;
      assert flagged[i] == cases[i];
    }
  }
}
