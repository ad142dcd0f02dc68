/** When people's requests on a case are carried out, what a contradiction takes, and what a new case shows. */
module CaseLaws {
  import opened Common
  import opened Detection
  import opened Cases
  import opened CaseInvariant
  import opened CaseRuns
  import CaseHistory
  import Ledger
  import LedgerInvariant

  // ---------------------------------------------------------------- requests

  /** The state diagram, seen from where a case is going. */
  predicate Leads(from: CaseState, to: CaseState) {
    match to
    case New => false
    case Acknowledged => from == New
    case ActionPending => from in {Acknowledged, WaitingExternal, Escalated}
    case WaitingExternal => from == ActionPending
    case Escalated => from in {Acknowledged, ActionPending, WaitingExternal}
    case Resolved => !Closed(from) && from != New
    case Dismissed => !Closed(from)
  }

  predicate Closed(state: CaseState) {
    state == Resolved || state == Dismissed
  }

  /** An active owner or finance reviewer; short of closing a case, an operations manager too. */
  predicate Entitled(m: Member, closing: bool) {
    && m.active
    && (Owner in m.roles || FinanceReviewer in m.roles || (!closing && OperationsManager in m.roles))
  }

  /** What must be said with a request to move to the state. */
  predicate Substantiated(c: Case, q: Request) {
    match q.to
    case Resolved =>
      q.noteGiven && q.code in {"source_corrected", "invoice_handoff_prepared", "client_cancelled"}
    case Dismissed =>
      && q.noteGiven
      && q.code in {"false_positive", "duplicate_source_record", "source_stale", "not_billable", "already_invoiced",
                    "contract_excluded", "cancelled_at_source", "insufficient_evidence"}
    case Escalated => q.noteGiven && q.owner.Some?
    case ActionPending => q.owner.Some? || c.owner.Some?
    case _ => true
  }

  lemma EdgesLead(from: CaseState, to: CaseState)
    ensures (from, to) in ALLOWED_EDGES <==> Leads(from, to)
  {
  }

  lemma RolesEntitle(m: Member, to: CaseState)
    ensures MayMove(m, to) <==> Entitled(m, Closed(to))
  {
    assert Owner in RolesFor(to) && FinanceReviewer in RolesFor(to);
    assert OperationsManager in RolesFor(to) <==> !Closed(to);
    if Entitled(m, Closed(to)) {
      var role :| role in m.roles && role in RolesFor(to);
      assert role in m.roles * RolesFor(to);
    }
  }

  /**
   A request to move a case is carried out exactly when it expects the case's version, the diagram leads there, the
   member is entitled, what it takes is said, and the owner it names is active. Each refusal has its own circumstances.
   */
  lemma TransitionCommitsIff(c: Case, m: Member, q: Request, activeMembers: set<nat>, now: int)
    ensures var o := Transition(c, m, q, activeMembers, now);
            var due := c.version == q.expectedVersion && Leads(c.state, q.to);
            && (o.Moved? <==>
                  && due && Entitled(m, Closed(q.to)) && Substantiated(c, q)
                  && (q.owner.Some? ==> q.owner.value in activeMembers))
            && (o == Denied(StaleVersion) <==> c.version != q.expectedVersion)
            && (o == Denied(NoSuchEdge) <==> c.version == q.expectedVersion && !Leads(c.state, q.to))
            && (o == Denied(RoleDenied) <==> due && !Entitled(m, Closed(q.to)))
            && (o == Denied(DataMissing) <==> due && Entitled(m, Closed(q.to)) && !Substantiated(c, q))
            && (o == Denied(OwnerNotActive) <==>
                  && due && Entitled(m, Closed(q.to)) && Substantiated(c, q)
                  && q.owner.Some? && q.owner.value !in activeMembers)
  {
    EdgesLead(c.state, q.to);
    RolesEntitle(m, q.to);
    hide ALLOWED_EDGES, Leads, MayMove, Entitled;
  }

  /**
   An assignment is carried out exactly when it expects the version, the case is open, the member is entitled to work
   on it and the new owner is active; it changes the owner and the version, and tells so on the timeline.
   */
  lemma AssignmentCommitsIff(c: Case, m: Member, expectedVersion: nat, owner: nat, activeMembers: set<nat>)
    ensures var o := AssignOwner(c, m, expectedVersion, owner, activeMembers);
            var current := c.version == expectedVersion;
            && (o.Moved? <==> current && !Closed(c.state) && Entitled(m, false) && owner in activeMembers)
            && (o == Denied(StaleVersion) <==> !current)
            && (o == Denied(CaseClosed) <==> current && Closed(c.state))
            && (o == Denied(RoleDenied) <==> current && !Closed(c.state) && !Entitled(m, false))
            && (o == Denied(OwnerNotActive) <==>
                  current && !Closed(c.state) && Entitled(m, false) && owner !in activeMembers)
            && (o.Moved? ==>
                  o.c == c.(owner := Some(owner), version := c.version + 1,
                            events := c.events + [OwnerAssigned(m.id, c.version + 1)]))
  {
    RolesEntitle(m, ActionPending);
    hide MayMove, Entitled;
  }

  // ---------------------------------------------------------------- contradictions

  /** The output evaluated the work order and reports this reason for it, and no match. */
  predicate Reported(output: DetectorOutput, workOrder: nat, reason: SkipReason) {
    DetectionResult(workOrder, Skipped(reason)) in output.results
  }

  lemma {:induction false} ReasonIsReported(results: seq<DetectionResult>, workOrder: nat)
    ensures var found := ReasonFor(results, workOrder);
            found.Some? ==> DetectionResult(workOrder, Skipped(found.value)) in results
  {
    if results != [] {
      var last := results[|results| - 1];
      assert results == results[..|results| - 1] + [last];
      if !(last.subject == workOrder && last.verdict.Skipped?) {
        ReasonIsReported(results[..|results| - 1], workOrder);
      }
    }
  }

  /**
   A persist contradicts an earlier case exactly when the case is open, its work order was evaluated and skipped and
   not matched, and the same run has not contradicted it already; the contradiction gives the reported reason.
   */
  lemma ContradictedIff(d: Desk, output: DetectorOutput, run: RunInfo, currencies: map<nat, Currency>, i: nat)
    requires DeskInv(d) && i < |d.cases| && CaseHistory.SubjectsDistinct(output.results)
    requires Persist(d, output, run, currencies).Persisted?
    ensures i < |Persist(d, output, run, currencies).desk.cases|
    ensures var c, c' := d.cases[i], Persist(d, output, run, currencies).desk.cases[i];
            && (c'.events != c.events <==>
                  && !Closed(c.state)
                  && !(c.nextAction == FinanceReviewContradiction && c.lastRefreshedBy == run.id)
                  && exists reason :: Reported(output, c.workOrder, reason))
            && forall reason | c'.events != c.events && Reported(output, c.workOrder, reason) ::
                 c'.events == c.events + [Contradicted(reason, c.version)]
  {
    var c := d.cases[i];
    EventsAfter(d, output, run, currencies, i);
    ReasonIsReported(output.results, c.workOrder);
    FlagDecides(c, output, run);
    hide DeskInv, Persist, ReasonFor, MatchedSubject, FlaggedCase, CaseHistory.SubjectsDistinct;
    forall reason | Reported(output, c.workOrder, reason)
      ensures !MatchedSubject(output.results, c.workOrder) && ReasonFor(output.results, c.workOrder) == Some(reason)
    {
      OnlyReason(output, c.workOrder, reason);
    }
  }

  /** Evidence is as bad as the worse feed. */
  lemma OverallIsWorst(operations: Freshness, accounting: Freshness)
    ensures var overall := Overall(operations, accounting);
            && (overall.StaleData? <==> operations.StaleData? || accounting.StaleData?)
            && (overall.FreshData? <==> operations.FreshData? && accounting.FreshData?)
            && (overall.AgingData? <==>
                  && !operations.StaleData? && !accounting.StaleData?
                  && (operations.AgingData? || accounting.AgingData?))
  {
  }

  /**
   A contradicted case shows that finance must look again, the run that contradicted it, and evidence as bad as the
   worse feed; what it showed of the earlier finding stays.
   */
  lemma ContradictionShows(d: Desk, output: DetectorOutput, run: RunInfo, currencies: map<nat, Currency>, i: nat)
    requires DeskInv(d) && i < |d.cases| && Persist(d, output, run, currencies).Persisted?
    ensures i < |Persist(d, output, run, currencies).desk.cases|
    ensures var c, c' := d.cases[i], Persist(d, output, run, currencies).desk.cases[i];
            c'.events != c.events ==>
              && c' == c.(nextAction := FinanceReviewContradiction, lastRefreshedBy := run.id,
                          freshness := c'.freshness, events := c'.events)
              && (c'.freshness.StaleData? <==> output.operations.StaleData? || output.accounting.StaleData?)
              && (c'.freshness.FreshData? <==> output.operations.FreshData? && output.accounting.FreshData?)
              && (c'.freshness.AgingData? <==>
                    && !c'.freshness.StaleData?
                    && (output.operations.AgingData? || output.accounting.AgingData?))
  {
    PersistWritesEvidence(d, output, run, currencies, i);
    RewritingIsQuiet(d.cases[i], output, run);
    OverallIsWorst(output.operations, output.accounting);
    hide DeskInv, Persist, MatchedSubject, Rewritten, Overall, ReasonFor;
  }

  lemma EventsAfter(d: Desk, output: DetectorOutput, run: RunInfo, currencies: map<nat, Currency>, i: nat)
    requires DeskInv(d) && i < |d.cases| && Persist(d, output, run, currencies).Persisted?
    ensures i < |Persist(d, output, run, currencies).desk.cases|
    ensures Persist(d, output, run, currencies).desk.cases[i].events
         == if MatchedSubject(output.results, d.cases[i].workOrder) then d.cases[i].events
            else FlaggedCase(d.cases[i], output, run).events
  {
    PersistWritesEvidence(d, output, run, currencies, i);
    RewritingIsQuiet(d.cases[i], output, run);
    hide DeskInv, Persist, MatchedSubject, FlaggedCase, Rewritten;
  }

  lemma OnlyReason(output: DetectorOutput, workOrder: nat, reason: SkipReason)
    requires CaseHistory.SubjectsDistinct(output.results) && Reported(output, workOrder, reason)
    ensures !MatchedSubject(output.results, workOrder) && ReasonFor(output.results, workOrder) == Some(reason)
  {
    var k :| 0 <= k < |output.results| && output.results[k] == DetectionResult(workOrder, Skipped(reason));
    ReasonIsReported(output.results, workOrder);
    assert output.results[k].subject == workOrder && output.results[k].verdict.Skipped?;
    forall r <- output.results | r.subject == workOrder ensures r == output.results[k] {
      var j :| 0 <= j < |output.results| && output.results[j] == r;
    }
  }

  lemma RewritingIsQuiet(c: Case, output: DetectorOutput, run: RunInfo)
    ensures Rewritten(c, Matches(output.results), output.ruleVersion, run).events == c.events
  {
    hide FindingFor;
  }

  lemma FlagDecides(c: Case, output: DetectorOutput, run: RunInfo)
    ensures var c' := FlaggedCase(c, output, run);
            && (c'.events != c.events <==>
                  && !Closed(c.state) && !MatchedSubject(output.results, c.workOrder)
                  && !(c.nextAction == FinanceReviewContradiction && c.lastRefreshedBy == run.id)
                  && ReasonFor(output.results, c.workOrder).Some?)
            && (c'.events != c.events ==>
                  c'.events == c.events + [Contradicted(ReasonFor(output.results, c.workOrder).value, c.version)])
  {
    hide MatchedSubject, ReasonFor;
  }

  // ---------------------------------------------------------------- new cases

  /** The row a run inserts for an occurrence. */
  function Inserted(number: nat, workOrder: nat, f: Finding, ruleVersion: nat, run: RunInfo): Case {
    Case(number, Fingerprint(ruleVersion, workOrder, f.serviceDate), workOrder, f.serviceDate,
         New, None, None, None, "", "", 1,
         f.severity, f.deadline, f.freshness, ruleVersion, FinanceReviewCandidate,
         run.id, run.asOf, run.id, [Detected(1)])
  }

  predicate ShowsFinding(cases: seq<Case>, i: nat, matches: seq<DetectionResult>, ruleVersion: nat, run: RunInfo)
    requires i < |cases| && AllMatched(matches)
  {
    var f := FindingFor(matches, cases[i].workOrder, cases[i].serviceDate);
    && f.Some? && f.value.serviceDate == cases[i].serviceDate
    && cases[i] == Inserted(i + 1, cases[i].workOrder, f.value, ruleVersion, run)
  }

  predicate NewShow(cases: seq<Case>, n: nat, matches: seq<DetectionResult>, ruleVersion: nat, run: RunInfo)
    requires AllMatched(matches)
  {
    n <= |cases| && forall i | n <= i < |cases| :: ShowsFinding(cases, i, matches, ruleVersion, run)
  }

  lemma MatchShows(
    d: Desk, n: nat, shorter: seq<DetectionResult>, r: DetectionResult, ruleVersion: nat, run: RunInfo,
    currencies: map<nat, Currency>)
    requires DeskInv(d) && AllMatched(shorter) && r.verdict.Matched? && NewShow(d.cases, n, shorter, ruleVersion, run)
    ensures AllMatched(shorter + [r])
    ensures var p := PersistMatch(d, r.subject, r.verdict.finding, ruleVersion, run, currencies);
            p.Progress? ==> NewShow(p.desk.cases, n, shorter + [r], ruleVersion, run)
  {
    hide PersistMatch, CasesInv, Linked, LedgerInvariant.Inv, Inserted, ShowsFinding, RefreshedCase;
    var matches, f := shorter + [r], r.verdict.finding;
    var p := PersistMatch(d, r.subject, f, ruleVersion, run, currencies);
    if p.Progress? {
      PersistMatchKeeps(d, r.subject, f, ruleVersion, run, currencies);
      InsertedCase(d, r, ruleVersion, run, currencies);
      forall i | n <= i < |p.desk.cases| ensures ShowsFinding(p.desk.cases, i, matches, ruleVersion, run) {
        if i < |d.cases| {
          PersistMatchPointwise(d, r.subject, f, ruleVersion, run, currencies, i);
          EarlierShows(d.cases, p.desk.cases, i, shorter, r, ruleVersion, run);
        } else {
          InsertedShows(p.desk.cases, i, shorter, r, ruleVersion, run);
        }
      }
    }
  }

  lemma InsertedShows(
    cases: seq<Case>, i: nat, shorter: seq<DetectionResult>, r: DetectionResult, ruleVersion: nat, run: RunInfo)
    requires AllMatched(shorter) && r.verdict.Matched? && i < |cases|
    requires cases[i] == Inserted(i + 1, r.subject, r.verdict.finding, ruleVersion, run)
    ensures AllMatched(shorter + [r]) && ShowsFinding(cases, i, shorter + [r], ruleVersion, run)
  {
    assert (shorter + [r])[..|shorter|] == shorter && (shorter + [r])[|shorter|] == r;
  }

  lemma EarlierShows(
    cases: seq<Case>, cases': seq<Case>, i: nat, shorter: seq<DetectionResult>, r: DetectionResult,
    ruleVersion: nat, run: RunInfo)
    requires AllMatched(shorter) && r.verdict.Matched? && i < |cases| && i < |cases'|
    requires ShowsFinding(cases, i, shorter, ruleVersion, run)
    requires cases'[i] == if SameOccurrence(cases[i], r.subject, r.verdict.finding.serviceDate)
                             && !Terminal(cases[i].state)
                          then RefreshedCase(cases[i], r.verdict.finding, ruleVersion, run) else cases[i]
    ensures AllMatched(shorter + [r]) && ShowsFinding(cases', i, shorter + [r], ruleVersion, run)
  {
    assert (shorter + [r])[..|shorter|] == shorter && (shorter + [r])[|shorter|] == r;
  }

  lemma InsertedCase(d: Desk, r: DetectionResult, ruleVersion: nat, run: RunInfo, currencies: map<nat, Currency>)
    requires DeskInv(d) && r.verdict.Matched?
    ensures var p := PersistMatch(d, r.subject, r.verdict.finding, ruleVersion, run, currencies);
            p.Progress? && |p.desk.cases| > |d.cases| ==>
              && |p.desk.cases| == |d.cases| + 1
              && p.desk.cases[|d.cases|] == Inserted(|d.cases| + 1, r.subject, r.verdict.finding, ruleVersion, run)
  {
    UpsertKeeps(d.cases, r.subject, r.verdict.finding, ruleVersion, run);
    hide CasesInv, LedgerInvariant.Inv, Ledger.RecordCandidate, Insertable;
  }

  lemma {:induction false} MatchesShow(
    d: Desk, matches: seq<DetectionResult>, ruleVersion: nat, run: RunInfo, currencies: map<nat, Currency>)
    requires DeskInv(d) && AllMatched(matches)
    ensures var p := PersistMatches(d, matches, ruleVersion, run, currencies);
            p.Progress? ==> NewShow(p.desk.cases, |d.cases|, matches, ruleVersion, run)
  {
    hide PersistMatch, DeskInv, ShowsFinding;
    if matches != [] {
      var shorter, r := matches[..|matches| - 1], matches[|matches| - 1];
      assert matches == shorter + [r];
      var before := PersistMatches(d, shorter, ruleVersion, run, currencies);
      MatchesShow(d, shorter, ruleVersion, run, currencies);
      PersistMatchesKeep(d, shorter, ruleVersion, run, currencies);
      if before.Progress? {
        MatchShows(before.desk, |d.cases|, shorter, r, ruleVersion, run, currencies);
      }
    }
  }

  /**
   Every case a persist adds shows, from its first row on, the last finding the run made for its occurrence: its
   severity, deadline, freshness and rule version, the run and its moment, and nothing that people decide.
   */
  lemma NewCasesShowFinding(d: Desk, output: DetectorOutput, run: RunInfo, currencies: map<nat, Currency>, i: nat)
    requires DeskInv(d) && Persist(d, output, run, currencies).Persisted?
    requires |d.cases| <= i < |Persist(d, output, run, currencies).desk.cases|
    ensures var c := Persist(d, output, run, currencies).desk.cases[i];
            var f := FindingFor(Matches(output.results), c.workOrder, c.serviceDate);
            && f.Some? && f.value.serviceDate == c.serviceDate
            && c == Inserted(i + 1, c.workOrder, f.value, output.ruleVersion, run)
  {
    var matches := Matches(output.results);
    var p := PersistMatches(d, matches, output.ruleVersion, run, currencies);
    MatchesShow(d, matches, output.ruleVersion, run, currencies);
    MatchesGetCases(d, matches, output.ruleVersion, run, currencies);
    hide DeskInv, PersistMatches, SkippedTotal, FlagCount;
    assert ShowsFinding(p.desk.cases, i, matches, output.ruleVersion, run);
    assert FreshCase(p.desk.cases[i], matches);
    var r :| r in matches && MatchFor(r, p.desk.cases[i]);
    assert r in output.results;
    assert FlaggedCase(p.desk.cases[i], output, run) == p.desk.cases[i];
  }
}
