/**
 Exception cases: one row per service occurrence, refreshed and contradicted by detector runs, moved only
 by people. A case is identified by its position, and recovery records name cases by that position.
 */
module Cases {
  import opened Common
  import opened Detection
  import Ledger

  datatype CaseState = New | Acknowledged | ActionPending | WaitingExternal | Escalated | Resolved | Dismissed

  predicate Terminal(state: CaseState) {
    state.Resolved? || state.Dismissed?
  }

  const ALLOWED_EDGES: set<(CaseState, CaseState)> := {
    (New, Acknowledged), (New, Dismissed),
    (Acknowledged, ActionPending), (Acknowledged, Escalated), (Acknowledged, Dismissed), (Acknowledged, Resolved),
    (ActionPending, WaitingExternal), (ActionPending, Resolved), (ActionPending, Escalated), (ActionPending, Dismissed),
    (WaitingExternal, ActionPending), (WaitingExternal, Resolved), (WaitingExternal, Escalated),
    (WaitingExternal, Dismissed),
    (Escalated, ActionPending), (Escalated, Resolved), (Escalated, Dismissed)}

  datatype Role = Owner | FinanceReviewer | OperationsManager | OtherRole

  datatype Member = Member(id: nat, roles: set<Role>, active: bool)

  function RolesFor(to: CaseState): set<Role> {
    if Terminal(to) then {Owner, FinanceReviewer} else {Owner, FinanceReviewer, OperationsManager}
  }

  const RESOLUTION_CODES: set<string> := {"source_corrected", "invoice_handoff_prepared", "client_cancelled"}

  const DISMISSAL_CODES: set<string> := {
    "false_positive", "duplicate_source_record", "source_stale", "not_billable", "already_invoiced",
    "contract_excluded", "cancelled_at_source", "insufficient_evidence"}

  datatype NextAction = FinanceReviewCandidate | FinanceReviewContradiction

  /** The hashed creation evidence; the hash is injective, so the inputs stand for it. */
  datatype Fingerprint = Fingerprint(ruleVersion: nat, workOrder: nat, serviceDate: int)

  /** The timeline. Every event carries the version of the case it left behind. */
  datatype CaseEvent =
    Detected(version: nat)
  | Contradicted(reason: SkipReason, version: nat)
  | Transitioned(from: CaseState, to: CaseState, actor: nat, version: nat)
  | OwnerAssigned(actor: nat, version: nat)

  datatype Case = Case(
    number: nat, fingerprint: Fingerprint, workOrder: nat, serviceDate: int,
    state: CaseState, owner: Option<nat>, firstAcknowledgedAt: Option<int>, resolvedAt: Option<int>,
    resolutionCode: string, dismissalCode: string, version: nat,
    severity: Severity, deadline: int, freshness: Freshness, ruleVersion: nat, nextAction: NextAction,
    createdBy: nat, detectedAt: int, lastRefreshedBy: nat, events: seq<CaseEvent>)

  /** The detector run that writes. */
  datatype RunInfo = RunInfo(id: nat, asOf: int)

  // ---------------------------------------------------------------- upsert

  predicate SameOccurrence(c: Case, workOrder: nat, serviceDate: int) {
    c.workOrder == workOrder && c.serviceDate == serviceDate
  }

  function FindOccurrence(cases: seq<Case>, workOrder: nat, serviceDate: int): (found: Option<nat>)
    ensures found.Some? ==> found.value < |cases| && SameOccurrence(cases[found.value], workOrder, serviceDate)
    ensures found.None? ==> forall i | 0 <= i < |cases| :: !SameOccurrence(cases[i], workOrder, serviceDate)
  {
    if cases == [] then None
    else
      var last := |cases| - 1;
      if SameOccurrence(cases[last], workOrder, serviceDate) then Some(last)
      else FindOccurrence(cases[..last], workOrder, serviceDate)
  }

  function FindFingerprint(cases: seq<Case>, fingerprint: Fingerprint): (found: Option<nat>)
    ensures found.Some? ==> found.value < |cases| && cases[found.value].fingerprint == fingerprint
    ensures found.None? ==> forall i | 0 <= i < |cases| :: cases[i].fingerprint != fingerprint
  {
    if cases == [] then None
    else
      var last := |cases| - 1;
      if cases[last].fingerprint == fingerprint then Some(last) else FindFingerprint(cases[..last], fingerprint)
  }

  /** The occurrence is the identity; the fingerprint is only asked when no occurrence is found. */
  function FindExisting(cases: seq<Case>, workOrder: nat, serviceDate: int, ruleVersion: nat): (found: Option<nat>)
    ensures found.Some? ==> found.value < |cases|
  {
    var occurrence := FindOccurrence(cases, workOrder, serviceDate);
    if occurrence.Some? then occurrence else FindFingerprint(cases, Fingerprint(ruleVersion, workOrder, serviceDate))
  }

  function RefreshedCase(c: Case, finding: Finding, ruleVersion: nat, run: RunInfo): Case {
    c.(severity := finding.severity, deadline := finding.deadline, freshness := finding.freshness,
       ruleVersion := ruleVersion, nextAction := FinanceReviewCandidate, lastRefreshedBy := run.id)
  }

  function NewCase(number: nat, workOrder: nat, finding: Finding, ruleVersion: nat, run: RunInfo): Case {
    Case(number, Fingerprint(ruleVersion, workOrder, finding.serviceDate), workOrder, finding.serviceDate,
         New, None, None, None, "", "", 1,
         finding.severity, finding.deadline, finding.freshness, ruleVersion, FinanceReviewCandidate,
         run.id, run.asOf, run.id, [])
  }

  /** The unique constraints on case rows. */
  predicate Insertable(cases: seq<Case>, c: Case) {
    forall i | 0 <= i < |cases| ::
      && cases[i].number != c.number
      && cases[i].fingerprint != c.fingerprint
      && !SameOccurrence(cases[i], c.workOrder, c.serviceDate)
  }

  datatype Upsert = Upserted(cases: seq<Case>, at: nat, created: bool) | NumberNotAllocated

  function UpsertCase(
    cases: seq<Case>, workOrder: nat, finding: Finding, ruleVersion: nat, run: RunInfo
  ): (u: Upsert)
    ensures u.Upserted? ==> u.at < |u.cases|
  {
    match FindExisting(cases, workOrder, finding.serviceDate, ruleVersion)
    case Some(i) =>
      if Terminal(cases[i].state) then Upserted(cases, i, false)
      else Upserted(cases[i := RefreshedCase(cases[i], finding, ruleVersion, run)], i, false)
    case None =>
      var c := NewCase(|cases| + 1, workOrder, finding, ruleVersion, run);
      if Insertable(cases, c) then Upserted(cases + [c.(events := [Detected(c.version)])], |cases|, true)
      else NumberNotAllocated
  }

  // ---------------------------------------------------------------- persisting a run

  const CALCULATION_VERSION := 1

  /** Cases and the recovery ledger, which one transaction writes together. */
  datatype Desk = Desk(cases: seq<Case>, ledger: Ledger.State)

  const EMPTY_DESK := Desk([], Ledger.EMPTY)

  function CurrencyOf(currencies: map<nat, Currency>, workOrder: nat): Currency {
    if workOrder in currencies then currencies[workOrder] else "USD"
  }

  datatype Progress = Progress(desk: Desk, created: nat, updated: nat) | Aborted

  function PersistMatch(
    d: Desk, workOrder: nat, finding: Finding, ruleVersion: nat, run: RunInfo, currencies: map<nat, Currency>
  ): Progress {
    match UpsertCase(d.cases, workOrder, finding, ruleVersion, run)
    case NumberNotAllocated => Aborted
    case Upserted(cases, at, created) =>
      var c := cases[at];
      var tally := (if created then 1 else 0, if created then 0 else 1);
      if finding.financial.None? then Progress(Desk(cases, d.ledger), tally.0, tally.1)
      else
        var o := Ledger.RecordCandidate(d.ledger, at, c.workOrder, CurrencyOf(currencies, c.workOrder),
                                        CALCULATION_VERSION, finding.financial.value);
        if o.Refused? then Aborted else Progress(Desk(cases, o.state), tally.0, tally.1)
  }

  predicate AllMatched(matches: seq<DetectionResult>) {
    forall r <- matches :: r.verdict.Matched?
  }

  /** Write the matches one after the other; any refusal aborts the transaction. */
  function PersistMatches(
    d: Desk, matches: seq<DetectionResult>, ruleVersion: nat, run: RunInfo, currencies: map<nat, Currency>
  ): Progress
    requires AllMatched(matches)
  {
    if matches == [] then Progress(d, 0, 0)
    else
      var before := PersistMatches(d, matches[..|matches| - 1], ruleVersion, run, currencies);
      if before.Aborted? then Aborted
      else
        var r := matches[|matches| - 1];
        var p := PersistMatch(before.desk, r.subject, r.verdict.finding, ruleVersion, run, currencies);
        if p.Aborted? then Aborted
        else Progress(p.desk, before.created + p.created, before.updated + p.updated)
  }

  // ---------------------------------------------------------------- cases that stopped matching

  predicate Contradicts(c: Case, output: DetectorOutput, run: RunInfo) {
    && !Terminal(c.state)
    && !MatchedSubject(output.results, c.workOrder)
    && ReasonFor(output.results, c.workOrder).Some?
    && !(c.nextAction.FinanceReviewContradiction? && c.lastRefreshedBy == run.id)
  }

  function FlaggedCase(c: Case, output: DetectorOutput, run: RunInfo): Case {
    if !Contradicts(c, output, run) then c
    else
      c.(nextAction := FinanceReviewContradiction,
         freshness := Overall(output.operations, output.accounting),
         lastRefreshedBy := run.id,
         events := c.events + [Contradicted(ReasonFor(output.results, c.workOrder).value, c.version)])
  }

  function FlagCases(cases: seq<Case>, output: DetectorOutput, run: RunInfo): (cases': seq<Case>)
    ensures |cases'| == |cases|
    ensures forall i | 0 <= i < |cases| :: cases'[i] == FlaggedCase(cases[i], output, run)
  {
    seq(|cases|, i requires 0 <= i < |cases| => FlaggedCase(cases[i], output, run))
  }

  function FlagCount(cases: seq<Case>, output: DetectorOutput, run: RunInfo): nat {
    if cases == [] then 0
    else
      FlagCount(cases[..|cases| - 1], output, run)
      + if Contradicts(cases[|cases| - 1], output, run) then 1 else 0
  }

  /** What the finished run row records. */
  datatype Counts = Counts(scanned: nat, created: nat, updated: nat, skipped: int, skipReasons: map<SkipReason, nat>)

  datatype PersistOutcome = Persisted(desk: Desk, counts: Counts) | RolledBack

  function Persist(d: Desk, output: DetectorOutput, run: RunInfo, currencies: map<nat, Currency>): PersistOutcome {
    var p := PersistMatches(d, Matches(output.results), output.ruleVersion, run, currencies);
    if p.Aborted? then RolledBack
    else
      var skipReasons := SkipReasons(output.results);
      Persisted(Desk(FlagCases(p.desk.cases, output, run), p.desk.ledger),
                Counts(output.scanned, p.created, p.updated + FlagCount(p.desk.cases, output, run),
                       SkippedTotal(skipReasons), skipReasons))
  }

  function AfterPersist(d: Desk, o: PersistOutcome): Desk {
    if o.Persisted? then o.desk else d
  }

  // ---------------------------------------------------------------- what people do

  datatype CaseError = NoSuchCase | StaleVersion | NoSuchEdge | RoleDenied | DataMissing | OwnerNotActive | CaseClosed

  datatype CaseOutcome = Moved(c: Case) | Denied(error: CaseError)

  datatype Request = Request(expectedVersion: nat, to: CaseState, code: string, noteGiven: bool, owner: Option<nat>)

  predicate DataComplete(c: Case, q: Request) {
    match q.to
    case Resolved => q.code in RESOLUTION_CODES && q.noteGiven
    case Dismissed => q.code in DISMISSAL_CODES && q.noteGiven
    case Escalated => q.noteGiven && q.owner.Some?
    case ActionPending => q.owner.Some? || c.owner.Some?
    case _ => true
  }

  predicate MayMove(m: Member, to: CaseState) {
    m.active && m.roles * RolesFor(to) != {}
  }

  function MovedCase(c: Case, m: Member, q: Request, now: int): Case {
    var owned := if q.owner.Some? then c.(owner := q.owner) else c;
    var acknowledged :=
      if q.to.Acknowledged? && owned.firstAcknowledgedAt.None? then
        owned.(firstAcknowledgedAt := Some(now), owner := if owned.owner.None? then Some(m.id) else owned.owner)
      else owned;
    var closed :=
      if q.to.Resolved? then acknowledged.(resolvedAt := Some(now), resolutionCode := q.code)
      else if q.to.Dismissed? then acknowledged.(dismissalCode := q.code)
      else acknowledged;
    closed.(state := q.to, version := c.version + 1,
            events := c.events + [Transitioned(c.state, q.to, m.id, c.version + 1)])
  }

  /** `activeMembers` holds the members who may be made an owner. */
  function Transition(c: Case, m: Member, q: Request, activeMembers: set<nat>, now: int): CaseOutcome {
    if c.version != q.expectedVersion then Denied(StaleVersion)
    else if (c.state, q.to) !in ALLOWED_EDGES then Denied(NoSuchEdge)
    else if !MayMove(m, q.to) then Denied(RoleDenied)
    else if !DataComplete(c, q) then Denied(DataMissing)
    else if q.owner.Some? && q.owner.value !in activeMembers then Denied(OwnerNotActive)
    else Moved(MovedCase(c, m, q, now))
  }

  function AssignOwner(c: Case, m: Member, expectedVersion: nat, owner: nat, activeMembers: set<nat>): CaseOutcome {
    if c.version != expectedVersion then Denied(StaleVersion)
    else if Terminal(c.state) then Denied(CaseClosed)
    else if !MayMove(m, ActionPending) then Denied(RoleDenied)
    else if owner !in activeMembers then Denied(OwnerNotActive)
    else
      Moved(c.(owner := Some(owner), version := c.version + 1,
               events := c.events + [OwnerAssigned(m.id, c.version + 1)]))
  }
}
