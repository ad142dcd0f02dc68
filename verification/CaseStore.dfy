/** The case services as they run: rows updated in place, one transaction at a time. */
module CaseStore {
  import opened Common
  import opened Detection
  import opened Cases
  import Ledger
  import RecoveryStore

  const NUMBER_ATTEMPTS := 5

  lemma {:induction false} AbortPropagates(
    d: Desk, matches: seq<DetectionResult>, ruleVersion: nat, run: RunInfo, currencies: map<nat, Currency>, k: nat)
    requires AllMatched(matches) && k <= |matches|
    requires AllMatched(matches[..k]) && PersistMatches(d, matches[..k], ruleVersion, run, currencies).Aborted?
    ensures PersistMatches(d, matches, ruleVersion, run, currencies).Aborted?
  {
    if k == |matches| {
      assert matches[..k] == matches;
    } else {
      var shorter := matches[..|matches| - 1];
      assert shorter[..k] == matches[..k];
      AbortPropagates(d, shorter, ruleVersion, run, currencies, k);
    }
  }

  lemma OneMoreMatch(
    d: Desk, matches: seq<DetectionResult>, ruleVersion: nat, run: RunInfo, currencies: map<nat, Currency>, k: nat)
    requires AllMatched(matches) && k < |matches|
    ensures AllMatched(matches[..k]) && AllMatched(matches[..k + 1])
    ensures var before := PersistMatches(d, matches[..k], ruleVersion, run, currencies);
            var now := PersistMatches(d, matches[..k + 1], ruleVersion, run, currencies);
            before.Progress? ==>
              var r := matches[k];
              var p := PersistMatch(before.desk, r.subject, r.verdict.finding, ruleVersion, run, currencies);
              now == if p.Aborted? then Aborted
                     else Progress(p.desk, before.created + p.created, before.updated + p.updated)
  {
    hide PersistMatch;
    var now := matches[..k + 1];
    assert now[..|now| - 1] == matches[..k] && now[|now| - 1] == matches[k];
  }

  lemma NoMatchYet(d: Desk, ruleVersion: nat, run: RunInfo, currencies: map<nat, Currency>)
    ensures PersistMatches(d, [], ruleVersion, run, currencies) == Progress(d, 0, 0)
  {
  }

  class CaseDesk {
    var cases: seq<Case>
    const recovery: RecoveryStore.Store

    function Now(): Desk
      reads this, recovery
    {
      Desk(cases, recovery.Now())
    }

    constructor (recovery: RecoveryStore.Store)
      ensures this.recovery == recovery && cases == []
    {
      this.recovery := recovery;
      cases := [];
    }

    /** Create the case for a match, or refresh the open one; a closed case stands. */
    method UpsertRow(workOrder: nat, finding: Finding, ruleVersion: nat, run: RunInfo)
      returns (outcome: Upsert)
      modifies this`cases
      ensures outcome == UpsertCase(old(cases), workOrder, finding, ruleVersion, run)
      ensures cases == if outcome.Upserted? then outcome.cases else old(cases)
    {
      var existing := FindOccurrence(cases, workOrder, finding.serviceDate);
      if existing.None? {
        existing := FindFingerprint(cases, Fingerprint(ruleVersion, workOrder, finding.serviceDate));
      }
      if existing.Some? {
        var c := cases[existing.value];
        if Terminal(c.state) {
          return Upserted(cases, existing.value, false);
        }
        c := c.(severity := finding.severity, deadline := finding.deadline, freshness := finding.freshness);
        c := c.(ruleVersion := ruleVersion, nextAction := FinanceReviewCandidate, lastRefreshedBy := run.id);
        cases := cases[existing.value := c];
        return Upserted(cases, existing.value, false);
      }
      var attempt := 0;
      while attempt < NUMBER_ATTEMPTS
        invariant cases == old(cases)
        invariant attempt > 0 ==>
                    !Insertable(cases, NewCase(|cases| + 1, workOrder, finding, ruleVersion, run))
      {
        var number := |cases| + 1;
        var c := NewCase(number, workOrder, finding, ruleVersion, run);
        if Insertable(cases, c) {
          cases := cases + [c.(events := [Detected(c.version)])];
          return Upserted(cases, |cases| - 1, true);
        }
        attempt := attempt + 1;
      }
      return NumberNotAllocated;
    }

    /** Point every open case whose work order no longer matches at finance review. */
    method FlagRows(output: DetectorOutput, run: RunInfo) returns (count: nat)
      modifies this`cases
      ensures cases == FlagCases(old(cases), output, run)
      ensures count == FlagCount(old(cases), output, run)
    {
      hide Contradicts, Overall;
      count := 0;
      ghost var was := cases;
      var i := 0;
      while i < |cases|
        invariant i <= |cases| == |was|
        invariant forall j | 0 <= j < i :: cases[j] == FlaggedCase(was[j], output, run)
        invariant forall j | i <= j < |was| :: cases[j] == was[j]
        invariant count == FlagCount(was[..i], output, run)
      {
        assert was[..i + 1][..i] == was[..i];
        var c := cases[i];
        if Contradicts(c, output, run) {
          var reason := ReasonOf(c, output, run);
          c := c.(nextAction := FinanceReviewContradiction);
          c := c.(freshness := Overall(output.operations, output.accounting), lastRefreshedBy := run.id);
          c := c.(events := c.events + [Contradicted(reason, c.version)]);
          cases := cases[i := c];
          count := count + 1;
        }
        i := i + 1;
      }
      assert was[..i] == was;
      assert cases == FlagCases(was, output, run);
    }

    static function ReasonOf(c: Case, output: DetectorOutput, run: RunInfo): SkipReason
      requires Contradicts(c, output, run)
    {
      ReasonFor(output.results, c.workOrder).value
    }

    /** Write cases, values and contradictions of one run; None when the transaction rolled back. */
    method PersistOutput(output: DetectorOutput, run: RunInfo, currencies: map<nat, Currency>)
      returns (counts: Option<Counts>)
      modifies this, recovery
      ensures var o := Persist(old(Now()), output, run, currencies);
              && Now() == AfterPersist(old(Now()), o)
              && counts == if o.Persisted? then Some(o.counts) else None
    {
      hide PersistMatch, PersistMatches, SkippedTotal, FlagCases, FlagCount, Contradicts;
      var matches := Matches(output.results);
      var savedCases, savedRecords, savedExports := cases, recovery.records, recovery.exports;
      ghost var d := Now();
      var created, updated := 0, 0;
      var k := 0;
      assert matches[..0] == [];
      NoMatchYet(d, output.ruleVersion, run, currencies);
      while k < |matches|
        invariant k <= |matches|
        invariant AllMatched(matches[..k])
        invariant PersistMatches(d, matches[..k], output.ruleVersion, run, currencies) ==
                  Progress(Now(), created, updated)
      {
        OneMoreMatch(d, matches, output.ruleVersion, run, currencies, k);
        assert matches[k] in matches;
        var r := matches[k];
        var ok, isNew := PersistOne(r.subject, r.verdict.finding, output.ruleVersion, run, currencies);
        if !ok {
          AbortPropagates(d, matches, output.ruleVersion, run, currencies, k + 1);
          cases := savedCases;
          recovery.records, recovery.exports := savedRecords, savedExports;
          return None;
        }
        if isNew {
          created := created + 1;
        } else {
          updated := updated + 1;
        }
        k := k + 1;
      }
      assert matches[..k] == matches;
      var contradicted := FlagRows(output, run);
      var skipReasons := SkipReasons(output.results);
      counts := Some(Counts(output.scanned, created, updated + contradicted, SkippedTotal(skipReasons), skipReasons));
    }

    /** One match inside the transaction: its case, then its candidate value. */
    method PersistOne(
      workOrder: nat, finding: Finding, ruleVersion: nat, run: RunInfo, currencies: map<nat, Currency>)
      returns (ok: bool, isNew: bool)
      modifies this, recovery
      ensures var p := PersistMatch(old(Now()), workOrder, finding, ruleVersion, run, currencies);
              && ok == p.Progress?
              && (ok ==> p == Progress(Now(), if isNew then 1 else 0, if isNew then 0 else 1))
    {
      hide Ledger.RecordCandidate, UpsertCase;
      var outcome := UpsertRow(workOrder, finding, ruleVersion, run);
      if outcome.NumberNotAllocated? {
        return false, false;
      }
      if finding.financial.Some? {
        var c := cases[outcome.at];
        var refusal := recovery.RecordCandidate(
          outcome.at, c.workOrder, CurrencyOf(currencies, c.workOrder), CALCULATION_VERSION, finding.financial.value);
        if refusal.Some? {
          return false, outcome.created;
        }
      }
      return true, outcome.created;
    }

    /** The one place a case changes state. */
    method TransitionRow(at: nat, m: Member, q: Request, activeMembers: set<nat>, now: int)
      returns (error: Option<CaseError>)
      modifies this`cases
      ensures at >= |old(cases)| ==> error == Some(NoSuchCase) && cases == old(cases)
      ensures at < |old(cases)| ==>
                match Transition(old(cases[at]), m, q, activeMembers, now)
                case Moved(c) => error == None && cases == old(cases)[at := c]
                case Denied(e) => error == Some(e) && cases == old(cases)
    {
      if at >= |cases| {
        return Some(NoSuchCase);
      }
      var c := cases[at];
      if c.version != q.expectedVersion {
        return Some(StaleVersion);
      }
      if (c.state, q.to) !in ALLOWED_EDGES {
        return Some(NoSuchEdge);
      }
      if !MayMove(m, q.to) {
        return Some(RoleDenied);
      }
      if !DataComplete(c, q) {
        return Some(DataMissing);
      }
      if q.owner.Some? {
        if q.owner.value !in activeMembers {
          return Some(OwnerNotActive);
        }
        c := c.(owner := q.owner);
      }
      var fromState := c.state;
      c := c.(state := q.to, version := c.version + 1);
      if q.to == Acknowledged && c.firstAcknowledgedAt == None {
        c := c.(firstAcknowledgedAt := Some(now));
        if c.owner == None {
          c := c.(owner := Some(m.id));
        }
      }
      if q.to == Resolved {
        c := c.(resolvedAt := Some(now), resolutionCode := q.code);
      }
      if q.to == Dismissed {
        c := c.(dismissalCode := q.code);
      }
      c := c.(events := c.events + [Transitioned(fromState, q.to, m.id, c.version)]);
      cases := cases[at := c];
      return None;
    }

    method AssignRow(at: nat, m: Member, expectedVersion: nat, owner: nat, activeMembers: set<nat>)
      returns (error: Option<CaseError>)
      modifies this`cases
      ensures at >= |old(cases)| ==> error == Some(NoSuchCase) && cases == old(cases)
      ensures at < |old(cases)| ==>
                match AssignOwner(old(cases[at]), m, expectedVersion, owner, activeMembers)
                case Moved(c) => error == None && cases == old(cases)[at := c]
                case Denied(e) => error == Some(e) && cases == old(cases)
    {
      if at >= |cases| {
        return Some(NoSuchCase);
      }
      var c := cases[at];
      if c.version != expectedVersion {
        return Some(StaleVersion);
      }
      if Terminal(c.state) {
        return Some(CaseClosed);
      }
      if !MayMove(m, ActionPending) {
        return Some(RoleDenied);
      }
      if owner !in activeMembers {
        return Some(OwnerNotActive);
      }
      c := c.(owner := Some(owner));
      c := c.(version := c.version + 1);
      c := c.(events := c.events + [OwnerAssigned(m.id, c.version)]);
      cases := cases[at := c];
      return None;
    }
  }
}
