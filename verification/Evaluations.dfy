/**
 Leases and cases in one system: a persist checks the lease, writes cases and values and finishes the run in
 one transaction, between the claims, heartbeats and failures of any number of workers and the decisions of people.
 */
module Evaluations {
  import opened Common
  import opened DetectorLease
  import opened Detection
  import opened Operations
  import opened UnbilledDetector
  import Cases
  import CaseHistory
  import CaseInvariant
  import CaseRuns
  import CaseStore
  import DetectorLaws
  import LeaseRuns
  import Poison

  datatype System = System(workers: LeaseRuns.System, desk: Cases.Desk, writes: seq<EvaluationKey>)

  const START := System(LeaseRuns.START, Cases.EMPTY_DESK, [])

  /** The one place a detector writes the desk. `writes` remembers for which keys that happened. */
  datatype Action =
    WorkerCalled(call: LeaseRuns.Call)
  | OutputPersisted(
      key: EvaluationKey, owner: nat, now: int, output: DetectorOutput, run: Cases.RunInfo,
      currencies: map<nat, Currency>)
  | DeskUsed(action: CaseRuns.Action)

  datatype PersistResult = NotLeaseOwner | Aborted | Finished

  function Attempt(s: System, a: Action): PersistResult
    requires a.OutputPersisted?
  {
    if Persist(s.workers.rows, a.key, a.owner, a.now).None? then NotLeaseOwner
    else if Cases.Persist(s.desk, a.output, a.run, a.currencies).RolledBack? then Aborted
    else Finished
  }

  function Step(s: System, a: Action): System {
    match a
    case WorkerCalled(call) =>
      if call.PersistCall? then s else s.(workers := LeaseRuns.Step(s.workers, call))
    case OutputPersisted(key, owner, now, output, run, currencies) =>
      if Attempt(s, a).Finished? then
        System(LeaseRuns.Step(s.workers, LeaseRuns.PersistCall(key, owner, now)),
               Cases.Persist(s.desk, output, run, currencies).desk, s.writes + [key])
      else s
    case DeskUsed(b) => if b.PersistAsked? then s else s.(desk := CaseRuns.Step(s.desk, b))
  }

  function Run(s: System, actions: seq<Action>): System
    decreases |actions|
  {
    if actions == [] then s else Run(Step(s, actions[0]), actions[1..])
  }

  // ---------------------------------------------------------------- the two halves

  /** What the lease table sees of an action. */
  function CallsOf(s: System, a: Action): seq<LeaseRuns.Call> {
    match a
    case WorkerCalled(call) => if call.PersistCall? then [] else [call]
    case OutputPersisted(key, owner, now, _, _, _) =>
      if Attempt(s, a).Finished? then [LeaseRuns.PersistCall(key, owner, now)] else []
    case DeskUsed(_) => []
  }

  /** What the desk sees of an action. */
  function DeskActionsOf(s: System, a: Action): seq<CaseRuns.Action> {
    match a
    case WorkerCalled(_) => []
    case OutputPersisted(_, _, _, output, run, currencies) =>
      if Attempt(s, a).Finished? then [CaseRuns.PersistAsked(output, run, currencies)] else []
    case DeskUsed(b) => if b.PersistAsked? then [] else [b]
  }

  function Calls(s: System, actions: seq<Action>): seq<LeaseRuns.Call>
    decreases |actions|
  {
    if actions == [] then [] else CallsOf(s, actions[0]) + Calls(Step(s, actions[0]), actions[1..])
  }

  function DeskActions(s: System, actions: seq<Action>): seq<CaseRuns.Action>
    decreases |actions|
  {
    if actions == [] then [] else DeskActionsOf(s, actions[0]) + DeskActions(Step(s, actions[0]), actions[1..])
  }

  lemma {:induction false} LeaseRunAppend(s: LeaseRuns.System, a: seq<LeaseRuns.Call>, b: seq<LeaseRuns.Call>)
    requires |a| <= 1
    ensures LeaseRuns.Run(s, a + b) == LeaseRuns.Run(LeaseRuns.Run(s, a), b)
  {
    hide LeaseRuns.Step;
    if a == [] {
      assert a + b == b;
    } else {
      assert (a + b)[1..] == b && a[1..] == [];
      assert LeaseRuns.Run(LeaseRuns.Step(s, a[0]), []) == LeaseRuns.Step(s, a[0]);
    }
  }

  lemma {:induction false} DeskRunAppend(d: Cases.Desk, a: seq<CaseRuns.Action>, b: seq<CaseRuns.Action>)
    requires |a| <= 1
    ensures CaseRuns.Run(d, a + b) == CaseRuns.Run(CaseRuns.Run(d, a), b)
  {
    hide CaseRuns.Step;
    if a == [] {
      assert a + b == b;
    } else {
      assert (a + b)[1..] == b && a[1..] == [];
      assert CaseRuns.Run(CaseRuns.Step(d, a[0]), []) == CaseRuns.Step(d, a[0]);
    }
  }

  lemma StepSplits(s: System, a: Action)
    ensures |CallsOf(s, a)| <= 1 && LeaseRuns.Run(s.workers, CallsOf(s, a)) == Step(s, a).workers
    ensures |DeskActionsOf(s, a)| <= 1 && CaseRuns.Run(s.desk, DeskActionsOf(s, a)) == Step(s, a).desk
  {
    hide LeaseRuns.Step, Cases.Persist;
    assert forall c: LeaseRuns.Call :: [c][1..] == [];
    assert forall b: CaseRuns.Action :: [b][1..] == [];
    forall t: LeaseRuns.System ensures LeaseRuns.Run(t, []) == t {
    }
    forall d: Cases.Desk ensures CaseRuns.Run(d, []) == d {
    }
  }

  /** Every run of the system is a run of the leases and a run of the desk, so all their theorems hold of it. */
  lemma {:induction false} RunSplits(s: System, actions: seq<Action>)
    ensures Run(s, actions).workers == LeaseRuns.Run(s.workers, Calls(s, actions))
    ensures Run(s, actions).desk == CaseRuns.Run(s.desk, DeskActions(s, actions))
    decreases |actions|
  {
    hide Step, CallsOf, DeskActionsOf;
    if actions != [] {
      var a := actions[0];
      StepSplits(s, a);
      RunSplits(Step(s, a), actions[1..]);
      LeaseRunAppend(s.workers, CallsOf(s, a), Calls(Step(s, a), actions[1..]));
      DeskRunAppend(s.desk, DeskActionsOf(s, a), DeskActions(Step(s, a), actions[1..]));
    }
  }

  // ---------------------------------------------------------------- who writes the desk, and how often

  /**
   A worker whose lease was reclaimed can never again write a case: after any run of fresh claims its
   persist leaves the desk, the run rows and everything else as they were.
   */
  lemma FencedNeverWrites(s: System, actions: seq<Action>, a: Action)
    requires a.OutputPersisted? && LeaseRuns.Fenced(s.workers, a.key, a.owner)
    requires LeaseRuns.AllFresh(s.workers, Calls(s, actions))
    ensures Attempt(Run(s, actions), a).NotLeaseOwner?
    ensures Step(Run(s, actions), a) == Run(s, actions)
  {
    RunSplits(s, actions);
    LeaseRuns.FencedForever(s.workers, Calls(s, actions), a.key, a.owner, a.now);
    hide Run, Calls, Cases.Persist, LeaseRuns.Step;
  }

  function WritesOn(writes: seq<EvaluationKey>, key: EvaluationKey): nat {
    if writes == [] then 0
    else WritesOn(writes[..|writes| - 1], key) + if writes[|writes| - 1] == key then 1 else 0
  }

  predicate WritesAreCommits(s: System, key: EvaluationKey) {
    WritesOn(s.writes, key) == LeaseRuns.CommitsOn(s.workers.commits, key)
  }

  lemma WritesStep(s: System, a: Action, key: EvaluationKey)
    requires WritesAreCommits(s, key)
    ensures WritesAreCommits(Step(s, a), key)
  {
    hide Cases.Persist, CaseRuns.Step, LeaseRuns.CommitsOn, LeaseRuns.Step, Persist, WritesOn;
    var t := Step(s, a);
    if a.OutputPersisted? && Attempt(s, a).Finished? {
      PersistCommits(s.workers, a.key, a.owner, a.now);
      LeaseRuns.CommitsAppend(s.workers.commits, LeaseRuns.Commit(a.key, a.owner), key);
      OneMoreWrite(s.writes, a.key, key);
    } else if a.WorkerCalled? && !a.call.PersistCall? {
      OnlyPersistCommits(s.workers, a.call);
    }
  }

  lemma PersistCommits(w: LeaseRuns.System, key: EvaluationKey, owner: nat, now: int)
    requires Persist(w.rows, key, owner, now).Some?
    ensures LeaseRuns.Step(w, LeaseRuns.PersistCall(key, owner, now)).commits
         == w.commits + [LeaseRuns.Commit(key, owner)]
  {
  }

  lemma OnlyPersistCommits(w: LeaseRuns.System, c: LeaseRuns.Call)
    requires !c.PersistCall?
    ensures LeaseRuns.Step(w, c).commits == w.commits
  {
  }

  lemma OneMoreWrite(writes: seq<EvaluationKey>, written: EvaluationKey, key: EvaluationKey)
    ensures WritesOn(writes + [written], key) == WritesOn(writes, key) + if written == key then 1 else 0
  {
    assert (writes + [written])[..|writes|] == writes;
  }

  lemma {:induction false} WritesRun(s: System, actions: seq<Action>, key: EvaluationKey)
    requires WritesAreCommits(s, key)
    ensures WritesAreCommits(Run(s, actions), key)
    decreases |actions|
  {
    hide Step, WritesAreCommits;
    if actions != [] {
      WritesStep(s, actions[0], key);
      WritesRun(Step(s, actions[0]), actions[1..], key);
    }
  }

  /**
   How often an evaluation writes the desk, for arbitrary callers: as often as its succeeded run was struck by a
   fail, plus one if the run now stands succeeded. With workers that do not fail what they saw commit it
   writes at most once, and has written exactly when its run stands succeeded.
   */
  lemma DeskWrittenAtMostOnce(actions: seq<Action>, key: EvaluationKey)
    ensures var t := Run(START, actions);
            && WritesOn(t.writes, key)
               == LeaseRuns.ReopeningsOf(t.workers.reopened, key)
                  + (if LeaseRuns.IsSucceeded(t.workers.rows, key) then 1 else 0)
            && (LeaseRuns.AllDisciplined(LeaseRuns.START, Calls(START, actions)) ==>
                  && WritesOn(t.writes, key) <= 1
                  && (WritesOn(t.writes, key) == 1 <==> LeaseRuns.IsSucceeded(t.workers.rows, key)))
  {
    WritesRun(START, actions, key);
    RunSplits(START, actions);
    LeaseRuns.CommitLaw(Calls(START, actions), key);
    if LeaseRuns.AllDisciplined(LeaseRuns.START, Calls(START, actions)) {
      LeaseRuns.TakesEffectAtMostOnce(Calls(START, actions), key);
    }
    hide Run, Calls, LeaseRuns.Run, LeaseRuns.AllDisciplined;
  }

  // ---------------------------------------------------------------- when a persist finishes

  predicate HoldsLease(rows: Table, key: EvaluationKey, owner: nat) {
    key in rows && rows[key].owner == owner && rows[key].status.Running?
  }

  /**
   Persisting an evaluation finishes exactly when the worker still holds the running lease and no matched work
   order already has a recovery item under another service date.
   */
  lemma EvaluationFinishesIff(s: System, a: Action, e: Evidence, manifest: Manifest, moment: int)
    requires CaseInvariant.DeskInv(s.desk) && KeysUnique(e.workOrders)
    requires a.OutputPersisted? && a.output == OutputFor(e, manifest, moment)
    ensures Attempt(s, a).Finished? <==>
            && HoldsLease(s.workers.rows, a.key, a.owner)
            && forall w <- e.workOrders :: VerdictOn(e, manifest, moment, w).Matched? ==>
                 !CaseHistory.OtherOccurrence(s.desk, w.id, VerdictOn(e, manifest, moment, w).finding.serviceDate)
  {
    DetectorLaws.EvaluationCommitsIff(s.desk, e, manifest, moment, a.run, a.currencies);
    hide Cases.Persist, OutputFor, VerdictOn, CaseInvariant.DeskInv, CaseHistory.OtherOccurrence;
  }

  /** Nobody else is evaluating: the run was never started, failed, or was abandoned and its lease ran out. */
  predicate Free(rows: Table, key: EvaluationKey, now: int) {
    key in rows ==> rows[key].status.Failed? || (rows[key].status.Running? && rows[key].leasedUntil < now)
  }

  /**
   A crash costs nothing for good: whatever happened before, a delivery that finds the run free claims it, and its
   persist finishes the run exactly when no matched work order has an item under another date.
   */
  lemma RedeliveryFinishesIff(
    s: System, key: EvaluationKey, owner: nat, now: int, later: int, e: Evidence, manifest: Manifest, moment: int,
    run: Cases.RunInfo, currencies: map<nat, Currency>)
    requires CaseInvariant.DeskInv(s.desk) && KeysUnique(e.workOrders) && Free(s.workers.rows, key, now)
    ensures var claimed := Step(s, WorkerCalled(LeaseRuns.ClaimCall(key, owner, now)));
            var persist := OutputPersisted(key, owner, later, OutputFor(e, manifest, moment), run, currencies);
            && claimed.desk == s.desk
            && (Attempt(claimed, persist).Finished? <==>
                  forall w <- e.workOrders :: VerdictOn(e, manifest, moment, w).Matched? ==>
                    !CaseHistory.OtherOccurrence(
                      s.desk, w.id, VerdictOn(e, manifest, moment, w).finding.serviceDate))
            && (Attempt(claimed, persist).Finished? ==>
                  LeaseRuns.IsSucceeded(Step(claimed, persist).workers.rows, key))
  {
    var claimed := Step(s, WorkerCalled(LeaseRuns.ClaimCall(key, owner, now)));
    hide CaseInvariant.DeskInv, Cases.Persist, OutputFor, VerdictOn, CaseHistory.OtherOccurrence, KeysUnique;
    ClaimAnswers(s.workers.rows, key, owner, now);
    assert HoldsLease(claimed.workers.rows, key, owner) && claimed.desk == s.desk;
    var persist := OutputPersisted(key, owner, later, OutputFor(e, manifest, moment), run, currencies);
    EvaluationFinishesIff(claimed, persist, e, manifest, moment);
  }

  // ---------------------------------------------------------------- poisoned evaluations

  /** The output matches the work order under the date, with a value. */
  predicate Reports(output: DetectorOutput, workOrder: nat, date: int) {
    exists r <- output.results :: ReportsAs(r, workOrder, date)
  }

  predicate ReportsAs(r: DetectionResult, workOrder: nat, date: int) {
    r.subject == workOrder && r.verdict.Matched?
    && r.verdict.finding.serviceDate == date && r.verdict.finding.financial.Some?
  }

  lemma ReportAborts(s: System, a: Action, workOrder: nat, date: int)
    requires a.OutputPersisted? && Reports(a.output, workOrder, date)
    requires CaseInvariant.DeskInv(s.desk) && CaseHistory.OtherOccurrence(s.desk, workOrder, date)
    ensures !Attempt(s, a).Finished?
  {
    hide CaseHistory.OtherOccurrence, Cases.Persist, CaseInvariant.CasesInv;
    var r :| r in a.output.results && ReportsAs(r, workOrder, date);
    assert CaseHistory.Collides(s.desk, r);
    Poison.PoisonedForever(s.desk, [], r, a.output, a.run, a.currencies);
    assert CaseRuns.Run(s.desk, []) == s.desk;
  }

  lemma OnlyPersistSucceeds(w: LeaseRuns.System, c: LeaseRuns.Call, key: EvaluationKey)
    requires !LeaseRuns.IsSucceeded(w.rows, key) && !(c.PersistCall? && c.key == key)
    ensures !LeaseRuns.IsSucceeded(LeaseRuns.Step(w, c).rows, key)
  {
  }

  lemma PoisonedStep(s: System, a: Action, key: EvaluationKey, workOrder: nat, date: int)
    requires CaseInvariant.DeskInv(s.desk) && CaseHistory.OtherOccurrence(s.desk, workOrder, date)
    requires !LeaseRuns.IsSucceeded(s.workers.rows, key)
    requires a.OutputPersisted? && a.key == key ==> Reports(a.output, workOrder, date)
    ensures CaseInvariant.DeskInv(Step(s, a).desk) && CaseHistory.OtherOccurrence(Step(s, a).desk, workOrder, date)
    ensures !LeaseRuns.IsSucceeded(Step(s, a).workers.rows, key)
  {
    StepSplits(s, a);
    Poison.OtherOccurrenceForever(s.desk, DeskActionsOf(s, a), workOrder, date);
    hide CaseInvariant.DeskInv, CaseHistory.OtherOccurrence, Cases.Persist, LeaseRuns.Step, CaseRuns.Run, LeaseRuns.Run,
         DeskActionsOf, CallsOf, Reports;
    if a.OutputPersisted? {
      if a.key == key {
        ReportAborts(s, a, workOrder, date);
      } else {
        OnlyPersistSucceeds(s.workers, LeaseRuns.PersistCall(a.key, a.owner, a.now), key);
      }
    } else if a.WorkerCalled? && !a.call.PersistCall? {
      OnlyPersistSucceeds(s.workers, a.call, key);
    }
  }

  /**
   An evaluation whose outputs keep matching a work order that is recorded under another date never succeeds,
   whatever workers claim, retry and report and people decide in between.
   */
  lemma {:induction false} PoisonedNeverSucceeds(
    s: System, actions: seq<Action>, key: EvaluationKey, workOrder: nat, date: int)
    requires CaseInvariant.DeskInv(s.desk) && CaseHistory.OtherOccurrence(s.desk, workOrder, date)
    requires !LeaseRuns.IsSucceeded(s.workers.rows, key)
    requires forall k | 0 <= k < |actions| :: actions[k].OutputPersisted? && actions[k].key == key ==>
               Reports(actions[k].output, workOrder, date)
    ensures !LeaseRuns.IsSucceeded(Run(s, actions).workers.rows, key)
    decreases |actions|
  {
    hide CaseInvariant.CasesInv, CaseInvariant.Linked, CaseHistory.OtherOccurrence, Step,
         LeaseRuns.IsSucceeded, Reports;
    if actions != [] {
      PoisonedStep(s, actions[0], key, workOrder, date);
      PoisonedNeverSucceeds(Step(s, actions[0]), actions[1..], key, workOrder, date);
    }
  }

  // ---------------------------------------------------------------- as it runs

  class EvaluationService {
    const runs: RunTable
    const desk: CaseStore.CaseDesk

    constructor (runs: RunTable, desk: CaseStore.CaseDesk)
      ensures this.runs == runs && this.desk == desk
    {
      this.runs, this.desk := runs, desk;
    }

    /** One transaction: the lease is checked first, and the run finishes only with everything it wrote. */
    method PersistEvaluation(
      key: EvaluationKey, owner: nat, now: int, output: DetectorOutput, run: Cases.RunInfo,
      currencies: map<nat, Currency>) returns (result: PersistResult)
      modifies runs, desk, desk.recovery
      ensures var finished := Persist(old(runs.rows), key, owner, now);
              var written := Cases.Persist(old(desk.Now()), output, run, currencies);
              && (result.NotLeaseOwner? <==> finished.None?)
              && (result.Finished? <==> finished.Some? && written.Persisted?)
              && runs.rows == (if result.Finished? then finished.value else old(runs.rows))
              && desk.Now() == (if result.Finished? then written.desk else old(desk.Now()))
    {
      hide Cases.Persist;
      if key !in runs.rows || runs.rows[key].owner != owner || runs.rows[key].status != Running {
        return NotLeaseOwner;
      }
      var counts := desk.PersistOutput(output, run, currencies);
      if counts == None {
        return Aborted;
      }
      var committed := runs.PersistRun(key, owner, now);
      return Finished;
    }

    /**
     Claim, evaluate, persist, and report a failure when the persist raised. Called without interleaving, it does
     nothing for a held or succeeded run, and otherwise leaves the run succeeded with its output on the
     desk, or failed with the desk untouched. Leases live by the wall clock, which stands at `now` for the claim
     and at `later` for the outcome; the evidence is judged at the caller's `moment`; `run` carries the stored
     moment, which a reclaimed row keeps from its first claim.
     */
    method EvaluateAndPersist(
      key: EvaluationKey, owner: nat, now: int, later: int, e: Evidence, manifest: Manifest, moment: int,
      run: Cases.RunInfo, currencies: map<nat, Currency>) returns (finished: bool)
      modifies runs, desk, desk.recovery
      ensures !Free(old(runs.rows), key, now) ==>
                runs.rows == old(runs.rows) && desk.Now() == old(desk.Now())
                && finished == LeaseRuns.IsSucceeded(old(runs.rows), key)
      ensures Free(old(runs.rows), key, now) ==>
                var written := Cases.Persist(old(desk.Now()), OutputFor(e, manifest, moment), run, currencies);
                && finished == written.Persisted?
                && desk.Now() == Cases.AfterPersist(old(desk.Now()), written)
                && key in runs.rows
                && runs.rows[key] == DetectorRun(
                     if finished then Succeeded else Failed, owner, now + 300, now,
                     if key in old(runs.rows) then old(runs.rows)[key].attempts + 1 else 1, Some(later))
                && (forall k | k in old(runs.rows) && k != key :: k in runs.rows && runs.rows[k] == old(runs.rows)[k])
    {
      hide Cases.Persist, OutputFor;
      var outcome := runs.ClaimRun(key, owner, now);
      if outcome.HeldElsewhere? {
        return false;
      }
      if outcome.AlreadySucceeded? {
        return true;
      }
      var output := Evaluate(e, manifest, moment);
      var result := PersistEvaluation(key, owner, later, output, run, currencies);
      if result == Aborted {
        var recorded := runs.FailRun(key, owner, later);
      }
      return result == Finished;
    }
  }
}
