/**
 From readiness to the evaluation's effect: readiness inserts intents, publishers claim them and hand
 them to the broker, the broker delivers any number of times, workers claim, persist or fail, and people
 evaluate a ready run by hand. All of it interleaved in any order, with crashes as steps that never come.
 */
module EndToEnd {
  import opened Common
  import opened DetectorLease
  import opened Dispatch
  import LeaseRuns

  /** A reconciliation run waits for its inputs until readiness freezes its manifest. */
  datatype ReconciliationRun = WaitingInputs | Ready(manifest: nat)

  const ORGANIZATION := 0

  datatype Detector = Detector(code: nat, ruleVersion: nat)

  function KeyOf(run: nat, manifest: nat, d: Detector): EvaluationKey {
    EvaluationKey(ORGANIZATION, run, d.code, d.ruleVersion, manifest)
  }

  /** `enabled` is the configured list of detectors; it never changes. `commanded` holds the keys claimed by hand. */
  datatype System = System(
    enabled: seq<Detector>, runs: map<nat, ReconciliationRun>, intents: seq<Intent>,
    claims: set<(nat, nat)>, handOffs: set<(nat, nat)>, workers: LeaseRuns.System,
    commanded: set<EvaluationKey>)

  function Start(enabled: seq<Detector>): System {
    System(enabled, map[], [], {}, {}, LeaseRuns.START, {})
  }

  /**
   Publishers and their claims are named by the intent's position and the minted owner. A worker's claim
   follows a delivery; a command claims the key of a ready run by hand, and goes on as any worker does.
   */
  datatype Action =
    RunOpened(run: nat)
  | ReadinessEvaluated(run: nat, blocked: bool, manifest: nat)
  | PublisherClaimed(intent: nat, owner: nat, now: int)
  | BrokerTook(intent: nat, owner: nat)
  | BrokerRefused(intent: nat, owner: nat)
  | PublisherMarked(intent: nat, owner: nat, task: nat, now: int)
  | WorkerCalled(call: LeaseRuns.Call)
  | CommandClaimed(key: EvaluationKey, owner: nat, now: int)

  function CreateAll(intents: seq<Intent>, run: nat, manifest: nat, enabled: seq<Detector>): seq<Intent> {
    if enabled == [] then intents
    else
      var last := |enabled| - 1;
      GetOrCreate(CreateAll(intents, run, manifest, enabled[..last]), KeyOf(run, manifest, enabled[last]))
  }

  /** A worker only claims what some delivery named, and a delivery needs a hand-off. */
  predicate Delivered(s: System, key: EvaluationKey) {
    exists h <- s.handOffs :: h.0 < |s.intents| && s.intents[h.0].key == key
  }

  /** The key names a run that is ready, with the manifest frozen there. */
  predicate ReadyFor(s: System, key: EvaluationKey) {
    key.run in s.runs && s.runs[key.run] == Ready(key.manifest)
  }

  predicate Enabled(s: System, a: Action) {
    match a
    case PublisherClaimed(i, owner, now) => forall c <- s.claims :: c.1 != owner
    case BrokerTook(i, owner) => (i, owner) in s.claims && (i, owner) !in s.handOffs
    case BrokerRefused(i, owner) => (i, owner) in s.claims
    case PublisherMarked(i, owner, task, now) => (i, owner) in s.handOffs
    case WorkerCalled(call) => call.ClaimCall? ==> Delivered(s, call.key)
    case CommandClaimed(key, owner, now) => ReadyFor(s, key) && KeyFor(key, key.run, key.manifest, s.enabled)
    case _ => true
  }

  function Step(s: System, a: Action): System {
    match a
    case RunOpened(run) => if run in s.runs then s else s.(runs := s.runs[run := WaitingInputs])
    case ReadinessEvaluated(run, blocked, manifest) =>
      if run !in s.runs || !s.runs[run].WaitingInputs? || blocked then s
      else s.(runs := s.runs[run := Ready(manifest)], intents := CreateAll(s.intents, run, manifest, s.enabled))
    case PublisherClaimed(i, owner, now) =>
      if i < |s.intents| && Claimable(s.intents[i], now)
      then s.(intents := ClaimIntent(s.intents, i, owner, now), claims := s.claims + {(i, owner)})
      else s
    case BrokerTook(i, owner) => s.(handOffs := s.handOffs + {(i, owner)})
    case BrokerRefused(i, owner) => s.(intents := RecordError(s.intents, i, owner))
    case PublisherMarked(i, owner, task, now) => s.(intents := MarkPublished(s.intents, i, owner, task, now))
    case WorkerCalled(call) => s.(workers := LeaseRuns.Step(s.workers, call))
    case CommandClaimed(key, owner, now) =>
      s.(workers := LeaseRuns.Step(s.workers, LeaseRuns.ClaimCall(key, owner, now)), commanded := s.commanded + {key})
  }

  /** Actions that are not enabled do not happen. */
  function Next(s: System, a: Action): System {
    if Enabled(s, a) then Step(s, a) else s
  }

  function Run(s: System, actions: seq<Action>): System
    decreases |actions|
  {
    if actions == [] then s else Run(Next(s, actions[0]), actions[1..])
  }

  // ---------------------------------------------------------------- readiness

  predicate KeysDistinct(intents: seq<Intent>) {
    forall i, j | 0 <= i < j < |intents| :: intents[i].key != intents[j].key
  }

  /** The run's intents are exactly one per enabled detector once ready, and none before. */
  predicate RunInv(s: System, run: nat) {
    if run in s.runs && s.runs[run].Ready? then
      && (forall d <- s.enabled :: HasIntent(s.intents, KeyOf(run, s.runs[run].manifest, d)))
      && (forall i | 0 <= i < |s.intents| && s.intents[i].key.run == run ::
            Detector(s.intents[i].key.detector, s.intents[i].key.ruleVersion) in s.enabled
            && s.intents[i].key.manifest == s.runs[run].manifest
            && s.intents[i].key.organization == ORGANIZATION)
    else forall i | 0 <= i < |s.intents| :: s.intents[i].key.run != run
  }

  ghost predicate ReadinessInv(s: System) {
    KeysDistinct(s.intents) && forall run :: RunInv(s, run)
  }

  /** Intents keep their places and their keys. */
  predicate KeysKept(before: seq<Intent>, after: seq<Intent>) {
    |before| <= |after| && forall i | 0 <= i < |before| :: after[i].key == before[i].key
  }

  predicate KeyFor(key: EvaluationKey, run: nat, manifest: nat, enabled: seq<Detector>) {
    Detector(key.detector, key.ruleVersion) in enabled
    && key == KeyOf(run, manifest, Detector(key.detector, key.ruleVersion))
  }

  lemma {:induction false} CreateAllAdds(intents: seq<Intent>, run: nat, manifest: nat, enabled: seq<Detector>)
    requires KeysDistinct(intents)
    ensures var after := CreateAll(intents, run, manifest, enabled);
            && KeysDistinct(after) && |intents| <= |after| && after[..|intents|] == intents
            && (forall d <- enabled :: HasIntent(after, KeyOf(run, manifest, d)))
            && (forall i | |intents| <= i < |after| ::
                  after[i] == NewIntent(after[i].key) && KeyFor(after[i].key, run, manifest, enabled))
  {
    if enabled != [] {
      var last := |enabled| - 1;
      CreateAllAdds(intents, run, manifest, enabled[..last]);
      var before := CreateAll(intents, run, manifest, enabled[..last]);
      var after := CreateAll(intents, run, manifest, enabled);
      assert enabled == enabled[..last] + [enabled[last]];
      assert before == after[..|before|];
      assert |after| > |before| ==> after[|before|].key == KeyOf(run, manifest, enabled[last]);
      forall d | d in enabled[..last] ensures HasIntent(after, KeyOf(run, manifest, d)) {
        IntentKept(before, after, KeyOf(run, manifest, d));
      }
    }
  }

  lemma IntentKept(before: seq<Intent>, after: seq<Intent>, key: EvaluationKey)
    requires KeysKept(before, after) && HasIntent(before, key)
    ensures HasIntent(after, key)
  {
    var i :| 0 <= i < |before| && before[i].key == key;
    assert after[i].key == key;
  }

  lemma ReadinessFires(s: System, a: Action)
    requires ReadinessInv(s) && a.ReadinessEvaluated? && Step(s, a) != s
    ensures ReadinessInv(Step(s, a)) && KeysKept(s.intents, Step(s, a).intents)
  {
    CreateAllAdds(s.intents, a.run, a.manifest, s.enabled);
    var t := Step(s, a);
    hide CreateAll;
    assert RunInv(s, a.run);
    forall run ensures RunInv(t, run) {
      assert RunInv(s, run);
      if run != a.run {
        OtherRunKept(s, t, a.run, run);
      }
    }
  }

  lemma OtherRunKept(s: System, t: System, fired: nat, run: nat)
    requires RunInv(s, run) && run != fired && t.enabled == s.enabled
    requires run in t.runs <==> run in s.runs
    requires run in s.runs ==> t.runs[run] == s.runs[run]
    requires KeysKept(s.intents, t.intents)
    requires forall i | |s.intents| <= i < |t.intents| :: t.intents[i].key.run == fired
    ensures RunInv(t, run)
  {
    if run in s.runs && s.runs[run].Ready? {
      forall d | d in s.enabled ensures HasIntent(t.intents, KeyOf(run, t.runs[run].manifest, d)) {
        IntentKept(s.intents, t.intents, KeyOf(run, s.runs[run].manifest, d));
      }
    }
  }

  lemma ReadinessStep(s: System, a: Action)
    requires ReadinessInv(s)
    ensures ReadinessInv(Step(s, a)) && KeysKept(s.intents, Step(s, a).intents)
  {
    var t := Step(s, a);
    if a.ReadinessEvaluated? {
      if t != s { ReadinessFires(s, a); }
    } else {
      assert KeysKept(s.intents, t.intents) && |t.intents| == |s.intents|;
      forall run ensures RunInv(t, run) {
        assert RunInv(s, run);
        SameKeysSameRun(s, t, run);
      }
    }
  }

  lemma SameKeysSameRun(s: System, t: System, run: nat)
    requires RunInv(s, run) && KeysKept(s.intents, t.intents) && |t.intents| == |s.intents| && t.enabled == s.enabled
    requires (run in t.runs && t.runs[run].Ready?) <==> (run in s.runs && s.runs[run].Ready?)
    requires run in s.runs && s.runs[run].Ready? ==> t.runs[run] == s.runs[run]
    ensures RunInv(t, run)
  {
    if run in s.runs && s.runs[run].Ready? {
      forall d | d in s.enabled ensures HasIntent(t.intents, KeyOf(run, t.runs[run].manifest, d)) {
        IntentKept(s.intents, t.intents, KeyOf(run, s.runs[run].manifest, d));
      }
    }
  }

  // ---------------------------------------------------------------- publishing

  function On(pairs: set<(nat, nat)>, i: nat): set<(nat, nat)> {
    set p | p in pairs && p.0 == i
  }

  /** Attempts count the claims; hand-offs come from claims; a published intent was handed off. */
  predicate IntentInv(s: System, i: nat)
    requires i < |s.intents|
  {
    && s.intents[i].attempts == |On(s.claims, i)|
    && (s.intents[i].owner.Some? ==> (i, s.intents[i].owner.value) in s.claims)
    && (s.intents[i].status.Pending? ==> On(s.claims, i) == {})
    && (s.intents[i].status.Published? ==> On(s.handOffs, i) != {})
  }

  ghost predicate PublishInv(s: System) {
    && (forall i | 0 <= i < |s.intents| :: IntentInv(s, i))
    && (forall c <- s.claims :: c.0 < |s.intents|)
    && s.handOffs <= s.claims
  }

  lemma ClaimCounts(claims: set<(nat, nat)>, i: nat, owner: nat, j: nat)
    requires forall c <- claims :: c.1 != owner
    ensures |On(claims + {(i, owner)}, j)| == |On(claims, j)| + if i == j then 1 else 0
  {
    assert (i, owner) !in claims;
    assert On(claims + {(i, owner)}, j) == if i == j then On(claims, j) + {(i, owner)} else On(claims, j);
  }

  lemma PublisherClaimKeeps(s: System, a: Action)
    requires PublishInv(s) && a.PublisherClaimed? && Enabled(s, a)
    ensures PublishInv(Step(s, a))
  {
    var t := Step(s, a);
    forall j | 0 <= j < |t.intents| ensures IntentInv(t, j) {
      assert IntentInv(s, j);
      ClaimCounts(s.claims, a.intent, a.owner, j);
    }
  }

  lemma HandOffKeeps(s: System, a: Action)
    requires PublishInv(s) && a.BrokerTook? && Enabled(s, a)
    ensures PublishInv(Step(s, a))
  {
    var t := Step(s, a);
    forall j | 0 <= j < |t.intents| ensures IntentInv(t, j) {
      assert IntentInv(s, j);
      assert On(s.handOffs, j) <= On(t.handOffs, j);
    }
  }

  lemma MarkKeeps(s: System, a: Action)
    requires PublishInv(s) && (a.PublisherMarked? || a.BrokerRefused?) && Enabled(s, a)
    ensures PublishInv(Step(s, a))
  {
    var t := Step(s, a);
    forall j | 0 <= j < |t.intents| ensures IntentInv(t, j) {
      assert IntentInv(s, j);
      if a.PublisherMarked? && j == a.intent {
        assert (a.intent, a.owner) in On(s.handOffs, j);
      }
    }
  }

  lemma ReadinessKeepsPublishing(s: System, a: Action)
    requires PublishInv(s) && KeysDistinct(s.intents) && a.ReadinessEvaluated?
    ensures PublishInv(Step(s, a))
  {
    CreateAllAdds(s.intents, a.run, a.manifest, s.enabled);
    var t := Step(s, a);
    hide CreateAll;
    forall j | 0 <= j < |t.intents| ensures IntentInv(t, j) {
      if j < |s.intents| {
        assert IntentInv(s, j);
        assert t.intents[j] == s.intents[j];
      } else {
        assert On(t.claims, j) == {};
      }
    }
  }

  lemma PublishStep(s: System, a: Action)
    requires PublishInv(s) && KeysDistinct(s.intents) && Enabled(s, a)
    ensures PublishInv(Step(s, a))
  {
    match a
    case ReadinessEvaluated(_, _, _) => ReadinessKeepsPublishing(s, a);
    case PublisherClaimed(_, _, _) => PublisherClaimKeeps(s, a);
    case BrokerTook(_, _) => HandOffKeeps(s, a);
    case BrokerRefused(_, _) => MarkKeeps(s, a);
    case PublisherMarked(_, _, _, _) => MarkKeeps(s, a);
    case _ => forall i | 0 <= i < |s.intents| ensures IntentInv(Step(s, a), i) { assert IntentInv(s, i); }
  }

  // ---------------------------------------------------------------- evaluation

  /** What a grant may rest on: a ready run's manifest, and a delivery or a claim by hand. */
  predicate Grantable(s: System, key: EvaluationKey) {
    && ReadyFor(s, key) && HasIntent(s.intents, key)
    && (Delivered(s, key) || key in s.commanded)
  }

  predicate CommitsHaveRows(w: LeaseRuns.System) {
    forall c <- w.commits :: c.key in w.rows
  }

  ghost predicate WorkInv(s: System) {
    && LeaseRuns.LeaseInv(s.workers)
    && CommitsHaveRows(s.workers)
    && forall g <- s.workers.grants :: Grantable(s, g.key)
  }

  lemma GrantableStays(s: System, t: System, key: EvaluationKey)
    requires Grantable(s, key) && Absorbed(s, t) && s.handOffs <= t.handOffs && s.commanded <= t.commanded
    ensures Grantable(t, key)
  {
    IntentKept(s.intents, t.intents, key);
    if Delivered(s, key) {
      var h :| h in s.handOffs && h.0 < |s.intents| && s.intents[h.0].key == key;
      assert h in t.handOffs && t.intents[h.0].key == key;
    }
  }

  /** Intents exist only for ready runs, so a delivered key is a ready run's. */
  lemma DeliveredIsGrantable(s: System, key: EvaluationKey)
    requires ReadinessInv(s) && Delivered(s, key)
    ensures Grantable(s, key)
  {
    var h :| h in s.handOffs && h.0 < |s.intents| && s.intents[h.0].key == key;
    assert RunInv(s, key.run);
    assert s.intents[h.0].key.run == key.run;
  }

  lemma CommandedIsGrantable(s: System, key: EvaluationKey)
    requires ReadinessInv(s) && ReadyFor(s, key) && KeyFor(key, key.run, key.manifest, s.enabled) && key in s.commanded
    ensures Grantable(s, key)
  {
    assert RunInv(s, key.run);
  }

  /** The lease call an action makes. */
  function CallOf(a: Action): Option<LeaseRuns.Call> {
    match a
    case WorkerCalled(call) => Some(call)
    case CommandClaimed(key, owner, now) => Some(LeaseRuns.ClaimCall(key, owner, now))
    case _ => None
  }

  lemma WorkStep(s: System, a: Action)
    requires WorkInv(s) && ReadinessInv(s) && Enabled(s, a) && ReadinessInv(Step(s, a))
    ensures WorkInv(Step(s, a))
  {
    var t := Step(s, a);
    AbsorbedStep(s, a);
    assert s.handOffs <= t.handOffs && s.commanded <= t.commanded;
    if CallOf(a).None? {
      assert t.workers == s.workers;
    } else {
      WorkerCallKeeps(s.workers, CallOf(a).value);
    }
    forall g | g in t.workers.grants ensures Grantable(t, g.key) {
      GrantKeeps(s, a, g);
    }
  }

  lemma GrantKeeps(s: System, a: Action, g: LeaseRuns.Grant)
    requires WorkInv(s) && ReadinessInv(s) && Enabled(s, a) && ReadinessInv(Step(s, a)) && Absorbed(s, Step(s, a))
    requires g in Step(s, a).workers.grants
    ensures Grantable(Step(s, a), g.key)
  {
    var t := Step(s, a);
    assert s.handOffs <= t.handOffs && s.commanded <= t.commanded;
    if CallOf(a).Some? {
      NewGrantIsOfCall(s.workers, CallOf(a).value, g);
    }
    if g in s.workers.grants {
      hide Step, Grantable, Enabled, ReadinessInv, Absorbed;
      GrantableStays(s, t, g.key);
    } else if a.CommandClaimed? {
      CommandedIsGrantable(t, g.key);
    } else {
      DeliveredIsGrantable(t, g.key);
    }
  }

  lemma NewGrantIsOfCall(w: LeaseRuns.System, c: LeaseRuns.Call, g: LeaseRuns.Grant)
    requires g in LeaseRuns.Step(w, c).grants
    ensures g in w.grants || (c.ClaimCall? && g.key == c.key)
  {
  }

  lemma WorkerCallKeeps(w: LeaseRuns.System, c: LeaseRuns.Call)
    requires LeaseRuns.LeaseInv(w)
    ensures LeaseRuns.LeaseInv(LeaseRuns.Step(w, c))
    ensures CommitsHaveRows(w) ==> CommitsHaveRows(LeaseRuns.Step(w, c))
    ensures LeaseRuns.Disciplined(w, c) ==> LeaseRuns.Step(w, c).reopened == w.reopened
  {
    assert LeaseRuns.RowInv(w, c.key);
    assert LeaseRuns.Disciplined(w, c) ==> LeaseRuns.Step(w, c).reopened == w.reopened;
    forall key ensures LeaseRuns.RowInv(LeaseRuns.Step(w, c), key) {
      LeaseRuns.StepRow(w, c, key);
    }
  }

  // ---------------------------------------------------------------- theorems over every run

  ghost predicate Inv(s: System) {
    ReadinessInv(s) && PublishInv(s) && WorkInv(s)
  }

  lemma StartInv(enabled: seq<Detector>)
    ensures Inv(Start(enabled))
  {
    LeaseRuns.StartInv();
  }

  lemma StepKeeps(s: System, a: Action)
    requires Inv(s) && Enabled(s, a)
    ensures Inv(Step(s, a))
  {
    ReadinessStep(s, a);
    PublishStep(s, a);
    WorkStep(s, a);
    hide ReadinessInv, PublishInv, WorkInv, Step;
  }

  lemma {:induction false} RunKeeps(s: System, actions: seq<Action>)
    requires Inv(s)
    ensures Inv(Run(s, actions))
    decreases |actions|
  {
    if actions != [] {
      var a := actions[0];
      if Enabled(s, a) {
        StepKeeps(s, a);
      }
      hide Inv, Step, Enabled;
      RunKeeps(Next(s, a), actions[1..]);
    }
  }

  ghost predicate Reachable(s: System) {
    exists enabled, actions :: s == Run(Start(enabled), actions)
  }

  lemma ReachableInv(s: System)
    requires Reachable(s)
    ensures Inv(s)
  {
    var enabled, actions :| s == Run(Start(enabled), actions);
    StartInv(enabled);
    RunKeeps(Start(enabled), actions);
  }

  /** A ready run has exactly one intent per enabled detector; a run that is not ready has none. */
  lemma OneIntentPerDetector(s: System, run: nat)
    requires Reachable(s) && run in s.runs
    ensures s.runs[run].Ready? ==>
              && (forall d <- s.enabled :: HasIntent(s.intents, KeyOf(run, s.runs[run].manifest, d)))
              && (forall i | 0 <= i < |s.intents| && s.intents[i].key.run == run ::
                    KeyFor(s.intents[i].key, run, s.runs[run].manifest, s.enabled))
    ensures s.runs[run].WaitingInputs? ==> forall i | 0 <= i < |s.intents| :: s.intents[i].key.run != run
    ensures KeysDistinct(s.intents)
  {
    ReachableInv(s);
    assert RunInv(s, run);
  }

  /** Broker hand-offs of an intent never exceed its recorded attempts, and a published intent had one. */
  lemma HandOffsWithinAttempts(s: System, i: nat)
    requires Reachable(s) && i < |s.intents|
    ensures |On(s.handOffs, i)| <= s.intents[i].attempts
    ensures s.intents[i].status.Published? ==> |On(s.handOffs, i)| >= 1
  {
    ReachableInv(s);
    assert IntentInv(s, i);
    assert On(s.handOffs, i) <= On(s.claims, i);
    assert On(s.claims, i) == On(s.handOffs, i) + (On(s.claims, i) - On(s.handOffs, i));
  }

  /** Ready is entered once and its manifest never changes; Published is never left. */
  predicate Absorbed(s: System, t: System) {
    && (forall run | run in s.runs && s.runs[run].Ready? :: run in t.runs && t.runs[run] == s.runs[run])
    && KeysKept(s.intents, t.intents)
    && (forall i | 0 <= i < |s.intents| && s.intents[i].status.Published? ::
          t.intents[i].status.Published? && t.intents[i].attempts == s.intents[i].attempts)
  }

  lemma AbsorbedStep(s: System, a: Action)
    requires KeysDistinct(s.intents)
    ensures Absorbed(s, Step(s, a))
  {
    if a.ReadinessEvaluated? {
      CreateAllAdds(s.intents, a.run, a.manifest, s.enabled);
      var t := Step(s, a);
      hide CreateAll;
      assert forall i | 0 <= i < |s.intents| :: t.intents[i] == s.intents[i];
    }
  }

  lemma {:induction false} AbsorbedForever(s: System, actions: seq<Action>)
    requires Inv(s)
    ensures Absorbed(s, Run(s, actions))
    decreases |actions|
  {
    if actions != [] {
      var a := actions[0];
      if Enabled(s, a) {
        StepKeeps(s, a);
        AbsorbedStep(s, a);
      }
      hide Inv, Step, Enabled;
      AbsorbedForever(Next(s, a), actions[1..]);
    }
  }

  /** A publisher whose claim was taken over. */
  predicate Superseded(s: System, i: nat, owner: nat) {
    (exists c <- s.claims :: c.1 == owner) && i < |s.intents| && s.intents[i].owner != Some(owner)
  }

  lemma SupersededStep(s: System, a: Action, i: nat, owner: nat)
    requires Superseded(s, i, owner) && KeysDistinct(s.intents) && Enabled(s, a)
    ensures Superseded(Step(s, a), i, owner)
  {
    var c :| c in s.claims && c.1 == owner;
    assert c in Step(s, a).claims;
    if a.ReadinessEvaluated? {
      CreateAllAdds(s.intents, a.run, a.manifest, s.enabled);
      assert Step(s, a).intents[i] == s.intents[i];
    }
  }

  /** Only the latest claimant can mark an intent: a superseded publisher's update touches no row, ever. */
  lemma {:induction false} SupersededForever(s: System, actions: seq<Action>, i: nat, owner: nat, task: nat, now: int)
    requires Inv(s) && Superseded(s, i, owner)
    ensures var t := Run(s, actions);
            MarkPublished(t.intents, i, owner, task, now) == t.intents && RecordError(t.intents, i, owner) == t.intents
    decreases |actions|
  {
    if actions != [] {
      var a := actions[0];
      if Enabled(s, a) {
        StepKeeps(s, a);
        SupersededStep(s, a, i, owner);
      }
      hide Inv, Step, Enabled, Superseded;
      SupersededForever(Next(s, a), actions[1..], i, owner, task, now);
    }
  }

  /** Along the run, no worker reports a failure after it saw its persist commit. */
  predicate AllDisciplined(s: System, actions: seq<Action>)
    decreases |actions|
  {
    actions == []
    || (var a := actions[0];
        && (Enabled(s, a) && a.WorkerCalled? ==> LeaseRuns.Disciplined(s.workers, a.call))
        && AllDisciplined(Next(s, a), actions[1..]))
  }

  lemma DisciplinedStep(s: System, a: Action)
    requires Inv(s) && s.workers.reopened == []
    requires a.WorkerCalled? ==> LeaseRuns.Disciplined(s.workers, a.call)
    ensures Step(s, a).workers.reopened == []
  {
    if CallOf(a).Some? {
      WorkerCallKeeps(s.workers, CallOf(a).value);
    }
  }

  lemma {:induction false} DisciplineNeverReopens(s: System, actions: seq<Action>)
    requires Inv(s) && s.workers.reopened == [] && AllDisciplined(s, actions)
    ensures Run(s, actions).workers.reopened == []
    decreases |actions|
  {
    if actions != [] {
      var a := actions[0];
      if Enabled(s, a) {
        StepKeeps(s, a);
        DisciplinedStep(s, a);
      }
      hide Inv, Step, Enabled;
      DisciplineNeverReopens(Next(s, a), actions[1..]);
    }
  }

  /** No publisher claims the intent along the run. */
  predicate Unclaimed(s: System, actions: seq<Action>, i: nat)
    decreases |actions|
  {
    actions == []
    || (!(actions[0].PublisherClaimed? && actions[0].intent == i && Next(s, actions[0]) != s)
        && Unclaimed(Next(s, actions[0]), actions[1..], i))
  }

  /** The intent stands as the claim at `at` left it, apart from having been published. */
  predicate ClaimedAt(s: System, i: nat, at: int) {
    && i < |s.intents|
    && (s.intents[i].status.Published?
        || (s.intents[i].status.Publishing? && s.intents[i].leasedUntil == Some(at + 120)))
  }

  lemma ClaimStands(s: System, a: Action, i: nat, at: int)
    requires KeysDistinct(s.intents) && ClaimedAt(s, i, at)
    requires !(a.PublisherClaimed? && a.intent == i && Next(s, a) != s)
    ensures ClaimedAt(Next(s, a), i, at)
  {
    if a.ReadinessEvaluated? {
      CreateAllAdds(s.intents, a.run, a.manifest, s.enabled);
      hide CreateAll;
      assert Next(s, a).intents[i] == s.intents[i];
    }
    hide Enabled;
  }

  lemma {:induction false} ClaimStandsOver(s: System, actions: seq<Action>, i: nat, at: int)
    requires Inv(s) && ClaimedAt(s, i, at) && Unclaimed(s, actions, i)
    ensures ClaimedAt(Run(s, actions), i, at)
    decreases |actions|
  {
    if actions != [] {
      ClaimStands(s, actions[0], i, at);
      if Enabled(s, actions[0]) {
        StepKeeps(s, actions[0]);
      }
      hide Inv, Step, Enabled, ClaimedAt;
      ClaimStandsOver(Next(s, actions[0]), actions[1..], i, at);
    }
  }

  /**
   A crashed publisher holds nothing up. After a claim that took the intent, and whatever happened except claiming it
   again, the next claim takes it exactly when it is unpublished and more than 120 seconds have passed.
   */
  lemma IntentIsTakenOverIff(s: System, i: nat, owner: nat, at: int, actions: seq<Action>, next: nat, now: int)
    requires Inv(s) && i < |s.intents| && Enabled(s, PublisherClaimed(i, owner, at))
    requires Claimable(s.intents[i], at) && Unclaimed(Step(s, PublisherClaimed(i, owner, at)), actions, i)
    ensures var t := Run(Step(s, PublisherClaimed(i, owner, at)), actions);
            && i < |t.intents|
            && (ClaimIntent(t.intents, i, next, now)[i].attempts == t.intents[i].attempts + 1
                <==> !t.intents[i].status.Published? && now > at + 120)
  {
    var claimed := PublisherClaimed(i, owner, at);
    StepKeeps(s, claimed);
    assert ClaimedAt(Step(s, claimed), i, at);
    ClaimStandsOver(Step(s, claimed), actions, i, at);
    ClaimTakesIff(Run(Step(s, claimed), actions).intents, i, next, now);
    hide Inv, Step, Enabled, Run, Claimable;
  }

  /**
   End to end, whatever the number of publishes, crashes, duplicate deliveries and evaluations by hand: an
   evaluation takes effect only for the manifest of a ready run, under an intent written with it; as often as its
   succeeded run was struck by a fail, plus one if it stands succeeded; and so at most once with disciplined workers.
   */
  lemma EffectAtMostOnceForReadyManifest(enabled: seq<Detector>, actions: seq<Action>, key: EvaluationKey)
    ensures var s := Run(Start(enabled), actions);
            var commits := LeaseRuns.CommitsOn(s.workers.commits, key);
            && (commits >= 1 ==> ReadyFor(s, key) && HasIntent(s.intents, key))
            && commits == LeaseRuns.ReopeningsOf(s.workers.reopened, key)
                          + (if LeaseRuns.IsSucceeded(s.workers.rows, key) then 1 else 0)
            && (AllDisciplined(Start(enabled), actions) ==>
                  commits <= 1 && (commits == 1 <==> LeaseRuns.IsSucceeded(s.workers.rows, key)))
  {
    var s := Run(Start(enabled), actions);
    ReachableInv(s);
    StartInv(enabled);
    if AllDisciplined(Start(enabled), actions) {
      DisciplineNeverReopens(Start(enabled), actions);
    }
    assert LeaseRuns.RowInv(s.workers, key);
    if LeaseRuns.CommitsOn(s.workers.commits, key) >= 1 {
      CommitIsGrantable(s, key);
    }
  }

  lemma {:induction false} CommitsOnMember(commits: seq<LeaseRuns.Commit>, key: EvaluationKey)
    requires LeaseRuns.CommitsOn(commits, key) >= 1
    ensures exists c <- commits :: c.key == key
  {
    var last := |commits| - 1;
    if commits[last].key != key {
      CommitsOnMember(commits[..last], key);
    }
    assert commits[last] in commits;
  }

  lemma CommitIsGrantable(s: System, key: EvaluationKey)
    requires Inv(s) && LeaseRuns.CommitsOn(s.workers.commits, key) >= 1
    ensures Grantable(s, key)
  {
    CommitsOnMember(s.workers.commits, key);
    assert LeaseRuns.RowInv(s.workers, key);
    var on := LeaseRuns.GrantsOn(s.workers.grants, key);
    LeaseRuns.GrantsOnMember(s.workers.grants, key, on[0]);
  }

  /**
   Without a claim by hand, an evaluation takes effect only when its intent was handed to the broker, so
   that a publisher had recorded an attempt.
   */
  lemma EffectNeedsHandOffOrCommand(s: System, key: EvaluationKey)
    requires Reachable(s) && LeaseRuns.CommitsOn(s.workers.commits, key) >= 1 && key !in s.commanded
    ensures exists i :: 0 <= i < |s.intents| && s.intents[i].key == key
                     && On(s.handOffs, i) != {} && s.intents[i].attempts >= 1
  {
    ReachableInv(s);
    CommitIsGrantable(s, key);
    var h :| h in s.handOffs && h.0 < |s.intents| && s.intents[h.0].key == key;
    HandOffsWithinAttempts(s, h.0);
    assert h in On(s.handOffs, h.0);
  }

  /** The run opened, became ready, was claimed by hand and persisted, while no publisher had claimed its intent. */
  function ByHand(d: Detector, manifest: nat): seq<Action> {
    var key := KeyOf(0, manifest, d);
    [RunOpened(0), ReadinessEvaluated(0, false, manifest), CommandClaimed(key, 1, 0),
     WorkerCalled(LeaseRuns.PersistCall(key, 1, 1))]
  }

  lemma RunOfFour(s: System, actions: seq<Action>)
    requires |actions| == 4
    ensures Run(s, actions) == Next(Next(Next(Next(s, actions[0]), actions[1]), actions[2]), actions[3])
  {
    hide Next;
    assert actions[1..][0] == actions[1] && actions[1..][1..][0] == actions[2];
    assert actions[1..][1..][1..][0] == actions[3] && actions[1..][1..][1..][1..] == [];
    var s2 := Next(Next(s, actions[0]), actions[1]);
    var s3 := Next(s2, actions[2]);
    assert Run(s3, actions[1..][1..][1..]) == Next(s3, actions[3]);
    assert Run(s2, actions[1..][1..]) == Run(s3, actions[1..][1..][1..]);
  }

  lemma ReadyByHand(d: Detector, manifest: nat)
    ensures var s2 := Next(Next(Start([d]), ByHand(d, manifest)[0]), ByHand(d, manifest)[1]);
            s2 == Start([d]).(runs := map[0 := Ready(manifest)], intents := [NewIntent(KeyOf(0, manifest, d))])
  {
    var key := KeyOf(0, manifest, d);
    assert [d][..0] == [] && CreateAll([], 0, manifest, [d][..0]) == [];
    assert CreateAll([], 0, manifest, [d]) == [NewIntent(key)];
    var s1 := Next(Start([d]), RunOpened(0));
    assert s1.runs == map[0 := WaitingInputs];
    assert Next(s1, ReadinessEvaluated(0, false, manifest)).runs == map[0 := Ready(manifest)];
  }

  lemma CommittedByHand(key: EvaluationKey)
    ensures var w := LeaseRuns.Step(LeaseRuns.START, LeaseRuns.ClaimCall(key, 1, 0));
            LeaseRuns.CommitsOn(LeaseRuns.Step(w, LeaseRuns.PersistCall(key, 1, 1)).commits, key) == 1
  {
    LeaseRuns.CommitIsStruck(key);
    LeaseRuns.CommitsAppend([], LeaseRuns.Commit(key, 1), key);
    assert [] + [LeaseRuns.Commit(key, 1)] == [LeaseRuns.Commit(key, 1)];
  }

  /** An evaluation takes effect with no hand-off and no attempt: a command claimed it before any publisher. */
  lemma EffectWithoutHandOff(d: Detector, manifest: nat)
    ensures var s := Run(Start([d]), ByHand(d, manifest));
            && LeaseRuns.CommitsOn(s.workers.commits, KeyOf(0, manifest, d)) == 1
            && s.intents == [NewIntent(KeyOf(0, manifest, d))] && s.intents[0].attempts == 0 && s.handOffs == {}
  {
    RunOfFour(Start([d]), ByHand(d, manifest));
    ReadyByHand(d, manifest);
    CommittedByHand(KeyOf(0, manifest, d));
    hide Run, LeaseRuns.Step, LeaseRuns.CommitsOn;
  }
}
