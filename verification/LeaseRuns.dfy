/** Every interleaving of claims, heartbeats, persists and failures by any number of workers. */
module LeaseRuns {
  import opened Common
  import opened DetectorLease

  datatype Call =
    ClaimCall(key: EvaluationKey, owner: nat, now: int)
  | HeartbeatCall(key: EvaluationKey, owner: nat, now: int)
  | PersistCall(key: EvaluationKey, owner: nat, now: int)
  | FailCall(key: EvaluationKey, owner: nat, now: int)

  /** One lease handed out; `recovery` when it took over a failed run rather than an expired lease. */
  datatype Grant = Grant(key: EvaluationKey, owner: nat, at: int, recovery: bool)

  datatype Commit = Commit(key: EvaluationKey, owner: nat)

  /**
   The table together with its history: leases granted, persists that committed, and keys whose
   succeeded run was struck by a fail.
   */
  datatype System = System(
    rows: Table, clock: int, grants: seq<Grant>, commits: seq<Commit>, reopened: seq<EvaluationKey>)

  const START := System(map[], 0, [], [], [])

  function Step(s: System, c: Call): System {
    var t := s.(clock := if c.now > s.clock then c.now else s.clock);
    match c
    case ClaimCall(key, owner, now) =>
      var o := Claim(s.rows, key, owner, now);
      if o.Granted? then
        t.(rows := o.rows,
           grants := s.grants + [Grant(key, owner, now, key in s.rows && s.rows[key].status.Failed?)])
      else t
    case HeartbeatCall(key, owner, now) =>
      t.(rows := Heartbeat(s.rows, key, owner, now).GetOr(s.rows))
    case PersistCall(key, owner, now) =>
      var o := Persist(s.rows, key, owner, now);
      if o.Some? then t.(rows := o.value, commits := s.commits + [Commit(key, owner)]) else t
    case FailCall(key, owner, now) =>
      var o := Fail(s.rows, key, owner, now);
      if o.None? then t
      else if s.rows[key].status.Succeeded? then t.(rows := o.value, reopened := s.reopened + [key])
      else t.(rows := o.value)
  }

  function Run(s: System, calls: seq<Call>): System
    decreases |calls|
  {
    if calls == [] then s else Run(Step(s, calls[0]), calls[1..])
  }

  // ---------------------------------------------------------------- what callers do

  predicate OwnerUsed(grants: seq<Grant>, owner: nat) {
    exists g <- grants :: g.owner == owner
  }

  /** A claim mints an owner identifier that no earlier claim was granted under. */
  predicate Fresh(s: System, c: Call) {
    c.ClaimCall? ==> !OwnerUsed(s.grants, c.owner)
  }

  /** A worker that saw its persist commit does not report a failure afterwards. */
  predicate Disciplined(s: System, c: Call) {
    c.FailCall? ==> Commit(c.key, c.owner) !in s.commits
  }

  predicate Ticking(s: System, c: Call) {
    c.now >= s.clock
  }

  predicate AllFresh(s: System, calls: seq<Call>)
    decreases |calls|
  {
    calls == [] || (Fresh(s, calls[0]) && AllFresh(Step(s, calls[0]), calls[1..]))
  }

  predicate AllDisciplined(s: System, calls: seq<Call>)
    decreases |calls|
  {
    calls == [] || (Disciplined(s, calls[0]) && AllDisciplined(Step(s, calls[0]), calls[1..]))
  }

  predicate AllTicking(s: System, calls: seq<Call>)
    decreases |calls|
  {
    calls == [] || (Ticking(s, calls[0]) && AllTicking(Step(s, calls[0]), calls[1..]))
  }

  // ---------------------------------------------------------------- counting

  /** The leases granted on one key, in order. */
  function GrantsOn(grants: seq<Grant>, key: EvaluationKey): seq<Grant> {
    if grants == [] then []
    else
      var last := |grants| - 1;
      GrantsOn(grants[..last], key) + if grants[last].key == key then [grants[last]] else []
  }

  function CommitsOn(commits: seq<Commit>, key: EvaluationKey): nat {
    if commits == [] then 0
    else CommitsOn(commits[..|commits| - 1], key) + if commits[|commits| - 1].key == key then 1 else 0
  }

  function ReopeningsOf(reopened: seq<EvaluationKey>, key: EvaluationKey): nat {
    if reopened == [] then 0
    else ReopeningsOf(reopened[..|reopened| - 1], key) + if reopened[|reopened| - 1] == key then 1 else 0
  }

  lemma GrantsAppend(grants: seq<Grant>, g: Grant, key: EvaluationKey)
    ensures GrantsOn(grants + [g], key) == GrantsOn(grants, key) + if g.key == key then [g] else []
  {
    assert (grants + [g])[..|grants|] == grants;
  }

  lemma CommitsAppend(commits: seq<Commit>, c: Commit, key: EvaluationKey)
    ensures CommitsOn(commits + [c], key) == CommitsOn(commits, key) + if c.key == key then 1 else 0
  {
    assert (commits + [c])[..|commits|] == commits;
  }

  lemma ReopeningsAppend(reopened: seq<EvaluationKey>, k: EvaluationKey, key: EvaluationKey)
    ensures ReopeningsOf(reopened + [k], key) == ReopeningsOf(reopened, key) + if k == key then 1 else 0
  {
    assert (reopened + [k])[..|reopened|] == reopened;
  }

  // ---------------------------------------------------------------- the inductive invariant

  predicate IsSucceeded(rows: Table, key: EvaluationKey) {
    key in rows && rows[key].status.Succeeded?
  }

  /** The row of a key is what the grants on that key say: as many attempts, held by the last. */
  predicate RowInv(s: System, key: EvaluationKey) {
    var on := GrantsOn(s.grants, key);
    && (key in s.rows <==> on != [])
    && (key in s.rows ==> s.rows[key].attempts == |on| && s.rows[key].owner == on[|on| - 1].owner)
    && CommitsOn(s.commits, key) == ReopeningsOf(s.reopened, key) + (if IsSucceeded(s.rows, key) then 1 else 0)
    && (IsSucceeded(s.rows, key) ==> Commit(key, s.rows[key].owner) in s.commits)
  }

  ghost predicate LeaseInv(s: System) {
    forall key :: RowInv(s, key)
  }

  lemma ClaimKeepsRow(s: System, c: Call, key: EvaluationKey)
    requires RowInv(s, key) && c.ClaimCall?
    ensures RowInv(Step(s, c), key)
  {
    hide GrantsOn, CommitsOn, ReopeningsOf;
    GrantsAppend(s.grants, Grant(c.key, c.owner, c.now, c.key in s.rows && s.rows[c.key].status.Failed?), key);
  }

  lemma PersistKeepsRow(s: System, c: Call, key: EvaluationKey)
    requires RowInv(s, key) && c.PersistCall?
    ensures RowInv(Step(s, c), key)
  {
    hide GrantsOn, CommitsOn, ReopeningsOf;
    CommitsAppend(s.commits, Commit(c.key, c.owner), key);
    assert Commit(c.key, c.owner) in s.commits + [Commit(c.key, c.owner)];
  }

  lemma FailKeepsRow(s: System, c: Call, key: EvaluationKey)
    requires RowInv(s, key) && c.FailCall?
    ensures RowInv(Step(s, c), key)
  {
    hide GrantsOn, CommitsOn, ReopeningsOf;
    ReopeningsAppend(s.reopened, c.key, key);
  }

  lemma StepRow(s: System, c: Call, key: EvaluationKey)
    requires RowInv(s, key)
    ensures RowInv(Step(s, c), key)
  {
    hide GrantsOn, CommitsOn, ReopeningsOf;
    match c
    case ClaimCall(_, _, _) => ClaimKeepsRow(s, c, key);
    case HeartbeatCall(_, _, _) =>
    case PersistCall(_, _, _) => PersistKeepsRow(s, c, key);
    case FailCall(_, _, _) => FailKeepsRow(s, c, key);
  }

  lemma {:induction false} RunKeeps(s: System, calls: seq<Call>)
    requires LeaseInv(s)
    ensures LeaseInv(Run(s, calls))
    decreases |calls|
  {
    if calls != [] {
      forall key ensures RowInv(Step(s, calls[0]), key) {
        StepRow(s, calls[0], key);
      }
      hide Step, RowInv;
      RunKeeps(Step(s, calls[0]), calls[1..]);
    }
  }

  lemma StartInv()
    ensures LeaseInv(START)
  {
  }

  // ---------------------------------------------------------------- how often an evaluation takes effect

  /**
   For arbitrary callers: persists committed for a key = times a succeeded run was struck by a
   fail, plus one if it now stands succeeded. And attempt_count is the number of leases granted.
   */
  lemma CommitLaw(calls: seq<Call>, key: EvaluationKey)
    ensures var s := Run(START, calls);
            && CommitsOn(s.commits, key)
               == ReopeningsOf(s.reopened, key) + (if IsSucceeded(s.rows, key) then 1 else 0)
            && (key in s.rows <==> GrantsOn(s.grants, key) != [])
            && (key in s.rows ==> s.rows[key].attempts == |GrantsOn(s.grants, key)|)
  {
    StartInv();
    RunKeeps(START, calls);
    assert RowInv(Run(START, calls), key);
  }

  lemma {:induction false} DisciplineNeverReopens(s: System, calls: seq<Call>)
    requires LeaseInv(s) && AllDisciplined(s, calls)
    ensures Run(s, calls).reopened == s.reopened
    ensures forall key :: IsSucceeded(s.rows, key) ==>
              key in Run(s, calls).rows && Run(s, calls).rows[key] == s.rows[key]
    decreases |calls|
  {
    if calls != [] {
      var c := calls[0];
      assert RowInv(s, c.key);
      var t := Step(s, c);
      assert t.reopened == s.reopened;
      forall key | IsSucceeded(s.rows, key) ensures key in t.rows && t.rows[key] == s.rows[key] {
        assert RowInv(s, key);
      }
      forall key ensures RowInv(t, key) {
        StepRow(s, c, key);
      }
      hide Step, RowInv, Disciplined;
      DisciplineNeverReopens(t, calls[1..]);
    }
  }

  /**
   With workers that follow evaluate-and-persist, whatever the interleaving, crashes and repeated
   deliveries, at most one persist ever commits for a key, and one has exactly when its run stands succeeded.
   */
  lemma TakesEffectAtMostOnce(calls: seq<Call>, key: EvaluationKey)
    requires AllDisciplined(START, calls)
    ensures CommitsOn(Run(START, calls).commits, key) <= 1
    ensures CommitsOn(Run(START, calls).commits, key) == 1 <==> IsSucceeded(Run(START, calls).rows, key)
  {
    StartInv();
    DisciplineNeverReopens(START, calls);
    CommitLaw(calls, key);
  }

  /** A succeeded run is never touched again, by any later disciplined call. */
  lemma SucceededIsFinal(before: seq<Call>, after: seq<Call>, key: EvaluationKey)
    requires IsSucceeded(Run(START, before).rows, key) && AllDisciplined(Run(START, before), after)
    ensures var s := Run(START, before);
            key in Run(s, after).rows && Run(s, after).rows[key] == s.rows[key]
  {
    StartInv();
    RunKeeps(START, before);
    DisciplineNeverReopens(Run(START, before), after);
  }

  /** Claimed at 0, committed at 1, reported failed at 2. */
  function StruckSystem(key: EvaluationKey): System {
    System(map[key := DetectorRun(Failed, 1, 300, 0, 1, Some(2))], 2,
           [Grant(key, 1, 0, false)], [Commit(key, 1)], [key])
  }

  lemma CommitIsStruck(key: EvaluationKey)
    ensures Step(Step(Step(START, ClaimCall(key, 1, 0)), PersistCall(key, 1, 1)), FailCall(key, 1, 2))
            == StruckSystem(key)
    ensures !OwnerUsed(START.grants, 1)
    ensures var s1 := Step(START, ClaimCall(key, 1, 0)); s1.clock == 0 && Step(s1, PersistCall(key, 1, 1)).clock == 1
  {
    var s1 := Step(START, ClaimCall(key, 1, 0));
    assert s1 == System(map[key := DetectorRun(Running, 1, 300, 0, 1, None)], 0, [Grant(key, 1, 0, false)], [], []);
    var s2 := Step(s1, PersistCall(key, 1, 1));
    assert s2 == System(map[key := DetectorRun(Succeeded, 1, 300, 0, 1, Some(1))], 1, s1.grants, [Commit(key, 1)], []);
    var s3 := Step(s2, FailCall(key, 1, 2));
    assert s3.rows == StruckSystem(key).rows;
  }

  lemma StruckCommitsAgain(key: EvaluationKey)
    ensures var s4 := Step(StruckSystem(key), ClaimCall(key, 2, 3));
            && s4.clock == 3 && Step(s4, PersistCall(key, 2, 4)).commits == [Commit(key, 1)] + [Commit(key, 2)]
    ensures !OwnerUsed(StruckSystem(key).grants, 2)
  {
    var s4 := Step(StruckSystem(key), ClaimCall(key, 2, 3));
    assert s4.rows == map[key := DetectorRun(Running, 2, 303, 3, 2, None)];
  }

  lemma TwoCommits(key: EvaluationKey)
    ensures CommitsOn([Commit(key, 1)] + [Commit(key, 2)], key) == 2
  {
    assert [Commit(key, 1)] == [] + [Commit(key, 1)];
    CommitsAppend([], Commit(key, 1), key);
    CommitsAppend([Commit(key, 1)], Commit(key, 2), key);
  }

  /** A commit whose acknowledgement is lost, reported as a failure, is evaluated a second time. */
  lemma LostAcknowledgementCommitsTwice(key: EvaluationKey)
    ensures var calls := [ClaimCall(key, 1, 0), PersistCall(key, 1, 1), FailCall(key, 1, 2),
                          ClaimCall(key, 2, 3), PersistCall(key, 2, 4)];
            AllFresh(START, calls) && AllTicking(START, calls) && CommitsOn(Run(START, calls).commits, key) == 2
  {
    hide Step, CommitsOn, OwnerUsed, Run, AllFresh, AllTicking;
    var calls := [ClaimCall(key, 1, 0), PersistCall(key, 1, 1), FailCall(key, 1, 2),
                  ClaimCall(key, 2, 3), PersistCall(key, 2, 4)];
    CommitIsStruck(key);
    StruckCommitsAgain(key);
    TwoCommits(key);
    RunOfFive(START, calls);
    AllOfFive(START, calls);
  }

  lemma RunOfFive(s: System, calls: seq<Call>)
    requires |calls| == 5
    ensures Run(s, calls) == Step(Step(Step(Step(Step(s, calls[0]), calls[1]), calls[2]), calls[3]), calls[4])
  {
    hide Step;
    assert calls[1..][0] == calls[1] && calls[1..][1..][0] == calls[2];
    assert calls[1..][1..][1..][0] == calls[3] && calls[1..][1..][1..][1..][0] == calls[4];
    assert calls[1..][1..][1..][1..][1..] == [];
    var s1 := Step(s, calls[0]);
    var s2 := Step(s1, calls[1]);
    var s3 := Step(s2, calls[2]);
    var s4 := Step(s3, calls[3]);
    assert Run(s4, calls[1..][1..][1..][1..]) == Step(s4, calls[4]);
    assert Run(s3, calls[1..][1..][1..]) == Run(s4, calls[1..][1..][1..][1..]);
    assert Run(s2, calls[1..][1..]) == Run(s3, calls[1..][1..][1..]);
  }

  lemma AllOfFive(s: System, calls: seq<Call>)
    requires |calls| == 5
    requires var s1 := Step(s, calls[0]);
             var s2 := Step(s1, calls[1]);
             var s3 := Step(s2, calls[2]);
             var s4 := Step(s3, calls[3]);
             && Fresh(s, calls[0]) && Ticking(s, calls[0]) && Fresh(s1, calls[1]) && Ticking(s1, calls[1])
             && Fresh(s2, calls[2]) && Ticking(s2, calls[2]) && Fresh(s3, calls[3]) && Ticking(s3, calls[3])
             && Fresh(s4, calls[4]) && Ticking(s4, calls[4])
    ensures AllFresh(s, calls) && AllTicking(s, calls)
  {
    hide Step, Fresh, Ticking;
    assert calls[1..][0] == calls[1] && calls[1..][1..][0] == calls[2];
    assert calls[1..][1..][1..][0] == calls[3] && calls[1..][1..][1..][1..][0] == calls[4];
    assert calls[1..][1..][1..][1..][1..] == [];
    var s1 := Step(s, calls[0]);
    var s2 := Step(s1, calls[1]);
    var s3 := Step(s2, calls[2]);
    var s4 := Step(s3, calls[3]);
    assert AllFresh(s4, calls[1..][1..][1..][1..]) && AllTicking(s4, calls[1..][1..][1..][1..]);
    assert AllFresh(s3, calls[1..][1..][1..]) && AllTicking(s3, calls[1..][1..][1..]);
    assert AllFresh(s2, calls[1..][1..]) && AllTicking(s2, calls[1..][1..]);
  }

  // ---------------------------------------------------------------- fencing

  /** The worker was granted a lease on the key and has lost it since. */
  predicate Fenced(s: System, key: EvaluationKey, owner: nat) {
    OwnerUsed(s.grants, owner) && key in s.rows && s.rows[key].owner != owner
  }

  lemma FencedStep(s: System, c: Call, key: EvaluationKey, owner: nat)
    requires Fenced(s, key, owner) && Fresh(s, c)
    ensures Fenced(Step(s, c), key, owner)
  {
    var g :| g in s.grants && g.owner == owner;
    assert g in Step(s, c).grants;
  }

  /** A worker whose lease was reclaimed can never again heartbeat, persist or fail. */
  lemma {:induction false} FencedForever(s: System, calls: seq<Call>, key: EvaluationKey, owner: nat, now: int)
    requires Fenced(s, key, owner) && AllFresh(s, calls)
    ensures var t := Run(s, calls);
            && Heartbeat(t.rows, key, owner, now).None?
            && Persist(t.rows, key, owner, now).None?
            && Fail(t.rows, key, owner, now).None?
    decreases |calls|
  {
    if calls != [] {
      FencedStep(s, calls[0], key, owner);
      FencedForever(Step(s, calls[0]), calls[1..], key, owner, now);
    }
  }

  /** Reclaiming is what fences: after a granted reclaim the previous holder is locked out. */
  lemma ReclaimFences(s: System, c: Call)
    requires LeaseInv(s) && c.ClaimCall? && c.key in s.rows && Fresh(s, c)
    requires Claim(s.rows, c.key, c.owner, c.now).Granted?
    ensures Fenced(Step(s, c), c.key, s.rows[c.key].owner)
  {
    assert RowInv(s, c.key);
    var on := GrantsOn(s.grants, c.key);
    GrantsOnMember(s.grants, c.key, on[|on| - 1]);
    assert on[|on| - 1] in Step(s, c).grants;
  }

  lemma {:induction false} GrantsOnMember(grants: seq<Grant>, key: EvaluationKey, g: Grant)
    ensures g in GrantsOn(grants, key) <==> g in grants && g.key == key
  {
    if grants != [] {
      var last := |grants| - 1;
      GrantsOnMember(grants[..last], key, g);
      assert grants == grants[..last] + [grants[last]];
    }
  }

  // ---------------------------------------------------------------- spacing of leases

  /** The lease in force reaches at least 300 seconds past its grant, and the clock is past every grant. */
  predicate SpacingInv(s: System) {
    && (forall g <- s.grants :: g.at <= s.clock)
    && (forall g <- s.grants ::
          g.key in s.rows && (s.rows[g.key].status.Running? ==> s.rows[g.key].leasedUntil >= g.at + LEASE_SECONDS))
    && (forall i, j | 0 <= i < j < |s.grants| ::
          s.grants[i].key == s.grants[j].key && !s.grants[j].recovery ==>
            s.grants[j].at > s.grants[i].at + LEASE_SECONDS)
  }

  lemma SpacingStep(s: System, c: Call)
    requires SpacingInv(s) && Ticking(s, c)
    ensures SpacingInv(Step(s, c))
  {
    if c.ClaimCall? {
      SpacingClaim(s, c);
    } else {
      SpacingWithoutClaim(s, c);
    }
    hide Step, SpacingInv;
  }

  lemma SpacingWithoutClaim(s: System, c: Call)
    requires SpacingInv(s) && Ticking(s, c) && !c.ClaimCall?
    ensures SpacingInv(Step(s, c))
  {
    var t := Step(s, c);
    assert t.grants == s.grants && t.clock >= s.clock;
    forall g | g in t.grants ensures g.at <= t.clock && g.key in t.rows
      ensures t.rows[g.key].status.Running? ==> t.rows[g.key].leasedUntil >= g.at + LEASE_SECONDS
    {
      assert g in s.grants;
    }
  }

  lemma SpacingClaim(s: System, c: Call)
    requires SpacingInv(s) && Ticking(s, c) && c.ClaimCall?
    ensures SpacingInv(Step(s, c))
  {
    var t := Step(s, c);
    if t.grants != s.grants {
      var granted := t.grants[|s.grants|];
      forall i | 0 <= i < |s.grants| && s.grants[i].key == c.key
        ensures granted.recovery || granted.at > s.grants[i].at + LEASE_SECONDS
      {
        assert s.grants[i] in s.grants;
      }
      forall g | g in t.grants ensures g.at <= t.clock && g.key in t.rows
        ensures t.rows[g.key].status.Running? ==> t.rows[g.key].leasedUntil >= g.at + LEASE_SECONDS
      {
        assert g in s.grants || g == granted;
      }
    }
  }

  lemma {:induction false} SpacingKept(s: System, calls: seq<Call>)
    requires SpacingInv(s) && AllTicking(s, calls)
    ensures SpacingInv(Run(s, calls))
    decreases |calls|
  {
    if calls != [] {
      SpacingStep(s, calls[0]);
      hide Step, SpacingInv, Ticking;
      SpacingKept(Step(s, calls[0]), calls[1..]);
    }
  }

  /** A grant that recovers no failed run comes more than 300 seconds after every earlier grant on the key. */
  lemma GrantsAreSpaced(calls: seq<Call>, i: nat, j: nat)
    requires AllTicking(START, calls)
    requires i < j < |Run(START, calls).grants|
    requires Run(START, calls).grants[i].key == Run(START, calls).grants[j].key
    requires !Run(START, calls).grants[j].recovery
    ensures Run(START, calls).grants[j].at > Run(START, calls).grants[i].at + LEASE_SECONDS
  {
    SpacingKept(START, calls);
    hide Run;
  }

  // ---------------------------------------------------------------- exclusive leases

  /** The call takes a lease on its key or extends it: a granted claim, or an accepted heartbeat. */
  predicate TakesLease(s: System, c: Call) {
    || (c.ClaimCall? && Claim(s.rows, c.key, c.owner, c.now).Granted?)
    || (c.HeartbeatCall? && Heartbeat(s.rows, c.key, c.owner, c.now).Some?)
  }

  /** Nobody took the lease that `owner` took or extended at `at`, except from a failed run or once it ran out. */
  predicate Exclusive(earlier: seq<Grant>, s: System, key: EvaluationKey, owner: nat, at: int) {
    && s.clock >= at
    && earlier <= s.grants
    && key in s.rows
    && (s.rows[key].status.Running? ==> s.rows[key].leasedUntil >= at + LEASE_SECONDS)
    && (forall k | |earlier| <= k < |s.grants| && s.grants[k].key == key ::
          s.grants[k].recovery || s.grants[k].at > at + LEASE_SECONDS)
    && (s.rows[key].owner == owner || exists k | |earlier| <= k < |s.grants| :: s.grants[k].key == key)
  }

  lemma LeaseTaken(s: System, c: Call)
    requires Ticking(s, c) && TakesLease(s, c)
    ensures Exclusive(Step(s, c).grants, Step(s, c), c.key, c.owner, c.now)
  {
  }

  lemma ExclusiveStep(earlier: seq<Grant>, s: System, c: Call, key: EvaluationKey, owner: nat, at: int)
    requires Exclusive(earlier, s, key, owner, at) && Ticking(s, c)
    ensures Exclusive(earlier, Step(s, c), key, owner, at)
  {
    var t := Step(s, c);
    if s.rows[key].owner != owner {
      var k :| |earlier| <= k < |s.grants| && s.grants[k].key == key;
      assert t.grants[k].key == key;
    } else if c.ClaimCall? && c.key == key && t.grants != s.grants {
      assert t.grants[|s.grants|].key == key;
    }
  }

  lemma {:induction false} ExclusiveRun(
    earlier: seq<Grant>, s: System, calls: seq<Call>, key: EvaluationKey, owner: nat, at: int)
    requires Exclusive(earlier, s, key, owner, at) && AllTicking(s, calls)
    ensures Exclusive(earlier, Run(s, calls), key, owner, at)
    decreases |calls|
  {
    hide Step, Exclusive, Ticking;
    if calls != [] {
      ExclusiveStep(earlier, s, calls[0], key, owner, at);
      ExclusiveRun(earlier, Step(s, calls[0]), calls[1..], key, owner, at);
    }
  }

  /**
   When the clock only moves forward, two leases on one key are never in force together. From the last grant
   or accepted heartbeat of a holder, whatever is called in between: every later grant on the key recovers a
   failed run or comes more than 300 seconds after it; until there is one, the run still belongs to the
   holder; and a claim of a run that has not failed is refused as long as the lease lasts.
   */
  lemma LeasesNeverOverlap(s: System, c: Call, calls: seq<Call>, d: Call)
    requires Ticking(s, c) && TakesLease(s, c) && AllTicking(Step(s, c), calls)
    requires d.ClaimCall? && d.key == c.key && Ticking(Run(Step(s, c), calls), d)
    ensures var before, t := Step(s, c).grants, Run(Step(s, c), calls);
            && before <= t.grants && c.key in t.rows
            && (forall k | |before| <= k < |t.grants| && t.grants[k].key == c.key ::
                  t.grants[k].recovery || t.grants[k].at > c.now + LEASE_SECONDS)
            && (t.rows[c.key].owner == c.owner || exists k | |before| <= k < |t.grants| :: t.grants[k].key == c.key)
            && (Claim(t.rows, c.key, d.owner, d.now).Granted? && !t.rows[c.key].status.Failed? ==>
                  d.now > c.now + LEASE_SECONDS)
  {
    LeaseTaken(s, c);
    ExclusiveRun(Step(s, c).grants, Step(s, c), calls, c.key, c.owner, c.now);
    hide Step, Run;
  }

  // ---------------------------------------------------------------- taking over

  /** None of the calls takes or extends a lease on the key. */
  predicate Untaken(s: System, calls: seq<Call>, key: EvaluationKey)
    decreases |calls|
  {
    calls == [] || (!(TakesLease(s, calls[0]) && calls[0].key == key) && Untaken(Step(s, calls[0]), calls[1..], key))
  }

  /** The run stands as the lease taken at `at` left it, apart from having been finished. */
  predicate LeftSince(s: System, key: EvaluationKey, at: int) {
    key in s.rows && (s.rows[key].status.Running? ==> s.rows[key].leasedUntil == at + 300)
  }

  lemma {:induction false} LeftAlone(s: System, calls: seq<Call>, key: EvaluationKey, at: int)
    requires LeftSince(s, key, at) && Untaken(s, calls, key)
    ensures LeftSince(Run(s, calls), key, at)
    decreases |calls|
  {
    if calls != [] {
      assert LeftSince(Step(s, calls[0]), key, at);
      hide Step, LeftSince, TakesLease;
      LeftAlone(Step(s, calls[0]), calls[1..], key, at);
    }
  }

  /**
   A crashed worker holds nobody up. After a lease was taken or extended at an instant, and whatever happened
   except taking or extending it again, a claim gets the run exactly when it failed, or is still running and more
   than 300 seconds have passed; it is told of the success exactly when the run succeeded.
   */
  lemma LeaseIsTakenOverIff(s: System, taken: Call, calls: seq<Call>, owner: nat, now: int)
    requires TakesLease(s, taken) && Untaken(Step(s, taken), calls, taken.key)
    ensures var t := Run(Step(s, taken), calls);
            var answer := Claim(t.rows, taken.key, owner, now);
            && taken.key in t.rows
            && (answer.Granted? <==>
                  || t.rows[taken.key].status.Failed?
                  || (t.rows[taken.key].status.Running? && now > taken.now + 300))
            && (answer.AlreadySucceeded? <==> t.rows[taken.key].status.Succeeded?)
  {
    assert LeftSince(Step(s, taken), taken.key, taken.now);
    LeftAlone(Step(s, taken), calls, taken.key, taken.now);
    hide Step, Run, Untaken;
  }
}
