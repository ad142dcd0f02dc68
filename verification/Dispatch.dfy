/** Durable intents: created with readiness, published under a claim, swept after crashes. */
module Dispatch {
  import opened Common
  import opened DetectorLease

  const PUBLISH_LEASE_SECONDS := 120

  datatype IntentStatus = Pending | Publishing | Published

  datatype Intent = Intent(
    key: EvaluationKey, status: IntentStatus, owner: Option<nat>, leasedUntil: Option<int>,
    attempts: nat, taskId: Option<nat>, publishedAt: Option<int>, errored: bool)

  function NewIntent(key: EvaluationKey): Intent {
    Intent(key, Pending, None, None, 0, None, None, false)
  }

  predicate Claimable(intent: Intent, now: int) {
    || intent.status.Pending?
    || (intent.status.Publishing? && intent.leasedUntil.Some? && intent.leasedUntil.value < now)
  }

  function Claimed(intent: Intent, owner: nat, now: int): Intent {
    intent.(status := Publishing, owner := Some(owner), leasedUntil := Some(now + PUBLISH_LEASE_SECONDS),
            attempts := intent.attempts + 1)
  }

  function Marked(intent: Intent, task: nat, now: int): Intent {
    intent.(status := Published, taskId := Some(task), publishedAt := Some(now), errored := false)
  }

  /** The guarded UPDATE that claims an intent; the number of rows it touched is 0 or 1. */
  function ClaimIntent(intents: seq<Intent>, i: nat, owner: nat, now: int): seq<Intent> {
    if i < |intents| && Claimable(intents[i], now) then intents[i := Claimed(intents[i], owner, now)] else intents
  }

  /** After the hand-off: filtered by the claim owner, so a reclaimed publisher touches no row. */
  function MarkPublished(intents: seq<Intent>, i: nat, owner: nat, task: nat, now: int): seq<Intent> {
    if i < |intents| && intents[i].owner == Some(owner) then intents[i := Marked(intents[i], task, now)] else intents
  }

  function RecordError(intents: seq<Intent>, i: nat, owner: nat): seq<Intent> {
    if i < |intents| && intents[i].owner == Some(owner) then intents[i := intents[i].(errored := true)] else intents
  }

  predicate HasIntent(intents: seq<Intent>, key: EvaluationKey) {
    exists i | 0 <= i < |intents| :: intents[i].key == key
  }

  /** Insert unless the unique key is present. */
  function GetOrCreate(intents: seq<Intent>, key: EvaluationKey): seq<Intent> {
    if HasIntent(intents, key) then intents else intents + [NewIntent(key)]
  }

  // ---------------------------------------------------------------- sweeping

  /** Positions, oldest first, of the intents among the first n that may be claimed at `now`. */
  function ClaimableIds(intents: seq<Intent>, now: int, n: nat): (ids: seq<nat>)
    requires n <= |intents|
    ensures |ids| <= n
    ensures forall k | 0 <= k < |ids| :: ids[k] < n && Claimable(intents[ids[k]], now)
    ensures Increasing(ids)
    ensures forall i: nat | i < n && Claimable(intents[i], now) :: i in ids
  {
    if n == 0 then []
    else if Claimable(intents[n - 1], now) then ClaimableIds(intents, now, n - 1) + [n - 1]
    else ClaimableIds(intents, now, n - 1)
  }

  predicate Positions(ids: seq<nat>, n: nat) {
    (forall k | 0 <= k < |ids| :: ids[k] < n) && Increasing(ids)
  }

  function Waiting(intents: seq<Intent>, now: int): (ids: seq<nat>)
    ensures Positions(ids, |intents|)
  {
    ClaimableIds(intents, now, |intents|)
  }

  function Take(ids: seq<nat>, limit: nat): (first: seq<nat>)
    ensures |first| <= |ids| && forall k | 0 <= k < |first| :: first[k] == ids[k]
    ensures Increasing(ids) ==> Increasing(first)
  {
    if |ids| <= limit then ids else ids[..limit]
  }

  /** How a publish attempt goes: claimed when and by whom, whether the broker takes it, and marked when. */
  datatype Attempt = Attempt(at: int, up: bool, owner: nat, task: nat, markedAt: int)

  /** What one publish attempt makes of a claimable intent: the broker is up, or it raises. */
  function Attempted(intent: Intent, a: Attempt): Intent {
    var claimed := Claimed(intent, a.owner, a.at);
    if a.up then Marked(claimed, a.task, a.markedAt) else claimed.(errored := true)
  }

  function PublishAll(intents: seq<Intent>, ids: seq<nat>, attempts: seq<Attempt>): (after: seq<Intent>)
    requires Positions(ids, |intents|) && |attempts| == |intents|
    ensures |after| == |intents|
  {
    if ids == [] then intents
    else
      var last := |ids| - 1;
      var before := PublishAll(intents, ids[..last], attempts);
      before[ids[last] := Attempted(before[ids[last]], attempts[ids[last]])]
  }

  function Accepted(ids: seq<nat>, attempts: seq<Attempt>): nat
    requires Positions(ids, |attempts|)
  {
    if ids == [] then 0
    else Accepted(ids[..|ids| - 1], attempts) + if attempts[ids[|ids| - 1]].up then 1 else 0
  }

  /** A sweep attempts every chosen intent exactly once and no other. */
  lemma {:induction false} PublishAllPointwise(intents: seq<Intent>, ids: seq<nat>, attempts: seq<Attempt>)
    requires Positions(ids, |intents|) && |attempts| == |intents|
    ensures forall i: nat | i < |intents| ::
              PublishAll(intents, ids, attempts)[i] ==
              if i in ids then Attempted(intents[i], attempts[i]) else intents[i]
  {
    if ids != [] {
      var last := |ids| - 1;
      hide Attempted;
      PublishAllPointwise(intents, ids[..last], attempts);
      assert ids == ids[..last] + [ids[last]];
      assert ids[last] !in ids[..last];
    }
  }

  lemma PublishAllStep(intents: seq<Intent>, ids: seq<nat>, k: nat, attempts: seq<Attempt>)
    requires Positions(ids, |intents|) && |attempts| == |intents| && k < |ids|
    ensures PublishAll(intents, ids[..k], attempts)[ids[k]] == intents[ids[k]]
    ensures PublishAll(intents, ids[..k + 1], attempts)
         == PublishAll(intents, ids[..k], attempts)[ids[k] := Attempted(intents[ids[k]], attempts[ids[k]])]
    ensures Accepted(ids[..k + 1], attempts) == Accepted(ids[..k], attempts) + if attempts[ids[k]].up then 1 else 0
  {
    hide Attempted;
    PublishAllPointwise(intents, ids[..k], attempts);
    assert ids[k] !in ids[..k];
    assert ids[..k + 1][..k] == ids[..k];
  }

  /** Who may be claimed: what nobody has claimed, and what was claimed but not published before its lease ran out. */
  lemma ClaimTakesIff(intents: seq<Intent>, i: nat, owner: nat, now: int)
    requires i < |intents|
    ensures var before, after := intents[i], ClaimIntent(intents, i, owner, now)[i];
            var free := before.status == Pending
                        || (before.status == Publishing && before.leasedUntil.Some? && before.leasedUntil.value < now);
            && (after.attempts == before.attempts + 1 <==> free)
            && after == if free then before.(status := Publishing, owner := Some(owner),
                                             leasedUntil := Some(now + 120), attempts := before.attempts + 1)
                        else before
  {
  }

  /**
   What an attempt leaves: published with its task, its instant and no error, or still claimed with the error
   noted; either way under the new owner, leased for 120 seconds and one attempt on.
   */
  lemma AttemptLeaves(intent: Intent, a: Attempt)
    ensures Attempted(intent, a)
         == if a.up
            then Intent(intent.key, Published, Some(a.owner), Some(a.at + 120), intent.attempts + 1,
                        Some(a.task), Some(a.markedAt), false)
            else Intent(intent.key, Publishing, Some(a.owner), Some(a.at + 120), intent.attempts + 1,
                        intent.taskId, intent.publishedAt, true)
  {
  }

  /** The chosen intents are still claimable at their own, later instants. */
  lemma ChosenAreClaimable(intents: seq<Intent>, limit: nat, now: int, attempts: seq<Attempt>)
    requires |attempts| == |intents| && forall a <- attempts :: a.at >= now
    ensures var chosen := Take(Waiting(intents, now), limit);
            && Positions(chosen, |intents|)
            && (forall k | 0 <= k <= |chosen| :: Positions(chosen[..k], |intents|))
            && (forall k | 0 <= k < |chosen| ::
                  chosen[k] < |intents| && Claimable(intents[chosen[k]], attempts[chosen[k]].at))
  {
    var chosen := Take(Waiting(intents, now), limit);
    forall k | 0 <= k < |chosen|
      ensures chosen[k] < |intents| && Claimable(intents[chosen[k]], attempts[chosen[k]].at)
    {
      assert Claimable(intents[chosen[k]], now) && attempts[chosen[k]] in attempts;
    }
  }

  class IntentTable {
    var intents: seq<Intent>

    constructor ()
      ensures intents == []
    {
      intents := [];
    }

    /** One intent per enabled detector, inside the readiness transaction. */
    method CreateIntents(keys: seq<EvaluationKey>)
      modifies this
      ensures |old(intents)| <= |intents| && intents[..|old(intents)|] == old(intents)
      ensures forall key <- keys :: HasIntent(intents, key)
      ensures forall i | |old(intents)| <= i < |intents| ::
                intents[i].key in keys && intents[i] == NewIntent(intents[i].key)
      ensures forall i, j | 0 <= i < j < |intents| && |old(intents)| <= j :: intents[i].key != intents[j].key
    {
      ghost var was := intents;
      for d := 0 to |keys|
        invariant |was| <= |intents| && intents[..|was|] == was
        invariant forall c | 0 <= c < d :: HasIntent(intents, keys[c])
        invariant forall i | |was| <= i < |intents| :: intents[i].key in keys && intents[i] == NewIntent(intents[i].key)
        invariant forall i, j | 0 <= i < j < |intents| && |was| <= j :: intents[i].key != intents[j].key
      {
        if !HasIntent(intents, keys[d]) {
          ghost var before := intents;
          intents := intents + [NewIntent(keys[d])];
          assert intents[|before|].key == keys[d];
          forall c | 0 <= c < d ensures HasIntent(intents, keys[c]) {
            assert HasIntent(before, keys[c]);
            var i :| 0 <= i < |before| && before[i].key == keys[c];
            assert intents[i].key == keys[c];
          }
        }
      }
    }

    /** Claim, hand to the broker, mark: two separate commits with the hand-off in between. */
    method PublishIntent(i: nat, a: Attempt) returns (published: bool)
      requires i < |intents|
      modifies this
      ensures published <==> Claimable(old(intents)[i], a.at) && a.up
      ensures intents == if Claimable(old(intents)[i], a.at)
                         then old(intents)[i := Attempted(old(intents)[i], a)]
                         else old(intents)
    {
      if !Claimable(intents[i], a.at) {
        return false;
      }
      intents := ClaimIntent(intents, i, a.owner, a.at);
      if !a.up {
        intents := RecordError(intents, i, a.owner);
        return false;
      }
      intents := MarkPublished(intents, i, a.owner, a.task, a.markedAt);
      return true;
    }

    /**
     Publish the first `limit` waiting intents, at instants no earlier than the selection; the result
     counts the ones the broker took. A failed attempt does not stop the sweep.
     */
    method Sweep(limit: nat, now: int, attempts: seq<Attempt>) returns (published: nat)
      requires |attempts| == |intents| && forall a <- attempts :: a.at >= now
      modifies this
      ensures Positions(Take(Waiting(old(intents), now), limit), |old(intents)|)
      ensures intents == PublishAll(old(intents), Take(Waiting(old(intents), now), limit), attempts)
      ensures published == Accepted(Take(Waiting(old(intents), now), limit), attempts)
    {
      hide Attempted, Claimable, Waiting, Take, Positions;
      var candidates := Take(Waiting(intents, now), limit);
      ghost var was := intents;
      published := 0;
      assert candidates[..0] == [];
      ChosenAreClaimable(was, limit, now, attempts);
      for k := 0 to |candidates|
        invariant intents == PublishAll(was, candidates[..k], attempts)
        invariant published == Accepted(candidates[..k], attempts)
      {
        PublishAllStep(was, candidates, k, attempts);
        hide PublishAll, Accepted;
        var ok := PublishIntent(candidates[k], attempts[candidates[k]]);
        if ok {
          published := published + 1;
        }
      }
      assert candidates[..|candidates|] == candidates;
    }
  }

  // ---------------------------------------------------------------- draining

  /** `after` is what one sweep with a healthy broker makes of `before`. */
  predicate SweptHealthily(before: seq<Intent>, after: seq<Intent>, limit: nat, now: int) {
    var chosen := Take(Waiting(before, now), limit);
    && |after| == |before|
    && forall i: nat | i < |before| ::
         if i in chosen then after[i].status.Published? else after[i] == before[i]
  }

  /** A sweep in which the broker takes every hand-off. */
  lemma HealthySweep(before: seq<Intent>, attempts: seq<Attempt>, limit: nat, now: int)
    requires |attempts| == |before| && forall a <- attempts :: a.up
    ensures SweptHealthily(before, PublishAll(before, Take(Waiting(before, now), limit), attempts), limit, now)
  {
    PublishAllPointwise(before, Take(Waiting(before, now), limit), attempts);
  }

  /** No hot loop: whatever the broker did, an intent just attempted is not claimable until its lease ends. */
  lemma AttemptedRests(before: seq<Intent>, attempts: seq<Attempt>, limit: nat, now: int, i: nat, t: int)
    requires |attempts| == |before| && i in Take(Waiting(before, now), limit)
    ensures i < |before|
    ensures t <= attempts[i].at + PUBLISH_LEASE_SECONDS ==>
              !Claimable(PublishAll(before, Take(Waiting(before, now), limit), attempts)[i], t)
    ensures PublishAll(before, Take(Waiting(before, now), limit), attempts)[i].attempts == before[i].attempts + 1
  {
    PublishAllPointwise(before, Take(Waiting(before, now), limit), attempts);
  }

  /** Every intent is published or may be claimed: no rival holds a lease. */
  predicate NoRival(intents: seq<Intent>, now: int) {
    forall i | 0 <= i < |intents| :: intents[i].status.Published? || Claimable(intents[i], now)
  }

  function Left(n: nat, limit: nat): nat {
    if n <= limit then 0 else n - limit
  }

  /** One healthy sweep shortens the queue by `limit`, and leaves no rival. */
  lemma OneSweepDrains(before: seq<Intent>, after: seq<Intent>, limit: nat, now: int, later: int)
    requires now <= later && NoRival(before, now) && SweptHealthily(before, after, limit, now)
    ensures |Waiting(after, later)| == Left(|Waiting(before, now)|, limit)
    ensures NoRival(after, later)
  {
    var ids, ids' := Waiting(before, now), Waiting(after, later);
    var chosen := Take(ids, limit);
    StillWaiting(before, after, limit, now, later);
    hide Waiting, Elements, SweptHealthily, NoRival;
    IncreasingSize(ids);
    IncreasingSize(ids');
    IncreasingSize(chosen);
    assert |Elements(ids) - Elements(chosen)| == |Elements(ids)| - |Elements(chosen)|;
  }

  /** What waits after a healthy sweep: what waited and was not chosen. */
  lemma StillWaiting(before: seq<Intent>, after: seq<Intent>, limit: nat, now: int, later: int)
    requires now <= later && NoRival(before, now) && SweptHealthily(before, after, limit, now)
    ensures NoRival(after, later)
    ensures var ids, ids' := Waiting(before, now), Waiting(after, later);
            var chosen := Take(ids, limit);
            && Elements(ids') == Elements(ids) - Elements(chosen) && Elements(chosen) <= Elements(ids)
            && Increasing(ids) && Increasing(ids') && Increasing(chosen)
  {
    var ids, ids' := Waiting(before, now), Waiting(after, later);
    var chosen := Take(ids, limit);
    assert forall i | i in chosen :: i in ids;
    forall i: nat | i < |before|
      ensures i in ids' <==> i in ids && i !in chosen
    {
      assert i in ids <==> Claimable(before[i], now);
      assert i in ids' <==> Claimable(after[i], later);
    }
  }

  /** A sweep: when it selects, and how an attempt on each intent would go. */
  datatype Round = Round(now: int, attempts: seq<Attempt>)

  predicate RoundsFit(rounds: seq<Round>, n: nat) {
    forall r | 0 <= r < |rounds| :: |rounds[r].attempts| == n
  }

  function SweptOnce(intents: seq<Intent>, limit: nat, round: Round): (after: seq<Intent>)
    requires |round.attempts| == |intents|
    ensures |after| == |intents|
  {
    PublishAll(intents, Take(Waiting(intents, round.now), limit), round.attempts)
  }

  /** The table after the sweeps, one after the other. */
  function SweptRounds(intents: seq<Intent>, limit: nat, rounds: seq<Round>): (after: seq<Intent>)
    requires RoundsFit(rounds, |intents|)
    ensures |after| == |intents|
  {
    if rounds == [] then intents
    else SweptOnce(SweptRounds(intents, limit, rounds[..|rounds| - 1]), limit, rounds[|rounds| - 1])
  }

  /** The broker takes every hand-off, and the sweeps follow each other between two instants. */
  predicate Healthy(rounds: seq<Round>, start: int, end: int) {
    && start <= end
    && (forall r | 0 <= r < |rounds| :: start <= rounds[r].now <= end && forall a <- rounds[r].attempts :: a.up)
    && (forall q, r | 0 <= q < r < |rounds| :: rounds[q].now <= rounds[r].now)
  }

  /** Without rivals, time alone changes nothing about what waits. */
  lemma WaitingOverTime(intents: seq<Intent>, start: int, end: int)
    requires NoRival(intents, start) && start <= end
    ensures NoRival(intents, end) && Waiting(intents, end) == Waiting(intents, start)
  {
    var ids, ids' := Waiting(intents, start), Waiting(intents, end);
    forall i: nat | i < |intents| ensures i in ids <==> i in ids' {
      assert i in ids <==> Claimable(intents[i], start);
      assert i in ids' <==> Claimable(intents[i], end);
    }
    assert Elements(ids) == Elements(ids');
    IncreasingUnique(ids, ids');
  }

  /** How many intents so many sweeps can publish. */
  function Capacity(sweeps: nat, limit: nat): nat {
    sweeps * limit
  }

  lemma OneMoreRound(n: nat, k: nat, limit: nat)
    ensures Left(Left(n, Capacity(k, limit)), limit) == Left(n, Capacity(k + 1, limit))
  {
    assert (k + 1) * limit == k * limit + limit;
  }

  lemma NothingTaken(n: nat, limit: nat)
    ensures Left(n, Capacity(0, limit)) == n
  {
  }

  lemma LastRound(rounds: seq<Round>, n: nat, start: int, end: int)
    requires rounds != [] && RoundsFit(rounds, n) && Healthy(rounds, start, end)
    ensures var earlier, last := rounds[..|rounds| - 1], rounds[|rounds| - 1];
            && RoundsFit(earlier, n) && Healthy(earlier, start, last.now) && |last.attempts| == n
            && last.now <= end && forall a <- last.attempts :: a.up
  {
  }

  lemma {:induction false} WaitingAfterRounds(
    intents: seq<Intent>, limit: nat, rounds: seq<Round>, start: int, end: int)
    requires NoRival(intents, start) && RoundsFit(rounds, |intents|) && Healthy(rounds, start, end)
    ensures NoRival(SweptRounds(intents, limit, rounds), end)
    ensures |Waiting(SweptRounds(intents, limit, rounds), end)|
         == Left(|Waiting(intents, start)|, Capacity(|rounds|, limit))
  {
    hide Waiting, Take, PublishAll, NoRival, SweptHealthily, RoundsFit, Left, Capacity;
    if rounds == [] {
      assert start <= end;
      WaitingOverTime(intents, start, end);
      NothingTaken(|Waiting(intents, start)|, limit);
    } else {
      hide Healthy;
      LastRound(rounds, |intents|, start, end);
      var earlier, round := rounds[..|rounds| - 1], rounds[|rounds| - 1];
      WaitingAfterRounds(intents, limit, earlier, start, round.now);
      var before := SweptRounds(intents, limit, earlier);
      HealthySweep(before, round.attempts, limit, round.now);
      OneSweepDrains(before, SweptOnce(before, limit, round), limit, round.now, end);
      OneMoreRound(|Waiting(intents, start)|, |earlier|, limit);
    }
  }

  /**
   With a healthy broker and no rival claimant, after any number of sweeps n waiting intents are all published
   exactly when that number times the limit reaches n: after ceil(n / limit) rounds and not before.
   */
  lemma SweepsDrain(intents: seq<Intent>, limit: nat, rounds: seq<Round>, start: int, end: int)
    requires NoRival(intents, start) && RoundsFit(rounds, |intents|) && Healthy(rounds, start, end)
    ensures (forall i | 0 <= i < |intents| :: SweptRounds(intents, limit, rounds)[i].status.Published?)
       <==> |rounds| * limit >= |Waiting(intents, start)|
  {
    WaitingAfterRounds(intents, limit, rounds, start, end);
    var after := SweptRounds(intents, limit, rounds);
    var ids := Waiting(after, end);
    if ids != [] {
      assert Claimable(after[ids[0]], end);
    }
  }
}
