/** The lease that lets one worker at a time evaluate a manifest: claim, heartbeat, persist, fail. */
module DetectorLease {
  import opened Common

  const LEASE_SECONDS := 300

  /** The unique evaluation key of a run row. */
  datatype EvaluationKey = EvaluationKey(organization: nat, run: nat, detector: nat, ruleVersion: nat, manifest: nat)

  datatype RunStatus = Running | Succeeded | Failed

  /** An owner identifier is minted for every claim. */
  datatype DetectorRun = DetectorRun(
    status: RunStatus, owner: nat, leasedUntil: int, heartbeatAt: int, attempts: nat, finishedAt: Option<int>)

  type Table = map<EvaluationKey, DetectorRun>

  datatype ClaimOutcome = Granted(rows: Table) | AlreadySucceeded | HeldElsewhere

  predicate Reclaimable(row: DetectorRun, now: int) {
    row.status.Failed? || (row.status.Running? && row.leasedUntil < now)
  }

  function Claim(rows: Table, key: EvaluationKey, owner: nat, now: int): ClaimOutcome {
    if key !in rows then
      Granted(rows[key := DetectorRun(Running, owner, now + LEASE_SECONDS, now, 1, None)])
    else
      var row := rows[key];
      if Reclaimable(row, now) then
        Granted(rows[key := DetectorRun(Running, owner, now + LEASE_SECONDS, now, row.attempts + 1, None)])
      else if row.status.Succeeded? then AlreadySucceeded
      else HeldElsewhere
  }

  /** None stands for NotLeaseOwner: nothing was written. */
  function Heartbeat(rows: Table, key: EvaluationKey, owner: nat, now: int): Option<Table> {
    if key in rows && rows[key].owner == owner && rows[key].status.Running?
    then Some(rows[key := rows[key].(heartbeatAt := now, leasedUntil := now + LEASE_SECONDS)])
    else None
  }

  function Persist(rows: Table, key: EvaluationKey, owner: nat, now: int): Option<Table> {
    if key in rows && rows[key].owner == owner && rows[key].status.Running?
    then Some(rows[key := rows[key].(status := Succeeded, finishedAt := Some(now))])
    else None
  }

  /** Only the owner is checked: a finished run can still be failed by the worker that finished it. */
  function Fail(rows: Table, key: EvaluationKey, owner: nat, now: int): Option<Table> {
    if key in rows && rows[key].owner == owner
    then Some(rows[key := rows[key].(status := Failed, finishedAt := Some(now))])
    else None
  }

  /**
   How a claim is answered, by the row it finds; a granted one leaves the row running for 300 seconds under the new
   owner, one attempt on, and touches no other row.
   */
  lemma ClaimAnswers(rows: Table, key: EvaluationKey, owner: nat, now: int)
    ensures var o := Claim(rows, key, owner, now);
            && (o.Granted? <==>
                  || key !in rows
                  || rows[key].status.Failed?
                  || (rows[key].status.Running? && rows[key].leasedUntil < now))
            && (o.AlreadySucceeded? <==> key in rows && rows[key].status.Succeeded?)
            && (o.HeldElsewhere? <==> key in rows && rows[key].status.Running? && now <= rows[key].leasedUntil)
            && (o.Granted? ==>
                  var attempts := if key in rows then rows[key].attempts + 1 else 1;
                  o.rows == rows[key := DetectorRun(Running, owner, now + 300, now, attempts, None)])
  {
  }

  /** What the holder of a run may do: extend it and finish it while it runs; fail it at any time. */
  lemma HolderMay(rows: Table, key: EvaluationKey, owner: nat, now: int)
    ensures var holds := key in rows && rows[key].owner == owner;
            && (Heartbeat(rows, key, owner, now).Some? <==> holds && rows[key].status.Running?)
            && (Persist(rows, key, owner, now).Some? <==> holds && rows[key].status.Running?)
            && (Fail(rows, key, owner, now).Some? <==> holds)
    ensures key in rows ==>
              var row := rows[key];
              && (Heartbeat(rows, key, owner, now).Some? ==>
                    Heartbeat(rows, key, owner, now).value
                    == rows[key := DetectorRun(Running, owner, now + 300, now, row.attempts, row.finishedAt)])
              && (Persist(rows, key, owner, now).Some? ==>
                    Persist(rows, key, owner, now).value
                    == rows[key := DetectorRun(
                         Succeeded, owner, row.leasedUntil, row.heartbeatAt, row.attempts, Some(now))])
              && (Fail(rows, key, owner, now).Some? ==>
                    Fail(rows, key, owner, now).value
                    == rows[key := DetectorRun(
                         Failed, owner, row.leasedUntil, row.heartbeatAt, row.attempts, Some(now))])
  {
  }

  class RunTable {
    var rows: Table

    constructor ()
      ensures rows == map[]
    {
      rows := map[];
    }

    method ClaimRun(key: EvaluationKey, owner: nat, now: int) returns (outcome: ClaimOutcome)
      modifies this
      ensures outcome == Claim(old(rows), key, owner, now)
      ensures rows == if outcome.Granted? then outcome.rows else old(rows)
    {
      var until := now + LEASE_SECONDS;
      if key !in rows {
        rows := rows[key := DetectorRun(Running, owner, until, now, 1, None)];
        return Granted(rows);
      }
      var row := rows[key];
      if (row.status == Running && row.leasedUntil < now) || row.status == Failed {
        row := row.(status := Running, finishedAt := None);
        row := row.(owner := owner, leasedUntil := until, heartbeatAt := now);
        row := row.(attempts := row.attempts + 1);
        rows := rows[key := row];
        return Granted(rows);
      }
      return if row.status == Succeeded then AlreadySucceeded else HeldElsewhere;
    }

    method HeartbeatRun(key: EvaluationKey, owner: nat, now: int) returns (held: bool)
      modifies this
      ensures held == Heartbeat(old(rows), key, owner, now).Some?
      ensures rows == Heartbeat(old(rows), key, owner, now).GetOr(old(rows))
    {
      if key !in rows || rows[key].owner != owner || rows[key].status != Running {
        return false;
      }
      rows := rows[key := rows[key].(heartbeatAt := now, leasedUntil := now + LEASE_SECONDS)];
      return true;
    }

    method PersistRun(key: EvaluationKey, owner: nat, now: int) returns (committed: bool)
      modifies this
      ensures committed == Persist(old(rows), key, owner, now).Some?
      ensures rows == Persist(old(rows), key, owner, now).GetOr(old(rows))
    {
      if key !in rows {
        return false;
      }
      var locked := rows[key];
      if locked.owner != owner || locked.status != Running {
        return false;
      }
      locked := locked.(status := Succeeded);
      locked := locked.(finishedAt := Some(now));
      rows := rows[key := locked];
      return true;
    }

    method FailRun(key: EvaluationKey, owner: nat, now: int) returns (recorded: bool)
      modifies this
      ensures recorded == Fail(old(rows), key, owner, now).Some?
      ensures rows == Fail(old(rows), key, owner, now).GetOr(old(rows))
    {
      if key !in rows || rows[key].owner != owner {
        return false;
      }
      rows := rows[key := rows[key].(status := Failed, finishedAt := Some(now))];
      return true;
    }
  }
}
