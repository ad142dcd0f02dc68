/** Draining the quarantine: what a manual identity resolution promotes, and what it leaves behind. */
module QuarantineLaws {
  import opened Common
  import opened Identity
  import opened Quarantine
  import SourceVersions

  datatype Intake = Intake(g: Registry, batches: seq<Batch>)

  datatype ResolveOutcome = Adopted(t: Intake) | RefusedAsConflict

  /** Confirm the identity a human chose, close the issue and reprocess the batch the issue names. */
  function ResolveIssue(t: Intake, i: nat, target: nat): ResolveOutcome
    requires i < |t.g.issues|
  {
    var issue := t.g.issues[i];
    var o := Confirm(t.g.references, issue.key, target);
    if o.Conflict? then RefusedAsConflict
    else
      var g := t.g.(references := o.rows, issues := t.g.issues[i := issue.(open := false)]);
      if issue.batch >= |t.batches| then Adopted(t.(g := g))
      else
        var b := t.batches[issue.batch];
        var all := Reprocess(g, b, issue.batch);
        Adopted(Intake(all.g, t.batches[issue.batch := b.(rows := all.rows)]))
  }

  predicate ReadyToCommit(b: Batch) {
    !b.committed && forall k | 0 <= k < |b.rows| :: b.rows[k].status.ValidRow?
  }

  function CommitBatch(t: Intake, i: nat): Intake {
    if i >= |t.batches| || !ReadyToCommit(t.batches[i]) then t
    else
      var b := t.batches[i];
      var all := NormalizeRows(t.g, b.rows, i, |b.rows|);
      Intake(all.g, t.batches[i := b.(rows := all.rows, committed := true)])
  }

  // ---------------------------------------------------------------- invariant

  predicate IssuesInv(issues: seq<Issue>, sources: set<string>) {
    && "" !in sources
    && (forall i | 0 <= i < |issues| :: issues[i].key.source in sources)
    && (forall i, j | 0 <= i < j < |issues| && issues[i].open && issues[j].open :: issues[i].key != issues[j].key)
  }

  predicate BatchInv(b: Batch) {
    AllWellShaped(b.rows, b.own) && (b.committed ==> Quiet(b.rows))
  }

  predicate IssuesHaveBatches(issues: seq<Issue>, batches: seq<Batch>) {
    forall i | 0 <= i < |issues| :: issues[i].batch < |batches| && batches[issues[i].batch].committed
  }

  predicate IntakeInv(t: Intake) {
    && Identity.Valid(t.g.references)
    && IssuesInv(t.g.issues, t.g.sources)
    && IssuesHaveBatches(t.g.issues, t.batches)
    && (forall k | 0 <= k < |t.batches| :: BatchInv(t.batches[k]))
  }

  lemma NormalizeRowIssues(g: Registry, row: Row, batch: nat)
    requires IssuesInv(g.issues, g.sources)
    ensures var h := NormalizeRow(g, row, batch).g;
            && h.sources == g.sources && IssuesInv(h.issues, h.sources)
            && |g.issues| <= |h.issues| && h.issues[..|g.issues|] == g.issues
            && forall k | |g.issues| <= k < |h.issues| :: h.issues[k].batch == batch
  {
  }

  lemma {:induction false} NormalizeRowsIssues(g: Registry, rows: seq<Row>, batch: nat, n: nat)
    requires IssuesInv(g.issues, g.sources) && n <= |rows|
    ensures var h := NormalizeRows(g, rows, batch, n).g;
            && h.sources == g.sources && IssuesInv(h.issues, h.sources)
            && |g.issues| <= |h.issues| && h.issues[..|g.issues|] == g.issues
            && forall k | |g.issues| <= k < |h.issues| :: h.issues[k].batch == batch
  {
    hide NormalizeRow, IssuesInv;
    if n > 0 {
      NormalizeRowsIssues(g, rows, batch, n - 1);
      var before := NormalizeRows(g, rows, batch, n - 1);
      NormalizeRowIssues(before.g, before.rows[n - 1], batch);
      var h := NormalizeRow(before.g, before.rows[n - 1], batch).g;
      assert h.issues[..|g.issues|] == h.issues[..|before.g.issues|][..|g.issues|];
      forall k | |g.issues| <= k < |h.issues| ensures h.issues[k].batch == batch {
        if k < |before.g.issues| {
          assert h.issues[k] == h.issues[..|before.g.issues|][k];
        }
      }
    }
  }

  /** What normalizing leaves of a batch: its rows keep their shape and none is left merely valid. */
  lemma NormalizedBatch(g: Registry, b: Batch, rows: seq<Row>, batch: nat)
    requires Identity.Valid(g.references) && AllWellShaped(rows, b.own)
    ensures var all := NormalizeRows(g, rows, batch, |rows|);
            BatchInv(b.(rows := all.rows, committed := true)) && Identity.Valid(all.g.references)
  {
    RowsSettle(g, rows, batch, |rows|, b.own);
    var all := NormalizeRows(g, rows, batch, |rows|);
    hide NormalizeRows, FirstFailure;
    forall k | 0 <= k < |rows| ensures WellShaped(all.rows[k], b.own) && !all.rows[k].status.ValidRow? {
      assert SettledAs(g, rows[k], all.rows[k]) && WellShaped(rows[k], b.own);
    }
  }

  lemma BatchReplaced(t: Intake, h: Registry, i: nat, b: Batch, earlier: seq<Issue>)
    requires i < |t.batches| && (forall k | 0 <= k < |t.batches| :: BatchInv(t.batches[k]))
    requires BatchInv(b) && b.committed
    requires Identity.Valid(h.references) && IssuesInv(h.issues, h.sources)
    requires IssuesHaveBatches(earlier, t.batches) && |earlier| <= |h.issues| && h.issues[..|earlier|] == earlier
    requires forall k | |earlier| <= k < |h.issues| :: h.issues[k].batch == i
    ensures IntakeInv(Intake(h, t.batches[i := b]))
  {
    hide BatchInv, IssuesInv, Identity.Valid;
    var batches := t.batches[i := b];
    forall k | 0 <= k < |h.issues| ensures h.issues[k].batch < |batches| && batches[h.issues[k].batch].committed {
      if k < |earlier| {
        assert h.issues[k] == h.issues[..|earlier|][k] == earlier[k];
      }
    }
  }

  lemma CommitKeeps(t: Intake, i: nat)
    requires IntakeInv(t)
    ensures IntakeInv(CommitBatch(t, i))
  {
    if i < |t.batches| && ReadyToCommit(t.batches[i]) {
      var b := t.batches[i];
      assert BatchInv(b);
      NormalizedBatch(t.g, b, b.rows, i);
      NormalizeRowsIssues(t.g, b.rows, i, |b.rows|);
      var all := NormalizeRows(t.g, b.rows, i, |b.rows|);
      hide NormalizeRows, BatchInv;
      BatchReplaced(t, all.g, i, b.(rows := all.rows, committed := true), t.g.issues);
    }
  }

  lemma ReopenedShape(b: Batch)
    requires AllWellShaped(b.rows, b.own)
    ensures AllWellShaped(ReopenAll(b.rows), b.own)
  {
    forall k | 0 <= k < |b.rows| ensures WellShaped(ReopenAll(b.rows)[k], b.own) {
      assert WellShaped(b.rows[k], b.own);
    }
  }

  lemma ClosedIssue(t: Intake, i: nat)
    requires IssuesInv(t.g.issues, t.g.sources) && IssuesHaveBatches(t.g.issues, t.batches) && i < |t.g.issues|
    ensures var issues := t.g.issues[i := t.g.issues[i].(open := false)];
            IssuesInv(issues, t.g.sources) && IssuesHaveBatches(issues, t.batches)
  {
  }

  lemma ResolveKeeps(t: Intake, i: nat, target: nat)
    requires IntakeInv(t) && i < |t.g.issues|
    ensures ResolveIssue(t, i, target).Adopted? ==> IntakeInv(ResolveIssue(t, i, target).t)
  {
    var issue := t.g.issues[i];
    ConfirmRefines(t.g.references, issue.key, target);
    ClosedIssue(t, i);
    var o := Confirm(t.g.references, issue.key, target);
    if o.Confirmed? {
      var g := t.g.(references := o.rows, issues := t.g.issues[i := issue.(open := false)]);
      var b := t.batches[issue.batch];
      assert BatchInv(b);
      ReopenedShape(b);
      NormalizedBatch(g, b, ReopenAll(b.rows), issue.batch);
      NormalizeRowsIssues(g, ReopenAll(b.rows), issue.batch, |b.rows|);
      var all := Reprocess(g, b, issue.batch);
      hide NormalizeRows, BatchInv, Confirm, IssuesInv;
      BatchReplaced(t, all.g, issue.batch, b.(rows := all.rows), g.issues);
    }
  }

  // ---------------------------------------------------------------- what a resolution promotes

  /** Every reference but the resolved one already resolves. */
  predicate OnlyWaitsFor(g: Registry, row: Row, key: RefKey) {
    forall k <- row.references :: k == key || Resolves(g, k)
  }

  lemma ConfirmedKeyResolves(t: Intake, i: nat, target: nat, key: RefKey)
    requires IntakeInv(t) && i < |t.g.issues|
    requires Confirm(t.g.references, t.g.issues[i].key, target).Confirmed?
    ensures var h := t.g.(references := Confirm(t.g.references, t.g.issues[i].key, target).rows,
                          issues := t.g.issues[i := t.g.issues[i].(open := false)]);
            && Identity.Valid(h.references)
            && (Resolves(h, key) <==> key == t.g.issues[i].key || Resolves(t.g, key))
  {
    ConfirmRefines(t.g.references, t.g.issues[i].key, target);
    hide Confirm, Identity.Valid;
  }

  /**
   After a manual resolution a row of the issue's batch is invalid exactly when it was invalid and either
   carries a failure that is not about identity, or waits for another reference too. Promoted rows are not
   disturbed.
   */
  lemma ResolutionPromotes(t: Intake, i: nat, target: nat, k: nat)
    requires IntakeInv(t) && i < |t.g.issues|
    requires k < |t.batches[t.g.issues[i].batch].rows|
    ensures var o := ResolveIssue(t, i, target);
            o.Adopted? ==>
              var b := t.g.issues[i].batch;
              var row, row' := t.batches[b].rows[k], o.t.batches[b].rows[k];
              && (row'.status.InvalidRow? <==>
                    row.status.InvalidRow? && (!Retriable(row) || !OnlyWaitsFor(t.g, row, t.g.issues[i].key)))
              && (!Retriable(row) ==> row' == row)
  {
    var issue := t.g.issues[i];
    if ResolveIssue(t, i, target).Adopted? {
      var h := t.g.(references := Confirm(t.g.references, issue.key, target).rows,
                    issues := t.g.issues[i := issue.(open := false)]);
      forall key: RefKey
        ensures Identity.Valid(h.references)
        ensures Resolves(h, key) <==> key == issue.key || Resolves(t.g, key)
      {
        ConfirmedKeyResolves(t, i, target, key);
      }
      assert BatchInv(t.batches[issue.batch]);
      ReprocessSettles(h, t.batches[issue.batch], issue.batch, k);
      hide Confirm, Reprocess, Resolves, Identity.Valid, IssuesInv;
      assert AllResolve(h, t.batches[issue.batch].rows[k])
        <==> OnlyWaitsFor(t.g, t.batches[issue.batch].rows[k], issue.key);
    }
  }

  /**
   Only the batch the issue names is reprocessed. A quarantined row that waits for nothing but the resolved
   identity is promoted exactly when it lies in that batch: one issue is shared by all batches that miss the
   same identity, so the same row in another batch stays quarantined although all its references resolve.
   */
  lemma PromotedOnlyInTheIssuesBatch(t: Intake, i: nat, target: nat, c: nat, k: nat)
    requires IntakeInv(t) && i < |t.g.issues|
    requires c < |t.batches| && k < |t.batches[c].rows|
    requires Retriable(t.batches[c].rows[k]) && OnlyWaitsFor(t.g, t.batches[c].rows[k], t.g.issues[i].key)
    ensures var o := ResolveIssue(t, i, target);
            o.Adopted? ==> (!o.t.batches[c].rows[k].status.InvalidRow? <==> c == t.g.issues[i].batch)
  {
    if c == t.g.issues[i].batch {
      ResolutionPromotes(t, i, target, k);
    }
    hide Reprocess, Confirm;
  }

  // ---------------------------------------------------------------- draining

  /** Identities that quarantined rows wait for. */
  function OpenKeys(g: Registry, rows: seq<Row>): set<RefKey> {
    set k, key | 0 <= k < |rows| && Retriable(rows[k]) && key in rows[k].references && !Resolves(g, key) :: key
  }

  lemma ReprocessKeepsResolutions(g: Registry, b: Batch, batch: nat, key: RefKey)
    requires Identity.Valid(g.references) && Settled(b) && key.entity != b.own
    ensures Resolves(Reprocess(g, b, batch).g, key) <==> Resolves(g, key)
  {
    ReopenedShape(b);
    RowsSettle(g, ReopenAll(b.rows), batch, |b.rows|, b.own);
    hide NormalizeRows, Identity.Valid;
  }

  /** Each adopted resolution removes its identity from those the batch waits for, and adds none. */
  lemma ResolutionShrinksOpenKeys(t: Intake, i: nat, target: nat)
    requires IntakeInv(t) && i < |t.g.issues|
    ensures var o := ResolveIssue(t, i, target);
            var b := t.g.issues[i].batch;
            o.Adopted? ==>
              OpenKeys(o.t.g, o.t.batches[b].rows) <= OpenKeys(t.g, t.batches[b].rows) - {t.g.issues[i].key}
  {
    var issue := t.g.issues[i];
    var o := ResolveIssue(t, i, target);
    if o.Adopted? {
      var b := t.batches[issue.batch];
      var h := t.g.(references := Confirm(t.g.references, issue.key, target).rows,
                    issues := t.g.issues[i := issue.(open := false)]);
      assert BatchInv(b);
      assert Identity.Valid(h.references) by {
        ConfirmedKeyResolves(t, i, target, issue.key);
      }
      forall key, k | 0 <= k < |b.rows| && Retriable(o.t.batches[issue.batch].rows[k])
                      && key in o.t.batches[issue.batch].rows[k].references && !Resolves(o.t.g, key)
        ensures key != issue.key && key in OpenKeys(t.g, b.rows)
      {
        ReprocessSettles(h, b, issue.batch, k);
        assert WellShaped(b.rows[k], b.own);
        ReprocessKeepsResolutions(h, b, issue.batch, key);
        ConfirmedKeyResolves(t, i, target, key);
      }
    }
  }

  /** A row that is quarantined on identity after a reprocess waits for some identity. */
  lemma RetriableRowWaits(t: Intake, i: nat, target: nat, k: nat)
    requires IntakeInv(t) && i < |t.g.issues| && k < |t.batches[t.g.issues[i].batch].rows|
    requires ResolveIssue(t, i, target).Adopted?
    requires Retriable(ResolveIssue(t, i, target).t.batches[t.g.issues[i].batch].rows[k])
    ensures var u := ResolveIssue(t, i, target).t;
            var rows := u.batches[t.g.issues[i].batch].rows;
            exists key <- rows[k].references :: key in OpenKeys(u.g, rows)
  {
    var issue := t.g.issues[i];
    var u := ResolveIssue(t, i, target).t;
    var b := t.batches[issue.batch];
    var h := t.g.(references := Confirm(t.g.references, issue.key, target).rows,
                  issues := t.g.issues[i := issue.(open := false)]);
    assert BatchInv(b) && WellShaped(b.rows[k], b.own);
    ConfirmedKeyResolves(t, i, target, issue.key);
    ReprocessSettles(h, b, issue.batch, k);
    var row := b.rows[k];
    assert Retriable(row);
    var j :| 0 <= j < |row.references| && !Resolves(h, row.references[j]);
    ReprocessKeepsResolutions(h, b, issue.batch, row.references[j]);
    assert u.batches[issue.batch].rows[k].references[j] in OpenKeys(u.g, u.batches[issue.batch].rows);
  }

  /**
   After a resolution the batch waits for nothing exactly when none of its rows is quarantined on identity
   alone: what is still invalid then carries a failure no identity can cure.
   */
  lemma DrainedIffNothingRetriable(t: Intake, i: nat, target: nat)
    requires IntakeInv(t) && i < |t.g.issues| && ResolveIssue(t, i, target).Adopted?
    ensures var u := ResolveIssue(t, i, target).t;
            var rows := u.batches[t.g.issues[i].batch].rows;
            OpenKeys(u.g, rows) == {} <==> forall k | 0 <= k < |rows| :: !Retriable(rows[k])
  {
    var u := ResolveIssue(t, i, target).t;
    var rows := u.batches[t.g.issues[i].batch].rows;
    assert |rows| == |t.batches[t.g.issues[i].batch].rows|;
    forall k | 0 <= k < |rows| && Retriable(rows[k])
      ensures exists key <- rows[k].references :: key in OpenKeys(u.g, rows)
    {
      RetriableRowWaits(t, i, target, k);
    }
    hide ResolveIssue, Retriable, IntakeInv;
  }

  // ---------------------------------------------------------------- all batches together

  /** What resolved before still resolves. */
  ghost predicate KeepsResolving(g: Registry, h: Registry) {
    forall key :: Resolves(g, key) ==> Resolves(h, key)
  }

  lemma NormalizeRowKeepsResolving(g: Registry, row: Row, batch: nat)
    requires Identity.Valid(g.references)
    ensures var h := NormalizeRow(g, row, batch).g; Identity.Valid(h.references) && KeepsResolving(g, h)
  {
    hide Confirm, Lookup, Identity.Valid, FirstFailure, HasOpenIssue, SourceVersions.Record, SourceVersions.Known;
    ConfirmRefines(g.references, row.record, g.nextRecord);
    var h := NormalizeRow(g, row, batch).g;
    assert h.sources == g.sources;
    assert forall key :: Lookup(g.references, key).Some? ==> Lookup(h.references, key) == Lookup(g.references, key);
  }

  lemma {:induction false} NormalizeRowsKeepResolving(g: Registry, rows: seq<Row>, batch: nat, n: nat)
    requires Identity.Valid(g.references) && n <= |rows|
    ensures var h := NormalizeRows(g, rows, batch, n).g; Identity.Valid(h.references) && KeepsResolving(g, h)
  {
    hide NormalizeRow, Identity.Valid, Resolves;
    if n > 0 {
      NormalizeRowsKeepResolving(g, rows, batch, n - 1);
      var before := NormalizeRows(g, rows, batch, n - 1);
      NormalizeRowKeepsResolving(before.g, before.rows[n - 1], batch);
    }
  }

  /** A resolution makes its identity resolve, and unmakes none. */
  lemma ResolutionKeepsResolving(t: Intake, i: nat, target: nat)
    requires IntakeInv(t) && i < |t.g.issues|
    ensures var o := ResolveIssue(t, i, target);
            o.Adopted? ==> KeepsResolving(t.g, o.t.g) && Resolves(o.t.g, t.g.issues[i].key)
  {
    var issue := t.g.issues[i];
    if ResolveIssue(t, i, target).Adopted? {
      var h := t.g.(references := Confirm(t.g.references, issue.key, target).rows,
                    issues := t.g.issues[i := issue.(open := false)]);
      forall key ensures Identity.Valid(h.references) && (Resolves(h, key)
                                                       <==> key == issue.key || Resolves(t.g, key)) {
        ConfirmedKeyResolves(t, i, target, key);
      }
      var b := t.batches[issue.batch];
      NormalizeRowsKeepResolving(h, ReopenAll(b.rows), issue.batch, |b.rows|);
      hide Confirm, NormalizeRows, Resolves, Identity.Valid;
    }
  }

  /** Identities that quarantined rows of any batch wait for. */
  function AllOpen(t: Intake): set<RefKey> {
    set c, key | 0 <= c < |t.batches| && key in OpenKeys(t.g, t.batches[c].rows) :: key
  }

  /** Wherever rows wait for it, the resolved identity is awaited no more, and none is added anywhere. */
  lemma ResolutionShrinksEverywhere(t: Intake, i: nat, target: nat)
    requires IntakeInv(t) && i < |t.g.issues|
    ensures var o := ResolveIssue(t, i, target);
            o.Adopted? ==> AllOpen(o.t) <= AllOpen(t) - {t.g.issues[i].key}
  {
    var issue := t.g.issues[i];
    var o := ResolveIssue(t, i, target);
    if o.Adopted? {
      ResolutionShrinksOpenKeys(t, i, target);
      ResolutionKeepsResolving(t, i, target);
      assert |o.t.batches| == |t.batches|;
      assert forall c | 0 <= c < |t.batches| && c != issue.batch :: o.t.batches[c] == t.batches[c];
      hide ResolveIssue, Resolves, Retriable, IntakeInv;
      forall c, key | 0 <= c < |t.batches| && key in OpenKeys(o.t.g, o.t.batches[c].rows)
        ensures key != issue.key && key in OpenKeys(t.g, t.batches[c].rows)
      {
      }
    }
  }

  /** A request by issue and target; one that names no issue or conflicts changes nothing. */
  function Resolving(t: Intake, step: (nat, nat)): Intake {
    if step.0 >= |t.g.issues| then t
    else
      var o := ResolveIssue(t, step.0, step.1);
      if o.Adopted? then o.t else t
  }

  function ResolvingAll(t: Intake, steps: seq<(nat, nat)>): Intake
    decreases |steps|
  {
    if steps == [] then t else ResolvingAll(Resolving(t, steps[0]), steps[1..])
  }

  /** The request is adopted for an identity that some row somewhere waits for. */
  predicate Effective(t: Intake, step: (nat, nat)) {
    && step.0 < |t.g.issues|
    && t.g.issues[step.0].key in AllOpen(t)
    && ResolveIssue(t, step.0, step.1).Adopted?
  }

  function EffectiveCount(t: Intake, steps: seq<(nat, nat)>): nat
    decreases |steps|
  {
    if steps == [] then 0
    else (if Effective(t, steps[0]) then 1 else 0) + EffectiveCount(Resolving(t, steps[0]), steps[1..])
  }

  lemma SmallerBySome(before: set<RefKey>, after: set<RefKey>, key: RefKey)
    requires key in before && after <= before - {key}
    ensures |after| < |before|
  {
    assert before == after + (before - after);
    assert key in before - after;
  }

  lemma ResolvingStep(t: Intake, step: (nat, nat))
    requires IntakeInv(t)
    ensures IntakeInv(Resolving(t, step))
    ensures |AllOpen(Resolving(t, step))| + (if Effective(t, step) then 1 else 0) <= |AllOpen(t)|
  {
    if step.0 < |t.g.issues| && ResolveIssue(t, step.0, step.1).Adopted? {
      ResolveKeeps(t, step.0, step.1);
      ResolutionShrinksEverywhere(t, step.0, step.1);
      hide ResolveIssue, IntakeInv, AllOpen;
      var before, after := AllOpen(t), AllOpen(Resolving(t, step));
      if t.g.issues[step.0].key in before {
        SmallerBySome(before, after, t.g.issues[step.0].key);
      } else {
        assert before == after + (before - after);
      }
    }
  }

  /**
   Resolving comes to an end: in any sequence of requests, on issues of any batches in any order, no more
   take effect on quarantined rows than there are identities awaited at the start and no longer at the end.
   */
  lemma {:induction false} DrainingTerminates(t: Intake, steps: seq<(nat, nat)>)
    requires IntakeInv(t)
    ensures EffectiveCount(t, steps) + |AllOpen(ResolvingAll(t, steps))| <= |AllOpen(t)|
    ensures IntakeInv(ResolvingAll(t, steps))
    decreases |steps|
  {
    hide IntakeInv, AllOpen, Effective, Resolving;
    if steps != [] {
      ResolvingStep(t, steps[0]);
      DrainingTerminates(Resolving(t, steps[0]), steps[1..]);
    }
  }

  // ---------------------------------------------------------------- runs

  datatype Action =
    BatchUploaded(batch: Batch)
  | BatchCommitted(at: nat)
  | IssueResolved(at: nat, target: nat)
  | CrosswalkConfirmed(key: RefKey, target: nat)

  function Step(t: Intake, a: Action): Intake {
    match a
    case BatchUploaded(b) => if b.committed || !AllWellShaped(b.rows, b.own) then t else t.(batches := t.batches + [b])
    case BatchCommitted(i) => CommitBatch(t, i)
    case IssueResolved(i, target) =>
      if i >= |t.g.issues| then t
      else
        var o := ResolveIssue(t, i, target);
        if o.Adopted? then o.t else t
    case CrosswalkConfirmed(key, target) =>
      var o := Confirm(t.g.references, key, target);
      if o.Conflict? then t else t.(g := t.g.(references := o.rows))
  }

  function Run(t: Intake, actions: seq<Action>): Intake
    decreases |actions|
  {
    if actions == [] then t else Run(Step(t, actions[0]), actions[1..])
  }

  lemma StepKeeps(t: Intake, a: Action)
    requires IntakeInv(t)
    ensures IntakeInv(Step(t, a))
  {
    match a
    case BatchUploaded(b) =>
    case BatchCommitted(i) => CommitKeeps(t, i);
    case IssueResolved(i, target) =>
      if i < |t.g.issues| {
        ResolveKeeps(t, i, target);
      }
    case CrosswalkConfirmed(key, target) => ConfirmRefines(t.g.references, key, target);
  }

  lemma {:induction false} RunKeeps(t: Intake, actions: seq<Action>)
    requires IntakeInv(t)
    ensures IntakeInv(Run(t, actions))
    decreases |actions|
  {
    hide IntakeInv, Step;
    if actions != [] {
      StepKeeps(t, actions[0]);
      RunKeeps(Step(t, actions[0]), actions[1..]);
    }
  }

  /** Whatever is imported, confirmed or resolved, each key has at most one open issue and keeps its first target. */
  lemma OneOpenIssuePerKey(sources: set<string>, actions: seq<Action>, i: nat, j: nat)
    requires "" !in sources
    requires var t := Run(Intake(Registry([], sources, [], map[], 0, 0), []), actions);
             && i < |t.g.issues| && j < |t.g.issues| && t.g.issues[i].open && t.g.issues[j].open
             && t.g.issues[i].key == t.g.issues[j].key
    ensures i == j
  {
    RunKeeps(Intake(Registry([], sources, [], map[], 0, 0), []), actions);
    hide Run;
  }

  // ---------------------------------------------------------------- a stranded row

  const MISSING := RefKey("operations", CustomerEntity, "C-1")

  function InvoiceRow(id: string, status: RowStatus, errors: seq<Failure>): Row {
    Row([MISSING], RefKey("accounting", InvoiceEntity, id), "posted", status, errors)
  }

  function InvoiceFile(id: string, committed: bool, status: RowStatus, errors: seq<Failure>): Batch {
    Batch(InvoiceEntity, committed, [InvoiceRow(id, status, errors)])
  }

  const NO_ROWS := Registry([], {"operations"}, [], map[], 0, 0)

  lemma CommitOfOneRow(t: Intake, i: nat, id: string)
    requires i < |t.batches| && t.batches[i] == InvoiceFile(id, false, ValidRow, [])
    requires !Resolves(t.g, MISSING)
    requires t.g.sources == {"operations"} && t.g.references == []
    ensures CommitBatch(t, i)
         == Intake(RecordIssue(t.g, MISSING, i),
                    t.batches[i := InvoiceFile(id, true, InvalidRow, [UnresolvedIdentity])])
  {
    var rows := t.batches[i].rows;
    assert NormalizeRows(t.g, rows, i, 0).rows == rows;
    assert FirstFailure(t.g, rows[0].references, 0) == Some(0);
    var one := NormalizeRow(t.g, rows[0], i);
    assert one.row == InvoiceRow(id, InvalidRow, [UnresolvedIdentity]);
    assert rows[0 := one.row] == [one.row];
  }

  /**
   Two files miss the same customer. They share one issue, so resolving it promotes the row of the first
   file; the second file keeps its row quarantined with every reference resolved and no issue left open.
   */
  lemma SharedIssueStrandsRow(target: nat)
    ensures var t := Run(Intake(NO_ROWS, []),
                         [BatchUploaded(InvoiceFile("I-1", false, ValidRow, [])),
                          BatchUploaded(InvoiceFile("I-2", false, ValidRow, [])),
                          BatchCommitted(0), BatchCommitted(1), IssueResolved(0, target)]);
            && |t.batches| == 2 && |t.batches[1].rows| == 1
            && Retriable(t.batches[1].rows[0]) && AllResolve(t.g, t.batches[1].rows[0])
            && forall i | 0 <= i < |t.g.issues| :: !t.g.issues[i].open
  {
    var first, second := InvoiceFile("I-1", false, ValidRow, []), InvoiceFile("I-2", false, ValidRow, []);
    var actions := [
      BatchUploaded(first), BatchUploaded(second), BatchCommitted(0), BatchCommitted(1), IssueResolved(0, target)];
    var uploaded := Intake(NO_ROWS, [first, second]);
    assert AllWellShaped(first.rows, InvoiceEntity) && AllWellShaped(second.rows, InvoiceEntity);
    assert Step(Step(Intake(NO_ROWS, []), actions[0]), actions[1]) == uploaded;
    CommitOfOneRow(uploaded, 0, "I-1");
    var one := CommitBatch(uploaded, 0);
    assert one.g.issues[0] == Issue(MISSING, 0, true) && HasOpenIssue(one.g.issues, MISSING);
    CommitOfOneRow(one, 1, "I-2");
    var two := CommitBatch(one, 1);
    assert two.g.issues == [Issue(MISSING, 0, true)];
    StrandedAfter(two, target);
    hide Step, CommitBatch;
    RunOfFive(Intake(NO_ROWS, []), actions);
  }

  lemma RunOfFive(t: Intake, actions: seq<Action>)
    requires |actions| == 5
    ensures Run(t, actions)
         == Step(Step(Step(Step(Step(t, actions[0]), actions[1]), actions[2]), actions[3]), actions[4])
  {
    hide Step;
    var t1 := Step(t, actions[0]);
    var t2 := Step(t1, actions[1]);
    var t3 := Step(t2, actions[2]);
    var t4 := Step(t3, actions[3]);
    assert actions[1..][1..] == actions[2..] && actions[2..][1..] == actions[3..] && actions[3..][1..] == actions[4..];
    assert actions[4..][1..] == [];
    assert Run(t1, actions[1..]) == Run(t2, actions[2..]);
    assert Run(t2, actions[2..]) == Run(t3, actions[3..]);
    assert Run(t3, actions[3..]) == Run(t4, actions[4..]);
    assert Run(t4, actions[4..]) == Step(t4, actions[4]);
  }

  lemma StrandedAfter(t: Intake, target: nat)
    requires t.g.issues == [Issue(MISSING, 0, true)] && t.g.references == [] && t.g.sources == {"operations"}
    requires t.batches == [InvoiceFile("I-1", true, InvalidRow, [UnresolvedIdentity]),
                           InvoiceFile("I-2", true, InvalidRow, [UnresolvedIdentity])]
    ensures var u := Step(t, IssueResolved(0, target));
            && |u.batches| == 2 && u.batches[1] == t.batches[1]
            && Retriable(u.batches[1].rows[0]) && AllResolve(u.g, u.batches[1].rows[0])
            && forall i | 0 <= i < |u.g.issues| :: !u.g.issues[i].open
  {
    var g := t.g.(references := [ReferenceRow(MISSING, ConfirmedMapping, Some(target))],
                  issues := [Issue(MISSING, 0, false)]);
    assert Confirm(t.g.references, MISSING, target) == Confirmed(g.references);
    assert t.g.issues[0 := Issue(MISSING, 0, false)] == g.issues;
    assert Resolves(g, MISSING);
    var rows := ReopenAll(t.batches[0].rows);
    assert rows == [InvoiceRow("I-1", ValidRow, [])];
    NothingOpens(g, rows[0]);
    var all := Reprocess(g, t.batches[0], 0);
    assert all == NormalizeRows(g, rows, 0, 1);
  }

  /** A row whose references resolve opens no issue, and every reference still resolves afterwards. */
  lemma NothingOpens(g: Registry, row: Row)
    requires row == InvoiceRow("I-1", ValidRow, []) && Identity.Valid(g.references) && Resolves(g, MISSING)
    ensures var all := NormalizeRows(g, [row], 0, 1);
            all.g.issues == g.issues && Resolves(all.g, MISSING) && all.g.sources == g.sources
  {
    assert FirstFailure(g, row.references, 0) == None;
    ConfirmRefines(g.references, row.record, g.nextRecord);
    var one := NormalizeRow(g, row, 0);
    assert one.g.issues == g.issues;
    hide Confirm;
    assert NormalizeRows(g, [row], 0, 0) == NormalizedAll(g, [row]);
  }
}
