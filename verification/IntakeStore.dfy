/** The import services as they run: rows, issues and references updated in place. */
module IntakeStore {
  import opened Common
  import opened Identity
  import opened Quarantine
  import opened QuarantineLaws
  import SourceVersions

  class Store {
    var g: Registry
    var batches: seq<Batch>

    function Now(): Intake
      reads this
    {
      Intake(g, batches)
    }

    constructor (sources: set<string>)
      ensures Now() == Intake(Registry([], sources, [], map[], 0, 0), [])
    {
      g := Registry([], sources, [], map[], 0, 0);
      batches := [];
    }

    /** Resolve every reference of a row, or quarantine it at the first that fails. */
    method ResolveOrQuarantine(row: Row, batch: nat) returns (resolved: bool, kept: Row)
      modifies this`g
      ensures match FirstFailure(old(g), row.references, 0)
              case None => resolved && kept == row && g == old(g)
              case Some(k) =>
                && !resolved && g == RecordIssue(old(g), row.references[k], batch)
                && kept == row.(status := InvalidRow, errors := row.errors
                                + [Resolve(old(g).references, old(g).sources, row.references[k]).failure])
    {
      var j := 0;
      while j < |row.references|
        invariant j <= |row.references| && g == old(g)
        invariant FirstFailure(g, row.references, 0) == FirstFailure(g, row.references, j)
      {
        var resolution := Resolve(g.references, g.sources, row.references[j]);
        if resolution.NotResolved? {
          kept := row.(status := InvalidRow);
          kept := kept.(errors := row.errors + [resolution.failure]);
          OpenIssue(row.references[j], batch);
          return false, kept;
        }
        j := j + 1;
      }
      return true, row;
    }

    /** Open an issue for the reference, or reuse the one that is open. */
    method OpenIssue(key: RefKey, batch: nat)
      modifies this`g
      ensures g == RecordIssue(old(g), key, batch)
    {
      if key.source !in g.sources {
        return;
      }
      if !HasOpenIssue(g.issues, key) {
        g := g.(issues := g.issues + [Issue(key, batch, true)]);
      }
    }

    /** Promote or quarantine the valid rows of a batch, in row order. */
    method NormalizeBatch(rows: seq<Row>, batch: nat) returns (after: seq<Row>)
      modifies this`g
      ensures NormalizedAll(g, after) == NormalizeRows(old(g), rows, batch, |rows|)
    {
      after := rows;
      var k := 0;
      while k < |rows|
        invariant k <= |rows| == |after|
        invariant NormalizedAll(g, after) == NormalizeRows(old(g), rows, batch, k)
      {
        var row := after[k];
        ghost var before := g;
        if row.status == ValidRow {
          var resolved, kept := ResolveOrQuarantine(row, batch);
          if resolved {
            kept := PromoteRow(row);
          }
          after := after[k := kept];
        }
        assert NormalizedAll(g, after).rows[k] == NormalizeRow(before, row, batch).row;
        k := k + 1;
      }
    }

    /** Record the row's version and confirm its own identity. */
    method PromoteRow(row: Row) returns (kept: Row)
      modifies this`g
      ensures g == PromoteRecord(old(g), row)
      ensures kept == row.(status := if SourceVersions.Known(VersionsOf(old(g), row.record), row.content)
                                     then UnchangedRow else CommittedRow)
    {
      var versions := VersionsOf(g, row.record);
      var appended := !SourceVersions.Known(versions, row.content);
      g := g.(versions := g.versions[row.record := SourceVersions.Record(versions, row.content, g.clock)]);
      g := g.(clock := g.clock + 1);
      if Lookup(g.references, row.record) == None {
        var o := Confirm(g.references, row.record, g.nextRecord);
        g := g.(references := if o.Confirmed? then o.rows else g.references, nextRecord := g.nextRecord + 1);
      }
      kept := row.(status := if appended then CommittedRow else UnchangedRow);
    }

    /** Promote a fully validated file; anything that is not ready is refused or already done. */
    method Commit(i: nat) returns (committed: bool)
      modifies this
      ensures Now() == CommitBatch(old(Now()), i)
      ensures committed <==> i < |old(batches)| && (old(batches[i]).committed || ReadyToCommit(old(batches[i])))
    {
      if i >= |batches| {
        return false;
      }
      var b := batches[i];
      if b.committed {
        return true;
      }
      if exists k | 0 <= k < |b.rows| :: b.rows[k].status != ValidRow {
        return false;
      }
      var rows := NormalizeBatch(b.rows, i);
      batches := batches[i := b.(rows := rows, committed := true)];
      return true;
    }

    /** Re-run normalization for the rows quarantined on identity. */
    method ReprocessQuarantined(i: nat)
      requires i < |batches|
      modifies this
      ensures var all := Reprocess(old(g), old(batches[i]), i);
              g == all.g && batches == old(batches)[i := old(batches[i]).(rows := all.rows)]
    {
      var b := batches[i];
      if !b.committed {
        return;
      }
      var rows := b.rows;
      var k := 0;
      while k < |rows|
        invariant k <= |rows| == |b.rows|
        invariant forall j | 0 <= j < k :: rows[j] == Reopened(b.rows[j])
        invariant forall j | k <= j < |rows| :: rows[j] == b.rows[j]
      {
        if Retriable(rows[k]) {
          rows := rows[k := rows[k].(status := ValidRow, errors := [])];
        }
        k := k + 1;
      }
      assert rows == ReopenAll(b.rows);
      rows := NormalizeBatch(rows, i);
      batches := batches[i := b.(rows := rows)];
    }

    /** Adopt the identity a human chose, and reprocess the batch the issue names. */
    method ResolveIssueManually(i: nat, target: nat) returns (adopted: bool)
      requires i < |g.issues|
      modifies this
      ensures var o := ResolveIssue(old(Now()), i, target);
              adopted == o.Adopted? && Now() == if o.Adopted? then o.t else old(Now())
    {
      var issue := g.issues[i];
      var o := Confirm(g.references, issue.key, target);
      if o == Conflict {
        return false;
      }
      g := g.(references := o.rows);
      g := g.(issues := g.issues[i := issue.(open := false)]);
      if issue.batch < |batches| {
        ReprocessQuarantined(issue.batch);
      }
      return true;
    }
  }
}
