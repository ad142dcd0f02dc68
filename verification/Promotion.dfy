/** What promoting a row does to the shared registry, and that every promoted row stays recorded over all runs. */
module Promotion {
  import opened Common
  import opened Identity
  import opened Quarantine
  import opened QuarantineLaws
  import SourceVersions

  // ---------------------------------------------------------------- one row

  /** The content is among the recorded versions of the record. */
  predicate Listed(g: Registry, record: RefKey, content: string) {
    record in g.versions && content in SourceVersions.Contents(g.versions[record])
  }

  lemma ListedIsKnown(g: Registry, record: RefKey, content: string)
    ensures SourceVersions.Known(VersionsOf(g, record), content) <==> Listed(g, record, content)
  {
    SourceVersions.KnownMeansListed(VersionsOf(g, record), content);
    hide SourceVersions.Known;
  }

  /**
   A row that needs a reference which does not resolve is quarantined under the failure of the first such reference; an
   issue for it is open afterwards when its source is known, and references and versions are untouched.
   */
  lemma BlockedRow(g: Registry, row: Row, batch: nat, k: nat)
    requires row.status.ValidRow? && k < |row.references| && !Resolves(g, row.references[k])
    requires forall j | 0 <= j < k :: Resolves(g, row.references[j])
    ensures var one, key := NormalizeRow(g, row, batch), row.references[k];
            && one.row == row.(status := InvalidRow,
                               errors := row.errors + [Resolve(g.references, g.sources, key).failure])
            && one.g == g.(issues := one.g.issues)
            && (key.source in g.sources ==> HasOpenIssue(one.g.issues, key))
            && (one.g.issues == g.issues || one.g.issues == g.issues + [Issue(key, batch, true)])
            && (one.g.issues == g.issues <==> key.source !in g.sources || HasOpenIssue(g.issues, key))
  {
    var found := FirstFailure(g, row.references, 0);
    assert found == Some(k);
    var one, key := NormalizeRow(g, row, batch), row.references[k];
    if one.g.issues != g.issues {
      assert one.g.issues[|g.issues|] == Issue(key, batch, true);
    }
  }

  /**
   A row whose references all resolve is promoted: its record keeps its target or gets a new one, every other identity
   stays as it was, its content is among the record's versions, and the status says whether it was new.
   */
  lemma PromotedRow(g: Registry, row: Row, batch: nat)
    requires Identity.Valid(g.references) && row.status.ValidRow? && AllResolve(g, row)
    ensures var one := NormalizeRow(g, row, batch);
            && one.row == row.(status := if Listed(g, row.record, row.content) then UnchangedRow
                                         else CommittedRow)
            && one.g.issues == g.issues && one.g.sources == g.sources && Identity.Valid(one.g.references)
            && Lookup(one.g.references, row.record)
               == (if Lookup(g.references, row.record).Some? then Lookup(g.references, row.record)
                   else Some(g.nextRecord))
            && (forall key: RefKey | key != row.record :: Lookup(one.g.references, key) == Lookup(g.references, key))
            && one.g.versions == g.versions[row.record :=
                 SourceVersions.Record(VersionsOf(g, row.record), row.content, g.clock)]
            && one.g.clock == g.clock + 1
            && one.g.nextRecord == g.nextRecord + (if Lookup(g.references, row.record).Some? then 0 else 1)
            && Listed(one.g, row.record, row.content)
  {
    assert FirstFailure(g, row.references, 0).None?;
    ConfirmRefines(g.references, row.record, g.nextRecord);
    ListedIsKnown(g, row.record, row.content);
    RecordLists(VersionsOf(g, row.record), row.content, g.clock);
    hide Identity.Valid, Lookup, Confirm, FirstFailure, Resolves, SourceVersions.Known, SourceVersions.Record;
  }

  lemma RecordLists(versions: seq<SourceVersions.Version>, content: string, now: int)
    ensures var recorded := SourceVersions.Record(versions, content, now);
            && content in SourceVersions.Contents(recorded)
            && forall c <- SourceVersions.Contents(versions) :: c in SourceVersions.Contents(recorded)
  {
    var recorded := SourceVersions.Record(versions, content, now);
    SourceVersions.KnownMeansListed(versions, content);
    if recorded != versions {
      assert SourceVersions.Contents(recorded)[|versions|] == content;
      forall c <- SourceVersions.Contents(versions) ensures c in SourceVersions.Contents(recorded) {
        var k :| 0 <= k < |versions| && SourceVersions.Contents(versions)[k] == c;
        assert SourceVersions.Contents(recorded)[k] == c;
      }
    }
  }

  /** A batch that has not committed has nothing to reprocess. */
  lemma OnlyCommittedIsReprocessed(g: Registry, b: Quarantine.Batch, batch: nat)
    requires !b.committed
    ensures Reprocess(g, b, batch) == NormalizedAll(g, b.rows)
  {
  }

  /** Quarantined rows are reopened exactly when identity is all that was wrong with them. */
  lemma ReopenedIff(row: Row)
    ensures var identityOnly := row.errors != [] && forall f <- row.errors ::
                                  f == UnresolvedIdentity || f == AmbiguousIdentity || f == ConflictingCrosswalk;
            && Reopened(row) == (if row.status == InvalidRow && identityOnly
                                 then row.(status := ValidRow, errors := []) else row)
            && (Retriable(row) <==> row.status == InvalidRow && identityOnly)
  {
  }

  // ---------------------------------------------------------------- every promoted row

  predicate Promoted(row: Row) {
    row.status.CommittedRow? || row.status.UnchangedRow?
  }

  predicate Recorded(g: Registry, row: Row) {
    Lookup(g.references, row.record).Some? && Listed(g, row.record, row.content)
  }

  /** Identities and contents are only added. */
  ghost predicate Grows(g: Registry, h: Registry) {
    && (forall key: RefKey | Lookup(g.references, key).Some? :: Lookup(h.references, key) == Lookup(g.references, key))
    && (forall record, content | Listed(g, record, content) :: Listed(h, record, content))
  }

  lemma GrowsTwice(g: Registry, h: Registry, i: Registry)
    requires Grows(g, h) && Grows(h, i)
    ensures Grows(g, i)
  {
    hide Listed;
  }

  lemma StaysRecorded(g: Registry, h: Registry, row: Row)
    requires Grows(g, h) && Recorded(g, row)
    ensures Recorded(h, row)
  {
    hide Listed, Lookup;
  }

  /** Normalizing one row only adds, and records the row when it promotes it. */
  lemma RowGrows(g: Registry, row: Row, batch: nat)
    requires Identity.Valid(g.references)
    ensures var one := NormalizeRow(g, row, batch);
            && Grows(g, one.g) && Identity.Valid(one.g.references)
            && one.row.record == row.record && one.row.content == row.content
            && (row.status.ValidRow? && Promoted(one.row) ==> Recorded(one.g, one.row))
            && (!row.status.ValidRow? ==> one.row == row)
  {
    var found := FirstFailure(g, row.references, 0);
    if row.status.ValidRow? {
      if found.Some? {
        BlockedRow(g, row, batch, found.value);
        hide NormalizeRow, HasOpenIssue;
      } else {
        forall key <- row.references ensures Resolves(g, key) {
          var j :| 0 <= j < |row.references| && row.references[j] == key;
        }
        PromotedRow(g, row, batch);
        hide NormalizeRow, Lookup, SourceVersions.Record, Identity.Valid;
        PromotedGrows(g, row, NormalizeRow(g, row, batch).g);
      }
    }
  }

  lemma PromotedGrows(g: Registry, row: Row, h: Registry)
    requires h.versions == g.versions[row.record :=
                             SourceVersions.Record(VersionsOf(g, row.record), row.content, g.clock)]
    requires forall key: RefKey | key != row.record :: Lookup(h.references, key) == Lookup(g.references, key)
    requires Lookup(g.references, row.record).Some? ==>
               Lookup(h.references, row.record) == Lookup(g.references, row.record)
    ensures Grows(g, h)
  {
    RecordLists(VersionsOf(g, row.record), row.content, g.clock);
    hide Lookup, SourceVersions.Record, SourceVersions.Contents;
  }

  lemma {:induction false} RowsGrow(g: Registry, rows: seq<Row>, batch: nat, n: nat)
    requires Identity.Valid(g.references) && n <= |rows|
    ensures var all := NormalizeRows(g, rows, batch, n);
            && Grows(g, all.g) && Identity.Valid(all.g.references)
            && (forall j | 0 <= j < n ::
                  && (rows[j].status.ValidRow? && Promoted(all.rows[j]) ==> Recorded(all.g, all.rows[j]))
                  && (!rows[j].status.ValidRow? ==> all.rows[j] == rows[j]))
  {
    if n > 0 {
      RowsGrow(g, rows, batch, n - 1);
      var before := NormalizeRows(g, rows, batch, n - 1);
      var one := NormalizeRow(before.g, before.rows[n - 1], batch);
      RowGrows(before.g, before.rows[n - 1], batch);
      GrowsTwice(g, before.g, one.g);
      hide Grows, Recorded, NormalizeRow, Identity.Valid, Promoted;
      var all := NormalizeRows(g, rows, batch, n);
      forall j | 0 <= j < n
        ensures rows[j].status.ValidRow? && Promoted(all.rows[j]) ==> Recorded(all.g, all.rows[j])
        ensures !rows[j].status.ValidRow? ==> all.rows[j] == rows[j]
      {
        if j < n - 1 && rows[j].status.ValidRow? && Promoted(all.rows[j]) {
          StaysRecorded(before.g, all.g, all.rows[j]);
        }
      }
    }
  }

  predicate BatchRecorded(g: Registry, b: Quarantine.Batch) {
    b.committed ==> forall k | 0 <= k < |b.rows| && Promoted(b.rows[k]) :: Recorded(g, b.rows[k])
  }

  predicate AllRecorded(t: Intake) {
    forall c | 0 <= c < |t.batches| :: BatchRecorded(t.g, t.batches[c])
  }

  lemma BatchStays(g: Registry, h: Registry, b: Quarantine.Batch)
    requires Grows(g, h) && BatchRecorded(g, b)
    ensures BatchRecorded(h, b)
  {
    hide Grows, Recorded, Promoted;
    if b.committed {
      forall k | 0 <= k < |b.rows| && Promoted(b.rows[k]) ensures Recorded(h, b.rows[k]) {
        StaysRecorded(g, h, b.rows[k]);
      }
    }
  }

  /** Replacing one batch by a recorded one, in a registry that only grew. */
  lemma OthersStay(t: Intake, h: Registry, i: nat, b: Quarantine.Batch)
    requires AllRecorded(t) && Grows(t.g, h) && i < |t.batches| && BatchRecorded(h, b)
    ensures AllRecorded(Intake(h, t.batches[i := b]))
  {
    hide Grows, BatchRecorded;
    var batches := t.batches[i := b];
    forall c | 0 <= c < |batches| ensures BatchRecorded(h, batches[c]) {
      if c != i {
        BatchStays(t.g, h, t.batches[c]);
      }
    }
  }

  lemma CommitRecords(t: Intake, i: nat)
    requires IntakeInv(t) && AllRecorded(t)
    ensures AllRecorded(CommitBatch(t, i))
  {
    if i < |t.batches| && ReadyToCommit(t.batches[i]) {
      var b := t.batches[i];
      RowsGrow(t.g, b.rows, i, |b.rows|);
      var all := NormalizeRows(t.g, b.rows, i, |b.rows|);
      hide Grows, Recorded, Promoted, NormalizeRows;
      OthersStay(t, all.g, i, b.(rows := all.rows, committed := true));
    }
  }

  lemma ConfirmGrows(g: Registry, key: RefKey, target: nat)
    requires Identity.Valid(g.references) && Confirm(g.references, key, target).Confirmed?
    ensures Grows(g, g.(references := Confirm(g.references, key, target).rows))
  {
    ConfirmRefines(g.references, key, target);
    hide Lookup, Confirm, Identity.Valid;
  }

  /** Closing an issue changes neither identities nor contents. */
  lemma IssuesDoNotMatter(g: Registry, h: Registry)
    requires h.references == g.references && h.versions == g.versions
    ensures Grows(g, h)
  {
  }

  lemma ResolutionRecords(t: Intake, i: nat, target: nat)
    requires IntakeInv(t) && AllRecorded(t) && i < |t.g.issues|
    ensures var o := ResolveIssue(t, i, target); o.Adopted? ==> AllRecorded(o.t)
  {
    var issue := t.g.issues[i];
    var o := Confirm(t.g.references, issue.key, target);
    if o.Confirmed? {
      var confirmed := t.g.(references := o.rows);
      var g := confirmed.(issues := t.g.issues[i := issue.(open := false)]);
      ConfirmRefines(t.g.references, issue.key, target);
      ConfirmGrows(t.g, issue.key, target);
      IssuesDoNotMatter(confirmed, g);
      hide Confirm, Identity.Valid, NormalizeRows, BatchInv;
      GrowsTwice(t.g, confirmed, g);
      var b := t.batches[issue.batch];
      ReprocessRecords(t.g, g, b, issue.batch);
      hide Reprocess, Grows;
      var all := Reprocess(g, b, issue.batch);
      OthersStay(t, all.g, issue.batch, b.(rows := all.rows));
    }
  }

  lemma ReprocessRecords(g: Registry, h: Registry, b: Quarantine.Batch, batch: nat)
    requires Identity.Valid(h.references) && Grows(g, h) && BatchRecorded(g, b) && b.committed && Quiet(b.rows)
    ensures var all := Reprocess(h, b, batch); Grows(g, all.g) && BatchRecorded(all.g, b.(rows := all.rows))
  {
    var rows := ReopenAll(b.rows);
    RowsGrow(h, rows, batch, |rows|);
    var all := NormalizeRows(h, rows, batch, |rows|);
    GrowsTwice(g, h, all.g);
    hide Grows, Recorded, NormalizeRows, Identity.Valid;
    forall k | 0 <= k < |all.rows| && Promoted(all.rows[k]) ensures Recorded(all.g, all.rows[k]) {
      if !rows[k].status.ValidRow? {
        assert rows[k] == b.rows[k];
        StaysRecorded(g, all.g, b.rows[k]);
      }
    }
  }

  lemma RecordStep(t: Intake, a: Action)
    requires IntakeInv(t) && AllRecorded(t)
    ensures AllRecorded(Step(t, a))
  {
    match a
    case BatchUploaded(b) =>
      hide Recorded, Promoted, BatchInv, IssuesInv;
    case BatchCommitted(i) => CommitRecords(t, i);
    case IssueResolved(i, target) =>
      if i < |t.g.issues| {
        ResolutionRecords(t, i, target);
      }
      hide ResolveIssue, IntakeInv, AllRecorded;
    case CrosswalkConfirmed(key, target) =>
      if Confirm(t.g.references, key, target).Confirmed? {
        ConfirmGrows(t.g, key, target);
        var h := t.g.(references := Confirm(t.g.references, key, target).rows);
        hide Confirm, Grows, BatchRecorded, Identity.Valid;
        forall c | 0 <= c < |t.batches| ensures BatchRecorded(h, t.batches[c]) {
          BatchStays(t.g, h, t.batches[c]);
        }
      }
  }

  lemma {:induction false} RecordRun(t: Intake, actions: seq<Action>)
    requires IntakeInv(t) && AllRecorded(t)
    ensures AllRecorded(Run(t, actions))
    decreases |actions|
  {
    if actions != [] {
      RecordStep(t, actions[0]);
      StepKeeps(t, actions[0]);
      hide IntakeInv, AllRecorded, Step;
      RecordRun(Step(t, actions[0]), actions[1..]);
    }
  }

  /**
   Over every sequence of uploads, commits, resolutions and confirmations, each promoted row of each committed batch has
   a canonical record, and its content is among the versions of that record: nothing promoted is ever lost.
   */
  lemma PromotedRowsStayRecorded(sources: set<string>, actions: seq<Action>, c: nat, k: nat)
    requires "" !in sources
    requires var t := Run(Intake(Registry([], sources, [], map[], 0, 0), []), actions);
             && c < |t.batches| && t.batches[c].committed
             && k < |t.batches[c].rows| && Promoted(t.batches[c].rows[k])
    ensures var t := Run(Intake(Registry([], sources, [], map[], 0, 0), []), actions);
            var row := t.batches[c].rows[k];
            Lookup(t.g.references, row.record).Some? && Listed(t.g, row.record, row.content)
  {
    RecordRun(Intake(Registry([], sources, [], map[], 0, 0), []), actions);
    hide Run, Lookup, Listed;
    assert BatchRecorded(Run(Intake(Registry([], sources, [], map[], 0, 0), []), actions).g,
                         Run(Intake(Registry([], sources, [], map[], 0, 0), []), actions).batches[c]);
  }

  // ---------------------------------------------------------------- every history

  predicate HistoryKept(versions: seq<SourceVersions.Version>, clock: nat) {
    && SourceVersions.Chained(versions) && SourceVersions.Ordered(versions)
    && forall k | 0 <= k < |versions| :: versions[k].importedAt < clock
  }

  /** Every record's versions form one chain in import order, all before now. */
  predicate Histories(g: Registry) {
    forall record <- g.versions :: HistoryKept(g.versions[record], g.clock)
  }

  lemma HistoryGrows(versions: seq<SourceVersions.Version>, content: string, clock: nat)
    requires HistoryKept(versions, clock)
    ensures HistoryKept(SourceVersions.Record(versions, content, clock), clock + 1)
  {
    SourceVersions.RecordExtendsChain(versions, content, clock);
    hide SourceVersions.Record, SourceVersions.Contents;
  }

  lemma RowHistories(g: Registry, row: Row, batch: nat)
    requires Histories(g)
    ensures Histories(NormalizeRow(g, row, batch).g)
  {
    HistoryGrows(VersionsOf(g, row.record), row.content, g.clock);
    hide SourceVersions.Record, SourceVersions.Chained, SourceVersions.Ordered, Confirm, Lookup, FirstFailure,
         HasOpenIssue;
  }

  lemma {:induction false} RowsHistories(g: Registry, rows: seq<Row>, batch: nat, n: nat)
    requires Histories(g) && n <= |rows|
    ensures Histories(NormalizeRows(g, rows, batch, n).g)
  {
    hide NormalizeRow, Histories;
    if n > 0 {
      RowsHistories(g, rows, batch, n - 1);
      var before := NormalizeRows(g, rows, batch, n - 1);
      RowHistories(before.g, before.rows[n - 1], batch);
    }
  }

  lemma StepHistories(t: Intake, a: Action)
    requires Histories(t.g)
    ensures Histories(Step(t, a).g)
  {
    hide NormalizeRows, Confirm, HistoryKept;
    match a
    case BatchUploaded(b) =>
    case BatchCommitted(i) =>
      if i < |t.batches| {
        RowsHistories(t.g, t.batches[i].rows, i, |t.batches[i].rows|);
      }
    case IssueResolved(i, target) =>
      if i < |t.g.issues| && t.g.issues[i].batch < |t.batches| {
        var o := Confirm(t.g.references, t.g.issues[i].key, target);
        if o.Confirmed? {
          var g := t.g.(references := o.rows, issues := t.g.issues[i := t.g.issues[i].(open := false)]);
          var rows := ReopenAll(t.batches[t.g.issues[i].batch].rows);
          RowsHistories(g, rows, t.g.issues[i].batch, |rows|);
        }
      }
    case CrosswalkConfirmed(key, target) =>
  }

  lemma {:induction false} RunHistories(t: Intake, actions: seq<Action>)
    requires Histories(t.g)
    ensures Histories(Run(t, actions).g)
    decreases |actions|
  {
    if actions != [] {
      StepHistories(t, actions[0]);
      hide Histories, Step;
      RunHistories(Step(t, actions[0]), actions[1..]);
    }
  }

  /** Over every run, whatever files say about a record forms one unbranched chain of versions in import order. */
  lemma IntakeKeepsChains(sources: set<string>, actions: seq<Action>, record: RefKey)
    requires record in Run(Intake(Registry([], sources, [], map[], 0, 0), []), actions).g.versions
    ensures var g := Run(Intake(Registry([], sources, [], map[], 0, 0), []), actions).g;
            SourceVersions.Chained(g.versions[record]) && SourceVersions.Ordered(g.versions[record])
  {
    var start := Intake(Registry([], sources, [], map[], 0, 0), []);
    RunHistories(start, actions);
    assert HistoryKept(Run(start, actions).g.versions[record], Run(start, actions).g.clock);
    hide Run, SourceVersions.Chained, SourceVersions.Ordered;
  }
}
