/**
 Rows waiting for an identity: how a committed batch promotes or quarantines its rows, and what a manual
 resolution does to them.
 */
module Quarantine {
  import opened Common
  import opened Identity
  import SourceVersions

  datatype RowStatus = ValidRow | InvalidRow | CommittedRow | UnchangedRow

  /** A row of a work-order or invoice file: the references it needs, its own record and its content. */
  datatype Row = Row(
    references: seq<RefKey>, record: RefKey, content: string, status: RowStatus, errors: seq<Failure>)

  /** The kind of the file decides which entity its own records are. */
  datatype Batch = Batch(own: EntityType, committed: bool, rows: seq<Row>)

  datatype Issue = Issue(key: RefKey, batch: nat, open: bool)

  /** Everything the normalizers share; the clock stamps each recorded version later than the last. */
  datatype Registry = Registry(
    references: seq<ReferenceRow>, sources: set<string>, issues: seq<Issue>,
    versions: map<RefKey, seq<SourceVersions.Version>>, clock: nat, nextRecord: nat)

  predicate Resolves(g: Registry, key: RefKey) {
    Resolve(g.references, g.sources, key).Resolved?
  }

  /** The references of work-order and invoice rows name other entities than the rows' own records. */
  predicate WellShaped(row: Row, own: EntityType) {
    && row.record.entity == own
    && forall key <- row.references :: key.entity != own
  }

  predicate AllWellShaped(rows: seq<Row>, own: EntityType) {
    forall k | 0 <= k < |rows| :: WellShaped(rows[k], own)
  }

  // ---------------------------------------------------------------- one row

  function FirstFailure(g: Registry, references: seq<RefKey>, from: nat): (found: Option<nat>)
    requires from <= |references|
    ensures found.Some? ==> from <= found.value < |references| && !Resolves(g, references[found.value])
    ensures forall j | from <= j < found.GetOr(|references|) :: Resolves(g, references[j])
    decreases |references| - from
  {
    if from == |references| then None
    else if !Resolves(g, references[from]) then Some(from)
    else FirstFailure(g, references, from + 1)
  }

  predicate HasOpenIssue(issues: seq<Issue>, key: RefKey) {
    exists k | 0 <= k < |issues| :: issues[k].key == key && issues[k].open
  }

  /** Open an issue for the reference unless one is open already, for any batch; none without a known source. */
  function RecordIssue(g: Registry, key: RefKey, batch: nat): Registry {
    if key.source !in g.sources || HasOpenIssue(g.issues, key) then g
    else g.(issues := g.issues + [Issue(key, batch, true)])
  }

  function VersionsOf(g: Registry, record: RefKey): seq<SourceVersions.Version> {
    if record in g.versions then g.versions[record] else []
  }

  /** Create or update the row's own record and confirm its identity. */
  function PromoteRecord(g: Registry, row: Row): Registry {
    var recorded := SourceVersions.Record(VersionsOf(g, row.record), row.content, g.clock);
    var versioned := g.(versions := g.versions[row.record := recorded], clock := g.clock + 1);
    if Lookup(g.references, row.record).Some? then versioned
    else
      var o := Confirm(g.references, row.record, g.nextRecord);
      versioned.(references := if o.Confirmed? then o.rows else g.references, nextRecord := g.nextRecord + 1)
  }

  datatype Normalized = Normalized(g: Registry, row: Row)

  function NormalizeRow(g: Registry, row: Row, batch: nat): Normalized {
    if !row.status.ValidRow? then Normalized(g, row)
    else
      match FirstFailure(g, row.references, 0)
      case Some(k) =>
        var key := row.references[k];
        var failure := Resolve(g.references, g.sources, key).failure;
        Normalized(RecordIssue(g, key, batch), row.(status := InvalidRow, errors := row.errors + [failure]))
      case None =>
        var appended := !SourceVersions.Known(VersionsOf(g, row.record), row.content);
        Normalized(PromoteRecord(g, row), row.(status := if appended then CommittedRow else UnchangedRow))
  }

  // ---------------------------------------------------------------- a batch

  datatype NormalizedAll = NormalizedAll(g: Registry, rows: seq<Row>)

  /** Normalize the first n rows, in row order. */
  function NormalizeRows(g: Registry, rows: seq<Row>, batch: nat, n: nat): (all: NormalizedAll)
    requires n <= |rows|
    ensures |all.rows| == |rows|
    ensures forall j | n <= j < |rows| :: all.rows[j] == rows[j]
  {
    if n == 0 then NormalizedAll(g, rows)
    else
      var before := NormalizeRows(g, rows, batch, n - 1);
      var one := NormalizeRow(before.g, before.rows[n - 1], batch);
      NormalizedAll(one.g, before.rows[n - 1 := one.row])
  }

  predicate IdentityFailure(f: Failure) {
    f.UnresolvedIdentity? || f.AmbiguousIdentity? || f.ConflictingCrosswalk?
  }

  /** Quarantined on nothing but identity. */
  predicate Retriable(row: Row) {
    row.status.InvalidRow? && row.errors != [] && forall f <- row.errors :: IdentityFailure(f)
  }

  function Reopened(row: Row): Row {
    if Retriable(row) then row.(status := ValidRow, errors := []) else row
  }

  function ReopenAll(rows: seq<Row>): (rows': seq<Row>)
    ensures |rows'| == |rows| && forall k | 0 <= k < |rows| :: rows'[k] == Reopened(rows[k])
  {
    seq(|rows|, k requires 0 <= k < |rows| => Reopened(rows[k]))
  }

  function Reprocess(g: Registry, b: Batch, batch: nat): NormalizedAll {
    if !b.committed then NormalizedAll(g, b.rows)
    else NormalizeRows(g, ReopenAll(b.rows), batch, |b.rows|)
  }

  // ---------------------------------------------------------------- what one row comes to

  /** The same meaning for every key of another entity. */
  ghost predicate SameElsewhere(g: Registry, h: Registry, own: EntityType) {
    && h.sources == g.sources
    && forall key: RefKey | key.entity != own :: Lookup(h.references, key) == Lookup(g.references, key)
  }

  lemma {:induction false} SameFirstFailure(
    g: Registry, h: Registry, references: seq<RefKey>, own: EntityType, from: nat)
    requires SameElsewhere(g, h, own) && from <= |references|
    requires forall key <- references :: key.entity != own
    ensures FirstFailure(h, references, from) == FirstFailure(g, references, from)
    decreases |references| - from
  {
    if from < |references| {
      assert references[from] in references;
      SameFirstFailure(g, h, references, own, from + 1);
    }
  }

  lemma NormalizeRowKeepsElsewhere(g: Registry, row: Row, batch: nat, own: EntityType)
    requires Identity.Valid(g.references) && row.record.entity == own
    ensures var one := NormalizeRow(g, row, batch);
            Identity.Valid(one.g.references) && SameElsewhere(g, one.g, own)
  {
    hide Confirm, Lookup, Identity.Valid, FirstFailure;
    ConfirmRefines(g.references, row.record, g.nextRecord);
  }

  /** What normalizing does to one row, as far as its status goes. */
  predicate SettledAs(g: Registry, row: Row, row': Row) {
    if !row.status.ValidRow? then row' == row
    else
      match FirstFailure(g, row.references, 0)
      case Some(k) =>
        row' == row.(status := InvalidRow,
                     errors := row.errors + [Resolve(g.references, g.sources, row.references[k]).failure])
      case None => row' == row.(status := CommittedRow) || row' == row.(status := UnchangedRow)
  }

  lemma NormalizeRowSettles(g: Registry, row: Row, batch: nat)
    ensures SettledAs(g, row, NormalizeRow(g, row, batch).row)
  {
  }

  lemma SettledElsewhere(g: Registry, h: Registry, row: Row, row': Row, own: EntityType)
    requires SameElsewhere(g, h, own) && WellShaped(row, own) && SettledAs(h, row, row')
    ensures SettledAs(g, row, row')
  {
    SameFirstFailure(g, h, row.references, own, 0);
    var k := FirstFailure(g, row.references, 0);
    assert k.Some? ==> row.references[k.value] in row.references;
  }

  /** Every row is settled by the references as they stood before the batch was touched. */
  lemma {:induction false} RowsSettle(g: Registry, rows: seq<Row>, batch: nat, n: nat, own: EntityType)
    requires Identity.Valid(g.references) && n <= |rows| && AllWellShaped(rows, own)
    ensures var all := NormalizeRows(g, rows, batch, n);
            && Identity.Valid(all.g.references) && SameElsewhere(g, all.g, own)
            && forall j | 0 <= j < n :: SettledAs(g, rows[j], all.rows[j])
  {
    if n > 0 {
      hide SettledAs, NormalizeRow, WellShaped;
      RowsSettle(g, rows, batch, n - 1, own);
      var before := NormalizeRows(g, rows, batch, n - 1);
      var row := before.rows[n - 1];
      assert row == rows[n - 1] && WellShaped(row, own);
      ShapeIsOwn(row, own);
      NormalizeRowKeepsElsewhere(before.g, row, batch, own);
      NormalizeRowSettles(before.g, row, batch);
      SettledElsewhere(g, before.g, row, NormalizeRow(before.g, row, batch).row, own);
      hide SameElsewhere;
      SameElsewhereTwice(g, before.g, NormalizeRow(before.g, row, batch).g, own);
    }
  }

  lemma ShapeIsOwn(row: Row, own: EntityType)
    requires WellShaped(row, own)
    ensures row.record.entity == own
  {
  }

  lemma SameElsewhereTwice(g: Registry, h: Registry, i: Registry, own: EntityType)
    requires SameElsewhere(g, h, own) && SameElsewhere(h, i, own)
    ensures SameElsewhere(g, i, own)
  {
  }

  predicate AllResolve(g: Registry, row: Row) {
    forall key <- row.references :: Resolves(g, key)
  }

  /** No row of a committed batch is left merely valid. */
  predicate Quiet(rows: seq<Row>) {
    forall k | 0 <= k < |rows| :: !rows[k].status.ValidRow?
  }

  /** A committed batch between two transactions. */
  predicate Settled(b: Batch) {
    b.committed && AllWellShaped(b.rows, b.own) && Quiet(b.rows)
  }

  /**
   After reprocessing a committed batch a row is invalid exactly when it was invalid and either carries a
   failure that is not about identity or needs a reference that does not resolve. Rows that were promoted,
   and rows with other failures, are left exactly as they were.
   */
  lemma ReprocessSettles(g: Registry, b: Batch, batch: nat, k: nat)
    requires Identity.Valid(g.references) && Settled(b) && k < |b.rows|
    ensures var row, row' := b.rows[k], Reprocess(g, b, batch).rows[k];
            && (row'.status.InvalidRow? <==> row.status.InvalidRow? && (!Retriable(row) || !AllResolve(g, row)))
            && (!Retriable(row) ==> row' == row)
            && !row'.status.ValidRow?
            && row'.references == row.references && row'.record == row.record && row'.content == row.content
    ensures var row, row' := b.rows[k], Reprocess(g, b, batch).rows[k];
            Retriable(row) && row'.status.InvalidRow? ==>
              exists j | 0 <= j < |row.references| ::
                && !Resolves(g, row.references[j])
                && row'.errors == [Resolve(g.references, g.sources, row.references[j]).failure]
  {
    var rows := ReopenAll(b.rows);
    forall j | 0 <= j < |rows| ensures WellShaped(rows[j], b.own) {
      assert WellShaped(b.rows[j], b.own);
    }
    RowsSettle(g, rows, batch, |rows|, b.own);
    var row, row' := b.rows[k], Reprocess(g, b, batch).rows[k];
    assert SettledAs(g, rows[k], row');
    hide NormalizeRows, Resolves, Resolve, ReopenAll;
    if Retriable(row) {
      var failing := FirstFailure(g, row.references, 0);
      if failing.Some? {
        assert row.references[failing.value] in row.references;
        assert row'.errors == [Resolve(g.references, g.sources, row.references[failing.value]).failure];
      } else {
        forall key <- row.references ensures Resolves(g, key) {
          var j :| 0 <= j < |row.references| && row.references[j] == key;
        }
      }
    }
  }
}
