/** Validating an uploaded file: repeated identifiers, row counts and readiness. */
module Upload {
  import opened Common

  datatype Kind = SitesContracts | EntityCrosswalk | WorkOrdersServiceEvents | InvoiceStatusFile

  datatype ErrorCode = UnknownColumn | ConflictingDuplicate | DuplicateExternalIdInFile | OtherCode(code: string)

  /** An unknown column only warns. */
  predicate IsWarning(e: ErrorCode) {
    e.UnknownColumn?
  }

  /** A parsed row with the errors that parsing and the file's contract found in it. */
  datatype ParsedRow = ParsedRow(data: map<string, string>, errors: seq<ErrorCode>)

  function Cell(row: ParsedRow, column: string): string {
    if column in row.data then row.data[column] else ""
  }

  function IdentityColumn(kind: Kind): string {
    match kind
    case SitesContracts => "service_obligation_external_id"
    case EntityCrosswalk => "alias_external_id"
    case WorkOrdersServiceEvents => "record_external_id"
    case InvoiceStatusFile => "invoice_external_id"
  }

  /** The columns on which repeats of one identifier must agree; None when repeats are not allowed. */
  function ComparisonColumns(kind: Kind): Option<seq<string>> {
    if kind.InvoiceStatusFile? then
      Some(["invoice_external_id", "customer_external_id", "site_external_id", "service_date", "invoice_reference",
            "invoice_amount", "invoiced_at", "invoice_status", "currency"])
    else None
  }

  /** The hash is injective, so what is hashed stands for it. */
  datatype Fingerprint = OnColumns(cells: seq<string>) | WholeRow(data: map<string, string>)

  function Cells(row: ParsedRow, columns: seq<string>): (cells: seq<string>)
    ensures |cells| == |columns| && forall k | 0 <= k < |columns| :: cells[k] == Cell(row, columns[k])
  {
    seq(|columns|, k requires 0 <= k < |columns| => Cell(row, columns[k]))
  }

  function FingerprintOf(kind: Kind, row: ParsedRow): Fingerprint {
    match ComparisonColumns(kind)
    case Some(columns) => OnColumns(Cells(row, columns))
    case None => WholeRow(row.data)
  }

  function Id(kind: Kind, row: ParsedRow): string {
    Cell(row, IdentityColumn(kind))
  }

  predicate Blocking(errors: seq<ErrorCode>) {
    exists e <- errors :: !IsWarning(e)
  }

  // ---------------------------------------------------------------- which rows are accepted

  /** The first row before k with the same identifier. */
  function FirstWith(kind: Kind, rows: seq<ParsedRow>, id: string, k: nat): (found: Option<nat>)
    requires k <= |rows|
    ensures found.Some? ==> found.value < k && Id(kind, rows[found.value]) == id
    ensures forall j | 0 <= j < found.GetOr(k) :: Id(kind, rows[j]) != id
  {
    if k == 0 then None
    else
      var earlier := FirstWith(kind, rows, id, k - 1);
      if earlier.Some? then earlier
      else if Id(kind, rows[k - 1]) == id then Some(k - 1)
      else None
  }

  /** What repeating an identifier adds to a row's errors. */
  function DuplicateErrors(kind: Kind, rows: seq<ParsedRow>, k: nat): seq<ErrorCode>
    requires k < |rows|
  {
    var id := Id(kind, rows[k]);
    if id == "" then []
    else
      match FirstWith(kind, rows, id, k)
      case None => []
      case Some(j) =>
        if FingerprintOf(kind, rows[j]) != FingerprintOf(kind, rows[k]) then [ConflictingDuplicate]
        else if ComparisonColumns(kind).None? then [DuplicateExternalIdInFile]
        else []
  }

  function RowErrors(kind: Kind, rows: seq<ParsedRow>, k: nat): seq<ErrorCode>
    requires k < |rows|
  {
    rows[k].errors + DuplicateErrors(kind, rows, k)
  }

  predicate Accepted(kind: Kind, rows: seq<ParsedRow>, k: nat)
    requires k < |rows|
  {
    !Blocking(RowErrors(kind, rows, k))
  }

  lemma AcceptedMeans(kind: Kind, rows: seq<ParsedRow>, k: nat)
    requires k < |rows|
    ensures Accepted(kind, rows, k) <==> !Blocking(rows[k].errors) && DuplicateErrors(kind, rows, k) == []
  {
    var duplicates := DuplicateErrors(kind, rows, k);
    if duplicates != [] {
      assert !IsWarning(duplicates[0]) && duplicates[0] in RowErrors(kind, rows, k);
    }
    if Blocking(rows[k].errors) {
      var e :| e in rows[k].errors && !IsWarning(e);
      assert e in RowErrors(kind, rows, k);
    }
  }

  /** Agreement on every compared column. */
  predicate Agree(kind: Kind, a: ParsedRow, b: ParsedRow) {
    ComparisonColumns(kind).Some? && forall c <- ComparisonColumns(kind).value :: Cell(a, c) == Cell(b, c)
  }

  lemma FingerprintMeansAgreement(kind: Kind, a: ParsedRow, b: ParsedRow)
    requires ComparisonColumns(kind).Some?
    ensures FingerprintOf(kind, a) == FingerprintOf(kind, b) <==> Agree(kind, a, b)
  {
    var columns := ComparisonColumns(kind).value;
    if FingerprintOf(kind, a) == FingerprintOf(kind, b) {
      forall c <- columns ensures Cell(a, c) == Cell(b, c) {
        var k :| 0 <= k < |columns| && columns[k] == c;
        assert Cells(a, columns)[k] == Cells(b, columns)[k];
      }
    }
    if Agree(kind, a, b) {
      forall k | 0 <= k < |columns| ensures Cells(a, columns)[k] == Cells(b, columns)[k] {
        assert columns[k] in columns;
      }
      assert Cells(a, columns) == Cells(b, columns);
    }
  }

  /** What a row of the file calls its record. */
  function NameOf(kind: Kind, row: ParsedRow): string {
    match kind
    case SitesContracts => Cell(row, "service_obligation_external_id")
    case EntityCrosswalk => Cell(row, "alias_external_id")
    case WorkOrdersServiceEvents => Cell(row, "record_external_id")
    case InvoiceStatusFile => Cell(row, "invoice_external_id")
  }

  /** What a row of an invoice file says about the invoice itself; the rest is about a payment. */
  const INVOICE_CELLS := ["invoice_external_id", "customer_external_id", "site_external_id", "service_date",
    "invoice_reference", "invoice_amount", "invoiced_at", "invoice_status", "currency"]

  predicate SameInvoice(a: ParsedRow, b: ParsedRow) {
    forall c <- INVOICE_CELLS :: Cell(a, c) == Cell(b, c)
  }

  /** Two rows may stand in one file: an identifier is repeated only by invoice rows about the same invoice. */
  predicate Compatible(kind: Kind, a: ParsedRow, b: ParsedRow) {
    NameOf(kind, a) == NameOf(kind, b) && NameOf(kind, a) != "" ==> kind == InvoiceStatusFile && SameInvoice(a, b)
  }

  lemma AgreeMeans(kind: Kind, a: ParsedRow, b: ParsedRow)
    ensures Id(kind, a) == NameOf(kind, a)
    ensures Agree(kind, a, b) <==> kind == InvoiceStatusFile && SameInvoice(a, b)
  {
    hide Cell;
    assert kind == InvoiceStatusFile ==> ComparisonColumns(kind) == Some(INVOICE_CELLS);
  }

  lemma NoDuplicateErrors(kind: Kind, rows: seq<ParsedRow>, k: nat)
    requires k < |rows|
    ensures var first := FirstWith(kind, rows, Id(kind, rows[k]), k);
            DuplicateErrors(kind, rows, k) == []
            <==> (Id(kind, rows[k]) == "" || first.None? || Agree(kind, rows[first.value], rows[k]))
  {
    var first := FirstWith(kind, rows, Id(kind, rows[k]), k);
    if first.Some? && ComparisonColumns(kind).Some? {
      FingerprintMeansAgreement(kind, rows[first.value], rows[k]);
    }
  }

  lemma FirstIsShared(kind: Kind, rows: seq<ParsedRow>, j: nat, k: nat)
    requires j < k < |rows| && Id(kind, rows[j]) == Id(kind, rows[k])
    ensures FirstWith(kind, rows, Id(kind, rows[k]), k).Some?
    ensures var first := FirstWith(kind, rows, Id(kind, rows[k]), k).value;
            first <= j && (first < j ==> FirstWith(kind, rows, Id(kind, rows[j]), j) == Some(first))
  {
    var first := FirstWith(kind, rows, Id(kind, rows[k]), k).value;
    if first < j {
      var g := FirstWith(kind, rows, Id(kind, rows[j]), j);
      assert g.Some? && g.value == first;
    }
  }

  /**
   Accepted rows that share an identifier agree on every compared column; in files without compared columns
   accepted identifiers are pairwise distinct.
   */
  lemma AcceptedRowsAgree(kind: Kind, rows: seq<ParsedRow>, j: nat, k: nat)
    requires j < k < |rows| && Accepted(kind, rows, j) && Accepted(kind, rows, k)
    ensures Compatible(kind, rows[j], rows[k])
  {
    AgreeMeans(kind, rows[j], rows[k]);
    AgreeMeans(kind, rows[k], rows[k]);
    AcceptedMeans(kind, rows, j);
    AcceptedMeans(kind, rows, k);
    NoDuplicateErrors(kind, rows, j);
    NoDuplicateErrors(kind, rows, k);
    if Id(kind, rows[j]) == Id(kind, rows[k]) && Id(kind, rows[k]) != "" {
      FirstIsShared(kind, rows, j, k);
      var first := FirstWith(kind, rows, Id(kind, rows[k]), k).value;
      AgreeMeans(kind, rows[first], rows[j]);
      AgreeMeans(kind, rows[first], rows[k]);
    }
    hide NameOf, SameInvoice, Agree, DuplicateErrors, FirstWith;
  }

  predicate AllAccepted(kind: Kind, rows: seq<ParsedRow>) {
    forall k | 0 <= k < |rows| :: Accepted(kind, rows, k)
  }

  /**
   A file is ready exactly when no row has a blocking error of its own and every two rows may stand together;
   so readiness does not depend on the order of the rows.
   */
  lemma ReadyIff(kind: Kind, rows: seq<ParsedRow>)
    ensures AllAccepted(kind, rows)
       <==> && (forall k, e | 0 <= k < |rows| && e in rows[k].errors :: e == UnknownColumn)
            && (forall j, k | 0 <= j < k < |rows| :: Compatible(kind, rows[j], rows[k]))
  {
    forall k | 0 <= k < |rows| ensures Accepted(kind, rows, k) ==> !Blocking(rows[k].errors) {
      AcceptedMeans(kind, rows, k);
    }
    forall j, k | 0 <= j < k < |rows| && Accepted(kind, rows, j) && Accepted(kind, rows, k)
      ensures Compatible(kind, rows[j], rows[k])
    {
      AcceptedRowsAgree(kind, rows, j, k);
    }
    hide Accepted, Compatible;
    if (forall k, e | 0 <= k < |rows| && e in rows[k].errors :: e == UnknownColumn)
       && (forall j, k | 0 <= j < k < |rows| :: Compatible(kind, rows[j], rows[k])) {
      forall k | 0 <= k < |rows| ensures Accepted(kind, rows, k) {
        CompatibleIsAccepted(kind, rows, k);
      }
    }
  }

  lemma CompatibleIsAccepted(kind: Kind, rows: seq<ParsedRow>, k: nat)
    requires k < |rows| && forall e <- rows[k].errors :: e == UnknownColumn
    requires forall j | 0 <= j < k :: Compatible(kind, rows[j], rows[k])
    ensures Accepted(kind, rows, k)
  {
    AcceptedMeans(kind, rows, k);
    NoDuplicateErrors(kind, rows, k);
    var first := FirstWith(kind, rows, Id(kind, rows[k]), k);
    if first.Some? {
      AgreeMeans(kind, rows[first.value], rows[k]);
      AgreeMeans(kind, rows[k], rows[k]);
    }
    hide NameOf, SameInvoice, Agree, DuplicateErrors, FirstWith, Accepted;
  }

  /**
   The error a repeated identifier earns: none for the first row that carries it; a conflict when the row says something
   else than that first row; a plain repetition when it says the same in a file whose records stand on one row.
   */
  lemma DuplicateErrorsMean(kind: Kind, rows: seq<ParsedRow>, k: nat)
    requires k < |rows|
    ensures var errors := DuplicateErrors(kind, rows, k);
            var name := NameOf(kind, rows[k]);
            if name == "" || forall j | 0 <= j < k :: NameOf(kind, rows[j]) != name then errors == []
            else
              exists j: nat ::
                && j < k && NameOf(kind, rows[j]) == name
                && (forall i | 0 <= i < j :: NameOf(kind, rows[i]) != name)
                && errors == (if kind == InvoiceStatusFile then
                                if SameInvoice(rows[j], rows[k]) then [] else [ConflictingDuplicate]
                              else if rows[j].data == rows[k].data then [DuplicateExternalIdInFile]
                              else [ConflictingDuplicate])
  {
    forall j | 0 <= j <= k ensures Id(kind, rows[j]) == NameOf(kind, rows[j]) {
      AgreeMeans(kind, rows[j], rows[j]);
    }
    var first := FirstWith(kind, rows, Id(kind, rows[k]), k);
    if first.Some? {
      AgreeMeans(kind, rows[first.value], rows[k]);
      if kind == InvoiceStatusFile {
        FingerprintMeansAgreement(kind, rows[first.value], rows[k]);
      }
    }
    hide NameOf, SameInvoice, Agree, Id, FirstWith;
  }

  // ---------------------------------------------------------------- as it runs

  datatype ImportRow = ImportRow(valid: bool, errors: seq<ErrorCode>)

  datatype BatchSummary = BatchSummary(rows: seq<ImportRow>, total: nat, valid: nat, invalid: nat, ready: bool)

  function ValidCount(rows: seq<ImportRow>): nat {
    if rows == [] then 0 else ValidCount(rows[..|rows| - 1]) + if rows[|rows| - 1].valid then 1 else 0
  }

  lemma {:induction false} ValidCountBound(rows: seq<ImportRow>)
    ensures ValidCount(rows) <= |rows|
    ensures ValidCount(rows) == |rows| <==> forall k | 0 <= k < |rows| :: rows[k].valid
  {
    if rows != [] {
      ValidCountBound(rows[..|rows| - 1]);
    }
  }

  /** The dictionary of identifiers seen, each with the fingerprint of its first row. */
  ghost predicate Seen(kind: Kind, rows: seq<ParsedRow>, k: nat, seen: map<string, Fingerprint>)
    requires k <= |rows|
  {
    forall id: string :: SeenAt(kind, rows, k, seen, id)
  }

  predicate SeenAt(kind: Kind, rows: seq<ParsedRow>, k: nat, seen: map<string, Fingerprint>, id: string)
    requires k <= |rows|
  {
    var first := FirstWith(kind, rows, id, k);
    && (id in seen <==> id != "" && first.Some?)
    && (id in seen ==> seen[id] == FingerprintOf(kind, rows[first.value]))
  }

  /** The dictionary after a row. */
  function SeenNext(kind: Kind, row: ParsedRow, seen: map<string, Fingerprint>): map<string, Fingerprint> {
    var id := Id(kind, row);
    if id == "" || id in seen then seen else seen[id := FingerprintOf(kind, row)]
  }

  /** The errors the dictionary gives a row. */
  function SeenErrors(kind: Kind, row: ParsedRow, seen: map<string, Fingerprint>): seq<ErrorCode> {
    var id := Id(kind, row);
    if id == "" || id !in seen then []
    else if seen[id] != FingerprintOf(kind, row) then [ConflictingDuplicate]
    else if ComparisonColumns(kind).None? then [DuplicateExternalIdInFile]
    else []
  }

  lemma SeenGrows(kind: Kind, rows: seq<ParsedRow>, k: nat, seen: map<string, Fingerprint>)
    requires k < |rows| && Seen(kind, rows, k, seen)
    ensures Seen(kind, rows, k + 1, SeenNext(kind, rows[k], seen))
  {
    var now, next := k + 1, SeenNext(kind, rows[k], seen);
    forall id: string ensures SeenAt(kind, rows, now, next, id) {
      SeenGrowsAt(kind, rows, k, seen, id);
    }
    hide SeenNext, SeenAt;
  }

  lemma SeenGrowsAt(kind: Kind, rows: seq<ParsedRow>, k: nat, seen: map<string, Fingerprint>, id: string)
    requires k < |rows| && SeenAt(kind, rows, k, seen, id) && SeenAt(kind, rows, k, seen, Id(kind, rows[k]))
    ensures SeenAt(kind, rows, k + 1, SeenNext(kind, rows[k], seen), id)
  {
    hide FingerprintOf, Id;
  }

  /** The dictionary gives a row exactly the error its repeated identifier deserves. */
  lemma SeenTells(kind: Kind, rows: seq<ParsedRow>, k: nat, seen: map<string, Fingerprint>)
    requires k < |rows| && Seen(kind, rows, k, seen)
    ensures SeenErrors(kind, rows[k], seen) == DuplicateErrors(kind, rows, k)
  {
    assert SeenAt(kind, rows, k, seen, Id(kind, rows[k]));
    hide FingerprintOf, ComparisonColumns, Id;
  }

  /** One row against the dictionary: its errors, and the dictionary afterwards. */
  method ValidateRow(kind: Kind, row: ParsedRow, seen: map<string, Fingerprint>)
    returns (errors: seq<ErrorCode>, seen': map<string, Fingerprint>)
    ensures errors == row.errors + SeenErrors(kind, row, seen)
    ensures seen' == SeenNext(kind, row, seen)
  {
    errors, seen' := row.errors, seen;
    var id := Id(kind, row);
    if id != "" {
      var fingerprint := FingerprintOf(kind, row);
      if id in seen {
        if seen[id] != fingerprint {
          errors := errors + [ConflictingDuplicate];
        } else if ComparisonColumns(kind) == None {
          errors := errors + [DuplicateExternalIdInFile];
        }
      } else {
        seen' := seen[id := fingerprint];
      }
    }
  }

  method ValidateRows(kind: Kind, parsed: seq<ParsedRow>) returns (summary: BatchSummary)
    ensures |summary.rows| == |parsed|
    ensures forall k | 0 <= k < |parsed| ::
              summary.rows[k] == ImportRow(Accepted(kind, parsed, k), RowErrors(kind, parsed, k))
    ensures summary.total == |parsed| == summary.valid + summary.invalid
    ensures summary.valid == ValidCount(summary.rows)
    ensures summary.ready <==> AllAccepted(kind, parsed)
  {
    hide Blocking, Seen, SeenNext, SeenErrors, DuplicateErrors, AllAccepted;
    var seen: map<string, Fingerprint> := map[];
    var rows: seq<ImportRow> := [];
    var validCount: nat := 0;
    NothingSeen(kind, parsed);
    var k := 0;
    while k < |parsed|
      invariant k <= |parsed| && |rows| == k
      invariant Seen(kind, parsed, k, seen)
      invariant forall j | 0 <= j < k :: rows[j] == ImportRow(Accepted(kind, parsed, j), RowErrors(kind, parsed, j))
      invariant validCount == ValidCount(rows) <= k
    {
      SeenGrows(kind, parsed, k, seen);
      SeenTells(kind, parsed, k, seen);
      var errors;
      errors, seen := ValidateRow(kind, parsed[k], seen);
      var valid := !Blocking(errors);
      if valid {
        validCount := validCount + 1;
      }
      ghost var before := rows;
      rows := rows + [ImportRow(valid, errors)];
      assert rows[..|rows| - 1] == before;
      k := k + 1;
    }
    ValidCountBound(rows);
    AllAcceptedMeans(kind, parsed, rows);
    summary := BatchSummary(rows, |rows|, validCount, |rows| - validCount, validCount == |rows|);
  }

  lemma AllAcceptedMeans(kind: Kind, parsed: seq<ParsedRow>, rows: seq<ImportRow>)
    requires |rows| == |parsed|
    requires forall k | 0 <= k < |rows| :: rows[k] == ImportRow(Accepted(kind, parsed, k), RowErrors(kind, parsed, k))
    ensures AllAccepted(kind, parsed) <==> forall k | 0 <= k < |rows| :: rows[k].valid
  {
    hide Accepted, RowErrors;
  }

  lemma NothingSeen(kind: Kind, rows: seq<ParsedRow>)
    ensures Seen(kind, rows, 0, map[])
  {
  }
}
