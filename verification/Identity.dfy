/** Cross-source identity: a table of reference rows that stands for a partial map to canonical records. */
module Identity {
  import opened Common

  datatype EntityType =
    CustomerEntity | SiteEntity | ContractEntity | ObligationEntity | WorkOrderEntity | InvoiceEntity | PaymentEntity

  /** What a source file calls a record. */
  datatype RefKey = RefKey(source: string, entity: EntityType, externalId: string)

  datatype MappingStatus = UnresolvedMapping | ConfirmedMapping | RejectedMapping | SupersededMapping

  datatype ReferenceRow = ReferenceRow(key: RefKey, status: MappingStatus, target: Option<nat>)

  predicate Current(row: ReferenceRow, key: RefKey) {
    row.key == key && !row.status.SupersededMapping?
  }

  predicate IsConfirmed(row: ReferenceRow, key: RefKey) {
    row.key == key && row.status.ConfirmedMapping?
  }

  /** The table's constraints: one current row per key, and a target exactly on confirmed current rows. */
  predicate Valid(rows: seq<ReferenceRow>) {
    && (forall i, j | 0 <= i < j < |rows| && Current(rows[j], rows[i].key) :: rows[i].status.SupersededMapping?)
    && (forall i | 0 <= i < |rows| ::
          && (rows[i].status.ConfirmedMapping? ==> rows[i].target.Some?)
          && (rows[i].status.UnresolvedMapping? || rows[i].status.RejectedMapping? ==> rows[i].target.None?))
  }

  /** The partial map the table stands for. */
  function Lookup(rows: seq<ReferenceRow>, key: RefKey): Option<nat> {
    if rows == [] then None
    else
      var last := rows[|rows| - 1];
      if IsConfirmed(last, key) then last.target else Lookup(rows[..|rows| - 1], key)
  }

  datatype Failure =
    MissingReferenceSourceSystem | SourceNamespaceUnknown | UnresolvedIdentity | AmbiguousIdentity
  | ConflictingCrosswalk | OtherFailure

  datatype Resolution = Resolved(target: nat) | NotResolved(failure: Failure)

  /** What resolving a reference means. */
  function Resolve(rows: seq<ReferenceRow>, sources: set<string>, key: RefKey): Resolution {
    if key.source == "" then NotResolved(MissingReferenceSourceSystem)
    else if key.source !in sources then NotResolved(SourceNamespaceUnknown)
    else
      match Lookup(rows, key)
      case Some(target) => Resolved(target)
      case None => NotResolved(UnresolvedIdentity)
  }

  datatype Confirmation = Confirmed(rows: seq<ReferenceRow>) | Conflict

  function FirstCurrent(rows: seq<ReferenceRow>, key: RefKey, from: nat): (found: Option<nat>)
    requires from <= |rows|
    ensures found.Some? ==> from <= found.value < |rows| && Current(rows[found.value], key)
    ensures forall j | from <= j < found.GetOr(|rows|) :: !Current(rows[j], key)
    decreases |rows| - from
  {
    if from == |rows| then None
    else if Current(rows[from], key) then Some(from)
    else FirstCurrent(rows, key, from + 1)
  }

  /** Create or update the confirmed mapping; a different confirmed target is refused, never remapped. */
  function Confirm(rows: seq<ReferenceRow>, key: RefKey, target: nat): Confirmation {
    match FirstCurrent(rows, key, 0)
    case Some(i) =>
      if rows[i].status.ConfirmedMapping? then
        if rows[i].target == Some(target) then Confirmed(rows) else Conflict
      else Confirmed(rows[i := ReferenceRow(key, ConfirmedMapping, Some(target))])
    case None => Confirmed(rows + [ReferenceRow(key, ConfirmedMapping, Some(target))])
  }

  // ---------------------------------------------------------------- the table is a function

  /** Any confirmed row decides the lookup. */
  lemma {:induction false} LookupAt(rows: seq<ReferenceRow>, key: RefKey, i: nat)
    requires Valid(rows) && i < |rows| && IsConfirmed(rows[i], key)
    ensures Lookup(rows, key) == rows[i].target
  {
    var last := |rows| - 1;
    if i != last {
      assert !Current(rows[last], rows[i].key);
      assert Valid(rows[..last]) && rows[..last][i] == rows[i];
      LookupAt(rows[..last], key, i);
    }
  }

  lemma {:induction false} LookupNone(rows: seq<ReferenceRow>, key: RefKey)
    requires forall i | 0 <= i < |rows| :: !IsConfirmed(rows[i], key)
    ensures Lookup(rows, key) == None
  {
    if rows != [] {
      LookupNone(rows[..|rows| - 1], key);
    }
  }

  /** A confirmed mapping is the only one for its key: the ambiguous branch can never be taken. */
  lemma AtMostOneConfirmed(rows: seq<ReferenceRow>, key: RefKey, i: nat, j: nat)
    requires Valid(rows) && i < |rows| && j < |rows|
    requires IsConfirmed(rows[i], key) && IsConfirmed(rows[j], key)
    ensures i == j
  {
    if i < j {
      assert Current(rows[j], rows[i].key);
    } else if j < i {
      assert Current(rows[i], rows[j].key);
    }
  }

  /** The table's answer: the target of the confirmed row for the key. */
  lemma {:induction false} LookupMeans(rows: seq<ReferenceRow>, key: RefKey)
    requires Valid(rows)
    ensures Lookup(rows, key).Some? <==>
              exists i | 0 <= i < |rows| :: rows[i].key == key && rows[i].status == ConfirmedMapping
    ensures forall i | 0 <= i < |rows| && rows[i].key == key && rows[i].status == ConfirmedMapping ::
              Lookup(rows, key) == rows[i].target
  {
    hide Valid;
    forall i | 0 <= i < |rows| && IsConfirmed(rows[i], key) ensures Lookup(rows, key) == rows[i].target {
      LookupAt(rows, key, i);
    }
    if i :| 0 <= i < |rows| && IsConfirmed(rows[i], key) {
      ConfirmedHasTarget(rows, i);
    } else {
      LookupNone(rows, key);
    }
  }

  lemma ConfirmedHasTarget(rows: seq<ReferenceRow>, i: nat)
    requires Valid(rows) && i < |rows| && rows[i].status == ConfirmedMapping
    ensures rows[i].target.Some?
  {
  }

  /** A reference resolves to a target exactly when a known source's confirmed row says so; how it fails otherwise. */
  lemma ResolveIff(rows: seq<ReferenceRow>, sources: set<string>, key: RefKey, target: nat)
    requires Valid(rows)
    ensures var answer := Resolve(rows, sources, key);
            && (answer == Resolved(target) <==>
                  && key.source != "" && key.source in sources
                  && exists i | 0 <= i < |rows| ::
                       rows[i].key == key && rows[i].status == ConfirmedMapping && rows[i].target == Some(target))
            && (answer == NotResolved(MissingReferenceSourceSystem) <==> key.source == "")
            && (answer == NotResolved(SourceNamespaceUnknown) <==> key.source != "" && key.source !in sources)
            && (answer == NotResolved(UnresolvedIdentity) <==>
                  && key.source != "" && key.source in sources
                  && forall i | 0 <= i < |rows| :: !(rows[i].key == key && rows[i].status == ConfirmedMapping))
  {
    LookupMeans(rows, key);
    hide Lookup, Valid;
  }

  lemma ReplaceKeepsValid(rows: seq<ReferenceRow>, i: nat, key: RefKey, target: nat)
    requires Valid(rows) && i < |rows| && Current(rows[i], key)
    ensures Valid(rows[i := ReferenceRow(key, ConfirmedMapping, Some(target))])
  {
    var rows' := rows[i := ReferenceRow(key, ConfirmedMapping, Some(target))];
    forall a, b | 0 <= a < b < |rows'| && Current(rows'[b], rows'[a].key) ensures rows'[a].status.SupersededMapping? {
      assert Current(rows[b], rows[a].key);
    }
  }

  lemma {:induction false} LookupAgrees(rows: seq<ReferenceRow>, rows': seq<ReferenceRow>, key: RefKey)
    requires Valid(rows) && Valid(rows') && |rows| <= |rows'|
    requires forall i | 0 <= i < |rows| ::
               rows[i] == rows'[i] || (!IsConfirmed(rows[i], key) && !IsConfirmed(rows'[i], key))
    requires forall i | |rows| <= i < |rows'| :: !IsConfirmed(rows'[i], key)
    ensures Lookup(rows', key) == Lookup(rows, key)
  {
    if i: nat :| i < |rows| && IsConfirmed(rows[i], key) {
      LookupAt(rows, key, i);
      LookupAt(rows', key, i);
    } else {
      LookupNone(rows, key);
      LookupNone(rows', key);
    }
  }

  /**
   A confirmation extends the map by one entry, leaves it unchanged, or is refused; it is refused exactly
   when the key is already mapped elsewhere. The table stays valid.
   */
  lemma ConfirmRefines(rows: seq<ReferenceRow>, key: RefKey, target: nat)
    requires Valid(rows)
    ensures var o := Confirm(rows, key, target);
            && (o.Conflict? <==> Lookup(rows, key).Some? && Lookup(rows, key).value != target)
            && (o.Confirmed? ==>
                  && Valid(o.rows)
                  && Lookup(o.rows, key) == Some(target)
                  && forall k: RefKey | k != key :: Lookup(o.rows, k) == Lookup(rows, k))
  {
    var found := FirstCurrent(rows, key, 0);
    if found.None? {
      LookupNone(rows, key);
      ConfirmAppends(rows, key, target);
    } else if rows[found.value].status.ConfirmedMapping? {
      LookupAt(rows, key, found.value);
    } else {
      ConfirmReplaces(rows, key, target, found.value);
    }
    hide Valid, Lookup, FirstCurrent;
  }

  lemma ConfirmAppends(rows: seq<ReferenceRow>, key: RefKey, target: nat)
    requires Valid(rows) && forall j | 0 <= j < |rows| :: !Current(rows[j], key)
    ensures var after := rows + [ReferenceRow(key, ConfirmedMapping, Some(target))];
            && Valid(after) && Lookup(after, key) == Some(target)
            && forall k: RefKey | k != key :: Lookup(after, k) == Lookup(rows, k)
  {
    var after := rows + [ReferenceRow(key, ConfirmedMapping, Some(target))];
    assert Valid(after);
    LookupAt(after, key, |rows|);
    forall k: RefKey | k != key ensures Lookup(after, k) == Lookup(rows, k) {
      LookupAgrees(rows, after, k);
    }
  }

  lemma ConfirmReplaces(rows: seq<ReferenceRow>, key: RefKey, target: nat, i: nat)
    requires Valid(rows) && i < |rows| && Current(rows[i], key) && !rows[i].status.ConfirmedMapping?
    requires forall j | 0 <= j < i :: !Current(rows[j], key)
    ensures var after := rows[i := ReferenceRow(key, ConfirmedMapping, Some(target))];
            && Lookup(rows, key) == None && Valid(after) && Lookup(after, key) == Some(target)
            && forall k: RefKey | k != key :: Lookup(after, k) == Lookup(rows, k)
  {
    var after := rows[i := ReferenceRow(key, ConfirmedMapping, Some(target))];
    forall j | 0 <= j < |rows| ensures !IsConfirmed(rows[j], key) {
      if i < j {
        assert !Current(rows[j], rows[i].key);
      }
    }
    LookupNone(rows, key);
    ReplaceKeepsValid(rows, i, key, target);
    LookupAt(after, key, i);
    forall k: RefKey | k != key ensures Lookup(after, k) == Lookup(rows, k) {
      LookupAgrees(rows, after, k);
    }
  }

  // ---------------------------------------------------------------- any sequence of confirmations

  datatype Confirming = Confirming(key: RefKey, target: nat)

  function ConfirmAll(rows: seq<ReferenceRow>, requests: seq<Confirming>): seq<ReferenceRow>
    decreases |requests|
  {
    if requests == [] then rows
    else
      var o := Confirm(rows, requests[0].key, requests[0].target);
      ConfirmAll(if o.Confirmed? then o.rows else rows, requests[1..])
  }

  /** The target of the first request for a key. */
  function FirstTarget(requests: seq<Confirming>, key: RefKey): Option<nat>
    decreases |requests|
  {
    if requests == [] then None
    else if requests[0].key == key then Some(requests[0].target)
    else FirstTarget(requests[1..], key)
  }

  /**
   Over any sequence of confirmations each key keeps the target it had, or else gets the target of the
   first request for it and keeps that; so once confirmed, a reference resolves to the same record for ever.
   */
  lemma {:induction false} FirstConfirmationWins(rows: seq<ReferenceRow>, requests: seq<Confirming>, key: RefKey)
    requires Valid(rows)
    ensures Valid(ConfirmAll(rows, requests))
    ensures Lookup(ConfirmAll(rows, requests), key)
         == if Lookup(rows, key).Some? then Lookup(rows, key) else FirstTarget(requests, key)
    decreases |requests|
  {
    if requests != [] {
      var o := Confirm(rows, requests[0].key, requests[0].target);
      ConfirmRefines(rows, requests[0].key, requests[0].target);
      FirstConfirmationWins(if o.Confirmed? then o.rows else rows, requests[1..], key);
    }
  }

  // ---------------------------------------------------------------- as it runs

  class ReferenceTable {
    var rows: seq<ReferenceRow>
    var sources: set<string>

    constructor (sources: set<string>)
      ensures rows == [] && this.sources == sources && Valid(rows)
    {
      rows := [];
      this.sources := sources;
    }

    /** Look for up to two confirmed rows; a second one would be ambiguous. */
    method ResolveReference(key: RefKey) returns (resolution: Resolution)
      requires Valid(rows)
      ensures resolution == Resolve(rows, sources, key)
    {
      if key.source == "" {
        return NotResolved(MissingReferenceSourceSystem);
      }
      if key.source !in sources {
        return NotResolved(SourceNamespaceUnknown);
      }
      var matches: seq<ReferenceRow> := [];
      var i := 0;
      while i < |rows| && |matches| < 2
        invariant i <= |rows| && |matches| <= 1
        invariant matches == [] ==> forall j | 0 <= j < i :: !IsConfirmed(rows[j], key)
        invariant |matches| == 1 ==>
                    matches[0].target.Some?
                     && exists j | 0 <= j < i :: IsConfirmed(rows[j], key) && rows[j] == matches[0]
      {
        if IsConfirmed(rows[i], key) {
          if |matches| == 1 {
            var j :| 0 <= j < i && IsConfirmed(rows[j], key);
            AtMostOneConfirmed(rows, key, j, i);
          }
          matches := matches + [rows[i]];
        }
        i := i + 1;
      }
      if matches == [] {
        LookupNone(rows, key);
        return NotResolved(UnresolvedIdentity);
      }
      ghost var j :| 0 <= j < i && IsConfirmed(rows[j], key) && rows[j] == matches[0];
      LookupAt(rows, key, j);
      return Resolved(matches[0].target.value);
    }

    /** Returns whether the mapping stands; a conflicting one is refused and changes nothing. */
    method ConfirmReference(key: RefKey, target: nat) returns (stands: bool)
      requires Valid(rows)
      modifies this`rows
      ensures Valid(rows)
      ensures stands <==> old(Lookup(rows, key)).GetOr(target) == target
      ensures stands ==> Lookup(rows, key) == Some(target)
      ensures !stands ==> rows == old(rows)
      ensures forall k: RefKey | k != key :: Lookup(rows, k) == old(Lookup(rows, k))
      ensures var o := Confirm(old(rows), key, target); rows == if o.Confirmed? then o.rows else old(rows)
    {
      ConfirmRefines(rows, key, target);
      var existing := FirstCurrent(rows, key, 0);
      if existing != None {
        var row := rows[existing.value];
        if row.status == ConfirmedMapping && row.target == Some(target) {
          return true;
        }
        if row.status == ConfirmedMapping && row.target != Some(target) {
          return false;
        }
        row := row.(status := ConfirmedMapping);
        row := row.(target := Some(target));
        rows := rows[existing.value := row];
        return true;
      }
      rows := rows + [ReferenceRow(key, ConfirmedMapping, Some(target))];
      return true;
    }
  }
}
