/** What a detector reports about the work orders it evaluated, and how a run counts it. */
module Detection {
  import opened Common
  import Ledger

  datatype SkipReason =
    NotCompleted | NotBillable | IdentityUnresolved | DelayNotElapsed | NoServiceObligation | ContractNotActive
  | BillingBasisUnsupported | AuthorizationMissing | InvoicePresent | InsufficientCoverage | AccountingStale
  | OperationsStale | BlockingReconciliationIssue | AlreadyRepresented

  const REASONS: seq<SkipReason> := [
    NotCompleted, NotBillable, IdentityUnresolved, DelayNotElapsed, NoServiceObligation, ContractNotActive,
    BillingBasisUnsupported, AuthorizationMissing, InvoicePresent, InsufficientCoverage, AccountingStale,
    OperationsStale, BlockingReconciliationIssue, AlreadyRepresented]

  datatype Freshness = FreshData | AgingData | StaleData | UnknownAge

  /** The worst of the two feeds a decision rests on. */
  function Overall(operations: Freshness, accounting: Freshness): Freshness {
    if operations.StaleData? || accounting.StaleData? then StaleData
    else if operations.AgingData? || accounting.AgingData? then AgingData
    else if operations.UnknownAge? || accounting.UnknownAge? then UnknownAge
    else FreshData
  }

  datatype Severity = Low | Medium | High | Critical

  /** Dates are day numbers; instants are seconds. */
  datatype Finding = Finding(
    serviceDate: int, freshness: Freshness, severity: Severity, deadline: int,
    financial: Option<Ledger.FinancialInputs>)

  datatype Verdict = Matched(finding: Finding) | Skipped(reason: SkipReason)

  /** The subject is the work order that was evaluated. */
  datatype DetectionResult = DetectionResult(subject: nat, verdict: Verdict)

  datatype DetectorOutput = DetectorOutput(
    ruleVersion: nat, results: seq<DetectionResult>, scanned: nat, operations: Freshness, accounting: Freshness)

  function Matches(results: seq<DetectionResult>): (matches: seq<DetectionResult>)
    ensures forall r <- matches :: r in results && r.verdict.Matched?
    ensures forall r <- results :: r.verdict.Matched? ==> r in matches
  {
    if results == [] then []
    else
      var before, last := Matches(results[..|results| - 1]), results[|results| - 1];
      assert results == results[..|results| - 1] + [last];
      if last.verdict.Matched? then before + [last] else before
  }

  /** The dictionary of skip counts: one entry per reason that occurred. */
  function SkipReasons(results: seq<DetectionResult>): map<SkipReason, nat> {
    if results == [] then map[]
    else
      var before, last := SkipReasons(results[..|results| - 1]), results[|results| - 1];
      match last.verdict
      case Skipped(reason) => before[reason := (if reason in before then before[reason] else 0) + 1]
      case Matched(_) => before
  }

  function Tally(counts: map<SkipReason, nat>): seq<nat> {
    seq(|REASONS|, k requires 0 <= k < |REASONS| => if REASONS[k] in counts then counts[REASONS[k]] else 0)
  }

  /** The sum over all entries of the dictionary. */
  function SkippedTotal(counts: map<SkipReason, nat>): int {
    Sum(Tally(counts))
  }

  function Place(reason: SkipReason): (k: nat)
    ensures k < |REASONS| && REASONS[k] == reason
    ensures forall j | 0 <= j < |REASONS| && REASONS[j] == reason :: j == k
  {
    match reason
    case NotCompleted => 0
    case NotBillable => 1
    case IdentityUnresolved => 2
    case DelayNotElapsed => 3
    case NoServiceObligation => 4
    case ContractNotActive => 5
    case BillingBasisUnsupported => 6
    case AuthorizationMissing => 7
    case InvoicePresent => 8
    case InsufficientCoverage => 9
    case AccountingStale => 10
    case OperationsStale => 11
    case BlockingReconciliationIssue => 12
    case AlreadyRepresented => 13
  }

  lemma OneMoreSkipped(counts: map<SkipReason, nat>, reason: SkipReason)
    ensures SkippedTotal(counts[reason := (if reason in counts then counts[reason] else 0) + 1])
            == SkippedTotal(counts) + 1
  {
    var counts' := counts[reason := (if reason in counts then counts[reason] else 0) + 1];
    var k := Place(reason);
    assert Tally(counts') == Tally(counts)[k := Tally(counts)[k] + 1];
    SumUpdate(Tally(counts), k, Tally(counts)[k] + 1);
  }

  lemma NothingSkipped()
    ensures SkippedTotal(map[]) == 0
  {
    AllZero(Tally(map[]));
  }

  lemma {:induction false} AllZero(s: seq<int>)
    requires forall k | 0 <= k < |s| :: s[k] == 0
    ensures Sum(s) == 0
  {
    if s != [] {
      AllZero(s[..|s| - 1]);
    }
  }

  /** Every evaluated work order is counted once: as a match or under one skip reason. */
  lemma {:induction false} MatchedOrSkipped(results: seq<DetectionResult>)
    ensures |Matches(results)| + SkippedTotal(SkipReasons(results)) == |results|
  {
    if results == [] {
      NothingSkipped();
    } else {
      var last := results[|results| - 1];
      MatchedOrSkipped(results[..|results| - 1]);
      if last.verdict.Skipped? {
        hide SkippedTotal;
        OneMoreSkipped(SkipReasons(results[..|results| - 1]), last.verdict.reason);
      }
    }
  }

  lemma MatchesOfOne(r: DetectionResult)
    ensures Matches([r]) == if r.verdict.Matched? then [r] else []
  {
    assert [r][..0] == [];
  }

  /** Matches are written in the order of the results. */
  lemma {:induction false} MatchesInOrder(before: seq<DetectionResult>, after: seq<DetectionResult>)
    ensures Matches(before + after) == Matches(before) + Matches(after)
  {
    if after == [] {
      assert before + after == before;
    } else {
      var last := |after| - 1;
      assert (before + after)[..|before + after| - 1] == before + after[..last];
      assert (before + after)[|before + after| - 1] == after[last];
      MatchesInOrder(before, after[..last]);
    }
  }

  /** How often one reason was counted. */
  function Occurrences(results: seq<DetectionResult>, reason: SkipReason): nat {
    if results == [] then 0
    else
      Occurrences(results[..|results| - 1], reason)
      + if results[|results| - 1].verdict == Skipped(reason) then 1 else 0
  }

  /** The dictionary holds, for exactly the reasons that occurred, how often each occurred. */
  lemma {:induction false} SkipReasonsCount(results: seq<DetectionResult>, reason: SkipReason)
    ensures reason in SkipReasons(results) <==> Occurrences(results, reason) > 0
    ensures reason in SkipReasons(results) ==> SkipReasons(results)[reason] == Occurrences(results, reason)
  {
    if results != [] {
      SkipReasonsCount(results[..|results| - 1], reason);
    }
  }

  /** The reason last reported for a work order that did not match. */
  function ReasonFor(results: seq<DetectionResult>, workOrder: nat): (reason: Option<SkipReason>)
    ensures reason.Some? <==> exists r <- results :: r.subject == workOrder && r.verdict.Skipped?
  {
    if results == [] then None
    else
      var last := results[|results| - 1];
      assert results == results[..|results| - 1] + [last];
      if last.subject == workOrder && last.verdict.Skipped? then Some(last.verdict.reason)
      else ReasonFor(results[..|results| - 1], workOrder)
  }

  predicate MatchedSubject(results: seq<DetectionResult>, workOrder: nat) {
    exists r <- results :: r.subject == workOrder && r.verdict.Matched?
  }
}
