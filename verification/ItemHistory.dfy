/** The accounting and dispute history of an item: its events replay to its stage and to its dispute status. */
module ItemHistory {
  import opened Common
  import opened Accounting
  import opened Ledger
  import opened LedgerInvariant
  import opened LedgerRuns

  /** Replay the accounting events from NoInvoice; None when one does not start where the last ended. */
  function StageWalk(events: seq<StageEvent>): Option<Stage> {
    if events == [] then Some(NoInvoice)
    else
      var before := StageWalk(events[..|events| - 1]);
      match events[|events| - 1]
      case AccountingEvent(from, to, _) => if before == Some(from) && from != to then Some(to) else None
      case _ => before
  }

  /** Replay the dispute events: only an open dispute is closed, and an open one is not opened again. */
  function DisputeWalk(events: seq<StageEvent>): Option<DisputeStatus> {
    if events == [] then Some(NoDispute)
    else
      var before := DisputeWalk(events[..|events| - 1]);
      match events[|events| - 1]
      case DisputeOpened(_) => if before.Some? && !before.value.OpenDispute? then Some(OpenDispute) else None
      case DisputeClosed => if before == Some(OpenDispute) then Some(ResolvedDispute) else None
      case _ => before
  }

  predicate Told(r: Record) {
    && StageWalk(r.events) == Some(r.item.stage)
    && DisputeWalk(r.events) == Some(r.item.dispute)
    && (r.item.dispute.OpenDispute? ==> r.item.disputeReason.Some?)
    && (r.item.invoiced.Some? <==> r.item.collected.Some?)
  }

  lemma WalkOne(events: seq<StageEvent>, e: StageEvent)
    ensures StageWalk(events + [e])
         == match e
            case AccountingEvent(from, to, _) =>
              if StageWalk(events) == Some(from) && from != to then Some(to) else None
            case _ => StageWalk(events)
    ensures DisputeWalk(events + [e])
         == match e
            case DisputeOpened(_) =>
              if DisputeWalk(events).Some? && !DisputeWalk(events).value.OpenDispute? then Some(OpenDispute) else None
            case DisputeClosed => if DisputeWalk(events) == Some(OpenDispute) then Some(ResolvedDispute) else None
            case _ => DisputeWalk(events)
  {
    assert (events + [e])[..|events|] == events;
  }

  /**
   What a refresh writes: the derived stage and amounts; a stage event exactly when the stage moved, naming the first
   invoice; a dispute event exactly when a dispute opens. The reason of a dispute that is already open is rewritten,
   with no event, when stage or amounts moved under another reason.
   */
  lemma RefreshWrites(r: Record, scope: Scope, books: Books)
    ensures var r', d := Refreshed(r, scope, books), DeriveFor(r, scope, books);
            var moved := r.item.stage != d.stage || r.item.invoiced != d.invoiced || r.item.collected != d.collected;
            var opens := d.dispute.Some? && !r.item.dispute.OpenDispute?;
            && r'.item == r.item.(
                 stage := d.stage, invoiced := d.invoiced, collected := d.collected,
                 dispute := if opens then OpenDispute else r.item.dispute,
                 disputeReason := if d.dispute.Some? && (moved || opens) then d.dispute else r.item.disputeReason)
            && (r'.item.stage != r.item.stage ==>
                  var invoice := if d.invoices == [] then None else Some(d.invoices[0]);
                  r'.events == r.events + [AccountingEvent(r.item.stage, d.stage, invoice)]
                               + if opens then [DisputeOpened(d.dispute.value)] else [])
            && (r'.item.stage == r.item.stage ==>
                  r'.events == r.events + if opens then [DisputeOpened(d.dispute.value)] else [])
            && r' == r.(item := r'.item, events := r'.events)
  {
    hide DeriveFor;
  }

  lemma RefreshTold(r: Record, scope: Scope, books: Books)
    requires Told(r)
    ensures Told(Refreshed(r, scope, books))
  {
    RefreshWrites(r, scope, books);
    AmountsTogether(r, scope, books);
    var r', d := Refreshed(r, scope, books), DeriveFor(r, scope, books);
    hide Refreshed, DeriveFor;
    var invoice := if d.invoices == [] then None else Some(d.invoices[0]);
    var staged := if r'.item.stage != r.item.stage
                  then r.events + [AccountingEvent(r.item.stage, d.stage, invoice)] else r.events;
    WalkOne(r.events, AccountingEvent(r.item.stage, d.stage, invoice));
    if d.dispute.Some? {
      WalkOne(staged, DisputeOpened(d.dispute.value));
    }
    assert staged + [] == staged;
  }

  lemma AmountsTogether(r: Record, scope: Scope, books: Books)
    ensures var d := DeriveFor(r, scope, books); d.invoiced.Some? <==> d.collected.Some?
  {
    hide Matching, PostedOn, HasPayment;
  }

  lemma SettledTold(r: Record)
    requires Told(r) && r.item.dispute.OpenDispute?
    ensures Told(Settled(r))
  {
    WalkOne(r.events, DisputeClosed);
  }

  predicate AllTold(s: State) {
    forall i | 0 <= i < |s.records| :: Told(s.records[i])
  }

  /** What the accounting operations do to one record. */
  lemma BooksShape(s: State, a: Action, i: nat)
    requires (a.BooksRefreshed? || a.DisputeSettled?) && i < |s.records|
    ensures i < |Step(s, a).records| == |s.records|
    ensures var r, r' := s.records[i], Step(s, a).records[i];
            || r' == r || r' == Refreshed(r, a.scope, a.books)
            || (r.item.dispute.OpenDispute? && r' == Refreshed(Settled(r), a.scope, a.books))
  {
    hide Refreshed, Settled;
  }

  lemma BooksStep(s: State, a: Action, i: nat)
    requires AllTold(s) && (a.BooksRefreshed? || a.DisputeSettled?) && i < |s.records|
    ensures i < |Step(s, a).records| == |s.records| && Told(Step(s, a).records[i])
  {
    assert Told(s.records[i]);
    hide Step, Refreshed, Settled, Told;
    BooksShape(s, a, i);
    RefreshTold(s.records[i], a.scope, a.books);
    if s.records[i].item.dispute.OpenDispute? {
      SettledTold(s.records[i]);
      RefreshTold(Settled(s.records[i]), a.scope, a.books);
    }
  }

  /** These columns are as they were, and at most a workflow event was added. */
  predicate WorkflowOnly(r: Record, r': Record) {
    && r'.item.stage == r.item.stage && r'.item.dispute == r.item.dispute
    && r'.item.disputeReason == r.item.disputeReason
    && r'.item.invoiced == r.item.invoiced && r'.item.collected == r.item.collected
    && (r'.events == r.events
        || (|r'.events| == |r.events| + 1 && r'.events[..|r.events|] == r.events
            && r'.events[|r.events|].WorkflowEvent?))
  }

  lemma WorkflowTold(r: Record, r': Record)
    requires Told(r) && WorkflowOnly(r, r')
    ensures Told(r')
  {
    if r'.events != r.events {
      assert r'.events == r.events + [r'.events[|r.events|]];
      WalkOne(r.events, r'.events[|r.events|]);
    }
  }

  lemma ExportQuiet(s: State, a: Action, i: nat)
    requires a.ExportAsked? && i < |s.records|
    ensures i < |Step(s, a).records| && WorkflowOnly(s.records[i], Step(s, a).records[i])
  {
    hide HandOffAll, Objection, NewExport, Key;
    if Export(s, a.mayAct, a.request, a.unbilled).Created? {
      HandOffPointwise(s.records, Selected(s.records, a.request), |s.exports|);
    }
  }

  lemma DecisionQuiet(s: State, a: Action, i: nat)
    requires (a.ApprovalAsked? || a.RevocationAsked?) && i < |s.records|
    ensures i < |Step(s, a).records| && WorkflowOnly(s.records[i], Step(s, a).records[i])
  {
    hide NoDuplicate, Live, SnapshotInsertable, InSomeExport, ReadySnapshot, WithdrawLive;
  }

  /** The other operations leave these columns alone and add at most a workflow event. */
  lemma WorkflowStep(s: State, a: Action, i: nat)
    requires AllTold(s) && !a.BooksRefreshed? && !a.DisputeSettled? && i < |s.records|
    ensures i < |Step(s, a).records| && Told(Step(s, a).records[i])
  {
    assert Told(s.records[i]);
    hide Step, Told;
    if a.ExportAsked? {
      ExportQuiet(s, a, i);
    } else if a.CandidateRecorded? {
      CandidateQuiet(s, a, i);
    } else {
      DecisionQuiet(s, a, i);
    }
    WorkflowTold(s.records[i], Step(s, a).records[i]);
  }

  lemma CandidateQuiet(s: State, a: Action, i: nat)
    requires a.CandidateRecorded? && i < |s.records|
    ensures i < |Step(s, a).records|
    ensures var r' := Step(s, a).records[i];
            r'.events == s.records[i].events && r'.item == s.records[i].item.(candidate := r'.item.candidate)
  {
    hide Latest, SnapshotInsertable, SameInputs;
  }

  lemma NewItemTold(s: State, a: Action)
    requires a.CandidateRecorded? || |Step(s, a).records| == |s.records|
    ensures forall i | |s.records| <= i < |Step(s, a).records| :: Told(Step(s, a).records[i])
  {
    hide Latest, SnapshotInsertable, SameInputs;
  }

  lemma NothingAdded(s: State, a: Action)
    requires !a.CandidateRecorded?
    ensures |Step(s, a).records| == |s.records|
  {
    hide Objection, NewExport, Key, Refreshed, InSomeExport;
  }

  lemma HistoryStep(s: State, a: Action)
    requires AllTold(s)
    ensures AllTold(Step(s, a))
  {
    if !a.CandidateRecorded? {
      NothingAdded(s, a);
    }
    NewItemTold(s, a);
    hide Step, Told;
    forall i | 0 <= i < |s.records| ensures i < |Step(s, a).records| && Told(Step(s, a).records[i]) {
      if a.BooksRefreshed? || a.DisputeSettled? {
        BooksStep(s, a, i);
      } else {
        WorkflowStep(s, a, i);
      }
    }
  }

  lemma {:induction false} HistoryRun(s: State, actions: seq<Action>)
    requires AllTold(s)
    ensures AllTold(Run(s, actions))
    decreases |actions|
  {
    if actions != [] {
      HistoryStep(s, actions[0]);
      hide AllTold, Step;
      HistoryRun(Step(s, actions[0]), actions[1..]);
    }
  }

  /**
   In every reachable ledger the accounting events of an item chain from NoInvoice to its stage, every one a real
   move; its dispute events alternate between opened and closed and end in its dispute status; an open dispute has a
   reason; and it shows both amounts or neither.
   */
  lemma HistoryTellsItem(s: State, i: nat)
    requires Reachable(s) && i < |s.records|
    ensures StageWalk(s.records[i].events) == Some(s.records[i].item.stage)
    ensures DisputeWalk(s.records[i].events) == Some(s.records[i].item.dispute)
    ensures s.records[i].item.dispute.OpenDispute? ==> s.records[i].item.disputeReason.Some?
    ensures s.records[i].item.invoiced.Some? <==> s.records[i].item.collected.Some?
  {
    var actions :| s == Run(EMPTY, actions);
    HistoryRun(EMPTY, actions);
    assert Told(s.records[i]);
  }

  /** Invoices are compared in the currency of the approved snapshot, or of the candidate while nothing is approved. */
  lemma ComparedInOwnCurrency(s: State, i: nat, scope: Scope, books: Books)
    requires Reachable(s) && i < |s.records|
    ensures var r := s.records[i];
            var terms := if r.item.workflow.Candidate? then r.item.candidate else r.item.ready;
            && terms.Some? && terms.value < |r.snapshots|
            && DeriveFor(r, scope, books) == Derive(r.item.stage, r.snapshots[terms.value].currency, scope, books)
  {
    ReachableInv(s);
    assert RecordInv(s.records[i]);
    hide Derive, Reachable;
  }
}
