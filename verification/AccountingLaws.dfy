/** What the derivation of accounting stages promises, and where repeated refreshes settle. */
module AccountingLaws {
  import opened Common
  import opened Accounting
  import opened Ledger

  // ---------------------------------------------------------------- amounts

  /** The one posted invoice that stands for the item, when there is no other and it is in the item's currency. */
  predicate BilledBy(currency: Currency, scope: Scope, books: Books, id: nat) {
    && id < |books.invoices| && StandsFor(books.invoices, scope, PostedInvoice, id)
    && books.invoices[id].currency == currency
    && forall j: nat | j < |books.invoices| && StandsFor(books.invoices, scope, PostedInvoice, j) :: j == id
  }

  lemma OnlyMatch(scope: Scope, books: Books, status: InvoiceStatus, id: nat)
    ensures Matching(books, scope, status) == [id]
       <==> && id < |books.invoices| && StandsFor(books.invoices, scope, status, id)
            && forall j: nat | j < |books.invoices| && StandsFor(books.invoices, scope, status, j) :: j == id
  {
    var ids := Matching(books, scope, status);
    hide Matching, StandsFor;
    if ids == [id] {
      assert ids[0] == id;
    } else if |ids| > 1 {
      assert ids[0] < ids[1];
    }
  }

  lemma {:induction false} SumPointwise(x: seq<int>, y: seq<int>, z: seq<int>)
    requires |x| == |y| == |z| && forall k | 0 <= k < |x| :: z[k] == x[k] + y[k]
    ensures Sum(z) == Sum(x) + Sum(y)
  {
    if x != [] {
      SumPointwise(x[..|x| - 1], y[..|y| - 1], z[..|z| - 1]);
    }
  }

  lemma {:induction false} SumConcat(x: seq<int>, y: seq<int>)
    ensures Sum(x + y) == Sum(x) + Sum(y)
  {
    if y == [] {
      assert x + y == x;
    } else {
      var last := |y| - 1;
      SumConcat(x, y[..last]);
      SumAppend(x + y[..last], y[last]);
      assert x + y == x + y[..last] + [y[last]];
    }
  }

  /** The invoiced amount counts the invoice once, whatever the number of payments on it. */
  lemma InvoicedOnce(current: Stage, currency: Currency, scope: Scope, books: Books, id: nat, payments: seq<Payment>)
    requires BilledBy(currency, scope, books, id)
    ensures Derive(current, currency, scope, books.(payments := payments)).invoiced == Some(books.invoices[id].amount)
    ensures Derive(current, currency, scope, books.(payments := payments)).collected == Some(PostedOn(payments, id))
  {
    OnlyMatch(scope, books, PostedInvoice, id);
    OnlyMatch(scope, books.(payments := payments), PostedInvoice, id);
  }

  /**
   The link wins: an item whose work order one posted invoice names, in the item's currency, is billed by that invoice,
   whatever other invoices there are for its customer, site and day.
   */
  lemma LinkWins(current: Stage, currency: Currency, scope: Scope, books: Books, id: nat)
    requires id < |books.invoices| && books.invoices[id].currency == currency
    requires forall j | 0 <= j < |books.invoices| && books.invoices[j].status.PostedInvoice? ::
               books.invoices[j].workOrder == Some(scope.workOrder) <==> j == id
    requires books.invoices[id].status.PostedInvoice?
    ensures BilledBy(currency, scope, books, id)
    ensures Derive(current, currency, scope, books).invoiced == Some(books.invoices[id].amount)
  {
    assert SomeLinked(books.invoices, scope, PostedInvoice);
    InvoicedOnce(current, currency, scope, books, id, books.payments);
    assert books.(payments := books.payments) == books;
  }

  /** Collected money is additive over batches of payment rows. */
  lemma CollectedIsAdditive(p: seq<Payment>, q: seq<Payment>, id: nat)
    ensures PostedOn(p + q, id) == PostedOn(p, id) + PostedOn(q, id)
  {
    assert PostedAmounts(p + q, id) == PostedAmounts(p, id) + PostedAmounts(q, id);
    SumConcat(PostedAmounts(p, id), PostedAmounts(q, id));
  }

  /** What one more payment row adds: its amount when it is posted on the invoice, and nothing otherwise. */
  lemma CollectedCountsPosted(p: seq<Payment>, x: Payment, id: nat)
    ensures PostedOn([], id) == 0
    ensures PostedOn(p + [x], id)
         == PostedOn(p, id) + if x.invoice == id && x.status.PostedPayment? then x.amount else 0
  {
    CollectedIsAdditive(p, [x], id);
    assert PostedAmounts([x], id) == [] + PostedAmounts([x], id);
    SumAppend([], PostedAmounts([x], id)[0]);
    assert PostedAmounts([], id) == [];
  }

  /** A reported stage other than the kept one is the exact comparison of the reported amounts. */
  lemma StageComparesAmounts(current: Stage, currency: Currency, scope: Scope, books: Books)
    ensures var d := Derive(current, currency, scope, books);
            && (d.invoiced.Some? <==> d.collected.Some?)
            && (d.invoiced.Some? <==> exists id: nat :: BilledBy(currency, scope, books, id))
            && (d.invoiced.Some? ==>
                  && (d.stage.Invoiced? <==> d.collected.value <= 0)
                  && (d.stage.PartiallyCollected? <==> 0 < d.collected.value < d.invoiced.value)
                  && (d.stage.Collected? <==> d.collected.value > 0 && d.collected.value >= d.invoiced.value))
            && (d.invoiced.None? ==> d.stage.NoInvoice? || d.stage == current)
            && (d.collected.Some? && d.collected.value > d.invoiced.value ==> d.dispute.Some?)
  {
    var posted := Matching(books, scope, PostedInvoice);
    hide Matching, StandsFor, PostedOn, HasPayment;
    if |posted| == 1 {
      OnlyMatch(scope, books, PostedInvoice, posted[0]);
      assert posted == [posted[0]];
      assert books.invoices[posted[0]].currency == currency ==> BilledBy(currency, scope, books, posted[0]);
    }
    forall id: nat ensures BilledBy(currency, scope, books, id) ==> posted == [id] {
      OnlyMatch(scope, books, PostedInvoice, id);
    }
  }

  /** Some invoice of the status stands for the scope. */
  predicate Stands(books: Books, scope: Scope, status: InvoiceStatus) {
    exists id: nat :: id < |books.invoices| && StandsFor(books.invoices, scope, status, id)
  }

  /** Every posted invoice that stands for the scope is in the currency. */
  predicate AllIn(currency: Currency, books: Books, scope: Scope) {
    forall id: nat | id < |books.invoices| && StandsFor(books.invoices, scope, PostedInvoice, id) ::
      books.invoices[id].currency == currency
  }

  predicate Several(books: Books, scope: Scope) {
    exists i: nat, j: nat :: i < j < |books.invoices|
      && StandsFor(books.invoices, scope, PostedInvoice, i) && StandsFor(books.invoices, scope, PostedInvoice, j)
  }

  lemma MatchingMeans(currency: Currency, scope: Scope, books: Books)
    ensures forall status :: Matching(books, scope, status) != [] <==> Stands(books, scope, status)
    ensures var posted := Matching(books, scope, PostedInvoice);
            && (AllIn(currency, books, scope) <==>
                  forall k | 0 <= k < |posted| :: books.invoices[posted[k]].currency == currency)
            && (Several(books, scope) <==> |posted| > 1)
  {
    hide Matching, StandsFor;
    forall status ensures Matching(books, scope, status) != [] <==> Stands(books, scope, status) {
      var ids := Matching(books, scope, status);
      assert ids != [] ==> StandsFor(books.invoices, scope, status, ids[0]);
    }
    var posted := Matching(books, scope, PostedInvoice);
    if |posted| > 1 {
      assert posted[0] < posted[1];
    }
    if Several(books, scope) {
      var i: nat, j: nat :| i < j < |books.invoices|
        && StandsFor(books.invoices, scope, PostedInvoice, i) && StandsFor(books.invoices, scope, PostedInvoice, j);
      assert i in posted && j in posted && (|posted| == 1 ==> posted == [i]);
    }
  }

  /** Each dispute about the invoices is reported exactly in its own circumstances. */
  lemma InvoiceDisputes(current: Stage, currency: Currency, scope: Scope, books: Books)
    ensures var d := Derive(current, currency, scope, books);
            && (d.dispute == Some(InvoiceDisputed) <==>
                  !Stands(books, scope, PostedInvoice) && Stands(books, scope, DisputedInvoice))
            && (d.dispute == Some(VoidAfterStage) <==>
                  && !Stands(books, scope, PostedInvoice) && !Stands(books, scope, DisputedInvoice)
                  && Stands(books, scope, VoidInvoice) && !current.NoInvoice?)
            && (d.dispute == Some(CurrencyMismatch) <==> !AllIn(currency, books, scope))
            && (d.dispute == Some(AmbiguousMapping) <==> Several(books, scope) && AllIn(currency, books, scope))
  {
    MatchingMeans(currency, scope, books);
    hide HasPayment, PostedOn, Matching, StandsFor, Stands, AllIn, Several;
  }

  /**
   What else an item shows: without a posted invoice it is unbilled; invoices that cannot be counted leave the stage
   as it was and report no amounts, but are listed.
   */
  lemma UncountedInvoices(current: Stage, currency: Currency, scope: Scope, books: Books)
    ensures var d := Derive(current, currency, scope, books);
            && (!Stands(books, scope, PostedInvoice) <==> d.invoices == [])
            && (!Stands(books, scope, PostedInvoice) ==>
                  d.stage.NoInvoice? && d.invoiced.None? && d.collected.None?)
            && (forall id: nat | id < |books.invoices| ::
                  id in d.invoices <==> StandsFor(books.invoices, scope, PostedInvoice, id))
            && (!AllIn(currency, books, scope) || Several(books, scope) ==>
                  d.stage == current && d.invoiced.None? && d.collected.None?)
  {
    MatchingMeans(currency, scope, books);
    hide HasPayment, PostedOn, Matching, StandsFor, Stands, AllIn, Several;
  }

  predicate PaymentStands(books: Books, id: nat, status: PaymentStatus) {
    exists k: nat :: k < |books.payments| && books.payments[k].invoice == id && books.payments[k].status == status
  }

  lemma PaymentFound(books: Books, id: nat, status: PaymentStatus)
    ensures HasPayment(books.payments, id, status) <==> PaymentStands(books, id, status)
  {
    if HasPayment(books.payments, id, status) {
      var p :| p in books.payments && p.invoice == id && p.status == status;
      var k :| 0 <= k < |books.payments| && books.payments[k] == p;
    }
  }

  /** Each dispute about the payments of a billed item is reported exactly in its own circumstances. */
  lemma PaymentDisputes(current: Stage, currency: Currency, scope: Scope, books: Books, id: nat)
    requires BilledBy(currency, scope, books, id)
    ensures var dispute := Derive(current, currency, scope, books).dispute;
            var contested := PaymentStands(books, id, DisputedPayment);
            var over := PostedOn(books.payments, id) > books.invoices[id].amount;
            && (dispute == Some(PaymentDisputed) <==> contested)
            && (dispute == Some(OverCollection) <==> !contested && over)
            && (dispute == Some(PaymentReversed) <==>
                  && !contested && !over && PaymentStands(books, id, ReversedPayment)
                  && (current.Collected? || current.PartiallyCollected?))
  {
    OnlyMatch(scope, books, PostedInvoice, id);
    PaymentFound(books, id, DisputedPayment);
    PaymentFound(books, id, ReversedPayment);
    hide HasPayment, PaymentStands, PostedOn, Matching, StandsFor;
  }

  // ---------------------------------------------------------------- the fixed point of refresh

  /** A payment was reversed on work first seen as collected by this very derivation. */
  predicate LateReversal(r: Record, scope: Scope, books: Books) {
    var d := DeriveFor(r, scope, books);
    && !WasCollected(r.item.stage) && WasCollected(d.stage)
    && d.dispute.None? && !r.item.dispute.OpenDispute?
    && d.invoices != [] && HasPayment(books.payments, d.invoices[0], ReversedPayment)
  }

  function DisputedForReversal(r: Record): Record {
    r.(item := r.item.(dispute := OpenDispute, disputeReason := Some(PaymentReversed)),
       events := r.events + [DisputeOpened(PaymentReversed)])
  }

  lemma RefreshShape(r: Record, scope: Scope, books: Books)
    ensures var d, r1 := DeriveFor(r, scope, books), Refreshed(r, scope, books);
            && r1.item.stage == d.stage && r1.item.invoiced == d.invoiced && r1.item.collected == d.collected
            && r1.snapshots == r.snapshots && r1.item.ready == r.item.ready && r1.item.candidate == r.item.candidate
            && (r1.item.dispute.OpenDispute? <==> r.item.dispute.OpenDispute? || d.dispute.Some?)
  {
  }

  /** What deriving again from the derived stage says. */
  lemma SecondDerivation(current: Stage, currency: Currency, scope: Scope, books: Books)
    ensures var d := Derive(current, currency, scope, books);
            var d2 := Derive(d.stage, currency, scope, books);
            && d2.stage == d.stage && d2.invoiced == d.invoiced && d2.collected == d.collected
             && d2.invoices == d.invoices
            && (d2.dispute == d.dispute
                || (d2.dispute.None? && (d.dispute == Some(VoidAfterStage) || d.dispute == Some(PaymentReversed)))
                || (d2.dispute == Some(PaymentReversed) && d.dispute.None?))
            && (d2.dispute == Some(PaymentReversed) && d.dispute.None? <==>
                  && !WasCollected(current) && WasCollected(d.stage) && d.dispute.None?
                  && d.invoices != [] && HasPayment(books.payments, d.invoices[0], ReversedPayment))
  {
    hide Matching, HasPayment, PostedOn;
  }

  /**
   Over unchanged rows one refresh settles the stage and the amounts. The second changes something
   exactly when it opens the dispute about a late reversal, and nothing else; the third never does.
   */
  lemma RefreshSettles(r: Record, scope: Scope, books: Books)
    ensures var r1 := Refreshed(r, scope, books);
            var r2 := Refreshed(r1, scope, books);
            && r2 == (if LateReversal(r, scope, books) then DisputedForReversal(r1) else r1)
            && Refreshed(r2, scope, books) == r2
  {
    RefreshShape(r, scope, books);
    SecondDerivation(r.item.stage, ItemCurrency(r), scope, books);
    var r1 := Refreshed(r, scope, books);
    var d2 := DeriveFor(r1, scope, books);
    assert ItemCurrency(r1) == ItemCurrency(r);
    assert r1.events + [] + [DisputeOpened(PaymentReversed)] == r1.events + [DisputeOpened(PaymentReversed)];
    SecondDerivation(r1.item.stage, ItemCurrency(r), scope, books);
  }

  // A $1,200 invoice first observed together with one posted and one reversed payment of $200.
  const EXAMPLE_BOOKS := Books(
    [Invoice(Some(0), 0, 0, 0, 12_000_000, "USD", PostedInvoice)],
    [Payment(0, 2_000_000, PostedPayment), Payment(0, 2_000_000, ReversedPayment)])
  const EXAMPLE_SCOPE := Scope(0, 0, 0, Some(0))
  const EXAMPLE_RECORD := Record(
    0, 0, Item(Candidate, NoInvoice, NoDispute, None, Some(0), None, None, None, None, 1),
    [Snapshot(1, 1, "USD", Some(12_000_000), None, FixedWorkOrder, map[])], [], [])

  lemma ExampleIsBilled()
    ensures BilledBy("USD", EXAMPLE_SCOPE, EXAMPLE_BOOKS, 0)
  {
    var ids := Matching(EXAMPLE_BOOKS, EXAMPLE_SCOPE, PostedInvoice);
    assert Matches(EXAMPLE_BOOKS.invoices[0], EXAMPLE_SCOPE, PostedInvoice);
    assert ids != [];
    assert ids[0] == 0 && ids[|ids| - 1] == 0;
  }

  lemma ExampleIsCollected()
    ensures PostedOn(EXAMPLE_BOOKS.payments, 0) == 2_000_000
  {
    var p := PostedAmounts(EXAMPLE_BOOKS.payments, 0);
    assert p == [2_000_000] + [0] && [2_000_000] == [] + [2_000_000];
    SumAppend([2_000_000], 0);
    SumAppend([], 2_000_000);
  }

  lemma BilledDerivation(current: Stage, currency: Currency, scope: Scope, books: Books, id: nat)
    requires BilledBy(currency, scope, books, id)
    requires PostedOn(books.payments, id) <= books.invoices[id].amount
    requires !HasPayment(books.payments, id, DisputedPayment) && !WasCollected(current)
    ensures var d := Derive(current, currency, scope, books);
            && d.stage == StageOf(books.invoices[id].amount, PostedOn(books.payments, id))
            && d.dispute.None? && d.invoices == [id]
  {
    OnlyMatch(scope, books, PostedInvoice, id);
    hide HasPayment, PostedOn;
  }

  lemma ExampleIsLate()
    ensures LateReversal(EXAMPLE_RECORD, EXAMPLE_SCOPE, EXAMPLE_BOOKS)
  {
    ExampleIsBilled();
    ExampleIsCollected();
    ExamplePayments();
    hide Derive, PostedOn, HasPayment, BilledBy, Matching;
    BilledDerivation(NoInvoice, "USD", EXAMPLE_SCOPE, EXAMPLE_BOOKS, 0);
  }

  lemma ExamplePayments()
    ensures HasPayment(EXAMPLE_BOOKS.payments, 0, ReversedPayment)
    ensures !HasPayment(EXAMPLE_BOOKS.payments, 0, DisputedPayment)
  {
    assert EXAMPLE_BOOKS.payments[1] in EXAMPLE_BOOKS.payments;
  }

  /** So one refresh is a fixed point unless a payment was reversed late; this one is not. */
  lemma OneRefreshMayNotSettle()
    ensures LateReversal(EXAMPLE_RECORD, EXAMPLE_SCOPE, EXAMPLE_BOOKS)
    ensures var r1 := Refreshed(EXAMPLE_RECORD, EXAMPLE_SCOPE, EXAMPLE_BOOKS);
            Refreshed(r1, EXAMPLE_SCOPE, EXAMPLE_BOOKS) != r1
  {
    hide Refreshed, LateReversal;
    ExampleIsLate();
    RefreshSettles(EXAMPLE_RECORD, EXAMPLE_SCOPE, EXAMPLE_BOOKS);
    var r1 := Refreshed(EXAMPLE_RECORD, EXAMPLE_SCOPE, EXAMPLE_BOOKS);
    assert |DisputedForReversal(r1).events| == |r1.events| + 1;
  }
}
