/** Accounting facts imported from the books, and the stage derived from them. */
module Accounting {
  import opened Common

  datatype InvoiceStatus = PostedInvoice | VoidInvoice | DisputedInvoice

  /** An invoice row; its identity is its position in Books.invoices. */
  datatype Invoice = Invoice(
    workOrder: Option<nat>, customer: nat, site: nat, serviceDate: int,
    amount: Money, currency: Currency, status: InvoiceStatus)

  datatype PaymentStatus = PostedPayment | ReversedPayment | DisputedPayment

  datatype Payment = Payment(invoice: nat, amount: Money, status: PaymentStatus)

  datatype Books = Books(invoices: seq<Invoice>, payments: seq<Payment>)

  /** What an item's work order and case contribute to the matching. */
  datatype Scope = Scope(workOrder: nat, customer: nat, site: nat, serviceDate: Option<int>)

  datatype Stage = NoInvoice | Invoiced | PartiallyCollected | Collected

  datatype DisputeReason =
    OverCollection | CurrencyMismatch | VoidAfterStage | AmbiguousMapping
  | PaymentReversed | InvoiceDisputed | PaymentDisputed

  datatype Derivation = Derivation(
    stage: Stage, invoiced: Option<Money>, collected: Option<Money>,
    dispute: Option<DisputeReason>, invoices: seq<nat>)

  predicate LinkedTo(invoice: Invoice, scope: Scope) {
    invoice.workOrder == Some(scope.workOrder)
  }

  predicate SamePlaceAndDay(invoice: Invoice, scope: Scope) {
    scope.serviceDate == Some(invoice.serviceDate)
    && invoice.customer == scope.customer && invoice.site == scope.site
  }

  predicate Matches(invoice: Invoice, scope: Scope, status: InvoiceStatus) {
    invoice.status == status && (LinkedTo(invoice, scope) || SamePlaceAndDay(invoice, scope))
  }

  /** Some invoice of the status names the work order itself. */
  predicate SomeLinked(invoices: seq<Invoice>, scope: Scope, status: InvoiceStatus) {
    exists j | 0 <= j < |invoices| :: invoices[j].status == status && invoices[j].workOrder == Some(scope.workOrder)
  }

  /**
   The invoice stands for the scope: it names the work order, or no invoice of its status does and it is for the same
   customer, site and day.
   */
  predicate StandsFor(invoices: seq<Invoice>, scope: Scope, status: InvoiceStatus, id: nat) {
    && id < |invoices| && invoices[id].status == status
    && if SomeLinked(invoices, scope, status) then invoices[id].workOrder == Some(scope.workOrder)
       else
         && scope.serviceDate == Some(invoices[id].serviceDate)
         && invoices[id].customer == scope.customer && invoices[id].site == scope.site
  }

  /** Positions of the first n invoices that have the given status and satisfy the test. */
  function Select(invoices: seq<Invoice>, status: InvoiceStatus, test: Invoice -> bool, n: nat): (ids: seq<nat>)
    requires n <= |invoices|
    ensures forall k | 0 <= k < |ids| :: ids[k] < n && invoices[ids[k]].status == status && test(invoices[ids[k]])
    ensures forall id: nat | id < n && invoices[id].status == status && test(invoices[id]) :: id in ids
    ensures forall j, k | 0 <= j < k < |ids| :: ids[j] < ids[k]
  {
    if n == 0 then []
    else if invoices[n - 1].status == status && test(invoices[n - 1])
    then Select(invoices, status, test, n - 1) + [n - 1]
    else Select(invoices, status, test, n - 1)
  }

  /** Invoices linked to the work order; only when there are none, those of its place and day. */
  function Matching(books: Books, scope: Scope, status: InvoiceStatus): (ids: seq<nat>)
    ensures forall k | 0 <= k < |ids| ::
              ids[k] < |books.invoices| && StandsFor(books.invoices, scope, status, ids[k])
    ensures forall id: nat | id < |books.invoices| && StandsFor(books.invoices, scope, status, id) :: id in ids
    ensures Increasing(ids)
    ensures ids == [] <==> forall id | 0 <= id < |books.invoices| :: !Matches(books.invoices[id], scope, status)
  {
    var n := |books.invoices|;
    var direct := Select(books.invoices, status, i => LinkedTo(i, scope), n);
    assert direct != [] <==> SomeLinked(books.invoices, scope, status) by {
      assert direct != [] ==> LinkedTo(books.invoices[direct[0]], scope);
    }
    if direct != [] then
      assert SomeLinked(books.invoices, scope, status) && Matches(books.invoices[direct[0]], scope, status);
      direct
    else
      var nearby := Select(books.invoices, status, i => SamePlaceAndDay(i, scope), n);
      assert nearby != [] ==> Matches(books.invoices[nearby[0]], scope, status);
      nearby
  }

  /** Posted money attached to one invoice. */
  function PostedOn(payments: seq<Payment>, invoice: nat): Money {
    Sum(PostedAmounts(payments, invoice))
  }

  function PostedAmounts(payments: seq<Payment>, invoice: nat): seq<Money> {
    seq(|payments|, i requires 0 <= i < |payments| =>
      if payments[i].invoice == invoice && payments[i].status == PostedPayment then payments[i].amount else 0)
  }

  predicate HasPayment(payments: seq<Payment>, invoice: nat, status: PaymentStatus) {
    exists p <- payments :: p.invoice == invoice && p.status == status
  }

  function StageOf(invoiced: Money, collected: Money): Stage {
    if collected <= 0 then Invoiced
    else if collected < invoiced then PartiallyCollected
    else Collected
  }

  predicate WasCollected(stage: Stage) {
    stage == Collected || stage == PartiallyCollected
  }

  function Derive(current: Stage, currency: Currency, scope: Scope, books: Books): Derivation {
    var posted := Matching(books, scope, PostedInvoice);
    if posted == [] then
      if Matching(books, scope, DisputedInvoice) != [] then
        Derivation(NoInvoice, None, None, Some(InvoiceDisputed), [])
      else if Matching(books, scope, VoidInvoice) != [] && current != NoInvoice then
        Derivation(NoInvoice, None, None, Some(VoidAfterStage), [])
      else
        Derivation(NoInvoice, None, None, None, [])
    else if exists k | 0 <= k < |posted| :: books.invoices[posted[k]].currency != currency then
      Derivation(current, None, None, Some(CurrencyMismatch), posted)
    else if |posted| > 1 then
      Derivation(current, None, None, Some(AmbiguousMapping), posted)
    else
      var id := posted[0];
      var invoiced := books.invoices[id].amount;
      var collected := PostedOn(books.payments, id);
      var dispute :=
        if HasPayment(books.payments, id, DisputedPayment) then Some(PaymentDisputed)
        else if collected > invoiced then Some(OverCollection)
        else if HasPayment(books.payments, id, ReversedPayment) && WasCollected(current) then Some(PaymentReversed)
        else None;
      Derivation(StageOf(invoiced, collected), Some(invoiced), Some(collected), dispute, posted)
  }
}
