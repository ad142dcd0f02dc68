/** Work orders with the contract terms that bill them, and the evidence a reconciliation run selected. */
module Operations {
  import opened Common
  import Accounting

  const DAY := 86400
  const MINUTE := 60

  datatype WorkStatus = OpenWork | InProgress | Completed | Cancelled | VoidWork

  datatype BillingBasis = Included | FixedAmount | ActualHours | ScheduledHours | ManualReview

  datatype ScopeKind = BaseRecurring | AuthorizedExtra | Periodic | Corrective

  datatype Obligation = Obligation(
    id: nat, scope: ScopeKind, basis: BillingBasis, defaultRate: Option<nat>,
    extraWorkRequiresAuthorization: bool, delayDays: nat)

  datatype Contract = Contract(id: nat, active: bool, startsOn: int, endsOn: Option<int>, currency: Currency)

  predicate ActiveOn(c: Contract, date: int) {
    c.active && c.startsOn <= date && (c.endsOn.Some? ==> date <= c.endsOn.value)
  }

  /** Instants are seconds; amounts and rates are ten-thousandths, hours are hundredths. */
  datatype WorkOrder = WorkOrder(
    id: nat, customer: nat, site: nat, zone: nat, contract: Contract, obligation: Option<Obligation>,
    scheduledAt: Option<int>, completedAt: Option<int>, status: WorkStatus,
    billable: bool, authorizationRequired: bool, authorizationReference: string, authorizedAt: Option<int>,
    basis: Option<BillingBasis>, fixedAmount: Option<nat>, hours: Option<nat>, rate: Option<nat>)

  datatype Batch = Batch(maximumAgeMinutes: Option<nat>, observedAt: int)

  datatype CoverageScope =
    WholeOrganization | SourceLedger | OneCustomer(customer: Option<nat>) | OneSite(site: Option<nat>) | OtherScope

  datatype QueryContract = AccountingServiceDateLedger | OtherQuery

  /** A declaration together with the facts about its batch that the decision reads. */
  datatype Coverage = Coverage(
    complete: bool, authoritative: bool, committed: bool, snapshot: bool,
    contract: QueryContract, contractVersion: nat, scope: CoverageScope,
    batchHasInvalidRows: bool, startAt: int, endAt: int)

  datatype RunInput = RunInput(batch: Option<Batch>, coverage: seq<Coverage>)

  datatype Manifest = Manifest(serviceEvents: Option<RunInput>, invoiceStatus: Option<RunInput>)

  /** The calendar date of an instant in a zone: any function at all. */
  datatype Calendar = Calendar(date: (nat, int) -> int)

  /** Every row the decision reads besides the manifest, in query order. */
  datatype Evidence = Evidence(
    workOrders: seq<WorkOrder>, mapped: set<nat>, invoices: seq<Accounting.Invoice>,
    blockingIssue: bool, unresolvedIdentity: bool, calendar: Calendar)

  /** Work orders are listed once each, under their primary key. */
  predicate KeysUnique(workOrders: seq<WorkOrder>) {
    forall j, k | 0 <= j < k < |workOrders| :: workOrders[j].id != workOrders[k].id
  }
}
