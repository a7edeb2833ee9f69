/**
 * The Order document: its status and payment enumerations, the transition
 * table of the status validator, and the two `pre("save")` hooks (total and
 * history first, then the transition check), as pure steps and as the
 * in-place updates of a loaded document.
 */
module OrderModel {
  import opened Wrappers
  import opened Common

  // ---------------------------------------------------------------- statuses

  datatype Status =
    | Pending | Confirmed | Processing | Packed | Shipped
    | OutForDelivery | Delivered | Cancelled | Returned | Refunded

  const AllStatuses: seq<Status> :=
    [Pending, Confirmed, Processing, Packed, Shipped, OutForDelivery, Delivered, Cancelled, Returned, Refunded]

  /** The enum string stored in the document. */
  function StatusName(s: Status): string {
    match s
    case Pending => "pending"
    case Confirmed => "confirmed"
    case Processing => "processing"
    case Packed => "packed"
    case Shipped => "shipped"
    case OutForDelivery => "out_for_delivery"
    case Delivered => "delivered"
    case Cancelled => "cancelled"
    case Returned => "returned"
    case Refunded => "refunded"
  }

  /** Casting a request string against the `status` enum; `None` when enum validation would fail. */
  function ParseStatus(name: string): (r: Option<Status>)
    ensures r.Some? ==> StatusName(r.value) == name
  {
    if name == "pending" then Some(Pending)
    else if name == "confirmed" then Some(Confirmed)
    else if name == "processing" then Some(Processing)
    else if name == "packed" then Some(Packed)
    else if name == "shipped" then Some(Shipped)
    else if name == "out_for_delivery" then Some(OutForDelivery)
    else if name == "delivered" then Some(Delivered)
    else if name == "cancelled" then Some(Cancelled)
    else if name == "returned" then Some(Returned)
    else if name == "refunded" then Some(Refunded)
    else None
  }

  /** Every enum value is accepted under its own name, so the enum and its names agree. */
  lemma ParseStatusName(s: Status)
    ensures ParseStatus(StatusName(s)) == Some(s)
  {
  }

  datatype PaymentStatus = PaymentPending | PaymentProcessing | Completed | Failed | PaymentRefunded

  function PaymentName(p: PaymentStatus): string {
    match p
    case PaymentPending => "pending"
    case PaymentProcessing => "processing"
    case Completed => "completed"
    case Failed => "failed"
    case PaymentRefunded => "refunded"
  }

  function ParsePayment(name: string): (r: Option<PaymentStatus>)
    ensures r.Some? ==> PaymentName(r.value) == name
  {
    if name == "pending" then Some(PaymentPending)
    else if name == "processing" then Some(PaymentProcessing)
    else if name == "completed" then Some(Completed)
    else if name == "failed" then Some(Failed)
    else if name == "refunded" then Some(PaymentRefunded)
    else None
  }

  /** Every payment value is accepted under its own name, so `ParsePayment` succeeds exactly on the five names. */
  lemma ParsePaymentName(p: PaymentStatus)
    ensures ParsePayment(PaymentName(p)) == Some(p)
  {
  }

  // ---------------------------------------------------------------- transition table

  /** `validTransitions[from]`. */
  function AllowedTargets(from: Status): seq<Status> {
    match from
    case Pending => [Confirmed, Cancelled]
    case Confirmed => [Processing, Cancelled]
    case Processing => [Packed, Cancelled]
    case Packed => [Shipped, Cancelled]
    case Shipped => [OutForDelivery, Cancelled]
    case OutForDelivery => [Delivered, Cancelled]
    case Delivered => [Returned]
    case Returned => [Refunded]
    case Cancelled => []
    case Refunded => []
  }

  /** `validTransitions[from].includes(to)`. */
  predicate ValidTransition(from: Status, to: Status) {
    to in AllowedTargets(from)
  }

  /** The position of a status along the fulfilment line; refunds come last. */
  function Rank(s: Status): (n: nat)
    ensures n < 9
  {
    match s
    case Pending => 0
    case Confirmed => 1
    case Processing => 2
    case Packed => 3
    case Shipped => 4
    case OutForDelivery => 5
    case Delivered => 6
    case Cancelled => 7
    case Returned => 7
    case Refunded => 8
  }

  /**
   * The table written out pairwise: every allowed step moves strictly forward,
   * so no status is its own target, and `cancelled` and `refunded` have none.
   */
  lemma TransitionMovesForward(from: Status, to: Status)
    ensures ValidTransition(from, to) ==> Rank(from) < Rank(to)
    ensures !ValidTransition(from, from)
    ensures !ValidTransition(Cancelled, to) && !ValidTransition(Refunded, to)
  {
  }

  /** Every step of `p` is allowed by the table. */
  ghost predicate IsTransitionPath(p: seq<Status>) {
    forall k :: 0 <= k < |p| - 1 ==> ValidTransition(p[k], p[k + 1])
  }

  /** Along any sequence of allowed steps the rank increases by at least one per step. */
  lemma {:induction false} PathRanksIncrease(p: seq<Status>, i: nat, j: nat)
    requires IsTransitionPath(p)
    requires i < j < |p|
    ensures Rank(p[i]) + (j - i) <= Rank(p[j])
    decreases j - i
  {
    TransitionMovesForward(p[i], p[i + 1]);
    if i + 1 < j {
      PathRanksIncrease(p, i + 1, j);
    }
  }

  /**
   * The lifecycle is acyclic: a sequence of allowed steps never revisits a
   * status and holds at most nine statuses (eight steps).
   */
  lemma PathsAreShort(p: seq<Status>)
    requires IsTransitionPath(p)
    ensures forall i, j :: 0 <= i < j < |p| ==> p[i] != p[j]
    ensures |p| <= 9
  {
    forall i, j | 0 <= i < j < |p| ensures p[i] != p[j] {
      PathRanksIncrease(p, i, j);
    }
    if |p| > 9 {
      PathRanksIncrease(p, 0, 9);
    }
  }

  // ---------------------------------------------------------------- the document

  datatype HistoryEntry = HistoryEntry(status: Status, timestamp: Time, note: Option<string>)

  datatype Address = Address(street: string, city: string, state: string, zipCode: string, country: string)

  datatype Order = Order(
    id: Id,
    user: Id,
    items: seq<LineItem>,
    totalAmount: int,
    shippingAddress: Address,
    status: Status,
    statusHistory: seq<HistoryEntry>,
    paymentStatus: PaymentStatus,
    paymentMethod: string,
    estimatedDeliveryDate: Option<Time>,
    actualDeliveryDate: Option<Time>,
    trackingNumber: Option<string>,
    cancellationReason: Option<string>,
    returnReason: Option<string>,
    createdAt: Time)

  /** A `required: true` string path: Mongoose rejects the empty string. */
  predicate Present(s: string) {
    s != []
  }

  predicate AddressComplete(a: Address) {
    Present(a.street) && Present(a.city) && Present(a.state) && Present(a.zipCode) && Present(a.country)
  }

  /** The schema validators Mongoose runs before the `pre("save")` hooks. */
  predicate PassesSchema(o: Order) {
    LinesValid(o.items) && AddressComplete(o.shippingAddress) && Present(o.paymentMethod)
  }

  const ValidationFailed: string := "Order validation failed"

  /** The error the validator hook passes to `next`. */
  function TransitionError(from: Status, to: Status): string {
    "Invalid status transition from " + StatusName(from) + " to " + StatusName(to)
  }

  /** First hook, first half: `this.totalAmount = Σ price × quantity`. */
  function TotalHook(o: Order): Order {
    o.(totalAmount := LinesTotal(o.items))
  }

  /** First hook, second half: push `{ status, timestamp }` when `status` is modified. */
  function HistoryHook(o: Order, statusModified: bool, now: Time): Order {
    if statusModified then o.(statusHistory := o.statusHistory + [HistoryEntry(o.status, now, None)]) else o
  }

  /** The whole first `pre("save")` hook. */
  function FirstHook(o: Order, statusModified: bool, now: Time): Order {
    HistoryHook(TotalHook(o), statusModified, now)
  }

  /** The validator hook as written: "old" is the status of the last history entry. */
  function CheckAsWritten(o: Order, statusModified: bool): Option<string> {
    if statusModified && o.statusHistory != [] then
      var last := o.statusHistory[|o.statusHistory| - 1].status;
      if !ValidTransition(last, o.status) then Some(TransitionError(last, o.status)) else None
    else None
  }

  /** The validator hook as intended: "old" is the status the document was loaded with. */
  function CheckIntended(o: Order, statusModified: bool, persisted: Status): Option<string> {
    if statusModified && !ValidTransition(persisted, o.status) then Some(TransitionError(persisted, o.status))
    else None
  }

  /** `order.save()` as the code runs it: validation, the first hook, then the validator hook. */
  function SaveAsWritten(o: Order, statusModified: bool, now: Time): Result<Order, string> {
    if !PassesSchema(o) then Failure(ValidationFailed)
    else
      var o1 := FirstHook(o, statusModified, now);
      match CheckAsWritten(o1, statusModified)
      case Some(e) => Failure(e)
      case None => Success(o1)
  }

  /** `order.save()` with the validator comparing against the persisted status. */
  function SaveCorrected(o: Order, statusModified: bool, persisted: Status, now: Time): Result<Order, string> {
    if !PassesSchema(o) then Failure(ValidationFailed)
    else
      var o1 := FirstHook(o, statusModified, now);
      match CheckIntended(o1, statusModified, persisted)
      case Some(e) => Failure(e)
      case None => Success(o1)
  }

  /** A saved order's total is the sum of its lines, 0 for no lines, and never negative. */
  lemma SaveTotal(o: Order, statusModified: bool, persisted: Status, now: Time)
    requires SaveCorrected(o, statusModified, persisted, now).Success?
    ensures SaveCorrected(o, statusModified, persisted, now).value.totalAmount == LinesTotal(o.items)
    ensures o.items == [] ==> SaveCorrected(o, statusModified, persisted, now).value.totalAmount == 0
    ensures SaveCorrected(o, statusModified, persisted, now).value.totalAmount >= 0
  {
    LinesTotalNonNegative(o.items);
  }

  /**
   * Saving appends exactly one entry, carrying the new status, when and only
   * when `status` is modified, and changes nothing but the total and history.
   */
  lemma SaveHistory(o: Order, statusModified: bool, persisted: Status, now: Time)
    requires SaveCorrected(o, statusModified, persisted, now).Success?
    ensures var r := SaveCorrected(o, statusModified, persisted, now).value;
      && (statusModified ==> r.statusHistory == o.statusHistory + [HistoryEntry(o.status, now, None)])
      && (!statusModified ==> r.statusHistory == o.statusHistory)
      && r == o.(totalAmount := r.totalAmount, statusHistory := r.statusHistory)
  {
  }

  /** Save succeeds exactly when the schema holds and any status change is in the table. */
  lemma SaveSucceedsIff(o: Order, statusModified: bool, persisted: Status, now: Time)
    ensures SaveCorrected(o, statusModified, persisted, now).Success? <==>
            PassesSchema(o) && (statusModified ==> ValidTransition(persisted, o.status))
    ensures PassesSchema(o) && statusModified && !ValidTransition(persisted, o.status) ==>
            SaveCorrected(o, statusModified, persisted, now) == Failure(TransitionError(persisted, o.status))
  {
  }

  /**
   * As written, the validator sees the entry the first hook has just pushed,
   * so every status change is rejected as a transition from the new status to itself.
   */
  lemma AsWrittenRejectsEveryStatusChange(o: Order, now: Time)
    requires PassesSchema(o)
    ensures SaveAsWritten(o, true, now) == Failure(TransitionError(o.status, o.status))
  {
    var o1 := FirstHook(o, true, now);
    assert o1.statusHistory[|o1.statusHistory| - 1].status == o.status;
    TransitionMovesForward(o.status, o.status);
  }

  /** When the status is not modified the two saves coincide. */
  lemma AsWrittenAgreesWhenUnmodified(o: Order, persisted: Status, now: Time)
    ensures SaveAsWritten(o, false, now) == SaveCorrected(o, false, persisted, now)
  {
  }

  /** A pending order confirmed by the payment rule: allowed by the table, rejected as written. */
  lemma ConfirmPendingOrderAsWritten()
    ensures var o := Order(1, 2, [LineItem(3, 1, 500)], 500, Address("s", "c", "st", "z", "co"),
                           Confirmed, [HistoryEntry(Pending, 0, None)], Completed, "card",
                           None, None, None, None, None, 0);
      && ValidTransition(Pending, Confirmed)
      && SaveCorrected(o, true, Pending, 1).Success?
      && SaveAsWritten(o, true, 1) == Failure("Invalid status transition from confirmed to confirmed")
  {
    var o := Order(1, 2, [LineItem(3, 1, 500)], 500, Address("s", "c", "st", "z", "co"),
                   Confirmed, [HistoryEntry(Pending, 0, None)], Completed, "card",
                   None, None, None, None, None, 0);
    assert LinesValid(o.items) && AddressComplete(o.shippingAddress) && Present(o.paymentMethod);
    assert CheckIntended(FirstHook(o, true, 1), true, Pending).None?;
    AsWrittenRejectsEveryStatusChange(o, 1);
    ConfirmedToConfirmedError();
  }

  /** The message of the self-transition `confirmed` to `confirmed`. */
  lemma ConfirmedToConfirmedError()
    ensures TransitionError(Confirmed, Confirmed) == "Invalid status transition from confirmed to confirmed"
  {
  }

  /**
   * The record the corrected `Order.create` builds before its save: the schema
   * defaults fill status and payment, and the total of the lines is supplied,
   * so the `required` check on `totalAmount` passes.
   */
  function NewOrder(id: Id, user: Id, items: seq<LineItem>, address: Address, paymentMethod: string,
                    history: seq<HistoryEntry>, estimated: Time, now: Time): (o: Order)
    ensures o.status == Pending && o.paymentStatus == PaymentPending
    ensures o.totalAmount == LinesTotal(items) && o.items == items && o.statusHistory == history
  {
    Order(id, user, items, LinesTotal(items), address, Pending, history, PaymentPending, paymentMethod,
          Some(estimated), None, None, None, None, now)
  }

  /** The message Mongoose gives when `totalAmount`, a `required` path, is missing. */
  const TotalRequired: string := "Order validation failed: totalAmount: Path `totalAmount` is required."

  /**
   * `Order.create` as written. The object passed has no `totalAmount` (the
   * field of `o` is not read), and Mongoose runs the validators, `required`
   * among them, before any `pre("save")` hook, so the hook that would compute
   * the total comes too late and every create fails validation.
   */
  function CreateSaveAsWritten(o: Order): (r: Result<Order, string>)
    ensures r.Failure?
    ensures PassesSchema(o) ==> r.error == TotalRequired
  {
    Failure(if PassesSchema(o) then TotalRequired else ValidationFailed)
  }

  // ---------------------------------------------------------------- a loaded document

  /**
   * A loaded `Order` document. The paths the controllers assign are fields;
   * `statusModified` is Mongoose's dirty flag for `status` and `persisted` the
   * status the document was loaded (or last saved) with.
   */
  class OrderDocument {
    const id: Id
    const user: Id
    const items: seq<LineItem>
    const shippingAddress: Address
    const paymentMethod: string
    const estimatedDeliveryDate: Option<Time>
    const createdAt: Time
    var totalAmount: int
    var status: Status
    var statusHistory: seq<HistoryEntry>
    var paymentStatus: PaymentStatus
    var actualDeliveryDate: Option<Time>
    var trackingNumber: Option<string>
    var cancellationReason: Option<string>
    var returnReason: Option<string>
    var statusModified: bool
    var persisted: Status

    /** The document's current contents as a record. */
    function Contents(): Order
      reads this
    {
      Order(id, user, items, totalAmount, shippingAddress, status, statusHistory, paymentStatus,
            paymentMethod, estimatedDeliveryDate, actualDeliveryDate, trackingNumber,
            cancellationReason, returnReason, createdAt)
    }

    /** `Order.findById`: a clean document holding `o`. */
    constructor Load(o: Order)
      ensures Contents() == o
      ensures !statusModified && persisted == o.status
    {
      id, user, items, shippingAddress := o.id, o.user, o.items, o.shippingAddress;
      paymentMethod, estimatedDeliveryDate, createdAt := o.paymentMethod, o.estimatedDeliveryDate, o.createdAt;
      totalAmount, status, statusHistory, paymentStatus := o.totalAmount, o.status, o.statusHistory, o.paymentStatus;
      actualDeliveryDate, trackingNumber := o.actualDeliveryDate, o.trackingNumber;
      cancellationReason, returnReason := o.cancellationReason, o.returnReason;
      statusModified, persisted := false, o.status;
    }

    /** `order.status = s`: Mongoose marks the path modified only when the value changes. */
    method SetStatus(s: Status)
      modifies this
      ensures Contents() == old(Contents()).(status := s)
      ensures statusModified == (old(statusModified) || s != old(status))
      ensures persisted == old(persisted)
    {
      if s != status {
        statusModified := true;
      }
      status := s;
    }

    /** `order.statusHistory.push(entry)`. */
    method PushHistory(entry: HistoryEntry)
      modifies this
      ensures Contents() == old(Contents()).(statusHistory := old(statusHistory) + [entry])
      ensures statusModified == old(statusModified) && persisted == old(persisted)
    {
      statusHistory := statusHistory + [entry];
    }

    /**
     * `order.save()` with the intended validator. The hooks update the document
     * in place; on success it is clean again and its status is the persisted one.
     */
    method Save(now: Time) returns (r: Result<Order, string>)
      modifies this
      ensures r == SaveCorrected(old(Contents()), old(statusModified), old(persisted), now)
      ensures r.Success? ==> Contents() == r.value && !statusModified && persisted == status
      ensures r.Failure? ==> persisted == old(persisted) && statusModified == old(statusModified)
      ensures r.Failure? ==>
                Contents() == (if PassesSchema(old(Contents())) then FirstHook(old(Contents()), old(statusModified), now)
                               else old(Contents()))
    {
      if !PassesSchema(Contents()) {
        return Failure(ValidationFailed);
      }
      // first hook
      totalAmount := LinesTotal(items);
      if statusModified {
        statusHistory := statusHistory + [HistoryEntry(status, now, None)];
      }
      // validator hook
      if statusModified && !ValidTransition(persisted, status) {
        return Failure(TransitionError(persisted, status));
      }
      r := Success(Contents());
      statusModified, persisted := false, status;
    }
  }
}
