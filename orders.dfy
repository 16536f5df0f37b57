/**
 * The order records the app writes and the order service's reading of the backend's answers.
 * Timestamps are the ISO text the caller supplies as `now`.
 */
module Orders {
  import opened Wrappers
  import opened Backend

  /** The columns one inserted `orders` row is given. */
  datatype OrderInsert = OrderInsert(
    userId: string,
    packageId: string,
    phoneNumber: string,
    amount: int,
    status: string,
    completedAt: Option<string>)

  /** `createOrder`'s row: the caller's values unchanged, status `pending`, no completion time. */
  function CreateOrderPayload(userId: string, packageId: string, phoneNumber: string, amount: int): (r: OrderInsert)
    ensures r.status == "pending" && r.completedAt.None?
    ensures r.userId == userId && r.packageId == packageId && r.phoneNumber == phoneNumber && r.amount == amount
  {
    OrderInsert(userId, packageId, phoneNumber, amount, "pending", None)
  }

  /** `createOrder`'s answer: the inserted row, or the error's message. */
  function CreateOrder<T>(inserted: Response<T>): (r: ServiceResult<T>)
    ensures r.Success? <==> inserted.Data?
    ensures r.Failure? ==> r.error == inserted.message
  {
    ToServiceResult(inserted)
  }

  /** The row the catalogue and home screens insert themselves: already completed, at `now`. */
  function DirectPurchaseRecord(userId: string, packageId: string, phoneNumber: string, price: int, now: string): (r: OrderInsert)
    ensures r.status == "completed" && r.completedAt == Some(now)
    ensures r.userId == userId && r.packageId == packageId && r.phoneNumber == phoneNumber && r.amount == price
  {
    OrderInsert(userId, packageId, phoneNumber, price, "completed", Some(now))
  }

  /** The columns `updateOrderStatus` writes. */
  datatype StatusUpdate = StatusUpdate(status: string, completedAt: Option<string>)

  /**
   * `updateOrderStatus`'s patch: the status exactly as given, whatever the order's current
   * status and whether or not it is a known one, and a completion time only for `completed`.
   */
  function UpdateStatusPayload(status: string, now: string): (r: StatusUpdate)
    ensures r.status == status
    ensures r.completedAt.Some? <==> status == "completed"
    ensures r.completedAt.Some? ==> r.completedAt.value == now
  {
    StatusUpdate(status, if status == "completed" then Some(now) else None)
  }

  /** A patch applied to a row: the columns it names replaced, the others kept. */
  function ApplyUpdate(row: OrderInsert, patch: StatusUpdate): (r: OrderInsert)
    ensures r.status == patch.status
    ensures r.completedAt == if patch.completedAt.Some? then patch.completedAt else row.completedAt
    ensures r.(status := row.status, completedAt := row.completedAt) == row
  {
    row.(status := patch.status, completedAt := if patch.completedAt.Some? then patch.completedAt else row.completedAt)
  }

  /**
   * `updateOrderStatus`'s answer. An error becomes a failure carrying its message. When no
   * row was updated the call still succeeds, with the order fetched separately (absent when
   * that fetch found nothing or failed); otherwise it succeeds with the first updated row.
   */
  function InterpretStatusUpdate<T>(updated: Response<seq<T>>, refetched: Option<T>): (r: ServiceResult<Option<T>>)
    ensures r.Success? <==> updated.Data?
    ensures updated.Error? ==> r.error == updated.message
    ensures updated.Data? && updated.value == [] ==> r.data == refetched
    ensures updated.Data? && updated.value != [] ==> r.data == Some(updated.value[0])
  {
    match updated
    case Error(m) => Failure(m)
    case Data(rows) => if rows == [] then Success(refetched) else Success(Some(rows[0]))
  }

  /** `processPayment`: a stand-in that always reports success. */
  function ProcessPayment(orderId: string): (r: ServiceResult<()>)
    ensures r.Success?
  {
    Success(())
  }

  /**
   * The two ways an order is born differ only in status and completion time: `createOrder`
   * writes a pending order, the purchase screens write a completed one.
   */
  lemma CreatedAndDirectDiffer(userId: string, packageId: string, phoneNumber: string, amount: int, now: string)
    ensures CreateOrderPayload(userId, packageId, phoneNumber, amount)
         == DirectPurchaseRecord(userId, packageId, phoneNumber, amount, now).(status := "pending", completedAt := None)
    ensures CreateOrderPayload(userId, packageId, phoneNumber, amount)
         != DirectPurchaseRecord(userId, packageId, phoneNumber, amount, now)
  {
  }

  /** Completing a pending order at `now` gives the row a direct purchase at `now` would have written. */
  lemma CompletingCreatedOrder(userId: string, packageId: string, phoneNumber: string, amount: int, now: string)
    ensures ApplyUpdate(CreateOrderPayload(userId, packageId, phoneNumber, amount), UpdateStatusPayload("completed", now))
         == DirectPurchaseRecord(userId, packageId, phoneNumber, amount, now)
  {
  }

  /** Any other status leaves the completion time as it was, so a completed order keeps its time. */
  lemma OtherStatusKeepsCompletion(row: OrderInsert, status: string, now: string)
    requires status != "completed"
    ensures ApplyUpdate(row, UpdateStatusPayload(status, now)).completedAt == row.completedAt
    ensures ApplyUpdate(row, UpdateStatusPayload(status, now)).status == status
  {
  }
}
