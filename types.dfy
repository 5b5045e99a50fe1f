/** Records of the salon database and the error kinds its services raise.

    Identifiers are the auto-increment keys of the IndexedDB stores; the
    key generators start at 1, so 0 never names a record (the UI uses 0
    for "nothing selected"). Money is an integer amount of minor units and
    a timestamp is the millisecond value of the stored ISO date. */
module Types {

  datatype Option<+T> = None | Some(value: T)

  type Money = int
  type Timestamp = int

  /** The reasons an inventory log entry can carry. */
  datatype Reason = Sale | Restock | Adjustment

  /** What a cart line or receipt item refers to. */
  datatype ItemKind = ServiceItem | ProductItem

  /** The error kinds the core raises, in place of its localized messages. */
  datatype Error =
    | NotFound              // no inventory record for the product
    | InsufficientStock     // the change would make the quantity negative
    | DuplicateName         // a product with the same normalized name exists
    | ConstraintError       // a unique index rejected the write

  datatype Outcome = Done | Failed(error: Error)

  datatype Result<+T> = Ok(value: T) | Err(error: Error)

  datatype Customer = Customer(id: nat, name: string, phone: string, email: Option<string>)

  datatype AppointmentStatus = Scheduled | Completed | Cancelled | NoShow

  datatype Appointment = Appointment(
    id: nat, customerId: nat, date: string, startTime: string, endTime: string,
    status: AppointmentStatus, notes: Option<string>, createdAt: Timestamp, updatedAt: Timestamp)

  /** A link between an appointment and one of its services. */
  datatype AppointmentLink = AppointmentLink(id: nat, appointmentId: nat, serviceId: nat, quantity: int)

  datatype Product = Product(
    id: nat, name: string, price: Money, sku: Option<string>, minStockThreshold: int,
    createdAt: Timestamp, updatedAt: Timestamp)

  datatype InventoryRecord = InventoryRecord(id: nat, productId: nat, quantity: int, updatedAt: Timestamp)

  datatype InventoryLog = InventoryLog(
    id: nat, productId: nat, change: int, reason: Reason, receiptId: Option<nat>,
    notes: Option<string>, createdAt: Timestamp)

  datatype Receipt = Receipt(
    id: nat, customerId: nat, appointmentId: Option<nat>, timestamp: Timestamp,
    subtotal: Money, tip: Money, total: Money, createdAt: Timestamp)

  datatype ReceiptItem = ReceiptItem(
    id: nat, receiptId: nat, kind: ItemKind, itemId: nat, name: string,
    quantity: int, unitPrice: Money, lineTotal: Money)

  /** A line of the point-of-sale cart, not yet persisted. */
  datatype CartLine = CartLine(kind: ItemKind, id: nat, name: string, price: Money, quantity: int)
}
