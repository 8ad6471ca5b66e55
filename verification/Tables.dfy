/** The rows of the shop's database tables. */
module Tables {
  import opened Common
  import opened Inventory

  datatype TransferStatus = Requested | Approved | InTransit | Completed | TransferCancelled

  datatype Transfer = Transfer(
    source: nat, dest: nat, product: nat, quantity: int, status: TransferStatus,
    requestedBy: Option<nat>, approvedBy: Option<nat>)

  datatype OrderStatus = PendingPayment | Paid | Processing | Shipped | Delivered | Cancelled | Refunded

  datatype OrderPayment = Unpaid | PaymentDone | PaymentFailed | PaymentRefunded

  /** One line of the status history; the first one starts from nothing. */
  datatype Change = Change(before: Option<OrderStatus>, after: OrderStatus)

  datatype Order = Order(
    user: nat, status: OrderStatus, payment: OrderPayment, items: seq<Item>,
    subtotal: int, discount: int, shipping: int, tax: int, total: int,
    sellers: map<nat, OrderStatus>, history: seq<Change>)
  {
    /** subtotal - discount + shipping + tax, never below zero. */
    function ComputedTotal(): int {
      Max(0, subtotal - discount + shipping + tax)
    }

    predicate AwaitsPayment() {
      status.PendingPayment? && (payment.Unpaid? || payment.PaymentFailed?)
    }
  }

  datatype PaymentStatus = Pending | Success | Failed | PaymentCancelled | Reversed

  datatype Payment = Payment(
    order: nat, user: nat, provider: nat, status: PaymentStatus, amount: int, reference: string)

  datatype DiscountKind = Percentage | FixedAmount

  datatype Discount = Discount(
    kind: DiscountKind, value: int, maxAmount: Option<int>, minOrder: int,
    limitTotal: Option<nat>, limitPerUser: Option<nat>, usedCount: nat,
    start: Option<int>, end: Option<int>, active: bool,
    products: set<nat>, categories: set<nat>)

  datatype Usage = Usage(discount: nat, user: nat, amount: int)

  datatype CartItem = CartItem(product: nat, seller: nat, category: nat, quantity: int, unitPrice: nat) {
    function Total(): int {
      unitPrice * quantity
    }
  }

  /** Tables whose keys are positions are sequences; usages are keyed by their order, carts by their user. */
  datatype Db = Db(
    ledger: Ledger, transfers: seq<Transfer>, orders: seq<Order>, payments: seq<Payment>,
    discounts: seq<Discount>, usages: map<nat, Usage>, carts: map<nat, seq<CartItem>>,
    activeWarehouses: set<nat>)
}
