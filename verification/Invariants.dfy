/** What every reachable database satisfies, table by table and across tables. */
module Invariants {
  import opened Common
  import opened Inventory
  import opened Reservations
  import opened Tables
  import opened Pricing
  import opened Operations

  // ----- Reservations against orders

  /** Units an order reserves at (p, w): its items there, while it awaits payment. */
  function PendingAt(p: nat, w: nat): Order -> int {
    (o: Order) => if o.status.PendingPayment? then Sum(o.items, QtyAt(p, w)) else 0
  }

  function Demand(orders: seq<Order>, s: Stock): int {
    Sum(orders, PendingAt(s.product, s.warehouse))
  }

  /** Every row's reservation is the sum over unpaid orders, and these orders' items have their rows. */
  ghost predicate ReservedIsDemand(stocks: seq<Stock>, orders: seq<Order>) {
    && (forall i :: 0 <= i < |stocks| ==> stocks[i].reserved == Demand(orders, stocks[i]))
    && (forall k :: 0 <= k < |orders| ==> AllPlaced(stocks, orders[k].items))
  }

  // ----- Units

  function TransitOf(p: nat): Transfer -> int {
    (t: Transfer) => if t.product == p && t.status.InTransit? then t.quantity else 0
  }

  function SoldOf(p: nat): Order -> int {
    (o: Order) => if o.payment.PaymentDone? then Sum(o.items, QtyOf(p)) else 0
  }

  /** Units in all warehouses and in transit, against manual movements and paid orders. */
  ghost predicate Balanced(db: Db, p: nat) {
    Sum(db.ledger.stocks, UnitsOf(p)) + Sum(db.transfers, TransitOf(p))
    == Sum(db.ledger.movements, ManualOf(p)) - Sum(db.orders, SoldOf(p))
  }

  ghost predicate Conserved(db: Db) {
    forall p: nat :: Balanced(db, p)
  }

  // ----- Ledger entries against transfers and payments

  function ExpectedLegs(x: Transfer): seq<Leg> {
    match x.status
    case Requested => []
    case Approved => []
    case TransferCancelled => []
    case InTransit => [Leg(TransferOut, x.product, x.source, -x.quantity)]
    case Completed =>
      [Leg(TransferOut, x.product, x.source, -x.quantity), Leg(TransferIn, x.product, x.dest, x.quantity)]
  }

  function LegsNamed(ms: seq<Movement>, t: nat): seq<Leg> {
    Legs(Filter(ms, LegsOf(t)))
  }

  ghost predicate TransferLegsOk(ms: seq<Movement>, transfers: seq<Transfer>) {
    forall t: nat :: LegsNamed(ms, t) == if t < |transfers| then ExpectedLegs(transfers[t]) else []
  }

  ghost predicate TransferOk(x: Transfer) {
    && 0 < x.quantity && x.source != x.dest
    && (x.status.Approved? || x.status.InTransit? || x.status.Completed? ==>
          x.approvedBy.Some? && x.requestedBy != x.approvedBy)
  }

  ghost predicate TransfersOk(transfers: seq<Transfer>) {
    forall t :: 0 <= t < |transfers| ==> TransferOk(transfers[t])
  }

  function SalesNamed(ms: seq<Movement>, payment: nat): seq<Leg> {
    Legs(Filter(ms, SalesOf(payment)))
  }

  function ExpectedSales(payments: seq<Payment>, orders: seq<Order>, payment: nat): seq<Leg> {
    if payment < |payments| && payments[payment].status.Success? && payments[payment].order < |orders|
    then SaleLegs(orders[payments[payment].order].items) else []
  }

  /** A successful payment has one sale for each item of its order, in order; any other payment has none. */
  ghost predicate SalesOk(ms: seq<Movement>, payments: seq<Payment>, orders: seq<Order>) {
    forall k: nat :: SalesNamed(ms, k) == ExpectedSales(payments, orders, k)
  }

  // ----- Payments against orders

  ghost predicate PaymentOk(p: Payment, orders: seq<Order>) {
    && p.order < |orders| && 0 < p.amount && !p.status.Reversed?
    && (p.status.Success? ==> orders[p.order].payment.PaymentDone?)
    && (p.status.Pending? ==> orders[p.order].status.PendingPayment? && p.amount == orders[p.order].total)
  }

  /** Two attempts never both succeed for one order, nor wait for one order and provider, nor capture
      the same reference at one provider. */
  ghost predicate Distinct(p: Payment, q: Payment) {
    && (p.order == q.order ==> !(p.status.Success? && q.status.Success?))
    && (p.order == q.order && p.provider == q.provider ==> !(p.status.Pending? && q.status.Pending?))
    && (p.provider == q.provider && p.reference == q.reference != "" ==> !(p.status.Success? && q.status.Success?))
  }

  ghost predicate PaymentsOk(payments: seq<Payment>, orders: seq<Order>) {
    && (forall k :: 0 <= k < |payments| ==> PaymentOk(payments[k], orders))
    && (forall j, k :: 0 <= j < k < |payments| ==> Distinct(payments[j], payments[k]))
    && (forall o :: 0 <= o < |orders| && orders[o].payment.PaymentDone? ==> HasSuccess(payments, o, |payments|))
  }

  // ----- Discounts

  ghost predicate DiscountOk(d: Discount, id: nat, usages: map<nat, Usage>) {
    && DiscountFieldsOk(d)
    && d.usedCount == |UsesOf(usages, id)|
    && (d.limitTotal.Some? ==> d.usedCount <= d.limitTotal.value)
    && (d.limitPerUser.Some? ==> forall u: nat :: |UsesBy(usages, id, u)| <= d.limitPerUser.value)
  }

  ghost predicate UsageOk(u: Usage, o: nat, discounts: seq<Discount>, orders: seq<Order>) {
    && o < |orders| && u.discount < |discounts|
    && u.user == orders[o].user && u.amount == orders[o].discount
    && !orders[o].status.Cancelled?
  }

  ghost predicate DiscountsOk(discounts: seq<Discount>, usages: map<nat, Usage>, orders: seq<Order>) {
    && (forall d :: 0 <= d < |discounts| ==> DiscountOk(discounts[d], d, usages))
    && (forall o :: o in usages ==> UsageOk(usages[o], o, discounts, orders))
  }

  // ----- One order

  ghost predicate ItemOk(i: Item) {
    0 < i.quantity && 0 <= i.unitPrice && i.totalPrice == i.unitPrice * i.quantity
  }

  ghost predicate MoneyOk(o: Order) {
    && o.subtotal == Sum(o.items, ITEM_TOTAL)
    && 0 <= o.discount <= o.subtotal && 0 <= o.shipping && 0 <= o.tax
    && -1 <= o.total - o.ComputedTotal() <= 1
    && (!o.status.PendingPayment? ==> o.total == o.ComputedTotal())
  }

  ghost predicate StatusOk(o: Order) {
    && (o.status.PendingPayment? || o.status.Cancelled? ==> o.payment.Unpaid?)
    && (o.status.Paid? || o.status.Processing? ==> o.payment.PaymentDone?)
    && (o.status.PendingPayment? || o.status.Cancelled? || o.status.Paid? || o.status.Processing?)
  }

  /** One fulfilment for each seller of an item, in a state the order's status allows. */
  ghost predicate FulfilmentsOk(o: Order) {
    && o.sellers.Keys == SellersOf(o.items)
    && forall s :: s in o.sellers ==>
         match o.status
         case PendingPayment => o.sellers[s].PendingPayment?
         case Cancelled => o.sellers[s].PendingPayment?
         case Paid => o.sellers[s].Paid?
         case Processing => o.sellers[s].Paid? || o.sellers[s].Processing?
         case _ => false
  }

  /** A connected path from nothing to the order's status. */
  ghost predicate HistoryOk(h: seq<Change>, status: OrderStatus) {
    && h != [] && h[0] == Change(None, PendingPayment)
    && h[|h| - 1].after == status
    && forall k :: 0 < k < |h| ==> h[k].before == Some(h[k - 1].after)
  }

  ghost predicate OrderOk(o: Order) {
    && o.items != [] && (forall k :: 0 <= k < |o.items| ==> ItemOk(o.items[k]))
    && MoneyOk(o) && StatusOk(o) && FulfilmentsOk(o) && HistoryOk(o.history, o.status)
  }

  ghost predicate OrdersOk(orders: seq<Order>) {
    forall o :: 0 <= o < |orders| ==> OrderOk(orders[o])
  }

  ghost predicate CartsOk(carts: map<nat, seq<CartItem>>) {
    forall u :: u in carts ==> CartOk(carts[u])
  }

  ghost predicate Inv(db: Db) {
    && LedgerOk(db.ledger)
    && ReservedIsDemand(db.ledger.stocks, db.orders)
    && Conserved(db)
    && TransferLegsOk(db.ledger.movements, db.transfers)
    && TransfersOk(db.transfers)
    && SalesOk(db.ledger.movements, db.payments, db.orders)
    && PaymentsOk(db.payments, db.orders)
    && DiscountsOk(db.discounts, db.usages, db.orders)
    && OrdersOk(db.orders)
    && CartsOk(db.carts)
  }
}
