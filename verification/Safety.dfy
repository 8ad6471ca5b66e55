/** Each operation keeps the invariants, so every run does. */
module Safety {
  import opened Common
  import opened Inventory
  import opened Reservations
  import opened Tables
  import opened Pricing
  import opened Checkout
  import opened Operations
  import opened Invariants
  import opened Preservation

  // ----- One order

  lemma {:induction false} HistoryAppend(h: seq<Change>, status: OrderStatus, next: OrderStatus)
    requires HistoryOk(h, status)
    ensures HistoryOk(h + [Change(Some(status), next)], next)
  {
  }

  lemma {:induction false} PaidOrderOk(o: Order)
    requires OrderOk(o) && o.status.PendingPayment?
    ensures OrderOk(MarkedPaid(o))
  {
    HistoryAppend(o.history, o.status, OrderStatus.Paid);
    assert PaidSellers(o.sellers, o.items).Keys == SellersOf(o.items);
  }

  lemma {:induction false} CancelledOrderOk(o: Order)
    requires OrderOk(o) && o.status.PendingPayment?
    ensures OrderOk(MarkedCancelled(o))
  {
    HistoryAppend(o.history, o.status, Cancelled);
  }

  lemma {:induction false} StartedOrderOk(o: Order)
    requires OrderOk(o) && o.status.Paid?
    ensures OrderOk(Started(o))
  {
    HistoryAppend(o.history, o.status, Processing);
  }

  /** A seller's fulfilment starts: the order ends in processing either way. */
  lemma {:induction false} FulfilmentOrderOk(o: Order, seller: nat)
    requires OrderOk(o) && o.payment.PaymentDone? && seller in SellersOf(o.items) && o.sellers[seller].Paid?
    ensures
      var o' := o.(sellers := o.sellers[seller := Processing]);
      OrderOk(if o.status.Paid? then Started(o') else o')
  {
    var o' := o.(sellers := o.sellers[seller := Processing]);
    assert o'.sellers.Keys == o.sellers.Keys;
    if o.status.Paid? {
      HistoryAppend(o.history, o.status, Processing);
    }
  }

  lemma {:induction false} ReservedFromCart(stocks: seq<Stock>, active: set<nat>, cart: seq<CartItem>)
    requires ReserveCart(stocks, active, cart).Ok?
    ensures FromCart(ReserveCart(stocks, active, cart).value.1, cart)
    decreases |cart|
  {
    if cart != [] {
      var i := FirstFit(stocks, active, cart[0].product, cart[0].quantity);
      ReservedFromCart(Reserve(stocks, i, cart[0].quantity).value, active, cart[1..]);
    }
  }

  /** The order's subtotal, copied from the cart, is the sum of its own items' totals. */
  lemma {:induction false} NewOrderOk(user: nat, cart: seq<CartItem>, items: seq<Item>, shipping: nat)
    requires cart != [] && CartOk(cart) && FromCart(items, cart)
    ensures OrderOk(NewOrder(user, cart, items, shipping))
  {
    SumPointwise(items, ITEM_TOTAL, cart, LINE_TOTAL);
    assert forall k :: 0 <= k < |cart| ==> CartItemOk(cart[k]);
    forall k | 0 <= k < |cart| ensures 0 <= LINE_TOTAL(cart[k]) {
      TotalNonNegative(cart[k]);
    }
    SumNonNegative(cart, LINE_TOTAL);
    assert forall k :: 0 <= k < |items| ==> ItemOk(items[k]);
    assert NewOrder(user, cart, items, shipping).sellers.Keys == SellersOf(items);
  }

  lemma {:induction false} DiscountedOrderOk(o: Order, h: int, mode: Rounding)
    requires OrderOk(o) && o.status.PendingPayment? && 0 <= h <= 100 * o.subtotal
    ensures OrderOk(Discounted(o, h, mode))
  {
    var gross := o.subtotal + o.shipping + o.tax;
    RoundIsNearest(mode, h);
    RoundIsNearest(mode, 100 * gross - h);
    StoredMoneyBounds(gross, o.subtotal, h, Round(mode, h), Round(mode, 100 * gross - h));
  }

  // ----- Operations on orders and payments

  /** Selling the items of a waiting order cannot fail, and keeps the ledger. */
  lemma {:induction false} WaitingOrderSells(l: Ledger, orders: seq<Order>, k: nat, payment: nat)
    requires LedgerOk(l) && ReservedIsDemand(l.stocks, orders)
    requires k < |orders| && orders[k].status.PendingPayment?
    ensures PayItems(l, orders[k].items, payment).Ok?
    ensures
      var l' := PayItems(l, orders[k].items, payment).value;
      && LedgerOk(l')
      && SoldBy(l.stocks, l'.stocks, orders[k].items)
      && SalesRecorded(l.movements, l'.movements, orders[k].items, payment)
      && (forall p: nat :: Sum(l'.stocks, UnitsOf(p)) == Sum(l.stocks, UnitsOf(p)) - Sum(orders[k].items, QtyOf(p)))
  {
    DemandCovers(l.stocks, orders, k);
    PayItemsEffect(l, orders[k].items, payment);
    PayItemsKeepsLedger(l, orders[k].items, payment);
    forall p: nat ensures Sum(PayItems(l, orders[k].items, payment).value.stocks, UnitsOf(p)) ==
                          Sum(l.stocks, UnitsOf(p)) - Sum(orders[k].items, QtyOf(p))
    {
      PayItemsMovesUnits(l, orders[k].items, payment, p);
    }
  }

  /** What a successful payment does to the tables, given the ledger after the sale. */
  ghost predicate SucceededTo(db: Db, db': Db, payment: nat, reference: string) {
    && payment < |db.payments| && db.payments[payment].order < |db.orders|
    && db.payments[payment].status.Pending?
    && var k := db.payments[payment].order;
    && !HasSuccess(db.payments, k, payment)
    && !ReferenceTaken(db.payments, db.payments[payment].provider, reference, payment)
    && db.orders[k].status.PendingPayment?
    && db' == db.(ledger := db'.ledger, payments := Captured(db.payments, payment, reference),
                  orders := db.orders[k := MarkedPaid(db.orders[k])])
    && PayItems(db.ledger, db.orders[k].items, payment) == Ok(db'.ledger)
  }

  lemma {:induction false} MarkSuccessKeeps(db: Db, payment: nat, reference: string, naive: bool)
    requires Inv(db) && MarkSuccess(db, payment, reference, naive).Ok?
    ensures SucceededTo(db, MarkSuccess(db, payment, reference, naive).value, payment, reference)
    ensures Inv(MarkSuccess(db, payment, reference, naive).value)
  {
    var db' := MarkSuccess(db, payment, reference, naive).value;
    SuccessKeepsStock(db, db', payment, reference);
    SuccessKeepsLegs(db, db', payment, reference);
    SuccessKeepsUnits(db, db', payment, reference);
    SuccessKeepsPayments(db.payments, db.orders, payment, reference, MarkedPaid(db.orders[db.payments[payment].order]));
  }

  lemma {:induction false} SuccessKeepsStock(db: Db, db': Db, payment: nat, reference: string)
    requires LedgerOk(db.ledger) && ReservedIsDemand(db.ledger.stocks, db.orders) && OrdersOk(db.orders)
    requires DiscountsOk(db.discounts, db.usages, db.orders)
    requires SucceededTo(db, db', payment, reference)
    ensures LedgerOk(db'.ledger) && ReservedIsDemand(db'.ledger.stocks, db'.orders)
    ensures OrdersOk(db'.orders) && DiscountsOk(db'.discounts, db'.usages, db'.orders)
  {
    var k := db.payments[payment].order;
    SoldKeepsStock(db.ledger, db'.ledger, db.orders, k, payment);
    assert OrderOk(db.orders[k]);
    PaidOrderOk(db.orders[k]);
    OrdersKeepDiscounts(db.discounts, db.usages, db.orders, db'.orders);
  }

  lemma {:induction false} SoldKeepsStock(l: Ledger, l': Ledger, orders: seq<Order>, k: nat, payment: nat)
    requires LedgerOk(l) && ReservedIsDemand(l.stocks, orders)
    requires k < |orders| && orders[k].status.PendingPayment?
    requires PayItems(l, orders[k].items, payment) == Ok(l')
    ensures LedgerOk(l') && ReservedIsDemand(l'.stocks, orders[k := MarkedPaid(orders[k])])
  {
    WaitingOrderSells(l, orders, k, payment);
    SettledKeepsDemand(l.stocks, l'.stocks, orders, k, MarkedPaid(orders[k]));
  }

  lemma {:induction false} SuccessKeepsLegs(db: Db, db': Db, payment: nat, reference: string)
    requires LedgerOk(db.ledger) && ReservedIsDemand(db.ledger.stocks, db.orders)
    requires TransferLegsOk(db.ledger.movements, db.transfers)
    requires SalesOk(db.ledger.movements, db.payments, db.orders) && PaymentsOk(db.payments, db.orders)
    requires SucceededTo(db, db', payment, reference)
    ensures TransferLegsOk(db'.ledger.movements, db'.transfers)
    ensures SalesOk(db'.ledger.movements, db'.payments, db'.orders)
  {
    var k := db.payments[payment].order;
    WaitingOrderSells(db.ledger, db.orders, k, payment);
    OthersKeepLegs(db.ledger.movements, db'.ledger.movements, db.transfers);
    forall j | 0 <= j < |db.payments|
      ensures db'.payments[j].order == db.payments[j].order < |db.orders|
      ensures j != payment ==> db'.payments[j].status.Success? == db.payments[j].status.Success?
    {
      assert PaymentOk(db.payments[j], db.orders);
      CapturedAt(db.payments, payment, reference, j);
    }
    CapturedAt(db.payments, payment, reference, payment);
    PaidKeepsSales(db.ledger.movements, db'.ledger.movements, db.payments, db.orders, db'.payments, db'.orders,
                   payment);
  }

  lemma {:induction false} SuccessKeepsUnits(db: Db, db': Db, payment: nat, reference: string)
    requires LedgerOk(db.ledger) && ReservedIsDemand(db.ledger.stocks, db.orders) && OrdersOk(db.orders)
    requires Conserved(db) && SucceededTo(db, db', payment, reference)
    ensures Conserved(db')
  {
    var k := db.payments[payment].order;
    assert OrderOk(db.orders[k]);
    WaitingOrderSells(db.ledger, db.orders, k, payment);
    SaleBalances(db, db', k, payment);
  }

  /** The units sold leave the rows and enter the paid order. */
  lemma {:induction false} SaleBalances(db: Db, db': Db, k: nat, payment: nat)
    requires Conserved(db) && db'.transfers == db.transfers
    requires k < |db.orders| && db'.orders == db.orders[k := MarkedPaid(db.orders[k])]
    requires !db.orders[k].payment.PaymentDone?
    requires forall j :: 0 <= j < |db.orders[k].items| ==> db.orders[k].items[j].warehouse.Some?
    requires SalesRecorded(db.ledger.movements, db'.ledger.movements, db.orders[k].items, payment)
    requires forall p: nat :: Sum(db'.ledger.stocks, UnitsOf(p)) ==
                         Sum(db.ledger.stocks, UnitsOf(p)) - Sum(db.orders[k].items, QtyOf(p))
    ensures Conserved(db')
  {
    forall x: nat ensures Balanced(db', x) {
      assert Balanced(db, x);
      SumUpdate(db.orders, k, MarkedPaid(db.orders[k]), SoldOf(x));
      ManualAppend(db.ledger.movements, db'.ledger.movements, x);
    }
  }

  /** What cancelling an order does to the tables. */
  ghost predicate CancelledTo(db: Db, db': Db, order: nat) {
    && order < |db.orders| && db.orders[order].status.PendingPayment?
    && ReleaseItems(db.ledger.stocks, db.orders[order].items) == Ok(db'.ledger.stocks)
    && db' == UndoDiscount(db, order).(
         ledger := db.ledger.(stocks := db'.ledger.stocks),
         payments := CancelAttempts(db.payments, order, |db.payments|),
         orders := db.orders[order := MarkedCancelled(db.orders[order])])
  }

  lemma {:induction false} CancelledIs(db: Db, caller: nat, staff: bool, order: nat)
    requires CancelOrder(db, caller, staff, order).Ok?
    ensures CancelledTo(db, CancelOrder(db, caller, staff, order).value, order)
  {
  }

  /** Releasing the items of a waiting order cannot fail, and keeps the ledger and the unit totals. */
  lemma {:induction false} WaitingOrderReleases(l: Ledger, orders: seq<Order>, k: nat)
    requires LedgerOk(l) && ReservedIsDemand(l.stocks, orders)
    requires k < |orders| && orders[k].status.PendingPayment?
    ensures ReleaseItems(l.stocks, orders[k].items).Ok?
    ensures
      var rows := ReleaseItems(l.stocks, orders[k].items).value;
      && LedgerOk(l.(stocks := rows)) && ReleasedBy(l.stocks, rows, orders[k].items)
      && ReservedIsDemand(rows, orders[k := MarkedCancelled(orders[k])])
      && (forall p: nat :: Sum(rows, UnitsOf(p)) == Sum(l.stocks, UnitsOf(p)))
  {
    DemandCovers(l.stocks, orders, k);
    ReleaseItemsEffect(l.stocks, orders[k].items);
    var rows := ReleaseItems(l.stocks, orders[k].items).value;
    ReservationsKeepLedger(l, rows);
    SettledKeepsDemand(l.stocks, rows, orders, k, MarkedCancelled(orders[k]));
    forall p: nat ensures Sum(rows, UnitsOf(p)) == Sum(l.stocks, UnitsOf(p)) {
      ReservationsKeepUnits(l.stocks, rows, p);
    }
  }

  lemma {:induction false} CancelOrderKeeps(db: Db, caller: nat, staff: bool, order: nat)
    requires Inv(db) && CancelOrder(db, caller, staff, order).Ok?
    ensures CancelledTo(db, CancelOrder(db, caller, staff, order).value, order)
    ensures Inv(CancelOrder(db, caller, staff, order).value)
  {
    var db' := CancelOrder(db, caller, staff, order).value;
    CancelledIs(db, caller, staff, order);
    CancelledKeeps(db, db', order);
  }

  lemma {:induction false} CancelledKeeps(db: Db, db': Db, order: nat)
    requires Inv(db) && CancelledTo(db, db', order)
    ensures Inv(db')
  {
    assert OrderOk(db.orders[order]);
    CancelledOrderOk(db.orders[order]);
    WaitingOrderReleases(db.ledger, db.orders, order);
    CancelledKeepsPayments(db.payments, db.orders, order, MarkedCancelled(db.orders[order]));
    CancelledKeepsSales(db, db', order);
    CancelledKeepsUnits(db, db', order);
    CancelledKeepsDiscounts(db, db', order);
  }

  lemma {:induction false} CancelledKeepsSales(db: Db, db': Db, order: nat)
    requires SalesOk(db.ledger.movements, db.payments, db.orders) && PaymentsOk(db.payments, db.orders)
    requires CancelledTo(db, db', order)
    ensures SalesOk(db'.ledger.movements, db'.payments, db'.orders)
  {
    assert forall k :: 0 <= k < |db.payments| ==> PaymentOk(db.payments[k], db.orders);
    SameSuccessesKeepSales(db.ledger.movements, db.payments, db.orders, db'.payments, db'.orders);
  }

  lemma {:induction false} CancelledKeepsUnits(db: Db, db': Db, order: nat)
    requires Conserved(db) && CancelledTo(db, db', order)
    requires forall p: nat :: Sum(db'.ledger.stocks, UnitsOf(p)) == Sum(db.ledger.stocks, UnitsOf(p))
    ensures Conserved(db')
  {
    forall x: nat ensures Balanced(db', x) {
      assert Balanced(db, x);
      SumUpdate(db.orders, order, MarkedCancelled(db.orders[order]), SoldOf(x));
    }
  }

  lemma {:induction false} CancelledKeepsDiscounts(db: Db, db': Db, order: nat)
    requires DiscountsOk(db.discounts, db.usages, db.orders) && CancelledTo(db, db', order)
    ensures DiscountsOk(db'.discounts, db'.usages, db'.orders)
  {
    if order in db.usages {
      UndoKeepsDiscounts(db.discounts, db.usages, db.orders, order);
    }
    OrdersKeepDiscounts(db'.discounts, db'.usages, db.orders, db'.orders);
  }

  /** A paid order moves on: items, payment, money owner and discount stay. */
  lemma {:induction false} PaidOrderMovesOn(db: Db, order: nat, o: Order)
    requires Inv(db) && order < |db.orders| && OrderOk(o)
    requires o.items == db.orders[order].items && o.payment == db.orders[order].payment
    requires o.user == db.orders[order].user && o.discount == db.orders[order].discount
    requires !db.orders[order].status.PendingPayment? && !o.status.PendingPayment? && !o.status.Cancelled?
    ensures Inv(db.(orders := db.orders[order := o]))
  {
    var db' := db.(orders := db.orders[order := o]);
    SameItemsKeepDemand(db.ledger.stocks, db.orders, order, o);
    OrderKeepsPayments(db.payments, db.orders, order, o);
    OrdersKeepDiscounts(db.discounts, db.usages, db.orders, db'.orders);
    assert forall k :: 0 <= k < |db.payments| ==> PaymentOk(db.payments[k], db.orders);
    SameSuccessesKeepSales(db.ledger.movements, db.payments, db.orders, db.payments, db'.orders);
    forall x: nat ensures Balanced(db', x) {
      assert Balanced(db, x);
      SumUpdate(db.orders, order, o, SoldOf(x));
    }
  }

  lemma {:induction false} StartKeeps(db: Db, seller: nat, order: nat)
    requires Inv(db)
    ensures StartFulfilment(db, seller, order).Ok? ==> Inv(StartFulfilment(db, seller, order).value)
    ensures StartProcessing(db, order).Ok? ==> Inv(StartProcessing(db, order).value)
  {
    if order < |db.orders| {
      var o := db.orders[order];
      assert OrderOk(o);
      if StartFulfilment(db, seller, order).Ok? {
        FulfilmentOrderOk(o, seller);
        var o' := o.(sellers := o.sellers[seller := Processing]);
        PaidOrderMovesOn(db, order, if o.status.Paid? then Started(o') else o');
      }
      if StartProcessing(db, order).Ok? {
        StartedOrderOk(o);
        PaidOrderMovesOn(db, order, Started(o));
      }
    }
  }

  // ----- Payments

  /** Payments change while every success and its order stay. */
  lemma {:induction false} PaymentsMoveOn(db: Db, ps: seq<Payment>)
    requires Inv(db) && PaymentsOk(ps, db.orders) && |db.payments| <= |ps|
    requires forall k :: 0 <= k < |db.payments| ==>
      ps[k].order == db.payments[k].order && ps[k].status.Success? == db.payments[k].status.Success?
    requires forall k :: |db.payments| <= k < |ps| ==> !ps[k].status.Success?
    ensures Inv(db.(payments := ps))
  {
    assert forall k :: 0 <= k < |db.payments| ==> PaymentOk(db.payments[k], db.orders);
    SameSuccessesKeepSales(db.ledger.movements, db.payments, db.orders, ps, db.orders);
    forall x: nat ensures Balanced(db.(payments := ps), x) {
      assert Balanced(db, x);
    }
  }

  lemma {:induction false} CreatePaymentKeeps(db: Db, caller: nat, staff: bool, order: nat, provider: nat)
    requires Inv(db) && CreatePayment(db, caller, staff, order, provider).Ok?
    ensures Inv(CreatePayment(db, caller, staff, order, provider).value.0)
  {
    var o := db.orders[order];
    var p := Payment(order, o.user, provider, Pending, o.total, "");
    if PendingAttempt(db.payments, order, provider) == |db.payments| {
      AttemptKeepsPayments(db.payments, db.orders, p);
      PaymentsMoveOn(db, db.payments + [p]);
    }
  }

  lemma {:induction false} EndedAttemptKeeps(db: Db, payment: nat)
    requires Inv(db)
    ensures MarkFailed(db, payment).Ok? ==> Inv(MarkFailed(db, payment).value)
    ensures CancelPayment(db, payment).Ok? ==> Inv(CancelPayment(db, payment).value)
  {
    if MarkFailed(db, payment).Ok? {
      EndedKeepsPayments(db.payments, db.orders, payment, Failed);
      PaymentsMoveOn(db, MarkFailed(db, payment).value.payments);
    }
    if CancelPayment(db, payment).Ok? {
      EndedKeepsPayments(db.payments, db.orders, payment, PaymentCancelled);
      PaymentsMoveOn(db, CancelPayment(db, payment).value.payments);
    }
  }

  // ----- Checkout

  /** What placing an order does to the tables before any discount. */
  ghost predicate PlacedTo(db: Db, db': Db, user: nat, o: Order) {
    && db' == db.(ledger := db.ledger.(stocks := db'.ledger.stocks), orders := db.orders + [o], carts := db'.carts)
    && ReservedBy(db.ledger.stocks, db'.ledger.stocks, o.items) && RowsOk(db'.ledger.stocks)
    && AllPlaced(db.ledger.stocks, o.items)
    && o.user == user && o.status.PendingPayment? && o.payment.Unpaid?
  }

  lemma {:induction false} PlacedKeeps(db: Db, db': Db, user: nat, o: Order)
    requires Inv(db) && PlacedTo(db, db', user, o) && OrderOk(o) && CartsOk(db'.carts)
    ensures Inv(db')
  {
    ReservationsKeepLedger(db.ledger, db'.ledger.stocks);
    PlacedKeepsDemand(db.ledger.stocks, db'.ledger.stocks, db.orders, o);
    NewOrderKeepsPayments(db.payments, db.orders, o);
    OrdersKeepDiscounts(db.discounts, db.usages, db.orders, db'.orders);
    assert forall k :: 0 <= k < |db.payments| ==> PaymentOk(db.payments[k], db.orders);
    SameSuccessesKeepSales(db.ledger.movements, db.payments, db.orders, db.payments, db'.orders);
    forall x: nat ensures Balanced(db', x) {
      assert Balanced(db, x);
      ReservationsKeepUnits(db.ledger.stocks, db'.ledger.stocks, x);
      SumAppend(db.orders, o, SoldOf(x));
    }
  }

  /** A waiting order's money changes; nothing that other tables refer to does. */
  lemma {:induction false} RepricedKeeps(db: Db, order: nat, o: Order, ds: seq<Discount>, usages: map<nat, Usage>)
    requires Inv(db) && order < |db.orders| && OrderOk(o) && o.status.PendingPayment?
    requires db.orders[order].status.PendingPayment? && o.items == db.orders[order].items
    requires o.payment == db.orders[order].payment
    requires forall k :: 0 <= k < |db.payments| ==> db.payments[k].order != order
    requires DiscountsOk(ds, usages, db.orders[order := o])
    ensures Inv(db.(orders := db.orders[order := o], discounts := ds, usages := usages))
  {
    var db' := db.(orders := db.orders[order := o], discounts := ds, usages := usages);
    SameItemsKeepDemand(db.ledger.stocks, db.orders, order, o);
    assert forall k :: 0 <= k < |db.payments| ==> PaymentOk(db.payments[k], db.orders);
    SameSuccessesKeepSales(db.ledger.movements, db.payments, db.orders, db.payments, db'.orders);
    forall x: nat ensures Balanced(db', x) {
      assert Balanced(db, x);
      SumUpdate(db.orders, order, o, SoldOf(x));
    }
    forall j | 0 <= j < |db'.orders| && db'.orders[j].payment.PaymentDone?
      ensures HasSuccess(db.payments, j, |db.payments|)
    {
      assert db.orders[j].payment.PaymentDone?;
    }
  }

  /** The amount an accepted discount takes from this order is positive and within its subtotal. */
  lemma {:induction false} AcceptedAmount(db: Db, d: nat, user: nat, cart: seq<CartItem>, now: int)
    requires DiscountsOk(db.discounts, db.usages, db.orders) && CartOk(cart)
    requires CheckDiscount(db, d, user, cart, now).Ok?
    ensures 0 < CheckDiscount(db, d, user, cart, now).value <= 100 * Subtotal(cart)
  {
    assert DiscountOk(db.discounts[d], d, db.usages);
    assert forall k :: 0 <= k < |cart| ==> CartItemOk(cart[k]);
    DiscountWithinSubtotal(db.discounts[d], db.discounts[d].usedCount, |UsesBy(db.usages, d, user)|, cart, cart, now);
  }

  /** Recording the use of an accepted discount keeps the counters and the limits. */
  lemma {:induction false} AcceptedUse(
    db: Db, d: nat, user: nat, cart: seq<CartItem>, order: nat, now: int, os: seq<Order>, amount: int)
    requires DiscountsOk(db.discounts, db.usages, os) && CheckDiscount(db, d, user, cart, now).Ok?
    requires order !in db.usages && UsageOk(Usage(d, user, amount), order, db.discounts, os)
    ensures DiscountsOk(db.discounts[d := db.discounts[d].(usedCount := db.discounts[d].usedCount + 1)],
                        db.usages[order := Usage(d, user, amount)], os)
  {
    UseKeepsDiscounts(db.discounts, db.usages, os, d, order, Usage(d, user, amount));
  }

  lemma {:induction false} ApplyDiscountKeeps(
    db: Db, d: nat, user: nat, cart: seq<CartItem>, order: nat, now: int, mode: Rounding)
    requires Inv(db) && order < |db.orders| && CartOk(cart)
    requires ApplyDiscount(db, d, user, cart, cart, order, now, mode).Ok?
    requires db.orders[order].status.PendingPayment? && db.orders[order].user == user
    requires db.orders[order].subtotal == Subtotal(cart) && order !in db.usages
    requires forall k :: 0 <= k < |db.payments| ==> db.payments[k].order != order
    ensures Inv(ApplyDiscount(db, d, user, cart, cart, order, now, mode).value)
  {
    var h := CheckDiscount(db, d, user, cart, now).value;
    var o := Discounted(db.orders[order], h, mode);
    AcceptedAmount(db, d, user, cart, now);
    assert OrderOk(db.orders[order]);
    DiscountedOrderOk(db.orders[order], h, mode);
    OrdersKeepDiscounts(db.discounts, db.usages, db.orders, db.orders[order := o]);
    AcceptedUse(db, d, user, cart, order, now, db.orders[order := o], Round(mode, h));
    RepricedKeeps(db, order, o,
      db.discounts[d := db.discounts[d].(usedCount := db.discounts[d].usedCount + 1)],
      db.usages[order := Usage(d, user, Round(mode, h))]);
  }

  /** The database after the reservation loop and before the discount. */
  function PlacedDb(db: Db, user: nat, shipping: nat): Db
    requires user in db.carts && ReserveCart(db.ledger.stocks, db.activeWarehouses, db.carts[user]).Ok?
  {
    var reserved := ReserveCart(db.ledger.stocks, db.activeWarehouses, db.carts[user]).value;
    db.(ledger := db.ledger.(stocks := reserved.0),
        orders := db.orders + [NewOrder(user, db.carts[user], reserved.1, shipping)])
  }

  lemma {:induction false} PlacedDbKeeps(db: Db, user: nat, shipping: nat)
    requires Inv(db) && user in db.carts && db.carts[user] != []
    requires ReserveCart(db.ledger.stocks, db.activeWarehouses, db.carts[user]).Ok?
    ensures Inv(PlacedDb(db, user, shipping))
  {
    var cart := db.carts[user];
    assert CartOk(cart);
    QuantitiesPositive(cart);
    ReserveCartEffect(db.ledger.stocks, db.activeWarehouses, cart);
    ReservedFromCart(db.ledger.stocks, db.activeWarehouses, cart);
    var items := ReserveCart(db.ledger.stocks, db.activeWarehouses, cart).value.1;
    NewOrderOk(user, cart, items, shipping);
    PlacedKeeps(db, PlacedDb(db, user, shipping), user, NewOrder(user, cart, items, shipping));
  }

  lemma {:induction false} CartsMoveOn(db: Db, carts: map<nat, seq<CartItem>>)
    requires Inv(db) && CartsOk(carts)
    ensures Inv(db.(carts := carts))
  {
    forall x: nat ensures Balanced(db.(carts := carts), x) {
      assert Balanced(db, x);
    }
  }

  lemma {:induction false} PlaceOrderKeeps(
    db: Db, user: nat, discount: Option<nat>, shipping: nat, seen: int, now: int, mode: Rounding, db': Db)
    requires Inv(db) && PlaceOrder(db, user, discount, shipping, seen, now, mode) == Ok(db')
    ensures Inv(db')
  {
    var cart := db.carts[user];
    PlacedDbKeeps(db, user, shipping);
    var placed := PlacedDb(db, user, shipping);
    var carts := db.carts[user := []];
    assert CartsOk(carts);
    if discount.None? {
      CartsMoveOn(placed, carts);
    } else {
      FreshOrder(db);
      assert CartOk(cart);
      ApplyDiscountKeeps(placed, discount.value, user, cart, |db.orders|, now, mode);
      CartsMoveOn(ApplyDiscount(placed, discount.value, user, cart, cart, |db.orders|, now, mode).value, carts);
    }
  }

  /** No usage and no payment names an order that does not exist yet. */
  lemma {:induction false} FreshOrder(db: Db)
    requires DiscountsOk(db.discounts, db.usages, db.orders) && PaymentsOk(db.payments, db.orders)
    ensures |db.orders| !in db.usages
    ensures forall k :: 0 <= k < |db.payments| ==> db.payments[k].order != |db.orders|
  {
    assert forall o :: o in db.usages ==> UsageOk(db.usages[o], o, db.discounts, db.orders);
    assert forall k :: 0 <= k < |db.payments| ==> PaymentOk(db.payments[k], db.orders);
  }

  lemma {:induction false} AddToCartKeeps(db: Db, user: nat, listed: bool, c: CartItem)
    requires Inv(db) && AddToCart(db, user, listed, c).Ok?
    ensures Inv(AddToCart(db, user, listed, c).value)
  {
    var carts := AddToCart(db, user, listed, c).value.carts;
    AddedCartsOk(db, user, listed, c, carts);
    CartsMoveOn(db, carts);
  }

  lemma {:induction false} AddedCartsOk(
    db: Db, user: nat, listed: bool, c: CartItem, carts: map<nat, seq<CartItem>>)
    requires CartsOk(db.carts)
    requires AddToCart(db, user, listed, c).Ok? && AddToCart(db, user, listed, c).value.carts == carts
    ensures CartsOk(carts) && AddToCart(db, user, listed, c) == Ok(db.(carts := carts))
  {
    assert CartOk(CartOf(db, user));
    AddedCartOk(CartOf(db, user), c);
  }

  lemma {:induction false} RemoveFromCartKeeps(db: Db, user: nat, p: nat)
    requires Inv(db) && RemoveFromCart(db, user, p).Ok?
    ensures Inv(RemoveFromCart(db, user, p).value)
  {
    assert CartOk(CartOf(db, user));
    RemovedCartOk(CartOf(db, user), InCart(CartOf(db, user), p));
    CartsMoveOn(db, RemoveFromCart(db, user, p).value.carts);
  }

  lemma {:induction false} UpdateCartKeeps(db: Db, user: nat, p: nat, quantity: int, price: nat)
    requires Inv(db) && UpdateCart(db, user, p, quantity, price).Ok?
    ensures Inv(UpdateCart(db, user, p, quantity, price).value)
  {
    var cart := CartOf(db, user);
    assert CartOk(cart);
    var k := InCart(cart, p);
    var carts := db.carts[user := cart[k := cart[k].(quantity := quantity, unitPrice := price)]];
    assert CartsOk(carts);
    CartsMoveOn(db, carts);
  }

  lemma {:induction false} AddedCartOk(cart: seq<CartItem>, c: CartItem)
    requires CartOk(cart) && 0 < c.quantity
    ensures
      var k := InCart(cart, c.product);
      CartOk(if k == |cart| then [c] + cart
             else cart[k := cart[k].(quantity := cart[k].quantity + c.quantity, unitPrice := c.unitPrice)])
  {
    var k := InCart(cart, c.product);
    if k == |cart| {
      assert forall j :: 0 < j < |[c] + cart| ==> ([c] + cart)[j] == cart[j - 1];
    } else {
      assert CartItemOk(cart[k]);
    }
  }

  lemma {:induction false} RemovedCartOk(cart: seq<CartItem>, k: nat)
    requires CartOk(cart) && k < |cart|
    ensures CartOk(cart[..k] + cart[k + 1..])
  {
    var less := cart[..k] + cart[k + 1..];
    assert forall j :: 0 <= j < |less| ==> less[j] == cart[if j < k then j else j + 1];
  }

  // ----- Inventory and transfers

  /** The ledger and the transfers change together; orders and payments do not. */
  lemma {:induction false} LedgerMovesOn(db: Db, l: Ledger, ts: seq<Transfer>)
    requires Inv(db) && LedgerOk(l) && ReservedIsDemand(l.stocks, db.orders)
    requires TransferLegsOk(l.movements, ts) && TransfersOk(ts) && SalesOk(l.movements, db.payments, db.orders)
    requires forall p: nat :: Balanced(db.(ledger := l, transfers := ts), p)
    ensures Inv(db.(ledger := l, transfers := ts))
  {
  }

  lemma {:induction false} MoveByHandBalances(
    db: Db, p: nat, w: nat, kind: MovementType, q: int, ref: Reference, l: Ledger, x: nat)
    requires Balanced(db, x) && kind.Manual() && Record(db.ledger, p, w, kind, q, ref) == Ok(l)
    ensures Balanced(db.(ledger := l, transfers := db.transfers), x)
  {
    RecordAppends(db.ledger, p, w, kind, q, ref, l);
    RecordMovesUnits(db.ledger, p, w, kind, q, ref, x);
    SumAppend(db.ledger.movements, l.movements[|db.ledger.movements|], ManualOf(x));
  }

  lemma {:induction false} MoveByHandKeeps(db: Db, p: nat, w: nat, kind: MovementType, q: int, ref: Reference)
    requires Inv(db) && MoveByHand(db, p, w, kind, q, ref).Ok?
    ensures Inv(MoveByHand(db, p, w, kind, q, ref).value)
  {
    var l := Record(db.ledger, p, w, kind, q, ref).value;
    RecordKeepsLedger(db.ledger, p, w, kind, q, ref);
    RecordKeepsDemand(db.ledger, db.orders, p, w, kind, q, ref);
    RecordAppends(db.ledger, p, w, kind, q, ref, l);
    OthersKeepLegs(db.ledger.movements, l.movements, db.transfers);
    OthersKeepSales(db.ledger.movements, l.movements, db.payments, db.orders);
    forall x: nat ensures Balanced(db.(ledger := l, transfers := db.transfers), x) {
      assert Balanced(db, x);
      MoveByHandBalances(db, p, w, kind, q, ref, l, x);
    }
    LedgerMovesOn(db, l, db.transfers);
  }

  lemma {:induction false} CreateStockKeeps(db: Db, p: nat, w: nat)
    requires Inv(db) && CreateStock(db, p, w).Ok?
    ensures Inv(CreateStock(db, p, w).value)
  {
    var l := db.ledger.(stocks := WithRow(db.ledger.stocks, p, w));
    WithRowOk(db.ledger, p, w);
    RowIndex(db.ledger.stocks, p, w);
    assert l.stocks[..|db.ledger.stocks|] == db.ledger.stocks;
    QuantitiesKeepDemand(db.ledger.stocks, l.stocks, db.orders);
    forall x: nat ensures Balanced(db.(ledger := l, transfers := db.transfers), x) {
      assert Balanced(db, x);
      WithRowUnits(db.ledger.stocks, p, w, x);
    }
    LedgerMovesOn(db, l, db.transfers);
  }

  /** A transfer is added or changes status without moving units. */
  lemma {:induction false} TransferWaits(db: Db, ts: seq<Transfer>)
    requires Inv(db) && TransfersOk(ts) && |db.transfers| <= |ts|
    requires forall t :: 0 <= t < |db.transfers| && ts[t] != db.transfers[t] ==>
               ExpectedLegs(db.transfers[t]) == [] && ExpectedLegs(ts[t]) == []
    requires forall t :: |db.transfers| <= t < |ts| ==> ExpectedLegs(ts[t]) == []
    ensures Inv(db.(transfers := ts))
  {
    forall t: nat ensures LegsNamed(db.ledger.movements, t) == if t < |ts| then ExpectedLegs(ts[t]) else [] {
      assert LegsNamed(db.ledger.movements, t) == if t < |db.transfers| then ExpectedLegs(db.transfers[t]) else [];
    }
    var old' := ts[..|db.transfers|];
    assert ts == old' + ts[|db.transfers|..];
    forall x: nat ensures Balanced(db.(ledger := db.ledger, transfers := ts), x) {
      assert Balanced(db, x);
      forall t | 0 <= t < |old'| ensures TransitOf(x)(old'[t]) == TransitOf(x)(db.transfers[t]) {
        assert ts[t] == old'[t];
      }
      SumPointwise(old', TransitOf(x), db.transfers, TransitOf(x));
      SumConcat(old', ts[|db.transfers|..], TransitOf(x));
      SumZero(ts[|db.transfers|..], TransitOf(x));
    }
    LedgerMovesOn(db, db.ledger, ts);
  }

  /** A recorded leg of transfer t extends its legs and nobody else's. */
  lemma {:induction false} LegAppend(ms: seq<Movement>, transfers: seq<Transfer>, t: nat, m: Movement, x: Transfer)
    requires TransferLegsOk(ms, transfers) && t < |transfers|
    requires LegsOf(t)(m) && ExpectedLegs(x) == ExpectedLegs(transfers[t]) + [LegOf(m)]
    ensures TransferLegsOk(ms + [m], transfers[t := x])
  {
    var ts := transfers[t := x];
    forall j: nat ensures LegsNamed(ms + [m], j) == if j < |ts| then ExpectedLegs(ts[j]) else [] {
      FilterAppend(ms, m, LegsOf(j));
      LegsConcat(Filter(ms, LegsOf(j)), [m]);
      assert LegsNamed(ms, j) == if j < |transfers| then ExpectedLegs(transfers[j]) else [];
    }
  }

  /** A leg of transfer t: the units recorded and the units in transit change together. */
  ghost predicate MovesLeg(db: Db, t: nat, w: nat, kind: MovementType, q: int, x: Transfer) {
    && t < |db.transfers| && (kind.TransferOut? || kind.TransferIn?)
    && Record(db.ledger, x.product, w, kind, q, ForTransfer(t)).Ok?
    && x.product == db.transfers[t].product && TransferOk(x)
    && ExpectedLegs(x) == ExpectedLegs(db.transfers[t]) + [Leg(kind, x.product, w, q)]
    && forall p :: TransitOf(p)(x) - TransitOf(p)(db.transfers[t]) == if p == x.product then -q else 0
  }

  lemma {:induction false} LegBalances(
    db: Db, t: nat, w: nat, kind: MovementType, q: int, x: Transfer, l: Ledger, p: nat)
    requires Balanced(db, p) && MovesLeg(db, t, w, kind, q, x)
    requires Record(db.ledger, x.product, w, kind, q, ForTransfer(t)) == Ok(l)
    ensures Balanced(db.(ledger := l, transfers := db.transfers[t := x]), p)
  {
    var ms := db.ledger.movements;
    RecordAppends(db.ledger, x.product, w, kind, q, ForTransfer(t), l);
    RecordMovesUnits(db.ledger, x.product, w, kind, q, ForTransfer(t), p);
    SumUpdate(db.transfers, t, x, TransitOf(p));
    SumAppend(ms, l.movements[|ms|], ManualOf(p));
  }

  lemma {:induction false} LegKeepsLedger(db: Db, t: nat, w: nat, kind: MovementType, q: int, x: Transfer, l: Ledger)
    requires Inv(db) && MovesLeg(db, t, w, kind, q, x)
    requires Record(db.ledger, x.product, w, kind, q, ForTransfer(t)) == Ok(l)
    ensures LedgerOk(l) && ReservedIsDemand(l.stocks, db.orders)
    ensures TransferLegsOk(l.movements, db.transfers[t := x])
    ensures SalesOk(l.movements, db.payments, db.orders)
  {
    var ms := db.ledger.movements;
    RecordKeepsLedger(db.ledger, x.product, w, kind, q, ForTransfer(t));
    RecordKeepsDemand(db.ledger, db.orders, x.product, w, kind, q, ForTransfer(t));
    RecordAppends(db.ledger, x.product, w, kind, q, ForTransfer(t), l);
    LegAppend(ms, db.transfers, t, l.movements[|ms|], x);
    OthersKeepSales(ms, l.movements, db.payments, db.orders);
  }

  /** Goods issue or goods receipt: one movement and one status. */
  lemma {:induction false} TransferMoves(db: Db, t: nat, w: nat, kind: MovementType, q: int, x: Transfer, l: Ledger)
    requires Inv(db) && MovesLeg(db, t, w, kind, q, x)
    requires Record(db.ledger, x.product, w, kind, q, ForTransfer(t)) == Ok(l)
    ensures Inv(db.(ledger := l, transfers := db.transfers[t := x]))
  {
    var ts := db.transfers[t := x];
    LegKeepsLedger(db, t, w, kind, q, x, l);
    forall p: nat ensures Balanced(db.(ledger := l, transfers := ts), p) {
      assert Balanced(db, p);
      LegBalances(db, t, w, kind, q, x, l, p);
    }
    LedgerMovesOn(db, l, ts);
  }

  lemma {:induction false} DecisionsKeep(db: Db, t: nat, user: nat)
    requires Inv(db)
    ensures ApproveTransfer(db, t, user).Ok? ==> Inv(ApproveTransfer(db, t, user).value)
    ensures CancelTransfer(db, t, user).Ok? ==> Inv(CancelTransfer(db, t, user).value)
  {
    if ApproveTransfer(db, t, user).Ok? {
      assert TransferOk(db.transfers[t]);
      TransferWaits(db, ApproveTransfer(db, t, user).value.transfers);
    }
    if CancelTransfer(db, t, user).Ok? {
      assert TransferOk(db.transfers[t]);
      TransferWaits(db, CancelTransfer(db, t, user).value.transfers);
    }
  }

  lemma {:induction false} ShipKeeps(db: Db, t: nat, member: bool)
    requires Inv(db) && ShipTransfer(db, t, member).Ok?
    ensures Inv(ShipTransfer(db, t, member).value)
  {
    var x := db.transfers[t];
    assert TransferOk(x);
    TransferMoves(db, t, x.source, TransferOut, -x.quantity, x.(status := InTransit),
                  ShipTransfer(db, t, member).value.ledger);
  }

  lemma {:induction false} ReceiveKeeps(db: Db, t: nat, member: bool)
    requires Inv(db) && ReceiveTransfer(db, t, member).Ok?
    ensures Inv(ReceiveTransfer(db, t, member).value)
  {
    var x := db.transfers[t];
    assert TransferOk(x);
    TransferMoves(db, t, x.dest, TransferIn, x.quantity, x.(status := Completed),
                  ReceiveTransfer(db, t, member).value.ledger);
  }

  lemma {:induction false} RequestTransferKeeps(db: Db, source: nat, dest: nat, p: nat, q: int, user: Option<nat>)
    requires Inv(db) && RequestTransfer(db, source, dest, p, q, user).Ok?
    ensures Inv(RequestTransfer(db, source, dest, p, q, user).value)
  {
    TransferWaits(db, RequestTransfer(db, source, dest, p, q, user).value.transfers);
  }

  lemma {:induction false} WarehouseKeeps(db: Db, w: nat, active: bool)
    requires Inv(db)
    ensures Inv(SetWarehouse(db, w, active))
  {
    forall x: nat ensures Balanced(SetWarehouse(db, w, active), x) {
      assert Balanced(db, x);
    }
  }

  lemma {:induction false} CreateDiscountKeeps(db: Db, d: Discount)
    requires Inv(db) && CreateDiscount(db, d).Ok?
    ensures Inv(CreateDiscount(db, d).value)
  {
    NewDiscountKeeps(db.discounts, db.usages, db.orders, d.(usedCount := 0));
    forall x: nat ensures Balanced(CreateDiscount(db, d).value, x) {
      assert Balanced(db, x);
    }
  }

  // ----- Runs

  predicate Trades(c: Command) {
    c.DoAddToCart? || c.DoRemoveFromCart? || c.DoUpdateCart? || c.DoClearCart? || c.DoPlaceOrder?
    || c.DoCreatePayment? || c.DoMarkSuccess?
    || c.DoMarkFailed? || c.DoCancelPayment? || c.DoCancelOrder?
  }

  lemma {:induction false} TradesKeep(db: Db, c: Command)
    requires Inv(db) && Trades(c) && Perform(db, c).Ok?
    ensures Inv(Perform(db, c).value)
  {
    match c
    case DoAddToCart(u, l, x) => AddToCartKeeps(db, u, l, x);
    case DoRemoveFromCart(u, p) => RemoveFromCartKeeps(db, u, p);
    case DoUpdateCart(u, p, q, x) => UpdateCartKeeps(db, u, p, q, x);
    case DoClearCart(u) => CartsMoveOn(db, db.carts[u := []]);
    case DoPlaceOrder(u, d, s, seen, now, mode) => PlaceOrderKeeps(db, u, d, s, seen, now, mode, Perform(db, c).value);
    case DoCreatePayment(u, s, o, p) => CreatePaymentKeeps(db, u, s, o, p);
    case DoMarkSuccess(p, ref, naive) => MarkSuccessKeeps(db, p, ref, naive);
    case DoMarkFailed(p) => EndedAttemptKeeps(db, p);
    case DoCancelPayment(p) => EndedAttemptKeeps(db, p);
    case DoCancelOrder(u, s, o) => CancelOrderKeeps(db, u, s, o);
  }

  lemma {:induction false} OthersKeep(db: Db, c: Command)
    requires Inv(db) && !Trades(c) && Perform(db, c).Ok?
    ensures Inv(Perform(db, c).value)
  {
    match c
    case DoStartFulfilment(s, o) => StartKeeps(db, s, o);
    case DoStartProcessing(o) => StartKeeps(db, 0, o);
    case DoMoveByHand(p, w, k, q, ref) => MoveByHandKeeps(db, p, w, k, q, ref);
    case DoCreateStock(p, w) => CreateStockKeeps(db, p, w);
    case DoSetWarehouse(w, a) => WarehouseKeeps(db, w, a);
    case DoRequestTransfer(s, d, p, q, u) => RequestTransferKeeps(db, s, d, p, q, u);
    case DoApproveTransfer(t, u) => DecisionsKeep(db, t, u);
    case DoShipTransfer(t, a) => ShipKeeps(db, t, a);
    case DoReceiveTransfer(t, a) => ReceiveKeeps(db, t, a);
    case DoCancelTransfer(t, u) => DecisionsKeep(db, t, u);
    case DoCreateDiscount(d) => CreateDiscountKeeps(db, d);
  }

  /** Every request keeps every invariant. */
  lemma {:induction false} PerformKeeps(db: Db, c: Command)
    requires Inv(db) && Perform(db, c).Ok?
    ensures Inv(Perform(db, c).value)
  {
    if Trades(c) {
      TradesKeep(db, c);
    } else {
      OthersKeep(db, c);
    }
  }

  lemma {:induction false} EmptyOk()
    ensures Inv(EMPTY)
  {
    forall p: nat ensures Balanced(EMPTY, p) {
    }
  }

  /** Every database that any sequence of requests can reach from the empty one satisfies the invariants. */
  lemma {:induction false} RunsAreSafe(commands: seq<Command>)
    ensures Inv(Run(EMPTY, commands))
  {
    EmptyOk();
    RunKeeps(EMPTY, commands);
  }

  lemma {:induction false} RunKeeps(db: Db, commands: seq<Command>)
    requires Inv(db)
    ensures Inv(Run(db, commands))
    decreases |commands|
  {
    if commands != [] {
      var before := commands[..|commands| - 1];
      RunKeeps(db, before);
      var c := commands[|commands| - 1];
      if Perform(Run(db, before), c).Ok? {
        PerformKeeps(Run(db, before), c);
      }
    }
  }
}
