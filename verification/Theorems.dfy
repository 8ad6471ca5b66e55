/** What holds of every database that requests can reach, and of whole stretches of requests. */
module Theorems {
  import opened Common
  import opened Inventory
  import opened Reservations
  import opened Tables
  import opened Pricing
  import opened Checkout
  import opened Operations
  import opened Invariants
  import opened Preservation
  import opened Safety

  lemma {:induction false} ReachableOk(db: Db)
    requires Reachable(db)
    ensures Inv(db)
  {
    var commands :| db == Run(EMPTY, commands);
    RunsAreSafe(commands);
  }

  // ----- Stock

  /** Reservations are exactly the items of unpaid orders, and never exceed the quantity. */
  lemma {:induction false} ReservationsMatchOrders(db: Db, i: nat)
    requires Reachable(db) && i < |db.ledger.stocks|
    ensures db.ledger.stocks[i].reserved == Demand(db.orders, db.ledger.stocks[i])
    ensures 0 <= db.ledger.stocks[i].reserved <= db.ledger.stocks[i].quantity
  {
    ReachableOk(db);
  }

  /** Units of a product in all warehouses and in transit are the net manual movements minus the units
      of paid orders; so paid orders never hold more units than ever came in. */
  lemma {:induction false} UnitsAreConserved(db: Db, p: nat)
    requires Reachable(db)
    ensures Sum(db.ledger.stocks, UnitsOf(p)) + Sum(db.transfers, TransitOf(p))
            == Sum(db.ledger.movements, ManualOf(p)) - Sum(db.orders, SoldOf(p))
    ensures Sum(db.orders, SoldOf(p)) <= Sum(db.ledger.movements, ManualOf(p))
  {
    ReachableOk(db);
    assert Balanced(db, p);
    SumNonNegative(db.ledger.stocks, UnitsOf(p));
    assert forall t :: 0 <= t < |db.transfers| ==> TransferOk(db.transfers[t]);
    SumNonNegative(db.transfers, TransitOf(p));
  }

  lemma {:induction false} ChainedAt(ms: seq<Movement>, k: nat)
    requires Chained(ms) && k < |ms|
    ensures ms[k].before == Replay(ms[..k], ms[k].product, ms[k].warehouse)
    ensures ms[k].after == ms[k].before + ms[k].quantity
    decreases |ms|
  {
    var prior := ms[..|ms| - 1];
    if k < |prior| {
      ChainedAt(prior, k);
      assert prior[..k] == ms[..k];
    }
  }

  lemma {:induction false} NothingBetween(ms: seq<Movement>, j: nat, k: nat)
    requires j < k <= |ms|
    requires forall i :: j < i < k ==> !(ms[i].product == ms[j].product && ms[i].warehouse == ms[j].warehouse)
    ensures Replay(ms[..k], ms[j].product, ms[j].warehouse) ==
            Replay(ms[..j], ms[j].product, ms[j].warehouse) + ms[j].quantity
  {
    var f := MovedAt(ms[j].product, ms[j].warehouse);
    assert ms[..k] == (ms[..j] + [ms[j]]) + ms[j + 1..k];
    SumConcat(ms[..j] + [ms[j]], ms[j + 1..k], f);
    SumAppend(ms[..j], ms[j], f);
    SumZero(ms[j + 1..k], f);
  }

  /** Successive movements of one row continue each other's counters. */
  lemma {:induction false} LedgerChains(db: Db, j: nat, k: nat)
    requires Reachable(db) && j < k < |db.ledger.movements|
    requires db.ledger.movements[j].product == db.ledger.movements[k].product
    requires db.ledger.movements[j].warehouse == db.ledger.movements[k].warehouse
    requires forall i :: j < i < k ==> !(db.ledger.movements[i].product == db.ledger.movements[j].product
                                         && db.ledger.movements[i].warehouse == db.ledger.movements[j].warehouse)
    ensures db.ledger.movements[k].before == db.ledger.movements[j].after
  {
    ReachableOk(db);
    var ms := db.ledger.movements;
    ChainedAt(ms, j);
    ChainedAt(ms, k);
    NothingBetween(ms, j, k);
  }

  /** Every row holds what its last movement recorded, and the sum of all its movements. */
  lemma {:induction false} LedgerRefinesCounters(db: Db, i: nat, j: nat)
    requires Reachable(db) && i < |db.ledger.stocks| && j < |db.ledger.movements|
    requires db.ledger.stocks[i].At(db.ledger.movements[j].product, db.ledger.movements[j].warehouse)
    requires forall k :: j < k < |db.ledger.movements| ==>
               !db.ledger.stocks[i].At(db.ledger.movements[k].product, db.ledger.movements[k].warehouse)
    ensures db.ledger.stocks[i].quantity == db.ledger.movements[j].after
    ensures db.ledger.stocks[i].quantity ==
            Replay(db.ledger.movements, db.ledger.stocks[i].product, db.ledger.stocks[i].warehouse)
  {
    ReachableOk(db);
    var ms := db.ledger.movements;
    ChainedAt(ms, j);
    NothingBetween(ms, j, |ms|);
    assert ms[..|ms|] == ms;
  }

  // ----- Operations that cannot fail

  /** Completing a payment succeeds exactly for a pending attempt, a timezone-aware time and a reference
      that no other capture of the provider carries: order state, amount and stock never refuse it. */
  lemma {:induction false} PaymentCompletes(db: Db, payment: nat, reference: string, naive: bool)
    requires Reachable(db)
    ensures MarkSuccess(db, payment, reference, naive).Ok? <==>
              && payment < |db.payments| && db.payments[payment].status.Pending?
              && !naive && !ReferenceTaken(db.payments, db.payments[payment].provider, reference, payment)
  {
    ReachableOk(db);
    if payment < |db.payments| && db.payments[payment].status.Pending? {
      var k := db.payments[payment].order;
      assert PaymentOk(db.payments[payment], db.orders);
      assert OrderOk(db.orders[k]);
      NoOtherSuccess(db, payment);
      WaitingOrderSells(db.ledger, db.orders, k, payment);
    }
  }

  lemma {:induction false} NoOtherSuccess(db: Db, payment: nat)
    requires PaymentsOk(db.payments, db.orders) && OrdersOk(db.orders)
    requires payment < |db.payments| && db.payments[payment].status.Pending?
    ensures !HasSuccess(db.payments, db.payments[payment].order, payment)
  {
    assert PaymentOk(db.payments[payment], db.orders);
    assert OrderOk(db.orders[db.payments[payment].order]);
    assert forall k :: 0 <= k < |db.payments| ==> PaymentOk(db.payments[k], db.orders);
  }

  /** The owner or staff can cancel exactly the orders that wait for payment: the release loop never refuses. */
  lemma {:induction false} CancellationCompletes(db: Db, caller: nat, staff: bool, order: nat)
    requires Reachable(db)
    ensures CancelOrder(db, caller, staff, order).Ok? <==>
              && order < |db.orders| && db.orders[order].status.PendingPayment?
              && (staff || db.orders[order].user == caller)
  {
    ReachableOk(db);
    if order < |db.orders| && db.orders[order].status.PendingPayment? {
      assert OrderOk(db.orders[order]);
      WaitingOrderReleases(db.ledger, db.orders, order);
    }
  }

  /** Checkout succeeds exactly for a cart whose lines could each be served alone, and a discount that is
      valid at both checks; the order then holds each line at its lowest row with room. */
  lemma {:induction false} CheckoutCompletes(
    db: Db, user: nat, discount: Option<nat>, shipping: nat, seen: int, now: int, mode: Rounding)
    requires Reachable(db)
    ensures
      PlaceOrder(db, user, discount, shipping, seen, now, mode).Ok? <==>
        && user in db.carts && db.carts[user] != []
        && EachFits(db.ledger.stocks, db.activeWarehouses, db.carts[user])
        && (discount.Some? ==>
              && CheckDiscount(db, discount.value, user, db.carts[user], seen).Ok?
              && CheckDiscount(db, discount.value, user, db.carts[user], now).Ok?)
    ensures
      PlaceOrder(db, user, discount, shipping, seen, now, mode).Ok? ==>
        var db1 := PlaceOrder(db, user, discount, shipping, seen, now, mode).value;
        && |db1.orders| == |db.orders| + 1
        && db1.orders[|db.orders|].items == Assigned(db.ledger.stocks, db.activeWarehouses, db.carts[user])
  {
    ReachableOk(db);
    if user in db.carts && db.carts[user] != [] {
      var cart := db.carts[user];
      FirstFitComplete(db.ledger.stocks, db.activeWarehouses, cart);
      if EachFits(db.ledger.stocks, db.activeWarehouses, cart) {
        PreCheckAdmitsServable(db.ledger.stocks, db.activeWarehouses, cart);
        if discount.Some? {
          SameCheck(db, PlacedDb(db, user, shipping), discount.value, user, cart, now);
        }
      }
      if PlaceOrder(db, user, discount, shipping, seen, now, mode).Ok? {
        PlaceOrderIs(db, user, discount, shipping, seen, now, mode);
      }
    }
  }

  /** The reservations of the same checkout do not change what the discount check says. */
  lemma {:induction false} SameCheck(db: Db, placed: Db, d: nat, user: nat, cart: seq<CartItem>, now: int)
    requires placed.discounts == db.discounts && placed.usages == db.usages
    ensures CheckDiscount(placed, d, user, cart, now) == CheckDiscount(db, d, user, cart, now)
  {
  }

  /** The owner or staff can open a payment attempt exactly for a waiting order with something to pay; the
      attempt returned is pending, of the chosen provider and for the order's total, and it is a new one
      only if there was none. */
  lemma {:induction false} AttemptCompletes(db: Db, caller: nat, staff: bool, order: nat, provider: nat)
    requires Reachable(db)
    ensures
      CreatePayment(db, caller, staff, order, provider).Ok? <==>
        && order < |db.orders| && (staff || db.orders[order].user == caller)
        && db.orders[order].status.PendingPayment? && 0 < db.orders[order].total
    ensures
      CreatePayment(db, caller, staff, order, provider).Ok? ==>
        var (db', id) := CreatePayment(db, caller, staff, order, provider).value;
        && id < |db'.payments| && db'.payments[id].status.Pending?
        && db'.payments[id].order == order && db'.payments[id].provider == provider
        && db'.payments[id].amount == db.orders[order].total
        && db'.payments[..|db.payments|] == db.payments
        && (id < |db.payments| ==> db' == db)
        && (id == |db.payments| ==>
              forall k :: 0 <= k < |db.payments| && db.payments[k].order == order && db.payments[k].provider == provider
                ==> !db.payments[k].status.Pending?)
  {
    ReachableOk(db);
    if order < |db.orders| {
      assert OrderOk(db.orders[order]);
      var k := PendingAttempt(db.payments, order, provider);
      if k < |db.payments| {
        assert PaymentOk(db.payments[k], db.orders);
        assert db.payments[..|db.payments|] == db.payments;
      }
    }
  }

  /** A seller can start exactly its paid fulfilments, an administrator exactly the paid orders not yet
      started; both leave the order in processing. */
  lemma {:induction false} StartsComplete(db: Db, seller: nat, order: nat)
    requires Reachable(db)
    ensures StartFulfilment(db, seller, order).Ok? <==>
              order < |db.orders| && seller in db.orders[order].sellers && db.orders[order].sellers[seller].Paid?
    ensures StartFulfilment(db, seller, order).Ok? ==>
              StartFulfilment(db, seller, order).value.orders[order].status.Processing?
    ensures StartProcessing(db, order).Ok? <==> order < |db.orders| && db.orders[order].status.Paid?
    ensures StartProcessing(db, order).Ok? ==>
              StartProcessing(db, order).value.orders[order].status.Processing?
  {
    ReachableOk(db);
    if order < |db.orders| {
      assert OrderOk(db.orders[order]);
    }
  }

  /** Goods receipt by an assigned user never fails; goods issue fails exactly when unreserved units are missing. */
  lemma {:induction false} TransferLegsComplete(db: Db, t: nat, member: bool)
    requires Reachable(db) && t < |db.transfers|
    ensures ReceiveTransfer(db, t, member).Ok? <==> db.transfers[t].status.InTransit? && member
    ensures
      var x := db.transfers[t];
      var i := IndexOf(db.ledger.stocks, x.product, x.source);
      ShipTransfer(db, t, member).Ok? <==>
        x.status.Approved? && member && i < |db.ledger.stocks| && x.quantity <= db.ledger.stocks[i].Available()
  {
    ReachableOk(db);
    var x := db.transfers[t];
    assert TransferOk(x);
    WithRowIndex(db.ledger.stocks, x.product, x.dest);
    WithRowRows(db.ledger.stocks, x.product, x.dest);
    WithRowIndex(db.ledger.stocks, x.product, x.source);
    WithRowRows(db.ledger.stocks, x.product, x.source);
  }

  // ----- Payments and orders

  /** An order is paid iff one of its payments succeeded, and then exactly one did; it is not cancelled. */
  lemma {:induction false} PaidIffOneSuccess(db: Db, order: nat)
    requires Reachable(db) && order < |db.orders|
    ensures db.orders[order].payment.PaymentDone? <==>
              exists k :: 0 <= k < |db.payments| && db.payments[k].order == order && db.payments[k].status.Success?
    ensures forall j, k :: 0 <= j < k < |db.payments| ==>
              !(db.payments[j].order == order == db.payments[k].order
                && db.payments[j].status.Success? && db.payments[k].status.Success?)
    ensures db.orders[order].payment.PaymentDone? ==> !db.orders[order].status.Cancelled?
  {
    ReachableOk(db);
    assert OrderOk(db.orders[order]);
    assert forall k :: 0 <= k < |db.payments| ==> PaymentOk(db.payments[k], db.orders);
    if db.orders[order].payment.PaymentDone? {
      assert HasSuccess(db.payments, order, |db.payments|);
    }
    forall j, k | 0 <= j < k < |db.payments|
      ensures !(db.payments[j].order == order == db.payments[k].order
                && db.payments[j].status.Success? && db.payments[k].status.Success?)
    {
      assert Distinct(db.payments[j], db.payments[k]);
    }
  }

  /** A pending attempt belongs to a waiting order, asks for its current total, and is the only one of its
      provider for that order. */
  lemma {:induction false} PendingAttempts(db: Db, j: nat, k: nat)
    requires Reachable(db) && j < |db.payments| && k < |db.payments|
    requires db.payments[j].status.Pending? && db.payments[k].status.Pending?
    requires db.payments[j].order == db.payments[k].order && db.payments[j].provider == db.payments[k].provider
    ensures j == k
    ensures db.payments[j].order < |db.orders|
    ensures db.orders[db.payments[j].order].AwaitsPayment()
    ensures db.payments[j].amount == db.orders[db.payments[j].order].total
  {
    ReachableOk(db);
    assert PaymentOk(db.payments[j], db.orders);
    assert OrderOk(db.orders[db.payments[j].order]);
    assert !Distinct(db.payments[j], db.payments[k]) && !Distinct(db.payments[k], db.payments[j]);
  }

  /** Each item of a paid order was sold once, by its successful payment, in the items' order; each
      transfer has none, one or both of its legs, as its status says. Nothing else names either. */
  lemma {:induction false} LedgerEntriesMatchWorkflows(db: Db, payment: nat, t: nat)
    requires Reachable(db)
    ensures payment < |db.payments| ==> db.payments[payment].order < |db.orders|
    ensures SalesNamed(db.ledger.movements, payment) ==
              if payment < |db.payments| && db.payments[payment].status.Success?
              then SaleLegs(db.orders[db.payments[payment].order].items) else []
    ensures LegsNamed(db.ledger.movements, t) == if t < |db.transfers| then ExpectedLegs(db.transfers[t]) else []
  {
    ReachableOk(db);
    assert payment < |db.payments| ==> PaymentOk(db.payments[payment], db.orders);
    assert SalesNamed(db.ledger.movements, payment) == ExpectedSales(db.payments, db.orders, payment);
  }

  // ----- Discounts

  /** The counter of a discount is its number of usages, within both limits. */
  lemma {:induction false} UsesWithinLimits(db: Db, d: nat, user: nat)
    requires Reachable(db) && d < |db.discounts|
    ensures db.discounts[d].usedCount == |UsesOf(db.usages, d)|
    ensures db.discounts[d].limitTotal.Some? ==> |UsesOf(db.usages, d)| <= db.discounts[d].limitTotal.value
    ensures db.discounts[d].limitPerUser.Some? ==> |UsesBy(db.usages, d, user)| <= db.discounts[d].limitPerUser.value
  {
    ReachableOk(db);
    assert DiscountOk(db.discounts[d], d, db.usages);
  }

  /** Cancelling an order that used a discount always counts it down by one. */
  lemma {:induction false} CountdownNeverSuppressed(db: Db, order: nat)
    requires Reachable(db) && order in db.usages
    ensures db.usages[order].discount < |db.discounts| && 0 < db.discounts[db.usages[order].discount].usedCount
    ensures
      var d := db.usages[order].discount;
      UndoDiscount(db, order).discounts
      == db.discounts[d := db.discounts[d].(usedCount := db.discounts[d].usedCount - 1)]
  {
    ReachableOk(db);
    UndoKeepsDiscounts(db.discounts, db.usages, db.orders, order);
  }

  // ----- Orders over a stretch of requests

  /** An order keeps its record and its usage for as long as it waits, and never waits again afterwards. */
  ghost predicate Frozen(db: Db, db': Db, k: nat)
    requires k < |db.orders|
  {
    && |db.orders| <= |db'.orders|
    && (db'.orders[k].status.PendingPayment? ==>
          && db'.orders[k] == db.orders[k]
          && (k in db.usages <==> k in db'.usages)
          && (k in db.usages ==> db'.usages[k] == db.usages[k]))
  }

  /** PlaceOrder, spelled out for an accepted request. */
  lemma {:induction false} PlaceOrderIs(
    db: Db, user: nat, discount: Option<nat>, shipping: nat, seen: int, now: int, mode: Rounding)
    requires PlaceOrder(db, user, discount, shipping, seen, now, mode).Ok?
    ensures user in db.carts && db.carts[user] != []
    ensures ReserveCart(db.ledger.stocks, db.activeWarehouses, db.carts[user]).Ok?
    ensures discount.None? ==>
              PlaceOrder(db, user, discount, shipping, seen, now, mode).value
              == PlacedDb(db, user, shipping).(carts := db.carts[user := []])
    ensures discount.Some? ==>
              && CheckDiscount(db, discount.value, user, db.carts[user], now).Ok?
              && PlaceOrder(db, user, discount, shipping, seen, now, mode).value
                 == DiscountedDb(db, user, discount.value, shipping, now, mode).(carts := db.carts[user := []])
  {
    if discount.Some? {
      var placed, cart := PlacedDb(db, user, shipping), db.carts[user];
      SameCheck(db, placed, discount.value, user, cart, now);
      var o := Discounted(placed.orders[|db.orders|], CheckDiscount(db, discount.value, user, cart, now).value, mode);
      assert placed.orders[|db.orders| := o] == db.orders + [o];
    }
  }

  /** The database after the reservation loop and an accepted discount. */
  function DiscountedDb(db: Db, user: nat, d: nat, shipping: nat, now: int, mode: Rounding): Db
    requires user in db.carts && ReserveCart(db.ledger.stocks, db.activeWarehouses, db.carts[user]).Ok?
    requires CheckDiscount(db, d, user, db.carts[user], now).Ok?
  {
    var h := CheckDiscount(db, d, user, db.carts[user], now).value;
    var placed := PlacedDb(db, user, shipping);
    placed.(orders := db.orders + [Discounted(placed.orders[|db.orders|], h, mode)],
            usages := db.usages[|db.orders| := Usage(d, user, Round(mode, h))],
            discounts := db.discounts[d := db.discounts[d].(usedCount := db.discounts[d].usedCount + 1)])
  }

  lemma {:induction false} PlaceOrderFreezes(
    db: Db, user: nat, discount: Option<nat>, shipping: nat, seen: int, now: int, mode: Rounding, k: nat)
    requires k < |db.orders| && PlaceOrder(db, user, discount, shipping, seen, now, mode).Ok?
    ensures Frozen(db, PlaceOrder(db, user, discount, shipping, seen, now, mode).value, k)
  {
    PlaceOrderIs(db, user, discount, shipping, seen, now, mode);
  }

  lemma {:induction false} OrderCommandFreezes(db: Db, c: Command, k: nat)
    requires k < |db.orders| && OrderOk(db.orders[k]) && Perform(db, c).Ok?
    requires c.DoMarkSuccess? || c.DoCancelOrder? || c.DoStartFulfilment? || c.DoStartProcessing?
    ensures Frozen(db, Perform(db, c).value, k)
  {
  }

  lemma {:induction false} PerformFreezes(db: Db, c: Command, k: nat)
    requires k < |db.orders| && OrderOk(db.orders[k]) && Perform(db, c).Ok?
    ensures Frozen(db, Perform(db, c).value, k)
  {
    match c
    case DoPlaceOrder(u, d, s, seen, now, mode) => PlaceOrderFreezes(db, u, d, s, seen, now, mode, k);
    case DoMarkSuccess(_, _, _) => OrderCommandFreezes(db, c, k);
    case DoCancelOrder(_, _, _) => OrderCommandFreezes(db, c, k);
    case DoStartFulfilment(_, _) => OrderCommandFreezes(db, c, k);
    case DoStartProcessing(_) => OrderCommandFreezes(db, c, k);
    case _ =>
  }

  lemma {:induction false} RecordKeepsRows(l: Ledger, p: nat, w: nat, kind: MovementType, q: int, ref: Reference)
    requires Record(l, p, w, kind, q, ref).Ok?
    ensures |l.stocks| <= |Record(l, p, w, kind, q, ref).value.stocks|
    ensures SameRows(l.stocks, Record(l, p, w, kind, q, ref).value.stocks[..|l.stocks|])
  {
    RecordAtRow(l, IndexOf(l.stocks, p, w), p, w, kind, q, ref);
  }

  /** Stock rows are never removed and never change their product or warehouse. */
  ghost predicate RowsKept(db: Db, db': Db) {
    |db.ledger.stocks| <= |db'.ledger.stocks|
    && SameRows(db.ledger.stocks, db'.ledger.stocks[..|db.ledger.stocks|])
  }

  lemma {:induction false} PlaceOrderRows(
    db: Db, user: nat, discount: Option<nat>, shipping: nat, seen: int, now: int, mode: Rounding)
    requires RowsOk(db.ledger.stocks) && CartsOk(db.carts)
    requires PlaceOrder(db, user, discount, shipping, seen, now, mode).Ok?
    ensures RowsKept(db, PlaceOrder(db, user, discount, shipping, seen, now, mode).value)
  {
    PlaceOrderIs(db, user, discount, shipping, seen, now, mode);
    var cart := db.carts[user];
    assert CartOk(cart);
    QuantitiesPositive(cart);
    ReserveCartEffect(db.ledger.stocks, db.activeWarehouses, cart);
    var rows := PlacedDb(db, user, shipping).ledger.stocks;
    assert rows[..|db.ledger.stocks|] == rows;
  }

  lemma {:induction false} SoldRows(db: Db, db': Db, k: nat, payment: nat)
    requires LedgerOk(db.ledger) && ReservedIsDemand(db.ledger.stocks, db.orders)
    requires k < |db.orders| && db.orders[k].status.PendingPayment?
    requires PayItems(db.ledger, db.orders[k].items, payment) == Ok(db'.ledger)
    ensures RowsKept(db, db')
  {
    WaitingOrderSells(db.ledger, db.orders, k, payment);
    SameRowsKept(db, db');
  }

  lemma {:induction false} ReleasedRows(db: Db, db': Db, k: nat)
    requires LedgerOk(db.ledger) && ReservedIsDemand(db.ledger.stocks, db.orders)
    requires k < |db.orders| && db.orders[k].status.PendingPayment?
    requires ReleaseItems(db.ledger.stocks, db.orders[k].items) == Ok(db'.ledger.stocks)
    ensures RowsKept(db, db')
  {
    WaitingOrderReleases(db.ledger, db.orders, k);
    SameRowsKept(db, db');
  }

  lemma {:induction false} SameRowsKept(db: Db, db': Db)
    requires SameRows(db.ledger.stocks, db'.ledger.stocks)
    ensures RowsKept(db, db')
  {
    assert db'.ledger.stocks[..|db.ledger.stocks|] == db'.ledger.stocks;
  }

  lemma {:induction false} MovementRows(db: Db, c: Command)
    requires (c.DoMoveByHand? || c.DoShipTransfer? || c.DoReceiveTransfer? || c.DoCreateStock?) && Perform(db, c).Ok?
    ensures RowsKept(db, Perform(db, c).value)
  {
    match c
    case DoMoveByHand(p, w, k, q, ref) => RecordKeepsRows(db.ledger, p, w, k, q, ref);
    case DoCreateStock(p, w) =>
      var rows := WithRow(db.ledger.stocks, p, w);
      assert rows[..|db.ledger.stocks|] == db.ledger.stocks;
    case DoShipTransfer(t, m) =>
      var x := db.transfers[t];
      RecordKeepsRows(db.ledger, x.product, x.source, TransferOut, -x.quantity, ForTransfer(t));
    case DoReceiveTransfer(t, m) =>
      var x := db.transfers[t];
      RecordKeepsRows(db.ledger, x.product, x.dest, TransferIn, x.quantity, ForTransfer(t));
  }

  predicate TouchesRows(c: Command) {
    c.DoPlaceOrder? || c.DoMarkSuccess? || c.DoCancelOrder? || c.DoMoveByHand? || c.DoCreateStock?
    || c.DoShipTransfer? || c.DoReceiveTransfer?
  }

  lemma {:induction false} LedgerUntouched(db: Db, c: Command)
    requires !TouchesRows(c) && Perform(db, c).Ok?
    ensures Perform(db, c).value.ledger == db.ledger
  {
  }

  lemma {:induction false} SettlementRows(db: Db, c: Command)
    requires LedgerOk(db.ledger) && ReservedIsDemand(db.ledger.stocks, db.orders)
    requires (c.DoMarkSuccess? || c.DoCancelOrder?) && Perform(db, c).Ok?
    ensures RowsKept(db, Perform(db, c).value)
  {
    match c
    case DoMarkSuccess(p, ref, naive) =>
      SuccessSells(db, p, ref, naive);
      SoldRows(db, MarkSuccess(db, p, ref, naive).value, db.payments[p].order, p);
    case DoCancelOrder(u, s, o) =>
      CancelledIs(db, u, s, o);
      ReleasedRows(db, CancelOrder(db, u, s, o).value, o);
  }

  lemma {:induction false} PerformKeepsRows(db: Db, c: Command, db': Db)
    requires LedgerOk(db.ledger) && ReservedIsDemand(db.ledger.stocks, db.orders) && CartsOk(db.carts)
    requires Perform(db, c) == Ok(db')
    ensures RowsKept(db, db')
  {
    if c.DoPlaceOrder? {
      PlaceOrderRows(db, c.user, c.discount, c.shipping, c.seen, c.now, c.mode);
    } else if c.DoMarkSuccess? || c.DoCancelOrder? {
      SettlementRows(db, c);
    } else if c.DoMoveByHand? || c.DoShipTransfer? || c.DoReceiveTransfer? || c.DoCreateStock? {
      MovementRows(db, c);
    } else {
      LedgerUntouched(db, c);
      assert db'.ledger.stocks[..|db.ledger.stocks|] == db.ledger.stocks;
    }
  }

  lemma {:induction false} RunFreezes(db: Db, commands: seq<Command>, k: nat)
    requires Inv(db) && k < |db.orders|
    ensures Frozen(db, Run(db, commands), k) && RowsKept(db, Run(db, commands))
    decreases |commands|
  {
    if commands == [] {
      assert db.ledger.stocks[..|db.ledger.stocks|] == db.ledger.stocks;
    } else {
      var before := commands[..|commands| - 1];
      RunFreezes(db, before, k);
      RunKeeps(db, before);
      var mid := Run(db, before);
      if Perform(mid, commands[|commands| - 1]).Ok? {
        assert OrderOk(mid.orders[k]);
        PerformFreezes(mid, commands[|commands| - 1], k);
        PerformKeepsRows(mid, commands[|commands| - 1], Run(db, commands));
        RowsKeptThen(db, mid, Run(db, commands));
      }
    }
  }

  lemma {:induction false} RowsKeptThen(a: Db, b: Db, c: Db)
    requires RowsKept(a, b) && RowsKept(b, c)
    ensures RowsKept(a, c)
  {
    var x, y, z := a.ledger.stocks, b.ledger.stocks, c.ledger.stocks;
    forall i | 0 <= i < |x| ensures x[i].product == z[i].product && x[i].warehouse == z[i].warehouse {
      assert y[..|x|][i] == y[i] && z[..|y|][i] == z[i];
    }
  }

  // ----- Checkout and then cancellation, or payment

  /** The order that PlaceOrder makes, and the rows it reserves. */
  lemma {:induction false} PlaceOrderEffect(
    db: Db, user: nat, discount: Option<nat>, shipping: nat, seen: int, now: int, mode: Rounding)
    requires RowsOk(db.ledger.stocks) && CartsOk(db.carts)
    requires PlaceOrder(db, user, discount, shipping, seen, now, mode).Ok?
    ensures
      var db1 := PlaceOrder(db, user, discount, shipping, seen, now, mode).value;
      var k := |db.orders|;
      && |db1.orders| == k + 1 && db1.orders[k].status.PendingPayment?
      && ReservedBy(db.ledger.stocks, db1.ledger.stocks, db1.orders[k].items)
      && db1.ledger.movements == db.ledger.movements
      && db1.orders[k].user == user && db1.payments == db.payments
  {
    PlaceOrderIs(db, user, discount, shipping, seen, now, mode);
    var cart := db.carts[user];
    assert CartOk(cart);
    QuantitiesPositive(cart);
    ReserveCartEffect(db.ledger.stocks, db.activeWarehouses, cart);
  }

  /** Checkout, then any other requests, then cancelling that order: the cancellation takes back exactly
      what the checkout added, row by row, and the usage that the checkout recorded. */
  lemma {:induction false} CheckoutThenCancel(
    db: Db, user: nat, discount: Option<nat>, shipping: nat, seen: int, now: int, mode: Rounding, db1: Db,
    others: seq<Command>, db2: Db, i: nat)
    requires Inv(db) && PlaceOrder(db, user, discount, shipping, seen, now, mode) == Ok(db1)
    requires db2 == Run(db1, others)
    requires |db.orders| < |db2.orders| && db2.orders[|db.orders|].status.PendingPayment?
    requires i < |db.ledger.stocks|
    ensures CancelOrder(db2, user, true, |db.orders|).Ok?
    ensures
      var db3 := CancelOrder(db2, user, true, |db.orders|).value;
      && |db.ledger.stocks| <= |db1.ledger.stocks| <= |db2.ledger.stocks| == |db3.ledger.stocks|
      && var s, s1, s2, s3 := db.ledger.stocks[i], db1.ledger.stocks[i], db2.ledger.stocks[i], db3.ledger.stocks[i];
      && s1.reserved - s.reserved == s2.reserved - s3.reserved
      && s1.quantity == s.quantity && s2.quantity == s3.quantity
      && db3.ledger.movements == db2.ledger.movements
      && db3.usages == db2.usages - {|db.orders|}
      && (|db.orders| in db1.usages <==> |db.orders| in db2.usages)
      && (|db.orders| in db1.usages ==> db2.usages[|db.orders|] == db1.usages[|db.orders|])
  {
    var k := |db.orders|;
    PlaceOrderEffect(db, user, discount, shipping, seen, now, mode);
    WaitingOrderFrozen(db, user, discount, shipping, seen, now, mode, db1, others);
    CheckoutRunOk(db, user, discount, shipping, seen, now, mode, db1, others);
    CancelEffect(db2, user, k);
    assert db2.ledger.stocks[..|db1.ledger.stocks|][i] == db2.ledger.stocks[i];
    assert Qty(db1.orders[k].items, db.ledger.stocks[i]) == Qty(db2.orders[k].items, db2.ledger.stocks[i]);
  }

  lemma {:induction false} CancelEffect(db: Db, user: nat, k: nat)
    requires Inv(db) && k < |db.orders| && db.orders[k].status.PendingPayment?
    ensures CancelOrder(db, user, true, k).Ok?
    ensures
      var db' := CancelOrder(db, user, true, k).value;
      && ReleasedBy(db.ledger.stocks, db'.ledger.stocks, db.orders[k].items)
      && db'.ledger.movements == db.ledger.movements
      && db'.usages == db.usages - {k}
      && (forall i :: 0 <= i < |db.ledger.stocks| ==>
            Qty(db.orders[k].items, db'.ledger.stocks[i]) == Qty(db.orders[k].items, db.ledger.stocks[i]))
  {
    assert OrderOk(db.orders[k]);
    WaitingOrderReleases(db.ledger, db.orders, k);
    assert k !in db.usages ==> db.usages - {k} == db.usages;
  }

  /** The discount counters: what the checkout counted up, the cancellation counts down. */
  lemma {:induction false} CheckoutThenCancelCounters(
    db: Db, user: nat, d: nat, shipping: nat, seen: int, now: int, mode: Rounding, db1: Db,
    others: seq<Command>, db2: Db)
    requires Inv(db) && PlaceOrder(db, user, Some(d), shipping, seen, now, mode) == Ok(db1)
    requires db2 == Run(db1, others)
    requires |db.orders| < |db2.orders| && db2.orders[|db.orders|].status.PendingPayment?
    ensures CancelOrder(db2, user, true, |db.orders|).Ok?
    ensures d < |db.discounts| == |db1.discounts| && d < |db2.discounts| && 0 < db2.discounts[d].usedCount
    ensures db1.discounts == db.discounts[d := db.discounts[d].(usedCount := db.discounts[d].usedCount + 1)]
    ensures CancelOrder(db2, user, true, |db.orders|).value.discounts
            == db2.discounts[d := db2.discounts[d].(usedCount := db2.discounts[d].usedCount - 1)]
  {
    CheckoutUses(db, user, d, shipping, seen, now, mode, db1);
    WaitingOrderFrozen(db, user, Some(d), shipping, seen, now, mode, db1, others);
    CheckoutRunOk(db, user, Some(d), shipping, seen, now, mode, db1, others);
    CountersBack(db1, db2, user, |db.orders|, d);
  }

  lemma {:induction false} CheckoutUses(
    db: Db, user: nat, d: nat, shipping: nat, seen: int, now: int, mode: Rounding, db1: Db)
    requires PlaceOrder(db, user, Some(d), shipping, seen, now, mode) == Ok(db1)
    ensures |db1.orders| == |db.orders| + 1 && d < |db.discounts|
    ensures |db.orders| in db1.usages && db1.usages[|db.orders|].discount == d
    ensures db1.discounts == db.discounts[d := db.discounts[d].(usedCount := db.discounts[d].usedCount + 1)]
  {
    PlaceOrderIs(db, user, Some(d), shipping, seen, now, mode);
  }

  lemma {:induction false} CountersBack(db1: Db, db2: Db, user: nat, k: nat, d: nat)
    requires Inv(db2) && k < |db1.orders| && Frozen(db1, db2, k) && db2.orders[k].status.PendingPayment?
    requires k in db1.usages && db1.usages[k].discount == d
    ensures CancelOrder(db2, user, true, k).Ok?
    ensures d < |db2.discounts| && 0 < db2.discounts[d].usedCount
    ensures CancelOrder(db2, user, true, k).value.discounts
            == db2.discounts[d := db2.discounts[d].(usedCount := db2.discounts[d].usedCount - 1)]
  {
    CounterEffect(db2, user, k, d);
  }

  lemma {:induction false} CounterEffect(db: Db, user: nat, k: nat, d: nat)
    requires Inv(db) && k < |db.orders| && db.orders[k].status.PendingPayment?
    requires k in db.usages && db.usages[k].discount == d
    ensures CancelOrder(db, user, true, k).Ok?
    ensures d < |db.discounts| && 0 < db.discounts[d].usedCount
    ensures CancelOrder(db, user, true, k).value.discounts
            == db.discounts[d := db.discounts[d].(usedCount := db.discounts[d].usedCount - 1)]
  {
    CancelEffect(db, user, k);
    CancelledIs(db, user, true, k);
    UndoKeepsDiscounts(db.discounts, db.usages, db.orders, k);
    CancelledCounts(db, CancelOrder(db, user, true, k).value, k, d);
  }

  lemma {:induction false} CancelledCounts(db: Db, db': Db, k: nat, d: nat)
    requires CancelledTo(db, db', k) && k in db.usages && db.usages[k].discount == d
    requires d < |db.discounts| && 0 < db.discounts[d].usedCount
    ensures db'.discounts == db.discounts[d := db.discounts[d].(usedCount := db.discounts[d].usedCount - 1)]
  {
  }

  lemma {:induction false} CheckoutRunOk(
    db: Db, user: nat, discount: Option<nat>, shipping: nat, seen: int, now: int, mode: Rounding, db1: Db,
    others: seq<Command>)
    requires Inv(db) && PlaceOrder(db, user, discount, shipping, seen, now, mode) == Ok(db1)
    ensures Inv(Run(db1, others))
  {
    PlaceOrderKeeps(db, user, discount, shipping, seen, now, mode, db1);
    RunKeeps(db1, others);
  }

  /** With nothing in between, stock, ledger, discounts and usages are as before the checkout. */
  lemma {:induction false} CheckoutCancelRoundTrip(
    db: Db, user: nat, discount: Option<nat>, shipping: nat, seen: int, now: int, mode: Rounding)
    requires Inv(db) && PlaceOrder(db, user, discount, shipping, seen, now, mode).Ok?
    ensures
      var db1 := PlaceOrder(db, user, discount, shipping, seen, now, mode).value;
      var r := CancelOrder(db1, user, true, |db.orders|);
      && r.Ok? && r.value.ledger == db.ledger
      && r.value.discounts == db.discounts && r.value.usages == db.usages
  {
    var db1 := PlaceOrder(db, user, discount, shipping, seen, now, mode).value;
    PlaceOrderKeeps(db, user, discount, shipping, seen, now, mode, db1);
    PlaceOrderEffect(db, user, discount, shipping, seen, now, mode);
    PlaceOrderUndone(db, user, discount, shipping, seen, now, mode);
    CancelRestores(db, db1, user, |db.orders|);
  }

  lemma {:induction false} CancelRestores(db: Db, db1: Db, user: nat, k: nat)
    requires Inv(db1) && k < |db1.orders| && db1.orders[k].status.PendingPayment?
    requires ReservedBy(db.ledger.stocks, db1.ledger.stocks, db1.orders[k].items)
    requires db1.ledger.movements == db.ledger.movements
    ensures CancelOrder(db1, user, true, k).Ok?
    ensures
      var db2 := CancelOrder(db1, user, true, k).value;
      && db2.ledger == db.ledger && db2.discounts == UndoDiscount(db1, k).discounts
      && db2.usages == UndoDiscount(db1, k).usages
  {
    CancelEffect(db1, user, k);
    CancelledIs(db1, user, true, k);
    var db2 := CancelOrder(db1, user, true, k).value;
    ReserveThenRelease(db.ledger.stocks, db1.ledger.stocks, db2.ledger.stocks, db1.orders[k].items);
  }

  lemma {:induction false} ReserveThenRelease(a: seq<Stock>, b: seq<Stock>, c: seq<Stock>, items: seq<Item>)
    requires ReservedBy(a, b, items) && ReleasedBy(b, c, items)
    ensures c == a
  {
    forall i | 0 <= i < |a| ensures c[i] == a[i] {
      assert Qty(items, c[i]) == Qty(items, a[i]);
    }
  }

  lemma {:induction false} PlaceOrderUndone(
    db: Db, user: nat, discount: Option<nat>, shipping: nat, seen: int, now: int, mode: Rounding)
    requires DiscountsOk(db.discounts, db.usages, db.orders) && PaymentsOk(db.payments, db.orders)
    requires PlaceOrder(db, user, discount, shipping, seen, now, mode).Ok?
    ensures
      var undone := UndoDiscount(PlaceOrder(db, user, discount, shipping, seen, now, mode).value, |db.orders|);
      undone.discounts == db.discounts && undone.usages == db.usages
  {
    PlaceOrderIs(db, user, discount, shipping, seen, now, mode);
    FreshOrder(db);
    if discount.Some? {
      CheckoutUses(db, user, discount.value, shipping, seen, now, mode,
                   PlaceOrder(db, user, discount, shipping, seen, now, mode).value);
      UseUndone(db, PlaceOrder(db, user, discount, shipping, seen, now, mode).value, |db.orders|, discount.value);
    }
  }

  lemma {:induction false} UseUndone(db: Db, db1: Db, k: nat, d: nat)
    requires k !in db.usages && k in db1.usages && db1.usages[k].discount == d < |db.discounts|
    requires db1.usages.Keys == db.usages.Keys + {k}
    requires forall o :: o in db.usages ==> db1.usages[o] == db.usages[o]
    requires 0 <= db.discounts[d].usedCount
    requires db1.discounts == db.discounts[d := db.discounts[d].(usedCount := db.discounts[d].usedCount + 1)]
    ensures UndoDiscount(db1, k).discounts == db.discounts && UndoDiscount(db1, k).usages == db.usages
  {
    assert db1.usages - {k} == db.usages;
  }

  /** Paying an order changes no row's available quantity. */
  lemma {:induction false} PayingKeepsAvailable(db: Db, payment: nat, reference: string, naive: bool, i: nat)
    requires LedgerOk(db.ledger) && ReservedIsDemand(db.ledger.stocks, db.orders)
    requires MarkSuccess(db, payment, reference, naive).Ok? && i < |db.ledger.stocks|
    ensures |MarkSuccess(db, payment, reference, naive).value.ledger.stocks| == |db.ledger.stocks|
    ensures MarkSuccess(db, payment, reference, naive).value.ledger.stocks[i].Available()
            == db.ledger.stocks[i].Available()
  {
    SuccessSells(db, payment, reference, naive);
    WaitingOrderSells(db.ledger, db.orders, db.payments[payment].order, payment);
  }

  lemma {:induction false} SuccessSells(db: Db, payment: nat, reference: string, naive: bool)
    requires MarkSuccess(db, payment, reference, naive).Ok?
    ensures
      var k := db.payments[payment].order;
      && db.orders[k].status.PendingPayment?
      && PayItems(db.ledger, db.orders[k].items, payment) == Ok(MarkSuccess(db, payment, reference, naive).value.ledger)
  {
  }

  // ----- Money

  /** The money of every order: its subtotal is the sum of its items, its discount is within the subtotal,
      and its stored total is within one unit of the recomputed one, and equal to it once paid or cancelled. */
  lemma {:induction false} OrderMoney(db: Db, order: nat)
    requires Reachable(db) && order < |db.orders|
    ensures
      var o := db.orders[order];
      && o.subtotal == Sum(o.items, ITEM_TOTAL)
      && 0 <= o.discount <= o.subtotal
      && -1 <= o.total - (o.subtotal + o.shipping + o.tax - o.discount) <= 1
      && (!o.status.PendingPayment? ==> o.total == o.subtotal + o.shipping + o.tax - o.discount)
  {
    ReachableOk(db);
    assert OrderOk(db.orders[order]);
  }

  /** The stored total and the recomputed one, for an exact discount h hundredths on a gross amount. */
  lemma {:induction false} MoneyGap(mode: Rounding, gross: int, subtotal: int, h: int)
    requires 0 <= h <= 100 * subtotal && subtotal <= gross
    ensures 0 <= Round(mode, 100 * gross - h) && 0 <= gross - Round(mode, h)
    ensures -1 <= gross - Round(mode, h) - Round(mode, 100 * gross - h) <= 1
    ensures gross - Round(mode, h) != Round(mode, 100 * gross - h) <==>
              h % 100 == 50 && (mode.HalfUp? || gross % 2 == 1)
  {
    RoundIsNearest(mode, h);
    RoundIsNearest(mode, 100 * gross - h);
    StoredMoneyBounds(gross, subtotal, h, Round(mode, h), Round(mode, 100 * gross - h));
    RecomputedTotalDiffers(mode, gross, h);
  }

  /** The exact discount of a checkout in hundredths, 0 without one. */
  function Taken(db: Db, user: nat, discount: Option<nat>, now: int): int {
    if discount.None? then 0
    else
      var r := CheckDiscount(db, discount.value, user, CartOf(db, user), now);
      if r.Ok? then r.value else 0
  }

  function Gross(db: Db, user: nat, shipping: nat): int {
    Subtotal(CartOf(db, user)) + shipping
  }

  /** The order's stored money after a checkout, with an accepted discount or none. */
  lemma {:induction false} CheckoutMoney(
    db: Db, user: nat, discount: Option<nat>, shipping: nat, seen: int, now: int, mode: Rounding, db1: Db)
    requires DiscountsOk(db.discounts, db.usages, db.orders) && CartsOk(db.carts)
    requires PlaceOrder(db, user, discount, shipping, seen, now, mode) == Ok(db1)
    ensures
      var h, gross := Taken(db, user, discount, now), Gross(db, user, shipping);
      && 0 <= h <= 100 * Subtotal(CartOf(db, user)) && (discount.Some? ==> 0 < h)
      && |db1.orders| == |db.orders| + 1
      && db1.orders[|db.orders|].total == Round(mode, 100 * gross - h)
      && db1.orders[|db.orders|].ComputedTotal() == gross - Round(mode, h)
  {
    PlaceOrderIs(db, user, discount, shipping, seen, now, mode);
    var cart := db.carts[user];
    assert CartOk(cart);
    SubtotalNonNegative(cart);
    if discount.Some? {
      AcceptedAmount(db, discount.value, user, cart, now);
    } else {
      RoundWhole(mode, Gross(db, user, shipping));
    }
    MoneyGap(mode, Gross(db, user, shipping), Subtotal(cart), Taken(db, user, discount, now));
  }

  lemma {:induction false} RoundWhole(mode: Rounding, n: int)
    ensures Round(mode, 100 * n) == n && Round(mode, 0) == 0
  {
    assert (100 * n) / 100 == n && (100 * n) % 100 == 0;
  }

  /** What a payment took for the order and what the order's total became, against the cart. */
  ghost predicate PaidWithinOne(
    db: Db, user: nat, discount: Option<nat>, shipping: nat, now: int, mode: Rounding, total: int, paid: int)
  {
    var h, gross := Taken(db, user, discount, now), Gross(db, user, shipping);
    && paid == Round(mode, 100 * gross - h)
    && -1 <= total - paid <= 1
    && (total != paid <==> h % 100 == 50 && (mode.HalfUp? || gross % 2 == 1))
    && (discount.None? ==> total == paid == gross)
  }

  lemma {:induction false} MoneyWithinOne(
    db: Db, user: nat, discount: Option<nat>, shipping: nat, seen: int, now: int, mode: Rounding, db1: Db)
    requires DiscountsOk(db.discounts, db.usages, db.orders) && CartsOk(db.carts)
    requires PlaceOrder(db, user, discount, shipping, seen, now, mode) == Ok(db1)
    ensures |db1.orders| == |db.orders| + 1
    ensures PaidWithinOne(db, user, discount, shipping, now, mode,
              db1.orders[|db.orders|].ComputedTotal(), db1.orders[|db.orders|].total)
  {
    CheckoutMoney(db, user, discount, shipping, seen, now, mode, db1);
    MoneyGap(mode, Gross(db, user, shipping), Subtotal(CartOf(db, user)), Taken(db, user, discount, now));
    RoundWhole(mode, Gross(db, user, shipping));
  }

  /** Checkout, with a discount of exact amount h hundredths or none, any other requests, and then a successful
      payment: the payment's amount is the total stored at checkout, the order's recomputed total is within one
      unit of it, and it differs exactly when h ends in a half unit that the rounding loses; never without a
      discount. */
  lemma {:induction false} PaidAmountAgainstTotal(
    db: Db, user: nat, discount: Option<nat>, shipping: nat, seen: int, now: int, mode: Rounding, db1: Db,
    others: seq<Command>, db2: Db, payment: nat, reference: string, naive: bool, db3: Db)
    requires Inv(db) && PlaceOrder(db, user, discount, shipping, seen, now, mode) == Ok(db1)
    requires db2 == Run(db1, others) && payment < |db2.payments| && db2.payments[payment].order == |db.orders|
    requires MarkSuccess(db2, payment, reference, naive) == Ok(db3)
    ensures payment < |db3.payments| && |db.orders| < |db3.orders|
    ensures PaidWithinOne(db, user, discount, shipping, now, mode,
              db3.orders[|db.orders|].total, db3.payments[payment].amount)
  {
    MoneyWithinOne(db, user, discount, shipping, seen, now, mode, db1);
    WaitingOrderFrozen(db, user, discount, shipping, seen, now, mode, db1, others);
    SuccessMoney(db2, payment, reference, naive);
  }

  lemma {:induction false} WaitingOrderFrozen(
    db: Db, user: nat, discount: Option<nat>, shipping: nat, seen: int, now: int, mode: Rounding, db1: Db,
    others: seq<Command>)
    requires Inv(db) && PlaceOrder(db, user, discount, shipping, seen, now, mode) == Ok(db1)
    ensures |db1.orders| == |db.orders| + 1
    ensures Frozen(db1, Run(db1, others), |db.orders|) && RowsKept(db1, Run(db1, others))
  {
    PlaceOrderKeeps(db, user, discount, shipping, seen, now, mode, db1);
    PlaceOrderEffect(db, user, discount, shipping, seen, now, mode);
    RunFreezes(db1, others, |db.orders|);
  }

  lemma {:induction false} SuccessMoney(db: Db, payment: nat, reference: string, naive: bool)
    requires MarkSuccess(db, payment, reference, naive).Ok?
    ensures
      var db' := MarkSuccess(db, payment, reference, naive).value;
      var k := db.payments[payment].order;
      && |db'.payments| == |db.payments| && |db'.orders| == |db.orders|
      && db.orders[k].AwaitsPayment()
      && db'.payments[payment].amount == db.orders[k].total
      && db'.orders[k].total == db.orders[k].ComputedTotal()
  {
    CapturedAt(db.payments, payment, reference, payment);
  }

  // ----- Fulfilment and history

  /** One fulfilment for each seller, in a state that matches the order's, and a connected history that
      ends in the order's status. */
  lemma {:induction false} FulfilmentsMatchOrder(db: Db, order: nat, seller: nat)
    requires Reachable(db) && order < |db.orders|
    ensures seller in db.orders[order].sellers <==>
              exists i :: 0 <= i < |db.orders[order].items| && db.orders[order].items[i].seller == seller
    ensures
      var o := db.orders[order];
      seller in o.sellers ==>
        && (o.status.PendingPayment? || o.status.Cancelled? ==> o.sellers[seller].PendingPayment?)
        && (o.status.Paid? ==> o.sellers[seller].Paid?)
        && (o.status.Processing? ==> o.sellers[seller].Paid? || o.sellers[seller].Processing?)
    ensures HistoryOk(db.orders[order].history, db.orders[order].status)
  {
    ReachableOk(db);
    assert OrderOk(db.orders[order]);
  }
}
