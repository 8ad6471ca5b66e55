/** Exactly when each request is accepted and what it then does, read off the tables before and after it. */
module Effects {
  import opened Common
  import opened Inventory
  import opened Reservations
  import opened Tables
  import opened Pricing
  import opened Checkout
  import opened Operations
  import opened Invariants
  import opened Preservation
  import opened Safety
  import opened Theorems
  import opened Lifecycles

  // ----- What a cart is worth, line by line

  /** Every line adds its unit price times its quantity to the subtotal. */
  lemma {:induction false} SubtotalLineByLine(cart: seq<CartItem>, c: CartItem)
    ensures Subtotal([]) == 0
    ensures Subtotal(cart + [c]) == Subtotal(cart) + c.unitPrice * c.quantity
  {
    SumAppend(cart, c, LINE_TOTAL);
  }

  /** A line adds as much to the eligible part of a cart when the discount names its product or its category,
      or names none at all, and adds nothing otherwise. */
  lemma {:induction false} EligibleLineByLine(d: Discount, cart: seq<CartItem>, c: CartItem)
    ensures EligibleSubtotal(d, []) == 0
    ensures EligibleSubtotal(d, cart + [c]) - EligibleSubtotal(d, cart)
            == if |d.products| == 0 == |d.categories| || c.product in d.products || c.category in d.categories
               then c.unitPrice * c.quantity else 0
  {
    SumAppend(cart, c, LINE_TOTAL);
    SumAppend(cart, c, TargetTotal(d));
  }

  /** A row adds its unreserved units to the availability of its product. */
  lemma {:induction false} AvailableRowByRow(stocks: seq<Stock>, s: Stock, p: nat)
    ensures Sum([], AvailableOf(p)) == 0
    ensures Sum(stocks + [s], AvailableOf(p))
            == Sum(stocks, AvailableOf(p)) + if s.product == p then s.quantity - s.reserved else 0
  {
    SumAppend(stocks, s, AvailableOf(p));
  }

  // ----- Discounts

  /** What a discount asks for: that it is on, has begun and has not ended, was used less often than its two limits
      say, that the cart is worth enough and that it holds something to take from. The cart is read for either. */
  predicate Admits(db: Db, d: nat, user: nat, floor: seq<CartItem>, cart: seq<CartItem>, now: int) {
    && d < |db.discounts|
    && var x := db.discounts[d];
    && x.active
    && (x.start.Some? ==> x.start.value <= now)
    && (x.end.Some? ==> now <= x.end.value)
    && (x.limitTotal.Some? ==> x.usedCount < x.limitTotal.value)
    && (x.limitPerUser.Some? ==>
          |set o | o in db.usages && db.usages[o].discount == d && db.usages[o].user == user| < x.limitPerUser.value)
    && x.minOrder <= Subtotal(floor)
    && 0 < EligibleSubtotal(x, cart) && 0 < x.value
    && (x.kind.Percentage? && x.maxAmount.Some? ==> 0 < x.maxAmount.value)
  }

  /** A discount is accepted exactly when all of this holds. */
  lemma {:induction false} DiscountAdmittedExactly(
    db: Db, d: nat, user: nat, floor: seq<CartItem>, cart: seq<CartItem>, now: int)
    ensures CheckReads(db, d, user, floor, cart, now).Ok? <==> Admits(db, d, user, floor, cart, now)
  {
    if d < |db.discounts| {
      var x := db.discounts[d];
      assert UsesBy(db.usages, d, user)
          == set o | o in db.usages && db.usages[o].discount == d && db.usages[o].user == user;
      PositiveProduct(EligibleSubtotal(x, cart), x.value);
    }
  }

  lemma {:induction false} PositiveProduct(a: int, b: int)
    ensures 0 < a ==> (0 < a * b <==> 0 < b)
  {
  }

  /** A fixed amount takes its value or, of a cart worth less, the whole eligible part; a percentage takes its
      hundredths of the eligible part or, when that is more, its cap. Amounts are in hundredths. */
  predicate Takes(x: Discount, eligible: int, h: int) {
    match x.kind
    case FixedAmount =>
      && h <= 100 * x.value && h <= 100 * eligible
      && (h == 100 * x.value || h == 100 * eligible)
    case Percentage =>
      && h <= eligible * x.value && (x.maxAmount.Some? ==> h <= 100 * x.maxAmount.value)
      && (h == eligible * x.value || (x.maxAmount.Some? && h == 100 * x.maxAmount.value))
  }

  /** The amount of an accepted discount; of a stored cart it is within the eligible part, and that within the
      cart. */
  lemma {:induction false} DiscountAmountExactly(
    db: Db, d: nat, user: nat, floor: seq<CartItem>, cart: seq<CartItem>, now: int, h: int)
    requires CheckReads(db, d, user, floor, cart, now) == Ok(h)
    ensures d < |db.discounts| && Takes(db.discounts[d], EligibleSubtotal(db.discounts[d], cart), h)
    ensures Reachable(db) && CartOk(cart) ==>
              0 < h <= 100 * EligibleSubtotal(db.discounts[d], cart) <= 100 * Subtotal(cart)
  {
    if Reachable(db) && CartOk(cart) {
      ReachableOk(db);
      assert DiscountOk(db.discounts[d], d, db.usages);
      assert forall k :: 0 <= k < |cart| ==> CartItemOk(cart[k]);
      var byUser := |UsesBy(db.usages, d, user)|;
      DiscountWithinSubtotal(db.discounts[d], db.discounts[d].usedCount, byUser, floor, cart, now);
    }
  }

  /** Stored money is a nearest whole unit; of two, the upper one or the even one. */
  lemma {:induction false} HalvesExactly(h: int)
    ensures IsNearest(Round(HalfUp, h), h) && IsNearest(Round(HalfEven, h), h)
    ensures h % 100 == 50 ==> 100 * Round(HalfUp, h) == h + 50 && Round(HalfEven, h) % 2 == 0
  {
    RoundIsNearest(HalfUp, h);
    RoundIsNearest(HalfEven, h);
    assert h == 100 * (h / 100) + h % 100;
  }

  /** A discount is created exactly for terms that make sense, as they are given, and unused. */
  lemma {:induction false} DiscountCreated(db: Db, d: Discount)
    ensures CreateDiscount(db, d).Ok? <==>
              && 0 <= d.value && (d.kind.Percentage? ==> d.value <= 100) && 0 <= d.minOrder
              && (d.maxAmount.Some? ==> 0 <= d.maxAmount.value)
              && (d.start.Some? && d.end.Some? ==> d.start.value < d.end.value)
    ensures CreateDiscount(db, d).Ok? ==>
              CreateDiscount(db, d).value
              == db.(discounts := db.discounts
                                  + [Discount(d.kind, d.value, d.maxAmount, d.minOrder, d.limitTotal, d.limitPerUser,
                                              0, d.start, d.end, d.active, d.products, d.categories)])
  {
  }

  // ----- Checkout

  /** A row of the line's product, in an active warehouse, with enough unreserved units. */
  predicate Serves(s: Stock, active: set<nat>, c: CartItem) {
    s.product == c.product && s.warehouse in active && c.quantity <= s.quantity - s.reserved
  }

  predicate Served(stocks: seq<Stock>, active: set<nat>, c: CartItem) {
    exists i :: 0 <= i < |stocks| && Serves(stocks[i], active, c)
  }

  /** The lowest row that serves a line. */
  predicate IsLowest(stocks: seq<Stock>, active: set<nat>, c: CartItem, i: nat) {
    i < |stocks| && Serves(stocks[i], active, c) && forall j :: 0 <= j < i ==> !Serves(stocks[j], active, c)
  }

  /** The item that a cart line becomes when it is reserved in a warehouse. */
  predicate Becomes(c: CartItem, item: Item, warehouse: nat) {
    && item.product == c.product && item.seller == c.seller && item.warehouse == Some(warehouse)
    && item.quantity == c.quantity && item.unitPrice == c.unitPrice
    && item.totalPrice == c.unitPrice * c.quantity
  }

  lemma {:induction false} FirstFitIsLowest(stocks: seq<Stock>, active: set<nat>, c: CartItem)
    ensures
      var i := FirstFit(stocks, active, c.product, c.quantity);
      && (i < |stocks| ==> IsLowest(stocks, active, c, i))
      && (i < |stocks| <==> Served(stocks, active, c))
  {
    var i := FirstFit(stocks, active, c.product, c.quantity);
    assert forall j :: 0 <= j < |stocks| ==>
      (Serves(stocks[j], active, c) <==> Fits(stocks[j], active, c.product, c.quantity));
  }

  /** Checkout succeeds exactly for a cart in which every line alone has a row that serves it, and a discount
      that is admitted at validation and again at creation. */
  lemma {:induction false} CheckoutExactly(
    db: Db, user: nat, discount: Option<nat>, shipping: nat, seen: int, now: int, mode: Rounding)
    requires Reachable(db)
    ensures
      PlaceOrder(db, user, discount, shipping, seen, now, mode).Ok? <==>
        && user in db.carts && |db.carts[user]| != 0
        && (forall k :: 0 <= k < |db.carts[user]| ==>
              Served(db.ledger.stocks, db.activeWarehouses, db.carts[user][k]))
        && (discount.Some? ==>
              && Admits(db, discount.value, user, db.carts[user], db.carts[user], seen)
              && Admits(db, discount.value, user, db.carts[user], db.carts[user], now))
  {
    CheckoutCompletes(db, user, discount, shipping, seen, now, mode);
    if user in db.carts {
      EachServed(db.ledger.stocks, db.activeWarehouses, db.carts[user]);
      if discount.Some? {
        DiscountAdmittedExactly(db, discount.value, user, db.carts[user], db.carts[user], seen);
        DiscountAdmittedExactly(db, discount.value, user, db.carts[user], db.carts[user], now);
      }
    }
  }

  lemma {:induction false} EachServed(stocks: seq<Stock>, active: set<nat>, cart: seq<CartItem>)
    ensures EachFits(stocks, active, cart) <==> forall k :: 0 <= k < |cart| ==> Served(stocks, active, cart[k])
  {
    forall k | 0 <= k < |cart|
      ensures FirstFit(stocks, active, cart[k].product, cart[k].quantity) < |stocks|
              <==> Served(stocks, active, cart[k])
    {
      FirstFitIsLowest(stocks, active, cart[k]);
    }
  }

  /** The order's items are the cart's lines, in order: each with its product, seller, quantity and price, in the
      warehouse of the lowest row that serves it; and the order has a fulfilment for each line's seller. */
  lemma {:induction false} CheckoutItems(
    db: Db, user: nat, discount: Option<nat>, shipping: nat, seen: int, now: int, mode: Rounding, db1: Db)
    requires Reachable(db) && PlaceOrder(db, user, discount, shipping, seen, now, mode) == Ok(db1)
    ensures user in db.carts && |db1.orders| == |db.orders| + 1
    ensures
      var cart, o := db.carts[user], db1.orders[|db.orders|];
      && |o.items| == |cart|
      && (forall k :: 0 <= k < |cart| ==>
            exists i: nat :: IsLowest(db.ledger.stocks, db.activeWarehouses, cart[k], i)
                             && Becomes(cart[k], o.items[k], db.ledger.stocks[i].warehouse))
      && o.sellers.Keys == set k | 0 <= k < |cart| :: cart[k].seller
  {
    CheckoutCompletes(db, user, discount, shipping, seen, now, mode);
    PlacedFor(db, user, discount, shipping, seen, now, mode, db1);
    ReachableOk(db1) by {
      CheckoutReaches(db, user, discount, shipping, seen, now, mode, db1);
    }
    var cart, o := db.carts[user], db1.orders[|db.orders|];
    forall k | 0 <= k < |cart|
      ensures exists i: nat :: IsLowest(db.ledger.stocks, db.activeWarehouses, cart[k], i)
                               && Becomes(cart[k], o.items[k], db.ledger.stocks[i].warehouse)
    {
      AssignedLine(db.ledger.stocks, db.activeWarehouses, cart, k);
    }
    assert OrderOk(o);
    SellersOfLines(cart, o.items);
  }

  lemma {:induction false} CheckoutReaches(
    db: Db, user: nat, discount: Option<nat>, shipping: nat, seen: int, now: int, mode: Rounding, db1: Db)
    requires Reachable(db) && PlaceOrder(db, user, discount, shipping, seen, now, mode) == Ok(db1)
    ensures Reachable(db1)
  {
    NextReachable(db, DoPlaceOrder(user, discount, shipping, seen, now, mode));
  }

  lemma {:induction false} PlacedFor(
    db: Db, user: nat, discount: Option<nat>, shipping: nat, seen: int, now: int, mode: Rounding, db1: Db)
    requires PlaceOrder(db, user, discount, shipping, seen, now, mode) == Ok(db1)
    ensures user in db.carts
  {
  }

  lemma {:induction false} AssignedLine(stocks: seq<Stock>, active: set<nat>, cart: seq<CartItem>, k: nat)
    requires EachFits(stocks, active, cart) && k < |cart|
    ensures exists i: nat :: IsLowest(stocks, active, cart[k], i)
                             && Becomes(cart[k], Assigned(stocks, active, cart)[k], stocks[i].warehouse)
  {
    FirstFitIsLowest(stocks, active, cart[k]);
    var i := FirstFit(stocks, active, cart[k].product, cart[k].quantity);
    assert IsLowest(stocks, active, cart[k], i);
    assert Becomes(cart[k], Assigned(stocks, active, cart)[k], stocks[i].warehouse);
  }

  lemma {:induction false} SellersOfLines(cart: seq<CartItem>, items: seq<Item>)
    requires |items| == |cart| && forall k :: 0 <= k < |cart| ==> items[k].seller == cart[k].seller
    ensures SellersOf(items) == set k | 0 <= k < |cart| :: cart[k].seller
  {
    forall s | s in SellersOf(items) ensures exists k :: 0 <= k < |cart| && cart[k].seller == s {
      var k :| 0 <= k < |items| && items[k].seller == s;
      assert cart[k].seller == s;
    }
    forall k | 0 <= k < |cart| ensures cart[k].seller in SellersOf(items) {
      assert items[k].seller == cart[k].seller;
    }
  }

  /** The rest of the new order: whose it is, its state and its money. */
  lemma {:induction false} CheckoutOrder(
    db: Db, user: nat, discount: Option<nat>, shipping: nat, seen: int, now: int, mode: Rounding, db1: Db)
    requires Reachable(db) && PlaceOrder(db, user, discount, shipping, seen, now, mode) == Ok(db1)
    ensures user in db.carts && |db1.orders| == |db.orders| + 1
    ensures
      var cart, o := db.carts[user], db1.orders[|db.orders|];
      && o.user == user && o.status == PendingPayment && o.payment == Unpaid
      && o.subtotal == Subtotal(cart) && o.shipping == shipping && o.tax == 0
      && o.history == [Change(None, PendingPayment)]
      && (forall s :: s in o.sellers ==> o.sellers[s] == PendingPayment)
      && (if discount.None? then o.discount == 0 && o.total == Subtotal(cart) + shipping
          else
            var r := CheckDiscount(db, discount.value, user, cart, now);
            && r.Ok? && o.discount == Round(mode, r.value)
            && o.total == Round(mode, 100 * (Subtotal(cart) + shipping) - r.value))
  {
    CheckoutTotal(db, user, discount, shipping, seen, now, mode, db1);
    CheckoutFulfilments(db, user, discount, shipping, seen, now, mode, db1);
    TotalIs(db, user, discount, shipping, now, mode);
  }

  lemma {:induction false} CheckoutTotal(
    db: Db, user: nat, discount: Option<nat>, shipping: nat, seen: int, now: int, mode: Rounding, db1: Db)
    requires Reachable(db) && PlaceOrder(db, user, discount, shipping, seen, now, mode) == Ok(db1)
    ensures |db1.orders| == |db.orders| + 1
    ensures db1.orders[|db.orders|].total
            == Round(mode, 100 * Gross(db, user, shipping) - Taken(db, user, discount, now))
  {
    ReachableOk(db);
    CheckoutMoney(db, user, discount, shipping, seen, now, mode, db1);
  }

  lemma {:induction false} TotalIs(db: Db, user: nat, discount: Option<nat>, shipping: nat, now: int, mode: Rounding)
    requires user in db.carts
    requires discount.Some? ==> CheckDiscount(db, discount.value, user, db.carts[user], now).Ok?
    ensures Round(mode, 100 * Gross(db, user, shipping) - Taken(db, user, discount, now))
            == if discount.None? then Subtotal(db.carts[user]) + shipping
               else Round(mode, 100 * (Subtotal(db.carts[user]) + shipping)
                                - CheckDiscount(db, discount.value, user, db.carts[user], now).value)
  {
    RoundWhole(mode, Subtotal(db.carts[user]) + shipping);
  }

  /** The tables: the cart is emptied and the discount's use is recorded and counted, and earlier orders, other
      discounts and uses, payments, transfers, movements and other carts stay. */
  lemma {:induction false} CheckoutTables(
    db: Db, user: nat, discount: Option<nat>, shipping: nat, seen: int, now: int, mode: Rounding, db1: Db)
    requires PlaceOrder(db, user, discount, shipping, seen, now, mode) == Ok(db1)
    ensures |db1.orders| == |db.orders| + 1 && db1.orders[..|db.orders|] == db.orders
    ensures db1.payments == db.payments && db1.transfers == db.transfers
    ensures db1.activeWarehouses == db.activeWarehouses && db1.ledger.movements == db.ledger.movements
    ensures db1.carts == db.carts[user := []]
    ensures discount.None? ==> db1.usages == db.usages && db1.discounts == db.discounts
    ensures discount.Some? ==>
              && discount.value < |db.discounts|
              && db1.usages == db.usages[|db.orders| := Usage(discount.value, user, db1.orders[|db.orders|].discount)]
              && db1.discounts == db.discounts[discount.value :=
                   db.discounts[discount.value].(usedCount := db.discounts[discount.value].usedCount + 1)]
  {
    PlaceOrderIs(db, user, discount, shipping, seen, now, mode);
  }

  lemma {:induction false} CheckoutFulfilments(
    db: Db, user: nat, discount: Option<nat>, shipping: nat, seen: int, now: int, mode: Rounding, db1: Db)
    requires PlaceOrder(db, user, discount, shipping, seen, now, mode) == Ok(db1)
    ensures user in db.carts && |db1.orders| == |db.orders| + 1
    ensures
      var cart, o := db.carts[user], db1.orders[|db.orders|];
      && o.user == user && o.status == PendingPayment && o.payment == Unpaid
      && o.subtotal == Subtotal(cart) && o.shipping == shipping && o.tax == 0
      && o.history == [Change(None, PendingPayment)]
      && (forall s :: s in o.sellers ==> o.sellers[s] == PendingPayment)
      && (discount.None? ==> o.discount == 0)
      && (discount.Some? ==>
            var r := CheckDiscount(db, discount.value, user, cart, now);
            && r.Ok? && o.discount == Round(mode, r.value))
  {
    PlaceOrderIs(db, user, discount, shipping, seen, now, mode);
  }

  // ----- Starting an order

  /** A seller's start moves its own fulfilment of this order to processing, and the order if it was only paid; no
      other fulfilment and no other order changes, and the same seller cannot start again. */
  lemma {:induction false} StartEffect(db: Db, seller: nat, order: nat, db': Db)
    requires Reachable(db) && StartFulfilment(db, seller, order) == Ok(db')
    ensures order < |db.orders| == |db'.orders| && db' == db.(orders := db'.orders)
    ensures forall k :: 0 <= k < |db.orders| && k != order ==> db'.orders[k] == db.orders[k]
    ensures
      var o, o' := db.orders[order], db'.orders[order];
      && o'.sellers.Keys == o.sellers.Keys && seller in o'.sellers && o'.sellers[seller].Processing?
      && (forall s :: s in o.sellers && s != seller ==> o'.sellers[s] == o.sellers[s])
      && o'.status.Processing?
      && o'.history == o.history + (if o.status.Paid? then [Change(Some(OrderStatus.Paid), Processing)] else [])
      && o' == o.(status := Processing, sellers := o'.sellers, history := o'.history)
    ensures StartFulfilment(db', seller, order) == Err(WrongStatus)
  {
    ReachableOk(db);
    assert OrderOk(db.orders[order]);
    StartMoves(db, seller, order, db');
    StartsOnce(db', seller, order);
  }

  lemma {:induction false} StartMoves(db: Db, seller: nat, order: nat, db': Db)
    requires order < |db.orders| && OrderOk(db.orders[order]) && StartFulfilment(db, seller, order) == Ok(db')
    ensures
      var o := db.orders[order];
      && seller in o.sellers && seller in SellersOf(o.items) && o.payment.PaymentDone?
      && db' == db.(orders := db.orders[order := o.(
                 status := Processing, sellers := o.sellers[seller := Processing],
                 history := o.history + (if o.status.Paid? then [Change(Some(OrderStatus.Paid), Processing)] else []))])
  {
    var o := db.orders[order];
    assert o.history + [] == o.history;
  }

  lemma {:induction false} StartsOnce(db: Db, seller: nat, order: nat)
    requires order < |db.orders| && seller in SellersOf(db.orders[order].items)
    requires db.orders[order].payment.PaymentDone? && seller in db.orders[order].sellers
    requires db.orders[order].sellers[seller].Processing?
    ensures StartFulfilment(db, seller, order) == Err(WrongStatus)
  {
  }

  /** An administrator's start moves the order alone: no fulfilment and no other order changes. */
  lemma {:induction false} ProcessingEffect(db: Db, order: nat, db': Db)
    requires Reachable(db) && StartProcessing(db, order) == Ok(db')
    ensures order < |db.orders| == |db'.orders| && db' == db.(orders := db'.orders)
    ensures forall k :: 0 <= k < |db.orders| && k != order ==> db'.orders[k] == db.orders[k]
    ensures
      var o := db.orders[order];
      db'.orders[order] == o.(status := Processing,
                              history := o.history + [Change(Some(OrderStatus.Paid), Processing)])
    ensures StartProcessing(db', order) == Err(WrongStatus)
  {
    ReachableOk(db);
    assert OrderOk(db.orders[order]);
  }

  // ----- Payments

  /** A new attempt is the order's owner's, whoever opened it, and carries no reference yet. */
  lemma {:induction false} AttemptOpened(
    db: Db, caller: nat, staff: bool, order: nat, provider: nat, db': Db, id: nat)
    requires CreatePayment(db, caller, staff, order, provider) == Ok((db', id))
    ensures order < |db.orders| && db' == db.(payments := db'.payments)
    ensures id < |db.payments| || id == |db.payments|
    ensures id < |db.payments| ==> db'.payments == db.payments
    ensures id == |db.payments| ==>
              db'.payments == db.payments + [Payment(order, db.orders[order].user, provider, Pending,
                                                     db.orders[order].total, "")]
  {
  }

  /** The payment references that are already in use are the non-empty ones of the provider's captures. */
  lemma {:induction false} ReferencesInUse(db: Db, provider: nat, reference: string, except: nat)
    requires Reachable(db)
    ensures ReferenceTaken(db.payments, provider, reference, except) <==>
              |reference| != 0
              && exists k :: 0 <= k < |db.payments| && k != except && db.payments[k].status.Success?
                   && db.payments[k].provider == provider && db.payments[k].reference == reference
  {
    ReachableOk(db);
    assert forall k :: 0 <= k < |db.payments| ==> PaymentOk(db.payments[k], db.orders);
  }

  /** A successful payment: the attempt gets the reference and the order's other pending attempts are cancelled. */
  lemma {:induction false} SuccessOnPayments(db: Db, payment: nat, reference: string, naive: bool, db': Db, j: nat)
    requires MarkSuccess(db, payment, reference, naive) == Ok(db')
    ensures payment < |db.payments| == |db'.payments|
    ensures
      var p := db.payments[payment];
      db'.payments[payment] == Payment(p.order, p.user, p.provider, Success, p.amount, reference)
    ensures j < |db.payments| && j != payment ==>
              var p := db.payments[j];
              db'.payments[j] == if p.order == db.payments[payment].order && p.status.Pending?
                                 then Payment(p.order, p.user, p.provider, PaymentCancelled, p.amount, p.reference)
                                 else p
  {
  }

  /** Its order is paid, with every fulfilment, and its total recomputed; other orders and tables stay. */
  lemma {:induction false} SuccessOnOrders(db: Db, payment: nat, reference: string, naive: bool, db': Db)
    requires Reachable(db) && MarkSuccess(db, payment, reference, naive) == Ok(db')
    ensures payment < |db.payments| && db.payments[payment].order < |db.orders| == |db'.orders|
    ensures db' == db.(ledger := db'.ledger, payments := db'.payments, orders := db'.orders)
    ensures
      var n := db.payments[payment].order;
      var o, o' := db.orders[n], db'.orders[n];
      && (forall k :: 0 <= k < |db.orders| && k != n ==> db'.orders[k] == db.orders[k])
      && o'.sellers.Keys == o.sellers.Keys && (forall s :: s in o'.sellers ==> o'.sellers[s] == OrderStatus.Paid)
      && o' == o.(status := OrderStatus.Paid, payment := PaymentDone,
                  total := o.subtotal - o.discount + o.shipping + o.tax, sellers := o'.sellers,
                  history := o.history + [Change(Some(PendingPayment), OrderStatus.Paid)])
  {
    ReachableOk(db);
    assert OrderOk(db.orders[db.payments[payment].order]);
  }

  /** Its items leave their rows with their reservations. */
  lemma {:induction false} SuccessOnRows(db: Db, payment: nat, reference: string, naive: bool, db': Db, i: nat)
    requires Reachable(db) && MarkSuccess(db, payment, reference, naive) == Ok(db')
    ensures payment < |db.payments| && db.payments[payment].order < |db.orders|
    ensures |db'.ledger.stocks| == |db.ledger.stocks|
    ensures i < |db.ledger.stocks| ==>
              var s := db.ledger.stocks[i];
              var q := Sum(db.orders[db.payments[payment].order].items, (x: Item) =>
                if x.product == s.product && x.warehouse == Some(s.warehouse) then x.quantity else 0);
              db'.ledger.stocks[i] == Stock(s.product, s.warehouse, s.quantity - q, s.reserved - q)
  {
    SuccessSold(db, payment, reference, naive, db');
    if i < |db.ledger.stocks| {
      UnitsHeld(db.orders[db.payments[payment].order].items, db.ledger.stocks[i]);
    }
  }

  /** And each item leaves one sale, in order, in its product and warehouse, which names the payment. */
  lemma {:induction false} SuccessOnLedger(db: Db, payment: nat, reference: string, naive: bool, db': Db, k: nat)
    requires Reachable(db) && MarkSuccess(db, payment, reference, naive) == Ok(db')
    ensures payment < |db.payments| && db.payments[payment].order < |db.orders|
    ensures
      var items, ms, ms' := db.orders[db.payments[payment].order].items, db.ledger.movements, db'.ledger.movements;
      && |ms'| == |ms| + |items| && ms'[..|ms|] == ms
      && (k < |items| ==>
            var m := ms'[|ms| + k];
            && m.kind == Sale && m.quantity == -items[k].quantity && m.reference == ForPayment(payment)
            && m.product == items[k].product && Some(m.warehouse) == items[k].warehouse)
  {
    SuccessSold(db, payment, reference, naive, db');
  }

  lemma {:induction false} SuccessSold(db: Db, payment: nat, reference: string, naive: bool, db': Db)
    requires Reachable(db) && MarkSuccess(db, payment, reference, naive) == Ok(db')
    ensures payment < |db.payments| && db.payments[payment].order < |db.orders|
    ensures SoldBy(db.ledger.stocks, db'.ledger.stocks, db.orders[db.payments[payment].order].items)
    ensures AllPlaced(db.ledger.stocks, db.orders[db.payments[payment].order].items)
    ensures SalesRecorded(db.ledger.movements, db'.ledger.movements,
                          db.orders[db.payments[payment].order].items, payment)
  {
    ReachableOk(db);
    SuccessSells(db, payment, reference, naive);
    WaitingOrderSells(db.ledger, db.orders, db.payments[payment].order, payment);
  }

  /** Units of items at a row, spelled out. */
  lemma {:induction false} UnitsHeld(items: seq<Item>, s: Stock)
    ensures Qty(items, s) == Sum(items, (x: Item) =>
              if x.product == s.product && x.warehouse == Some(s.warehouse) then x.quantity else 0)
  {
    SumPointwise(items, QtyAt(s.product, s.warehouse), items, (x: Item) =>
      if x.product == s.product && x.warehouse == Some(s.warehouse) then x.quantity else 0);
  }

  /** Which attempts can fail or be cancelled, and that only their status changes. */
  lemma {:induction false} AttemptEnds(db: Db, payment: nat)
    ensures MarkFailed(db, payment).Ok? <==> payment < |db.payments| && db.payments[payment].status == Pending
    ensures CancelPayment(db, payment).Ok? <==>
              payment < |db.payments| && db.payments[payment].status in {Pending, Failed}
    ensures payment < |db.payments| ==>
              var p := db.payments[payment];
              && (MarkFailed(db, payment).Ok? ==>
                    MarkFailed(db, payment).value
                    == db.(payments := db.payments[payment :=
                             Payment(p.order, p.user, p.provider, Failed, p.amount, p.reference)]))
              && (CancelPayment(db, payment).Ok? ==>
                    CancelPayment(db, payment).value
                    == db.(payments := db.payments[payment :=
                             Payment(p.order, p.user, p.provider, PaymentCancelled, p.amount, p.reference)]))
  {
  }

  // ----- Cancelling an order

  /** A cancelled order: its total is recomputed, its fulfilments stay as they are, its pending attempts are
      cancelled, its use of a discount is removed and counted down, and other records stay. */
  lemma {:induction false} CancelledOrders(db: Db, caller: nat, staff: bool, order: nat, db': Db)
    requires Reachable(db) && CancelOrder(db, caller, staff, order) == Ok(db')
    ensures order < |db.orders|
    ensures
      var o := db.orders[order];
      db'.orders == db.orders[order := o.(status := Cancelled, total := o.subtotal - o.discount + o.shipping + o.tax,
                                          history := o.history + [Change(Some(PendingPayment), Cancelled)])]
    ensures db'.transfers == db.transfers && db'.carts == db.carts && db'.activeWarehouses == db.activeWarehouses
    ensures db'.ledger.movements == db.ledger.movements
  {
    ReachableOk(db);
    CancelledIs(db, caller, staff, order);
    CancelledRecord(db, db', order);
  }

  lemma {:induction false} CancelledRecord(db: Db, db': Db, order: nat)
    requires OrdersOk(db.orders) && CancelledTo(db, db', order)
    ensures
      var o := db.orders[order];
      db'.orders == db.orders[order := o.(status := Cancelled, total := o.subtotal - o.discount + o.shipping + o.tax,
                                          history := o.history + [Change(Some(PendingPayment), Cancelled)])]
    ensures db'.transfers == db.transfers && db'.carts == db.carts && db'.activeWarehouses == db.activeWarehouses
    ensures db'.ledger.movements == db.ledger.movements
  {
    assert OrderOk(db.orders[order]);
  }

  lemma {:induction false} CancelledAttempts(db: Db, caller: nat, staff: bool, order: nat, db': Db, j: nat)
    requires CancelOrder(db, caller, staff, order) == Ok(db')
    ensures |db'.payments| == |db.payments|
    ensures j < |db.payments| ==>
              var p := db.payments[j];
              db'.payments[j] == if p.order == order && p.status.Pending?
                                 then Payment(p.order, p.user, p.provider, PaymentCancelled, p.amount, p.reference)
                                 else p
  {
    CancelledIs(db, caller, staff, order);
  }

  lemma {:induction false} CancelledUses(db: Db, caller: nat, staff: bool, order: nat, db': Db)
    requires Reachable(db) && CancelOrder(db, caller, staff, order) == Ok(db')
    ensures order !in db'.usages && db'.usages == db.usages - {order}
    ensures order !in db.usages ==> db'.discounts == db.discounts
    ensures order in db.usages ==>
              var d := db.usages[order].discount;
              && d < |db.discounts|
              && 0 < db.discounts[d].usedCount
              && db'.discounts == db.discounts[d := db.discounts[d].(usedCount := db.discounts[d].usedCount - 1)]
  {
    CancelledIs(db, caller, staff, order);
    if order in db.usages {
      CountdownNeverSuppressed(db, order);
    } else {
      assert db.usages - {order} == db.usages;
    }
  }

  /** Its items' reservations end, row by row. */
  lemma {:induction false} CancelledRows(db: Db, caller: nat, staff: bool, order: nat, db': Db, i: nat)
    requires Reachable(db) && CancelOrder(db, caller, staff, order) == Ok(db')
    ensures order < |db.orders| && SameRows(db.ledger.stocks, db'.ledger.stocks)
    ensures i < |db.ledger.stocks| ==>
              var s := db.ledger.stocks[i];
              var q := Sum(db.orders[order].items, (x: Item) =>
                if x.product == s.product && x.warehouse == Some(s.warehouse) then x.quantity else 0);
              db'.ledger.stocks[i] == Stock(s.product, s.warehouse, s.quantity, s.reserved - q)
  {
    ReachableOk(db);
    CancelledIs(db, caller, staff, order);
    WaitingOrderReleases(db.ledger, db.orders, order);
    if i < |db.ledger.stocks| {
      UnitsHeld(db.orders[order].items, db.ledger.stocks[i]);
      UnitsHeld(db.orders[order].items, db'.ledger.stocks[i]);
    }
  }

  // ----- Carts

  predicate Holds(cart: seq<CartItem>, p: nat) {
    exists k :: 0 <= k < |cart| && cart[k].product == p
  }

  lemma {:induction false} HoldsIs(cart: seq<CartItem>, p: nat)
    ensures Holds(cart, p) <==> InCart(cart, p) < |cart|
  {
  }

  /** Only the user's own cart changes. */
  ghost predicate OnlyCart(db: Db, db': Db, user: nat) {
    && db' == db.(carts := db'.carts) && user in db'.carts
    && forall u :: u != user ==> (u in db'.carts <==> u in db.carts) && (u in db.carts ==> db'.carts[u] == db.carts[u])
  }

  /** A product in the cart can be removed: its line goes, and the others stay in their order. */
  lemma {:induction false} LineRemoved(db: Db, user: nat, p: nat)
    requires Reachable(db)
    ensures RemoveFromCart(db, user, p).Ok? <==> user in db.carts && Holds(db.carts[user], p)
    ensures RemoveFromCart(db, user, p).Ok? ==>
              var db' := RemoveFromCart(db, user, p).value;
              && OnlyCart(db, db', user) && !Holds(db'.carts[user], p)
              && exists k :: 0 <= k < |db.carts[user]| && db.carts[user][k].product == p
                             && db'.carts[user] == db.carts[user][..k] + db.carts[user][k + 1..]
  {
    ReachableOk(db);
    if user in db.carts {
      var cart := db.carts[user];
      assert CartOk(cart);
      HoldsIs(cart, p);
      var k := InCart(cart, p);
      if k < |cart| {
        assert cart[k].product == p;
      }
    }
  }

  /** The quantity of a line can be set to what its product has available in all warehouses; the line gets the
      current price, and nothing else in it or in the cart changes. */
  lemma {:induction false} LineUpdated(db: Db, user: nat, p: nat, quantity: int, price: nat)
    ensures UpdateCart(db, user, p, quantity, price).Ok? <==>
              && user in db.carts && Holds(db.carts[user], p)
              && 1 <= quantity <= Sum(db.ledger.stocks, AvailableOf(p))
    ensures UpdateCart(db, user, p, quantity, price).Ok? ==>
              var db' := UpdateCart(db, user, p, quantity, price).value;
              && OnlyCart(db, db', user)
              && exists k :: 0 <= k < |db.carts[user]| && db.carts[user][k].product == p
                   && db'.carts[user] == db.carts[user][k := CartItem(p, db.carts[user][k].seller,
                                                            db.carts[user][k].category, quantity, price)]
  {
    if user in db.carts {
      HoldsIs(db.carts[user], p);
      var cart, k := db.carts[user], InCart(db.carts[user], p);
      if k < |cart| {
        assert cart[k].product == p;
      }
    }
  }

  /** A new line goes in front as it is given; a line of the same product is raised and repriced where it is. */
  lemma {:induction false} LineAdded(db: Db, user: nat, listed: bool, c: CartItem, db': Db)
    requires AddToCart(db, user, listed, c) == Ok(db')
    ensures OnlyCart(db, db', user)
    ensures !Holds(CartOf(db, user), c.product) ==> db'.carts[user] == [c] + CartOf(db, user)
    ensures Holds(CartOf(db, user), c.product) ==>
              var cart := CartOf(db, user);
              exists k :: 0 <= k < |cart| && cart[k].product == c.product
                && db'.carts[user] == cart[k := CartItem(c.product, cart[k].seller, cart[k].category,
                                                         cart[k].quantity + c.quantity, c.unitPrice)]
  {
    var cart := CartOf(db, user);
    HoldsIs(cart, c.product);
    var k := InCart(cart, c.product);
    if k < |cart| {
      assert cart[k].product == c.product;
    }
  }

  lemma {:induction false} CartCleared(db: Db, user: nat)
    ensures OnlyCart(db, ClearCart(db, user), user) && |ClearCart(db, user).carts[user]| == 0
  {
  }

  // ----- Stock

  /** A movement can be recorded exactly with a quantity of the sign of its type that leaves at least the reserved
      units in its row; a missing row holds nothing. It is recorded with the row's units before and after, which
      are the row's units from then on; no other row's units change, and no reservation. */
  lemma {:induction false} RecordedExactly(
    l: Ledger, p: nat, w: nat, kind: MovementType, q: int, ref: Reference, x: nat, y: nat)
    requires LedgerOk(l)
    ensures Record(l, p, w, kind, q, ref).Ok? <==>
              && q != 0 && (kind in {Purchase, Return, TransferIn} ==> 0 < q)
              && (kind in {Sale, TransferOut, Damaged} ==> q < 0)
              && ReservedAt(l.stocks, p, w) <= UnitsAt(l.stocks, p, w) + q
    ensures Record(l, p, w, kind, q, ref).Ok? ==>
              var l' := Record(l, p, w, kind, q, ref).value;
              && l'.movements == l.movements + [Movement(p, w, kind, q, UnitsAt(l.stocks, p, w),
                                                         UnitsAt(l.stocks, p, w) + q, ref)]
              && UnitsAt(l'.stocks, x, y) == UnitsAt(l.stocks, x, y) + (if (x, y) == (p, w) then q else 0)
              && ReservedAt(l'.stocks, x, y) == ReservedAt(l.stocks, x, y)
  {
    WithRowIndex(l.stocks, p, w);
    if Record(l, p, w, kind, q, ref).Ok? {
      RecordMovesUnitsAt(l, p, w, kind, q, ref, x, y);
    }
  }

  /** By hand only these types can be moved; sales and transfers have their own requests. */
  lemma {:induction false} MovedByHand(db: Db, p: nat, w: nat, kind: MovementType, q: int, ref: Reference)
    ensures MoveByHand(db, p, w, kind, q, ref)
            == if kind !in {Purchase, Return, Adjustment, Damaged} then Err(NotManual)
               else
                 var r := Record(db.ledger, p, w, kind, q, ref);
                 if r.Ok? then Ok(db.(ledger := r.value)) else Err(r.error)
  {
  }

  /** A row is created empty, and only where there is none. */
  lemma {:induction false} RowCreated(db: Db, p: nat, w: nat)
    ensures CreateStock(db, p, w).Ok? <==>
              forall i :: 0 <= i < |db.ledger.stocks| ==>
                db.ledger.stocks[i].product != p || db.ledger.stocks[i].warehouse != w
    ensures CreateStock(db, p, w).Ok? ==>
              CreateStock(db, p, w).value
              == db.(ledger := Ledger(db.ledger.stocks + [Stock(p, w, 0, 0)], db.ledger.movements))
  {
    RowIndex(db.ledger.stocks, p, w);
    if !HasRow(db.ledger.stocks, p, w) {
      forall i | 0 <= i < |db.ledger.stocks|
        ensures db.ledger.stocks[i].product != p || db.ledger.stocks[i].warehouse != w
      {
        assert !db.ledger.stocks[i].At(p, w);
      }
    } else {
      var i :| 0 <= i < |db.ledger.stocks| && db.ledger.stocks[i].At(p, w);
      assert db.ledger.stocks[i].product == p;
    }
  }

  lemma {:induction false} WarehouseSwitched(db: Db, w: nat, active: bool, x: nat)
    ensures SetWarehouse(db, w, active) == db.(activeWarehouses := SetWarehouse(db, w, active).activeWarehouses)
    ensures x in SetWarehouse(db, w, active).activeWarehouses <==> if x == w then active else x in db.activeWarehouses
  {
  }

  // ----- Transfers

  /** A transfer can be requested between different active warehouses, for units its source has unreserved. */
  lemma {:induction false} TransferRequested(db: Db, source: nat, dest: nat, p: nat, q: int, user: Option<nat>)
    requires Reachable(db)
    ensures RequestTransfer(db, source, dest, p, q, user).Ok? <==>
              && source != dest && 0 < q && {source, dest} <= db.activeWarehouses
              && q <= UnitsAt(db.ledger.stocks, p, source) - ReservedAt(db.ledger.stocks, p, source)
    ensures RequestTransfer(db, source, dest, p, q, user).Ok? ==>
              RequestTransfer(db, source, dest, p, q, user).value
              == db.(transfers := db.transfers + [Transfer(source, dest, p, q, Requested, user, None)])
  {
  }

  /** Anyone but the requester can approve a requested transfer, or cancel a requested or approved one. */
  lemma {:induction false} TransferDecided(db: Db, t: nat, user: nat)
    ensures ApproveTransfer(db, t, user).Ok? <==>
              && t < |db.transfers| && db.transfers[t].status == Requested
              && !(db.transfers[t].requestedBy.Some? && db.transfers[t].requestedBy.value == user)
    ensures CancelTransfer(db, t, user).Ok? <==>
              && t < |db.transfers| && db.transfers[t].status in {Requested, Approved}
              && !(db.transfers[t].requestedBy.Some? && db.transfers[t].requestedBy.value == user)
    ensures t < |db.transfers| ==>
              var x := db.transfers[t];
              && (ApproveTransfer(db, t, user).Ok? ==>
                    ApproveTransfer(db, t, user).value
                    == db.(transfers := db.transfers[t :=
                             Transfer(x.source, x.dest, x.product, x.quantity, Approved, x.requestedBy, Some(user))]))
              && (CancelTransfer(db, t, user).Ok? ==>
                    CancelTransfer(db, t, user).value
                    == db.(transfers := db.transfers[t :=
                             Transfer(x.source, x.dest, x.product, x.quantity, TransferCancelled, x.requestedBy,
                                      x.approvedBy)]))
  {
  }

  /** Goods issue takes the units from the source's row, goods receipt puts them into the destination's, both with
      one movement that names the transfer; the status follows, and nothing else changes. */
  lemma {:induction false} ShippedExactly(db: Db, t: nat, member: bool, db': Db, x: nat, y: nat)
    requires Reachable(db) && ShipTransfer(db, t, member) == Ok(db')
    ensures t < |db.transfers| && Moves(db, db', t, TransferOut, x, y)
  {
    ReachableOk(db);
    LegRecorded(db, t, member, db');
    LegMovesOut(db, db', t, x, y);
  }

  lemma {:induction false} ReceivedExactly(db: Db, t: nat, member: bool, db': Db, x: nat, y: nat)
    requires Reachable(db) && ReceiveTransfer(db, t, member) == Ok(db')
    ensures t < |db.transfers| && Moves(db, db', t, TransferIn, x, y)
  {
    ReachableOk(db);
    LegRecorded(db, t, member, db');
    LegMovesIn(db, db', t, x, y);
  }

  lemma {:induction false} LegMovesOut(db: Db, db': Db, t: nat, x: nat, y: nat)
    requires LedgerOk(db.ledger) && t < |db.transfers|
    requires
      var r := db.transfers[t];
      && Record(db.ledger, r.product, r.source, TransferOut, -r.quantity, ForTransfer(t)) == Ok(db'.ledger)
      && db' == db.(ledger := db'.ledger, transfers := db.transfers[t := r.(status := InTransit)])
    ensures Moves(db, db', t, TransferOut, x, y)
  {
    var r := db.transfers[t];
    LegEffect(db.ledger, db'.ledger, r.product, r.source, TransferOut, -r.quantity, t, x, y);
  }

  lemma {:induction false} LegMovesIn(db: Db, db': Db, t: nat, x: nat, y: nat)
    requires LedgerOk(db.ledger) && t < |db.transfers|
    requires
      var r := db.transfers[t];
      && Record(db.ledger, r.product, r.dest, TransferIn, r.quantity, ForTransfer(t)) == Ok(db'.ledger)
      && db' == db.(ledger := db'.ledger, transfers := db.transfers[t := r.(status := Completed)])
    ensures Moves(db, db', t, TransferIn, x, y)
  {
    var r := db.transfers[t];
    LegEffect(db.ledger, db'.ledger, r.product, r.dest, TransferIn, r.quantity, t, x, y);
  }

  lemma {:induction false} LegEffect(
    l: Ledger, l': Ledger, p: nat, w: nat, kind: MovementType, q: int, t: nat, x: nat, y: nat)
    requires LedgerOk(l) && Record(l, p, w, kind, q, ForTransfer(t)) == Ok(l')
    ensures l'.movements == l.movements + [Movement(p, w, kind, q, UnitsAt(l.stocks, p, w),
                                                    UnitsAt(l.stocks, p, w) + q, ForTransfer(t))]
    ensures UnitsAt(l'.stocks, x, y) == UnitsAt(l.stocks, x, y) + if x == p && y == w then q else 0
    ensures ReservedAt(l'.stocks, x, y) == ReservedAt(l.stocks, x, y)
  {
    RecordedExactly(l, p, w, kind, q, ForTransfer(t), x, y);
  }

  lemma {:induction false} LegRecorded(db: Db, t: nat, member: bool, db': Db)
    ensures ShipTransfer(db, t, member) == Ok(db') ==>
              && t < |db.transfers|
              && var r := db.transfers[t];
              && Record(db.ledger, r.product, r.source, TransferOut, -r.quantity, ForTransfer(t)) == Ok(db'.ledger)
              && db' == db.(ledger := db'.ledger, transfers := db.transfers[t := r.(status := InTransit)])
    ensures ReceiveTransfer(db, t, member) == Ok(db') ==>
              && t < |db.transfers|
              && var r := db.transfers[t];
              && Record(db.ledger, r.product, r.dest, TransferIn, r.quantity, ForTransfer(t)) == Ok(db'.ledger)
              && db' == db.(ledger := db'.ledger, transfers := db.transfers[t := r.(status := Completed)])
  {
  }

  ghost predicate Moves(db: Db, db': Db, t: nat, kind: MovementType, x: nat, y: nat)
    requires t < |db.transfers|
  {
    var r := db.transfers[t];
    var w, q, status := if kind.TransferOut? then r.source else r.dest,
                        if kind.TransferOut? then -r.quantity else r.quantity,
                        if kind.TransferOut? then InTransit else Completed;
    var before := UnitsAt(db.ledger.stocks, r.product, w);
    && db' == db.(ledger := db'.ledger, transfers := db'.transfers)
    && db'.transfers == db.transfers[t := Transfer(r.source, r.dest, r.product, r.quantity, status,
                                                   r.requestedBy, r.approvedBy)]
    && db'.ledger.movements == db.ledger.movements
                               + [Movement(r.product, w, kind, q, before, before + q, ForTransfer(t))]
    && UnitsAt(db'.ledger.stocks, x, y)
       == UnitsAt(db.ledger.stocks, x, y) + (if x == r.product && y == w then q else 0)
    && ReservedAt(db'.ledger.stocks, x, y) == ReservedAt(db.ledger.stocks, x, y)
  }
}
