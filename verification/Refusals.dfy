/** The reason given for a refusal is true of the tables, and no other reason is ever given. */
module Refusals {
  import opened Common
  import opened Inventory
  import opened Reservations
  import opened Tables
  import opened Pricing
  import opened Checkout
  import opened Operations
  import opened Invariants
  import opened Preservation
  import opened Safety
  import opened Theorems
  import opened Lifecycles
  import opened Effects

  // ----- Checkout

  predicate DiscountReason(
    db: Db, d: nat, user: nat, floor: seq<CartItem>, cart: seq<CartItem>, now: int, e: Error)
  {
    if |db.discounts| <= d then e == InvalidDiscount
    else
      var x := db.discounts[d];
      match e
      case DiscountInactive => !x.active
      case DiscountNotStarted => x.start.Some? && now < x.start.value
      case DiscountExpired => x.end.Some? && x.end.value < now
      case DiscountUsedUp => x.limitTotal.Some? && x.limitTotal.value <= x.usedCount
      case DiscountUsedUpByUser =>
        x.limitPerUser.Some?
        && x.limitPerUser.value <= |set o | o in db.usages && db.usages[o].discount == d && db.usages[o].user == user|
      case BelowMinimumOrder => Subtotal(floor) < x.minOrder
      case DiscountNotApplicable =>
        || EligibleSubtotal(x, cart) <= 0 || x.value <= 0
        || (x.kind.Percentage? && x.maxAmount.Some? && x.maxAmount.value <= 0)
      case _ => false
  }

  lemma {:induction false} DiscountRefusals(
    db: Db, d: nat, user: nat, floor: seq<CartItem>, cart: seq<CartItem>, now: int, e: Error)
    requires CheckReads(db, d, user, floor, cart, now) == Err(e)
    ensures DiscountReason(db, d, user, floor, cart, now, e)
  {
    if d < |db.discounts| {
      var x := db.discounts[d];
      assert UsesBy(db.usages, d, user)
          == set o | o in db.usages && db.usages[o].discount == d && db.usages[o].user == user;
      PositiveProduct(EligibleSubtotal(x, cart), x.value);
    }
  }

  /** A checkout is refused for a cart that is missing or empty, for a line that no row serves, or for a reason of its
      discount's at one of the two checks. */
  lemma {:induction false} CheckoutRefusals(
    db: Db, user: nat, discount: Option<nat>, shipping: nat, seen: int, now: int, mode: Rounding, e: Error)
    requires Reachable(db) && PlaceOrder(db, user, discount, shipping, seen, now, mode) == Err(e)
    ensures user !in db.carts ==> e == NotFound
    ensures user in db.carts ==>
              var cart := db.carts[user];
              match e
              case EmptyCart => |cart| == 0
              case NotEnoughStock =>
                exists k :: 0 <= k < |cart| && !Served(db.ledger.stocks, db.activeWarehouses, cart[k])
              case _ =>
                discount.Some? && (DiscountReason(db, discount.value, user, cart, cart, seen, e)
                                   || DiscountReason(db, discount.value, user, cart, cart, now, e))
  {
    ReachableOk(db);
    if user in db.carts && db.carts[user] != [] {
      var cart := db.carts[user];
      assert CartOk(cart);
      EachServed(db.ledger.stocks, db.activeWarehouses, cart);
      FirstFitComplete(db.ledger.stocks, db.activeWarehouses, cart);
      if EachFits(db.ledger.stocks, db.activeWarehouses, cart) {
        PreCheckAdmitsServable(db.ledger.stocks, db.activeWarehouses, cart);
        RefusedByDiscount(db, user, discount, shipping, seen, now, mode, e);
      } else {
        RefusedByStock(db, user, discount, shipping, seen, now, mode, e);
      }
    }
  }

  lemma {:induction false} RefusedByDiscount(
    db: Db, user: nat, discount: Option<nat>, shipping: nat, seen: int, now: int, mode: Rounding, e: Error)
    requires user in db.carts && db.carts[user] != [] && PreCheck(db.ledger.stocks, db.carts[user])
    requires ReserveCart(db.ledger.stocks, db.activeWarehouses, db.carts[user]).Ok?
    requires PlaceOrder(db, user, discount, shipping, seen, now, mode) == Err(e)
    ensures discount.Some?
            && (DiscountReason(db, discount.value, user, db.carts[user], db.carts[user], seen, e)
                || DiscountReason(db, discount.value, user, db.carts[user], db.carts[user], now, e))
  {
    var cart := db.carts[user];
    if discount.Some? {
      SameCheck(db, PlacedDb(db, user, shipping), discount.value, user, cart, now);
      if CheckDiscount(db, discount.value, user, cart, seen).Err? {
        DiscountRefusals(db, discount.value, user, cart, cart, seen, e);
      } else {
        DiscountRefusals(db, discount.value, user, cart, cart, now, e);
      }
    }
  }

  lemma {:induction false} RefusedByStock(
    db: Db, user: nat, discount: Option<nat>, shipping: nat, seen: int, now: int, mode: Rounding, e: Error)
    requires user in db.carts && db.carts[user] != [] && CartOk(db.carts[user])
    requires ReserveCart(db.ledger.stocks, db.activeWarehouses, db.carts[user]).Err?
    requires PlaceOrder(db, user, discount, shipping, seen, now, mode) == Err(e)
    ensures e == NotEnoughStock
            || (discount.Some? && DiscountReason(db, discount.value, user, db.carts[user], db.carts[user], seen, e))
  {
    var cart := db.carts[user];
    QuantitiesPositive(cart);
    LoopRefusal(db.ledger.stocks, db.activeWarehouses, cart);
    if discount.Some? && CheckDiscount(db, discount.value, user, cart, seen).Err? && e != NotEnoughStock {
      DiscountRefusals(db, discount.value, user, cart, cart, seen, e);
    }
  }

  lemma {:induction false} LoopRefusal(stocks: seq<Stock>, active: set<nat>, cart: seq<CartItem>)
    requires forall k :: 0 <= k < |cart| ==> 0 < cart[k].quantity
    ensures ReserveCart(stocks, active, cart).Err? ==> ReserveCart(stocks, active, cart).error == NotEnoughStock
    decreases |cart|
  {
    if cart != [] {
      var i := FirstFit(stocks, active, cart[0].product, cart[0].quantity);
      if i < |stocks| {
        LoopRefusal(Reserve(stocks, i, cart[0].quantity).value, active, cart[1..]);
      }
    }
  }

  // ----- Payments and orders

  /** A payment's success is refused for four reasons only: never for its order, its amount or the stock. */
  lemma {:induction false} SuccessRefusals(db: Db, payment: nat, reference: string, naive: bool, e: Error)
    requires Reachable(db) && MarkSuccess(db, payment, reference, naive) == Err(e)
    ensures
      match e
      case NotFound => |db.payments| <= payment
      case WrongStatus => payment < |db.payments| && !db.payments[payment].status.Pending?
      case NaiveTimestamp => naive
      case DuplicateReference =>
        exists k :: 0 <= k < |db.payments| && k != payment && db.payments[k].status.Success?
                    && db.payments[k].reference == reference && |reference| != 0
      case _ => false
  {
    ReachableOk(db);
    if payment < |db.payments| {
      assert PaymentOk(db.payments[payment], db.orders);
      ReferencesInUse(db, db.payments[payment].provider, reference, payment);
      if db.payments[payment].status.Pending? {
        NeverRefuses(db, payment);
      }
    }
  }

  lemma {:induction false} NeverRefuses(db: Db, payment: nat)
    requires Inv(db) && payment < |db.payments| && db.payments[payment].status.Pending?
    ensures db.payments[payment].order < |db.orders|
    ensures
      var p := db.payments[payment];
      var o := db.orders[p.order];
      && o.AwaitsPayment() && p.amount == o.total && !HasSuccess(db.payments, p.order, payment)
      && PayItems(db.ledger, o.items, payment).Ok?
  {
    var k := db.payments[payment].order;
    assert PaymentOk(db.payments[payment], db.orders);
    assert OrderOk(db.orders[k]);
    NoOtherSuccess(db, payment);
    WaitingOrderSells(db.ledger, db.orders, k, payment);
  }

  /** An attempt is refused to a stranger, for an order that does not wait, or for one with nothing to pay; a pending
      attempt never has another amount. */
  lemma {:induction false} AttemptRefusals(db: Db, caller: nat, staff: bool, order: nat, provider: nat, e: Error)
    requires Reachable(db) && CreatePayment(db, caller, staff, order, provider) == Err(e)
    ensures
      if |db.orders| <= order then e == NotFound
      else match e
        case Forbidden => !staff && db.orders[order].user != caller
        case NotAwaitingPayment => !db.orders[order].status.PendingPayment?
        case NothingToPay => db.orders[order].total <= 0
        case _ => false
  {
    if order < |db.orders| {
      AmountsMatch(db, order, provider);
      AttemptReason(db, caller, staff, order, provider, e);
    }
  }

  lemma {:induction false} AmountsMatch(db: Db, order: nat, provider: nat)
    requires Reachable(db) && order < |db.orders|
    ensures db.orders[order].AwaitsPayment() <==> db.orders[order].status.PendingPayment?
    ensures
      var k := PendingAttempt(db.payments, order, provider);
      k < |db.payments| ==> db.payments[k].amount == db.orders[order].total
  {
    ReachableOk(db);
    assert OrderOk(db.orders[order]);
    var k := PendingAttempt(db.payments, order, provider);
    assert k < |db.payments| ==> PaymentOk(db.payments[k], db.orders);
  }

  lemma {:induction false} AttemptReason(db: Db, caller: nat, staff: bool, order: nat, provider: nat, e: Error)
    requires order < |db.orders| && CreatePayment(db, caller, staff, order, provider) == Err(e)
    requires
      var k := PendingAttempt(db.payments, order, provider);
      k < |db.payments| ==> db.payments[k].amount == db.orders[order].total
    ensures
      match e
      case Forbidden => !staff && db.orders[order].user != caller
      case NotAwaitingPayment => !db.orders[order].AwaitsPayment()
      case NothingToPay => db.orders[order].total <= 0
      case _ => false
  {
  }

  /** A cancellation is refused to a stranger, as if there were no such order, or for an order that does not wait;
      the stock is never the reason. */
  lemma {:induction false} CancelRefusals(db: Db, caller: nat, staff: bool, order: nat, e: Error)
    requires Reachable(db) && CancelOrder(db, caller, staff, order) == Err(e)
    ensures
      if |db.orders| <= order || (!staff && db.orders[order].user != caller) then e == NotFound
      else !db.orders[order].status.PendingPayment? && (e == WrongStatus || e == NotAwaitingPayment)
  {
    CancellationCompletes(db, caller, staff, order);
    CancelReason(db, caller, staff, order, e);
  }

  lemma {:induction false} CancelReason(db: Db, caller: nat, staff: bool, order: nat, e: Error)
    requires CancelOrder(db, caller, staff, order) == Err(e)
    ensures |db.orders| <= order || (!staff && db.orders[order].user != caller) ==> e == NotFound
    ensures order < |db.orders| && (staff || db.orders[order].user == caller) ==>
              !db.orders[order].status.PendingPayment? ==> e == WrongStatus || e == NotAwaitingPayment
  {
  }

  /** A start is refused to who sells nothing in the order, for an order that is not paid, or a second time. */
  lemma {:induction false} StartRefusals(db: Db, seller: nat, order: nat, e: Error)
    requires Reachable(db) && StartFulfilment(db, seller, order) == Err(e)
    ensures
      if |db.orders| <= order || seller !in db.orders[order].sellers then e == NotFound
      else if db.orders[order].payment.Unpaid? then e == NotAwaitingPayment
      else e == WrongStatus && db.orders[order].sellers[seller].Processing?
  {
    ReachableOk(db);
    assert order < |db.orders| ==> OrderOk(db.orders[order]);
  }

  lemma {:induction false} ProcessingRefusals(db: Db, order: nat, e: Error)
    requires Reachable(db) && StartProcessing(db, order) == Err(e)
    ensures if |db.orders| <= order then e == NotFound else e == WrongStatus && !db.orders[order].status.Paid?
  {
    ReachableOk(db);
    assert order < |db.orders| ==> OrderOk(db.orders[order]);
  }

  // ----- Carts

  lemma {:induction false} AdditionRefusals(db: Db, user: nat, listed: bool, c: CartItem, e: Error)
    requires CartsOk(db.carts) && AddToCart(db, user, listed, c) == Err(e)
    ensures
      match e
      case NotFound => !listed
      case InvalidQuantity => c.quantity < 1
      case NotEnoughStock =>
        Sum(db.ledger.stocks, AvailableOf(c.product)) < UnitsIn(CartOf(db, user), c.product) + c.quantity
      case _ => false
  {
    var cart := CartOf(db, user);
    assert CartOk(cart);
    assert InCart(cart, c.product) < |cart| ==> CartItemOk(cart[InCart(cart, c.product)]);
  }

  lemma {:induction false} LineRefusals(db: Db, user: nat, p: nat, quantity: int, price: nat, e: Error)
    ensures RemoveFromCart(db, user, p) == Err(e) ==> e == NotFound && !Holds(CartOf(db, user), p)
    ensures UpdateCart(db, user, p, quantity, price) == Err(e) ==>
              match e
              case NotFound => !Holds(CartOf(db, user), p)
              case InvalidQuantity => quantity < 1
              case NotEnoughStock => Sum(db.ledger.stocks, AvailableOf(p)) < quantity
              case _ => false
  {
    HoldsIs(CartOf(db, user), p);
  }

  // ----- Stock and transfers

  lemma {:induction false} MovementRefusals(
    l: Ledger, p: nat, w: nat, kind: MovementType, q: int, ref: Reference, e: Error)
    requires LedgerOk(l) && Record(l, p, w, kind, q, ref) == Err(e)
    ensures
      match e
      case InvalidQuantity => q == 0
      case WrongSign =>
        (q < 0 && kind in {Purchase, Return, TransferIn}) || (0 < q && kind in {Sale, TransferOut, Damaged})
      case NotEnoughStock => UnitsAt(l.stocks, p, w) + q < 0
      case BelowReserved => 0 <= UnitsAt(l.stocks, p, w) + q < ReservedAt(l.stocks, p, w)
      case _ => false
  {
    WithRowIndex(l.stocks, p, w);
  }

  /** Units of a product in a warehouse that are not reserved. */
  function Unreserved(stocks: seq<Stock>, p: nat, w: nat): int {
    UnitsAt(stocks, p, w) - ReservedAt(stocks, p, w)
  }

  lemma {:induction false} RequestRefusals(
    db: Db, source: nat, dest: nat, p: nat, q: int, user: Option<nat>, e: Error)
    requires RequestTransfer(db, source, dest, p, q, user) == Err(e)
    ensures
      match e
      case SameWarehouse => source == dest
      case InvalidQuantity => q <= 0
      case InactiveWarehouse => !({source, dest} <= db.activeWarehouses)
      case NotFound => !HasRow(db.ledger.stocks, p, source)
      case NotEnoughStock => Unreserved(db.ledger.stocks, p, source) < q
      case _ => false
  {
    RowIndex(db.ledger.stocks, p, source);
  }

  lemma {:induction false} DecisionRefusals(db: Db, t: nat, user: nat, e: Error)
    ensures ApproveTransfer(db, t, user) == Err(e) ==>
              if |db.transfers| <= t then e == NotFound
              else match e
                case WrongStatus => db.transfers[t].status != Requested
                case OwnRequest => db.transfers[t].requestedBy == Some(user)
                case _ => false
    ensures CancelTransfer(db, t, user) == Err(e) ==>
              if |db.transfers| <= t then e == NotFound
              else match e
                case WrongStatus => db.transfers[t].status !in {Requested, Approved}
                case OwnRequest => db.transfers[t].requestedBy == Some(user)
                case _ => false
  {
  }

  /** Goods issue is refused for the stock only when unreserved units are missing, goods receipt never. */
  lemma {:induction false} ShipRefusals(db: Db, t: nat, member: bool, e: Error)
    requires Reachable(db) && ShipTransfer(db, t, member) == Err(e)
    ensures
      if |db.transfers| <= t then e == NotFound
      else
        var x := db.transfers[t];
        match e
        case WrongStatus => x.status != Approved
        case NotAssigned => !member
        case _ => (e == NotEnoughStock || e == BelowReserved)
                  && Unreserved(db.ledger.stocks, x.product, x.source) < x.quantity
  {
    if t < |db.transfers| {
      ShipReason(db, t, member, e);
      if db.transfers[t].status.Approved? && member {
        ReachableOk(db);
        var x := db.transfers[t];
        assert TransferOk(x);
        UnitsMissing(db.ledger, x.product, x.source, x.quantity, t, e);
      }
    }
  }

  lemma {:induction false} ShipReason(db: Db, t: nat, member: bool, e: Error)
    requires t < |db.transfers| && ShipTransfer(db, t, member) == Err(e)
    ensures
      var x := db.transfers[t];
      if x.status != Approved then e == WrongStatus
      else if !member then e == NotAssigned
      else Record(db.ledger, x.product, x.source, TransferOut, -x.quantity, ForTransfer(t)) == Err(e)
  {
  }

  lemma {:induction false} UnitsMissing(l: Ledger, p: nat, w: nat, q: int, t: nat, e: Error)
    requires LedgerOk(l) && 0 < q && Record(l, p, w, TransferOut, -q, ForTransfer(t)) == Err(e)
    ensures (e == NotEnoughStock || e == BelowReserved) && Unreserved(l.stocks, p, w) < q
  {
    MovementRefusals(l, p, w, TransferOut, -q, ForTransfer(t), e);
    ReservedNonNegative(l.stocks, p, w);
  }

  lemma {:induction false} ReservedNonNegative(stocks: seq<Stock>, p: nat, w: nat)
    requires RowsOk(stocks)
    ensures 0 <= ReservedAt(stocks, p, w)
  {
  }

  lemma {:induction false} ReceiptRefusals(db: Db, t: nat, member: bool, e: Error)
    requires Reachable(db) && ReceiveTransfer(db, t, member) == Err(e)
    ensures
      if |db.transfers| <= t then e == NotFound
      else match e
        case WrongStatus => db.transfers[t].status != InTransit
        case NotAssigned => !member
        case _ => false
  {
    if t < |db.transfers| {
      TransferLegsComplete(db, t, member);
      ReceiptReason(db, t, member, e);
    }
  }

  lemma {:induction false} ReceiptReason(db: Db, t: nat, member: bool, e: Error)
    requires t < |db.transfers| && ReceiveTransfer(db, t, member) == Err(e)
    ensures db.transfers[t].status != InTransit ==> e == WrongStatus
    ensures db.transfers[t].status == InTransit && !member ==> e == NotAssigned
  {
  }
}
