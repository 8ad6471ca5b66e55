/** The shop as its code runs it: tables updated in place, item by item, and rolled back on failure.
    Every method is the operation of the same name in module Operations, and every request leads from a
    reachable database to a reachable one, so that all of Theorems holds between any two requests. */
module Shop {
  import opened Common
  import opened Inventory
  import opened Reservations
  import opened Tables
  import opened Pricing
  import opened Checkout
  import Operations
  import Effects

  /** A transaction's effect on the database: its new state, or none. */
  function After(db: Db, r: Result<Db>): Db {
    if r.Ok? then r.value else db
  }

  /** What the caller sees: no error, or the reason for the refusal. */
  function Reply<T>(r: Result<T>): Option<Error> {
    if r.Ok? then None else Some(r.error)
  }

  class Database {
    var stocks: seq<Stock>
    var movements: seq<Movement>
    var transfers: seq<Transfer>
    var orders: seq<Order>
    var payments: seq<Payment>
    var discounts: seq<Discount>
    var usages: map<nat, Usage>
    var carts: map<nat, seq<CartItem>>
    var activeWarehouses: set<nat>

    function State(): Db
      reads this
    {
      Db(Ledger(stocks, movements), transfers, orders, payments, discounts, usages, carts, activeWarehouses)
    }

    /** A state between requests: one that requests reach, and that so satisfies every invariant. */
    ghost predicate Valid()
      reads this
    {
      Operations.Reachable(State())
    }

    constructor ()
      ensures State() == Operations.EMPTY && Valid()
    {
      stocks, movements, transfers, orders, payments, discounts := [], [], [], [], [], [];
      usages, carts, activeWarehouses := map[], map[], {};
      new;
      assert Operations.Run(Operations.EMPTY, []) == Operations.EMPTY;
    }

    // ----- Stock rows

    method Reserve(i: nat, q: int) returns (error: Option<Error>)
      requires i < |stocks|
      modifies this`stocks
      ensures error == Reply(Inventory.Reserve(old(stocks), i, q))
      ensures stocks == if error.None? then Inventory.Reserve(old(stocks), i, q).value else old(stocks)
    {
      if q <= 0 {
        return Some(InvalidQuantity);
      }
      if stocks[i].Available() < q {
        return Some(NotEnoughStock);
      }
      stocks := stocks[i := stocks[i].(reserved := stocks[i].reserved + q)];
      return None;
    }

    method ReleaseReservation(i: nat, q: int) returns (error: Option<Error>)
      requires i < |stocks|
      modifies this`stocks
      ensures error == Reply(Release(old(stocks), i, q))
      ensures stocks == if error.None? then Release(old(stocks), i, q).value else old(stocks)
    {
      if q <= 0 {
        return Some(InvalidQuantity);
      }
      if stocks[i].reserved < q {
        return Some(NotEnoughStock);
      }
      stocks := stocks[i := stocks[i].(reserved := stocks[i].reserved - q)];
      return None;
    }

    method SaveMovement(p: nat, w: nat, kind: MovementType, q: int, ref: Reference) returns (error: Option<Error>)
      modifies this`stocks, this`movements
      ensures error == Reply(Record(Ledger(old(stocks), old(movements)), p, w, kind, q, ref))
      ensures Ledger(stocks, movements) ==
              if error.None? then Record(Ledger(old(stocks), old(movements)), p, w, kind, q, ref).value
              else Ledger(old(stocks), old(movements))
    {
      if q == 0 {
        return Some(InvalidQuantity);
      }
      if (kind.Increases() && q < 0) || (kind.Decreases() && 0 < q) {
        return Some(WrongSign);
      }
      var found := stocks;
      var i := IndexOf(stocks, p, w);
      if i == |stocks| {
        stocks := stocks + [Stock(p, w, 0, 0)];
      }
      var before := stocks[i].quantity;
      var after := before + q;
      if after < 0 {
        stocks := found;
        return Some(NotEnoughStock);
      }
      if after < stocks[i].reserved {
        stocks := found;
        return Some(BelowReserved);
      }
      stocks := stocks[i := stocks[i].(quantity := after)];
      movements := movements + [Movement(p, w, kind, q, before, after, ref)];
      return None;
    }

    /** The loop over a product's rows in key order: the first one with room takes the reservation. */
    method ReserveFromFirstAvailable(p: nat, q: int) returns (row: Result<nat>)
      modifies this`stocks
      ensures
        var i := FirstFit(old(stocks), activeWarehouses, p, q);
        if i == |old(stocks)| then row == Err(NotEnoughStock) && stocks == old(stocks)
        else
          var spec := Inventory.Reserve(old(stocks), i, q);
          if spec.Ok? then row == Ok(i) && stocks == spec.value
          else row == Err(spec.error) && stocks == old(stocks)
    {
      var i := 0;
      while i < |stocks|
        invariant i <= |stocks| && stocks == old(stocks)
        invariant forall j :: 0 <= j < i ==> !Fits(stocks[j], activeWarehouses, p, q)
      {
        if stocks[i].product == p && stocks[i].warehouse in activeWarehouses && q <= stocks[i].Available() {
          FirstFitIs(stocks, activeWarehouses, p, q, i);
          var error := Reserve(i, q);
          return if error.None? then Ok(i) else Err(error.value);
        }
        i := i + 1;
      }
      return Err(NotEnoughStock);
    }

    // ----- Payments

    method MarkSuccess(payment: nat, reference: string, naive: bool) returns (error: Option<Error>)
      modifies this
      ensures old(Valid()) ==> Valid()
      ensures error == Reply(Operations.MarkSuccess(old(State()), payment, reference, naive))
      ensures State() == After(old(State()), Operations.MarkSuccess(old(State()), payment, reference, naive))
    {
      if Valid() {
        Operations.NextReachable(State(), Operations.DoMarkSuccess(payment, reference, naive));
      }
      if |payments| <= payment || |orders| <= payments[payment].order {
        return Some(NotFound);
      }
      var p := payments[payment];
      var o := orders[p.order];
      if !p.status.Pending? {
        return Some(WrongStatus);
      }
      if !o.AwaitsPayment() {
        return Some(NotAwaitingPayment);
      }
      if Operations.HasSuccess(payments, p.order, payment) {
        return Some(AlreadyPaid);
      }
      if p.amount != o.total {
        return Some(AmountMismatch);
      }
      var savepoint := Ledger(stocks, movements);
      error := SellItems(o.items, payment);
      if error.Some? {
        return;
      }
      if naive {
        stocks, movements := savepoint.stocks, savepoint.movements;
        return Some(NaiveTimestamp);
      }
      if Operations.ReferenceTaken(payments, p.provider, reference, payment) {
        stocks, movements := savepoint.stocks, savepoint.movements;
        return Some(DuplicateReference);
      }
      RecordSuccess(payment, reference);
    }

    /** The attempt succeeds, its order is paid, and the order's other attempts end. */
    method RecordSuccess(payment: nat, reference: string)
      requires payment < |payments| && payments[payment].order < |orders|
      modifies this`payments, this`orders
      ensures
        var p := old(payments)[payment];
        && payments == Operations.CancelAttempts(
             old(payments)[payment := p.(status := Success, reference := reference)], p.order, payment)
        && orders == old(orders)[p.order := Operations.MarkedPaid(old(orders)[p.order])]
    {
      var p := payments[payment];
      payments := payments[payment := p.(status := Success, reference := reference)];
      MarkPaid(p.order);
      CancelOtherAttempts(p.order, payment);
    }

    /** The order becomes paid, with its total recomputed, its history extended and its fulfilments paid. */
    method MarkPaid(order: nat)
      requires order < |orders|
      modifies this`orders
      ensures orders == old(orders)[order := Operations.MarkedPaid(old(orders)[order])]
    {
      var o := orders[order];
      var sellers := PayFulfilments(o.sellers, o.items);
      orders := orders[order := o.(
        status := OrderStatus.Paid, payment := PaymentDone, total := o.ComputedTotal(),
        sellers := sellers, history := o.history + [Change(Some(o.status), OrderStatus.Paid)])];
    }

    /** Release and sell every item, or restore the stock and the ledger. */
    method SellItems(items: seq<Item>, payment: nat) returns (error: Option<Error>)
      modifies this`stocks, this`movements
      ensures error == Reply(PayItems(Ledger(old(stocks), old(movements)), items, payment))
      ensures Ledger(stocks, movements) ==
              if error.None? then PayItems(Ledger(old(stocks), old(movements)), items, payment).value
              else Ledger(old(stocks), old(movements))
    {
      var savepoint := Ledger(stocks, movements);
      var i := 0;
      while i < |items|
        invariant i <= |items|
        invariant PayItems(Ledger(stocks, movements), items[i..], payment)
               == PayItems(Ledger(old(stocks), old(movements)), items, payment)
      {
        assert items[i..][0] == items[i] && items[i..][1..] == items[i + 1..];
        error := SellItem(items[i], payment);
        if error.Some? {
          stocks, movements := savepoint.stocks, savepoint.movements;
          return;
        }
        i := i + 1;
      }
      return None;
    }

    method SellItem(item: Item, payment: nat) returns (error: Option<Error>)
      modifies this`stocks, this`movements
      ensures error == Reply(PayItem(Ledger(old(stocks), old(movements)), item, payment))
      ensures error.None? ==>
                Ok(Ledger(stocks, movements)) == PayItem(Ledger(old(stocks), old(movements)), item, payment)
    {
      if item.warehouse.None? {
        return Some(NoWarehouse);
      }
      var i := IndexOf(stocks, item.product, item.warehouse.value);
      if i == |stocks| {
        return Some(NotFound);
      }
      error := ReleaseReservation(i, item.quantity);
      if error.None? {
        error := SaveMovement(item.product, item.warehouse.value, Sale, -item.quantity, ForPayment(payment));
      }
    }

    /** One fulfilment for each seller of an item; those still waiting for payment become paid. */
    method PayFulfilments(before: map<nat, OrderStatus>, items: seq<Item>) returns (sellers: map<nat, OrderStatus>)
      ensures sellers == Operations.PaidSellers(before, items)
    {
      sellers := before;
      var i := 0;
      while i < |items|
        invariant i <= |items|
        invariant sellers == Operations.PaidSellers(before, items[..i])
      {
        var s := items[i].seller;
        assert Operations.SellersOf(items[..i + 1]) == Operations.SellersOf(items[..i]) + {s} by {
          SellersAppend(items, i);
        }
        if s !in sellers {
          sellers := sellers[s := PendingPayment];
        }
        if sellers[s].PendingPayment? {
          sellers := sellers[s := OrderStatus.Paid];
        }
        i := i + 1;
      }
      assert items[..|items|] == items;
    }

    method CancelOtherAttempts(order: nat, except: nat)
      modifies this`payments
      ensures payments == Operations.CancelAttempts(old(payments), order, except)
    {
      ghost var done := Operations.CancelAttempts(payments, order, except);
      var i := 0;
      while i < |payments|
        invariant i <= |payments| == |old(payments)|
        invariant forall j :: 0 <= j < i ==> payments[j] == done[j]
        invariant forall j :: i <= j < |payments| ==> payments[j] == old(payments)[j]
      {
        if payments[i].order == order && payments[i].status.Pending? && i != except {
          payments := payments[i := payments[i].(status := PaymentCancelled)];
        }
        i := i + 1;
      }
    }

    method CreatePayment(caller: nat, staff: bool, order: nat, provider: nat) returns (r: Result<nat>)
      modifies this`payments
      ensures old(Valid()) ==> Valid()
      ensures
        var spec := Operations.CreatePayment(old(State()), caller, staff, order, provider);
        if spec.Ok? then r == Ok(spec.value.1) && State() == spec.value.0
        else r == Err(spec.error) && State() == old(State())
    {
      if Valid() {
        Operations.NextReachable(State(), Operations.DoCreatePayment(caller, staff, order, provider));
      }
      if |orders| <= order {
        return Err(NotFound);
      }
      var o := orders[order];
      if !staff && o.user != caller {
        return Err(Forbidden);
      }
      if !o.AwaitsPayment() {
        return Err(NotAwaitingPayment);
      }
      if o.total <= 0 {
        return Err(NothingToPay);
      }
      var k := Operations.PendingAttempt(payments, order, provider);
      if k < |payments| {
        if payments[k].amount != o.total {
          return Err(AmountMismatch);
        }
        return Ok(k);
      }
      payments := payments + [Payment(order, o.user, provider, Pending, o.total, "")];
      return Ok(k);
    }

    method MarkFailed(payment: nat) returns (error: Option<Error>)
      modifies this`payments
      ensures old(Valid()) ==> Valid()
      ensures error == Reply(Operations.MarkFailed(old(State()), payment))
      ensures State() == After(old(State()), Operations.MarkFailed(old(State()), payment))
    {
      if Valid() {
        Operations.NextReachable(State(), Operations.DoMarkFailed(payment));
      }
      if |payments| <= payment {
        return Some(NotFound);
      }
      if !payments[payment].status.Pending? {
        return Some(WrongStatus);
      }
      payments := payments[payment := payments[payment].(status := Failed)];
      return None;
    }

    method CancelPayment(payment: nat) returns (error: Option<Error>)
      modifies this`payments
      ensures old(Valid()) ==> Valid()
      ensures error == Reply(Operations.CancelPayment(old(State()), payment))
      ensures State() == After(old(State()), Operations.CancelPayment(old(State()), payment))
    {
      if Valid() {
        Operations.NextReachable(State(), Operations.DoCancelPayment(payment));
      }
      if |payments| <= payment {
        return Some(NotFound);
      }
      if !payments[payment].status.Pending? && !payments[payment].status.Failed? {
        return Some(WrongStatus);
      }
      payments := payments[payment := payments[payment].(status := PaymentCancelled)];
      return None;
    }

    // ----- Orders

    method CancelOrder(caller: nat, staff: bool, order: nat) returns (error: Option<Error>)
      modifies this
      ensures old(Valid()) ==> Valid()
      ensures error == Reply(Operations.CancelOrder(old(State()), caller, staff, order))
      ensures State() == After(old(State()), Operations.CancelOrder(old(State()), caller, staff, order))
    {
      if Valid() {
        Operations.NextReachable(State(), Operations.DoCancelOrder(caller, staff, order));
      }
      if |orders| <= order || (!staff && orders[order].user != caller) {
        return Some(NotFound);
      }
      var o := orders[order];
      if o.status.Cancelled? || (!staff && !o.status.PendingPayment?) {
        return Some(WrongStatus);
      }
      if !o.AwaitsPayment() {
        return Some(NotAwaitingPayment);
      }
      error := ReleaseOrder(o.items);
      if error.Some? {
        return;
      }
      UndoDiscount(order);
      CancelOtherAttempts(order, |payments|);
      orders := orders[order := o.(
        status := Cancelled, total := o.ComputedTotal(), history := o.history + [Change(Some(o.status), Cancelled)])];
    }

    /** The order's usage goes, and its discount counts one use less. */
    method UndoDiscount(order: nat)
      modifies this`usages, this`discounts
      ensures State() == Operations.UndoDiscount(old(State()), order)
    {
      if order in usages {
        var d := usages[order].discount;
        usages := usages - {order};
        if d < |discounts| && 0 < discounts[d].usedCount {
          discounts := discounts[d := discounts[d].(usedCount := discounts[d].usedCount - 1)];
        }
      }
    }

    /** Release every item's reservation, or restore the stock. */
    method ReleaseOrder(items: seq<Item>) returns (error: Option<Error>)
      modifies this`stocks
      ensures error == Reply(ReleaseItems(old(stocks), items))
      ensures stocks == if error.None? then ReleaseItems(old(stocks), items).value else old(stocks)
    {
      var savepoint := stocks;
      var i := 0;
      while i < |items|
        invariant i <= |items|
        invariant ReleaseItems(stocks, items[i..]) == ReleaseItems(old(stocks), items)
      {
        assert items[i..][0] == items[i] && items[i..][1..] == items[i + 1..];
        if items[i].warehouse.Some? {
          var k := IndexOf(stocks, items[i].product, items[i].warehouse.value);
          if k == |stocks| {
            stocks := savepoint;
            return Some(NotFound);
          }
          error := ReleaseReservation(k, items[i].quantity);
          if error.Some? {
            stocks := savepoint;
            return;
          }
        }
        i := i + 1;
      }
      return None;
    }

    method StartFulfilment(seller: nat, order: nat) returns (error: Option<Error>)
      modifies this`orders
      ensures old(Valid()) ==> Valid()
      ensures error == Reply(Operations.StartFulfilment(old(State()), seller, order))
      ensures State() == After(old(State()), Operations.StartFulfilment(old(State()), seller, order))
      ensures old(Valid()) && error.None? ==>
                && order < |orders| == |old(orders)| && seller in orders[order].sellers
                && orders[order].status.Processing? && orders[order].sellers[seller].Processing?
                && forall s :: s in old(orders)[order].sellers && s != seller ==>
                     s in orders[order].sellers && orders[order].sellers[s] == old(orders)[order].sellers[s]
    {
      if Valid() {
        Operations.NextReachable(State(), Operations.DoStartFulfilment(seller, order));
        var r := Operations.StartFulfilment(State(), seller, order);
        if r.Ok? {
          Effects.StartEffect(State(), seller, order, r.value);
        }
      }
      if |orders| <= order || seller !in Operations.SellersOf(orders[order].items) {
        return Some(NotFound);
      }
      var o := orders[order];
      if seller !in o.sellers {
        o := o.(sellers := o.sellers[seller := if o.payment.PaymentDone? then o.status else PendingPayment]);
      }
      if !o.payment.PaymentDone? {
        return Some(NotAwaitingPayment);
      }
      if o.status.Cancelled? || o.status.Refunded? || !o.sellers[seller].Paid? {
        return Some(WrongStatus);
      }
      o := o.(sellers := o.sellers[seller := Processing]);
      assert o.sellers == orders[order].sellers[seller := Processing];
      if o.status.Paid? {
        o := o.(status := Processing, total := o.ComputedTotal(),
                history := o.history + [Change(Some(OrderStatus.Paid), Processing)]);
      }
      orders := orders[order := o];
      return None;
    }

    method StartProcessing(order: nat) returns (error: Option<Error>)
      modifies this`orders
      ensures old(Valid()) ==> Valid()
      ensures error == Reply(Operations.StartProcessing(old(State()), order))
      ensures State() == After(old(State()), Operations.StartProcessing(old(State()), order))
      ensures old(Valid()) && error.None? ==>
                && order < |orders| == |old(orders)| && orders[order].status.Processing?
                && orders[order].sellers == old(orders)[order].sellers
    {
      if Valid() {
        Operations.NextReachable(State(), Operations.DoStartProcessing(order));
        var r := Operations.StartProcessing(State(), order);
        if r.Ok? {
          Effects.ProcessingEffect(State(), order, r.value);
        }
      }
      if |orders| <= order {
        return Some(NotFound);
      }
      var o := orders[order];
      if !o.status.Paid? || !o.payment.PaymentDone? {
        return Some(WrongStatus);
      }
      orders := orders[order := o.(status := Processing, total := o.ComputedTotal(),
                                   history := o.history + [Change(Some(o.status), Processing)])];
      return None;
    }

    // ----- Carts and checkout

    /** The total of a cart, accumulated line by line. */
    method CartSubtotal(cart: seq<CartItem>) returns (total: int)
      ensures total == Subtotal(cart)
    {
      total := 0;
      var i := 0;
      while i < |cart|
        invariant i <= |cart| && total == Subtotal(cart[..i])
      {
        assert cart[..i + 1] == cart[..i] + [cart[i]];
        SumAppend(cart[..i], cart[i], LINE_TOTAL);
        total := total + cart[i].Total();
        i := i + 1;
      }
      assert cart[..|cart|] == cart;
    }

    /** The part of a cart that a discount applies to. */
    method Eligible(d: Discount, cart: seq<CartItem>) returns (total: int)
      ensures total == EligibleSubtotal(d, cart)
    {
      if d.products == {} && d.categories == {} {
        total := CartSubtotal(cart);
        return;
      }
      total := 0;
      var i := 0;
      while i < |cart|
        invariant i <= |cart| && total == Sum(cart[..i], TargetTotal(d))
      {
        assert cart[..i + 1] == cart[..i] + [cart[i]];
        SumAppend(cart[..i], cart[i], TargetTotal(d));
        if cart[i].product in d.products || cart[i].category in d.categories {
          total := total + cart[i].Total();
        }
        i := i + 1;
      }
      assert cart[..|cart|] == cart;
    }

    lemma {:induction false} DiscountChecked(
      d: nat, user: nat, floor: seq<CartItem>, cart: seq<CartItem>, now: int)
      ensures Operations.CheckReads(State(), d, user, floor, cart, now).Ok?
              <==> Effects.Admits(State(), d, user, floor, cart, now)
      ensures Operations.CheckReads(State(), d, user, floor, cart, now).Ok? ==>
                d < |discounts|
                && Effects.Takes(discounts[d], EligibleSubtotal(discounts[d], cart),
                                 Operations.CheckReads(State(), d, user, floor, cart, now).value)
    {
      Effects.DiscountAdmittedExactly(State(), d, user, floor, cart, now);
      var r := Operations.CheckReads(State(), d, user, floor, cart, now);
      if r.Ok? {
        Effects.DiscountAmountExactly(State(), d, user, floor, cart, now, r.value);
      }
    }

    /** The checks of a discount against the two reads of the cart, with its totals accumulated by the loops above. */
    method ValidateForCart(d: nat, user: nat, floor: seq<CartItem>, cart: seq<CartItem>, now: int)
      returns (r: Result<int>)
      ensures r == Operations.CheckReads(State(), d, user, floor, cart, now)
      ensures r.Ok? <==> Effects.Admits(State(), d, user, floor, cart, now)
      ensures r.Ok? ==>
                d < |discounts| && Effects.Takes(discounts[d], EligibleSubtotal(discounts[d], cart), r.value)
    {
      DiscountChecked(d, user, floor, cart, now);
      if |discounts| <= d {
        return Err(InvalidDiscount);
      }
      var x := discounts[d];
      if !x.active {
        return Err(DiscountInactive);
      }
      if x.start.Some? && now < x.start.value {
        return Err(DiscountNotStarted);
      }
      if x.end.Some? && x.end.value < now {
        return Err(DiscountExpired);
      }
      if x.limitTotal.Some? && x.limitTotal.value <= x.usedCount {
        return Err(DiscountUsedUp);
      }
      if x.limitPerUser.Some? && x.limitPerUser.value <= |UsesBy(usages, d, user)| {
        return Err(DiscountUsedUpByUser);
      }
      var subtotal := CartSubtotal(floor);
      if subtotal < x.minOrder {
        return Err(BelowMinimumOrder);
      }
      var eligible := Eligible(x, cart);
      var amount := 0;
      if 0 < eligible {
        if x.kind.Percentage? {
          amount := eligible * x.value;
          if x.maxAmount.Some? {
            amount := Min(amount, 100 * x.maxAmount.value);
          }
        } else {
          amount := 100 * Min(x.value, eligible);
        }
      }
      return if amount <= 0 then Err(DiscountNotApplicable) else Ok(amount);
    }

    method AddToCart(user: nat, listed: bool, c: CartItem) returns (error: Option<Error>)
      modifies this`carts
      ensures old(Valid()) ==> Valid()
      ensures error == Reply(Operations.AddToCart(old(State()), user, listed, c))
      ensures State() == After(old(State()), Operations.AddToCart(old(State()), user, listed, c))
    {
      if Valid() {
        Operations.NextReachable(State(), Operations.DoAddToCart(user, listed, c));
      }
      if !listed {
        return Some(NotFound);
      }
      if c.quantity < 1 {
        return Some(InvalidQuantity);
      }
      var available := Sum(stocks, AvailableOf(c.product));
      if available < c.quantity {
        return Some(NotEnoughStock);
      }
      var cart := if user in carts then carts[user] else [];
      var k := Operations.InCart(cart, c.product);
      if k == |cart| {
        carts := carts[user := [c] + cart];
        return None;
      }
      var more := cart[k].quantity + c.quantity;
      if available < more {
        return Some(NotEnoughStock);
      }
      carts := carts[user := cart[k := cart[k].(quantity := more, unitPrice := c.unitPrice)]];
      return None;
    }

    /** Reserve the cart's lines one by one and turn them into order items, or restore the stock. */
    method ReserveLines(cart: seq<CartItem>) returns (r: Result<seq<Item>>)
      modifies this`stocks
      ensures
        var spec := ReserveCart(old(stocks), activeWarehouses, cart);
        if spec.Ok? then r == Ok(spec.value.1) && stocks == spec.value.0
        else r == Err(spec.error) && stocks == old(stocks)
    {
      var savepoint := stocks;
      var items: seq<Item> := [];
      assert cart[0..] == cart;
      PrependNone(ReserveCart(stocks, activeWarehouses, cart));
      var i := 0;
      while i < |cart|
        invariant i <= |cart|
        invariant ReserveCart(old(stocks), activeWarehouses, cart)
               == Prepend(items, ReserveCart(stocks, activeWarehouses, cart[i..]))
      {
        assert cart[i..][0] == cart[i] && cart[i..][1..] == cart[i + 1..];
        ghost var here := stocks;
        var row := ReserveFromFirstAvailable(cart[i].product, cart[i].quantity);
        if row.Err? {
          stocks := savepoint;
          return Err(row.error);
        }
        var item := ItemFor(cart[i], stocks[row.value].warehouse);
        PrependMore(items, item, ReserveCart(stocks, activeWarehouses, cart[i + 1..]));
        items := items + [item];
        i := i + 1;
      }
      assert cart[|cart|..] == [];
      assert items + [] == items;
      return Ok(items);
    }

    method ApplyDiscount(
      d: nat, user: nat, floor: seq<CartItem>, cart: seq<CartItem>, order: nat, now: int, mode: Rounding)
      returns (error: Option<Error>)
      requires order < |orders|
      modifies this`orders, this`usages, this`discounts
      ensures error == Reply(Operations.ApplyDiscount(old(State()), d, user, floor, cart, order, now, mode))
      ensures State() ==
              After(old(State()), Operations.ApplyDiscount(old(State()), d, user, floor, cart, order, now, mode))
    {
      var h := ValidateForCart(d, user, floor, cart, now);
      if h.Err? {
        return Some(h.error);
      }
      var o := orders[order];
      var exact := 100 * (o.subtotal + o.shipping + o.tax) - h.value;
      orders := orders[order := o.(discount := Round(mode, h.value), total := Round(mode, Max(0, exact)))];
      usages := usages[order := Usage(d, user, Round(mode, h.value))];
      discounts := discounts[d := discounts[d].(usedCount := discounts[d].usedCount + 1)];
      return None;
    }

    /** Checkout: validate the cart, then create the order, reserve, apply the discount and empty the cart,
        all or nothing. */
    method PlaceOrder(user: nat, discount: Option<nat>, shipping: nat, seen: int, now: int, mode: Rounding)
      returns (error: Option<Error>)
      modifies this
      ensures old(Valid()) ==> Valid()
      ensures error == Reply(Operations.PlaceOrder(old(State()), user, discount, shipping, seen, now, mode))
      ensures State() ==
              After(old(State()), Operations.PlaceOrder(old(State()), user, discount, shipping, seen, now, mode))
    {
      if Valid() {
        Operations.NextReachable(State(), Operations.DoPlaceOrder(user, discount, shipping, seen, now, mode));
      }
      if user !in carts {
        return Some(NotFound);
      }
      var cart := carts[user];
      if cart == [] {
        return Some(EmptyCart);
      }
      if !PreCheck(stocks, cart) {
        return Some(NotEnoughStock);
      }
      if discount.Some? {
        var checked := ValidateForCart(discount.value, user, cart, cart, seen);
        if checked.Err? {
          return Some(checked.error);
        }
      }
      error := CreateOrder(user, Operations.Unchanged(cart), discount, shipping, now, mode);
    }

    /** Reserve, create the order, apply the discount and empty the cart, or restore everything. */
    method CreateOrder(
      user: nat, found: Operations.CartReads, discount: Option<nat>, shipping: nat, now: int, mode: Rounding)
      returns (error: Option<Error>)
      modifies this
      ensures error == Reply(Operations.CreateOrder(old(State()), user, found, discount, shipping, now, mode))
      ensures State() ==
              After(old(State()), Operations.CreateOrder(old(State()), user, found, discount, shipping, now, mode))
    {
      var savedStocks, savedOrders := stocks, orders;
      var items := ReserveLines(found.items);
      if items.Err? {
        return Some(items.error);
      }
      orders := orders + [Operations.NewOrder(user, found.subtotal, items.value, shipping)];
      if discount.Some? {
        error := ApplyDiscount(discount.value, user, found.floor, found.eligible, |savedOrders|, now, mode);
        if error.Some? {
          stocks, orders := savedStocks, savedOrders;
          return;
        }
      }
      carts := carts[user := []];
      return None;
    }

    // ----- Transfers

    method RequestTransfer(source: nat, dest: nat, p: nat, q: int, user: Option<nat>) returns (error: Option<Error>)
      modifies this`transfers
      ensures old(Valid()) ==> Valid()
      ensures error == Reply(Operations.RequestTransfer(old(State()), source, dest, p, q, user))
      ensures State() == After(old(State()), Operations.RequestTransfer(old(State()), source, dest, p, q, user))
    {
      if Valid() {
        Operations.NextReachable(State(), Operations.DoRequestTransfer(source, dest, p, q, user));
      }
      if source == dest {
        return Some(SameWarehouse);
      }
      if q <= 0 {
        return Some(InvalidQuantity);
      }
      if source !in activeWarehouses || dest !in activeWarehouses {
        return Some(InactiveWarehouse);
      }
      var i := IndexOf(stocks, p, source);
      if i == |stocks| {
        return Some(NotFound);
      }
      if stocks[i].Available() < q {
        return Some(NotEnoughStock);
      }
      transfers := transfers + [Transfer(source, dest, p, q, Requested, user, None)];
      return None;
    }

    method ApproveTransfer(t: nat, user: nat) returns (error: Option<Error>)
      modifies this`transfers
      ensures old(Valid()) ==> Valid()
      ensures error == Reply(Operations.ApproveTransfer(old(State()), t, user))
      ensures State() == After(old(State()), Operations.ApproveTransfer(old(State()), t, user))
    {
      if Valid() {
        Operations.NextReachable(State(), Operations.DoApproveTransfer(t, user));
      }
      if |transfers| <= t {
        return Some(NotFound);
      }
      if !transfers[t].status.Requested? {
        return Some(WrongStatus);
      }
      if transfers[t].requestedBy == Some(user) {
        return Some(OwnRequest);
      }
      transfers := transfers[t := transfers[t].(status := Approved, approvedBy := Some(user))];
      return None;
    }

    method ShipTransfer(t: nat, member: bool) returns (error: Option<Error>)
      modifies this`stocks, this`movements, this`transfers
      ensures old(Valid()) ==> Valid()
      ensures error == Reply(Operations.ShipTransfer(old(State()), t, member))
      ensures State() == After(old(State()), Operations.ShipTransfer(old(State()), t, member))
    {
      if Valid() {
        Operations.NextReachable(State(), Operations.DoShipTransfer(t, member));
      }
      if |transfers| <= t {
        return Some(NotFound);
      }
      var x := transfers[t];
      if !x.status.Approved? {
        return Some(WrongStatus);
      }
      if !member {
        return Some(NotAssigned);
      }
      error := SaveMovement(x.product, x.source, TransferOut, -x.quantity, ForTransfer(t));
      if error.None? {
        transfers := transfers[t := x.(status := InTransit)];
      }
    }

    method ReceiveTransfer(t: nat, member: bool) returns (error: Option<Error>)
      modifies this`stocks, this`movements, this`transfers
      ensures old(Valid()) ==> Valid()
      ensures error == Reply(Operations.ReceiveTransfer(old(State()), t, member))
      ensures State() == After(old(State()), Operations.ReceiveTransfer(old(State()), t, member))
    {
      if Valid() {
        Operations.NextReachable(State(), Operations.DoReceiveTransfer(t, member));
      }
      if |transfers| <= t {
        return Some(NotFound);
      }
      var x := transfers[t];
      if !x.status.InTransit? {
        return Some(WrongStatus);
      }
      if !member {
        return Some(NotAssigned);
      }
      error := SaveMovement(x.product, x.dest, TransferIn, x.quantity, ForTransfer(t));
      if error.None? {
        transfers := transfers[t := x.(status := Completed)];
      }
    }

    method CancelTransfer(t: nat, user: nat) returns (error: Option<Error>)
      modifies this`transfers
      ensures old(Valid()) ==> Valid()
      ensures error == Reply(Operations.CancelTransfer(old(State()), t, user))
      ensures State() == After(old(State()), Operations.CancelTransfer(old(State()), t, user))
    {
      if Valid() {
        Operations.NextReachable(State(), Operations.DoCancelTransfer(t, user));
      }
      if |transfers| <= t {
        return Some(NotFound);
      }
      if !transfers[t].status.Requested? && !transfers[t].status.Approved? {
        return Some(WrongStatus);
      }
      if transfers[t].requestedBy == Some(user) {
        return Some(OwnRequest);
      }
      transfers := transfers[t := transfers[t].(status := TransferCancelled)];
      return None;
    }
  }

  lemma {:induction false} FirstFitIs(stocks: seq<Stock>, active: set<nat>, p: nat, q: int, i: nat)
    requires i < |stocks| && Fits(stocks[i], active, p, q)
    requires forall j :: 0 <= j < i ==> !Fits(stocks[j], active, p, q)
    ensures FirstFit(stocks, active, p, q) == i
  {
  }

  lemma {:induction false} SellersAppend(items: seq<Item>, i: nat)
    requires i < |items|
    ensures Operations.SellersOf(items[..i + 1]) == Operations.SellersOf(items[..i]) + {items[i].seller}
  {
    var a, b := items[..i], items[..i + 1];
    forall s | s in Operations.SellersOf(b) ensures s in Operations.SellersOf(a) + {items[i].seller} {
      var k :| 0 <= k < |b| && b[k].seller == s;
      assert k < i ==> a[k] == b[k];
    }
    forall s | s in Operations.SellersOf(a) ensures s in Operations.SellersOf(b) {
      var k :| 0 <= k < |a| && a[k].seller == s;
      assert b[k] == a[k];
    }
    assert b[i] == items[i];
  }
}
