/** Every operation of the shop as one transaction on the tables: a new database, or an error and no change. */
module Operations {
  import opened Common
  import opened Inventory
  import opened Reservations
  import opened Tables
  import opened Pricing
  import opened Checkout

  // ----- Carts

  function CartOf(db: Db, user: nat): seq<CartItem> {
    if user in db.carts then db.carts[user] else []
  }

  /** The position of a product in a cart, or the cart's length. */
  function InCart(cart: seq<CartItem>, p: nat): (r: nat)
    ensures r <= |cart|
    ensures r < |cart| ==> cart[r].product == p
    ensures forall j :: 0 <= j < r ==> cart[j].product != p
  {
    if cart == [] then 0
    else if cart[0].product == p then 0 else 1 + InCart(cart[1..], p)
  }

  /** Add a listed product to the cart, newest line first, or raise the quantity of its line. */
  function AddToCart(db: Db, user: nat, listed: bool, c: CartItem): Result<Db> {
    if !listed then Err(NotFound)
    else if c.quantity < 1 then Err(InvalidQuantity)
    else if Sum(db.ledger.stocks, AvailableOf(c.product)) < c.quantity then Err(NotEnoughStock)
    else
      var cart := CartOf(db, user);
      var k := InCart(cart, c.product);
      if k == |cart| then Ok(db.(carts := db.carts[user := [c] + cart]))
      else
        var more := cart[k].quantity + c.quantity;
        if Sum(db.ledger.stocks, AvailableOf(c.product)) < more then Err(NotEnoughStock)
        else Ok(db.(carts := db.carts[user := cart[k := cart[k].(quantity := more, unitPrice := c.unitPrice)]]))
  }

  function RemoveFromCart(db: Db, user: nat, p: nat): Result<Db> {
    var cart := CartOf(db, user);
    var k := InCart(cart, p);
    if k == |cart| then Err(NotFound)
    else Ok(db.(carts := db.carts[user := cart[..k] + cart[k + 1..]]))
  }

  /** Change the quantity of a line, at the product's current price. */
  function UpdateCart(db: Db, user: nat, p: nat, quantity: int, price: nat): Result<Db> {
    var cart := CartOf(db, user);
    var k := InCart(cart, p);
    if k == |cart| then Err(NotFound)
    else if quantity < 1 then Err(InvalidQuantity)
    else if Sum(db.ledger.stocks, AvailableOf(p)) < quantity then Err(NotEnoughStock)
    else Ok(db.(carts := db.carts[user := cart[k := cart[k].(quantity := quantity, unitPrice := price)]]))
  }

  function ClearCart(db: Db, user: nat): Db {
    db.(carts := db.carts[user := []])
  }

  // ----- Checkout

  /** The discount's checks, for the two reads of the cart that they make. */
  function CheckReads(
    db: Db, d: nat, user: nat, floor: seq<CartItem>, eligible: seq<CartItem>, now: int): Result<int>
  {
    if |db.discounts| <= d then Err(InvalidDiscount)
    else Validate(db.discounts[d], db.discounts[d].usedCount, |UsesBy(db.usages, d, user)|, floor, eligible, now)
  }

  /** The checks for a cart that does not change. */
  function CheckDiscount(db: Db, d: nat, user: nat, cart: seq<CartItem>, now: int): Result<int> {
    CheckReads(db, d, user, cart, cart, now)
  }

  function SellersOf(items: seq<Item>): set<nat> {
    set i | 0 <= i < |items| :: items[i].seller
  }

  function NewOrder(user: nat, cart: seq<CartItem>, items: seq<Item>, shipping: nat): Order {
    Order(user, PendingPayment, Unpaid, items, Subtotal(cart), 0, shipping, 0,
          Max(0, Subtotal(cart) + shipping),
          map s | s in SellersOf(items) :: PendingPayment, [Change(None, PendingPayment)])
  }

  /** The order with an exact discount h applied: discount and total are each rounded when stored. */
  function Discounted(o: Order, h: int, mode: Rounding): Order {
    o.(discount := Round(mode, h),
       total := Round(mode, Max(0, 100 * (o.subtotal + o.shipping + o.tax) - h)))
  }

  /** Revalidate under the discount's lock, store the amount, record the usage and count it. */
  function ApplyDiscount(
    db: Db, d: nat, user: nat, floor: seq<CartItem>, eligible: seq<CartItem>, order: nat, now: int, mode: Rounding)
    : Result<Db>
    requires order < |db.orders|
  {
    var h :- CheckReads(db, d, user, floor, eligible, now);
    Ok(db.(
      orders := db.orders[order := Discounted(db.orders[order], h, mode)],
      usages := db.usages[order := Usage(d, user, Round(mode, h))],
      discounts := db.discounts[d := db.discounts[d].(usedCount := db.discounts[d].usedCount + 1)]))
  }

  /** Validation (at time `seen`) and creation (at time `now`) of an order from the user's cart. */
  function PlaceOrder(
    db: Db, user: nat, discount: Option<nat>, shipping: nat, seen: int, now: int, mode: Rounding): Result<Db>
  {
    if user !in db.carts then Err(NotFound)
    else
      var cart := db.carts[user];
      if cart == [] then Err(EmptyCart)
      else if !PreCheck(db.ledger.stocks, cart) then Err(NotEnoughStock)
      else
        var _ :- if discount.Some? then CheckDiscount(db, discount.value, user, cart, seen) else Ok(0);
        CreateOrder(db, user, Unchanged(cart), discount, shipping, now, mode)
  }

  /** The cart as each query of the transaction found it: for the order's subtotal, for its items, and for the
      discount's minimum and amount. Nothing locks the cart. */
  datatype CartReads = CartReads(
    subtotal: seq<CartItem>, items: seq<CartItem>, floor: seq<CartItem>, eligible: seq<CartItem>)

  function Unchanged(cart: seq<CartItem>): CartReads {
    CartReads(cart, cart, cart, cart)
  }

  /** The transaction of checkout: reserve, create the order, apply the discount, empty the cart. */
  function CreateOrder(
    db: Db, user: nat, found: CartReads, discount: Option<nat>, shipping: nat, now: int, mode: Rounding): Result<Db>
  {
    var reserved :- ReserveCart(db.ledger.stocks, db.activeWarehouses, found.items);
    var placed := db.(
      ledger := db.ledger.(stocks := reserved.0),
      orders := db.orders + [NewOrder(user, found.subtotal, reserved.1, shipping)]);
    var priced :- if discount.Some?
                  then ApplyDiscount(placed, discount.value, user, found.floor, found.eligible, |db.orders|, now, mode)
                  else Ok(placed);
    Ok(priced.(carts := db.carts[user := []]))
  }

  // ----- Payments

  /** The latest pending attempt of this provider for the order, or the table's length. */
  function PendingAttempt(payments: seq<Payment>, order: nat, provider: nat): (r: nat)
    ensures r <= |payments|
    ensures r < |payments| ==>
              payments[r].order == order && payments[r].provider == provider && payments[r].status.Pending?
    ensures r == |payments| ==> forall k :: 0 <= k < |payments| ==>
              !(payments[k].order == order && payments[k].provider == provider && payments[k].status.Pending?)
  {
    if payments == [] then 0
    else
      var last := payments[|payments| - 1];
      if last.order == order && last.provider == provider && last.status.Pending? then |payments| - 1
      else
        var r := PendingAttempt(payments[..|payments| - 1], order, provider);
        if r == |payments| - 1 then |payments| else r
  }

  /** A new payment attempt, or the pending one there already is. */
  function CreatePayment(db: Db, caller: nat, staff: bool, order: nat, provider: nat): Result<(Db, nat)> {
    if |db.orders| <= order then Err(NotFound)
    else
      var o := db.orders[order];
      if !staff && o.user != caller then Err(Forbidden)
      else if !o.AwaitsPayment() then Err(NotAwaitingPayment)
      else if o.total <= 0 then Err(NothingToPay)
      else
        var k := PendingAttempt(db.payments, order, provider);
        if k < |db.payments| then
          if db.payments[k].amount != o.total then Err(AmountMismatch) else Ok((db, k))
        else
          Ok((db.(payments := db.payments + [Payment(order, o.user, provider, Pending, o.total, "")]), |db.payments|))
  }

  predicate HasSuccess(payments: seq<Payment>, order: nat, except: nat) {
    exists k :: 0 <= k < |payments| && k != except && payments[k].order == order && payments[k].status.Success?
  }

  /** Another verified capture of the same provider already carries this reference. */
  predicate ReferenceTaken(payments: seq<Payment>, provider: nat, reference: string, except: nat) {
    reference != "" &&
    exists k :: 0 <= k < |payments| && k != except && payments[k].provider == provider
                && payments[k].reference == reference
                && (payments[k].status.Success? || payments[k].status.Reversed?)
  }

  /** The pending attempts of an order, except one, become cancelled. */
  function CancelAttempts(payments: seq<Payment>, order: nat, except: nat): (r: seq<Payment>)
    ensures |r| == |payments|
  {
    seq(|payments|, k requires 0 <= k < |payments| =>
      if payments[k].order == order && payments[k].status.Pending? && k != except
      then payments[k].(status := PaymentCancelled) else payments[k])
  }

  /** The fulfilments after payment: one for each seller of an item, and none of these still waiting. */
  function PaidSellers(sellers: map<nat, OrderStatus>, items: seq<Item>): map<nat, OrderStatus> {
    map s | s in sellers.Keys + SellersOf(items) ::
      if s in SellersOf(items) && (s in sellers ==> sellers[s].PendingPayment?) then OrderStatus.Paid else sellers[s]
  }

  function MarkedPaid(o: Order): Order {
    o.(status := OrderStatus.Paid, payment := PaymentDone, total := o.ComputedTotal(),
       sellers := PaidSellers(o.sellers, o.items), history := o.history + [Change(Some(o.status), OrderStatus.Paid)])
  }

  /** Complete a pending payment: sell every item, mark the payment and its order paid, cancel other attempts. */
  function MarkSuccess(db: Db, payment: nat, reference: string, naive: bool): Result<Db>
  {
    if |db.payments| <= payment || |db.orders| <= db.payments[payment].order then Err(NotFound)
    else
      var p := db.payments[payment];
      var o := db.orders[p.order];
      if !p.status.Pending? then Err(WrongStatus)
      else if !o.AwaitsPayment() then Err(NotAwaitingPayment)
      else if HasSuccess(db.payments, p.order, payment) then Err(AlreadyPaid)
      else if p.amount != o.total then Err(AmountMismatch)
      else
        var ledger :- PayItems(db.ledger, o.items, payment);
        if naive then Err(NaiveTimestamp)
        else if ReferenceTaken(db.payments, p.provider, reference, payment) then Err(DuplicateReference)
        else
          var payments := db.payments[payment := p.(status := Success, reference := reference)];
          Ok(db.(ledger := ledger, payments := CancelAttempts(payments, p.order, payment),
                 orders := db.orders[p.order := MarkedPaid(o)]))
  }

  function MarkFailed(db: Db, payment: nat): Result<Db> {
    if |db.payments| <= payment then Err(NotFound)
    else if !db.payments[payment].status.Pending? then Err(WrongStatus)
    else Ok(db.(payments := db.payments[payment := db.payments[payment].(status := Failed)]))
  }

  function CancelPayment(db: Db, payment: nat): Result<Db> {
    if |db.payments| <= payment then Err(NotFound)
    else if !db.payments[payment].status.Pending? && !db.payments[payment].status.Failed? then Err(WrongStatus)
    else Ok(db.(payments := db.payments[payment := db.payments[payment].(status := PaymentCancelled)]))
  }

  // ----- Orders

  /** Remove the order's usage row, and count it down where the counter is above zero. */
  function UndoDiscount(db: Db, order: nat): Db {
    if order !in db.usages then db
    else
      var d := db.usages[order].discount;
      db.(usages := db.usages - {order},
          discounts := if d < |db.discounts| && 0 < db.discounts[d].usedCount
                       then db.discounts[d := db.discounts[d].(usedCount := db.discounts[d].usedCount - 1)]
                       else db.discounts)
  }

  function MarkedCancelled(o: Order): Order {
    o.(status := Cancelled, total := o.ComputedTotal(), history := o.history + [Change(Some(o.status), Cancelled)])
  }

  function CancelOrder(db: Db, caller: nat, staff: bool, order: nat): Result<Db> {
    if |db.orders| <= order || (!staff && db.orders[order].user != caller) then Err(NotFound)
    else
      var o := db.orders[order];
      if o.status.Cancelled? || (!staff && !o.status.PendingPayment?) then Err(WrongStatus)
      else if !o.AwaitsPayment() then Err(NotAwaitingPayment)
      else
        var rows :- ReleaseItems(db.ledger.stocks, o.items);
        var undone := UndoDiscount(db.(ledger := db.ledger.(stocks := rows)), order);
        Ok(undone.(payments := CancelAttempts(db.payments, order, |db.payments|),
                   orders := db.orders[order := MarkedCancelled(o)]))
  }

  function Started(o: Order): Order {
    o.(status := Processing, total := o.ComputedTotal(), history := o.history + [Change(Some(o.status), Processing)])
  }

  /** A seller starts preparing its items; the first one puts the whole order in processing. */
  function StartFulfilment(db: Db, seller: nat, order: nat): Result<Db> {
    if |db.orders| <= order || seller !in SellersOf(db.orders[order].items) then Err(NotFound)
    else
      var o := db.orders[order];
      var current := if seller in o.sellers then o.sellers[seller]
                     else if o.payment.PaymentDone? then o.status else PendingPayment;
      if !o.payment.PaymentDone? then Err(NotAwaitingPayment)
      else if o.status.Cancelled? || o.status.Refunded? then Err(WrongStatus)
      else if !current.Paid? then Err(WrongStatus)
      else
        var o' := o.(sellers := o.sellers[seller := Processing]);
        Ok(db.(orders := db.orders[order := if o.status.Paid? then Started(o') else o']))
  }

  /** An administrator moves a paid order to processing. */
  function StartProcessing(db: Db, order: nat): Result<Db> {
    if |db.orders| <= order then Err(NotFound)
    else if !db.orders[order].status.Paid? || !db.orders[order].payment.PaymentDone? then Err(WrongStatus)
    else Ok(db.(orders := db.orders[order := Started(db.orders[order])]))
  }

  // ----- Inventory

  /** A manual movement; sales and transfers have their own workflows. */
  function MoveByHand(db: Db, p: nat, w: nat, kind: MovementType, q: int, ref: Reference): Result<Db> {
    if !kind.Manual() then Err(NotManual)
    else
      var l :- Record(db.ledger, p, w, kind, q, ref);
      Ok(db.(ledger := l))
  }

  function CreateStock(db: Db, p: nat, w: nat): Result<Db> {
    if IndexOf(db.ledger.stocks, p, w) < |db.ledger.stocks| then Err(InvalidQuantity)
    else Ok(db.(ledger := db.ledger.(stocks := WithRow(db.ledger.stocks, p, w))))
  }

  function SetWarehouse(db: Db, w: nat, active: bool): Db {
    db.(activeWarehouses := if active then db.activeWarehouses + {w} else db.activeWarehouses - {w})
  }

  // ----- Transfers

  function RequestTransfer(db: Db, source: nat, dest: nat, p: nat, q: int, user: Option<nat>): Result<Db> {
    if source == dest then Err(SameWarehouse)
    else if q <= 0 then Err(InvalidQuantity)
    else if source !in db.activeWarehouses || dest !in db.activeWarehouses then Err(InactiveWarehouse)
    else
      var i := IndexOf(db.ledger.stocks, p, source);
      if i == |db.ledger.stocks| then Err(NotFound)
      else if db.ledger.stocks[i].Available() < q then Err(NotEnoughStock)
      else Ok(db.(transfers := db.transfers + [Transfer(source, dest, p, q, Requested, user, None)]))
  }

  function ApproveTransfer(db: Db, t: nat, user: nat): Result<Db> {
    if |db.transfers| <= t then Err(NotFound)
    else if !db.transfers[t].status.Requested? then Err(WrongStatus)
    else if db.transfers[t].requestedBy == Some(user) then Err(OwnRequest)
    else Ok(db.(transfers := db.transfers[t := db.transfers[t].(status := Approved, approvedBy := Some(user))]))
  }

  function ShipTransfer(db: Db, t: nat, member: bool): Result<Db> {
    if |db.transfers| <= t then Err(NotFound)
    else
      var x := db.transfers[t];
      if !x.status.Approved? then Err(WrongStatus)
      else if !member then Err(NotAssigned)
      else
        var l :- Record(db.ledger, x.product, x.source, TransferOut, -x.quantity, ForTransfer(t));
        Ok(db.(ledger := l, transfers := db.transfers[t := x.(status := InTransit)]))
  }

  function ReceiveTransfer(db: Db, t: nat, member: bool): Result<Db> {
    if |db.transfers| <= t then Err(NotFound)
    else
      var x := db.transfers[t];
      if !x.status.InTransit? then Err(WrongStatus)
      else if !member then Err(NotAssigned)
      else
        var l :- Record(db.ledger, x.product, x.dest, TransferIn, x.quantity, ForTransfer(t));
        Ok(db.(ledger := l, transfers := db.transfers[t := x.(status := Completed)]))
  }

  function CancelTransfer(db: Db, t: nat, user: nat): Result<Db> {
    if |db.transfers| <= t then Err(NotFound)
    else if !db.transfers[t].status.Requested? && !db.transfers[t].status.Approved? then Err(WrongStatus)
    else if db.transfers[t].requestedBy == Some(user) then Err(OwnRequest)
    else Ok(db.(transfers := db.transfers[t := db.transfers[t].(status := TransferCancelled)]))
  }

  // ----- Discounts

  function CreateDiscount(db: Db, d: Discount): Result<Db> {
    if !DiscountFieldsOk(d) then Err(InvalidDiscount)
    else Ok(db.(discounts := db.discounts + [d.(usedCount := 0)]))
  }

  // ----- Runs

  /** One request to the shop. */
  datatype Command =
    | DoAddToCart(user: nat, listed: bool, line: CartItem)
    | DoRemoveFromCart(user: nat, product: nat)
    | DoUpdateCart(user: nat, product: nat, newQuantity: int, price: nat)
    | DoClearCart(user: nat)
    | DoPlaceOrder(user: nat, discount: Option<nat>, shipping: nat, seen: int, now: int, mode: Rounding)
    | DoCreatePayment(user: nat, staff: bool, order: nat, provider: nat)
    | DoMarkSuccess(payment: nat, reference: string, naive: bool)
    | DoMarkFailed(payment: nat)
    | DoCancelPayment(payment: nat)
    | DoCancelOrder(user: nat, staff: bool, order: nat)
    | DoStartFulfilment(seller: nat, order: nat)
    | DoStartProcessing(order: nat)
    | DoMoveByHand(product: nat, warehouse: nat, kind: MovementType, quantity: int, ref: Reference)
    | DoCreateStock(product: nat, warehouse: nat)
    | DoSetWarehouse(warehouse: nat, active: bool)
    | DoRequestTransfer(source: nat, dest: nat, product: nat, quantity: int, requester: Option<nat>)
    | DoApproveTransfer(transfer: nat, user: nat)
    | DoShipTransfer(transfer: nat, member: bool)
    | DoReceiveTransfer(transfer: nat, member: bool)
    | DoCancelTransfer(transfer: nat, user: nat)
    | DoCreateDiscount(terms: Discount)

  function Perform(db: Db, c: Command): Result<Db> {
    match c
    case DoAddToCart(u, l, x) => AddToCart(db, u, l, x)
    case DoRemoveFromCart(u, p) => RemoveFromCart(db, u, p)
    case DoUpdateCart(u, p, q, x) => UpdateCart(db, u, p, q, x)
    case DoClearCart(u) => Ok(ClearCart(db, u))
    case DoPlaceOrder(u, d, s, seen, now, mode) => PlaceOrder(db, u, d, s, seen, now, mode)
    case DoCreatePayment(u, s, o, p) => (var r :- CreatePayment(db, u, s, o, p); Ok(r.0))
    case DoMarkSuccess(p, ref, naive) => MarkSuccess(db, p, ref, naive)
    case DoMarkFailed(p) => MarkFailed(db, p)
    case DoCancelPayment(p) => CancelPayment(db, p)
    case DoCancelOrder(u, s, o) => CancelOrder(db, u, s, o)
    case DoStartFulfilment(s, o) => StartFulfilment(db, s, o)
    case DoStartProcessing(o) => StartProcessing(db, o)
    case DoMoveByHand(p, w, k, q, ref) => MoveByHand(db, p, w, k, q, ref)
    case DoCreateStock(p, w) => CreateStock(db, p, w)
    case DoSetWarehouse(w, a) => Ok(SetWarehouse(db, w, a))
    case DoRequestTransfer(s, d, p, q, u) => RequestTransfer(db, s, d, p, q, u)
    case DoApproveTransfer(t, u) => ApproveTransfer(db, t, u)
    case DoShipTransfer(t, a) => ShipTransfer(db, t, a)
    case DoReceiveTransfer(t, a) => ReceiveTransfer(db, t, a)
    case DoCancelTransfer(t, u) => CancelTransfer(db, t, u)
    case DoCreateDiscount(d) => CreateDiscount(db, d)
  }

  /** A refused command leaves the database as it was. */
  function Next(db: Db, c: Command): Db {
    var r := Perform(db, c);
    if r.Ok? then r.value else db
  }

  function Run(db: Db, commands: seq<Command>): Db {
    if commands == [] then db
    else Next(Run(db, commands[..|commands| - 1]), commands[|commands| - 1])
  }

  const EMPTY := Db(Ledger([], []), [], [], [], [], map[], map[], {})

  /** A database that some sequence of requests leads to. */
  ghost predicate Reachable(db: Db) {
    exists commands :: db == Run(EMPTY, commands)
  }

  lemma {:induction false} NextReachable(db: Db, c: Command)
    requires Reachable(db)
    ensures Reachable(Next(db, c))
  {
    var commands :| db == Run(EMPTY, commands);
    RunSnoc(EMPTY, commands, c);
    assert Next(db, c) == Run(EMPTY, commands + [c]);
  }

  lemma {:induction false} RunSnoc(db: Db, commands: seq<Command>, c: Command)
    ensures Run(db, commands + [c]) == Next(Run(db, commands), c)
  {
    assert (commands + [c])[..|commands|] == commands;
  }
}
