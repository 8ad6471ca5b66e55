/** How single records move through any stretch of requests: orders, payment attempts, transfers and carts. */
module Lifecycles {
  import opened Common
  import opened Inventory
  import opened Reservations
  import opened Tables
  import opened Pricing
  import opened Checkout
  import opened Operations
  import opened Invariants
  import opened Preservation
  import opened Safety
  import opened Theorems

  // ----- Orders

  /** A waiting order without anything to pay, or a cancelled one. */
  predicate Unpayable(o: Order) {
    o.status.Cancelled? || (o.status.PendingPayment? && o.total <= 0)
  }

  /** From o to o': what was ordered stays, the history grows at its end, a waiting order is the same record
      or waits no more, a paid one stays paid, a cancelled one stays as it is, and an unpayable one unpayable. */
  ghost predicate OrderProceeds(o: Order, o': Order) {
    && o'.user == o.user && o'.items == o.items && o'.subtotal == o.subtotal
    && o'.discount == o.discount && o'.shipping == o.shipping && o'.tax == o.tax
    && o.history <= o'.history
    && (o'.status.PendingPayment? ==> o' == o)
    && (o.payment.PaymentDone? ==> o'.payment.PaymentDone?)
    && (o.status.Cancelled? ==> o' == o)
    && (Unpayable(o) ==> Unpayable(o'))
  }

  lemma {:induction false} SuccessMovesOrder(db: Db, payment: nat, reference: string, naive: bool, k: nat)
    requires PaymentsOk(db.payments, db.orders) && k < |db.orders| && OrderOk(db.orders[k])
    requires MarkSuccess(db, payment, reference, naive).Ok?
    ensures
      var os := MarkSuccess(db, payment, reference, naive).value.orders;
      |os| == |db.orders| && OrderProceeds(db.orders[k], os[k])
  {
    assert PaymentOk(db.payments[payment], db.orders);
  }

  lemma {:induction false} CancelMovesOrder(db: Db, caller: nat, staff: bool, order: nat, k: nat)
    requires k < |db.orders| && OrderOk(db.orders[k]) && CancelOrder(db, caller, staff, order).Ok?
    ensures
      var os := CancelOrder(db, caller, staff, order).value.orders;
      |os| == |db.orders| && OrderProceeds(db.orders[k], os[k])
  {
  }

  lemma {:induction false} StartMovesOrder(db: Db, seller: nat, order: nat, k: nat)
    requires k < |db.orders| && OrderOk(db.orders[k])
    ensures StartFulfilment(db, seller, order).Ok? ==>
              (var os := StartFulfilment(db, seller, order).value.orders;
               |os| == |db.orders| && OrderProceeds(db.orders[k], os[k]))
    ensures StartProcessing(db, order).Ok? ==>
              (var os := StartProcessing(db, order).value.orders;
               |os| == |db.orders| && OrderProceeds(db.orders[k], os[k]))
  {
  }

  lemma {:induction false} CheckoutAddsOrder(
    db: Db, user: nat, discount: Option<nat>, shipping: nat, seen: int, now: int, mode: Rounding)
    requires PlaceOrder(db, user, discount, shipping, seen, now, mode).Ok?
    ensures
      var os := PlaceOrder(db, user, discount, shipping, seen, now, mode).value.orders;
      |os| == |db.orders| + 1 && os[..|db.orders|] == db.orders
  {
    PlaceOrderIs(db, user, discount, shipping, seen, now, mode);
  }

  predicate TouchesOrders(c: Command) {
    c.DoPlaceOrder? || c.DoMarkSuccess? || c.DoCancelOrder? || c.DoStartFulfilment? || c.DoStartProcessing?
  }

  lemma {:induction false} OrdersUntouched(db: Db, c: Command)
    requires !TouchesOrders(c) && Perform(db, c).Ok?
    ensures Perform(db, c).value.orders == db.orders
  {
  }

  lemma {:induction false} PerformMovesOrder(db: Db, c: Command, k: nat, db': Db)
    requires PaymentsOk(db.payments, db.orders) && k < |db.orders| && OrderOk(db.orders[k]) && Perform(db, c) == Ok(db')
    ensures |db.orders| <= |db'.orders| && OrderProceeds(db.orders[k], db'.orders[k])
  {
    match c
    case DoPlaceOrder(u, d, s, seen, now, mode) => CheckoutAddsOrder(db, u, d, s, seen, now, mode);
    case DoMarkSuccess(p, ref, naive) => SuccessMovesOrder(db, p, ref, naive, k);
    case DoCancelOrder(u, s, o) => CancelMovesOrder(db, u, s, o, k);
    case DoStartFulfilment(s, o) => StartMovesOrder(db, s, o, k);
    case DoStartProcessing(o) => StartMovesOrder(db, 0, o, k);
    case _ => OrdersUntouched(db, c);
  }

  /** Over any run. */
  lemma {:induction false} RunMovesOrders(db: Db, commands: seq<Command>, k: nat)
    requires Inv(db) && k < |db.orders|
    ensures |db.orders| <= |Run(db, commands).orders|
    ensures OrderProceeds(db.orders[k], Run(db, commands).orders[k])
    decreases |commands|
  {
    if commands != [] {
      var before := commands[..|commands| - 1];
      RunMovesOrders(db, before, k);
      RunKeeps(db, before);
      var mid := Run(db, before);
      if Perform(mid, commands[|commands| - 1]).Ok? {
        assert OrderOk(mid.orders[k]);
        PerformMovesOrder(mid, commands[|commands| - 1], k, Run(db, commands));
      }
    }
  }

  /** A waiting order with nothing to pay can only be cancelled: over any run it is the same record or cancelled. */
  lemma {:induction false} FreeOrderNeverPaid(db: Db, commands: seq<Command>, k: nat)
    requires Inv(db) && k < |db.orders| && db.orders[k].status.PendingPayment? && db.orders[k].total <= 0
    ensures
      var os := Run(db, commands).orders;
      k < |os| && (os[k] == db.orders[k] || os[k].status.Cancelled?)
  {
    RunMovesOrders(db, commands, k);
  }

  /** Which checkouts leave nothing to pay: those that leave less than a unit that rounds up. Without a discount
      these are the carts in which every line costs nothing, shipped for nothing. */
  lemma {:induction false} FreeCheckoutExactly(
    db: Db, user: nat, discount: Option<nat>, shipping: nat, seen: int, now: int, mode: Rounding, db1: Db)
    requires DiscountsOk(db.discounts, db.usages, db.orders) && CartsOk(db.carts)
    requires PlaceOrder(db, user, discount, shipping, seen, now, mode) == Ok(db1)
    ensures
      var left := 100 * Gross(db, user, shipping) - Taken(db, user, discount, now);
      && |db1.orders| == |db.orders| + 1
      && (db1.orders[|db.orders|].total <= 0 <==> left < 50 || (left == 50 && mode.HalfEven?))
    ensures discount.None? ==>
              (db1.orders[|db.orders|].total <= 0 <==>
                 shipping == 0
                 && forall k :: 0 <= k < |CartOf(db, user)| ==> CartOf(db, user)[k].unitPrice == 0)
  {
    CheckoutMoney(db, user, discount, shipping, seen, now, mode, db1);
    PlaceOrderIs(db, user, discount, shipping, seen, now, mode);
    assert CartOk(db.carts[user]);
    SubtotalNonNegative(CartOf(db, user));
  }

  // ----- Payment attempts

  /** From p to p': what is to be paid stays, a success or a cancellation is final, a failed attempt can only
      be cancelled, and an attempt that keeps its status is the same record. */
  ghost predicate AttemptProceeds(p: Payment, p': Payment) {
    && p'.order == p.order && p'.user == p.user && p'.provider == p.provider && p'.amount == p.amount
    && (p'.status == p.status ==> p' == p)
    && (p.status.Success? || p.status.PaymentCancelled? || p.status.Reversed? ==> p' == p)
    && (p.status.Failed? ==> p'.status.Failed? || p'.status.PaymentCancelled?)
    && !(p.status.Pending? && p'.status.Reversed?)
  }

  lemma {:induction false} PerformMovesAttempt(db: Db, c: Command, k: nat, db': Db)
    requires k < |db.payments| && Perform(db, c) == Ok(db')
    ensures |db.payments| <= |db'.payments| && AttemptProceeds(db.payments[k], db'.payments[k])
  {
    if c.DoPlaceOrder? {
      PlaceOrderIs(db, c.user, c.discount, c.shipping, c.seen, c.now, c.mode);
    } else if c.DoCancelOrder? {
      CancelledIs(db, c.user, c.staff, c.order);
    } else if !TouchesPayments(c) {
      PaymentsUntouched(db, c);
    }
  }

  predicate TouchesPayments(c: Command) {
    c.DoCreatePayment? || c.DoMarkSuccess? || c.DoMarkFailed? || c.DoCancelPayment? || c.DoCancelOrder?
  }

  lemma {:induction false} PaymentsUntouched(db: Db, c: Command)
    requires !TouchesPayments(c) && !c.DoPlaceOrder? && Perform(db, c).Ok?
    ensures Perform(db, c).value.payments == db.payments
  {
  }

  /** Over any run. */
  lemma {:induction false} RunMovesAttempts(db: Db, commands: seq<Command>, k: nat)
    requires k < |db.payments|
    ensures |db.payments| <= |Run(db, commands).payments|
    ensures AttemptProceeds(db.payments[k], Run(db, commands).payments[k])
    decreases |commands|
  {
    if commands != [] {
      var before := commands[..|commands| - 1];
      RunMovesAttempts(db, before, k);
      var mid := Run(db, before);
      if Perform(mid, commands[|commands| - 1]).Ok? {
        PerformMovesAttempt(mid, commands[|commands| - 1], k, Run(db, commands));
      }
    }
  }

  /** A pending attempt that failed or was cancelled leaves the stock, with its reservations, and the order as
      they were, and its owner can open a new attempt for the same amount at once. */
  lemma {:induction false} EndedAttemptCanBeRetried(db: Db, payment: nat, db': Db)
    requires Inv(db) && payment < |db.payments| && db.payments[payment].status.Pending?
    requires MarkFailed(db, payment) == Ok(db') || CancelPayment(db, payment) == Ok(db')
    ensures db'.ledger == db.ledger && db'.orders == db.orders && |db'.payments| == |db.payments|
    ensures
      var p := db.payments[payment];
      && p.order < |db.orders|
      && CreatePayment(db', db.orders[p.order].user, false, p.order, p.provider)
         == Ok((db'.(payments := db'.payments
                                 + [Payment(p.order, db.orders[p.order].user, p.provider, Pending, p.amount, "")]),
                |db.payments|))
  {
    var p := db.payments[payment];
    assert PaymentOk(p, db.orders);
    assert OrderOk(db.orders[p.order]);
    forall k | 0 <= k < |db.payments| && k != payment
      ensures db.payments[k].order == p.order && db.payments[k].provider == p.provider
              ==> !db.payments[k].status.Pending?
    {
      assert if k < payment then Distinct(db.payments[k], p) else Distinct(p, db.payments[k]);
    }
  }

  // ----- Transfers

  function Stage(s: TransferStatus): nat {
    match s
    case Requested => 0
    case Approved => 1
    case InTransit => 2
    case Completed => 3
    case TransferCancelled => 4
  }

  /** From x to x': what is moved stays; requested, approved, in transit, completed come in this order; only
      what has not left can be cancelled; the end states are final. */
  ghost predicate TransferProceeds(x: Transfer, x': Transfer) {
    && x'.source == x.source && x'.dest == x.dest && x'.product == x.product && x'.quantity == x.quantity
    && x'.requestedBy == x.requestedBy
    && Stage(x.status) <= Stage(x'.status)
    && (!x.status.Requested? ==> x'.approvedBy == x.approvedBy)
    && (x.status.InTransit? || x.status.Completed? ==> !x'.status.TransferCancelled?)
    && (x'.status == x.status ==> x' == x)
  }

  lemma {:induction false} PerformMovesTransfer(db: Db, c: Command, t: nat, db': Db)
    requires t < |db.transfers| && Perform(db, c) == Ok(db')
    ensures |db.transfers| <= |db'.transfers| && TransferProceeds(db.transfers[t], db'.transfers[t])
  {
    if c.DoPlaceOrder? {
      PlaceOrderIs(db, c.user, c.discount, c.shipping, c.seen, c.now, c.mode);
    } else if c.DoCancelOrder? {
      CancelledIs(db, c.user, c.staff, c.order);
    } else if !TouchesTransfers(c) {
      TransfersUntouched(db, c);
    }
  }

  predicate TouchesTransfers(c: Command) {
    c.DoRequestTransfer? || c.DoApproveTransfer? || c.DoShipTransfer? || c.DoReceiveTransfer? || c.DoCancelTransfer?
  }

  lemma {:induction false} TransfersUntouched(db: Db, c: Command)
    requires !TouchesTransfers(c) && !c.DoPlaceOrder? && !c.DoCancelOrder? && Perform(db, c).Ok?
    ensures Perform(db, c).value.transfers == db.transfers
  {
  }

  /** Over any run. */
  lemma {:induction false} RunMovesTransfers(db: Db, commands: seq<Command>, t: nat)
    requires t < |db.transfers|
    ensures |db.transfers| <= |Run(db, commands).transfers|
    ensures TransferProceeds(db.transfers[t], Run(db, commands).transfers[t])
    decreases |commands|
  {
    if commands != [] {
      var before := commands[..|commands| - 1];
      RunMovesTransfers(db, before, t);
      var mid := Run(db, before);
      if Perform(mid, commands[|commands| - 1]).Ok? {
        PerformMovesTransfer(mid, commands[|commands| - 1], t, Run(db, commands));
      }
    }
  }

  /** In every reachable state a transfer past its request was approved by someone other than its requester. */
  lemma {:induction false} ApprovedBySomeoneElse(db: Db, t: nat)
    requires Reachable(db) && t < |db.transfers|
    ensures
      var x := db.transfers[t];
      && 0 < x.quantity && x.source != x.dest
      && (x.status.Approved? || x.status.InTransit? || x.status.Completed? ==>
            x.approvedBy.Some? && x.requestedBy != x.approvedBy)
  {
    ReachableOk(db);
    assert TransferOk(db.transfers[t]);
  }

  /** Units of a product in a warehouse; none without a row. */
  function UnitsAt(stocks: seq<Stock>, p: nat, w: nat): int {
    var i := IndexOf(stocks, p, w);
    if i < |stocks| then stocks[i].quantity else 0
  }

  function ReservedAt(stocks: seq<Stock>, p: nat, w: nat): int {
    var i := IndexOf(stocks, p, w);
    if i < |stocks| then stocks[i].reserved else 0
  }

  lemma {:induction false} RecordMovesUnitsAt(
    l: Ledger, p: nat, w: nat, kind: MovementType, q: int, ref: Reference, x: nat, y: nat)
    requires RowsOk(l.stocks) && Record(l, p, w, kind, q, ref).Ok?
    ensures UnitsAt(Record(l, p, w, kind, q, ref).value.stocks, x, y)
            == UnitsAt(l.stocks, x, y) + if x == p && y == w then q else 0
    ensures ReservedAt(Record(l, p, w, kind, q, ref).value.stocks, x, y) == ReservedAt(l.stocks, x, y)
  {
    var rows, i := WithRow(l.stocks, p, w), IndexOf(l.stocks, p, w);
    RecordAtRow(l, i, p, w, kind, q, ref);
    var rows' := Record(l, p, w, kind, q, ref).value.stocks;
    WithRowRows(l.stocks, p, w);
    WithRowUnitsAt(l.stocks, p, w, x, y);
    SameRowsSameIndex(rows, rows', x, y);
    IndexIsUnique(rows, i);
  }

  lemma {:induction false} WithRowUnitsAt(stocks: seq<Stock>, p: nat, w: nat, x: nat, y: nat)
    ensures UnitsAt(WithRow(stocks, p, w), x, y) == UnitsAt(stocks, x, y)
    ensures ReservedAt(WithRow(stocks, p, w), x, y) == ReservedAt(stocks, x, y)
  {
    if IndexOf(stocks, p, w) == |stocks| {
      assert (stocks + [Stock(p, w, 0, 0)])[..|stocks|] == stocks;
    }
  }

  /** A requested transfer that someone else approves goes through at once, and end to end moves exactly its
      units from its source to its destination: no other row's quantity changes, and no reservation. */
  lemma {:induction false} TransferEndToEnd(
    db: Db, source: nat, dest: nat, p: nat, q: int, requester: Option<nat>, approver: nat, x: nat, y: nat)
    requires Inv(db) && RequestTransfer(db, source, dest, p, q, requester).Ok? && requester != Some(approver)
    ensures
      var t := |db.transfers|;
      var r1 := RequestTransfer(db, source, dest, p, q, requester);
      var r2 := ApproveTransfer(r1.value, t, approver);
      && r2.Ok? && var r3 := ShipTransfer(r2.value, t, true);
      && r3.Ok? && var r4 := ReceiveTransfer(r3.value, t, true);
      && r4.Ok?
      && UnitsAt(r3.value.ledger.stocks, x, y)
         == UnitsAt(db.ledger.stocks, x, y) - (if x == p && y == source then q else 0)
      && UnitsAt(r4.value.ledger.stocks, x, y)
         == UnitsAt(db.ledger.stocks, x, y) - (if x == p && y == source then q else 0)
            + (if x == p && y == dest then q else 0)
      && ReservedAt(r3.value.ledger.stocks, x, y) == ReservedAt(r4.value.ledger.stocks, x, y)
         == ReservedAt(db.ledger.stocks, x, y)
      && r4.value.transfers[t].status.Completed? && r4.value.orders == db.orders
  {
    var t := |db.transfers|;
    var db1 := RequestTransfer(db, source, dest, p, q, requester).value;
    var db2 := ApproveTransfer(db1, t, approver).value;
    ShipMoves(db2, t, x, y);
    var db3 := ShipTransfer(db2, t, true).value;
    ReceiveMoves(db3, t, x, y);
  }

  lemma {:induction false} ShipMoves(db: Db, t: nat, x: nat, y: nat)
    requires LedgerOk(db.ledger) && t < |db.transfers| && db.transfers[t].status.Approved?
    requires
      var r := db.transfers[t];
      && 0 < r.quantity && IndexOf(db.ledger.stocks, r.product, r.source) < |db.ledger.stocks|
      && r.quantity <= db.ledger.stocks[IndexOf(db.ledger.stocks, r.product, r.source)].Available()
    ensures ShipTransfer(db, t, true).Ok?
    ensures
      var r, db' := db.transfers[t], ShipTransfer(db, t, true).value;
      && LedgerOk(db'.ledger) && db'.orders == db.orders
      && |db'.transfers| == |db.transfers| && db'.transfers[t] == r.(status := InTransit)
      && UnitsAt(db'.ledger.stocks, x, y)
         == UnitsAt(db.ledger.stocks, x, y) - (if x == r.product && y == r.source then r.quantity else 0)
      && ReservedAt(db'.ledger.stocks, x, y) == ReservedAt(db.ledger.stocks, x, y)
  {
    var r := db.transfers[t];
    ShipsAvailable(db.ledger, r.product, r.source, r.quantity, t);
    var l := Record(db.ledger, r.product, r.source, TransferOut, -r.quantity, ForTransfer(t)).value;
    LegMoves(db.ledger, l, r.product, r.source, TransferOut, -r.quantity, t, x, y);
    ShipIs(db, t, l);
  }

  lemma {:induction false} LegMoves(
    l: Ledger, l': Ledger, p: nat, w: nat, kind: MovementType, q: int, t: nat, x: nat, y: nat)
    requires LedgerOk(l) && Record(l, p, w, kind, q, ForTransfer(t)) == Ok(l')
    ensures LedgerOk(l')
    ensures UnitsAt(l'.stocks, x, y) == UnitsAt(l.stocks, x, y) + if x == p && y == w then q else 0
    ensures ReservedAt(l'.stocks, x, y) == ReservedAt(l.stocks, x, y)
  {
    RecordKeepsLedger(l, p, w, kind, q, ForTransfer(t));
    RecordMovesUnitsAt(l, p, w, kind, q, ForTransfer(t), x, y);
  }

  lemma {:induction false} ShipIs(db: Db, t: nat, l: Ledger)
    requires t < |db.transfers| && db.transfers[t].status.Approved?
    requires
      var r := db.transfers[t];
      Record(db.ledger, r.product, r.source, TransferOut, -r.quantity, ForTransfer(t)) == Ok(l)
    ensures ShipTransfer(db, t, true)
            == Ok(db.(ledger := l, transfers := db.transfers[t := db.transfers[t].(status := InTransit)]))
  {
  }

  lemma {:induction false} ReceiveMoves(db: Db, t: nat, x: nat, y: nat)
    requires LedgerOk(db.ledger) && t < |db.transfers| && db.transfers[t].status.InTransit?
    requires 0 < db.transfers[t].quantity
    ensures ReceiveTransfer(db, t, true).Ok?
    ensures
      var r, db' := db.transfers[t], ReceiveTransfer(db, t, true).value;
      && db'.orders == db.orders
      && |db'.transfers| == |db.transfers| && db'.transfers[t] == r.(status := Completed)
      && UnitsAt(db'.ledger.stocks, x, y)
         == UnitsAt(db.ledger.stocks, x, y) + (if x == r.product && y == r.dest then r.quantity else 0)
      && ReservedAt(db'.ledger.stocks, x, y) == ReservedAt(db.ledger.stocks, x, y)
  {
    var r := db.transfers[t];
    ArrivesAlways(db.ledger, r.product, r.dest, r.quantity, t);
    var l := Record(db.ledger, r.product, r.dest, TransferIn, r.quantity, ForTransfer(t)).value;
    LegMoves(db.ledger, l, r.product, r.dest, TransferIn, r.quantity, t, x, y);
  }

  lemma {:induction false} ShipsAvailable(l: Ledger, p: nat, w: nat, q: int, t: nat)
    requires LedgerOk(l) && 0 < q && IndexOf(l.stocks, p, w) < |l.stocks|
    requires q <= l.stocks[IndexOf(l.stocks, p, w)].Available()
    ensures Record(l, p, w, TransferOut, -q, ForTransfer(t)).Ok?
  {
  }

  lemma {:induction false} ArrivesAlways(l: Ledger, p: nat, w: nat, q: int, t: nat)
    requires LedgerOk(l) && 0 < q
    ensures Record(l, p, w, TransferIn, q, ForTransfer(t)).Ok?
  {
    WithRowOk(l, p, w);
    RowIndexOrLast(l.stocks, p, w);
  }

  lemma {:induction false} RowIndexOrLast(stocks: seq<Stock>, p: nat, w: nat)
    ensures IndexOf(stocks, p, w) < |WithRow(stocks, p, w)|
  {
  }

  // ----- Carts

  /** Units of a product in a cart. */
  function UnitsIn(cart: seq<CartItem>, p: nat): int {
    var k := InCart(cart, p);
    if k < |cart| then cart[k].quantity else 0
  }

  /** An approved product can be added exactly while the cart's units of it stay within its summed
      availability; the cart then has that many more of it, at the given price, and as many as before of every
      other product, and no other cart changes. */
  lemma {:induction false} CartAdditionExact(db: Db, user: nat, listed: bool, c: CartItem, x: nat, other: nat)
    requires CartsOk(db.carts)
    ensures AddToCart(db, user, listed, c).Ok? <==>
              && listed && 1 <= c.quantity
              && UnitsIn(CartOf(db, user), c.product) + c.quantity <= Sum(db.ledger.stocks, AvailableOf(c.product))
    ensures AddToCart(db, user, listed, c).Ok? ==>
              (var db' := AddToCart(db, user, listed, c).value;
               && UnitsIn(CartOf(db', user), x)
                  == UnitsIn(CartOf(db, user), x) + (if x == c.product then c.quantity else 0)
               && InCart(CartOf(db', user), c.product) < |CartOf(db', user)|
               && CartOf(db', user)[InCart(CartOf(db', user), c.product)].unitPrice == c.unitPrice
               && (other != user ==> CartOf(db', other) == CartOf(db, other)))
  {
    AdditionAdmitted(db, user, listed, c);
    if AddToCart(db, user, listed, c).Ok? {
      AdditionIs(db, user, listed, c);
      UnitsAdded(CartOf(db, user), c, x);
    }
  }

  lemma {:induction false} AdditionAdmitted(db: Db, user: nat, listed: bool, c: CartItem)
    requires CartsOk(db.carts)
    ensures AddToCart(db, user, listed, c).Ok? <==>
              && listed && 1 <= c.quantity
              && UnitsIn(CartOf(db, user), c.product) + c.quantity <= Sum(db.ledger.stocks, AvailableOf(c.product))
  {
    var cart := CartOf(db, user);
    assert CartOk(cart);
    var k := InCart(cart, c.product);
    assert k < |cart| ==> CartItemOk(cart[k]);
  }

  lemma {:induction false} AdditionIs(db: Db, user: nat, listed: bool, c: CartItem)
    requires AddToCart(db, user, listed, c).Ok?
    ensures AddToCart(db, user, listed, c).value == db.(carts := db.carts[user := WithLine(CartOf(db, user), c)])
  {
  }

  /** A line in front, or a larger one in its place. */
  function WithLine(cart: seq<CartItem>, c: CartItem): seq<CartItem> {
    var k := InCart(cart, c.product);
    if k == |cart| then [c] + cart
    else cart[k := cart[k].(quantity := cart[k].quantity + c.quantity, unitPrice := c.unitPrice)]
  }

  lemma {:induction false} UnitsAdded(cart: seq<CartItem>, c: CartItem, x: nat)
    ensures UnitsIn(WithLine(cart, c), x) == UnitsIn(cart, x) + if x == c.product then c.quantity else 0
    ensures InCart(WithLine(cart, c), c.product) < |WithLine(cart, c)|
    ensures WithLine(cart, c)[InCart(WithLine(cart, c), c.product)].unitPrice == c.unitPrice
  {
    var k := InCart(cart, c.product);
    if k == |cart| {
      InFront(cart, c, x);
      InFront(cart, c, c.product);
    } else {
      var l := cart[k].(quantity := cart[k].quantity + c.quantity, unitPrice := c.unitPrice);
      InReplaced(cart, k, l, x);
      InReplaced(cart, k, l, c.product);
    }
  }

  lemma {:induction false} InFront(cart: seq<CartItem>, c: CartItem, x: nat)
    ensures InCart([c] + cart, x) == if x == c.product then 0 else InCart(cart, x) + 1
  {
    assert ([c] + cart)[1..] == cart;
  }

  lemma {:induction false} InReplaced(cart: seq<CartItem>, k: nat, l: CartItem, x: nat)
    requires k < |cart| && l.product == cart[k].product
    ensures InCart(cart[k := l], x) == InCart(cart, x)
    decreases |cart|
  {
    if k > 0 {
      assert cart[k := l][1..] == cart[1..][k - 1 := l];
      InReplaced(cart[1..], k - 1, l, x);
    } else {
      assert cart[k := l][1..] == cart[1..];
    }
  }
}
