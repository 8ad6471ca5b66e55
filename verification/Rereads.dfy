/** Checkout amid other requests. It queries the cart again and again and locks nothing of it, so the cart may
    change between the order's subtotal, its items and its discount. */
module Rereads {
  import opened Common
  import opened Inventory
  import opened Reservations
  import opened Tables
  import opened Pricing
  import opened Checkout
  import opened Operations
  import opened Invariants
  import opened Preservation
  import opened Safety
  import opened Theorems
  import opened Effects

  /** What commits during a checkout, in the gaps before its queries for the subtotal and the items, before it
      locks the stock, before the discount's two queries, and before the cart is emptied. */
  datatype Gaps = Gaps(
    subtotal: seq<Command>, items: seq<Command>, stock: seq<Command>,
    floor: seq<Command>, eligible: seq<Command>, clear: seq<Command>)

  const NONE := Gaps([], [], [], [], [], [])

  predicate OfCarts(c: Command) {
    c.DoAddToCart? || c.DoRemoveFromCart? || c.DoUpdateCart? || c.DoClearCart?
  }

  /** While stock is locked, the gaps hold requests to carts, of this user or of others. */
  ghost predicate GapsOk(g: Gaps) {
    forall c :: c in g.floor + g.eligible + g.clear ==> OfCarts(c)
  }

  /** The committed database at each of these moments. */
  datatype Moments = Moments(subtotal: Db, items: Db, stock: Db, floor: Db, eligible: Db, end: Db)

  function MomentsOf(db: Db, g: Gaps): Moments {
    var a := Run(db, g.subtotal);
    var b := Run(a, g.items);
    var c := Run(b, g.stock);
    var d := Run(c, g.floor);
    var e := Run(d, g.eligible);
    Moments(a, b, c, d, e, Run(e, g.clear))
  }

  function Found(m: Moments, user: nat): CartReads {
    CartReads(CartOf(m.subtotal, user), CartOf(m.items, user), CartOf(m.floor, user), CartOf(m.eligible, user))
  }

  /** The validation of a checkout request, before its transaction. */
  predicate Admitted(db: Db, user: nat, discount: Option<nat>, seen: int) {
    && user in db.carts && db.carts[user] != [] && PreCheck(db.ledger.stocks, db.carts[user])
    && (discount.Some? ==> CheckDiscount(db, discount.value, user, db.carts[user], seen).Ok?)
  }

  /** The transaction of a checkout, amid what else commits. */
  function CreateAmid(
    db: Db, user: nat, g: Gaps, discount: Option<nat>, shipping: nat, now: int, mode: Rounding): Result<Db>
  {
    var m := MomentsOf(db, g);
    CreateOrder(m.end, user, Found(m, user), discount, shipping, now, mode)
  }

  /** The whole request: what else committed stays when it is refused. */
  function CheckoutAmid(
    db: Db, user: nat, g: Gaps, discount: Option<nat>, shipping: nat, seen: int, now: int, mode: Rounding): Db
  {
    var r := CreateAmid(db, user, g, discount, shipping, now, mode);
    if Admitted(db, user, discount, seen) && r.Ok? then r.value else MomentsOf(db, g).end
  }

  /** With nothing in the gaps it is the atomic request. */
  lemma {:induction false} AloneIsAtomic(
    db: Db, user: nat, discount: Option<nat>, shipping: nat, seen: int, now: int, mode: Rounding)
    ensures CheckoutAmid(db, user, NONE, discount, shipping, seen, now, mode)
            == Next(db, DoPlaceOrder(user, discount, shipping, seen, now, mode))
  {
    if user in db.carts {
      assert Found(MomentsOf(db, NONE), user) == Unchanged(db.carts[user]);
    }
  }

  // ----- What requests do to the worth of a cart

  /** What an accepted request adds to the sum of f over a user's cart: for a line added or removed its own
      value, for a line with a new quantity or price the difference, for an emptied cart minus the whole. */
  function Change(db: Db, c: Command, user: nat, f: CartItem -> int): int {
    var cart := CartOf(db, user);
    if Perform(db, c).Err? then 0
    else match c
      case DoAddToCart(u, _, x) =>
        if u != user then 0
        else
          var k := InCart(cart, x.product);
          if k == |cart| then f(x)
          else f(cart[k].(quantity := cart[k].quantity + x.quantity, unitPrice := x.unitPrice)) - f(cart[k])
      case DoRemoveFromCart(u, p) =>
        if u != user || InCart(cart, p) == |cart| then 0 else -f(cart[InCart(cart, p)])
      case DoUpdateCart(u, p, q, price) =>
        if u != user || InCart(cart, p) == |cart| then 0
        else f(cart[InCart(cart, p)].(quantity := q, unitPrice := price)) - f(cart[InCart(cart, p)])
      case DoClearCart(u) => if u != user then 0 else -Sum(cart, f)
      case DoPlaceOrder(u, _, _, _, _, _) => if u != user then 0 else -Sum(cart, f)
      case _ => 0
  }

  function Changes(db: Db, commands: seq<Command>, user: nat, f: CartItem -> int): int {
    if commands == [] then 0
    else
      var before := commands[..|commands| - 1];
      Changes(db, before, user, f) + Change(Run(db, before), commands[|commands| - 1], user, f)
  }

  predicate TouchesCarts(c: Command) {
    OfCarts(c) || c.DoPlaceOrder?
  }

  lemma {:induction false} CartsUntouched(db: Db, c: Command)
    requires !TouchesCarts(c)
    ensures Next(db, c).carts == db.carts
  {
  }

  lemma {:induction false} CheckoutEmpties(db: Db, c: Command)
    requires c.DoPlaceOrder? && Perform(db, c).Ok?
    ensures Next(db, c).carts == db.carts[c.user := []]
  {
    PlaceOrderIs(db, c.user, c.discount, c.shipping, c.seen, c.now, c.mode);
  }

  lemma {:induction false} AdditionChanges(db: Db, user: nat, listed: bool, x: CartItem, f: CartItem -> int)
    ensures Sum(CartOf(Next(db, DoAddToCart(user, listed, x)), user), f)
            == Sum(CartOf(db, user), f) + Change(db, DoAddToCart(user, listed, x), user, f)
  {
    var cart := CartOf(db, user);
    var k := InCart(cart, x.product);
    if k == |cart| {
      SumConcat([x], cart, f);
      SumOne(x, f);
    } else {
      SumUpdate(cart, k, cart[k].(quantity := cart[k].quantity + x.quantity, unitPrice := x.unitPrice), f);
    }
  }

  lemma {:induction false} RemovalChanges(db: Db, user: nat, p: nat, f: CartItem -> int)
    ensures Sum(CartOf(Next(db, DoRemoveFromCart(user, p)), user), f)
            == Sum(CartOf(db, user), f) + Change(db, DoRemoveFromCart(user, p), user, f)
  {
    var cart := CartOf(db, user);
    if InCart(cart, p) < |cart| {
      WithoutOne(cart, InCart(cart, p), f);
    }
  }

  lemma {:induction false} UpdateChanges(db: Db, user: nat, p: nat, quantity: int, price: nat, f: CartItem -> int)
    ensures Sum(CartOf(Next(db, DoUpdateCart(user, p, quantity, price)), user), f)
            == Sum(CartOf(db, user), f) + Change(db, DoUpdateCart(user, p, quantity, price), user, f)
  {
    var cart := CartOf(db, user);
    var k := InCart(cart, p);
    if k < |cart| {
      SumUpdate(cart, k, cart[k].(quantity := quantity, unitPrice := price), f);
    }
  }

  lemma {:induction false} OtherCartsStay(db: Db, c: Command, user: nat, f: CartItem -> int)
    requires OfCarts(c) && c.user != user
    ensures CartOf(Next(db, c), user) == CartOf(db, user) && Change(db, c, user, f) == 0
  {
  }

  lemma {:induction false} CartCommandIs(db: Db, c: Command, user: nat, f: CartItem -> int)
    requires OfCarts(c)
    ensures Sum(CartOf(Next(db, c), user), f) == Sum(CartOf(db, user), f) + Change(db, c, user, f)
  {
    if c.user != user {
      OtherCartsStay(db, c, user, f);
    } else {
      match c
      case DoAddToCart(u, l, x) => AdditionChanges(db, u, l, x, f);
      case DoRemoveFromCart(u, p) => RemovalChanges(db, u, p, f);
      case DoUpdateCart(u, p, q, price) => UpdateChanges(db, u, p, q, price, f);
      case DoClearCart(u) =>
    }
  }

  lemma {:induction false} SumOne<T>(x: T, f: T -> int)
    ensures Sum([x], f) == f(x)
  {
    SumAppend([], x, f);
    assert [] + [x] == [x];
  }

  lemma {:induction false} ChangeIs(db: Db, c: Command, user: nat, f: CartItem -> int)
    ensures Sum(CartOf(Next(db, c), user), f) == Sum(CartOf(db, user), f) + Change(db, c, user, f)
  {
    if OfCarts(c) {
      CartCommandIs(db, c, user, f);
    } else if !c.DoPlaceOrder? {
      CartsUntouched(db, c);
      NoChange(db, c, user, f);
    } else if Perform(db, c).Ok? {
      CheckoutEmpties(db, c);
    }
  }

  lemma {:induction false} NoChange(db: Db, c: Command, user: nat, f: CartItem -> int)
    requires !TouchesCarts(c)
    ensures Change(db, c, user, f) == 0
  {
  }

  /** Over any run, a cart's worth moves by its changes. */
  lemma {:induction false} ChangesAddUp(db: Db, commands: seq<Command>, user: nat, f: CartItem -> int)
    ensures Sum(CartOf(Run(db, commands), user), f) == Sum(CartOf(db, user), f) + Changes(db, commands, user, f)
    decreases |commands|
  {
    if commands != [] {
      var before := commands[..|commands| - 1];
      ChangesAddUp(db, before, user, f);
      ChangeIs(Run(db, before), commands[|commands| - 1], user, f);
    }
  }

  // ----- The order's money

  /** CreateOrder, spelled out for what it found. */
  lemma {:induction false} CreatedIs(
    db: Db, user: nat, found: CartReads, discount: Option<nat>, shipping: nat, now: int, mode: Rounding, db': Db)
    requires CreateOrder(db, user, found, discount, shipping, now, mode) == Ok(db')
    ensures |db'.orders| == |db.orders| + 1 && ReserveCart(db.ledger.stocks, db.activeWarehouses, found.items).Ok?
    ensures
      var o := db'.orders[|db.orders|];
      && o.items == ReserveCart(db.ledger.stocks, db.activeWarehouses, found.items).value.1
      && FromCart(o.items, found.items)
      && o.subtotal == Subtotal(found.subtotal) && o.shipping == shipping && o.tax == 0
      && (discount.None? ==> o.discount == 0 && o.total == Max(0, Subtotal(found.subtotal) + shipping))
    ensures discount.Some? ==>
              (&& discount.value < |db.discounts|
               && var o, h := db'.orders[|db.orders|], Amount(db.discounts[discount.value], found.eligible);
               && 0 < h && o.discount == Round(mode, h)
               && o.total == Round(mode, Max(0, 100 * (o.subtotal + shipping) - h)))
  {
    ReservedFromCart(db.ledger.stocks, db.activeWarehouses, found.items);
  }

  /** Which query of the cart decides what: the first the subtotal, the second the items, the third the discount's
      minimum and the last its amount. */
  lemma {:induction false} ReadsUsed(
    db: Db, user: nat, found: CartReads, discount: Option<nat>, shipping: nat, now: int, mode: Rounding, db': Db,
    k: nat)
    requires CreateOrder(db, user, found, discount, shipping, now, mode) == Ok(db')
    ensures |db'.orders| == |db.orders| + 1
    ensures
      var o := db'.orders[|db.orders|];
      && o.user == user && o.subtotal == Subtotal(found.subtotal) && |o.items| == |found.items|
      && (k < |found.items| ==> o.items[k].warehouse.Some?
                                && Becomes(found.items[k], o.items[k], o.items[k].warehouse.value))
    ensures discount.Some? ==> Admits(db, discount.value, user, found.floor, found.eligible, now)
  {
    CreatedIs(db, user, found, discount, shipping, now, mode, db');
    if discount.Some? {
      DiscountAdmittedExactly(db, discount.value, user, found.floor, found.eligible, now);
      CheckedIs(db, user, found, discount.value, shipping, now, mode, db');
    }
  }

  lemma {:induction false} CheckedIs(
    db: Db, user: nat, found: CartReads, d: nat, shipping: nat, now: int, mode: Rounding, db': Db)
    requires CreateOrder(db, user, found, Some(d), shipping, now, mode) == Ok(db')
    ensures |db'.orders| == |db.orders| + 1 && db'.orders[|db.orders|].user == user
    ensures CheckReads(db, d, user, found.floor, found.eligible, now).Ok?
  {
  }

  /** Exactly when the order's subtotal is the sum of its items, whatever commits meanwhile: when the requests in
      the gap between the two queries change the cart's worth by nothing in all. They make the whole difference. */
  lemma {:induction false} SubtotalExactly(
    db: Db, user: nat, g: Gaps, discount: Option<nat>, shipping: nat, now: int, mode: Rounding, db': Db)
    requires CreateAmid(db, user, g, discount, shipping, now, mode) == Ok(db')
    ensures |db'.orders| == |MomentsOf(db, g).end.orders| + 1
    ensures
      var m := MomentsOf(db, g);
      var o := db'.orders[|m.end.orders|];
      && Sum(o.items, ITEM_TOTAL) - o.subtotal == Changes(m.subtotal, g.items, user, LINE_TOTAL)
      && (o.subtotal == Sum(o.items, ITEM_TOTAL) <==> Changes(m.subtotal, g.items, user, LINE_TOTAL) == 0)
  {
    var m := MomentsOf(db, g);
    CreatedIs(m.end, user, Found(m, user), discount, shipping, now, mode, db');
    ChangesAddUp(m.subtotal, g.items, user, LINE_TOTAL);
    SumPointwise(db'.orders[|m.end.orders|].items, ITEM_TOTAL, CartOf(m.items, user), LINE_TOTAL);
  }

  /** The part of a line's value that a discount applies to. */
  function EligibleValue(d: Discount): CartItem -> int {
    if d.products == {} && d.categories == {} then LINE_TOTAL else TargetTotal(d)
  }

  /** What becomes eligible, on balance, between the query for the subtotal and the one for the amount. */
  function EligibleChanges(db: Db, g: Gaps, user: nat, d: Discount): int {
    var m, f := MomentsOf(db, g), EligibleValue(d);
    Changes(m.subtotal, g.items, user, f) + Changes(m.items, g.stock, user, f)
    + Changes(m.stock, g.floor, user, f) + Changes(m.floor, g.eligible, user, f)
  }

  lemma {:induction false} EligibleAtAmount(db: Db, g: Gaps, user: nat, d: Discount)
    ensures EligibleSubtotal(d, CartOf(MomentsOf(db, g).eligible, user))
            == EligibleSubtotal(d, CartOf(MomentsOf(db, g).subtotal, user)) + EligibleChanges(db, g, user, d)
  {
    var m, f := MomentsOf(db, g), EligibleValue(d);
    ChangesAddUp(m.subtotal, g.items, user, f);
    ChangesAddUp(m.items, g.stock, user, f);
    ChangesAddUp(m.stock, g.floor, user, f);
    ChangesAddUp(m.floor, g.eligible, user, f);
  }

  lemma {:induction false} RoundWithin(mode: Rounding, h: int, s: int)
    ensures Round(mode, h) <= s <==> h < 100 * s + 50 || (h == 100 * s + 50 && mode.HalfEven? && s % 2 == 0)
  {
    var k, r := h / 100, h % 100;
    assert h == 100 * k + r;
  }

  /** Exactly when the stored discount is within the stored subtotal s: when the exact discount on what was
      eligible at the subtotal's query, plus what became eligible since, rounds to at most s. The total's clamp at
      zero is needed exactly when that amount exceeds s and the shipping. */
  lemma {:induction false} DiscountWithinExactly(
    db: Db, user: nat, g: Gaps, d: nat, shipping: nat, now: int, mode: Rounding, db': Db)
    requires CreateAmid(db, user, g, Some(d), shipping, now, mode) == Ok(db')
    ensures |db'.orders| == |MomentsOf(db, g).end.orders| + 1 && d < |MomentsOf(db, g).end.discounts|
    ensures
      var m := MomentsOf(db, g);
      var o, x := db'.orders[|m.end.orders|], m.end.discounts[d];
      var s := Subtotal(CartOf(m.subtotal, user));
      var h := AmountOf(x, EligibleSubtotal(x, CartOf(m.subtotal, user)) + EligibleChanges(db, g, user, x));
      && o.subtotal == s && o.discount == Round(mode, h)
      && (o.discount <= s <==> h < 100 * s + 50 || (h == 100 * s + 50 && mode.HalfEven? && s % 2 == 0))
      && o.total == Round(mode, if 100 * (s + shipping) < h then 0 else 100 * (s + shipping) - h)
  {
    var m := MomentsOf(db, g);
    var found := Found(m, user);
    FoundDiscount(m.end, user, found, d, shipping, now, mode, db');
    EligibleAtAmount(db, g, user, m.end.discounts[d]);
    assert found.subtotal == CartOf(m.subtotal, user) && found.eligible == CartOf(m.eligible, user);
  }

  lemma {:induction false} FoundDiscount(
    db: Db, user: nat, found: CartReads, d: nat, shipping: nat, now: int, mode: Rounding, db': Db)
    requires CreateOrder(db, user, found, Some(d), shipping, now, mode) == Ok(db')
    ensures |db'.orders| == |db.orders| + 1 && d < |db.discounts|
    ensures
      var o, s := db'.orders[|db.orders|], Subtotal(found.subtotal);
      var h := AmountOf(db.discounts[d], EligibleSubtotal(db.discounts[d], found.eligible));
      && o.subtotal == s && o.discount == Round(mode, h)
      && (o.discount <= s <==> h < 100 * s + 50 || (h == 100 * s + 50 && mode.HalfEven? && s % 2 == 0))
      && o.total == Round(mode, if 100 * (s + shipping) < h then 0 else 100 * (s + shipping) - h)
  {
    CreatedIs(db, user, found, Some(d), shipping, now, mode, db');
    RoundWithin(mode, Amount(db.discounts[d], found.eligible), Subtotal(found.subtotal));
  }

  /** So it is within the subtotal whenever nothing becomes eligible on balance, as in a cart left alone. */
  lemma {:induction false} WithinUnlessAdded(
    db: Db, user: nat, g: Gaps, d: nat, shipping: nat, now: int, mode: Rounding, db': Db)
    requires Inv(db) && CreateAmid(db, user, g, Some(d), shipping, now, mode) == Ok(db')
    requires d < |MomentsOf(db, g).end.discounts|
    requires EligibleChanges(db, g, user, MomentsOf(db, g).end.discounts[d]) <= 0
    ensures
      var m := MomentsOf(db, g);
      |db'.orders| == |m.end.orders| + 1 && db'.orders[|m.end.orders|].discount <= db'.orders[|m.end.orders|].subtotal
  {
    DiscountWithinExactly(db, user, g, d, shipping, now, mode, db');
    var m := MomentsOf(db, g);
    TermsOk(db, g, user, d);
    var x, cart := m.end.discounts[d], CartOf(m.subtotal, user);
    EligibleWithinSubtotal(x, cart);
    AmountWithin(x, EligibleSubtotal(x, cart) + EligibleChanges(db, g, user, x), Subtotal(cart));
  }

  lemma {:induction false} TermsOk(db: Db, g: Gaps, user: nat, d: nat)
    requires Inv(db) && d < |MomentsOf(db, g).end.discounts|
    ensures DiscountFieldsOk(MomentsOf(db, g).end.discounts[d])
    ensures forall k :: 0 <= k < |CartOf(MomentsOf(db, g).subtotal, user)| ==>
              CartItemOk(CartOf(MomentsOf(db, g).subtotal, user)[k])
  {
    MomentsKeep(db, g);
    var m := MomentsOf(db, g);
    assert DiscountOk(m.end.discounts[d], d, m.end.usages);
    assert CartOk(CartOf(m.subtotal, user));
  }

  lemma {:induction false} AmountWithin(d: Discount, eligible: int, s: int)
    requires DiscountFieldsOk(d) && eligible <= s && 0 <= s
    ensures AmountOf(d, eligible) <= 100 * s
  {
    if 0 < eligible && d.kind.Percentage? {
      ProductMonotone(eligible, d.value, 100);
    }
  }

  lemma {:induction false} MomentsKeep(db: Db, g: Gaps)
    requires Inv(db)
    ensures
      var m := MomentsOf(db, g);
      Inv(m.subtotal) && Inv(m.items) && Inv(m.stock) && Inv(m.floor) && Inv(m.eligible) && Inv(m.end)
  {
    var m := MomentsOf(db, g);
    RunKeeps(db, g.subtotal);
    RunKeeps(m.subtotal, g.items);
    RunKeeps(m.items, g.stock);
    RunKeeps(m.stock, g.floor);
    RunKeeps(m.floor, g.eligible);
    RunKeeps(m.eligible, g.clear);
  }

  // ----- What survives a changing cart

  lemma {:induction false} CartRunsKeepTables(db: Db, commands: seq<Command>)
    requires forall c :: c in commands ==> OfCarts(c)
    ensures Run(db, commands) == db.(carts := Run(db, commands).carts)
    decreases |commands|
  {
    if commands != [] {
      CartRunsKeepTables(db, commands[..|commands| - 1]);
      OnlyCarts(Run(db, commands[..|commands| - 1]), commands[|commands| - 1]);
    }
  }

  lemma {:induction false} OnlyCarts(db: Db, c: Command)
    requires OfCarts(c)
    ensures Next(db, c) == db.(carts := Next(db, c).carts)
  {
  }

  /** From the lock of the stock to the end, nothing but carts changes, so that the stock and the discount that
      the transaction uses at its end are those it locked. */
  lemma {:induction false} LockedTablesStay(db: Db, g: Gaps)
    requires GapsOk(g)
    ensures MomentsOf(db, g).end == MomentsOf(db, g).stock.(carts := MomentsOf(db, g).end.carts)
  {
    var m := MomentsOf(db, g);
    CartRunsKeepTables(m.stock, g.floor);
    CartRunsKeepTables(m.floor, g.eligible);
    CartRunsKeepTables(m.eligible, g.clear);
  }

  /** All invariants but those of the last order's own record. */
  ghost predicate OthersOk(db: Db) {
    && LedgerOk(db.ledger) && ReservedIsDemand(db.ledger.stocks, db.orders) && Conserved(db)
    && TransferLegsOk(db.ledger.movements, db.transfers) && TransfersOk(db.transfers)
    && SalesOk(db.ledger.movements, db.payments, db.orders) && PaymentsOk(db.payments, db.orders)
    && DiscountsOk(db.discounts, db.usages, db.orders) && CartsOk(db.carts)
    && forall k :: 0 <= k < |db.orders| - 1 ==> OrderOk(db.orders[k])
  }

  lemma {:induction false} AddedOrderKeeps(db: Db, user: nat, o: Order, rows: seq<Stock>, db': Db)
    requires Inv(db) && db' == db.(ledger := db.ledger.(stocks := rows), orders := db.orders + [o])
    requires PlacedTo(db, db', user, o)
    ensures OthersOk(db')
  {
    ReservationsKeepLedger(db.ledger, rows);
    PlacedKeepsDemand(db.ledger.stocks, rows, db.orders, o);
    NewOrderKeepsPayments(db.payments, db.orders, o);
    OrdersKeepDiscounts(db.discounts, db.usages, db.orders, db'.orders);
    assert forall k :: 0 <= k < |db.payments| ==> PaymentOk(db.payments[k], db.orders);
    SameSuccessesKeepSales(db.ledger.movements, db.payments, db.orders, db.payments, db'.orders);
    forall x: nat ensures Balanced(db', x) {
      assert Balanced(db, x);
      ReservationsKeepUnits(db.ledger.stocks, rows, x);
      SumAppend(db.orders, o, SoldOf(x));
    }
  }

  lemma {:induction false} UsedKeeps(db: Db, d: nat, user: nat, found: CartReads, now: int, o: Order, amount: int)
    requires DiscountsOk(db.discounts, db.usages, db.orders) && PaymentsOk(db.payments, db.orders)
    requires CheckReads(db, d, user, found.floor, found.eligible, now).Ok?
    requires o.user == user && o.discount == amount && !o.status.Cancelled?
    ensures DiscountsOk(db.discounts[d := db.discounts[d].(usedCount := db.discounts[d].usedCount + 1)],
                        db.usages[|db.orders| := Usage(d, user, amount)], db.orders + [o])
  {
    FreshOrder(db);
    OrdersKeepDiscounts(db.discounts, db.usages, db.orders, db.orders + [o]);
    UseKeepsDiscounts(db.discounts, db.usages, db.orders + [o], d, |db.orders|, Usage(d, user, amount));
  }

  /** The tables that CreateOrder leaves. */
  lemma {:induction false} CreatedTables(
    db: Db, user: nat, found: CartReads, discount: Option<nat>, shipping: nat, now: int, mode: Rounding, db': Db)
    requires CreateOrder(db, user, found, discount, shipping, now, mode) == Ok(db')
    ensures |db'.orders| == |db.orders| + 1 && ReserveCart(db.ledger.stocks, db.activeWarehouses, found.items).Ok?
    ensures
      var o, reserved := db'.orders[|db.orders|], ReserveCart(db.ledger.stocks, db.activeWarehouses, found.items).value;
      && db' == db.(ledger := db.ledger.(stocks := reserved.0), orders := db.orders + [o],
                    discounts := db'.discounts, usages := db'.usages, carts := db.carts[user := []])
      && o.items == reserved.1 && o.user == user && o.status.PendingPayment? && o.payment.Unpaid?
      && (discount.None? ==> db'.discounts == db.discounts && db'.usages == db.usages)
      && (discount.Some? ==>
            && CheckReads(db, discount.value, user, found.floor, found.eligible, now).Ok?
            && db'.discounts == db.discounts[discount.value :=
                 db.discounts[discount.value].(usedCount := db.discounts[discount.value].usedCount + 1)]
            && db'.usages == db.usages[|db.orders| := Usage(discount.value, user, o.discount)])
  {
  }

  /** Whatever commits meanwhile, a checkout keeps every invariant but the new order's own money and goods:
      ledger, reservations, conservation, payments, and the discount's counters and limits. */
  lemma {:induction false} AmidKeepsOthers(
    db: Db, user: nat, g: Gaps, discount: Option<nat>, shipping: nat, now: int, mode: Rounding, db': Db)
    requires Inv(db) && CreateAmid(db, user, g, discount, shipping, now, mode) == Ok(db')
    ensures OthersOk(db')
  {
    MomentsKeep(db, g);
    var m := MomentsOf(db, g);
    assert CartOk(CartOf(m.items, user));
    CreatedKeeps(m.end, user, Found(m, user), discount, shipping, now, mode, db');
  }

  lemma {:induction false} CreatedKeeps(
    db: Db, user: nat, found: CartReads, discount: Option<nat>, shipping: nat, now: int, mode: Rounding, db': Db)
    requires Inv(db) && CartOk(found.items)
    requires CreateOrder(db, user, found, discount, shipping, now, mode) == Ok(db')
    ensures OthersOk(db')
  {
    CreatedTables(db, user, found, discount, shipping, now, mode, db');
    var o, rows := db'.orders[|db.orders|], db'.ledger.stocks;
    ReservedKeeps(db, user, found.items, o, rows);
    UsesKeep(db, user, found, discount, now, o, db'.discounts, db'.usages);
    CartsKeep(db.carts, user);
    OthersMoveOn(db.(ledger := db.ledger.(stocks := rows), orders := db.orders + [o]), db');
  }

  lemma {:induction false} CartsKeep(carts: map<nat, seq<CartItem>>, user: nat)
    requires CartsOk(carts)
    ensures CartsOk(carts[user := []])
  {
  }

  lemma {:induction false} ReservedKeeps(db: Db, user: nat, cart: seq<CartItem>, o: Order, rows: seq<Stock>)
    requires Inv(db) && CartOk(cart)
    requires ReserveCart(db.ledger.stocks, db.activeWarehouses, cart) == Ok((rows, o.items))
    requires o.user == user && o.status.PendingPayment? && o.payment.Unpaid?
    ensures OthersOk(db.(ledger := db.ledger.(stocks := rows), orders := db.orders + [o]))
  {
    QuantitiesPositive(cart);
    ReserveCartEffect(db.ledger.stocks, db.activeWarehouses, cart);
    AddedOrderKeeps(db, user, o, rows, db.(ledger := db.ledger.(stocks := rows), orders := db.orders + [o]));
  }

  lemma {:induction false} UsesKeep(
    db: Db, user: nat, found: CartReads, discount: Option<nat>, now: int, o: Order,
    ds: seq<Discount>, usages: map<nat, Usage>)
    requires DiscountsOk(db.discounts, db.usages, db.orders) && PaymentsOk(db.payments, db.orders)
    requires o.user == user && !o.status.Cancelled?
    requires discount.None? ==> ds == db.discounts && usages == db.usages
    requires discount.Some? ==>
      && CheckReads(db, discount.value, user, found.floor, found.eligible, now).Ok?
      && ds == db.discounts[discount.value :=
                 db.discounts[discount.value].(usedCount := db.discounts[discount.value].usedCount + 1)]
      && usages == db.usages[|db.orders| := Usage(discount.value, user, o.discount)]
    ensures DiscountsOk(ds, usages, db.orders + [o])
  {
    if discount.Some? {
      UsedKeeps(db, discount.value, user, found, now, o, o.discount);
    } else {
      FreshOrder(db);
      OrdersKeepDiscounts(db.discounts, db.usages, db.orders, db.orders + [o]);
    }
  }

  lemma {:induction false} OthersMoveOn(db: Db, db': Db)
    requires OthersOk(db)
    requires db' == db.(discounts := db'.discounts, usages := db'.usages, carts := db'.carts)
    requires DiscountsOk(db'.discounts, db'.usages, db'.orders) && CartsOk(db'.carts)
    ensures OthersOk(db')
  {
    forall x: nat ensures Balanced(db', x) {
      assert Balanced(db, x);
    }
  }

  // ----- Two checkouts of one cart

  /** Where in the second checkout the first one commits. */
  datatype When = BeforeSubtotal | BeforeItems | BeforeStock

  function GapsAt(when: When, commands: seq<Command>): Gaps {
    match when
    case BeforeSubtotal => NONE.(subtotal := commands)
    case BeforeItems => NONE.(items := commands)
    case BeforeStock => NONE.(stock := commands)
  }

  lemma {:induction false} MomentsAt(db: Db, when: When, c: Command)
    ensures
      var m, after := MomentsOf(db, GapsAt(when, [c])), Next(db, c);
      && m.subtotal == (if when.BeforeSubtotal? then after else db)
      && m.items == (if when.BeforeStock? then db else after)
      && m.stock == m.floor == m.eligible == m.end == after
  {
    RunSnoc(db, [], c);
    assert [] + [c] == [c];
  }

  /** One cart, two checkouts. The first commits while the second, already validated, is under way. The second
      gets the goods as well exactly when it queried the items before that commit and every line still fits some
      row after it; once the items' query finds the emptied cart, the second makes an order without items, billed
      for what the subtotal's query found. With a discount it is always refused. */
  lemma {:induction false} SecondCheckout(
    db: Db, user: nat, first: Command, when: When, discount: Option<nat>, shipping: nat, now: int, mode: Rounding)
    requires Inv(db) && first.DoPlaceOrder? && first.user == user && Perform(db, first).Ok?
    ensures
      var cart, db1 := CartOf(db, user), Next(db, first);
      var r := CreateAmid(db, user, GapsAt(when, [first]), discount, shipping, now, mode);
      && |db1.orders| == |db.orders| + 1
      && (r.Ok? <==> discount.None?
                     && (when.BeforeStock? ==> EachFits(db1.ledger.stocks, db1.activeWarehouses, cart)))
      && (r.Ok? ==>
            && |r.value.orders| == |db.orders| + 2
            && var o := r.value.orders[|db.orders| + 1];
            && o.items == (if when.BeforeStock? then Assigned(db1.ledger.stocks, db1.activeWarehouses, cart) else [])
            && o.subtotal == (if when.BeforeSubtotal? then 0 else Subtotal(cart))
            && o.total == o.subtotal + shipping)
  {
    var cart, db1 := CartOf(db, user), Next(db, first);
    FoundAt(db, user, first, when);
    assert CartOk(cart);
    FirstFitComplete(db1.ledger.stocks, db1.activeWarehouses, cart);
    SubtotalNonNegative(cart);
    var found := Found(MomentsOf(db, GapsAt(when, [first])), user);
    SecondCreates(db1, user, found, discount, shipping, now, mode);
  }

  lemma {:induction false} FoundAt(db: Db, user: nat, first: Command, when: When)
    requires first.DoPlaceOrder? && first.user == user && Perform(db, first).Ok?
    ensures |Next(db, first).orders| == |db.orders| + 1
    ensures
      var m, cart := MomentsOf(db, GapsAt(when, [first])), CartOf(db, user);
      && m.end == Next(db, first)
      && Found(m, user) == CartReads(if when.BeforeSubtotal? then [] else cart,
                                     if when.BeforeStock? then cart else [], [], [])
  {
    MomentsAt(db, when, first);
    CheckoutEmpties(db, first);
    PlaceOrderIs(db, user, first.discount, first.shipping, first.seen, first.now, first.mode);
  }

  /** A transaction that finds the cart empty when it comes to the discount. */
  lemma {:induction false} SecondCreates(
    db: Db, user: nat, found: CartReads, discount: Option<nat>, shipping: nat, now: int, mode: Rounding)
    requires found.eligible == [] && 0 <= Subtotal(found.subtotal)
    ensures
      var r := CreateOrder(db, user, found, discount, shipping, now, mode);
      var reserved := ReserveCart(db.ledger.stocks, db.activeWarehouses, found.items);
      && (r.Ok? <==> discount.None? && reserved.Ok?)
      && (r.Ok? ==>
            && |r.value.orders| == |db.orders| + 1
            && r.value.orders[|db.orders|].items == reserved.value.1
            && r.value.orders[|db.orders|].subtotal == Subtotal(found.subtotal)
            && r.value.orders[|db.orders|].total == Subtotal(found.subtotal) + shipping)
  {
    if discount.Some? && discount.value < |db.discounts| {
      assert Amount(db.discounts[discount.value], []) == 0;
    }
  }
}
