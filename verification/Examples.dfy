/** Runs from the empty shop in which stored money surprises. */
module Examples {
  import opened Common
  import opened Inventory
  import opened Tables
  import opened Pricing
  import opened Checkout
  import opened Operations
  import opened Invariants
  import opened Safety
  import opened Theorems
  import opened Lifecycles

  /** One unit of product 0, at some price, in the cart of user 0. The active warehouse has two of it, and one
      unit of product 1; there is a discount of so many per cent. */
  function Line(price: nat): CartItem {
    CartItem(0, 0, 0, 1, price)
  }

  function Percent(value: nat): Discount {
    Discount(Percentage, value, None, 0, None, None, 0, None, None, true, {}, {})
  }

  const PURCHASES := [DoMoveByHand(0, 0, Purchase, 2, Other("")), DoMoveByHand(1, 0, Purchase, 1, Other(""))]

  function Setup(value: nat, price: nat): seq<Command> {
    [DoSetWarehouse(0, true), DoCreateDiscount(Percent(value))] + PURCHASES + [DoAddToCart(0, true, Line(price))]
  }

  const ROWS := [Stock(0, 0, 2, 0), Stock(1, 0, 1, 0)]

  function Stocked(value: nat, price: nat): Db {
    Db(Ledger(ROWS, [Movement(0, 0, Purchase, 2, 0, 2, Other("")), Movement(1, 0, Purchase, 1, 0, 1, Other(""))]),
       [], [], [], [Percent(value)], map[], map[0 := [Line(price)]], {0})
  }

  /** The same database with nothing in the cart, with the first purchase only, and with none. */
  function Received(value: nat): Db {
    Stocked(value, 0).(carts := map[])
  }

  function HalfReceived(value: nat): Db {
    Opened(value).(ledger := Ledger([Stock(0, 0, 2, 0)], [Movement(0, 0, Purchase, 2, 0, 2, Other(""))]))
  }

  function Opened(value: nat): Db {
    EMPTY.(activeWarehouses := {0}, discounts := [Percent(value)])
  }

  lemma {:induction false} OpensFirst(value: nat)
    requires value <= 100
    ensures Next(Next(EMPTY, DoSetWarehouse(0, true)), DoCreateDiscount(Percent(value))) == Opened(value)
  {
    assert [] + [Percent(value)] == [Percent(value)];
  }

  lemma {:induction false} ReceivesFirst(value: nat)
    ensures Next(Opened(value), PURCHASES[0]) == HalfReceived(value)
  {
    assert WithRow([], 0, 0) == [Stock(0, 0, 0, 0)];
    assert [Stock(0, 0, 0, 0)][0 := Stock(0, 0, 2, 0)] == [Stock(0, 0, 2, 0)];
    var m := Movement(0, 0, Purchase, 2, 0, 2, Other(""));
    assert [] + [m] == [m];
  }

  lemma {:induction false} ReceivesSecond(value: nat)
    ensures Next(HalfReceived(value), PURCHASES[1]) == Received(value)
  {
    var first := Stock(0, 0, 2, 0);
    assert WithRow([first], 1, 0) == [first, Stock(1, 0, 0, 0)];
    assert [first, Stock(1, 0, 0, 0)][1 := Stock(1, 0, 1, 0)] == ROWS;
    var m, n := Movement(0, 0, Purchase, 2, 0, 2, Other("")), Movement(1, 0, Purchase, 1, 0, 1, Other(""));
    assert [m] + [n] == [m, n];
  }

  lemma {:induction false} SumTwo<T>(x: T, y: T, f: T -> int)
    ensures Sum([x, y], f) == f(x) + f(y)
  {
    SumAppend([x], y, f);
    SumAppend([], x, f);
    assert [x] + [y] == [x, y] && [] + [x] == [x];
  }

  lemma {:induction false} AddsTo(db: Db, c: CartItem)
    requires InCart(CartOf(db, 0), c.product) == |CartOf(db, 0)|
    requires 1 <= c.quantity <= Sum(db.ledger.stocks, AvailableOf(c.product))
    ensures Next(db, DoAddToCart(0, true, c)) == db.(carts := db.carts[0 := [c] + CartOf(db, 0)])
  {
  }

  lemma {:induction false} AddsLine(value: nat, price: nat)
    ensures Next(Received(value), DoAddToCart(0, true, Line(price))) == Stocked(value, price)
  {
    SumTwo(Stock(0, 0, 2, 0), Stock(1, 0, 1, 0), AvailableOf(0));
    assert CartOf(Received(value), 0) == [] && [Line(price)] + [] == [Line(price)];
    AddsTo(Received(value), Line(price));
  }

  lemma {:induction false} SetupRuns(value: nat, price: nat)
    requires value <= 100
    ensures Run(EMPTY, Setup(value, price)) == Stocked(value, price)
  {
    var first := [DoSetWarehouse(0, true), DoCreateDiscount(Percent(value))];
    RunSnoc(EMPTY, [], DoSetWarehouse(0, true));
    assert [] + [DoSetWarehouse(0, true)] == [DoSetWarehouse(0, true)];
    RunSnoc(EMPTY, [DoSetWarehouse(0, true)], DoCreateDiscount(Percent(value)));
    assert first == [DoSetWarehouse(0, true)] + [DoCreateDiscount(Percent(value))];
    OpensFirst(value);
    RunSnoc(EMPTY, first, PURCHASES[0]);
    ReceivesFirst(value);
    RunSnoc(EMPTY, first + [PURCHASES[0]], PURCHASES[1]);
    ReceivesSecond(value);
    assert first + [PURCHASES[0]] + [PURCHASES[1]] == first + PURCHASES;
    RunSnoc(EMPTY, first + PURCHASES, DoAddToCart(0, true, Line(price)));
    AddsLine(value, price);
  }

  /** The exact discount on the one line, in hundredths. */
  lemma {:induction false} StockedDiscount(value: nat, price: nat)
    requires 0 < value <= 100 && 0 < price
    ensures Subtotal([Line(price)]) == price
    ensures CheckDiscount(Stocked(value, price), 0, 0, [Line(price)], 0) == Ok(price * value)
  {
    SubtotalOfLine(Line(price));
    assert 0 < price * value;
  }

  lemma {:induction false} SubtotalOfLine(c: CartItem)
    ensures Subtotal([c]) == c.Total()
  {
    SumAppend([], c, LINE_TOTAL);
    assert [] + [c] == [c];
  }

  /** After checkout, with the discount or without: one waiting order, its stored and its recomputed total. */
  lemma {:induction false} StockedCheckout(value: nat, price: nat, discount: Option<nat>, mode: Rounding)
    requires 0 < value <= 100 && (discount.None? || (discount.value == 0 && 0 < price))
    ensures
      var db := Run(EMPTY, Setup(value, price) + [DoPlaceOrder(0, discount, 0, 0, 0, mode)]);
      var h := if discount.Some? then price * value else 0;
      && |db.orders| == 1 && db.payments == []
      && db.orders[0].user == 0 && db.orders[0].status.PendingPayment?
      && db.orders[0].total == Round(mode, 100 * price - h)
      && db.orders[0].ComputedTotal() == price - Round(mode, h)
  {
    SetupRuns(value, price);
    StockedMoney(value, price, discount);
    if discount.Some? {
      StockedDiscount(value, price);
    }
    StockedFits(value, price);
    FirstOrder(Setup(value, price), Stocked(value, price), discount, mode);
  }

  lemma {:induction false} StockedFits(value: nat, price: nat)
    ensures EachFits(Stocked(value, price).ledger.stocks, {0}, [Line(price)])
  {
    assert Fits(ROWS[0], {0}, 0, 1);
  }

  lemma {:induction false} FirstOrder(commands: seq<Command>, db: Db, discount: Option<nat>, mode: Rounding)
    requires db == Run(EMPTY, commands) && db.orders == [] && db.payments == []
    requires 0 in db.carts && db.carts[0] != [] && EachFits(db.ledger.stocks, db.activeWarehouses, db.carts[0])
    requires discount.Some? ==> CheckDiscount(db, discount.value, 0, db.carts[0], 0).Ok?
    ensures
      var db' := Run(EMPTY, commands + [DoPlaceOrder(0, discount, 0, 0, 0, mode)]);
      && |db'.orders| == 1 && db'.payments == []
      && db'.orders[0].user == 0 && db'.orders[0].status.PendingPayment?
      && db'.orders[0].total == Round(mode, 100 * Gross(db, 0, 0) - Taken(db, 0, discount, 0))
      && db'.orders[0].ComputedTotal() == Gross(db, 0, 0) - Round(mode, Taken(db, 0, discount, 0))
  {
    assert Reachable(db);
    CheckoutCompletes(db, 0, discount, 0, 0, 0, mode);
    RunSnoc(EMPTY, commands, DoPlaceOrder(0, discount, 0, 0, 0, mode));
    NextIsPlaced(db, discount, mode);
    ReachableOk(db);
    FirstCheckout(db, discount, mode, Next(db, DoPlaceOrder(0, discount, 0, 0, 0, mode)));
  }

  lemma {:induction false} NextIsPlaced(db: Db, discount: Option<nat>, mode: Rounding)
    requires PlaceOrder(db, 0, discount, 0, 0, 0, mode).Ok?
    ensures PlaceOrder(db, 0, discount, 0, 0, 0, mode) == Ok(Next(db, DoPlaceOrder(0, discount, 0, 0, 0, mode)))
  {
  }

  lemma {:induction false} FirstCheckout(db: Db, discount: Option<nat>, mode: Rounding, db': Db)
    requires RowsOk(db.ledger.stocks) && DiscountsOk(db.discounts, db.usages, db.orders) && CartsOk(db.carts)
    requires db.orders == [] && db.payments == []
    requires PlaceOrder(db, 0, discount, 0, 0, 0, mode) == Ok(db')
    ensures |db'.orders| == 1 && db'.payments == []
    ensures db'.orders[0].user == 0 && db'.orders[0].status.PendingPayment?
    ensures db'.orders[0].total == Round(mode, 100 * Gross(db, 0, 0) - Taken(db, 0, discount, 0))
    ensures db'.orders[0].ComputedTotal() == Gross(db, 0, 0) - Round(mode, Taken(db, 0, discount, 0))
  {
    CheckoutMoney(db, 0, discount, 0, 0, 0, mode, db');
    PlaceOrderEffect(db, 0, discount, 0, 0, 0, mode);
  }

  lemma {:induction false} StockedMoney(value: nat, price: nat, discount: Option<nat>)
    requires 0 < value <= 100 && (discount.None? || (discount.value == 0 && 0 < price))
    ensures Gross(Stocked(value, price), 0, 0) == price
    ensures Taken(Stocked(value, price), 0, discount, 0) == if discount.Some? then price * value else 0
  {
    SubtotalOfLine(Line(price));
    if discount.Some? {
      StockedDiscount(value, price);
    }
  }

  /** Half of 3 is 1.5: the discount and the total are both stored as 2, the payment is for 2, and marking the
      order paid recomputes a total of 1. */
  lemma {:induction false} PaidTotalDiffers(mode: Rounding)
    ensures
      var db := Run(EMPTY, Setup(50, 3) + [DoPlaceOrder(0, Some(0), 0, 0, 0, mode), DoCreatePayment(0, false, 0, 0),
                                        DoMarkSuccess(0, "", false)]);
      && |db.orders| == 1 && |db.payments| == 1
      && db.payments[0].order == 0 && db.payments[0].status.Success? && db.payments[0].amount == 2
      && db.orders[0].payment.PaymentDone? && db.orders[0].total == 1
  {
    var placed := Setup(50, 3) + [DoPlaceOrder(0, Some(0), 0, 0, 0, mode)];
    var asked := placed + [DoCreatePayment(0, false, 0, 0)];
    assert asked + [DoMarkSuccess(0, "", false)]
        == Setup(50, 3) + [DoPlaceOrder(0, Some(0), 0, 0, 0, mode), DoCreatePayment(0, false, 0, 0),
                        DoMarkSuccess(0, "", false)];
    StockedCheckout(50, 3, Some(0), mode);
    PlacedThenAsked(placed, Run(EMPTY, placed), Run(EMPTY, asked));
    AskedThenPaid(asked, Run(EMPTY, asked), Run(EMPTY, asked + [DoMarkSuccess(0, "", false)]));
  }

  lemma {:induction false} PlacedThenAsked(commands: seq<Command>, db: Db, db': Db)
    requires db == Run(EMPTY, commands) && db' == Run(EMPTY, commands + [DoCreatePayment(0, false, 0, 0)])
    requires |db.orders| == 1 && db.payments == []
    requires db.orders[0].user == 0 && db.orders[0].status.PendingPayment? && 0 < db.orders[0].total
    ensures db'.orders == db.orders && |db'.payments| == 1 && db'.payments[0].status.Pending?
    ensures db'.payments[0].order == 0 && db'.payments[0].amount == db.orders[0].total
  {
    assert Reachable(db);
    RunSnoc(EMPTY, commands, DoCreatePayment(0, false, 0, 0));
    AttemptCompletes(db, 0, false, 0, 0);
  }

  lemma {:induction false} AskedThenPaid(commands: seq<Command>, db: Db, db': Db)
    requires db == Run(EMPTY, commands) && db' == Run(EMPTY, commands + [DoMarkSuccess(0, "", false)])
    requires |db.orders| == |db.payments| == 1 && db.payments[0].status.Pending? && db.payments[0].order == 0
    ensures |db'.orders| == |db'.payments| == 1
    ensures db'.payments[0].order == 0 && db'.payments[0].status.Success?
    ensures db'.payments[0].amount == db.payments[0].amount
    ensures db'.orders[0].payment.PaymentDone? && db'.orders[0].total == db.orders[0].ComputedTotal()
  {
    assert Reachable(db);
    RunSnoc(EMPTY, commands, DoMarkSuccess(0, "", false));
    PaymentCompletes(db, 0, "", false);
  }

  /** With the whole amount discounted, or with a product that costs nothing, the total is 0, and whatever
      follows, the order is never paid. */
  lemma {:induction false} FreeOrderStuck(free: bool, mode: Rounding, others: seq<Command>)
    ensures
      var (price, discount) := if free then (0, None) else (3, Some(0));
      var db := Run(EMPTY, Setup(100, price) + [DoPlaceOrder(0, discount, 0, 0, 0, mode)]);
      var db' := Run(db, others);
      && |db.orders| == 1 && db.orders[0].status.PendingPayment? && db.orders[0].total == 0
      && |db'.orders| >= 1 && (db'.orders[0] == db.orders[0] || db'.orders[0].status.Cancelled?)
  {
    var (price, discount) := if free then (0, None) else (3, Some(0));
    StockedCheckout(100, price, discount, mode);
    var commands := Setup(100, price) + [DoPlaceOrder(0, discount, 0, 0, 0, mode)];
    RunsAreSafe(commands);
    FreeOrderNeverPaid(Run(EMPTY, commands), others, 0);
  }
}
