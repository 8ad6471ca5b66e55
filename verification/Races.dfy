/** Runs from the empty shop in which a cart changes during its own checkout. */
module Races {
  import opened Common
  import opened Inventory
  import opened Reservations
  import opened Tables
  import opened Pricing
  import opened Checkout
  import opened Operations
  import opened Invariants
  import opened Safety
  import opened Theorems
  import opened Rereads
  import Examples

  /** One unit of product 0 at 3 in the cart, and one unit of product 1 at 10 that may be added. */
  const LINE := CartItem(0, 0, 0, 1, 3)
  const OTHER := CartItem(1, 0, 0, 1, 10)

  /** The shop with that cart, two units of product 0 and one of product 1, and a discount of 100 per cent. */
  function Base(): Db {
    Run(EMPTY, Examples.Setup(100, 3))
  }

  ghost predicate IsBase(db: Db) {
    && db.ledger.stocks == [Stock(0, 0, 2, 0), Stock(1, 0, 1, 0)] && db.activeWarehouses == {0}
    && db.orders == [] && db.carts == map[0 := [LINE]]
    && db.discounts == [Examples.Percent(100)] && db.usages == map[] && Inv(db)
  }

  lemma {:induction false} BaseIs()
    ensures IsBase(Base())
  {
    Examples.SetupRuns(100, 3);
    RunsAreSafe(Examples.Setup(100, 3));
  }

  lemma {:induction false} BaseFits(db: Db)
    requires IsBase(db)
    ensures EachFits(db.ledger.stocks, db.activeWarehouses, [LINE])
    ensures EachFits(db.ledger.stocks, db.activeWarehouses, [OTHER, LINE])
  {
    assert Fits(db.ledger.stocks[0], {0}, 0, 1) && Fits(db.ledger.stocks[1], {0}, 1, 1);
  }

  lemma {:induction false} Totals()
    ensures Subtotal([LINE]) == 3 && Subtotal([OTHER, LINE]) == 13
  {
    Examples.SubtotalOfLine(LINE);
    Examples.SumTwo(OTHER, LINE, LINE_TOTAL);
  }

  /** The line can be added. */
  lemma {:induction false} Adds(db: Db)
    requires IsBase(db)
    ensures Next(db, DoAddToCart(0, true, OTHER)) == db.(carts := map[0 := [OTHER, LINE]])
  {
    Examples.SumTwo(Stock(0, 0, 2, 0), Stock(1, 0, 1, 0), AvailableOf(1));
    assert InCart([LINE], 1) == 1;
    Examples.AddsTo(db, OTHER);
    assert [OTHER] + [LINE] == [OTHER, LINE];
  }

  lemma {:induction false} BaseAdmitted(db: Db)
    requires IsBase(db)
    ensures Admitted(db, 0, None, 0) && Admitted(db, 0, Some(0), 0)
  {
    BaseFits(db);
    PreCheckAdmitsServable(db.ledger.stocks, db.activeWarehouses, [LINE]);
    Totals();
  }

  /** A line added between the queries for the subtotal and the items is sold but not billed. */
  lemma {:induction false} AddedLineNotBilled(mode: Rounding)
    ensures
      var db := CheckoutAmid(Base(), 0, GapsAt(BeforeItems, [DoAddToCart(0, true, OTHER)]), None, 0, 0, 0, mode);
      && |db.orders| == 1
      && Sum(db.orders[0].items, ITEM_TOTAL) == 13 && db.orders[0].subtotal == 3 && db.orders[0].total == 3
  {
    BaseIs();
    AddedLine(Base(), mode);
  }

  lemma {:induction false} AddedLine(db: Db, mode: Rounding)
    requires IsBase(db)
    ensures
      var db' := CheckoutAmid(db, 0, GapsAt(BeforeItems, [DoAddToCart(0, true, OTHER)]), None, 0, 0, 0, mode);
      && |db'.orders| == 1
      && Sum(db'.orders[0].items, ITEM_TOTAL) == 13 && db'.orders[0].subtotal == 3 && db'.orders[0].total == 3
  {
    BaseAdmitted(db);
    Adds(db);
    MomentsAt(db, BeforeItems, DoAddToCart(0, true, OTHER));
    BaseFits(db);
    Totals();
    var after := Next(db, DoAddToCart(0, true, OTHER));
    CreatesPlain(after, CartReads([LINE], [OTHER, LINE], [OTHER, LINE], [OTHER, LINE]), mode);
  }

  /** A transaction without a discount that can reserve what it found. */
  lemma {:induction false} CreatesPlain(db: Db, found: CartReads, mode: Rounding)
    requires CartOk(found.items) && EachFits(db.ledger.stocks, db.activeWarehouses, found.items)
    requires 0 <= Subtotal(found.subtotal)
    ensures
      var r := CreateOrder(db, 0, found, None, 0, 0, mode);
      && r.Ok? && |r.value.orders| == |db.orders| + 1
      && r.value.orders[|db.orders|].subtotal == r.value.orders[|db.orders|].total == Subtotal(found.subtotal)
      && Sum(r.value.orders[|db.orders|].items, ITEM_TOTAL) == Subtotal(found.items)
      && |r.value.orders[|db.orders|].items| == |found.items|
  {
    FirstFitComplete(db.ledger.stocks, db.activeWarehouses, found.items);
    var db' := CreateOrder(db, 0, found, None, 0, 0, mode).value;
    CreatedIs(db, 0, found, None, 0, 0, mode, db');
    SumPointwise(db'.orders[|db.orders|].items, ITEM_TOTAL, found.items, LINE_TOTAL);
  }

  /** A cart emptied between these queries is billed without anything sold. */
  lemma {:induction false} EmptiedCartBilled(mode: Rounding)
    ensures
      var db := CheckoutAmid(Base(), 0, GapsAt(BeforeItems, [DoClearCart(0)]), None, 0, 0, 0, mode);
      |db.orders| == 1 && db.orders[0].items == [] && db.orders[0].total == 3
  {
    BaseIs();
    EmptiedCart(Base(), mode);
  }

  lemma {:induction false} EmptiedCart(db: Db, mode: Rounding)
    requires IsBase(db)
    ensures
      var db' := CheckoutAmid(db, 0, GapsAt(BeforeItems, [DoClearCart(0)]), None, 0, 0, 0, mode);
      |db'.orders| == 1 && db'.orders[0].items == [] && db'.orders[0].total == 3
  {
    BaseAdmitted(db);
    MomentsAt(db, BeforeItems, DoClearCart(0));
    Totals();
    CreatesPlain(Next(db, DoClearCart(0)), CartReads([LINE], [], [], []), mode);
  }

  /** A line added just before the query for the discount's amount counts for the discount only: 13 is taken off
      a subtotal of 3, and the total is clamped at 0. */
  lemma {:induction false} DiscountExceedsSubtotal(mode: Rounding)
    ensures
      var g := NONE.(eligible := [DoAddToCart(0, true, OTHER)]);
      var db := CheckoutAmid(Base(), 0, g, Some(0), 0, 0, 0, mode);
      && GapsOk(g) && |db.orders| == 1
      && db.orders[0].subtotal == Sum(db.orders[0].items, ITEM_TOTAL) == 3
      && db.orders[0].discount == 13 && db.orders[0].total == 0
  {
    BaseIs();
    LateLine(Base(), mode);
  }

  lemma {:induction false} LateLine(db: Db, mode: Rounding)
    requires IsBase(db)
    ensures
      var g := NONE.(eligible := [DoAddToCart(0, true, OTHER)]);
      var db' := CheckoutAmid(db, 0, g, Some(0), 0, 0, 0, mode);
      && GapsOk(g) && |db'.orders| == 1
      && db'.orders[0].subtotal == Sum(db'.orders[0].items, ITEM_TOTAL) == 3
      && db'.orders[0].discount == 13 && db'.orders[0].total == 0
  {
    BaseAdmitted(db);
    Adds(db);
    RunSnoc(db, [], DoAddToCart(0, true, OTHER));
    assert [] + [DoAddToCart(0, true, OTHER)] == [DoAddToCart(0, true, OTHER)];
    BaseFits(db);
    CreatesDiscounted(Next(db, DoAddToCart(0, true, OTHER)), mode);
  }

  lemma {:induction false} CreatesDiscounted(db: Db, mode: Rounding)
    requires db.discounts == [Examples.Percent(100)] && db.usages == map[] && db.orders == []
    requires EachFits(db.ledger.stocks, db.activeWarehouses, [LINE])
    ensures
      var r := CreateOrder(db, 0, CartReads([LINE], [LINE], [LINE], [OTHER, LINE]), Some(0), 0, 0, mode);
      && r.Ok? && |r.value.orders| == 1
      && r.value.orders[0].subtotal == Sum(r.value.orders[0].items, ITEM_TOTAL) == 3
      && r.value.orders[0].discount == 13 && r.value.orders[0].total == 0
  {
    Totals();
    FirstFitComplete(db.ledger.stocks, db.activeWarehouses, [LINE]);
    var found := CartReads([LINE], [LINE], [LINE], [OTHER, LINE]);
    assert CheckReads(db, 0, 0, [LINE], [OTHER, LINE], 0) == Ok(1300);
    var db' := CreateOrder(db, 0, found, Some(0), 0, 0, mode).value;
    CreatedIs(db, 0, found, Some(0), 0, 0, mode, db');
    SumPointwise(db'.orders[0].items, ITEM_TOTAL, [LINE], LINE_TOTAL);
  }

  /** One cart of one unit becomes two orders of one unit: the second checkout found the items before the first
      one's commit, and there was another unit. */
  lemma {:induction false} OneCartTwoOrders(mode: Rounding)
    ensures
      var first := DoPlaceOrder(0, None, 0, 0, 0, mode);
      var db := CheckoutAmid(Base(), 0, GapsAt(BeforeStock, [first]), None, 0, 0, 0, mode);
      && |db.orders| == 2 && db.orders[0].items == db.orders[1].items == [ItemFor(LINE, 0)]
      && db.orders[0].total == db.orders[1].total == 3
  {
    BaseIs();
    TwoOrders(Base(), mode);
  }

  lemma {:induction false} TwoOrders(db: Db, mode: Rounding)
    requires IsBase(db)
    ensures
      var first := DoPlaceOrder(0, None, 0, 0, 0, mode);
      var db' := CheckoutAmid(db, 0, GapsAt(BeforeStock, [first]), None, 0, 0, 0, mode);
      && |db'.orders| == 2 && db'.orders[0].items == db'.orders[1].items == [ItemFor(LINE, 0)]
      && db'.orders[0].total == db'.orders[1].total == 3
  {
    var first := DoPlaceOrder(0, None, 0, 0, 0, mode);
    BaseAdmitted(db);
    FirstOrder(db, mode);
    SecondCheckout(db, 0, first, BeforeStock, None, 0, 0, mode);
    Totals();
    var db1 := Next(db, first);
    var db' := CheckoutAmid(db, 0, GapsAt(BeforeStock, [first]), None, 0, 0, 0, mode);
    FoundAt(db, 0, first, BeforeStock);
    CreatedTables(db1, 0, Found(MomentsOf(db, GapsAt(BeforeStock, [first])), 0), None, 0, 0, mode, db');
  }

  lemma {:induction false} FirstOrder(db: Db, mode: Rounding)
    requires IsBase(db)
    ensures
      var first := DoPlaceOrder(0, None, 0, 0, 0, mode);
      var db1 := Next(db, first);
      && Perform(db, first) == Ok(db1) && |db1.orders| == 1
      && db1.orders[0].items == [ItemFor(LINE, 0)] && db1.orders[0].total == 3
      && db1.activeWarehouses == {0} && EachFits(db1.ledger.stocks, {0}, [LINE])
      && Assigned(db1.ledger.stocks, {0}, [LINE]) == [ItemFor(LINE, 0)]
  {
    var first := DoPlaceOrder(0, None, 0, 0, 0, mode);
    BaseAdmitted(db);
    ReservesLine(db.ledger.stocks);
    Totals();
    FirstIsCreated(db, mode);
    CreatedTables(db, 0, Unchanged([LINE]), None, 0, 0, mode, Next(db, first));
    CreatedIs(db, 0, Unchanged([LINE]), None, 0, 0, mode, Next(db, first));
    StillFits([Stock(0, 0, 2, 1), Stock(1, 0, 1, 0)]);
  }

  lemma {:induction false} FirstIsCreated(db: Db, mode: Rounding)
    requires IsBase(db) && Admitted(db, 0, None, 0)
    requires ReserveCart(db.ledger.stocks, db.activeWarehouses, [LINE]).Ok?
    ensures
      var first := DoPlaceOrder(0, None, 0, 0, 0, mode);
      && Perform(db, first) == Ok(Next(db, first))
      && CreateOrder(db, 0, Unchanged([LINE]), None, 0, 0, mode) == Ok(Next(db, first))
  {
  }

  lemma {:induction false} ReservesLine(rows: seq<Stock>)
    requires rows == [Stock(0, 0, 2, 0), Stock(1, 0, 1, 0)]
    ensures ReserveCart(rows, {0}, [LINE]) == Ok(([Stock(0, 0, 2, 1), Stock(1, 0, 1, 0)], [ItemFor(LINE, 0)]))
  {
    assert Fits(rows[0], {0}, 0, 1);
    assert FirstFit(rows, {0}, 0, 1) == 0;
    assert rows[0 := Stock(0, 0, 2, 1)] == [Stock(0, 0, 2, 1), Stock(1, 0, 1, 0)];
    assert [LINE][1..] == [] && [ItemFor(LINE, 0)] + [] == [ItemFor(LINE, 0)];
  }

  lemma {:induction false} StillFits(rows: seq<Stock>)
    requires rows == [Stock(0, 0, 2, 1), Stock(1, 0, 1, 0)]
    ensures EachFits(rows, {0}, [LINE]) && Assigned(rows, {0}, [LINE]) == [ItemFor(LINE, 0)]
  {
    assert Fits(rows[0], {0}, 0, 1);
    assert FirstFit(rows, {0}, 0, 1) == 0;
  }
}
