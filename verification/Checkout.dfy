/** The reservation loop of checkout: first fit over the stock rows, one cart line at a time. */
module Checkout {
  import opened Common
  import opened Inventory
  import opened Reservations
  import opened Tables
  import opened Pricing

  predicate Fits(s: Stock, active: set<nat>, p: nat, q: int) {
    s.product == p && s.warehouse in active && q <= s.Available()
  }

  /** The lowest key of an active row of the product with enough available units, or the table's length. */
  function FirstFit(stocks: seq<Stock>, active: set<nat>, p: nat, q: int): (r: nat)
    ensures r <= |stocks|
    ensures r < |stocks| ==> Fits(stocks[r], active, p, q)
    ensures forall j :: 0 <= j < r ==> !Fits(stocks[j], active, p, q)
  {
    if stocks == [] then 0
    else
      var r := FirstFit(stocks[..|stocks| - 1], active, p, q);
      if r < |stocks| - 1 then r
      else if Fits(stocks[|stocks| - 1], active, p, q) then |stocks| - 1 else |stocks|
  }

  function ItemFor(c: CartItem, warehouse: nat): Item {
    Item(c.product, c.seller, Some(warehouse), c.quantity, c.unitPrice, c.Total())
  }

  /** Reserve every line of the cart at its first fitting row; the first line without one fails it all. */
  function ReserveCart(stocks: seq<Stock>, active: set<nat>, cart: seq<CartItem>): Result<(seq<Stock>, seq<Item>)>
    decreases |cart|
  {
    if cart == [] then Ok((stocks, []))
    else
      var i := FirstFit(stocks, active, cart[0].product, cart[0].quantity);
      if i == |stocks| then Err(NotEnoughStock)
      else
        var rows :- Reserve(stocks, i, cart[0].quantity);
        var rest :- ReserveCart(rows, active, cart[1..]);
        Ok((rest.0, [ItemFor(cart[0], stocks[i].warehouse)] + rest.1))
  }

  /** The outcome of the rest of a cart, after these items. */
  function Prepend(items: seq<Item>, r: Result<(seq<Stock>, seq<Item>)>): Result<(seq<Stock>, seq<Item>)> {
    if r.Ok? then Ok((r.value.0, items + r.value.1)) else r
  }

  lemma {:induction false} PrependNone(r: Result<(seq<Stock>, seq<Item>)>)
    ensures Prepend([], r) == r
  {
    if r.Ok? {
      assert [] + r.value.1 == r.value.1;
    }
  }

  lemma {:induction false} PrependMore(items: seq<Item>, item: Item, r: Result<(seq<Stock>, seq<Item>)>)
    ensures Prepend(items + [item], r) == Prepend(items, Prepend([item], r))
  {
    if r.Ok? {
      assert (items + [item]) + r.value.1 == items + ([item] + r.value.1);
    }
  }

  function AvailableOf(p: nat): Stock -> int {
    (s: Stock) => if s.product == p then s.Available() else 0
  }

  /** The check made before the transaction: units available over all warehouses together. */
  predicate PreCheck(stocks: seq<Stock>, cart: seq<CartItem>) {
    forall k :: 0 <= k < |cart| ==> cart[k].quantity <= Sum(stocks, AvailableOf(cart[k].product))
  }

  /** Each line alone has an active row that could serve it. */
  predicate EachFits(stocks: seq<Stock>, active: set<nat>, cart: seq<CartItem>) {
    forall k :: 0 <= k < |cart| ==>
      FirstFit(stocks, active, cart[k].product, cart[k].quantity) < |stocks|
  }

  /** The items that checkout makes from a cart. */
  ghost predicate FromCart(items: seq<Item>, cart: seq<CartItem>) {
    |items| == |cart| && forall k :: 0 <= k < |cart| ==>
      items[k].warehouse.Some? && items[k] == ItemFor(cart[k], items[k].warehouse.value)
  }

  /** The items an order gets when every line goes to its first fit in the given stocks. */
  function Assigned(stocks: seq<Stock>, active: set<nat>, cart: seq<CartItem>): (r: seq<Item>)
    requires EachFits(stocks, active, cart)
    ensures |r| == |cart|
  {
    seq(|cart|, k requires 0 <= k < |cart| =>
      ItemFor(cart[k], stocks[FirstFit(stocks, active, cart[k].product, cart[k].quantity)].warehouse))
  }

  // ----- What the loop does to the rows

  lemma {:induction false} ReserveEffect(stocks: seq<Stock>, i: nat, c: CartItem)
    requires RowsOk(stocks) && i < |stocks| && stocks[i].product == c.product
    requires 0 < c.quantity <= stocks[i].Available()
    ensures Reserve(stocks, i, c.quantity).Ok?
    ensures ReservedBy(stocks, Reserve(stocks, i, c.quantity).value, [ItemFor(c, stocks[i].warehouse)])
    ensures RowsOk(Reserve(stocks, i, c.quantity).value)
    ensures Placed(stocks, ItemFor(c, stocks[i].warehouse))
  {
    var item := ItemFor(c, stocks[i].warehouse);
    IndexIsUnique(stocks, i);
    forall j | 0 <= j < |stocks|
      ensures Qty([item], stocks[j]) == if j == i then item.quantity else 0
    {
      QtyOfOne(stocks, item, j);
    }
    assert stocks[i].At(c.product, stocks[i].warehouse);
  }

  lemma {:induction false} ReservedThen(a: seq<Stock>, b: seq<Stock>, c: seq<Stock>, items: seq<Item>)
    requires items != [] && ReservedBy(a, b, [items[0]]) && ReservedBy(b, c, items[1..])
    ensures ReservedBy(a, c, items)
  {
    forall i | 0 <= i < |a|
      ensures Qty(items, a[i]) == Qty([items[0]], a[i]) + Qty(items[1..], b[i])
    {
      SumHead(items, QtyAt(a[i].product, a[i].warehouse));
      SumHead([items[0]], QtyAt(a[i].product, a[i].warehouse));
    }
  }

  /** A successful loop reserves exactly the order's items and keeps every row within its quantity. */
  lemma {:induction false} ReserveCartEffect(stocks: seq<Stock>, active: set<nat>, cart: seq<CartItem>)
    requires RowsOk(stocks) && ReserveCart(stocks, active, cart).Ok?
    requires forall k :: 0 <= k < |cart| ==> 0 < cart[k].quantity
    ensures
      var (rows, items) := ReserveCart(stocks, active, cart).value;
      ReservedBy(stocks, rows, items) && RowsOk(rows) && AllPlaced(stocks, items)
    decreases |cart|
  {
    if cart == [] {
      assert ReserveCart(stocks, active, cart).value == (stocks, []);
      assert forall i :: 0 <= i < |stocks| ==> Qty([], stocks[i]) == 0;
    } else {
      var c := cart[0];
      var i := FirstFit(stocks, active, c.product, c.quantity);
      ReserveEffect(stocks, i, c);
      var b := Reserve(stocks, i, c.quantity).value;
      ReserveCartEffect(b, active, cart[1..]);
      var rest := ReserveCart(b, active, cart[1..]).value;
      var items := [ItemFor(c, stocks[i].warehouse)] + rest.1;
      assert items[0] == ItemFor(c, stocks[i].warehouse) && items[1..] == rest.1;
      ReservedThen(stocks, b, rest.0, items);
      PlacedAfter(b, stocks, rest.1);
    }
  }

  // ----- Completeness of first fit

  /** Reserving units of one product does not move the first fit of another. */
  lemma {:induction false} OtherProductUnmoved(
    stocks: seq<Stock>, active: set<nat>, i: nat, q: int, p: nat, need: int)
    requires i < |stocks| && Reserve(stocks, i, q).Ok? && stocks[i].product != p
    ensures FirstFit(Reserve(stocks, i, q).value, active, p, need) == FirstFit(stocks, active, p, need)
  {
    var b := Reserve(stocks, i, q).value;
    var r, r' := FirstFit(stocks, active, p, need), FirstFit(b, active, p, need);
    assert forall j :: 0 <= j < |stocks| ==> Fits(b[j], active, p, need) == Fits(stocks[j], active, p, need);
    assert r < |stocks| ==> Fits(b[r], active, p, need);
    assert r' < |stocks| ==> Fits(stocks[r'], active, p, need);
  }

  lemma {:induction false} OthersUnmoved(stocks: seq<Stock>, active: set<nat>, cart: seq<CartItem>, i: nat)
    requires cart != [] && (forall k :: 0 < k < |cart| ==> cart[k].product != cart[0].product)
    requires i < |stocks| && stocks[i].product == cart[0].product && Reserve(stocks, i, cart[0].quantity).Ok?
    ensures forall k :: 0 <= k < |cart| - 1 ==>
              FirstFit(Reserve(stocks, i, cart[0].quantity).value, active, cart[1..][k].product, cart[1..][k].quantity)
              == FirstFit(stocks, active, cart[1..][k].product, cart[1..][k].quantity)
  {
    forall k | 0 <= k < |cart| - 1
      ensures FirstFit(Reserve(stocks, i, cart[0].quantity).value, active, cart[1..][k].product, cart[1..][k].quantity)
              == FirstFit(stocks, active, cart[1..][k].product, cart[1..][k].quantity)
    {
      assert cart[1..][k] == cart[k + 1];
      OtherProductUnmoved(stocks, active, i, cart[0].quantity, cart[k + 1].product, cart[k + 1].quantity);
    }
  }

  /** With each product once in the cart, the item-by-item loop succeeds iff every line alone fits some
      active row of the starting stocks, and it then takes each line's lowest such row. */
  lemma {:induction false} FirstFitComplete(stocks: seq<Stock>, active: set<nat>, cart: seq<CartItem>)
    requires CartOk(cart)
    ensures ReserveCart(stocks, active, cart).Ok? <==> EachFits(stocks, active, cart)
    ensures EachFits(stocks, active, cart) ==>
              ReserveCart(stocks, active, cart).value.1 == Assigned(stocks, active, cart)
    decreases |cart|
  {
    if cart != [] {
      var c := cart[0];
      var i := FirstFit(stocks, active, c.product, c.quantity);
      assert CartItemOk(c);
      if i < |stocks| {
        var b := Reserve(stocks, i, c.quantity).value;
        OthersUnmoved(stocks, active, cart, i);
        FirstFitComplete(b, active, cart[1..]);
        EachFitsTail(stocks, b, active, cart);
        if EachFits(stocks, active, cart) {
          AssignedTail(stocks, b, active, cart);
        }
      }
    }
  }

  lemma {:induction false} EachFitsTail(stocks: seq<Stock>, b: seq<Stock>, active: set<nat>, cart: seq<CartItem>)
    requires cart != [] && |b| == |stocks|
    requires FirstFit(stocks, active, cart[0].product, cart[0].quantity) < |stocks|
    requires forall k :: 0 <= k < |cart| - 1 ==>
               FirstFit(b, active, cart[1..][k].product, cart[1..][k].quantity)
               == FirstFit(stocks, active, cart[1..][k].product, cart[1..][k].quantity)
    ensures EachFits(stocks, active, cart) <==> EachFits(b, active, cart[1..])
  {
    if EachFits(b, active, cart[1..]) {
      forall k | 0 < k < |cart|
        ensures FirstFit(stocks, active, cart[k].product, cart[k].quantity) < |stocks|
      {
        assert cart[1..][k - 1] == cart[k];
      }
    }
  }

  lemma {:induction false} AssignedTail(stocks: seq<Stock>, b: seq<Stock>, active: set<nat>, cart: seq<CartItem>)
    requires cart != [] && SameRows(stocks, b)
    requires EachFits(stocks, active, cart) && EachFits(b, active, cart[1..])
    requires forall k :: 0 <= k < |cart| - 1 ==>
               FirstFit(b, active, cart[1..][k].product, cart[1..][k].quantity)
               == FirstFit(stocks, active, cart[1..][k].product, cart[1..][k].quantity)
    ensures Assigned(stocks, active, cart) ==
            [ItemFor(cart[0], stocks[FirstFit(stocks, active, cart[0].product, cart[0].quantity)].warehouse)]
            + Assigned(b, active, cart[1..])
  {
    var x, y := Assigned(stocks, active, cart), Assigned(b, active, cart[1..]);
    forall k | 0 < k < |cart| ensures x[k] == y[k - 1] {
      assert cart[1..][k - 1] == cart[k];
    }
  }

  /** What a cart line adds to the reservation of the row s when it goes to its first fit. */
  function HeldAt(stocks: seq<Stock>, active: set<nat>, s: Stock): CartItem -> int {
    (c: CartItem) =>
      var r := FirstFit(stocks, active, c.product, c.quantity);
      if r < |stocks| && c.product == s.product && stocks[r].warehouse == s.warehouse then c.quantity else 0
  }

  lemma {:induction false} EachFitsPermuted(
    stocks: seq<Stock>, active: set<nat>, cart: seq<CartItem>, other: seq<CartItem>)
    requires multiset(cart) == multiset(other) && EachFits(stocks, active, cart)
    ensures EachFits(stocks, active, other)
  {
    forall k | 0 <= k < |other|
      ensures FirstFit(stocks, active, other[k].product, other[k].quantity) < |stocks|
    {
      assert other[k] in multiset(other);
      assert other[k] in cart;
    }
  }

  /** Checkout does not depend on the order of the cart's lines: it fails for all orders or for none,
      and it leaves the same stock rows. */
  lemma {:induction false} CartOrderIsIrrelevant(
    stocks: seq<Stock>, active: set<nat>, cart: seq<CartItem>, other: seq<CartItem>)
    requires RowsOk(stocks) && CartOk(cart) && CartOk(other) && multiset(cart) == multiset(other)
    ensures ReserveCart(stocks, active, cart).Ok? <==> ReserveCart(stocks, active, other).Ok?
    ensures ReserveCart(stocks, active, cart).Ok? ==>
              ReserveCart(stocks, active, cart).value.0 == ReserveCart(stocks, active, other).value.0
  {
    FirstFitComplete(stocks, active, cart);
    FirstFitComplete(stocks, active, other);
    if EachFits(stocks, active, cart) {
      EachFitsPermuted(stocks, active, cart, other);
      QuantitiesPositive(cart);
      QuantitiesPositive(other);
      ReserveCartEffect(stocks, active, cart);
      ReserveCartEffect(stocks, active, other);
      var (a, x) := ReserveCart(stocks, active, cart).value;
      var (b, y) := ReserveCart(stocks, active, other).value;
      forall i | 0 <= i < |stocks| ensures a[i] == b[i] {
        AssignedQty(stocks, active, cart, stocks[i]);
        AssignedQty(stocks, active, other, stocks[i]);
        SumPermutation(cart, other, HeldAt(stocks, active, stocks[i]));
      }
    } else if EachFits(stocks, active, other) {
      EachFitsPermuted(stocks, active, other, cart);
    }
  }

  lemma {:induction false} QuantitiesPositive(cart: seq<CartItem>)
    requires CartOk(cart)
    ensures forall k :: 0 <= k < |cart| ==> 0 < cart[k].quantity
  {
    assert forall k :: 0 <= k < |cart| ==> CartItemOk(cart[k]);
  }

  lemma {:induction false} AssignedQty(stocks: seq<Stock>, active: set<nat>, cart: seq<CartItem>, s: Stock)
    requires EachFits(stocks, active, cart)
    ensures Qty(Assigned(stocks, active, cart), s) == Sum(cart, HeldAt(stocks, active, s))
  {
    SumPointwise(Assigned(stocks, active, cart), QtyAt(s.product, s.warehouse), cart, HeldAt(stocks, active, s));
  }

  /** The summed-availability check never turns away a cart that the loop could serve. */
  lemma {:induction false} PreCheckAdmitsServable(stocks: seq<Stock>, active: set<nat>, cart: seq<CartItem>)
    requires RowsOk(stocks) && EachFits(stocks, active, cart)
    ensures PreCheck(stocks, cart)
  {
    forall k | 0 <= k < |cart| ensures cart[k].quantity <= Sum(stocks, AvailableOf(cart[k].product)) {
      SumNonNegative(stocks, AvailableOf(cart[k].product));
      var i := FirstFit(stocks, active, cart[k].product, cart[k].quantity);
      assert AvailableOf(cart[k].product)(stocks[i]) <= Sum(stocks, AvailableOf(cart[k].product));
    }
  }

  /** It is not a sufficient check: two rows of one unit each pass it for two units, and the loop fails. */
  lemma {:induction false} PreCheckIsNotSufficient()
    ensures
      var stocks := [Stock(0, 0, 1, 0), Stock(0, 1, 1, 0)];
      var cart := [CartItem(0, 0, 0, 2, 5)];
      PreCheck(stocks, cart) && ReserveCart(stocks, {0, 1}, cart) == Err(NotEnoughStock)
  {
    var stocks := [Stock(0, 0, 1, 0), Stock(0, 1, 1, 0)];
    SumHead(stocks, AvailableOf(0));
    assert stocks[1..] == [Stock(0, 1, 1, 0)];
    SumHead(stocks[1..], AvailableOf(0));
  }
}
