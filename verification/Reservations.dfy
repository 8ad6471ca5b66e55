/** Loops over the items of an order: reserving, releasing and selling them at their stock rows. */
module Reservations {
  import opened Common
  import opened Inventory

  /** Units of these items held at the row s. */
  function Qty(items: seq<Item>, s: Stock): int {
    Sum(items, QtyAt(s.product, s.warehouse))
  }

  ghost predicate Placed(stocks: seq<Stock>, item: Item) {
    item.warehouse.Some? && 0 < item.quantity && HasRow(stocks, item.product, item.warehouse.value)
  }

  ghost predicate AllPlaced(stocks: seq<Stock>, items: seq<Item>) {
    forall k :: 0 <= k < |items| ==> Placed(stocks, items[k])
  }

  /** Every row's reservation covers what these items hold there. */
  ghost predicate Covered(stocks: seq<Stock>, items: seq<Item>) {
    forall i :: 0 <= i < |stocks| ==> Qty(items, stocks[i]) <= stocks[i].reserved
  }

  /** From a to b the items were reserved, and nothing else changed. */
  ghost predicate ReservedBy(a: seq<Stock>, b: seq<Stock>, items: seq<Item>) {
    && SameRows(a, b)
    && forall i :: 0 <= i < |a| ==>
         b[i].quantity == a[i].quantity && b[i].reserved == a[i].reserved + Qty(items, a[i])
  }

  /** From a to b the items were released, and nothing else changed. */
  ghost predicate ReleasedBy(a: seq<Stock>, b: seq<Stock>, items: seq<Item>) {
    ReservedBy(b, a, items)
  }

  /** From a to b the items left their rows together with their reservations. */
  ghost predicate SoldBy(a: seq<Stock>, b: seq<Stock>, items: seq<Item>) {
    && SameRows(a, b)
    && forall i :: 0 <= i < |a| ==>
         && b[i].quantity == a[i].quantity - Qty(items, a[i])
         && b[i].reserved == a[i].reserved - Qty(items, a[i])
  }

  /** The movements of a sale of these items, without the recorded counters. */
  function SaleLegs(items: seq<Item>): (r: seq<Leg>)
    ensures |r| == |items|
  {
    seq(|items|, k requires 0 <= k < |items| =>
      Leg(Sale, items[k].product, WarehouseOf(items[k]), -items[k].quantity))
  }

  function WarehouseOf(item: Item): nat {
    if item.warehouse.Some? then item.warehouse.value else 0
  }

  lemma {:induction false} QtyNonNegative(stocks: seq<Stock>, items: seq<Item>, s: Stock)
    requires AllPlaced(stocks, items)
    ensures 0 <= Qty(items, s)
  {
    SumNonNegative(items, QtyAt(s.product, s.warehouse));
  }

  lemma {:induction false} PlacedAfter(a: seq<Stock>, b: seq<Stock>, items: seq<Item>)
    requires |a| <= |b| && SameRows(a, b[..|a|]) && AllPlaced(a, items)
    ensures AllPlaced(b, items)
  {
    forall k | 0 <= k < |items| ensures Placed(b, items[k]) {
      SameRowsHasRow(a, b, items[k].product, items[k].warehouse.value);
    }
  }

  lemma {:induction false} QtyOfOne(stocks: seq<Stock>, item: Item, j: nat)
    requires RowsOk(stocks) && item.warehouse.Some? && j < |stocks|
    ensures Qty([item], stocks[j]) ==
            if j == IndexOf(stocks, item.product, item.warehouse.value) then item.quantity else 0
  {
    IndexIsUnique(stocks, j);
    SumHead([item], QtyAt(stocks[j].product, stocks[j].warehouse));
  }

  /** The row an item is held at, and what releasing it there changes. */
  lemma {:induction false} ReleaseItemEffect(stocks: seq<Stock>, item: Item)
    requires RowsOk(stocks) && Placed(stocks, item) && Covered(stocks, [item])
    ensures ReleaseItem(stocks, item).Ok?
    ensures ReleasedBy(stocks, ReleaseItem(stocks, item).value, [item])
  {
    var i := IndexOf(stocks, item.product, item.warehouse.value);
    RowIndex(stocks, item.product, item.warehouse.value);
    forall j | 0 <= j < |stocks|
      ensures Qty([item], stocks[j]) == if j == i then item.quantity else 0
    {
      QtyOfOne(stocks, item, j);
    }
    var b := ReleaseItem(stocks, item).value;
    assert forall j :: 0 <= j < |stocks| ==> Qty([item], b[j]) == Qty([item], stocks[j]);
  }

  lemma {:induction false} CoveredHead(stocks: seq<Stock>, items: seq<Item>)
    requires items != [] && AllPlaced(stocks, items) && Covered(stocks, items)
    ensures Covered(stocks, [items[0]])
  {
    forall i | 0 <= i < |stocks| ensures Qty([items[0]], stocks[i]) <= stocks[i].reserved {
      var f := QtyAt(stocks[i].product, stocks[i].warehouse);
      SumHead(items, f);
      SumHead([items[0]], f);
      SumNonNegative(items[1..], f);
    }
  }

  lemma {:induction false} SoldThen(a: seq<Stock>, b: seq<Stock>, c: seq<Stock>, items: seq<Item>)
    requires items != [] && SoldBy(a, b, [items[0]]) && SoldBy(b, c, items[1..])
    ensures SoldBy(a, c, items)
  {
    forall i | 0 <= i < |a|
      ensures Qty(items, a[i]) == Qty([items[0]], a[i]) + Qty(items[1..], b[i])
    {
      SumHead(items, QtyAt(a[i].product, a[i].warehouse));
      SumHead([items[0]], QtyAt(a[i].product, a[i].warehouse));
    }
  }

  lemma {:induction false} ReleasedThen(a: seq<Stock>, b: seq<Stock>, c: seq<Stock>, items: seq<Item>)
    requires items != [] && ReleasedBy(a, b, [items[0]]) && ReleasedBy(b, c, items[1..])
    ensures ReleasedBy(a, c, items)
  {
    forall i | 0 <= i < |a|
      ensures Qty(items, c[i]) == Qty([items[0]], b[i]) + Qty(items[1..], c[i])
    {
      SumHead(items, QtyAt(a[i].product, a[i].warehouse));
      SumHead([items[0]], QtyAt(a[i].product, a[i].warehouse));
    }
  }

  /** Releasing covered items never fails, and takes exactly them out of the reservations. */
  lemma {:induction false} ReleaseItemsEffect(stocks: seq<Stock>, items: seq<Item>)
    requires RowsOk(stocks) && AllPlaced(stocks, items) && Covered(stocks, items)
    ensures ReleaseItems(stocks, items).Ok?
    ensures ReleasedBy(stocks, ReleaseItems(stocks, items).value, items)
    ensures RowsOk(ReleaseItems(stocks, items).value)
    decreases |items|
  {
    if items != [] {
      CoveredHead(stocks, items);
      ReleaseItemEffect(stocks, items[0]);
      var b := ReleaseItem(stocks, items[0]).value;
      AfterRelease(stocks, b, items);
      ReleaseItemsEffect(b, items[1..]);
      ReleasedThen(stocks, b, ReleaseItems(b, items[1..]).value, items);
    }
  }

  lemma {:induction false} AfterRelease(a: seq<Stock>, b: seq<Stock>, items: seq<Item>)
    requires items != [] && RowsOk(a) && AllPlaced(a, items) && Covered(a, items)
    requires ReleasedBy(a, b, [items[0]])
    ensures RowsOk(b) && AllPlaced(b, items[1..]) && Covered(b, items[1..])
  {
    PlacedAfter(a, b, items);
    forall i | 0 <= i < |b|
      ensures Qty(items[1..], b[i]) <= b[i].reserved && 0 <= b[i].reserved <= b[i].quantity
    {
      var f := QtyAt(b[i].product, b[i].warehouse);
      SumHead(items, f);
      SumHead([items[0]], f);
      SumNonNegative([items[0]], f);
      SumNonNegative(items[1..], f);
      assert Qty(items, a[i]) <= a[i].reserved;
    }
  }

  /** The movement that sells one item. */
  function SaleOf(item: Item, before: int, payment: nat): Movement
    requires item.warehouse.Some?
  {
    Movement(item.product, item.warehouse.value, Sale, -item.quantity,
             before, before - item.quantity, ForPayment(payment))
  }

  /** The sales are recorded after ms: one for each item, in order, all naming the payment. */
  ghost predicate SalesRecorded(ms: seq<Movement>, ms': seq<Movement>, items: seq<Item>, payment: nat)
    requires forall k :: 0 <= k < |items| ==> items[k].warehouse.Some?
  {
    && |ms'| == |ms| + |items|
    && ms'[..|ms|] == ms
    && forall k :: |ms| <= k < |ms'| ==> ms'[k] == SaleOf(items[k - |ms|], ms'[k].before, payment)
  }

  /** Selling a covered item never fails: its reservation is released and one sale is recorded. */
  lemma {:induction false} PayItemEffect(l: Ledger, item: Item, payment: nat)
    requires LedgerOk(l) && Placed(l.stocks, item) && Covered(l.stocks, [item])
    ensures PayItem(l, item, payment).Ok?
    ensures SoldBy(l.stocks, PayItem(l, item, payment).value.stocks, [item])
    ensures SalesRecorded(l.movements, PayItem(l, item, payment).value.movements, [item], payment)
  {
    var w := item.warehouse.value;
    var i := IndexOf(l.stocks, item.product, w);
    RowIndex(l.stocks, item.product, w);
    ReleaseItemEffect(l.stocks, item);
    var mid := ReleaseItem(l.stocks, item).value;
    SameRowsSameIndex(l.stocks, mid, item.product, w);
    assert mid[i].quantity == l.stocks[i].quantity;
    forall j | 0 <= j < |l.stocks|
      ensures Qty([item], l.stocks[j]) == if j == i then item.quantity else 0
    {
      QtyOfOne(l.stocks, item, j);
    }
  }

  lemma {:induction false} ReleaseItemKeepsLedger(l: Ledger, item: Item)
    requires LedgerOk(l) && Placed(l.stocks, item) && Covered(l.stocks, [item])
    ensures ReleaseItem(l.stocks, item).Ok? && LedgerOk(l.(stocks := ReleaseItem(l.stocks, item).value))
  {
    ReleaseItemEffect(l.stocks, item);
    AfterRelease(l.stocks, ReleaseItem(l.stocks, item).value, [item]);
    ReservationsKeepLedger(l, ReleaseItem(l.stocks, item).value);
  }

  lemma {:induction false} PayItemKeepsLedger(l: Ledger, item: Item, payment: nat)
    requires LedgerOk(l) && Placed(l.stocks, item) && Covered(l.stocks, [item])
    requires PayItem(l, item, payment).Ok?
    ensures LedgerOk(PayItem(l, item, payment).value)
  {
    ReleaseItemKeepsLedger(l, item);
    PayItemIs(l, item, payment);
    RecordedKeepsLedger(l.(stocks := ReleaseItem(l.stocks, item).value), PayItem(l, item, payment).value,
                        item.product, item.warehouse.value, Sale, -item.quantity, ForPayment(payment));
  }

  lemma {:induction false} RecordedKeepsLedger(
    l: Ledger, l': Ledger, p: nat, w: nat, kind: MovementType, q: int, ref: Reference)
    requires LedgerOk(l) && Record(l, p, w, kind, q, ref) == Ok(l')
    ensures LedgerOk(l')
  {
    RecordKeepsLedger(l, p, w, kind, q, ref);
  }

  lemma {:induction false} PayItemIs(l: Ledger, item: Item, payment: nat)
    requires PayItem(l, item, payment).Ok?
    ensures item.warehouse.Some? && ReleaseItem(l.stocks, item).Ok?
    ensures PayItem(l, item, payment) ==
            Record(l.(stocks := ReleaseItem(l.stocks, item).value),
                   item.product, item.warehouse.value, Sale, -item.quantity, ForPayment(payment))
  {
  }

  lemma {:induction false} PayItemMovesUnits(l: Ledger, item: Item, payment: nat, p: nat)
    requires LedgerOk(l) && Placed(l.stocks, item) && Covered(l.stocks, [item])
    requires PayItem(l, item, payment).Ok?
    ensures Sum(PayItem(l, item, payment).value.stocks, UnitsOf(p)) == Sum(l.stocks, UnitsOf(p)) - QtyOf(p)(item)
  {
    var mid := ReleaseItem(l.stocks, item).value;
    assert Sum(mid, UnitsOf(p)) == Sum(l.stocks, UnitsOf(p)) by {
      ReleaseItemEffect(l.stocks, item);
      ReservationsKeepUnits(l.stocks, mid, p);
    }
    RecordMovesUnits(l.(stocks := mid), item.product, item.warehouse.value, Sale, -item.quantity,
                     ForPayment(payment), p);
  }

  lemma {:induction false} AfterSale(a: seq<Stock>, b: seq<Stock>, items: seq<Item>)
    requires items != [] && AllPlaced(a, items) && Covered(a, items)
    requires SoldBy(a, b, [items[0]])
    ensures AllPlaced(b, items[1..]) && Covered(b, items[1..])
  {
    PlacedAfter(a, b, items);
    forall i | 0 <= i < |b| ensures Qty(items[1..], b[i]) <= b[i].reserved {
      SumHead(items, QtyAt(b[i].product, b[i].warehouse));
      SumHead([items[0]], QtyAt(b[i].product, b[i].warehouse));
      assert Qty(items, a[i]) <= a[i].reserved;
    }
  }

  lemma {:induction false} SalesThen(
    a: seq<Movement>, b: seq<Movement>, c: seq<Movement>, items: seq<Item>, payment: nat)
    requires items != [] && forall k :: 0 <= k < |items| ==> items[k].warehouse.Some?
    requires SalesRecorded(a, b, [items[0]], payment) && SalesRecorded(b, c, items[1..], payment)
    ensures SalesRecorded(a, c, items, payment)
  {
    assert c[..|a|] == c[..|b|][..|a|];
    assert c[|a|] == c[..|b|][|a|] == b[|a|];
  }

  /** Selling covered items never fails and moves exactly them: out of the reservations, out of the
      rows, and into the ledger as one sale each. */
  lemma {:induction false} PayItemsEffect(l: Ledger, items: seq<Item>, payment: nat)
    requires LedgerOk(l) && AllPlaced(l.stocks, items) && Covered(l.stocks, items)
    ensures PayItems(l, items, payment).Ok?
    ensures
      var l' := PayItems(l, items, payment).value;
      && SoldBy(l.stocks, l'.stocks, items)
      && SalesRecorded(l.movements, l'.movements, items, payment)
    decreases |items|
  {
    if items != [] {
      CoveredHead(l.stocks, items);
      PayItemEffect(l, items[0], payment);
      PayItemKeepsLedger(l, items[0], payment);
      var l1 := PayItem(l, items[0], payment).value;
      AfterSale(l.stocks, l1.stocks, items);
      PayItemsEffect(l1, items[1..], payment);
      var l2 := PayItems(l1, items[1..], payment).value;
      SoldThen(l.stocks, l1.stocks, l2.stocks, items);
      SalesThen(l.movements, l1.movements, l2.movements, items, payment);
    }
  }

  lemma {:induction false} PayItemsKeepsLedger(l: Ledger, items: seq<Item>, payment: nat)
    requires LedgerOk(l) && AllPlaced(l.stocks, items) && Covered(l.stocks, items)
    ensures PayItems(l, items, payment).Ok? && LedgerOk(PayItems(l, items, payment).value)
    decreases |items|
  {
    if items != [] {
      CoveredHead(l.stocks, items);
      PayItemEffect(l, items[0], payment);
      PayItemKeepsLedger(l, items[0], payment);
      var l1 := PayItem(l, items[0], payment).value;
      AfterSale(l.stocks, l1.stocks, items);
      PayItemsKeepsLedger(l1, items[1..], payment);
    }
  }

  lemma {:induction false} PayItemsMovesUnits(l: Ledger, items: seq<Item>, payment: nat, p: nat)
    requires LedgerOk(l) && AllPlaced(l.stocks, items) && Covered(l.stocks, items)
    ensures PayItems(l, items, payment).Ok?
    ensures Sum(PayItems(l, items, payment).value.stocks, UnitsOf(p)) ==
            Sum(l.stocks, UnitsOf(p)) - Sum(items, QtyOf(p))
    decreases |items|
  {
    if items != [] {
      CoveredHead(l.stocks, items);
      PayItemEffect(l, items[0], payment);
      PayItemKeepsLedger(l, items[0], payment);
      PayItemMovesUnits(l, items[0], payment, p);
      var l1 := PayItem(l, items[0], payment).value;
      AfterSale(l.stocks, l1.stocks, items);
      PayItemsMovesUnits(l1, items[1..], payment, p);
      SumHead(items, QtyOf(p));
    }
  }
}
