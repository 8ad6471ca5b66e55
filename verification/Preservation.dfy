/** Every operation keeps the invariants: first the tables one by one, then the operations. */
module Preservation {
  import opened Common
  import opened Inventory
  import opened Reservations
  import opened Tables
  import opened Pricing
  import opened Checkout
  import opened Operations
  import opened Invariants

  // ----- Demand and units when one order changes

  lemma {:induction false} DemandUpdate(orders: seq<Order>, k: nat, o: Order, s: Stock)
    requires k < |orders|
    ensures Demand(orders[k := o], s) ==
            Demand(orders, s) - PendingAt(s.product, s.warehouse)(orders[k]) + PendingAt(s.product, s.warehouse)(o)
  {
    SumUpdate(orders, k, o, PendingAt(s.product, s.warehouse));
  }

  /** The reservation of a row covers each order that counts on it. */
  lemma {:induction false} DemandCovers(stocks: seq<Stock>, orders: seq<Order>, k: nat)
    requires ReservedIsDemand(stocks, orders) && k < |orders| && orders[k].status.PendingPayment?
    ensures Covered(stocks, orders[k].items)
  {
    forall i | 0 <= i < |stocks| ensures Qty(orders[k].items, stocks[i]) <= stocks[i].reserved {
      var f := PendingAt(stocks[i].product, stocks[i].warehouse);
      forall j | 0 <= j < |orders| ensures 0 <= f(orders[j]) {
        QtyNonNegative(stocks, orders[j].items, stocks[i]);
      }
      SumNonNegative(orders, f);
      assert f(orders[k]) == Qty(orders[k].items, stocks[i]);
    }
  }

  lemma {:induction false} NoRowNoDemand(stocks: seq<Stock>, orders: seq<Order>, p: nat, w: nat)
    requires forall k :: 0 <= k < |orders| ==> AllPlaced(stocks, orders[k].items)
    requires !HasRow(stocks, p, w)
    ensures Sum(orders, PendingAt(p, w)) == 0
  {
    forall k | 0 <= k < |orders| ensures PendingAt(p, w)(orders[k]) == 0 {
      forall j | 0 <= j < |orders[k].items| ensures QtyAt(p, w)(orders[k].items[j]) == 0 {
        assert Placed(stocks, orders[k].items[j]);
      }
      SumZero(orders[k].items, QtyAt(p, w));
    }
    SumZero(orders, PendingAt(p, w));
  }

  /** New rows start empty and quantities may move; the reservations stay in step with the orders. */
  lemma {:induction false} QuantitiesKeepDemand(a: seq<Stock>, b: seq<Stock>, orders: seq<Order>)
    requires ReservedIsDemand(a, orders)
    requires |a| <= |b| && SameRows(a, b[..|a|])
    requires forall i :: 0 <= i < |a| ==> b[i].reserved == a[i].reserved
    requires forall i :: |a| <= i < |b| ==> b[i].reserved == 0 && !HasRow(a, b[i].product, b[i].warehouse)
    ensures ReservedIsDemand(b, orders)
  {
    forall i | 0 <= i < |b| ensures b[i].reserved == Demand(orders, b[i]) {
      if i < |a| {
        assert b[..|a|][i] == b[i];
        assert a[i].reserved == Demand(orders, a[i]);
      } else {
        NoRowNoDemand(a, orders, b[i].product, b[i].warehouse);
      }
    }
    forall k | 0 <= k < |orders| ensures AllPlaced(b, orders[k].items) {
      PlacedAfter(a, b, orders[k].items);
    }
  }

  lemma {:induction false} RecordKeepsDemand(
    l: Ledger, orders: seq<Order>, p: nat, w: nat, kind: MovementType, q: int, ref: Reference)
    requires ReservedIsDemand(l.stocks, orders) && Record(l, p, w, kind, q, ref).Ok?
    ensures ReservedIsDemand(Record(l, p, w, kind, q, ref).value.stocks, orders)
  {
    RecordAtRow(l, IndexOf(l.stocks, p, w), p, w, kind, q, ref);
    RowIndex(l.stocks, p, w);
    QuantitiesKeepDemand(l.stocks, Record(l, p, w, kind, q, ref).value.stocks, orders);
  }

  /** An order whose items and waiting state stay as they were changes no demand. */
  lemma {:induction false} SameItemsKeepDemand(stocks: seq<Stock>, orders: seq<Order>, k: nat, o: Order)
    requires ReservedIsDemand(stocks, orders) && k < |orders|
    requires o.items == orders[k].items && o.status.PendingPayment? == orders[k].status.PendingPayment?
    ensures ReservedIsDemand(stocks, orders[k := o])
  {
    forall i | 0 <= i < |stocks| ensures stocks[i].reserved == Demand(orders[k := o], stocks[i]) {
      DemandUpdate(orders, k, o, stocks[i]);
      assert stocks[i].reserved == Demand(orders, stocks[i]);
    }
  }

  /** An order that stops waiting, with its items taken out of the reservations. */
  lemma {:induction false} SettledKeepsDemand(a: seq<Stock>, b: seq<Stock>, orders: seq<Order>, k: nat, o: Order)
    requires ReservedIsDemand(a, orders) && k < |orders| && SameRows(a, b)
    requires orders[k].status.PendingPayment? && !o.status.PendingPayment? && o.items == orders[k].items
    requires forall i :: 0 <= i < |a| ==> b[i].reserved == a[i].reserved - Qty(o.items, a[i])
    ensures ReservedIsDemand(b, orders[k := o])
  {
    forall i | 0 <= i < |b| ensures b[i].reserved == Demand(orders[k := o], b[i]) {
      DemandUpdate(orders, k, o, b[i]);
      assert a[i].reserved == Demand(orders, a[i]);
    }
    var orders' := orders[k := o];
    assert b[..|a|] == b;
    forall j | 0 <= j < |orders'| ensures AllPlaced(b, orders'[j].items) {
      PlacedAfter(a, b, orders[j].items);
    }
  }

  /** A new waiting order, with its items added to the reservations. */
  lemma {:induction false} PlacedKeepsDemand(a: seq<Stock>, b: seq<Stock>, orders: seq<Order>, o: Order)
    requires ReservedIsDemand(a, orders) && ReservedBy(a, b, o.items)
    requires o.status.PendingPayment? && AllPlaced(a, o.items)
    ensures ReservedIsDemand(b, orders + [o])
  {
    forall i | 0 <= i < |b| ensures b[i].reserved == Demand(orders + [o], b[i]) {
      SumAppend(orders, o, PendingAt(b[i].product, b[i].warehouse));
      assert a[i].reserved == Demand(orders, a[i]);
    }
    assert b[..|a|] == b;
    var orders' := orders + [o];
    forall j | 0 <= j < |orders'| ensures AllPlaced(b, orders'[j].items) {
      PlacedAfter(a, b, orders'[j].items);
    }
  }

  // ----- Units

  lemma {:induction false} ManualAppend(ms: seq<Movement>, ms': seq<Movement>, p: nat)
    requires |ms| <= |ms'| && ms'[..|ms|] == ms
    requires forall k :: |ms| <= k < |ms'| ==> !ms'[k].kind.Manual()
    ensures Sum(ms', ManualOf(p)) == Sum(ms, ManualOf(p))
  {
    assert ms' == ms + ms'[|ms|..];
    SumConcat(ms, ms'[|ms|..], ManualOf(p));
    SumZero(ms'[|ms|..], ManualOf(p));
  }

  // ----- Ledger entries by reference

  lemma {:induction false} LegsConcat(a: seq<Movement>, b: seq<Movement>)
    ensures Legs(a + b) == Legs(a) + Legs(b)
  {
  }

  /** Movements that name no transfer leg leave every transfer's legs as they were. */
  lemma {:induction false} OthersKeepLegs(ms: seq<Movement>, ms': seq<Movement>, transfers: seq<Transfer>)
    requires TransferLegsOk(ms, transfers)
    requires |ms| <= |ms'| && ms'[..|ms|] == ms
    requires forall k :: |ms| <= k < |ms'| ==> !ms'[k].kind.TransferOut? && !ms'[k].kind.TransferIn?
    ensures TransferLegsOk(ms', transfers)
  {
    forall t: nat ensures LegsNamed(ms', t) == LegsNamed(ms, t) {
      assert ms' == ms + ms'[|ms|..];
      FilterConcat(ms, ms'[|ms|..], LegsOf(t));
      FilterNone(ms'[|ms|..], LegsOf(t));
    }
  }

  /** Movements other than sales leave every payment's sales as they were. */
  lemma {:induction false} OthersKeepSales(
    ms: seq<Movement>, ms': seq<Movement>, payments: seq<Payment>, orders: seq<Order>)
    requires SalesOk(ms, payments, orders)
    requires |ms| <= |ms'| && ms'[..|ms|] == ms
    requires forall k :: |ms| <= k < |ms'| ==> !ms'[k].kind.Sale?
    ensures SalesOk(ms', payments, orders)
  {
    forall j: nat ensures SalesNamed(ms', j) == SalesNamed(ms, j) {
      assert ms' == ms + ms'[|ms|..];
      FilterConcat(ms, ms'[|ms|..], SalesOf(j));
      FilterNone(ms'[|ms|..], SalesOf(j));
    }
  }

  /** Changing payments or orders keeps the sales when successes and their orders' items stay. */
  lemma {:induction false} SameSuccessesKeepSales(
    ms: seq<Movement>, ps: seq<Payment>, os: seq<Order>, ps': seq<Payment>, os': seq<Order>)
    requires SalesOk(ms, ps, os)
    requires |os| <= |os'| && forall k :: 0 <= k < |os| ==> os'[k].items == os[k].items
    requires |ps| <= |ps'|
    requires forall k :: 0 <= k < |ps| ==>
               && ps'[k].order == ps[k].order < |os| && ps'[k].status.Success? == ps[k].status.Success?
    requires forall k :: |ps| <= k < |ps'| ==> !ps'[k].status.Success?
    ensures SalesOk(ms, ps', os')
  {
    forall k: nat ensures ExpectedSales(ps', os', k) == ExpectedSales(ps, os, k) {
    }
  }

  lemma {:induction false} SalesNamedAfter(ms: seq<Movement>, ms': seq<Movement>, items: seq<Item>, j: nat, k: nat)
    requires forall i :: 0 <= i < |items| ==> items[i].warehouse.Some?
    requires SalesRecorded(ms, ms', items, j)
    ensures SalesNamed(ms', k) == SalesNamed(ms, k) + if k == j then SaleLegs(items) else []
  {
    var sales := ms'[|ms|..];
    assert ms' == ms + sales;
    FilterConcat(ms, sales, SalesOf(k));
    LegsConcat(Filter(ms, SalesOf(k)), Filter(sales, SalesOf(k)));
    if k == j {
      FilterAll(sales, SalesOf(k));
      assert Legs(sales) == SaleLegs(items);
    } else {
      FilterNone(sales, SalesOf(k));
    }
  }

  /** The sales of one newly successful payment. */
  lemma {:induction false} PaidKeepsSales(
    ms: seq<Movement>, ms': seq<Movement>, ps: seq<Payment>, os: seq<Order>, ps': seq<Payment>, os': seq<Order>, j: nat)
    requires SalesOk(ms, ps, os) && j < |ps| == |ps'| && |os| == |os'|
    requires forall k :: 0 <= k < |os| ==> os'[k].items == os[k].items
    requires !ps[j].status.Success? && ps'[j].status.Success?
    requires forall k :: 0 <= k < |ps| ==>
               && ps'[k].order == ps[k].order < |os| && (k != j ==> ps'[k].status.Success? == ps[k].status.Success?)
    requires forall k :: 0 <= k < |os[ps[j].order].items| ==> os[ps[j].order].items[k].warehouse.Some?
    requires SalesRecorded(ms, ms', os[ps[j].order].items, j)
    ensures SalesOk(ms', ps', os')
  {
    var items := os[ps[j].order].items;
    forall k: nat ensures SalesNamed(ms', k) == ExpectedSales(ps', os', k) {
      SalesNamedAfter(ms, ms', items, j, k);
      assert SalesNamed(ms, k) == ExpectedSales(ps, os, k);
    }
  }

  // ----- Payments

  /** A new pending attempt. */
  lemma {:induction false} AttemptKeepsPayments(ps: seq<Payment>, os: seq<Order>, p: Payment)
    requires PaymentsOk(ps, os) && PaymentOk(p, os) && p.status.Pending?
    requires PendingAttempt(ps, p.order, p.provider) == |ps|
    ensures PaymentsOk(ps + [p], os)
  {
    var ps' := ps + [p];
    forall j, k | 0 <= j < k < |ps'| ensures Distinct(ps'[j], ps'[k]) {
      if k < |ps| {
        assert Distinct(ps[j], ps[k]);
      }
    }
    forall o | 0 <= o < |os| && os[o].payment.PaymentDone? ensures HasSuccess(ps', o, |ps'|) {
      var k :| 0 <= k < |ps| && ps[k].order == o && ps[k].status.Success?;
      assert ps'[k] == ps[k];
    }
  }

  /** A pending or failed attempt that ends without success. */
  lemma {:induction false} EndedKeepsPayments(ps: seq<Payment>, os: seq<Order>, i: nat, s: PaymentStatus)
    requires PaymentsOk(ps, os) && i < |ps| && !ps[i].status.Success? && (s.Failed? || s.PaymentCancelled?)
    ensures PaymentsOk(ps[i := ps[i].(status := s)], os)
  {
    var ps' := ps[i := ps[i].(status := s)];
    forall j, k | 0 <= j < k < |ps'| ensures Distinct(ps'[j], ps'[k]) {
      assert Distinct(ps[j], ps[k]);
    }
    forall o | 0 <= o < |os| && os[o].payment.PaymentDone? ensures HasSuccess(ps', o, |ps'|) {
      var k :| 0 <= k < |ps| && ps[k].order == o && ps[k].status.Success?;
      assert ps'[k] == ps[k];
    }
  }

  /** An order changes without starting or ending its wait for payment. */
  lemma {:induction false} OrderKeepsPayments(ps: seq<Payment>, os: seq<Order>, i: nat, o: Order)
    requires PaymentsOk(ps, os) && i < |os| && o.payment == os[i].payment
    requires !os[i].status.PendingPayment?
    ensures PaymentsOk(ps, os[i := o])
  {
    var os' := os[i := o];
    forall k | 0 <= k < |ps| ensures PaymentOk(ps[k], os') {
      assert PaymentOk(ps[k], os);
    }
    forall j | 0 <= j < |os'| && os'[j].payment.PaymentDone? ensures HasSuccess(ps, j, |ps|) {
      assert os[j].payment.PaymentDone?;
    }
  }

  lemma {:induction false} NewOrderKeepsPayments(ps: seq<Payment>, os: seq<Order>, o: Order)
    requires PaymentsOk(ps, os) && !o.payment.PaymentDone?
    ensures PaymentsOk(ps, os + [o])
  {
    var os' := os + [o];
    forall k | 0 <= k < |ps| ensures PaymentOk(ps[k], os') {
      assert PaymentOk(ps[k], os);
    }
    forall j | 0 <= j < |os'| && os'[j].payment.PaymentDone? ensures HasSuccess(ps, j, |ps|) {
      assert os[j].payment.PaymentDone?;
    }
  }

  /** The order leaves its wait unpaid and its pending attempts are cancelled with it. */
  lemma {:induction false} CancelledKeepsPayments(ps: seq<Payment>, os: seq<Order>, i: nat, o: Order)
    requires PaymentsOk(ps, os) && i < |os| && o.payment == os[i].payment
    ensures PaymentsOk(CancelAttempts(ps, i, |ps|), os[i := o])
  {
    var ps', os' := CancelAttempts(ps, i, |ps|), os[i := o];
    forall k | 0 <= k < |ps'| ensures PaymentOk(ps'[k], os') {
      assert PaymentOk(ps[k], os);
    }
    forall j, k | 0 <= j < k < |ps'| ensures Distinct(ps'[j], ps'[k]) {
      assert Distinct(ps[j], ps[k]);
    }
    forall j | 0 <= j < |os'| && os'[j].payment.PaymentDone? ensures HasSuccess(ps', j, |ps'|) {
      assert os[j].payment.PaymentDone?;
      var k :| 0 <= k < |ps| && ps[k].order == j && ps[k].status.Success?;
      assert ps'[k] == ps[k];
    }
  }

  /** The payments after success of attempt i. */
  function Captured(ps: seq<Payment>, i: nat, reference: string): seq<Payment>
    requires i < |ps|
  {
    CancelAttempts(ps[i := ps[i].(status := Success, reference := reference)], ps[i].order, i)
  }

  lemma {:induction false} CapturedAt(ps: seq<Payment>, i: nat, reference: string, k: nat)
    requires i < |ps| && k < |ps|
    ensures Captured(ps, i, reference)[k] ==
            if k == i then ps[i].(status := Success, reference := reference)
            else if ps[k].order == ps[i].order && ps[k].status.Pending? then ps[k].(status := PaymentCancelled)
            else ps[k]
  {
  }

  /** One attempt succeeds, its order is paid, and the order's other pending attempts are cancelled. */
  lemma {:induction false} SuccessKeepsPayments(ps: seq<Payment>, os: seq<Order>, i: nat, reference: string, o: Order)
    requires PaymentsOk(ps, os) && i < |ps| && ps[i].order < |os|
    requires !HasSuccess(ps, ps[i].order, i) && !ReferenceTaken(ps, ps[i].provider, reference, i)
    requires o.payment.PaymentDone?
    ensures PaymentsOk(Captured(ps, i, reference), os[ps[i].order := o])
  {
    var ps', os' := Captured(ps, i, reference), os[ps[i].order := o];
    forall k | 0 <= k < |ps'| ensures PaymentOk(ps'[k], os') {
      CapturedAt(ps, i, reference, k);
      assert PaymentOk(ps[k], os);
    }
    forall j, k | 0 <= j < k < |ps'| ensures Distinct(ps'[j], ps'[k]) {
      CapturedAt(ps, i, reference, j);
      CapturedAt(ps, i, reference, k);
      assert Distinct(ps[j], ps[k]);
    }
    forall j | 0 <= j < |os'| && os'[j].payment.PaymentDone? ensures HasSuccess(ps', j, |ps'|) {
      CapturedAt(ps, i, reference, i);
      if j != ps[i].order {
        assert os[j].payment.PaymentDone?;
        var k :| 0 <= k < |ps| && ps[k].order == j && ps[k].status.Success?;
        CapturedAt(ps, i, reference, k);
      }
    }
  }

  // ----- Discounts

  lemma {:induction false} UsesWith(usages: map<nat, Usage>, o: nat, u: Usage, d: nat, user: nat)
    requires o !in usages
    ensures |UsesOf(usages[o := u], d)| == |UsesOf(usages, d)| + if u.discount == d then 1 else 0
    ensures |UsesBy(usages[o := u], d, user)| ==
            |UsesBy(usages, d, user)| + if u.discount == d && u.user == user then 1 else 0
  {
    var after := usages[o := u];
    if u.discount == d {
      assert UsesOf(after, d) == UsesOf(usages, d) + {o};
    } else {
      assert UsesOf(after, d) == UsesOf(usages, d);
    }
    if u.discount == d && u.user == user {
      assert UsesBy(after, d, user) == UsesBy(usages, d, user) + {o};
    } else {
      assert UsesBy(after, d, user) == UsesBy(usages, d, user);
    }
  }

  lemma {:induction false} UsesWithout(usages: map<nat, Usage>, o: nat, d: nat, user: nat)
    requires o in usages
    ensures |UsesOf(usages - {o}, d)| == |UsesOf(usages, d)| - if usages[o].discount == d then 1 else 0
    ensures |UsesBy(usages - {o}, d, user)| <= |UsesBy(usages, d, user)|
  {
    var less := usages - {o};
    assert less[o := usages[o]] == usages;
    UsesWith(less, o, usages[o], d, user);
  }

  /** Applying a discount that has uses left counts it and keeps its limits. */
  lemma {:induction false} UseKeepsDiscounts(
    ds: seq<Discount>, usages: map<nat, Usage>, os: seq<Order>, d: nat, o: nat, u: Usage)
    requires DiscountsOk(ds, usages, os) && d < |ds| && o !in usages
    requires UsageOk(u, o, ds, os) && u.discount == d
    requires ds[d].limitTotal.Some? ==> ds[d].usedCount < ds[d].limitTotal.value
    requires ds[d].limitPerUser.Some? ==> |UsesBy(usages, d, u.user)| < ds[d].limitPerUser.value
    ensures DiscountsOk(ds[d := ds[d].(usedCount := ds[d].usedCount + 1)], usages[o := u], os)
  {
    var ds', usages' := ds[d := ds[d].(usedCount := ds[d].usedCount + 1)], usages[o := u];
    forall e | 0 <= e < |ds'| ensures DiscountOk(ds'[e], e, usages') {
      assert DiscountOk(ds[e], e, usages);
      UsesWith(usages, o, u, e, 0);
      forall user: nat ensures |UsesBy(usages', e, user)| ==
          |UsesBy(usages, e, user)| + if u.discount == e && u.user == user then 1 else 0
      {
        UsesWith(usages, o, u, e, user);
      }
    }
    forall x | x in usages' ensures UsageOk(usages'[x], x, ds', os) {
      assert x != o ==> UsageOk(usages[x], x, ds, os);
    }
  }

  /** Removing a usage counts it down: the guard on a positive counter never suppresses that. */
  lemma {:induction false} UndoKeepsDiscounts(ds: seq<Discount>, usages: map<nat, Usage>, os: seq<Order>, o: nat)
    requires DiscountsOk(ds, usages, os) && o in usages
    ensures usages[o].discount < |ds| && 0 < ds[usages[o].discount].usedCount
    ensures
      var d := usages[o].discount;
      DiscountsOk(ds[d := ds[d].(usedCount := ds[d].usedCount - 1)], usages - {o}, os)
  {
    var d := usages[o].discount;
    assert UsageOk(usages[o], o, ds, os);
    assert DiscountOk(ds[d], d, usages);
    assert o in UsesOf(usages, d);
    var ds', usages' := ds[d := ds[d].(usedCount := ds[d].usedCount - 1)], usages - {o};
    forall e | 0 <= e < |ds'| ensures DiscountOk(ds'[e], e, usages') {
      assert DiscountOk(ds[e], e, usages);
      UsesWithout(usages, o, e, 0);
      forall user: nat ensures |UsesBy(usages', e, user)| <= |UsesBy(usages, e, user)| {
        UsesWithout(usages, o, e, user);
      }
    }
    forall x | x in usages' ensures UsageOk(usages'[x], x, ds', os) {
      assert UsageOk(usages[x], x, ds, os);
    }
  }

  /** Orders change without touching the discounts they used. */
  lemma {:induction false} OrdersKeepDiscounts(
    ds: seq<Discount>, usages: map<nat, Usage>, os: seq<Order>, os': seq<Order>)
    requires DiscountsOk(ds, usages, os) && |os| <= |os'|
    requires forall o :: 0 <= o < |os| && o in usages ==>
               os'[o].user == os[o].user && os'[o].discount == os[o].discount && !os'[o].status.Cancelled?
    ensures DiscountsOk(ds, usages, os')
  {
    forall o | o in usages ensures UsageOk(usages[o], o, ds, os') {
      assert UsageOk(usages[o], o, ds, os);
    }
  }

  lemma {:induction false} NewDiscountKeeps(ds: seq<Discount>, usages: map<nat, Usage>, os: seq<Order>, d: Discount)
    requires DiscountsOk(ds, usages, os) && DiscountFieldsOk(d) && d.usedCount == 0
    ensures DiscountsOk(ds + [d], usages, os)
  {
    forall o | o in usages ensures UsageOk(usages[o], o, ds + [d], os) {
      assert UsageOk(usages[o], o, ds, os);
    }
    assert UsesOf(usages, |ds|) == {};
    forall e | 0 <= e < |ds + [d]| ensures DiscountOk((ds + [d])[e], e, usages) {
      if e < |ds| {
        assert DiscountOk(ds[e], e, usages);
      } else {
        forall user: nat ensures |UsesBy(usages, e, user)| == 0 {
          assert UsesBy(usages, e, user) == {};
        }
      }
    }
  }
}
