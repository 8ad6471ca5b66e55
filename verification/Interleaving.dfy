/** Transactions interleaved at their row locks. A lock is held to commit or abort, uncommitted values are
    seen by their transaction only, and the row that checkout picks may come from a stale read. */
module Interleaving {
  import opened Common
  import opened Inventory
  import opened Reservations
  import opened Tables
  import opened Checkout

  /** A committed order: its items, and whether it still waits for payment. */
  datatype Booking = Booking(items: seq<Item>, waiting: bool)

  /** A transaction in flight. A buyer has items for the first lines of its cart, and the rest still to do. */
  datatype Txn =
    | Done
    | Buying(cart: seq<CartItem>, todo: seq<CartItem>, held: seq<Item>)
    | Settling(order: nat, pay: bool, items: seq<Item>, count: nat)
    | Moving(product: nat, warehouse: nat, quantity: int, applied: bool)

  /** The lock on a row: its holder and the value the holder has written. */
  datatype Claim = Claim(owner: nat, value: Stock)

  /** Rows are claimed by their locks, and rows that do not exist yet by their product and warehouse. */
  datatype World = World(
    rows: seq<Stock>, claims: map<nat, Claim>, inserts: map<(nat, nat), nat>,
    orders: seq<Booking>, orderLocks: map<nat, nat>, txns: seq<Txn>)

  datatype Event =
    | BeginBuy(cart: seq<CartItem>)
    | BeginSettle(order: nat, pay: bool)
    | BeginMove(product: nat, warehouse: nat, quantity: int)
    | ReserveNext(txn: nat, row: nat)
    | SettleNext(txn: nat)
    | MoveNext(txn: nat)
    | Commit(txn: nat)
    | Abort(txn: nat)

  predicate Holds(w: World, t: nat, r: nat) {
    r in w.claims && w.claims[r].owner == t
  }

  /** The row can be locked by t: nobody else holds it. */
  predicate Free(w: World, t: nat, r: nat) {
    r in w.claims ==> w.claims[r].owner == t
  }

  /** The row as t sees it under its lock. */
  function Seen(w: World, t: nat, r: nat): Stock
    requires r < |w.rows|
  {
    if Holds(w, t, r) then w.claims[r].value else w.rows[r]
  }

  function Write(w: World, t: nat, r: nat, value: Stock, txn: Txn): World
    requires t < |w.txns|
  {
    w.(claims := w.claims[r := Claim(t, value)], txns := w.txns[t := txn])
  }

  function WithoutOwner(claims: map<nat, Claim>, t: nat): map<nat, Claim> {
    map r | r in claims && claims[r].owner != t :: claims[r]
  }

  function WithoutLocks(locks: map<nat, nat>, t: nat): map<nat, nat> {
    map o | o in locks && locks[o] != t :: locks[o]
  }

  function WithoutInserts(inserts: map<(nat, nat), nat>, t: nat): map<(nat, nat), nat> {
    map k | k in inserts && inserts[k] != t :: inserts[k]
  }

  /** All of t's writes and locks are gone. */
  function Rollback(w: World, t: nat): World
    requires t < |w.txns|
  {
    w.(claims := WithoutOwner(w.claims, t), inserts := WithoutInserts(w.inserts, t),
       orderLocks := WithoutLocks(w.orderLocks, t), txns := w.txns[t := Done])
  }

  /** All of t's writes become the committed rows. */
  function Publish(w: World, t: nat, orders: seq<Booking>): World
    requires t < |w.txns|
  {
    Rollback(w, t).(
      rows := seq(|w.rows|, r requires 0 <= r < |w.rows| => Seen(w, t, r)),
      orders := orders)
  }

  /** The row of the item that t settles next. */
  function NextRow(w: World, t: nat): nat
    requires t < |w.txns| && w.txns[t].Settling? && w.txns[t].count < |w.txns[t].items|
  {
    var item := w.txns[t].items[w.txns[t].count];
    IndexOf(w.rows, item.product, WarehouseOf(item))
  }

  /** Under the lock, the next release, or the sale after it, would be refused. */
  predicate SettleRefused(w: World, t: nat)
    requires t < |w.txns| && w.txns[t].Settling? && w.txns[t].count < |w.txns[t].items|
  {
    var item := w.txns[t].items[w.txns[t].count];
    var r := NextRow(w, t);
    item.warehouse.None? || r == |w.rows| || item.quantity <= 0 ||
    var s := Seen(w, t, r);
    || s.reserved < item.quantity
    || (w.txns[t].pay && (s.quantity - item.quantity < 0 || s.quantity - item.quantity < s.reserved - item.quantity))
  }

  function ReserveStep(w: World, t: nat, r: nat): World
    requires t < |w.txns| && w.txns[t].Buying? && w.txns[t].todo != [] && r < |w.rows|
  {
    var c, s := w.txns[t].todo[0], Seen(w, t, r);
    if c.quantity <= 0 || s.Available() < c.quantity then Rollback(w, t)
    else Write(w, t, r, s.(reserved := s.reserved + c.quantity),
               w.txns[t].(todo := w.txns[t].todo[1..], held := w.txns[t].held + [ItemFor(c, s.warehouse)]))
  }

  function SettleStep(w: World, t: nat): World
    requires t < |w.txns| && w.txns[t].Settling? && w.txns[t].count < |w.txns[t].items|
  {
    if SettleRefused(w, t) then Rollback(w, t)
    else
      var x, r := w.txns[t], NextRow(w, t);
      var s, q := Seen(w, t, r), x.items[x.count].quantity;
      Write(w, t, r, s.(reserved := s.reserved - q, quantity := if x.pay then s.quantity - q else s.quantity),
            x.(count := x.count + 1))
  }

  function MoveStep(w: World, t: nat, r: nat): World
    requires t < |w.txns| && w.txns[t].Moving? && r < |w.rows|
  {
    var x, s := w.txns[t], Seen(w, t, r);
    if x.quantity == 0 || s.quantity + x.quantity < 0 || s.quantity + x.quantity < s.reserved then Rollback(w, t)
    else Write(w, t, r, s.(quantity := s.quantity + x.quantity), x.(applied := true))
  }

  /** A movement to a warehouse without a row for the product: the row is created, for t alone until it commits. */
  function InsertStep(w: World, t: nat): World
    requires t < |w.txns| && w.txns[t].Moving?
  {
    var x := w.txns[t];
    if x.quantity <= 0 then Rollback(w, t)
    else w.(inserts := w.inserts[(x.product, x.warehouse) := t], txns := w.txns[t := x.(applied := true)])
  }

  predicate Inserts(w: World, t: nat, p: nat, x: nat) {
    (p, x) in w.inserts && w.inserts[(p, x)] == t
  }

  function AddRow(w: World, row: Stock): World {
    w.(rows := w.rows + [row])
  }

  function CommitStep(w: World, t: nat): World
    requires t < |w.txns|
  {
    match w.txns[t]
    case Done => w
    case Buying(_, todo, held) =>
      if todo == [] then Publish(w, t, w.orders + [Booking(held, true)]) else w
    case Settling(o, pay, items, count) =>
      if count == |items| && o < |w.orders| then Publish(w, t, w.orders[o := Booking(items, false)]) else w
    case Moving(p, x, q, applied) =>
      if !applied then w
      else if Inserts(w, t, p, x) then AddRow(Publish(w, t, w.orders), Stock(p, x, q, 0))
      else Publish(w, t, w.orders)
  }

  /** One event. An event that is not possible now, or that waits for a lock, changes nothing. */
  function Step(w: World, e: Event): World {
    match e
    case BeginBuy(cart) => w.(txns := w.txns + [Buying(cart, cart, [])])
    case BeginSettle(o, pay) =>
      if o < |w.orders| && o !in w.orderLocks && w.orders[o].waiting
      then w.(orderLocks := w.orderLocks[o := |w.txns|], txns := w.txns + [Settling(o, pay, w.orders[o].items, 0)])
      else w
    case BeginMove(p, x, q) => w.(txns := w.txns + [Moving(p, x, q, false)])
    case ReserveNext(t, r) =>
      if t < |w.txns| && w.txns[t].Buying? && w.txns[t].todo != [] && r < |w.rows| && Free(w, t, r)
         && w.rows[r].product == w.txns[t].todo[0].product
      then ReserveStep(w, t, r) else w
    case SettleNext(t) =>
      if t < |w.txns| && w.txns[t].Settling? && w.txns[t].count < |w.txns[t].items| && Free(w, t, NextRow(w, t))
      then SettleStep(w, t) else w
    case MoveNext(t) =>
      if t < |w.txns| && w.txns[t].Moving? && !w.txns[t].applied then
        var r := IndexOf(w.rows, w.txns[t].product, w.txns[t].warehouse);
        if r < |w.rows| then if Free(w, t, r) then MoveStep(w, t, r) else w
        else if (w.txns[t].product, w.txns[t].warehouse) in w.inserts then w
        else InsertStep(w, t)
      else w
    case Commit(t) => if t < |w.txns| then CommitStep(w, t) else w
    case Abort(t) => if t < |w.txns| then Rollback(w, t) else w
  }

  function Interleave(w: World, events: seq<Event>): World {
    if events == [] then w
    else Step(Interleave(w, events[..|events| - 1]), events[|events| - 1])
  }

  // ----- Invariant

  /** What t has added to the reservation of a row so far. */
  function Booked(x: Txn, s: Stock): int {
    match x
    case Done => 0
    case Buying(_, _, held) => Qty(held, s)
    case Settling(_, _, items, count) => if count <= |items| then -Qty(items[..count], s) else 0
    case Moving(_, _, _, _) => 0
  }

  /** What t has added to the quantity of a row so far. */
  function MovedBy(x: Txn, s: Stock): int {
    match x
    case Done => 0
    case Buying(_, _, _) => 0
    case Settling(_, pay, items, count) => if pay && count <= |items| then -Qty(items[..count], s) else 0
    case Moving(p, w, q, applied) => if applied && s.At(p, w) then q else 0
  }

  function WaitingAt(p: nat, w: nat): Booking -> int {
    (b: Booking) => if b.waiting then Sum(b.items, QtyAt(p, w)) else 0
  }

  function Wanted(orders: seq<Booking>, s: Stock): int {
    Sum(orders, WaitingAt(s.product, s.warehouse))
  }

  ghost predicate Bounded(s: Stock) {
    0 <= s.reserved <= s.quantity
  }

  /** The committed rows match the committed orders. */
  ghost predicate CommittedOk(rows: seq<Stock>, orders: seq<Booking>) {
    && RowsOk(rows)
    && (forall i :: 0 <= i < |rows| ==> rows[i].reserved == Wanted(orders, rows[i]))
    && (forall k :: 0 <= k < |orders| ==> AllPlaced(rows, orders[k].items))
  }

  /** A claimed row is the committed row plus what its holder did; unclaimed rows were not touched. */
  ghost predicate ClaimOk(w: World, t: nat, i: nat)
    requires t < |w.txns| && i < |w.rows|
  {
    var s := w.rows[i];
    if Holds(w, t, i) then
      var v := w.claims[i].value;
      && v.product == s.product && v.warehouse == s.warehouse && Bounded(v)
      && v.reserved == s.reserved + Booked(w.txns[t], s)
      && v.quantity == s.quantity + MovedBy(w.txns[t], s)
    else
      Booked(w.txns[t], s) == 0 && MovedBy(w.txns[t], s) == 0
  }

  /** The items held are those of the cart's first lines, in order, and the other lines are still to do. */
  ghost predicate Bought(cart: seq<CartItem>, todo: seq<CartItem>, held: seq<Item>) {
    |held| <= |cart| && todo == cart[|held|..] && FromCart(held, cart[..|held|])
  }

  /** A settling transaction holds the lock of its order, which still waits. */
  ghost predicate TxnOk(w: World, t: nat)
    requires t < |w.txns|
  {
    match w.txns[t]
    case Done => true
    case Buying(cart, todo, held) => AllPlaced(w.rows, held) && Bought(cart, todo, held)
    case Settling(o, _, items, count) =>
      && o < |w.orders| && w.orders[o] == Booking(items, true)
      && o in w.orderLocks && w.orderLocks[o] == t && count <= |items|
    case Moving(p, x, q, applied) =>
      applied ==> q != 0 && (IndexOf(w.rows, p, x) < |w.rows| || Inserts(w, t, p, x))
  }

  /** A row is created by one movement at a time, and only where there is none. */
  ghost predicate InsertsOk(w: World) {
    forall k :: k in w.inserts ==>
      && w.inserts[k] < |w.txns| && IndexOf(w.rows, k.0, k.1) == |w.rows|
      && w.txns[w.inserts[k]].Moving? && w.txns[w.inserts[k]].applied
      && w.txns[w.inserts[k]].product == k.0 && w.txns[w.inserts[k]].warehouse == k.1
      && 0 < w.txns[w.inserts[k]].quantity
  }

  ghost predicate WorldOk(w: World) {
    && CommittedOk(w.rows, w.orders) && InsertsOk(w)
    && (forall r :: r in w.claims ==> r < |w.rows| && w.claims[r].owner < |w.txns|)
    && (forall t :: 0 <= t < |w.txns| ==> TxnOk(w, t))
    && (forall t, i :: 0 <= t < |w.txns| && 0 <= i < |w.rows| ==> ClaimOk(w, t, i))
  }

  // ----- One transaction writes one row

  /** A write by t at a free row keeps the world when it matches what t did there and nowhere else. */
  lemma {:induction false} WriteKeeps(w: World, t: nat, r: nat, v: Stock, x: Txn)
    requires WorldOk(w) && t < |w.txns| && r < |w.rows| && Free(w, t, r)
    requires v.product == w.rows[r].product && v.warehouse == w.rows[r].warehouse && Bounded(v)
    requires TxnOk(Write(w, t, r, v, x), t) && forall k :: k in w.inserts ==> w.inserts[k] != t
    requires v.reserved - Seen(w, t, r).reserved == Booked(x, w.rows[r]) - Booked(w.txns[t], w.rows[r])
    requires v.quantity - Seen(w, t, r).quantity == MovedBy(x, w.rows[r]) - MovedBy(w.txns[t], w.rows[r])
    requires forall i :: 0 <= i < |w.rows| && i != r ==>
               && Booked(x, w.rows[i]) == Booked(w.txns[t], w.rows[i])
               && MovedBy(x, w.rows[i]) == MovedBy(w.txns[t], w.rows[i])
    ensures WorldOk(Write(w, t, r, v, x))
  {
    var w' := Write(w, t, r, v, x);
    assert ClaimOk(w, t, r);
    forall u, i | 0 <= u < |w'.txns| && 0 <= i < |w'.rows| ensures ClaimOk(w', u, i) {
      assert ClaimOk(w, u, i);
    }
    forall u | 0 <= u < |w'.txns| ensures TxnOk(w', u) {
      assert TxnOk(w, u);
    }
  }

  lemma {:induction false} QtySnoc(items: seq<Item>, item: Item, s: Stock)
    ensures Qty(items + [item], s) == Qty(items, s) + QtyAt(s.product, s.warehouse)(item)
  {
    SumAppend(items, item, QtyAt(s.product, s.warehouse));
  }

  /** One more item is held at its row and nowhere else. */
  lemma {:induction false} HeldMore(rows: seq<Stock>, held: seq<Item>, item: Item, r: nat)
    requires RowsOk(rows) && r < |rows| && item.warehouse.Some? && rows[r].At(item.product, item.warehouse.value)
    ensures forall i :: 0 <= i < |rows| ==>
              Qty(held + [item], rows[i]) == Qty(held, rows[i]) + if i == r then item.quantity else 0
  {
    forall i | 0 <= i < |rows|
      ensures Qty(held + [item], rows[i]) == Qty(held, rows[i]) + if i == r then item.quantity else 0
    {
      QtySnoc(held, item, rows[i]);
      IndexIsUnique(rows, i);
      IndexIsUnique(rows, r);
    }
  }

  lemma {:induction false} BoughtMore(cart: seq<CartItem>, todo: seq<CartItem>, held: seq<Item>, warehouse: nat)
    requires Bought(cart, todo, held) && todo != []
    ensures Bought(cart, todo[1..], held + [ItemFor(todo[0], warehouse)])
  {
    assert cart[..|held| + 1] == cart[..|held|] + [todo[0]];
  }

  lemma {:induction false} ReserveKeeps(w: World, t: nat, r: nat)
    requires WorldOk(w) && t < |w.txns| && w.txns[t].Buying? && w.txns[t].todo != [] && r < |w.rows|
    requires Free(w, t, r) && w.rows[r].product == w.txns[t].todo[0].product
    requires ReserveStep(w, t, r) != Rollback(w, t)
    ensures WorldOk(ReserveStep(w, t, r))
  {
    var c, s := w.txns[t].todo[0], Seen(w, t, r);
    var item := ItemFor(c, s.warehouse);
    var x := w.txns[t].(todo := w.txns[t].todo[1..], held := w.txns[t].held + [item]);
    assert TxnOk(w, t) && ClaimOk(w, t, r);
    assert w.rows[r].At(item.product, s.warehouse);
    HeldMore(w.rows, w.txns[t].held, item, r);
    BoughtMore(w.txns[t].cart, w.txns[t].todo, w.txns[t].held, s.warehouse);
    WriteKeeps(w, t, r, s.(reserved := s.reserved + c.quantity), x);
  }

  /** The row of the next item, what the lock shows there, and why neither the release nor the sale is refused. */
  lemma {:induction false} SettleNeverRefused(w: World, t: nat)
    requires WorldOk(w) && t < |w.txns| && w.txns[t].Settling? && w.txns[t].count < |w.txns[t].items|
    requires Free(w, t, NextRow(w, t))
    ensures !SettleRefused(w, t)
  {
    var x := w.txns[t];
    var item := x.items[x.count];
    assert TxnOk(w, t);
    assert Placed(w.rows, item);
    var r := NextRow(w, t);
    RowIndex(w.rows, item.product, item.warehouse.value);
    assert ClaimOk(w, t, r);
    OrderCovered(w, x.order, r);
    RestCovered(w.rows, x.items, x.count, w.rows[r]);
  }

  /** What is left of the items after the first k still holds the next one. */
  lemma {:induction false} RestCovered(rows: seq<Stock>, items: seq<Item>, k: nat, s: Stock)
    requires k < |items| && AllPlaced(rows, items)
    ensures 0 <= Qty(items[..k], s)
    ensures Qty(items[..k], s) + QtyAt(s.product, s.warehouse)(items[k]) <= Qty(items, s)
  {
    QtySplit(items, k, s);
    QtyNonNegative(rows, items[k + 1..], s);
    QtyNonNegative(rows, items[..k], s);
  }

  lemma {:induction false} QtySplit(items: seq<Item>, k: nat, s: Stock)
    requires k < |items|
    ensures Qty(items, s) == Qty(items[..k], s) + QtyAt(s.product, s.warehouse)(items[k]) + Qty(items[k + 1..], s)
  {
    assert items == (items[..k] + [items[k]]) + items[k + 1..];
    SumConcat(items[..k] + [items[k]], items[k + 1..], QtyAt(s.product, s.warehouse));
    QtySnoc(items[..k], items[k], s);
  }

  /** A committed row's reservation covers the items of each waiting order. */
  lemma {:induction false} OrderCovered(w: World, o: nat, r: nat)
    requires CommittedOk(w.rows, w.orders) && o < |w.orders| && w.orders[o].waiting && r < |w.rows|
    ensures Qty(w.orders[o].items, w.rows[r]) <= w.rows[r].reserved <= w.rows[r].quantity
  {
    var f := WaitingAt(w.rows[r].product, w.rows[r].warehouse);
    forall k | 0 <= k < |w.orders| ensures 0 <= f(w.orders[k]) {
      QtyNonNegative(w.rows, w.orders[k].items, w.rows[r]);
    }
    SumNonNegative(w.orders, f);
    assert f(w.orders[o]) == Qty(w.orders[o].items, w.rows[r]);
  }

  lemma {:induction false} SettleKeeps(w: World, t: nat)
    requires WorldOk(w) && t < |w.txns| && w.txns[t].Settling? && w.txns[t].count < |w.txns[t].items|
    requires Free(w, t, NextRow(w, t))
    ensures WorldOk(SettleStep(w, t))
  {
    SettleNeverRefused(w, t);
    var x, r := w.txns[t], NextRow(w, t);
    var item := x.items[x.count];
    var s := Seen(w, t, r);
    var x' := x.(count := x.count + 1);
    var left := if x.pay then s.quantity - item.quantity else s.quantity;
    var v := s.(reserved := s.reserved - item.quantity, quantity := left);
    assert TxnOk(w, t) && ClaimOk(w, t, r);
    assert x.items[..x.count + 1] == x.items[..x.count] + [item];
    forall i | 0 <= i < |w.rows|
      ensures Qty(x.items[..x.count + 1], w.rows[i])
              == Qty(x.items[..x.count], w.rows[i]) + if i == r then item.quantity else 0
    {
      QtySnoc(x.items[..x.count], item, w.rows[i]);
      IndexIsUnique(w.rows, i);
    }
    WriteKeeps(w, t, r, v, x');
  }

  lemma {:induction false} MoveKeeps(w: World, t: nat, r: nat)
    requires WorldOk(w) && t < |w.txns| && w.txns[t].Moving? && !w.txns[t].applied
    requires r == IndexOf(w.rows, w.txns[t].product, w.txns[t].warehouse) < |w.rows| && Free(w, t, r)
    requires MoveStep(w, t, r) != Rollback(w, t)
    ensures WorldOk(MoveStep(w, t, r))
  {
    var x, s := w.txns[t], Seen(w, t, r);
    assert TxnOk(w, t) && ClaimOk(w, t, r);
    forall i | 0 <= i < |w.rows| && i != r ensures !w.rows[i].At(x.product, x.warehouse) {
      IndexIsUnique(w.rows, i);
    }
    WriteKeeps(w, t, r, s.(quantity := s.quantity + x.quantity), x.(applied := true));
  }

  // ----- Ends of transactions

  lemma {:induction false} RollbackKeeps(w: World, t: nat)
    requires WorldOk(w) && t < |w.txns|
    ensures WorldOk(Rollback(w, t))
  {
    var w' := Rollback(w, t);
    forall u, i | 0 <= u < |w'.txns| && 0 <= i < |w'.rows| ensures ClaimOk(w', u, i) {
      assert ClaimOk(w, u, i);
    }
    forall u | 0 <= u < |w'.txns| ensures TxnOk(w', u) {
      assert TxnOk(w, u);
    }
  }

  /** Publishing t's rows: they change by exactly what t did, and nobody else's claims are affected. */
  lemma {:induction false} PublishKeeps(w: World, t: nat, orders: seq<Booking>)
    requires WorldOk(w) && t < |w.txns|
    requires CommittedOk(Publish(w, t, orders).rows, orders)
    requires forall u :: 0 <= u < |w.txns| && u != t && w.txns[u].Settling? ==>
               w.txns[u].order < |w.orders| <= |orders| && orders[w.txns[u].order] == w.orders[w.txns[u].order]
    ensures WorldOk(Publish(w, t, orders))
  {
    var w' := Publish(w, t, orders);
    PublishedRows(w, t, orders);
    forall u, i | 0 <= u < |w'.txns| && 0 <= i < |w'.rows| ensures ClaimOk(w', u, i) {
      assert ClaimOk(w, u, i) && ClaimOk(w, t, i);
    }
    forall u | 0 <= u < |w'.txns| ensures TxnOk(w', u) {
      assert TxnOk(w, u);
      if u != t && w.txns[u].Buying? {
        assert w'.rows[..|w.rows|] == w'.rows;
        PlacedAfter(w.rows, w'.rows, w.txns[u].held);
      }
      if u != t && w.txns[u].Moving? {
        SameRowsSameIndex(w.rows, w'.rows, w.txns[u].product, w.txns[u].warehouse);
      }
    }
    forall k | k in w'.inserts ensures IndexOf(w'.rows, k.0, k.1) == |w'.rows| {
      SameRowsSameIndex(w.rows, w'.rows, k.0, k.1);
    }
  }

  /** The committed rows after a commit are the rows before it plus what the transaction did. */
  lemma {:induction false} PublishedRows(w: World, t: nat, orders: seq<Booking>)
    requires WorldOk(w) && t < |w.txns|
    ensures
      var rows := Publish(w, t, orders).rows;
      && SameRows(w.rows, rows) && RowsOk(rows)
      && forall i :: 0 <= i < |rows| ==>
           && rows[i].reserved == w.rows[i].reserved + Booked(w.txns[t], w.rows[i])
           && rows[i].quantity == w.rows[i].quantity + MovedBy(w.txns[t], w.rows[i])
  {
    var rows := Publish(w, t, orders).rows;
    forall i | 0 <= i < |rows|
      ensures rows[i].product == w.rows[i].product && rows[i].warehouse == w.rows[i].warehouse && Bounded(rows[i])
      ensures rows[i].reserved == w.rows[i].reserved + Booked(w.txns[t], w.rows[i])
      ensures rows[i].quantity == w.rows[i].quantity + MovedBy(w.txns[t], w.rows[i])
    {
      assert ClaimOk(w, t, i);
      assert rows[i] == Seen(w, t, i);
    }
  }

  lemma {:induction false} CommitBuyKeeps(w: World, t: nat)
    requires WorldOk(w) && t < |w.txns| && w.txns[t].Buying? && w.txns[t].todo == []
    ensures WorldOk(CommitStep(w, t))
    ensures ReservedBy(w.rows, CommitStep(w, t).rows, w.txns[t].held)
  {
    var held := w.txns[t].held;
    var b := Booking(held, true);
    var orders := w.orders + [b];
    PublishedRows(w, t, orders);
    var rows := Publish(w, t, orders).rows;
    assert TxnOk(w, t);
    forall i | 0 <= i < |rows| ensures rows[i].reserved == Wanted(orders, rows[i]) {
      SumAppend(w.orders, b, WaitingAt(rows[i].product, rows[i].warehouse));
      assert w.rows[i].reserved == Wanted(w.orders, w.rows[i]);
    }
    assert rows[..|w.rows|] == rows;
    forall k | 0 <= k < |orders| ensures AllPlaced(rows, orders[k].items) {
      PlacedAfter(w.rows, rows, orders[k].items);
    }
    forall u | 0 <= u < |w.txns| && w.txns[u].Settling?
      ensures w.txns[u].order < |w.orders|
    {
      assert TxnOk(w, u);
    }
    PublishKeeps(w, t, orders);
  }

  /** Two settling transactions never have the same order: one of them holds its lock. */
  lemma {:induction false} OneSettlerPerOrder(w: World, t: nat, u: nat)
    requires WorldOk(w) && t < |w.txns| && u < |w.txns| && t != u
    requires w.txns[t].Settling? && w.txns[u].Settling?
    ensures w.txns[t].order != w.txns[u].order
  {
    assert TxnOk(w, t) && TxnOk(w, u);
  }

  lemma {:induction false} CommitSettleKeeps(w: World, t: nat)
    requires WorldOk(w) && t < |w.txns| && w.txns[t].Settling? && w.txns[t].count == |w.txns[t].items|
    ensures WorldOk(CommitStep(w, t))
    ensures if w.txns[t].pay then SoldBy(w.rows, CommitStep(w, t).rows, w.txns[t].items)
            else ReleasedBy(w.rows, CommitStep(w, t).rows, w.txns[t].items)
  {
    var x := w.txns[t];
    assert TxnOk(w, t);
    assert x.items[..x.count] == x.items;
    var b := Booking(x.items, false);
    var orders := w.orders[x.order := b];
    PublishedRows(w, t, orders);
    var rows := Publish(w, t, orders).rows;
    forall i | 0 <= i < |rows| ensures rows[i].reserved == Wanted(orders, rows[i]) {
      SumUpdate(w.orders, x.order, b, WaitingAt(rows[i].product, rows[i].warehouse));
      assert w.rows[i].reserved == Wanted(w.orders, w.rows[i]);
      assert Qty(x.items, rows[i]) == Qty(x.items, w.rows[i]);
    }
    assert rows[..|w.rows|] == rows;
    forall k | 0 <= k < |orders| ensures AllPlaced(rows, orders[k].items) {
      PlacedAfter(w.rows, rows, w.orders[k].items);
    }
    forall u | 0 <= u < |w.txns| && u != t && w.txns[u].Settling?
      ensures w.txns[u].order < |orders| && orders[w.txns[u].order] == w.orders[w.txns[u].order]
    {
      assert TxnOk(w, u);
      OneSettlerPerOrder(w, t, u);
    }
    PublishKeeps(w, t, orders);
  }

  lemma {:induction false} NoRowAt(rows: seq<Stock>, p: nat, x: nat)
    requires IndexOf(rows, p, x) == |rows|
    ensures forall i :: 0 <= i < |rows| ==> !rows[i].At(p, x)
  {
    forall i | 0 <= i < |rows| ensures !rows[i].At(p, x) {
      if rows[i].At(p, x) {
        IndexIsFirst(rows, i, p, x);
      }
    }
  }

  lemma {:induction false} InsertKeeps(w: World, t: nat)
    requires WorldOk(w) && t < |w.txns| && w.txns[t].Moving? && !w.txns[t].applied && 0 < w.txns[t].quantity
    requires IndexOf(w.rows, w.txns[t].product, w.txns[t].warehouse) == |w.rows|
    requires (w.txns[t].product, w.txns[t].warehouse) !in w.inserts
    ensures WorldOk(InsertStep(w, t))
  {
    var w' := InsertStep(w, t);
    NoRowAt(w.rows, w.txns[t].product, w.txns[t].warehouse);
    forall u, i | 0 <= u < |w'.txns| && 0 <= i < |w'.rows| ensures ClaimOk(w', u, i) {
      assert ClaimOk(w, u, i);
    }
    forall u | 0 <= u < |w'.txns| ensures TxnOk(w', u) {
      assert TxnOk(w, u);
    }
  }

  /** Items that are all placed hold nothing where there is no row. */
  lemma {:induction false} NothingPlaced(rows: seq<Stock>, items: seq<Item>, s: Stock)
    requires AllPlaced(rows, items) && IndexOf(rows, s.product, s.warehouse) == |rows|
    ensures Qty(items, s) == 0
  {
    forall k | 0 <= k < |items| ensures QtyAt(s.product, s.warehouse)(items[k]) == 0 {
      assert Placed(rows, items[k]);
      if items[k].product == s.product && items[k].warehouse == Some(s.warehouse) {
        RowIndex(rows, s.product, s.warehouse);
      }
    }
    SumZero(items, QtyAt(s.product, s.warehouse));
  }

  /** A committed new row, of which nobody in flight knows. */
  lemma {:induction false} AddRowKeeps(w: World, row: Stock)
    requires WorldOk(w) && IndexOf(w.rows, row.product, row.warehouse) == |w.rows|
    requires (row.product, row.warehouse) !in w.inserts && 0 <= row.quantity && row.reserved == 0
    ensures WorldOk(AddRow(w, row))
  {
    var w' := AddRow(w, row);
    AddedRowCommitted(w, row);
    forall u, i | 0 <= u < |w'.txns| && 0 <= i < |w'.rows| ensures ClaimOk(w', u, i) {
      assert TxnOk(w, u);
      if i < |w.rows| {
        assert ClaimOk(w, u, i);
      } else {
        NothingInFlight(w, row, u);
      }
    }
    forall u | 0 <= u < |w'.txns| ensures TxnOk(w', u) {
      assert TxnOk(w, u);
      assert w'.rows[..|w.rows|] == w.rows;
      if w.txns[u].Buying? {
        PlacedAfter(w.rows, w'.rows, w.txns[u].held);
      } else if w.txns[u].Moving? {
        IndexInMore(w.rows, row, w.txns[u].product, w.txns[u].warehouse);
      }
    }
    forall k | k in w'.inserts ensures IndexOf(w'.rows, k.0, k.1) == |w'.rows| {
      IndexInMore(w.rows, row, k.0, k.1);
    }
  }

  lemma {:induction false} IndexInMore(rows: seq<Stock>, row: Stock, p: nat, x: nat)
    ensures IndexOf(rows, p, x) < |rows| ==> IndexOf(rows + [row], p, x) < |rows| + 1
    ensures IndexOf(rows, p, x) == |rows| && !row.At(p, x) ==> IndexOf(rows + [row], p, x) == |rows| + 1
  {
    assert (rows + [row])[..|rows|] == rows;
  }

  lemma {:induction false} NothingInFlight(w: World, row: Stock, u: nat)
    requires WorldOk(w) && u < |w.txns| && IndexOf(w.rows, row.product, row.warehouse) == |w.rows|
    requires (row.product, row.warehouse) !in w.inserts
    ensures Booked(w.txns[u], row) == 0 && MovedBy(w.txns[u], row) == 0
  {
    assert TxnOk(w, u);
    match w.txns[u]
    case Done =>
    case Buying(_, _, held) => NothingPlaced(w.rows, held, row);
    case Settling(o, _, items, count) => NothingPlaced(w.rows, items[..count], row);
    case Moving(_, _, _, _) =>
  }

  lemma {:induction false} AddedRowCommitted(w: World, row: Stock)
    requires CommittedOk(w.rows, w.orders) && IndexOf(w.rows, row.product, row.warehouse) == |w.rows|
    requires 0 <= row.quantity && row.reserved == 0
    ensures CommittedOk(w.rows + [row], w.orders)
  {
    var rows := w.rows + [row];
    assert rows[..|w.rows|] == w.rows;
    NoRowAt(w.rows, row.product, row.warehouse);
    forall k | 0 <= k < |w.orders| ensures WaitingAt(row.product, row.warehouse)(w.orders[k]) == 0 {
      NothingPlaced(w.rows, w.orders[k].items, row);
    }
    SumZero(w.orders, WaitingAt(row.product, row.warehouse));
    forall k | 0 <= k < |w.orders| ensures AllPlaced(rows, w.orders[k].items) {
      PlacedAfter(w.rows, rows, w.orders[k].items);
    }
  }

  lemma {:induction false} CommitMoveKeeps(w: World, t: nat)
    requires WorldOk(w) && t < |w.txns| && w.txns[t].Moving? && w.txns[t].applied
    ensures WorldOk(CommitStep(w, t))
  {
    PublishMoveKeeps(w, t);
    var x, v := w.txns[t], Publish(w, t, w.orders);
    if Inserts(w, t, x.product, x.warehouse) {
      PublishedRows(w, t, w.orders);
      SameRowsSameIndex(w.rows, v.rows, x.product, x.warehouse);
      AddRowKeeps(v, Stock(x.product, x.warehouse, x.quantity, 0));
    }
  }

  lemma {:induction false} PublishMoveKeeps(w: World, t: nat)
    requires WorldOk(w) && t < |w.txns| && w.txns[t].Moving? && w.txns[t].applied
    ensures WorldOk(Publish(w, t, w.orders))
  {
    PublishedRows(w, t, w.orders);
    var rows := Publish(w, t, w.orders).rows;
    assert rows[..|w.rows|] == rows;
    forall k | 0 <= k < |w.orders| ensures AllPlaced(rows, w.orders[k].items) {
      PlacedAfter(w.rows, rows, w.orders[k].items);
    }
    forall i | 0 <= i < |rows| ensures rows[i].reserved == Wanted(w.orders, rows[i]) {
      assert w.rows[i].reserved == Wanted(w.orders, w.rows[i]);
    }
    forall u | 0 <= u < |w.txns| && w.txns[u].Settling? ensures w.txns[u].order < |w.orders| {
      assert TxnOk(w, u);
    }
    PublishKeeps(w, t, w.orders);
  }

  /** A new transaction has done nothing yet. */
  lemma {:induction false} BeginKeeps(w: World, x: Txn, locks: map<nat, nat>)
    requires WorldOk(w)
    requires forall o :: o in w.orderLocks ==> o in locks && locks[o] == w.orderLocks[o]
    requires TxnOk(w.(txns := w.txns + [x], orderLocks := locks), |w.txns|)
    requires forall i :: 0 <= i < |w.rows| ==> Booked(x, w.rows[i]) == 0 && MovedBy(x, w.rows[i]) == 0
    ensures WorldOk(w.(txns := w.txns + [x], orderLocks := locks))
  {
    var w' := w.(txns := w.txns + [x], orderLocks := locks);
    forall u, i | 0 <= u < |w'.txns| && 0 <= i < |w'.rows| ensures ClaimOk(w', u, i) {
      assert u < |w.txns| ==> ClaimOk(w, u, i);
    }
    forall u | 0 <= u < |w'.txns| ensures TxnOk(w', u) {
      assert u < |w.txns| ==> TxnOk(w, u);
    }
  }

  lemma {:induction false} BeginEventKeeps(w: World, e: Event)
    requires WorldOk(w) && (e.BeginBuy? || e.BeginSettle? || e.BeginMove?)
    ensures WorldOk(Step(w, e))
  {
    match e
    case BeginBuy(cart) => BeginKeeps(w, Buying(cart, cart, []), w.orderLocks);
    case BeginMove(p, x, q) => BeginKeeps(w, Moving(p, x, q, false), w.orderLocks);
    case BeginSettle(o, pay) =>
      if o < |w.orders| && o !in w.orderLocks && w.orders[o].waiting {
        var items := w.orders[o].items;
        assert items[..0] == [];
        BeginKeeps(w, Settling(o, pay, items, 0), w.orderLocks[o := |w.txns|]);
      }
  }

  lemma {:induction false} CommitKeeps(w: World, t: nat)
    requires WorldOk(w) && t < |w.txns|
    ensures WorldOk(CommitStep(w, t))
  {
    match w.txns[t]
    case Done =>
    case Buying(_, todo, held) =>
      if todo == [] {
        CommitBuyKeeps(w, t);
      }
    case Settling(o, pay, items, count) =>
      if count == |items| {
        CommitSettleKeeps(w, t);
      }
    case Moving(_, _, _, applied) =>
      if applied {
        CommitMoveKeeps(w, t);
      }
  }

  lemma {:induction false} MoveEventKeeps(w: World, t: nat)
    requires WorldOk(w) && t < |w.txns| && w.txns[t].Moving? && !w.txns[t].applied
    ensures WorldOk(Step(w, MoveNext(t)))
  {
    RollbackKeeps(w, t);
    var x := w.txns[t];
    var r := IndexOf(w.rows, x.product, x.warehouse);
    if r < |w.rows| && Free(w, t, r) && MoveStep(w, t, r) != Rollback(w, t) {
      MoveKeeps(w, t, r);
    } else if r == |w.rows| && (x.product, x.warehouse) !in w.inserts && 0 < x.quantity {
      InsertKeeps(w, t);
    }
  }

  /** Every event keeps the world's invariant. */
  lemma {:induction false} StepKeeps(w: World, e: Event)
    requires WorldOk(w)
    ensures WorldOk(Step(w, e))
  {
    if e.BeginBuy? || e.BeginSettle? || e.BeginMove? {
      BeginEventKeeps(w, e);
    } else if e.txn < |w.txns| {
      RollbackKeeps(w, e.txn);
      match e
      case ReserveNext(t, r) =>
        if Step(w, e) != w && ReserveStep(w, t, r) != Rollback(w, t) {
          ReserveKeeps(w, t, r);
        }
      case SettleNext(t) =>
        if Step(w, e) != w {
          SettleKeeps(w, t);
        }
      case MoveNext(t) =>
        if w.txns[t].Moving? && !w.txns[t].applied {
          MoveEventKeeps(w, t);
        }
      case Commit(t) => CommitKeeps(w, t);
      case Abort(t) =>
    }
  }

  lemma {:induction false} InterleavingsAreSafe(w: World, events: seq<Event>)
    requires WorldOk(w)
    ensures WorldOk(Interleave(w, events))
    decreases |events|
  {
    if events != [] {
      InterleavingsAreSafe(w, events[..|events| - 1]);
      StepKeeps(Interleave(w, events[..|events| - 1]), events[|events| - 1]);
    }
  }

  // ----- What follows for every interleaving

  /** No transaction in flight, and rows that match the orders. */
  ghost predicate Quiet(w: World) {
    CommittedOk(w.rows, w.orders) && w.claims == map[] && w.inserts == map[] && w.txns == [] && w.orderLocks == map[]
  }

  function BookedAt(s: Stock): Txn -> int {
    (x: Txn) => Booked(x, s)
  }

  /** The row as it stands now, uncommitted write included. */
  function Current(w: World, r: nat): Stock
    requires r < |w.rows|
  {
    if r in w.claims then w.claims[r].value else w.rows[r]
  }

  /** In every interleaving each row's reservation is what the committed unpaid orders hold there plus what
      the transactions in flight have added and released, and it stays between zero and the quantity;
      so does the committed row, which matches the committed orders alone. */
  lemma {:induction false} ReservationsUnderInterleaving(w: World, events: seq<Event>, r: nat)
    requires Quiet(w) && r < |Interleave(w, events).rows|
    ensures
      var v := Interleave(w, events);
      && Current(v, r).reserved == Wanted(v.orders, v.rows[r]) + Sum(v.txns, BookedAt(v.rows[r]))
      && 0 <= Current(v, r).reserved <= Current(v, r).quantity
      && v.rows[r].reserved == Wanted(v.orders, v.rows[r])
      && 0 <= v.rows[r].reserved <= v.rows[r].quantity
  {
    InterleavingsAreSafe(w, events);
    var v := Interleave(w, events);
    var f := BookedAt(v.rows[r]);
    forall t | 0 <= t < |v.txns| && !Holds(v, t, r) ensures f(v.txns[t]) == 0 {
      assert ClaimOk(v, t, r);
    }
    if r in v.claims {
      var t := v.claims[r].owner;
      assert ClaimOk(v, t, r);
      SumSingle(v.txns, t, f);
    } else {
      SumZero(v.txns, f);
    }
  }

  /** In every interleaving, a payment or cancellation that gets its next row lock is not refused there. */
  lemma {:induction false} SettlementNeverFails(w: World, events: seq<Event>, t: nat)
    requires Quiet(w)
    requires
      var v := Interleave(w, events);
      t < |v.txns| && v.txns[t].Settling? && v.txns[t].count < |v.txns[t].items| && Free(v, t, NextRow(v, t))
    ensures !SettleRefused(Interleave(w, events), t)
  {
    InterleavingsAreSafe(w, events);
    SettleNeverRefused(Interleave(w, events), t);
  }

  // ----- Commits are serial steps

  /** Reserve each item at its own row, one after the other. */
  function ReserveEach(stocks: seq<Stock>, items: seq<Item>): Result<seq<Stock>>
    decreases |items|
  {
    if items == [] then Ok(stocks)
    else
      var i := IndexOf(stocks, items[0].product, WarehouseOf(items[0]));
      if i == |stocks| then Err(NotFound)
      else
        var rows :- Reserve(stocks, i, items[0].quantity);
        ReserveEach(rows, items[1..])
  }

  lemma {:induction false} ReserveEachEffect(stocks: seq<Stock>, items: seq<Item>)
    requires RowsOk(stocks) && AllPlaced(stocks, items)
    requires forall i :: 0 <= i < |stocks| ==> stocks[i].reserved + Qty(items, stocks[i]) <= stocks[i].quantity
    ensures ReserveEach(stocks, items).Ok? && ReservedBy(stocks, ReserveEach(stocks, items).value, items)
    decreases |items|
  {
    if items == [] {
      assert forall i :: 0 <= i < |stocks| ==> Qty([], stocks[i]) == 0;
    } else {
      ReserveFirst(stocks, items);
      var i := IndexOf(stocks, items[0].product, WarehouseOf(items[0]));
      var b := Reserve(stocks, i, items[0].quantity).value;
      ReserveEachEffect(b, items[1..]);
      ReservedThen(stocks, b, ReserveEach(b, items[1..]).value, items);
    }
  }

  lemma {:induction false} ReserveFirst(stocks: seq<Stock>, items: seq<Item>)
    requires RowsOk(stocks) && items != [] && AllPlaced(stocks, items)
    requires forall i :: 0 <= i < |stocks| ==> stocks[i].reserved + Qty(items, stocks[i]) <= stocks[i].quantity
    ensures
      var k := IndexOf(stocks, items[0].product, WarehouseOf(items[0]));
      && k < |stocks| && Reserve(stocks, k, items[0].quantity).Ok?
      && var b := Reserve(stocks, k, items[0].quantity).value;
      && ReservedBy(stocks, b, [items[0]]) && RowsOk(b) && AllPlaced(b, items[1..])
      && forall i :: 0 <= i < |b| ==> b[i].reserved + Qty(items[1..], b[i]) <= b[i].quantity
  {
    var item := items[0];
    assert Placed(stocks, item);
    RowIndex(stocks, item.product, item.warehouse.value);
    forall i | 0 <= i < |stocks|
      ensures Qty(items, stocks[i]) == Qty([item], stocks[i]) + Qty(items[1..], stocks[i])
      ensures 0 <= Qty(items[1..], stocks[i])
      ensures Qty([item], stocks[i]) ==
                if i == IndexOf(stocks, item.product, WarehouseOf(item)) then item.quantity else 0
    {
      SumHead(items, QtyAt(stocks[i].product, stocks[i].warehouse));
      SumHead([item], QtyAt(stocks[i].product, stocks[i].warehouse));
      QtyNonNegative(stocks, items[1..], stocks[i]);
      QtyOfOne(stocks, item, i);
    }
    var k := IndexOf(stocks, item.product, WarehouseOf(item));
    assert Qty(items, stocks[k]) == item.quantity + Qty(items[1..], stocks[k]);
    assert stocks[k].reserved + Qty(items, stocks[k]) <= stocks[k].quantity;
    var b := Reserve(stocks, k, item.quantity).value;
    assert b == stocks[k := stocks[k].(reserved := stocks[k].reserved + item.quantity)];
    assert b[..|stocks|] == b;
    PlacedAfter(stocks, b, items[1..]);
    forall i | 0 <= i < |b| ensures b[i].reserved + Qty(items[1..], b[i]) <= b[i].quantity {
      assert Qty(items[1..], b[i]) == Qty(items[1..], stocks[i]);
    }
  }

  /** Only a commit changes committed rows and orders; and whatever ends a transaction without one leaves nothing
      of it behind: no written value, no new row and no lock. */
  lemma {:induction false} OnlyCommitsPublish(w: World, e: Event, t: nat)
    requires !e.Commit?
    ensures Step(w, e).rows == w.rows && Step(w, e).orders == w.orders
    ensures
      var w' := Step(w, e);
      (e == Abort(t) || (t < |w.txns| && !w.txns[t].Done? && w'.txns[t].Done?)) && t < |w.txns| ==>
        && w'.txns[t].Done?
        && (forall r :: r in w'.claims ==> w'.claims[r].owner != t)
        && (forall k :: k in w'.inserts ==> w'.inserts[k] != t)
        && (forall o :: o in w'.orderLocks ==> w'.orderLocks[o] != t)
  {
  }

  /** Every commit in every interleaving acts on the committed rows like a serial transaction at that moment.
      A checkout has items for its cart's lines, in order, and reserving each at the row it picked, one after
      the other, succeeds and gives exactly the new rows; the rows need not be the first fits of that moment.
      A cancellation's releases, a payment's sales or a movement run alone succeed and give the new rows. */
  lemma {:induction false} CommitsAreSerial(
    w: World, events: seq<Event>, t: nat, l: Ledger, payment: nat, kind: MovementType, ref: Reference)
    requires Quiet(w) && t < |Interleave(w, events).txns|
    requires CommitStep(Interleave(w, events), t) != Interleave(w, events)
    requires LedgerOk(l) && l.stocks == Interleave(w, events).rows
    ensures
      var v := Interleave(w, events);
      var v' := CommitStep(v, t);
      match v.txns[t]
      case Done => false
      case Buying(cart, _, held) =>
        && ReserveEach(v.rows, held) == Ok(v'.rows) && FromCart(held, cart)
        && v'.orders == v.orders + [Booking(held, true)]
      case Settling(o, pay, items, _) =>
        && o < |v.orders| && v.orders[o] == Booking(items, true) && v'.orders == v.orders[o := Booking(items, false)]
        && (if pay then PayItems(l, items, payment).Ok? && PayItems(l, items, payment).value.stocks == v'.rows
            else ReleaseItems(v.rows, items) == Ok(v'.rows))
      case Moving(p, x, q, _) =>
        (kind.Increases() ==> 0 < q) && (kind.Decreases() ==> q < 0) ==>
          && Record(l, p, x, kind, q, ref).Ok? && Record(l, p, x, kind, q, ref).value.stocks == v'.rows
          && v'.orders == v.orders
  {
    InterleavingsAreSafe(w, events);
    var v := Interleave(w, events);
    assert TxnOk(v, t);
    match v.txns[t]
    case Done =>
    case Buying(cart, _, held) =>
      assert cart[..|cart|] == cart;
      BuySerial(v, t);
    case Settling(_, _, _, _) => SettleSerial(v, t, l, payment);
    case Moving(_, _, _, _) =>
      if (kind.Increases() ==> 0 < v.txns[t].quantity) && (kind.Decreases() ==> v.txns[t].quantity < 0) {
        MoveSerial(v, t, l, kind, ref);
      }
  }

  lemma {:induction false} MoveSerial(v: World, t: nat, l: Ledger, kind: MovementType, ref: Reference)
    requires WorldOk(v) && t < |v.txns| && v.txns[t].Moving? && v.txns[t].applied
    requires LedgerOk(l) && l.stocks == v.rows
    requires (kind.Increases() ==> 0 < v.txns[t].quantity) && (kind.Decreases() ==> v.txns[t].quantity < 0)
    ensures
      var x := v.txns[t];
      && Record(l, x.product, x.warehouse, kind, x.quantity, ref).Ok?
      && Record(l, x.product, x.warehouse, kind, x.quantity, ref).value.stocks == CommitStep(v, t).rows
  {
    var x, rows := v.txns[t], Publish(v, t, v.orders).rows;
    assert TxnOk(v, t);
    PublishedRows(v, t, v.orders);
    var i := IndexOf(v.rows, x.product, x.warehouse);
    forall j | 0 <= j < |v.rows| && j != i ensures rows[j] == v.rows[j] {
      IndexIsUnique(v.rows, j);
    }
    if i < |v.rows| {
      assert rows[i].quantity == v.rows[i].quantity + x.quantity && rows[i].reserved == v.rows[i].reserved;
      assert Bounded(rows[i]);
      assert rows == v.rows[i := v.rows[i].(quantity := v.rows[i].quantity + x.quantity)];
    } else {
      assert rows == v.rows;
      RecordsNewRow(l, x.product, x.warehouse, kind, x.quantity, ref);
    }
  }

  lemma {:induction false} RecordsNewRow(l: Ledger, p: nat, x: nat, kind: MovementType, q: int, ref: Reference)
    requires IndexOf(l.stocks, p, x) == |l.stocks| && 0 < q && !kind.Decreases()
    ensures Record(l, p, x, kind, q, ref).Ok?
    ensures Record(l, p, x, kind, q, ref).value.stocks == l.stocks + [Stock(p, x, q, 0)]
  {
    assert (l.stocks + [Stock(p, x, 0, 0)])[|l.stocks| := Stock(p, x, q, 0)] == l.stocks + [Stock(p, x, q, 0)];
  }

  lemma {:induction false} SameEffect(a: seq<Stock>, b: seq<Stock>, c: seq<Stock>, items: seq<Item>)
    ensures ReservedBy(a, b, items) && ReservedBy(a, c, items) ==> b == c
    ensures ReleasedBy(a, b, items) && ReleasedBy(a, c, items) ==> b == c
    ensures SoldBy(a, b, items) && SoldBy(a, c, items) ==> b == c
  {
    if |a| == |b| == |c| {
      if ReservedBy(a, b, items) && ReservedBy(a, c, items) {
        assert forall i :: 0 <= i < |a| ==> b[i] == c[i];
      }
      if SoldBy(a, b, items) && SoldBy(a, c, items) {
        assert forall i :: 0 <= i < |a| ==> b[i] == c[i];
      }
      if ReleasedBy(a, b, items) && ReleasedBy(a, c, items) {
        forall i | 0 <= i < |a| ensures b[i] == c[i] {
          assert Qty(items, b[i]) == Qty(items, c[i]);
        }
      }
    }
  }

  lemma {:induction false} BuySerial(v: World, t: nat)
    requires WorldOk(v) && t < |v.txns| && v.txns[t].Buying? && v.txns[t].todo == []
    ensures ReserveEach(v.rows, v.txns[t].held) == Ok(CommitStep(v, t).rows)
  {
    var held, rows := v.txns[t].held, CommitStep(v, t).rows;
    CommitBuyKeeps(v, t);
    assert TxnOk(v, t);
    forall i | 0 <= i < |v.rows| ensures v.rows[i].reserved + Qty(held, v.rows[i]) <= v.rows[i].quantity {
      assert Bounded(rows[i]);
    }
    ReserveEachEffect(v.rows, held);
    SameEffect(v.rows, rows, ReserveEach(v.rows, held).value, held);
  }

  lemma {:induction false} SettleSerial(v: World, t: nat, l: Ledger, payment: nat)
    requires WorldOk(v) && t < |v.txns| && v.txns[t].Settling? && v.txns[t].count == |v.txns[t].items|
    requires LedgerOk(l) && l.stocks == v.rows
    ensures
      var x, rows := v.txns[t], CommitStep(v, t).rows;
      if x.pay then PayItems(l, x.items, payment).Ok? && PayItems(l, x.items, payment).value.stocks == rows
      else ReleaseItems(v.rows, x.items) == Ok(rows)
  {
    var x, rows := v.txns[t], CommitStep(v, t).rows;
    CommitSettleKeeps(v, t);
    assert TxnOk(v, t);
    forall i | 0 <= i < |v.rows| ensures Qty(x.items, v.rows[i]) <= v.rows[i].reserved {
      OrderCovered(v, x.order, i);
    }
    if x.pay {
      PayItemsEffect(l, x.items, payment);
      SameEffect(v.rows, rows, PayItems(l, x.items, payment).value.stocks, x.items);
    } else {
      ReleaseItemsEffect(v.rows, x.items);
      SameEffect(v.rows, rows, ReleaseItems(v.rows, x.items).value, x.items);
    }
  }
}
