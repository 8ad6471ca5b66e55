/** Stock rows, the movement ledger and the reservations held by order items. */
module Inventory {
  import opened Common

  /** One stock row; its position in the table is its primary key. */
  datatype Stock = Stock(product: nat, warehouse: nat, quantity: int, reserved: int) {
    function Available(): int {
      quantity - reserved
    }

    predicate At(p: nat, w: nat) {
      product == p && warehouse == w
    }
  }

  datatype MovementType = Purchase | Sale | Return | TransferIn | TransferOut | Adjustment | Damaged {
    predicate Increases() {
      Purchase? || Return? || TransferIn?
    }

    predicate Decreases() {
      Sale? || TransferOut? || Damaged?
    }

    predicate Manual() {
      Purchase? || Return? || Adjustment? || Damaged?
    }
  }

  /** What a movement's reference text names. */
  datatype Reference = ForTransfer(id: nat) | ForPayment(id: nat) | Other(text: string)

  datatype Movement = Movement(
    product: nat, warehouse: nat, kind: MovementType, quantity: int,
    before: int, after: int, reference: Reference)

  datatype Ledger = Ledger(stocks: seq<Stock>, movements: seq<Movement>)

  datatype Item = Item(
    product: nat, seller: nat, warehouse: Option<nat>, quantity: int, unitPrice: int, totalPrice: int)

  // ----- Measures of tables

  /** Units of an order item that are held at one stock row. */
  function QtyAt(p: nat, w: nat): Item -> int {
    (i: Item) => if i.product == p && i.warehouse == Some(w) then i.quantity else 0
  }

  function QtyOf(p: nat): Item -> int {
    (i: Item) => if i.product == p then i.quantity else 0
  }

  function UnitsOf(p: nat): Stock -> int {
    (s: Stock) => if s.product == p then s.quantity else 0
  }

  function MovedAt(p: nat, w: nat): Movement -> int {
    (m: Movement) => if m.product == p && m.warehouse == w then m.quantity else 0
  }

  function ManualOf(p: nat): Movement -> int {
    (m: Movement) => if m.product == p && m.kind.Manual() then m.quantity else 0
  }

  /** What the ledger says the row (p, w) holds. */
  function Replay(ms: seq<Movement>, p: nat, w: nat): int {
    Sum(ms, MovedAt(p, w))
  }

  function SalesOf(payment: nat): Movement -> bool {
    (m: Movement) => m.kind.Sale? && m.reference == ForPayment(payment)
  }

  function LegsOf(transfer: nat): Movement -> bool {
    (m: Movement) => (m.kind.TransferOut? || m.kind.TransferIn?) && m.reference == ForTransfer(transfer)
  }

  /** A movement without the counter values recorded beside it. */
  datatype Leg = Leg(kind: MovementType, product: nat, warehouse: nat, quantity: int)

  function LegOf(m: Movement): Leg {
    Leg(m.kind, m.product, m.warehouse, m.quantity)
  }

  function Legs(ms: seq<Movement>): (r: seq<Leg>)
    ensures |r| == |ms|
  {
    seq(|ms|, i requires 0 <= i < |ms| => LegOf(ms[i]))
  }

  // ----- Well-formed tables

  ghost predicate RowsOk(stocks: seq<Stock>) {
    && (forall i :: 0 <= i < |stocks| ==> 0 <= stocks[i].reserved <= stocks[i].quantity)
    && (forall i, j :: 0 <= i < j < |stocks| ==> !stocks[i].At(stocks[j].product, stocks[j].warehouse))
  }

  /** Same rows in the same places; only the counters may differ. */
  ghost predicate SameRows(a: seq<Stock>, b: seq<Stock>) {
    && |a| == |b|
    && forall i :: 0 <= i < |a| ==> a[i].product == b[i].product && a[i].warehouse == b[i].warehouse
  }

  /** Every movement continues the counter of its row, as replayed from the movements before it. */
  ghost predicate Chained(ms: seq<Movement>) {
    ms == [] ||
    var m, prior := ms[|ms| - 1], ms[..|ms| - 1];
    && Chained(prior)
    && m.before == Replay(prior, m.product, m.warehouse)
    && m.after == m.before + m.quantity
    && 0 <= m.before && 0 <= m.after
  }

  ghost predicate SignsOk(ms: seq<Movement>) {
    forall k :: 0 <= k < |ms| ==>
      && ms[k].quantity != 0
      && (ms[k].kind.Increases() ==> 0 < ms[k].quantity)
      && (ms[k].kind.Decreases() ==> ms[k].quantity < 0)
  }

  ghost predicate HasRow(stocks: seq<Stock>, p: nat, w: nat) {
    exists i :: 0 <= i < |stocks| && stocks[i].At(p, w)
  }

  ghost predicate Replayed(l: Ledger) {
    && (forall i :: 0 <= i < |l.stocks| ==>
          l.stocks[i].quantity == Replay(l.movements, l.stocks[i].product, l.stocks[i].warehouse))
    && (forall k :: 0 <= k < |l.movements| ==>
          HasRow(l.stocks, l.movements[k].product, l.movements[k].warehouse))
  }

  ghost predicate LedgerOk(l: Ledger) {
    RowsOk(l.stocks) && Chained(l.movements) && SignsOk(l.movements) && Replayed(l)
  }

  // ----- Operations

  /** The key of the row (p, w), or the table's length when there is none. */
  function IndexOf(stocks: seq<Stock>, p: nat, w: nat): (r: nat)
    ensures r <= |stocks|
    ensures r < |stocks| ==> stocks[r].At(p, w)
  {
    if stocks == [] then 0
    else
      var r := IndexOf(stocks[..|stocks| - 1], p, w);
      if r < |stocks| - 1 then r
      else if stocks[|stocks| - 1].At(p, w) then |stocks| - 1 else |stocks|
  }

  function Reserve(stocks: seq<Stock>, i: nat, q: int): Result<seq<Stock>>
    requires i < |stocks|
  {
    if q <= 0 then Err(InvalidQuantity)
    else if stocks[i].Available() < q then Err(NotEnoughStock)
    else Ok(stocks[i := stocks[i].(reserved := stocks[i].reserved + q)])
  }

  function Release(stocks: seq<Stock>, i: nat, q: int): Result<seq<Stock>>
    requires i < |stocks|
  {
    if q <= 0 then Err(InvalidQuantity)
    else if stocks[i].reserved < q then Err(NotEnoughStock)
    else Ok(stocks[i := stocks[i].(reserved := stocks[i].reserved - q)])
  }

  /** The stock table with a row for (p, w). */
  function WithRow(stocks: seq<Stock>, p: nat, w: nat): seq<Stock> {
    if IndexOf(stocks, p, w) < |stocks| then stocks else stocks + [Stock(p, w, 0, 0)]
  }

  /** Saving a new movement: the row is created if missing, its quantity changed and the movement recorded. */
  function Record(l: Ledger, p: nat, w: nat, kind: MovementType, q: int, ref: Reference): Result<Ledger> {
    if q == 0 then Err(InvalidQuantity)
    else if (kind.Increases() && q < 0) || (kind.Decreases() && 0 < q) then Err(WrongSign)
    else
      var i := IndexOf(l.stocks, p, w);
      var rows := WithRow(l.stocks, p, w);
      var before := rows[i].quantity;
      var after := before + q;
      if after < 0 then Err(NotEnoughStock)
      else if after < rows[i].reserved then Err(BelowReserved)
      else Ok(Ledger(rows[i := rows[i].(quantity := after)],
                     l.movements + [Movement(p, w, kind, q, before, after, ref)]))
  }

  /** Payment success, item by item: release the reservation, then record the sale. */
  function PayItems(l: Ledger, items: seq<Item>, payment: nat): Result<Ledger>
    decreases |items|
  {
    if items == [] then Ok(l)
    else
      var l' :- PayItem(l, items[0], payment);
      PayItems(l', items[1..], payment)
  }

  function PayItem(l: Ledger, item: Item, payment: nat): Result<Ledger> {
    if item.warehouse.None? then Err(NoWarehouse)
    else
      var i := IndexOf(l.stocks, item.product, item.warehouse.value);
      if i == |l.stocks| then Err(NotFound)
      else
        var rows :- Release(l.stocks, i, item.quantity);
        Record(l.(stocks := rows), item.product, item.warehouse.value, Sale, -item.quantity, ForPayment(payment))
  }

  /** Order cancellation, item by item; an item without a warehouse is skipped. */
  function ReleaseItems(stocks: seq<Stock>, items: seq<Item>): Result<seq<Stock>>
    decreases |items|
  {
    if items == [] then Ok(stocks)
    else
      var rows :- ReleaseItem(stocks, items[0]);
      ReleaseItems(rows, items[1..])
  }

  function ReleaseItem(stocks: seq<Stock>, item: Item): Result<seq<Stock>> {
    if item.warehouse.None? then Ok(stocks)
    else
      var i := IndexOf(stocks, item.product, item.warehouse.value);
      if i == |stocks| then Err(NotFound) else Release(stocks, i, item.quantity)
  }

  // ----- What the operations do to the tables

  /** A reservation succeeds exactly within the available units, takes them from its own row only, keeps the
      bounds of the rows, and is undone by releasing as many. */
  lemma {:induction false} ReleaseUndoesReserve(stocks: seq<Stock>, i: nat, q: int)
    requires RowsOk(stocks) && i < |stocks|
    ensures Reserve(stocks, i, q).Ok? <==> 0 < q <= stocks[i].quantity - stocks[i].reserved
    ensures Reserve(stocks, i, q).Ok? ==>
              (var rows := Reserve(stocks, i, q).value;
               && RowsOk(rows) && SameRows(stocks, rows)
               && (forall j :: 0 <= j < |rows| ==>
                     && rows[j].quantity == stocks[j].quantity
                     && rows[j].reserved == stocks[j].reserved + (if j == i then q else 0))
               && Release(rows, i, q) == Ok(stocks))
  {
    if Reserve(stocks, i, q).Ok? {
      var rows := Reserve(stocks, i, q).value;
      assert rows[i := rows[i].(reserved := rows[i].reserved - q)] == stocks;
    }
  }

  /** A release succeeds exactly within the reserved units, frees them in its own row only, keeps the bounds of
      the rows, and is undone by reserving as many. */
  lemma {:induction false} ReserveUndoesRelease(stocks: seq<Stock>, i: nat, q: int)
    requires RowsOk(stocks) && i < |stocks|
    ensures Release(stocks, i, q).Ok? <==> 0 < q <= stocks[i].reserved
    ensures Release(stocks, i, q).Ok? ==>
              (var rows := Release(stocks, i, q).value;
               && RowsOk(rows) && SameRows(stocks, rows)
               && (forall j :: 0 <= j < |rows| ==>
                     && rows[j].quantity == stocks[j].quantity
                     && rows[j].reserved == stocks[j].reserved - (if j == i then q else 0))
               && Reserve(rows, i, q) == Ok(stocks))
  {
    if Release(stocks, i, q).Ok? {
      var rows := Release(stocks, i, q).value;
      assert rows[i := rows[i].(reserved := rows[i].reserved + q)] == stocks;
    }
  }

  lemma {:induction false} IndexIsFirst(stocks: seq<Stock>, i: nat, p: nat, w: nat)
    requires i < |stocks| && stocks[i].At(p, w)
    ensures IndexOf(stocks, p, w) <= i
  {
    if i < |stocks| - 1 {
      IndexIsFirst(stocks[..|stocks| - 1], i, p, w);
    }
  }

  lemma {:induction false} IndexIsUnique(stocks: seq<Stock>, i: nat)
    requires RowsOk(stocks) && i < |stocks|
    ensures IndexOf(stocks, stocks[i].product, stocks[i].warehouse) == i
  {
    IndexIsFirst(stocks, i, stocks[i].product, stocks[i].warehouse);
  }

  lemma {:induction false} SameRowsSameIndex(a: seq<Stock>, b: seq<Stock>, p: nat, w: nat)
    requires SameRows(a, b)
    ensures IndexOf(a, p, w) == IndexOf(b, p, w)
  {
    var i, j := IndexOf(a, p, w), IndexOf(b, p, w);
    if i < |a| {
      IndexIsFirst(b, i, p, w);
    }
    if j < |b| {
      IndexIsFirst(a, j, p, w);
    }
  }

  lemma {:induction false} RowIndex(stocks: seq<Stock>, p: nat, w: nat)
    ensures HasRow(stocks, p, w) <==> IndexOf(stocks, p, w) < |stocks|
  {
    if HasRow(stocks, p, w) {
      var i :| 0 <= i < |stocks| && stocks[i].At(p, w);
      IndexIsFirst(stocks, i, p, w);
    }
  }

  lemma {:induction false} SameRowsHasRow(a: seq<Stock>, b: seq<Stock>, p: nat, w: nat)
    requires |a| <= |b| && SameRows(a, b[..|a|]) && HasRow(a, p, w)
    ensures HasRow(b, p, w)
  {
    var i :| 0 <= i < |a| && a[i].At(p, w);
    assert b[..|a|][i].At(p, w);
    assert b[i].At(p, w);
  }

  lemma {:induction false} WithRowIndex(stocks: seq<Stock>, p: nat, w: nat)
    ensures IndexOf(stocks, p, w) < |WithRow(stocks, p, w)|
    ensures WithRow(stocks, p, w)[IndexOf(stocks, p, w)].At(p, w)
    ensures stocks <= WithRow(stocks, p, w)
  {
  }

  lemma {:induction false} WithRowRows(stocks: seq<Stock>, p: nat, w: nat)
    requires RowsOk(stocks)
    ensures RowsOk(WithRow(stocks, p, w))
  {
    RowIndex(stocks, p, w);
  }

  lemma {:induction false} WithRowReplayed(l: Ledger, p: nat, w: nat)
    requires Replayed(l)
    ensures Replayed(l.(stocks := WithRow(l.stocks, p, w)))
  {
    var rows := WithRow(l.stocks, p, w);
    RowIndex(l.stocks, p, w);
    if !HasRow(l.stocks, p, w) {
      SumZero(l.movements, MovedAt(p, w));
      assert rows[..|l.stocks|] == l.stocks;
      forall k | 0 <= k < |l.movements|
        ensures HasRow(rows, l.movements[k].product, l.movements[k].warehouse)
      {
        SameRowsHasRow(l.stocks, rows, l.movements[k].product, l.movements[k].warehouse);
      }
    }
  }

  lemma {:induction false} WithRowOk(l: Ledger, p: nat, w: nat)
    requires LedgerOk(l)
    ensures LedgerOk(l.(stocks := WithRow(l.stocks, p, w)))
  {
    WithRowRows(l.stocks, p, w);
    WithRowReplayed(l, p, w);
  }

  lemma {:induction false} ChainAppend(ms: seq<Movement>, m: Movement)
    requires Chained(ms) && SignsOk(ms)
    requires m.before == Replay(ms, m.product, m.warehouse) && m.after == m.before + m.quantity
    requires 0 <= m.before && 0 <= m.after && m.quantity != 0
    requires m.kind.Increases() ==> 0 < m.quantity
    requires m.kind.Decreases() ==> m.quantity < 0
    ensures Chained(ms + [m]) && SignsOk(ms + [m])
  {
    assert (ms + [m])[..|ms|] == ms;
  }

  /** A new movement of quantity q at row i, and the row's counter moved by q, keep the replay. */
  lemma {:induction false} ReplayAppend(l: Ledger, i: nat, m: Movement)
    requires RowsOk(l.stocks) && Replayed(l)
    requires i < |l.stocks| && l.stocks[i].At(m.product, m.warehouse)
    ensures Replayed(Ledger(l.stocks[i := l.stocks[i].(quantity := l.stocks[i].quantity + m.quantity)],
                            l.movements + [m]))
  {
    var rows := l.stocks[i := l.stocks[i].(quantity := l.stocks[i].quantity + m.quantity)];
    var ms := l.movements + [m];
    forall j | 0 <= j < |rows|
      ensures rows[j].quantity == Replay(ms, rows[j].product, rows[j].warehouse)
    {
      SumAppend(l.movements, m, MovedAt(rows[j].product, rows[j].warehouse));
      IndexIsUnique(l.stocks, i);
      IndexIsUnique(l.stocks, j);
    }
    forall k | 0 <= k < |ms|
      ensures HasRow(rows, ms[k].product, ms[k].warehouse)
    {
      assert k == |l.movements| ==> l.stocks[i].At(ms[k].product, ms[k].warehouse);
      SameRowsHasRow(l.stocks, rows, ms[k].product, ms[k].warehouse);
    }
  }

  /** The ledger after a movement of quantity q at row i. */
  function Moved(l: Ledger, i: nat, kind: MovementType, q: int, ref: Reference): Ledger
    requires i < |l.stocks|
  {
    var s := l.stocks[i];
    Ledger(l.stocks[i := s.(quantity := s.quantity + q)],
           l.movements + [Movement(s.product, s.warehouse, kind, q, s.quantity, s.quantity + q, ref)])
  }

  /** Record, spelled out at the row it found or created. */
  lemma {:induction false} RecordAtRow(l: Ledger, i: nat, p: nat, w: nat, kind: MovementType, q: int, ref: Reference)
    requires Record(l, p, w, kind, q, ref).Ok?
    requires i == IndexOf(l.stocks, p, w)
    ensures
      var rows := WithRow(l.stocks, p, w);
      && i < |rows| && rows[i].At(p, w)
      && q != 0 && (kind.Increases() ==> 0 < q) && (kind.Decreases() ==> q < 0)
      && 0 <= rows[i].quantity + q && rows[i].reserved <= rows[i].quantity + q
      && Record(l, p, w, kind, q, ref) == Ok(Moved(l.(stocks := rows), i, kind, q, ref))
  {
  }

  /** Recording a movement keeps the ledger. */
  lemma {:induction false} RecordKeepsLedger(l: Ledger, p: nat, w: nat, kind: MovementType, q: int, ref: Reference)
    requires LedgerOk(l) && Record(l, p, w, kind, q, ref).Ok?
    ensures LedgerOk(Record(l, p, w, kind, q, ref).value)
  {
    var i := IndexOf(l.stocks, p, w);
    WithRowOk(l, p, w);
    RecordAtRow(l, i, p, w, kind, q, ref);
    MovedKeepsLedger(l.(stocks := WithRow(l.stocks, p, w)), i, kind, q, ref);
  }

  /** The movement that Record appends. */
  lemma {:induction false} RecordAppends(
    l: Ledger, p: nat, w: nat, kind: MovementType, q: int, ref: Reference, l': Ledger)
    requires Record(l, p, w, kind, q, ref) == Ok(l')
    ensures |l'.movements| == |l.movements| + 1 && l'.movements[..|l.movements|] == l.movements
    ensures
      var m := l'.movements[|l.movements|];
      && l'.movements == l.movements + [m]
      && m.product == p && m.warehouse == w && m.kind == kind && m.quantity == q && m.reference == ref
  {
    RecordAtRow(l, IndexOf(l.stocks, p, w), p, w, kind, q, ref);
  }

  lemma {:induction false} MovedKeepsLedger(l: Ledger, i: nat, kind: MovementType, q: int, ref: Reference)
    requires LedgerOk(l) && i < |l.stocks| && q != 0
    requires (kind.Increases() ==> 0 < q) && (kind.Decreases() ==> q < 0)
    requires 0 <= l.stocks[i].quantity + q && l.stocks[i].reserved <= l.stocks[i].quantity + q
    ensures LedgerOk(Moved(l, i, kind, q, ref))
  {
    MovedChained(l, i, kind, q, ref);
    MovedReplayed(l, i, kind, q, ref);
    QuantityKeepsRows(l.stocks, i, q);
  }

  lemma {:induction false} MovedChained(l: Ledger, i: nat, kind: MovementType, q: int, ref: Reference)
    requires Chained(l.movements) && SignsOk(l.movements) && i < |l.stocks| && q != 0
    requires l.stocks[i].quantity == Replay(l.movements, l.stocks[i].product, l.stocks[i].warehouse)
    requires (kind.Increases() ==> 0 < q) && (kind.Decreases() ==> q < 0)
    requires 0 <= l.stocks[i].quantity && 0 <= l.stocks[i].quantity + q
    ensures Chained(Moved(l, i, kind, q, ref).movements) && SignsOk(Moved(l, i, kind, q, ref).movements)
  {
    var s := l.stocks[i];
    ChainAppend(l.movements, Movement(s.product, s.warehouse, kind, q, s.quantity, s.quantity + q, ref));
  }

  lemma {:induction false} MovedReplayed(l: Ledger, i: nat, kind: MovementType, q: int, ref: Reference)
    requires RowsOk(l.stocks) && Replayed(l) && i < |l.stocks|
    ensures Replayed(Moved(l, i, kind, q, ref))
  {
    var s := l.stocks[i];
    ReplayAppend(l, i, Movement(s.product, s.warehouse, kind, q, s.quantity, s.quantity + q, ref));
  }

  lemma {:induction false} QuantityKeepsRows(stocks: seq<Stock>, i: nat, q: int)
    requires RowsOk(stocks) && i < |stocks|
    requires 0 <= stocks[i].quantity + q && stocks[i].reserved <= stocks[i].quantity + q
    ensures RowsOk(stocks[i := stocks[i].(quantity := stocks[i].quantity + q)])
  {
  }

  lemma {:induction false} WithRowUnits(stocks: seq<Stock>, p: nat, w: nat, x: nat)
    ensures Sum(WithRow(stocks, p, w), UnitsOf(x)) == Sum(stocks, UnitsOf(x))
  {
    SumAppend(stocks, Stock(p, w, 0, 0), UnitsOf(x));
  }

  /** Recording a movement changes the units of its own product only, and by its quantity. */
  lemma {:induction false} RecordMovesUnits(
    l: Ledger, p: nat, w: nat, kind: MovementType, q: int, ref: Reference, x: nat)
    requires Record(l, p, w, kind, q, ref).Ok?
    ensures Sum(Record(l, p, w, kind, q, ref).value.stocks, UnitsOf(x)) ==
            Sum(l.stocks, UnitsOf(x)) + if x == p then q else 0
  {
    var rows := WithRow(l.stocks, p, w);
    var i := IndexOf(l.stocks, p, w);
    RecordAtRow(l, i, p, w, kind, q, ref);
    WithRowUnits(l.stocks, p, w, x);
    SumUpdate(rows, i, rows[i].(quantity := rows[i].quantity + q), UnitsOf(x));
  }

  /** Changing reservations alone keeps the ledger. */
  lemma {:induction false} ReservationsKeepLedger(l: Ledger, rows: seq<Stock>)
    requires LedgerOk(l) && SameRows(l.stocks, rows) && RowsOk(rows)
    requires forall i :: 0 <= i < |rows| ==> rows[i].quantity == l.stocks[i].quantity
    ensures LedgerOk(l.(stocks := rows))
  {
    assert rows[..|l.stocks|] == rows;
    forall k | 0 <= k < |l.movements|
      ensures HasRow(rows, l.movements[k].product, l.movements[k].warehouse)
    {
      SameRowsHasRow(l.stocks, rows, l.movements[k].product, l.movements[k].warehouse);
    }
  }

  lemma {:induction false} ReservationsKeepUnits(a: seq<Stock>, b: seq<Stock>, p: nat)
    requires SameRows(a, b)
    requires forall i :: 0 <= i < |a| ==> b[i].quantity == a[i].quantity
    ensures Sum(b, UnitsOf(p)) == Sum(a, UnitsOf(p))
  {
    SumPointwise(b, UnitsOf(p), a, UnitsOf(p));
  }
}
