/** Reachable databases as starting points of the row-lock machine. */
module Joint {
  import opened Common
  import opened Inventory
  import opened Reservations
  import opened Tables
  import opened Invariants
  import opened Interleaving
  import Operations
  import Theorems

  function Bookings(orders: seq<Order>): (r: seq<Booking>)
    ensures |r| == |orders|
  {
    seq(|orders|, k requires 0 <= k < |orders| => Booking(orders[k].items, orders[k].status.PendingPayment?))
  }

  /** The rows and orders of a database, with no transaction in flight. */
  function AsWorld(db: Db): World {
    World(db.ledger.stocks, map[], map[], Bookings(db.orders), map[], [])
  }

  /** Every reachable database is a quiet world: whatever its requests did before, what holds for all
      interleavings holds from there on. */
  lemma {:induction false} ReachableIsQuiet(db: Db)
    requires Operations.Reachable(db)
    ensures Quiet(AsWorld(db))
  {
    Theorems.ReachableOk(db);
    var rows, orders := db.ledger.stocks, db.orders;
    forall i | 0 <= i < |rows| ensures rows[i].reserved == Wanted(Bookings(orders), rows[i]) {
      var p, x := rows[i].product, rows[i].warehouse;
      assert rows[i].reserved == Demand(orders, rows[i]);
      forall k | 0 <= k < |orders| ensures WaitingAt(p, x)(Bookings(orders)[k]) == PendingAt(p, x)(orders[k]) {
      }
      SumPointwise(Bookings(orders), WaitingAt(p, x), orders, PendingAt(p, x));
    }
  }

  /** From any reachable database, in every interleaving of further checkouts, payments, cancellations and
      movements, committed reservations are those of the committed unpaid orders, within the quantities. */
  lemma {:induction false} ReservationsFromReachable(db: Db, events: seq<Event>, r: nat)
    requires Operations.Reachable(db) && r < |Interleave(AsWorld(db), events).rows|
    ensures
      var v := Interleave(AsWorld(db), events);
      && v.rows[r].reserved == Wanted(v.orders, v.rows[r])
      && 0 <= v.rows[r].reserved <= v.rows[r].quantity
  {
    ReachableIsQuiet(db);
    ReservationsUnderInterleaving(AsWorld(db), events, r);
  }
}
