/** Buyers that compete for rows: what a stale read of the availability can cost, and what a fresh one gives. */
module Contention {
  import opened Common
  import opened Inventory
  import opened Reservations
  import opened Tables
  import opened Pricing
  import opened Checkout
  import opened Interleaving

  /** All rows as transaction t sees them: committed values, and its own writes. */
  function View(w: World, t: nat): seq<Stock> {
    seq(|w.rows|, r requires 0 <= r < |w.rows| => Seen(w, t, r))
  }

  ghost predicate Shopping(w: World, t: nat) {
    t < |w.txns| && w.txns[t].Buying? && w.txns[t].todo != []
  }

  /** A buyer that gets the lock of a row is rolled back there iff the row, as it is under the lock, has not
      enough left; else it holds its next item there. */
  lemma {:induction false} ProbeExact(w: World, t: nat, r: nat)
    requires Shopping(w, t) && r < |w.rows| && Free(w, t, r)
    requires w.rows[r].product == w.txns[t].todo[0].product && 0 < w.txns[t].todo[0].quantity
    ensures Step(w, ReserveNext(t, r)) == Rollback(w, t) <==>
              Seen(w, t, r).Available() < w.txns[t].todo[0].quantity
    ensures Step(w, ReserveNext(t, r)) != Rollback(w, t) ==>
              Step(w, ReserveNext(t, r)).txns[t].held
              == w.txns[t].held + [ItemFor(w.txns[t].todo[0], Seen(w, t, r).warehouse)]
  {
    assert Rollback(w, t).txns[t] == Done;
  }

  // ----- Where the room went

  lemma {:induction false} StepRows(w: World, e: Event)
    ensures |w.rows| <= |Step(w, e).rows| && |w.txns| <= |Step(w, e).txns|
    ensures forall t :: 0 <= t < |w.txns| && w.txns[t].Done? ==> Step(w, e).txns[t].Done?
    ensures Step(w, e).rows != w.rows ==>
              e.Commit? && e.txn < |w.txns| && Step(w, e).txns[e.txn].Done?
  {
  }

  /** Every row is still there, under the same key. */
  ghost predicate InPlace(a: seq<Stock>, b: seq<Stock>) {
    |a| <= |b| && forall i :: 0 <= i < |a| ==> b[i].product == a[i].product && b[i].warehouse == a[i].warehouse
  }

  lemma {:induction false} StepPlaces(w: World, e: Event)
    requires WorldOk(w)
    ensures InPlace(w.rows, Step(w, e).rows)
  {
    StepRows(w, e);
    if Step(w, e).rows != w.rows {
      PublishedRows(w, e.txn, Step(w, e).orders);
      assert Step(w, e).rows[..|w.rows|] == Publish(w, e.txn, Step(w, e).orders).rows;
    }
  }

  /** The available units that t sees are the committed ones, plus and minus what it did itself. */
  lemma {:induction false} SeenAvailable(w: World, t: nat, r: nat)
    requires WorldOk(w) && t < |w.txns| && r < |w.rows|
    ensures Seen(w, t, r).Available()
            == w.rows[r].Available() + MovedBy(w.txns[t], w.rows[r]) - Booked(w.txns[t], w.rows[r])
  {
    assert ClaimOk(w, t, r);
  }

  /** When a committed row has less available later on, some commit in between took it. */
  lemma {:induction false} CommitTook(w: World, pre: seq<Event>, mid: seq<Event>, r: nat) returns (k: nat, s: nat)
    requires mid != [] && r < |Interleave(w, pre).rows| && r < |Interleave(w, pre + mid).rows|
    requires Interleave(w, pre + mid).rows[r].Available() < Interleave(w, pre).rows[r].Available()
    ensures |pre| <= k < |pre + mid| && Took(w, pre + mid, k, s, r)
    ensures s < |Interleave(w, pre + mid).txns| && Interleave(w, pre + mid).txns[s].Done?
    decreases |mid|
  {
    var before, e := mid[..|mid| - 1], mid[|mid| - 1];
    var shorter := pre + before;
    assert pre + mid == shorter + [e] && pre + [] == pre;
    InterleaveSnoc(w, shorter, e);
    RowsGrow(w, pre, before);
    var x := Interleave(w, shorter);
    StepRows(x, e);
    if x.rows[r].Available() < Interleave(w, pre).rows[r].Available() {
      k, s := CommitTook(w, pre, before, r);
      TookBefore(w, shorter, e, k, s, r);
    } else {
      k, s := |shorter|, e.txn;
      TookNow(w, shorter, e, r);
    }
  }

  lemma {:induction false} RowsGrow(w: World, pre: seq<Event>, mid: seq<Event>)
    ensures |Interleave(w, pre).rows| <= |Interleave(w, pre + mid).rows|
    decreases |mid|
  {
    if mid == [] {
      assert pre + mid == pre;
    } else {
      var before, e := mid[..|mid| - 1], mid[|mid| - 1];
      assert pre + mid == (pre + before) + [e];
      RowsGrow(w, pre, before);
      InterleaveSnoc(w, pre + before, e);
      StepRows(Interleave(w, pre + before), e);
    }
  }

  lemma {:induction false} InterleaveSnoc(w: World, events: seq<Event>, e: Event)
    ensures Interleave(w, events + [e]) == Step(Interleave(w, events), e)
  {
    assert (events + [e])[..|events|] == events;
  }

  lemma {:induction false} TookBefore(w: World, events: seq<Event>, e: Event, k: nat, s: nat, r: nat)
    requires Took(w, events, k, s, r)
    ensures Took(w, events + [e], k, s, r)
  {
    assert (events + [e])[..k] == events[..k] && (events + [e])[..k + 1] == events[..k + 1];
  }

  lemma {:induction false} TookNow(w: World, events: seq<Event>, e: Event, r: nat)
    requires e.Commit?
    requires r < |Interleave(w, events).rows| && r < |Interleave(w, events + [e]).rows|
    requires Interleave(w, events + [e]).rows[r].Available() < Interleave(w, events).rows[r].Available()
    ensures Took(w, events + [e], |events|, e.txn, r)
  {
    assert (events + [e])[..|events|] == events && (events + [e])[..|events| + 1] == events + [e];
  }

  /** Event k is a commit of s that leaves less of row r. */
  ghost predicate Took(w: World, events: seq<Event>, k: nat, s: nat, r: nat) {
    && k < |events| && events[k] == Commit(s)
    && r < |Interleave(w, events[..k]).rows| && r < |Interleave(w, events[..k + 1]).rows|
    && Interleave(w, events[..k + 1]).rows[r].Available() < Interleave(w, events[..k]).rows[r].Available()
  }

  lemma {:induction false} SamePlaces(w: World, pre: seq<Event>, mid: seq<Event>)
    requires WorldOk(w)
    ensures InPlace(Interleave(w, pre).rows, Interleave(w, pre + mid).rows)
    decreases |mid|
  {
    if mid == [] {
      assert pre + mid == pre;
    } else {
      var shorter, e := pre + mid[..|mid| - 1], mid[|mid| - 1];
      assert pre + mid == shorter + [e];
      SamePlaces(w, pre, mid[..|mid| - 1]);
      InterleavingsAreSafe(w, shorter);
      InterleaveSnoc(w, shorter, e);
      StepPlaces(Interleave(w, shorter), e);
    }
  }

  /** A row that had room for a buyer's next line when it was read, and has not when the buyer gets its lock,
      lost it to a commit of another transaction in between. */
  lemma {:induction false} StaleRefusalMeansCommit(w: World, pre: seq<Event>, mid: seq<Event>, t: nat, r: nat)
    returns (k: nat, s: nat)
    requires Quiet(w) && Shopping(Interleave(w, pre), t) && r < |Interleave(w, pre).rows|
    requires t < |Interleave(w, pre + mid).txns| && r < |Interleave(w, pre + mid).rows|
    requires Interleave(w, pre + mid).txns[t] == Interleave(w, pre).txns[t]
    requires Interleave(w, pre).txns[t].todo[0].quantity <= Seen(Interleave(w, pre), t, r).Available()
    requires Seen(Interleave(w, pre + mid), t, r).Available() < Interleave(w, pre).txns[t].todo[0].quantity
    ensures |pre| <= k < |pre + mid| && s != t && Took(w, pre + mid, k, s, r)
  {
    InterleavingsAreSafe(w, pre);
    InterleavingsAreSafe(w, pre + mid);
    SamePlaces(w, pre, mid);
    SeenAvailable(Interleave(w, pre), t, r);
    SeenAvailable(Interleave(w, pre + mid), t, r);
    SameBooking(Interleave(w, pre).txns[t], Interleave(w, pre).rows[r], Interleave(w, pre + mid).rows[r]);
    assert pre + [] == pre;
    k, s := CommitTook(w, pre, mid, r);
  }

  lemma {:induction false} SameBooking(x: Txn, a: Stock, b: Stock)
    requires a.product == b.product && a.warehouse == b.warehouse
    ensures Booked(x, a) == Booked(x, b) && MovedBy(x, a) == MovedBy(x, b)
  {
  }

  // ----- First fit with fresh reads

  /** The first row that could serve a buyer's next line, in its current view. */
  function Pick(w: World, t: nat, active: set<nat>): nat
    requires Shopping(w, t)
  {
    FirstFit(View(w, t), active, w.txns[t].todo[0].product, w.txns[t].todo[0].quantity)
  }

  /** One event of a run in which t always picks from its current view: it locks its pick, or gives up when
      there is none; anyone else does anything but change a committed row. */
  ghost predicate FreshStep(w: World, t: nat, active: set<nat>, e: Event) {
    if e == Abort(t) then Shopping(w, t) && Pick(w, t, active) == |w.rows|
    else if e.ReserveNext? && e.txn == t then
      Shopping(w, t) && e.row == Pick(w, t, active) < |w.rows| && Free(w, t, e.row)
    else e != Commit(t) && Step(w, e).rows == w.rows
  }

  ghost predicate FreshRun(w: World, t: nat, active: set<nat>, events: seq<Event>)
    decreases |events|
  {
    events == [] ||
    (FreshRun(w, t, active, events[..|events| - 1])
     && FreshStep(Interleave(w, events[..|events| - 1]), t, active, events[|events| - 1]))
  }

  /** What the checkout loop would give t if it ran on from here alone. */
  function Outcome(w: World, t: nat, active: set<nat>): Result<(seq<Stock>, seq<Item>)>
    requires t < |w.txns| && w.txns[t].Buying?
  {
    Prepend(w.txns[t].held, ReserveCart(View(w, t), active, w.txns[t].todo))
  }

  /** Nothing of t has changed from w to v: neither where it is nor what it holds. */
  ghost predicate SameFor(w: World, v: World, t: nat) {
    && t < |w.txns| <= |v.txns| && v.txns[t] == w.txns[t]
    && forall r: nat :: (Holds(v, t, r) <==> Holds(w, t, r))
                        && (Holds(w, t, r) && Holds(v, t, r) ==> v.claims[r] == w.claims[r])
  }

  lemma {:induction false} EndsApart(w: World, t: nat, s: nat)
    requires t < |w.txns| && s < |w.txns| && s != t
    ensures SameFor(w, Rollback(w, s), t) && SameFor(w, CommitStep(w, s), t)
  {
  }

  lemma {:induction false} WritesApart(w: World, t: nat, s: nat, r: nat, v: Stock, x: Txn)
    requires t < |w.txns| && s < |w.txns| && s != t && Free(w, s, r)
    ensures SameFor(w, Write(w, s, r, v, x), t)
  {
  }

  lemma {:induction false} OthersKeepClaims(w: World, t: nat, e: Event)
    requires t < |w.txns| && w.txns[t].Buying?
    requires e != Abort(t) && e != Commit(t) && !(e.ReserveNext? && e.txn == t)
    ensures SameFor(w, Step(w, e), t)
  {
    if !e.BeginBuy? && !e.BeginSettle? && !e.BeginMove? && e.txn < |w.txns| && e.txn != t {
      EndsApart(w, t, e.txn);
      forall r: nat, v, x | Free(w, e.txn, r) ensures SameFor(w, Write(w, e.txn, r, v, x), t) {
        WritesApart(w, t, e.txn, r, v, x);
      }
    }
  }

  lemma {:induction false} OthersKeepView(w: World, t: nat, e: Event)
    requires t < |w.txns| && w.txns[t].Buying?
    requires e != Abort(t) && e != Commit(t) && !(e.ReserveNext? && e.txn == t) && Step(w, e).rows == w.rows
    ensures |w.txns| <= |Step(w, e).txns| && Step(w, e).txns[t] == w.txns[t]
    ensures View(Step(w, e), t) == View(w, t)
  {
    OthersKeepClaims(w, t, e);
  }

  lemma {:induction false} PickKeepsOutcome(w: World, t: nat, active: set<nat>)
    requires WorldOk(w) && Shopping(w, t) && Pick(w, t, active) < |w.rows| && Free(w, t, Pick(w, t, active))
    ensures
      var v := Step(w, ReserveNext(t, Pick(w, t, active)));
      && |v.txns| == |w.txns| && (v.txns[t].Buying? || v.txns[t].Done?)
      && (v.txns[t].Buying? ==> Outcome(v, t, active) == Outcome(w, t, active))
      && (v.txns[t].Done? ==> Outcome(w, t, active).Err?)
  {
    var r, c, x := Pick(w, t, active), w.txns[t].todo[0], w.txns[t];
    assert ClaimOk(w, t, r);
    assert Fits(View(w, t)[r], active, c.product, c.quantity);
    var v := Step(w, ReserveNext(t, r));
    if 0 < c.quantity {
      var item := ItemFor(c, Seen(w, t, r).warehouse);
      assert v.txns[t] == x.(todo := x.todo[1..], held := x.held + [item]);
      assert View(v, t) == Reserve(View(w, t), r, c.quantity).value;
      PrependMore(x.held, item, ReserveCart(View(v, t), active, x.todo[1..]));
    }
  }

  lemma {:induction false} FreshStepKeeps(w: World, t: nat, active: set<nat>, e: Event)
    requires WorldOk(w) && t < |w.txns| && w.txns[t].Buying? && FreshStep(w, t, active, e)
    ensures
      var v := Step(w, e);
      && t < |v.txns| && (v.txns[t].Buying? || v.txns[t].Done?)
      && (v.txns[t].Buying? ==> Outcome(v, t, active) == Outcome(w, t, active))
      && (v.txns[t].Done? ==> Outcome(w, t, active).Err?)
  {
    if e.ReserveNext? && e.txn == t {
      PickKeepsOutcome(w, t, active);
    } else if e != Abort(t) {
      OthersKeepView(w, t, e);
    }
  }

  lemma {:induction false} FreshRunKeeps(w: World, t: nat, active: set<nat>, events: seq<Event>)
    requires WorldOk(w) && t < |w.txns| && w.txns[t].Buying? && FreshRun(w, t, active, events)
    ensures
      var v := Interleave(w, events);
      && t < |v.txns| && (v.txns[t].Buying? || v.txns[t].Done?)
      && (v.txns[t].Buying? ==> Outcome(v, t, active) == Outcome(w, t, active))
      && (v.txns[t].Done? ==> Outcome(w, t, active).Err?)
    decreases |events|
  {
    if events != [] {
      var before, e := events[..|events| - 1], events[|events| - 1];
      FreshRunKeeps(w, t, active, before);
      InterleavingsAreSafe(w, before);
      var x := Interleave(w, before);
      if x.txns[t].Buying? {
        FreshStepKeeps(x, t, active, e);
      } else {
        StepRows(x, e);
      }
    }
  }

  /** First fit is complete in the row-lock machine when reads are fresh. Between a buyer's steps others may
      begin, lock, write, abort, and commit what changes no row. The buyer gives up only if some line of its
      cart fitted no row of the view it began with; it comes to the end of its cart only if every line did, and
      then holds each at its first fit there; and while every line did, it always has a next pick. */
  lemma {:induction false} FreshPicksComplete(w: World, t: nat, active: set<nat>, events: seq<Event>)
    requires WorldOk(w) && t < |w.txns| && w.txns[t].Buying? && CartOk(w.txns[t].todo)
    requires FreshRun(w, t, active, events)
    ensures
      var v := Interleave(w, events);
      var served := EachFits(View(w, t), active, w.txns[t].todo);
      && t < |v.txns| && (v.txns[t].Buying? || v.txns[t].Done?)
      && (v.txns[t].Done? ==> !served)
      && (v.txns[t].Buying? && v.txns[t].todo == [] ==>
            served && v.txns[t].held == w.txns[t].held + Assigned(View(w, t), active, w.txns[t].todo))
      && (served && Shopping(v, t) ==> Pick(v, t, active) < |v.rows|)
  {
    FreshRunKeeps(w, t, active, events);
    FirstFitComplete(View(w, t), active, w.txns[t].todo);
    var v := Interleave(w, events);
    if v.txns[t].Buying? && v.txns[t].todo == [] {
      assert v.txns[t].held + [] == v.txns[t].held;
    }
  }

  lemma {:induction false} FreshRunAppend(w: World, t: nat, active: set<nat>, events: seq<Event>, e: Event)
    requires FreshRun(w, t, active, events) && FreshStep(Interleave(w, events), t, active, e)
    ensures FreshRun(w, t, active, events + [e])
    ensures Interleave(w, events + [e]) == Step(Interleave(w, events), e)
  {
    assert (events + [e])[..|events|] == events;
  }

  // ----- Fresh picks while others commit

  /** The rows of a product that a buyer has not come to yet are for the buyer what is committed. */
  lemma {:induction false} UntouchedRows(w: World, t: nat, r: nat, p: nat)
    requires WorldOk(w) && t < |w.txns| && w.txns[t].Buying? && r < |w.rows| && w.rows[r].product == p
    requires forall k :: 0 <= k < |w.txns[t].held| ==> w.txns[t].held[k].product != p
    ensures Seen(w, t, r) == w.rows[r]
  {
    assert ClaimOk(w, t, r);
    SumZero(w.txns[t].held, QtyAt(p, w.rows[r].warehouse));
  }

  lemma {:induction false} SameFirstFit(a: seq<Stock>, b: seq<Stock>, active: set<nat>, p: nat, q: int)
    requires |a| == |b| && forall r :: 0 <= r < |a| ==> (Fits(a[r], active, p, q) <==> Fits(b[r], active, p, q))
    ensures FirstFit(a, active, p, q) == FirstFit(b, active, p, q)
  {
  }

  /** In every interleaving, whatever others commit: a buyer of distinct products who looks again picks, for its
      next line, exactly the first fit of the rows committed at that moment. */
  lemma {:induction false} FreshPickIsCommitted(w: World, t: nat, active: set<nat>)
    requires WorldOk(w) && Shopping(w, t) && CartOk(w.txns[t].cart)
    ensures
      var c := w.txns[t].todo[0];
      Pick(w, t, active) == FirstFit(w.rows, active, c.product, c.quantity)
  {
    var x := w.txns[t];
    var c := x.todo[0];
    assert TxnOk(w, t);
    forall k | 0 <= k < |x.held| ensures x.held[k].product != c.product {
      assert x.held[k].product == x.cart[..|x.held|][k].product == x.cart[k].product;
      assert c == x.cart[|x.held|];
    }
    forall r | 0 <= r < |w.rows|
      ensures Fits(View(w, t)[r], active, c.product, c.quantity) <==> Fits(w.rows[r], active, c.product, c.quantity)
    {
      assert ClaimOk(w, t, r);
      if w.rows[r].product == c.product {
        UntouchedRows(w, t, r, c.product);
      }
    }
    SameFirstFit(View(w, t), w.rows, active, c.product, c.quantity);
  }

  /** So a buyer that finds no row for its next line could not have been served at that moment by a whole checkout
      run alone on the committed rows, and one that finds a row could have been served there for that line. */
  lemma {:induction false} GivesUpOnlyIfUnservable(w: World, events: seq<Event>, t: nat, active: set<nat>)
    requires Quiet(w) && Shopping(Interleave(w, events), t) && CartOk(Interleave(w, events).txns[t].cart)
    ensures
      var v := Interleave(w, events);
      var c := v.txns[t].todo[0];
      && (Pick(v, t, active) == |v.rows| <==> FirstFit(v.rows, active, c.product, c.quantity) == |v.rows|)
      && (Pick(v, t, active) == |v.rows| ==> ReserveCart(v.rows, active, v.txns[t].cart).Err?)
  {
    InterleavingsAreSafe(w, events);
    var v := Interleave(w, events);
    FreshPickIsCommitted(v, t, active);
    var x := v.txns[t];
    assert TxnOk(v, t);
    assert x.todo[0] == x.cart[|x.held|];
    FirstFitComplete(v.rows, active, x.cart);
  }

  /** Nobody else holds a row. */
  ghost predicate Alone(w: World, t: nat) {
    forall r :: r in w.claims ==> w.claims[r].owner == t
  }

  /** Such a run exists: alone with the rows, a buyer comes to its end, and FreshPicksComplete says which one. */
  lemma {:induction false} FreshRunEnds(w: World, t: nat, active: set<nat>, events: seq<Event>)
    returns (all: seq<Event>)
    requires WorldOk(w) && t < |w.txns| && w.txns[t].Buying?
    requires FreshRun(w, t, active, events) && Alone(Interleave(w, events), t)
    ensures FreshRun(w, t, active, all) && t < |Interleave(w, all).txns|
    ensures Interleave(w, all).txns[t].Done?
            || (Interleave(w, all).txns[t].Buying? && Interleave(w, all).txns[t].todo == [])
    decreases var x := Interleave(w, events);
              if t < |x.txns| && x.txns[t].Buying? then 1 + |x.txns[t].todo| else 0
  {
    FreshRunKeeps(w, t, active, events);
    InterleavingsAreSafe(w, events);
    var x := Interleave(w, events);
    all := events;
    if x.txns[t].Buying? && x.txns[t].todo != [] {
      var r := Pick(x, t, active);
      var e := if r == |x.rows| then Abort(t) else ReserveNext(t, r);
      FreshRunAppend(w, t, active, events, e);
      NextPick(x, t, active, e);
      all := FreshRunEnds(w, t, active, events + [e]);
    }
  }

  lemma {:induction false} NextPick(w: World, t: nat, active: set<nat>, e: Event)
    requires WorldOk(w) && Shopping(w, t) && Alone(w, t)
    requires e == if Pick(w, t, active) == |w.rows| then Abort(t) else ReserveNext(t, Pick(w, t, active))
    ensures
      var v := Step(w, e);
      && Alone(v, t) && t < |v.txns|
      && (v.txns[t].Done? || (v.txns[t].Buying? && |v.txns[t].todo| < |w.txns[t].todo|))
  {
    if e.ReserveNext? {
      assert ClaimOk(w, t, e.row);
    }
  }

  // ----- One settlement for each order

  /** An order that no longer waits never waits again. */
  lemma {:induction false} SettledStays(w: World, e: Event, o: nat)
    requires WorldOk(w) && o < |w.orders| && !w.orders[o].waiting
    ensures o < |Step(w, e).orders| && !Step(w, e).orders[o].waiting
  {
    if e.Commit? && e.txn < |w.txns| {
      assert TxnOk(w, e.txn);
    }
  }

  lemma {:induction false} SettledStaysAlong(w: World, events: seq<Event>, i: nat, o: nat)
    requires WorldOk(w) && i <= |events|
    requires o < |Interleave(w, events[..i]).orders| && !Interleave(w, events[..i]).orders[o].waiting
    ensures o < |Interleave(w, events).orders| && !Interleave(w, events).orders[o].waiting
    decreases |events|
  {
    if i == |events| {
      assert events[..i] == events;
    } else {
      var before := events[..|events| - 1];
      assert before[..i] == events[..i];
      SettledStaysAlong(w, before, i, o);
      InterleavingsAreSafe(w, before);
      SettledStays(Interleave(w, before), events[|events| - 1], o);
    }
  }

  /** Transaction t is about to commit the settlement of order o: a payment or a cancellation. */
  ghost predicate Settles(w: World, t: nat, o: nat) {
    t < |w.txns| && w.txns[t].Settling? && w.txns[t].order == o && w.txns[t].count == |w.txns[t].items|
  }

  /** No interleaving commits two settlements of one order: not two payments, nor a payment and a cancellation. */
  lemma {:induction false} OneSettlement(w: World, events: seq<Event>, i: nat, j: nat, s: nat, t: nat, o: nat)
    requires Quiet(w) && i < j < |events| && events[i] == Commit(s) && events[j] == Commit(t)
    requires Settles(Interleave(w, events[..i]), s, o)
    ensures !Settles(Interleave(w, events[..j]), t, o)
  {
    InterleavingsAreSafe(w, events[..i]);
    InterleavingsAreSafe(w, events[..j]);
    var x := Interleave(w, events[..i]);
    assert TxnOk(x, s);
    assert events[..i + 1][..i] == events[..i];
    assert Interleave(w, events[..i + 1]) == CommitStep(x, s);
    assert events[..j][..i + 1] == events[..i + 1];
    SettledStaysAlong(w, events[..j], i + 1, o);
    var y := Interleave(w, events[..j]);
    assert t < |y.txns| ==> TxnOk(y, t);
  }

  // ----- The stale read

  const UNIT := CartItem(0, 0, 0, 1, 10)

  /** The reads must be fresh. There are two rows of one unit, and two buyers of one unit. The second, who
      picked row 0 before the first committed it, is rolled back although row 1 has the unit, and would have
      got it from there. */
  lemma {:induction false} StaleReadRefusesServable(start: World, begun: World, racing: World, raced: World)
    requires start == World([Stock(0, 0, 1, 0), Stock(0, 1, 1, 0)], map[], map[], [], map[], [])
    requires begun == Step(Step(start, BeginBuy([UNIT])), BeginBuy([UNIT]))
    requires racing == Step(begun, ReserveNext(0, 0)) && raced == Step(racing, Commit(0))
    ensures Quiet(start) && raced.txns == [Done, Buying([UNIT], [UNIT], [])]
    ensures FirstFit(raced.rows, {0, 1}, 0, 1) == 1
    ensures Step(raced, ReserveNext(1, 0)) == Rollback(raced, 1)
    ensures Step(raced, ReserveNext(1, 1)).txns == [Done, Buying([UNIT], [], [ItemFor(UNIT, 1)])]
  {
    Taken(begun, 0, 0);
    FirstCommits(racing);
    SecondBuyer(raced);
  }

  lemma {:induction false} FirstCommits(w: World)
    requires w.rows == [Stock(0, 0, 1, 0), Stock(0, 1, 1, 0)]
    requires w.claims == map[0 := Claim(0, Stock(0, 0, 1, 1))]
    requires w.txns == [Buying([UNIT], [], [ItemFor(UNIT, 0)]), Buying([UNIT], [UNIT], [])]
    ensures
      var v := Step(w, Commit(0));
      && v.rows == [Stock(0, 0, 1, 1), Stock(0, 1, 1, 0)] && v.claims == map[]
      && v.txns == [Done, Buying([UNIT], [UNIT], [])]
  {
    assert Step(w, Commit(0)) == Publish(w, 0, w.orders + [Booking([ItemFor(UNIT, 0)], true)]);
  }

  lemma {:induction false} SecondBuyer(w: World)
    requires w.rows == [Stock(0, 0, 1, 1), Stock(0, 1, 1, 0)]
    requires w.claims == map[] && w.txns == [Done, Buying([UNIT], [UNIT], [])]
    ensures FirstFit(w.rows, {0, 1}, 0, 1) == 1
    ensures Step(w, ReserveNext(1, 0)) == Rollback(w, 1)
    ensures Step(w, ReserveNext(1, 1)).txns == [Done, Buying([UNIT], [], [ItemFor(UNIT, 1)])]
  {
    Taken(w, 1, 1);
    assert !Fits(w.rows[0], {0, 1}, 0, 1) && Fits(w.rows[1], {0, 1}, 0, 1);
  }

  /** A buyer of the unit gets it from a free row that has it. */
  lemma {:induction false} Taken(w: World, t: nat, r: nat)
    requires t < |w.txns| && w.txns[t] == Buying([UNIT], [UNIT], []) && r < |w.rows| && r !in w.claims
    requires w.rows[r] == Stock(0, r, 1, 0)
    ensures Step(w, ReserveNext(t, r)) == Write(w, t, r, Stock(0, r, 1, 1), Buying([UNIT], [], [ItemFor(UNIT, r)]))
  {
    assert [UNIT][1..] == [];
    assert [] + [ItemFor(UNIT, r)] == [ItemFor(UNIT, r)];
  }
}
