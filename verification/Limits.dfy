/** One discount under concurrent checkouts and cancellations. Its row is locked from the recheck, or from the
    countdown, to the end of the transaction; usages are committed with the counter. */
module Limits {
  import opened Common

  /** A checkout that applies the discount for a user, or the cancellation of an order that used it, before
      and after it has locked the row and written the counter. */
  datatype Txn =
    | Done
    | Applying(user: nat, counted: bool)
    | Cancelling(order: nat, counted: bool)

  /** Committed counter and usages, orders to users; the counter that the row's holder has written; the
      locks of the row and of the usages. New orders are named by their transactions. */
  datatype World = World(
    limitTotal: Option<nat>, limitPerUser: Option<nat>, usedCount: int, uses: map<nat, nat>,
    holder: Option<nat>, written: int, useLocks: map<nat, nat>, txns: seq<Txn>)

  datatype Event =
    | BeginApply(user: nat)
    | BeginCancel(order: nat)
    | CountUp(txn: nat)
    | CountDown(txn: nat)
    | Commit(txn: nat)
    | Abort(txn: nat)

  function UsesBy(uses: map<nat, nat>, user: nat): set<nat> {
    set o | o in uses && uses[o] == user
  }

  /** The recheck under the lock. */
  predicate Exhausted(w: World, user: nat) {
    || (w.limitTotal.Some? && w.limitTotal.value <= w.usedCount)
    || (w.limitPerUser.Some? && w.limitPerUser.value <= |UsesBy(w.uses, user)|)
  }

  function Ended(w: World, t: nat): World
    requires t < |w.txns|
  {
    w.(holder := if w.holder == Some(t) then None else w.holder,
       useLocks := map o | o in w.useLocks && w.useLocks[o] != t :: w.useLocks[o],
       txns := w.txns[t := Done])
  }

  function Counted(w: World, t: nat, value: int, x: Txn): World
    requires t < |w.txns|
  {
    w.(holder := Some(t), written := value, txns := w.txns[t := x])
  }

  function CommitStep(w: World, t: nat): World
    requires t < |w.txns|
  {
    match w.txns[t]
    case Done => w
    case Applying(u, counted) => if counted then Ended(w, t).(usedCount := w.written, uses := w.uses[t := u]) else w
    case Cancelling(o, counted) => if counted then Ended(w, t).(usedCount := w.written, uses := w.uses - {o}) else w
  }

  /** One event; one that is not possible now, or that waits for a lock, changes nothing. */
  function Step(w: World, e: Event): World {
    match e
    case BeginApply(u) => w.(txns := w.txns + [Applying(u, false)])
    case BeginCancel(o) =>
      if o in w.uses && o !in w.useLocks
      then w.(useLocks := w.useLocks[o := |w.txns|], txns := w.txns + [Cancelling(o, false)])
      else w
    case CountUp(t) =>
      if t < |w.txns| && w.txns[t].Applying? && !w.txns[t].counted && w.holder.None? then
        if Exhausted(w, w.txns[t].user) then Ended(w, t)
        else Counted(w, t, w.usedCount + 1, Applying(w.txns[t].user, true))
      else w
    case CountDown(t) =>
      if t < |w.txns| && w.txns[t].Cancelling? && !w.txns[t].counted && w.holder.None?
      then Counted(w, t, if 0 < w.usedCount then w.usedCount - 1 else w.usedCount, Cancelling(w.txns[t].order, true))
      else w
    case Commit(t) => if t < |w.txns| then CommitStep(w, t) else w
    case Abort(t) => if t < |w.txns| then Ended(w, t) else w
  }

  function Interleave(w: World, events: seq<Event>): World {
    if events == [] then w
    else Step(Interleave(w, events[..|events| - 1]), events[|events| - 1])
  }

  // ----- Invariant

  ghost predicate Within(w: World) {
    && w.usedCount == |w.uses|
    && (w.limitTotal.Some? ==> w.usedCount <= w.limitTotal.value)
    && (w.limitPerUser.Some? ==> forall u: nat :: |UsesBy(w.uses, u)| <= w.limitPerUser.value)
  }

  /** The holder, and nobody else, has counted, from the committed counter and within the limits. */
  ghost predicate TxnOk(w: World, t: nat)
    requires t < |w.txns|
  {
    match w.txns[t]
    case Done => w.holder != Some(t)
    case Applying(u, counted) =>
      && counted == (w.holder == Some(t)) && t !in w.uses
      && (counted ==> w.written == w.usedCount + 1 && !Exhausted(w, u))
    case Cancelling(o, counted) =>
      && counted == (w.holder == Some(t))
      && o in w.uses && o in w.useLocks && w.useLocks[o] == t
      && (counted ==> w.written == w.usedCount - 1)
  }

  ghost predicate WorldOk(w: World) {
    && Within(w)
    && (forall o :: o in w.uses ==> o < |w.txns|)
    && (forall o :: o in w.useLocks ==> w.useLocks[o] < |w.txns|)
    && (w.holder.Some? ==> w.holder.value < |w.txns|)
    && (forall t :: 0 <= t < |w.txns| ==> TxnOk(w, t))
  }

  lemma {:induction false} MoreUses(uses: map<nat, nat>, o: nat, user: nat, u: nat)
    requires o !in uses
    ensures |uses[o := user]| == |uses| + 1
    ensures |UsesBy(uses[o := user], u)| == |UsesBy(uses, u)| + if u == user then 1 else 0
  {
    assert uses[o := user].Keys == uses.Keys + {o};
    assert |uses[o := user].Keys| == |uses.Keys| + 1;
    if u == user {
      OneMore(UsesBy(uses, u), UsesBy(uses[o := user], u), o);
    } else {
      assert UsesBy(uses[o := user], u) == UsesBy(uses, u);
    }
  }

  lemma {:induction false} OneMore(a: set<nat>, b: set<nat>, o: nat)
    requires o !in a && (forall x :: x in b <==> x in a || x == o)
    ensures |b| == |a| + 1
  {
    assert b == a + {o};
  }

  lemma {:induction false} FewerUses(uses: map<nat, nat>, o: nat, u: nat)
    requires o in uses
    ensures |uses - {o}| == |uses| - 1 && 0 < |uses|
    ensures |UsesBy(uses - {o}, u)| <= |UsesBy(uses, u)|
  {
    assert (uses - {o}).Keys == uses.Keys - {o};
    assert |(uses - {o}).Keys| == |uses.Keys| - 1;
    SmallerSubset(UsesBy(uses - {o}, u), UsesBy(uses, u));
  }

  lemma {:induction false} EndedKeeps(w: World, t: nat)
    requires WorldOk(w) && t < |w.txns|
    ensures WorldOk(Ended(w, t))
  {
    forall s | 0 <= s < |w.txns| ensures TxnOk(Ended(w, t), s) {
      assert TxnOk(w, s);
    }
  }

  lemma {:induction false} BeginKeeps(w: World, e: Event)
    requires WorldOk(w) && (e.BeginApply? || e.BeginCancel?)
    ensures WorldOk(Step(w, e))
  {
    var w' := Step(w, e);
    forall s | 0 <= s < |w'.txns| ensures TxnOk(w', s) {
      assert s < |w.txns| ==> TxnOk(w, s);
    }
  }

  lemma {:induction false} CountKeeps(w: World, e: Event)
    requires WorldOk(w) && (e.CountUp? || e.CountDown?) && Step(w, e) != w && Step(w, e) != Ended(w, e.txn)
    ensures WorldOk(Step(w, e))
  {
    var w' := Step(w, e);
    if e.CountDown? {
      assert TxnOk(w, e.txn);
      FewerUses(w.uses, w.txns[e.txn].order, 0);
    }
    forall s | 0 <= s < |w'.txns| ensures TxnOk(w', s) {
      assert TxnOk(w, s);
    }
  }

  lemma {:induction false} CommitApplyKeeps(w: World, t: nat)
    requires WorldOk(w) && t < |w.txns| && w.txns[t].Applying? && w.txns[t].counted
    ensures WorldOk(CommitStep(w, t))
  {
    var w', user := CommitStep(w, t), w.txns[t].user;
    assert TxnOk(w, t);
    forall u: nat
      ensures |w'.uses| == |w.uses| + 1
      ensures |UsesBy(w'.uses, u)| == |UsesBy(w.uses, u)| + if u == user then 1 else 0
    {
      MoreUses(w.uses, t, user, u);
    }
    forall s | 0 <= s < |w'.txns| ensures TxnOk(w', s) {
      assert TxnOk(w, s);
    }
  }

  lemma {:induction false} CommitCancelKeeps(w: World, t: nat)
    requires WorldOk(w) && t < |w.txns| && w.txns[t].Cancelling? && w.txns[t].counted
    ensures WorldOk(CommitStep(w, t))
  {
    var w', o := CommitStep(w, t), w.txns[t].order;
    assert TxnOk(w, t);
    forall u: nat
      ensures |w'.uses| == |w.uses| - 1
      ensures |UsesBy(w'.uses, u)| <= |UsesBy(w.uses, u)|
    {
      FewerUses(w.uses, o, u);
    }
    forall s | 0 <= s < |w'.txns| ensures TxnOk(w', s) {
      assert TxnOk(w, s);
    }
  }

  lemma {:induction false} StepKeeps(w: World, e: Event)
    requires WorldOk(w)
    ensures WorldOk(Step(w, e))
  {
    if e.BeginApply? || e.BeginCancel? {
      BeginKeeps(w, e);
    } else if e.txn < |w.txns| {
      EndedKeeps(w, e.txn);
      if e.CountUp? || e.CountDown? {
        if Step(w, e) != w && Step(w, e) != Ended(w, e.txn) {
          CountKeeps(w, e);
        }
      } else if e.Commit? && w.txns[e.txn].Applying? && w.txns[e.txn].counted {
        CommitApplyKeeps(w, e.txn);
      } else if e.Commit? && w.txns[e.txn].Cancelling? && w.txns[e.txn].counted {
        CommitCancelKeeps(w, e.txn);
      }
    }
  }

  /** The recheck under the lock lets a checkout count exactly while both limits leave room for one more use;
      it counts from the committed counter, and commits nothing yet. */
  lemma {:induction false} CountsExactly(w: World, t: nat, u: nat)
    requires t < |w.txns| && w.txns[t] == Applying(u, false) && w.holder.None?
    ensures
      var w' := Step(w, CountUp(t));
      && w'.uses == w.uses && w'.usedCount == w.usedCount
      && if (w.limitTotal.Some? ==> w.usedCount < w.limitTotal.value)
            && (w.limitPerUser.Some? ==> |set o | o in w.uses && w.uses[o] == u| < w.limitPerUser.value)
         then w'.txns[t] == Applying(u, true) && w'.written == w.usedCount + 1 && w'.holder == Some(t)
         else w'.txns[t] == Done && w'.holder.None?
  {
    assert UsesBy(w.uses, u) == set o | o in w.uses && w.uses[o] == u;
  }

  /** A commit adds or removes exactly one use and moves the counter with it. Nothing else changes either. */
  lemma {:induction false} UsesChangeExactly(w: World, e: Event)
    requires WorldOk(w)
    ensures
      var w' := Step(w, e);
      if e.Commit? && e.txn < |w.txns| && w.txns[e.txn].Applying? && w.txns[e.txn].counted
      then e.txn !in w.uses && w'.uses == w.uses[e.txn := w.txns[e.txn].user] && w'.usedCount == w.usedCount + 1
      else if e.Commit? && e.txn < |w.txns| && w.txns[e.txn].Cancelling? && w.txns[e.txn].counted
      then w.txns[e.txn].order in w.uses && w'.uses == w.uses - {w.txns[e.txn].order}
           && w'.usedCount == w.usedCount - 1
      else w'.uses == w.uses && w'.usedCount == w.usedCount
  {
    assert e.Commit? && e.txn < |w.txns| ==> TxnOk(w, e.txn);
  }

  lemma {:induction false} InterleavingsAreSafe(w: World, events: seq<Event>)
    requires WorldOk(w)
    ensures WorldOk(Interleave(w, events))
    decreases |events|
  {
    if events != [] {
      InterleavingsAreSafe(w, events[..|events| - 1]);
      StepKeeps(Interleave(w, events[..|events| - 1]), events[|events| - 1]);
    }
  }

  /** From an unused discount, in every interleaving the counter is the number of usages, both limits hold,
      and a cancellation always finds something to count down. */
  lemma {:induction false} LimitsUnderInterleaving(
    limitTotal: Option<nat>, limitPerUser: Option<nat>, events: seq<Event>, user: nat, t: nat)
    ensures
      var w := Interleave(World(limitTotal, limitPerUser, 0, map[], None, 0, map[], []), events);
      && w.usedCount == |w.uses|
      && (limitTotal.Some? ==> |w.uses| <= limitTotal.value)
      && (limitPerUser.Some? ==> |UsesBy(w.uses, user)| <= limitPerUser.value)
      && (t < |w.txns| && w.txns[t].Cancelling? ==> 0 < w.usedCount)
  {
    var start := World(limitTotal, limitPerUser, 0, map[], None, 0, map[], []);
    assert forall u: nat :: UsesBy(start.uses, u) == {};
    InterleavingsAreSafe(start, events);
    SameLimits(start, events);
    var w := Interleave(start, events);
    if t < |w.txns| && w.txns[t].Cancelling? {
      assert TxnOk(w, t);
      FewerUses(w.uses, w.txns[t].order, user);
    }
  }

  lemma {:induction false} SameLimits(w: World, events: seq<Event>)
    ensures Interleave(w, events).limitTotal == w.limitTotal && Interleave(w, events).limitPerUser == w.limitPerUser
    decreases |events|
  {
    if events != [] {
      SameLimits(w, events[..|events| - 1]);
    }
  }
}
