/** The payment attempts of one order under concurrent requests. Opening an attempt, completing one and cancelling
    the order lock the order first; failing or cancelling an attempt locks only the attempt. */
module Attempts {
  import opened Common

  datatype Status = Pending | Success | Failed | Cancelled

  datatype Attempt = Attempt(provider: nat, status: Status)

  /** A transaction, before and after its checks. An opening one decides whether a new attempt is needed. */
  datatype Txn =
    | Done
    | Opening(provider: nat, decision: Option<bool>)
    | Completing(attempt: nat, checked: bool)
    | Ending(attempt: nat, to: Status, checked: bool)
    | CancellingOrder(checked: bool)

  /** Committed order and attempts, and the locks of the order and of the attempts. */
  datatype World = World(
    waiting: bool, attempts: seq<Attempt>, holder: Option<nat>, locks: map<nat, nat>, txns: seq<Txn>)

  datatype Event =
    | Begin(request: Txn)
    | LockOrder(txn: nat)
    | LockAttempt(txn: nat, attempt: nat)
    | Check(txn: nat)
    | Commit(txn: nat)
    | Abort(txn: nat)

  predicate HasPending(attempts: seq<Attempt>, provider: nat) {
    exists k :: 0 <= k < |attempts| && attempts[k].provider == provider && attempts[k].status.Pending?
  }

  predicate HasSuccess(attempts: seq<Attempt>) {
    exists k :: 0 <= k < |attempts| && attempts[k].status.Success?
  }

  predicate HoldsAttempt(w: World, t: nat, k: nat) {
    k in w.locks && w.locks[k] == t
  }

  /** t has locked every pending attempt. */
  predicate HoldsPending(w: World, t: nat) {
    forall k :: 0 <= k < |w.attempts| && w.attempts[k].status.Pending? ==> HoldsAttempt(w, t, k)
  }

  function Ended(w: World, t: nat): World
    requires t < |w.txns|
  {
    w.(holder := if w.holder == Some(t) then None else w.holder,
       locks := map k | k in w.locks && w.locks[k] != t :: w.locks[k],
       txns := w.txns[t := Done])
  }

  /** Every pending attempt but one becomes cancelled. */
  function CancelPending(attempts: seq<Attempt>, except: nat): (r: seq<Attempt>)
    ensures |r| == |attempts|
  {
    seq(|attempts|, k requires 0 <= k < |attempts| =>
      if attempts[k].status.Pending? && k != except then attempts[k].(status := Cancelled) else attempts[k])
  }

  predicate CanEnd(s: Status, to: Status) {
    s.Pending? || (s.Failed? && to.Cancelled?)
  }

  /** The checks under the locks; a transaction that fails them is over. */
  function CheckStep(w: World, t: nat): World
    requires t < |w.txns|
  {
    match w.txns[t]
    case Opening(p, None) =>
      if w.holder != Some(t) then w
      else if !w.waiting then Ended(w, t)
      else w.(txns := w.txns[t := Opening(p, Some(!HasPending(w.attempts, p)))])
    case Completing(k, false) =>
      if w.holder != Some(t) || |w.attempts| <= k || !HoldsAttempt(w, t, k) then w
      else if !w.attempts[k].status.Pending? || !w.waiting || HasSuccess(w.attempts) then Ended(w, t)
      else w.(txns := w.txns[t := Completing(k, true)])
    case Ending(k, to, false) =>
      if |w.attempts| <= k || !HoldsAttempt(w, t, k) then w
      else if !(to.Failed? || to.Cancelled?) || !CanEnd(w.attempts[k].status, to) then Ended(w, t)
      else w.(txns := w.txns[t := Ending(k, to, true)])
    case CancellingOrder(false) =>
      if w.holder != Some(t) then w
      else if !w.waiting then Ended(w, t)
      else w.(txns := w.txns[t := CancellingOrder(true)])
    case _ => w
  }

  function CommitStep(w: World, t: nat): World
    requires t < |w.txns|
  {
    match w.txns[t]
    case Opening(p, Some(needed)) =>
      if needed then Ended(w, t).(attempts := w.attempts + [Attempt(p, Pending)]) else Ended(w, t)
    case Completing(k, true) =>
      if k < |w.attempts| && HoldsPending(w, t)
      then Ended(w, t).(waiting := false,
                        attempts := CancelPending(w.attempts, k)[k := w.attempts[k].(status := Success)])
      else w
    case Ending(k, to, true) =>
      if k < |w.attempts| then Ended(w, t).(attempts := w.attempts[k := w.attempts[k].(status := to)]) else w
    case CancellingOrder(true) =>
      if HoldsPending(w, t)
      then Ended(w, t).(waiting := false, attempts := CancelPending(w.attempts, |w.attempts|)) else w
    case _ => w
  }

  predicate Fresh(x: Txn) {
    match x
    case Done => false
    case Opening(_, decision) => decision.None?
    case Completing(_, checked) => !checked
    case Ending(_, _, checked) => !checked
    case CancellingOrder(checked) => !checked
  }

  /** One event; one that is not possible now, or that waits for a lock, changes nothing. */
  function Step(w: World, e: Event): World {
    match e
    case Begin(x) => if Fresh(x) then w.(txns := w.txns + [x]) else w
    case LockOrder(t) =>
      if t < |w.txns| && !w.txns[t].Done? && !w.txns[t].Ending? && w.holder.None? then w.(holder := Some(t)) else w
    case LockAttempt(t, k) =>
      if t < |w.txns| && !w.txns[t].Done? && k !in w.locks then w.(locks := w.locks[k := t]) else w
    case Check(t) => if t < |w.txns| then CheckStep(w, t) else w
    case Commit(t) => if t < |w.txns| then CommitStep(w, t) else w
    case Abort(t) => if t < |w.txns| then Ended(w, t) else w
  }

  function Interleave(w: World, events: seq<Event>): World {
    if events == [] then w
    else Step(Interleave(w, events[..|events| - 1]), events[|events| - 1])
  }

  // ----- Invariant

  /** One pending attempt for each provider, one success, and neither once the order's wait is over or before. */
  ghost predicate AttemptsOk(w: World) {
    && (forall j, k :: 0 <= j < k < |w.attempts| && w.attempts[j].provider == w.attempts[k].provider ==>
          !(w.attempts[j].status.Pending? && w.attempts[k].status.Pending?))
    && (forall j, k :: 0 <= j < k < |w.attempts| ==>
          !(w.attempts[j].status.Success? && w.attempts[k].status.Success?))
    && (forall k :: 0 <= k < |w.attempts| ==>
          && (w.attempts[k].status.Pending? ==> w.waiting)
          && (w.attempts[k].status.Success? ==> !w.waiting))
  }

  /** What a transaction has checked still holds while it keeps its locks. */
  ghost predicate TxnOk(w: World, t: nat)
    requires t < |w.txns|
  {
    match w.txns[t]
    case Done => true
    case Opening(p, decision) =>
      decision.Some? ==> w.holder == Some(t) && w.waiting && (decision.value ==> !HasPending(w.attempts, p))
    case Completing(k, checked) =>
      checked ==> && w.holder == Some(t) && k < |w.attempts| && HoldsAttempt(w, t, k)
                  && w.waiting && w.attempts[k].status.Pending?
    case Ending(k, to, checked) =>
      checked ==> && k < |w.attempts| && HoldsAttempt(w, t, k) && (to.Failed? || to.Cancelled?)
                  && CanEnd(w.attempts[k].status, to)
    case CancellingOrder(checked) => checked ==> w.holder == Some(t) && w.waiting
  }

  ghost predicate WorldOk(w: World) {
    && AttemptsOk(w)
    && (w.holder.Some? ==> w.holder.value < |w.txns|)
    && (forall k :: k in w.locks ==> w.locks[k] < |w.txns|)
    && (forall t :: 0 <= t < |w.txns| ==> TxnOk(w, t))
  }

  lemma {:induction false} EndedKeeps(w: World, t: nat)
    requires WorldOk(w) && t < |w.txns|
    ensures WorldOk(Ended(w, t))
  {
    forall s | 0 <= s < |w.txns| ensures TxnOk(Ended(w, t), s) {
      assert TxnOk(w, s);
    }
  }

  lemma {:induction false} LocksKeep(w: World, e: Event)
    requires WorldOk(w) && (e.Begin? || e.LockOrder? || e.LockAttempt?)
    ensures WorldOk(Step(w, e))
  {
    var w' := Step(w, e);
    forall s | 0 <= s < |w'.txns| ensures TxnOk(w', s) {
      assert s < |w.txns| ==> TxnOk(w, s);
    }
  }

  lemma {:induction false} PassedKeeps(w: World, t: nat, x: Txn)
    requires WorldOk(w) && t < |w.txns| && TxnOk(w.(txns := w.txns[t := x]), t)
    ensures WorldOk(w.(txns := w.txns[t := x]))
  {
    var w' := w.(txns := w.txns[t := x]);
    forall s | 0 <= s < |w'.txns| ensures TxnOk(w', s) {
      assert TxnOk(w, s);
    }
  }

  lemma {:induction false} CheckKeeps(w: World, t: nat)
    requires WorldOk(w) && t < |w.txns|
    ensures WorldOk(CheckStep(w, t))
  {
    EndedKeeps(w, t);
    var w' := CheckStep(w, t);
    if w' != Ended(w, t) && w' != w {
      assert w' == w.(txns := w.txns[t := w'.txns[t]]);
      PassedKeeps(w, t, w'.txns[t]);
    }
  }

  /** Changing attempts by a transaction that held what it changed: the others' checks still hold. */
  lemma {:induction false} OpenKeeps(w: World, t: nat, p: nat)
    requires WorldOk(w) && t < |w.txns| && w.txns[t] == Opening(p, Some(true))
    ensures WorldOk(CommitStep(w, t))
  {
    var w' := CommitStep(w, t);
    assert TxnOk(w, t);
    forall s | 0 <= s < |w'.txns| ensures TxnOk(w', s) {
      assert TxnOk(w, s);
    }
  }

  lemma {:induction false} EndKeeps(w: World, t: nat)
    requires WorldOk(w) && t < |w.txns| && w.txns[t].Ending? && w.txns[t].checked
    ensures WorldOk(CommitStep(w, t))
  {
    var w' := CommitStep(w, t);
    assert TxnOk(w, t);
    forall s | 0 <= s < |w'.txns| ensures TxnOk(w', s) {
      assert TxnOk(w, s);
      if w.txns[s].Opening? {
        FewerPending(w.attempts, w'.attempts, w.txns[s].provider);
      }
    }
  }

  lemma {:induction false} FewerPending(a: seq<Attempt>, b: seq<Attempt>, p: nat)
    requires |a| == |b|
    requires forall k :: 0 <= k < |a| ==>
               b[k].provider == a[k].provider && (b[k].status.Pending? ==> a[k].status.Pending?)
    ensures HasPending(b, p) ==> HasPending(a, p)
  {
    if k :| 0 <= k < |b| && b[k].provider == p && b[k].status.Pending? {
      assert a[k].provider == p && a[k].status.Pending?;
    }
  }

  lemma {:induction false} CompleteKeeps(w: World, t: nat)
    requires WorldOk(w) && t < |w.txns| && w.txns[t].Completing? && w.txns[t].checked
    requires w.txns[t].attempt < |w.attempts| && HoldsPending(w, t)
    ensures WorldOk(CommitStep(w, t))
  {
    var w' := CommitStep(w, t);
    assert TxnOk(w, t);
    forall s | 0 <= s < |w'.txns| ensures TxnOk(w', s) {
      assert TxnOk(w, s);
    }
  }

  lemma {:induction false} CancelKeeps(w: World, t: nat)
    requires WorldOk(w) && t < |w.txns| && w.txns[t].CancellingOrder? && w.txns[t].checked && HoldsPending(w, t)
    ensures WorldOk(CommitStep(w, t))
  {
    var w' := CommitStep(w, t);
    assert TxnOk(w, t);
    forall s | 0 <= s < |w'.txns| ensures TxnOk(w', s) {
      assert TxnOk(w, s);
    }
  }

  lemma {:induction false} CommitKeeps(w: World, t: nat)
    requires WorldOk(w) && t < |w.txns|
    ensures WorldOk(CommitStep(w, t))
  {
    EndedKeeps(w, t);
    match w.txns[t]
    case Opening(p, Some(needed)) =>
      if needed {
        OpenKeeps(w, t, p);
      }
    case Completing(k, true) =>
      if k < |w.attempts| && HoldsPending(w, t) {
        CompleteKeeps(w, t);
      }
    case Ending(_, _, true) => EndKeeps(w, t);
    case CancellingOrder(true) =>
      if HoldsPending(w, t) {
        CancelKeeps(w, t);
      }
    case _ =>
  }

  lemma {:induction false} StepKeeps(w: World, e: Event)
    requires WorldOk(w)
    ensures WorldOk(Step(w, e))
  {
    if e.Begin? || e.LockOrder? || e.LockAttempt? {
      LocksKeep(w, e);
    } else if e.txn < |w.txns| {
      EndedKeeps(w, e.txn);
      CheckKeeps(w, e.txn);
      CommitKeeps(w, e.txn);
    }
  }

  /** What the checks under the locks let through. */
  lemma {:induction false} ChecksExactly(w: World, t: nat)
    requires t < |w.txns| && CheckStep(w, t) != w
    ensures CheckStep(w, t).attempts == w.attempts && CheckStep(w, t).waiting == w.waiting
    ensures
      var passed := CheckStep(w, t).txns[t];
      match w.txns[t]
      case Opening(p, _) =>
        passed == if !w.waiting then Done
                  else Opening(p, Some(forall k :: 0 <= k < |w.attempts| ==>
                                         w.attempts[k].provider != p || w.attempts[k].status != Pending))
      case Completing(k, _) =>
        && k < |w.attempts|
        && passed == if w.waiting && w.attempts[k].status == Pending
                        && (forall j :: 0 <= j < |w.attempts| ==> w.attempts[j].status != Success)
                     then Completing(k, true) else Done
      case Ending(k, to, _) =>
        && k < |w.attempts|
        && passed == if (to == Failed && w.attempts[k].status == Pending)
                        || (to == Cancelled && w.attempts[k].status in {Pending, Failed})
                     then Ending(k, to, true) else Done
      case CancellingOrder(_) => passed == if w.waiting then CancellingOrder(true) else Done
      case Done => false
  {
  }

  /** What a commit does: opening adds one attempt where one is needed; completing one makes it the success, cancels
      the other pending ones and ends the order's wait; ending one sets its status; cancelling the order cancels
      the pending ones and ends the wait. */
  lemma {:induction false} CommitsExactly(w: World, t: nat, j: nat)
    requires t < |w.txns| && CommitStep(w, t) != w
    ensures
      var a, w' := w.attempts, CommitStep(w, t);
      && w'.txns[t] == Done
      && match w.txns[t]
         case Opening(p, Some(needed)) =>
           w'.waiting == w.waiting && w'.attempts == a + (if needed then [Attempt(p, Pending)] else [])
         case Completing(k, _) =>
           && !w'.waiting && k < |a| == |w'.attempts| && w'.attempts[k] == Attempt(a[k].provider, Success)
           && (j < |a| && j != k ==>
                 w'.attempts[j] == Attempt(a[j].provider, if a[j].status.Pending? then Cancelled else a[j].status))
         case Ending(k, to, _) =>
           w'.waiting == w.waiting && k < |a| && w'.attempts == a[k := Attempt(a[k].provider, to)]
         case CancellingOrder(_) =>
           && !w'.waiting && |w'.attempts| == |a|
           && (j < |a| ==>
                 w'.attempts[j] == Attempt(a[j].provider, if a[j].status.Pending? then Cancelled else a[j].status))
         case _ => false
  {
    assert w.attempts + [] == w.attempts;
  }

  /** Nothing but a commit changes an attempt or the order. */
  lemma {:induction false} OnlyCommitsChange(w: World, e: Event)
    requires !e.Commit?
    ensures Step(w, e).attempts == w.attempts && Step(w, e).waiting == w.waiting
  {
  }

  lemma {:induction false} InterleavingKeeps(w: World, events: seq<Event>)
    requires WorldOk(w)
    ensures WorldOk(Interleave(w, events))
    decreases |events|
  {
    if events != [] {
      InterleavingKeeps(w, events[..|events| - 1]);
      StepKeeps(Interleave(w, events[..|events| - 1]), events[|events| - 1]);
    }
  }

  /** For a new order, in every interleaving: never two pending attempts of one provider, never two successes,
      none pending once the order is paid or cancelled, and no success before. */
  lemma {:induction false} AttemptsUnderInterleaving(events: seq<Event>, j: nat, k: nat)
    ensures
      var w := Interleave(World(true, [], None, map[], []), events);
      j < |w.attempts| && k < |w.attempts| ==>
        && (j != k && w.attempts[j].provider == w.attempts[k].provider ==>
              !(w.attempts[j].status.Pending? && w.attempts[k].status.Pending?))
        && (j != k ==> !(w.attempts[j].status.Success? && w.attempts[k].status.Success?))
        && (w.attempts[k].status.Pending? ==> w.waiting)
        && (w.attempts[k].status.Success? ==> !w.waiting)
  {
    InterleavingKeeps(World(true, [], None, map[], []), events);
  }
}
