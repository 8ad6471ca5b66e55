/** Several workers run due schedules. Each lists the due ones once, and later locks and rechecks each of
    them against the time of its list before processing it. */
module Workers {
  import opened Common
  import opened Scheduler

  datatype Entry = Entry(plan: Plan, active: bool, lastRun: Option<int>, nextRun: int)

  /** A worker: the time it started, and the listed schedules it has not come to yet. */
  datatype Worker = Worker(now: int, queue: seq<nat>)

  /** One processed occurrence: the schedule and the run that was due. */
  datatype Occurrence = Occurrence(schedule: nat, due: int)

  datatype System = System(entries: seq<Entry>, clock: int, workers: seq<Worker>, log: seq<Occurrence>)

  datatype Event =
    | Tick(elapsed: nat)
    | ListDue(due: seq<nat>)
    | Process(worker: nat)

  const BATCH := 50

  predicate Due(e: Entry, now: int) {
    e.active && e.nextRun <= now
  }

  /** One schedule under its lock: skipped when it is no longer due, else processed and moved on. */
  function ProcessHead(s: System, offset: int, w: nat): System
    requires w < |s.workers| && s.workers[w].queue != [] && DAY <= s.clock
  {
    var x := s.workers[w];
    var id := x.queue[0];
    var workers := s.workers[w := x.(queue := x.queue[1..])];
    if |s.entries| <= id || !Due(s.entries[id], x.now) then s.(workers := workers)
    else
      var e := s.entries[id];
      var next := NextRun(e.plan, offset, Some(s.clock), s.clock);
      s.(workers := workers,
         entries := s.entries[id := e.(lastRun := Some(s.clock), nextRun := next)],
         log := s.log + [Occurrence(id, e.nextRun)])
  }

  function Step(s: System, offset: int, event: Event): System
    requires DAY <= s.clock
  {
    match event
    case Tick(d) => s.(clock := s.clock + d)
    case ListDue(due) =>
      if |due| <= BATCH && (forall k :: 0 <= k < |due| ==> due[k] < |s.entries| && Due(s.entries[due[k]], s.clock))
      then s.(workers := s.workers + [Worker(s.clock, due)]) else s
    case Process(w) =>
      if w < |s.workers| && s.workers[w].queue != [] then ProcessHead(s, offset, w) else s
  }

  function Run(s: System, offset: int, events: seq<Event>): (r: System)
    requires DAY <= s.clock
    ensures DAY <= r.clock
  {
    if events == [] then s
    else
      var before := Run(s, offset, events[..|events| - 1]);
      Step(before, offset, events[|events| - 1])
  }

  /** Processed runs of one schedule are in increasing order, and before its next run. */
  ghost predicate InOrder(s: System) {
    && (forall i, j :: 0 <= i < j < |s.log| && s.log[i].schedule == s.log[j].schedule ==> s.log[i].due < s.log[j].due)
    && (forall i :: 0 <= i < |s.log| ==>
          s.log[i].schedule < |s.entries| && s.log[i].due < s.entries[s.log[i].schedule].nextRun)
  }

  ghost predicate SystemOk(s: System, offset: int) {
    && DAY <= s.clock && InOrder(s)
    && (forall w :: 0 <= w < |s.workers| ==> s.workers[w].now <= s.clock)
    && (forall k :: 0 <= k < |s.entries| ==> PlanOk(s.entries[k].plan) && Advances(s.entries[k].plan, offset))
  }

  /** A worker that finds its schedule still due moves the next run forward, past the worker's own time. */
  lemma {:induction false} ProcessKeeps(s: System, offset: int, w: nat)
    requires OffsetOk(offset) && SystemOk(s, offset) && w < |s.workers| && s.workers[w].queue != []
    ensures SystemOk(ProcessHead(s, offset, w), offset)
    ensures
      var id := s.workers[w].queue[0];
      id < |s.entries| && Due(s.entries[id], s.workers[w].now) ==>
        s.entries[id].nextRun < ProcessHead(s, offset, w).entries[id].nextRun
  {
    var x := s.workers[w];
    var id := x.queue[0];
    if id < |s.entries| && Due(s.entries[id], x.now) {
      var e := s.entries[id];
      NextRunAdvances(e.plan, offset, Some(s.clock), s.clock);
      assert e.nextRun <= x.now <= s.clock < NextRun(e.plan, offset, Some(s.clock), s.clock);
    }
  }

  /** A worker takes the first schedule of its list: still due at the worker's time, its occurrence is processed once
      and its next run follows from the present; otherwise it is only passed over. */
  lemma {:induction false} ProcessExactly(s: System, offset: int, w: nat)
    requires DAY <= s.clock && w < |s.workers| && s.workers[w].queue != []
    ensures
      var x, s' := s.workers[w], ProcessHead(s, offset, w);
      var id := x.queue[0];
      && s'.clock == s.clock && s'.workers == s.workers[w := Worker(x.now, x.queue[1..])]
      && if id < |s.entries| && s.entries[id].active && s.entries[id].nextRun <= x.now
         then && s'.log == s.log + [Occurrence(id, s.entries[id].nextRun)]
              && s'.entries == s.entries[id := Entry(s.entries[id].plan, true, Some(s.clock),
                                                     NextRun(s.entries[id].plan, offset, Some(s.clock), s.clock))]
         else s'.log == s.log && s'.entries == s.entries
  {
  }

  /** A worker starts with at most fifty schedules, all due then. */
  lemma {:induction false} ListsExactly(s: System, offset: int, due: seq<nat>)
    requires DAY <= s.clock
    ensures
      var s' := Step(s, offset, ListDue(due));
      if |due| <= 50 && (forall k :: 0 <= k < |due| ==>
                           due[k] < |s.entries| && s.entries[due[k]].active && s.entries[due[k]].nextRun <= s.clock)
      then s' == s.(workers := s.workers + [Worker(s.clock, due)]) else s' == s
  {
  }

  lemma {:induction false} RunKeeps(s: System, offset: int, events: seq<Event>)
    requires OffsetOk(offset) && SystemOk(s, offset)
    ensures SystemOk(Run(s, offset, events), offset)
    decreases |events|
  {
    if events != [] {
      RunKeeps(s, offset, events[..|events| - 1]);
      var before := Run(s, offset, events[..|events| - 1]);
      var event := events[|events| - 1];
      if event.Process? && event.worker < |before.workers| && before.workers[event.worker].queue != [] {
        ProcessKeeps(before, offset, event.worker);
      }
    }
  }

  /** Before any worker has started. */
  ghost predicate Fresh(s: System, offset: int) {
    && DAY <= s.clock && s.workers == [] && s.log == []
    && forall k :: 0 <= k < |s.entries| ==> PlanOk(s.entries[k].plan)
  }

  ghost predicate NoRepeat(log: seq<Occurrence>) {
    forall i, j :: 0 <= i < j < |log| ==> log[i] != log[j]
  }

  /** However many workers hold overlapping stale lists, no occurrence is processed twice. */
  lemma {:induction false} NoOccurrenceTwice(s: System, offset: int, events: seq<Event>)
    requires OffsetOk(offset) && Fresh(s, offset)
    requires forall k :: 0 <= k < |s.entries| ==> Advances(s.entries[k].plan, offset)
    ensures NoRepeat(Run(s, offset, events).log)
  {
    RunKeeps(s, offset, events);
  }

  /** A plan that does not advance can be processed twice for one occurrence: two workers list it, and the
      first one's update leaves it due at the same run. */
  lemma {:induction false} StalledPlanRepeats(p: Plan, offset: int) returns (s: System, events: seq<Event>)
    requires PlanOk(p) && OffsetOk(offset) && !Advances(p, offset)
    ensures Fresh(s, offset) && |s.entries| == 1 && s.entries[0].plan == p
    ensures !NoRepeat(Run(s, offset, events).log)
  {
    var now := NextRunStalls(p, offset);
    var due := NextRun(p, offset, Some(now), now);
    var e := Entry(p, true, None, due);
    s := System([e], now, [], []);
    events := [ListDue([0]), ListDue([0]), Process(0), Process(1)];
    var s1 := s.(workers := [Worker(now, [0])]);
    var s2 := s.(workers := [Worker(now, [0]), Worker(now, [0])]);
    assert Step(s, offset, events[0]) == s1;
    assert Step(s1, offset, events[1]) == s2;
    var s3 := Step(s2, offset, events[2]);
    var moved := e.(lastRun := Some(now));
    assert s2.workers[0].queue == [0] && [0][1..] == [];
    assert Due(s2.entries[0], now);
    assert s3.workers == s2.workers[0 := Worker(now, [])];
    assert s3.log == [Occurrence(0, due)];
    assert s3.entries == [moved];
    var s4 := Step(s3, offset, events[3]);
    assert s4.log == [Occurrence(0, due), Occurrence(0, due)];
    FourSteps(s, offset, events);
    assert Run(s, offset, events) == s4;
    assert s4.log[0] == s4.log[1];
  }

  lemma {:induction false} FourSteps(s: System, offset: int, events: seq<Event>)
    requires DAY <= s.clock && |events| == 4
    ensures
      var s1 := Step(s, offset, events[0]);
      var s2 := Step(s1, offset, events[1]);
      var s3 := Step(s2, offset, events[2]);
      Run(s, offset, events) == Step(s3, offset, events[3])
  {
    assert events[..3][..2] == events[..2] && events[..3][2] == events[2];
    assert events[..2][..1] == events[..1] && events[..2][1] == events[1];
    assert events[..1][..0] == [] && events[..1][0] == events[0];
    assert Run(s, offset, events[..1]) == Step(s, offset, events[0]);
    assert Run(s, offset, events[..2]) == Step(Run(s, offset, events[..1]), offset, events[1]);
    assert Run(s, offset, events[..3]) == Step(Run(s, offset, events[..2]), offset, events[2]);
  }
}
