/** When a report schedule runs next. Instants are microseconds of UTC; the configured timezone has a fixed
    offset. The code takes the date, weekday and month of `after` in UTC and the time of day in local time. */
module Scheduler {
  import opened Common
  import opened Calendar

  const DAY := 86_400_000_000

  datatype Frequency = Daily | Weekly | Monthly | EveryNDays

  datatype Plan = Plan(
    frequency: Frequency, time: int, weekday: Option<nat>, monthday: Option<nat>, every: nat)

  predicate PlanOk(p: Plan) {
    0 <= p.time < DAY && (p.weekday.Some? ==> p.weekday.value <= 6)
  }

  /** A fixed UTC offset of less than a day either way. */
  predicate OffsetOk(offset: int) {
    -DAY < offset < DAY
  }

  function TargetWeekday(p: Plan): nat {
    if p.weekday.Some? then p.weekday.value else 0
  }

  /** The day of month, 1 when unset or zero. */
  function TargetDay(p: Plan): (r: nat)
    ensures 1 <= r
  {
    if p.monthday.Some? && p.monthday.value != 0 then p.monthday.value else 1
  }

  /** The interval in days, 1 when zero. */
  function Interval(p: Plan): (r: nat)
    ensures 1 <= r
  {
    if p.every == 0 then 1 else p.every
  }

  function Date(instant: int): int {
    instant / DAY
  }

  function TimeOf(instant: int): (r: int)
    ensures 0 <= r < DAY && instant == Date(instant) * DAY + r
  {
    instant % DAY
  }

  /** The instant of the plan's time of day on a local date. */
  function At(p: Plan, offset: int, day: int): int {
    day * DAY + p.time - offset
  }

  function DaysAhead(p: Plan, after: int): int {
    var ahead := TargetWeekday(p) - Weekday(Date(after));
    if ahead < 0 then ahead + 7 else ahead
  }

  /** The slot of month k: the target day, or the month's last day when it is shorter. */
  function MonthlySlot(p: Plan, offset: int, k: nat): int {
    At(p, offset, FirstDay(k) + Min(TargetDay(p), Length(k)) - 1)
  }

  function DailyNext(p: Plan, offset: int, after: int): int {
    var candidate := At(p, offset, Date(after));
    if candidate <= after then candidate + DAY else candidate
  }

  function WeeklyNext(p: Plan, offset: int, after: int): int {
    var candidate := At(p, offset, Date(after) + DaysAhead(p, after));
    if candidate <= after then candidate + 7 * DAY else candidate
  }

  /** The slot of month k, or of the next month when that one is not after `after`. */
  function PickMonth(p: Plan, offset: int, after: int, k: nat): int {
    if MonthlySlot(p, offset, k) <= after then MonthlySlot(p, offset, k + 1) else MonthlySlot(p, offset, k)
  }

  function MonthlyNext(p: Plan, offset: int, after: int): int
    requires DAY <= after
  {
    PickMonth(p, offset, after, MonthContaining(Date(after)))
  }

  /** The first candidate of an every-N-days plan. */
  function FirstCandidate(p: Plan, offset: int, last: Option<int>, after: int): int {
    At(p, offset, if last.Some? then Date(last.value) + Interval(p) else Date(after))
  }

  function EveryNext(p: Plan, offset: int, last: Option<int>, after: int): int {
    var first, step := FirstCandidate(p, offset, last, after), Interval(p) * DAY;
    if after < first then first else first + ((after - first) / step + 1) * step
  }

  function NextRun(p: Plan, offset: int, last: Option<int>, after: int): int
    requires DAY <= after
  {
    match p.frequency
    case Daily => DailyNext(p, offset, after)
    case Weekly => WeeklyNext(p, offset, after)
    case Monthly => MonthlyNext(p, offset, after)
    case EveryNDays => EveryNext(p, offset, last, after)
  }

  // ----- The patterns of slots

  predicate DailySlot(p: Plan, offset: int, x: int) {
    (x - p.time + offset) % DAY == 0
  }

  predicate WeeklySlot(p: Plan, offset: int, x: int) {
    DailySlot(p, offset, x) && Weekday(Date(x - p.time + offset)) == TargetWeekday(p)
  }

  /** At the plan's time on a local date whose day of the month is the target, or is below the target and the
      last of its month. */
  ghost predicate MonthSlot(p: Plan, offset: int, x: int) {
    var day := Date(x + offset);
    && TimeOf(x + offset) == p.time && 1 <= day
    && (DateOf(day).day == TargetDay(p) || (DateOf(day).day < TargetDay(p) && DateOf(day + 1).day == 1))
  }

  ghost predicate EverySlot(p: Plan, first: int, x: int) {
    exists k: nat :: x == first + k * (Interval(p) * DAY)
  }

  ghost predicate LeastAfter(slot: int -> bool, after: int, r: int) {
    slot(r) && after < r && forall x :: slot(x) && after < x ==> r <= x
  }

  // ----- Daily

  lemma {:induction false} DailyIsSlot(p: Plan, offset: int, day: int)
    ensures DailySlot(p, offset, At(p, offset, day)) && Date(At(p, offset, day) - p.time + offset) == day
  {
    assert At(p, offset, day) - p.time + offset == day * DAY;
    assert (day * DAY) % DAY == 0 && (day * DAY) / DAY == day;
  }

  /** A slot is the plan's time on its local date. */
  lemma {:induction false} DailySlotAt(p: Plan, offset: int, x: int)
    requires DailySlot(p, offset, x)
    ensures x == At(p, offset, Date(x - p.time + offset))
  {
    assert x - p.time + offset == Date(x - p.time + offset) * DAY + TimeOf(x - p.time + offset);
  }

  /** Exactly when the daily next run lies after `after`, and exactly when it is the least daily slot there. */
  lemma {:induction false} DailyExact(p: Plan, offset: int, after: int)
    requires PlanOk(p) && OffsetOk(offset)
    ensures after < DailyNext(p, offset, after) <==> TimeOf(after) < DAY + p.time - offset
    ensures LeastAfter(x => DailySlot(p, offset, x), after, DailyNext(p, offset, after)) <==>
              p.time - offset - DAY <= TimeOf(after) < DAY + p.time - offset
  {
    var r, day := DailyNext(p, offset, after), Date(after);
    DailyIsSlot(p, offset, day - 1);
    DailyIsSlot(p, offset, day);
    DailyIsSlot(p, offset, day + 1);
    if p.time - offset - DAY <= TimeOf(after) < DAY + p.time - offset {
      forall x | DailySlot(p, offset, x) && after < x ensures r <= x {
        DailySlotAt(p, offset, x);
        var d := Date(x - p.time + offset);
        assert At(p, offset, day - 1) <= after;
        assert (day - 1) * DAY < d * DAY;
        if day < d {
          assert (day + 1) * DAY <= d * DAY;
        }
      }
    } else if DAY + p.time - offset > TimeOf(after) {
      var slot := x => DailySlot(p, offset, x);
      assert slot(At(p, offset, day - 1));
      assert after < At(p, offset, day - 1) < r;
    }
  }

  // ----- Weekly

  lemma {:induction false} WeekdayLater(day: int, n: int)
    requires 0 <= n
    ensures Weekday(day + n) == (Weekday(day) + n) % 7
  {
  }

  lemma {:induction false} SameWeekday(a: int, b: int)
    requires Weekday(a) == Weekday(b)
    ensures (a - b) % 7 == 0
  {
  }

  lemma {:induction false} WeeklyIsSlot(p: Plan, offset: int, after: int, weeks: int)
    requires PlanOk(p)
    ensures WeeklySlot(p, offset, At(p, offset, Date(after) + DaysAhead(p, after) + 7 * weeks))
  {
    var day := Date(after) + DaysAhead(p, after);
    WeekdayLater(Date(after), DaysAhead(p, after));
    DailyIsSlot(p, offset, day + 7 * weeks);
    assert Weekday(day + 7 * weeks) == Weekday(day);
  }

  /** The weekly next run always lies after `after`; it is the least weekly slot there except when the
      target day is six days ahead and local midnight is more than the rest of the day away. */
  lemma {:induction false} WeeklyExact(p: Plan, offset: int, after: int)
    requires PlanOk(p) && OffsetOk(offset)
    ensures after < WeeklyNext(p, offset, after)
    ensures LeastAfter(x => WeeklySlot(p, offset, x), after, WeeklyNext(p, offset, after)) <==>
              !(DaysAhead(p, after) == 6 && TimeOf(after) < p.time - offset - DAY)
  {
    var r, day, ahead := WeeklyNext(p, offset, after), Date(after), DaysAhead(p, after);
    WeeklyIsSlot(p, offset, after, -1);
    WeeklyIsSlot(p, offset, after, 0);
    WeeklyIsSlot(p, offset, after, 1);
    var target := day + ahead;
    assert At(p, offset, target - 7) == At(p, offset, target) - 7 * DAY;
    if !(ahead == 6 && TimeOf(after) < p.time - offset - DAY) {
      assert At(p, offset, target - 7) <= after;
      forall x | WeeklySlot(p, offset, x) && after < x ensures r <= x {
        WeeklySlotAfter(p, offset, target, x);
      }
    } else {
      var slot := x => WeeklySlot(p, offset, x);
      assert target - 7 == day + ahead + 7 * -1;
      assert slot(At(p, offset, target - 7));
      assert after < At(p, offset, target - 7) < r;
    }
  }

  /** Weekly slots are whole weeks apart. */
  lemma {:induction false} WeeklySlotAfter(p: Plan, offset: int, day: int, x: int)
    requires WeeklySlot(p, offset, x) && Weekday(day) == TargetWeekday(p)
    ensures x <= At(p, offset, day - 7) || x == At(p, offset, day) || At(p, offset, day + 7) <= x
  {
    DailySlotAt(p, offset, x);
    var d := Date(x - p.time + offset);
    SameWeekday(d, day);
    if d <= day - 7 {
      assert d * DAY <= (day - 7) * DAY;
    } else if day + 7 <= d {
      assert (day + 7) * DAY <= d * DAY;
    } else {
      assert d == day;
    }
  }

  // ----- Monthly

  lemma {:induction false} LocalAt(p: Plan, offset: int, day: int)
    requires PlanOk(p)
    ensures Date(At(p, offset, day) + offset) == day && TimeOf(At(p, offset, day) + offset) == p.time
  {
  }

  /** The slot that the code computes for a month is one, and lies in that month. */
  lemma {:induction false} MonthlyIsSlot(p: Plan, offset: int, k: nat)
    requires PlanOk(p)
    ensures
      var x := MonthlySlot(p, offset, k);
      && MonthSlot(p, offset, x) && 1 <= Date(x + offset)
      && DateOf(Date(x + offset)).year == YearOf(k) && DateOf(Date(x + offset)).month == MonthOf(k)
  {
    var day := FirstDay(k) + Min(TargetDay(p), Length(k)) - 1;
    LocalAt(p, offset, day);
    DateInMonth(day, k);
    if Length(k) < TargetDay(p) {
      LastOfMonth(k);
    }
  }

  lemma {:induction false} LastOfMonth(k: nat)
    ensures DateOf(FirstDay(k) + Length(k)).day == 1
  {
    assert FirstDay(k + 1) == FirstDay(k) + Length(k);
    DateInMonth(FirstDay(k + 1), k + 1);
  }

  /** And every slot of the pattern is the computed one of its month. */
  lemma {:induction false} MonthOfSlot(p: Plan, offset: int, x: int) returns (k: nat)
    requires PlanOk(p) && MonthSlot(p, offset, x)
    ensures x == MonthlySlot(p, offset, k)
    ensures DateOf(Date(x + offset)).year == YearOf(k) && DateOf(Date(x + offset)).month == MonthOf(k)
  {
    var day := Date(x + offset);
    k := MonthContaining(day);
    DateInMonth(day, k);
    if DateOf(day).day != TargetDay(p) && day + 1 < FirstDay(k) + Length(k) {
      DateInMonth(day + 1, k);
    }
    assert day == FirstDay(k) + Min(TargetDay(p), Length(k)) - 1;
    assert x + offset == day * DAY + p.time;
  }

  /** Each month of each year has exactly one slot. */
  lemma {:induction false} OneSlotEachMonth(p: Plan, offset: int, k: nat, x: int)
    requires PlanOk(p) && MonthSlot(p, offset, x)
    ensures MonthSlot(p, offset, MonthlySlot(p, offset, k))
    ensures x == MonthlySlot(p, offset, k) <==>
              DateOf(Date(x + offset)).year == YearOf(k) && DateOf(Date(x + offset)).month == MonthOf(k)
  {
    MonthlyIsSlot(p, offset, k);
    var j := MonthOfSlot(p, offset, x);
    if YearOf(j) == YearOf(k) && MonthOf(j) == MonthOf(k) {
      SameMonth(j, k);
    }
  }

  /** What unset or zero settings stand for. */
  lemma {:induction false} Defaults(p: Plan)
    ensures TargetDay(p) == (match p.monthday case None => 1 case Some(d) => if d == 0 then 1 else d)
    ensures TargetWeekday(p) == (match p.weekday case None => 0 case Some(d) => d)
    ensures Interval(p) == if p.every == 0 then 1 else p.every
  {
  }

  /** The first candidate of an every-N-days plan: N days after the date of the last run, or the date of the
      instant itself, at the plan's local time. */
  lemma {:induction false} FirstCandidateIs(p: Plan, offset: int, last: Option<int>, after: int)
    requires PlanOk(p)
    ensures
      var x := FirstCandidate(p, offset, last, after);
      && TimeOf(x + offset) == p.time
      && Date(x + offset) == (match last
                              case None => after / 86_400_000_000
                              case Some(run) => run / 86_400_000_000 + (if p.every == 0 then 1 else p.every))
  {
    LocalAt(p, offset, if last.Some? then Date(last.value) + Interval(p) else Date(after));
  }

  lemma {:induction false} SlotInMonth(p: Plan, offset: int, k: nat)
    requires PlanOk(p)
    ensures FirstDay(k) * DAY + p.time - offset <= MonthlySlot(p, offset, k)
    ensures MonthlySlot(p, offset, k) <= (FirstDay(k) + Length(k) - 1) * DAY + p.time - offset
    ensures TargetDay(p) >= 2 ==> (FirstDay(k) + 1) * DAY + p.time - offset <= MonthlySlot(p, offset, k)
    ensures TargetDay(p) == 1 ==> MonthlySlot(p, offset, k) == FirstDay(k) * DAY + p.time - offset
    ensures TargetDay(p) <= 27 ==> MonthlySlot(p, offset, k) <= (FirstDay(k) + Length(k) - 2) * DAY + p.time - offset
  {
  }

  lemma {:induction false} SlotsInOrder(p: Plan, offset: int, j: nat, k: nat)
    requires PlanOk(p) && j < k
    ensures MonthlySlot(p, offset, j) < MonthlySlot(p, offset, k)
  {
    MonthsInOrder(j, k);
    SlotInMonth(p, offset, j);
    SlotInMonth(p, offset, k);
    assert (FirstDay(j) + Length(j) - 1) * DAY < FirstDay(k) * DAY;
  }

  /** Exactly when the monthly next run lies after `after`: the next month's slot is not too late. */
  lemma {:induction false} MonthlyExact(p: Plan, offset: int, after: int)
    requires PlanOk(p) && OffsetOk(offset) && DAY <= after
    ensures after < MonthlyNext(p, offset, after) <==>
              after < MonthlySlot(p, offset, MonthContaining(Date(after)) + 1)
  {
    var k := MonthContaining(Date(after));
    SlotsInOrder(p, offset, k, k + 1);
  }

  /** Exactly when it is the least monthly slot there: also, the previous month's slot is not still to come. */
  lemma {:induction false} MonthlyLeastExact(p: Plan, offset: int, after: int)
    requires PlanOk(p) && OffsetOk(offset) && DAY <= after
    ensures
      var k := MonthContaining(Date(after));
      LeastAfter(x => MonthSlot(p, offset, x), after, MonthlyNext(p, offset, after)) <==>
        after < MonthlySlot(p, offset, k + 1) && (k == 0 || MonthlySlot(p, offset, k - 1) <= after)
  {
    PickIsLeast(p, offset, after, MonthContaining(Date(after)));
  }

  lemma {:induction false} PickIsLeast(p: Plan, offset: int, after: int, k: nat)
    requires PlanOk(p)
    ensures LeastAfter(x => MonthSlot(p, offset, x), after, PickMonth(p, offset, after, k)) <==>
              after < MonthlySlot(p, offset, k + 1) && (k == 0 || MonthlySlot(p, offset, k - 1) <= after)
  {
    SlotsInOrder(p, offset, k, k + 1);
    if k > 0 && after < MonthlySlot(p, offset, k - 1) {
      SlotsInOrder(p, offset, k - 1, k);
      EarlierSlotRefutes(p, offset, after, MonthlySlot(p, offset, k), k - 1);
    } else if after < MonthlySlot(p, offset, k + 1) {
      LeastOfMonths(p, offset, after, k);
    }
  }

  lemma {:induction false} EarlierSlotRefutes(p: Plan, offset: int, after: int, r: int, j: nat)
    requires PlanOk(p) && after < MonthlySlot(p, offset, j) < r
    ensures !LeastAfter(x => MonthSlot(p, offset, x), after, r)
  {
    MonthlyIsSlot(p, offset, j);
    var slot := x => MonthSlot(p, offset, x);
    assert slot(MonthlySlot(p, offset, j));
  }

  lemma {:induction false} LeastOfMonths(p: Plan, offset: int, after: int, k: nat)
    requires PlanOk(p) && (k == 0 || MonthlySlot(p, offset, k - 1) <= after)
    requires after < MonthlySlot(p, offset, k + 1)
    ensures LeastAfter(x => MonthSlot(p, offset, x), after, PickMonth(p, offset, after, k))
  {
    var slot := x => MonthSlot(p, offset, x);
    var r := PickMonth(p, offset, after, k);
    MonthlyIsSlot(p, offset, k);
    MonthlyIsSlot(p, offset, k + 1);
    forall x | slot(x) && after < x ensures r <= x {
      var j := MonthOfSlot(p, offset, x);
      NoEarlierSlot(p, offset, after, k, j);
    }
  }

  lemma {:induction false} NoEarlierSlot(p: Plan, offset: int, after: int, k: nat, j: nat)
    requires PlanOk(p) && (k == 0 || MonthlySlot(p, offset, k - 1) <= after)
    requires after < MonthlySlot(p, offset, j)
    ensures k <= j
    ensures MonthlySlot(p, offset, k) <= MonthlySlot(p, offset, j)
    ensures j != k ==> MonthlySlot(p, offset, k + 1) <= MonthlySlot(p, offset, j)
  {
    if j < k {
      SlotsNotLater(p, offset, j, k - 1);
      assert false;
    }
    SlotsNotLater(p, offset, k, j);
    if k < j {
      SlotsNotLater(p, offset, k + 1, j);
    }
  }

  lemma {:induction false} SlotsNotLater(p: Plan, offset: int, j: nat, k: nat)
    requires PlanOk(p) && j <= k
    ensures MonthlySlot(p, offset, j) <= MonthlySlot(p, offset, k)
  {
    if j < k {
      SlotsInOrder(p, offset, j, k);
    }
  }

  // ----- What the code picks, for any offset

  /** The local time of day on a date is after an instant. */
  predicate Later(p: Plan, offset: int, day: int, after: int) {
    after < day * 86_400_000_000 + p.time - offset
  }

  /** Daily: the plan's time on the date of `after` when that is later, else on the next one. */
  lemma {:induction false} DailyNextIs(p: Plan, offset: int, after: int)
    requires PlanOk(p)
    ensures
      var r := DailyNext(p, offset, after);
      && TimeOf(r + offset) == p.time
      && Date(r + offset) == Date(after) + if Later(p, offset, Date(after), after) then 0 else 1
  {
    LocalAt(p, offset, Date(after));
    LocalAt(p, offset, Date(after) + 1);
  }

  /** Weekly: the first such weekday from the date of `after` on when that is later, else a week after it. */
  lemma {:induction false} WeeklyNextIs(p: Plan, offset: int, after: int) returns (ahead: nat)
    requires PlanOk(p)
    ensures ahead < 7 && Weekday(Date(after) + ahead) == (match p.weekday case None => 0 case Some(d) => d)
    ensures
      var r := WeeklyNext(p, offset, after);
      && TimeOf(r + offset) == p.time
      && Date(r + offset) == Date(after) + ahead + if Later(p, offset, Date(after) + ahead, after) then 0 else 7
  {
    ahead := DaysAhead(p, after);
    LocalAt(p, offset, Date(after) + ahead);
    LocalAt(p, offset, Date(after) + ahead + 7);
  }

  /** The local date of x is in month k. */
  ghost predicate InMonth(offset: int, x: int, k: nat) {
    var day := Date(x + offset);
    1 <= day && DateOf(day).year == YearOf(k) && DateOf(day).month == MonthOf(k)
  }

  /** Monthly: the slot of the month that `after` is in, in UTC, when that is later, else the next month's. */
  lemma {:induction false} MonthlyNextIs(p: Plan, offset: int, after: int, k: nat, x: int)
    requires PlanOk(p) && DAY <= after
    requires DateOf(Date(after)).year == YearOf(k) && DateOf(Date(after)).month == MonthOf(k)
    requires MonthSlot(p, offset, x) && InMonth(offset, x, k)
    ensures MonthSlot(p, offset, MonthlyNext(p, offset, after))
    ensures if after < x then MonthlyNext(p, offset, after) == x
            else InMonth(offset, MonthlyNext(p, offset, after), k + 1)
  {
    MonthOfDate(Date(after), k);
    PickIs(p, offset, after, k, x);
  }

  lemma {:induction false} MonthOfDate(day: int, k: nat)
    requires 1 <= day && DateOf(day).year == YearOf(k) && DateOf(day).month == MonthOf(k)
    ensures MonthContaining(day) == k
  {
    DateInMonth(day, MonthContaining(day));
    SameMonth(MonthContaining(day), k);
  }

  lemma {:induction false} PickIs(p: Plan, offset: int, after: int, k: nat, x: int)
    requires PlanOk(p) && MonthSlot(p, offset, x) && InMonth(offset, x, k)
    ensures MonthSlot(p, offset, PickMonth(p, offset, after, k))
    ensures if after < x then PickMonth(p, offset, after, k) == x
            else InMonth(offset, PickMonth(p, offset, after, k), k + 1)
  {
    SlotOfMonth(p, offset, k, x);
    SlotIsIn(p, offset, k + 1);
  }

  lemma {:induction false} SlotOfMonth(p: Plan, offset: int, k: nat, x: int)
    requires PlanOk(p) && MonthSlot(p, offset, x) && InMonth(offset, x, k)
    ensures x == MonthlySlot(p, offset, k)
  {
    OneSlotEachMonth(p, offset, k, x);
  }

  lemma {:induction false} SlotIsIn(p: Plan, offset: int, k: nat)
    requires PlanOk(p)
    ensures MonthSlot(p, offset, MonthlySlot(p, offset, k)) && InMonth(offset, MonthlySlot(p, offset, k), k)
  {
    MonthlyIsSlot(p, offset, k);
  }

  // ----- Which plans and offsets are right for every instant

  /** The next run is always later than the instant it is computed from. */
  predicate Advances(p: Plan, offset: int) {
    match p.frequency
    case Daily => offset <= p.time
    case Weekly => true
    case Monthly => 2 <= TargetDay(p) || offset <= p.time
    case EveryNDays => true
  }

  lemma {:induction false} DateBounds(after: int, day: int)
    requires Date(after) == day
    ensures day * DAY <= after < (day + 1) * DAY
  {
  }

  lemma {:induction false} MonthlyAdvances(p: Plan, offset: int, after: int)
    requires PlanOk(p) && OffsetOk(offset) && DAY <= after
    requires 2 <= TargetDay(p) || offset <= p.time
    ensures after < MonthlyNext(p, offset, after)
  {
    MonthlyExact(p, offset, after);
    var k := MonthContaining(Date(after));
    SlotInMonth(p, offset, k + 1);
    DateBounds(after, Date(after));
    assert (Date(after) + 1) * DAY <= FirstDay(k + 1) * DAY;
  }

  /** When the plan advances, so does every next run: strictly, whatever the last run was. */
  lemma {:induction false} NextRunAdvances(p: Plan, offset: int, last: Option<int>, after: int)
    requires PlanOk(p) && OffsetOk(offset) && DAY <= after && Advances(p, offset)
    ensures after < NextRun(p, offset, last, after)
  {
    match p.frequency
    case Daily => DailyExact(p, offset, after);
    case Weekly => WeeklyExact(p, offset, after);
    case Monthly => MonthlyAdvances(p, offset, after);
    case EveryNDays => EveryExact(p, FirstCandidate(p, offset, last, after), after);
  }

  /** When it does not, some instant's next run is not later than that instant: the last one of a day
      for a daily plan, the last one of a month for a monthly plan on the first. */
  lemma {:induction false} NextRunStalls(p: Plan, offset: int) returns (after: int)
    requires PlanOk(p) && OffsetOk(offset) && !Advances(p, offset)
    ensures DAY <= after && forall last :: NextRun(p, offset, last, after) <= after
  {
    if p.frequency.Daily? {
      after := 2 * DAY - 1;
      assert TimeOf(after) == DAY - 1;
      DailyExact(p, offset, after);
    } else {
      after := FirstDay(1) * DAY - 1;
      assert FirstDay(0) == 1 && FirstDay(1) == 32;
      assert Date(after) == 31;
      MonthIsUnique(31, 0, MonthContaining(31));
      MonthlyExact(p, offset, after);
      SlotInMonth(p, offset, 1);
    }
  }

  /** The next run is the least slot of its pattern after every instant, at an offset in this range; zero is. */
  predicate PicksLeast(p: Plan, offset: int) {
    match p.frequency
    case Daily => p.time - DAY <= offset <= p.time
    case Weekly => p.time - DAY <= offset
    case Monthly => (2 <= TargetDay(p) || offset <= p.time) && (TargetDay(p) <= 27 || p.time - DAY <= offset)
    case EveryNDays => true
  }

  /** The pattern of a plan; for every-N-days it starts from its first candidate. */
  ghost predicate Slot(p: Plan, offset: int, first: int, x: int) {
    match p.frequency
    case Daily => DailySlot(p, offset, x)
    case Weekly => WeeklySlot(p, offset, x)
    case Monthly => MonthSlot(p, offset, x)
    case EveryNDays => EverySlot(p, first, x)
  }

  ghost predicate IsLeastSlot(p: Plan, offset: int, last: Option<int>, after: int)
    requires DAY <= after
  {
    var first := FirstCandidate(p, offset, last, after);
    LeastAfter(x => Slot(p, offset, first, x), after, NextRun(p, offset, last, after))
  }

  lemma {:induction false} SameLeast(f: int -> bool, g: int -> bool, after: int, r: int)
    requires forall x :: f(x) == g(x)
    ensures LeastAfter(f, after, r) == LeastAfter(g, after, r)
  {
  }

  lemma {:induction false} LeastByFrequency(p: Plan, offset: int, last: Option<int>, after: int)
    requires DAY <= after
    ensures IsLeastSlot(p, offset, last, after) <==>
      match p.frequency
      case Daily => LeastAfter(x => DailySlot(p, offset, x), after, DailyNext(p, offset, after))
      case Weekly => LeastAfter(x => WeeklySlot(p, offset, x), after, WeeklyNext(p, offset, after))
      case Monthly => LeastAfter(x => MonthSlot(p, offset, x), after, MonthlyNext(p, offset, after))
      case EveryNDays =>
        LeastAfter(x => EverySlot(p, FirstCandidate(p, offset, last, after), x), after,
                   EveryNext(p, offset, last, after))
  {
    var first, r := FirstCandidate(p, offset, last, after), NextRun(p, offset, last, after);
    var slot := x => Slot(p, offset, first, x);
    match p.frequency
    case Daily => SameLeast(slot, x => DailySlot(p, offset, x), after, r);
    case Weekly => SameLeast(slot, x => WeeklySlot(p, offset, x), after, r);
    case Monthly => SameLeast(slot, x => MonthSlot(p, offset, x), after, r);
    case EveryNDays => SameLeast(slot, x => EverySlot(p, first, x), after, r);
  }

  lemma {:induction false} MonthlyPicksLeast(p: Plan, offset: int, after: int)
    requires PlanOk(p) && OffsetOk(offset) && DAY <= after && p.frequency.Monthly? && PicksLeast(p, offset)
    ensures LeastAfter(x => MonthSlot(p, offset, x), after, MonthlyNext(p, offset, after))
  {
    MonthlyAdvances(p, offset, after);
    MonthlyExact(p, offset, after);
    MonthlyLeastExact(p, offset, after);
    var k := MonthContaining(Date(after));
    if k > 0 {
      SlotInMonth(p, offset, k - 1);
      assert FirstDay(k) == FirstDay(k - 1) + Length(k - 1);
      DateBounds(after, Date(after));
      assert FirstDay(k) * DAY <= Date(after) * DAY;
    }
  }

  /** In the range, for every instant and every last run. */
  lemma {:induction false} NextRunIsLeast(p: Plan, offset: int, last: Option<int>, after: int)
    requires PlanOk(p) && OffsetOk(offset) && DAY <= after && PicksLeast(p, offset)
    ensures IsLeastSlot(p, offset, last, after)
  {
    LeastByFrequency(p, offset, last, after);
    match p.frequency
    case Daily => DailyExact(p, offset, after);
    case Weekly => WeeklyExact(p, offset, after);
    case Monthly => MonthlyPicksLeast(p, offset, after);
    case EveryNDays => EveryExact(p, FirstCandidate(p, offset, last, after), after);
  }

  /** Out of the range, some instant's next run is not the least slot after it. */
  lemma {:induction false} NextRunMisses(p: Plan, offset: int) returns (after: int)
    requires PlanOk(p) && OffsetOk(offset) && !PicksLeast(p, offset)
    ensures DAY <= after && forall last :: !IsLeastSlot(p, offset, last, after)
  {
    if !Advances(p, offset) {
      after := NextRunStalls(p, offset);
    } else if p.frequency.Monthly? {
      after := MonthlyMisses(p, offset);
    } else if p.frequency.Weekly? {
      var day := WeekdayBefore(p);
      after := day * DAY;
      WeeklyExact(p, offset, after);
    } else {
      after := DAY;
      DailyExact(p, offset, after);
    }
    forall last ensures !IsLeastSlot(p, offset, last, after) {
      LeastByFrequency(p, offset, last, after);
    }
  }

  /** A day of the first week whose target weekday is six days ahead. */
  lemma {:induction false} WeekdayBefore(p: Plan) returns (day: int)
    requires PlanOk(p)
    ensures 1 <= day && TimeOf(day * DAY) == 0 && DaysAhead(p, day * DAY) == 6
  {
    day := TargetWeekday(p) + 2;
    assert Date(day * DAY) == day;
  }

  /** First of March of year 1: the February slot of a plan on the 28th or later is still to come. */
  lemma {:induction false} MonthlyMisses(p: Plan, offset: int) returns (after: int)
    requires PlanOk(p) && OffsetOk(offset) && 28 <= TargetDay(p) && offset < p.time - DAY
    ensures DAY <= after && !LeastAfter(x => MonthSlot(p, offset, x), after, MonthlyNext(p, offset, after))
  {
    after := 60 * DAY;
    assert Date(after) == 60;
    FebruarySlotAhead(p, offset);
    MonthlyLeastExact(p, offset, after);
  }

  lemma {:induction false} FebruarySlotAhead(p: Plan, offset: int)
    requires PlanOk(p) && 28 <= TargetDay(p) && offset < p.time - DAY
    ensures MonthContaining(60) == 2 && 60 * DAY < MonthlySlot(p, offset, 1)
  {
    FirstMonths();
    MonthIsUnique(60, 2, MonthContaining(60));
  }

  lemma {:induction false} FirstMonths()
    ensures FirstDay(0) == 1 && FirstDay(1) == 32 && FirstDay(2) == 60 && Length(1) == 28 && Length(2) == 31
  {
    assert FirstDay(1) == FirstDay(0) + Length(0);
    assert FirstDay(2) == FirstDay(1) + Length(1);
  }

  // ----- Every N days

  lemma {:induction false} EverySlotOrder(p: Plan, first: int, j: nat, k: nat)
    requires j < k
    ensures first + j * (Interval(p) * DAY) + Interval(p) * DAY <= first + k * (Interval(p) * DAY)
  {
    StepsInOrder(j, k, Interval(p) * DAY);
  }

  lemma {:induction false} StepsInOrder(j: nat, k: nat, step: nat)
    requires j < k
    ensures j * step + step <= k * step
  {
    var d := k - j - 1;
    assert k * step == (j + 1 + d) * step == j * step + step + d * step;
    assert 0 <= d * step;
  }

  /** The every-N-days next run is the least of first, first + N days, first + 2N days, ... after `after`. */
  lemma {:induction false} EveryExact(p: Plan, first: int, after: int)
    ensures
      var step := Interval(p) * DAY;
      var r := if after < first then first else first + ((after - first) / step + 1) * step;
      after < r && LeastAfter(x => EverySlot(p, first, x), after, r)
  {
    var step := Interval(p) * DAY;
    var n: nat := if after < first then 0 else (after - first) / step + 1;
    var r := first + n * step;
    assert EverySlot(p, first, r);
    if n > 0 {
      var rest := (after - first) % step;
      assert after - first == (n - 1) * step + rest && 0 <= rest < step;
      assert n * step == (n - 1) * step + step;
    }
    forall x | EverySlot(p, first, x) && after < x ensures r <= x {
      var k: nat :| x == first + k * step;
      if k < n - 1 {
        EverySlotOrder(p, first, k, n - 1);
      } else if n < k {
        EverySlotOrder(p, first, n, k);
      }
    }
  }

  /** Recomputed at the run itself, the first candidate is already later for every instant of a day iff
      the interval is at least two days or the offset is at most the time of day; so always at offset 0. */
  lemma {:induction false} FirstCandidateSuffices(p: Plan, offset: int, now: int)
    requires PlanOk(p) && OffsetOk(offset)
    ensures now < FirstCandidate(p, offset, Some(now), now) <==>
              TimeOf(now) < Interval(p) * DAY + p.time - offset
    ensures 2 <= Interval(p) || offset <= p.time ==> now < FirstCandidate(p, offset, Some(now), now)
  {
    assert (Date(now) + Interval(p)) * DAY == Date(now) * DAY + Interval(p) * DAY;
  }

  // ----- Both directions together

  lemma {:induction false} AdvancesExactly(p: Plan, offset: int)
    requires PlanOk(p) && OffsetOk(offset)
    ensures Advances(p, offset) <==> forall after, last :: DAY <= after ==> after < NextRun(p, offset, last, after)
  {
    if Advances(p, offset) {
      forall after, last | DAY <= after ensures after < NextRun(p, offset, last, after) {
        NextRunAdvances(p, offset, last, after);
      }
    } else {
      var after := NextRunStalls(p, offset);
      assert NextRun(p, offset, None, after) <= after;
    }
  }

  lemma {:induction false} PicksLeastExactly(p: Plan, offset: int)
    requires PlanOk(p) && OffsetOk(offset)
    ensures PicksLeast(p, offset) <==> forall after, last :: DAY <= after ==> IsLeastSlot(p, offset, last, after)
  {
    if PicksLeast(p, offset) {
      forall after, last | DAY <= after ensures IsLeastSlot(p, offset, last, after) {
        NextRunIsLeast(p, offset, last, after);
      }
    } else {
      var after := NextRunMisses(p, offset);
      assert !IsLeastSlot(p, offset, None, after);
    }
  }

  /** In UTC, which is the configured timezone, every plan's next run is the least slot strictly after. */
  lemma {:induction false} LeastInUtc(p: Plan, last: Option<int>, after: int)
    requires PlanOk(p) && DAY <= after
    ensures IsLeastSlot(p, 0, last, after) && after < NextRun(p, 0, last, after)
  {
    NextRunIsLeast(p, 0, last, after);
    NextRunAdvances(p, 0, last, after);
  }

  // ----- The schedule record

  class ReportSchedule {
    const plan: Plan
    const offset: int
    var lastRun: Option<int>
    var nextRun: Option<int>

    ghost predicate Valid() {
      PlanOk(plan) && OffsetOk(offset)
    }

    /** A new schedule is saved with its first run computed from the current time. */
    constructor (plan: Plan, offset: int, now: int)
      requires PlanOk(plan) && OffsetOk(offset) && DAY <= now
      ensures Valid() && this.plan == plan && this.offset == offset
      ensures lastRun == None && nextRun == Some(NextRun(plan, offset, None, now))
    {
      this.plan, this.offset, lastRun, nextRun := plan, offset, None, None;
      new;
      var next := CalculateNextRun(now);
      nextRun := Some(next);
    }

    method CalculateNextRun(after: int) returns (next: int)
      requires Valid() && DAY <= after
      ensures next == NextRun(plan, offset, lastRun, after)
    {
      match plan.frequency
      case Daily => next := CalculateDaily(after);
      case Weekly => next := CalculateWeekly(after);
      case Monthly => next := CalculateMonthly(after);
      case EveryNDays => next := CalculateEveryNDays(after);
    }

    method CalculateDaily(after: int) returns (candidate: int)
      ensures candidate == DailyNext(plan, offset, after)
    {
      candidate := At(plan, offset, Date(after));
      if candidate <= after {
        candidate := candidate + DAY;
      }
    }

    method CalculateWeekly(after: int) returns (candidate: int)
      ensures candidate == WeeklyNext(plan, offset, after)
    {
      var ahead := TargetWeekday(plan) - Weekday(Date(after));
      if ahead < 0 {
        ahead := ahead + 7;
      }
      candidate := At(plan, offset, Date(after) + ahead);
      if candidate <= after {
        candidate := candidate + 7 * DAY;
      }
    }

    method CalculateMonthly(after: int) returns (candidate: int)
      requires DAY <= after
      ensures candidate == MonthlyNext(plan, offset, after)
    {
      var k := MonthContaining(Date(after));
      candidate := MonthlySlot(plan, offset, k);
      if candidate <= after {
        candidate := MonthlySlot(plan, offset, k + 1);
      }
    }

    /** Candidates N days apart until one lies after `after`. */
    method CalculateEveryNDays(after: int) returns (candidate: int)
      ensures candidate == EveryNext(plan, offset, lastRun, after)
    {
      var step := Interval(plan) * DAY;
      var day := if lastRun.Some? then Date(lastRun.value) + Interval(plan) else Date(after);
      candidate := At(plan, offset, day);
      ghost var first, n := candidate, 0;
      while candidate <= after
        invariant 0 <= n && candidate == first + n * step
        invariant n > 0 ==> candidate - step <= after
        decreases after - candidate
      {
        assert first + (n + 1) * step == first + n * step + step;
        candidate := candidate + step;
        n := n + 1;
      }
      if n > 0 {
        StepsTaken(after - first, n, step);
      }
    }

    /** After a run: remember its time and compute the next one from it. */
    method UpdateNextRun(now: int)
      requires Valid() && DAY <= now
      modifies this
      ensures Valid() && lastRun == Some(now) && nextRun == Some(NextRun(plan, offset, Some(now), now))
      ensures Advances(plan, offset) ==> now < nextRun.value
    {
      lastRun := Some(now);
      var next := CalculateNextRun(now);
      nextRun := Some(next);
      if Advances(plan, offset) {
        NextRunAdvances(plan, offset, Some(now), now);
      }
    }
  }

  /** n steps pass d, n - 1 do not: n is one more than the whole steps in d. */
  lemma {:induction false} StepsTaken(d: int, n: nat, step: nat)
    requires 0 < n && 0 < step && n * step - step <= d < n * step
    ensures 0 <= d && d / step + 1 == n
  {
    assert (n - 1) * step == n * step - step;
    assert d == (n - 1) * step + (d - (n - 1) * step);
    WholeSteps(d, n - 1, step);
  }

  lemma {:induction false} WholeSteps(d: int, k: nat, step: nat)
    requires 0 < step && 0 <= d - k * step < step
    ensures 0 <= d && d / step == k
  {
    var q := d / step;
    assert d == q * step + d % step;
    assert 0 <= k * step;
    if q < k {
      StepsInOrder(q, k, step);
    } else if k < q {
      StepsInOrder(k, q, step);
    }
  }
}
