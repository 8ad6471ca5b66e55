/** Financial reporting: captured and refunded money of a time window, by currency, by day and by provider. */
module Cashflow {
  import opened Common

  datatype Status = Pending | Success | Failed | Cancelled | Refunded

  datatype Payment = Payment(
    currency: string, provider: string, status: Status, amount: int,
    paidAt: Option<int>, refundedAt: Option<int>)

  /** Start included, end excluded; without a start the window is unbounded in the past. */
  datatype Window = Window(start: Option<int>, end: int)

  datatype Kind = Captured | Reversed

  function UpperChar(c: char): char {
    if 'a' <= c <= 'z' then (c - 'a') + 'A' else c
  }

  function Upper(s: string): string {
    seq(|s|, i requires 0 <= i < |s| => UpperChar(s[i]))
  }

  /** When a payment counts as an event of this kind. A refunded payment stays captured as well. */
  function EventTime(kind: Kind, p: Payment): Option<int> {
    match kind
    case Captured => if p.status.Success? || p.status.Refunded? then p.paidAt else None
    case Reversed => if p.status.Refunded? then p.refundedAt else None
  }

  predicate InWindow(kind: Kind, w: Window, p: Payment) {
    EventTime(kind, p).Some? && EventTime(kind, p).value < w.end
    && (w.start.Some? ==> w.start.value <= EventTime(kind, p).value)
  }

  /** What a payment adds to the money, or to the count, of a kind in a window. */
  datatype Measure = Measure(kind: Kind, window: Window, counts: bool)

  function Worth(m: Measure): Payment -> int {
    (p: Payment) => if !InWindow(m.kind, m.window, p) then 0 else if m.counts then 1 else p.amount
  }

  /** What a report is broken down by, besides the currency: local days, providers, or nothing more. */
  datatype Group = Day(day: int) | Provider(name: string) | Whole

  datatype Key = Key(group: Group, currency: string)

  datatype Dimension = ByDay(date: int -> int) | ByProvider | ByCurrency

  function KeyOf(dim: Dimension, kind: Kind, p: Payment): Key {
    Key(match dim
        case ByDay(date) => Day(if EventTime(kind, p).Some? then date(EventTime(kind, p).value) else 0)
        case ByProvider => Provider(p.provider)
        case ByCurrency => Whole,
        Upper(p.currency))
  }

  // ----- Totals of the summary and of the breakdowns

  function InCurrency(m: Measure, currency: string): Payment -> int {
    (p: Payment) => if Upper(p.currency) == currency then Worth(m)(p) else 0
  }

  /** The summary's total of a currency. */
  function Total(payments: seq<Payment>, m: Measure, currency: string): int {
    Sum(payments, InCurrency(m, currency))
  }

  function AtKey(m: Measure, dim: Dimension, k: Key): Payment -> int {
    (p: Payment) => if KeyOf(dim, m.kind, p) == k then Worth(m)(p) else 0
  }

  /** The database's total of one group. */
  function GroupTotal(payments: seq<Payment>, dim: Dimension, m: Measure, k: Key): int {
    Sum(payments, AtKey(m, dim, k))
  }

  function GroupKeys(payments: seq<Payment>, dim: Dimension, kind: Kind, w: Window): set<Key> {
    set p | p in payments && InWindow(kind, w, p) :: KeyOf(dim, kind, p)
  }

  // ----- Partition: the groups add up to the whole

  function GroupTotalOver(payments: seq<Payment>, dim: Dimension, m: Measure): Key -> int {
    (k: Key) => GroupTotal(payments, dim, m, k)
  }

  function Within(m: Measure, dim: Dimension, keys: seq<Key>): Payment -> int {
    (p: Payment) => if KeyOf(dim, m.kind, p) in keys then Worth(m)(p) else 0
  }

  ghost predicate NoDuplicates<T>(s: seq<T>) {
    forall i, j :: 0 <= i < j < |s| ==> s[i] != s[j]
  }

  /** Each payment falls into at most one of the groups. */
  lemma {:induction false} SumOverGroups(payments: seq<Payment>, dim: Dimension, m: Measure, keys: seq<Key>)
    requires NoDuplicates(keys)
    ensures Sum(keys, GroupTotalOver(payments, dim, m)) == Sum(payments, Within(m, dim, keys))
    decreases |keys|
  {
    if keys == [] {
      SumZero(payments, Within(m, dim, keys));
    } else {
      var last, rest := keys[|keys| - 1], keys[..|keys| - 1];
      SumOverGroups(payments, dim, m, rest);
      assert last !in rest;
      assert keys == rest + [last];
      SumAddition(payments, Within(m, dim, rest), AtKey(m, dim, last), Within(m, dim, keys));
    }
  }

  lemma {:induction false} SumAddition<T>(s: seq<T>, f: T -> int, g: T -> int, h: T -> int)
    requires forall i :: 0 <= i < |s| ==> h(s[i]) == f(s[i]) + g(s[i])
    ensures Sum(s, h) == Sum(s, f) + Sum(s, g)
    decreases |s|
  {
    if s != [] {
      SumAddition(s[..|s| - 1], f, g, h);
    }
  }

  /** Any list of distinct groups of one currency that catches every event of the currency adds up to its total. */
  lemma {:induction false} GroupsAddUp(
    payments: seq<Payment>, dim: Dimension, m: Measure, keys: seq<Key>, currency: string)
    requires NoDuplicates(keys) && forall k :: k in keys ==> k.currency == currency
    requires forall p :: p in payments && InWindow(m.kind, m.window, p) && Upper(p.currency) == currency ==>
               KeyOf(dim, m.kind, p) in keys
    ensures Sum(keys, GroupTotalOver(payments, dim, m)) == Total(payments, m, currency)
  {
    SumOverGroups(payments, dim, m, keys);
    forall i | 0 <= i < |payments|
      ensures Within(m, dim, keys)(payments[i]) == InCurrency(m, currency)(payments[i])
    {
      var p := payments[i];
      assert p in payments;
      assert KeyOf(dim, m.kind, p).currency == Upper(p.currency);
      assert !InWindow(m.kind, m.window, p) ==> Worth(m)(p) == 0;
    }
    SumPointwise(payments, Within(m, dim, keys), payments, InCurrency(m, currency));
  }

  // ----- Days

  ghost predicate Monotone(date: int -> int) {
    forall x, y :: x <= y ==> date(x) <= date(y)
  }

  function FirstDay(date: int -> int, w: Window): int
    requires w.start.Some?
  {
    date(w.start.value)
  }

  /** The day of the last instant before the window's end. */
  function LastDay(date: int -> int, w: Window): int {
    date(w.end - 1)
  }

  /** The days of the series, none when the last is before the first. */
  function DaysOf(date: int -> int, w: Window, currency: string): (r: seq<Key>)
    requires w.start.Some?
  {
    seq(Max(LastDay(date, w) - FirstDay(date, w) + 1, 0), i => Key(Day(FirstDay(date, w) + i), currency))
  }

  /** No event of the window falls on a day outside first_day..last_day. */
  lemma {:induction false} EventsWithinDays(date: int -> int, w: Window, kind: Kind, p: Payment)
    requires Monotone(date) && w.start.Some? && InWindow(kind, w, p)
    ensures FirstDay(date, w) <= date(EventTime(kind, p).value) <= LastDay(date, w)
    ensures KeyOf(ByDay(date), kind, p) in DaysOf(date, w, Upper(p.currency))
  {
    var at := EventTime(kind, p).value;
    assert w.start.value <= at <= w.end - 1;
    var days := DaysOf(date, w, Upper(p.currency));
    var i := date(at) - FirstDay(date, w);
    assert days[i] == KeyOf(ByDay(date), kind, p);
  }

  /** For every bounded window, the daily points of a currency add up to its total: money and counts,
      captured and refunded. */
  lemma {:induction false} DaysAddUp(payments: seq<Payment>, date: int -> int, m: Measure, currency: string)
    requires Monotone(date) && m.window.start.Some?
    ensures Sum(DaysOf(date, m.window, currency), GroupTotalOver(payments, ByDay(date), m))
            == Total(payments, m, currency)
  {
    var keys := DaysOf(date, m.window, currency);
    forall p | p in payments && InWindow(m.kind, m.window, p) && Upper(p.currency) == currency
      ensures KeyOf(ByDay(date), m.kind, p) in keys
    {
      EventsWithinDays(date, m.window, m.kind, p);
    }
    GroupsAddUp(payments, ByDay(date), m, keys, currency);
  }

  /** So do the providers, whatever order they are listed in. */
  lemma {:induction false} ProvidersAddUp(payments: seq<Payment>, m: Measure, keys: seq<Key>, currency: string)
    requires NoDuplicates(keys) && forall k :: k in keys ==> k.currency == currency
    requires forall k :: k in GroupKeys(payments, ByProvider, m.kind, m.window) && k.currency == currency ==> k in keys
    ensures Sum(keys, GroupTotalOver(payments, ByProvider, m)) == Total(payments, m, currency)
  {
    forall p | p in payments && InWindow(m.kind, m.window, p) && Upper(p.currency) == currency
      ensures KeyOf(ByProvider, m.kind, p) in keys
    {
      assert KeyOf(ByProvider, m.kind, p) in GroupKeys(payments, ByProvider, m.kind, m.window);
    }
    GroupsAddUp(payments, ByProvider, m, keys, currency);
  }

  // ----- The grouped query

  /** One row of the grouped query. */
  datatype GroupRow = GroupRow(key: Key, amount: int, count: int)

  /** The grouped query's answer: one row for each group that has an event, with its sum and count. */
  ghost predicate IsGrouping(rows: seq<GroupRow>, payments: seq<Payment>, dim: Dimension, kind: Kind, w: Window) {
    && (forall i, j :: 0 <= i < j < |rows| ==> rows[i].key != rows[j].key)
    && KeysOf(rows) == GroupKeys(payments, dim, kind, w)
    && (forall i :: 0 <= i < |rows| ==>
          && rows[i].amount == GroupTotal(payments, dim, Measure(kind, w, false), rows[i].key)
          && rows[i].count == GroupTotal(payments, dim, Measure(kind, w, true), rows[i].key))
  }

  function KeysOf(rows: seq<GroupRow>): set<Key> {
    set i | 0 <= i < |rows| :: rows[i].key
  }

  function RowAt(counts: bool, k: Key): GroupRow -> int {
    (row: GroupRow) => if row.key != k then 0 else if counts then row.count else row.amount
  }

  /** What the rows add at a key. */
  function RowsAt(rows: seq<GroupRow>, counts: bool, k: Key): int {
    Sum(rows, RowAt(counts, k))
  }

  lemma {:induction false} EmptyGroup(payments: seq<Payment>, dim: Dimension, m: Measure, k: Key)
    requires k !in GroupKeys(payments, dim, m.kind, m.window)
    ensures GroupTotal(payments, dim, m, k) == 0
  {
    forall i | 0 <= i < |payments| ensures AtKey(m, dim, k)(payments[i]) == 0 {
      var p := payments[i];
      assert p in payments;
      if InWindow(m.kind, m.window, p) {
        assert KeyOf(dim, m.kind, p) in GroupKeys(payments, dim, m.kind, m.window);
      } else {
        assert Worth(m)(p) == 0;
      }
    }
    SumZero(payments, AtKey(m, dim, k));
  }

  lemma {:induction false} RowsAreTotals(
    rows: seq<GroupRow>, payments: seq<Payment>, dim: Dimension, kind: Kind, w: Window, counts: bool, k: Key)
    requires IsGrouping(rows, payments, dim, kind, w)
    ensures RowsAt(rows, counts, k) == GroupTotal(payments, dim, Measure(kind, w, counts), k)
  {
    if k in KeysOf(rows) {
      var i :| 0 <= i < |rows| && rows[i].key == k;
      SumSingle(rows, i, RowAt(counts, k));
    } else {
      forall i | 0 <= i < |rows| ensures RowAt(counts, k)(rows[i]) == 0 {
        assert rows[i].key in KeysOf(rows);
      }
      SumZero(rows, RowAt(counts, k));
      EmptyGroup(payments, dim, Measure(kind, w, counts), k);
    }
  }

  lemma {:induction false} RowsAtAppend(rows: seq<GroupRow>, i: nat, counts: bool, k: Key)
    requires i < |rows|
    ensures RowsAt(rows[..i + 1], counts, k) == RowsAt(rows[..i], counts, k) + RowAt(counts, k)(rows[i])
  {
    assert rows[..i + 1] == rows[..i] + [rows[i]];
    SumAppend(rows[..i], rows[i], RowAt(counts, k));
  }

  lemma {:induction false} KeysAppend(rows: seq<GroupRow>, i: nat)
    requires i < |rows|
    ensures KeysOf(rows[..i + 1]) == KeysOf(rows[..i]) + {rows[i].key}
  {
    var a, b := rows[..i], rows[..i + 1];
    assert b == a + [rows[i]];
    forall k | k in KeysOf(b) ensures k in KeysOf(a) + {rows[i].key} {
      var j :| 0 <= j < |b| && b[j].key == k;
      assert j < i ==> a[j].key == k;
    }
    forall k | k in KeysOf(a) ensures k in KeysOf(b) {
      var j :| 0 <= j < |a| && a[j].key == k;
      assert b[j].key == k;
    }
    assert b[i].key == rows[i].key;
  }

  // ----- Buckets

  datatype Bucket = Bucket(captured: int, reversed: int, capturedCount: int, reversedCount: int)

  const ZERO := Bucket(0, 0, 0, 0)

  /** A missing bucket reads as zero. */
  function At(buckets: map<Key, Bucket>, k: Key): Bucket {
    if k in buckets then buckets[k] else ZERO
  }

  function Add(b: Bucket, kind: Kind, amount: int, count: int): Bucket {
    match kind
    case Captured => b.(captured := b.captured + amount, capturedCount := b.capturedCount + count)
    case Reversed => b.(reversed := b.reversed + amount, reversedCount := b.reversedCount + count)
  }

  /** Captured and refunded money and counts of one group, straight from the payments. */
  function BucketAt(payments: seq<Payment>, dim: Dimension, w: Window, k: Key): Bucket {
    Bucket(GroupTotal(payments, dim, Measure(Captured, w, false), k),
           GroupTotal(payments, dim, Measure(Reversed, w, false), k),
           GroupTotal(payments, dim, Measure(Captured, w, true), k),
           GroupTotal(payments, dim, Measure(Reversed, w, true), k))
  }

  /** The rows of one kind, each added to its group's bucket. */
  method AddRows(before: map<Key, Bucket>, kind: Kind, rows: seq<GroupRow>) returns (buckets: map<Key, Bucket>)
    ensures buckets.Keys == before.Keys + KeysOf(rows)
    ensures forall k :: At(buckets, k) == Add(At(before, k), kind, RowsAt(rows, false, k), RowsAt(rows, true, k))
  {
    buckets := before;
    for i := 0 to |rows|
      invariant buckets.Keys == before.Keys + KeysOf(rows[..i])
      invariant forall k :: At(buckets, k)
                  == Add(At(before, k), kind, RowsAt(rows[..i], false, k), RowsAt(rows[..i], true, k))
    {
      var row, was := rows[i], buckets;
      buckets := buckets[row.key := Add(At(buckets, row.key), kind, row.amount, row.count)];
      KeysAppend(rows, i);
      forall k
        ensures At(buckets, k)
                == Add(At(before, k), kind, RowsAt(rows[..i + 1], false, k), RowsAt(rows[..i + 1], true, k))
      {
        RowsAtAppend(rows, i, false, k);
        RowsAtAppend(rows, i, true, k);
        assert At(was, k) == Add(At(before, k), kind, RowsAt(rows[..i], false, k), RowsAt(rows[..i], true, k));
      }
    }
    assert rows[..|rows|] == rows;
  }

  /** Every bucket of the answer is the exact total of its group, and only groups with events have one. */
  method BuildGroupedCashflow(
    captured: seq<GroupRow>, refunded: seq<GroupRow>,
    ghost payments: seq<Payment>, ghost dim: Dimension, ghost w: Window)
    returns (buckets: map<Key, Bucket>)
    requires IsGrouping(captured, payments, dim, Captured, w)
    requires IsGrouping(refunded, payments, dim, Reversed, w)
    ensures buckets.Keys == GroupKeys(payments, dim, Captured, w) + GroupKeys(payments, dim, Reversed, w)
    ensures forall k :: At(buckets, k) == BucketAt(payments, dim, w, k)
  {
    var first := AddRows(map[], Captured, captured);
    buckets := AddRows(first, Reversed, refunded);
    forall k ensures At(buckets, k) == BucketAt(payments, dim, w, k) {
      forall counts: bool
        ensures RowsAt(captured, counts, k) == GroupTotal(payments, dim, Measure(Captured, w, counts), k)
        ensures RowsAt(refunded, counts, k) == GroupTotal(payments, dim, Measure(Reversed, w, counts), k)
      {
        RowsAreTotals(captured, payments, dim, Captured, w, counts, k);
        RowsAreTotals(refunded, payments, dim, Reversed, w, counts, k);
      }
      assert At(map[], k) == ZERO;
    }
  }

  // ----- The daily series

  datatype Point = Point(day: int, bucket: Bucket)

  datatype Series = Series(currency: string, points: seq<Point>)

  function Part(m: Measure): Point -> int {
    (p: Point) =>
      match (m.kind, m.counts)
      case (Captured, false) => p.bucket.captured
      case (Captured, true) => p.bucket.capturedCount
      case (Reversed, false) => p.bucket.reversed
      case (Reversed, true) => p.bucket.reversedCount
  }

  /** The points are the days of the window in order, each with its exact totals. */
  ghost predicate IsSeries(s: Series, payments: seq<Payment>, date: int -> int, w: Window)
    requires w.start.Some?
  {
    var keys := DaysOf(date, w, s.currency);
    && |s.points| == |keys|
    && forall i :: 0 <= i < |keys| ==>
         s.points[i] == Point(FirstDay(date, w) + i, BucketAt(payments, ByDay(date), w, keys[i]))
  }

  /** The points of a series sum to the summary's totals of its currency. */
  lemma {:induction false} SeriesAddsUp(s: Series, payments: seq<Payment>, date: int -> int, m: Measure)
    requires Monotone(date) && m.window.start.Some? && IsSeries(s, payments, date, m.window)
    ensures Sum(s.points, Part(m)) == Total(payments, m, s.currency)
  {
    var keys := DaysOf(date, m.window, s.currency);
    forall i | 0 <= i < |keys|
      ensures Part(m)(s.points[i]) == GroupTotalOver(payments, ByDay(date), m)(keys[i])
    {
      assert s.points[i].bucket == BucketAt(payments, ByDay(date), m.window, keys[i]);
      assert m == Measure(m.kind, m.window, m.counts);
    }
    SumPointwise(s.points, Part(m), keys, GroupTotalOver(payments, ByDay(date), m));
    DaysAddUp(payments, date, m, s.currency);
  }

  /** One series for each currency of the summary, refused without a start. */
  method BuildDailySeries(
    w: Window, date: int -> int, currencies: seq<string>, grouped: map<Key, Bucket>, ghost payments: seq<Payment>)
    returns (series: Option<seq<Series>>)
    requires forall k :: At(grouped, k) == BucketAt(payments, ByDay(date), w, k)
    ensures series.None? <==> w.start.None?
    ensures series.Some? ==>
              (&& |series.value| == |currencies|
               && forall c :: 0 <= c < |currencies| ==>
                    series.value[c].currency == currencies[c] && IsSeries(series.value[c], payments, date, w))
  {
    if w.start.None? {
      return None;
    }
    var first, last := FirstDay(date, w), LastDay(date, w);
    var count := Max(last - first + 1, 0);
    var all: seq<Series> := [];
    for c := 0 to |currencies|
      invariant |all| == c
      invariant forall d :: 0 <= d < c ==> all[d].currency == currencies[d] && IsSeries(all[d], payments, date, w)
    {
      var points: seq<Point> := [];
      for i := 0 to count
        invariant |points| == i
        invariant forall j :: 0 <= j < i ==>
                    points[j] == Point(first + j, At(grouped, Key(Day(first + j), currencies[c])))
      {
        points := points + [Point(first + i, At(grouped, Key(Day(first + i), currencies[c])))];
      }
      all := all + [Series(currencies[c], points)];
    }
    return Some(all);
  }

  // ----- The summary

  lemma {:induction false} WholeIsTotal(payments: seq<Payment>, m: Measure, currency: string)
    ensures GroupTotal(payments, ByCurrency, m, Key(Whole, currency)) == Total(payments, m, currency)
  {
    var k := Key(Whole, currency);
    forall i | 0 <= i < |payments|
      ensures AtKey(m, ByCurrency, k)(payments[i]) == InCurrency(m, currency)(payments[i])
    {
      assert KeyOf(ByCurrency, m.kind, payments[i]) == Key(Whole, Upper(payments[i].currency));
    }
    SumPointwise(payments, AtKey(m, ByCurrency, k), payments, InCurrency(m, currency));
  }

  /** The four totals of a currency. */
  function Summary(payments: seq<Payment>, w: Window, currency: string): Bucket {
    Bucket(Total(payments, Measure(Captured, w, false), currency),
           Total(payments, Measure(Reversed, w, false), currency),
           Total(payments, Measure(Captured, w, true), currency),
           Total(payments, Measure(Reversed, w, true), currency))
  }

  /** The summary's rows of one kind are stored, not added: each group has only one. */
  method StoreRows(before: map<Key, Bucket>, kind: Kind, rows: seq<GroupRow>) returns (buckets: map<Key, Bucket>)
    requires forall i, j :: 0 <= i < j < |rows| ==> rows[i].key != rows[j].key
    requires forall k :: k in before ==> Cleared(before[k], kind) == before[k]
    ensures buckets.Keys == before.Keys + KeysOf(rows)
    ensures forall k :: At(buckets, k) == Add(At(before, k), kind, RowsAt(rows, false, k), RowsAt(rows, true, k))
  {
    buckets := before;
    for i := 0 to |rows|
      invariant buckets.Keys == before.Keys + KeysOf(rows[..i])
      invariant forall k :: At(buckets, k)
                  == Add(At(before, k), kind, RowsAt(rows[..i], false, k), RowsAt(rows[..i], true, k))
    {
      var row, was := rows[i], buckets;
      buckets := buckets[row.key := Add(Cleared(At(buckets, row.key), kind), kind, row.amount, row.count)];
      KeysAppend(rows, i);
      forall k
        ensures At(buckets, k)
                == Add(At(before, k), kind, RowsAt(rows[..i + 1], false, k), RowsAt(rows[..i + 1], true, k))
      {
        RowsAtAppend(rows, i, false, k);
        RowsAtAppend(rows, i, true, k);
        assert At(was, k) == Add(At(before, k), kind, RowsAt(rows[..i], false, k), RowsAt(rows[..i], true, k));
        if k == row.key {
          NoneBefore(rows, i, false);
          NoneBefore(rows, i, true);
        }
      }
    }
    assert rows[..|rows|] == rows;
  }

  function Cleared(b: Bucket, kind: Kind): Bucket {
    match kind
    case Captured => b.(captured := 0, capturedCount := 0)
    case Reversed => b.(reversed := 0, reversedCount := 0)
  }

  lemma {:induction false} NoneBefore(rows: seq<GroupRow>, i: nat, counts: bool)
    requires i < |rows| && forall j :: 0 <= j < i ==> rows[j].key != rows[i].key
    ensures RowsAt(rows[..i], counts, rows[i].key) == 0
  {
    SumZero(rows[..i], RowAt(counts, rows[i].key));
  }

  /** The summary: exact totals for each currency with an event, and no other currency. */
  method GetFinancialCashflow(
    captured: seq<GroupRow>, refunded: seq<GroupRow>, ghost payments: seq<Payment>, ghost w: Window)
    returns (buckets: map<Key, Bucket>)
    requires IsGrouping(captured, payments, ByCurrency, Captured, w)
    requires IsGrouping(refunded, payments, ByCurrency, Reversed, w)
    ensures buckets.Keys == GroupKeys(payments, ByCurrency, Captured, w) + GroupKeys(payments, ByCurrency, Reversed, w)
    ensures forall currency :: At(buckets, Key(Whole, currency)) == Summary(payments, w, currency)
  {
    var first := StoreRows(map[], Captured, captured);
    forall k | k in first ensures Cleared(first[k], Reversed) == first[k] {
      assert At(first, k) == first[k] && At(map[], k) == ZERO;
    }
    buckets := StoreRows(first, Reversed, refunded);
    forall currency ensures At(buckets, Key(Whole, currency)) == Summary(payments, w, currency) {
      SummaryRows(captured, payments, Captured, w, currency);
      SummaryRows(refunded, payments, Reversed, w, currency);
      assert At(map[], Key(Whole, currency)) == ZERO;
    }
  }

  lemma {:induction false} SummaryRows(
    rows: seq<GroupRow>, payments: seq<Payment>, kind: Kind, w: Window, currency: string)
    requires IsGrouping(rows, payments, ByCurrency, kind, w)
    ensures RowsAt(rows, false, Key(Whole, currency)) == Total(payments, Measure(kind, w, false), currency)
    ensures RowsAt(rows, true, Key(Whole, currency)) == Total(payments, Measure(kind, w, true), currency)
  {
    forall counts: bool
      ensures RowsAt(rows, counts, Key(Whole, currency)) == Total(payments, Measure(kind, w, counts), currency)
    {
      RowsAreTotals(rows, payments, ByCurrency, kind, w, counts, Key(Whole, currency));
      WholeIsTotal(payments, Measure(kind, w, counts), currency);
    }
  }

  // ----- Windows

  const DAY := 86_400_000_000

  /** The local date of an instant, in microseconds, at a fixed offset from UTC. */
  function LocalDate(offset: int): int -> int {
    (t: int) => (t + offset) / DAY
  }

  function LocalMidnight(offset: int, day: int): int {
    day * DAY - offset
  }

  /** A custom window, both dates included. */
  function CustomWindow(offset: int, startDate: int, endDate: int): Window {
    Window(Some(LocalMidnight(offset, startDate)), LocalMidnight(offset, endDate + 1))
  }

  /** A named period: this many days, the last one today, up to now. */
  function PeriodWindow(offset: int, days: int, now: int): Window {
    Window(Some(LocalMidnight(offset, LocalDate(offset)(now) - (days - 1))), now)
  }

  lemma {:induction false} LocalDateIsMonotone(offset: int)
    ensures Monotone(LocalDate(offset))
  {
  }

  /** The series of a custom window has exactly its dates. */
  lemma {:induction false} CustomDays(offset: int, startDate: int, endDate: int)
    ensures var w := CustomWindow(offset, startDate, endDate);
            FirstDay(LocalDate(offset), w) == startDate && LastDay(LocalDate(offset), w) == endDate
  {
  }

  /** The series of a named period ends today, except at the stroke of midnight, when today is missing. */
  lemma {:induction false} PeriodDays(offset: int, days: int, now: int)
    requires 1 <= days
    ensures var w, today := PeriodWindow(offset, days, now), LocalDate(offset)(now);
            && FirstDay(LocalDate(offset), w) == today - (days - 1)
            && LastDay(LocalDate(offset), w) == (if now == LocalMidnight(offset, today) then today - 1 else today)
            && |DaysOf(LocalDate(offset), w, "")| == (if now == LocalMidnight(offset, today) then days - 1 else days)
  {
  }

  /** A payment counts in a custom window exactly when the local date of its event is within the two dates. */
  lemma {:induction false} CustomWindowExactly(
    offset: int, startDate: int, endDate: int, kind: Kind, p: Payment)
    ensures InWindow(kind, CustomWindow(offset, startDate, endDate), p) <==>
              EventTime(kind, p).Some?
              && startDate <= (EventTime(kind, p).value + offset) / 86_400_000_000 <= endDate
  {
    if EventTime(kind, p).Some? {
      FromMidnight(EventTime(kind, p).value + offset, startDate);
      FromMidnight(EventTime(kind, p).value + offset, endDate + 1);
    }
  }

  lemma {:induction false} FromMidnight(local: int, day: int)
    ensures day * DAY <= local <==> day <= local / 86_400_000_000
  {
    assert local == 86_400_000_000 * (local / 86_400_000_000) + local % 86_400_000_000;
  }

  /** And in a named period when it is before now, and its local date is today or one of the days just before. */
  lemma {:induction false} PeriodWindowExactly(offset: int, days: int, now: int, kind: Kind, p: Payment)
    ensures InWindow(kind, PeriodWindow(offset, days, now), p) <==>
              EventTime(kind, p).Some? && EventTime(kind, p).value < now
              && (now + offset) / 86_400_000_000 - days < (EventTime(kind, p).value + offset) / 86_400_000_000
  {
    if EventTime(kind, p).Some? {
      FromMidnight(EventTime(kind, p).value + offset, (now + offset) / 86_400_000_000 - (days - 1));
    }
  }

  // ----- One payment at a time

  /** Captured money counts at the payment's time, also when it was refunded later; refunded money at the refund's. */
  lemma {:induction false} EventTimes(p: Payment, x: int)
    ensures EventTime(Captured, p) == Some(x) <==> p.status in {Success, Refunded} && p.paidAt == Some(x)
    ensures EventTime(Reversed, p) == Some(x) <==> p.status == Refunded && p.refundedAt == Some(x)
  {
  }

  /** A payment adds its amount, or one, to the total of its currency exactly when it has its event in the window. */
  lemma {:induction false} TotalOneByOne(payments: seq<Payment>, p: Payment, m: Measure, currency: string)
    ensures Total([], m, currency) == 0
    ensures
      var at := EventTime(m.kind, p);
      Total(payments + [p], m, currency) - Total(payments, m, currency)
      == if Upper(p.currency) == currency && at.Some? && at.value < m.window.end
            && (m.window.start.None? || m.window.start.value <= at.value)
         then (if m.counts then 1 else p.amount) else 0
  {
    SumAppend(payments, p, InCurrency(m, currency));
    WorthExactly(p, m);
  }

  lemma {:induction false} WorthExactly(p: Payment, m: Measure)
    ensures Worth(m)(p) == if !InWindow(m.kind, m.window, p) then 0 else if m.counts then 1 else p.amount
  {
  }

  /** And to the total of one of its groups. */
  lemma {:induction false} GroupOneByOne(payments: seq<Payment>, p: Payment, dim: Dimension, m: Measure, k: Key)
    ensures GroupTotal([], dim, m, k) == 0
    ensures GroupTotal(payments + [p], dim, m, k) - GroupTotal(payments, dim, m, k)
            == if KeyOf(dim, m.kind, p) == k && InWindow(m.kind, m.window, p)
               then (if m.counts then 1 else p.amount) else 0
  {
    SumAppend(payments, p, AtKey(m, dim, k));
    WorthExactly(p, m);
  }

  /** A payment's currency in capitals, and its day, provider or nothing more. */
  lemma {:induction false} KeysExactly(p: Payment, kind: Kind, date: int -> int)
    ensures KeyOf(ByCurrency, kind, p) == Key(Whole, Upper(p.currency))
    ensures KeyOf(ByProvider, kind, p) == Key(Provider(p.provider), Upper(p.currency))
    ensures EventTime(kind, p).Some? ==>
              KeyOf(ByDay(date), kind, p) == Key(Day(date(EventTime(kind, p).value)), Upper(p.currency))
  {
  }

  const SMALL := "abcdefghijklmnopqrstuvwxyz"

  const CAPITAL := "ABCDEFGHIJKLMNOPQRSTUVWXYZ"

  /** Small letters become their capitals, and nothing else changes. */
  lemma {:induction false} UpperExactly(s: string, i: nat, l: nat)
    requires i < |s| && l < 26
    ensures |Upper(s)| == |s|
    ensures s[i] == SMALL[l] ==> Upper(s)[i] == CAPITAL[l]
    ensures !('a' <= s[i] <= 'z') ==> Upper(s)[i] == s[i]
  {
  }
}
