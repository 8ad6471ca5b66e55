/** A user's recently viewed products: at most the twenty viewed last. */
module RecentlyViewed {
  import opened Common

  const LIMIT := 20

  datatype View = View(product: nat, time: int)

  /** When each product was viewed last. */
  function Latest(history: seq<View>): map<nat, int> {
    if history == [] then map[]
    else Latest(history[..|history| - 1])[history[|history| - 1].product := history[|history| - 1].time]
  }

  ghost predicate Increasing(history: seq<View>) {
    forall i, j :: 0 <= i < j < |history| ==> history[i].time < history[j].time
  }

  /** A row whose time no other row's precedes. */
  ghost predicate IsOldest(rows: map<nat, int>, p: nat) {
    p in rows && forall q :: q in rows ==> rows[p] <= rows[q]
  }

  /** Viewing a product: its row is replaced by a new one, and an oldest row goes when there are too many. */
  ghost predicate Viewed(before: map<nat, int>, after: map<nat, int>, v: View) {
    var rows := before[v.product := v.time];
    if |rows| <= LIMIT then after == rows
    else exists o :: IsOldest(rows, o) && after == rows - {o}
  }

  /** The rows are those of the n most recently viewed products: there are n of them, or all products if
      fewer were viewed, each with its last time, and every other product was viewed before all of them. */
  ghost predicate MostRecent(rows: map<nat, int>, latest: map<nat, int>, n: nat) {
    |rows| == Min(n, |latest|) && LastTimes(rows, latest) && OthersOlder(rows, latest)
  }

  ghost predicate LastTimes(rows: map<nat, int>, latest: map<nat, int>) {
    forall p :: p in rows ==> p in latest && rows[p] == latest[p]
  }

  ghost predicate OthersOlder(rows: map<nat, int>, latest: map<nat, int>) {
    forall p, q :: p in rows && q in latest && q !in rows ==> latest[q] < rows[p]
  }

  lemma {:induction false} LatestMeaning(history: seq<View>, p: nat)
    ensures p in Latest(history) <==> exists i :: 0 <= i < |history| && history[i].product == p
    ensures p in Latest(history) ==>
              (exists i :: 0 <= i < |history| && history[i] == View(p, Latest(history)[p])
                           && forall j :: i < j < |history| ==> history[j].product != p)
    decreases |history|
  {
    if history != [] {
      var last, prior := history[|history| - 1], history[..|history| - 1];
      LatestMeaning(prior, p);
      if last.product == p {
        assert history[|history| - 1] == View(p, Latest(history)[p]);
      } else if p in Latest(prior) {
        var i :| 0 <= i < |prior| && prior[i] == View(p, Latest(prior)[p])
                 && forall j :: i < j < |prior| ==> prior[j].product != p;
        assert history[i] == View(p, Latest(history)[p]);
      }
    }
  }

  lemma {:induction false} LatestBefore(history: seq<View>, t: int)
    requires forall i :: 0 <= i < |history| ==> history[i].time < t
    ensures forall p :: p in Latest(history) ==> Latest(history)[p] < t
    decreases |history|
  {
    if history != [] {
      LatestBefore(history[..|history| - 1], t);
    }
  }

  /** Different products were last viewed at different times. */
  ghost predicate OneToOne(latest: map<nat, int>) {
    forall p, q :: p in latest && q in latest && p != q ==> latest[p] != latest[q]
  }

  lemma {:induction false} LatestOneToOne(history: seq<View>)
    requires Increasing(history)
    ensures OneToOne(Latest(history))
    decreases |history|
  {
    if history != [] {
      var prior := history[..|history| - 1];
      LatestOneToOne(prior);
      LatestBefore(prior, history[|history| - 1].time);
    }
  }

  lemma {:induction false} KeysOfUpdate(m: map<nat, int>, p: nat, t: int)
    ensures |m[p := t]| == if p in m then |m| else |m| + 1
  {
    var m' := m[p := t];
    assert m'.Keys == m.Keys + {p};
    assert |m'.Keys| == |m'| && |m.Keys| == |m|;
  }

  lemma {:induction false} AllKept(rows: map<nat, int>, latest: map<nat, int>, n: nat)
    requires MostRecent(rows, latest, n) && |rows| < n
    ensures rows == latest
  {
    assert rows.Keys <= latest.Keys;
    assert |rows.Keys| == |latest.Keys|;
    SameSize(rows.Keys, latest.Keys);
    assert forall p :: p in latest ==> p in rows.Keys;
  }

  lemma {:induction false} SameSize<T>(a: set<T>, b: set<T>)
    requires a <= b && |a| == |b|
    ensures a == b
  {
    if a != b {
      var x :| x in b && x !in a;
      SmallerSubset(a, b - {x});
    }
  }

  /** One view keeps the table the most recent part of the history. */
  lemma {:induction false} ViewKeepsMostRecent(
    before: map<nat, int>, after: map<nat, int>, latest: map<nat, int>, v: View)
    requires MostRecent(before, latest, LIMIT) && OneToOne(latest) && Viewed(before, after, v)
    requires forall p :: p in latest ==> latest[p] < v.time
    ensures MostRecent(after, latest[v.product := v.time], LIMIT)
  {
    var rows, latest' := before[v.product := v.time], latest[v.product := v.time];
    KeysOfUpdate(before, v.product, v.time);
    KeysOfUpdate(latest, v.product, v.time);
    if v.product !in before {
      if |before| < LIMIT {
        AllKept(before, latest, LIMIT);
      } else {
        assert LIMIT < |rows|;
        var o :| IsOldest(rows, o) && after == rows - {o};
        OldestLeaves(before, rows, after, latest, v, o);
      }
    }
  }

  /** The oldest row is not the new one. */
  lemma {:induction false} NewIsNotOldest(
    before: map<nat, int>, rows: map<nat, int>, latest: map<nat, int>, v: View, o: nat)
    requires MostRecent(before, latest, LIMIT) && |before| == LIMIT
    requires v.product !in before && rows == before[v.product := v.time]
    requires forall p :: p in latest ==> latest[p] < v.time
    requires IsOldest(rows, o)
    ensures o in before && o != v.product
  {
    assert before.Keys != {};
    var p :| p in before.Keys;
    assert p in rows && rows[p] == latest[p] < v.time;
  }

  lemma {:induction false} LatestIsLarge(before: map<nat, int>, latest: map<nat, int>, v: View)
    requires MostRecent(before, latest, LIMIT) && |before| == LIMIT
    ensures LIMIT <= |latest[v.product := v.time]|
  {
    KeysOfUpdate(latest, v.product, v.time);
  }

  lemma {:induction false} SizeAfterLeaving(before: map<nat, int>, rows: map<nat, int>, v: View, o: nat)
    requires v.product !in before && rows == before[v.product := v.time] && o in rows
    ensures |rows - {o}| == |before|
  {
    KeysOfUpdate(before, v.product, v.time);
    assert (rows - {o}).Keys == rows.Keys - {o};
    assert |(rows - {o}).Keys| == |rows - {o}|;
  }

  lemma {:induction false} OldestLeaves(
    before: map<nat, int>, rows: map<nat, int>, after: map<nat, int>, latest: map<nat, int>, v: View, o: nat)
    requires MostRecent(before, latest, LIMIT) && |before| == LIMIT && OneToOne(latest)
    requires v.product !in before && rows == before[v.product := v.time]
    requires forall p :: p in latest ==> latest[p] < v.time
    requires IsOldest(rows, o) && after == rows - {o}
    ensures MostRecent(after, latest[v.product := v.time], LIMIT)
  {
    NewIsNotOldest(before, rows, latest, v, o);
    LatestIsLarge(before, latest, v);
    SizeAfterLeaving(before, rows, v, o);
    TimesAfterLeaving(before, rows, latest, v, o);
    OrderAfterLeaving(before, rows, latest, v, o);
  }

  lemma {:induction false} TimesAfterLeaving(
    before: map<nat, int>, rows: map<nat, int>, latest: map<nat, int>, v: View, o: nat)
    requires LastTimes(before, latest) && rows == before[v.product := v.time]
    ensures LastTimes(rows - {o}, latest[v.product := v.time])
  {
  }

  lemma {:induction false} OrderAfterLeaving(
    before: map<nat, int>, rows: map<nat, int>, latest: map<nat, int>, v: View, o: nat)
    requires MostRecent(before, latest, LIMIT) && OneToOne(latest)
    requires v.product !in before && rows == before[v.product := v.time] && o in before && o != v.product
    requires forall p :: p in latest ==> latest[p] < v.time
    requires IsOldest(rows, o)
    ensures OthersOlder(rows - {o}, latest[v.product := v.time])
  {
    var after, latest' := rows - {o}, latest[v.product := v.time];
    assert v.product in after;
    forall p, q | p in after && q in latest' && q !in after ensures latest'[q] < after[p] {
      assert p in rows && p != o && after[p] == rows[p];
      assert q != v.product && q in latest && (q == o || q !in before);
      OthersAreOlder(before, rows, latest, v, o, p, q);
    }
  }

  lemma {:induction false} OthersAreOlder(
    before: map<nat, int>, rows: map<nat, int>, latest: map<nat, int>, v: View, o: nat, p: nat, q: nat)
    requires MostRecent(before, latest, LIMIT) && OneToOne(latest)
    requires v.product !in before && rows == before[v.product := v.time] && o in before
    requires forall x :: x in latest ==> latest[x] < v.time
    requires IsOldest(rows, o)
    requires p in rows && p != o && q in latest && q != v.product && (q == o || q !in before)
    ensures latest[q] < rows[p]
  {
    assert before[o] == latest[o] == rows[o];
    if p == v.product {
      assert latest[q] < v.time;
    } else {
      assert before[p] == latest[p] == rows[p];
      if q == o {
        assert rows[o] <= rows[p];
      }
    }
  }

  /** The table after each view of a history, from an empty one. */
  ghost predicate Trace(history: seq<View>, tables: seq<map<nat, int>>) {
    && |tables| == |history| + 1 && tables[0] == map[]
    && forall i :: 0 <= i < |history| ==> Viewed(tables[i], tables[i + 1], history[i])
  }

  /** After any history of views at increasing times, the table holds exactly the twenty products viewed
      last, or all of them when there are fewer, each at its last time. */
  lemma {:induction false} TableIsMostRecent(history: seq<View>, tables: seq<map<nat, int>>)
    requires Increasing(history) && Trace(history, tables)
    ensures MostRecent(tables[|history|], Latest(history), 20)
    decreases |history|
  {
    if history != [] {
      var n := |history| - 1;
      var prior := history[..n];
      assert Trace(prior, tables[..n + 1]) by {
        forall i | 0 <= i < n ensures Viewed(tables[..n + 1][i], tables[..n + 1][i + 1], prior[i]) {
          assert Viewed(tables[i], tables[i + 1], history[i]);
        }
      }
      TableIsMostRecent(prior, tables[..n + 1]);
      LatestOneToOne(prior);
      LatestBefore(prior, history[n].time);
      ViewKeepsMostRecent(tables[n], tables[n + 1], Latest(prior), history[n]);
    }
  }

  lemma {:induction false} KeysComparable(a: map<nat, int>, b: map<nat, int>, latest: map<nat, int>, n: nat)
    requires MostRecent(a, latest, n) && MostRecent(b, latest, n)
    ensures a.Keys <= b.Keys || b.Keys <= a.Keys
  {
    if p :| p in a && p !in b {
      forall q | q in b ensures q in a {
        assert a[p] == latest[p] < b[q] == latest[q];
      }
    }
  }

  /** There is only one such table. */
  lemma {:induction false} MostRecentIsUnique(a: map<nat, int>, b: map<nat, int>, latest: map<nat, int>, n: nat)
    requires MostRecent(a, latest, n) && MostRecent(b, latest, n)
    ensures a == b
  {
    KeysComparable(a, b, latest, n);
    assert |a.Keys| == |b.Keys|;
    if a.Keys <= b.Keys {
      SameSize(a.Keys, b.Keys);
    } else {
      SameSize(b.Keys, a.Keys);
    }
  }

  class Table {
    var rows: map<nat, int>

    constructor ()
      ensures rows == map[]
    {
      rows := map[];
    }

    method AddProduct(product: nat, now: int)
      modifies this
      ensures Viewed(old(rows), rows, View(product, now))
    {
      rows := rows - {product};
      rows := rows[product := now];
      assert rows == old(rows)[product := now];
      if |rows| > LIMIT {
        ghost var full := rows;
        var oldest := FindOldest();
        rows := rows - {oldest};
        assert IsOldest(full, oldest) && rows == full - {oldest};
      }
    }

    method FindOldest() returns (oldest: nat)
      requires rows != map[]
      ensures IsOldest(rows, oldest)
    {
      assert rows.Keys != {};
      oldest :| oldest in rows.Keys;
      var todo := rows.Keys - {oldest};
      while todo != {}
        invariant todo <= rows.Keys && oldest in rows
        invariant forall p :: p in rows && p !in todo ==> rows[oldest] <= rows[p]
        decreases |todo|
      {
        var p :| p in todo;
        if rows[p] < rows[oldest] {
          oldest := p;
        }
        todo := todo - {p};
      }
    }
  }
}
