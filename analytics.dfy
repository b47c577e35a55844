/** `getAnalyticsData` of the analytics dashboard and its "top performing lists" ranking.
    `monthOf(createdAt)` stands for `new Date(createdAt).toISOString().slice(0, 7)`, the
    `YYYY-MM` key of an order's creation time. */
module Analytics {
  import opened Wrappers
  import opened Text
  import opened Sorting
  import opened Db
  import opened Http
  import opened ListsRoute
  import opened Earnings

  // ===== monthly revenue =====

  /** The summed `amountCents` of the orders created in month `k`. */
  function MonthTotal(orders: seq<Order>, monthOf: int -> string, k: string): int
    decreases |orders|
  {
    if orders == [] then 0
    else
      var last := orders[|orders| - 1];
      MonthTotal(orders[..|orders| - 1], monthOf, k) + (if monthOf(last.createdAt) == k then last.amountCents else 0)
  }

  /** The months of the orders, each once, in the order they first occur (the key order of
      `Object.entries` for keys that are not array indices). */
  function FirstSeen(orders: seq<Order>, monthOf: int -> string): (keys: seq<string>)
    ensures Distinct(keys)
    ensures forall k :: k in keys <==> exists i :: 0 <= i < |orders| && monthOf(orders[i].createdAt) == k
    decreases |orders|
  {
    if orders == [] then []
    else
      var init := orders[..|orders| - 1];
      var keys := FirstSeen(init, monthOf);
      var m := monthOf(orders[|orders| - 1].createdAt);
      assert forall i :: 0 <= i < |init| ==> init[i] == orders[i];
      if m in keys then keys else keys + [m]
  }

  /** The orders created in month `k`, each as often as `orders` holds it, in their order. */
  function InMonth(orders: seq<Order>, monthOf: int -> string, k: string): (r: seq<Order>)
    ensures forall o :: multiset(r)[o] == if monthOf(o.createdAt) == k then multiset(orders)[o] else 0
    decreases |orders|
  {
    if orders == [] then []
    else
      var init := orders[..|orders| - 1];
      var last := orders[|orders| - 1];
      assert orders == init + [last];
      InMonth(init, monthOf, k) + (if monthOf(last.createdAt) == k then [last] else [])
  }

  /** A bucket is the summed `amountCents` of exactly the orders of its month. */
  lemma {:induction false} MonthTotalIsSumOfMonth(orders: seq<Order>, monthOf: int -> string, k: string)
    ensures MonthTotal(orders, monthOf, k) == SumAmounts(InMonth(orders, monthOf, k))
    decreases |orders|
  {
    if orders != [] {
      var init := orders[..|orders| - 1];
      var o := orders[|orders| - 1];
      MonthTotalIsSumOfMonth(init, monthOf, k);
      SumConcat(InMonth(init, monthOf, k), if monthOf(o.createdAt) == k then [o] else []);
      assert SumAmounts([o]) == o.amountCents;
    }
  }

  /** The bucket map the `reduce` builds. */
  function MonthTotals(orders: seq<Order>, monthOf: int -> string): (m: map<string, int>)
    ensures forall k :: k in m <==> exists i :: 0 <= i < |orders| && monthOf(orders[i].createdAt) == k
  {
    map k | k in FirstSeen(orders, monthOf) :: MonthTotal(orders, monthOf, k)
  }

  lemma {:induction false} UnseenMonthIsEmpty(orders: seq<Order>, monthOf: int -> string, k: string)
    requires k !in FirstSeen(orders, monthOf)
    ensures MonthTotal(orders, monthOf, k) == 0
    decreases |orders|
  {
    if orders != [] {
      var init := orders[..|orders| - 1];
      assert forall i :: 0 <= i < |init| ==> init[i] == orders[i];
      UnseenMonthIsEmpty(init, monthOf, k);
    }
  }

  /** `orders.reduce((acc, order) => { acc[month] = (acc[month] || 0) + order.amountCents; ... }, {})`,
      returning the accumulator and the order in which its keys were first assigned. */
  method MonthlyRevenue(orders: seq<Order>, monthOf: int -> string) returns (acc: map<string, int>, keys: seq<string>)
    ensures keys == FirstSeen(orders, monthOf)
    ensures acc == MonthTotals(orders, monthOf)
  {
    acc := map[];
    keys := [];
    var i := 0;
    while i < |orders|
      invariant 0 <= i <= |orders|
      invariant keys == FirstSeen(orders[..i], monthOf)
      invariant forall k :: k in acc <==> k in keys
      invariant forall k :: k in acc ==> acc[k] == MonthTotal(orders[..i], monthOf, k)
    {
      var o := orders[i];
      var month := monthOf(o.createdAt);
      assert orders[..i + 1][..i] == orders[..i];
      if month !in acc {
        UnseenMonthIsEmpty(orders[..i], monthOf, month);
        keys := keys + [month];
      }
      acc := acc[month := (if month in acc then acc[month] else 0) + o.amountCents];
      i := i + 1;
    }
    assert orders[..|orders|] == orders;
  }

  /** The sum of the buckets of `keys`. */
  function SumOver(keys: seq<string>, orders: seq<Order>, monthOf: int -> string): int
    decreases |keys|
  {
    if keys == [] then 0 else MonthTotal(orders, monthOf, keys[0]) + SumOver(keys[1..], orders, monthOf)
  }

  lemma {:induction false} SumOverExtend(keys: seq<string>, init: seq<Order>, o: Order, monthOf: int -> string)
    requires Distinct(keys)
    ensures SumOver(keys, init + [o], monthOf) ==
      SumOver(keys, init, monthOf) + (if monthOf(o.createdAt) in keys then o.amountCents else 0)
    decreases |keys|
  {
    if keys != [] {
      assert (init + [o])[..|init|] == init;
      assert Distinct(keys[1..]) by {
        forall i, j | 0 <= i < j < |keys[1..]| ensures keys[1..][i] != keys[1..][j] {
          assert keys[1..][i] == keys[i + 1] && keys[1..][j] == keys[j + 1];
        }
      }
      if monthOf(o.createdAt) == keys[0] {
        assert keys[0] !in keys[1..] by {
          forall j | 0 <= j < |keys[1..]| ensures keys[1..][j] != keys[0] {
            assert keys[1..][j] == keys[j + 1];
          }
        }
      } else {
        assert monthOf(o.createdAt) in keys <==> monthOf(o.createdAt) in keys[1..] by {
          assert keys == [keys[0]] + keys[1..];
        }
      }
      SumOverExtend(keys[1..], init, o, monthOf);
    }
  }

  lemma {:induction false} SumOverAppend(keys: seq<string>, m: string, orders: seq<Order>, monthOf: int -> string)
    ensures SumOver(keys + [m], orders, monthOf) == SumOver(keys, orders, monthOf) + MonthTotal(orders, monthOf, m)
    decreases |keys|
  {
    if keys == [] {
      assert [] + [m] == [m];
    } else {
      assert (keys + [m])[1..] == keys[1..] + [m];
      SumOverAppend(keys[1..], m, orders, monthOf);
    }
  }

  /** Every order lands in exactly one bucket: the buckets add up to the sum of all amounts. */
  lemma {:induction false} BucketsSumToTotal(orders: seq<Order>, monthOf: int -> string)
    ensures SumOver(FirstSeen(orders, monthOf), orders, monthOf) == SumAmounts(orders)
    decreases |orders|
  {
    if orders != [] {
      var init := orders[..|orders| - 1];
      var o := orders[|orders| - 1];
      var keys := FirstSeen(init, monthOf);
      var m := monthOf(o.createdAt);
      assert orders == init + [o];
      BucketsSumToTotal(init, monthOf);
      SumConcat(init, [o]);
      assert SumAmounts([o]) == o.amountCents;
      SumOverExtend(keys, init, o, monthOf);
      if m !in keys {
        SumOverAppend(keys, m, orders, monthOf);
        UnseenMonthIsEmpty(init, monthOf, m);
        assert orders[..|orders| - 1] == init;
      }
    }
  }

  // ===== chart data =====

  /** One `[month, cents]` entry of `chartData`. */
  datatype MonthPoint = MonthPoint(month: string, revenueCents: int)

  /** `([a], [b]) => a.localeCompare(b)`. */
  predicate ByMonth(a: MonthPoint, b: MonthPoint) {
    LexLe(a.month, b.month)
  }

  /** `Object.entries(monthlyRevenue)`. */
  function Entries(acc: map<string, int>, keys: seq<string>): (r: seq<MonthPoint>)
    requires forall k :: k in keys ==> k in acc
    ensures |r| == |keys|
    ensures forall i :: 0 <= i < |keys| ==> r[i] == MonthPoint(keys[i], acc[keys[i]])
  {
    seq(|keys|, i requires 0 <= i < |keys| => MonthPoint(keys[i], acc[keys[i]]))
  }

  /** `.sort(...).slice(-6)`. */
  function ChartData(acc: map<string, int>, keys: seq<string>): (r: seq<MonthPoint>)
    requires forall k :: k in keys ==> k in acc
    ensures |r| <= 6 && |r| <= |keys|
  {
    TakeLast(SortBy(Entries(acc, keys), ByMonth), 6)
  }

  lemma ByMonthOrders()
    ensures Total(ByMonth) && Transitive(ByMonth)
  {
    forall a: MonthPoint, b: MonthPoint ensures ByMonth(a, b) || ByMonth(b, a) {
      LexLeTotal(a.month, b.month);
    }
    forall a: MonthPoint, b: MonthPoint, c: MonthPoint | ByMonth(a, b) && ByMonth(b, c) ensures ByMonth(a, c) {
      LexLeTransitive(a.month, b.month, c.month);
    }
  }

  /** The sorted entries: one point per key, with its bucket total, months strictly ascending. */
  lemma SortedEntries(acc: map<string, int>, keys: seq<string>)
    requires forall k :: k in keys ==> k in acc
    requires Distinct(keys)
    ensures var full := SortBy(Entries(acc, keys), ByMonth);
      && Sorted(full, ByMonth)
      && (forall i :: 0 <= i < |full| ==> full[i].month in keys && full[i].revenueCents == acc[full[i].month])
      && (forall i, j :: 0 <= i < j < |full| ==> full[i].month != full[j].month)
  {
    var entries := Entries(acc, keys);
    var full := SortBy(entries, ByMonth);
    ByMonthOrders();
    SortBySorted(entries, ByMonth);
    assert Distinct(entries) by {
      forall i, j | 0 <= i < j < |entries| ensures entries[i] != entries[j] {
        assert entries[i].month == keys[i] && entries[j].month == keys[j];
      }
    }
    SortByDistinct(entries, ByMonth);
    forall i | 0 <= i < |full| ensures full[i].month in keys && full[i].revenueCents == acc[full[i].month] {
      assert full[i] in multiset(entries);
      var j :| 0 <= j < |entries| && entries[j] == full[i];
    }
  }

  /** A key whose point is not among the elements from `n` on sorts before each of them. */
  lemma LeftOutMonthPrecedes(acc: map<string, int>, keys: seq<string>, n: nat)
    requires forall k :: k in keys ==> k in acc
    requires Sorted(SortBy(Entries(acc, keys), ByMonth), ByMonth)
    requires n <= |keys|
    ensures var full := SortBy(Entries(acc, keys), ByMonth);
      forall k :: k in keys && (forall i :: n <= i < |full| ==> full[i].month != k) ==>
        forall i :: n <= i < |full| ==> LexLe(k, full[i].month)
  {
    var entries := Entries(acc, keys);
    var full := SortBy(entries, ByMonth);
    forall k | k in keys && (forall i :: n <= i < |full| ==> full[i].month != k)
      ensures forall i :: n <= i < |full| ==> LexLe(k, full[i].month)
    {
      var p := MonthPoint(k, acc[k]);
      var j :| 0 <= j < |keys| && keys[j] == k;
      assert entries[j] == p;
      assert p in multiset(full);
      assert p !in full[n..];
      DroppedPrecedesSuffix(full, n, p, ByMonth);
    }
  }

  /** The facts about the sorted entries carry over to the slice from `n` on. */
  lemma SuffixKeepsOrder(full: seq<MonthPoint>, n: nat, acc: map<string, int>, keys: seq<string>)
    requires forall k :: k in keys ==> k in acc
    requires n <= |full|
    requires Sorted(full, ByMonth)
    requires forall i :: 0 <= i < |full| ==> full[i].month in keys && full[i].revenueCents == acc[full[i].month]
    requires forall i, j :: 0 <= i < j < |full| ==> full[i].month != full[j].month
    requires forall k :: k in keys && (forall i :: n <= i < |full| ==> full[i].month != k) ==>
      forall i :: n <= i < |full| ==> LexLe(k, full[i].month)
    ensures var r := full[n..];
      && (forall i :: 0 <= i < |r| ==> r[i].month in keys && r[i].revenueCents == acc[r[i].month])
      && (forall i, j :: 0 <= i < j < |r| ==> LexLe(r[i].month, r[j].month) && r[i].month != r[j].month)
      && (forall k :: k in keys && (forall i :: 0 <= i < |r| ==> r[i].month != k) ==>
            forall i :: 0 <= i < |r| ==> LexLe(k, r[i].month))
  {
    var r := full[n..];
    forall k | k in keys && (forall i :: 0 <= i < |r| ==> r[i].month != k)
      ensures forall i :: 0 <= i < |r| ==> LexLe(k, r[i].month)
    {
      forall i | n <= i < |full| ensures full[i].month != k {
        assert full[i] == r[i - n];
      }
      forall i | 0 <= i < |r| ensures LexLe(k, r[i].month) {
        assert r[i] == full[n + i];
      }
    }
    forall i, j | 0 <= i < j < |r| ensures LexLe(r[i].month, r[j].month) && r[i].month != r[j].month {
      assert r[i] == full[n + i] && r[j] == full[n + j];
    }
  }

  /** The chart shows at most six months, each once, in ascending key order, with its bucket
      total; they are the latest months: every month left out sorts before each one shown. */
  lemma ChartShowsLatestSixMonths(acc: map<string, int>, keys: seq<string>)
    requires forall k :: k in keys ==> k in acc
    requires Distinct(keys)
    ensures var r := ChartData(acc, keys);
      && |r| == (if |keys| < 6 then |keys| else 6)
      && (forall i :: 0 <= i < |r| ==> r[i].month in keys && r[i].revenueCents == acc[r[i].month])
      && (forall i, j :: 0 <= i < j < |r| ==> LexLe(r[i].month, r[j].month) && r[i].month != r[j].month)
      && (forall k :: k in keys && (forall i :: 0 <= i < |r| ==> r[i].month != k) ==>
            forall i :: 0 <= i < |r| ==> LexLe(k, r[i].month))
  {
    var full := SortBy(Entries(acc, keys), ByMonth);
    var r := ChartData(acc, keys);
    var n := |full| - |r|;
    assert r == full[n..];
    SortedEntries(acc, keys);
    LeftOutMonthPrecedes(acc, keys, n);
    SuffixKeepsOrder(full, n, acc, keys);
  }

  // ===== getAnalyticsData =====

  datatype AnalyticsData = AnalyticsData(
    lists: seq<ListWithOrders>,
    orders: seq<Order>,
    totalSales: nat,
    revenue: int,
    chartData: seq<MonthPoint>)

  /** `getAnalyticsData(userId)` without the floating-point conversion rates. */
  method GetAnalyticsData(s: Snapshot, userId: string, monthOf: int -> string) returns (d: AnalyticsData)
    ensures d.lists == OwnedListsWithPaidOrders(s, userId, None)
    ensures multiset(d.orders) == multiset(OwnerPaidOrders(s, userId))
    ensures forall i, j :: 0 <= i < j < |d.orders| ==> d.orders[i].createdAt >= d.orders[j].createdAt
    ensures d.totalSales == |d.orders|
    ensures d.revenue == SumAmounts(d.orders)
    ensures d.chartData == ChartData(MonthTotals(d.orders, monthOf), FirstSeen(d.orders, monthOf))
    ensures SumOver(FirstSeen(d.orders, monthOf), d.orders, monthOf) == d.revenue
  {
    var lists := OwnedListsWithPaidOrders(s, userId, None);
    var paid := OwnerPaidOrders(s, userId);
    var orders := SortBy(paid, NewerFirst);
    assert Total(NewerFirst) && Transitive(NewerFirst);
    SortBySorted(paid, NewerFirst);
    var revenue := AggregateSum(paid).GetOr(0);
    SumPermutation(paid, orders);
    var acc, keys := MonthlyRevenue(orders, monthOf);
    BucketsSumToTotal(orders, monthOf);
    d := AnalyticsData(lists, orders, |orders|, revenue, ChartData(acc, keys));
  }

  // ===== top performing lists =====

  /** `(a, b) => b.orders.length - a.orders.length`. */
  predicate MoreSales(a: ListWithOrders, b: ListWithOrders) {
    |a.orders| >= |b.orders|
  }

  /** `.sort((a, b) => b.orders.length - a.orders.length).slice(0, 5)`. */
  function TopLists(items: seq<ListWithOrders>): (r: seq<ListWithOrders>)
    ensures |r| <= 5 && |r| <= |items|
  {
    Take(SortBy(items, MoreSales), 5)
  }

  /** Lists with the same number of PAID orders keep their input order (newest created first)
      in the ranking the five are cut from. */
  lemma TopListsKeepTieOrder(items: seq<ListWithOrders>, x: ListWithOrders)
    ensures Ties(SortBy(items, MoreSales), x, MoreSales) == Ties(items, x, MoreSales)
    ensures TopLists(items) == SortBy(items, MoreSales)[..|TopLists(items)|]
  {
    assert Transitive(MoreSales);
    SortByStable(items, x, MoreSales);
  }

  /** At most five lists, by non-increasing number of PAID orders, each one of the creator's, and
      no list left out has more orders than any list shown. */
  lemma TopListsRanking(items: seq<ListWithOrders>)
    ensures var top := TopLists(items);
      && |top| == (if |items| < 5 then |items| else 5)
      && (forall i, j :: 0 <= i < j < |top| ==> |top[i].orders| >= |top[j].orders|)
      && (forall x :: multiset(top)[x] <= multiset(items)[x])
      && (forall x :: multiset(items)[x] > multiset(top)[x] ==>
            forall i :: 0 <= i < |top| ==> |x.orders| <= |top[i].orders|)
  {
    var full := SortBy(items, MoreSales);
    var top := TopLists(items);
    assert Total(MoreSales) && Transitive(MoreSales);
    SortBySorted(items, MoreSales);
    assert full == top + full[|top|..];
    assert multiset(full) == multiset(top) + multiset(full[|top|..]);
    forall x | multiset(items)[x] > multiset(top)[x]
      ensures forall i :: 0 <= i < |top| ==> |x.orders| <= |top[i].orders|
    {
      DroppedFollowsPrefix(full, |top|, x, MoreSales);
    }
  }
}
