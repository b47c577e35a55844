/** `getEarningsData` of the earnings dashboard: the creator's PAID orders, their count and sum,
    the platform fee (10 % rounded to the cent, plus 30 cents a sale) and the net. */
module Earnings {
  import opened Wrappers
  import opened Sorting
  import opened Db

  /** The relation filter `{ list: { ownerId }, status: 'PAID' }`: the order's list, found
      through `listId`, belongs to `owner`. */
  predicate OwnedPaid(lists: seq<ListRec>, owner: string, o: Order) {
    o.status == Paid && FindList(lists, ById, o.listId).Some? && FindList(lists, ById, o.listId).value.ownerId == owner
  }

  /** `db.order.findMany({ where: { list: { ownerId }, status: 'PAID' } })` before ordering:
      each matching order as often as the store holds it, and no other. */
  function OwnerPaidOrders(s: Snapshot, owner: string): (r: seq<Order>)
    ensures forall o :: multiset(r)[o] == if OwnedPaid(s.lists, owner, o) then multiset(s.orders)[o] else 0
  {
    SelectOrders(s.lists, s.orders, owner)
  }

  function SelectOrders(lists: seq<ListRec>, orders: seq<Order>, owner: string): (r: seq<Order>)
    ensures forall o :: multiset(r)[o] == if OwnedPaid(lists, owner, o) then multiset(orders)[o] else 0
    decreases |orders|
  {
    if orders == [] then []
    else
      var rest := SelectOrders(lists, orders[1..], owner);
      assert orders == [orders[0]] + orders[1..];
      if OwnedPaid(lists, owner, orders[0]) then [orders[0]] + rest else rest
  }

  /** `orderBy: { createdAt: 'desc' }`. */
  predicate NewerFirst(a: Order, b: Order) {
    a.createdAt >= b.createdAt
  }

  function SumAmounts(orders: seq<Order>): int
    decreases |orders|
  {
    if orders == [] then 0 else orders[0].amountCents + SumAmounts(orders[1..])
  }

  lemma {:induction false} SumConcat(a: seq<Order>, b: seq<Order>)
    ensures SumAmounts(a + b) == SumAmounts(a) + SumAmounts(b)
    decreases |a|
  {
    if a == [] {
      assert a + b == b;
    } else {
      assert (a + b)[1..] == a[1..] + b;
      SumConcat(a[1..], b);
    }
  }

  /** The sum of the amounts does not depend on the order of the rows. */
  lemma {:induction false} SumPermutation(a: seq<Order>, b: seq<Order>)
    requires multiset(a) == multiset(b)
    ensures SumAmounts(a) == SumAmounts(b)
    decreases |a|
  {
    if a == [] {
      assert |multiset(b)| == 0;
    } else {
      var x := a[0];
      assert x in multiset(b);
      var i :| 0 <= i < |b| && b[i] == x;
      var rest := b[..i] + b[i + 1..];
      assert b == b[..i] + [x] + b[i + 1..];
      assert multiset(rest) == multiset(b) - multiset{x};
      assert a == [x] + a[1..];
      assert multiset(a[1..]) == multiset(rest);
      SumPermutation(a[1..], rest);
      SumConcat(b[..i] + [x], b[i + 1..]);
      SumConcat(b[..i], [x]);
      SumConcat(b[..i], b[i + 1..]);
      assert SumAmounts([x]) == x.amountCents;
    }
  }

  /** `db.order.aggregate({ _sum: { amountCents: true } })`: `null` over no rows. */
  function AggregateSum(orders: seq<Order>): (r: Option<int>)
    ensures r.None? <==> orders == []
    ensures r.Some? ==> r.value == SumAmounts(orders)
  {
    if orders == [] then None else Some(SumAmounts(orders))
  }

  /** `Math.round(cents * 0.10)` on the exact tenth: the nearest whole cent, halves rounded up. */
  function RoundTenth(cents: int): (q: int)
    ensures 10 * q - 5 <= cents < 10 * q + 5
  {
    (cents + 5) / 10
  }

  /** Ten percent, rounded, plus 30 cents per sale: never below 30 cents a sale when revenue is
      not negative, and what lies above that is revenue's tenth to the nearest cent. */
  function PlatformFee(revenue: int, sales: nat): (fee: int)
    ensures revenue >= 0 ==> fee >= 30 * sales
    ensures 10 * (fee - 30 * sales) - 5 <= revenue < 10 * (fee - 30 * sales) + 5
  {
    RoundTenth(revenue) + sales * 30
  }

  datatype EarningsData = EarningsData(
    totalSales: nat,
    revenue: int,
    platformFee: int,
    netRevenue: int,
    recentOrders: seq<Order>)

  /** `getEarningsData(userId)` (the user record and its Stripe account are not modelled). */
  function GetEarningsData(s: Snapshot, userId: string): (d: EarningsData)
    ensures d.totalSales == |OwnerPaidOrders(s, userId)|
    ensures d.revenue == SumAmounts(OwnerPaidOrders(s, userId))
    ensures d.platformFee == PlatformFee(d.revenue, d.totalSales)
    ensures d.netRevenue + d.platformFee == d.revenue
    ensures |d.recentOrders| == if d.totalSales < 10 then d.totalSales else 10
  {
    var orders := SortBy(OwnerPaidOrders(s, userId), NewerFirst);
    var totalSales := |orders|;
    var revenue := AggregateSum(OwnerPaidOrders(s, userId)).GetOr(0);
    var fee := PlatformFee(revenue, totalSales);
    EarningsData(totalSales, revenue, fee, revenue - fee, Take(SortBy(OwnerPaidOrders(s, userId), NewerFirst), 10))
  }

  /** The counts and sums are those of the creator's PAID orders: the number of them, the sum of
      their amounts (0 with none), and the ten newest, newest first. */
  lemma EarningsSummarisePaidOrders(s: Snapshot, userId: string)
    ensures var d := GetEarningsData(s, userId);
      var paid := OwnerPaidOrders(s, userId);
      && d.totalSales == |paid|
      && d.revenue == SumAmounts(paid)
      && (forall o :: o in d.recentOrders ==> o in s.orders && OwnedPaid(s.lists, userId, o))
      && (forall i, j :: 0 <= i < j < |d.recentOrders| ==> d.recentOrders[i].createdAt >= d.recentOrders[j].createdAt)
  {
    var paid := OwnerPaidOrders(s, userId);
    var sorted := SortBy(paid, NewerFirst);
    var d := GetEarningsData(s, userId);
    assert Total(NewerFirst) && Transitive(NewerFirst);
    SortBySorted(paid, NewerFirst);
    assert d.recentOrders == sorted[..|d.recentOrders|];
    forall o | o in d.recentOrders ensures o in s.orders && OwnedPaid(s.lists, userId, o) {
      assert o in sorted;
      assert multiset(paid)[o] > 0;
    }
  }

  /** Every order not among the recent ones is no newer than any recent one. */
  lemma RecentOrdersAreNewest(s: Snapshot, userId: string, o: Order)
    requires multiset(OwnerPaidOrders(s, userId))[o] > multiset(GetEarningsData(s, userId).recentOrders)[o]
    ensures forall i :: 0 <= i < |GetEarningsData(s, userId).recentOrders| ==>
      o.createdAt <= GetEarningsData(s, userId).recentOrders[i].createdAt
  {
    var paid := OwnerPaidOrders(s, userId);
    var sorted := SortBy(paid, NewerFirst);
    var recent := GetEarningsData(s, userId).recentOrders;
    assert Total(NewerFirst) && Transitive(NewerFirst);
    SortBySorted(paid, NewerFirst);
    assert recent == sorted[..|recent|];
    DroppedFollowsPrefix(sorted, |recent|, o, NewerFirst);
  }

  /** With no PAID order the aggregate is `null` and revenue falls back to 0. */
  lemma NoSalesNoRevenue(s: Snapshot, userId: string)
    requires forall o :: o in s.orders ==> !OwnedPaid(s.lists, userId, o)
    ensures GetEarningsData(s, userId).totalSales == 0
    ensures GetEarningsData(s, userId).revenue == 0
  {
    HeadIsMember(OwnerPaidOrders(s, userId));
  }

  /** The fee is never below 30 cents a sale when revenue is not negative, and it is the rounded
      tenth of revenue on top of that. */
  lemma FeeBounds(revenue: int, sales: nat)
    requires revenue >= 0
    ensures PlatformFee(revenue, sales) >= 30 * sales
    ensures 10 * (PlatformFee(revenue, sales) - 30 * sales) - 5 <= revenue < 10 * (PlatformFee(revenue, sales) - 30 * sales) + 5
  {
  }

  /** More revenue or more sales never lowers the fee. */
  lemma FeeMonotone(r1: int, r2: int, n1: nat, n2: nat)
    requires r1 <= r2 && n1 <= n2
    ensures PlatformFee(r1, n1) <= PlatformFee(r2, n2)
  {
    assert (r1 + 5) / 10 <= (r2 + 5) / 10;
  }

  /** The net has no lower clamp: a single PAID order of 0 cents leaves the creator at -30. */
  lemma NetCanBeNegative(s: Snapshot, userId: string)
    requires |OwnerPaidOrders(s, userId)| == 1 && OwnerPaidOrders(s, userId)[0].amountCents == 0
    ensures GetEarningsData(s, userId).netRevenue == -30
  {
    var paid := OwnerPaidOrders(s, userId);
    assert SumAmounts(paid) == 0;
  }
}
