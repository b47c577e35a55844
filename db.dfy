/** The record store the routes talk to through Prisma: lists, orders, access grants and
    session tokens, the lookups the routes issue, and the store object whose create and
    update calls change it. */
module Db {
  import opened Wrappers

  datatype OrderStatus = Paid | Refunded

  datatype ListRec = ListRec(
    id: string,
    slug: string,
    ownerId: string,
    title: string,
    description: Option<string>,
    mapsListUrl: string,
    priceCents: int,
    currency: string,
    coverImageUrl: Option<string>,
    hostedMirror: bool,
    published: bool,
    createdAt: int)

  datatype Order = Order(
    id: string,
    buyerEmail: string,
    listId: string,
    amountCents: int,
    currency: string,
    stripeSessionId: string,
    stripePaymentId: Option<string>,
    status: OrderStatus,
    createdAt: int)

  datatype AccessGrant = AccessGrant(
    id: string,
    orderId: string,
    listId: string,
    buyerEmail: string,
    revoked: bool)

  /** The persisted single-use record of an issued unlock token; `expiresAtMs` is a `Date` in milliseconds. */
  datatype SessionToken = SessionToken(id: string, orderId: string, expiresAtMs: int)

  /** The whole store as a value. */
  datatype Snapshot = Snapshot(
    lists: seq<ListRec>,
    orders: seq<Order>,
    grants: seq<AccessGrant>,
    tokens: seq<SessionToken>)

  const Empty: Snapshot := Snapshot([], [], [], [])

  // ----- lookups -----

  /** The two unique columns of a list that `db.list.findUnique` can look it up by. */
  datatype ListKey = ById | BySlug

  function KeyOf(l: ListRec, key: ListKey): string {
    match key
    case ById => l.id
    case BySlug => l.slug
  }

  /** `db.list.findUnique({ where: { id } })` or `({ where: { slug } })`: a found list is stored
      and holds that value in that column; `None` only when no stored list does. */
  function FindList(lists: seq<ListRec>, key: ListKey, v: string): (r: Option<ListRec>)
    ensures r.Some? ==> r.value in lists && KeyOf(r.value, key) == v
    ensures r.None? ==> forall i :: 0 <= i < |lists| ==> KeyOf(lists[i], key) != v
    decreases |lists|
  {
    if lists == [] then None
    else if KeyOf(lists[0], key) == v then Some(lists[0])
    else FindList(lists[1..], key, v)
  }

  function Slugs(lists: seq<ListRec>): (r: set<string>)
    ensures forall i :: 0 <= i < |lists| ==> lists[i].slug in r
    ensures forall s :: s in r ==> exists i :: 0 <= i < |lists| && lists[i].slug == s
  {
    set i | 0 <= i < |lists| :: lists[i].slug
  }

  /** Index of `db.order.findFirst({ where: { stripePaymentId: pi } })`; a missing payment
      intent filters on `null`, as Prisma does. */
  function FirstPaymentMatch(orders: seq<Order>, pi: Option<string>): (r: Option<nat>)
    ensures r.Some? ==> r.value < |orders| && orders[r.value].stripePaymentId == pi
    ensures r.Some? ==> forall j :: 0 <= j < r.value ==> orders[j].stripePaymentId != pi
    ensures r.None? ==> forall j :: 0 <= j < |orders| ==> orders[j].stripePaymentId != pi
    decreases |orders|
  {
    if orders == [] then None
    else if orders[0].stripePaymentId == pi then Some(0)
    else
      match FirstPaymentMatch(orders[1..], pi)
      case None => None
      case Some(k) => Some(k + 1)
  }

  // ----- bulk updates -----

  /** `db.order.update({ where: { id }, data: { status: 'REFUNDED' } })`. */
  function RefundOrder(orders: seq<Order>, id: string): (r: seq<Order>)
    ensures |r| == |orders|
    ensures forall i :: 0 <= i < |orders| ==>
      r[i] == if orders[i].id == id then orders[i].(status := Refunded) else orders[i]
  {
    seq(|orders|, i requires 0 <= i < |orders| =>
      if orders[i].id == id then orders[i].(status := Refunded) else orders[i])
  }

  /** `db.accessGrant.updateMany({ where: { orderId }, data: { revoked: true } })`. */
  function RevokeGrants(grants: seq<AccessGrant>, orderId: string): (r: seq<AccessGrant>)
    ensures |r| == |grants|
    ensures forall i :: 0 <= i < |grants| ==>
      r[i] == if grants[i].orderId == orderId then grants[i].(revoked := true) else grants[i]
  {
    seq(|grants|, i requires 0 <= i < |grants| =>
      if grants[i].orderId == orderId then grants[i].(revoked := true) else grants[i])
  }

  // ----- invariants -----

  ghost predicate UniqueListKeys(lists: seq<ListRec>) {
    forall i, j :: 0 <= i < j < |lists| ==> lists[i].id != lists[j].id && lists[i].slug != lists[j].slug
  }

  ghost predicate UniqueOrderIds(orders: seq<Order>) {
    forall i, j :: 0 <= i < j < |orders| ==> orders[i].id != orders[j].id
  }

  ghost predicate UniqueGrantIds(grants: seq<AccessGrant>) {
    forall i, j :: 0 <= i < j < |grants| ==> grants[i].id != grants[j].id
  }

  ghost predicate UniqueTokenIds(tokens: seq<SessionToken>) {
    forall i, j :: 0 <= i < j < |tokens| ==> tokens[i].id != tokens[j].id
  }

  predicate HasOrder(orders: seq<Order>, id: string) {
    exists i :: 0 <= i < |orders| && orders[i].id == id
  }

  predicate HasGrant(grants: seq<AccessGrant>, id: string) {
    exists i :: 0 <= i < |grants| && grants[i].id == id
  }

  predicate HasToken(tokens: seq<SessionToken>, id: string) {
    exists i :: 0 <= i < |tokens| && tokens[i].id == id
  }

  predicate HasList(lists: seq<ListRec>, id: string) {
    exists i :: 0 <= i < |lists| && lists[i].id == id
  }

  predicate IsRefundedOrder(orders: seq<Order>, id: string) {
    exists i :: 0 <= i < |orders| && orders[i].id == id && orders[i].status == Refunded
  }

  /** A revoked access grant always belongs to an order whose status is REFUNDED. */
  ghost predicate RevokedOnlyIfRefunded(s: Snapshot) {
    forall j :: 0 <= j < |s.grants| && s.grants[j].revoked ==> IsRefundedOrder(s.orders, s.grants[j].orderId)
  }

  /** Primary and unique keys hold (as the database enforces them), and the revocation invariant. */
  ghost predicate WellFormed(s: Snapshot) {
    && UniqueListKeys(s.lists)
    && UniqueOrderIds(s.orders)
    && UniqueGrantIds(s.grants)
    && UniqueTokenIds(s.tokens)
    && RevokedOnlyIfRefunded(s)
  }

  /** The Prisma client `db`: each method is one create or update call the routes make. */
  class Store {
    var lists: seq<ListRec>
    var orders: seq<Order>
    var grants: seq<AccessGrant>
    var tokens: seq<SessionToken>

    function State(): Snapshot
      reads this
    {
      Snapshot(lists, orders, grants, tokens)
    }

    ghost predicate Valid()
      reads this
    {
      WellFormed(State())
    }

    constructor ()
      ensures Valid() && State() == Empty
    {
      lists, orders, grants, tokens := [], [], [], [];
    }

    /** `db.list.create`; the id and slug columns are unique. */
    method CreateList(l: ListRec)
      requires Valid() && !HasList(lists, l.id) && l.slug !in Slugs(lists)
      modifies this
      ensures Valid()
      ensures State() == old(State()).(lists := old(lists) + [l])
    {
      lists := lists + [l];
    }

    /** `db.order.create`; the id is the fresh primary key the database assigns. */
    method CreateOrder(o: Order)
      requires Valid() && !HasOrder(orders, o.id)
      modifies this
      ensures Valid()
      ensures State() == old(State()).(orders := old(orders) + [o])
    {
      orders := orders + [o];
      assert forall j :: 0 <= j < |grants| && grants[j].revoked ==> IsRefundedOrder(orders, grants[j].orderId) by {
        forall j | 0 <= j < |grants| && grants[j].revoked ensures IsRefundedOrder(orders, grants[j].orderId) {
          assert IsRefundedOrder(old(orders), grants[j].orderId);
          var i :| 0 <= i < |old(orders)| && old(orders)[i].id == grants[j].orderId && old(orders)[i].status == Refunded;
          assert orders[i] == old(orders)[i];
        }
      }
    }

    /** `db.accessGrant.create`; `revoked` takes its default, false. */
    method CreateAccessGrant(g: AccessGrant)
      requires Valid() && !HasGrant(grants, g.id) && !g.revoked
      modifies this
      ensures Valid()
      ensures State() == old(State()).(grants := old(grants) + [g])
    {
      grants := grants + [g];
    }

    /** `db.sessionToken.create`; the id column is the primary key. */
    method CreateSessionToken(t: SessionToken)
      requires Valid() && !HasToken(tokens, t.id)
      modifies this
      ensures Valid()
      ensures State() == old(State()).(tokens := old(tokens) + [t])
    {
      tokens := tokens + [t];
    }

    /** `db.order.update({ where: { id }, data: { status: 'REFUNDED' } })` on an existing order. */
    method UpdateOrderToRefunded(id: string)
      requires Valid() && HasOrder(orders, id)
      modifies this
      ensures Valid() && IsRefundedOrder(orders, id)
      ensures State() == old(State()).(orders := RefundOrder(old(orders), id))
    {
      orders := RefundOrder(orders, id);
      ghost var k :| 0 <= k < |old(orders)| && old(orders)[k].id == id;
      assert orders[k].id == id && orders[k].status == Refunded;
      forall j | 0 <= j < |grants| && grants[j].revoked ensures IsRefundedOrder(orders, grants[j].orderId) {
        var i :| 0 <= i < |old(orders)| && old(orders)[i].id == grants[j].orderId && old(orders)[i].status == Refunded;
        assert orders[i].id == grants[j].orderId && orders[i].status == Refunded;
      }
    }

    /** `db.accessGrant.updateMany({ where: { orderId }, data: { revoked: true } })`.
        Revocation is only possible once the order is REFUNDED. */
    method RevokeAccessGrants(orderId: string)
      requires Valid() && IsRefundedOrder(orders, orderId)
      modifies this
      ensures Valid()
      ensures State() == old(State()).(grants := RevokeGrants(old(grants), orderId))
    {
      grants := RevokeGrants(grants, orderId);
      forall j | 0 <= j < |grants| && grants[j].revoked ensures IsRefundedOrder(orders, grants[j].orderId) {
        if old(grants)[j].orderId != orderId {
          assert old(grants)[j] == grants[j];
        }
      }
    }
  }
}
