/** The payment-processor webhook (`POST /api/webhooks/stripe`): a signed event either
    records a purchase (order, access grant, session token, unlock e-mail) or a refund
    (order REFUNDED, its grants revoked); every other event is acknowledged and ignored. */
module StripeWebhook {
  import opened Wrappers
  import opened Db
  import opened Http
  import opened Jwt

  /** The fields of a `Stripe.Checkout.Session` the handler reads; `listId` and `ownerId` are
      the session's metadata entries, `customerEmail` is `customer_details.email`. */
  datatype CheckoutSession = CheckoutSession(
    id: string,
    listId: Option<string>,
    ownerId: Option<string>,
    customerEmail: Option<string>,
    amountTotal: Option<int>,
    currency: Option<string>,
    paymentIntent: Option<string>)

  datatype Charge = Charge(paymentIntent: Option<string>)

  /** A verified event, by its `type`. */
  datatype StripeEvent =
    | CheckoutSessionCompleted(session: CheckoutSession)
    | ChargeRefunded(charge: Charge)
    | AccountUpdated(accountId: string)
    | Unhandled(eventType: string)

  /** The values the database and `crypto.randomUUID()` supply while a purchase is recorded. */
  datatype FreshIds = FreshIds(orderId: string, grantId: string, jti: string)

  /** One delivery: `None` when `constructEvent` throws (bad signature or body). */
  datatype Delivery = Delivery(event: Option<StripeEvent>, ids: FreshIds, nowMs: int)

  predicate FreshFor(s: Snapshot, ids: FreshIds) {
    !HasOrder(s.orders, ids.orderId) && !HasGrant(s.grants, ids.grantId) && !HasToken(s.tokens, ids.jti)
  }

  /** `o || fallback` for an optional string. */
  function StringOr(o: Option<string>, fallback: string): (r: string)
    ensures Truthy(o) ==> r == o.value
    ensures !Truthy(o) ==> r == fallback
  {
    if Truthy(o) then o.value else fallback
  }

  /** `o || fallback` for an optional number (0 is falsy). */
  function IntOr(o: Option<int>, fallback: int): (r: int)
    ensures o.Some? && o.value != 0 ==> r == o.value
    ensures o.None? || o.value == 0 ==> r == fallback
  {
    if o.Some? && o.value != 0 then o.value else fallback
  }

  /** The list a completed checkout is for: `None` when a metadata entry is missing or empty,
      or when no list has that id. */
  function PurchasedList(s: Snapshot, session: CheckoutSession): (r: Option<ListRec>)
    ensures r.Some? ==> Truthy(session.listId) && Truthy(session.ownerId)
    ensures r.Some? ==> r.value in s.lists && r.value.id == session.listId.value
    ensures r.Some? <==> (Truthy(session.listId) && Truthy(session.ownerId) &&
                          exists i :: 0 <= i < |s.lists| && s.lists[i].id == session.listId.value)
  {
    if !Truthy(session.listId) || !Truthy(session.ownerId) then None
    else FindList(s.lists, ById, session.listId.value)
  }

  function NewOrder(list: ListRec, session: CheckoutSession, orderId: string, nowMs: int): Order {
    Order(
      orderId,
      StringOr(session.customerEmail, ""),
      list.id,
      IntOr(session.amountTotal, 0),
      StringOr(session.currency, "usd"),
      session.id,
      session.paymentIntent,
      Paid,
      nowMs)
  }

  function NewGrant(order: Order, list: ListRec, grantId: string): AccessGrant {
    AccessGrant(grantId, order.id, list.id, order.buyerEmail, false)
  }

  function IssueFor(order: Order, list: ListRec, jti: string, nowMs: int, sign: SigningInput -> string): IssuedToken {
    IssueUnlockJWT(UnlockRequest(order.id, list.id, order.buyerEmail), nowMs, jti, sign)
  }

  /** The store after `checkout.session.completed`. */
  function OnCheckoutCompleted(s: Snapshot, session: CheckoutSession, ids: FreshIds, nowMs: int,
                               sign: SigningInput -> string): (r: Snapshot)
    ensures r.lists == s.lists
    ensures PurchasedList(s, session).None? ==> r == s
    ensures PurchasedList(s, session).Some? ==>
      && |r.orders| == |s.orders| + 1 && |r.grants| == |s.grants| + 1 && |r.tokens| == |s.tokens| + 1
      && r.orders[|s.orders|].status == Paid && !r.grants[|s.grants|].revoked
  {
    match PurchasedList(s, session)
    case None => s
    case Some(list) =>
      var order := NewOrder(list, session, ids.orderId, nowMs);
      var issued := IssueFor(order, list, ids.jti, nowMs, sign);
      s.(orders := s.orders + [order],
         grants := s.grants + [NewGrant(order, list, ids.grantId)],
         tokens := s.tokens + [SessionToken(issued.jti, order.id, issued.exp * 1000)])
  }

  /** The store after `charge.refunded`. */
  function OnChargeRefunded(s: Snapshot, charge: Charge): (r: Snapshot)
    ensures r.lists == s.lists && r.tokens == s.tokens
    ensures |r.orders| == |s.orders| && |r.grants| == |s.grants|
    ensures forall j :: 0 <= j < |s.orders| ==> r.orders[j].id == s.orders[j].id
    ensures forall j :: 0 <= j < |s.grants| ==> r.grants[j].orderId == s.grants[j].orderId
  {
    match FirstPaymentMatch(s.orders, charge.paymentIntent)
    case None => s
    case Some(i) =>
      var id := s.orders[i].id;
      s.(orders := RefundOrder(s.orders, id), grants := RevokeGrants(s.grants, id))
  }

  /** The store after one delivery. */
  function Handle(s: Snapshot, delivery: Option<StripeEvent>, ids: FreshIds, nowMs: int,
                  sign: SigningInput -> string): (r: Snapshot)
    ensures r.lists == s.lists
    ensures delivery.None? || delivery.value.AccountUpdated? || delivery.value.Unhandled? ==> r == s
    ensures |s.tokens| <= |r.tokens| && r.tokens[..|s.tokens|] == s.tokens
  {
    match delivery
    case None => s
    case Some(CheckoutSessionCompleted(session)) => OnCheckoutCompleted(s, session, ids, nowMs, sign)
    case Some(ChargeRefunded(charge)) => OnChargeRefunded(s, charge)
    case Some(AccountUpdated(_)) => s
    case Some(Unhandled(_)) => s
  }

  function Reply(delivery: Option<StripeEvent>): (r: Response)
    ensures r.status == 400 <==> delivery.None?
    ensures delivery.Some? ==> r == Response(200, Received)
  {
    if delivery.None? then Response(400, ErrorMessage("Invalid signature")) else Response(200, Received)
  }

  /** The e-mail the handler asks to send: only for a recorded purchase. */
  function UnlockMail(s: Snapshot, delivery: Option<StripeEvent>, ids: FreshIds, nowMs: int,
                      sign: SigningInput -> string, appUrl: string): (r: Option<Email>)
    ensures r.Some? <==> (delivery.Some? && delivery.value.CheckoutSessionCompleted? &&
                          PurchasedList(s, delivery.value.session).Some?)
    ensures r.Some? ==> r.value.UnlockEmail? && r.value.to == StringOr(delivery.value.session.customerEmail, "")
    ensures r.Some? ==>
      var list := PurchasedList(s, delivery.value.session).value;
      && r.value.listTitle == list.title
      && r.value.unlockUrl == appUrl + "/unlock/" +
           IssueUnlockJWT(UnlockRequest(ids.orderId, list.id, r.value.to), nowMs, ids.jti, sign).token
  {
    match delivery
    case Some(CheckoutSessionCompleted(session)) =>
      (match PurchasedList(s, session)
       case None => None
       case Some(list) =>
         var order := NewOrder(list, session, ids.orderId, nowMs);
         var issued := IssueFor(order, list, ids.jti, nowMs, sign);
         Some(UnlockEmail(order.buyerEmail, appUrl + "/unlock/" + issued.token, list.title)))
    case _ => None
  }

  /** The route handler, one Prisma call at a time. `sent` is the e-mail handed to the sender,
      whose result the handler ignores. */
  method Post(db: Store, delivery: Option<StripeEvent>, ids: FreshIds, nowMs: int,
              sign: SigningInput -> string, appUrl: string) returns (resp: Response, sent: Option<Email>)
    requires db.Valid() && FreshFor(db.State(), ids)
    modifies db
    ensures db.Valid()
    ensures db.State() == Handle(old(db.State()), delivery, ids, nowMs, sign)
    ensures resp == Reply(delivery)
    ensures sent == UnlockMail(old(db.State()), delivery, ids, nowMs, sign, appUrl)
  {
    sent := None;
    if delivery.None? {
      resp := Response(400, ErrorMessage("Invalid signature"));
      return;
    }
    resp := Response(200, Received);
    match delivery.value
    case CheckoutSessionCompleted(session) =>
      if !Truthy(session.listId) || !Truthy(session.ownerId) {
        return;
      }
      var found := FindList(db.lists, ById, session.listId.value);
      if found.None? {
        return;
      }
      var list := found.value;
      var order := NewOrder(list, session, ids.orderId, nowMs);
      db.CreateOrder(order);
      db.CreateAccessGrant(NewGrant(order, list, ids.grantId));
      var issued := IssueUnlockJWT(UnlockRequest(order.id, list.id, order.buyerEmail), nowMs, ids.jti, sign);
      db.CreateSessionToken(SessionToken(issued.jti, order.id, issued.exp * 1000));
      sent := Some(UnlockEmail(order.buyerEmail, appUrl + "/unlock/" + issued.token, list.title));
    case ChargeRefunded(charge) =>
      var hit := FirstPaymentMatch(db.orders, charge.paymentIntent);
      if hit.Some? {
        var order := db.orders[hit.value];
        db.UpdateOrderToRefunded(order.id);
        db.RevokeAccessGrants(order.id);
      }
    case AccountUpdated(_) =>
      // `db.user.updateMany` with an empty `data` object changes nothing.
    case Unhandled(_) =>
  }

  // ----- properties of one delivery -----

  /** A delivery that fails signature verification is answered 400 and changes nothing. */
  lemma RejectedSignatureChangesNothing(s: Snapshot, ids: FreshIds, nowMs: int, sign: SigningInput -> string, appUrl: string)
    ensures Handle(s, None, ids, nowMs, sign) == s
    ensures Reply(None) == Response(400, ErrorMessage("Invalid signature"))
    ensures UnlockMail(s, None, ids, nowMs, sign, appUrl) == None
  {
  }

  /** Events that are dropped: a completed checkout without usable metadata or for an unknown
      list, `account.updated`, and any other type. All are acknowledged with `{ received: true }`. */
  lemma IgnoredEventsChangeNothing(s: Snapshot, e: StripeEvent, ids: FreshIds, nowMs: int, sign: SigningInput -> string)
    requires || (e.CheckoutSessionCompleted? && PurchasedList(s, e.session).None?)
             || e.AccountUpdated?
             || e.Unhandled?
    ensures Handle(s, Some(e), ids, nowMs, sign) == s
    ensures Reply(Some(e)) == Response(200, Received)
  {
  }

  /** A completed checkout for a known list adds exactly one PAID order, one grant for it and
      one session token for the issued `jti`, and nothing else. */
  lemma CompletedCheckoutRecordsPurchase(s: Snapshot, session: CheckoutSession, ids: FreshIds, nowMs: int,
                                         sign: SigningInput -> string)
    requires PurchasedList(s, session).Some?
    ensures var s' := Handle(s, Some(CheckoutSessionCompleted(session)), ids, nowMs, sign);
      var list := PurchasedList(s, session).value;
      && s'.lists == s.lists
      && |s'.orders| == |s.orders| + 1 && s'.orders[..|s.orders|] == s.orders
      && |s'.grants| == |s.grants| + 1 && s'.grants[..|s.grants|] == s.grants
      && |s'.tokens| == |s.tokens| + 1 && s'.tokens[..|s.tokens|] == s.tokens
      && var o := s'.orders[|s.orders|];
         var g := s'.grants[|s.grants|];
         var t := s'.tokens[|s.tokens|];
         && o.status == Paid && o.id == ids.orderId && o.listId == list.id && o.listId == session.listId.value
         && o.stripeSessionId == session.id && o.stripePaymentId == session.paymentIntent
         && o.buyerEmail == (if Truthy(session.customerEmail) then session.customerEmail.value else "")
         && o.amountCents == (if session.amountTotal.Some? then session.amountTotal.value else 0)
         && o.currency == (if Truthy(session.currency) then session.currency.value else "usd")
         && o.createdAt == nowMs
         && g.orderId == o.id && g.listId == o.listId && g.buyerEmail == o.buyerEmail && !g.revoked
         && t.id == ids.jti && t.orderId == o.id
         && t.expiresAtMs == ExpiryFor(nowMs) * 1000
         && nowMs + 599000 < t.expiresAtMs <= nowMs + 600000
  {
    var s' := Handle(s, Some(CheckoutSessionCompleted(session)), ids, nowMs, sign);
    assert s'.orders[..|s.orders|] == s.orders;
    assert s'.grants[..|s.grants|] == s.grants;
    assert s'.tokens[..|s.tokens|] == s.tokens;
  }

  /** The unlock e-mail links to `/unlock/` followed by a token signed over claims whose `jti`
      is the new session token's id and whose order, list and e-mail are the new order's, and
      whose expiry is the one the session token stores. */
  lemma UnlockMailLinksRecordedToken(s: Snapshot, session: CheckoutSession, ids: FreshIds, nowMs: int,
                                     sign: SigningInput -> string, appUrl: string)
    requires PurchasedList(s, session).Some?
    ensures var delivery := Some(CheckoutSessionCompleted(session));
      var s' := Handle(s, delivery, ids, nowMs, sign);
      var mail := UnlockMail(s, delivery, ids, nowMs, sign, appUrl);
      && |s'.orders| == |s.orders| + 1 && |s'.tokens| == |s.tokens| + 1
      && mail.Some?
      && var o := s'.orders[|s.orders|];
         var t := s'.tokens[|s.tokens|];
         && mail.value == UnlockEmail(o.buyerEmail, mail.value.unlockUrl, PurchasedList(s, session).value.title)
         && exists c: UnlockClaims ::
              && mail.value.unlockUrl == appUrl + "/unlock/" + sign(SigningInput(Hs256, c))
              && c.jti == t.id && c.orderId == o.id == t.orderId
              && c.listId == o.listId && c.email == o.buyerEmail
              && c.exp * 1000 == t.expiresAtMs
  {
    var list := PurchasedList(s, session).value;
    var s' := Handle(s, Some(CheckoutSessionCompleted(session)), ids, nowMs, sign);
    CompletedCheckoutRecordsPurchase(s, session, ids, nowMs, sign);
    var o := s'.orders[|s.orders|];
    var req := UnlockRequest(o.id, list.id, o.buyerEmail);
    IssuedTokenEmbedsResult(req, nowMs, ids.jti, sign);
  }

  /** The handler does no check on `stripeSessionId`: delivering the same completed checkout
      twice records two orders for the same session. */
  lemma ReplayedCheckoutIsRecordedTwice(s: Snapshot, session: CheckoutSession, ids1: FreshIds, ids2: FreshIds,
                                        nowMs1: int, nowMs2: int, sign: SigningInput -> string)
    requires PurchasedList(s, session).Some?
    ensures var e := Some(CheckoutSessionCompleted(session));
      var s2 := Handle(Handle(s, e, ids1, nowMs1, sign), e, ids2, nowMs2, sign);
      && |s2.orders| == |s.orders| + 2
      && s2.orders[|s.orders|].stripeSessionId == s2.orders[|s.orders| + 1].stripeSessionId == session.id
  {
    var e := Some(CheckoutSessionCompleted(session));
    var s1 := Handle(s, e, ids1, nowMs1, sign);
    assert s1.lists == s.lists;
    assert PurchasedList(s1, session) == PurchasedList(s, session);
  }

  /** A refund of a matching payment turns exactly the first matching order to REFUNDED and
      revokes exactly the grants of that order; without a match nothing changes. */
  lemma RefundEffect(s: Snapshot, charge: Charge)
    requires UniqueOrderIds(s.orders)
    ensures var s' := OnChargeRefunded(s, charge);
      && s'.lists == s.lists && s'.tokens == s.tokens
      && |s'.orders| == |s.orders| && |s'.grants| == |s.grants|
      && match FirstPaymentMatch(s.orders, charge.paymentIntent)
         case None => s' == s
         case Some(i) =>
           && s'.orders[i] == s.orders[i].(status := Refunded)
           && (forall k :: 0 <= k < |s.orders| && k != i ==> s'.orders[k] == s.orders[k])
           && (forall j :: 0 <= j < |s.grants| ==>
                 s'.grants[j] == if s.grants[j].orderId == s.orders[i].id then s.grants[j].(revoked := true)
                                 else s.grants[j])
  {
  }

  lemma SamePaymentIdsSameMatch(a: seq<Order>, b: seq<Order>, pi: Option<string>)
    requires |a| == |b|
    requires forall k :: 0 <= k < |a| ==> a[k].stripePaymentId == b[k].stripePaymentId
    ensures FirstPaymentMatch(a, pi) == FirstPaymentMatch(b, pi)
    decreases |a|
  {
    if a != [] {
      SamePaymentIdsSameMatch(a[1..], b[1..], pi);
    }
  }

  /** Delivering the same refund twice leaves the store as delivering it once. */
  lemma {:induction false} RefundIdempotent(s: Snapshot, charge: Charge)
    ensures OnChargeRefunded(OnChargeRefunded(s, charge), charge) == OnChargeRefunded(s, charge)
  {
    var s1 := OnChargeRefunded(s, charge);
    match FirstPaymentMatch(s.orders, charge.paymentIntent)
    case None =>
    case Some(i) =>
      var id := s.orders[i].id;
      SamePaymentIdsSameMatch(s.orders, s1.orders, charge.paymentIntent);
      assert s1.orders[i].id == id;
      assert RefundOrder(s1.orders, id) == s1.orders;
      assert RevokeGrants(s1.grants, id) == s1.grants;
  }

  /** With two orders sharing a payment intent (a replayed checkout stores it twice), a refund
      reaches only the first of them: the later twin stays PAID and its grants stay as they were. */
  lemma RefundLeavesTwinPaid(s: Snapshot, charge: Charge, j: nat, k: nat)
    requires UniqueOrderIds(s.orders)
    requires j < k < |s.orders|
    requires s.orders[j].stripePaymentId == charge.paymentIntent == s.orders[k].stripePaymentId
    requires s.orders[k].status == Paid
    ensures OnChargeRefunded(s, charge).orders[k] == s.orders[k]
    ensures forall g :: 0 <= g < |s.grants| && s.grants[g].orderId == s.orders[k].id ==>
      OnChargeRefunded(s, charge).grants[g] == s.grants[g]
  {
    var i := FirstPaymentMatch(s.orders, charge.paymentIntent).value;
    assert i <= j;
    assert s.orders[i].id != s.orders[k].id;
  }

  /** No delivery can produce a revoked grant whose order is not REFUNDED. */
  lemma {:induction false} HandleKeepsRevocationInvariant(s: Snapshot, delivery: Option<StripeEvent>, ids: FreshIds,
                                                          nowMs: int, sign: SigningInput -> string)
    requires RevokedOnlyIfRefunded(s)
    ensures RevokedOnlyIfRefunded(Handle(s, delivery, ids, nowMs, sign))
  {
    var s' := Handle(s, delivery, ids, nowMs, sign);
    forall j | 0 <= j < |s'.grants| && s'.grants[j].revoked
      ensures IsRefundedOrder(s'.orders, s'.grants[j].orderId)
    {
      match delivery
      case Some(CheckoutSessionCompleted(session)) =>
        if PurchasedList(s, session).Some? {
          assert j < |s.grants| && s'.grants[j] == s.grants[j];
          var i :| 0 <= i < |s.orders| && s.orders[i].id == s.grants[j].orderId && s.orders[i].status == Refunded;
          assert s'.orders[i] == s.orders[i];
        }
      case Some(ChargeRefunded(charge)) =>
        var found := FirstPaymentMatch(s.orders, charge.paymentIntent);
        if found.Some? {
          var id := s.orders[found.value].id;
          if s.grants[j].orderId == id {
            assert s'.orders[found.value].id == id && s'.orders[found.value].status == Refunded;
          } else {
            assert s'.grants[j] == s.grants[j];
            var i :| 0 <= i < |s.orders| && s.orders[i].id == s.grants[j].orderId && s.orders[i].status == Refunded;
            assert s'.orders[i].id == s.orders[i].id && s'.orders[i].status == Refunded;
          }
        }
      case _ =>
    }
  }

  // ----- reachable states -----

  /** The store after a sequence of deliveries. */
  function Run(s: Snapshot, deliveries: seq<Delivery>, sign: SigningInput -> string): Snapshot
    decreases |deliveries|
  {
    if deliveries == [] then s
    else
      var d := deliveries[0];
      Run(Handle(s, d.event, d.ids, d.nowMs, sign), deliveries[1..], sign)
  }

  lemma {:induction false} RunKeepsRevocationInvariant(s: Snapshot, deliveries: seq<Delivery>, sign: SigningInput -> string)
    requires RevokedOnlyIfRefunded(s)
    ensures RevokedOnlyIfRefunded(Run(s, deliveries, sign))
    decreases |deliveries|
  {
    if deliveries != [] {
      var d := deliveries[0];
      HandleKeepsRevocationInvariant(s, d.event, d.ids, d.nowMs, sign);
      RunKeepsRevocationInvariant(Handle(s, d.event, d.ids, d.nowMs, sign), deliveries[1..], sign);
    }
  }

  /** In every store reachable from the empty one, a revoked grant belongs to a REFUNDED order. */
  lemma ReachableRevocationInvariant(deliveries: seq<Delivery>, sign: SigningInput -> string)
    ensures RevokedOnlyIfRefunded(Run(Empty, deliveries, sign))
  {
    RunKeepsRevocationInvariant(Empty, deliveries, sign);
  }
}
