/** `POST /api/access/resend`: a read-only chain of lookups that ends in at most one magic-link
    e-mail. The store is read, never written; `body` is `None` when the request body is not JSON,
    and `sendMagicLink` stands for `sendMagicLinkEmail`, which reports success as a boolean. */
module AccessResend {
  import opened Wrappers
  import opened Sorting
  import opened Db
  import opened Http
  import opened Validations

  /** `db.order.findMany({ where: { buyerEmail, listId, status: 'PAID' } })`. */
  function PaidOrdersFor(orders: seq<Order>, email: string, listId: string): (r: seq<Order>)
    ensures forall o :: o in r <==> o in orders && o.buyerEmail == email && o.listId == listId && o.status == Paid
    decreases |orders|
  {
    if orders == [] then []
    else
      var rest := PaidOrdersFor(orders[1..], email, listId);
      var o := orders[0];
      assert forall x :: x in orders <==> x == o || x in orders[1..];
      if o.buyerEmail == email && o.listId == listId && o.status == Paid then [o] + rest else rest
  }

  /** The route's reply and the e-mail it handed to the sender, if any. */
  datatype ResendOutcome = ResendOutcome(response: Response, attempted: Option<Email>)

  /** The link the route mails: the application URL, `/access/`, the e-mail and the slug. */
  function MagicLink(appUrl: string, email: string, listSlug: string): string {
    appUrl + "/access/" + email + "/" + listSlug
  }

  function Fail(status: int, message: string): ResendOutcome {
    ResendOutcome(Response(status, ErrorMessage(message)), None)
  }

  /** The route handler. */
  function Post(s: Snapshot, body: Option<Json>, appUrl: string, isEmail: string -> bool,
                sendMagicLink: (string, string) -> bool): (r: ResendOutcome)
    ensures r.attempted.Some? ==> r.response.status in {200, 500}
    ensures r.response.status == 200 ==> r.response.body == Success && r.attempted.Some?
  {
    if body.None? then Fail(500, "Failed to resend access")
    else
      match ParseResend(body.value, isEmail)
      case Rejected(_) => Fail(500, "Failed to resend access")
      case Accepted(input) =>
        match FindList(s.lists, BySlug, input.listSlug)
        case None => Fail(404, "List not found")
        case Some(list) =>
          if |PaidOrdersFor(s.orders, input.email, list.id)| == 0 then
            Fail(404, "No purchases found for this email")
          else
            var link := MagicLink(appUrl, input.email, input.listSlug);
            var mail := MagicLinkEmail(input.email, link);
            if !sendMagicLink(input.email, link) then
              ResendOutcome(Response(500, ErrorMessage("Failed to send email")), Some(mail))
            else
              ResendOutcome(Response(200, Success), Some(mail))
  }

  /** An unknown slug is answered with 404 before any order is looked at or any mail is sent. */
  lemma UnknownSlugIsNotFound(s: Snapshot, input: ResendInput, body: Json, appUrl: string,
                              isEmail: string -> bool, sendMagicLink: (string, string) -> bool)
    requires ParseResend(body, isEmail) == Accepted(input)
    requires forall i :: 0 <= i < |s.lists| ==> s.lists[i].slug != input.listSlug
    ensures Post(s, Some(body), appUrl, isEmail, sendMagicLink) == Fail(404, "List not found")
  {
  }

  /** With the list found, the reply depends on the orders only through whether any PAID order of
      that e-mail for that list exists; grants and session tokens are never consulted. */
  lemma OutcomeDependsOnlyOnPaidOrders(s1: Snapshot, s2: Snapshot, body: Json, appUrl: string,
                                        isEmail: string -> bool, sendMagicLink: (string, string) -> bool)
    requires s1.lists == s2.lists
    requires forall input, id :: ParseResend(body, isEmail) == Accepted(input) ==>
      (|PaidOrdersFor(s1.orders, input.email, id)| == 0 <==> |PaidOrdersFor(s2.orders, input.email, id)| == 0)
    ensures Post(s1, Some(body), appUrl, isEmail, sendMagicLink) == Post(s2, Some(body), appUrl, isEmail, sendMagicLink)
  {
  }

  /** No PAID order of that e-mail for the list (only refunded ones, or none at all) gives 404. */
  lemma NoPaidOrderIsNotFound(s: Snapshot, input: ResendInput, body: Json, list: ListRec, appUrl: string,
                              isEmail: string -> bool, sendMagicLink: (string, string) -> bool)
    requires ParseResend(body, isEmail) == Accepted(input)
    requires FindList(s.lists, BySlug, input.listSlug) == Some(list)
    requires forall o :: o in s.orders && o.buyerEmail == input.email && o.listId == list.id ==> o.status == Refunded
    ensures Post(s, Some(body), appUrl, isEmail, sendMagicLink) == Fail(404, "No purchases found for this email")
  {
    var paid := PaidOrdersFor(s.orders, input.email, list.id);
    HeadIsMember(paid);
  }

  /** A PAID order of that e-mail for the list leads to one magic-link mail to that address with
      the link built from the application URL, the e-mail and the slug; the reply is 200 when the
      sender reports success and 500 otherwise. */
  lemma PaidOrderMailsMagicLink(s: Snapshot, input: ResendInput, body: Json, list: ListRec, o: Order,
                                appUrl: string, isEmail: string -> bool, sendMagicLink: (string, string) -> bool)
    requires ParseResend(body, isEmail) == Accepted(input)
    requires FindList(s.lists, BySlug, input.listSlug) == Some(list)
    requires o in s.orders && o.buyerEmail == input.email && o.listId == list.id && o.status == Paid
    ensures var r := Post(s, Some(body), appUrl, isEmail, sendMagicLink);
      var link := appUrl + "/access/" + input.email + "/" + input.listSlug;
      && r.attempted == Some(MagicLinkEmail(input.email, link))
      && (sendMagicLink(input.email, link) ==> r.response == Response(200, Success))
      && (!sendMagicLink(input.email, link) ==> r.response == Response(500, ErrorMessage("Failed to send email")))
  {
    assert o in PaidOrdersFor(s.orders, input.email, list.id);
  }

  /** A body that is not JSON, or that the schema rejects, gives 500 and no mail. */
  lemma InvalidBodyFails(s: Snapshot, body: Option<Json>, appUrl: string,
                         isEmail: string -> bool, sendMagicLink: (string, string) -> bool)
    requires body.None? || ParseResend(body.value, isEmail).Rejected?
    ensures Post(s, body, appUrl, isEmail, sendMagicLink) == Fail(500, "Failed to resend access")
  {
  }
}
