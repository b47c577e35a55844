/** What the route handlers hand back (`NextResponse.json(body, { status })`) and the
    e-mails they ask the mail sender to deliver. */
module Http {
  import opened Db

  /** A list together with the orders Prisma's `include` attaches to it. */
  datatype ListWithOrders = ListWithOrders(list: ListRec, orders: seq<Order>)

  datatype Body =
    | ErrorMessage(message: string)
    | Received
    | Success
    | ListJson(list: ListRec)
    | ListsJson(lists: seq<ListWithOrders>)

  datatype Response = Response(status: int, body: Body)

  /** An e-mail handed to the sender; whether delivery succeeds is a separate outcome. */
  datatype Email =
    | UnlockEmail(to: string, unlockUrl: string, listTitle: string)
    | MagicLinkEmail(to: string, magicLink: string)
}
