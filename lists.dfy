/** `POST /api/lists` and `GET /api/lists`. Clerk's `auth()` is the `userId` input (`None` for
    `null`); the fresh list id the database assigns and the creation time are inputs too. */
module ListsRoute {
  import opened Wrappers
  import opened Text
  import opened Sorting
  import opened Db
  import opened Http
  import opened Helpers
  import opened Validations

  // ===== unique slug allocation =====

  /** `${generateSlug(title)}-${counter}`. */
  function Candidate(base: string, k: nat): (c: string)
    ensures |c| > |base| + 1 && c[..|base|] == base && c[|base|] == '-'
  {
    base + "-" + NatToString(k)
  }

  /** The `k`-th slug the loop tries: the base itself, then the numbered candidates. */
  function Attempt(base: string, k: nat): string {
    if k == 0 then base else Candidate(base, k)
  }

  /** The loop never tries the same slug twice. */
  lemma AttemptsDiffer(base: string, j: nat, k: nat)
    requires j < k
    ensures Attempt(base, j) != Attempt(base, k)
  {
    if j > 0 && Attempt(base, j) == Attempt(base, k) {
      var cj := Candidate(base, j);
      var ck := Candidate(base, k);
      assert cj[|base| + 1..] == NatToString(j);
      assert ck[|base| + 1..] == NatToString(k);
      NatToStringInjective(j, k);
    }
  }

  /** The slugs held by existing lists that the loop has looked up after `n` attempts. */
  ghost function Tried(base: string, n: nat): set<string> {
    if n == 0 then {} else Tried(base, n - 1) + {Attempt(base, n - 1)}
  }

  lemma {:induction false} TriedSize(base: string, n: nat)
    ensures |Tried(base, n)| == n
    ensures forall k :: n <= k ==> Attempt(base, k) !in Tried(base, n)
  {
    if n > 0 {
      TriedSize(base, n - 1);
      forall k | n <= k ensures Attempt(base, k) != Attempt(base, n - 1) {
        AttemptsDiffer(base, n - 1, k);
      }
    }
  }

  /** The `while` loop over `db.list.findUnique({ where: { slug } })`, with the slugs of the
      existing lists as `taken`: the result is free; it is the base when the base is free, and
      otherwise the numbered candidate with the least `k >= 1` that is free. The loop ends because
      every slug looked up is taken and distinct from the earlier ones. */
  method AllocateSlug(base: string, taken: set<string>) returns (slug: string)
    ensures slug !in taken
    ensures base !in taken ==> slug == base
    ensures base in taken ==> exists k: nat :: (1 <= k && slug == Candidate(base, k) &&
      forall j: nat :: 1 <= j < k ==> Candidate(base, j) in taken)
  {
    slug := base;
    var counter := 1;
    TriedSize(base, 0);
    while slug in taken
      invariant counter >= 1
      invariant slug == Attempt(base, counter - 1)
      invariant Tried(base, counter - 1) <= taken
      invariant forall j: nat :: j < counter - 1 ==> Attempt(base, j) in taken
      decreases |taken| - (counter - 1)
    {
      TriedSize(base, counter - 1);
      TriedSize(base, counter);
      assert Tried(base, counter) <= taken;
      assert |Tried(base, counter)| <= |taken| by {
        SubsetSize(Tried(base, counter), taken);
      }
      slug := Candidate(base, counter);
      counter := counter + 1;
    }
    if base in taken {
      assert counter - 1 >= 1;
      assert forall j: nat :: 1 <= j < counter - 1 ==> Candidate(base, j) == Attempt(base, j);
    }
  }

  lemma SubsetSize<T>(a: set<T>, b: set<T>)
    requires a <= b
    ensures |a| <= |b|
  {
    assert b == a + (b - a);
  }

  /** The allocation is unique: at most one slug meets the three conditions. */
  lemma AllocatedSlugIsDetermined(base: string, taken: set<string>, s1: string, s2: string, k1: nat, k2: nat)
    requires base in taken
    requires 1 <= k1 && s1 == Candidate(base, k1) && s1 !in taken
    requires forall j: nat :: 1 <= j < k1 ==> Candidate(base, j) in taken
    requires 1 <= k2 && s2 == Candidate(base, k2) && s2 !in taken
    requires forall j: nat :: 1 <= j < k2 ==> Candidate(base, j) in taken
    ensures s1 == s2
  {
  }

  // ===== POST =====

  /** The row `db.list.create` inserts: the parsed fields, then `slug` and `ownerId`, which
      override any such members of the body; `published` takes its default, false. */
  function NewList(input: ListInput, id: string, slug: string, ownerId: string, nowMs: int): ListRec {
    ListRec(id, slug, ownerId, input.title, input.description, input.mapsListUrl, input.priceCents,
            input.currency, input.coverImageUrl, input.hostedMirror, false, nowMs)
  }

  /** `POST /api/lists`. `body` is `None` when the request body is not JSON. */
  method Post(db: Store, userId: Option<string>, body: Option<Json>, parseUrl: string -> Option<ParsedUrl>,
              listId: string, nowMs: int) returns (resp: Response)
    requires db.Valid() && !HasList(db.lists, listId)
    modifies db
    ensures db.Valid()
    ensures !Truthy(userId) ==> resp == Response(401, ErrorMessage("Unauthorized")) && db.State() == old(db.State())
    ensures Truthy(userId) && (body.None? || ParseCreateList(body.value, parseUrl).Rejected?) ==>
      resp == Response(500, ErrorMessage("Failed to create list")) && db.State() == old(db.State())
    ensures Truthy(userId) && body.Some? && ParseCreateList(body.value, parseUrl).Accepted? ==>
      var input := ParseCreateList(body.value, parseUrl).value;
      var base := GenerateSlug(input.title);
      && resp.status == 200 && resp.body.ListJson?
      && resp.body.list == NewList(input, listId, resp.body.list.slug, userId.value, nowMs)
      && resp.body.list.slug !in Slugs(old(db.lists))
      && (base !in Slugs(old(db.lists)) ==> resp.body.list.slug == base)
      && (base in Slugs(old(db.lists)) ==> exists k: nat :: (1 <= k && resp.body.list.slug == Candidate(base, k) &&
            forall j: nat :: 1 <= j < k ==> Candidate(base, j) in Slugs(old(db.lists))))
      && db.State() == old(db.State()).(lists := old(db.lists) + [resp.body.list])
  {
    if !Truthy(userId) {
      return Response(401, ErrorMessage("Unauthorized"));
    }
    if body.None? {
      return Response(500, ErrorMessage("Failed to create list"));
    }
    var parsed := ParseCreateList(body.value, parseUrl);
    if parsed.Rejected? {
      return Response(500, ErrorMessage("Failed to create list"));
    }
    var base := GenerateSlug(parsed.value.title);
    var slug := AllocateSlug(base, Slugs(db.lists));
    var list := NewList(parsed.value, listId, slug, userId.value, nowMs);
    db.CreateList(list);
    return Response(200, ListJson(list));
  }

  // ===== GET =====

  /** The `published` condition the `status` query parameter adds to the owner filter. */
  function PublishedFilter(status: Option<string>): (r: Option<bool>)
    ensures status == Some("published") ==> r == Some(true)
    ensures status == Some("draft") ==> r == Some(false)
    ensures status != Some("published") && status != Some("draft") ==> r == None
  {
    if status == Some("published") then Some(true)
    else if status == Some("draft") then Some(false)
    else None
  }

  predicate Selected(l: ListRec, owner: string, published: Option<bool>) {
    l.ownerId == owner && (published.Some? ==> l.published == published.value)
  }

  /** `db.list.findMany({ where: whereClause })` before ordering: each list that passes the
      filter, as often as the store holds it, and nothing else. */
  function SelectLists(lists: seq<ListRec>, owner: string, published: Option<bool>): (r: seq<ListRec>)
    ensures forall l :: multiset(r)[l] == if Selected(l, owner, published) then multiset(lists)[l] else 0
    decreases |lists|
  {
    if lists == [] then []
    else
      var rest := SelectLists(lists[1..], owner, published);
      assert lists == [lists[0]] + lists[1..];
      if Selected(lists[0], owner, published) then [lists[0]] + rest else rest
  }

  /** The `include: { orders: { where: { status: 'PAID' } } }` part. */
  function PaidOrdersOf(orders: seq<Order>, listId: string): (r: seq<Order>)
    ensures forall o :: o in r <==> o in orders && o.listId == listId && o.status == Paid
    decreases |orders|
  {
    if orders == [] then []
    else
      var rest := PaidOrdersOf(orders[1..], listId);
      assert forall x :: x in orders <==> x == orders[0] || x in orders[1..];
      if orders[0].listId == listId && orders[0].status == Paid then [orders[0]] + rest else rest
  }

  /** `orderBy: { createdAt: 'desc' }`. */
  predicate ByNewest(a: ListRec, b: ListRec) {
    a.createdAt >= b.createdAt
  }

  function WithPaidOrders(orders: seq<Order>, lists: seq<ListRec>): (r: seq<ListWithOrders>)
    ensures |r| == |lists|
    ensures forall i :: 0 <= i < |lists| ==> r[i] == ListWithOrders(lists[i], PaidOrdersOf(orders, lists[i].id))
  {
    seq(|lists|, i requires 0 <= i < |lists| => ListWithOrders(lists[i], PaidOrdersOf(orders, lists[i].id)))
  }

  /** `db.list.findMany({ where, include: { orders: { where: { status: 'PAID' } } },
      orderBy: { createdAt: 'desc' } })` for an owner and an optional `published` condition. */
  function OwnedListsWithPaidOrders(s: Snapshot, owner: string, published: Option<bool>): seq<ListWithOrders> {
    WithPaidOrders(s.orders, SortBy(SelectLists(s.lists, owner, published), ByNewest))
  }

  /** `GET /api/lists?status=...`; `status` is `searchParams.get('status')`. */
  function Get(s: Snapshot, userId: Option<string>, status: Option<string>): (r: Response)
    ensures !Truthy(userId) ==> r == Response(401, ErrorMessage("Unauthorized"))
    ensures Truthy(userId) ==> r.status == 200 && r.body.ListsJson?
  {
    if !Truthy(userId) then Response(401, ErrorMessage("Unauthorized"))
    else Response(200, ListsJson(OwnedListsWithPaidOrders(s, userId.value, PublishedFilter(status))))
  }

  function ListsOf(items: seq<ListWithOrders>): (r: seq<ListRec>)
    ensures |r| == |items| && forall i :: 0 <= i < |items| ==> r[i] == items[i].list
  {
    seq(|items|, i requires 0 <= i < |items| => items[i].list)
  }

  /** A signed-in owner gets exactly the lists that pass the owner and status filter, newest
      first, each with its PAID orders and no other orders. */
  lemma GetReturnsOwnersListsNewestFirst(s: Snapshot, userId: Option<string>, status: Option<string>)
    requires Truthy(userId)
    ensures var items := Get(s, userId, status).body.lists;
      && (forall l :: multiset(ListsOf(items))[l] ==
            if Selected(l, userId.value, PublishedFilter(status)) then multiset(s.lists)[l] else 0)
      && (forall i :: 0 <= i < |items| ==> items[i].list.ownerId == userId.value)
      && (forall i, j :: 0 <= i < j < |items| ==> items[i].list.createdAt >= items[j].list.createdAt)
      && (forall i, o :: 0 <= i < |items| ==>
            (o in items[i].orders <==> o in s.orders && o.listId == items[i].list.id && o.status == Paid))
  {
    var selected := SelectLists(s.lists, userId.value, PublishedFilter(status));
    var sorted := SortBy(selected, ByNewest);
    var items := Get(s, userId, status).body.lists;
    assert ListsOf(items) == sorted;
    assert Total(ByNewest) && Transitive(ByNewest);
    SortBySorted(selected, ByNewest);
    forall i | 0 <= i < |items| ensures items[i].list.ownerId == userId.value {
      assert sorted[i] in multiset(sorted);
      assert multiset(selected)[sorted[i]] > 0;
    }
  }

  /** `'published'` keeps only published lists, `'draft'` only unpublished ones, and any other
      value (or none) keeps every list of the owner. */
  lemma StatusSelectsPublication(s: Snapshot, userId: Option<string>, status: Option<string>, l: ListRec)
    requires Truthy(userId) && l in s.lists && l.ownerId == userId.value
    ensures var shown := l in ListsOf(Get(s, userId, status).body.lists);
      && (status == Some("published") ==> (shown <==> l.published))
      && (status == Some("draft") ==> (shown <==> !l.published))
      && (status != Some("published") && status != Some("draft") ==> shown)
  {
    GetReturnsOwnersListsNewestFirst(s, userId, status);
    var shownLists := ListsOf(Get(s, userId, status).body.lists);
    assert multiset(s.lists)[l] > 0;
    assert l in shownLists <==> multiset(shownLists)[l] > 0;
  }
}
