# Delish — a verified model of the purchase, list and earnings core

Delish sells access to curated Google Maps lists. A creator publishes a list with a price. A
buyer pays through Stripe Checkout. A signed webhook then records the purchase: one PAID order,
one access grant, a ten-minute unlock token stored as a session token, and an unlock e-mail.
A refund marks that order REFUNDED and revokes its grants. Around this sit:

- the list routes, which allocate a unique slug on creation and filter a creator's lists by
  publication status;
- the string helpers (slug normaliser, relative time, Google Maps URL helpers) and the Zod
  request schemas;
- two read-only dashboard computations: earnings (sales, revenue, platform fee, net) and
  analytics (monthly revenue buckets, the last six months, the five best-selling lists);
- the read-only route that re-sends a buyer's magic link.

The model is written in Dafny, one module per source concern:

| module | file | source |
|---|---|---|
| `Wrappers` | wrappers.dfy | `null`/`undefined` as `Option`, JavaScript truthiness of strings |
| `Text` | text.dfy | decimal rendering, `includes`, `split`/`join`, code-unit order |
| `Sorting` | sorting.dfy | comparator sorts, `slice(0, n)`, `slice(-n)` |
| `Db` | db.dfy | the Prisma records and a `Store` class whose methods are the create/update calls |
| `Http` | http.dfy | response bodies and the e-mails handed to the sender |
| `Jwt` | jwt.dfy | `src/lib/jwt.ts` |
| `StripeWebhook` | webhook.dfy | `src/app/api/webhooks/stripe/route.ts` |
| `AccessResend` | resend.dfy | `src/app/api/access/resend/route.ts` |
| `ListsRoute` | lists.dfy | `src/app/api/lists/route.ts` |
| `Helpers` | helpers.dfy | `src/lib/helpers.ts` |
| `Validations` | validations.dfy | `src/lib/validations.ts` |
| `Earnings` | earnings.dfy | `getEarningsData` in `src/app/dashboard/earnings/page.tsx` |
| `Analytics` | analytics.dfy | `getAnalyticsData` and the top-lists ranking in `src/app/dashboard/analytics/page.tsx` |

Stateful code is imperative Dafny:

- The webhook and `POST /api/lists` are methods on a `Db.Store` object. They call its
  create/update methods one Prisma call at a time. Each method's `ensures` ties the new store to a
  pure transition function of the old store (`StripeWebhook.Handle`, `Db.Snapshot` updates), and
  the properties are proved as lemmas about those functions.
- The slug `while` loop and the monthly `reduce` are methods with loop invariants, proved
  against specification functions.

The rest is pure functions and lemmas. External services are inputs:

- `constructEvent`'s outcome is an `Option<StripeEvent>`;
- the HS256 signer and `jwtVerify` are uninterpreted functions;
- the clock, `crypto.randomUUID()` and the database's fresh ids are parameters;
- `new URL` is a function `string -> Option<ParsedUrl>`;
- Zod's e-mail check is a predicate;
- `toISOString().slice(0, 7)` is a function from a timestamp to its month key;
- the mail senders' results are booleans.

## Model

| member | source | states |
|---|---|---|
| `Db.FindList` | src/app/api/webhooks/stripe/route.ts:38-40 | `findUnique` by id (here) or by slug (src/app/api/access/resend/route.ts:12-14): a found list is stored and holds that value in that column; `None` only when no stored list does |
| `Db.Slugs` | src/app/api/lists/route.ts:22 | exactly the slugs held by some list |
| `Db.FirstPaymentMatch` | src/app/api/webhooks/stripe/route.ts:99-101 | the index of the first order whose payment id equals the charge's, or `None` when no order has it |
| `Db.RefundOrder` | src/app/api/webhooks/stripe/route.ts:105-108 | same length; the orders with that id become REFUNDED, every other order is unchanged |
| `Db.RevokeGrants` | src/app/api/webhooks/stripe/route.ts:111-114 | same length; the grants of that order become revoked, every other grant is unchanged |
| `Db.Store.CreateList` | src/app/api/lists/route.ts:27-33 | appends the list, keeps ids and slugs unique and the revocation invariant |
| `Db.Store.CreateOrder` | src/app/api/webhooks/stripe/route.ts:48-58 | appends the order and nothing else; the revocation invariant still holds |
| `Db.Store.CreateAccessGrant` | src/app/api/webhooks/stripe/route.ts:61-67 | appends a non-revoked grant and nothing else |
| `Db.Store.CreateSessionToken` | src/app/api/webhooks/stripe/route.ts:77-83 | appends the token and nothing else |
| `Db.Store.UpdateOrderToRefunded` | src/app/api/webhooks/stripe/route.ts:105-108 | only the order with that id changes, to REFUNDED; the invariant still holds |
| `Db.Store.RevokeAccessGrants` | src/app/api/webhooks/stripe/route.ts:111-114 | only the grants of that order change, to revoked; callable only once the order is REFUNDED, so the invariant holds |
| `Jwt.ExpiryFor` | src/lib/jwt.ts:19 | the persisted expiry `exp * 1000` lies in (now + 599 s, now + 600 s] |
| `Jwt.IssueUnlockJWT` | src/lib/jwt.ts:18-33 | the returned `jti` is the fresh id and `exp` is `floor(now / 1000) + 600` |
| `Jwt.IssuedTokenEmbedsResult` | src/lib/jwt.ts:21-33 | the token signs an HS256 header and claims carrying the caller's order, list and e-mail unchanged and exactly the returned `jti` and `exp` |
| `Jwt.VerifyUnlockJWT` | src/lib/jwt.ts:36-44 | `null` exactly when the library throws; otherwise the verified payload |
| `Jwt.VerifyIssuedBeforeExpiry` | src/lib/jwt.ts:19-44 | with a verifier that honours `exp`, a token presented within 599 s yields the claims it was issued with |
| `Jwt.VerifyIssuedAfterExpiry` | src/lib/jwt.ts:19-44 | with a verifier that honours `exp`, a token presented 600 s or later yields `null` |
| `StripeWebhook.StringOr` | src/app/api/webhooks/stripe/route.ts:50-53 | `value || fallback`: the value when present and non-empty, the fallback otherwise |
| `StripeWebhook.IntOr` | src/app/api/webhooks/stripe/route.ts:52 | `amount_total || 0`: the value when present and non-zero, the fallback otherwise |
| `StripeWebhook.PurchasedList` | src/app/api/webhooks/stripe/route.ts:29-45 | a list is found exactly when both metadata entries are truthy and some stored list has that id, and it is that stored list |
| `StripeWebhook.OnCheckoutCompleted` | src/app/api/webhooks/stripe/route.ts:25-93 | lists unchanged; nothing changes without a purchased list; otherwise one more order (PAID), grant (not revoked) and token; the full field values are `CompletedCheckoutRecordsPurchase` |
| `StripeWebhook.OnChargeRefunded` | src/app/api/webhooks/stripe/route.ts:95-118 | lists and tokens unchanged; no order or grant is added, removed or re-keyed; which ones change is `RefundEffect` |
| `StripeWebhook.Handle` | src/app/api/webhooks/stripe/route.ts:23-138 | lists never change; a rejected signature, `account.updated` and unknown types leave the store as it was; session tokens are only ever appended |
| `StripeWebhook.Reply` | src/app/api/webhooks/stripe/route.ts:16-21 | 400 exactly when the signature check failed; every verified event is answered `{ received: true }` (line 138) |
| `StripeWebhook.UnlockMail` | src/app/api/webhooks/stripe/route.ts:70-90 | an unlock e-mail is handed over exactly for a completed checkout of a purchased list, addressed to the order's buyer e-mail, carrying the list's title and the link `<app URL>/unlock/<token>` for the token issued for the new order's id, the list and that e-mail with the fresh `jti` |
| `StripeWebhook.UnlockMailLinksRecordedToken` | src/app/api/webhooks/stripe/route.ts:70-90 | the mailed link embeds a token signed over claims whose `jti` is the new session token's id, whose order, list and e-mail are the new order's, and whose `exp * 1000` is the stored expiry |
| `StripeWebhook.Post` | src/app/api/webhooks/stripe/route.ts:10-138 | the step-by-step handler leaves the store as `Handle` says, keeps it well-formed, answers 400 or `{ received: true }`, and mails only for a recorded purchase |
| `StripeWebhook.RejectedSignatureChangesNothing` | src/app/api/webhooks/stripe/route.ts:16-21 | a failed signature check answers 400 "Invalid signature", changes nothing and mails nothing |
| `StripeWebhook.IgnoredEventsChangeNothing` | src/app/api/webhooks/stripe/route.ts:32-45 | missing metadata, an unknown list, `account.updated` and unknown types leave the store unchanged and answer `{ received: true }` |
| `StripeWebhook.CompletedCheckoutRecordsPurchase` | src/app/api/webhooks/stripe/route.ts:48-83 | a completed checkout adds exactly one PAID order (with the `''`, 0 and `'usd'` defaults), one matching non-revoked grant and one token with the issued `jti` and `exp * 1000`; the earlier rows are unchanged |
| `StripeWebhook.ReplayedCheckoutIsRecordedTwice` | src/app/api/webhooks/stripe/route.ts:48-58 | with no check on `stripeSessionId`, the same completed checkout delivered twice records two orders for that session |
| `StripeWebhook.RefundEffect` | src/app/api/webhooks/stripe/route.ts:99-115 | a matching refund sets only the first matching order to REFUNDED and revokes exactly its grants; without a match nothing changes |
| `StripeWebhook.SamePaymentIdsSameMatch` | src/app/api/webhooks/stripe/route.ts:99-101 | the payment lookup depends on the orders' payment ids only |
| `StripeWebhook.RefundIdempotent` | src/app/api/webhooks/stripe/route.ts:99-115 | delivering the same refund twice leaves the store as delivering it once, when each delivery's lookup picks the same row |
| `StripeWebhook.RefundLeavesTwinPaid` | src/app/api/webhooks/stripe/route.ts:99-115 | of two orders sharing the refunded payment id, a PAID one after the first match stays PAID and its grants stay as they were |
| `StripeWebhook.HandleKeepsRevocationInvariant` | src/app/api/webhooks/stripe/route.ts:103-115 | no delivery can create a revoked grant whose order is not REFUNDED |
| `StripeWebhook.RunKeepsRevocationInvariant` | src/app/api/webhooks/stripe/route.ts:23-136 | the invariant survives any sequence of deliveries |
| `StripeWebhook.ReachableRevocationInvariant` | src/app/api/webhooks/stripe/route.ts:103-115 | in every store reachable from the empty one, each revoked grant belongs to a REFUNDED order |
| `AccessResend.PaidOrdersFor` | src/app/api/access/resend/route.ts:21-32 | exactly the stored PAID orders of that e-mail and list |
| `AccessResend.Post` | src/app/api/access/resend/route.ts:6-56 | a pure function of the store (nothing is written); 200 always carries `{ success: true }` and an attempted mail; a mail attempt always ends in 200 or 500 |
| `AccessResend.UnknownSlugIsNotFound` | src/app/api/access/resend/route.ts:12-18 | an unknown slug is answered 404 "List not found" and no mail is attempted |
| `AccessResend.NoPaidOrderIsNotFound` | src/app/api/access/resend/route.ts:21-36 | with only refunded orders (or none) for that e-mail and list, the answer is 404 "No purchases found for this email" |
| `AccessResend.OutcomeDependsOnlyOnPaidOrders` | src/app/api/access/resend/route.ts:27-34 | two stores with the same lists and the same (non-)emptiness of the PAID-order match give the same outcome; grants and tokens are never read |
| `AccessResend.MagicLink` | src/app/api/access/resend/route.ts:39 | the link `APP_URL + '/access/' + email + '/' + listSlug`; stated for the route by `PaidOrderMailsMagicLink` |
| `AccessResend.PaidOrderMailsMagicLink` | src/app/api/access/resend/route.ts:39-48 | with a PAID order, the mail goes to that e-mail with link `APP_URL/access/email/slug`; success gives 200, failure 500 "Failed to send email" |
| `AccessResend.InvalidBodyFails` | src/app/api/access/resend/route.ts:8-9 | a body that is not JSON or that the schema rejects gives 500 "Failed to resend access" and no mail |
| `ListsRoute.Candidate` | src/app/api/lists/route.ts:23 | a numbered candidate is the base, a hyphen and at least one more character |
| `ListsRoute.AttemptsDiffer` | src/app/api/lists/route.ts:20-24 | no slug is tried twice |
| `ListsRoute.TriedSize` | src/app/api/lists/route.ts:21-25 | after n attempts n distinct slugs were looked up, none of them a later attempt |
| `ListsRoute.AllocateSlug` | src/app/api/lists/route.ts:20-25 | the loop ends; the slug is free; it is the base when free, otherwise `base-k` for the least free k ≥ 1 |
| `ListsRoute.AllocatedSlugIsDetermined` | src/app/api/lists/route.ts:20-25 | at most one slug meets the least-free-suffix description |
| `ListsRoute.NewList` | src/app/api/lists/route.ts:27-33 | the created row: the parsed fields, then the computed slug and `ownerId`, which override the body; stated for the route by `ListsRoute.Post` |
| `ListsRoute.Post` | src/app/api/lists/route.ts:8-43 | no user gives 401 and a parse failure gives 500, both with the store unchanged; otherwise exactly one list is appended, with the parsed fields, the allocated slug, `ownerId = userId` and `published` false |
| `ListsRoute.PublishedFilter` | src/app/api/lists/route.ts:56-61 | `'published'` requires published, `'draft'` requires unpublished, anything else adds no condition |
| `ListsRoute.SelectLists` | src/app/api/lists/route.ts:63-64 | each list passing the owner/status filter, as often as stored, and no other |
| `ListsRoute.PaidOrdersOf` | src/app/api/lists/route.ts:65-69 | exactly the stored PAID orders of that list |
| `ListsRoute.WithPaidOrders` | src/app/api/lists/route.ts:63-71 | each list paired with its PAID orders, in order |
| `ListsRoute.Get` | src/app/api/lists/route.ts:45-73 | no user gives 401; a user gives 200 with the lists |
| `ListsRoute.GetReturnsOwnersListsNewestFirst` | src/app/api/lists/route.ts:56-71 | the owner's filtered lists as a permutation, all of that owner, newest first, each carrying exactly its PAID orders |
| `ListsRoute.StatusSelectsPublication` | src/app/api/lists/route.ts:53-61 | an owned list is shown iff published for `'published'`, iff unpublished for `'draft'`, and always otherwise |
| `ListsRoute.ListsOf` | src/app/api/lists/route.ts:73 | the lists of the response, position by position |
| `Helpers.LowerChar` | src/lib/helpers.ts:10 | ASCII capitals map to their lower case, every other character except two is kept |
| `Helpers.RemoveSpecial` | src/lib/helpers.ts:11 | only `a-z`, `0-9`, space and `-` remain, and every such character of the input survives |
| `Helpers.RemoveSpecialKeepsCounts` | src/lib/helpers.ts:11 | every kept character survives as often as it occurs in the input |
| `Helpers.CollapseWhitespaceGivesSlugChars` | src/lib/helpers.ts:12 | after `/\s+/g` only `a-z`, `0-9` and `-` remain |
| `Helpers.CollapseHyphensNoDouble` | src/lib/helpers.ts:13 | after `/-+/g` no two hyphens are adjacent |
| `Helpers.TrimIsNoOp` | src/lib/helpers.ts:11-14 | the final `trim` never changes the string |
| `Helpers.GenerateSlug` | src/lib/helpers.ts:8-15 | `generateSlug`; its properties are `GenerateSlugShape`, `GenerateSlugIdempotent`, `TrimIsNoOp` and `SpacedTitleKeepsHyphens` |
| `Helpers.GenerateSlugShape` | src/lib/helpers.ts:8-15 | for every title, the slug has only `a-z`, `0-9` and `-`, and never `--` |
| `Helpers.GenerateSlugIdempotent` | src/lib/helpers.ts:8-15 | `generateSlug(generateSlug(t)) == generateSlug(t)` |
| `Helpers.SpacedTitleKeepsHyphens` | src/lib/helpers.ts:11-14 | `" a "` becomes `"-a-"`: leading and trailing hyphens survive |
| `Helpers.FormatRelativeTime` | src/lib/helpers.ts:32-42 | d < 60 (negative included) is "Just now"; otherwise minutes 1..59, hours 1..23 or days 1..29 by floor division (n units ≤ d < n + 1 units), and from 30 days on the date |
| `Helpers.FindIndex` | src/lib/helpers.ts:47 | the first index holding the segment, or -1 when none does |
| `Helpers.ExtractGoogleMapsListId` | src/lib/helpers.ts:44-58 | a result is non-empty, has no `/`, and is the segment right after the first `list` segment |
| `Helpers.ExtractFromListPath` | src/lib/helpers.ts:44-58 | any path of non-`list` segments, then `list`, a non-empty id and more segments yields that id |
| `Helpers.IsValidGoogleMapsListUrl` | src/lib/helpers.ts:60-69 | host contains `google.com` and path contains `/maps/` and `/list/`, false when the URL does not parse; related to the schema by `Validations.ListUrlPassesMapsSchema` and to the id extraction by `Helpers.ValidListUrlWithoutId` |
| `Helpers.ValidListUrlWithoutId` | src/lib/helpers.ts:44-69 | `google.com` + `/maps/list/` is a valid list URL from which no id can be extracted |
| `Text.NatToStringInjective` | src/app/api/lists/route.ts:23 | different counters render to different decimals |
| `Text.SplitJoin` | src/lib/helpers.ts:46 | splitting a join of separator-free parts gives the parts back |
| `Text.JoinSplit` | src/lib/helpers.ts:46 | joining a split gives the string back |
| `Text.ContainsAt` | src/lib/helpers.ts:61-64 | `includes` holds when the needle occurs at some offset |
| `Text.LexLeTotal` | src/app/dashboard/analytics/page.tsx:53 | the month-key order is total |
| `Text.LexLeTransitive` | src/app/dashboard/analytics/page.tsx:53 | the month-key order is transitive |
| `Text.LexLeAntisymmetric` | src/app/dashboard/analytics/page.tsx:53 | two keys ordered both ways are equal |
| `Validations.BoundedString` | src/lib/validations.ts:4 | accepted iff a string whose length is in the bounds, inclusive |
| `Validations.Description` | src/lib/validations.ts:5 | absent, `''` or any string of length ≤ 500 is accepted; everything else is rejected |
| `Validations.UrlString` | src/lib/validations.ts:6 | accepted iff a string the URL constructor parses |
| `Validations.PriceCents` | src/lib/validations.ts:7 | accepted iff a number with 200 ≤ p ≤ 19900 |
| `Validations.StringField` | src/lib/validations.ts:8 | absent takes the default; present must be a string |
| `Validations.CoverImageUrl` | src/lib/validations.ts:9 | absent, `''` or a parseable URL string is accepted |
| `Validations.BoolField` | src/lib/validations.ts:10 | absent takes the default; present must be a boolean |
| `Validations.ParseCreateList` | src/lib/validations.ts:3-11 | an accepted value meets every field bound; a rejection names at least one failed path |
| `Validations.EncodedListInputRoundTrip` | src/lib/validations.ts:3-11 | a list input's JSON is accepted iff it meets every bound, and then parses back to the same input |
| `Validations.CreateListDefaults` | src/lib/validations.ts:8-10 | absent `currency` becomes `'usd'`, `hostedMirror` false, description and cover image absent |
| `Validations.HundredCharacterTitleAccepted` | src/lib/validations.ts:4 | a 100-character title is accepted, despite the "less than 100" message |
| `Validations.ParseUpdateList` | src/lib/validations.ts:15 | every present field of an accepted update meets its create bound |
| `Validations.EmptyUpdateAccepted` | src/lib/validations.ts:15 | `{}` is a valid update with no field set: under Zod 3 `.partial()` the defaults are not applied |
| `Validations.UpdateFieldRules` | src/lib/validations.ts:15 | under `.partial()` each field rule accepts an absent value and a present one exactly when it meets its create bound, and gives the value back |
| `Validations.EncodedListUpdateRoundTrip` | src/lib/validations.ts:15 | an object holding any subset of the fields is accepted iff every present field meets its create bound, and then parses to exactly those fields, the others unset |
| `Validations.CreateBodyIsUpdateBody` | src/lib/validations.ts:3-15 | every body the create schema accepts, the update schema accepts |
| `Validations.ParseCheckout` | src/lib/validations.ts:19-22 | an accepted value has a cuid list id and a valid e-mail |
| `Validations.CheckoutAcceptsExactly` | src/lib/validations.ts:19-22 | a checkout body is accepted iff its id is a cuid and its e-mail is valid, and it then yields both unchanged |
| `Validations.ParseResend` | src/lib/validations.ts:24-27 | an accepted value has a valid e-mail and a non-empty slug |
| `Validations.ResendRejectsEmptySlug` | src/lib/validations.ts:26 | an empty `listSlug` is rejected, and the issue names it |
| `Validations.ResendAcceptsWellFormed` | src/lib/validations.ts:24-27 | a valid e-mail and non-empty slug are accepted unchanged |
| `Validations.MapsUrlAccepted` | src/lib/validations.ts:29-39 | `googleMapsListUrlSchema`: a parseable URL string whose host contains `google.com` and whose path contains `/maps/`; its relation to the helper is `ListUrlPassesMapsSchema` and `MapsSchemaAcceptsNonListUrl` |
| `Validations.ListUrlPassesMapsSchema` | src/lib/validations.ts:29-39 | every URL `isValidGoogleMapsListUrl` accepts passes `googleMapsListUrlSchema` |
| `Validations.MapsSchemaAcceptsNonListUrl` | src/lib/validations.ts:29-39 | the converse fails: the schema accepts a `/maps/` URL that is not a list URL |
| `Earnings.OwnerPaidOrders` | src/app/dashboard/earnings/page.tsx:14-21 | each PAID order of one of the creator's lists, as often as stored, and no other |
| `Earnings.SumConcat` | src/app/dashboard/earnings/page.tsx:22-28 | the sum of amounts distributes over concatenation |
| `Earnings.SumPermutation` | src/app/dashboard/earnings/page.tsx:22-28 | the sum of amounts does not depend on row order |
| `Earnings.AggregateSum` | src/app/dashboard/earnings/page.tsx:22-28 | `null` exactly over no rows, otherwise the sum |
| `Earnings.RoundTenth` | src/app/dashboard/earnings/page.tsx:42 | `Math.round(r / 10)`: the nearest whole cent, halves rounded up |
| `Earnings.PlatformFee` | src/app/dashboard/earnings/page.tsx:42 | at least 30 cents a sale for non-negative revenue, and the rest is revenue's tenth to the nearest cent |
| `Earnings.GetEarningsData` | src/app/dashboard/earnings/page.tsx:9-53 | sales is the number of the creator's PAID orders, revenue their summed amount, the fee `PlatformFee(revenue, sales)`, net + fee = revenue; at most ten recent orders, fewer only when there are fewer sales |
| `Earnings.EarningsSummarisePaidOrders` | src/app/dashboard/earnings/page.tsx:14-41 | sales is the number of PAID orders, revenue their summed amount, and the recent orders are stored PAID orders newest first |
| `Earnings.RecentOrdersAreNewest` | src/app/dashboard/earnings/page.tsx:29-37 | no order left out of the ten recent ones is newer than any shown |
| `Earnings.NoSalesNoRevenue` | src/app/dashboard/earnings/page.tsx:40-41 | with no PAID order, sales and revenue are 0 (the aggregate is `null`) |
| `Earnings.FeeBounds` | src/app/dashboard/earnings/page.tsx:42 | the fee is at least 30 cents a sale, plus the rounded tenth of revenue |
| `Earnings.FeeMonotone` | src/app/dashboard/earnings/page.tsx:42 | more revenue or more sales never lowers the fee |
| `Earnings.NetCanBeNegative` | src/app/dashboard/earnings/page.tsx:43 | a single 0-cent sale leaves the net at -30: it has no lower clamp |
| `Analytics.InMonth` | src/app/dashboard/analytics/page.tsx:47-48 | each order of that month, as often as stored, and no other |
| `Analytics.MonthTotalIsSumOfMonth` | src/app/dashboard/analytics/page.tsx:46-50 | a bucket is the summed amount of exactly the orders of its month |
| `Analytics.FirstSeen` | src/app/dashboard/analytics/page.tsx:46-52 | the month keys are distinct, and a key is present iff some order falls in that month |
| `Analytics.UnseenMonthIsEmpty` | src/app/dashboard/analytics/page.tsx:48 | a month no order falls in has total 0 |
| `Analytics.MonthlyRevenue` | src/app/dashboard/analytics/page.tsx:46-50 | the in-place `reduce` yields the key order of `FirstSeen` and the bucket map `MonthTotals` |
| `Analytics.MonthTotals` | src/app/dashboard/analytics/page.tsx:46-50 | a month is a key exactly when some order falls in it; each bucket's value is `MonthTotalIsSumOfMonth` |
| `Analytics.SumOverExtend` | src/app/dashboard/analytics/page.tsx:46-50 | one more order adds its amount to the bucket sum exactly when its month is a key |
| `Analytics.SumOverAppend` | src/app/dashboard/analytics/page.tsx:46-50 | one more key adds its bucket to the sum |
| `Analytics.BucketsSumToTotal` | src/app/dashboard/analytics/page.tsx:46-50 | the buckets add up to the sum of all amounts |
| `Analytics.Entries` | src/app/dashboard/analytics/page.tsx:52 | one `[month, total]` entry per key, in key order |
| `Analytics.ByMonthOrders` | src/app/dashboard/analytics/page.tsx:53 | the comparator is a total preorder |
| `Analytics.SortedEntries` | src/app/dashboard/analytics/page.tsx:52-53 | the sorted entries are ascending, one per key, each with its total |
| `Analytics.LeftOutMonthPrecedes` | src/app/dashboard/analytics/page.tsx:53-54 | a key dropped by the slice sorts before every kept key |
| `Analytics.SuffixKeepsOrder` | src/app/dashboard/analytics/page.tsx:54 | the slice keeps the ordering, distinctness and totals |
| `Analytics.ChartData` | src/app/dashboard/analytics/page.tsx:52-54 | at most six points and no more than there are months; the rest is `ChartShowsLatestSixMonths` |
| `Analytics.ChartShowsLatestSixMonths` | src/app/dashboard/analytics/page.tsx:52-54 | at most six distinct months, strictly ascending, each with its total, and every month left out sorts before each shown |
| `Analytics.GetAnalyticsData` | src/app/dashboard/analytics/page.tsx:8-54 | the owner's lists with PAID orders; the owner's PAID orders newest first; their count and sum; the chart of their buckets, whose months add up to the revenue |
| `Analytics.TopLists` | src/app/dashboard/analytics/page.tsx:188-190 | at most five lists and no more than given; the ranking is `TopListsRanking` |
| `Analytics.TopListsKeepTieOrder` | src/app/dashboard/analytics/page.tsx:188-190 | lists with equal PAID-order counts keep their newest-created-first order in the ranking, and the top five are its first entries |
| `Analytics.TopListsRanking` | src/app/dashboard/analytics/page.tsx:188-190 | at most five lists, by non-increasing PAID-order count, drawn from the input, with no list left out ahead of one shown |
| `Sorting.Insert` | src/app/dashboard/analytics/page.tsx:53 | inserting adds exactly one element |
| `Sorting.SortBy` | src/app/dashboard/analytics/page.tsx:53 | the sort is a permutation of its input |
| `Sorting.SortBySorted` | src/app/dashboard/analytics/page.tsx:53 | with a total, transitive comparator the result is sorted |
| `Sorting.InsertTies` | src/app/dashboard/analytics/page.tsx:188-190 | inserting an element puts it ahead of the elements level with it and moves none of them |
| `Sorting.SortByStable` | src/app/dashboard/analytics/page.tsx:188-190 | the sort is stable: elements ranked level keep their input order |
| `Sorting.SortByDistinct` | src/app/dashboard/analytics/page.tsx:53 | sorting keeps distinct elements distinct |
| `Sorting.Take` | src/app/dashboard/analytics/page.tsx:190 | `slice(0, n)`: the first min(n, length) elements |
| `Sorting.TakeLast` | src/app/dashboard/analytics/page.tsx:54 | `slice(-n)`: the last min(n, length) elements |
| `Sorting.DroppedFollowsPrefix` | src/app/dashboard/analytics/page.tsx:188-190 | an element cut off by `slice(0, n)` of a sorted sequence comes after every kept one |
| `Sorting.DroppedPrecedesSuffix` | src/app/dashboard/analytics/page.tsx:52-54 | an element cut off by `slice(-n)` of a sorted sequence comes before every kept one |

## Left out

- Stripe itself: `constructEvent` (signature checking) is the event input, and the Stripe API calls of the checkout and connect routes are not part of this model.
- The payload cast: an event's object is taken to have the shape its `type` promises. A missing `payment_intent` is matched as `null` when the refund lookup runs.
- `Promise.all` and concurrent webhook deliveries: every request runs alone against the store.
- Partial writes: a Prisma error part-way through a handler (the 500 "Webhook handler failed" path and the other `catch` branches after a write) is not modelled; every store call succeeds.
- Logging (`console.error`/`console.log`) and the mail HTTP transport. The unlock e-mail's result is ignored, as the handler ignores it; the magic-link sender's result is a boolean input.
- `StripeWebhook.Post`: `account.updated` stores nothing. Its `updateMany` with empty `data` changes no modelled field, and the user record is not part of this model.
- Token redemption: no modelled code reads or deletes a session token. `verifyUnlockJWT` is modelled over an abstract verifier, without a resolver or single-use check.
- HMAC-SHA256, the JWT encoding and the `iat` claim's use: the signer and `jwtVerify` are uninterpreted functions.
- The same clock reading is used for `iat`, `exp` and the order's `createdAt`. In the source these are separate `Date.now()` calls.
- Ids the database assigns (`cuid()` defaults) and `crypto.randomUUID()` are parameters assumed fresh. Primary and unique keys hold because the database enforces them.
- `ListsRoute.NewList`: `published` false on a created list is the Prisma schema's column default, assumed here because the schema is not part of this model; the route does not set it.
- `createdAt` of a created list is the clock input. `updatedAt` and other schema columns not read by the modelled code are left out.
- Prisma's order among rows with equal `createdAt` is not specified. The model uses a stable sort, so its tie order is one admissible order.
- `Db.FirstPaymentMatch`: `findFirst` without `orderBy` returns some matching row, in an order the database does not fix. The model takes the first match in storage order, so when two orders share a payment id it picks one admissible row.
- `StripeWebhook.RefundIdempotent`: assumes `findFirst` returns the same row on each delivery. With two orders sharing a payment id (a replayed checkout makes that possible) and no `orderBy`, the database may return the already-refunded row once and its twin the next time, so a second delivery may refund the twin.
- `request.json()` failing is the input `None`. The request's URL parsing is reduced to the `status` parameter.
- `Helpers.LowerChar`: exact only where the result can survive the filter that follows. Other non-ASCII characters are kept unlowered, and every one of those is removed by the next step anyway.
- Lengths count Dafny characters, not UTF-16 code units. A title with characters outside the Basic Multilingual Plane is measured differently by Zod.
- Zod's e-mail pattern is the input predicate `isEmail`.
- `Validations.ParseUpdateList`: follows Zod 3's `.partial()`, under which an absent field never reaches the inner `.default`, so `{}` sets no field. Zod 4 applies the defaults inside optional object fields and would give `currency` `'usd'` and `hostedMirror` false; the Zod version is not part of this model.
- Zod's `.url()` is taken to accept exactly the strings `new URL` parses.
- JSON numbers are integers. A fractional `priceCents` is not modelled.
- `Earnings.RoundTenth`: computed exactly as `(r + 5) / 10`. The source's `Math.round(revenue * 0.10)` on doubles can differ where the product is not exact.
- The user record and its Stripe account in `getEarningsData`, and `stripeAccount` generally.
- `conversionRate` (floating point) is left out. `Analytics.TopListsRanking` ranks the lists with their PAID orders, which are the objects `conversionRates` spreads.
- `formatPrice` and `formatDate` (Intl). The text of the relative buckets is `Helpers.RelativeText`; the date fallback carries only the timestamp.
- `cn` (class-name merging) is UI code.
- `toISOString().slice(0, 7)` is the `monthOf` input. `localeCompare` on `YYYY-MM` keys is taken as code-unit order.
- Rendering and React state of the pages.

## Notable behaviour

None of these is a defect beyond doubt, so each is proved as the code's behaviour:

- a replayed checkout records a second order: the handler does no deduplication, and the model follows the code (`StripeWebhook.ReplayedCheckoutIsRecordedTwice`);
- a refund reaches only the first of two orders sharing its payment id: the other stays PAID and keeps its grants unrevoked (`StripeWebhook.RefundLeavesTwinPaid`);
- a 100-character title is accepted although its message says "less than 100" (`Validations.HundredCharacterTitleAccepted`);
- the Maps URL schema does not require `/list/` (`Validations.MapsSchemaAcceptsNonListUrl`);
- a valid list URL can have no extractable id (`Helpers.ValidListUrlWithoutId`).
