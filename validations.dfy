/** The Zod schemas of the validation module, as parsers from a JSON value to a typed value or
    the set of field paths that failed. `parseUrl` stands for `new URL(s)` (`None` when it
    throws); Zod's `.url()` accepts exactly the strings it parses. `isEmail` stands for Zod's
    e-mail pattern. Lengths count characters. */
module Validations {
  import opened Wrappers
  import opened Text
  import opened Helpers

  /** A JSON value as the request body delivers it; numbers are integers here. */
  datatype Json =
    | JNull
    | JString(str: string)
    | JNumber(num: int)
    | JBool(flag: bool)
    | JArray
    | JObject(members: map<string, Json>)

  /** `schema.parse(body)`: the parsed value, or the paths of the failed fields (`""` is the
      body itself when it is not an object). */
  datatype Parsed<T> = Accepted(value: T) | Rejected(issues: set<string>)

  /** A member of an object body; `None` is `undefined`. */
  function Member(members: map<string, Json>, key: string): (r: Option<Json>)
    ensures r.Some? <==> key in members
    ensures r.Some? ==> r.value == members[key]
  {
    if key in members then Some(members[key]) else None
  }

  // ----- field rules of createListSchema -----

  /** `z.string().min(lo).max(hi)`. */
  function BoundedString(v: Option<Json>, lo: nat, hi: nat): (r: Option<string>)
    ensures r.Some? <==> v.Some? && v.value.JString? && lo <= |v.value.str| <= hi
    ensures r.Some? ==> r.value == v.value.str
  {
    match v
    case Some(JString(s)) => if lo <= |s| <= hi then Some(s) else None
    case _ => None
  }

  /** `z.string().url()`. */
  function UrlString(v: Option<Json>, parseUrl: string -> Option<ParsedUrl>): (r: Option<string>)
    ensures r.Some? <==> v.Some? && v.value.JString? && parseUrl(v.value.str).Some?
    ensures r.Some? ==> r.value == v.value.str
  {
    match v
    case Some(JString(s)) => if parseUrl(s).Some? then Some(s) else None
    case _ => None
  }

  /** The outcome of a field with `.optional()`: accepted as `undefined`, accepted with a
      value, or rejected. */
  datatype FieldResult<T> = Undefined | Value(v: T) | Invalid {
    predicate Ok() { !Invalid? }
    function AsOption(): Option<T> requires Ok() {
      if Value? then Some(v) else None
    }
  }

  /** `z.string().max(500).optional().or(z.literal(''))`: `''` already meets the bound. */
  function Description(v: Option<Json>): (r: FieldResult<string>)
    ensures r.Undefined? <==> v.None?
    ensures r.Value? <==> v.Some? && v.value.JString? && |v.value.str| <= 500
    ensures r.Value? ==> r.v == v.value.str
  {
    match v
    case None => Undefined
    case Some(JString(s)) => if |s| <= 500 then Value(s) else Invalid
    case Some(_) => Invalid
  }

  /** `z.string().url().optional().or(z.literal(''))`. */
  function CoverImageUrl(v: Option<Json>, parseUrl: string -> Option<ParsedUrl>): (r: FieldResult<string>)
    ensures r.Undefined? <==> v.None?
    ensures r.Value? <==> v.Some? && v.value.JString? && (parseUrl(v.value.str).Some? || v.value.str == "")
    ensures r.Value? ==> r.v == v.value.str
  {
    match v
    case None => Undefined
    case Some(JString(s)) => if parseUrl(s).Some? || s == "" then Value(s) else Invalid
    case Some(_) => Invalid
  }

  /** `z.number().min(200).max(19900)`. */
  function PriceCents(v: Option<Json>): (r: Option<int>)
    ensures r.Some? <==> v.Some? && v.value.JNumber? && 200 <= v.value.num <= 19900
    ensures r.Some? ==> r.value == v.value.num
  {
    match v
    case Some(JNumber(n)) => if 200 <= n <= 19900 then Some(n) else None
    case _ => None
  }

  /** `z.string()`, with `.default(d)` when `dflt` is given. */
  function StringField(v: Option<Json>, dflt: Option<string>): (r: FieldResult<string>)
    ensures v.None? ==> (if dflt.Some? then r == Value(dflt.value) else r == Undefined)
    ensures v.Some? ==> (r.Value? <==> v.value.JString?)
    ensures v.Some? && r.Value? ==> r.v == v.value.str
  {
    match v
    case None => if dflt.Some? then Value(dflt.value) else Undefined
    case Some(JString(s)) => Value(s)
    case Some(_) => Invalid
  }

  /** `z.boolean()`, with `.default(d)` when `dflt` is given. */
  function BoolField(v: Option<Json>, dflt: Option<bool>): (r: FieldResult<bool>)
    ensures v.None? ==> (if dflt.Some? then r == Value(dflt.value) else r == Undefined)
    ensures v.Some? ==> (r.Value? <==> v.value.JBool?)
    ensures v.Some? && r.Value? ==> r.v == v.value.flag
  {
    match v
    case None => if dflt.Some? then Value(dflt.value) else Undefined
    case Some(JBool(b)) => Value(b)
    case Some(_) => Invalid
  }

  // ----- createListSchema -----

  /** `CreateListData`. */
  datatype ListInput = ListInput(
    title: string,
    description: Option<string>,
    mapsListUrl: string,
    priceCents: int,
    currency: string,
    coverImageUrl: Option<string>,
    hostedMirror: bool)

  /** The values `createListSchema` can produce. */
  predicate ListInputOk(d: ListInput, parseUrl: string -> Option<ParsedUrl>) {
    && 1 <= |d.title| <= 100
    && (d.description.Some? ==> |d.description.value| <= 500)
    && parseUrl(d.mapsListUrl).Some?
    && 200 <= d.priceCents <= 19900
    && (d.coverImageUrl.Some? ==> d.coverImageUrl.value == "" || parseUrl(d.coverImageUrl.value).Some?)
  }

  function CreateIssues(m: map<string, Json>, parseUrl: string -> Option<ParsedUrl>): set<string> {
    (if BoundedString(Member(m, "title"), 1, 100).None? then {"title"} else {})
    + (if !Description(Member(m, "description")).Ok() then {"description"} else {})
    + (if UrlString(Member(m, "mapsListUrl"), parseUrl).None? then {"mapsListUrl"} else {})
    + (if PriceCents(Member(m, "priceCents")).None? then {"priceCents"} else {})
    + (if !StringField(Member(m, "currency"), Some("usd")).Ok() then {"currency"} else {})
    + (if !CoverImageUrl(Member(m, "coverImageUrl"), parseUrl).Ok() then {"coverImageUrl"} else {})
    + (if !BoolField(Member(m, "hostedMirror"), Some(false)).Ok() then {"hostedMirror"} else {})
  }

  /** `createListSchema.parse(body)`: every accepted value meets the field bounds; absent
      `currency` and `hostedMirror` take their defaults. Unknown members are dropped. */
  function ParseCreateList(body: Json, parseUrl: string -> Option<ParsedUrl>): (r: Parsed<ListInput>)
    ensures r.Accepted? ==> ListInputOk(r.value, parseUrl)
    ensures r.Rejected? ==> r.issues != {}
  {
    match body
    case JObject(m) =>
      var issues := CreateIssues(m, parseUrl);
      if issues != {} then Rejected(issues)
      else
        var currency := StringField(Member(m, "currency"), Some("usd"));
        var mirror := BoolField(Member(m, "hostedMirror"), Some(false));
        Accepted(ListInput(
          BoundedString(Member(m, "title"), 1, 100).value,
          Description(Member(m, "description")).AsOption(),
          UrlString(Member(m, "mapsListUrl"), parseUrl).value,
          PriceCents(Member(m, "priceCents")).value,
          currency.v,
          CoverImageUrl(Member(m, "coverImageUrl"), parseUrl).AsOption(),
          mirror.v))
    case _ => Rejected({""})
  }

  /** The JSON object a client sends for `d`; `None` fields are left out. */
  function EncodeListInput(d: ListInput): Json {
    var base := map[
      "title" := JString(d.title),
      "mapsListUrl" := JString(d.mapsListUrl),
      "priceCents" := JNumber(d.priceCents),
      "currency" := JString(d.currency),
      "hostedMirror" := JBool(d.hostedMirror)];
    var withDescription := if d.description.Some? then base["description" := JString(d.description.value)] else base;
    JObject(if d.coverImageUrl.Some? then withDescription["coverImageUrl" := JString(d.coverImageUrl.value)] else withDescription)
  }

  /** The encoding of a list input is accepted exactly when the input meets every field bound,
      and then parses back to the same input. */
  lemma EncodedListInputRoundTrip(d: ListInput, parseUrl: string -> Option<ParsedUrl>)
    ensures ParseCreateList(EncodeListInput(d), parseUrl).Accepted? <==> ListInputOk(d, parseUrl)
    ensures ListInputOk(d, parseUrl) ==> ParseCreateList(EncodeListInput(d), parseUrl) == Accepted(d)
  {
    var m := EncodeListInput(d).members;
    assert Member(m, "title") == Some(JString(d.title));
    assert Member(m, "mapsListUrl") == Some(JString(d.mapsListUrl));
    assert Member(m, "priceCents") == Some(JNumber(d.priceCents));
    assert Member(m, "currency") == Some(JString(d.currency));
    assert Member(m, "hostedMirror") == Some(JBool(d.hostedMirror));
    assert Member(m, "description") == if d.description.Some? then Some(JString(d.description.value)) else None;
    assert Member(m, "coverImageUrl") == if d.coverImageUrl.Some? then Some(JString(d.coverImageUrl.value)) else None;
  }

  /** A body with only the three required members gets `currency` `'usd'`, `hostedMirror`
      false and no description or cover image. */
  lemma CreateListDefaults(title: string, url: string, price: int, parseUrl: string -> Option<ParsedUrl>)
    requires 1 <= |title| <= 100 && parseUrl(url).Some? && 200 <= price <= 19900
    ensures ParseCreateList(JObject(map["title" := JString(title), "mapsListUrl" := JString(url), "priceCents" := JNumber(price)]), parseUrl)
         == Accepted(ListInput(title, None, url, price, "usd", None, false))
  {
    var m := map["title" := JString(title), "mapsListUrl" := JString(url), "priceCents" := JNumber(price)];
    assert Member(m, "currency") == None && Member(m, "hostedMirror") == None;
    assert Member(m, "description") == None && Member(m, "coverImageUrl") == None;
    assert CreateIssues(m, parseUrl) == {};
  }

  /** A title of exactly 100 characters passes, although the message says "less than 100". */
  lemma HundredCharacterTitleAccepted(d: ListInput, parseUrl: string -> Option<ParsedUrl>)
    requires |d.title| == 100
    requires ListInputOk(d.(title := "x"), parseUrl)
    ensures ParseCreateList(EncodeListInput(d), parseUrl) == Accepted(d)
  {
    EncodedListInputRoundTrip(d, parseUrl);
  }

  // ----- updateListSchema -----

  /** `UpdateListData`: every member optional, and no default applied. */
  datatype ListUpdate = ListUpdate(
    title: Option<string>,
    description: Option<string>,
    mapsListUrl: Option<string>,
    priceCents: Option<int>,
    currency: Option<string>,
    coverImageUrl: Option<string>,
    hostedMirror: Option<bool>)

  const NoChanges: ListUpdate := ListUpdate(None, None, None, None, None, None, None)

  /** The values `updateListSchema` can produce: each present member meets its create bound. */
  predicate ListUpdateOk(u: ListUpdate, parseUrl: string -> Option<ParsedUrl>) {
    && (u.title.Some? ==> 1 <= |u.title.value| <= 100)
    && (u.description.Some? ==> |u.description.value| <= 500)
    && (u.mapsListUrl.Some? ==> parseUrl(u.mapsListUrl.value).Some?)
    && (u.priceCents.Some? ==> 200 <= u.priceCents.value <= 19900)
    && (u.coverImageUrl.Some? ==> u.coverImageUrl.value == "" || parseUrl(u.coverImageUrl.value).Some?)
  }

  /** `.partial()` wraps a rule so that `undefined` is accepted before the rule runs. */
  function Partial<T>(v: Option<Json>, rule: Option<T>): FieldResult<T> {
    if v.None? then Undefined else if rule.Some? then Value(rule.value) else Invalid
  }

  function UpdateIssues(m: map<string, Json>, parseUrl: string -> Option<ParsedUrl>): set<string> {
    (if !Partial(Member(m, "title"), BoundedString(Member(m, "title"), 1, 100)).Ok() then {"title"} else {})
    + (if !Description(Member(m, "description")).Ok() then {"description"} else {})
    + (if !Partial(Member(m, "mapsListUrl"), UrlString(Member(m, "mapsListUrl"), parseUrl)).Ok() then {"mapsListUrl"} else {})
    + (if !Partial(Member(m, "priceCents"), PriceCents(Member(m, "priceCents"))).Ok() then {"priceCents"} else {})
    + (if !StringField(Member(m, "currency"), None).Ok() then {"currency"} else {})
    + (if !CoverImageUrl(Member(m, "coverImageUrl"), parseUrl).Ok() then {"coverImageUrl"} else {})
    + (if !BoolField(Member(m, "hostedMirror"), None).Ok() then {"hostedMirror"} else {})
  }

  /** `updateListSchema.parse(body)`. */
  function ParseUpdateList(body: Json, parseUrl: string -> Option<ParsedUrl>): (r: Parsed<ListUpdate>)
    ensures r.Accepted? ==> ListUpdateOk(r.value, parseUrl)
    ensures r.Rejected? ==> r.issues != {}
  {
    match body
    case JObject(m) =>
      var issues := UpdateIssues(m, parseUrl);
      if issues != {} then Rejected(issues)
      else
        Accepted(ListUpdate(
          Partial(Member(m, "title"), BoundedString(Member(m, "title"), 1, 100)).AsOption(),
          Description(Member(m, "description")).AsOption(),
          Partial(Member(m, "mapsListUrl"), UrlString(Member(m, "mapsListUrl"), parseUrl)).AsOption(),
          Partial(Member(m, "priceCents"), PriceCents(Member(m, "priceCents"))).AsOption(),
          StringField(Member(m, "currency"), None).AsOption(),
          CoverImageUrl(Member(m, "coverImageUrl"), parseUrl).AsOption(),
          BoolField(Member(m, "hostedMirror"), None).AsOption()))
    case _ => Rejected({""})
  }

  /** The empty object is a valid update that changes nothing: the create defaults are not applied. */
  lemma EmptyUpdateAccepted(parseUrl: string -> Option<ParsedUrl>)
    ensures ParseUpdateList(JObject(map[]), parseUrl) == Accepted(NoChanges)
  {
    var m: map<string, Json> := map[];
    assert UpdateIssues(m, parseUrl) == {};
  }

  /** `m` with `key` set to the value when there is one. */
  function PutIf(m: map<string, Json>, key: string, v: Option<Json>): (r: map<string, Json>)
    ensures key in r <==> key in m || v.Some?
    ensures v.Some? ==> r[key] == v.value
    ensures forall k :: k != key ==> (k in r <==> k in m) && (k in m ==> r[k] == m[k])
  {
    if v.Some? then m[key := v.value] else m
  }

  function JStr(o: Option<string>): Option<Json> {
    if o.Some? then Some(JString(o.value)) else None
  }

  function JNum(o: Option<int>): Option<Json> {
    if o.Some? then Some(JNumber(o.value)) else None
  }

  function JBoo(o: Option<bool>): Option<Json> {
    if o.Some? then Some(JBool(o.value)) else None
  }

  /** The JSON object a client sends for `u`: exactly the members that are set. */
  function EncodeListUpdate(u: ListUpdate): Json {
    var m0: map<string, Json> := map[];
    var m1 := PutIf(m0, "title", JStr(u.title));
    var m2 := PutIf(m1, "description", JStr(u.description));
    var m3 := PutIf(m2, "mapsListUrl", JStr(u.mapsListUrl));
    var m4 := PutIf(m3, "priceCents", JNum(u.priceCents));
    var m5 := PutIf(m4, "currency", JStr(u.currency));
    var m6 := PutIf(m5, "coverImageUrl", JStr(u.coverImageUrl));
    JObject(PutIf(m6, "hostedMirror", JBoo(u.hostedMirror)))
  }

  lemma EncodedUpdateMembers(u: ListUpdate)
    ensures var m := EncodeListUpdate(u).members;
      && Member(m, "title") == JStr(u.title)
      && Member(m, "description") == JStr(u.description)
      && Member(m, "mapsListUrl") == JStr(u.mapsListUrl)
      && Member(m, "priceCents") == JNum(u.priceCents)
      && Member(m, "currency") == JStr(u.currency)
      && Member(m, "coverImageUrl") == JStr(u.coverImageUrl)
      && Member(m, "hostedMirror") == JBoo(u.hostedMirror)
  {
  }

  /** Each update field rule, on a value encoded from `o`: it passes exactly when a present value
      meets the create bound, and then yields `o` back. */
  lemma UpdateFieldRules(u: ListUpdate, parseUrl: string -> Option<ParsedUrl>)
    ensures var r := Partial(JStr(u.title), BoundedString(JStr(u.title), 1, 100));
      (r.Ok() <==> (u.title.Some? ==> 1 <= |u.title.value| <= 100)) && (r.Ok() ==> r.AsOption() == u.title)
    ensures var r := Description(JStr(u.description));
      (r.Ok() <==> (u.description.Some? ==> |u.description.value| <= 500)) && (r.Ok() ==> r.AsOption() == u.description)
    ensures var r := Partial(JStr(u.mapsListUrl), UrlString(JStr(u.mapsListUrl), parseUrl));
      (r.Ok() <==> (u.mapsListUrl.Some? ==> parseUrl(u.mapsListUrl.value).Some?)) && (r.Ok() ==> r.AsOption() == u.mapsListUrl)
    ensures var r := Partial(JNum(u.priceCents), PriceCents(JNum(u.priceCents)));
      (r.Ok() <==> (u.priceCents.Some? ==> 200 <= u.priceCents.value <= 19900)) && (r.Ok() ==> r.AsOption() == u.priceCents)
    ensures var r := StringField(JStr(u.currency), None);
      r.Ok() && r.AsOption() == u.currency
    ensures var r := CoverImageUrl(JStr(u.coverImageUrl), parseUrl);
      (r.Ok() <==> (u.coverImageUrl.Some? ==> u.coverImageUrl.value == "" || parseUrl(u.coverImageUrl.value).Some?))
      && (r.Ok() ==> r.AsOption() == u.coverImageUrl)
    ensures var r := BoolField(JBoo(u.hostedMirror), None);
      r.Ok() && r.AsOption() == u.hostedMirror
  {
  }

  /** Every field is optional: an object holding any subset of the fields is accepted exactly
      when each present field meets its create bound, and it then parses to exactly those
      fields, with every absent one left unset. */
  lemma EncodedListUpdateRoundTrip(u: ListUpdate, parseUrl: string -> Option<ParsedUrl>)
    ensures ParseUpdateList(EncodeListUpdate(u), parseUrl).Accepted? <==> ListUpdateOk(u, parseUrl)
    ensures ListUpdateOk(u, parseUrl) ==> ParseUpdateList(EncodeListUpdate(u), parseUrl) == Accepted(u)
  {
    EncodedUpdateMembers(u);
    UpdateFieldRules(u, parseUrl);
  }

  /** Every body the create schema accepts, the update schema accepts too. */
  lemma CreateBodyIsUpdateBody(body: Json, parseUrl: string -> Option<ParsedUrl>)
    requires ParseCreateList(body, parseUrl).Accepted?
    ensures ParseUpdateList(body, parseUrl).Accepted?
  {
    var m := body.members;
    assert CreateIssues(m, parseUrl) == {};
    assert UpdateIssues(m, parseUrl) == {};
  }

  // ----- checkoutSchema -----

  /** Zod's cuid pattern `/^c[^\s-]{8,}$/i`. */
  predicate IsCuid(s: string) {
    |s| >= 9 && (s[0] == 'c' || s[0] == 'C') && forall i :: 1 <= i < |s| ==> !IsJsWhitespace(s[i]) && s[i] != '-'
  }

  datatype CheckoutInput = CheckoutInput(listId: string, buyerEmail: string)

  /** `checkoutSchema.parse(body)`. */
  function ParseCheckout(body: Json, isEmail: string -> bool): (r: Parsed<CheckoutInput>)
    ensures r.Accepted? ==> IsCuid(r.value.listId) && isEmail(r.value.buyerEmail)
    ensures r.Rejected? ==> r.issues != {}
  {
    match body
    case JObject(m) =>
      var listId := Member(m, "listId");
      var email := Member(m, "buyerEmail");
      var listIdOk := listId.Some? && listId.value.JString? && IsCuid(listId.value.str);
      var emailOk := email.Some? && email.value.JString? && isEmail(email.value.str);
      if listIdOk && emailOk then Accepted(CheckoutInput(listId.value.str, email.value.str))
      else Rejected((if listIdOk then {} else {"listId"}) + (if emailOk then {} else {"buyerEmail"}))
    case _ => Rejected({""})
  }

  /** A checkout body is accepted exactly when its id is a cuid and its e-mail passes, and it
      then yields those two strings. */
  lemma CheckoutAcceptsExactly(listId: string, email: string, isEmail: string -> bool)
    ensures var r := ParseCheckout(JObject(map["listId" := JString(listId), "buyerEmail" := JString(email)]), isEmail);
      (r.Accepted? <==> IsCuid(listId) && isEmail(email))
      && (r.Accepted? ==> r.value == CheckoutInput(listId, email))
      && (r.Rejected? ==> ("listId" in r.issues <==> !IsCuid(listId)))
  {
    var m := map["listId" := JString(listId), "buyerEmail" := JString(email)];
    assert Member(m, "listId") == Some(JString(listId));
    assert Member(m, "buyerEmail") == Some(JString(email));
  }

  // ----- resendAccessSchema -----

  datatype ResendInput = ResendInput(email: string, listSlug: string)

  /** `resendAccessSchema.parse(body)`. */
  function ParseResend(body: Json, isEmail: string -> bool): (r: Parsed<ResendInput>)
    ensures r.Accepted? ==> isEmail(r.value.email) && |r.value.listSlug| >= 1
    ensures r.Rejected? ==> r.issues != {}
  {
    match body
    case JObject(m) =>
      var email := Member(m, "email");
      var slug := Member(m, "listSlug");
      var emailOk := email.Some? && email.value.JString? && isEmail(email.value.str);
      var slugOk := slug.Some? && slug.value.JString? && |slug.value.str| >= 1;
      if emailOk && slugOk then Accepted(ResendInput(email.value.str, slug.value.str))
      else Rejected((if emailOk then {} else {"email"}) + (if slugOk then {} else {"listSlug"}))
    case _ => Rejected({""})
  }

  /** An empty `listSlug` is rejected whatever else the body holds. */
  lemma ResendRejectsEmptySlug(m: map<string, Json>, isEmail: string -> bool)
    requires "listSlug" in m && m["listSlug"] == JString("")
    ensures ParseResend(JObject(m), isEmail).Rejected?
    ensures "listSlug" in ParseResend(JObject(m), isEmail).issues
  {
  }

  /** A well-formed resend body yields its e-mail and slug unchanged. */
  lemma ResendAcceptsWellFormed(email: string, slug: string, isEmail: string -> bool)
    requires isEmail(email) && slug != ""
    ensures ParseResend(JObject(map["email" := JString(email), "listSlug" := JString(slug)]), isEmail)
         == Accepted(ResendInput(email, slug))
  {
    var m := map["email" := JString(email), "listSlug" := JString(slug)];
    assert Member(m, "email") == Some(JString(email)) && Member(m, "listSlug") == Some(JString(slug));
  }

  // ----- googleMapsListUrlSchema -----

  /** `googleMapsListUrlSchema`: a URL whose host contains `google.com` and whose path
      contains `/maps/`. */
  predicate MapsUrlAccepted(v: Json, parseUrl: string -> Option<ParsedUrl>) {
    v.JString? &&
    match parseUrl(v.str)
    case None => false
    case Some(u) => Contains(u.hostname, "google.com") && Contains(u.pathname, "/maps/")
  }

  /** Every URL `isValidGoogleMapsListUrl` accepts passes the schema. */
  lemma ListUrlPassesMapsSchema(s: string, parseUrl: string -> Option<ParsedUrl>)
    requires IsValidGoogleMapsListUrl(parseUrl(s))
    ensures MapsUrlAccepted(JString(s), parseUrl)
  {
  }

  /** The converse fails: the schema drops the `/list/` test. */
  lemma MapsSchemaAcceptsNonListUrl(s: string, parseUrl: string -> Option<ParsedUrl>)
    requires parseUrl(s) == Some(ParsedUrl("google.com", "/maps/"))
    ensures MapsUrlAccepted(JString(s), parseUrl)
    ensures !IsValidGoogleMapsListUrl(parseUrl(s))
  {
    ContainsAt("google.com", "google.com", 0);
    ContainsAt("/maps/", "/maps/", 0);
    assert !IsPrefix("/list/", "/maps/") by {
      assert "/maps/"[1] != "/list/"[1];
    }
    ContainsNeedsRoom("maps/", "/list/");
  }
}
