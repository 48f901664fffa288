/**
 * The checkout function (supabase/functions/create-coin-checkout/index.ts): it validates the
 * coin package, looks up an existing payment customer, and asks the payment provider for a
 * checkout session whose return URLs and metadata it builds here. The provider's two calls are
 * external: their results are inputs, and the model records what was sent to them.
 */
module Checkout {
  import opened Wrappers

  datatype CoinPackage = CoinPackage(priceId: string, coins: nat)

  /** `COIN_PACKAGES[packageId]` behind the guard `!packageId || !COIN_PACKAGES[packageId]`. */
  function LookupPackage(packageId: Option<string>): (r: Option<CoinPackage>)
    ensures r.Some? <==> packageId == Some("starter") || packageId == Some("regular") || packageId == Some("value")
    ensures packageId == Some("starter") ==> r == Some(CoinPackage("price_1SoUi5CEvaNNIJ6N4CMRc5B9", 5))
    ensures packageId == Some("regular") ==> r == Some(CoinPackage("price_1SoUiICEvaNNIJ6NYICAgEFC", 10))
    ensures packageId == Some("value") ==> r == Some(CoinPackage("price_1SoUiVCEvaNNIJ6NUJ9QTOWq", 20))
  {
    match packageId
    case None => None
    case Some(id) =>
      if id == "starter" then Some(CoinPackage("price_1SoUi5CEvaNNIJ6N4CMRc5B9", 5))
      else if id == "regular" then Some(CoinPackage("price_1SoUiICEvaNNIJ6NYICAgEFC", 10))
      else if id == "value" then Some(CoinPackage("price_1SoUiVCEvaNNIJ6NUJ9QTOWq", 20))
      else None
  }

  // ---------------------------------------------------------------------------------------
  // Decimal text of a count, as `toString()` and template strings write it

  function Digit(d: nat): (c: char)
    requires d < 10
    ensures '0' <= c <= '9' && c as int - '0' as int == d
  {
    "0123456789"[d]
  }

  function DigitValue(c: char): nat
    requires '0' <= c <= '9'
  {
    c as int - '0' as int
  }

  predicate AllDigits(s: string) {
    forall i | 0 <= i < |s| :: '0' <= s[i] <= '9'
  }

  /** `n.toString()`: decimal digits without a leading zero. */
  function NatToString(n: nat): (s: string)
    ensures |s| >= 1 && AllDigits(s)
    ensures s[0] == '0' ==> n == 0 && |s| == 1
    decreases n
  {
    if n < 10 then [Digit(n)] else NatToString(n / 10) + [Digit(n % 10)]
  }

  /** The count a decimal text denotes. */
  function ParseNat(s: string): nat
    requires AllDigits(s)
    decreases |s|
  {
    if s == [] then 0 else 10 * ParseNat(s[..|s| - 1]) + DigitValue(s[|s| - 1])
  }

  /** Rendering and parsing are inverse: the text of a count denotes that count. */
  lemma {:induction false} ParseNatToString(n: nat)
    ensures ParseNat(NatToString(n)) == n
    decreases n
  {
    var s := NatToString(n);
    if n >= 10 {
      ParseNatToString(n / 10);
      assert s[..|s| - 1] == NatToString(n / 10);
    }
  }

  // ---------------------------------------------------------------------------------------
  // Return URLs

  /** `${x}` for a value that may be missing: the missing value renders as `absent`. */
  function TemplateText(x: Option<string>, absent: string): string {
    if x.Some? then x.value else absent
  }

  /** The request's `origin` header in a template: a missing header is `null`. */
  function OriginText(origin: Option<string>): string {
    TemplateText(origin, "null")
  }

  /** The store page the provider returns to. */
  function StorePage(origin: Option<string>): string {
    OriginText(origin) + "/store"
  }

  /** One `name=value` query parameter. */
  function Param(name: string, value: string): string {
    name + "=" + value
  }

  /** The placeholder the payment provider replaces with the session id. */
  const SessionPlaceholder: string := "{CHECKOUT_SESSION_ID}"

  /** The query parameters of the success URL: the package's coins, the user id and the session placeholder. */
  function SuccessQuery(coins: nat, userId: Option<string>): seq<string> {
    [Param("success", "true"), Param("coins", NatToString(coins)), Param("userId", TemplateText(userId, "undefined")),
     Param("session_id", SessionPlaceholder)]
  }

  /** The success URL, `<origin>/store?success=true&coins=<n>&userId=<id>&session_id={CHECKOUT_SESSION_ID}`. */
  function SuccessUrl(origin: Option<string>, coins: nat, userId: Option<string>): string {
    StorePage(origin) + "?" + Join(SuccessQuery(coins, userId), '&')
  }

  /** The cancel URL, `<origin>/store?canceled=true`. */
  function CancelUrl(origin: Option<string>): string {
    StorePage(origin) + "?" + Param("canceled", "true")
  }

  /** `parts.join(c)`. */
  function Join(parts: seq<string>, c: char): string
    requires |parts| >= 1
  {
    if |parts| == 1 then parts[0] else parts[0] + [c] + Join(parts[1..], c)
  }

  /** The success URL is the template `<origin>/store?success=true&coins=<n>&userId=<id>&session_id={CHECKOUT_SESSION_ID}`. */
  lemma SuccessUrlText(origin: Option<string>, coins: nat, userId: Option<string>)
    ensures SuccessUrl(origin, coins, userId) ==
            OriginText(origin) + "/store?success=true&coins=" + NatToString(coins) + "&userId="
            + TemplateText(userId, "undefined") + "&session_id=" + SessionPlaceholder
  {
    var o, n, u := OriginText(origin), NatToString(coins), TemplateText(userId, "undefined");
    JoinFour(SuccessQuery(coins, userId), '&');
    UrlShape(o, "/store", "?", "=", "&", "success", "true", "coins", n, "userId", u, "session_id", SessionPlaceholder);
    SuccessHeadText();
    SeparatorText();
  }

  /** `Join` of four parts, written out. */
  lemma JoinFour(q: seq<string>, c: char)
    requires |q| == 4
    ensures Join(q, c) == q[0] + [c] + (q[1] + [c] + (q[2] + [c] + q[3]))
  {
    assert q[1..][1..] == q[2..] && q[2..][1..] == q[3..];
    assert Join(q[2..], c) == q[2] + [c] + q[3];
  }

  /** The regrouping behind `SuccessUrlText`, on arbitrary pieces. */
  lemma UrlShape(o: string, page: string, qm: string, eq: string, amp: string, n1: string, v1: string,
                 n2: string, v2: string, n3: string, v3: string, n4: string, v4: string)
    ensures (o + page) + qm + ((n1 + eq + v1) + amp + ((n2 + eq + v2) + amp + ((n3 + eq + v3) + amp + (n4 + eq + v4))))
            == o + (page + qm + (n1 + eq + v1) + amp + (n2 + eq)) + v2 + (amp + (n3 + eq)) + v3
               + (amp + (n4 + eq)) + v4
  {
  }

  lemma SuccessHeadText()
    ensures "/store" + "?" + ("success" + "=" + "true") + "&" + ("coins" + "=") == "/store?success=true&coins="
  {
  }

  lemma SeparatorText()
    ensures "&" + ("userId" + "=") == "&userId="
    ensures "&" + ("session_id" + "=") == "&session_id="
  {
  }

  /** The cancel URL is the template `<origin>/store?canceled=true`. */
  lemma CancelUrlText(origin: Option<string>)
    ensures CancelUrl(origin) == OriginText(origin) + "/store?canceled=true"
  {
  }

  /** The first position of `c` in `s`. */
  function IndexOf(s: string, c: char): (i: nat)
    requires c in s
    ensures i < |s| && s[i] == c && c !in s[..i]
  {
    if s[0] == c then 0 else 1 + IndexOf(s[1..], c)
  }

  /** `s.split(c)`. */
  function Split(s: string, c: char): (parts: seq<string>)
    ensures |parts| >= 1
    decreases |s|
  {
    if c in s then
      var i := IndexOf(s, c);
      [s[..i]] + Split(s[i + 1..], c)
    else [s]
  }

  /** The query of a URL: what follows its first `?`. */
  function QueryOf(url: string): string {
    if '?' in url then url[IndexOf(url, '?') + 1..] else ""
  }

  /** The value of the first `name=value` pair. */
  function Lookup(pairs: seq<string>, name: string): Option<string> {
    if pairs == [] then None
    else if name + "=" <= pairs[0] then Some(pairs[0][|name| + 1..])
    else Lookup(pairs[1..], name)
  }

  /** The value a reader of the URL finds for a query parameter. */
  function QueryParam(url: string, name: string): Option<string> {
    Lookup(Split(QueryOf(url), '&'), name)
  }

  lemma IndexAfterPrefix(a: string, c: char, b: string)
    requires c !in a
    ensures c in a + [c] + b && IndexOf(a + [c] + b, c) == |a|
    decreases |a|
  {
    var s := a + [c] + b;
    assert s[|a|] == c;
    if a != [] {
      assert s[1..] == a[1..] + [c] + b;
      IndexAfterPrefix(a[1..], c, b);
    }
  }

  lemma SplitCons(a: string, c: char, b: string)
    requires c !in a
    ensures Split(a + [c] + b, c) == [a] + Split(b, c)
  {
    var s := a + [c] + b;
    IndexAfterPrefix(a, c, b);
    assert s[..|a|] == a && s[|a| + 1..] == b;
  }

  lemma SplitNone(a: string, c: char)
    requires c !in a
    ensures Split(a, c) == [a]
  {
  }

  lemma QueryAfterPrefix(a: string, q: string)
    requires '?' !in a
    ensures QueryOf(a + "?" + q) == q
  {
    IndexAfterPrefix(a, '?', q);
    assert a + "?" + q == a + ['?'] + q;
  }

  lemma LookupHit(pairs: seq<string>, name: string, value: string)
    requires pairs != [] && pairs[0] == Param(name, value)
    ensures Lookup(pairs, name) == Some(value)
  {
  }

  /** A parameter whose name differs from `name` at position `k` is passed over. */
  lemma LookupSkip(pairs: seq<string>, name: string, other: string, value: string, k: nat)
    requires pairs != [] && pairs[0] == Param(other, value)
    requires k < |name| && k < |other| && other[k] != name[k]
    ensures Lookup(pairs, name) == Lookup(pairs[1..], name)
  {
  }

  /** Splitting undoes joining, for parts free of the separator. */
  lemma {:induction false} SplitJoin(parts: seq<string>, c: char)
    requires |parts| >= 1
    requires forall i | 0 <= i < |parts| :: c !in parts[i]
    ensures Split(Join(parts, c), c) == parts
  {
    if |parts| == 1 {
      SplitNone(parts[0], c);
    } else {
      SplitJoin(parts[1..], c);
      SplitCons(parts[0], c, Join(parts[1..], c));
    }
  }

  lemma DigitsFree(s: string)
    requires AllDigits(s)
    ensures '&' !in s
  {
  }

  /** The query of the success URL splits into its four parameters. */
  lemma SuccessUrlQuery(origin: Option<string>, coins: nat, userId: Option<string>)
    requires '?' !in OriginText(origin)
    requires '&' !in TemplateText(userId, "undefined")
    ensures Split(QueryOf(SuccessUrl(origin, coins, userId)), '&') == SuccessQuery(coins, userId)
  {
    var n, u := NatToString(coins), TemplateText(userId, "undefined");
    assert '?' !in "/store";
    DigitsFree(n);
    ParamFree("success", "true", '&');
    ParamFree("coins", n, '&');
    ParamFree("userId", u, '&');
    ParamFree("session_id", SessionPlaceholder, '&');
    QueryOfFour(StorePage(origin), Param("success", "true"), Param("coins", n), Param("userId", u),
                Param("session_id", SessionPlaceholder));
  }

  /** The query of `prefix?a&b&c&d` splits back into its four parts. */
  lemma QueryOfFour(prefix: string, a: string, b: string, c: string, d: string)
    requires '?' !in prefix && '&' !in a && '&' !in b && '&' !in c && '&' !in d
    ensures Split(QueryOf(prefix + "?" + Join([a, b, c, d], '&')), '&') == [a, b, c, d]
  {
    QueryAfterPrefix(prefix, Join([a, b, c, d], '&'));
    SplitJoin([a, b, c, d], '&');
  }

  lemma ParamFree(name: string, value: string, c: char)
    requires c !in name && c !in value && c != '='
    ensures c !in Param(name, value)
  {
  }

  lemma LookupCoins(coins: nat, userId: Option<string>)
    ensures Lookup(SuccessQuery(coins, userId), "coins") == Some(NatToString(coins))
  {
    var parts := SuccessQuery(coins, userId);
    LookupSkip(parts, "coins", "success", "true", 0);
    LookupHit(parts[1..], "coins", NatToString(coins));
  }

  lemma LookupUserId(coins: nat, userId: Option<string>)
    ensures Lookup(SuccessQuery(coins, userId), "userId") == Some(TemplateText(userId, "undefined"))
  {
    var parts := SuccessQuery(coins, userId);
    assert parts[1..][1..] == parts[2..];
    LookupSkip(parts, "userId", "success", "true", 0);
    LookupSkip(parts[1..], "userId", "coins", NatToString(coins), 0);
    LookupHit(parts[2..], "userId", TemplateText(userId, "undefined"));
  }

  lemma LookupSessionId(coins: nat, userId: Option<string>)
    ensures Lookup(SuccessQuery(coins, userId), "session_id") == Some(SessionPlaceholder)
  {
    var parts := SuccessQuery(coins, userId);
    assert parts[1..][1..] == parts[2..] && parts[2..][1..] == parts[3..];
    LookupSkip(parts, "session_id", "success", "true", 1);
    LookupSkip(parts[1..], "session_id", "coins", NatToString(coins), 0);
    LookupSkip(parts[2..], "session_id", "userId", TemplateText(userId, "undefined"), 0);
    LookupHit(parts[3..], "session_id", SessionPlaceholder);
  }

  /** Each parameter of the success query is found under its name. */
  lemma SuccessQueryLookups(coins: nat, userId: Option<string>)
    ensures var parts := SuccessQuery(coins, userId);
            && Lookup(parts, "success") == Some("true")
            && Lookup(parts, "coins") == Some(NatToString(coins))
            && Lookup(parts, "userId") == Some(TemplateText(userId, "undefined"))
            && Lookup(parts, "session_id") == Some(SessionPlaceholder)
  {
    LookupHit(SuccessQuery(coins, userId), "success", "true");
    LookupCoins(coins, userId);
    LookupUserId(coins, userId);
    LookupSessionId(coins, userId);
  }

  /**
   * The success URL carries what it promises: a reader of its query finds `success=true`, the
   * package's coin count, the user id and the provider's session placeholder. This holds when the
   * origin has no `?` and the user id no `&`, as neither is escaped.
   */
  lemma SuccessUrlCarriesPurchase(origin: Option<string>, coins: nat, userId: Option<string>)
    requires '?' !in OriginText(origin)
    requires '&' !in TemplateText(userId, "undefined")
    ensures var url := SuccessUrl(origin, coins, userId);
            && QueryParam(url, "success") == Some("true")
            && QueryParam(url, "coins") == Some(NatToString(coins))
            && QueryParam(url, "userId") == Some(TemplateText(userId, "undefined"))
            && QueryParam(url, "session_id") == Some(SessionPlaceholder)
  {
    SuccessUrlQuery(origin, coins, userId);
    SuccessQueryLookups(coins, userId);
  }

  /** The cancel URL carries `canceled=true`. */
  lemma CancelUrlCarriesCancel(origin: Option<string>)
    requires '?' !in OriginText(origin)
    ensures QueryParam(CancelUrl(origin), "canceled") == Some("true")
  {
    QueryAfterPrefix(StorePage(origin), Param("canceled", "true"));
    SplitNone(Param("canceled", "true"), '&');
    LookupHit([Param("canceled", "true")], "canceled", "true");
  }

  // ---------------------------------------------------------------------------------------
  // The handler

  /** The JSON body of the request, or the message of the error its parse threw. */
  datatype RequestBody =
    | Body(packageId: Option<string>, userId: Option<string>, userEmail: Option<string>)
    | Unparseable(message: string)

  datatype Request = Request(httpMethod: string, origin: Option<string>, body: RequestBody)

  datatype Metadata = Metadata(userId: Option<string>, coins: string)

  /** What the handler asks the provider to create. */
  datatype SessionParams = SessionParams(
    customer: Option<string>,
    customerEmail: Option<string>,
    price: string,
    quantity: nat,
    mode: string,
    successUrl: string,
    cancelUrl: string,
    metadata: Metadata)

  /** The CORS headers alone, or with `Content-Type: application/json`. */
  datatype Headers = Cors | CorsJson

  datatype ResponseBody = NoBody | UrlBody(url: Option<string>) | ErrorBody(message: string)

  datatype Response = Response(status: nat, headers: Headers, body: ResponseBody)

  /** One run of the handler: the email it looked a customer up by, the session it asked for, its response. */
  datatype Exchange = Exchange(customerLookup: Option<string>, session: Option<SessionParams>, response: Response)

  /** JavaScript truthiness of an optional string. */
  predicate Truthy(s: Option<string>) {
    s.Some? && s.value != ""
  }

  /** The session request for a package: the email is sent only when no customer was found. */
  function SessionParamsFor(pkg: CoinPackage, origin: Option<string>, userId: Option<string>,
                            userEmail: Option<string>, customerId: Option<string>): (p: SessionParams)
    ensures p.customer == customerId
    // the email goes along only when no customer was found
    ensures Truthy(p.customer) ==> p.customerEmail.None?
    ensures !Truthy(p.customer) ==> p.customerEmail == userEmail
    ensures p.price == pkg.priceId && p.quantity == 1 && p.mode == "payment"
    ensures p.metadata.userId == userId && AllDigits(p.metadata.coins) && ParseNat(p.metadata.coins) == pkg.coins
  {
    ParseNatToString(pkg.coins);
    SessionParams(
      customerId,
      if Truthy(customerId) then None else userEmail,
      pkg.priceId,
      1,
      "payment",
      SuccessUrl(origin, pkg.coins, userId),
      CancelUrl(origin),
      Metadata(userId, NatToString(pkg.coins)))
  }

  function Failed(lookup: Option<string>, session: Option<SessionParams>, message: string): Exchange {
    Exchange(lookup, session, Response(500, CorsJson, ErrorBody(message)))
  }

  /**
   * The handler. `customers` is the provider's answer to the customer lookup (the first customer's
   * id, if any); `created` its answer to the session request (the session's URL). Each is its
   * error message when the call throws.
   */
  function Serve(req: Request, customers: Result<Option<string>, string>, created: Result<Option<string>, string>)
    : (x: Exchange)
    // a preflight request is answered at once
    ensures req.httpMethod == "OPTIONS" ==> x == Exchange(None, None, Response(200, Cors, NoBody))
    ensures req.httpMethod != "OPTIONS" && req.body.Unparseable? ==> x == Failed(None, None, req.body.message)
    // an unknown or missing package fails before the provider is called
    ensures req.httpMethod != "OPTIONS" && req.body.Body? && LookupPackage(req.body.packageId).None? ==>
              x == Failed(None, None, "Invalid package selected")
    // the customer lookup happens exactly for a valid package and a non-empty email
    ensures x.customerLookup.Some? <==>
              req.httpMethod != "OPTIONS" && req.body.Body? && LookupPackage(req.body.packageId).Some?
              && Truthy(req.body.userEmail)
    ensures x.customerLookup.Some? ==> x.customerLookup == req.body.userEmail
    // a session is requested for the chosen package, with the found customer if any
    ensures x.session.Some? ==>
              && req.body.Body? && LookupPackage(req.body.packageId).Some?
              && (Truthy(req.body.userEmail) ==> customers.Ok?)
              && var b := req.body;
                 var customerId := if Truthy(b.userEmail) then customers.value else None;
                 x.session.value == SessionParamsFor(LookupPackage(b.packageId).value, req.origin, b.userId, b.userEmail, customerId)
    // a valid package with a usable customer answer always reaches the session request
    ensures (&& req.httpMethod != "OPTIONS" && req.body.Body? && LookupPackage(req.body.packageId).Some?
             && (Truthy(req.body.userEmail) ==> customers.Ok?))
            ==> x.session.Some?
    // a failed provider call answers with that call's message
    ensures (&& req.httpMethod != "OPTIONS" && req.body.Body? && LookupPackage(req.body.packageId).Some?
             && Truthy(req.body.userEmail) && customers.Err?)
            ==> x == Failed(req.body.userEmail, None, customers.error)
    ensures x.session.Some? && created.Err? ==> x.response == Response(500, CorsJson, ErrorBody(created.error))
    // success is a 200 with the session URL; every failure is a 500 with the error's message
    ensures x.response.status == 200 && req.httpMethod != "OPTIONS" <==> x.session.Some? && created.Ok?
    ensures x.response.status == 200 && req.httpMethod != "OPTIONS" ==>
              x.response == Response(200, CorsJson, UrlBody(created.value))
    ensures x.response.status != 200 ==> x.response.status == 500 && x.response.body.ErrorBody?
  {
    if req.httpMethod == "OPTIONS" then Exchange(None, None, Response(200, Cors, NoBody))
    else match req.body
      case Unparseable(message) => Failed(None, None, message)
      case Body(packageId, userId, userEmail) =>
        if !Truthy(packageId) || LookupPackage(packageId).None? then Failed(None, None, "Invalid package selected")
        else
          var pkg := LookupPackage(packageId).value;
          var lookup := if Truthy(userEmail) then userEmail else None;
          var found := if Truthy(userEmail) then customers else Ok(None);
          match found
          case Err(message) => Failed(lookup, None, message)
          case Ok(customerId) =>
            var params := SessionParamsFor(pkg, req.origin, userId, userEmail, customerId);
            match created
            case Err(message) => Failed(lookup, Some(params), message)
            case Ok(url) => Exchange(lookup, Some(params), Response(200, CorsJson, UrlBody(url)))
  }

  /**
   * For a valid package the session the handler asks for returns to the store with that package's
   * coin count and the user id, and its metadata carries the same count as text.
   */
  lemma CheckoutCarriesPackage(req: Request, customers: Result<Option<string>, string>,
                               created: Result<Option<string>, string>)
    requires req.httpMethod != "OPTIONS" && req.body.Body? && LookupPackage(req.body.packageId).Some?
    requires Truthy(req.body.userEmail) ==> customers.Ok?
    requires '?' !in OriginText(req.origin) && '&' !in TemplateText(req.body.userId, "undefined")
    ensures var x := Serve(req, customers, created);
            var coins := LookupPackage(req.body.packageId).value.coins;
            && x.session.Some?
            && QueryParam(x.session.value.successUrl, "coins") == Some(NatToString(coins))
            && QueryParam(x.session.value.successUrl, "userId") == Some(TemplateText(req.body.userId, "undefined"))
            && QueryParam(x.session.value.cancelUrl, "canceled") == Some("true")
            && ParseNat(x.session.value.metadata.coins) == coins
  {
    var b := req.body;
    var pkg := LookupPackage(b.packageId).value;
    SuccessUrlCarriesPurchase(req.origin, pkg.coins, b.userId);
    CancelUrlCarriesCancel(req.origin);
  }
}
