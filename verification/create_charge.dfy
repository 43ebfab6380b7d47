/**
 * `POST /api/coinbase/create-charge`: turns a package choice into a Coinbase
 * Commerce charge.  The package table is fixed; the request is checked for a
 * package, then a user id, then the server's API key, and only then is the
 * charge payload built and sent.  The payload's metadata carries the user id
 * and the package's credit count as a decimal string, which the webhook
 * parses back when the charge is confirmed.
 *
 * The request body, the environment variables and the outbound call are
 * parameters: `body` is `None` when `request.json()` throws or yields
 * `null`, and `api(payload)` is Coinbase's answer to the payload.
 */
module CreateCharge {
  import opened Wrappers
  import opened JsText
  import opened Ledger
  import CoinbaseWebhook

  datatype Package = Package(name: string, price: string, credits: nat)

  const StarterPack := Package("Starter Pack", "1.00", 100)
  const ProPack := Package("Pro Pack", "5.00", 600)
  const BusinessPack := Package("Business Pack", "20.00", 3000)

  /** The table's own keys. */
  const PackageIds: set<string> := {"starter", "pro", "business"}

  /**
   * The members every plain object inherits from `Object.prototype`: looking
   * one of them up in the table yields a truthy function or object.
   */
  const InheritedKeys: set<string> := {
    "constructor", "__proto__", "toString", "toLocaleString", "valueOf", "hasOwnProperty",
    "isPrototypeOf", "propertyIsEnumerable", "__defineGetter__", "__defineSetter__",
    "__lookupGetter__", "__lookupSetter__"}

  /** `PACKAGES[packageId]` for an absent `packageId` looks up the key "undefined". */
  function KeyOf(packageId: Option<string>): (key: string)
    ensures packageId.Some? ==> key == packageId.value
    // an absent package id is neither an own package nor an inherited member
    ensures packageId.None? ==> key !in PackageIds && key !in InheritedKeys
  {
    if packageId.Some? then packageId.value else "undefined"
  }

  /** The package table, own keys only: the lookup the handler means to make. */
  function LookupPackage(key: string): (p: Option<Package>)
    ensures p.Some? <==> key in PackageIds
    ensures p.Some? ==> p.value.credits > 0
    ensures key == "starter" ==> p == Some(StarterPack)
    ensures key == "pro" ==> p == Some(ProPack)
    ensures key == "business" ==> p == Some(BusinessPack)
  {
    if key == "starter" then Some(StarterPack)
    else if key == "pro" then Some(ProPack)
    else if key == "business" then Some(BusinessPack)
    else None
  }

  /** What `PACKAGES[key]` yields as written: an own package, an inherited member, or `undefined`. */
  datatype Member = OwnPackage(pkg: Package) | InheritedMember | NoMember

  function LookupAsWritten(key: string): (m: Member)
    ensures m.OwnPackage? <==> LookupPackage(key).Some?
    ensures m.OwnPackage? ==> m.pkg == LookupPackage(key).value
    ensures m.InheritedMember? <==> key in InheritedKeys
  {
    match LookupPackage(key)
    case Some(pkg) => OwnPackage(pkg)
    case None => if key in InheritedKeys then InheritedMember else NoMember
  }

  datatype ChargeRequest = ChargeRequest(packageId: Option<string>, userId: Option<string>)

  datatype Price = Price(amount: string, currency: string)

  datatype ChargeMetadata = ChargeMetadata(userId: string, credits: string, packageId: string)

  datatype Payload = Payload(
    name: string,
    description: string,
    pricingType: string,
    localPrice: Price,
    metadata: ChargeMetadata,
    redirectUrl: string,
    cancelUrl: string)

  /** Coinbase's reply: the call fails, or a status and a body that may not be JSON. */
  datatype Reply = Unreachable | Reply(ok: bool, body: Option<ReplyBody>)

  /** The parsed reply: `data` missing, or `data.hosted_url` (possibly absent). */
  datatype ReplyBody = NoChargeData | ChargeData(hostedUrl: Option<string>)

  datatype Response =
    | InvalidPackage              // 400
    | MissingUserId               // 400
    | MissingApiKey               // 500, no outbound call
    | ChargeFailed                // 500: Coinbase answered with an error status
    | InternalError               // 500: a throw inside the handler
    | HostedCheckout(url: Option<string>)  // 200 { url }; an absent url is left out of the JSON

  const DefaultAppUrl := "https://runads.onrender.com"

  /** `process.env.NEXT_PUBLIC_APP_URL || 'https://runads.onrender.com'`. */
  function AppBase(appUrl: Option<string>): (base: string)
    ensures Truthy(appUrl) ==> base == appUrl.value
    ensures !Truthy(appUrl) ==> base == DefaultAppUrl
  {
    if Truthy(appUrl) then appUrl.value else DefaultAppUrl
  }

  /** The charge sent for a package. */
  function BuildPayload(pkg: Package, packageId: string, userId: string, appUrl: Option<string>): (p: Payload)
    ensures p.localPrice == Price(pkg.price, "USD")
    ensures p.metadata.userId == userId && p.metadata.packageId == packageId
    // the credit count travels as a decimal string that parses back to itself
    ensures CoinbaseWebhook.CreditsOf(Some(CoinbaseWebhook.Metadata(Some(userId), Some(p.metadata.credits)))) == Some(pkg.credits)
    ensures StartsWith(p.redirectUrl, AppBase(appUrl)) && StartsWith(p.cancelUrl, AppBase(appUrl))
  {
    var credits := DecimalString(pkg.credits);
    ParseIntOfDecimal(pkg.credits);
    Payload(
      "RunAds - " + pkg.name,
      credits + " Ad Credits",
      "fixed_price",
      Price(pkg.price, "USD"),
      ChargeMetadata(userId, credits, packageId),
      AppBase(appUrl) + "/dashboard",
      AppBase(appUrl) + "/dashboard/credits")
  }

  /** The answer once the payload has been sent. */
  function Answer(reply: Reply): (r: Response)
    ensures r.HostedCheckout? <==>
      reply.Reply? && reply.ok && reply.body.Some? && reply.body.value.ChargeData?
    ensures r.HostedCheckout? ==> r.url == reply.body.value.hostedUrl
    // an error status is only seen once the body has parsed
    ensures r == ChargeFailed <==> reply.Reply? && !reply.ok && reply.body.Some?
    ensures r.HostedCheckout? || r == ChargeFailed || r == InternalError
  {
    match reply
    case Unreachable => InternalError        // `fetch` rejects
    case Reply(ok, body) =>
      if body.None? then InternalError       // `response.json()` throws, before `ok` is looked at
      else if !ok then ChargeFailed
      else match body.value
        case NoChargeData => InternalError   // `data.data.hosted_url` on an absent `data`
        case ChargeData(url) => HostedCheckout(url)
  }

  /**
   * The handler with the lookup corrected to own keys: the response and the
   * payload sent out, if any.
   */
  function Post(body: Option<ChargeRequest>, apiKey: Option<string>, appUrl: Option<string>,
                api: Payload -> Reply): (r: (Response, Option<Payload>))
    ensures body.None? ==> r == (InternalError, None)
    // package first, then the user id, then the API key; no call unless all three pass
    ensures r.0 == InvalidPackage <==> body.Some? && KeyOf(body.value.packageId) !in PackageIds
    ensures r.0 == MissingUserId <==>
      body.Some? && KeyOf(body.value.packageId) in PackageIds && !Truthy(body.value.userId)
    ensures r.0 == MissingApiKey <==>
      body.Some? && KeyOf(body.value.packageId) in PackageIds && Truthy(body.value.userId) && !Truthy(apiKey)
    ensures r.1.Some? <==>
      body.Some? && KeyOf(body.value.packageId) in PackageIds && Truthy(body.value.userId) && Truthy(apiKey)
    // the payload carries the package's price and credits and the caller's ids
    ensures r.1.Some? ==>
      var pkg := LookupPackage(body.value.packageId.value).value;
      && r.1.value.localPrice == Price(pkg.price, "USD")
      && r.1.value.metadata.userId == body.value.userId.value
      && r.1.value.metadata.packageId == body.value.packageId.value
      && ParseInt(r.1.value.metadata.credits) == Some(pkg.credits)
      && r.0 == Answer(api(r.1.value))
    ensures r.0.HostedCheckout? ==> r.1.Some? && api(r.1.value).Reply? && api(r.1.value).ok
  {
    match body
    case None => (InternalError, None)
    case Some(request) =>
      match LookupPackage(KeyOf(request.packageId))
      case None => (InvalidPackage, None)
      case Some(pkg) =>
        if !Truthy(request.userId) then (MissingUserId, None)
        else if !Truthy(apiKey) then (MissingApiKey, None)
        else
          var payload := BuildPayload(pkg, request.packageId.value, request.userId.value, appUrl);
          (Answer(api(payload)), Some(payload))
  }

  /**
   * The handler as written: `PACKAGES[packageId]` also finds the inherited
   * members, which pass the package check; `pkg.credits.toString()` then
   * throws on the `undefined` credits, after the user id and API key checks.
   */
  function PostAsWritten(body: Option<ChargeRequest>, apiKey: Option<string>, appUrl: Option<string>,
                         api: Payload -> Reply): (r: (Response, Option<Payload>))
    ensures body.Some? && KeyOf(body.value.packageId) !in InheritedKeys ==>
      r == Post(body, apiKey, appUrl, api)
    ensures body.Some? && KeyOf(body.value.packageId) in InheritedKeys ==>
      && r.1.None?
      && (r.0 == MissingUserId <==> !Truthy(body.value.userId))
      && (r.0 == MissingApiKey <==> Truthy(body.value.userId) && !Truthy(apiKey))
      && (Truthy(body.value.userId) && Truthy(apiKey) ==> r.0 == InternalError)
  {
    match body
    case None => (InternalError, None)
    case Some(request) =>
      match LookupAsWritten(KeyOf(request.packageId))
      case NoMember => (InvalidPackage, None)
      case InheritedMember =>
        if !Truthy(request.userId) then (MissingUserId, None)
        else if !Truthy(apiKey) then (MissingApiKey, None)
        else (InternalError, None)
      case OwnPackage(pkg) =>
        if !Truthy(request.userId) then (MissingUserId, None)
        else if !Truthy(apiKey) then (MissingApiKey, None)
        else
          var payload := BuildPayload(pkg, request.packageId.value, request.userId.value, appUrl);
          (Answer(api(payload)), Some(payload))
  }

  /** The discrepancy: a request for package "toString" gets 500 instead of "Invalid Package". */
  lemma InheritedKeyIsServerError(api: Payload -> Reply)
    ensures var body := Some(ChargeRequest(Some("toString"), Some("user-1")));
      && PostAsWritten(body, Some("key"), None, api).0 == InternalError
      && Post(body, Some("key"), None, api).0 == InvalidPackage
  {
    var body := Some(ChargeRequest(Some("toString"), Some("user-1")));
    assert KeyOf(body.value.packageId) in InheritedKeys;
    assert KeyOf(body.value.packageId) !in PackageIds;
  }

  /**
   * Round trip with the webhook: once the charge for a package is confirmed,
   * carrying the metadata the payload was built with, the buyer's balance
   * grows by exactly the package's credits.
   */
  lemma {:induction false} ConfirmedChargeCreditsPackage(
    db: Db, request: ChargeRequest, apiKey: Option<string>, appUrl: Option<string>, api: Payload -> Reply,
    secret: Option<string>, signature: Option<string>, rawBody: string,
    hmacHex: (string, string) -> string, parseJson: string -> Option<CoinbaseWebhook.Event>)
    requires Post(Some(request), apiKey, appUrl, api).1.Some?
    requires request.userId.value in db.users
    requires CoinbaseWebhook.Authentic(secret, signature, rawBody, hmacHex)
    requires var payload := Post(Some(request), apiKey, appUrl, api).1.value;
      parseJson(rawBody) == Some(CoinbaseWebhook.Event(
        Some(CoinbaseWebhook.ConfirmedType),
        Some(CoinbaseWebhook.ChargeData(Some(CoinbaseWebhook.Metadata(
          Some(payload.metadata.userId), Some(payload.metadata.credits)))))))
    ensures var pkg := LookupPackage(request.packageId.value).value;
      var (db', response) := CoinbaseWebhook.Handle(db, secret, signature, rawBody, hmacHex, parseJson);
      && response == CoinbaseWebhook.Received
      && Credits(db', request.userId.value) == Credits(db, request.userId.value) + pkg.credits
  {
    var pkg := LookupPackage(request.packageId.value).value;
    var payload := Post(Some(request), apiKey, appUrl, api).1.value;
    var data := parseJson(rawBody).value.data.value;
    assert CoinbaseWebhook.Grant(data) == Some((request.userId.value, pkg.credits));
  }
}
