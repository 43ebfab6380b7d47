/**
 * `POST /api/webhook/coinbase`: the payment notification.  The raw body must
 * carry the hex HMAC-SHA256 of itself, keyed with the webhook secret, in the
 * `x-cc-webhook-signature` header.  Only a `charge:confirmed` event moves
 * credits: `parseInt(metadata.credits)` is added to the balance of
 * `metadata.userId`.  Balances only ever grow here, and the same event
 * delivered twice is credited twice.
 *
 * HMAC-SHA256 and `JSON.parse` are parameters: `hmacHex(key, message)` is the
 * hex digest and `parseJson(body)` is the parsed event, `None` when parsing
 * throws or the body is `null` (destructuring `null` throws as well).
 */
module CoinbaseWebhook {
  import opened Wrappers
  import opened JsText
  import opened Ledger

  /** `data.metadata`: the fields the charge was created with, as strings. */
  datatype Metadata = Metadata(userId: Option<string>, credits: Option<string>)

  datatype ChargeData = ChargeData(metadata: Option<Metadata>)

  /** `{ type, data }` of the parsed body; an absent field is `None`. */
  datatype Event = Event(eventType: Option<string>, data: Option<ChargeData>)

  datatype Response =
    | ConfigurationError   // 500: no secret or no signature header
    | InvalidSignature     // 401
    | Received             // 200 { success: true }
    | WebhookFailed        // 500: a throw inside the handler

  const ConfirmedType := "charge:confirmed"

  /** `metadata?.userId`. */
  function UserIdOf(metadata: Option<Metadata>): Option<string> {
    if metadata.Some? then metadata.value.userId else None
  }

  /** `parseInt(metadata?.credits || '0')`, with `None` for NaN; the fallback `parseInt('0')` is 0. */
  function CreditsOf(metadata: Option<Metadata>): (r: Option<int>)
    ensures metadata.None? || !Truthy(metadata.value.credits) ==> r == Some(0)
    ensures r.None? <==>
      metadata.Some? && Truthy(metadata.value.credits) && !HasLeadingDigit(metadata.value.credits.value)
  {
    if metadata.Some? && Truthy(metadata.value.credits) then ParseInt(metadata.value.credits.value)
    else Some(0)
  }

  /** The amount is `parseInt` of the credits field, or of the fallback '0' when it is missing or empty. */
  lemma CreditsOfIsParseInt(metadata: Option<Metadata>)
    ensures CreditsOf(metadata)
      == ParseInt(if metadata.Some? && Truthy(metadata.value.credits) then metadata.value.credits.value else "0")
  {
    ParseIntOfZero();
  }

  /**
   * The credit a confirmed charge asks for: a non-empty user id and a
   * positive parsed amount, or nothing to do.
   */
  function Grant(data: ChargeData): (g: Option<(string, int)>)
    ensures g.Some? <==>
      Truthy(UserIdOf(data.metadata)) && CreditsOf(data.metadata).Some? && CreditsOf(data.metadata).value > 0
    ensures g.Some? ==> g.value.0 != [] && g.value.1 > 0
    // a confirmed charge without metadata, or without a credits field, grants nothing
    ensures data.metadata.None? || !Truthy(data.metadata.value.credits) ==> g.None?
    ensures g.Some? ==>
      g.value.0 == data.metadata.value.userId.value && Some(g.value.1) == ParseInt(data.metadata.value.credits.value)
  {
    var userId, credits := UserIdOf(data.metadata), CreditsOf(data.metadata);
    if Truthy(userId) && credits.Some? && credits.value > 0 then Some((userId.value, credits.value))
    else None
  }

  /** The signature gate: both values present and the header equal to the digest of the body. */
  predicate Authentic(secret: Option<string>, signature: Option<string>, rawBody: string,
                      hmacHex: (string, string) -> string)
  {
    Truthy(secret) && Truthy(signature) && signature.value == hmacHex(secret.value, rawBody)
  }

  /**
   * A confirmed charge's data applied to the store: nothing to grant is
   * acknowledged, a grant to a missing user fails (`update` of a missing
   * document throws), otherwise exactly that user gains exactly that amount.
   */
  function Credit(db: Db, data: ChargeData): (r: (Db, Response))
    ensures var grant := Grant(data);
      && (grant.None? ==> r == (db, Received))
      && (grant.Some? && grant.value.0 !in db.users ==> r == (db, WebhookFailed))
      && (grant.Some? && grant.value.0 in db.users ==>
            && r.1 == Received
            && r.0.users == db.users[grant.value.0 := db.users[grant.value.0].(credits := db.users[grant.value.0].credits + grant.value.1)]
            && Credits(r.0, grant.value.0) == Credits(db, grant.value.0) + grant.value.1)
    ensures r.0 != db ==> r.1 == Received && Grant(data).Some?
    ensures r.0.users.Keys == db.users.Keys
    ensures forall u :: u in db.users ==> r.0.users[u].credits >= db.users[u].credits
    ensures forall u :: u in db.users && r.0.users[u].credits == db.users[u].credits ==> r.0.users[u] == db.users[u]
    ensures r.0.(users := db.users) == db
    ensures NonNegativeBalances(db) ==> NonNegativeBalances(r.0)
  {
    match Grant(data)
    case None => (db, Received)
    case Some((userId, credits)) =>
      if userId !in db.users then (db, WebhookFailed)
      else
        var u := db.users[userId];
        (db.(users := db.users[userId := u.(credits := u.credits + credits)]), Received)
  }

  /** The handler as a function of the store: the new store and the response. */
  function Handle(db: Db, secret: Option<string>, signature: Option<string>, rawBody: string,
                  hmacHex: (string, string) -> string, parseJson: string -> Option<Event>): (r: (Db, Response))
    ensures r.1 == ConfigurationError <==> !Truthy(secret) || !Truthy(signature)
    ensures r.1 == InvalidSignature <==>
      Truthy(secret) && Truthy(signature) && signature.value != hmacHex(secret.value, rawBody)
    // nothing is credited without a verified signature on a parsed `charge:confirmed` event
    ensures r.0 != db ==>
      && r.1 == Received
      && Authentic(secret, signature, rawBody, hmacHex)
      && parseJson(rawBody).Some?
      && parseJson(rawBody).value.eventType == Some(ConfirmedType)
      && parseJson(rawBody).value.data.Some?
      && Grant(parseJson(rawBody).value.data.value).Some?
    // other event types are acknowledged and change nothing
    ensures (Authentic(secret, signature, rawBody, hmacHex) && parseJson(rawBody).Some? &&
             parseJson(rawBody).value.eventType != Some(ConfirmedType)) ==> r == (db, Received)
    // a confirmed charge credits exactly the granted amount to exactly that user
    ensures (Authentic(secret, signature, rawBody, hmacHex) && parseJson(rawBody).Some? &&
             parseJson(rawBody).value.eventType == Some(ConfirmedType) && parseJson(rawBody).value.data.Some?) ==>
      var grant := Grant(parseJson(rawBody).value.data.value);
      && (grant.None? ==> r == (db, Received))
      && (grant.Some? && grant.value.0 !in db.users ==> r == (db, WebhookFailed))
      && (grant.Some? && grant.value.0 in db.users ==>
            && r.1 == Received
            && r.0.users == db.users[grant.value.0 := db.users[grant.value.0].(credits := db.users[grant.value.0].credits + grant.value.1)]
            && Credits(r.0, grant.value.0) == Credits(db, grant.value.0) + grant.value.1)
    // balances never decrease, no user appears or disappears, and only `users` can change
    ensures r.0.users.Keys == db.users.Keys
    ensures forall u :: u in db.users ==> r.0.users[u].credits >= db.users[u].credits
    ensures forall u :: u in db.users && r.0.users[u].credits == db.users[u].credits ==> r.0.users[u] == db.users[u]
    ensures r.0.(users := db.users) == db
    ensures NonNegativeBalances(db) ==> NonNegativeBalances(r.0)
  {
    if !Truthy(secret) || !Truthy(signature) then (db, ConfigurationError)
    else if signature.value != hmacHex(secret.value, rawBody) then (db, InvalidSignature)
    else match parseJson(rawBody)
      case None => (db, WebhookFailed)
      case Some(event) =>
        if event.eventType != Some(ConfirmedType) then (db, Received)
        else match event.data
          case None => (db, WebhookFailed)   // `data.metadata` on an absent `data` throws
          case Some(data) => Credit(db, data)
  }

  /** The route handler against the store. */
  method Post(store: Store, secret: Option<string>, signature: Option<string>, rawBody: string,
              hmacHex: (string, string) -> string, parseJson: string -> Option<Event>)
    returns (response: Response)
    modifies store
    ensures (store.State(), response) == Handle(old(store.State()), secret, signature, rawBody, hmacHex, parseJson)
  {
    if !Truthy(secret) || !Truthy(signature) {
      return ConfigurationError;
    }
    var digest := hmacHex(secret.value, rawBody);
    if signature.value != digest {
      return InvalidSignature;
    }
    var parsed := parseJson(rawBody);
    if parsed.None? {
      return WebhookFailed;
    }
    var event := parsed.value;
    if event.eventType == Some(ConfirmedType) {
      if event.data.None? {
        return WebhookFailed;
      }
      response := ApplyCharge(store, event.data.value);
      return;
    }
    return Received;
  }

  /** The `charge:confirmed` branch against the store. */
  method ApplyCharge(store: Store, data: ChargeData) returns (response: Response)
    modifies store
    ensures (store.State(), response) == Credit(old(store.State()), data)
  {
    var userId := UserIdOf(data.metadata);
    var credits := CreditsOf(data.metadata);
    if Truthy(userId) && credits.Some? && credits.value > 0 {
      assert Grant(data) == Some((userId.value, credits.value));
      if userId.value !in store.users {
        return WebhookFailed;
      }
      var user := store.users[userId.value];
      store.users := store.users[userId.value := user.(credits := user.credits + credits.value)];
    }
    return Received;
  }

  /**
   * There is no record of processed events: a confirmed charge delivered
   * twice credits its amount twice.
   */
  lemma {:induction false} ReplayCreditsTwice(db: Db, secret: Option<string>, signature: Option<string>,
                                              rawBody: string, hmacHex: (string, string) -> string,
                                              parseJson: string -> Option<Event>)
    requires Authentic(secret, signature, rawBody, hmacHex)
    requires parseJson(rawBody).Some? && parseJson(rawBody).value.eventType == Some(ConfirmedType)
    requires parseJson(rawBody).value.data.Some?
    requires var grant := Grant(parseJson(rawBody).value.data.value);
      grant.Some? && grant.value.0 in db.users
    ensures var grant := Grant(parseJson(rawBody).value.data.value);
      var once := Handle(db, secret, signature, rawBody, hmacHex, parseJson).0;
      var twice := Handle(once, secret, signature, rawBody, hmacHex, parseJson).0;
      Credits(twice, grant.value.0) == Credits(db, grant.value.0) + 2 * grant.value.1
  {
    var grant := Grant(parseJson(rawBody).value.data.value);
    var once := Handle(db, secret, signature, rawBody, hmacHex, parseJson).0;
    assert grant.value.0 in once.users;
  }
}
