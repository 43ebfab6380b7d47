/**
 * `POST /api/ad-verify`: a visit token is redeemed once.  A token with a
 * pending-click document is accepted and its document deleted; any other
 * token is refused with nothing changed.  The transaction the route runs in
 * between is empty, so no balance moves here.
 *
 * `token` is the `token` field of the request body, `None` when the body
 * cannot be parsed or has no such field; `doc()` of a missing or empty id
 * throws, which the route does not catch.
 */
module AdVerify {
  import opened Wrappers
  import opened JsText
  import opened Ledger

  datatype Response =
    | Verified       // 200 { success: true }
    | InvalidToken   // 400 "Invalid or Expired Token"
    | ServerError    // 500: the handler throws

  /** The route as a function of the store: the new store and the response. */
  function Verify(db: Db, token: Option<string>): (r: (Db, Response))
    ensures r.1 == ServerError <==> !Truthy(token)
    ensures r.1 == InvalidToken <==> Truthy(token) && token.value !in db.pendingClicks
    ensures r.1 == Verified <==> Truthy(token) && token.value in db.pendingClicks
    // only an accepted token changes the store, and only by losing its pending record
    ensures r.1 != Verified ==> r.0 == db
    ensures r.1 == Verified ==> r.0.pendingClicks == db.pendingClicks - {token.value}
    ensures r.0.(pendingClicks := db.pendingClicks) == db
    ensures r.0.pendingClicks <= db.pendingClicks
  {
    if !Truthy(token) then (db, ServerError)
    else if token.value !in db.pendingClicks then (db, InvalidToken)
    else (db.(pendingClicks := db.pendingClicks - {token.value}), Verified)
  }

  /** A token is good for one visit: the same request again is refused and changes nothing more. */
  lemma {:induction false} TokenIsSingleUse(db: Db, token: Option<string>)
    requires Verify(db, token).1 == Verified
    ensures var once := Verify(db, token).0;
      Verify(once, token) == (once, InvalidToken)
  {
    var once := Verify(db, token).0;
    assert token.value !in once.pendingClicks;
  }

  /** Verifying moves no credits: every balance is the same afterwards. */
  lemma NoBalanceChanges(db: Db, token: Option<string>, uid: string)
    ensures Credits(Verify(db, token).0, uid) == Credits(db, uid)
  {
  }

  /** The route handler against the store. */
  method Post(store: Store, token: Option<string>) returns (response: Response)
    modifies store
    ensures (store.State(), response) == Verify(old(store.State()), token)
  {
    if !Truthy(token) {
      return ServerError;
    }
    var found := token.value in store.pendingClicks;
    if !found {
      return InvalidToken;
    }
    store.pendingClicks := store.pendingClicks - {token.value};
    return Verified;
  }
}
