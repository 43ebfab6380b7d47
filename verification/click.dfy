/**
 * `GET /api/click?id=<publisher site>&target=<advertiser site>`: the click
 * settlement.  Inside one transaction, when the advertiser's owner has a
 * positive balance, one credit moves from that owner to the publisher's
 * owner and the publisher site's `clicks` grows by one.  The visitor is
 * redirected to the advertiser's domain whether or not a credit moved; when
 * the redirect target is not a URL `new URL` accepts, the redirect throws
 * after the transaction has committed and the answer is 500.
 */
module Click {
  import opened Wrappers
  import opened JsText
  import opened Ledger
  import Websites

  datatype Response =
    | MissingParameters        // 400
    | DemoRedirect             // redirect to "/" for the demo widget
    | SiteNotFound             // 404
    | Redirect(url: string)    // redirect to the advertiser
    | InternalError            // 500

  /** The redirect target: the advertiser's domain, given a protocol when it has none. */
  function RedirectUrl(domain: string): (url: string)
    ensures StartsWith(url, "http")
    ensures url == domain <==> StartsWith(domain, "http")
    ensures url != domain ==> url == "https://" + domain
  {
    if StartsWith(domain, "http") then domain else "https://" + domain
  }

  /**
   * The three increments of the transaction, applied in the source's order:
   * one credit from the payer to the payee and one click for the publisher
   * site; paying oneself leaves the balance as it was.
   */
  function Transfer(db: Db, payer: string, payee: string, sourceId: string): (r: Db)
    requires payer in db.users && sourceId in db.sites
    requires payee in db.users[payer := db.users[payer].(credits := db.users[payer].credits - 1)]
    ensures payer != payee ==>
      Credits(r, payer) == Credits(db, payer) - 1 && Credits(r, payee) == Credits(db, payee) + 1
    ensures payer == payee ==> Credits(r, payer) == Credits(db, payer)
    ensures forall u :: u != payer && u != payee ==>
      (u in r.users <==> u in db.users) && (u in db.users ==> r.users[u] == db.users[u])
    ensures r.users.Keys == db.users.Keys
    ensures r.sites == db.sites[sourceId := db.sites[sourceId].(clicks := db.sites[sourceId].clicks + 1)]
    ensures r.(users := db.users, sites := db.sites) == db
  {
    var users1 := db.users[payer := db.users[payer].(credits := db.users[payer].credits - 1)];
    var users2 := users1[payee := users1[payee].(credits := users1[payee].credits + 1)];
    db.(users := users2,
        sites := db.sites[sourceId := db.sites[sourceId].(clicks := db.sites[sourceId].clicks + 1)])
  }

  /**
   * The transaction for a click between two known websites, and the
   * redirect that follows it.  A transaction whose update hits a missing
   * user document does not commit and the handler answers 500.  A
   * committed transaction stays committed when `NextResponse.redirect`
   * then throws on a target `new URL` does not parse, and the answer is 500.
   */
  function Pay(db: Db, sourceId: string, targetId: string): (r: (Db, Response))
    requires sourceId in db.sites && targetId in db.sites
    ensures r.1.Redirect? || r.1 == InternalError
    ensures r.1.Redirect? ==>
      r.1.url == RedirectUrl(db.sites[targetId].domain) && Websites.Hostname(r.1.url).Some?
    ensures
      var payer, payee := db.sites[targetId].owner, db.sites[sourceId].owner;
      // 500: the transaction aborts for want of a payee document, or the target is no URL
      && (r.1 == InternalError <==>
            (Credits(db, payer) > 0 && payee !in db.users)
            || Websites.Hostname(RedirectUrl(db.sites[targetId].domain)).None?)
      // no credit, or an aborted transaction: nothing at all changes, not even `clicks`
      && (Credits(db, payer) <= 0 || payee !in db.users ==> r.0 == db)
      // a committed transfer stands whatever the response
      && (Credits(db, payer) > 0 && payee in db.users ==> r.0 == Transfer(db, payer, payee, sourceId))
      // a credit: the payer loses one, the payee gains one, the publisher site gets one click
      && (Credits(db, payer) > 0 && payee in db.users ==>
            && payee in r.0.users
            && (payer != payee ==>
                  && Credits(r.0, payer) == Credits(db, payer) - 1
                  && Credits(r.0, payee) == Credits(db, payee) + 1)
            && (payer == payee ==> Credits(r.0, payer) == Credits(db, payer))
            && r.0.sites == db.sites[sourceId := db.sites[sourceId].(clicks := db.sites[sourceId].clicks + 1)])
      // the sum of the two balances is conserved and a non-negative payer stays non-negative
      && Credits(r.0, payer) + Credits(r.0, payee) == Credits(db, payer) + Credits(db, payee)
      && (Credits(db, payer) >= 0 ==> Credits(r.0, payer) >= 0)
      // every other user, and every collection other than users and websites, is untouched
      && (forall u :: u != payer && u != payee ==>
            (u in r.0.users <==> u in db.users) && (u in db.users ==> r.0.users[u] == db.users[u]))
      && r.0.users.Keys == db.users.Keys
      && r.0.sites.Keys == db.sites.Keys
      && r.0.(users := db.users, sites := db.sites) == db
    ensures NonNegativeBalances(db) ==> NonNegativeBalances(r.0)
  {
    var payer, payee := db.sites[targetId].owner, db.sites[sourceId].owner;
    var url := RedirectUrl(db.sites[targetId].domain);
    var response := if Websites.Hostname(url).Some? then Redirect(url) else InternalError;
    if Credits(db, payer) <= 0 then (db, response)
    else if payee !in db.users then (db, InternalError)
    else (Transfer(db, payer, payee, sourceId), response)
  }

  /**
   * The handler as a function of the store: the new store and the response.
   * Missing parameters, the demo ids and unknown websites are answered
   * before the transaction, with nothing changed.
   */
  function Settle(db: Db, id: Option<string>, target: Option<string>): (r: (Db, Response))
    ensures r.1 == MissingParameters <==> !Truthy(id) || !Truthy(target)
    ensures r.1 == DemoRedirect <==>
      Truthy(id) && Truthy(target) && (id.value == "DEMO" || target.value == "RUNADS_OFFICIAL")
    ensures r.1 == SiteNotFound <==>
      && Truthy(id) && Truthy(target) && id.value != "DEMO" && target.value != "RUNADS_OFFICIAL"
      && (id.value !in db.sites || target.value !in db.sites)
    // Only a redirect to the advertiser can come with a change of the store.
    ensures !r.1.Redirect? && r.1 != InternalError ==> r.0 == db
    ensures r.1.Redirect? || r.1 == InternalError ==>
      && Truthy(id) && Truthy(target) && id.value in db.sites && target.value in db.sites
      && r == Pay(db, id.value, target.value)
    ensures NonNegativeBalances(db) ==> NonNegativeBalances(r.0)
  {
    if !Truthy(id) || !Truthy(target) then (db, MissingParameters)
    else if id.value == "DEMO" || target.value == "RUNADS_OFFICIAL" then (db, DemoRedirect)
    else if id.value !in db.sites || target.value !in db.sites then (db, SiteNotFound)
    else Pay(db, id.value, target.value)
  }

  /** The route handler, step by step against the store. */
  method Get(store: Store, id: Option<string>, target: Option<string>) returns (response: Response)
    modifies store
    ensures (store.State(), response) == Settle(old(store.State()), id, target)
  {
    if !Truthy(id) || !Truthy(target) {
      return MissingParameters;
    }
    if id.value == "DEMO" || target.value == "RUNADS_OFFICIAL" {
      return DemoRedirect;
    }
    var sourceSiteId, targetSiteId := id.value, target.value;
    if sourceSiteId !in store.sites || targetSiteId !in store.sites {
      return SiteNotFound;
    }
    response := RunTransaction(store, sourceSiteId, targetSiteId);
  }

  /** The transaction: writes are buffered and committed together, then the redirect. */
  method RunTransaction(store: Store, sourceSiteId: string, targetSiteId: string) returns (response: Response)
    requires sourceSiteId in store.sites && targetSiteId in store.sites
    modifies store
    ensures (store.State(), response) == Pay(old(store.State()), sourceSiteId, targetSiteId)
  {
    var sourceData, targetData := store.sites[sourceSiteId], store.sites[targetSiteId];
    var targetUser := targetData.owner;
    var targetBalance := if targetUser in store.users then store.users[targetUser].credits else 0;
    if targetBalance > 0 {
      var users := store.users;
      users := users[targetUser := users[targetUser].(credits := users[targetUser].credits - 1)];
      var sourceUser := sourceData.owner;
      if sourceUser !in users {
        return InternalError;
      }
      users := users[sourceUser := users[sourceUser].(credits := users[sourceUser].credits + 1)];
      store.users := users;
      store.sites := store.sites[sourceSiteId := sourceData.(clicks := sourceData.clicks + 1)];
    }
    var url := RedirectUrl(targetData.domain);
    if Websites.Hostname(url).None? {
      return InternalError;  // `NextResponse.redirect` throws: "URL is malformed"
    }
    response := Redirect(url);
  }

  /** The demo widget's ad (publisher "DEMO", ad "RUNADS") never settles a click. */
  lemma DemoClickNeverSettles(db: Db, target: string)
    requires target != ""
    ensures Settle(db, Some("DEMO"), Some(target)) == (db, DemoRedirect)
  {
  }

  /**
   * A stored domain that starts with "http" but carries no scheme is not
   * given one: the credit moves and the click is counted, then the redirect
   * throws and the visitor gets 500.
   */
  lemma SchemelessDomainPaysAndFails(db: Db, sourceId: string, targetId: string)
    requires sourceId in db.sites && targetId in db.sites
    requires Websites.IsPlainHost(db.sites[targetId].domain) && StartsWith(db.sites[targetId].domain, "http")
    requires Credits(db, db.sites[targetId].owner) > 0 && db.sites[sourceId].owner in db.users
    ensures Pay(db, sourceId, targetId)
      == (Transfer(db, db.sites[targetId].owner, db.sites[sourceId].owner, sourceId), InternalError)
  {
    Websites.HostAloneIsNoUrl(db.sites[targetId].domain);
  }

  /**
   * Registering "https://" + h stores the plain host h itself (without a
   * leading "www."), so a stored domain can start with "http" and carry no
   * scheme: "https://httpbin.org" stores "httpbin.org".
   */
  lemma SchemedHostIsStored(h: string)
    requires Websites.IsPlainHost(h) && !StartsWith(h, "www.")
    ensures Websites.CleanDomain("https://" + h) == Some(h)
  {
    var written := "https://" + h;
    assert forall i :: 0 <= i < |written| ==> !IsUpperAscii(written[i]) by {
      forall i | 0 <= i < |written| ensures !IsUpperAscii(written[i]) {
        if i >= 8 { assert written[i] == h[i - 8] && Websites.IsHostChar(h[i - 8]); }
      }
    }
    Websites.LowerUnchanged(written);
    assert [] + written + [] == "https://" + h + [];
    Websites.CleanSpelling([], written, [], "https://", h, []);
  }

  /** "httpbin.org" is such a host: `SchemedHostIsStored` applies to it. */
  lemma HttpbinIsStored()
    ensures Websites.IsPlainHost("httpbin.org") && StartsWith("httpbin.org", "http")
    ensures !StartsWith("httpbin.org", "www.")
  {
    var h := "httpbin.org";
    assert h[..4][0] == 'h';
  }

  /** The redirect target the "Ensure protocol" step means: `https://` unless an http(s) scheme is present. */
  function SchemedRedirectUrl(domain: string): (url: string)
    ensures StartsWith(url, "http://") || StartsWith(url, "https://")
    ensures url == domain <==> StartsWith(domain, "http://") || StartsWith(domain, "https://")
    ensures url != domain ==> url == "https://" + domain
  {
    if StartsWith(domain, "http://") || StartsWith(domain, "https://") then domain
    else
      assert ("https://" + domain)[..8] == "https://";
      "https://" + domain
  }

  /** With the corrected target, every plain host a website holds is a URL whose host is that domain. */
  lemma SchemedRedirectParses(domain: string)
    requires Websites.IsPlainHost(domain)
    ensures Websites.Hostname(SchemedRedirectUrl(domain)) == Some(domain)
  {
    PlainHostGetsScheme(domain);
    Websites.HostnameOfHttpsHost(domain);
  }

  /** A plain host has no `:`, so the corrected step always prefixes `https://`. */
  lemma PlainHostGetsScheme(domain: string)
    requires Websites.IsPlainHost(domain)
    ensures SchemedRedirectUrl(domain) == "https://" + domain
  {
    assert |domain| >= 7 ==> Websites.IsHostChar(domain[4]) && domain[..7][4] == domain[4];
    assert |domain| >= 8 ==> Websites.IsHostChar(domain[5]) && domain[..8][5] == domain[5];
  }
}
