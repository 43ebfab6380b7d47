/**
 * `GET /api/ad-serve?id=<publisher site>`: ad selection.  The candidate pool
 * is the first 20 active websites of the publisher's category (in document
 * order), minus the publisher itself, minus sites whose owner has no credits;
 * one candidate is drawn at random and the publisher's `views` grows by one.
 */
module AdServe {
  import opened Wrappers
  import opened JsText
  import opened Ledger

  datatype Ad = Ad(id: string, domain: string, category: string)

  datatype Response =
    | MissingId                                   // 400
    | DemoAd(ad: Ad, refreshInterval: int)        // the fixed demo answer
    | InvalidSiteId                               // 404
    | NoAd(refreshInterval: int)                  // `ad: null` with the config
    | Served(ad: Ad, refreshInterval: int)

  const QueryLimit: nat := 20
  const DefaultRefresh: int := 30
  const ErrorRefresh: int := 60
  const Demo: Ad := Ad("RUNADS", "RunAds.com", "DEMO")

  /** The query's filter: `category == c` and `active == true`. */
  predicate Matches(db: Db, id: string, category: string) {
    id in db.sites && db.sites[id].category == category && db.sites[id].active
  }

  /** Every id of `order` that passes the filter, in the order of `order`. */
  function MatchingIds(db: Db, order: seq<string>, category: string): (m: seq<string>)
    ensures forall i :: 0 <= i < |m| ==> Matches(db, m[i], category) && m[i] in order
    ensures forall id :: id in order && Matches(db, id, category) ==> id in m
  {
    if order == [] then []
    else (if Matches(db, order[0], category) then [order[0]] else []) + MatchingIds(db, order[1..], category)
  }

  /** The query with `.limit(n)`: the first `limit` matching ids of `order`. */
  function Query(db: Db, order: seq<string>, category: string, limit: nat): (r: seq<string>)
    ensures |r| <= limit
    ensures forall i :: 0 <= i < |r| ==> Matches(db, r[i], category) && r[i] in order
    ensures |r| < limit ==> forall id :: id in order && Matches(db, id, category) ==> id in r
  {
    if order == [] || limit == 0 then []
    else if Matches(db, order[0], category) then [order[0]] + Query(db, order[1..], category, limit - 1)
    else Query(db, order[1..], category, limit)
  }

  /** The query answers the first `limit` matches of `order`, in that order, and no others. */
  lemma {:induction false} QueryIsFirstMatches(db: Db, order: seq<string>, category: string, limit: nat)
    ensures var m := MatchingIds(db, order, category);
      Query(db, order, category, limit) == m[..if |m| < limit then |m| else limit]
  {
    if order != [] && limit != 0 {
      var rest := MatchingIds(db, order[1..], category);
      if Matches(db, order[0], category) {
        QueryIsFirstMatches(db, order[1..], category, limit - 1);
        var n := if |rest| < limit - 1 then |rest| else limit - 1;
        assert MatchingIds(db, order, category) == [order[0]] + rest;
        assert ([order[0]] + rest)[..n + 1] == [order[0]] + rest[..n];
      } else {
        QueryIsFirstMatches(db, order[1..], category, limit);
        assert MatchingIds(db, order, category) == [] + rest == rest;
      }
    }
  }

  /** The loop's test: not the publisher, and an existing owner with a positive balance. */
  predicate Eligible(db: Db, sourceId: string, id: string) {
    && id != sourceId
    && id in db.sites
    && db.sites[id].owner in db.users
    && db.users[db.sites[id].owner].credits > 0
  }

  /** The eligible ids among `docs`, in their order. */
  function Candidates(db: Db, sourceId: string, docs: seq<string>): (r: seq<string>)
    ensures |r| <= |docs|
    ensures forall i :: 0 <= i < |r| ==> Eligible(db, sourceId, r[i]) && r[i] in docs
    ensures forall id :: id in docs && Eligible(db, sourceId, id) ==> id in r
  {
    if docs == [] then []
    else
      var last := docs[|docs| - 1];
      Candidates(db, sourceId, docs[..|docs| - 1]) + (if Eligible(db, sourceId, last) then [last] else [])
  }

  /**
   * The candidate pool for a publisher: the eligible websites among the
   * first 20 active ones of its category.
   */
  function Pool(db: Db, sourceId: string): (pool: seq<string>)
    requires sourceId in db.sites
    ensures |pool| <= QueryLimit
    ensures forall i :: 0 <= i < |pool| ==>
      Eligible(db, sourceId, pool[i]) && Matches(db, pool[i], db.sites[sourceId].category)
    ensures forall id ::
      (id in Query(db, db.siteOrder, db.sites[sourceId].category, QueryLimit) && Eligible(db, sourceId, id))
      ==> id in pool
  {
    Candidates(db, sourceId, Query(db, db.siteOrder, db.sites[sourceId].category, QueryLimit))
  }

  /**
   * Only a category with more than 20 active websites can leave an eligible
   * one out of the pool: with at most 20, every eligible match is a candidate.
   */
  lemma SmallCategoryFullyPooled(db: Db, sourceId: string, id: string)
    requires sourceId in db.sites
    requires |MatchingIds(db, db.siteOrder, db.sites[sourceId].category)| <= QueryLimit
    requires id in db.siteOrder && Matches(db, id, db.sites[sourceId].category) && Eligible(db, sourceId, id)
    ensures id in Pool(db, sourceId)
  {
    var m := MatchingIds(db, db.siteOrder, db.sites[sourceId].category);
    QueryIsFirstMatches(db, db.siteOrder, db.sites[sourceId].category, QueryLimit);
    assert Query(db, db.siteOrder, db.sites[sourceId].category, QueryLimit) == m[..|m|] == m;
  }

  /** `sourceData.refreshInterval || 30`: a missing or zero interval becomes 30. */
  function RefreshOf(site: Site): (r: int)
    ensures r != 0
    ensures site.refreshInterval != 0 ==> r == site.refreshInterval
    ensures site.refreshInterval == 0 ==> r == DefaultRefresh
  {
    if site.refreshInterval != 0 then site.refreshInterval else DefaultRefresh
  }

  /** `Math.floor(Math.random() * n)`, with the random number `roll` in [0, 1). */
  function PickIndex(roll: real, n: nat): (k: nat)
    requires 0.0 <= roll < 1.0 && n > 0
    ensures k < n
  {
    assert 0.0 <= roll * n as real < n as real;
    (roll * n as real).Floor
  }

  /** Every index below `n` is drawn by some random number: `k / n` draws `k`. */
  lemma EveryIndexReachable(n: nat, k: nat)
    requires k < n
    ensures 0.0 <= k as real / n as real < 1.0
    ensures PickIndex(k as real / n as real, n) == k
  {
    var roll := k as real / n as real;
    assert roll * n as real == k as real;
  }

  function AdOf(db: Db, id: string): Ad
    requires id in db.sites
  {
    Ad(id, db.sites[id].domain, db.sites[id].category)
  }

  /**
   * The handler as a function of the store.  `storeFails` stands for any
   * rejected store call, which the handler turns into `ad: null` with a
   * 60-second interval.
   */
  function Serve(db: Db, id: Option<string>, roll: real, storeFails: bool): (r: (Db, Response))
    requires 0.0 <= roll < 1.0
    ensures r.1 == MissingId <==> !Truthy(id)
    ensures r.1.DemoAd? <==> Truthy(id) && id.value == "DEMO"
    ensures r.1.DemoAd? ==> r.1 == DemoAd(Demo, DefaultRefresh)
    ensures !r.1.Served? ==> r.0 == db
    ensures Truthy(id) && id.value != "DEMO" && storeFails ==> r.1 == NoAd(ErrorRefresh)
    ensures r.1 == InvalidSiteId <==> Truthy(id) && id.value != "DEMO" && !storeFails && id.value !in db.sites
    ensures Truthy(id) && id.value != "DEMO" && !storeFails && id.value in db.sites ==>
      r == PickAd(db, id.value, roll)
  {
    if !Truthy(id) then (db, MissingId)
    else if id.value == "DEMO" then (db, DemoAd(Demo, DefaultRefresh))
    else if storeFails then (db, NoAd(ErrorRefresh))
    else if id.value !in db.sites then (db, InvalidSiteId)
    else PickAd(db, id.value, roll)
  }

  /**
   * A known publisher's request: no ad from an empty pool, otherwise a
   * uniformly indexed member of the pool, with one more view counted on
   * the publisher's own website.
   */
  function PickAd(db: Db, sourceId: string, roll: real): (r: (Db, Response))
    requires sourceId in db.sites && 0.0 <= roll < 1.0
    ensures var source := db.sites[sourceId];
      var pool := Pool(db, sourceId);
      && (pool == [] ==> r == (db, NoAd(RefreshOf(source))))
      && (pool != [] ==>
            && r.1.Served? && r.1.ad.id == pool[PickIndex(roll, |pool|)] && r.1.ad.id in pool
            && r.1.refreshInterval == RefreshOf(source)
            && r.0 == db.(sites := db.sites[sourceId := source.(views := source.views + 1)]))
  {
    var source := db.sites[sourceId];
    var pool := Pool(db, sourceId);
    if pool == [] then (db, NoAd(RefreshOf(source)))
    else
      var chosen := pool[PickIndex(roll, |pool|)];
      (db.(sites := db.sites[sourceId := source.(views := source.views + 1)]),
       Served(AdOf(db, chosen), RefreshOf(source)))
  }

  /**
   * A served ad is another active website of the publisher's category whose
   * owner has credits, and it is shown with that website's own domain.
   */
  lemma ServedAdIsEligible(db: Db, id: Option<string>, roll: real, storeFails: bool)
    requires 0.0 <= roll < 1.0
    ensures var r := Serve(db, id, roll, storeFails);
      r.1.Served? ==>
        var ad := r.1.ad;
        && Truthy(id) && id.value in db.sites && ad.id in db.sites
        && ad.id != id.value
        && ad.domain == db.sites[ad.id].domain
        && ad.category == db.sites[ad.id].category == db.sites[id.value].category
        && db.sites[ad.id].active
        && Credits(db, db.sites[ad.id].owner) > 0
  {
    var r := Serve(db, id, roll, storeFails);
    if r.1.Served? {
      assert r.1.ad.id in Pool(db, id.value);
    }
  }

  /** Every candidate of the pool is served for some random number. */
  lemma EveryCandidateServed(db: Db, sourceId: string, k: nat)
    requires sourceId in db.sites && k < |Pool(db, sourceId)|
    ensures var n := |Pool(db, sourceId)|;
      0.0 <= k as real / n as real < 1.0
      && var r := PickAd(db, sourceId, k as real / n as real);
      r.1.Served? && r.1.ad.id == Pool(db, sourceId)[k]
  {
    EveryIndexReachable(|Pool(db, sourceId)|, k);
  }

  /** The `for` loop over the query snapshot, reading each owner's user document. */
  method CollectCandidates(store: Store, sourceSiteId: string, docs: seq<string>) returns (candidates: seq<string>)
    ensures candidates == Candidates(store.State(), sourceSiteId, docs)
  {
    candidates := [];
    var i := 0;
    while i < |docs|
      invariant 0 <= i <= |docs|
      invariant candidates == Candidates(store.State(), sourceSiteId, docs[..i])
    {
      var doc := docs[i];
      assert docs[..i + 1][..i] == docs[..i];
      if doc != sourceSiteId && doc in store.sites {
        var owner := store.sites[doc].owner;
        if owner in store.users && store.users[owner].credits > 0 {
          candidates := candidates + [doc];
        }
      }
      i := i + 1;
    }
    assert docs[..i] == docs;
  }

  /** The route handler against the store. */
  method Get(store: Store, id: Option<string>, roll: real, storeFails: bool) returns (response: Response)
    requires 0.0 <= roll < 1.0
    modifies store
    ensures (store.State(), response) == Serve(old(store.State()), id, roll, storeFails)
  {
    if !Truthy(id) {
      return MissingId;
    }
    var sourceSiteId := id.value;
    if sourceSiteId == "DEMO" {
      return DemoAd(Demo, DefaultRefresh);
    }
    if storeFails {
      return NoAd(ErrorRefresh);
    }
    if sourceSiteId !in store.sites {
      return InvalidSiteId;
    }
    response := ServeFromPool(store, sourceSiteId, roll);
  }

  /** The query, the candidate loop, the random pick and the view count. */
  method ServeFromPool(store: Store, sourceSiteId: string, roll: real) returns (response: Response)
    requires sourceSiteId in store.sites && 0.0 <= roll < 1.0
    modifies store
    ensures (store.State(), response) == PickAd(old(store.State()), sourceSiteId, roll)
  {
    var sourceData := store.sites[sourceSiteId];
    var snapshot := Query(store.State(), store.siteOrder, sourceData.category, QueryLimit);
    var candidates := CollectCandidates(store, sourceSiteId, snapshot);
    assert candidates == Pool(store.State(), sourceSiteId);
    var refreshInterval := RefreshOf(sourceData);
    if |candidates| == 0 {
      return NoAd(refreshInterval);
    }
    var randomAd := candidates[PickIndex(roll, |candidates|)];
    var ad := Ad(randomAd, store.sites[randomAd].domain, store.sites[randomAd].category);
    store.sites := store.sites[sourceSiteId := sourceData.(views := sourceData.views + 1)];
    response := Served(ad, refreshInterval);
  }
}
