/**
 * The credit ledger: the Firestore collections the route handlers read and
 * write, seen as maps keyed by document id.
 *
 * - `users`: credit balance, ban state and duplicate-domain offence counter.
 * - `websites`: owner, normalised domain, category, moderation status,
 *   `active` flag and the lifetime counters.
 * - `pending_clicks`, `cashouts`, and the set of disabled auth identities.
 *
 * A query over `websites` returns documents in document-id order; `siteOrder`
 * records that order, so "the first 20 matches" and "the first match" are
 * defined by it.  A field the source reads with `|| 0` is stored here with 0
 * standing for "missing".
 */
module Ledger {
  import opened Wrappers

  datatype Status = Pending | Approved | Denied | Suspended

  datatype Site = Site(
    owner: string,
    domain: string,
    category: string,
    active: bool,
    status: Option<Status>,
    hasCredits: bool,
    views: int,
    clicks: int,
    refreshInterval: int,
    adTitle: string,
    adDescription: string,
    widgetColor: string,
    widgetBgColor: string,
    createdAt: int)

  datatype User = User(
    credits: int,
    permanentBan: bool,
    bannedUntil: Option<int>,
    banReason: Option<string>,
    duplicateDomainOffenses: int)

  datatype PayoutMethod = Lightning | Bitrefill

  datatype PayoutStatus = PayoutPending | PayoutCompleted | PayoutRejected

  /** A document of the `cashouts` collection; the dollar figures are exact reals. */
  datatype CashoutRecord = CashoutRecord(
    userId: string,
    amount: int,
    payoutMethod: PayoutMethod,
    destination: string,
    status: PayoutStatus,
    createdAt: int,
    usdGross: real,
    usdFee: real,
    usdNet: real,
    networkFee: real,
    gasFee: real,
    serviceFee: real)

  /** A snapshot of the whole store. */
  datatype Db = Db(
    users: map<string, User>,
    sites: map<string, Site>,
    siteOrder: seq<string>,
    pendingClicks: set<string>,
    cashouts: seq<CashoutRecord>,
    authDisabled: set<string>)

  /** `(userDoc.data()?.credits || 0)`: a missing user reads as 0 credits. */
  function Credits(db: Db, uid: string): int {
    if uid in db.users then db.users[uid].credits else 0
  }

  /** No balance is negative. */
  predicate NonNegativeBalances(db: Db) {
    forall u :: u in db.users ==> db.users[u].credits >= 0
  }

  predicate Distinct(s: seq<string>) {
    forall i, j :: 0 <= i < j < |s| ==> s[i] != s[j]
  }

  /** `siteOrder` lists every website document exactly once. */
  predicate WellFormed(db: Db) {
    && (forall i :: 0 <= i < |db.siteOrder| ==> db.siteOrder[i] in db.sites)
    && (forall id :: id in db.sites ==> id in db.siteOrder)
    && Distinct(db.siteOrder)
  }

  /** The store as the handlers see it: one mutable object holding the collections. */
  class Store {
    var users: map<string, User>
    var sites: map<string, Site>
    var siteOrder: seq<string>
    var pendingClicks: set<string>
    var cashouts: seq<CashoutRecord>
    var authDisabled: set<string>

    function State(): Db
      reads this
    {
      Db(users, sites, siteOrder, pendingClicks, cashouts, authDisabled)
    }

    constructor (db: Db)
      ensures State() == db
    {
      users, sites, siteOrder := db.users, db.sites, db.siteOrder;
      pendingClicks, cashouts, authDisabled := db.pendingClicks, db.cashouts, db.authDisabled;
    }
  }
}
