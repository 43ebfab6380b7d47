/**
 * The moderation page.  It lists the websites and offers, per status, the
 * actions an administrator may take: approve a pending, denied or unset
 * website, suspend an approved one, unsuspend a suspended one, and delete
 * any.  A status change writes `status` and `active` together, `active`
 * being true exactly for `approved`; the page's list follows the store only
 * when the write succeeds.
 *
 * `networkOk` stands for the outcome of the client's write other than a
 * missing document; `confirmed` is the answer to the browser's confirm box.
 */
module Admin {
  import opened Wrappers
  import opened JsText
  import opened Ledger

  /** A row of the list: `{ id: doc.id, ...doc.data() }`. */
  datatype Row = Row(id: string, domain: string, userId: string, status: Option<Status>, active: bool)

  /** The buttons of a row. */
  datatype Action = Approve | Suspend | Unsuspend | Delete

  /** The status an action writes; `Delete` writes none. */
  function Target(a: Action): Option<Status> {
    match a
    case Approve => Some(Approved)
    case Suspend => Some(Suspended)
    case Unsuspend => Some(Approved)
    case Delete => None
  }

  /** The buttons shown for a status, in the order they appear. */
  function OfferedActions(status: Option<Status>): (actions: seq<Action>)
    ensures Delete in actions && actions[|actions| - 1] == Delete
    ensures Approve in actions <==> status.None? || status == Some(Pending) || status == Some(Denied)
    ensures Suspend in actions <==> status == Some(Approved)
    ensures Unsuspend in actions <==> status == Some(Suspended)
    // every offered button either deletes or leads to approved or suspended
    ensures forall a :: a in actions ==> Target(a) != Some(Denied) && Target(a) != Some(Pending)
    // approved and suspended alternate; the other states can only be approved
    ensures forall a :: a in actions && Target(a).Some? ==>
      (status == Some(Approved) <==> Target(a) == Some(Suspended))
  {
    match status
    case None => [Approve, Delete]
    case Some(Pending) => [Approve, Delete]
    case Some(Denied) => [Approve, Delete]
    case Some(Approved) => [Suspend, Delete]
    case Some(Suspended) => [Unsuspend, Delete]
  }

  /** The lower-case name stored in the document. */
  function StatusName(s: Status): string {
    match s
    case Pending => "pending"
    case Approved => "approved"
    case Denied => "denied"
    case Suspended => "suspended"
  }

  /** `getStatusText`: "Unknown" for an unset or empty status, otherwise the first letter in upper case. */
  function StatusText(status: Option<string>): (text: string)
    ensures !Truthy(status) ==> text == "Unknown"
    ensures Truthy(status) ==>
      && |text| == |status.value|
      && text[0] == UpperChar(status.value[0])
      && text[1..] == status.value[1..]
  {
    if !Truthy(status) then "Unknown"
    else [UpperChar(status.value[0])] + status.value[1..]
  }

  /** The local `map`: the row with the id takes the new status and `active` flag. */
  function UpdateRows(rows: seq<Row>, id: string, status: Status): (r: seq<Row>)
    ensures |r| == |rows|
    ensures forall i :: 0 <= i < |rows| ==>
      r[i] == if rows[i].id == id then rows[i].(status := Some(status), active := status == Approved) else rows[i]
  {
    seq(|rows|, i requires 0 <= i < |rows| =>
      if rows[i].id == id then rows[i].(status := Some(status), active := status == Approved) else rows[i])
  }

  /** The local `filter`: the rows with another id, in order. */
  function RemoveRows(rows: seq<Row>, id: string): (r: seq<Row>)
    ensures forall i :: 0 <= i < |r| ==> r[i].id != id && r[i] in rows
    ensures forall row :: row in rows && row.id != id ==> row in r
    ensures |r| <= |rows|
  {
    if rows == [] then []
    else if rows[0].id == id then RemoveRows(rows[1..], id)
    else [rows[0]] + RemoveRows(rows[1..], id)
  }

  /** `r` keeps the order of `rows`: it is obtained by deleting entries. */
  predicate IsSubsequence(r: seq<Row>, rows: seq<Row>) {
    if r == [] then true
    else if rows == [] then false
    else if r[0] == rows[0] then IsSubsequence(r[1..], rows[1..])
    else IsSubsequence(r, rows[1..])
  }

  lemma {:induction false} RemoveRowsKeepsOrder(rows: seq<Row>, id: string)
    ensures IsSubsequence(RemoveRows(rows, id), rows)
  {
    if rows != [] {
      RemoveRowsKeepsOrder(rows[1..], id);
    }
  }

  /** Removing an id from the document order. */
  function RemoveId(order: seq<string>, id: string): (r: seq<string>)
    ensures forall x :: x in r <==> x in order && x != id
    ensures Distinct(order) ==> Distinct(r)
  {
    if order == [] then []
    else if order[0] == id then RemoveId(order[1..], id)
    else
      var rest := RemoveId(order[1..], id);
      assert Distinct(order) ==> Distinct(order[1..]) && order[0] !in rest by {
        if Distinct(order) {
          assert forall j :: 0 <= j < |order[1..]| ==> order[1..][j] == order[j + 1];
        }
      }
      [order[0]] + rest
  }

  /** Every website is active exactly when it is approved. */
  predicate ActiveMatchesStatus(db: Db) {
    forall id :: id in db.sites ==> (db.sites[id].active <==> db.sites[id].status == Some(Approved))
  }

  /**
   * The remote `updateDoc`: fails on a missing document or a failed write;
   * otherwise `status` and `active` are set together on that document only.
   */
  function UpdateStatus(db: Db, id: string, status: Status, networkOk: bool): (r: Option<Db>)
    ensures r.Some? <==> networkOk && id in db.sites
    ensures r.Some? ==>
      && r.value.sites == db.sites[id := db.sites[id].(status := Some(status), active := status == Approved)]
      && r.value.(sites := db.sites) == db
    ensures r.Some? ==> (r.value.sites[id].active <==> r.value.sites[id].status == Some(Approved))
    ensures r.Some? && ActiveMatchesStatus(db) ==> ActiveMatchesStatus(r.value)
    ensures r.Some? && WellFormed(db) ==> WellFormed(r.value)
  {
    if networkOk && id in db.sites then
      Some(db.(sites := db.sites[id := db.sites[id].(status := Some(status), active := status == Approved)]))
    else None
  }

  /**
   * The remote `deleteDoc`: succeeds also when the document is already gone,
   * and removes it from the collection and from the document order.
   */
  function DeleteSite(db: Db, id: string, networkOk: bool): (r: Option<Db>)
    ensures r.Some? <==> networkOk
    ensures r.Some? ==> r.value.sites == db.sites - {id} && r.value.(sites := db.sites, siteOrder := db.siteOrder) == db
    ensures r.Some? ==> forall x :: x in r.value.siteOrder <==> x in db.siteOrder && x != id
    ensures r.Some? && WellFormed(db) ==> WellFormed(r.value)
    ensures r.Some? && ActiveMatchesStatus(db) ==> ActiveMatchesStatus(r.value)
  {
    if networkOk then
      var order := RemoveId(db.siteOrder, id);
      assert WellFormed(db) ==> forall i :: 0 <= i < |order| ==> order[i] in db.sites - {id} by {
        if WellFormed(db) {
          forall i | 0 <= i < |order|
            ensures order[i] in db.sites - {id}
          {
            assert order[i] in order;
          }
        }
      }
      Some(db.(sites := db.sites - {id}, siteOrder := order))
    else None
  }

  /** Only the last of two status changes to the same website is seen. */
  lemma LastStatusWins(db: Db, id: string, first: Status, second: Status)
    requires id in db.sites
    ensures UpdateStatus(UpdateStatus(db, id, first, true).value, id, second, true) == UpdateStatus(db, id, second, true)
  {
    var once := UpdateStatus(db, id, first, true).value;
    assert once.sites[id := once.sites[id].(status := Some(second), active := second == Approved)]
        == db.sites[id := db.sites[id].(status := Some(second), active := second == Approved)];
  }

  /** The page's rows show the status and `active` flag of the documents they stand for. */
  predicate Mirrors(rows: seq<Row>, db: Db) {
    forall i :: 0 <= i < |rows| && rows[i].id in db.sites ==>
      rows[i].status == db.sites[rows[i].id].status && rows[i].active == db.sites[rows[i].id].active
  }

  /** A successful status change keeps the page's list in step with the store. */
  lemma UpdateKeepsMirror(rows: seq<Row>, db: Db, id: string, status: Status)
    requires Mirrors(rows, db) && id in db.sites
    ensures Mirrors(UpdateRows(rows, id, status), UpdateStatus(db, id, status, true).value)
  {
  }

  /** A successful delete keeps the page's list in step with the store and drops the row. */
  lemma {:induction false} DeleteKeepsMirror(rows: seq<Row>, db: Db, id: string)
    requires Mirrors(rows, db)
    ensures Mirrors(RemoveRows(rows, id), DeleteSite(db, id, true).value)
  {
    var r := RemoveRows(rows, id);
    forall i | 0 <= i < |r|
      ensures r[i].id in db.sites ==> r[i].status == db.sites[r[i].id].status && r[i].active == db.sites[r[i].id].active
    {
      var k :| 0 <= k < |rows| && rows[k] == r[i];
    }
  }

  /** The page's list of websites. */
  class AdminPage {
    var websites: seq<Row>

    constructor ()
      ensures websites == []
    {
      websites := [];
    }
  }

  /**
   * `handleUpdateStatus`: the remote write first; the local list changes
   * only when it succeeded.  `newStatus` is one of the three statuses the
   * buttons send.
   */
  method HandleUpdateStatus(page: AdminPage, store: Store, id: string, newStatus: Status, networkOk: bool)
    requires newStatus != Pending
    modifies page, store
    ensures var r := UpdateStatus(old(store.State()), id, newStatus, networkOk);
      && (r.None? ==> store.State() == old(store.State()) && page.websites == old(page.websites))
      && (r.Some? ==> store.State() == r.value && page.websites == UpdateRows(old(page.websites), id, newStatus))
  {
    var isActive := newStatus == Approved;
    if !networkOk || id !in store.sites {
      return;
    }
    store.sites := store.sites[id := store.sites[id].(status := Some(newStatus), active := isActive)];
    page.websites := UpdateRows(page.websites, id, newStatus);
  }

  /**
   * `handleDeleteWebsite`: nothing without confirmation; then the remote
   * delete, and the local filter only when it succeeded.
   */
  method HandleDeleteWebsite(page: AdminPage, store: Store, id: string, confirmed: bool, networkOk: bool)
    modifies page, store
    ensures !confirmed ==> store.State() == old(store.State()) && page.websites == old(page.websites)
    ensures confirmed ==>
      var r := DeleteSite(old(store.State()), id, networkOk);
      && (r.None? ==> store.State() == old(store.State()) && page.websites == old(page.websites))
      && (r.Some? ==> store.State() == r.value && page.websites == RemoveRows(old(page.websites), id))
  {
    if !confirmed {
      return;
    }
    if !networkOk {
      return;
    }
    store.sites := store.sites - {id};
    store.siteOrder := RemoveId(store.siteOrder, id);
    page.websites := RemoveRows(page.websites, id);
  }
}
