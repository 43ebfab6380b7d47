/**
 * The cashout page: a logged-in user asks to turn at least 5,000 credits
 * into a Lightning payment or a Bitrefill gift card.  The request checks
 * the balance, records a pending cashout, then deducts exactly the amount.
 * Payouts are worth 1 cent per credit gross, of which 60% goes to fees
 * (20% network, 10% gas, 30% service), leaving 40% net.
 *
 * The dollar figures are exact reals; the page's form state is a class whose
 * fields the handler updates.
 */
module Cashout {
  import opened Wrappers
  import opened JsText
  import opened Ledger

  const GrossRatePerCredit: real := 0.01
  const NetworkFeePercent: real := 0.20
  const GasFeePercent: real := 0.10
  const ServiceFeePercent: real := 0.30

  const MinimumCashout: int := 5000

  /** The errors the handler throws; `Message` is the text the page shows. */
  datatype CashoutError = BelowMinimum | UserNotFound | InsufficientCredits

  function Message(e: CashoutError): string {
    match e
    case BelowMinimum => "Minimum cashout is 5,000 credits."
    case UserNotFound => "User not found"
    case InsufficientCredits => "Insufficient credits."
  }

  /** The derived dollar figures for a number of credits. */
  datatype Quote = Quote(gross: real, networkFee: real, gasFee: real, serviceFee: real, totalFee: real, net: real)

  function QuoteFor(credits: int): Quote {
    var gross := credits as real * GrossRatePerCredit;
    var networkFee := gross * NetworkFeePercent;
    var gasFee := gross * GasFeePercent;
    var serviceFee := gross * ServiceFeePercent;
    var totalFee := networkFee + gasFee + serviceFee;
    Quote(gross, networkFee, gasFee, serviceFee, totalFee, gross - totalFee)
  }

  /**
   * The fee split: a credit is worth a cent gross, the fees are a fifth, a
   * tenth and three tenths of that, and the net is the remaining two fifths.
   */
  lemma FeeSplit(credits: int)
    ensures var q := QuoteFor(credits);
      && q.gross == credits as real / 100.0
      && q.networkFee == q.gross / 5.0 && q.gasFee == q.gross / 10.0 && q.serviceFee == q.gross * 3.0 / 10.0
      && q.totalFee == q.gross * 3.0 / 5.0
      && q.net == q.gross * 2.0 / 5.0 && q.net + q.totalFee == q.gross
      && (credits >= 0 ==> 0.0 <= q.net <= q.gross)
  {
  }

  /** The figures shown while typing: `parseInt(amount || "0")`, NaN when it does not parse. */
  function DisplayedQuote(amount: string): (q: Option<Quote>)
    ensures amount == [] ==> q == Some(QuoteFor(0))
    ensures amount != [] ==> (q.Some? <==> ParseInt(amount).Some?)
    ensures q.Some? && amount != [] ==> q.value == QuoteFor(ParseInt(amount).value)
  {
    // the fallback `parseInt("0")` is 0 (JsText.ParseIntOfZero)
    var parsed := if amount == [] then Some(0) else ParseInt(amount);
    if parsed.Some? then Some(QuoteFor(parsed.value)) else None
  }

  /** The example the fee comment gives: 500 credits are $5.00 gross and $2.00 net. */
  lemma FiveHundredCreditsExample()
    ensures QuoteFor(500).gross == 5.0 && QuoteFor(500).net == 2.0 && QuoteFor(500).totalFee == 3.0
  {
  }

  /** `disabled={!!processing || userCredits < 5000}`. */
  function SubmitDisabled(processing: bool, userCredits: int): (disabled: bool)
    ensures !disabled ==> !processing && userCredits >= MinimumCashout
    ensures userCredits < MinimumCashout ==> disabled
  {
    processing || userCredits < MinimumCashout
  }

  /** The cashout document written on success. */
  function Record(uid: string, amount: int, payoutMethod: PayoutMethod, address: string, email: string,
                  createdAt: int): (c: CashoutRecord)
    ensures c.userId == uid && c.amount == amount && c.payoutMethod == payoutMethod && c.status == PayoutPending
    ensures c.destination == (if payoutMethod == Lightning then address else email)
  {
    var q := QuoteFor(amount);
    CashoutRecord(uid, amount, payoutMethod, if payoutMethod == Lightning then address else email,
                  PayoutPending, createdAt, q.gross, q.totalFee, q.net, q.networkFee, q.gasFee, q.serviceFee)
  }

  /**
   * The transaction once the amount has parsed to at least the minimum: the
   * balance check, then the pending record and the deduction together.
   */
  function Withdraw(db: Db, uid: string, n: int, payoutMethod: PayoutMethod, address: string,
                    email: string, createdAt: int): (r: (Db, Option<CashoutError>))
    requires n >= MinimumCashout
    ensures r.1 != Some(BelowMinimum)
    ensures r.1 == Some(UserNotFound) <==> uid !in db.users
    ensures r.1 == Some(InsufficientCredits) <==> uid in db.users && db.users[uid].credits < n
    // a refused request writes nothing
    ensures r.1.Some? ==> r.0 == db
    // success: one pending record for the requested amount, and exactly that amount deducted
    ensures r.1.None? ==>
      && uid in db.users && db.users[uid].credits >= n
      && r.0.cashouts == db.cashouts + [Record(uid, n, payoutMethod, address, email, createdAt)]
      && r.0.users == db.users[uid := db.users[uid].(credits := db.users[uid].credits - n)]
      && 0 <= Credits(r.0, uid) == Credits(db, uid) - n
      && r.0.(users := db.users, cashouts := db.cashouts) == db
    ensures NonNegativeBalances(db) ==> NonNegativeBalances(r.0)
  {
    if uid !in db.users then (db, Some(UserNotFound))
    else if db.users[uid].credits < n then (db, Some(InsufficientCredits))
    else
      var record := Record(uid, n, payoutMethod, address, email, createdAt);
      var u := db.users[uid];
      (db.(cashouts := db.cashouts + [record], users := db.users[uid := u.(credits := u.credits - n)]), None)
  }

  /**
   * The request once a user is logged in and a method is chosen: the new
   * store and the error shown, `None` on success.
   */
  function Request(db: Db, uid: string, amount: string, payoutMethod: PayoutMethod, address: string,
                   email: string, createdAt: int): (r: (Db, Option<CashoutError>))
    ensures r.1 == Some(BelowMinimum) <==> ParseInt(amount).None? || ParseInt(amount).value < MinimumCashout
    ensures r.1 == Some(BelowMinimum) ==> r.0 == db
    // any other outcome is the transaction for the parsed amount
    ensures r.1 != Some(BelowMinimum) ==>
      r == Withdraw(db, uid, ParseInt(amount).value, payoutMethod, address, email, createdAt)
  {
    match ParseInt(amount)
    case None => (db, Some(BelowMinimum))
    case Some(n) =>
      if n < MinimumCashout then (db, Some(BelowMinimum))
      else Withdraw(db, uid, n, payoutMethod, address, email, createdAt)
  }

  /** The page's state variables, as a value. */
  datatype Form = Form(
    processing: bool,
    amount: string,
    address: string,
    email: string,
    payoutMethod: Option<PayoutMethod>,
    error: Option<string>,
    success: bool,
    userCredits: int)

  /**
   * The form once a request has finished: `processing` is off, the error is
   * shown, and on success the success flag is set and the inputs cleared.
   */
  function Settled(f: Form, error: Option<CashoutError>): (g: Form)
    ensures !g.processing && g.payoutMethod == f.payoutMethod && g.userCredits == f.userCredits
    ensures g.error.Some? <==> error.Some?
    ensures error.Some? ==> g.error == Some(Message(error.value)) && g.(error := f.error, processing := f.processing) == f
    ensures error.None? ==> g.success && g.amount == [] && g.address == [] && g.email == []
  {
    match error
    case Some(e) => f.(processing := false, error := Some(Message(e)))
    case None => f.(processing := false, error := None, success := true, amount := [], address := [], email := [])
  }

  /** The page's state variables. */
  class CashoutPage {
    var processing: bool
    var amount: string
    var address: string
    var email: string
    var payoutMethod: Option<PayoutMethod>
    var error: Option<string>
    var success: bool
    var userCredits: int

    function State(): Form
      reads this
    {
      Form(processing, amount, address, email, payoutMethod, error, success, userCredits)
    }

    constructor ()
      ensures State() == Form(false, [], [], [], None, None, false, 0)
    {
      processing, amount, address, email := false, [], [], [];
      payoutMethod, error, success, userCredits := None, None, false, 0;
    }
  }

  /**
   * The store side of `handleCashout` (the parse, the balance check, the
   * record and the deduction), run once a user and a method are known.
   */
  method RequestCashout(store: Store, uid: string, amount: string, payoutMethod: PayoutMethod,
                        address: string, email: string, createdAt: int) returns (error: Option<CashoutError>)
    modifies store
    ensures (store.State(), error) == Request(old(store.State()), uid, amount, payoutMethod, address, email, createdAt)
  {
    var creditsToDeduct := ParseInt(amount);
    if creditsToDeduct.None? || creditsToDeduct.value < MinimumCashout {
      return Some(BelowMinimum);
    }
    error := RunWithdrawal(store, uid, creditsToDeduct.value, payoutMethod, address, email, createdAt);
  }

  /** The transaction against the store. */
  method RunWithdrawal(store: Store, uid: string, n: int, payoutMethod: PayoutMethod,
                       address: string, email: string, createdAt: int) returns (error: Option<CashoutError>)
    requires n >= MinimumCashout
    modifies store
    ensures (store.State(), error) == Withdraw(old(store.State()), uid, n, payoutMethod, address, email, createdAt)
  {
    if uid !in store.users {
      return Some(UserNotFound);
    }
    var currentCredits := store.users[uid].credits;
    if currentCredits < n {
      return Some(InsufficientCredits);
    }
    var record := Record(uid, n, payoutMethod, address, email, createdAt);
    store.cashouts := store.cashouts + [record];
    var user := store.users[uid];
    store.users := store.users[uid := user.(credits := user.credits - n)];
    return None;
  }

  /**
   * `handleCashout`: nothing happens without a logged-in user and a chosen
   * method; otherwise the request runs against the store and the form
   * settles with its outcome.
   */
  method HandleCashout(page: CashoutPage, store: Store, currentUser: Option<string>, createdAt: int)
    modifies page, store
    ensures currentUser.None? || old(page.payoutMethod).None? ==>
      unchanged(page) && store.State() == old(store.State())
    ensures currentUser.Some? && old(page.payoutMethod).Some? ==>
      var r := Request(old(store.State()), currentUser.value, old(page.amount), old(page.payoutMethod).value,
                       old(page.address), old(page.email), createdAt);
      store.State() == r.0 && page.State() == Settled(old(page.State()), r.1)
  {
    if currentUser.None? || page.payoutMethod.None? {
      return;
    }
    ghost var before := page.State();
    page.error := None;
    page.processing := true;
    var error := RequestCashout(store, currentUser.value, page.amount, page.payoutMethod.value,
                                page.address, page.email, createdAt);
    if error.Some? {
      page.error := Some(Message(error.value));
    } else {
      page.success := true;
      page.amount := [];
      page.address := [];
      page.email := [];
    }
    page.processing := false;
    assert page.State() == Settled(before, error);
  }
}
