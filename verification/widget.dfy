/**
 * The widget the script installs on a publisher's page.  It shows one ad in
 * a floating card and refreshes it on a timer; the visitor can close the
 * card to a small button, which stops the refreshing until it is opened
 * again.  Its state is three variables (`isManuallyClosed`, `refreshTimer`,
 * `currentInterval`), the visibility of the card and of the button, and the
 * ad last rendered.
 *
 * The browser's timers are modelled explicitly: `timers` maps each pending
 * timer id to its delay, `setTimeout` hands out `nextTimer`, `clearTimeout`
 * removes an id, and a timer that fires is removed before its callback runs.
 * `inFlight` counts the requests to the ad server that have not answered yet.
 */
module Widget {
  import opened Wrappers
  import opened JsText
  import opened ScriptRoute

  const InitialInterval: int := 30000
  const RetryDelay: int := 60000
  const DefaultDescription := "Best for website traffic"

  /** The fields of a served ad the widget reads. */
  datatype AdView = AdView(id: Option<string>, domain: Option<string>, description: Option<string>)

  /** The parsed answer of the ad server: `data.ad` and `data.config.refreshInterval`. */
  datatype ServeReply = ServeReply(ad: Option<AdView>, refreshInterval: Option<int>)

  /** The ad as written into the card: escaped text and the click-through link. */
  datatype Card = Card(clickUrl: string, domain: string, description: string)

  datatype View = View(
    closed: bool,
    refreshTimer: Option<nat>,
    timers: map<nat, int>,
    nextTimer: nat,
    interval: int,
    inFlight: nat,
    containerShown: bool,
    minimizedShown: bool,
    card: Option<Card>)

  /** The state once the script has run `init`, before its first request. */
  const Initial := View(false, None, map[], 1, InitialInterval, 0, false, false, None)

  /** The default description has nothing to escape, so the card may show it as it is. */
  lemma DefaultDescriptionIsPlain()
    ensures EscapeHtml(Some(DefaultDescription)) == DefaultDescription
  {
    assert forall i :: 0 <= i < |DefaultDescription| ==> !IsSpecial(DefaultDescription[i]);
  }

  /** `escapeHTML(ad.description || 'Best for website traffic')`, the default already plain text. */
  function DescriptionText(ad: AdView): string {
    if Truthy(ad.description) then Escape(ad.description.value) else DefaultDescription
  }

  /** The link of the card: the click route for this site, with the ad's id escaped. */
  function ClickUrl(apiBase: string, siteId: string, adId: Option<string>): string {
    apiBase + "/api/click?id=" + siteId + "&target=" + EscapeHtml(adId)
  }

  /** The link always leads to the ad server's click route for the widget's own site. */
  lemma ClickUrlTargetsServer(apiBase: string, siteId: string, adId: Option<string>)
    ensures StartsWith(ClickUrl(apiBase, siteId, adId), apiBase + "/api/click?id=" + siteId + "&target=")
  {
    var prefix := apiBase + "/api/click?id=" + siteId + "&target=";
    assert ClickUrl(apiBase, siteId, adId)[..|prefix|] == prefix;
  }

  /** The card for an ad: every text field escaped, the description defaulted. */
  function CardOf(ad: AdView, siteId: string, apiBase: string): Card {
    Card(ClickUrl(apiBase, siteId, ad.id), EscapeHtml(ad.domain), DescriptionText(ad))
  }

  /** No text the card shows can open or close markup, whatever the ad's fields hold. */
  lemma CardIsEscaped(ad: AdView, siteId: string, apiBase: string)
    ensures var c := CardOf(ad, siteId, apiBase);
      && (forall i :: 0 <= i < |c.domain| ==> !IsMarkup(c.domain[i]))
      && (forall i :: 0 <= i < |c.description| ==> !IsMarkup(c.description[i]))
      && c.description == EscapeHtml(if Truthy(ad.description) then ad.description else Some(DefaultDescription))
  {
    DefaultDescriptionIsPlain();
  }

  /** `clearTimeout(refreshTimer)` when a timer was ever set. */
  function Cleared(v: View): (w: View)
    ensures w == v.(timers := w.timers)
    ensures v.refreshTimer.None? ==> w.timers == v.timers
    ensures v.refreshTimer.Some? ==> w.timers == v.timers - {v.refreshTimer.value}
  {
    if v.refreshTimer.Some? then v.(timers := v.timers - {v.refreshTimer.value}) else v
  }

  /** `refreshTimer = setTimeout(fetchAd, delay)`. */
  function Scheduled(v: View, delay: int): (w: View)
    ensures w.refreshTimer == Some(v.nextTimer) && w.nextTimer > v.nextTimer
    ensures w.timers == v.timers[v.nextTimer := delay]
    ensures w.(timers := v.timers, refreshTimer := v.refreshTimer, nextTimer := v.nextTimer) == v
  {
    v.(timers := v.timers[v.nextTimer := delay], refreshTimer := Some(v.nextTimer), nextTimer := v.nextTimer + 1)
  }

  /** `openAd`: the card shown, the button hidden, the closed flag down. */
  function Open(v: View): (w: View)
    ensures !w.closed && w.containerShown && !w.minimizedShown
    ensures w.(closed := v.closed, containerShown := v.containerShown, minimizedShown := v.minimizedShown) == v
  {
    v.(closed := false, containerShown := true, minimizedShown := false)
  }

  /** `closeAd`: the closed flag up, the pending refresh cancelled, the button shown. */
  function Close(v: View): (w: View)
    ensures w.closed && !w.containerShown && w.minimizedShown
    ensures w.refreshTimer.Some? ==> w.refreshTimer.value !in w.timers
    ensures w.timers == Cleared(v).timers
    ensures w.(closed := v.closed, containerShown := v.containerShown, minimizedShown := v.minimizedShown,
               timers := v.timers) == v
  {
    Cleared(v).(closed := true, containerShown := false, minimizedShown := true)
  }

  /** The ad in a reply, if the reply was parsed and has one. */
  function AdOf(reply: Option<ServeReply>): Option<AdView> {
    if reply.Some? then reply.value.ad else None
  }

  /** The card filled with an ad, and the interval taken from the reply when it gives a non-zero one. */
  function Filled(v: View, ad: AdView, refresh: Option<int>, siteId: string, apiBase: string): View {
    var interval := if refresh.Some? && refresh.value != 0 then refresh.value * 1000 else v.interval;
    v.(interval := interval, card := Some(CardOf(ad, siteId, apiBase)))
  }

  /** A filled card is opened, unless the visitor closed it: then only the button shows. */
  function Shown(v: View): View {
    if !v.closed then Open(v) else v.(minimizedShown := true)
  }

  /** `renderAd`: hide the card on an empty reply; otherwise take the interval, fill the card and show it unless closed. */
  function Render(v: View, reply: Option<ServeReply>, siteId: string, apiBase: string): (w: View)
    ensures AdOf(reply).None? ==> w == v.(containerShown := false)
    ensures AdOf(reply).Some? ==>
      && w.card == Some(CardOf(AdOf(reply).value, siteId, apiBase))
      && w.interval == (if reply.value.refreshInterval.Some? && reply.value.refreshInterval.value != 0
                        then reply.value.refreshInterval.value * 1000 else v.interval)
      && w.closed == v.closed
      && (!v.closed ==> w.containerShown && !w.minimizedShown)
      && (v.closed ==> w.containerShown == v.containerShown && w.minimizedShown)
    ensures w.timers == v.timers && w.refreshTimer == v.refreshTimer && w.inFlight == v.inFlight
  {
    match AdOf(reply)
    case None => v.(containerShown := false)
    case Some(ad) =>
      Shown(Filled(v, ad, reply.value.refreshInterval, siteId, apiBase))
  }

  /** `fetchAd`: nothing while closed, otherwise one more request on its way. */
  function Fetch(v: View): (w: View)
    ensures v.closed ==> w == v
    ensures !v.closed ==> w == v.(inFlight := v.inFlight + 1)
  {
    if v.closed then v else v.(inFlight := v.inFlight + 1)
  }

  /** A request answered: render, clear the old timer, and schedule the next fetch unless closed. */
  function Succeeded(v: View, reply: Option<ServeReply>, siteId: string, apiBase: string): (w: View)
    requires v.inFlight > 0
    ensures w.inFlight == v.inFlight - 1 && w.closed == v.closed
    ensures var rendered := Render(v.(inFlight := v.inFlight - 1), reply, siteId, apiBase);
      && w.interval == rendered.interval
      && (v.closed ==> w.timers == Cleared(rendered).timers)
      && (!v.closed ==> w.timers == Cleared(rendered).timers[v.nextTimer := rendered.interval])
  {
    var rendered := Render(v.(inFlight := v.inFlight - 1), reply, siteId, apiBase);
    var cleared := Cleared(rendered);
    if !cleared.closed then Scheduled(cleared, cleared.interval) else cleared
  }

  /** A request failed: clear the old timer and retry in a minute unless closed. */
  function Failed(v: View): (w: View)
    requires v.inFlight > 0
    ensures w.inFlight == v.inFlight - 1 && w.closed == v.closed && w.interval == v.interval
    ensures v.closed ==> w.timers == Cleared(v).timers
    ensures !v.closed ==> w.timers == Cleared(v).timers[v.nextTimer := RetryDelay]
  {
    var cleared := Cleared(v.(inFlight := v.inFlight - 1));
    if !cleared.closed then Scheduled(cleared, RetryDelay) else cleared
  }

  /** A pending timer fires: it is gone, and its callback fetches. */
  function Fired(v: View, id: nat): (w: View)
    requires id in v.timers
    ensures w.timers == v.timers - {id} && id !in w.timers
    ensures v.closed ==> w.inFlight == v.inFlight
    ensures !v.closed ==> w.inFlight == v.inFlight + 1
    ensures w.(timers := v.timers, inFlight := v.inFlight) == v
  {
    Fetch(v.(timers := v.timers - {id}))
  }

  /** A click on the button: open the card and fetch at once. */
  function Reopened(v: View): (w: View)
    ensures !w.closed && w.containerShown && w.inFlight == v.inFlight + 1 && w.timers == v.timers
  {
    Fetch(Open(v))
  }

  /**
   * What holds between events: the only pending timer is the one the
   * variable holds, there is none while closed, its delay is the current
   * interval or the retry delay, the card is only shown while open, and the
   * button is shown exactly while closed.
   */
  predicate Inv(v: View) {
    && (forall id :: id in v.timers ==> v.refreshTimer == Some(id))
    && (forall id :: id in v.timers ==> !v.closed)
    && (forall id :: id in v.timers ==> v.timers[id] == v.interval || v.timers[id] == RetryDelay)
    && v.interval != 0
    && (v.containerShown ==> !v.closed)
    && v.minimizedShown == v.closed
  }

  /** At most one refresh is ever pending. */
  lemma {:induction false} AtMostOnePending(v: View)
    requires Inv(v)
    ensures |v.timers.Keys| <= 1
  {
    if v.refreshTimer.Some? {
      assert v.timers.Keys <= {v.refreshTimer.value};
      assert |{v.refreshTimer.value}| == 1;
      SubsetSize(v.timers.Keys, {v.refreshTimer.value});
    } else {
      assert v.timers.Keys == {};
    }
  }

  lemma {:induction false} SubsetSize(a: set<nat>, b: set<nat>)
    requires a <= b
    ensures |a| <= |b|
  {
    assert b == a + (b - a);
  }

  lemma InitialInv()
    ensures Inv(Initial)
  {
  }

  /** Closing, reopening and fetching keep the invariant. */
  lemma CloseKeepsInv(v: View)
    requires Inv(v)
    ensures Inv(Close(v))
  {
  }

  lemma ReopenKeepsInv(v: View)
    requires Inv(v)
    ensures Inv(Reopened(v)) && Inv(Fetch(v))
  {
  }

  lemma FiredKeepsInv(v: View, id: nat)
    requires Inv(v) && id in v.timers
    ensures Inv(Fired(v, id))
  {
  }

  /** Clearing the timer the variable holds leaves nothing pending, when that is the only one. */
  lemma ClearedIsEmpty(v: View)
    requires forall id :: id in v.timers ==> v.refreshTimer == Some(id)
    ensures Cleared(v).timers == map[]
  {
  }

  /** Rendering keeps the display part of the invariant and a non-zero interval. */
  lemma RenderKeepsDisplay(v: View, reply: Option<ServeReply>, siteId: string, apiBase: string)
    requires Inv(v)
    ensures var w := Render(v, reply, siteId, apiBase);
      && w.interval != 0 && w.closed == v.closed
      && (w.containerShown ==> !w.closed) && w.minimizedShown == w.closed
  {
  }

  /** An answer keeps the invariant: the old timer is gone and the new one runs at the interval just rendered. */
  lemma {:induction false} SuccessKeepsInv(v: View, reply: Option<ServeReply>, siteId: string, apiBase: string)
    requires Inv(v) && v.inFlight > 0
    ensures Inv(Succeeded(v, reply, siteId, apiBase))
  {
    var u := v.(inFlight := v.inFlight - 1);
    var rendered := Render(u, reply, siteId, apiBase);
    RenderKeepsDisplay(u, reply, siteId, apiBase);
    ClearedIsEmpty(rendered);
    var cleared := Cleared(rendered);
    assert Succeeded(v, reply, siteId, apiBase) ==
      if !cleared.closed then Scheduled(cleared, cleared.interval) else cleared;
  }

  lemma {:induction false} FailureKeepsInv(v: View)
    requires Inv(v) && v.inFlight > 0
    ensures Inv(Failed(v))
  {
    assert Cleared(v).timers == map[] by {
      assert forall t :: t in v.timers ==> v.refreshTimer == Some(t);
    }
  }

  /** While closed nothing is pending and a fetch does nothing: the widget sleeps. */
  lemma {:induction false} ClosedSleeps(v: View)
    requires Inv(v) && v.closed
    ensures v.timers == map[]
    ensures Fetch(v) == v
  {
    assert forall id :: id in v.timers ==> !v.closed;
  }

  /** After a successful answer while open, exactly one refresh is pending, at the interval now in force. */
  lemma {:induction false} NextRefreshAtInterval(v: View, reply: Option<ServeReply>, siteId: string, apiBase: string)
    requires Inv(v) && v.inFlight > 0 && !v.closed
    ensures var w := Succeeded(v, reply, siteId, apiBase);
      && w.timers == map[v.nextTimer := w.interval]
      && w.refreshTimer == Some(v.nextTimer)
  {
    var rendered := Render(v.(inFlight := v.inFlight - 1), reply, siteId, apiBase);
    assert Cleared(rendered).timers == map[];
  }

  /** After a failed request while open, exactly one retry is pending, a minute away. */
  lemma {:induction false} RetryAfterFailure(v: View)
    requires Inv(v) && v.inFlight > 0 && !v.closed
    ensures Failed(v).timers == map[v.nextTimer := RetryDelay]
  {
    assert Cleared(v).timers == map[];
  }

  /** An answer without an ad hides the card; one with an ad shows it exactly when the visitor has not closed it. */
  lemma RenderShowsAdUnlessClosed(v: View, reply: Option<ServeReply>, siteId: string, apiBase: string)
    requires Inv(v)
    ensures AdOf(reply).None? ==> !Render(v, reply, siteId, apiBase).containerShown
    ensures AdOf(reply).Some? ==> (Render(v, reply, siteId, apiBase).containerShown <==> !v.closed)
  {
  }

  /** The widget's variables, updated by its event handlers. */
  class WidgetState {
    var closed: bool
    var refreshTimer: Option<nat>
    var timers: map<nat, int>
    var nextTimer: nat
    var interval: int
    var inFlight: nat
    var containerShown: bool
    var minimizedShown: bool
    var card: Option<Card>
    const siteId: string
    const apiBase: string

    function State(): View
      reads this
    {
      View(closed, refreshTimer, timers, nextTimer, interval, inFlight, containerShown, minimizedShown, card)
    }

    constructor (siteId: string, apiBase: string)
      ensures State() == Initial && this.siteId == siteId && this.apiBase == apiBase
    {
      this.siteId, this.apiBase := siteId, apiBase;
      closed, refreshTimer, timers, nextTimer := false, None, map[], 1;
      interval, inFlight, containerShown, minimizedShown, card := InitialInterval, 0, false, false, None;
    }

    method OpenAd()
      modifies this
      ensures State() == Open(old(State()))
    {
      closed := false;
      minimizedShown := false;
      containerShown := true;
    }

    method ClearTimer()
      modifies this
      ensures State() == Cleared(old(State()))
    {
      if refreshTimer.Some? {
        timers := timers - {refreshTimer.value};
      }
    }

    method SetTimer(delay: int)
      modifies this
      ensures State() == Scheduled(old(State()), delay)
    {
      timers := timers[nextTimer := delay];
      refreshTimer := Some(nextTimer);
      nextTimer := nextTimer + 1;
    }

    method CloseAd()
      modifies this
      ensures State() == Close(old(State()))
    {
      closed := true;
      ClearTimer();
      containerShown := false;
      minimizedShown := true;
    }

    method FillCard(ad: AdView, refresh: Option<int>)
      modifies this
      ensures State() == Filled(old(State()), ad, refresh, siteId, apiBase)
    {
      var filled := CardOf(ad, siteId, apiBase);
      if refresh.Some? && refresh.value != 0 {
        interval := refresh.value * 1000;
      }
      card := Some(filled);
    }

    method RenderAd(reply: Option<ServeReply>)
      modifies this
      ensures State() == Render(old(State()), reply, siteId, apiBase)
    {
      if reply.None? || reply.value.ad.None? {
        containerShown := false;
        return;
      }
      ghost var v := State();
      FillCard(reply.value.ad.value, reply.value.refreshInterval);
      ShowCard();
      assert AdOf(reply) == Some(reply.value.ad.value);
      assert State() == Shown(Filled(v, reply.value.ad.value, reply.value.refreshInterval, siteId, apiBase));
    }

    method ShowCard()
      modifies this
      ensures State() == Shown(old(State()))
    {
      if !closed {
        OpenAd();
      } else {
        minimizedShown := true;
      }
    }

    method FetchAd()
      modifies this
      ensures State() == Fetch(old(State()))
    {
      if closed {
        return;
      }
      inFlight := inFlight + 1;
    }

    method OnFetchSuccess(reply: Option<ServeReply>)
      requires inFlight > 0
      modifies this
      ensures State() == Succeeded(old(State()), reply, siteId, apiBase)
    {
      ghost var v := old(State()).(inFlight := inFlight - 1);
      inFlight := inFlight - 1;
      assert State() == v;
      RenderAd(reply);
      ghost var rendered := Render(v, reply, siteId, apiBase);
      assert State() == rendered;
      ClearTimer();
      assert State() == Cleared(rendered);
      if !closed {
        SetTimer(interval);
      }
    }

    method OnFetchFailure()
      requires inFlight > 0
      modifies this
      ensures State() == Failed(old(State()))
    {
      inFlight := inFlight - 1;
      ClearTimer();
      if !closed {
        SetTimer(RetryDelay);
      }
    }

    method TimerFires(id: nat)
      requires id in timers
      modifies this
      ensures State() == Fired(old(State()), id)
    {
      timers := timers - {id};
      FetchAd();
    }

    method MinimizedClick()
      modifies this
      ensures State() == Reopened(old(State()))
    {
      OpenAd();
      FetchAd();
    }
  }
}
