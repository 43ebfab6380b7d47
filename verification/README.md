# RunAds credit ledger in Dafny

RunAds is an ad exchange for small websites. A publisher embeds a widget
that shows other members' ads. Every click a publisher's page sends to an
advertiser moves one credit from the advertiser's owner to the publisher's
owner. Credits are bought through Coinbase Commerce and can be cashed out
above 5,000.

This project models the credit ledger and the operations that read and
write it:

- `Ledger`: the Firestore collections as maps in one `Store` object, with
  a value snapshot `Db`. The collections are users with their balances and
  ban state, websites with owner, domain, category, status, `active` flag
  and counters, pending click tokens, and cashout records. Document-id
  order is an explicit list, because "the first 20 matches" and "the first
  match" depend on it.
- Each route handler is a method on the store, proved equal to a pure
  function of the old snapshot. The properties are stated on those
  functions and in lemmas:
  - `Click`: click settlement.
  - `AdServe`: ad selection.
  - `Websites`: the website registration guard.
  - `CreateCharge` and `CoinbaseWebhook`: credit purchase.
  - `Cashout`: the cashout request.
  - `Analytics`: the seven-day report.
  - `AdVerify`: single-use visit tokens.
  - `Admin`: moderation.
- `ScriptRoute` and `Widget`: the embeddable script. This covers its
  `escapeHTML`, and the widget's open/close/refresh state machine as a
  class whose fields the event handlers update. The browser's timers are
  an explicit map.
- `PrivateKey`: `formatPrivateKey`.
- `JsText`: the JavaScript built-ins the code relies on. These are
  truthiness, `startsWith`, ASCII case mapping, `trim`, radix-less
  `parseInt` and `toString` of integers.

Foreign inputs are parameters of the model:

- the random number, the clock readings and the seven date keys;
- the HMAC digest and `JSON.parse`;
- environment variables and the Coinbase reply;
- the outcome of client-side writes;
- the answer to the browser's confirm box.

## Model

| member | source | states |
|---|---|---|
| JsText.ToLower | src/app/actions/websites.ts:51 | `toLowerCase` on ASCII: the length is kept, no ASCII capital is left, and no other character changes (non-ASCII capitals are not lowered; see "Left out") |
| JsText.UpperChar | src/app/dashboard/admin/page.tsx:72 | a lower-case ASCII letter becomes its capital (code point minus 32); every other character is unchanged |
| JsText.Trim | src/app/actions/websites.ts:51 | `trim` yields the slice of the input that starts where the leading white space ends, and the slice neither starts nor ends with white space |
| JsText.TrimDropsOnlySpace | src/app/actions/websites.ts:51 | `trim` drops only white space: everything before the slice it keeps and everything after it is white space |
| JsText.ParseInt | src/app/api/webhook/coinbase/route.ts:31 | radix-less `parseInt` is NaN (`None`) exactly when no digit follows the leading white space, the optional sign and the optional `0x`; without a `-` the number is non-negative, with one it is at most 0 |
| JsText.DecimalString | src/app/api/coinbase/create-charge/route.ts:40 | `toString` of a count is a non-empty digit string with no leading zero except for 0, whose decimal value is the count |
| JsText.ParseIntOfDecimal | src/app/api/webhook/coinbase/route.ts:31 | `parseInt` reads back exactly the count `toString` wrote |
| JsText.ParseIntOfZero | src/app/api/webhook/coinbase/route.ts:31 | the fallback `parseInt('0')` is 0 |
| Click.RedirectUrl | src/app/api/click/route.ts:58-61 | the "Ensure protocol" step as written: the target starts with "http"; it is the domain itself exactly when the domain starts with "http", otherwise "https://" plus the domain (a domain such as "httpbin.org" keeps no scheme; see "## Findings") |
| Click.Transfer | src/app/api/click/route.ts:43-52 | one credit leaves the payer and reaches the payee (paying oneself changes no balance), the publisher site gets one click, and no other user or collection changes |
| Click.Pay | src/app/api/click/route.ts:37-71 | a positive advertiser balance with a publisher user commits `Transfer`, whatever the response; otherwise nothing changes; a missing publisher user aborts with 500 and no write; the redirect goes to the advertiser's target exactly when `new URL` parses it, and otherwise `NextResponse.redirect` throws after the commit and the answer is 500; the two balances' sum is conserved; a non-negative payer stays non-negative; every other user and collection is untouched |
| Click.Settle | src/app/api/click/route.ts:9-66 | 400 exactly for a missing id or target; the demo redirect exactly for source "DEMO" or target "RUNADS_OFFICIAL"; 404 exactly when a website is missing; all three change nothing; otherwise the transaction of `Pay`; non-negative balances stay non-negative |
| Click.Get | src/app/api/click/route.ts:4-72 | the handler leaves the store and answers exactly as `Settle` says |
| Click.RunTransaction | src/app/api/click/route.ts:37-71 | the buffered transaction leaves the store and answers exactly as `Pay` says |
| Click.DemoClickNeverSettles | src/app/api/click/route.ts:14-17 | a click from the demo widget changes nothing and redirects home |
| Click.SchemelessDomainPaysAndFails | src/app/api/click/route.ts:37-71 | for a target whose stored domain is a plain host starting with "http", a payable click moves the credit and counts the click, and the visitor gets 500 |
| Click.SchemedHostIsStored | src/app/actions/websites.ts:51-58 | registering "https://" + h stores the plain host h itself, so a stored domain can start with "http" without a scheme |
| Click.HttpbinIsStored | src/app/actions/websites.ts:51-58 | "httpbin.org" is a plain host that starts with "http" and not with "www." |
| Click.SchemedRedirectUrl | src/app/api/click/route.ts:57-61 | the corrected "Ensure protocol" step: the target starts with "http://" or "https://"; it is the domain itself exactly when the domain already does, otherwise "https://" plus the domain |
| Click.PlainHostGetsScheme | src/app/api/click/route.ts:57-61 | a plain host, which has no `:`, is always given "https://" by the corrected step |
| Click.SchemedRedirectParses | src/app/api/click/route.ts:57-63 | with the corrected step, every plain host a website holds is a URL `new URL` parses, whose host is that domain |
| AdServe.Query | src/app/api/ad-serve/route.ts:43-47 | at most `limit` ids, all active and of the category, and every match when fewer than `limit` are returned |
| AdServe.MatchingIds | src/app/api/ad-serve/route.ts:43-46 | the ids of the document order passing the category and `active` filter: each one matches, and every matching id is among them |
| AdServe.QueryIsFirstMatches | src/app/api/ad-serve/route.ts:43-47 | `.limit(20)` answers exactly the first `min(20, matches)` matching ids in document order, so later matches are never seen |
| AdServe.Candidates | src/app/api/ad-serve/route.ts:49-59 | exactly the eligible ids of the snapshot: not the publisher, and an existing owner with a positive balance |
| AdServe.Eligible | src/app/api/ad-serve/route.ts:55-56 | the eligibility test that `Candidates`, `Pool` and `ServedAdIsEligible` state their results by: another website whose owner exists and has a positive balance (a predicate without a contract of its own) |
| AdServe.Pool | src/app/api/ad-serve/route.ts:43-59 | at most 20 candidates, each eligible, active and of the publisher's category; every eligible id the query returned is a candidate |
| AdServe.SmallCategoryFullyPooled | src/app/api/ad-serve/route.ts:43-59 | when the category has at most 20 active websites, every eligible one of them is in the pool |
| AdServe.RefreshOf | src/app/api/ad-serve/route.ts:61 | the site's interval, or 30 when it is missing or 0; never 0 |
| AdServe.PickIndex | src/app/api/ad-serve/route.ts:71 | `floor(random * n)` is a valid index below n |
| AdServe.EveryIndexReachable | src/app/api/ad-serve/route.ts:71 | every index `k` below `n` is drawn by the random number `k / n`, which lies in [0, 1) |
| AdServe.PickAd | src/app/api/ad-serve/route.ts:61-88 | an empty pool answers `ad: null` with the refresh interval and changes nothing; otherwise the ad is the pool member at the index the random number picks, and the publisher's `views` grows by exactly 1 |
| AdServe.EveryCandidateServed | src/app/api/ad-serve/route.ts:61-88 | every member of a non-empty pool is served for some random number |
| AdServe.Serve | src/app/api/ad-serve/route.ts:8-93 | 400 exactly for a missing id; the fixed demo ad with refresh 30 exactly for "DEMO"; 404 exactly for an unknown publisher; a store failure answers `ad: null` with refresh 60; only a served ad changes the store; a known publisher is answered as `PickAd` says |
| AdServe.ServedAdIsEligible | src/app/api/ad-serve/route.ts:43-84 | a served ad is another active website of the publisher's category whose owner has credits, shown with its own domain and category |
| AdServe.CollectCandidates | src/app/api/ad-serve/route.ts:49-59 | the loop over the snapshot collects exactly `Candidates` |
| AdServe.Get | src/app/api/ad-serve/route.ts:4-94 | the handler leaves the store and answers exactly as `Serve` says |
| AdServe.ServeFromPool | src/app/api/ad-serve/route.ts:43-88 | the query, the loop, the pick and the view increment do exactly what `PickAd` says |
| Websites.StripWww | src/app/actions/websites.ts:58 | one leading "www." is removed and nothing else changes |
| Websites.Hostname | src/app/actions/websites.ts:57-58 | `new URL(..).hostname`, `None` where the constructor throws: a host is made of host characters (lower case, no forbidden code point, no `/ ? # @ :`); `HostnameOfUrl` pins it to the host of an http(s) URL of a plain host, and `HostAloneIsNoUrl` shows a text without a scheme throws |
| Websites.ParsedHost | src/app/actions/websites.ts:57 | the host part of the URL parser: an empty host for an http(s) URL or a forbidden code point throws; the result is lower-cased host characters |
| Websites.HostOf | src/app/actions/websites.ts:57 | the host of `userinfo@host:port` is the slice after the last `@`, without `@`, `:` or the port |
| Websites.HostOfHostPort | src/app/actions/websites.ts:57 | the host of `host:port` is the text before the first `:` (a port that is not a number below 65536 throws) |
| Websites.HostnameOfHttpsHost | src/app/actions/websites.ts:52-58 | the host of "https://" followed by a plain host is that host |
| Websites.HostAloneIsNoUrl | src/app/actions/websites.ts:56-60 | a plain host on its own has no scheme, so `new URL` throws on it |
| Websites.UrlOf | src/app/actions/websites.ts:51-54 | the text given to the URL constructor, a definition without a contract of its own: `UrlOfHasScheme` proves it starts with "http" and `UrlOfIsLower` that it has no ASCII capital |
| Websites.CleanDomain | src/app/actions/websites.ts:51-61 | a cleaned domain is made of host characters; `CleanSpelling`, `CleanPlainHost`, `WwwIsDropped` and `HttpNameWithoutSchemeRefused` pin its value for the spellings of a plain host |
| Websites.HostnameOfUrl | src/app/actions/websites.ts:56-58 | `new URL("http(s)://" + h + path).hostname` is the host `h` itself, for a plain host and an empty or `/` path |
| Websites.CleanSpelling | src/app/actions/websites.ts:51-61 | every spelling of a plain host cleans to the same key, the host without one leading "www.": surrounding white space, any ASCII upper case, an optional `http://` or `https://` and a path do not change it |
| Websites.CleanPlainHost | src/app/actions/websites.ts:51-61 | a plain host typed as it is cleans to itself without one leading "www." |
| Websites.WwwIsDropped | src/app/actions/websites.ts:58 | "www." + host and host clean to one key, the host |
| Websites.HttpNameWithoutSchemeRefused | src/app/actions/websites.ts:52-60 | a plain host that starts with "http" typed without a scheme is not given one, the URL constructor throws, and the answer is "Invalid domain format" |
| Websites.HttpPrefixIsStartsWith | src/app/actions/websites.ts:52 | the character test that decides whether `https://` is prefixed is `startsWith('http')` |
| Websites.UrlOfHasScheme | src/app/actions/websites.ts:51-54 | the text given to the URL constructor always starts with "http" |
| Websites.UrlOfIsLower | src/app/actions/websites.ts:51-54 | the text given to the URL constructor contains no ASCII capital |
| Websites.FirstWithDomain | src/app/actions/websites.ts:64-70 | a website of the document order that carries the domain; none only when no website carries it |
| Websites.FirstWithDomainIsFirst | src/app/actions/websites.ts:65-70 | when a website carries the domain, the lookup answers it or one earlier in document order, so `docs[0]` is the first match |
| Websites.FirstWithDomainOnlyReadsSites | src/app/actions/websites.ts:64-70 | the duplicate lookup depends only on the websites collection |
| Websites.Punish | src/app/actions/websites.ts:81-111 | the offence counter grows by one; at two or more a permanent ban with the repeat reason, and the auth identity is disabled exactly when that call succeeds; otherwise a suspension until tomorrow with the first-offence reason; always an error, no website added, other users untouched |
| Websites.Register | src/app/actions/websites.ts:115-130 | exactly one new website, owned by the caller, with the clean domain, inactive, pending, `hasCredits`, zero counters; document order keeps its ids distinct |
| Websites.NewSite | src/app/actions/websites.ts:115-130 | the new website document, a definition without a contract of its own: `Register` states its fields (caller's, clean domain, inactive, pending, `hasCredits`, zero counters) |
| Websites.Banned | src/app/actions/websites.ts:39-48 | a ban in force, a definition without a contract of its own: a permanent ban or a suspension that ends after now; `Gate` states that it is exactly what refuses a known caller |
| Websites.Gate | src/app/actions/websites.ts:20-48 | the request passes exactly for a verified caller with a profile and no ban in force: a failed token, a missing profile, a permanent ban and a suspension still in force each give their own error; an expired suspension does not block |
| Websites.Place | src/app/actions/websites.ts:63-130 | the caller's own domain is "already registered" with no change; another account's domain is an offence; a website is added exactly when no website carries the domain |
| Websites.Submit | src/app/actions/websites.ts:15-133 | a refusal at the gate is the answer before the domain is cleaned or looked up, with nothing written; past the gate, "Invalid domain format" is the answer exactly when the domain does not clean, with nothing written; a clean domain is decided by `Place` |
| Websites.Screen | src/app/actions/websites.ts:56-63 | a domain that did not clean is "Invalid domain format" and writes nothing; a clean one is handed to `Place` |
| Websites.SubmitGate | src/app/actions/websites.ts:20-48 | "Unauthorized" exactly when the token fails, "User profile not found" exactly when the profile is missing; a permanent ban or a suspension in force is answered as such with nothing written, whatever the domain |
| Websites.SubmitRefusesDomain | src/app/actions/websites.ts:20-61 | "Invalid domain format" exactly when the caller passes the gate and the domain does not clean; only a registration or an offence writes to the store |
| Websites.SubmitPastGate | src/app/actions/websites.ts:63-130 | every other answer needs a passed gate and a clean domain; "already registered" exactly when the first website with the domain is the caller's; an offence is `Punish`; success exactly when no website carries the domain, and then `Register` |
| Websites.SubmitWebsite | src/app/actions/websites.ts:15-133 | the action leaves the store and answers exactly as `Submit` says |
| Websites.PlaceWebsite | src/app/actions/websites.ts:63-130 | the duplicate check and the write do exactly what `Place` says |
| Websites.PunishOffender | src/app/actions/websites.ts:81-111 | the ban update does exactly what `Punish` says |
| Websites.DuplicateDomainEscalates | src/app/actions/websites.ts:39-111 | a first attempt on another account's domain suspends for a day with count 1; a second attempt after the suspension lapses bans for good with count 2; a third is refused at the gate with nothing written |
| CoinbaseWebhook.Grant | src/app/api/webhook/coinbase/route.ts:29-33 | a grant exactly for a non-empty `metadata.userId` and a positive parsed `metadata.credits`; no metadata or no credits field grants nothing |
| CoinbaseWebhook.CreditsOf | src/app/api/webhook/coinbase/route.ts:31 | a missing metadata object or an empty credits field reads as 0; NaN (`None`) exactly when a present field has no leading digit |
| CoinbaseWebhook.CreditsOfIsParseInt | src/app/api/webhook/coinbase/route.ts:31 | the amount is `parseInt` of the credits field, or of the fallback '0' when the field is missing or empty |
| CoinbaseWebhook.Authentic | src/app/api/webhook/coinbase/route.ts:11-22 | the signature test, a definition without a contract of its own: a secret and a signature are set and the signature is the hex HMAC of the raw body; `Handle` states 500 without them and 401 on a mismatch |
| CoinbaseWebhook.Credit | src/app/api/webhook/coinbase/route.ts:28-40 | nothing to grant is acknowledged with no change; a grant to a missing user fails with no change; otherwise exactly that user gains exactly that amount; no balance decreases |
| CoinbaseWebhook.Handle | src/app/api/webhook/coinbase/route.ts:6-47 | 500 exactly for a missing secret or signature; 401 exactly for a signature other than the digest; a change only on a verified `charge:confirmed` event with a grant; other events acknowledged unchanged; no balance ever decreases and only `users` can change |
| CoinbaseWebhook.Post | src/app/api/webhook/coinbase/route.ts:6-48 | the handler leaves the store and answers exactly as `Handle` says |
| CoinbaseWebhook.ApplyCharge | src/app/api/webhook/coinbase/route.ts:28-40 | the confirmed branch does exactly what `Credit` says |
| CoinbaseWebhook.ReplayCreditsTwice | src/app/api/webhook/coinbase/route.ts:33-37 | with no duplicate-event check, the same confirmed event delivered twice credits twice |
| CreateCharge.LookupPackage | src/app/api/coinbase/create-charge/route.ts:6-10 | exactly the three packages: starter 100 credits for "1.00", pro 600 for "5.00", business 3000 for "20.00" |
| CreateCharge.KeyOf | src/app/api/coinbase/create-charge/route.ts:14-16 | the key the lookup uses: the package id itself, and for an absent id "undefined", which is neither a package nor an inherited member |
| CreateCharge.LookupAsWritten | src/app/api/coinbase/create-charge/route.ts:16 | `PACKAGES[key]` finds the own packages, and also a member for every inherited `Object.prototype` key |
| CreateCharge.AppBase | src/app/api/coinbase/create-charge/route.ts:43-44 | the app URL when set, otherwise the default origin |
| CreateCharge.BuildPayload | src/app/api/coinbase/create-charge/route.ts:30-45 | the price is the package price in USD; the metadata carries the caller's ids and a credit string the webhook parses back to the package's credits; both return URLs start at the app origin |
| CreateCharge.Answer | src/app/api/coinbase/create-charge/route.ts:57-69 | the hosted URL exactly for an ok reply whose body parsed and carries `data`; "Failed to create charge" exactly for an error status with a parsed body; everything else (no answer, an unparsable body, no `data`) is 500 |
| CreateCharge.Post | src/app/api/coinbase/create-charge/route.ts:12-64 | package, then user id, then API key are checked in that order, each failure exactly when the earlier checks pass; a payload is sent only when all pass, and it carries the package's price and credits; a hosted URL only from an ok reply |
| CreateCharge.PostAsWritten | src/app/api/coinbase/create-charge/route.ts:16-40 | as written, an inherited key passes the package check and, past the user id and API key checks, ends in 500 with nothing sent; every other request is handled as `Post` |
| CreateCharge.InheritedKeyIsServerError | src/app/api/coinbase/create-charge/route.ts:16-18 | package "toString" gets 500 as written and "Invalid Package" once corrected |
| CreateCharge.ConfirmedChargeCreditsPackage | src/app/api/coinbase/create-charge/route.ts:38-42 | once the charge's own metadata comes back in a verified confirmed event, the buyer gains exactly the package's credits |
| Cashout.FeeSplit | src/app/dashboard/cashout/page.tsx:38-54 | gross is a cent per credit; the fees are 20%, 10% and 30% of gross, 60% in all; net is the remaining 40%, between 0 and gross for a non-negative amount |
| Cashout.QuoteFor | src/app/dashboard/cashout/page.tsx:46-54 | the displayed figures, a definition without a contract of its own: `FeeSplit` proves the fee split and `FiveHundredCreditsExample` the worked example |
| Cashout.FiveHundredCreditsExample | src/app/dashboard/cashout/page.tsx:35-37 | 500 credits are $5 gross, $3 fees and $2 net |
| Cashout.DisplayedQuote | src/app/dashboard/cashout/page.tsx:46-54 | an empty amount shows the figures for 0; otherwise figures exactly when the amount parses, for the parsed count |
| Cashout.SubmitDisabled | src/app/dashboard/cashout/page.tsx:292 | the button is disabled while processing or below 5,000 credits |
| Cashout.Record | src/app/dashboard/cashout/page.tsx:83-98 | the record is pending, for the caller and the amount, sent to the address for Lightning and to the email otherwise |
| Cashout.Withdraw | src/app/dashboard/cashout/page.tsx:72-103 | "User not found" exactly for a missing user; "Insufficient credits" exactly for a balance below the amount; both write nothing; otherwise one pending record is appended and exactly the amount is deducted, leaving the balance non-negative |
| Cashout.Request | src/app/dashboard/cashout/page.tsx:66-103 | the minimum-cashout error exactly when the amount does not parse or is below 5,000, with nothing written; otherwise `Withdraw` for the parsed amount |
| Cashout.Settled | src/app/dashboard/cashout/page.tsx:105-115 | `processing` ends; an error is shown exactly when the request failed; on success the success flag is set and the three inputs cleared |
| Cashout.RequestCashout | src/app/dashboard/cashout/page.tsx:66-103 | the request leaves the store and answers exactly as `Request` says |
| Cashout.RunWithdrawal | src/app/dashboard/cashout/page.tsx:72-103 | the balance check and the two writes do exactly what `Withdraw` says |
| Cashout.HandleCashout | src/app/dashboard/cashout/page.tsx:59-116 | without a user or a method nothing changes; otherwise the store follows `Request` and the form `Settled` |
| Analytics.DateQuery | src/app/actions/analytics.ts:38-40 | exactly the documents dated on or after the window's first key |
| Analytics.Ctr | src/app/actions/analytics.ts:65 | 0 without views; with views, the rate times the views is 100 times the clicks, and it is non-negative for a non-negative click count |
| Analytics.Round | src/app/actions/analytics.ts:72-74 | `Math.round`: the nearest integer, within half a unit of its argument, halves rounded up |
| Analytics.DeviceShares | src/app/actions/analytics.ts:68-79 | three shares named Desktop, Mobile, Tablet; 100/0/0 when there is no device data |
| Analytics.SharesAddUp | src/app/actions/analytics.ts:71-75 | with device data each share is between 0 and 100, and the three sum to 99, 100 or 101 |
| Analytics.Window | src/app/actions/analytics.ts:57-61 | one entry per window key, in order, labelled by the date format, with that day's figures |
| Analytics.Stats | src/app/actions/analytics.ts:13-104 | seven daily entries in window order on both paths; the totals are the sums of the entries; `ctr` is `Ctr` of the totals, so 0 without views and `clicks / views * 100` otherwise; a failed query gives zeros and no device shares; otherwise each day shows its figures and the shares follow the device totals |
| Analytics.AbsentDayIsZero | src/app/actions/analytics.ts:29-31 | a window day no document carries shows 0 views and 0 clicks |
| Analytics.DayFigures | src/app/actions/analytics.ts:42-54 | a day's views and clicks, a definition without a contract of its own: `AbsentDayIsZero` proves a day no document carries is zero, and `LastDocumentWins` that the last document of the day sets the figures |
| Analytics.DeviceTotals | src/app/actions/analytics.ts:42-54 | the device sums, a definition without a contract of its own: `OutsideWindowOnlyCountsDevices` proves a document outside the window only adds to them |
| Analytics.LastDocumentWins | src/app/actions/analytics.ts:45-48 | a day's figures are replaced by the last document of that date, not summed; another date's document changes nothing |
| Analytics.OutsideWindowOnlyCountsDevices | src/app/actions/analytics.ts:45-53 | a document dated outside the window changes no day but adds to the device totals |
| Analytics.InitWindow | src/app/actions/analytics.ts:29-31 | the map holds exactly the window keys, each at zero |
| Analytics.FoldSnapshot | src/app/actions/analytics.ts:42-54 | the fold leaves each window key at `DayFigures` and the device sums at `DeviceTotals` |
| Analytics.GetWebsiteStats | src/app/actions/analytics.ts:13-104 | the method's report is exactly `Stats` |
| Admin.OfferedActions | src/app/dashboard/admin/page.tsx:123-140 | Approve exactly for pending, denied or unset; Suspend exactly for approved; Unsuspend exactly for suspended; Delete always, last; no button leads to denied or pending |
| Admin.StatusText | src/app/dashboard/admin/page.tsx:70-73 | "Unknown" for an unset or empty status; otherwise the first character upper-cased and the rest kept |
| Admin.UpdateRows | src/app/dashboard/admin/page.tsx:48-52 | same length and order; only rows with the id take the new status, with `active` true exactly for approved |
| Admin.RemoveRows | src/app/dashboard/admin/page.tsx:63 | exactly the rows with another id remain |
| Admin.RemoveRowsKeepsOrder | src/app/dashboard/admin/page.tsx:63 | the remaining rows keep their order |
| Admin.UpdateStatus | src/app/dashboard/admin/page.tsx:42-47 | the write succeeds exactly for an existing document and a working network; it sets status and `active` together on that document only, so active-exactly-when-approved is preserved |
| Admin.DeleteSite | src/app/dashboard/admin/page.tsx:62 | on success exactly that document leaves the collection and the document order; the rest is unchanged |
| Admin.LastStatusWins | src/app/dashboard/admin/page.tsx:42-47 | of two status changes to one website only the last is seen |
| Admin.UpdateKeepsMirror | src/app/dashboard/admin/page.tsx:43-52 | after a successful update the page's rows still show their documents' status and flag |
| Admin.DeleteKeepsMirror | src/app/dashboard/admin/page.tsx:62-63 | after a successful delete the page's rows still show their documents' status and flag |
| Admin.HandleUpdateStatus | src/app/dashboard/admin/page.tsx:40-57 | a failed write changes neither the store nor the list; a successful one changes both as `UpdateStatus` and `UpdateRows` say |
| Admin.HandleDeleteWebsite | src/app/dashboard/admin/page.tsx:59-68 | nothing without confirmation or after a failed delete; otherwise store and list follow `DeleteSite` and `RemoveRows` |
| AdVerify.Verify | src/app/api/ad-verify/route.ts:7-29 | 500 exactly for a missing token; 400 with no change exactly for an unknown token; success exactly for a pending one, which is then deleted; nothing else changes |
| AdVerify.TokenIsSingleUse | src/app/api/ad-verify/route.ts:12-27 | the same token a second time is refused and changes nothing |
| AdVerify.NoBalanceChanges | src/app/api/ad-verify/route.ts:21-24 | no balance changes |
| AdVerify.Post | src/app/api/ad-verify/route.ts:6-30 | the handler leaves the store and answers exactly as `Verify` says |
| PrivateKey.FormatPrivateKey | src/lib/firebase-admin.ts:3-5 | no backslash-`n` pair remains; the key never grows; the first character is kept unless it opens a pair, which becomes a newline |
| PrivateKey.LengthDropsByPairs | src/lib/firebase-admin.ts:3-5 | the length drops by exactly the number of pairs replaced |
| PrivateKey.NoPairUnchanged | src/lib/firebase-admin.ts:3-5 | a key with no pair is returned unchanged |
| PrivateKey.Idempotent | src/lib/firebase-admin.ts:3-5 | formatting twice is formatting once |
| PrivateKey.UnformatRoundTrip | src/lib/firebase-admin.ts:3-5 | for a key without newlines, writing the newlines out again restores it, so every other character stays in place |
| PrivateKey.Example | src/lib/firebase-admin.ts:3-5 | "a\\nb" becomes "a", newline, "b" |
| ScriptRoute.Get | src/app/api/script/route.ts:7-13 | 400 exactly for a missing id; otherwise the script for that id, with the app URL or the default origin as its server |
| ScriptRoute.EscapeChar | src/app/api/script/route.ts:55-62 | the five special characters get their entities; every other character is copied |
| ScriptRoute.Escape | src/app/api/script/route.ts:55-62 | the result contains none of `<`, `>`, `'`, `"`; it never shrinks; text without special characters is unchanged |
| ScriptRoute.EscapeHtml | src/app/api/script/route.ts:53-63 | "" for a falsy input, otherwise the escaped text |
| ScriptRoute.EscapeRoundTrip | src/app/api/script/route.ts:55-62 | reading the entities back gives the original text, so nothing is lost |
| ScriptRoute.EscapeExample | src/app/api/script/route.ts:55-62 | "<b>" becomes "&lt;b&gt;" |
| Widget.ClickUrlTargetsServer | src/app/api/script/route.ts:147 | the card's link always leads to the server's click route for the widget's own site |
| Widget.CardIsEscaped | src/app/api/script/route.ts:147-159 | the card's domain and description contain no markup character, and the description is the escaped text or the default |
| Widget.Cleared | src/app/api/script/route.ts:101 | `clearTimeout` removes exactly the timer the variable holds |
| Widget.Scheduled | src/app/api/script/route.ts:196 | `setTimeout` adds one fresh timer with the delay and stores its id |
| Widget.Open | src/app/api/script/route.ts:86-95 | the card shows, the button hides, the closed flag drops |
| Widget.Close | src/app/api/script/route.ts:97-110 | the closed flag is set, the pending refresh is cancelled (timers exactly as `Cleared` leaves them), the button shows |
| Widget.Render | src/app/api/script/route.ts:129-182 | no ad hides the card; an ad fills the escaped card, takes a non-zero interval times 1000, and opens the card unless closed, else shows the button |
| Widget.Fetch | src/app/api/script/route.ts:184-188 | nothing while closed; otherwise one more request in flight |
| Widget.Succeeded | src/app/api/script/route.ts:189-198 | render, clear the old timer, and schedule the next fetch at the interval only while open |
| Widget.Failed | src/app/api/script/route.ts:199-205 | clear the old timer and retry after 60000 only while open |
| Widget.Fired | src/app/api/script/route.ts:196 | a firing timer is gone, and its callback starts a request unless the widget is closed; nothing else changes |
| Widget.Reopened | src/app/api/script/route.ts:122-127 | a click on the button opens the card and fetches at once |
| Widget.AtMostOnePending | src/app/api/script/route.ts:192-203 | under the invariant at most one refresh is pending |
| Widget.InitialInv | src/app/api/script/route.ts:81-83 | the initial state, with interval 30000, meets the invariant |
| Widget.CloseKeepsInv | src/app/api/script/route.ts:97-110 | closing keeps the invariant |
| Widget.ReopenKeepsInv | src/app/api/script/route.ts:122-127 | reopening and fetching keep the invariant |
| Widget.FiredKeepsInv | src/app/api/script/route.ts:196 | a timer firing keeps the invariant |
| Widget.SuccessKeepsInv | src/app/api/script/route.ts:189-198 | an answer keeps the invariant |
| Widget.FailureKeepsInv | src/app/api/script/route.ts:199-205 | a failure keeps the invariant |
| Widget.ClosedSleeps | src/app/api/script/route.ts:97-101 | while closed no timer is pending and a fetch does nothing |
| Widget.NextRefreshAtInterval | src/app/api/script/route.ts:139-141 | after an answer while open exactly one refresh is pending, at the interval now in force |
| Widget.RetryAfterFailure | src/app/api/script/route.ts:199-205 | after a failure while open exactly one retry is pending, at 60000 |
| Widget.RenderShowsAdUnlessClosed | src/app/api/script/route.ts:130-181 | no ad hides the card; an ad shows it exactly when the visitor has not closed it |
| Widget.WidgetState.constructor | src/app/api/script/route.ts:80-83 | the widget starts in the initial state |
| Widget.WidgetState.OpenAd | src/app/api/script/route.ts:86-95 | the fields change exactly as `Open` says |
| Widget.WidgetState.ClearTimer | src/app/api/script/route.ts:101 | the fields change exactly as `Cleared` says |
| Widget.WidgetState.SetTimer | src/app/api/script/route.ts:196 | the fields change exactly as `Scheduled` says |
| Widget.WidgetState.CloseAd | src/app/api/script/route.ts:97-110 | the fields change exactly as `Close` says |
| Widget.WidgetState.FillCard | src/app/api/script/route.ts:138-171 | the fields change exactly as `Filled` says |
| Widget.WidgetState.ShowCard | src/app/api/script/route.ts:174-181 | the fields change exactly as `Shown` says |
| Widget.WidgetState.RenderAd | src/app/api/script/route.ts:129-182 | the fields change exactly as `Render` says |
| Widget.WidgetState.FetchAd | src/app/api/script/route.ts:184-188 | the fields change exactly as `Fetch` says |
| Widget.WidgetState.OnFetchSuccess | src/app/api/script/route.ts:189-198 | the fields change exactly as `Succeeded` says |
| Widget.WidgetState.OnFetchFailure | src/app/api/script/route.ts:199-205 | the fields change exactly as `Failed` says |
| Widget.WidgetState.TimerFires | src/app/api/script/route.ts:196 | the fields change exactly as `Fired` says |
| Widget.WidgetState.MinimizedClick | src/app/api/script/route.ts:122-127 | the fields change exactly as `Reopened` says |

## Left out

- Concurrency: every handler runs alone, and a Firestore transaction is one atomic step. Transaction retries, and the gap between cashout's read and its writes, are not modelled.
- Floating point: money and shares are exact reals. The `toFixed(2)` strings of the cashout record are kept as the unrounded figures. `Math.round` is rounding to nearest with halves up.
- Clocks and randomness are inputs: "now", "tomorrow", the seven date keys (the loop that builds them from `new Date()`), `toLocaleDateString`, and the number `Math.random()` returns.
- Document order: the equality queries of ad serving and website registration return documents in document-id order. The model takes that order as the `siteOrder` list, and the new document's id and place in it as inputs.
- Analytics.DateQuery: the analytics query filters on `date >=` with no `orderBy`, so Firestore returns the documents by date first and by id within a date. The model keeps the collection's id order instead. Documents of one date come in the same relative order either way, and the device sums do not depend on order, so the report is the same.
- Websites.Hostname: a simplified reading of the URL standard's host parser. It splits the scheme, skips slashes for http/https, drops user info and a numeric port, rejects forbidden code points and lower-cases ASCII. IDNA, percent-decoding and IP address forms are not modelled. The spelling lemmas cover plain hosts (host characters, no white space) with an empty or `/` path; user info, ports, `?` and `#` after the host are not covered by them.
- Click.Pay: whether `NextResponse.redirect` accepts the target is decided by the simplified host parser `Websites.Hostname`. The `Location` header it sends is `new URL(url)` written back out, which may differ from the target, for example by a trailing `/`; that normal form is not modelled.
- JsText.ToLower: only ASCII capitals are lowered. JavaScript's `toLowerCase` also lowers other Unicode capitals ("É" to "é"), and a few of them ("İ") turn into two code units, which changes the length. Domains outside ASCII are not modelled, as the simplified host parser shows.
- JsText.ParseInt: the result is an exact integer. JavaScript's `parseInt` returns a double, so numbers above 2^53 are rounded ("9007199254740993" reads as 9007199254740992). Credit amounts that large are not modelled.
- Metadata and document fields are strings or integers as the code expects. Numbers or objects where strings are expected, and `null` fields, are not modelled.
- Document paths containing "/" (which Firestore refuses) are not modelled.
- Analytics: a document whose date is an `Object.prototype` key such as "constructor" writes onto that inherited member, not onto a day. The model treats it like any date outside the window, which gives the same report.
- The `onSnapshot` balance listener of the cashout page, and the admin page's `fetchWebsites` load, are not modelled. The admin page's rows start empty.
- Unknown status strings in admin documents are not modelled. The status is one of the four values or unset.
- Admin.HandleUpdateStatus: only the three statuses the buttons send.
- Cashout.RequestCashout: a failing `addDoc` or `updateDoc` is not modelled; both writes succeed.
- The widget's `verifyVisit` step, the DOM and CSS details, the double-load check and `init` are not modelled. So is a `renderAd` that throws on a non-string ad field.
- ScriptRoute.Get: the script text itself is not modelled, including the unescaped interpolation of the site id into it. The model gives the id and server origin the script is built from.
- `initAdmin`, `getAdminDb` and `getAdminAuth` are not modelled; the store is always available. An initialisation failure surfaces as the handlers' store-failure inputs where the handler catches it.
- HMAC-SHA256, `JSON.parse` and the Coinbase HTTP call are function parameters.
- Nothing in the repository writes `pending_clicks`. The model's token set is only ever shrunk.

## Findings

| source | as written | input that shows it | evidently intended | confidence | as-written member | corrected member |
|---|---|---|---|---|---|---|
| src/app/api/click/route.ts:57-63 | the "Ensure protocol" step tests `startsWith("http")`, so a stored domain such as "httpbin.org" gets no scheme; `NextResponse.redirect` then throws on it after the transaction has committed, and the advertiser pays for a click whose visitor gets 500 | a target website whose domain is "httpbin.org" (what registering "https://httpbin.org" stores) and whose owner has credits | "https://" prefixed unless the domain already has an http(s) scheme, and a redirect | not executed | Click.SchemelessDomainPaysAndFails | Click.SchemedRedirectUrl |
| src/app/api/coinbase/create-charge/route.ts:16-18 | `PACKAGES[packageId]` also finds members inherited from `Object.prototype`, which pass the check; `pkg.credits.toString()` then throws and the route answers 500 | packageId "toString" with a user id and an API key set | 400 "Invalid Package" for anything but the three package keys | not executed | CreateCharge.PostAsWritten | CreateCharge.Post |
