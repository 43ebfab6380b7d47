/**
 * The `submitWebsite` server action: the website registration guard.  It
 * rejects suspended accounts, normalises the domain, and on a domain that
 * another account already registered escalates punishment (a one-day
 * suspension on the first offence, a permanent ban on the second); otherwise
 * it adds a pending, inactive website.
 */
module Websites {
  import opened Wrappers
  import opened JsText
  import opened Ledger

  datatype WebsiteData = WebsiteData(
    domain: string,
    category: string,
    refreshInterval: int,
    adTitle: string,
    adDescription: string,
    widgetColor: string,
    widgetBgColor: string)

  datatype SubmitError =
    | Unauthorized
    | ProfileNotFound
    | PermanentlySuspended
    | SuspendedUntil(until: int)
    | InvalidDomainFormat
    | AlreadyRegistered
    | RepeatOffenseBan
    | FirstOffenseSuspension

  datatype Outcome = Success | Failure(error: SubmitError)

  const FirstOffenseReason: string := "Duplicate domain submission (1st Offense)"
  const RepeatOffenseReason: string := "Duplicate domain submission (Repeat Offense)"

  // ---------------------------------------------------------------------------
  // Host name extraction: a simplified reading of `new URL(s).hostname`.
  // ---------------------------------------------------------------------------

  /** The position of the first `c` in `s`, if any. */
  function IndexOf(s: string, c: char): (r: Option<nat>)
    ensures r.Some? ==> r.value < |s| && s[r.value] == c && c !in s[..r.value]
    ensures r.None? ==> c !in s
  {
    if s == [] then None
    else if s[0] == c then Some(0)
    else match IndexOf(s[1..], c)
      case None => None
      case Some(k) =>
        assert s[..k + 1] == [s[0]] + s[1..][..k];
        Some(k + 1)
  }

  /** The part of `s` after its last `c` (all of `s` when there is none). */
  function AfterLast(s: string, c: char): (r: string)
    ensures |r| <= |s| && r == s[|s| - |r|..]
    ensures c !in r
  {
    if s == [] then []
    else if s[|s| - 1] == c then []
    else AfterLast(s[..|s| - 1], c) + [s[|s| - 1]]
  }

  /** Tab and newline code points, which the URL parser removes before parsing. */
  predicate IsTabOrNewline(c: char) { c == '\t' || c == '\n' || c == '\r' }

  function RemoveTabsAndNewlines(s: string): (r: string)
    ensures |r| <= |s|
    ensures forall i :: 0 <= i < |r| ==> !IsTabOrNewline(r[i])
  {
    if s == [] then []
    else (if IsTabOrNewline(s[0]) then [] else [s[0]]) + RemoveTabsAndNewlines(s[1..])
  }

  predicate IsSchemeChar(c: char) {
    IsLowerAscii(c) || IsUpperAscii(c) || IsDigit(c) || c == '+' || c == '-' || c == '.'
  }

  predicate IsSpecialScheme(scheme: string) { scheme == "http" || scheme == "https" }

  /** Characters that end the authority part of a URL. */
  predicate EndsAuthority(c: char, special: bool) {
    c == '/' || c == '?' || c == '#' || (special && c == '\\')
  }

  function AuthorityEnd(s: string, special: bool): (k: nat)
    ensures k <= |s|
    ensures forall i :: 0 <= i < k ==> !EndsAuthority(s[i], special)
    ensures k < |s| ==> EndsAuthority(s[k], special)
  {
    if s == [] || EndsAuthority(s[0], special) then 0 else 1 + AuthorityEnd(s[1..], special)
  }

  function DropSlashes(s: string): string {
    if s != [] && (s[0] == '/' || s[0] == '\\') then DropSlashes(s[1..]) else s
  }

  /** Code points a host may not contain (those not already split off by the parser). */
  predicate IsForbiddenHostChar(c: char) {
    || c < ' ' || c == ' ' || c == '<' || c == '>' || c == '[' || c == ']'
    || c == '^' || c == '|' || c == '\\' || c == '\U{007F}'
  }

  /** What a parsed host name is made of. */
  predicate IsHostChar(c: char) {
    !IsForbiddenHostChar(c) && !IsUpperAscii(c) && c != '/' && c != '?' && c != '#' && c != '@' && c != ':'
  }

  /** The host of an authority `userinfo@host:port`, or `None` when the port is not a number below 65536. */
  function HostOf(authority: string): (r: Option<string>)
    ensures r.Some? ==> '@' !in r.value && ':' !in r.value
    ensures r.Some? ==> var j := |authority| - |AfterLast(authority, '@')|;
      j + |r.value| <= |authority| && r.value == authority[j..j + |r.value|]
  {
    HostOfHostPort(AfterLast(authority, '@'))
  }

  /** The host of `host:port`, or `None` when the port is not a number below 65536. */
  function HostOfHostPort(hostPort: string): (r: Option<string>)
    ensures r.Some? ==> ':' !in r.value && |r.value| <= |hostPort| && r.value == hostPort[..|r.value|]
  {
    match IndexOf(hostPort, ':')
    case None => Some(hostPort)
    case Some(k) => if IsPort(hostPort[k + 1..]) then Some(hostPort[..k]) else None
  }

  /** A port: decimal digits whose value is at most 65535. */
  predicate IsPort(port: string) {
    (forall i :: 0 <= i < |port| ==> IsDigit(port[i])) && DigitsValue(port, 10) <= 65535
  }

  /**
   * `new URL(s).hostname`, or `None` where the constructor throws.  A special
   * scheme (`http`, `https`) skips any slashes after the colon and needs a
   * non-empty host; another scheme has a host only after `//`.  A host with
   * a forbidden code point is an error; ASCII letters are lower-cased.
   */
  function Hostname(s: string): (r: Option<string>)
    ensures r.Some? ==> forall i :: 0 <= i < |r.value| ==> IsHostChar(r.value[i])
  {
    var url := RemoveTabsAndNewlines(s);
    match IndexOf(url, ':')
    case None => None
    case Some(k) =>
      var scheme := url[..k];
      if scheme == [] || !(IsLowerAscii(scheme[0]) || IsUpperAscii(scheme[0]))
         || !(forall i :: 0 <= i < |scheme| ==> IsSchemeChar(scheme[i]))
      then None
      else
        var rest := url[k + 1..];
        var special := IsSpecialScheme(ToLower(scheme));
        if !special && !StartsWith(rest, "//") then Some("")
        else
          var tail := if special then DropSlashes(rest) else rest[2..];
          ParsedHost(tail[..AuthorityEnd(tail, special)], special)
  }

  /** The host of an authority: empty is an error for a special scheme, and so is a forbidden code point. */
  function ParsedHost(authority: string, special: bool): (r: Option<string>)
    requires forall i :: 0 <= i < |authority| ==> !EndsAuthority(authority[i], special)
    ensures r.Some? ==> forall i :: 0 <= i < |r.value| ==> IsHostChar(r.value[i])
  {
    match HostOf(authority)
    case None => None
    case Some(host) =>
      if (special && host == []) || exists i :: 0 <= i < |host| && IsForbiddenHostChar(host[i]) then None
      else
        var lowered := ToLower(host);
        assert forall i :: 0 <= i < |lowered| ==> IsHostChar(lowered[i]) by {
          var j := |authority| - |AfterLast(authority, '@')|;
          forall i | 0 <= i < |lowered| ensures IsHostChar(lowered[i]) {
            assert host[i] == authority[j + i];
            assert !EndsAuthority(authority[j + i], special);
          }
        }
        Some(lowered)
  }

  /** `hostname.replace(/^www\./, '')`: one leading `www.` is removed. */
  function StripWww(host: string): (r: string)
    ensures StartsWith(host, "www.") ==> host == "www." + r
    ensures !StartsWith(host, "www.") ==> r == host
    ensures (forall i :: 0 <= i < |host| ==> IsHostChar(host[i])) ==> forall i :: 0 <= i < |r| ==> IsHostChar(r[i])
  {
    if StartsWith(host, "www.") then
      assert forall i :: 0 <= i < |host[4..]| ==> host[4..][i] == host[i + 4];
      host[4..]
    else host
  }

  /**
   * The domain cleaning: lower-case and trim, prefix `https://` unless the
   * text starts with "http", take the URL's host name and drop one `www.`.
   * `None` is the "Invalid domain format" error.
   */
  function CleanDomain(raw: string): (r: Option<string>)
    ensures r.Some? ==> forall i :: 0 <= i < |r.value| ==> IsHostChar(r.value[i])
  {
    match Hostname(UrlOf(raw))
    case None => None
    case Some(host) => Some(StripWww(host))
  }

  /** The text the URL is parsed from: lower-cased, trimmed, and given a scheme unless it starts with "http". */
  function UrlOf(raw: string): string {
    var lowered := Trim(ToLower(raw));
    if HasHttpPrefix(lowered) then lowered else "https://" + lowered
  }

  /** `t.startsWith('http')`, compared character by character. */
  predicate HasHttpPrefix(t: string) {
    |t| >= 4 && t[0] == 'h' && t[1] == 't' && t[2] == 't' && t[3] == 'p'
  }

  lemma HttpPrefixIsStartsWith(t: string)
    ensures HasHttpPrefix(t) <==> StartsWith(t, "http")
  {
    if |t| >= 4 {
      assert HasHttpPrefix(t) ==> t[..4] == "http";
    }
  }

  /** The URL text always carries an http(s) scheme. */
  lemma UrlOfHasScheme(raw: string)
    ensures StartsWith(UrlOf(raw), "http")
  {
    var lowered := Trim(ToLower(raw));
    HttpPrefixIsStartsWith(lowered);
    if !HasHttpPrefix(lowered) {
      assert ("https://" + lowered)[..4] == "http";
    }
  }

  /** Trimming a text without ASCII capitals leaves none. */
  lemma TrimKeepsNoCapital(s: string)
    requires forall i :: 0 <= i < |s| ==> !IsUpperAscii(s[i])
    ensures forall i :: 0 <= i < |Trim(s)| ==> !IsUpperAscii(Trim(s)[i])
  {
    var r := Trim(s);
    var k := |s| - |TrimStart(s)|;
    assert r == s[k..k + |r|];
    forall i | 0 <= i < |r| ensures !IsUpperAscii(r[i]) {
      assert r[i] == s[k + i];
    }
  }

  /** The scheme prefix adds no ASCII capital. */
  lemma PrefixKeepsNoCapital(t: string)
    requires forall i :: 0 <= i < |t| ==> !IsUpperAscii(t[i])
    ensures forall i :: 0 <= i < |"https://" + t| ==> !IsUpperAscii(("https://" + t)[i])
  {
    var u := "https://" + t;
    forall i | 0 <= i < |u| ensures !IsUpperAscii(u[i]) {
      if i >= 8 { assert u[i] == t[i - 8]; }
    }
  }

  /** The URL text has no ASCII capital, so the host name never depends on the input's case. */
  lemma UrlOfIsLower(raw: string)
    ensures forall i :: 0 <= i < |UrlOf(raw)| ==> !IsUpperAscii(UrlOf(raw)[i])
  {
    var lowered := Trim(ToLower(raw));
    TrimKeepsNoCapital(ToLower(raw));
    PrefixKeepsNoCapital(lowered);
  }

  // ---------------------------------------------------------------------------
  // Spellings of one domain: the duplicate check compares cleaned keys, so
  // every way of typing one host must clean to the same key.
  // ---------------------------------------------------------------------------

  /** A bare host name as a user types it: non-empty, host characters only, no white space. */
  predicate IsPlainHost(h: string) {
    h != [] && forall i :: 0 <= i < |h| ==> IsHostChar(h[i]) && !IsSpace(h[i])
  }

  /** What may follow the host: nothing, or a path starting with `/`, without white space. */
  predicate IsPath(p: string) {
    p == [] || (p[0] == '/' && forall i :: 0 <= i < |p| ==> !IsSpace(p[i]))
  }

  predicate AllSpace(w: string) {
    forall i :: 0 <= i < |w| ==> IsSpace(w[i])
  }

  lemma {:induction false} NoTabsUnchanged(s: string)
    requires forall i :: 0 <= i < |s| ==> !IsTabOrNewline(s[i])
    ensures RemoveTabsAndNewlines(s) == s
  {
    if s != [] {
      NoTabsUnchanged(s[1..]);
      assert [s[0]] + s[1..] == s;
    }
  }

  lemma {:induction false} AfterLastAbsent(s: string, c: char)
    requires c !in s
    ensures AfterLast(s, c) == s
  {
    if s != [] {
      AfterLastAbsent(s[..|s| - 1], c);
      assert s[..|s| - 1] + [s[|s| - 1]] == s;
    }
  }

  lemma LowerUnchanged(s: string)
    requires forall i :: 0 <= i < |s| ==> !IsUpperAscii(s[i])
    ensures ToLower(s) == s
  {
  }

  /** `trim` removes exactly the white space around a text that neither starts nor ends with it. */
  lemma TrimOfPadded(lead: string, y: string, trail: string)
    requires AllSpace(lead) && AllSpace(trail)
    requires y != [] && !IsSpace(y[0]) && !IsSpace(y[|y| - 1])
    ensures Trim(lead + y + trail) == y
  {
    TrimStartOfPadded(lead, y + trail);
    assert lead + y + trail == lead + (y + trail);
    TrimEndOfPadded(y, trail);
  }

  lemma {:induction false} TrimStartOfPadded(lead: string, t: string)
    requires AllSpace(lead) && t != [] && !IsSpace(t[0])
    ensures TrimStart(lead + t) == t
  {
    if lead != [] {
      assert (lead + t)[1..] == lead[1..] + t;
      TrimStartOfPadded(lead[1..], t);
    }
  }

  lemma {:induction false} TrimEndOfPadded(y: string, trail: string)
    requires AllSpace(trail) && y != [] && !IsSpace(y[|y| - 1])
    ensures TrimEnd(y + trail) == y
  {
    if trail != [] {
      var shorter := trail[..|trail| - 1];
      assert (y + trail)[..|y + trail| - 1] == y + shorter;
      TrimEndOfPadded(y, shorter);
    }
  }

  /** Lower-casing leaves the white space around a text alone. */
  lemma ToLowerOfPadded(lead: string, x: string, trail: string)
    requires AllSpace(lead) && AllSpace(trail)
    ensures ToLower(lead + x + trail) == lead + ToLower(x) + trail
  {
    var s := lead + x + trail;
    forall i | 0 <= i < |s| ensures ToLower(s)[i] == (lead + ToLower(x) + trail)[i] {
      if i < |lead| {
      } else if i < |lead| + |x| {
        assert s[i] == x[i - |lead|];
      } else {
        assert s[i] == trail[i - |lead| - |x|];
      }
    }
  }

  /** The URL parser finds the scheme at the first colon. */
  lemma IndexOfFirst(p: string, c: char, t: string)
    requires c !in p
    ensures IndexOf(p + [c] + t, c) == Some(|p|)
  {
    var s := p + [c] + t;
    assert s[|p|] == c;
    assert s[..|p|] == p;
  }

  lemma DropTwoSlashes(t: string)
    requires t == [] || (t[0] != '/' && t[0] != '\\')
    ensures DropSlashes("//" + t) == t
  {
    var u := "//" + t;
    assert u[0] == '/' && u[1..] == "/" + t;
    assert ("/" + t)[0] == '/' && ("/" + t)[1..] == t;
    assert DropSlashes(t) == t;
  }

  /** The authority of `h + path` is `h`: the path's `/` ends it. */
  lemma AuthorityIsHost(h: string, path: string)
    requires IsPlainHost(h) && IsPath(path)
    ensures AuthorityEnd(h + path, true) == |h|
  {
    var s := h + path;
    assert forall i :: 0 <= i < |h| ==> s[i] == h[i];
    assert path != [] ==> s[|h|] == path[0];
  }

  /** The host of an authority that is a plain host is that host. */
  lemma ParsedPlainHost(h: string)
    requires IsPlainHost(h)
    ensures ParsedHost(h, true) == Some(h)
  {
    assert '@' !in h && ':' !in h by {
      forall i | 0 <= i < |h| ensures h[i] != '@' && h[i] != ':' {
        assert IsHostChar(h[i]);
      }
    }
    AfterLastAbsent(h, '@');
    assert HostOf(h) == Some(h);
    LowerUnchanged(h);
  }

  /** The host name of a URL whose first colon ends an http(s) scheme. */
  lemma HostnameOfSpecial(url: string, k: nat)
    requires forall i :: 0 <= i < |url| ==> !IsTabOrNewline(url[i])
    requires IndexOf(url, ':') == Some(k)
    requires url[..k] == "http" || url[..k] == "https"
    ensures var tail := DropSlashes(url[k + 1..]);
      Hostname(url) == ParsedHost(tail[..AuthorityEnd(tail, true)], true)
  {
    NoTabsUnchanged(url);
    HttpIsSpecialScheme(url[..k]);
  }

  /** `http` and `https` are well-formed schemes, and special ones. */
  lemma HttpIsSpecialScheme(scheme: string)
    requires scheme == "http" || scheme == "https"
    ensures scheme != [] && IsLowerAscii(scheme[0])
    ensures forall i :: 0 <= i < |scheme| ==> IsSchemeChar(scheme[i])
    ensures IsSpecialScheme(ToLower(scheme))
  {
    assert forall i :: 0 <= i < |scheme| ==> IsLowerAscii(scheme[i]);
    LowerUnchanged(scheme);
  }

  /**
   * `new URL(scheme + "://" + h + path).hostname` is `h` for an http(s)
   * scheme, a plain host and a path.
   */
  lemma HostnameOfUrl(scheme: string, h: string, path: string)
    requires scheme == "http" || scheme == "https"
    requires IsPlainHost(h) && IsPath(path)
    ensures Hostname(scheme + "://" + h + path) == Some(h)
  {
    var url := scheme + "://" + h + path;
    UrlSplitsAtScheme(scheme, h, path);
    HostnameOfSpecial(url, |scheme|);
    DropTwoSlashes(h + path);
    AuthorityIsHost(h, path);
    assert (h + path)[..|h|] == h;
    ParsedPlainHost(h);
  }

  /** The URL text has no tab or newline, and its first colon ends the scheme. */
  lemma UrlSplitsAtScheme(scheme: string, h: string, path: string)
    requires scheme == "http" || scheme == "https"
    requires IsPlainHost(h) && IsPath(path)
    ensures var url := scheme + "://" + h + path;
      && (forall i :: 0 <= i < |url| ==> !IsTabOrNewline(url[i]))
      && IndexOf(url, ':') == Some(|scheme|)
      && url[..|scheme|] == scheme
      && url[|scheme| + 1..] == "//" + (h + path)
  {
    var url := scheme + "://" + h + path;
    forall i | 0 <= i < |url| ensures !IsTabOrNewline(url[i]) {
      if |scheme| + 3 <= i < |scheme| + 3 + |h| {
        assert url[i] == h[i - |scheme| - 3];
      } else if |scheme| + 3 + |h| <= i {
        assert url[i] == path[i - |scheme| - 3 - |h|];
      }
    }
    var rest := "//" + (h + path);
    assert url == scheme + [':'] + rest;
    IndexOfFirst(scheme, ':', rest);
  }

  /**
   * Every spelling of a plain host cleans to the same key: surrounding white
   * space, any upper case, an optional `http://` or `https://` and a path
   * all give the host without its leading `www.`.  Without a scheme the
   * host must not itself start with "http".
   */
  lemma CleanSpelling(lead: string, written: string, trail: string, scheme: string, h: string, path: string)
    requires AllSpace(lead) && AllSpace(trail)
    requires scheme == "" || scheme == "http://" || scheme == "https://"
    requires ToLower(written) == scheme + h + path
    requires IsPlainHost(h) && IsPath(path)
    requires scheme == "" ==> !StartsWith(h, "http")
    ensures CleanDomain(lead + written + trail) == Some(StripWww(h))
  {
    LoweredAndTrimmed(lead, written, trail, scheme, h, path);
    SpelledUrl(scheme, h, path);
    HostnameOfUrl(SchemeName(scheme), h, path);
  }

  /** The scheme a spelling ends up with: `https` unless `http://` was typed. */
  function SchemeName(scheme: string): string {
    if scheme == "http://" then "http" else "https"
  }

  /** The URL text of a lowered and trimmed spelling. */
  lemma SpelledUrl(scheme: string, h: string, path: string)
    requires scheme == "" || scheme == "http://" || scheme == "https://"
    requires IsPlainHost(h) && IsPath(path)
    requires scheme == "" ==> !StartsWith(h, "http")
    ensures var y := scheme + h + path;
      (if HasHttpPrefix(y) then y else "https://" + y) == SchemeName(scheme) + "://" + h + path
  {
    HttpPrefixIsStartsWith(scheme + h + path);
    if scheme == "" {
      NoSchemeNotHttp(h, path);
      assert scheme + h + path == h + path;
    } else {
      assert scheme == SchemeName(scheme) + "://";
      PrefixStartsWith(scheme, h + path, "http");
      assert scheme + h + path == scheme + (h + path);
    }
  }

  /** Lower-casing and trimming a spelling leaves the scheme, the host and the path. */
  lemma LoweredAndTrimmed(lead: string, written: string, trail: string, scheme: string, h: string, path: string)
    requires AllSpace(lead) && AllSpace(trail)
    requires scheme == "" || scheme == "http://" || scheme == "https://"
    requires ToLower(written) == scheme + h + path
    requires IsPlainHost(h) && IsPath(path)
    ensures Trim(ToLower(lead + written + trail)) == scheme + h + path
  {
    var y := scheme + h + path;
    ToLowerOfPadded(lead, written, trail);
    assert y[0] == (if scheme == "" then h[0] else 'h');
    if path == [] {
      assert y[|y| - 1] == h[|h| - 1];
    } else {
      assert y[|y| - 1] == path[|path| - 1];
    }
    TrimOfPadded(lead, y, trail);
  }

  /** A host that does not start with "http" still does not once a path follows it. */
  lemma NoSchemeNotHttp(h: string, path: string)
    requires h != [] && !StartsWith(h, "http") && IsPath(path)
    ensures !StartsWith(h + path, "http")
  {
    var y := h + path;
    assert |h| >= 4 ==> y[..4] == h[..4];
    assert |h| < 4 && path != [] ==> y[|h|] == '/' && "http"[|h|] != '/';
  }

  lemma PrefixStartsWith(p: string, t: string, q: string)
    requires StartsWith(p, q)
    ensures StartsWith(p + t, q)
  {
    assert (p + t)[..|q|] == p[..|q|];
  }

  /** A plain host typed as it is cleans to itself without its leading `www.`. */
  lemma CleanPlainHost(h: string)
    requires IsPlainHost(h) && !StartsWith(h, "http")
    ensures CleanDomain(h) == Some(StripWww(h))
  {
    LowerUnchanged(h);
    assert [] + h + [] == h;
    CleanSpelling([], h, [], "", h, []);
  }

  /** With and without `www.`, a host is one key. */
  lemma WwwIsDropped(h: string)
    requires IsPlainHost(h) && !StartsWith(h, "http") && !StartsWith(h, "www.")
    ensures CleanDomain("www." + h) == CleanDomain(h) == Some(h)
  {
    var w := "www." + h;
    assert forall i :: 0 <= i < |w| ==> IsHostChar(w[i]) && !IsSpace(w[i]) by {
      forall i | 0 <= i < |w| ensures IsHostChar(w[i]) && !IsSpace(w[i]) {
        if i >= 4 { assert w[i] == h[i - 4]; }
      }
    }
    assert w[..4] == "www.";
    assert w[4..] == h;
    CleanPlainHost(w);
    CleanPlainHost(h);
  }

  /**
   * A host that starts with "http" but is typed without a scheme is parsed
   * as a URL of its own and refused: "httpbin.org" is "Invalid domain format".
   */
  lemma HttpNameWithoutSchemeRefused(h: string)
    requires IsPlainHost(h) && StartsWith(h, "http")
    ensures CleanDomain(h).None?
  {
    LowerUnchanged(h);
    assert [] + h + [] == h;
    TrimOfPadded([], h, []);
    HttpPrefixIsStartsWith(h);
    var url := UrlOf(h);
    assert url == h;
    HostAloneIsNoUrl(h);
    assert Hostname(url).None?;
  }

  /** The host of `https://` followed by a plain host is that host. */
  lemma HostnameOfHttpsHost(h: string)
    requires IsPlainHost(h)
    ensures Hostname("https://" + h) == Some(h)
  {
    HostnameOfUrl("https", h, []);
    assert "https" + "://" + h + [] == "https://" + h;
  }

  /** A plain host on its own has no scheme, so `new URL(h)` throws. */
  lemma HostAloneIsNoUrl(h: string)
    requires IsPlainHost(h)
    ensures Hostname(h).None?
  {
    assert forall i :: 0 <= i < |h| ==> !IsTabOrNewline(h[i]) && h[i] != ':' by {
      forall i | 0 <= i < |h| ensures !IsTabOrNewline(h[i]) && h[i] != ':' {
        assert IsHostChar(h[i]);
      }
    }
    NoTabsUnchanged(h);
    assert ':' !in h;
    assert IndexOf(h, ':').None?;
  }

  // ---------------------------------------------------------------------------
  // The registration guard.
  // ---------------------------------------------------------------------------

  /** `where("domain", "==", d).get().docs[0]`: the first website of `order` with that domain. */
  function FirstWithDomain(db: Db, order: seq<string>, domain: string): (r: Option<string>)
    ensures r.Some? ==> r.value in order && r.value in db.sites && db.sites[r.value].domain == domain
    ensures r.None? ==> forall id :: id in order && id in db.sites ==> db.sites[id].domain != domain
  {
    if order == [] then None
    else if order[0] in db.sites && db.sites[order[0]].domain == domain then Some(order[0])
    else FirstWithDomain(db, order[1..], domain)
  }

  /** No website earlier in `order` than a match carries the domain: the lookup answers the first match. */
  lemma {:induction false} FirstWithDomainIsFirst(db: Db, order: seq<string>, domain: string, k: nat)
    requires k < |order| && order[k] in db.sites && db.sites[order[k]].domain == domain
    ensures FirstWithDomain(db, order, domain).Some?
    ensures FirstWithDomain(db, order, domain).value in order[..k + 1]
  {
    if !(order[0] in db.sites && db.sites[order[0]].domain == domain) {
      assert k > 0;
      FirstWithDomainIsFirst(db, order[1..], domain, k - 1);
      assert order[1..][..k] == order[1..k + 1];
    }
  }

  predicate Banned(u: User, now: int) {
    u.permanentBan || (u.bannedUntil.Some? && u.bannedUntil.value > now)
  }

  function NewSite(owner: string, domain: string, data: WebsiteData, now: int): Site {
    Site(owner, domain, data.category, false, Some(Pending), true, 0, 0, data.refreshInterval,
         data.adTitle, data.adDescription, data.widgetColor, data.widgetBgColor, now)
  }

  /**
   * The punishment for registering a domain another account holds: the
   * offence counter grows by one; at two or more the account is banned for
   * good (and its auth identity disabled when that call succeeds), otherwise
   * it is suspended until `tomorrow`.  No website is added.
   */
  function Punish(db: Db, uid: string, tomorrow: int, authDisableSucceeds: bool): (r: (Db, Outcome))
    requires uid in db.users
    ensures uid in r.0.users && r.0.users.Keys == db.users.Keys
    ensures forall u :: u in db.users && u != uid ==> r.0.users[u] == db.users[u]
    ensures r.1 == Failure(RepeatOffenseBan) || r.1 == Failure(FirstOffenseSuspension)
    ensures
      var before, after := db.users[uid], r.0.users[uid];
      && after.duplicateDomainOffenses == before.duplicateDomainOffenses + 1
      && after.credits == before.credits
      && (r.1 == Failure(RepeatOffenseBan) <==> after.duplicateDomainOffenses >= 2)
      && (r.1 == Failure(RepeatOffenseBan) ==>
            && after.permanentBan && after.banReason == Some(RepeatOffenseReason)
            && after.bannedUntil == before.bannedUntil
            && r.0.authDisabled == db.authDisabled + (if authDisableSucceeds then {uid} else {}))
      && (r.1 == Failure(FirstOffenseSuspension) ==>
            && after.bannedUntil == Some(tomorrow) && after.banReason == Some(FirstOffenseReason)
            && after.permanentBan == before.permanentBan
            && r.0.authDisabled == db.authDisabled)
    ensures r.0.(users := db.users, authDisabled := db.authDisabled) == db
  {
    var u := db.users[uid];
    var offenses := u.duplicateDomainOffenses + 1;
    if offenses >= 2 then
      var disabled := if authDisableSucceeds then db.authDisabled + {uid} else db.authDisabled;
      var banned := u.(duplicateDomainOffenses := offenses, permanentBan := true, banReason := Some(RepeatOffenseReason));
      (db.(users := db.users[uid := banned], authDisabled := disabled), Failure(RepeatOffenseBan))
    else
      var suspended := u.(duplicateDomainOffenses := offenses, bannedUntil := Some(tomorrow),
                          banReason := Some(FirstOffenseReason));
      (db.(users := db.users[uid := suspended]), Failure(FirstOffenseSuspension))
  }

  /**
   * The new website document: owned by the caller, with the clean domain,
   * inactive and pending, `hasCredits` set and both counters at 0.  It
   * takes the place `position` in document order; nothing else changes.
   */
  function Register(db: Db, uid: string, domain: string, data: WebsiteData, now: int,
                    newId: string, position: nat): (r: Db)
    requires newId !in db.sites && position <= |db.siteOrder|
    ensures newId in r.sites && r.sites == db.sites[newId := r.sites[newId]]
    ensures |r.sites| == |db.sites| + 1
    ensures
      var site := r.sites[newId];
      && site.owner == uid && site.domain == domain
      && !site.active && site.status == Some(Pending) && site.hasCredits
      && site.views == 0 && site.clicks == 0
    ensures r.siteOrder == db.siteOrder[..position] + [newId] + db.siteOrder[position..]
    ensures r.(sites := db.sites, siteOrder := db.siteOrder) == db
    ensures WellFormed(db) ==> WellFormed(r)
  {
    var order := db.siteOrder[..position] + [newId] + db.siteOrder[position..];
    InsertKeepsDistinct(db.siteOrder, newId, position);
    db.(sites := db.sites[newId := NewSite(uid, domain, data, now)], siteOrder := order)
  }

  /** Inserting a new id keeps an id list free of repetitions and adds exactly that id. */
  lemma InsertKeepsDistinct(order: seq<string>, newId: string, position: nat)
    requires position <= |order|
    ensures var order' := order[..position] + [newId] + order[position..];
      && (forall id :: id in order' <==> id in order || id == newId)
      && (Distinct(order) && newId !in order ==> Distinct(order'))
  {
    var order' := order[..position] + [newId] + order[position..];
    assert order == order[..position] + order[position..];
    if Distinct(order) && newId !in order {
      forall i, j | 0 <= i < j < |order'| ensures order'[i] != order'[j] {
        if i < position && j > position {
          assert order'[j] == order[j - 1];
        } else if i > position {
          assert order'[i] == order[i - 1] && order'[j] == order[j - 1];
        }
      }
    }
  }

  /**
   * The ban gate: the refusal given before the domain is looked at, or
   * `None` when the caller is a known user under no ban.
   */
  function Gate(db: Db, caller: Option<string>, now: int): (r: Option<Outcome>)
    ensures r.None? <==> caller.Some? && caller.value in db.users && !Banned(db.users[caller.value], now)
    ensures r == Some(Failure(Unauthorized)) <==> caller.None?
    ensures r == Some(Failure(ProfileNotFound)) <==> caller.Some? && caller.value !in db.users
    ensures caller.Some? && caller.value in db.users && db.users[caller.value].permanentBan ==>
      r == Some(Failure(PermanentlySuspended))
    ensures (caller.Some? && caller.value in db.users && !db.users[caller.value].permanentBan
             && Banned(db.users[caller.value], now)) ==>
      r == Some(Failure(SuspendedUntil(db.users[caller.value].bannedUntil.value)))
    ensures r.Some? ==>
      r.value.Failure? && r.value.error !in {InvalidDomainFormat, AlreadyRegistered, RepeatOffenseBan, FirstOffenseSuspension}
  {
    if caller.None? then Some(Failure(Unauthorized))
    else if caller.value !in db.users then Some(Failure(ProfileNotFound))
    else
      var u := db.users[caller.value];
      if u.permanentBan then Some(Failure(PermanentlySuspended))
      else if u.bannedUntil.Some? && u.bannedUntil.value > now then Some(Failure(SuspendedUntil(u.bannedUntil.value)))
      else None
  }

  /**
   * Past the gate, with a clean domain: the first website holding the
   * domain decides between "already registered" (the caller's own) and an
   * offence (another account's); with none, the website is registered.
   */
  function Place(db: Db, uid: string, domain: string, data: WebsiteData, now: int, tomorrow: int,
                 authDisableSucceeds: bool, newId: string, position: nat): (r: (Db, Outcome))
    requires uid in db.users && newId !in db.sites && position <= |db.siteOrder|
    ensures r.1 in {Success, Failure(AlreadyRegistered), Failure(RepeatOffenseBan), Failure(FirstOffenseSuspension)}
    ensures r.1 == Failure(AlreadyRegistered) ==> r.0 == db
    ensures r.1 != Success ==>
      var found := FirstWithDomain(db, db.siteOrder, domain);
      && found.Some?
      && (r.1 == Failure(AlreadyRegistered) <==> db.sites[found.value].owner == uid)
    ensures r.1 == Failure(RepeatOffenseBan) || r.1 == Failure(FirstOffenseSuspension) ==>
      r == Punish(db, uid, tomorrow, authDisableSucceeds)
    ensures r.1 == Success <==> forall id :: id in db.siteOrder && id in db.sites ==> db.sites[id].domain != domain
    ensures r.1 == Success ==> r.0 == Register(db, uid, domain, data, now, newId, position)
  {
    match FirstWithDomain(db, db.siteOrder, domain)
    case Some(existing) =>
      if db.sites[existing].owner == uid then (db, Failure(AlreadyRegistered))
      else Punish(db, uid, tomorrow, authDisableSucceeds)
    case None => (Register(db, uid, domain, data, now, newId, position), Success)
  }

  /**
   * The action as a function of the store.  `caller` is the verified token's
   * user id (`None` when verification fails), `now` and `tomorrow` are the
   * clock readings, `authDisableSucceeds` says whether disabling the auth
   * identity works, and `newId` and `position` are the id the store gives
   * the new document and its place in document order.
   */
  function Submit(db: Db, caller: Option<string>, data: WebsiteData, now: int, tomorrow: int,
                  authDisableSucceeds: bool, newId: string, position: nat): (r: (Db, Outcome))
    requires newId !in db.sites && position <= |db.siteOrder|
    // The ban gate runs before anything else is looked at or written.
    ensures Gate(db, caller, now).Some? ==> r == (db, Gate(db, caller, now).value)
    ensures r.1 == Failure(InvalidDomainFormat) <==>
      Gate(db, caller, now).None? && CleanDomain(data.domain).None?
    ensures r.1 == Failure(InvalidDomainFormat) ==> r.0 == db
    // Past the gate with a clean domain, `Place` decides.
    ensures Gate(db, caller, now).None? && CleanDomain(data.domain).Some? ==>
      r == Place(db, caller.value, CleanDomain(data.domain).value, data, now, tomorrow, authDisableSucceeds, newId, position)
  {
    match Gate(db, caller, now)
    case Some(refusal) => (db, refusal)
    case None => Screen(db, caller.value, CleanDomain(data.domain), data, now, tomorrow, authDisableSucceeds, newId, position)
  }

  /** Past the gate: a domain that did not clean is "Invalid domain format" and writes nothing; a clean one goes to `Place`. */
  function Screen(db: Db, uid: string, cleaned: Option<string>, data: WebsiteData, now: int, tomorrow: int,
                  authDisableSucceeds: bool, newId: string, position: nat): (r: (Db, Outcome))
    requires uid in db.users && newId !in db.sites && position <= |db.siteOrder|
    ensures r.1 == Failure(InvalidDomainFormat) <==> cleaned.None?
    ensures cleaned.None? ==> r.0 == db
    ensures cleaned.Some? ==> r == Place(db, uid, cleaned.value, data, now, tomorrow, authDisableSucceeds, newId, position)
  {
    match cleaned
    case None => (db, Failure(InvalidDomainFormat))
    case Some(domain) => Place(db, uid, domain, data, now, tomorrow, authDisableSucceeds, newId, position)
  }

  /**
   * The gate's answers as `Submit` gives them: each refusal is its own
   * error and comes before the domain is looked at; a ban writes nothing.
   */
  lemma SubmitGate(db: Db, caller: Option<string>, data: WebsiteData, now: int, tomorrow: int,
                   authDisableSucceeds: bool, newId: string, position: nat)
    requires newId !in db.sites && position <= |db.siteOrder|
    ensures var r := Submit(db, caller, data, now, tomorrow, authDisableSucceeds, newId, position);
      r.1 == Failure(Unauthorized) <==> caller.None?
    ensures var r := Submit(db, caller, data, now, tomorrow, authDisableSucceeds, newId, position);
      r.1 == Failure(ProfileNotFound) <==> caller.Some? && caller.value !in db.users
    ensures caller.Some? && caller.value in db.users && db.users[caller.value].permanentBan ==>
      Submit(db, caller, data, now, tomorrow, authDisableSucceeds, newId, position) == (db, Failure(PermanentlySuspended))
    ensures (caller.Some? && caller.value in db.users && !db.users[caller.value].permanentBan
             && Banned(db.users[caller.value], now)) ==>
      Submit(db, caller, data, now, tomorrow, authDisableSucceeds, newId, position)
        == (db, Failure(SuspendedUntil(db.users[caller.value].bannedUntil.value)))
  {
  }

  /**
   * "Invalid domain format" is the answer exactly when the gate lets the
   * caller through and the domain does not clean, and only an offence or a
   * registration writes to the store.
   */
  lemma SubmitRefusesDomain(db: Db, caller: Option<string>, data: WebsiteData, now: int, tomorrow: int,
                            authDisableSucceeds: bool, newId: string, position: nat)
    requires newId !in db.sites && position <= |db.siteOrder|
    ensures var r := Submit(db, caller, data, now, tomorrow, authDisableSucceeds, newId, position);
      r.1 == Failure(InvalidDomainFormat) <==>
        caller.Some? && caller.value in db.users && !Banned(db.users[caller.value], now)
        && CleanDomain(data.domain).None?
    ensures var r := Submit(db, caller, data, now, tomorrow, authDisableSucceeds, newId, position);
      r.1 !in {Success, Failure(RepeatOffenseBan), Failure(FirstOffenseSuspension)} ==> r.0 == db
  {
  }

  /**
   * What `Submit` answers past the gate: the first website holding the clean
   * domain decides between "already registered" (the caller's own) and an
   * offence, and registration succeeds exactly when no website carries it.
   */
  lemma SubmitPastGate(db: Db, caller: Option<string>, data: WebsiteData, now: int, tomorrow: int,
                       authDisableSucceeds: bool, newId: string, position: nat)
    requires newId !in db.sites && position <= |db.siteOrder|
    // Every other answer comes after the gate, with a clean domain.
    ensures var r := Submit(db, caller, data, now, tomorrow, authDisableSucceeds, newId, position);
      r.1 in {Success, Failure(AlreadyRegistered), Failure(RepeatOffenseBan), Failure(FirstOffenseSuspension)} ==>
        && caller.Some? && caller.value in db.users && !Banned(db.users[caller.value], now)
        && CleanDomain(data.domain).Some?
    ensures var r := Submit(db, caller, data, now, tomorrow, authDisableSucceeds, newId, position);
      r.1 == Failure(AlreadyRegistered) || r.1 == Failure(RepeatOffenseBan) || r.1 == Failure(FirstOffenseSuspension) ==>
        var found := FirstWithDomain(db, db.siteOrder, CleanDomain(data.domain).value);
        && found.Some?
        && (r.1 == Failure(AlreadyRegistered) <==> db.sites[found.value].owner == caller.value)
    ensures var r := Submit(db, caller, data, now, tomorrow, authDisableSucceeds, newId, position);
      r.1 == Failure(RepeatOffenseBan) || r.1 == Failure(FirstOffenseSuspension) ==>
        r == Punish(db, caller.value, tomorrow, authDisableSucceeds)
    ensures var r := Submit(db, caller, data, now, tomorrow, authDisableSucceeds, newId, position);
      r.1 == Success <==>
        && caller.Some? && caller.value in db.users && !Banned(db.users[caller.value], now)
        && CleanDomain(data.domain).Some?
        && forall id :: id in db.siteOrder && id in db.sites ==> db.sites[id].domain != CleanDomain(data.domain).value
    ensures var r := Submit(db, caller, data, now, tomorrow, authDisableSucceeds, newId, position);
      r.1 == Success ==>
        r.0 == Register(db, caller.value, CleanDomain(data.domain).value, data, now, newId, position)
  {
  }

  /** The server action against the store. */
  method SubmitWebsite(store: Store, caller: Option<string>, data: WebsiteData, now: int, tomorrow: int,
                       authDisableSucceeds: bool, newId: string, position: nat) returns (outcome: Outcome)
    requires newId !in store.sites && position <= |store.siteOrder|
    modifies store
    ensures (store.State(), outcome) == Submit(old(store.State()), caller, data, now, tomorrow,
                                                authDisableSucceeds, newId, position)
  {
    if caller.None? {
      return Failure(Unauthorized);
    }
    var userId := caller.value;
    if userId !in store.users {
      return Failure(ProfileNotFound);
    }
    var userData := store.users[userId];
    if userData.permanentBan {
      return Failure(PermanentlySuspended);
    }
    if userData.bannedUntil.Some? && userData.bannedUntil.value > now {
      return Failure(SuspendedUntil(userData.bannedUntil.value));
    }
    var cleaned := CleanDomain(data.domain);
    if cleaned.None? {
      return Failure(InvalidDomainFormat);
    }
    outcome := PlaceWebsite(store, userId, cleaned.value, data, now, tomorrow, authDisableSucceeds, newId, position);
  }

  /** The duplicate check and the write that follows it. */
  method PlaceWebsite(store: Store, userId: string, cleanDomain: string, data: WebsiteData, now: int, tomorrow: int,
                      authDisableSucceeds: bool, newId: string, position: nat) returns (outcome: Outcome)
    requires userId in store.users && newId !in store.sites && position <= |store.siteOrder|
    modifies store
    ensures (store.State(), outcome) == Place(old(store.State()), userId, cleanDomain, data, now, tomorrow,
                                               authDisableSucceeds, newId, position)
  {
    ghost var db := store.State();
    var existing := FirstWithDomain(store.State(), store.siteOrder, cleanDomain);
    if existing.Some? {
      if store.sites[existing.value].owner == userId {
        return Failure(AlreadyRegistered);
      }
      outcome := PunishOffender(store, userId, tomorrow, authDisableSucceeds);
      return;
    }
    store.sites := store.sites[newId := NewSite(userId, cleanDomain, data, now)];
    store.siteOrder := store.siteOrder[..position] + [newId] + store.siteOrder[position..];
    outcome := Success;
    assert store.State() == Register(db, userId, cleanDomain, data, now, newId, position);
  }

  /** The offence counter, the ban, and the auth identity disabled on a repeat offence. */
  method PunishOffender(store: Store, userId: string, tomorrow: int, authDisableSucceeds: bool)
    returns (outcome: Outcome)
    requires userId in store.users
    modifies store
    ensures (store.State(), outcome) == Punish(old(store.State()), userId, tomorrow, authDisableSucceeds)
  {
    ghost var punished := Punish(store.State(), userId, tomorrow, authDisableSucceeds);
    var userData := store.users[userId];
    var offenses := userData.duplicateDomainOffenses + 1;
    var isPermaBan := offenses >= 2;
    var banUpdate := userData.(duplicateDomainOffenses := offenses);
    if isPermaBan {
      banUpdate := banUpdate.(permanentBan := true, banReason := Some(RepeatOffenseReason));
      if authDisableSucceeds {
        store.authDisabled := store.authDisabled + {userId};
      }
    } else {
      banUpdate := banUpdate.(bannedUntil := Some(tomorrow), banReason := Some(FirstOffenseReason));
    }
    assert banUpdate == punished.0.users[userId];
    assert store.authDisabled == punished.0.authDisabled;
    store.users := store.users[userId := banUpdate];
    outcome := if isPermaBan then Failure(RepeatOffenseBan) else Failure(FirstOffenseSuspension);
    assert store.users == punished.0.users;
  }

  /**
   * Escalation: a first attempt on another account's domain suspends for a
   * day with offence count 1; a second attempt once that suspension has
   * lapsed bans permanently with count 2; any later attempt is refused by
   * the ban gate.
   */
  lemma {:induction false} DuplicateDomainEscalates(db: Db, user: string, data: WebsiteData,
    now1: int, tomorrow1: int, now2: int, tomorrow2: int, now3: int, authOk: bool, newId: string)
    requires newId !in db.sites
    requires user in db.users && !Banned(db.users[user], now1)
    requires db.users[user].duplicateDomainOffenses == 0
    requires CleanDomain(data.domain).Some?
    requires FirstWithDomain(db, db.siteOrder, CleanDomain(data.domain).value).Some?
    requires db.sites[FirstWithDomain(db, db.siteOrder, CleanDomain(data.domain).value).value].owner != user
    requires tomorrow1 <= now2
    ensures
      var (db1, o1) := Submit(db, Some(user), data, now1, tomorrow1, authOk, newId, 0);
      && o1 == Failure(FirstOffenseSuspension)
      && db1.users[user].duplicateDomainOffenses == 1 && db1.users[user].bannedUntil == Some(tomorrow1)
      && (now1 < tomorrow1 ==>
            Submit(db1, Some(user), data, now1, tomorrow1, authOk, newId, 0) ==
            (db1, Failure(SuspendedUntil(tomorrow1))))
    ensures
      var (db1, o1) := Submit(db, Some(user), data, now1, tomorrow1, authOk, newId, 0);
      var (db2, o2) := Submit(db1, Some(user), data, now2, tomorrow2, authOk, newId, 0);
      && o2 == Failure(RepeatOffenseBan)
      && db2.users[user].duplicateDomainOffenses == 2 && db2.users[user].permanentBan
      && Submit(db2, Some(user), data, now3, tomorrow2, authOk, newId, 0) == (db2, Failure(PermanentlySuspended))
  {
    var (db1, o1) := Submit(db, Some(user), data, now1, tomorrow1, authOk, newId, 0);
    assert db1.sites == db.sites && db1.siteOrder == db.siteOrder;
    assert FirstWithDomain(db1, db1.siteOrder, CleanDomain(data.domain).value)
        == FirstWithDomain(db, db.siteOrder, CleanDomain(data.domain).value) by {
      FirstWithDomainOnlyReadsSites(db, db1, db.siteOrder, CleanDomain(data.domain).value);
    }
  }

  lemma {:induction false} FirstWithDomainOnlyReadsSites(db: Db, db': Db, order: seq<string>, domain: string)
    requires db.sites == db'.sites
    ensures FirstWithDomain(db, order, domain) == FirstWithDomain(db', order, domain)
  {
    if order != [] {
      FirstWithDomainOnlyReadsSites(db, db', order[1..], domain);
    }
  }
}
