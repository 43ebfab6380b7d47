/**
 * `GET /api/script`: serves the embeddable widget for one publisher site,
 * and the widget's `escapeHTML`, through which every field of a served ad
 * passes before it is written into the widget's markup.
 */
module ScriptRoute {
  import opened Wrappers
  import opened JsText

  const DefaultApiBase := "https://runads.onrender.com"

  /** The response: 400 "Missing ID", or the script for a site id and the server's own origin. */
  datatype Response = MissingId | Script(siteId: string, apiBase: string)

  /** The route: the `id` query parameter and `NEXT_PUBLIC_APP_URL`. */
  function Get(id: Option<string>, appUrl: Option<string>): (r: Response)
    ensures r.MissingId? <==> !Truthy(id)
    ensures r.Script? ==> r.siteId == id.value
    ensures r.Script? ==> r.apiBase == (if Truthy(appUrl) then appUrl.value else DefaultApiBase)
    ensures r.Script? ==> r.apiBase != []
  {
    if !Truthy(id) then MissingId
    else Script(id.value, if Truthy(appUrl) then appUrl.value else DefaultApiBase)
  }

  /** The characters that could end a text node or an attribute value. */
  predicate IsMarkup(c: char) {
    c == '<' || c == '>' || c == '\'' || c == '"'
  }

  /** The characters `escapeHTML` replaces. */
  predicate IsSpecial(c: char) {
    c == '&' || IsMarkup(c)
  }

  /** The replacement of one character. */
  function EscapeChar(c: char): (e: string)
    ensures |e| >= 1
    ensures forall i :: 0 <= i < |e| ==> !IsMarkup(e[i])
    ensures !IsSpecial(c) <==> e == [c]
  {
    match c
    case '&' => "&amp;"
    case '<' => "&lt;"
    case '>' => "&gt;"
    case '\'' => "&#39;"
    case '"' => "&quot;"
    case _ => [c]
  }

  /** `str.replace(/[&<>'"]/g, ...)`: each character by its replacement, left to right. */
  function Escape(s: string): (r: string)
    ensures forall i :: 0 <= i < |r| ==> !IsMarkup(r[i])
    ensures |r| >= |s|
    ensures (forall i :: 0 <= i < |s| ==> !IsSpecial(s[i])) ==> r == s
    decreases |s|
  {
    if |s| == 0 then []
    else
      var head, rest := EscapeChar(s[0]), Escape(s[1..]);
      assert forall i :: |head| <= i < |head| + |rest| ==> (head + rest)[i] == rest[i - |head|];
      assert (forall i :: 0 <= i < |s| ==> !IsSpecial(s[i])) ==> head == [s[0]] && rest == s[1..] by {
        if forall i :: 0 <= i < |s| ==> !IsSpecial(s[i]) {
          assert forall i :: 0 <= i < |s[1..]| ==> s[1..][i] == s[i + 1];
        }
      }
      head + rest
  }

  /** `escapeHTML`: the empty string for a missing or empty value. */
  function EscapeHtml(str: Option<string>): (r: string)
    ensures !Truthy(str) ==> r == []
    ensures Truthy(str) ==> r == Escape(str.value)
    ensures forall i :: 0 <= i < |r| ==> !IsMarkup(r[i])
  {
    if !Truthy(str) then [] else Escape(str.value)
  }

  /** Reading the markup back: each entity `escapeHTML` writes stands for its character. */
  function Unescape(s: string): string
    decreases |s|
  {
    if |s| == 0 then []
    else if StartsWith(s, "&amp;") then "&" + Unescape(s[5..])
    else if StartsWith(s, "&lt;") then "<" + Unescape(s[4..])
    else if StartsWith(s, "&gt;") then ">" + Unescape(s[4..])
    else if StartsWith(s, "&#39;") then "'" + Unescape(s[5..])
    else if StartsWith(s, "&quot;") then "\"" + Unescape(s[6..])
    else [s[0]] + Unescape(s[1..])
  }

  /** Reading back one replaced character. */
  lemma UnescapeChar(c: char, u: string)
    ensures Unescape(EscapeChar(c) + u) == [c] + Unescape(u)
  {
    var e := EscapeChar(c);
    var s := e + u;
    assert s[..|e|] == e && s[|e|..] == u;
    if !IsSpecial(c) {
      assert s[0] == c && s[1..] == u;
      assert !StartsWith(s, "&amp;") && !StartsWith(s, "&lt;") && !StartsWith(s, "&gt;");
      assert !StartsWith(s, "&#39;") && !StartsWith(s, "&quot;");
    } else {
      assert s[0] == '&';
      if c != '&' {
        assert s[1] == e[1] != 'a';
        assert !StartsWith(s, "&amp;") by { if |s| >= 5 { assert s[..5][1] == s[1]; } }
      }
      if c == '>' || c == '\'' || c == '"' {
        assert !StartsWith(s, "&lt;") by { if |s| >= 4 { assert s[..4][1] == s[1]; } }
      }
      if c == '\'' || c == '"' {
        assert !StartsWith(s, "&gt;") by { if |s| >= 4 { assert s[..4][1] == s[1]; } }
      }
      if c == '"' {
        assert !StartsWith(s, "&#39;") by { if |s| >= 5 { assert s[..5][1] == s[1]; } }
      }
    }
  }

  /** Nothing is lost: the text a reader sees is exactly the value escaped. */
  lemma {:induction false} EscapeRoundTrip(s: string)
    ensures Unescape(Escape(s)) == s
    decreases |s|
  {
    if |s| > 0 {
      EscapeRoundTrip(s[1..]);
      UnescapeChar(s[0], Escape(s[1..]));
      assert s == [s[0]] + s[1..];
    }
  }

  /** A worked case: a script tag in an ad's domain is shown as text. */
  lemma EscapeExample()
    ensures Escape("<b>") == "&lt;b&gt;"
  {
    assert Escape(">") == "&gt;" by {
      assert Escape(">"[1..]) == [];
    }
    assert Escape("b>") == "b&gt;" by {
      assert "b>"[1..] == ">";
    }
    assert "<b>"[1..] == "b>";
  }
}
