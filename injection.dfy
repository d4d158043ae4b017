/** The reload client spliced into HTML pages, and the content-type
    conditional rewrite of a relayed body (`injectScript` and the inline
    rewrite of the proxy handler, which use the same rule). */
module Injection {
  import opened GoBytes

  /** The closing body tag before which the reload client goes. */
  const CloseBody: Bytes := Ascii("</body>")

  /** The media type for which a body is rewritten. */
  const TextHtml: Bytes := Ascii("text/html")

  /** The text of the reload client before the notification port. */
  const SnippetHead: Bytes :=
    Ascii("\n") +
    Ascii("    <script>\n") +
    Ascii("        var ws = new WebSocket(\"ws://localhost:")

  /** The text of the reload client after the notification port. */
  const SnippetTail: Bytes :=
    Ascii("/ws\");\n") +
    Ascii("        ws.onmessage = function(event) {\n") +
    Ascii("            if (event.data === \"reload\") {\n") +
    Ascii("                window.location.reload();\n") +
    Ascii("            }\n") +
    Ascii("        };\n") +
    Ascii("    </script>\n") +
    Ascii("    ")

  /** The reload client for a notification listener on `port`; the port is
      embedded verbatim between the fixed head and tail of the script. */
  function Snippet(port: Bytes): (r: Bytes)
    ensures |r| == |SnippetHead| + |port| + |SnippetTail|
    ensures r[..|SnippetHead|] == SnippetHead
    ensures OccursAt(r, port, |SnippetHead|)
    ensures r[|SnippetHead| + |port|..] == SnippetTail
  {
    SnippetHead + port + SnippetTail
  }

  /** The body the proxy relays: when the upstream Content-Type contains
      `text/html`, the first `</body>` becomes `snippet + "</body>"`;
      otherwise the body is untouched. */
  function Rewrite(body: Bytes, contentType: Bytes, snippet: Bytes): Bytes {
    if Contains(contentType, TextHtml) then ReplaceFirst(body, CloseBody, snippet + CloseBody)
    else body
  }

  /** `injectScript(html, port)`: the snippet for `port` goes before the
      first `</body>`, with no content-type test. */
  function InjectScript(html: Bytes, port: Bytes): Bytes {
    ReplaceFirst(html, CloseBody, Snippet(port) + CloseBody)
  }

  /** `injectScript` is the handler's rewrite for a `text/html` response. */
  lemma InjectScriptIsHtmlRewrite(html: Bytes, port: Bytes)
    ensures InjectScript(html, port) == Rewrite(html, TextHtml, Snippet(port))
  {
  }

  /** With an HTML content type and a closing body tag first found at `i`, the
      relayed body is the text before that tag, the snippet, the tag, and the
      unchanged remainder. */
  lemma RewriteSplice(body: Bytes, contentType: Bytes, snippet: Bytes, i: nat)
    requires Contains(contentType, TextHtml)
    requires Index(body, CloseBody) == Some(i)
    ensures Rewrite(body, contentType, snippet) ==
      body[..i] + snippet + CloseBody + body[i + |CloseBody|..]
  {
  }

  /** Only the first closing body tag is touched: everything before it is
      the input's prefix and everything from that tag on is the input's
      remainder, byte for byte. */
  lemma RewriteKeepsRest(body: Bytes, contentType: Bytes, snippet: Bytes, i: nat)
    requires Contains(contentType, TextHtml)
    requires Index(body, CloseBody) == Some(i)
    ensures var r := Rewrite(body, contentType, snippet);
      |r| >= i + |snippet| &&
      r[..i] == body[..i] &&
      r[i + |snippet|..] == body[i..]
  {
    RewriteSplice(body, contentType, snippet, i);
    assert body[i..] == CloseBody + body[i + |CloseBody|..] by {
      assert OccursAt(body, CloseBody, i);
    }
  }

  /** Every later `</body>` of the input is still there, shifted by the
      snippet's length, and no new one appears after the first. */
  lemma RewriteLaterTags(body: Bytes, contentType: Bytes, snippet: Bytes, i: nat)
    requires Contains(contentType, TextHtml)
    requires Index(body, CloseBody) == Some(i)
    ensures var r := Rewrite(body, contentType, snippet);
      forall j: nat | i < j :: OccursAt(r, CloseBody, j + |snippet|) <==> OccursAt(body, CloseBody, j)
  {
    var r := Rewrite(body, contentType, snippet);
    RewriteKeepsRest(body, contentType, snippet, i);
    forall j: nat | i < j
      ensures OccursAt(r, CloseBody, j + |snippet|) <==> OccursAt(body, CloseBody, j)
    {
      OccursInSuffix(r, i + |snippet|, j - i);
      OccursInSuffix(body, i, j - i);
    }
  }

  /** An occurrence in a suffix is an occurrence in the whole sequence. */
  lemma OccursInSuffix(s: Bytes, k: nat, j: nat)
    requires k <= |s|
    ensures OccursAt(s[k..], CloseBody, j) <==> OccursAt(s, CloseBody, k + j)
  {
    if k + j + |CloseBody| <= |s| {
      assert s[k..][j..j + |CloseBody|] == s[k + j..k + j + |CloseBody|];
    }
  }

  /** Removing the snippet from the relayed body gives back the upstream body:
      the rewrite inserts `snippet` and changes nothing else. */
  lemma RewriteInverse(body: Bytes, contentType: Bytes, snippet: Bytes, i: nat)
    requires Contains(contentType, TextHtml)
    requires Index(body, CloseBody) == Some(i)
    ensures var r := Rewrite(body, contentType, snippet);
      i + |snippet| <= |r| &&
      r[i..i + |snippet|] == snippet &&
      r[..i] + r[i + |snippet|..] == body
  {
    RewriteKeepsRest(body, contentType, snippet, i);
    RewriteSplice(body, contentType, snippet, i);
  }

  /** A body without a closing body tag is relayed unchanged, whatever the
      content type. */
  lemma RewriteWithoutCloseTag(body: Bytes, contentType: Bytes, snippet: Bytes)
    requires forall j: nat :: !OccursAt(body, CloseBody, j)
    ensures Rewrite(body, contentType, snippet) == body
  {
  }

  /** A content type that does not contain `text/html` leaves the body
      byte-identical. */
  lemma RewriteNonHtml(body: Bytes, contentType: Bytes, snippet: Bytes)
    requires forall j: nat :: !OccursAt(contentType, TextHtml, j)
    ensures Rewrite(body, contentType, snippet) == body
  {
    ContainsIff(contentType, TextHtml);
  }

  /** The rewrite either leaves the body alone or grows it by exactly the
      snippet's length, and it grows exactly when the content type is HTML and
      the body has a closing body tag. */
  lemma RewriteLength(body: Bytes, contentType: Bytes, snippet: Bytes)
    ensures var r := Rewrite(body, contentType, snippet);
      (Contains(contentType, TextHtml) && Contains(body, CloseBody) ==> |r| == |body| + |snippet|) &&
      (!(Contains(contentType, TextHtml) && Contains(body, CloseBody)) ==> r == body)
  {
  }
}
