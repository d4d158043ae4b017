/** The `/` handler of the proxy listener: relay the upstream response,
    rewriting HTML bodies, copying every upstream header, overriding
    Content-Length and keeping the upstream status. The outbound request and
    the network are an oracle: the handler receives what the upstream round
    trip produced. */
module Proxy {
  import opened GoBytes
  import opened Injection

  /** Go's `http.Header`: a header name mapped to its list of values. */
  type Header = map<Bytes, seq<Bytes>>

  const ContentTypeKey: Bytes := Ascii("Content-Type")
  const ContentLengthKey: Bytes := Ascii("Content-Length")
  const NoSniffKey: Bytes := Ascii("X-Content-Type-Options")

  const StatusInternalServerError: int := 500
  const StatusOK: int := 200

  /** `Header.Get`: the first value stored under `key`, or the empty string. */
  function HeaderGet(h: Header, key: Bytes): Bytes {
    if key in h && |h[key]| > 0 then h[key][0] else []
  }

  /** What the upstream round trip produced: a failure to build the outbound
      request, a transport failure, a failure reading the body, or a fully
      read response. */
  datatype Upstream =
    | RequestFailed
    | TransportFailed
    | ReadFailed
    | Fetched(status: int, header: Header, body: Bytes)

  /** A response as it reaches the caller. */
  datatype Response = Response(status: int, header: Header, body: Bytes)

  /** The response `http.Error(w, "Server error", 500)` produces on a fresh
      writer. */
  function ServerError(): Response {
    Response(StatusInternalServerError,
             map[ContentTypeKey := [Ascii("text/plain; charset=utf-8")], NoSniffKey := [Ascii("nosniff")]],
             Ascii("Server error\n"))
  }

  /** The headers the handler sends: every upstream header copied onto the
      writer's headers, then Content-Length set to the length of `body`. */
  function RelayHeader(base: Header, upstream: Header, body: Bytes): Header {
    (base + upstream)[ContentLengthKey := [Decimal(|body|)]]
  }

  /** The response the handler sends for one upstream outcome, on a fresh
      writer. */
  function Relay(up: Upstream, snippet: Bytes): Response {
    match up
    case Fetched(status, header, body) =>
      var relayed := Rewrite(body, HeaderGet(header, ContentTypeKey), snippet);
      Response(status, RelayHeader(map[], header, relayed), relayed)
    case _ => ServerError()
  }

  /** Go's `http.ResponseWriter` as the handler uses it: a mutable header map,
      a status fixed by the first `WriteHeader`, the headers as they stood at
      that moment, and the body written so far. */
  class ResponseWriter {
    var header: Header
    var wroteHeader: bool
    var status: int
    var sentHeader: Header
    var body: Bytes

    /** Nothing sent yet and no header set: how net/http hands the writer to
        a handler. */
    predicate IsFresh()
      reads this
    {
      header == map[] && !wroteHeader && body == []
    }

    /** The status, headers and body the handler fixed. */
    function Sent(): Response
      reads this
    {
      Response(status, sentHeader, body)
    }

    constructor ()
      ensures IsFresh()
    {
      header := map[];
      wroteHeader := false;
      status := StatusOK;
      sentHeader := map[];
      body := [];
    }

    /** `for k, v := range src { w.Header()[k] = v }`: every key of `src` is
        stored with its value; keys absent from `src` keep theirs. */
    method CopyHeader(src: Header)
      modifies this
      ensures header == old(header) + src
      ensures wroteHeader == old(wroteHeader) && status == old(status)
      ensures sentHeader == old(sentHeader) && body == old(body)
    {
      var pending := src.Keys;
      while pending != {}
        invariant pending <= src.Keys
        invariant header == old(header) + map k | k in src.Keys - pending :: src[k]
        invariant wroteHeader == old(wroteHeader) && status == old(status)
        invariant sentHeader == old(sentHeader) && body == old(body)
        decreases pending
      {
        var k :| k in pending;
        header := header[k := src[k]];
        pending := pending - {k};
      }
    }

    /** `Header().Set(key, value)`: `key` now holds exactly `[value]`. */
    method SetHeader(key: Bytes, value: Bytes)
      modifies this
      ensures header == old(header)[key := [value]]
      ensures wroteHeader == old(wroteHeader) && status == old(status)
      ensures sentHeader == old(sentHeader) && body == old(body)
    {
      header := header[key := [value]];
    }

    /** `WriteHeader(code)`: the first call fixes the status and the headers
        sent; later calls change nothing. */
    method WriteHeader(code: int)
      modifies this
      ensures header == old(header) && body == old(body) && wroteHeader
      ensures old(wroteHeader) ==> status == old(status) && sentHeader == old(sentHeader)
      ensures !old(wroteHeader) ==> status == code && sentHeader == old(header)
    {
      if !wroteHeader {
        status := code;
        sentHeader := header;
        wroteHeader := true;
      }
    }

    /** `Write(data)`: sends the headers with status 200 if none were sent,
        then appends `data` to the body. */
    method Write(data: Bytes)
      modifies this
      ensures header == old(header) && wroteHeader
      ensures body == old(body) + data
      ensures old(wroteHeader) ==> status == old(status) && sentHeader == old(sentHeader)
      ensures !old(wroteHeader) ==> status == StatusOK && sentHeader == old(header)
    {
      WriteHeader(StatusOK);
      body := body + data;
    }
  }

  /** `http.Error(w, "Server error", http.StatusInternalServerError)`. */
  method ReplyServerError(w: ResponseWriter)
    requires w.IsFresh()
    modifies w
    ensures w.wroteHeader && w.Sent() == ServerError()
  {
    w.SetHeader(ContentTypeKey, Ascii("text/plain; charset=utf-8"));
    w.SetHeader(NoSniffKey, Ascii("nosniff"));
    w.WriteHeader(StatusInternalServerError);
    w.Write(Ascii("Server error\n"));
  }

  /** The proxy handler after the upstream round trip. */
  method ServeProxy(w: ResponseWriter, up: Upstream, snippet: Bytes)
    requires w.IsFresh()
    modifies w
    ensures w.wroteHeader && w.Sent() == Relay(up, snippet)
  {
    if !up.Fetched? {
      ReplyServerError(w);
      return;
    }
    var bodyBytes := up.body;
    var contentType := HeaderGet(up.header, ContentTypeKey);
    if Contains(contentType, TextHtml) {
      bodyBytes := ReplaceFirst(bodyBytes, CloseBody, snippet + CloseBody);
    }
    w.CopyHeader(up.header);
    w.SetHeader(ContentLengthKey, Decimal(|bodyBytes|));
    w.WriteHeader(up.status);
    w.Write(bodyBytes);
  }

  /** Content-Length always announces the length of the body actually sent,
      whatever the upstream said. */
  lemma {:induction false} RelayContentLength(up: Upstream, snippet: Bytes)
    requires up.Fetched?
    ensures var r := Relay(up, snippet);
      ContentLengthKey in r.header && |r.header[ContentLengthKey]| == 1 &&
      ParseDecimal(r.header[ContentLengthKey][0]) == |r.body|
  {
    var r := Relay(up, snippet);
    assert r.header[ContentLengthKey] == [Decimal(|r.body|)];
    DecimalRoundTrip(|r.body|);
  }

  /** Every upstream header other than Content-Length is relayed with its
      upstream values, and no header is invented besides Content-Length. */
  lemma RelayKeepsHeaders(up: Upstream, snippet: Bytes)
    requires up.Fetched?
    ensures var r := Relay(up, snippet);
      r.header.Keys == up.header.Keys + {ContentLengthKey} &&
      forall k | k in up.header && k != ContentLengthKey :: r.header[k] == up.header[k]
  {
  }

  /** The relayed Content-Type is the one upstream sent, so the rewrite
      decision is visible to the caller exactly as it was made. */
  lemma RelayKeepsContentType(up: Upstream, snippet: Bytes)
    requires up.Fetched?
    ensures HeaderGet(Relay(up, snippet).header, ContentTypeKey) == HeaderGet(up.header, ContentTypeKey)
  {
    assert ContentTypeKey[8] != ContentLengthKey[8];
  }

  /** The relayed status is the upstream status. */
  lemma RelayKeepsStatus(up: Upstream, snippet: Bytes)
    requires up.Fetched?
    ensures Relay(up, snippet).status == up.status
  {
  }

  /** A body whose Content-Type does not contain `text/html` is relayed byte
      for byte. */
  lemma RelayNonHtml(up: Upstream, snippet: Bytes)
    requires up.Fetched?
    requires forall j: nat :: !OccursAt(HeaderGet(up.header, ContentTypeKey), TextHtml, j)
    ensures Relay(up, snippet).body == up.body
  {
    RewriteNonHtml(up.body, HeaderGet(up.header, ContentTypeKey), snippet);
  }

  /** An HTML body with a closing body tag is relayed with the snippet just
      before the first such tag, and its Content-Length grows by the
      snippet's length. */
  lemma RelayHtml(up: Upstream, snippet: Bytes, i: nat)
    requires up.Fetched?
    requires Contains(HeaderGet(up.header, ContentTypeKey), TextHtml)
    requires Index(up.body, CloseBody) == Some(i)
    ensures var r := Relay(up, snippet);
      r.body == up.body[..i] + snippet + CloseBody + up.body[i + |CloseBody|..] &&
      |r.body| == |up.body| + |snippet| &&
      r.header[ContentLengthKey] == [Decimal(|up.body| + |snippet|)]
  {
    RewriteSplice(up.body, HeaderGet(up.header, ContentTypeKey), snippet, i);
  }

  /** Every upstream failure gives a 500 whose body is the fixed error text:
      no rewriting is attempted. */
  lemma RelayFailure(up: Upstream, snippet: Bytes)
    requires !up.Fetched?
    ensures Relay(up, snippet).status == StatusInternalServerError
    ensures Relay(up, snippet).body == Ascii("Server error\n")
  {
  }

  /** A page whose first `/` is that of a closing body tag has its first
      `</body>` right after the slash-free prefix. */
  lemma FirstCloseBodyAfter(prefix: Bytes, rest: Bytes)
    requires forall k | 0 <= k < |prefix| :: prefix[k] != CloseBody[1]
    ensures Index(prefix + CloseBody + rest, CloseBody) == Some(|prefix|)
  {
    var page := prefix + CloseBody + rest;
    assert OccursAt(page, CloseBody, |prefix|);
    forall j: nat | j < |prefix|
      ensures !OccursAt(page, CloseBody, j)
    {
      if j + 1 < |prefix| {
        assert page[j + 1] == prefix[j + 1];
      } else {
        assert page[j + 1] == CloseBody[0];
      }
    }
    IndexIsFirst(page, CloseBody, |prefix|);
  }

  /** A content type in which the `x` of `text/html` never appears does not
      contain `text/html`. */
  lemma NotHtmlWithoutX(contentType: Bytes)
    requires forall k | 0 <= k < |contentType| :: contentType[k] != TextHtml[2]
    ensures forall j: nat :: !OccursAt(contentType, TextHtml, j)
  {
    forall j: nat
      ensures !OccursAt(contentType, TextHtml, j)
    {
      if j + |TextHtml| <= |contentType| {
        assert contentType[j..j + |TextHtml|][2] != TextHtml[2];
      }
    }
  }

  /** An HTML page from upstream: the reload client lands just before
      `</body>` and the status stays 200. */
  lemma HtmlPageScenario(page: Bytes, header: Header, snippet: Bytes)
    requires page == Ascii("<html><body>Hi") + CloseBody + Ascii("</html>")
    requires header == map[ContentTypeKey := [TextHtml]]
    ensures var r := Relay(Fetched(StatusOK, header, page), snippet);
      r.status == StatusOK &&
      r.body == Ascii("<html><body>Hi") + snippet + CloseBody + Ascii("</html>")
  {
    FirstCloseBodyAfter(Ascii("<html><body>Hi"), Ascii("</html>"));
    assert OccursAt(TextHtml, TextHtml, 0);
    IndexIsFirst(TextHtml, TextHtml, 0);
    assert HeaderGet(header, ContentTypeKey) == TextHtml;
    RelayHtml(Fetched(StatusOK, header, page), snippet, 14);
    assert page[..14] == Ascii("<html><body>Hi");
    assert page[21..] == Ascii("</html>");
  }

  /** The reload client for port 3001 is 241 bytes long and dials
      `ws://localhost:3001/ws`. */
  lemma Port3001Snippet(port: Bytes, snippet: Bytes)
    requires port == Ascii("3001") && snippet == Snippet(port)
    ensures |snippet| == 241
    ensures OccursAt(snippet, Ascii("ws://localhost:3001/ws"), 46)
  {
    var head, tail := Ascii("ws://localhost:"), Ascii("/ws");
    SnippetDialsLocalhost(head, tail);
    var dial := head + port + tail;
    Regroup(SnippetHead[..46], head, port, tail, SnippetTail[3..]);
    assert OccursAt(dial, dial, 0);
    OccursInContext(SnippetHead[..46], dial, SnippetTail[3..], dial, 0);
    DialUrl(head, port, tail);
  }

  lemma DialUrl(head: Bytes, port: Bytes, tail: Bytes)
    requires head == Ascii("ws://localhost:") && port == Ascii("3001") && tail == Ascii("/ws")
    ensures head + port + tail == Ascii("ws://localhost:3001/ws")
  {
  }

  lemma SnippetDialsLocalhost(head: Bytes, tail: Bytes)
    requires head == Ascii("ws://localhost:") && tail == Ascii("/ws")
    ensures |SnippetHead| == 61 && |SnippetTail| == 176
    ensures SnippetHead == SnippetHead[..46] + head && SnippetTail == tail + SnippetTail[3..]
  {
  }

  /** Regrouping the snippet around its dial URL. */
  lemma Regroup(a1: Bytes, a2: Bytes, b: Bytes, c1: Bytes, c2: Bytes)
    ensures (a1 + a2) + b + (c1 + c2) == a1 + (a2 + b + c1) + c2
  {
  }

  /** The page of `HtmlPageScenario` relayed with the reload client for
      port 3001 dials `ws://localhost:3001/ws`. */
  lemma HtmlPageDialsPort3001(page: Bytes, header: Header, port: Bytes, snippet: Bytes)
    requires page == Ascii("<html><body>Hi") + CloseBody + Ascii("</html>")
    requires header == map[ContentTypeKey := [TextHtml]]
    requires port == Ascii("3001") && snippet == Snippet(port)
    ensures OccursAt(Relay(Fetched(StatusOK, header, page), snippet).body, Ascii("ws://localhost:3001/ws"), 14 + 46)
  {
    HtmlPageScenario(page, header, snippet);
    Port3001Snippet(port, snippet);
    var prefix, rest := Ascii("<html><body>Hi"), CloseBody + Ascii("</html>");
    assert Relay(Fetched(StatusOK, header, page), snippet).body == prefix + snippet + rest;
    OccursInContext(prefix, snippet, rest, Ascii("ws://localhost:3001/ws"), 46);
  }

  /** An occurrence inside `s` is an occurrence inside `p + s + r`, shifted
      by the length of `p`. */
  lemma OccursInContext(p: Bytes, s: Bytes, r: Bytes, pat: Bytes, k: nat)
    requires OccursAt(s, pat, k)
    ensures OccursAt(p + s + r, pat, |p| + k)
  {
    assert (p + s + r)[|p| + k..|p| + k + |pat|] == s[k..k + |pat|];
  }

  /** ... and is sent with Content-Length 269. */
  lemma HtmlPageLengthPort3001(page: Bytes, header: Header, port: Bytes, snippet: Bytes)
    requires page == Ascii("<html><body>Hi") + CloseBody + Ascii("</html>")
    requires header == map[ContentTypeKey := [TextHtml]]
    requires port == Ascii("3001") && snippet == Snippet(port)
    ensures Relay(Fetched(StatusOK, header, page), snippet).header[ContentLengthKey] == [Ascii("269")]
  {
    var up := Fetched(StatusOK, header, page);
    HtmlPageScenario(page, header, snippet);
    Port3001Snippet(port, snippet);
    assert |page| == 28;
    assert Relay(up, snippet).header[ContentLengthKey] == [Decimal(269)];
    Decimal269();
  }

  lemma Decimal269()
    ensures Decimal(269) == Ascii("269")
  {
  }

  /** A JSON body is relayed exactly as upstream sent it, with its own
      Content-Type and its own length. */
  lemma JsonScenario(snippet: Bytes)
    ensures var body := Ascii("{\"a\":1}");
      var r := Relay(Fetched(StatusOK, map[ContentTypeKey := [Ascii("application/json")]], body), snippet);
      r.status == StatusOK && r.body == body &&
      r.header[ContentTypeKey] == [Ascii("application/json")] &&
      r.header[ContentLengthKey] == [Decimal(7)]
  {
    var ct := Ascii("application/json");
    NotHtmlWithoutX(ct);
    RewriteNonHtml(Ascii("{\"a\":1}"), ct, snippet);
  }
}
