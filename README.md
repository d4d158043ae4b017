# Live-reload relay: a Dafny model

This project models the sequential core of `mitm`, a development-time live-reload relay written in Go.
The relay has two listeners.

- The proxy listener forwards every request to an upstream HTTP server and relays the response.
  When the upstream `Content-Type` contains `text/html`, it splices a small reload client (the
  *snippet*) in front of the first `</body>`. It then copies every upstream header, overrides
  `Content-Length` with the length of the relayed body, and keeps the upstream status code.
- The notification listener keeps a registry of open WebSocket connections (`/ws`). On `/reload`
  it sends the text frame `reload` to every registered connection and deletes each connection
  whose send fails.

Files and modules:

- `go_bytes.dfy` (`GoBytes`): Go strings as byte sequences, plus the standard-library operations
  the relay relies on. These are `strings.Index`, `strings.Contains`, `strings.Replace(s, old, new, 1)`
  and `fmt.Sprintf("%d", n)`. Each has a full characterisation: first occurrence and no earlier
  one, a splice, or a decimal round trip.
- `injection.dfy` (`Injection`): the snippet for a notification port, `injectScript`, and the
  content-type conditional `Rewrite` with its splice, identity, inverse and length lemmas.
- `proxy.dfy` (`Proxy`): the upstream outcome oracle, the `http.ResponseWriter` as a class, the
  handler `ServeProxy` proved against the specification function `Relay`, and lemmas about `Relay`.
  The lemmas cover Content-Length, the headers kept, the status, non-HTML bodies, HTML bodies and
  failures, plus two concrete responses: an HTML page and a JSON body.
- `registry.dfy` (`Registry`): the `clients` map as a class. It has registration, the `/ws`
  handler, and the broadcast-and-prune loop over an oracle that says which connections are broken.

Abstractions:

- The network is an input. A proxy request arrives as an `Upstream` value: one of the three
  failures (building the request, the round trip, reading the body) or the fetched status,
  headers and body.
- A WebSocket upgrade arrives as an `Option<Conn>`.
- A broadcast receives the set of connections whose `WriteMessage` fails.
- `injectScript` (main.go:35-48) is never called. `main` builds a byte-identical snippet inline
  (main.go:55-64), so one `Snippet(port)` serves both. `InjectScriptIsHtmlRewrite` shows that
  `injectScript` is the handler's rewrite for a `text/html` response.

## Model

| member | source | states |
|---|---|---|
| `GoBytes.Index` | main.go:112 | the result is an occurrence of the pattern with no earlier one; with no result, the pattern occurs nowhere (`strings.Index` inside `strings.Replace`) |
| `GoBytes.IndexIsFirst` | main.go:112 | any occurrence with none before it is exactly the one `Index` returns |
| `GoBytes.Contains` | main.go:111 | `strings.Contains`, defined as `Index` finding a position; `ContainsIff` states what it means |
| `GoBytes.ContainsIff` | main.go:111 | `strings.Contains` holds if and only if the pattern occurs at some position |
| `GoBytes.ReplaceFirst` | main.go:112 | with no occurrence the input is returned; otherwise the prefix before the first occurrence is kept, the replacement follows it, then the remainder after the occurrence, and the length changes by the replacement's length minus the pattern's |
| `GoBytes.Decimal` | main.go:120 | `fmt.Sprintf("%d", n)` is a non-empty string of decimal digits without a leading zero |
| `GoBytes.DecimalRoundTrip` | main.go:120 | reading back the decimal text gives exactly the number written |
| `Injection.Snippet` | main.go:55-64 | the snippet is the fixed script head, the port verbatim at offset 61, then the fixed tail |
| `Injection.Rewrite` | main.go:110-114 | the content-type conditional rewrite of a relayed body; its contract is stated by `RewriteSplice`, `RewriteKeepsRest`, `RewriteLaterTags`, `RewriteInverse`, `RewriteWithoutCloseTag`, `RewriteNonHtml` and `RewriteLength` |
| `Injection.InjectScript` | main.go:35-48 | `injectScript`, the first-`</body>` splice without a content-type test; `InjectScriptIsHtmlRewrite` ties it to `Rewrite`, so every `Rewrite` lemma applies to it |
| `Injection.InjectScriptIsHtmlRewrite` | main.go:35-48 | `injectScript(html, port)` equals the handler's rewrite under content type `text/html` with the snippet for `port` |
| `Injection.RewriteSplice` | main.go:110-114 | for an HTML content type and a first `</body>` at `i`, the relayed body is the text before `i`, the snippet, `</body>`, then the unchanged remainder |
| `Injection.RewriteKeepsRest` | main.go:112 | the bytes before the first `</body>` are unchanged, and from that tag on the output is the input's suffix, shifted by the snippet's length |
| `Injection.RewriteLaterTags` | main.go:112 | after the first, each `</body>` of the input sits at the same place shifted by the snippet's length, and no other appears there |
| `Injection.RewriteInverse` | main.go:112 | the snippet sits at the first tag's position, and cutting it out gives back the upstream body |
| `Injection.RewriteWithoutCloseTag` | main.go:112 | a body with no `</body>` is relayed unchanged, whatever the content type |
| `Injection.RewriteNonHtml` | main.go:110-114 | a content type not containing `text/html` leaves the body byte-identical |
| `Injection.RewriteLength` | main.go:110-114 | the body grows by exactly the snippet's length when the response is HTML and has a `</body>`, and is unchanged otherwise |
| `Proxy.HeaderGet` | main.go:110 | `Header.Get`, defined as the first value stored under the key or the empty string; `RelayKeepsContentType` states what the caller sees of it |
| `Proxy.ServerError` | main.go:89 | the reply `http.Error(w, "Server error", 500)` sends; `ReplyServerError` proves the writer produces it and `RelayFailure` that every failure gives it |
| `Proxy.RelayHeader` | main.go:116-120 | the upstream headers copied over the writer's, then Content-Length set; its contract is stated by `RelayContentLength`, `RelayKeepsHeaders` and `RelayKeepsContentType` |
| `Proxy.Relay` | main.go:86-123 | the response the handler sends for one upstream outcome; `ServeProxy` proves the handler sends it, and the `Relay…` lemmas state its contract |
| `Proxy.ResponseWriter.CopyHeader` | main.go:116-118 | after the copy loop the writer's headers are the old ones overridden by every upstream key and value; the rest of the writer is unchanged |
| `Proxy.ResponseWriter.SetHeader` | main.go:120 | `Header().Set` stores exactly one value under the key and changes nothing else |
| `Proxy.ResponseWriter.WriteHeader` | main.go:122 | the first call fixes the status and the headers sent; a later call changes nothing |
| `Proxy.ResponseWriter.Write` | main.go:123 | the data is appended to the body, and the headers are sent with status 200 if none were sent before |
| `Proxy.ReplyServerError` | main.go:88-90 | `http.Error(w, "Server error", 500)` on a fresh writer sends status 500, a plain-text content type, `nosniff` and the body `Server error\n` |
| `Proxy.ServeProxy` | main.go:104-123 | on a fresh writer the handler sends exactly `Relay(up, snippet)`: the 500 reply for each failure, otherwise the rewritten body with the copied headers, the overridden Content-Length and the upstream status |
| `Proxy.RelayContentLength` | main.go:120 | the relayed Content-Length has one value, and it reads back as the byte length of the body actually sent, whatever upstream sent |
| `Proxy.RelayKeepsHeaders` | main.go:116-120 | the relayed header keys are the upstream keys plus Content-Length, and every other upstream key keeps its upstream values |
| `Proxy.RelayKeepsContentType` | main.go:116-118 | the Content-Type the caller receives is the upstream one, the same value the rewrite decision read |
| `Proxy.RelayKeepsStatus` | main.go:122 | the relayed status code is the upstream status code |
| `Proxy.RelayNonHtml` | main.go:110-114 | when the upstream Content-Type does not contain `text/html`, the relayed body is the upstream body |
| `Proxy.RelayHtml` | main.go:110-120 | for HTML with a first `</body>` at `i`, the body has the snippet spliced before it, is longer by the snippet's length, and Content-Length says so |
| `Proxy.RelayFailure` | main.go:87-108 | every upstream failure gives status 500 with the fixed error text: no rewriting is attempted |
| `Proxy.HtmlPageScenario` | main.go:110-122 | `<html><body>Hi</body></html>` served as `text/html` is relayed with status 200 and the snippet just before `</body>` |
| `Proxy.Port3001Snippet` | main.go:55-64 | the snippet for port 3001 is 241 bytes long and contains `ws://localhost:3001/ws` at offset 46 |
| `Proxy.HtmlPageDialsPort3001` | main.go:112 | that relayed page contains `ws://localhost:3001/ws` at offset 60 |
| `Proxy.HtmlPageLengthPort3001` | main.go:120 | that relayed page is sent with Content-Length `269` |
| `Proxy.JsonScenario` | main.go:110-122 | `{"a":1}` served as `application/json` is relayed unchanged, with status 200, its Content-Type and Content-Length `7` |
| `Registry.ConnRegistry.constructor` | main.go:66 | the registry starts empty |
| `Registry.ConnRegistry.Register` | main.go:72 | `clients[conn] = true` (also main.go:30) makes `conn` a member and leaves every other entry as it was; registering a member again changes nothing |
| `Registry.ConnRegistry.HandleWebsocket` | main.go:69-73 | a failed upgrade leaves the registry unchanged; a successful one registers the new connection |
| `Registry.ConnRegistry.Broadcast` | main.go:75-83 | each connection registered at the start is attempted exactly once, a failure never stops the loop, and afterwards the registry is the old one minus exactly the broken connections, with no new entries |
| `Registry.DistinctCount` | main.go:76-82 | a list of attempts naming each registered connection once has as many entries as the registry had |
| `Registry.BroadcastWithOneBroken` | main.go:76-82 | with three connections registered and one broken, the broadcast reaches the other two and only those two stay registered |
| `Registry.BroadcastToNobody` | main.go:76-82 | a broadcast to an empty registry attempts nothing and leaves it empty |

## Left out

- Flag parsing and the default ports (main.go:14-18, 53): configuration only. The notification port
  is a parameter of `Snippet`.
- Starting the two listeners, the goroutines and the blocking channel (main.go:126-136): process
  startup and concurrency.
- The unsynchronised access to `clients` from the two handlers. The registry is modelled
  sequentially, one handler call at a time. The data race and any locking discipline are not modelled.
- The gorilla WebSocket upgrade, `WriteMessage` and `Close` (main.go:20-22, 26, 70, 77, 79): foreign
  library calls. Their outcomes are inputs: an `Option<Conn>` for the upgrade and a set of broken
  connections for the sends. Closing a failed connection is not modelled beyond deleting it.
- The outbound request: `http.NewRequest` with the path-only URL, the header clone, `client.Do`
  and `io.ReadAll` (main.go:87-108). These are network calls, so the `Upstream` value stands in for
  their result.
- The query string: main.go:87 builds the URL from the path only, so the query string is dropped.
  Dropping the query string is a defect of the source. It belongs to the request side, which is not modelled.
- Header key canonicalisation (`textproto.CanonicalMIMEHeaderKey`): `Header.Get` and `Header.Set`
  are modelled as lookups of the canonical keys `Content-Type` and `Content-Length`, which is how
  Go's parser stores upstream keys.
- Go versions differ in the headers `http.Error` sets. Some also delete Content-Length
  (main.go:89, 98, 106). The model sends the two headers every version sets, plus the fixed body.
- Headers net/http adds on its own are not modelled: `Date`, and a sniffed `Content-Type` when upstream sent none.
  Write errors on the client connection are not modelled either.
- `Proxy.ResponseWriter.WriteHeader`: three net/http behaviours are not modelled, so `Sent()` is what
  the handler fixed and not always what reaches the caller. (a) `WriteHeader` panics for a code
  outside 100..999, and Go's client accepts any three-digit status, so an upstream `099` reaching
  main.go:122 gives the caller no response; the model relays it. (b) For statuses 204 and 304 net/http
  drops Content-Length, and on 304 also Content-Type, before sending, so `RelayContentLength` does not
  describe those responses on the wire. (c) net/http adds `Content-Length: 13` to the 500 reply.
- `Registry.ConnRegistry.Broadcast`: the payload of each send is the fixed text frame `reload`
  (main.go:77). The model records only which connections were sent to.
- The JavaScript of the snippet is kept as bytes. Its behaviour in the browser is not modelled.
- Integer width: `len(bodyBytes)` is a Go `int`. The model uses unbounded naturals, because a body
  held in memory cannot reach 2^63 bytes.
