# ifconfig.io request handler, modelled in Dafny

ifconfig.io is a "what is my IP" HTTP service. It has a single handler, `mainHandler`.
The handler takes one request and turns it into a map of named attributes:

- `ip` and `port`;
- `ua`, `lang`, `encoding`, `mime`, `referer`, `forwarded` and `country_code`;
- `method`;
- `host`, on some routes only.

It then answers, based on the `:field` route parameter. The parameter is split on `.` into a field name and an optional format. The handler writes one of the following:

- the bare address, for curl on `/`;
- an HTML page, for other clients on `/`;
- the raw request as JSON;
- every attribute as JSON or as `%v` text;
- one attribute and a newline;
- "Not Found".

This project models that decision as pure functions and proves what it does for every request.

Modules, one per file:

- `Wrappers` (`wrappers.dfy`) holds `Option`, which stands in for Go's nil results.
- `GoStrings` (`go_strings.dfy`) holds `strings.Split` and `strings.Join` for a one-character separator. It proves them inverse to each other and characterises the first and second pieces. It also holds the handler's own `stringInSlice`.
- `Decimal` (`decimal.dfy`) holds the `%v` text of the port, with a round-trip lemma.
- `Net` (`net.dfy`) keeps three calls abstract, as fields of a `Resolver` value: `net.ParseIP`, `IP.String` and `net.LookupAddr`. Every proof holds for every behaviour of these calls, with two exceptions. A successful lookup must return at least one name (`Handler.LookupSafe`). One lemma also assumes `net.ParseIP("")` is nil (`Net.RejectsEmpty`).
- `Http` (`http.dfy`) holds the request: the resolved remote address and port, the headers, the method and the route parameter. It also models `Header.Get`.
- `Handler` (`handler.dfy`) holds the handler. `Attributes` is `c.Keys`. `Lookups` lists the addresses handed to reverse DNS. `Select` is the sequence of `c.String`/`c.JSON`/`c.HTML` writes. `Handle` is the whole handler.
- `HandlerProps` (`handler_props.dfy`) holds the properties, stated over `Handle`, `Attributes` and `Lookups`.

The response is a sequence of writes, not a single value. On an unknown field name the handler writes 404 "Not Found" and does not return. A second write, 200 with `fmt.Sprintln(nil)` (`"<nil>\n"`), follows.

Three behaviours of the code are easy to misread, and the model follows the code in each:

- An unknown name gets two writes, not one; see Findings.
- When `CF-Connecting-IP` parses, `ip` is `IP.String` of the parsed address, not the header's text. The model applies the `format` oracle to the parsed address.
- The curl test compares the whole text before the first `/` with "curl". So "curly/1.0" is not curl, and neither is "Curl/8.0".

## Model

| member | source | states |
|---|---|---|
| GoStrings.StringInSlice | main.go:44-51 | true iff some element of the list equals the string exactly; the empty list gives false |
| GoStrings.Split | main.go:54 | `strings.Split` gives at least one piece, no piece holds the separator, and joining the pieces with the separator gives the input back |
| GoStrings.SplitJoin | main.go:54 | splitting the join of separator-free pieces gives those pieces back, so Split and Join are inverse |
| Handler.Fields | main.go:54 | the route parameter split on `.`: at least one piece, none holding a `.`, joining back into the parameter |
| Handler.FieldName | main.go:54 | `fields[0]` is the route parameter up to its first `.` (a prefix with no `.`, followed by a `.` or the end) |
| Handler.WantsJSON | main.go:86-89 | JSON is wanted iff there is a `.` and the text after the first one is exactly "json" or starts with "json." |
| HandlerProps.JsonSuffixExample | main.go:86-89 | `all.json.x` wants JSON: only the second segment matters |
| HandlerProps.UpperCaseJsonExample | main.go:86-89 | `all.JSON` does not want JSON: the comparison is case-sensitive |
| HandlerProps.NoSuffixExample | main.go:86-89 | `all` does not want JSON: with one segment there is no format |
| Handler.IsCurl | main.go:91-95 | the curl test holds iff the User-Agent is "curl" or starts with "curl/" |
| HandlerProps.CurlExamples | main.go:91-95 | "curl/7.79.1" and "curl" are curl |
| HandlerProps.NotCurlExamples | main.go:91-95 | "Mozilla/5.0", "Curl/8.0", "curly/1.0" and the empty User-Agent are not curl |
| Http.Get | main.go:68-74 | `Header.Get`: the first value stored under the name; "" when the name is absent or has no values |
| Http.UserAgent | main.go:67 | `Request.UserAgent`: the first `User-Agent` value; "" when the header is absent or has no values |
| Handler.ClientIP | main.go:60-63 | the reported address is the parsed `CF-Connecting-IP` when it parses, and the transport address otherwise |
| Handler.BaseAttrs | main.go:65-74 | the attributes set for every request are exactly the ten fixed names |
| Handler.NeedsHost | main.go:77 | the host name is needed iff the field name is "", "all" or "host" |
| Handler.Attributes | main.go:65-84 | `c.Keys` is the ten fixed names, plus `host` iff the host name is needed |
| Handler.FieldStored | main.go:65-84 | the requested field is in `c.Keys` iff it is one of the ten fixed names or `host` |
| HandlerProps.IpOverride | main.go:60-66 | a `CF-Connecting-IP` that parses makes `ip` the parsed address's text; otherwise `ip` is the transport address's text; `port` is always the transport port |
| HandlerProps.NoProxyHeaderKeepsTransportIp | main.go:60-65 | with no `CF-Connecting-IP` header, `ip` is the transport address, because the empty text does not parse |
| HandlerProps.HeadersCopiedVerbatim | main.go:67-74 | `ua`, `lang`, `encoding`, `mime`, `referer`, `forwarded` and `country_code` are the first values of their headers, unaltered; `method` is the request method |
| HandlerProps.AbsentHeaderIsEmpty | main.go:67-74 | a missing header still yields its attribute, with the empty text |
| Handler.Lookups | main.go:76-78 | reverse DNS is asked at most once, exactly when the host name is needed, and on the reported address's text |
| Handler.HostLookup | main.go:78 | the lookup outcome is the `net.LookupAddr` answer for the address the handler looks up |
| HandlerProps.HostLookupGating | main.go:76-78 | reverse DNS is asked exactly once, on the reported `ip` text, iff the field name is "", "all" or "host"; otherwise it is never asked |
| Handler.HostName | main.go:79-83 | the `host` value is "" when the lookup fails and the first returned name otherwise |
| HandlerProps.HostValue | main.go:78-83 | `host` is "" when the lookup fails and the first returned name otherwise |
| Handler.Sprintln | main.go:117 | `fmt.Sprintln` of a stored value: the text and a newline, or a non-empty run of decimal digits that reads back as the number, with no leading zero, a single digit exactly below ten (so zero is `0`), and a newline |
| Handler.Select | main.go:91-117 | one or two writes, and the last is always 200; two writes iff the name is neither a route nor a stored key, and then the first is 404 "Not Found" |
| Handler.Handle | main.go:53-119 | every request ends with a 200 write, after at most one earlier write |
| HandlerProps.HomeRoute | main.go:91-100 | on `/`, a curl User-Agent gets exactly one write, 200 with the `ip` text and a newline; any other client gets exactly one write, 200 with the `index.html` page over all attributes |
| HandlerProps.RequestRoute | main.go:101-103 | `request` gets one write, 200 with the raw request as JSON |
| HandlerProps.AllRoute | main.go:104-110 | `all` carries every fixed attribute plus `host`; it is written once, as JSON iff JSON is wanted and as `%v` text otherwise |
| HandlerProps.StoredFieldRoute | main.go:113-117 | a stored attribute name gets one write, 200 with `fmt.Sprintln` of its value |
| HandlerProps.UaRoute | main.go:113-117 | `ua` answers the User-Agent header and a newline |
| HandlerProps.PortRoute | main.go:113-117 | `port` answers the port's decimal line, 200 |
| Decimal.NatToString | main.go:117 | the `%v` text of a port is non-empty decimal digits, starting with `0` only for zero |
| Decimal.ParseNatToString | main.go:117 | reading back the decimal text of a number gives the number |
| HandlerProps.UnknownFieldRoute | main.go:113-117 | an unknown name gets two writes: 404 "Not Found", then 200 `"<nil>\n"` |
| HandlerProps.WriteCount | main.go:91-117 | exactly the routed names ("", `request`, `all`, `host` and the ten fixed names) get one write; every other name gets two |
| HandlerProps.FormatOnlyAffectsAll | main.go:86-117 | outside `all` and `request`, two parameters with the same field name give identical responses, so the format suffix changes nothing there |
| Handler.SelectIntended | main.go:91-117 | the selection with a `return` after the 404: always exactly one write, which is 404 "Not Found" iff the name is neither a route nor a stored key |
| Handler.HandleIntended | main.go:113-117 | the corrected handler writes exactly once, and that write is 404 "Not Found" iff the field name is not routed |
| HandlerProps.IntendedUnknownFieldRoute | main.go:113-117 | in the corrected handler, an unknown name gets only 404 "Not Found" |
| HandlerProps.IntendedAgreesOnRoutedNames | main.go:91-117 | the corrected handler equals the as-written one iff the field name is routed |

## Left out

- `Logger` (main.go:18-42) is left out. It reads the clock, measures latency and prints an access-log line. It also resolves `RemoteAddr` with `net.ResolveTCPAddr` and calls `c.Abort()` on failure (main.go:21-24), which in gin stops the chain before `mainHandler` runs. Its log line then reads `ip.IP` through the nil address (main.go:38-40), a panic that `gin.Recovery` (main.go:135) turns into a 500 response. The model covers only requests whose remote address resolves.
- `main` (main.go:133-164) is left out. It sets up gin, loads templates, starts the FastCGI and HTTP listeners with their goroutines and error channel, reads `PORT`/`HOST`, and panics on errors. This is transport and concurrency plumbing.
- `FileServer` (main.go:123-131) is left out. It wraps `path.Clean` and `http.ServeFile`, library code that is not part of this model.
- `net.ResolveTCPAddr` is not modelled. The request carries an already-resolved address and port. When resolution fails, the handler calls `c.Abort()` without returning and then dereferences a nil address (main.go:55-62). That is a runtime panic, which `gin.Recovery` (main.go:135) turns into a 500 response. This path is not modelled.
- `net.ParseIP`, `IP.String` and `net.LookupAddr` are abstract oracles, so the real address grammar and DNS are not modelled. `Net.RejectsEmpty` assumes only that the empty text does not parse.
- Handler.Handle requires `LookupSafe`: a lookup that succeeds must return at least one name. The source indexes `hostnames[0]` unguarded, so a success with no names would panic; that case is excluded rather than modelled.
- Header-name canonicalisation in `Header.Get` is not modelled, because it is `net/textproto` library code. The header map is keyed by the name as the handler spells it. `Get` returns the first stored value, or "" when there is none.
- JSON, HTML-template and `%v` map rendering are not modelled as bytes. They are tagged bodies (`Json`, `JsonRequest`, `Html`, `Dump`) that carry the map or request gin would render.
- gin's handling of a second write on one response is not modelled. That includes whether the later 200 status is dropped and how the two bodies are joined on the wire. The model stops at the sequence of writes.
- No lemma states repeatability: the same request always gets the same attributes and writes. Every operation is a pure function, so this holds by construction.
- DNS timeouts are not modelled, since the source has none.

## Findings

| source | as written | input that shows it | evidently intended | confidence | as-written member | corrected member |
|---|---|---|---|---|---|---|
| main.go:113-117 | after `c.String(404, "Not Found")` the handler does not return, so a second write `c.String(200, fmt.Sprintln(nil))` follows | `GET /nonexistent` | a single 404 "Not Found" response | high; not executed | HandlerProps.UnknownFieldRoute | HandlerProps.IntendedUnknownFieldRoute |

`Handle` keeps the as-written behaviour, since that is what the service does. `HandleIntended` is the corrected handler, built on `SelectIntended`, the selection with the missing `return` added. `HandlerProps.IntendedAgreesOnRoutedNames` proves the two handlers differ only for unknown names.
