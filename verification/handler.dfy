/** `mainHandler` (main.go): turns one request into a map of named
    attributes and the sequence of response writes the handler performs. */
module Handler {
  import opened Wrappers
  import opened GoStrings
  import Decimal
  import Net
  import Http

  /** A value stored in the gin context: the port is an integer, every other
      attribute a string. */
  datatype Value = Str(s: string) | Num(n: nat)

  /** `c.Keys`: attribute name to value. */
  type Attrs = map<string, Value>

  /** What one call of `c.String`, `c.JSON` or `c.HTML` writes. Library
      renderings are kept symbolic: the map or request they carry is what
      gin serialises. */
  datatype Body =
    | Text(text: string)                  // c.String with a finished text
    | Dump(keys: Attrs)                   // c.String(code, "%v", c.Keys)
    | Json(keys: Attrs)                   // c.JSON(code, c.Keys)
    | JsonRequest(request: Http.Request)  // c.JSON(code, c.Request)
    | Html(template: string, keys: Attrs) // c.HTML(code, template, c.Keys)

  datatype Write = Write(status: int, body: Body)

  /** Everything the handler does for one request: the attributes it sets,
      the addresses it passes to `net.LookupAddr`, and its writes in order. */
  datatype Response = Response(attrs: Attrs, lookups: seq<string>, writes: seq<Write>)

  const HomeTemplate := "index.html"
  const NotFoundText := "Not Found"
  /** `fmt.Sprintln(nil)`: what the handler writes for a missing key. */
  const NilLine := "<nil>\n"

  /** The attributes every request gets. */
  const BaseKeys: set<string> :=
    {"ip", "port", "ua", "lang", "encoding", "method", "mime", "referer", "forwarded", "country_code"}

  /** Field names whose response needs the reverse-DNS name. */
  const HostRoutes: seq<string> := ["", "all", "host"]

  /** The field names answered with a single write: the three routes, and
      every name that can be stored in `c.Keys`. */
  const RoutedNames: set<string> := {"", "request", "all", "host"} + BaseKeys

  /** The route parameter split on `.`: the field name, then the format.
      The pieces hold no `.` and join back into the parameter. */
  function Fields(param: string): (fields: seq<string>)
    ensures |fields| >= 1
    ensures forall i :: 0 <= i < |fields| ==> '.' !in fields[i]
    ensures Join(fields, '.') == param
  {
    Split(param, '.')
  }

  /** `fields[0]`, the requested field name: the route parameter up to its
      first `.`, or all of it when there is none. */
  function FieldName(param: string): (name: string)
    ensures name <= param
    ensures '.' !in name
    ensures |name| < |param| ==> param[|name|] == '.'
  {
    HeadPiece(param, '.');
    Fields(param)[0]
  }

  /** `wantsJSON`: the second `.`-separated segment is exactly "json", that
      is, the text after the first `.` is "json" or starts with "json.". */
  function WantsJSON(param: string): (wants: bool)
    ensures wants <==>
      exists i :: 0 <= i < |param| && param[i] == '.' && '.' !in param[..i]
        && (param[i + 1..] == "json" || "json." <= param[i + 1..])
  {
    var fields := Fields(param);
    assert "json" + ['.'] == "json.";
    SecondPieceIs(param, '.', "json");
    |fields| >= 2 && fields[1] == "json"
  }

  /** The curl test: the User-Agent text before its first `/` is "curl",
      so the User-Agent is "curl" or starts with "curl/". */
  function IsCurl(ua: string): (curl: bool)
    ensures curl <==> ua == "curl" || "curl/" <= ua
  {
    HeadPieceIs(ua, '/', "curl");
    Split(ua, '/')[0] == "curl"
  }

  /** The reverse-DNS name is needed for the home page, `all` and `host`. */
  function NeedsHost(name: string): (needed: bool)
    ensures needed <==> name == "" || name == "all" || name == "host"
  {
    StringInSlice(name, HostRoutes)
  }

  /** The address the client is reported under: a `CF-Connecting-IP` header
      that parses as an address wins over the transport address. */
  function ClientIP(net: Net.Resolver, req: Http.Request): (ip: Net.IP)
    ensures var cf := net.parseIP(Http.Get(req.header, "CF-Connecting-IP"));
      && (cf.Some? ==> ip == cf.value)
      && (cf.None? ==> ip == req.remoteIP)
  {
    net.parseIP(Http.Get(req.header, "CF-Connecting-IP")).GetOr(req.remoteIP)
  }

  /** The address texts handed to `net.LookupAddr`: the reported address,
      once, when the field needs the host name, and nothing otherwise. */
  function Lookups(net: Net.Resolver, req: Http.Request): (lookups: seq<string>)
    ensures |lookups| <= 1
    ensures |lookups| == 1 <==> NeedsHost(FieldName(req.field))
    ensures |lookups| == 1 ==> lookups[0] == net.format(ClientIP(net, req))
  {
    if NeedsHost(FieldName(req.field)) then [net.format(ClientIP(net, req))] else []
  }

  /** The `net.LookupAddr` result for the reported address: the answer to
      the lookup the handler makes, when it makes one. */
  function HostLookup(net: Net.Resolver, req: Http.Request): (l: Net.Lookup)
    ensures |Lookups(net, req)| == 1 ==> l == net.lookupAddr(Lookups(net, req)[0])
  {
    net.lookupAddr(net.format(ClientIP(net, req)))
  }

  /** The handler indexes `hostnames[0]` unguarded, so a successful lookup
      must return at least one name whenever the lookup runs. */
  predicate LookupSafe(net: Net.Resolver, req: Http.Request) {
    NeedsHost(FieldName(req.field)) ==> Net.Usable(HostLookup(net, req))
  }

  /** The ten attributes set for every request. */
  function BaseAttrs(net: Net.Resolver, req: Http.Request): (attrs: Attrs)
    ensures attrs.Keys == BaseKeys
  {
    var h := req.header;
    map[
      "ip" := Str(net.format(ClientIP(net, req))),
      "port" := Num(req.remotePort),
      "ua" := Str(Http.UserAgent(req)),
      "lang" := Str(Http.Get(h, "Accept-Language")),
      "encoding" := Str(Http.Get(h, "Accept-Encoding")),
      "method" := Str(req.verb),
      "mime" := Str(Http.Get(h, "Accept")),
      "referer" := Str(Http.Get(h, "Referer")),
      "forwarded" := Str(Http.Get(h, "X-Forwarded-For")),
      "country_code" := Str(Http.Get(h, "CF-IPCountry"))
    ]
  }

  /** The `host` value for a lookup outcome: "" on error, else the first
      name returned. */
  function HostName(l: Net.Lookup): (name: string)
    requires Net.Usable(l)
    ensures l.LookupError? ==> name == ""
    ensures l.Hostnames? ==> name == l.names[0] && name in l.names
  {
    match l
    case LookupError => ""
    case Hostnames(names) => names[0]
  }

  /** `fmt.Sprintln(v)` for a stored value: a text followed by a newline, a
      number as decimal digits that read back as it, followed by a newline. */
  function Sprintln(v: Value): (line: string)
    ensures |line| >= 1 && line[|line| - 1] == '\n'
    ensures v.Str? ==> line[..|line| - 1] == v.s
    ensures v.Num? ==>
      && (forall i :: 0 <= i < |line| - 1 ==> Decimal.IsDigit(line[i]))
      && Decimal.ParseDigits(line[..|line| - 1]) == v.n
      && |line| >= 2
      && (line[0] == '0' ==> v.n == 0)
      && (|line| == 2 <==> v.n < 10)
  {
    match v
    case Str(s) =>
      assert (s + "\n")[..|s|] == s;
      s + "\n"
    case Num(n) =>
      var digits := Decimal.NatToString(n);
      assert (digits + "\n")[..|digits|] == digits;
      Decimal.ParseNatToString(n);
      digits + "\n"
  }

  /** The response selection of main.go:91-117. Every path ends in a 200 write;
      only a name that is neither a route nor a stored key gets a second
      write, and that write pair starts with the 404. */
  function Select(req: Http.Request, attrs: Attrs, ipText: string): (writes: seq<Write>)
    ensures 1 <= |writes| <= 2
    ensures writes[|writes| - 1].status == 200
    ensures |writes| == 2 <==> FieldName(req.field) !in {"", "request", "all"} && FieldName(req.field) !in attrs
    ensures |writes| == 2 ==> writes[0] == Write(404, Text(NotFoundText))
  {
    var name := FieldName(req.field);
    if name == "" then
      if IsCurl(Http.UserAgent(req)) then [Write(200, Text(ipText + "\n"))]
      else [Write(200, Html(HomeTemplate, attrs))]
    else if name == "request" then
      [Write(200, JsonRequest(req))]
    else if name == "all" then
      if WantsJSON(req.field) then [Write(200, Json(attrs))] else [Write(200, Dump(attrs))]
    else if name in attrs then
      [Write(200, Text(Sprintln(attrs[name])))]
    else
      [Write(404, Text(NotFoundText)), Write(200, Text(NilLine))]
  }

  /** `c.Keys` after main.go:65-84: the ten fixed attributes, plus `host`
      exactly when the requested field needs it. */
  function Attributes(net: Net.Resolver, req: Http.Request): (attrs: Attrs)
    requires LookupSafe(net, req)
    ensures attrs.Keys - {"host"} == BaseKeys
    ensures "host" in attrs <==> NeedsHost(FieldName(req.field))
  {
    var base := BaseAttrs(net, req);
    if NeedsHost(FieldName(req.field)) then base["host" := Str(HostName(HostLookup(net, req)))]
    else base
  }

  /** The requested field is stored in `c.Keys` exactly when it is one of
      the ten fixed names or `host`. */
  lemma FieldStored(net: Net.Resolver, req: Http.Request)
    requires LookupSafe(net, req)
    ensures FieldName(req.field) in Attributes(net, req) <==> FieldName(req.field) in BaseKeys + {"host"}
  {
    var name := FieldName(req.field);
    var attrs := Attributes(net, req);
    assert name == "host" ==> NeedsHost(name);
    assert name != "host" ==> (name in attrs <==> name in attrs.Keys - {"host"});
  }

  /** `mainHandler`: every request ends with a 200 write. */
  function Handle(net: Net.Resolver, req: Http.Request): (resp: Response)
    requires LookupSafe(net, req)
    ensures 1 <= |resp.writes| <= 2 && resp.writes[|resp.writes| - 1].status == 200
  {
    var attrs := Attributes(net, req);
    Response(attrs, Lookups(net, req), Select(req, attrs, net.format(ClientIP(net, req))))
  }

  /** The response selection with the `return` that main.go:115 evidently
      lacks: an unknown name gets the 404 alone. The other branches are
      those of `Select`. */
  function SelectIntended(req: Http.Request, attrs: Attrs, ipText: string): (writes: seq<Write>)
    ensures |writes| == 1
    ensures writes[0].status == 404 ==> writes[0] == Write(404, Text(NotFoundText))
    ensures writes[0].status == 404 <==>
      FieldName(req.field) !in {"", "request", "all"} && FieldName(req.field) !in attrs
  {
    var name := FieldName(req.field);
    if name == "" then
      if IsCurl(Http.UserAgent(req)) then [Write(200, Text(ipText + "\n"))]
      else [Write(200, Html(HomeTemplate, attrs))]
    else if name == "request" then
      [Write(200, JsonRequest(req))]
    else if name == "all" then
      if WantsJSON(req.field) then [Write(200, Json(attrs))] else [Write(200, Dump(attrs))]
    else if name in attrs then
      [Write(200, Text(Sprintln(attrs[name])))]
    else
      [Write(404, Text(NotFoundText))]
  }

  /** The handler as evidently intended: one write per request, and that
      write is 404 "Not Found" exactly for the names it does not route. */
  function HandleIntended(net: Net.Resolver, req: Http.Request): (resp: Response)
    requires LookupSafe(net, req)
    ensures |resp.writes| == 1
    ensures resp.writes[0] == Write(404, Text(NotFoundText)) <==> FieldName(req.field) !in RoutedNames
  {
    var attrs := Attributes(net, req);
    var writes := SelectIntended(req, attrs, net.format(ClientIP(net, req)));
    FieldStored(net, req);
    Response(attrs, Lookups(net, req), writes)
  }
}
