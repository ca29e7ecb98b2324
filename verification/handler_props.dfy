/** What `mainHandler` promises, stated over the model in `Handler` and
    proved for every request and every behaviour of the `net` oracles. */
module HandlerProps {
  import opened GoStrings
  import Decimal
  import Net
  import Http
  import opened Handler

  // ---------------------------------------------------------------------
  // Path parsing

  /** A second segment "json" selects JSON whatever follows it. */
  lemma JsonSuffixExample()
    ensures WantsJSON("all.json.x")
  {
    var p := "all.json.x";
    assert p[3] == '.' && p[..3] == "all" && p[4..][..5] == "json.";
  }

  /** The comparison with "json" is case-sensitive. */
  lemma UpperCaseJsonExample()
    ensures !WantsJSON("all.JSON")
  {
    var q := "all.JSON";
    forall i | 0 <= i < |q| && q[i] == '.' && '.' !in q[..i]
      ensures q[i + 1..] != "json" && !("json." <= q[i + 1..])
    {
      assert i == 3;
      assert q[4..] == "JSON";
    }
  }

  /** Without a `.` there is no format. */
  lemma NoSuffixExample()
    ensures !WantsJSON("all")
  {
    HeadPiece("all", '.');
  }

  /** A curl User-Agent, with or without a version, is recognised. */
  lemma CurlExamples()
    ensures IsCurl("curl/7.79.1")
    ensures IsCurl("curl")
  {
    assert "curl/7.79.1"[..5] == "curl/";
  }

  /** The curl test is case-sensitive, wants the whole first word, and an
      empty User-Agent is not curl. */
  lemma NotCurlExamples()
    ensures !IsCurl("Mozilla/5.0")
    ensures !IsCurl("Curl/8.0")
    ensures !IsCurl("curly/1.0")
    ensures !IsCurl("")
  {
    assert "curly/1.0"[4] == 'y';
  }

  // ---------------------------------------------------------------------
  // Attribute extraction

  /** Adding `host` leaves the ten fixed attributes as they were. */
  lemma FixedAttributes(net: Net.Resolver, req: Http.Request, key: string)
    requires LookupSafe(net, req)
    requires key in BaseKeys
    ensures Attributes(net, req)[key] == BaseAttrs(net, req)[key]
  {
  }

  /** A `CF-Connecting-IP` header that parses replaces the transport address;
      otherwise the transport address stays. The port is always the
      transport port. */
  lemma IpOverride(net: Net.Resolver, req: Http.Request)
    requires LookupSafe(net, req)
    ensures var cf := net.parseIP(Http.Get(req.header, "CF-Connecting-IP"));
      cf.Some? ==> Attributes(net, req)["ip"] == Str(net.format(cf.value))
    ensures var cf := net.parseIP(Http.Get(req.header, "CF-Connecting-IP"));
      cf.None? ==> Attributes(net, req)["ip"] == Str(net.format(req.remoteIP))
    ensures Attributes(net, req)["port"] == Num(req.remotePort)
  {
    FixedAttributes(net, req, "ip");
    FixedAttributes(net, req, "port");
  }

  /** Without a `CF-Connecting-IP` header the transport address is reported,
      because `net.ParseIP("")` is nil. */
  lemma NoProxyHeaderKeepsTransportIp(net: Net.Resolver, req: Http.Request)
    requires LookupSafe(net, req)
    requires Net.RejectsEmpty(net)
    requires "CF-Connecting-IP" !in req.header
    ensures Attributes(net, req)["ip"] == Str(net.format(req.remoteIP))
  {
    FixedAttributes(net, req, "ip");
  }

  /** Header-derived attributes are the header texts as sent (the first
      value of each), and `method` is the request method. */
  lemma HeadersCopiedVerbatim(net: Net.Resolver, req: Http.Request)
    requires LookupSafe(net, req)
    ensures var a := Attributes(net, req);
      && a["ua"] == Str(Http.Get(req.header, "User-Agent"))
      && a["lang"] == Str(Http.Get(req.header, "Accept-Language"))
      && a["encoding"] == Str(Http.Get(req.header, "Accept-Encoding"))
      && a["mime"] == Str(Http.Get(req.header, "Accept"))
      && a["referer"] == Str(Http.Get(req.header, "Referer"))
      && a["forwarded"] == Str(Http.Get(req.header, "X-Forwarded-For"))
      && a["country_code"] == Str(Http.Get(req.header, "CF-IPCountry"))
      && a["method"] == Str(req.verb)
  {
    forall key | key in BaseKeys ensures Attributes(net, req)[key] == BaseAttrs(net, req)[key] {
      FixedAttributes(net, req, key);
    }
  }

  /** An absent header reads as the empty text, not as a missing attribute. */
  lemma AbsentHeaderIsEmpty(net: Net.Resolver, req: Http.Request, key: string, header: string)
    requires LookupSafe(net, req)
    requires (key, header) in {("ua", "User-Agent"), ("lang", "Accept-Language"),
      ("encoding", "Accept-Encoding"), ("mime", "Accept"), ("referer", "Referer"),
      ("forwarded", "X-Forwarded-For"), ("country_code", "CF-IPCountry")}
    requires header !in req.header
    ensures key in Attributes(net, req)
    ensures Attributes(net, req)[key] == Str("")
  {
    FixedAttributes(net, req, key);
  }

  /** Reverse DNS runs once, on the reported address, exactly on the routes
      that need it, and never otherwise. */
  lemma HostLookupGating(net: Net.Resolver, req: Http.Request)
    requires LookupSafe(net, req)
    ensures FieldName(req.field) in {"", "all", "host"} ==>
      Lookups(net, req) == [Attributes(net, req)["ip"].s]
    ensures FieldName(req.field) !in {"", "all", "host"} ==> Lookups(net, req) == []
  {
  }

  /** `host` is "" when the lookup fails and the first name otherwise. */
  lemma HostValue(net: Net.Resolver, req: Http.Request)
    requires LookupSafe(net, req)
    requires FieldName(req.field) in {"", "all", "host"}
    ensures HostLookup(net, req).LookupError? ==> Attributes(net, req)["host"] == Str("")
    ensures HostLookup(net, req).Hostnames? ==>
      Attributes(net, req)["host"] == Str(HostLookup(net, req).names[0])
  {
  }

  // ---------------------------------------------------------------------
  // Response selection

  /** Home route: curl gets the bare address and a newline, every other
      client the rendered page over all attributes. */
  lemma HomeRoute(net: Net.Resolver, req: Http.Request)
    requires LookupSafe(net, req)
    requires FieldName(req.field) == ""
    ensures var ua := Http.UserAgent(req); var r := Handle(net, req);
      (ua == "curl" || "curl/" <= ua) ==> r.writes == [Write(200, Text(r.attrs["ip"].s + "\n"))]
    ensures var ua := Http.UserAgent(req); var r := Handle(net, req);
      !(ua == "curl" || "curl/" <= ua) ==> r.writes == [Write(200, Html(HomeTemplate, r.attrs))]
  {
  }

  /** `request` dumps the raw request as JSON. */
  lemma RequestRoute(net: Net.Resolver, req: Http.Request)
    requires LookupSafe(net, req)
    requires FieldName(req.field) == "request"
    ensures Handle(net, req).writes == [Write(200, JsonRequest(req))]
  {
  }

  /** `all` renders every attribute, `host` included, as JSON when the format
      is "json" and as `%v` text otherwise. */
  lemma AllRoute(net: Net.Resolver, req: Http.Request)
    requires LookupSafe(net, req)
    requires FieldName(req.field) == "all"
    ensures Attributes(net, req).Keys == BaseKeys + {"host"}
    ensures WantsJSON(req.field) ==>
      Handle(net, req).writes == [Write(200, Json(Attributes(net, req)))]
    ensures !WantsJSON(req.field) ==>
      Handle(net, req).writes == [Write(200, Dump(Attributes(net, req)))]
  {
  }

  /** Any other stored attribute is written alone as `fmt.Sprintln` of its
      value: the value's text and a newline. */
  lemma StoredFieldRoute(net: Net.Resolver, req: Http.Request)
    requires LookupSafe(net, req)
    requires FieldName(req.field) !in {"", "request", "all"}
    requires FieldName(req.field) in BaseKeys + {"host"}
    ensures var r := Handle(net, req); var name := FieldName(req.field);
      name in r.attrs && r.writes == [Write(200, Text(Sprintln(r.attrs[name])))]
  {
  }

  /** `/ua` answers the User-Agent header and a newline. */
  lemma UaRoute(net: Net.Resolver, req: Http.Request)
    requires LookupSafe(net, req)
    requires FieldName(req.field) == "ua"
    ensures Handle(net, req).writes == [Write(200, Text(Http.UserAgent(req) + "\n"))]
  {
    FieldStored(net, req);
    FixedAttributes(net, req, "ua");
  }

  /** `/port` answers the transport port in decimal and a newline. */
  lemma PortRoute(net: Net.Resolver, req: Http.Request)
    requires LookupSafe(net, req)
    requires FieldName(req.field) == "port"
    ensures Handle(net, req).writes == [Write(200, Text(Sprintln(Num(req.remotePort))))]
  {
    FieldStored(net, req);
    FixedAttributes(net, req, "port");
  }

  /** Any other name writes 404 "Not Found" and then, since the handler does
      not return after it, a second 200 write of `fmt.Sprintln(nil)`. */
  lemma UnknownFieldRoute(net: Net.Resolver, req: Http.Request)
    requires LookupSafe(net, req)
    requires FieldName(req.field) !in RoutedNames
    ensures Handle(net, req).writes == [Write(404, Text(NotFoundText)), Write(200, Text(NilLine))]
  {
  }

  /** With a `return` after the 404, an unknown name gets the single write
      404 "Not Found". */
  lemma IntendedUnknownFieldRoute(net: Net.Resolver, req: Http.Request)
    requires LookupSafe(net, req)
    requires FieldName(req.field) !in RoutedNames
    ensures HandleIntended(net, req).writes == [Write(404, Text(NotFoundText))]
  {
    UnknownFieldRoute(net, req);
  }

  /** The intended handler differs from the handler as written only on
      unknown names. */
  lemma IntendedAgreesOnRoutedNames(net: Net.Resolver, req: Http.Request)
    requires LookupSafe(net, req)
    ensures HandleIntended(net, req) == Handle(net, req) <==> FieldName(req.field) in RoutedNames
  {
    WriteCount(net, req);
  }

  /** Exactly the routed names get one write; every other name gets two. */
  lemma WriteCount(net: Net.Resolver, req: Http.Request)
    requires LookupSafe(net, req)
    ensures |Handle(net, req).writes| == 1 <==> FieldName(req.field) in RoutedNames
    ensures |Handle(net, req).writes| == 2 <==> FieldName(req.field) !in RoutedNames
  {
    FieldStored(net, req);
  }

  /** The format suffix changes nothing outside the `all` route: two
      parameters with the same field name give the same response (the
      `request` route differs only in the request it echoes). */
  lemma FormatOnlyAffectsAll(net: Net.Resolver, req: Http.Request, param: string)
    requires LookupSafe(net, req)
    requires FieldName(param) == FieldName(req.field)
    requires FieldName(param) != "all" && FieldName(param) != "request"
    ensures LookupSafe(net, req.(field := param))
    ensures Handle(net, req.(field := param)) == Handle(net, req)
  {
  }
}
