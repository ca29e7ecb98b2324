/** The slice of Go's `net/http` request that the handler reads. */
module Http {
  import Net

  /** A TCP port, as `net.ResolveTCPAddr` produces it. */
  type Port = p: int | 0 <= p < 0x1_0000

  /** `http.Header`: header name to its values, in arrival order. Go files
      each name under one canonical spelling and `Header.Get` canonicalises
      the name it is asked for, so spellings that differ only in letter case
      meet; the model keys the map by the name as the handler spells it. */
  type Header = map<string, seq<string>>

  /** An inbound request. The remote address is already resolved into an
      address and a port; `field` is the `:field` route parameter, empty on
      the `/` route; `verb` is the request method (GET, ...). */
  datatype Request = Request(
    remoteIP: Net.IP,
    remotePort: Port,
    header: Header,
    verb: string,
    field: string)

  /** `Header.Get`: the first value stored under `name`, or "" when there is
      none. */
  function Get(h: Header, name: string): (v: string)
    ensures name !in h ==> v == ""
    ensures name in h && |h[name]| == 0 ==> v == ""
    ensures name in h && |h[name]| > 0 ==> v == h[name][0]
  {
    if name in h && |h[name]| > 0 then h[name][0] else ""
  }

  /** `Request.UserAgent`: the first `User-Agent` value, or "" without one. */
  function UserAgent(r: Request): (ua: string)
    ensures "User-Agent" !in r.header ==> ua == ""
    ensures "User-Agent" in r.header && |r.header["User-Agent"]| == 0 ==> ua == ""
    ensures "User-Agent" in r.header && |r.header["User-Agent"]| > 0 ==> ua == r.header["User-Agent"][0]
  {
    Get(r.header, "User-Agent")
  }
}
