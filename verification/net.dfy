/** The three calls into Go's `net` package that the handler makes, kept
    abstract: the handler is proved correct for every behaviour they might
    have, except that a successful lookup returns at least one name
    (`Handler.LookupSafe`), and one lemma assumes the empty text does not
    parse (`RejectsEmpty`). */
module Net {
  import opened Wrappers

  /** `net.IP`: the raw address bytes. */
  datatype IP = IP(bytes: seq<bv8>)

  /** Outcome of `net.LookupAddr`: an error, or the list of names found. */
  datatype Lookup = LookupError | Hostnames(names: seq<string>)

  /** The environment the handler runs in.
      - `parseIP` is `net.ParseIP`: `None` plays the part of the nil result;
      - `format` is `IP.String`, the textual form of an address;
      - `lookupAddr` is `net.LookupAddr`, reverse DNS on an address text. */
  datatype Resolver = Resolver(
    parseIP: string -> Option<IP>,
    format: IP -> string,
    lookupAddr: string -> Lookup)

  /** `net.ParseIP("")` is nil: an empty text is not an address. */
  predicate RejectsEmpty(net: Resolver) {
    net.parseIP("") == None
  }

  /** A lookup result the handler can use without indexing past the end. */
  predicate Usable(l: Lookup) {
    l.Hostnames? ==> |l.names| > 0
  }
}
