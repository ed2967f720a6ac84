/** The parts of Go's `net/url` package that the link builder calls: `Parse`,
    `(*URL).ResolveReference` and `(*URL).String`. Their internals (RFC 3986
    parsing, the merge rules of section 5.2 of RFC 3986, percent-escaping) are
    not modelled: a `UrlLibrary` value carries them as functions, and every
    property of the link builder is stated for an arbitrary library.
 */
module NetUrl {

  /** The components of a parsed URL, as `url.URL` keeps them. The link builder
      only ever writes `fragment`; the others pass through untouched. */
  datatype Url = Url(
    scheme: string,
    schemeSpecific: string,
    userinfo: string,
    host: string,
    path: string,
    rawQuery: string,
    fragment: string)

  /** `*url.Error`: the operation, the offending text and the reason. */
  datatype UrlError = UrlError(op: string, url: string, reason: string)

  /** A value or the error that stopped its computation. */
  datatype Result<+T> = Ok(value: T) | Err(error: UrlError)

  /** The three library operations the link builder depends on. */
  datatype UrlLibrary = UrlLibrary(
    parse: string -> Result<Url>,
    resolveReference: (Url, Url) -> Url,
    serialize: Url -> string)

  /** Whether serializing a URL and parsing the text again gives back the
      fragment that was set, as `url.URL.String` and `url.Parse` do for the
      URLs this package builds. */
  ghost predicate PreservesFragment(lib: UrlLibrary)
  {
    forall u :: lib.parse(lib.serialize(u)).Ok? && lib.parse(lib.serialize(u)).value.fragment == u.fragment
  }
}
