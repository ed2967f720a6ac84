/** `getSiteURL`: the action link of an invite, confirmation, recovery or
    email-change mail. The base is chosen, parsed and (when a path is given)
    resolved against the path; the fragment is set to the token payload; the
    URL is serialized; and the text is rewritten according to the encoding
    mode. The URL library is a parameter, so each step is stated relative to it.
 */
module Links {
  import opened Text
  import opened NetUrl
  import opened Env

  /** `withDefault`: the value, or the default when the value is empty. */
  function WithDefault(value: string, defaultValue: string): (r: string)
    ensures r == value || r == defaultValue
    ensures value != "" ==> r == value
    ensures r == "" <==> value == "" && defaultValue == ""
  {
    if value == "" then defaultValue else value
  }

  /** Defaults chain: falling back to `b` and then to `c` is falling back to
      the first non-empty of `b` and `c`. */
  lemma WithDefaultChain(a: string, b: string, c: string)
    ensures WithDefault(WithDefault(a, b), c) == WithDefault(a, WithDefault(b, c))
  {
  }

  /** The base the link is built on: the referrer wins only when no path is
      given and the referrer is known; in every other case the site URL. */
  function BaseURL(referrerURL: string, siteURL: string, filepath: string): (base: string)
    ensures filepath == "" && referrerURL != "" ==> base == referrerURL
    ensures filepath != "" || referrerURL == "" ==> base == siteURL
  {
    if filepath == "" && referrerURL != "" then referrerURL else siteURL
  }

  /** Without a path the base is the referrer with the site URL as its default;
      with a path the referrer plays no part at all. */
  lemma BaseIsReferrerWithDefault(referrerURL: string, siteURL: string, filepath: string)
    ensures filepath == "" ==> BaseURL(referrerURL, siteURL, filepath) == WithDefault(referrerURL, siteURL)
    ensures filepath != "" ==> BaseURL(referrerURL, siteURL, filepath) == siteURL
  {
  }

  /** The URL before its fragment is set: the parsed base, or the parsed path
      resolved against it. A parse error, of the base first and then of the
      path, is returned as it is. */
  function Target(lib: UrlLibrary, referrerURL: string, siteURL: string, filepath: string): (r: Result<Url>)
    ensures var base := lib.parse(BaseURL(referrerURL, siteURL, filepath));
            && (base.Err? ==> r == base)
            && (base.Ok? && filepath != "" && lib.parse(filepath).Err? ==> r == Err(lib.parse(filepath).error))
            && (r.Ok? <==> base.Ok? && (filepath == "" || lib.parse(filepath).Ok?))
            && (filepath == "" ==> r == base)
    ensures filepath != "" && r.Ok? ==>
              r.value == lib.resolveReference(lib.parse(siteURL).value, lib.parse(filepath).value)
  {
    match lib.parse(BaseURL(referrerURL, siteURL, filepath))
    case Err(e) => Err(e)
    case Ok(site) =>
      if filepath == "" then Ok(site)
      else
        match lib.parse(filepath)
        case Err(e) => Err(e)
        case Ok(path) => Ok(lib.resolveReference(site, path))
  }

  /** The serialized URL with the fragment set to the payload, before the
      encoding mode is applied; errors pass through unchanged. */
  function Serialized(lib: UrlLibrary, referrerURL: string, siteURL: string, filepath: string, fragment: string): (r: Result<string>)
    ensures var t := Target(lib, referrerURL, siteURL, filepath);
            && (r.Ok? <==> t.Ok?)
            && (t.Err? ==> r == Err(t.error))
            && (t.Ok? ==> r.value == lib.serialize(t.value.(fragment := fragment)))
  {
    match Target(lib, referrerURL, siteURL, filepath)
    case Err(e) => Err(e)
    case Ok(site) => Ok(lib.serialize(site.(fragment := fragment)))
  }

  /** The marker rewrite of the encoding mode. With the mode off the text is
      kept; in query mode every `#` becomes `?`; in tagged mode every `#`
      becomes `uType` followed by `/?`. */
  function Encode(mode: EncodingMode, uType: string, out: string): (r: string)
    ensures !mode.withoutFragment ==> r == out
    ensures mode.withoutFragment && !mode.addURLType ==>
              && |r| == |out|
              && '#' !in r
              && forall i :: 0 <= i < |out| ==> r[i] == (if out[i] == '#' then '?' else out[i])
    ensures mode.withoutFragment && mode.addURLType ==>
              && ('#' !in out ==> r == out)
              && ('#' !in uType ==> '#' !in r)
              && |r| + Count(out, '#') == |out| + Count(out, '#') * (|uType| + 2)
              && r == Join(Split(out, '#'), uType + "/?")
  {
    if mode.withoutFragment then
      if !mode.addURLType then
        ReplaceAllPointwise(out, '#', '?');
        ReplaceAll(out, '#', "?")
      else
        ReplaceAllLength(out, '#', uType + "/?");
        ReplaceAllIsSplitJoin(out, '#', uType + "/?");
        ReplaceAll(out, '#', uType + "/?")
    else out
  }

  /** `getSiteURL`. Errors of the library come back unchanged and carry no
      partial link; a successful link is the serialized URL rewritten
      according to the encoding mode. */
  function GetSiteURL(lib: UrlLibrary, mode: EncodingMode, referrerURL: string, siteURL: string,
                      filepath: string, fragment: string, uType: string): (r: Result<string>)
    ensures var s := Serialized(lib, referrerURL, siteURL, filepath, fragment);
            && (r.Ok? <==> s.Ok?)
            && (r.Err? ==> r == s)
            && (r.Ok? && !mode.withoutFragment ==> r.value == s.value)
            && (r.Ok? && mode.withoutFragment && !mode.addURLType ==>
                  && |r.value| == |s.value|
                  && '#' !in r.value
                  && forall i :: 0 <= i < |s.value| ==> r.value[i] == (if s.value[i] == '#' then '?' else s.value[i]))
            && (r.Ok? && mode.withoutFragment && mode.addURLType ==>
                  && ('#' !in s.value ==> r.value == s.value)
                  && ('#' !in uType ==> '#' !in r.value)
                  && r.value == Join(Split(s.value, '#'), uType + "/?"))
  {
    match Serialized(lib, referrerURL, siteURL, filepath, fragment)
    case Err(e) => Err(e)
    case Ok(out) => Ok(Encode(mode, uType, out))
  }

  /** With no path the path is never parsed and nothing is resolved: two
      libraries that agree on parsing the base and on serializing give the same
      link, whatever they do elsewhere. */
  lemma EmptyPathNeverParsed(lib1: UrlLibrary, lib2: UrlLibrary, mode: EncodingMode, referrerURL: string,
                             siteURL: string, fragment: string, uType: string)
    requires lib1.parse(WithDefault(referrerURL, siteURL)) == lib2.parse(WithDefault(referrerURL, siteURL))
    requires forall u :: lib1.serialize(u) == lib2.serialize(u)
    ensures GetSiteURL(lib1, mode, referrerURL, siteURL, "", fragment, uType)
         == GetSiteURL(lib2, mode, referrerURL, siteURL, "", fragment, uType)
  {
    BaseIsReferrerWithDefault(referrerURL, siteURL, "");
  }

  /** With a path the referrer is never consulted. */
  lemma PathIgnoresReferrer(lib: UrlLibrary, mode: EncodingMode, referrer1: string, referrer2: string,
                            siteURL: string, filepath: string, fragment: string, uType: string)
    requires filepath != ""
    ensures GetSiteURL(lib, mode, referrer1, siteURL, filepath, fragment, uType)
         == GetSiteURL(lib, mode, referrer2, siteURL, filepath, fragment, uType)
  {
  }

  /** With the encoding mode off, parsing the link again yields exactly the
      fragment payload, for any library whose serialization keeps fragments. */
  lemma FragmentCarried(lib: UrlLibrary, mode: EncodingMode, referrerURL: string, siteURL: string,
                        filepath: string, fragment: string, uType: string)
    requires PreservesFragment(lib)
    requires !mode.withoutFragment
    requires GetSiteURL(lib, mode, referrerURL, siteURL, filepath, fragment, uType).Ok?
    ensures var link := GetSiteURL(lib, mode, referrerURL, siteURL, filepath, fragment, uType).value;
            lib.parse(link).Ok? && lib.parse(link).value.fragment == fragment
  {
    var t := Target(lib, referrerURL, siteURL, filepath).value.(fragment := fragment);
    assert lib.parse(lib.serialize(t)).Ok? && lib.parse(lib.serialize(t)).value.fragment == t.fragment;
  }

  /** When the serialized URL has one `#`, the one in front of the payload,
      each mode puts its marker exactly there and keeps the rest: `#` when
      off, `?` in query mode, `uType` then `/?` in tagged mode. */
  lemma SingleMarker(lib: UrlLibrary, mode: EncodingMode, referrerURL: string, siteURL: string,
                     filepath: string, fragment: string, uType: string, head: string, payload: string)
    requires '#' !in head && '#' !in payload
    requires Serialized(lib, referrerURL, siteURL, filepath, fragment) == Ok(head + "#" + payload)
    ensures !mode.withoutFragment ==>
              GetSiteURL(lib, mode, referrerURL, siteURL, filepath, fragment, uType) == Ok(head + "#" + payload)
    ensures mode.withoutFragment && !mode.addURLType ==>
              GetSiteURL(lib, mode, referrerURL, siteURL, filepath, fragment, uType) == Ok(head + "?" + payload)
    ensures mode.withoutFragment && mode.addURLType ==>
              GetSiteURL(lib, mode, referrerURL, siteURL, filepath, fragment, uType) == Ok(head + uType + "/?" + payload)
  {
    ReplaceAllOneMarker(head, payload, '#', "?");
    ReplaceAllOneMarker(head, payload, '#', uType + "/?");
    assert head + (uType + "/?") + payload == head + uType + "/?" + payload;
  }

  /** The invite link for a site URL with no referrer and no path, under the
      tagged mode: the tag lands verbatim where the `#` was, so the link reads
      "https://app.example.cominvite/?access_token=abc&type=invite". */
  lemma TaggedInviteExample(lib: UrlLibrary, siteURL: string, payload: string)
    requires siteURL == "https://app.example.com" && payload == "access_token=abc&type=invite"
    requires lib.parse(siteURL).Ok?
    requires lib.serialize(lib.parse(siteURL).value.(fragment := payload)) == siteURL + "#" + payload
    ensures GetSiteURL(lib, EncodingMode(true, true), "", siteURL, "", payload, "invite")
         == Ok(siteURL + "invite" + "/?" + payload)
  {
    SingleMarker(lib, EncodingMode(true, true), "", siteURL, "", payload, "invite", siteURL, payload);
  }
}
