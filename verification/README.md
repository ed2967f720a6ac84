# Mailer link building, modelled in Dafny

This project models the decision logic of gotrue's `mailer` package
(`mailer/mailer.go`). That package builds the action links sent in invite,
confirmation, recovery and email-change mails. It also chooses which mailer
the service runs with. The model covers these parts:

- **Environment switches.** `getEnvBool` turns an environment value into a
  boolean. The package variables `withoutFragment` and `addURLType` are read
  with it. Module `Env`.
- **Mailer factory.** `NewMailer` picks the no-op mailer when no SMTP host is
  configured. Otherwise it builds the template mailer and its SMTP transport.
  Module `Factory`.
- **Link builder.** Module `Links` covers `getSiteURL` and `withDefault`.
  `getSiteURL` first picks a base URL: the referrer, or the site URL. It parses
  the base and, when a path is given, resolves the path against it. Then it
  sets the fragment to the token payload and serializes the URL. Last, it
  rewrites every `#` according to the encoding mode:
  - mode off: the text is kept;
  - query mode: every `#` becomes `?`;
  - tagged mode: every `#` becomes `<uType>/?`.
- **Origin stripping.** `enforceRelativeURL` removes a leading origin matched
  by `^https?://[^/]+`. Module `Origin`.

Supporting modules:

- `Text` holds ASCII lower-casing and the global one-character replacement.
  It also holds `Split`/`Join`, an independent reference definition of that
  replacement.
- `NetUrl` stands for Go's `net/url`. A `UrlLibrary` value carries `Parse`,
  `ResolveReference` and `String` as functions. Every property of the link
  builder holds for any such library. Parse errors use a
  `Result<T> = Ok(value) | Err(error)` type. Go's `("", err)` becomes `Err(err)`,
  so no partial link can be returned.

The environment is passed in as a `map<string, string>`. A missing key reads
as `""`, which is what `os.Getenv` returns.

The code replaces every `#` in the serialized URL, not just the marker in
front of the payload. The model follows the code. The contracts of
`Links.Encode` and `Links.GetSiteURL` state the replacement for every position.
So a `#` elsewhere in the URL is rewritten as well.

## Model

| member | source | states |
|---|---|---|
| `Env.EnvBool` | mailer/mailer.go:14-25 | true exactly for the four-character values spelling "true" in any mix of upper and lower case; false for the empty value and everything else |
| `Env.EnvBoolIsLowerEquality` | mailer/mailer.go:16-22 | the length test is redundant: the decision is exactly "lower-cased value equals `true`" |
| `Env.ModeFromEnv` | mailer/mailer.go:27-28 | each switch is on exactly when its variable is present and lower-cases to "true"; the two variables are read independently |
| `Text.Lower` | mailer/mailer.go:20 | lower-casing keeps the length and maps each character on its own |
| `Text.LowerCharInverse` | mailer/mailer.go:20 | a lower-case letter comes from exactly itself and its upper-case partner |
| `Text.CountZero` | mailer/mailer.go:89-91 | a character occurs zero times exactly when it is absent |
| `Text.ReplaceAll` | mailer/mailer.go:89-91 | no `#` in the input leaves it unchanged; a replacement without `#` leaves no `#` in the output |
| `Text.ReplaceAllLength` | mailer/mailer.go:91 | each occurrence trades one character for the whole replacement, so the output length is input length plus occurrences times (replacement length minus one) |
| `Text.ReplaceAllPointwise` | mailer/mailer.go:89 | a one-character replacement keeps the length and changes exactly the matching positions; the replacement is global |
| `Text.ReplaceAllConcat` | mailer/mailer.go:89-91 | replacement distributes over concatenation |
| `Text.ReplaceAllOneMarker` | mailer/mailer.go:89-91 | a single occurrence between two marker-free parts is replaced in place and nothing else changes |
| `Text.ReplaceAllIdentity` | mailer/mailer.go:89-91 | replacing a character by itself is the identity |
| `Text.Split` | mailer/mailer.go:89-91 | splitting gives one more piece than there are separators, and no piece holds a separator |
| `Text.ReplaceAllIsSplitJoin` | mailer/mailer.go:89-91 | replacing every occurrence equals splitting at it and joining with the replacement |
| `Text.SplitJoinRoundTrip` | mailer/mailer.go:89-91 | joining the pieces with the separator gives back the original text |
| `Factory.NewMailer` | mailer/mailer.go:41-57 | the no-op mailer exactly when the SMTP host is empty; otherwise the site URL and transport base URL are the configured site URL, and host, port, user, password and sender are copied from the SMTP configuration |
| `Factory.Transport` | mailer/mailer.go:46-56 | a mailer has transport settings exactly when it is the live variant |
| `Factory.NewMailerTransportRoundTrip` | mailer/mailer.go:41-57 | the transport settings read back from a new mailer are exactly the SMTP configuration; the live mailer never has an empty host |
| `Links.WithDefault` | mailer/mailer.go:60-65 | the result is the value or the default, is the value when that is non-empty, and is empty only when both are |
| `Links.WithDefaultChain` | mailer/mailer.go:60-65 | chained defaults fall back to the first non-empty value |
| `Links.BaseURL` | mailer/mailer.go:68-71 | the referrer is the base exactly when there is no path and the referrer is non-empty; in every other case the site URL |
| `Links.BaseIsReferrerWithDefault` | mailer/mailer.go:68-71 | without a path the base is the referrer defaulting to the site URL; with a path it is the site URL |
| `Links.Target` | mailer/mailer.go:73-83 | a base parse error is returned as is; with a path, a path parse error is returned as is; success exactly when the needed parses succeed; with a path the result is the path resolved against the parsed site URL |
| `Links.Serialized` | mailer/mailer.go:85-86 | succeeds exactly when the target does, passes its error through, and otherwise serializes the target with the fragment set to the payload |
| `Links.Encode` | mailer/mailer.go:87-93 | mode off keeps the text; query mode keeps the length, leaves no `#` and changes exactly the `#` positions to `?`; tagged mode keeps a `#`-free text, leaves no `#` when the tag has none, grows by the tag plus one per marker, and equals splitting at `#` and joining with `<uType>/?` |
| `Links.GetSiteURL` | mailer/mailer.go:67-96 | errors come back unchanged and carry no link; the returned link is the serialized URL rewritten as `Encode` states, for every mode |
| `Links.EmptyPathNeverParsed` | mailer/mailer.go:77-83 | with no path the result depends only on parsing the base and on serializing, so the path is never parsed and nothing is resolved |
| `Links.PathIgnoresReferrer` | mailer/mailer.go:68-71 | with a path the referrer never affects the result |
| `Links.FragmentCarried` | mailer/mailer.go:85-87 | with the mode off, parsing the link again yields exactly the payload as fragment, for any library whose serialization keeps fragments |
| `Links.SingleMarker` | mailer/mailer.go:85-93 | when the serialized URL's only `#` sits before the payload, the link has `#`, `?` or `<uType>/?` exactly there and is otherwise unchanged |
| `Links.TaggedInviteExample` | mailer/mailer.go:90-91 | the site URL `https://app.example.com` with payload `access_token=abc&type=invite` becomes `https://app.example.cominvite/?access_token=abc&type=invite` in tagged mode |
| `Origin.HostLength` | mailer/mailer.go:98 | the run of `[^/]+` is the maximal `/`-free prefix |
| `Origin.SchemeLength` | mailer/mailer.go:98 | `https?://` matches `https://` or `http://`, never both |
| `Origin.OriginLength` | mailer/mailer.go:98-102 | a match is an origin followed by the end of the text or by `/`; no match exactly when no prefix is an origin |
| `Origin.EnforceRelativeURL` | mailer/mailer.go:98-102 | the result is a suffix of the input; the input comes back unchanged exactly when it does not start with an origin; otherwise an origin was removed and what is left is empty or starts with `/` |
| `Origin.EnforceRelativeURLIdempotent` | mailer/mailer.go:100-102 | stripping twice equals stripping once |
| `Origin.StripsOrigin` | mailer/mailer.go:98-102 | an origin followed by nothing or by a path starting with `/` leaves exactly that path |
| `Origin.StripExample` | mailer/mailer.go:98-102 | `https://example.com/a/b` becomes `/a/b` |
| `Origin.KeepExamples` | mailer/mailer.go:98-102 | `/a/b`, `HTTP://example.com/a` and `http:///a` come back unchanged |

## Left out

- The `Mailer` interface methods are not modelled. These are `Send`, `InviteMail`, `ConfirmationMail`, `RecoveryMail`, `EmailChangeMail` and `ValidateEmail`, with the bodies of `TemplateMailer`, `MailmeMailer` and `noopMailer`. Their code (SMTP transport, template rendering, address validation) is not part of this model.
- `os.Getenv` and the package-level initialisation are process I/O. The environment is a map parameter, and the encoding mode is an explicit argument.
- The internals of `url.Parse`, `ResolveReference` and `String` are not modelled. This includes the merge rules of section 5.2 of RFC 3986 and fragment percent-escaping. They are fields of `NetUrl.UrlLibrary`, and the properties hold for any library.
- Links.FragmentCarried: assumes the library's serialization keeps fragments. `net/url` is not modelled, so this is not proved of it.
- Go's `regexp` engine is replaced by a direct model of the one pattern `^https?://[^/]+`. Characters are Unicode scalar values, so invalid UTF-8 input is not modelled.
- Text.Lower: lower-cases ASCII only, while `strings.ToLower` folds all of Unicode. No non-ASCII character lower-cases to `t`, `r`, `u` or `e`, so the decision of `Env.EnvBool` is unaffected.
- Text.ReplaceAll: takes a one-character pattern, because `getSiteURL` only ever calls `strings.ReplaceAll` with `"#"`.
- Factory.NewMailer: its `Configuration` keeps only the fields `NewMailer` reads. The template mailer's `Config` is this reduced record.
