/** `enforceRelativeURL`: the origin matched by the pattern `^https?://[^/]+`
    is cut from the front of a URL, turning an absolute link into a
    host-relative one. The pattern is anchored, so it matches at most once,
    and `[^/]+` is greedy, so it takes the whole run of characters up to the
    first `/` after the scheme (a newline included, as in Go's regular
    expressions). The scheme is matched case-sensitively.
 */
module Origin {

  const HttpScheme := "http://"
  const HttpsScheme := "https://"

  /** A text the pattern matches in full: a lower-case `http://` or `https://`
      followed by at least one character and no `/`. */
  predicate IsOrigin(p: string)
  {
    || (HttpScheme <= p && |p| > |HttpScheme| && '/' !in p[|HttpScheme|..])
    || (HttpsScheme <= p && |p| > |HttpsScheme| && '/' !in p[|HttpsScheme|..])
  }

  /** Whether the pattern matches at the start of `u`. */
  predicate StartsWithOrigin(u: string)
  {
    exists k :: 0 < k <= |u| && IsOrigin(u[..k])
  }

  /** Every origin begins with `h`. */
  lemma OriginStartsWithH(p: string)
    ensures IsOrigin(p) ==> p != [] && p[0] == 'h'
  {
    if HttpScheme <= p {
      assert p[0] == HttpScheme[0];
    } else if HttpsScheme <= p {
      assert p[0] == HttpsScheme[0];
    }
  }

  /** A scheme that starts a prefix of `u` starts `u`. */
  lemma SchemeOfPrefix(scheme: string, u: string, j: nat)
    requires j <= |u|
    ensures scheme <= u[..j] ==> scheme <= u
  {
  }

  /** Length of the longest prefix of `s` free of `/`. */
  function HostLength(s: string): (n: nat)
    ensures n <= |s|
    ensures forall i :: 0 <= i < n ==> s[i] != '/'
    ensures n < |s| ==> s[n] == '/'
  {
    if s == [] || s[0] == '/' then 0 else 1 + HostLength(s[1..])
  }

  /** Length of the scheme the pattern can start with, 0 if none. The two
      schemes differ at their fifth character, so at most one applies. */
  function SchemeLength(u: string): (n: nat)
    ensures n == |HttpsScheme| <==> HttpsScheme <= u
    ensures n == |HttpScheme| <==> HttpScheme <= u
    ensures n == 0 <==> !(HttpScheme <= u) && !(HttpsScheme <= u)
  {
    if HttpsScheme <= u then
      assert u[4] == 's';
      |HttpsScheme|
    else if HttpScheme <= u then |HttpScheme|
    else 0
  }

  /** When the scheme is followed directly by `/` or by nothing, no prefix of
      `u` is an origin. */
  lemma NoOriginWithoutHost(u: string, j: nat)
    requires SchemeLength(u) > 0 && HostLength(u[SchemeLength(u)..]) == 0
    requires 0 < j <= |u|
    ensures !IsOrigin(u[..j])
  {
    var k := SchemeLength(u);
    SchemeOfPrefix(HttpScheme, u, j);
    SchemeOfPrefix(HttpsScheme, u, j);
    if j > k {
      assert u[k] == '/';
      assert u[..j][k..][0] == '/';
    }
  }

  /** Length of the match at the start of `u`, 0 when there is none. A match
      is an origin and is maximal: it ends the text or is followed by `/`. */
  function OriginLength(u: string): (n: nat)
    ensures n <= |u|
    ensures n > 0 ==> IsOrigin(u[..n]) && (n == |u| || u[n] == '/')
    ensures n == 0 <==> !StartsWithOrigin(u)
  {
    var k := SchemeLength(u);
    if k == 0 then
      assert !StartsWithOrigin(u) by {
        forall j | 0 < j <= |u| ensures !IsOrigin(u[..j]) {
          SchemeOfPrefix(HttpScheme, u, j);
          SchemeOfPrefix(HttpsScheme, u, j);
        }
      }
      0
    else
      var h := HostLength(u[k..]);
      if h == 0 then
        assert !StartsWithOrigin(u) by {
          forall j | 0 < j <= |u| ensures !IsOrigin(u[..j]) {
            NoOriginWithoutHost(u, j);
          }
        }
        0
      else
        assert u[..k + h][..k] == u[..k];
        assert u[..k + h][k..] == u[k..][..h];
        assert IsOrigin(u[..k + h]);
        k + h
  }

  /** `enforceRelativeURL`. */
  function EnforceRelativeURL(u: string): (r: string)
    ensures |r| <= |u| && r == u[|u| - |r|..]
    ensures r == u <==> !StartsWithOrigin(u)
    ensures r != u ==> IsOrigin(u[..|u| - |r|]) && (r == [] || r[0] == '/')
  {
    u[OriginLength(u)..]
  }

  /** Stripping twice strips nothing more: what is left is empty or starts with
      `/`, and no origin starts that way. */
  lemma EnforceRelativeURLIdempotent(u: string)
    ensures EnforceRelativeURL(EnforceRelativeURL(u)) == EnforceRelativeURL(u)
  {
    var r := EnforceRelativeURL(u);
    if r != u {
      assert !StartsWithOrigin(r) by {
        forall j | 0 < j <= |r| ensures !IsOrigin(r[..j]) {
          OriginStartsWithH(r[..j]);
          assert r[..j][0] == r[0] == '/';
        }
      }
    }
  }

  /** The maximal `/`-free prefix of a host followed by nothing or by `/` is
      the host. */
  lemma {:induction false} HostLengthOfHost(host: string, rest: string)
    requires '/' !in host
    requires rest == [] || rest[0] == '/'
    ensures HostLength(host + rest) == |host|
  {
    if host != [] {
      assert (host + rest)[1..] == host[1..] + rest;
      HostLengthOfHost(host[1..], rest);
    }
  }

  /** An origin followed by nothing or by a `/`: exactly the tail is kept. */
  lemma StripsOrigin(origin: string, rest: string)
    requires IsOrigin(origin)
    requires rest == [] || rest[0] == '/'
    ensures EnforceRelativeURL(origin + rest) == rest
  {
    var u := origin + rest;
    var k := if HttpScheme <= origin then |HttpScheme| else |HttpsScheme|;
    assert u[..|origin|] == origin;
    SchemeOfPrefix(HttpScheme, u, |origin|);
    SchemeOfPrefix(HttpsScheme, u, |origin|);
    assert SchemeLength(u) == k;
    assert u[k..] == origin[k..] + rest;
    HostLengthOfHost(origin[k..], rest);
    assert OriginLength(u) == |origin|;
  }

  /** An absolute https link loses its origin and keeps its path. */
  lemma StripExample(a: string, b: string)
    requires a == "https://example.com/a/b" && b == "/a/b"
    ensures EnforceRelativeURL(a) == b
  {
    var origin := "https://example.com";
    assert IsOrigin(origin) by {
      assert origin[|HttpsScheme|..] == "example.com";
    }
    assert a == origin + b;
    StripsOrigin(origin, b);
  }

  /** A path, an upper-case scheme and a scheme followed straight by `/` are
      all kept as they are. */
  lemma KeepExamples(b: string, c: string, d: string)
    requires b == "/a/b" && c == "HTTP://example.com/a" && d == "http:///a"
    ensures EnforceRelativeURL(b) == b
    ensures EnforceRelativeURL(c) == c
    ensures EnforceRelativeURL(d) == d
  {
    assert OriginLength(b) == 0 by {
      assert b[0] == '/' && SchemeLength(b) == 0;
    }
    assert OriginLength(c) == 0 by {
      assert c[0] == 'H' && SchemeLength(c) == 0;
    }
    assert OriginLength(d) == 0 by {
      assert SchemeLength(d) == |HttpScheme| && d[|HttpScheme|] == '/';
      assert HostLength(d[|HttpScheme|..]) == 0;
    }
  }
}
