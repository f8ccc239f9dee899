/**
 * The CORS origin setting computed at start-up by `getAllowedOrigins` in
 * backend/src/server.js.
 */
module Cors {
  /** `'*'` in development, a list of origins in production. */
  datatype Origins = AnyOrigin | OriginList(list: seq<string>)

  /** The production frontend, always allowed in production. */
  const FrontendDomain := "http://" + FrontendHost
  /** Its host name. */
  const FrontendHost := "support-bot-frontend-prod.s3-website.eu-west-2.amazonaws.com"

  /** `s.startsWith(prefix)`. */
  predicate StartsWith(s: string, prefix: string)
  {
    |prefix| <= |s| && s[..|prefix|] == prefix
  }

  /** A `FRONTEND_URL` kept as it is when it starts with `http`, otherwise prefixed with `http://`. */
  function WithScheme(url: string): (r: string)
    ensures StartsWith(r, "http")
    ensures StartsWith(url, "http") ==> r == url
    ensures !StartsWith(url, "http") ==> r == "http://" + url
  {
    if StartsWith(url, "http") then url
    else
      var r := "http://" + url;
      assert r[..4] == "http";
      r
  }

  /** Adding the scheme twice adds it once. */
  lemma WithSchemeIdempotent(url: string)
    ensures WithScheme(WithScheme(url)) == WithScheme(url)
  {
  }

  /** The frontend domain already carries its scheme. */
  lemma DomainHasScheme()
    ensures WithScheme(FrontendDomain) == FrontendDomain
  {
    assert ("http://" + FrontendHost)[..4] == "http";
  }

  /**
   * `getAllowedOrigins()`, with `NODE_ENV` and `FRONTEND_URL` passed in (an
   * unset variable is the empty string; both are falsy alike). In production
   * the list starts with the frontend domain and gets the configured URL
   * appended unless it is already there.
   */
  method GetAllowedOrigins(nodeEnv: string, frontendUrl: string) returns (r: Origins)
    ensures nodeEnv != "production" <==> r == AnyOrigin
    ensures r.OriginList? ==> 1 <= |r.list| <= 2 && r.list[0] == FrontendDomain
    ensures r.OriginList? ==> forall i, j :: 0 <= i < j < |r.list| ==> r.list[i] != r.list[j]
    ensures r.OriginList? ==> forall o :: o in r.list <==> o == FrontendDomain || (frontendUrl != "" && o == WithScheme(frontendUrl))
    ensures r.OriginList? && frontendUrl == "" ==> r.list == [FrontendDomain]
    ensures r.OriginList? && frontendUrl == FrontendDomain ==> r.list == [FrontendDomain]
  {
    if nodeEnv != "production" {
      return AnyOrigin;
    }
    var origins := [FrontendDomain];
    if frontendUrl != "" {
      var url := WithScheme(frontendUrl);
      if url !in origins {
        origins := origins + [url];
      }
    }
    DomainHasScheme();
    r := OriginList(origins);
  }
}
