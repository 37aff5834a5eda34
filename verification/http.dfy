/**
 * The request as the gateway sees it, and the verdicts it can render. Header emission,
 * templates and Sinatra's halt/pass mechanics are reduced to the `Verdict` value.
 */
module Http {
  import opened Wrappers

  /**
   * One request. `url` is the full URL with scheme (Rack's request.url), `fullpath` the
   * path with its query string; `authKey` is the `authkey` parameter; `forwardedFor` and
   * `realIp` are the X-Forwarded-For and X-Real-IP headers as the front-end proxy set them.
   */
  datatype Request = Request(
    host: string,
    scheme: string,
    url: string,
    fullpath: string,
    authKey: Option<string>,
    forwardedFor: Option<string>,
    realIp: Option<string>)

  /** The gateway's own login domain and the scheme used to reach it. */
  datatype Settings = Settings(authDomain: string, authDomainProto: string)

  /** An exception that escapes the route: IPAddr.new could not parse an address. */
  datatype Fault = MalformedClientIp | MalformedRange(key: string)

  /** The single outcome of a request. */
  datatype Verdict =
    | Secure                                                // X-Accel-Redirect: /secure, empty body
    | PassOn                                                // `pass`: the login, callback and logout routes answer
    | KeyRevoked                                            // 403: the key was seen over plain HTTP and deleted
    | NotFound                                              // 404: no mapping for the host
    | LoginRedirect(location: string)                       // redirect to the login page with the origin URL
    | Forbidden                                             // 403: logged in but not authorized
    | Allow(reproxyUrl: string, remoteUser: Option<string>)  // X-Reproxy-URL, X-Accel-Redirect: /reproxy
    | ServerError(fault: Fault)                             // unrescued exception

  predicate IsPlainHttp(req: Request) {
    req.scheme == "http"
  }

  /** The client address: X-Forwarded-For when that header is present (even empty), else X-Real-IP. */
  function ClientIp(req: Request): (ip: Option<string>)
    ensures req.forwardedFor.Some? ==> ip == req.forwardedFor
    ensures req.forwardedFor.None? ==> ip == req.realIp
  {
    if req.forwardedFor.Some? then req.forwardedFor else req.realIp
  }

  const HttpPrefix := "http://"
  const HttpsPrefix := "https://"

  /**
   * The canonical URL matched by the rules: the request URL with one leading "http://" or
   * "https://" removed and any other URL left as it is.
   */
  function StripScheme(url: string): (r: string)
    ensures r == url || HttpPrefix + r == url || HttpsPrefix + r == url
    ensures !(HttpPrefix <= url) && !(HttpsPrefix <= url) ==> r == url
  {
    if HttpPrefix <= url then url[|HttpPrefix|..]
    else if HttpsPrefix <= url then url[|HttpsPrefix|..]
    else url
  }

  /**
   * The same address reached over either scheme has one canonical URL, and only the first
   * scheme prefix is removed: "http://http://x" canonicalizes to "http://x".
   */
  lemma StripSchemeOfEitherScheme(rest: string)
    ensures StripScheme(HttpPrefix + rest) == rest
    ensures StripScheme(HttpsPrefix + rest) == rest
  {
    assert HttpPrefix <= HttpPrefix + rest;
    assert (HttpPrefix + rest)[|HttpPrefix|..] == rest;
    assert !(HttpPrefix <= HttpsPrefix + rest) by {
      assert (HttpsPrefix + rest)[4] == 's';
    }
    assert HttpsPrefix <= HttpsPrefix + rest;
    assert (HttpsPrefix + rest)[|HttpsPrefix|..] == rest;
  }
}
