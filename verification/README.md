# nginx_auth_backend: the authorization decision, in Dafny

The system is a forward-authentication gateway placed behind nginx. For every request
nginx forwards, its catch-all route decides one outcome: ask nginx to retry over HTTPS
(`X-Accel-Redirect: /secure`), revoke an access key seen over plain HTTP (403), answer 404
for an unmapped host, send the browser to the login domain, refuse (403), or let nginx
relay the request to the host's backend (`X-Reproxy-URL` plus `X-Accel-Redirect: /reproxy`,
and `X-Remote-User` when the grant came from the logged-in user's e-mail rules). Two more
outcomes end the route without a verdict of its own: a request to the login domain over
HTTPS is passed on to the login, callback and logout routes (`pass`), and an address that
`IPAddr.new` cannot parse raises an exception nothing rescues (a server error).

The checks consult a Redis keyspace: per-host hashes (`url`, `ssl`, `public`) and sets of
regular expressions keyed by subject (`email:<address>`, `authkey:<token>`, `ip:<cidr>`),
and the signed-cookie session written by the OpenID login callback.

Modules:

- `Wrappers` (wrappers.dfy): `Option` for Ruby's `nil`, `Result` for an exception that escapes.
- `Net` (net.dfy): IP addresses as IPAddr keeps them (family, number, prefix) and
  `include?` as masking arithmetic, with its meaning as an address range proved.
- `Store` (store.dfy): the keyspace as a value `Db` (hashes, sets, and the order in which
  KEYS enumerates the set keys) with HGET, SMEMBERS, KEYS and DEL; class `Redis` holds it
  and is the only state the route changes.
- `Http` (http.dfy): the request, the client address rule (X-Forwarded-For before
  X-Real-IP), scheme stripping and the `Verdict` datatype.
- `Session` (session.dfy): the session keys as a value and as the mutable `Session` object,
  and `authenticated?`.
- `Policy` (policy.dfy): the decision as a pure function `Decide` with the helpers it uses
  (`map`, `ssl?`, `public?`, `authorized?`, `key_access?`, `ip_access?`), and the lemmas
  about them.
- `App` (app.dfy): class `Auth`, the application object: the route handler written step by
  step with early returns and the one deletion, the loops of `authorized?` and
  `ip_access?`, the login callback and logout. The route and the loops are proved to
  compute what `Policy` specifies; the login callback and logout are specified by the new
  session state they leave and by what `Session.Authenticated` then answers.

Regular-expression compilation and matching, address parsing and URL escaping are not
modelled; they are the fields of `Policy.Env` (`matches`, `parseAddr`, `escape`), supplied
by the caller. `matches(rule, text)` is `None` when the rule does not compile.

Behaviour of the code that the model keeps:

- A key sent over plain HTTP to the login domain itself is not revoked: the login-domain
  check runs first and answers with the HTTPS upgrade.
- A client address that is absent or does not parse, and a stored `ip:` range that does
  not parse, make `IPAddr.new` raise. Nothing rescues it, so the request ends in a server
  error (`ServerError`). This happens for every non-public host whose key check failed,
  before the session is looked at. Because of it, the KEYS enumeration order matters: a
  malformed range listed before a granting range raises, and one listed after it does not.
- A session whose bound address is absent matches a request with no address headers
  (`nil == nil`). The route never reaches that comparison with an absent address, because
  the address check raises first.
- Store failures are not handled by the code; nothing in the model stands for them.

## Model

| member | source | states |
|---|---|---|
| `App.Auth.Route` | app.rb:44-108 | The verdict is `Decide` of the store before the request, the session and the request. The store changes only when a key is revoked, and then only by deleting `authkey:<key>`. |
| `Policy.Decide` | app.rb:44-108 | On the login domain: plain HTTP gets `/secure`, HTTPS is passed on. `KeyRevoked` exactly when a key arrives over plain HTTP for another host, mapped or not. `NotFound` exactly when the host has no `url`. A TLS-required host over plain HTTP, with no key in the request, gets `/secure` whatever the session or address. Public, key and address grants relay anonymously. Past them, an unauthenticated session gets the login redirect; an authenticated one is relayed with `X-Remote-User` set to its e-mail when the `email:` rules match, and is refused otherwise. Every relay goes to `url + fullpath` over an acceptable transport, with a grant behind it. `X-Remote-User` is set only on the e-mail path, to the session's address. A login redirect means not authenticated; Forbidden means authenticated but no e-mail rule matches; a server error means the address check raised. |
| `Policy.RevocationIsFinal` | app.rb:55-61 | After the key's set is deleted: the same request is revoked again, a second delete leaves the store unchanged, and no request with that key gets key access. |
| `Policy.HostFlagDefaults` | app.rb:143-156 | TLS is not required only when the host's `ssl` field is exactly `"false"` (an absent field requires it). A host is public only when its `public` field is exactly `"true"`. |
| `App.Auth.Authorized` | app.rb:207-219 | Scans the entry's rules in order and returns true iff some rule compiles and matches the URL with its scheme stripped. Malformed rules are skipped without stopping the scan. |
| `Policy.MalformedRulesIgnored` | app.rb:210-217 | Rules that do not compile, inserted anywhere in a rule set, never change whether the set authorizes a URL. |
| `Policy.NoRulesNoAccess` | app.rb:210-218 | A missing or empty rule set authorizes nothing. |
| `Http.StripScheme` | app.rb:208 | The canonical URL is the URL itself or the URL with one leading `http://` or `https://` removed. A URL with neither prefix is unchanged. |
| `Http.StripSchemeOfEitherScheme` | app.rb:208 | `http://x` and `https://x` both canonicalize to `x`, so one rule set covers both schemes. Only the first prefix is removed. |
| `Http.ClientIp` | app.rb:169-173 | The client address is X-Forwarded-For when that header is present, and X-Real-IP otherwise. |
| `App.Auth.KeyAccess` | app.rb:158-164 | True iff an `authkey` parameter is present (the empty string counts) and the `authkey:<key>` rule set authorizes the URL. |
| `App.Auth.IpAccess` | app.rb:166-189 | Equals `Policy.IpAccess`. An absent or unparsable client address raises. Otherwise the `ip:` keys are scanned in KEYS order: an unparsable range raises, and the first range that includes the client and whose rule set authorizes the URL grants. |
| `Policy.IpScanSound` | app.rb:177-186 | A successful scan has an `ip:` key behind it whose range parses, includes the client, and whose rules authorize the URL; every key listed before it parses and does not grant. |
| `Policy.IpScanGrantsAt` | app.rb:177-186 | Conversely, a granting key preceded only by keys that parse and do not grant makes the scan succeed. |
| `Policy.IpScanComplete` | app.rb:177-188 | When every range parses, the scan does not raise and succeeds iff some key grants the request. |
| `Policy.IpScanFault` | app.rb:177-178 | The scan raises only on a listed `ip:` key whose range does not parse, and every key listed before it parses and does not grant. |
| `Policy.IpScanFaultAt` | app.rb:177-186 | Conversely, a malformed range preceded only by keys that parse and do not grant makes the scan raise on that key; so KEYS order decides whether a malformed range or a granting range is met first. |
| `Policy.IpAllowListGrants` | app.rb:166-189 | With ranges 10.0.0.0/24 (rule `.*`) and 10.0.1.0/24 (rule `^$`, matching only the empty URL) registered, a client at 10.0.0.5 is granted by address. |
| `Policy.IpAllowListRefuses` | app.rb:166-189 | With the same two ranges, a client at 10.0.2.5 is not granted and the scan does not raise. |
| `Policy.RangeText` | app.rb:178 | An `ip:` key is `"ip:"` followed by the address text that is parsed. |
| `Net.IncludesIsRange` | app.rb:179 | `include?` holds iff the families agree and the other address, masked to its own prefix, lies in the block of `2^(width - prefix)` addresses that starts at the range's network address. |
| `Net.BlockExample` | app.rb:179 | 10.0.0.0/24 includes 10.0.0.5 and does not include 10.0.2.5. 10.0.1.0/24 does not include 10.0.2.5. |
| `Store.Db.Delete` | app.rb:58 | After DEL the key reads as an empty set and has no hash fields. Every other key reads as before. The KEYS enumeration no longer lists the key and still lists every set key once. |
| `Store.DeleteIdempotent` | app.rb:58 | Deleting the same key twice leaves the store as deleting it once. |
| `Store.Db.Keys` | app.rb:177 | KEYS `ip:*` lists exactly the enumerated set keys that start with `ip:`; in a consistent keyspace these are exactly the stored sets with that prefix, each listed once. |
| `Store.Redis.Del` | app.rb:58 | The Redis object's keyspace becomes the old keyspace with the key deleted, and its KEYS enumeration stays consistent. |
| `Store.Db.HGet` | app.rb:144 | HGET answers a host record's field, absent when the host or the field is missing. |
| `Store.Db.Members` | app.rb:210 | SMEMBERS answers a rule set, read as empty when the key is missing. |
| `Policy.HostUrl` | app.rb:143-146 | `map`: the host's backend URL is its `url` field; an absent field means the host is unmapped (an empty string is still a mapping). |
| `Policy.RequiresTls` | app.rb:148-151 | `ssl?`: true unless the `ssl` field is exactly `"false"`. |
| `Policy.IsPublic` | app.rb:153-156 | `public?`: true only when the `public` field is exactly `"true"`. |
| `Policy.IpScan` | app.rb:177-188 | The loop over the `ip:` keys in KEYS order: an unparsable range raises, the first key whose range includes the client and whose rules authorize the URL grants, and running out of keys refuses. |
| `Policy.IpAccess` | app.rb:166-188 | `ip_access?`: an absent or unparsable client address raises; otherwise `IpScan` over KEYS `ip:*`. |
| `Policy.LoginLocation` | app.rb:89 | The login redirect goes to `<auth_domain_proto>://<auth_domain>/?origin=` followed by the escaped request URL. |
| `Net.Includes` | app.rb:179 | `include?`: same family, and the other address masked with the range's mask equals the range's network address. |
| `Session.Authenticated` | app.rb:192-204 | `authenticated?`: the session is logged in and its bound address equals the client address (X-Forwarded-For preferred over X-Real-IP). |
| `App.Auth.Callback` | app.rb:111-127 | The login callback marks the session logged in and records the provider, uid, name and e-mail. It binds the session to the client address taken from the same headers as every later request: afterwards a request is authenticated iff it comes from that address. It redirects to the origin, or to `/` when there is none. |
| `App.Auth.Logout` | app.rb:132-135 | `/logout` clears every session key, after which no request is authenticated. It redirects to `/`. |
| `Session.EmptySessionUnauthenticated` | app.rb:192-204 | A cleared session authenticates no request. |
| `Session.BindingRejectsOtherAddress` | app.rb:192-204 | A session bound to one address is not authenticated for a request from a different address. |

## Left out

- Sinatra routing, `pass`, `halt`/`redirect` and header emission: only the resulting `Verdict` is modelled. The `Content-Type` header, the ERB bodies (`:forbidden`, `:nothing`) and the 403 explanation text are not.
- The cookie session encoding and the OpenID provider flow (app.rb:34-41, 112): `Callback` takes the validated identity and the `omniauth.origin` value as inputs.
- The connection pool, EventMachine fibers and configuration loading (app.rb:1-31): they become the `Redis` object and the `Settings` value.
- Ruby `Regexp` compilation and matching: the `Env.matches` input. `Env.parseAddr` stands for `IPAddr.new` string parsing. `Env.escape` stands for `CGI.escape`.
- `Net.Includes`: IPAddr's special treatment of IPv4-mapped IPv6 addresses in `include?` is not modelled. Such an address is compared as an IPv6 address.
- Redis type errors: a hash key named `ip:...` would be listed by KEYS and make SMEMBERS raise. The model's KEYS enumerates set keys only, and a host record is never read as a set.
- Store timeouts and connection errors: the code does not handle them.
- `Http.StripScheme`: Ruby's `^` also matches after a line break inside the string. Only the leading occurrence is modelled, because a request URL carries no raw line break.
- The `/` login page (app.rb:137-141) and all logging.
