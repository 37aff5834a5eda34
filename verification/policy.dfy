/**
 * The authorization decision as a function of the store, the session and the request:
 * the specification that the route handler in App is proved to follow.
 */
module Policy {
  import opened Wrappers
  import opened Net
  import opened Store
  import opened Http
  import opened Session

  /**
   * What the model takes from outside: `matches(rule, text)` compiles `rule` as a regular
   * expression and matches it against `text` (None: the rule does not compile);
   * `parseAddr` is IPAddr.new (None: it raises); `escape` is CGI.escape.
   */
  datatype Env = Env(
    matches: (string, string) -> Option<bool>,
    parseAddr: string -> Option<IpAddr>,
    escape: string -> string)

  // ---- Host records: map, ssl?, public?

  /** The backend URL of the host, absent when the host has no "url" field. */
  function HostUrl(db: Db, host: string): (r: Option<string>)
    ensures r.Some? <==> host in db.hashes && "url" in db.hashes[host]
  {
    db.HGet(host, "url")
  }

  /** TLS is required unless the "ssl" field is exactly "false"; an absent field requires it. */
  predicate RequiresTls(db: Db, host: string) {
    db.HGet(host, "ssl") != Some("false")
  }

  /** A host is public only if its "public" field is exactly "true". */
  predicate IsPublic(db: Db, host: string) {
    db.HGet(host, "public") == Some("true")
  }

  lemma HostFlagDefaults(db: Db, host: string)
    ensures db.HGet(host, "ssl").None? ==> RequiresTls(db, host)
    ensures !RequiresTls(db, host) <==> host in db.hashes && "ssl" in db.hashes[host] && db.hashes[host]["ssl"] == "false"
    ensures IsPublic(db, host) <==> host in db.hashes && "public" in db.hashes[host] && db.hashes[host]["public"] == "true"
  {
  }

  // ---- Subject keys

  function AuthKeyEntry(key: string): string {
    "authkey:" + key
  }

  /** "email:#{session[:email]}": an absent address interpolates as the empty string. */
  function EmailEntry(email: Option<string>): string {
    "email:" + email.GetOr("")
  }

  const IpKeyPrefix := "ip:"

  /** The address text of an "ip:" key: the key with its leading "ip:" removed. */
  function RangeText(key: string): (r: string)
    ensures IpKeyPrefix <= key ==> IpKeyPrefix + r == key
  {
    if IpKeyPrefix <= key then key[|IpKeyPrefix|..] else key
  }

  // ---- Subject authorization: authorized?

  /** Some rule compiles and matches the text; a rule that does not compile never matches. */
  predicate Authorizes(env: Env, rules: seq<string>, text: string) {
    exists i :: 0 <= i < |rules| && env.matches(rules[i], text) == Some(true)
  }

  /** authorized?(request, entry): a rule of the entry's set matches the request URL without its scheme. */
  predicate Authorized(env: Env, db: Db, req: Request, entry: string) {
    Authorizes(env, db.Members(entry), StripScheme(req.url))
  }

  /** Rules that do not compile can be added anywhere in a rule set without changing the answer. */
  lemma {:induction false} MalformedRulesIgnored(env: Env, before: seq<string>, bad: seq<string>, after: seq<string>, text: string)
    requires forall j :: 0 <= j < |bad| ==> env.matches(bad[j], text).None?
    ensures Authorizes(env, before + bad + after, text) <==> Authorizes(env, before + after, text)
  {
    var all, kept := before + bad + after, before + after;
    if Authorizes(env, all, text) {
      var i :| 0 <= i < |all| && env.matches(all[i], text) == Some(true);
      assert forall j :: |before| <= j < |before| + |bad| ==> all[j] == bad[j - |before|];
      if i < |before| {
        assert kept[i] == all[i];
      } else {
        assert kept[i - |bad|] == all[i];
      }
    }
    if Authorizes(env, kept, text) {
      var i :| 0 <= i < |kept| && env.matches(kept[i], text) == Some(true);
      if i < |before| {
        assert all[i] == kept[i];
      } else {
        assert all[i + |bad|] == kept[i];
      }
    }
  }

  /** A missing or empty rule set authorizes nothing. */
  lemma NoRulesNoAccess(env: Env, db: Db, req: Request, entry: string)
    requires entry !in db.sets || db.sets[entry] == []
    ensures !Authorized(env, db, req, entry)
  {
  }

  // ---- Access by key: key_access?

  /** key_access?: an `authkey` parameter is present and its "authkey:" set authorizes the URL. */
  predicate KeyAccess(env: Env, db: Db, req: Request) {
    req.authKey.Some? && Authorized(env, db, req, AuthKeyEntry(req.authKey.value))
  }

  // ---- Access by address: ip_access?

  /** An "ip:" key grants the request: its range parses, includes the client and its rule set authorizes the URL. */
  predicate RangeGrants(env: Env, db: Db, req: Request, client: IpAddr, key: string) {
    match env.parseAddr(RangeText(key))
    case None => false
    case Some(net) => Includes(net, client) && Authorized(env, db, req, key)
  }

  /** The loop over the "ip:" keys in enumeration order: a range that does not parse raises, the first grant wins. */
  function IpScan(env: Env, db: Db, req: Request, client: IpAddr, keys: seq<string>): (r: Result<bool, Fault>)
    ensures r.Failure? ==> r.error.MalformedRange? && r.error.key in keys
    decreases |keys|
  {
    if keys == [] then Success(false)
    else match env.parseAddr(RangeText(keys[0]))
      case None => Failure(MalformedRange(keys[0]))
      case Some(net) =>
        if Includes(net, client) && Authorized(env, db, req, keys[0]) then Success(true)
        else IpScan(env, db, req, client, keys[1..])
  }

  /** ip_access?: the client address must parse (an absent one raises too), then the "ip:" keys are scanned. */
  function IpAccess(env: Env, db: Db, req: Request): (r: Result<bool, Fault>)
    ensures ClientIp(req).None? ==> r == Failure(MalformedClientIp)
    ensures ClientIp(req).Some? && env.parseAddr(ClientIp(req).value).None? ==> r == Failure(MalformedClientIp)
    ensures r == Success(true) ==> ClientIp(req).Some? && env.parseAddr(ClientIp(req).value).Some?
  {
    match ClientIp(req)
    case None => Failure(MalformedClientIp)
    case Some(text) =>
      match env.parseAddr(text)
      case None => Failure(MalformedClientIp)
      case Some(client) => IpScan(env, db, req, client, db.Keys(IpKeyPrefix))
  }

  /** The scan reads the key and moves on: its range parses and it does not grant the request. */
  predicate PassesOver(env: Env, db: Db, req: Request, client: IpAddr, key: string) {
    env.parseAddr(RangeText(key)).Some? && !RangeGrants(env, db, req, client, key)
  }

  /** A successful scan is justified by a key that grants the request, and every key before it parses. */
  lemma {:induction false} IpScanSound(env: Env, db: Db, req: Request, client: IpAddr, keys: seq<string>)
    requires IpScan(env, db, req, client, keys) == Success(true)
    ensures exists i ::
      && 0 <= i < |keys|
      && RangeGrants(env, db, req, client, keys[i])
      && forall j :: 0 <= j < i ==> PassesOver(env, db, req, client, keys[j])
  {
    if PassesOver(env, db, req, client, keys[0]) {
      IpScanSound(env, db, req, client, keys[1..]);
      var i :| 0 <= i < |keys[1..]| && RangeGrants(env, db, req, client, keys[1..][i]) &&
        forall j :: 0 <= j < i ==> PassesOver(env, db, req, client, keys[1..][j]);
      assert keys[i + 1] == keys[1..][i];
      assert forall j :: 1 <= j < i + 1 ==> keys[j] == keys[1..][j - 1];
    } else {
      assert RangeGrants(env, db, req, client, keys[0]);
    }
  }

  /** Conversely, a key that grants the request, with only parsing, non-granting keys before it, makes the scan succeed. */
  lemma {:induction false} IpScanGrantsAt(env: Env, db: Db, req: Request, client: IpAddr, keys: seq<string>, i: nat)
    requires i < |keys| && RangeGrants(env, db, req, client, keys[i])
    requires forall j :: 0 <= j < i ==> PassesOver(env, db, req, client, keys[j])
    ensures IpScan(env, db, req, client, keys) == Success(true)
  {
    if i > 0 {
      assert PassesOver(env, db, req, client, keys[0]);
      assert forall j :: 0 <= j < i - 1 ==> keys[1..][j] == keys[j + 1];
      IpScanGrantsAt(env, db, req, client, keys[1..], i - 1);
    }
  }

  /** When every range parses, the scan never raises and succeeds exactly when some key grants the request. */
  lemma {:induction false} IpScanComplete(env: Env, db: Db, req: Request, client: IpAddr, keys: seq<string>)
    requires forall j :: 0 <= j < |keys| ==> env.parseAddr(RangeText(keys[j])).Some?
    ensures IpScan(env, db, req, client, keys) ==
      Success(exists i :: 0 <= i < |keys| && RangeGrants(env, db, req, client, keys[i]))
  {
    if keys != [] {
      assert env.parseAddr(RangeText(keys[0])).Some?;
      IpScanComplete(env, db, req, client, keys[1..]);
      if exists i :: 0 <= i < |keys| && RangeGrants(env, db, req, client, keys[i]) {
        if !RangeGrants(env, db, req, client, keys[0]) {
          var i :| 0 <= i < |keys| && RangeGrants(env, db, req, client, keys[i]);
          assert keys[1..][i - 1] == keys[i];
        }
      } else {
        assert forall i :: 0 <= i < |keys[1..]| ==> keys[1..][i] == keys[i + 1];
      }
    }
  }

  /** The scan raises only at a key whose range does not parse, and every key before it parses and does not grant. */
  lemma {:induction false} IpScanFault(env: Env, db: Db, req: Request, client: IpAddr, keys: seq<string>)
    requires IpScan(env, db, req, client, keys).Failure?
    ensures IpScan(env, db, req, client, keys).error.MalformedRange?
    ensures exists i ::
      && 0 <= i < |keys|
      && keys[i] == IpScan(env, db, req, client, keys).error.key
      && env.parseAddr(RangeText(keys[i])).None?
      && forall j :: 0 <= j < i ==> PassesOver(env, db, req, client, keys[j])
  {
    if env.parseAddr(RangeText(keys[0])).Some? {
      IpScanFault(env, db, req, client, keys[1..]);
      var i :| 0 <= i < |keys[1..]| && keys[1..][i] == IpScan(env, db, req, client, keys[1..]).error.key &&
        env.parseAddr(RangeText(keys[1..][i])).None? &&
        forall j :: 0 <= j < i ==> PassesOver(env, db, req, client, keys[1..][j]);
      assert keys[i + 1] == keys[1..][i];
      assert forall j :: 1 <= j < i + 1 ==> keys[j] == keys[1..][j - 1];
    } else {
      assert keys[0] == IpScan(env, db, req, client, keys).error.key;
    }
  }

  /**
   * Conversely, a range that does not parse, reached before any key grants, makes the scan raise:
   * the same malformed range listed after a granting key would not be reached.
   */
  lemma {:induction false} IpScanFaultAt(env: Env, db: Db, req: Request, client: IpAddr, keys: seq<string>, i: nat)
    requires i < |keys| && env.parseAddr(RangeText(keys[i])).None?
    requires forall j :: 0 <= j < i ==> PassesOver(env, db, req, client, keys[j])
    ensures IpScan(env, db, req, client, keys) == Failure(MalformedRange(keys[i]))
  {
    if i > 0 {
      assert PassesOver(env, db, req, client, keys[0]);
      assert forall j :: 0 <= j < i - 1 ==> keys[1..][j] == keys[j + 1];
      IpScanFaultAt(env, db, req, client, keys[1..], i - 1);
    }
  }

  /** The KEYS enumeration of two "ip:" keys lists both, in order. */
  lemma TwoIpKeys(db: Db, k0: string, k1: string)
    requires db.keyOrder == [k0, k1] && IpKeyPrefix <= k0 && IpKeyPrefix <= k1
    ensures db.Keys(IpKeyPrefix) == [k0, k1]
  {
    var s := db.keyOrder;
    assert s[1..] == [k1] && s[1..][1..] == [];
    assert StartingWith(s[1..], IpKeyPrefix) == [k1] + StartingWith(s[1..][1..], IpKeyPrefix);
  }

  /** The registered ranges of the allow-list example: 10.0.0.0/24 with the rule ".*", 10.0.1.0/24 with "^$", which matches only the empty URL. */
  ghost predicate ExampleRanges(env: Env, db: Db) {
    && env.parseAddr("10.0.0.0/24") == Some(Addr(V4, 167772160, 24))
    && env.parseAddr("10.0.1.0/24") == Some(Addr(V4, 167772416, 24))
    && (forall text :: env.matches(".*", text) == Some(true))
    && (forall text :: env.matches("^$", text) == Some(text == []))
    && db.keyOrder == ["ip:10.0.0.0/24", "ip:10.0.1.0/24"]
    && db.sets == map["ip:10.0.0.0/24" := [".*"], "ip:10.0.1.0/24" := ["^$"]]
  }

  /** In the allow-list example a client at 10.0.0.5 is authorized by address. */
  lemma IpAllowListGrants(env: Env, db: Db, req: Request)
    requires ExampleRanges(env, db)
    requires env.parseAddr("10.0.0.5") == Some(Addr(V4, 167772165, 32))
    requires ClientIp(req) == Some("10.0.0.5")
    ensures IpAccess(env, db, req) == Success(true)
  {
    BlockExample();
    var keys := db.keyOrder;
    TwoIpKeys(db, keys[0], keys[1]);
    assert RangeText(keys[0]) == "10.0.0.0/24";
    assert db.Members(keys[0])[0] == ".*";
    assert Authorized(env, db, req, keys[0]);
  }

  /** In the allow-list example a client at 10.0.2.5 is not authorized by address. */
  lemma IpAllowListRefuses(env: Env, db: Db, req: Request)
    requires ExampleRanges(env, db)
    requires env.parseAddr("10.0.2.5") == Some(Addr(V4, 167772677, 32))
    requires ClientIp(req) == Some("10.0.2.5")
    ensures IpAccess(env, db, req) == Success(false)
  {
    BlockExample();
    var keys := db.keyOrder;
    TwoIpKeys(db, keys[0], keys[1]);
    assert RangeText(keys[0]) == "10.0.0.0/24" && RangeText(keys[1]) == "10.0.1.0/24";
    var first: IpAddr := Addr(V4, 167772160, 24);
    var second: IpAddr := Addr(V4, 167772416, 24);
    var far: IpAddr := Addr(V4, 167772677, 32);
    assert env.parseAddr(RangeText(keys[0])) == Some(first) && !Includes(first, far);
    assert env.parseAddr(RangeText(keys[1])) == Some(second) && !Includes(second, far);
    assert keys[1..][1..] == [];
    assert IpScan(env, db, req, far, keys[1..][1..]) == Success(false);
    assert IpScan(env, db, req, far, keys[1..]) == Success(false);
  }

  // ---- The decision pipeline

  /** A key sent over plain HTTP to a proxied host is revoked. */
  predicate Revokes(settings: Settings, req: Request) {
    req.host != settings.authDomain && IsPlainHttp(req) && req.authKey.Some?
  }

  /** The request gets past the domain, key, mapping and TLS steps to the authorization steps. */
  predicate Routed(settings: Settings, db: Db, req: Request) {
    && req.host != settings.authDomain
    && !Revokes(settings, req)
    && HostUrl(db, req.host).Some?
    && !(RequiresTls(db, req.host) && IsPlainHttp(req))
  }

  function LoginLocation(settings: Settings, env: Env, req: Request): string {
    settings.authDomainProto + "://" + settings.authDomain + "/?origin=" + env.escape(req.url)
  }

  /** The verdict of the catch-all route for one request. */
  function Decide(settings: Settings, env: Env, db: Db, s: SessionData, req: Request): (v: Verdict)
    // The gateway's own domain: plain HTTP is upgraded, HTTPS goes on to the login routes.
    ensures req.host == settings.authDomain ==> v == (if IsPlainHttp(req) then Secure else PassOn)
    // A key over plain HTTP is rejected exactly when it is revoked, mapped host or not.
    ensures v == KeyRevoked <==> Revokes(settings, req)
    ensures v == NotFound <==> req.host != settings.authDomain && !Revokes(settings, req) && HostUrl(db, req.host).None?
    // TLS enforcement comes before the session, the key and the address are looked at.
    ensures (req.host != settings.authDomain && !Revokes(settings, req) && HostUrl(db, req.host).Some? &&
      RequiresTls(db, req.host) && IsPlainHttp(req)) ==> v == Secure
    // Public hosts, key access and address access relay anonymously.
    ensures Routed(settings, db, req) && (IsPublic(db, req.host) || KeyAccess(env, db, req) || IpAccess(env, db, req) == Success(true))
      ==> v == Allow(HostUrl(db, req.host).value + req.fullpath, None)
    // Every relay goes to the host's backend over an acceptable transport and has a grant behind it.
    ensures v.Allow? ==> Routed(settings, db, req) && v.reproxyUrl == HostUrl(db, req.host).value + req.fullpath
    ensures v.Allow? ==>
      || IsPublic(db, req.host)
      || KeyAccess(env, db, req)
      || IpAccess(env, db, req) == Success(true)
      || (Authenticated(s, req) && Authorized(env, db, req, EmailEntry(s.email)))
    // X-Remote-User is set only on the e-mail path, to the session's address.
    ensures v.Allow? && v.remoteUser.Some? ==>
      && !IsPublic(db, req.host) && !KeyAccess(env, db, req) && IpAccess(env, db, req) == Success(false)
      && Authenticated(s, req) && v.remoteUser == s.email
    // Past the key and address checks: not authenticated is sent to log in, otherwise the e-mail rules decide.
    ensures (Routed(settings, db, req) && !IsPublic(db, req.host) && !KeyAccess(env, db, req) &&
      IpAccess(env, db, req) == Success(false)) ==>
        v == if !Authenticated(s, req) then LoginRedirect(LoginLocation(settings, env, req))
             else if Authorized(env, db, req, EmailEntry(s.email)) then Allow(HostUrl(db, req.host).value + req.fullpath, s.email)
             else Forbidden
    // The address check raising ends the request: nothing is relayed.
    ensures (Routed(settings, db, req) && !IsPublic(db, req.host) && !KeyAccess(env, db, req) &&
      IpAccess(env, db, req).Failure?) ==> v == ServerError(IpAccess(env, db, req).error)
    ensures v.LoginRedirect? ==> Routed(settings, db, req) && !Authenticated(s, req) && v.location == LoginLocation(settings, env, req)
    ensures v.Forbidden? ==> Routed(settings, db, req) && Authenticated(s, req) && !Authorized(env, db, req, EmailEntry(s.email))
    ensures v.ServerError? ==>
      && Routed(settings, db, req) && !IsPublic(db, req.host) && !KeyAccess(env, db, req)
      && IpAccess(env, db, req) == Failure(v.fault)
  {
    if req.host == settings.authDomain then
      if IsPlainHttp(req) then Secure else PassOn
    else if Revokes(settings, req) then KeyRevoked
    else
      match HostUrl(db, req.host)
      case None => NotFound
      case Some(url) =>
        if RequiresTls(db, req.host) && IsPlainHttp(req) then Secure
        else
          var target := url + req.fullpath;
          if IsPublic(db, req.host) || KeyAccess(env, db, req) then Allow(target, None)
          else
            match IpAccess(env, db, req)
            case Failure(fault) => ServerError(fault)
            case Success(true) => Allow(target, None)
            case Success(false) =>
              if !Authenticated(s, req) then LoginRedirect(LoginLocation(settings, env, req))
              else if Authorized(env, db, req, EmailEntry(s.email)) then Allow(target, s.email)
              else Forbidden
  }

  /**
   * Revocation: after the key's set is deleted, the same request is rejected again, a second
   * deletion changes nothing, and the key grants no request any more.
   */
  lemma RevocationIsFinal(settings: Settings, env: Env, db: Db, s: SessionData, req: Request)
    requires Revokes(settings, req)
    ensures var after := db.Delete(AuthKeyEntry(req.authKey.value));
      && Decide(settings, env, after, s, req) == KeyRevoked
      && after.Delete(AuthKeyEntry(req.authKey.value)) == after
      && forall other: Request :: other.authKey == req.authKey ==> !KeyAccess(env, after, other)
  {
    DeleteIdempotent(db, AuthKeyEntry(req.authKey.value));
  }
}
