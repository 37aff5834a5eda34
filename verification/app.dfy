/**
 * The Sinatra application: the catch-all route that renders a verdict step by step,
 * the helpers it calls, the login callback and logout.
 */
module App {
  import opened Wrappers
  import opened Net
  import opened Store
  import opened Http
  import opened Session
  import opened Policy

  class Auth {
    const redis: Redis
    const settings: Settings
    const env: Env

    constructor (redis: Redis, settings: Settings, env: Env)
      ensures this.redis == redis && this.settings == settings && this.env == env
    {
      this.redis := redis;
      this.settings := settings;
      this.env := env;
    }

    /** authorized?: scan the entry's rules in order; the first that compiles and matches wins. */
    method Authorized(req: Request, entry: string) returns (ok: bool)
      ensures ok <==> Authorizes(env, redis.db.Members(entry), StripScheme(req.url))
    {
      var url := StripScheme(req.url);
      var rules := redis.db.Members(entry);
      for i := 0 to |rules|
        invariant forall j :: 0 <= j < i ==> env.matches(rules[j], url) != Some(true)
      {
        match env.matches(rules[i], url)
        case None =>        // malformed rule: skipped
        case Some(hit) =>
          if hit {
            return true;
          }
      }
      return false;
    }

    /** key_access?: only a request carrying an `authkey` parameter is checked against that key's rules. */
    method KeyAccess(req: Request) returns (ok: bool)
      ensures ok == Policy.KeyAccess(env, redis.db, req)
    {
      ok := false;
      if req.authKey.Some? {
        ok := Authorized(req, AuthKeyEntry(req.authKey.value));
      }
    }

    /** ip_access?: parse the client address, then try every "ip:" key whose range includes it. */
    method IpAccess(req: Request) returns (r: Result<bool, Fault>)
      ensures r == Policy.IpAccess(env, redis.db, req)
    {
      var remote := ClientIp(req);
      if remote.None? {
        return Failure(MalformedClientIp);
      }
      var parsed := env.parseAddr(remote.value);
      if parsed.None? {
        return Failure(MalformedClientIp);
      }
      var client := parsed.value;
      var keys := redis.db.Keys(IpKeyPrefix);
      for i := 0 to |keys|
        invariant IpScan(env, redis.db, req, client, keys) == IpScan(env, redis.db, req, client, keys[i..])
      {
        assert keys[i..][1..] == keys[i + 1..];
        var range := env.parseAddr(RangeText(keys[i]));
        if range.None? {
          return Failure(MalformedRange(keys[i]));
        }
        if Includes(range.value, client) {
          var ok := Authorized(req, keys[i]);
          if ok {
            return Success(true);
          }
        }
      }
      return Success(false);
    }

    /** The catch-all route: an ordered sequence of checks that stops at the first verdict. */
    method Route(session: Session, req: Request) returns (v: Verdict)
      requires redis.Valid()
      modifies redis
      ensures redis.Valid()
      ensures v == Decide(settings, env, old(redis.db), session.Snapshot(), req)
      ensures redis.db == if Revokes(settings, req) then old(redis.db).Delete(AuthKeyEntry(req.authKey.value)) else old(redis.db)
    {
      if req.host == settings.authDomain {
        if IsPlainHttp(req) {
          return Secure;
        }
        return PassOn;
      }

      // A key seen over plain HTTP may be compromised: delete it.
      if req.authKey.Some? {
        if IsPlainHttp(req) {
          redis.Del(AuthKeyEntry(req.authKey.value));
          return KeyRevoked;
        }
      }

      var url := HostUrl(redis.db, req.host);
      if url.None? {
        return NotFound;
      }

      if RequiresTls(redis.db, req.host) {
        if IsPlainHttp(req) {
          return Secure;
        }
      }

      var user := None;
      if !IsPublic(redis.db, req.host) {
        var byKey := KeyAccess(req);
        if !byKey {
          var byIp := IpAccess(req);
          if byIp.Failure? {
            return ServerError(byIp.error);
          }
          if !byIp.value {
            var s := session.Snapshot();
            if !Authenticated(s, req) {
              return LoginRedirect(LoginLocation(settings, env, req));
            }
            var byEmail := Authorized(req, EmailEntry(s.email));
            if byEmail {
              user := s.email;
            } else {
              return Forbidden;
            }
          }
        }
      }

      return Allow(url.value + req.fullpath, user);
    }

    /**
     * The OpenID callback: record the validated identity and bind the session to the
     * client address, read from the same headers as every later request. Returns where
     * to redirect: the origin the login started from, or "/".
     */
    method Callback(session: Session, auth: Identity, origin: Option<string>, req: Request) returns (location: string)
      modifies session
      ensures session.Snapshot() == SessionData(true, Some(auth.provider), Some(auth.uid), auth.name, auth.email, ClientIp(req))
      ensures forall later: Request :: Authenticated(session.Snapshot(), later) <==> ClientIp(later) == ClientIp(req)
      ensures location == origin.GetOr("/")
    {
      session.logged := true;
      session.provider := Some(auth.provider);
      session.uid := Some(auth.uid);
      session.name := auth.name;
      session.email := auth.email;
      if req.forwardedFor.Some? {
        session.remoteIp := req.forwardedFor;
      } else {
        session.remoteIp := req.realIp;
      }
      location := origin.GetOr("/");
    }

    /** /logout: clear the session and redirect to the login page. */
    method Logout(session: Session) returns (location: string)
      modifies session
      ensures session.Snapshot() == EmptySession
      ensures forall later: Request :: !Authenticated(session.Snapshot(), later)
      ensures location == "/"
    {
      session.logged, session.provider, session.uid := false, None, None;
      session.name, session.email, session.remoteIp := None, None, None;
      location := "/";
    }
  }
}
