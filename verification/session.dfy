/**
 * The signed-cookie session shared by all subdomains: whether the browser logged in, the
 * identity the provider returned and the client address the login came from.
 */
module Session {
  import opened Wrappers
  import opened Http

  /** The identity the OpenID provider vouched for (omniauth.auth). */
  datatype Identity = Identity(provider: string, uid: string, name: Option<string>, email: Option<string>)

  /** The session keys the gateway reads and writes; an absent key is `None` (or `false` for :logged). */
  datatype SessionData = SessionData(
    logged: bool,
    provider: Option<string>,
    uid: Option<string>,
    name: Option<string>,
    email: Option<string>,
    remoteIp: Option<string>)

  const EmptySession := SessionData(false, None, None, None, None, None)

  /**
   * authenticated?: the session is logged in and was bound to the address this request
   * comes from (X-Forwarded-For preferred over X-Real-IP). Two absent addresses compare equal.
   */
  predicate Authenticated(s: SessionData, req: Request) {
    s.logged && s.remoteIp == ClientIp(req)
  }

  /** A cleared session authenticates no request. */
  lemma EmptySessionUnauthenticated(req: Request)
    ensures !Authenticated(EmptySession, req)
  {
  }

  /** A session bound to one address does not authenticate a request from another address. */
  lemma BindingRejectsOtherAddress(s: SessionData, req: Request, bound: string)
    requires s.remoteIp == Some(bound) && ClientIp(req) != Some(bound)
    ensures !Authenticated(s, req)
  {
  }

  /** The session hash, updated in place by the login callback and by logout. */
  class Session {
    var logged: bool
    var provider: Option<string>
    var uid: Option<string>
    var name: Option<string>
    var email: Option<string>
    var remoteIp: Option<string>

    constructor ()
      ensures Snapshot() == EmptySession
    {
      logged, provider, uid, name, email, remoteIp := false, None, None, None, None, None;
    }

    function Snapshot(): SessionData
      reads this
    {
      SessionData(logged, provider, uid, name, email, remoteIp)
    }
  }
}
