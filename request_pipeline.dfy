/**
 * One request through the security filter chain: the bearer-token gate runs
 * first (it is registered before the username/password filter), then the
 * rule list authorizes the request with whatever authentication the gate left
 * in the context. Only a request that is both let through by the gate and
 * permitted reaches a handler.
 */
module RequestPipeline {
  import opened Wrappers
  import opened JwtGate
  import Authorization

  datatype RequestResult =
    | GateRejected(status: int, body: string)   // the gate answered; nothing later ran
    | GateFailed(error: GateError)             // an exception left the gate
    | Authorized(decision: Authorization.Decision)

  /** The authorities the rule list sees: none for an empty or anonymous context. */
  function AuthoritiesOf(context: Option<Authentication>): Option<set<string>>
  {
    if context.Some? && context.value.UserToken? then Some(context.value.authorities) else None
  }

  /** A request on `path` with header `header`, starting from the context `context`. */
  function Dispatch(path: string, header: Option<string>, context: Option<Authentication>, services: Collaborators)
    : (r: RequestResult)
    ensures ShouldNotFilter(path) || BearerToken(header).None? ==>
              r == Authorized(Authorization.Decide(path, AuthoritiesOf(context)))
    ensures r.GateRejected? ==> r.status == 401 && r.body == ExpiredBody
    ensures r.GateFailed? ==> !ShouldNotFilter(path) && BearerToken(header).Some?
  {
    if ShouldNotFilter(path) then Authorized(Authorization.Decide(path, AuthoritiesOf(context)))
    else
      var (after, outcome) := GateStep(context, header, services);
      match outcome
      case Reject(status, body) => GateRejected(status, body)
      case Raise(error) => GateFailed(error)
      case Continue => Authorized(Authorization.Decide(path, AuthoritiesOf(after)))
  }

  /** A handler runs only when the request is authorized. */
  predicate ReachesHandler(r: RequestResult)
  {
    r == Authorized(Authorization.Permit)
  }

  /** An expired bearer token never reaches a handler, whatever the path (except the token endpoint). */
  lemma ExpiredTokenNeverReachesHandler(path: string, token: string, context: Option<Authentication>, services: Collaborators)
    requires !ShouldNotFilter(path)
    requires services.extractSubject(token) == Expired
    ensures Dispatch(path, Some(BearerPrefix + token), context, services) == GateRejected(401, ExpiredBody)
    ensures !ReachesHandler(Dispatch(path, Some(BearerPrefix + token), context, services))
  {
    ExpiredTokenRejected(context, token, services);
  }

  /** A valid token of a user who lacks `recruiter`, on a recruiter route, is refused with 403. */
  lemma ApplicantTokenOnRecruiterRoute(path: string, token: string, services: Collaborators, user: UserDetails)
    requires "/review/" <= path
    requires services.extractSubject(token) == Subject(user.username)
    requires services.loadUserByUsername(user.username) == Some(user)
    requires services.validateToken(token, user)
    requires "recruiter" !in user.authorities
    ensures Dispatch(path, Some(BearerPrefix + token), None, services) == Authorized(Authorization.DenyAuthority)
  {
    BearerTokenExact(Some(BearerPrefix + token), token);
    assert path != TokenEndpoint by {
      assert path[1] != TokenEndpoint[1];
    }
    Authorization.RecruiterRoutes(path, Some(user.authorities));
  }

  /** A valid token of a user holding `recruiter`, on a recruiter route, installs the user and reaches the handler. */
  lemma RecruiterTokenOnRecruiterRoute(path: string, token: string, services: Collaborators, user: UserDetails)
    requires "/review/" <= path
    requires services.extractSubject(token) == Subject(user.username)
    requires services.loadUserByUsername(user.username) == Some(user)
    requires services.validateToken(token, user)
    requires "recruiter" in user.authorities
    ensures ReachesHandler(Dispatch(path, Some(BearerPrefix + token), None, services))
  {
    BearerTokenExact(Some(BearerPrefix + token), token);
    assert path != TokenEndpoint by {
      assert path[1] != TokenEndpoint[1];
    }
    Authorization.RecruiterRoutes(path, Some(user.authorities));
  }

  /** A request with no usable token stays anonymous: it reaches a recruiter route's handler never. */
  lemma AnonymousOnRecruiterRoute(path: string, header: Option<string>, services: Collaborators)
    requires "/review/" <= path
    requires BearerToken(header).None?
    ensures Dispatch(path, header, None, services) == Authorized(Authorization.DenyAnonymous)
  {
    assert path != TokenEndpoint by {
      assert path[1] != TokenEndpoint[1];
    }
    Authorization.RecruiterRoutes(path, None);
  }

  /** The token endpoint is neither gated nor protected: any request to it is permitted. */
  lemma TokenEndpointOpen(header: Option<string>, context: Option<Authentication>, services: Collaborators)
    ensures ReachesHandler(Dispatch(TokenEndpoint, header, context, services))
  {
    assert Authorization.Matches(Authorization.Public[2], TokenEndpoint);
    Authorization.PublicPatternsPermitted(TokenEndpoint, AuthoritiesOf(context));
  }
}
