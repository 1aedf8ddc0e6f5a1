/**
 * `JwtAuthFilter`: the per-request bearer-token gate. It reads the
 * `Authorization` header, asks the token service for the token's subject,
 * and installs the looked-up user into the request's security context when
 * the token validates. An expired token ends the request with a fixed 401
 * body. The token service and the user lookup are collaborators whose code is
 * not part of this model; they are passed in as functions.
 */
module JwtGate {
  import opened Wrappers

  /** The user record `loadUserByUsername` returns: a name and its granted authorities. */
  datatype UserDetails = UserDetails(username: string, authorities: set<string>)

  /** What the security context's authentication holds when it is not null. */
  datatype Authentication =
    | AnonymousUser                                             // principal "anonymousUser"
    | UserToken(principal: UserDetails, authorities: set<string>) // UsernamePasswordAuthenticationToken

  /** What `extractSubject(token)` does: return a subject or null, or throw. */
  datatype Extraction = Subject(name: string) | NullSubject | Expired | OtherError(reason: string)

  /**
   * The filter's collaborators. `loadUserByUsername` answers `None` where it
   * throws `UsernameNotFoundException`.
   */
  datatype Collaborators = Collaborators(
    extractSubject: string -> Extraction,
    loadUserByUsername: string -> Option<UserDetails>,
    validateToken: (string, UserDetails) -> bool)

  /** An exception that leaves the filter uncaught. */
  datatype GateError = TokenError(reason: string) | UserNotFound(username: string)

  datatype GateOutcome =
    | Continue                            // filterChain.doFilter was invoked
    | Reject(status: int, body: string)   // the response was written; the chain was not invoked
    | Raise(error: GateError)             // an exception left the filter

  const BearerPrefix: string := "Bearer "
  const Unauthorized: int := 401
  const ExpiredBody: string := "{\"error\":\"JWT token expired, please refresh it\"}"
  const TokenEndpoint: string := "/auth/generateToken"

  /** `shouldNotFilter`: only the token endpoint itself bypasses the gate. */
  predicate ShouldNotFilter(path: string)
  {
    path == TokenEndpoint
  }

  /** The token of an `Authorization` header: what follows `Bearer ` when the header has that prefix. */
  function BearerToken(header: Option<string>): (token: Option<string>)
    ensures token.Some? <==> header.Some? && BearerPrefix <= header.value
    ensures token.Some? ==> header.value == BearerPrefix + token.value
  {
    if header.Some? && BearerPrefix <= header.value then Some(header.value[|BearerPrefix|..]) else None
  }

  /** A principal may be installed only into an empty or anonymous context. */
  predicate MayInstall(context: Option<Authentication>)
  {
    context.None? || context.value.AnonymousUser?
  }

  /** The new context and the outcome of `doFilterInternal` for one request. */
  function GateStep(context: Option<Authentication>, header: Option<string>, services: Collaborators)
    : (r: (Option<Authentication>, GateOutcome))
    ensures BearerToken(header).None? ==> r == (context, Continue)
    ensures r.1.Reject? ==> r.1 == Reject(Unauthorized, ExpiredBody)
    ensures !r.1.Continue? ==> r.0 == context
    ensures r.0 != context ==> MayInstall(context) && r.0.Some? && r.0.value.UserToken?
    ensures r.0 != context ==> r.0.value.authorities == r.0.value.principal.authorities
  {
    match BearerToken(header)
    case None => (context, Continue)
    case Some(token) =>
      match services.extractSubject(token)
      case Expired => (context, Reject(Unauthorized, ExpiredBody))
      case OtherError(reason) => (context, Raise(TokenError(reason)))
      case NullSubject => (context, Continue)
      case Subject(name) =>
        if !MayInstall(context) then (context, Continue)
        else
          match services.loadUserByUsername(name)
          case None => (context, Raise(UserNotFound(name)))
          case Some(user) =>
            if services.validateToken(token, user) then (Some(UserToken(user, user.authorities)), Continue)
            else (context, Continue)
  }

  /** The filter, holding the request's security context as an explicit field. */
  class JwtAuthFilter {
    /** `SecurityContextHolder.getContext().getAuthentication()`; `None` is null. */
    var context: Option<Authentication>
    const services: Collaborators

    /** Sessions are stateless: a request starts with an empty context. */
    constructor (services: Collaborators)
      ensures context == None && this.services == services
    {
      this.services := services;
      context := None;
    }

    /** `doFilterInternal`: extract, look up, validate, install. */
    method DoFilterInternal(authHeader: Option<string>) returns (outcome: GateOutcome)
      modifies this
      ensures (context, outcome) == GateStep(old(context), authHeader, services)
    {
      var token: Option<string> := None;
      var username: Option<string> := None;
      if authHeader.Some? && BearerPrefix <= authHeader.value {
        token := Some(authHeader.value[7..]);
        match services.extractSubject(token.value)
        case Expired =>
          outcome := Reject(Unauthorized, ExpiredBody);
          return;
        case OtherError(reason) =>
          outcome := Raise(TokenError(reason));
          return;
        case NullSubject =>
        case Subject(name) =>
          username := Some(name);
      }
      if username.Some? && (context.None? || context.value.AnonymousUser?) {
        var userDetails := services.loadUserByUsername(username.value);
        if userDetails.None? {
          outcome := Raise(UserNotFound(username.value));
          return;
        }
        if services.validateToken(token.value, userDetails.value) {
          context := Some(UserToken(userDetails.value, userDetails.value.authorities));
        }
      }
      outcome := Continue;
    }

    /** The filter's entry point: the token endpoint skips straight to the chain. */
    method DoFilter(path: string, authHeader: Option<string>) returns (outcome: GateOutcome)
      modifies this
      ensures ShouldNotFilter(path) ==> context == old(context) && outcome == Continue
      ensures !ShouldNotFilter(path) ==> (context, outcome) == GateStep(old(context), authHeader, services)
    {
      if ShouldNotFilter(path) {
        outcome := Continue;
      } else {
        outcome := DoFilterInternal(authHeader);
      }
    }
  }

  // ------------------------------------------------------------ properties

  /** Only the exact token endpoint path bypasses the gate; a longer path is filtered. */
  lemma OnlyTokenEndpointBypasses(rest: string)
    ensures ShouldNotFilter("/auth/generateToken")
    ensures rest != [] ==> !ShouldNotFilter("/auth/generateToken" + rest)
  {
    if rest != [] {
      assert |"/auth/generateToken" + rest| != |TokenEndpoint|;
    }
  }

  /** A token is extracted exactly from headers `Bearer <token>`, and it is everything after index 7. */
  lemma BearerTokenExact(header: Option<string>, token: string)
    ensures BearerToken(header) == Some(token) <==> header == Some(BearerPrefix + token)
  {
    if header == Some(BearerPrefix + token) {
      assert (BearerPrefix + token)[|BearerPrefix|..] == token;
    }
    if BearerToken(header) == Some(token) {
      assert header.value[..|BearerPrefix|] == BearerPrefix;
      assert header.value == header.value[..|BearerPrefix|] + header.value[|BearerPrefix|..];
    }
  }

  /** With no header, or one without the `Bearer ` prefix, the context is untouched and the chain continues. */
  lemma NoBearerNoChange(context: Option<Authentication>, header: Option<string>, services: Collaborators)
    requires header.None? || !(BearerPrefix <= header.value)
    ensures GateStep(context, header, services) == (context, Continue)
  {
  }

  /** An expired token gets 401 with the fixed body, the chain is not invoked and the context is untouched. */
  lemma ExpiredTokenRejected(context: Option<Authentication>, token: string, services: Collaborators)
    requires services.extractSubject(token) == Expired
    ensures GateStep(context, Some(BearerPrefix + token), services)
            == (context, Reject(401, "{\"error\":\"JWT token expired, please refresh it\"}"))
  {
    BearerTokenExact(Some(BearerPrefix + token), token);
  }

  /** Token failures other than expiry are not caught: they leave the gate as exceptions. */
  lemma OtherTokenErrorsPropagate(context: Option<Authentication>, token: string, services: Collaborators, reason: string)
    requires services.extractSubject(token) == OtherError(reason)
    ensures GateStep(context, Some(BearerPrefix + token), services) == (context, Raise(TokenError(reason)))
  {
    BearerTokenExact(Some(BearerPrefix + token), token);
  }

  /**
   * The context changes only by installing the looked-up user with exactly its
   * authorities, and only for a non-null subject, an empty or anonymous
   * context and a token that validates.
   */
  lemma InstallOnlyWhenValidated(context: Option<Authentication>, header: Option<string>, services: Collaborators)
    requires GateStep(context, header, services).0 != context
    ensures BearerToken(header).Some?
    ensures var token := BearerToken(header).value;
            services.extractSubject(token).Subject?
            && MayInstall(context)
            && var name := services.extractSubject(token).name;
               services.loadUserByUsername(name).Some?
               && var user := services.loadUserByUsername(name).value;
                  services.validateToken(token, user)
                  && GateStep(context, header, services) == (Some(UserToken(user, user.authorities)), Continue)
  {
  }

  /** A non-anonymous authentication already in the context is never replaced, and no user is looked up. */
  lemma ExistingAuthenticationKept(context: Option<Authentication>, header: Option<string>, services: Collaborators)
    requires context.Some? && context.value.UserToken?
    ensures GateStep(context, header, services).0 == context
    ensures !(GateStep(context, header, services).1.Raise? && GateStep(context, header, services).1.error.UserNotFound?)
  {
  }

  /** A token that does not validate leaves the context untouched and the chain continues. */
  lemma InvalidTokenContinues(context: Option<Authentication>, token: string, services: Collaborators, name: string, user: UserDetails)
    requires services.extractSubject(token) == Subject(name)
    requires services.loadUserByUsername(name) == Some(user)
    requires !services.validateToken(token, user)
    ensures GateStep(context, Some(BearerPrefix + token), services) == (context, Continue)
  {
    BearerTokenExact(Some(BearerPrefix + token), token);
  }
}
