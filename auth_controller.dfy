/** `AuthController`: the status codes of the four auth endpoints, the
    bearer-header parsing of logout and the null-principal guard of `me`.
    Failures thrown by the service are answered by the exception handler. */
module AuthController {
  import opened Wrappers
  import opened Exceptions
  import opened ExceptionHandler
  import opened Users
  import opened UserDetails
  import opened UserMapper
  import opened Revocation
  import opened Tokens
  import opened AuthFilter
  import opened AuthService
  import SecurityConfig

  const OK: nat := 200
  const CREATED: nat := 201

  /** An HTTP answer: the status, the body on success, the handler's error
      body on failure. */
  datatype Reply<T> = Reply(status: nat, body: Option<T>, error: Option<ErrorResponse>)

  /** A handler's return value or the exception handler's answer. */
  function Respond<T>(success: nat, r: Result<T, ApiException>): (reply: Reply<T>)
    ensures r.Ok? ==> reply == Reply(success, Some(r.value), None)
    ensures r.Err? ==> reply == Reply(StatusOf(r.error), None, Some(Handle(r.error)))
  {
    match r
    case Ok(v) => Reply(success, Some(v), None)
    case Err(e) => Reply(StatusOf(e), None, Some(Handle(e)))
  }

  /** `me`'s answer and the usernames it asked `getProfile` for. */
  datatype MeReply = MeReply(reply: Reply<UserProfileDto>, profileLookups: seq<string>)

  /** `me`: no principal is 401 with no lookup; otherwise the profile of the
      principal's username, 200 when the lookup returns. */
  function Me(principal: Option<Details>, getProfile: string -> Result<UserProfileDto, ApiException>): (r: MeReply)
    ensures principal.None? ==> r == MeReply(Reply(UNAUTHORIZED, None, None), [])
    ensures principal.Some? ==> r.profileLookups == [principal.value.username]
    ensures principal.Some? && getProfile(principal.value.username).Ok? ==>
              r.reply == Reply(OK, Some(getProfile(principal.value.username).value), None)
    ensures principal.Some? && getProfile(principal.value.username).Err? ==>
              r.reply.status == StatusOf(getProfile(principal.value.username).error)
  {
    match principal
    case None => MeReply(Reply(UNAUTHORIZED, None, None), [])
    case Some(p) => MeReply(Respond(OK, getProfile(p.username)), [p.username])
  }

  class AuthControllerImpl {
    const authService: AuthServiceImpl

    constructor (service: AuthServiceImpl)
      ensures authService == service
    {
      authService := service;
    }

    /** `register`: 201 with the new user's DTO, or the handler's answer
        (409 for a taken username or email or a missing ROLE_PARENT row). */
    method Register(request: RegisterUserRequest, encode: string -> string, now: nat) returns (reply: Reply<UserDto>)
      requires authService.Valid()
      modifies authService.userRepository
      ensures authService.Valid()
      ensures var users := authService.userRepository;
              var taken := old(users.ExistsByUsername(request.username)) || old(users.ExistsByEmail(request.email));
              && (reply.status == CREATED <==> !taken && authService.roleRepository.FindByRole(Name(ROLE_PARENT)).Some?)
              && (reply.status != CREATED ==> reply.status == CONFLICT && users.rows == old(users.rows))
              && (old(users.ExistsByUsername(request.username)) ==>
                    reply.error == Some(ErrorResponse(CONFLICT, USERNAME_IN_USE, [USERNAME_IN_USE])))
              && (reply.status == CREATED ==>
                    && reply.body.Some? && reply.body.value.username == request.username
                    && reply.body.value.roles == {ROLE_PARENT} && reply.body.value.isActive
                    && users.rows == old(users.rows) + [RegisteredRow(request, encode, old(users.nextId), now)])
    {
      var r := authService.Register(request, encode, now);
      reply := Respond(CREATED, r);
    }

    /** `login`: 200 with the tokens, 401 for every authentication failure. */
    function Login(request: AuthLoginRequest, authenticate: (string, string) -> AuthOutcome, now: nat)
      : (reply: Reply<AuthTokensResponse>)
      reads this, authService, authService.jwtTokenProvider
      requires authService.jwtTokenProvider.Ready()
      ensures reply.status == OK <==> authenticate(request.usernameOrEmail, request.password).Authenticated?
      ensures reply.status != OK ==> reply.status == UNAUTHORIZED && reply.error.Some? && reply.error.value.details == [INVALID_CREDENTIALS]
    {
      Respond(OK, authService.Login(request, authenticate, now))
    }

    /** `logout`: revokes the token of a bearer header and answers 200; a
        missing or other header is 200 with nothing revoked. A failure of the
        service is answered by the handler. */
    method Logout(header: Option<string>, now: nat) returns (reply: Reply<()>)
      requires authService.Valid()
      modifies authService.revokedTokenRepository
      ensures authService.Valid()
      ensures var revoked := authService.revokedTokenRepository;
              && (BearerToken(header).None? ==> reply == Reply(OK, Some(()), None) && revoked.rows == old(revoked.rows))
              && (BearerToken(header).Some? ==>
                    var t := BearerToken(header).value;
                    var c := old(authService.jwtTokenProvider.GetClaims(t, now));
                    && (reply.status == OK <==> c.Ok? && !old(revoked.ExistsByToken(t)) && |t| <= TOKEN_LENGTH)
                    && (reply.status == OK ==> revoked.rows == old(revoked.rows) + [RevokedToken(t, c.value.exp * 1000)])
                    && (reply.status != OK ==> revoked.rows == old(revoked.rows)))
      ensures reply.status == OK ==> reply == Reply(OK, Some(()), None)
    {
      var token := BearerToken(header);
      if token.None? {
        return Reply(OK, Some(()), None);
      }
      var r := authService.Logout(token.value, now);
      if r.Err? {
        if !r.error.Unexpected? {
          ClientErrorKindsAre4xx(r.error);
        }
        return Respond(OK, r);
      }
      reply := Reply(OK, Some(()), None);
    }
  }

  /** A bearer header revokes the text after the seven-character prefix. */
  lemma LogoutRevokesHeaderToken(token: string)
    ensures BearerToken(Some(BEARER + token)) == Some(token)
    ensures |BEARER| == 7
  {
    BearerTokenOf(token);
  }

  /** Once revoked by logout, a token no longer authenticates a request, even
      though it is still valid. */
  lemma LoggedOutTokenRejected(p: JwtTokenProvider, token: string, revoked: seq<RevokedToken>, expiresAt: nat,
                               users: seq<UserRecord>, now: nat)
    requires p.Ready() && p.ValidateToken(token, now)
    ensures Decide(Some(BEARER + token), p, revoked + [RevokedToken(token, expiresAt)], users, now).outcome == Ok(None)
  {
    assert (revoked + [RevokedToken(token, expiresAt)])[|revoked|].token == token;
    RevokedTokenNotLoaded(token, p, revoked + [RevokedToken(token, expiresAt)], users, now);
  }

  /** Blank tokens and tokens past their expiry never pass `validateToken`. */
  lemma BlankAndExpiredInvalid(p: JwtTokenProvider, name: string, typ: string, now: nat, ttl: nat, later: nat)
    requires p.Ready()
    ensures !p.ValidateToken("", later)
    ensures later > now + ttl ==> !p.ValidateToken(Issue(p.key.value, name, typ, now, ttl), later)
  {
    BlankRejected(p.key.value, later);
    if later > now + ttl {
      ExpiredAfterLifetime(p.key.value, name, typ, now, ttl, later);
    }
  }

  /** End to end, a logout whose bearer token is invalid (blank, expired,
      foreign) or already revoked never reaches the controller: the filter
      leaves the request anonymous and the logout route needs authentication,
      so the answer is 401. */
  lemma UnusableLogoutTokenIs401(p: JwtTokenProvider, token: string, revoked: seq<RevokedToken>,
                                 users: seq<UserRecord>, now: nat)
    requires p.Ready()
    requires !p.ValidateToken(token, now) || Contains(revoked, token)
    ensures var d := Decide(Some(BEARER + token), p, revoked, users, now);
            && d.outcome == Ok(None)
            && SecurityConfig.Authorize(SecurityConfig.POST, "/api/v1/auth/logout", d.outcome.Ok? && d.outcome.value.Some?)
               == SecurityConfig.Unauthorized401
  {
    if !p.ValidateToken(token, now) {
      InvalidTokenNotLoaded(token, p, revoked, users, now);
    } else {
      RevokedTokenNotLoaded(token, p, revoked, users, now);
    }
    SecurityConfig.ChatAndLogoutNeedAuthentication(SecurityConfig.POST);
  }
}
