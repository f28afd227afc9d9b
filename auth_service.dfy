/** `AuthServiceImpl`: registration with its conflict checks, login with one
    uniform failure, and logout by revoking the presented token. The password
    encoder and the authentication manager are parameters. */
module AuthService {
  import opened Wrappers
  import opened Exceptions
  import opened ExceptionHandler
  import opened Users
  import opened UserMapper
  import opened Tokens
  import opened Revocation

  datatype RegisterUserRequest = RegisterUserRequest(username: string, email: string, password: string)
  datatype AuthLoginRequest = AuthLoginRequest(usernameOrEmail: string, password: string)
  datatype AuthTokensResponse = AuthTokensResponse(accessToken: string, refreshToken: string,
                                                   accessExpiresInMs: nat, refreshExpiresInMs: nat)

  /** What `authenticationManager.authenticate` does with a credential pair:
      an authentication with its name, an `AuthenticationException` (bad
      password, unknown user, disabled account), or any other exception. */
  datatype AuthOutcome = Authenticated(name: string) | AuthenticationFailed | OtherFailure

  const USERNAME_IN_USE := "Username already in use"
  const EMAIL_IN_USE := "Email already in use"
  const ROLE_PARENT_MISSING := "ROLE_PARENT not found"
  const CONFLICT: nat := 409
  const UNAUTHORIZED: nat := 401

  /** Stand-ins for jjwt's exception texts; the handler hides the second. */
  const BLANK_TOKEN := "JWT String argument cannot be null or empty."
  const REJECTED_TOKEN := "JWT rejected"

  /** The exception `getClaims` lets escape: `IllegalArgumentException` for a
      blank string, a `JwtException` (handled as unexpected) otherwise. */
  function ClaimsFailure(e: JwtError): (x: ApiException)
    ensures e == Blank ==> x.IllegalArgument? && StatusOf(x) == 400
    ensures e != Blank ==> x.Unexpected? && Handle(x) == ErrorResponse(500, "Internal Server Error", [UNEXPECTED_DETAIL])
  {
    if e == Blank then IllegalArgument(BLANK_TOKEN) else Unexpected(REJECTED_TOKEN)
  }

  /** The row a successful registration inserts. */
  function RegisteredRow(request: RegisterUserRequest, encode: string -> string, id: nat, now: nat): UserRecord {
    UserRecord(Some(id), request.username, request.email, encode(request.password), Some(now),
               None, None, true, false, None, {Name(ROLE_PARENT)})
  }

  class AuthServiceImpl {
    const userRepository: UserRepository
    const roleRepository: RoleRepository
    const jwtTokenProvider: JwtTokenProvider
    const revokedTokenRepository: RevokedTokenRepository

    constructor (users: UserRepository, roles: RoleRepository, jwt: JwtTokenProvider, revoked: RevokedTokenRepository)
      ensures userRepository == users && roleRepository == roles
      ensures jwtTokenProvider == jwt && revokedTokenRepository == revoked
    {
      userRepository, roleRepository, jwtTokenProvider, revokedTokenRepository := users, roles, jwt, revoked;
    }

    ghost predicate Valid()
      reads this, userRepository, roleRepository, jwtTokenProvider, revokedTokenRepository
    {
      userRepository.Valid() && roleRepository.Valid() && jwtTokenProvider.Ready() && revokedTokenRepository.Valid()
    }

    /** `register`: the username check, then the email check, then the
        ROLE_PARENT lookup; only when all pass is one user saved: active, with
        the encoded password and the single role ROLE_PARENT. */
    method Register(request: RegisterUserRequest, encode: string -> string, now: nat)
      returns (r: Result<UserDto, ApiException>)
      requires Valid()
      modifies userRepository
      ensures Valid()
      ensures old(userRepository.ExistsByUsername(request.username)) ==>
                r == Err(ResponseStatus(CONFLICT, USERNAME_IN_USE)) && userRepository.rows == old(userRepository.rows)
      ensures !old(userRepository.ExistsByUsername(request.username)) && old(userRepository.ExistsByEmail(request.email)) ==>
                r == Err(ResponseStatus(CONFLICT, EMAIL_IN_USE)) && userRepository.rows == old(userRepository.rows)
      ensures && !old(userRepository.ExistsByUsername(request.username)) && !old(userRepository.ExistsByEmail(request.email))
              && roleRepository.FindByRole(Name(ROLE_PARENT)).None? ==>
                r == Err(IllegalState(ROLE_PARENT_MISSING)) && userRepository.rows == old(userRepository.rows)
      ensures && !old(userRepository.ExistsByUsername(request.username)) && !old(userRepository.ExistsByEmail(request.email))
              && roleRepository.FindByRole(Name(ROLE_PARENT)).Some? ==>
                var row := RegisteredRow(request, encode, old(userRepository.nextId), now);
                && userRepository.rows == old(userRepository.rows) + [row]
                && r == Ok(UserDto(row.id, request.username, request.email, true, {ROLE_PARENT}, Some(now), None, None))
    {
      if userRepository.ExistsByUsername(request.username) {
        return Err(ResponseStatus(CONFLICT, USERNAME_IN_USE));
      }
      if userRepository.ExistsByEmail(request.email) {
        return Err(ResponseStatus(CONFLICT, EMAIL_IN_USE));
      }
      var user := new User();
      user.username := request.username;
      user.email := request.email;
      user.hashedPassword := encode(request.password);
      user.isActive := true;
      var userRole := roleRepository.FindByRole(Name(ROLE_PARENT));
      if userRole.None? {
        return Err(IllegalState(ROLE_PARENT_MISSING));
      }
      user.roles := {userRole.value};
      var saved := userRepository.Persist(user, now);
      assert saved.Ok?;
      assert saved.value == RegisteredRow(request, encode, old(userRepository.nextId), now);
      r := ToDto(saved.value, [Name(ROLE_PARENT)]);
      assert r.Ok?;
      assert forall rn: RoleName :: rn in r.value.roles <==> rn == ROLE_PARENT;
      assert r.value.roles == {ROLE_PARENT};
    }

    /** `login`: the provider's two tokens and the configured lifetimes on
        success; every failure reports the same invalid-credentials text. */
    function Login(request: AuthLoginRequest, authenticate: (string, string) -> AuthOutcome, now: nat)
      : (r: Result<AuthTokensResponse, ApiException>)
      reads this, jwtTokenProvider
      requires jwtTokenProvider.Ready()
      ensures var outcome := authenticate(request.usernameOrEmail, request.password);
              && (r.Ok? <==> outcome.Authenticated?)
              && (outcome == AuthenticationFailed ==> r == Err(Unauthorized(INVALID_CREDENTIALS)))
              && (outcome == OtherFailure ==> r == Err(ResponseStatus(UNAUTHORIZED, INVALID_CREDENTIALS)))
      ensures r.Ok? ==>
                var name := authenticate(request.usernameOrEmail, request.password).name;
                && r.value.accessExpiresInMs == jwtTokenProvider.accessTokenValidityInMs
                && r.value.refreshExpiresInMs == jwtTokenProvider.refreshTokenValidityInMs
                && Parse(r.value.accessToken) ==
                   Some(Signed(IssuedClaims(name, ACCESS, now, jwtTokenProvider.accessTokenValidityInMs), jwtTokenProvider.key.value))
                && Parse(r.value.refreshToken) ==
                   Some(Signed(IssuedClaims(name, REFRESH, now, jwtTokenProvider.refreshTokenValidityInMs), jwtTokenProvider.key.value))
    {
      match authenticate(request.usernameOrEmail, request.password)
      case Authenticated(name) =>
        Ok(AuthTokensResponse(jwtTokenProvider.GenerateAccessToken(name, now),
                              jwtTokenProvider.GenerateRefreshToken(name, now),
                              jwtTokenProvider.accessTokenValidityInMs,
                              jwtTokenProvider.refreshTokenValidityInMs))
      case AuthenticationFailed => Err(Unauthorized(INVALID_CREDENTIALS))
      case OtherFailure => Err(ResponseStatus(UNAUTHORIZED, INVALID_CREDENTIALS))
    }

    /** `logout`: the token's claims first (an unreadable token throws and
        nothing is stored), then one record with the token and its "exp"
        instant; the table's constraints may still refuse it. */
    method Logout(token: string, now: nat) returns (r: Result<(), ApiException>)
      requires Valid()
      modifies revokedTokenRepository
      ensures Valid()
      ensures var c := jwtTokenProvider.GetClaims(token, now);
              && (c.Err? ==> r == Err(ClaimsFailure(c.error)) && revokedTokenRepository.rows == old(revokedTokenRepository.rows))
              && (c.Ok? ==> (r.Ok? <==> !old(revokedTokenRepository.ExistsByToken(token)) && |token| <= TOKEN_LENGTH))
              && (c.Ok? ==> revokedTokenRepository.rows ==
                             if r.Ok? then old(revokedTokenRepository.rows) + [RevokedToken(token, c.value.exp * 1000)]
                             else old(revokedTokenRepository.rows))
      ensures r.Ok? ==> revokedTokenRepository.ExistsByToken(token)
      ensures jwtTokenProvider.GetClaims(token, now).Ok? && r.Err? ==>
              r.error == DataIntegrityViolation(if |token| > TOKEN_LENGTH then LENGTH_VIOLATION else UNIQUE_VIOLATION)
      ensures r.Err? ==> r.error.Unexpected? || IsClientErrorKind(r.error)
    {
      var claims := jwtTokenProvider.GetClaims(token, now);
      if claims.Err? {
        return Err(ClaimsFailure(claims.error));
      }
      var expires := claims.value.exp * 1000;
      r := revokedTokenRepository.Save(RevokedToken(token, expires));
    }
  }

  /** Every failed login is answered 401 with the invalid-credentials detail,
      so an unknown user and a wrong password cannot be told apart. */
  lemma LoginFailuresLookAlike(s: AuthServiceImpl, request: AuthLoginRequest,
                               authenticate: (string, string) -> AuthOutcome, now: nat)
    requires s.jwtTokenProvider.Ready()
    requires s.Login(request, authenticate, now).Err?
    ensures Handle(s.Login(request, authenticate, now).error).status == 401
    ensures Handle(s.Login(request, authenticate, now).error).details == [INVALID_CREDENTIALS]
  {
  }

  /** A token whose claims cannot be read is never revoked: blank strings
      are answered 400, every other rejection 500 without its reason. */
  lemma LogoutOfUnreadableToken(e: JwtError)
    ensures Handle(ClaimsFailure(e)).status == if e == Blank then 400 else 500
  {
  }
}
