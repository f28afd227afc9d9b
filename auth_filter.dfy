/** `JwtAuthenticationFilter.doFilterInternal`: the per-request gate that
    turns a bearer token into an authenticated security context. The
    thread-local context and the servlet chain are two small objects: the
    context's authentication field and a count of chain invocations. */
module AuthFilter {
  import opened Wrappers
  import opened Text
  import opened Users
  import opened UserDetails
  import opened Tokens
  import opened Revocation

  const BEARER := "Bearer "

  /** The request's `SecurityContext`; stateless sessions start it empty. */
  class SecurityContext {
    var authentication: Option<Authentication>

    constructor ()
      ensures authentication == None
    {
      authentication := None;
    }
  }

  /** The rest of the filter chain; only its invocations are observed. */
  class FilterChain {
    var invocations: nat

    constructor ()
      ensures invocations == 0
    {
      invocations := 0;
    }

    method DoFilter()
      modifies this
      ensures invocations == old(invocations) + 1
    {
      invocations := invocations + 1;
    }
  }

  /** The collaborator calls the filter makes, in order. */
  datatype Call = Validate(token: string) | CheckRevoked(token: string) | Load(token: string)

  /** What one request does: the calls, and whether it returns normally with
      an identity to attach (or none) or throws out of the filter. */
  datatype Decision = Decision(calls: seq<Call>, outcome: Result<Option<Authentication>, AuthError>)

  /** The token of an `Authorization` header: the text after a leading
      "Bearer " (7 characters, case-sensitive); none for a missing header or
      any other scheme. */
  function BearerToken(header: Option<string>): (t: Option<string>)
    ensures t.Some? <==> header.Some? && StartsWith(header.value, BEARER)
    ensures t.Some? ==> header.value == BEARER + t.value
  {
    if header.Some? && StartsWith(header.value, BEARER) then
      assert header.value == header.value[..|BEARER|] + header.value[|BEARER|..];
      Some(header.value[|BEARER|..])
    else None
  }

  lemma BearerTokenOf(token: string)
    ensures BearerToken(Some(BEARER + token)) == Some(token)
  {
    StartsWithPrefix(BEARER + token, BEARER, token);
  }

  /** The filter's decision as the code makes it: a valid, unrevoked token is
      turned into an authentication, and a failure of that lookup escapes. */
  function Decide(header: Option<string>, p: JwtTokenProvider, revoked: seq<RevokedToken>,
                  users: seq<UserRecord>, now: nat): Decision
    reads p
    requires p.Ready()
  {
    match BearerToken(header)
    case None => Decision([], Ok(None))
    case Some(t) =>
      if !p.ValidateToken(t, now) then Decision([Validate(t)], Ok(None))
      else if Contains(revoked, t) then Decision([Validate(t), CheckRevoked(t)], Ok(None))
      else
        var calls := [Validate(t), CheckRevoked(t), Load(t)];
        match p.GetAuthentication(t, now, users)
        case Ok(a) => Decision(calls, Ok(Some(a)))
        case Err(e) => Decision(calls, Err(e))
  }

  /** The three short-circuit exits of `Decide`, one per test that fails. */
  lemma DecideCases(header: Option<string>, p: JwtTokenProvider, revoked: seq<RevokedToken>,
                    users: seq<UserRecord>, now: nat)
    requires p.Ready()
    ensures var d := Decide(header, p, revoked, users, now);
            var bt := BearerToken(header);
            && (bt.None? ==> d == Decision([], Ok(None)))
            && (bt.Some? && !p.ValidateToken(bt.value, now) ==> d == Decision([Validate(bt.value)], Ok(None)))
            && (bt.Some? && p.ValidateToken(bt.value, now) && Contains(revoked, bt.value) ==>
                  d == Decision([Validate(bt.value), CheckRevoked(bt.value)], Ok(None)))
            && (bt.Some? && p.ValidateToken(bt.value, now) && !Contains(revoked, bt.value) ==>
                  && d.calls == [Validate(bt.value), CheckRevoked(bt.value), Load(bt.value)]
                  && var a := p.GetAuthentication(bt.value, now, users);
                     d.outcome == if a.Ok? then Ok(Some(a.value)) else Err(a.error))
  {
  }

  /** `doFilterInternal` as written: sets the context to `getAuthentication`'s
      value when the token is valid and not revoked, then continues the chain;
      an exception from `getAuthentication` leaves the filter before the chain
      is reached. */
  method DoFilterInternal(header: Option<string>, provider: JwtTokenProvider, revoked: RevokedTokenRepository,
                          users: UserRepository, now: nat, ctx: SecurityContext, chain: FilterChain)
    returns (calls: seq<Call>, thrown: Option<AuthError>)
    requires provider.Ready()
    modifies ctx, chain
    ensures var d := old(Decide(header, provider, revoked.rows, users.rows, now));
            && calls == d.calls
            && (d.outcome.Ok? ==> thrown == None && chain.invocations == old(chain.invocations) + 1)
            && (d.outcome.Err? ==> thrown == Some(d.outcome.error) && chain.invocations == old(chain.invocations))
            && ctx.authentication == if d.outcome.Ok? && d.outcome.value.Some? then d.outcome.value
                                     else old(ctx.authentication)
  {
    ghost var d := Decide(header, provider, revoked.rows, users.rows, now);
    DecideCases(header, provider, revoked.rows, users.rows, now);
    calls, thrown := [], None;
    var token := BearerToken(header);
    if token.Some? {
      var t := token.value;
      calls := [Validate(t)];
      var valid := provider.ValidateToken(t, now);
      if valid {
        calls := [Validate(t), CheckRevoked(t)];
        var isRevoked := revoked.ExistsByToken(t);
        if !isRevoked {
          calls := [Validate(t), CheckRevoked(t), Load(t)];
          var a := provider.GetAuthentication(t, now, users.rows);
          if a.Err? {
            assert d == Decision(calls, Err(a.error));
            thrown := Some(a.error);
            return;
          }
          assert d == Decision(calls, Ok(Some(a.value)));
          ctx.authentication := Some(a.value);
        } else {
          assert d == Decision(calls, Ok(None));
        }
      } else {
        assert d == Decision(calls, Ok(None));
      }
    } else {
      assert d == Decision([], Ok(None));
    }
    chain.DoFilter();
  }

  /** The intended decision: a failed lookup leaves the request anonymous. */
  function DecideGuarded(header: Option<string>, p: JwtTokenProvider, revoked: seq<RevokedToken>,
                         users: seq<UserRecord>, now: nat): (d: Decision)
    reads p
    requires p.Ready()
    ensures d.outcome.Ok?
    ensures d.calls == Decide(header, p, revoked, users, now).calls
    ensures Decide(header, p, revoked, users, now).outcome.Ok? ==> d == Decide(header, p, revoked, users, now)
  {
    var d := Decide(header, p, revoked, users, now);
    if d.outcome.Err? then d.(outcome := Ok(None)) else d
  }

  /** The filter with the lookup failure caught: the chain is continued on
      every request, and the context changes only to attach an identity. */
  method DoFilterInternalGuarded(header: Option<string>, provider: JwtTokenProvider, revoked: RevokedTokenRepository,
                                 users: UserRepository, now: nat, ctx: SecurityContext, chain: FilterChain)
    returns (calls: seq<Call>)
    requires provider.Ready()
    modifies ctx, chain
    ensures chain.invocations == old(chain.invocations) + 1
    ensures var d := old(DecideGuarded(header, provider, revoked.rows, users.rows, now));
            && calls == d.calls
            && ctx.authentication == if d.outcome.value.Some? then d.outcome.value else old(ctx.authentication)
  {
    var thrown;
    calls, thrown := DoFilterInternal(header, provider, revoked, users, now, ctx, chain);
    if thrown.Some? {
      chain.DoFilter();
    }
  }

  /** Without a bearer header nothing is called and nothing is attached. */
  lemma NoBearerNoCalls(header: Option<string>, p: JwtTokenProvider, revoked: seq<RevokedToken>,
                        users: seq<UserRecord>, now: nat)
    requires p.Ready()
    requires header.None? || !StartsWith(header.value, BEARER)
    ensures Decide(header, p, revoked, users, now) == Decision([], Ok(None))
  {
  }

  /** An invalid token is checked once and then ignored; the user lookup is never made. */
  lemma InvalidTokenNotLoaded(token: string, p: JwtTokenProvider, revoked: seq<RevokedToken>,
                              users: seq<UserRecord>, now: nat)
    requires p.Ready() && !p.ValidateToken(token, now)
    ensures Decide(Some(BEARER + token), p, revoked, users, now) == Decision([Validate(token)], Ok(None))
  {
    BearerTokenOf(token);
  }

  /** A valid but revoked token leaves the request anonymous, and
      `getAuthentication` is never called for it. */
  lemma RevokedTokenNotLoaded(token: string, p: JwtTokenProvider, revoked: seq<RevokedToken>,
                              users: seq<UserRecord>, now: nat)
    requires p.Ready() && p.ValidateToken(token, now) && Contains(revoked, token)
    ensures Decide(Some(BEARER + token), p, revoked, users, now) ==
            Decision([Validate(token), CheckRevoked(token)], Ok(None))
  {
    BearerTokenOf(token);
  }

  /** An identity is attached exactly for a bearer token that is valid, not
      revoked and whose user is found, and it is `getAuthentication`'s value. */
  lemma AttachesExactly(header: Option<string>, p: JwtTokenProvider, revoked: seq<RevokedToken>,
                        users: seq<UserRecord>, now: nat)
    requires p.Ready()
    ensures var d := Decide(header, p, revoked, users, now);
            (d.outcome.Ok? && d.outcome.value.Some?) <==>
              && BearerToken(header).Some?
              && p.ValidateToken(BearerToken(header).value, now)
              && !Contains(revoked, BearerToken(header).value)
              && p.GetAuthentication(BearerToken(header).value, now, users).Ok?
    ensures var d := Decide(header, p, revoked, users, now);
            d.outcome.Ok? && d.outcome.value.Some? ==>
              d.outcome.value == Some(p.GetAuthentication(BearerToken(header).value, now, users).value)
  {
  }

  /** A live access token issued to a stored user, and not revoked, attaches
      that user's details with the roles the table holds now. */
  lemma IssuedTokenAuthenticates(p: JwtTokenProvider, u: UserRecord, revoked: seq<RevokedToken>,
                                 users: seq<UserRecord>, issuedAt: nat, now: nat)
    requires p.Ready()
    requires FindBy(users, Username, u.username) == Some(u)
    requires now <= ((issuedAt + p.accessTokenValidityInMs) / 1000) * 1000
    requires !Contains(revoked, p.GenerateAccessToken(u.username, issuedAt))
    ensures Decide(Some(BEARER + p.GenerateAccessToken(u.username, issuedAt)), p, revoked, users, now).outcome ==
            Ok(Some(Authentication(DetailsOf(u), u.roles)))
  {
    BearerTokenOf(p.GenerateAccessToken(u.username, issuedAt));
  }

  /** The gate, as written, does not continue the chain for a live token whose
      subject is no longer in the user table: the lookup's exception escapes. */
  lemma DeletedUserAbortsRequest(p: JwtTokenProvider, name: string, now: nat)
    requires p.Ready() && p.accessTokenValidityInMs >= 1000
    ensures Decide(Some(BEARER + p.GenerateAccessToken(name, now)), p, [], [], now).outcome ==
            Err(UserMissing(UsernameNotFound(NOT_FOUND_PREFIX + name)))
  {
    var t := p.GenerateAccessToken(name, now);
    BearerTokenOf(t);
    FreshTokenValidates(p.key.value, name, ACCESS, now, p.accessTokenValidityInMs);
  }

  /** With the guard, the same request continues anonymously. */
  lemma DeletedUserGuardedContinues(p: JwtTokenProvider, name: string, now: nat)
    requires p.Ready() && p.accessTokenValidityInMs >= 1000
    ensures DecideGuarded(Some(BEARER + p.GenerateAccessToken(name, now)), p, [], [], now).outcome == Ok(None)
  {
    DeletedUserAbortsRequest(p, name, now);
  }
}
