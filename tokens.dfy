/** `JwtTokenProvider`: issuing, validating and reading bearer tokens.

    A token is a claim set {sub, iat, exp, type} bound to the server key
    (RFC 7519: "sub" section 4.1.2, "exp" section 4.1.4, "iat" section 4.1.6).
    The HMAC signature of the JWS is represented by the key itself: the
    signature check is key equality. The compact serialisation is replaced by
    a length-prefixed string encoding that this module proves decodable.
    Times given to the provider are milliseconds; "iat" and "exp" hold
    seconds, as a NumericDate does (RFC 7519 section 2), truncating. */
module Tokens {
  import opened Wrappers
  import opened Text
  import opened Decimal
  import opened Users
  import opened UserDetails

  /** The HMAC key as an opaque tag. */
  datatype Key = Key(material: string)

  /** `init`: the key made from the configured secret (decoding and key
      strength checks are left out). */
  function KeyFor(secret: string): Key {
    Key(secret)
  }

  datatype Claims = Claims(sub: string, iat: nat, exp: nat, typ: string)

  /** A decoded token: its claims and the key it was signed with. */
  datatype Signed = Signed(claims: Claims, signature: Key)

  const ACCESS := "access"
  const REFRESH := "refresh"

  function Field(s: string): string {
    Digits(|s|) + [':'] + s
  }

  function Number(n: nat): string {
    Digits(n) + ['.']
  }

  /** The token string of a signed claim set. */
  function Compact(c: Claims, k: Key): string {
    Field(c.sub) + (Number(c.iat) + (Number(c.exp) + (Field(c.typ) + Field(k.material))))
  }

  function ParseField(s: string): (r: Option<(string, string)>)
    ensures r.Some? ==> |r.value.1| < |s|
  {
    match ParseNat(s, ':')
    case None => None
    case Some((n, rest)) => if n <= |rest| then Some((rest[..n], rest[n..])) else None
  }

  lemma ParseFieldOf(s: string, rest: string)
    ensures ParseField(Field(s) + rest) == Some((s, rest))
  {
    assert Field(s) + rest == Digits(|s|) + [':'] + (s + rest);
    ParseNatOfDigits(|s|, ':', s + rest);
    assert (s + rest)[..|s|] == s;
    assert (s + rest)[|s|..] == rest;
  }

  /** Decodes a token string; `None` for anything that is not a whole encoding. */
  function Parse(t: string): Option<Signed> {
    match ParseField(t)
    case None => None
    case Some((sub, r1)) =>
      match ParseNat(r1, '.')
      case None => None
      case Some((iat, r2)) =>
        match ParseNat(r2, '.')
        case None => None
        case Some((exp, r3)) =>
          match ParseField(r3)
          case None => None
          case Some((typ, r4)) =>
            match ParseField(r4)
            case None => None
            case Some((material, r5)) =>
              if r5 == [] then Some(Signed(Claims(sub, iat, exp, typ), Key(material))) else None
  }

  /** Decoding an encoded token gives back its claims and key. */
  lemma {:induction false} ParseCompact(c: Claims, k: Key)
    ensures Parse(Compact(c, k)) == Some(Signed(c, k))
  {
    var r4 := Field(k.material);
    var r3 := Field(c.typ) + r4;
    var r2 := Number(c.exp) + r3;
    var r1 := Number(c.iat) + r2;
    ParseFieldOf(c.sub, r1);
    ParseNatOfDigits(c.iat, '.', r2);
    ParseNatOfDigits(c.exp, '.', r3);
    ParseFieldOf(c.typ, r4);
    ParseFieldOf(k.material, []);
    assert r4 + [] == r4;
  }

  lemma CompactInjective(c1: Claims, k1: Key, c2: Claims, k2: Key)
    requires (c1, k1) != (c2, k2)
    ensures Compact(c1, k1) != Compact(c2, k2)
  {
    ParseCompact(c1, k1);
    ParseCompact(c2, k2);
  }

  /** The claims issued at clock `now` (ms) for a lifetime of `ttl` ms. */
  function IssuedClaims(subject: string, typ: string, now: nat, ttl: nat): Claims {
    Claims(subject, now / 1000, (now + ttl) / 1000, typ)
  }

  /** The builder chain shared by both generators. */
  function Issue(k: Key, subject: string, typ: string, now: nat, ttl: nat): (t: string)
    ensures Parse(t) == Some(Signed(IssuedClaims(subject, typ, now, ttl), k))
    ensures HasText(t)
  {
    ParseCompact(IssuedClaims(subject, typ, now, ttl), k);
    CompactHasText(IssuedClaims(subject, typ, now, ttl), k);
    Compact(IssuedClaims(subject, typ, now, ttl), k)
  }

  /** Why `parseSignedClaims` throws: `Blank` is jjwt's
      `IllegalArgumentException` for a null, empty or all-whitespace string,
      the others are `JwtException`s. */
  datatype JwtError = Blank | Malformed | SignatureMismatch | Expired

  /** Every token string starts with a digit, so it is never blank. */
  lemma CompactHasText(c: Claims, k: Key)
    ensures HasText(Compact(c, k))
  {
    var t := Compact(c, k);
    assert t[0] == Digits(|c.sub|)[0];
    assert IsDigit(t[0]);
  }

  /** Whatever decodes starts with a digit, so blank strings never decode. */
  lemma ParsedHasText(t: string)
    ensures Parse(t).Some? ==> HasText(t)
  {
    if Parse(t).Some? {
      assert DigitSpan(t) > 0;
      assert IsDigit(t[0]);
    }
  }

  /** `Jwts.parser().verifyWith(key).build().parseSignedClaims(token).getPayload()`:
      the signature must be the key, and the token is expired once the clock
      is past "exp" (no clock skew is configured). */
  function ParseSignedClaims(t: string, k: Key, now: nat): (r: Result<Claims, JwtError>)
    ensures r.Ok? <==> Parse(t).Some? && Parse(t).value.signature == k && now <= Parse(t).value.claims.exp * 1000
    ensures r.Ok? ==> Parse(t) == Some(Signed(r.value, k))
    ensures r == Err(Blank) <==> !HasText(t)
    ensures r == Err(Malformed) <==> HasText(t) && Parse(t).None?
  {
    ParsedHasText(t);
    if !HasText(t) then Err(Blank)
    else match Parse(t)
    case None => Err(Malformed)
    case Some(sc) =>
      if sc.signature != k then Err(SignatureMismatch)
      else if now > sc.claims.exp * 1000 then Err(Expired)
      else Ok(sc.claims)
  }

  /** `UsernamePasswordAuthenticationToken(userDetails, null, authorities)`. */
  datatype Authentication = Authentication(principal: Details, authorities: set<string>) {
    function Name(): string { principal.username }
  }

  /** What `getAuthentication` throws: a parse failure, or the lookup's
      `UsernameNotFoundException`. */
  datatype AuthError = TokenRejected(jwt: JwtError) | UserMissing(notFound: NotFound)

  class JwtTokenProvider {
    const base64secret: string
    const accessTokenValidityInMs: nat
    const refreshTokenValidityInMs: nat
    var key: Option<Key>

    /** The injected configuration; the key is set by `Init`. */
    constructor (secret: string, accessTtl: nat, refreshTtl: nat)
      ensures base64secret == secret && accessTokenValidityInMs == accessTtl
      ensures refreshTokenValidityInMs == refreshTtl && key == None
    {
      base64secret, accessTokenValidityInMs, refreshTokenValidityInMs := secret, accessTtl, refreshTtl;
      key := None;
    }

    /** `@PostConstruct init`: writes the key once. */
    method Init()
      modifies this
      ensures Ready()
    {
      key := Some(KeyFor(base64secret));
    }

    /** The provider after `init`, the only state the container hands it out in. */
    predicate Ready()
      reads this
    {
      key == Some(KeyFor(base64secret))
    }

    function GenerateAccessToken(name: string, now: nat): (t: string)
      reads this
      requires Ready()
      ensures Parse(t) == Some(Signed(Claims(name, now / 1000, (now + accessTokenValidityInMs) / 1000, ACCESS), key.value))
    {
      Issue(key.value, name, ACCESS, now, accessTokenValidityInMs)
    }

    function GenerateRefreshToken(name: string, now: nat): (t: string)
      reads this
      requires Ready()
      ensures Parse(t) == Some(Signed(Claims(name, now / 1000, (now + refreshTokenValidityInMs) / 1000, REFRESH), key.value))
    {
      Issue(key.value, name, REFRESH, now, refreshTokenValidityInMs)
    }

    /** `validateToken`: total, true exactly for a well-formed token signed with
        this provider's key and not yet expired; the type claim plays no part. */
    function ValidateToken(t: string, now: nat): (ok: bool)
      reads this
      requires Ready()
      ensures ok <==> Parse(t).Some? && Parse(t).value.signature == key.value && now <= Parse(t).value.claims.exp * 1000
    {
      ParseSignedClaims(t, key.value, now).Ok?
    }

    /** `getClaims`: the claims of a valid token; throws otherwise. */
    function GetClaims(t: string, now: nat): (r: Result<Claims, JwtError>)
      reads this
      requires Ready()
      ensures r.Ok? <==> ValidateToken(t, now)
      ensures r.Ok? ==> Parse(t) == Some(Signed(r.value, key.value))
    {
      ParseSignedClaims(t, key.value, now)
    }

    /** `getUsername`: the subject of a valid token; throws otherwise. */
    function GetUsername(t: string, now: nat): (r: Result<string, JwtError>)
      reads this
      requires Ready()
      ensures r.Ok? <==> ValidateToken(t, now)
      ensures r.Ok? ==> r.value == Parse(t).value.claims.sub
    {
      match GetClaims(t, now)
      case Ok(c) => Ok(c.sub)
      case Err(e) => Err(e)
    }

    /** `getAuthentication`: the token's subject looked up in the user table as
        it is now; the authorities come from that lookup, never from the token. */
    function GetAuthentication(t: string, now: nat, users: seq<UserRecord>): (r: Result<Authentication, AuthError>)
      reads this
      requires Ready()
      ensures !ValidateToken(t, now) ==> r.Err? && r.error.TokenRejected?
      ensures ValidateToken(t, now) ==>
                var loaded := LoadUserByUsername(users, Parse(t).value.claims.sub).result;
                && (loaded.Ok? ==> r == Ok(Authentication(loaded.value, loaded.value.authorities)))
                && (loaded.Err? ==> r == Err(UserMissing(loaded.error)))
    {
      match GetClaims(t, now)
      case Err(e) => Err(TokenRejected(e))
      case Ok(c) =>
        match LoadUserByUsername(users, c.sub).result
        case Ok(d) => Ok(Authentication(d, d.authorities))
        case Err(nf) => Err(UserMissing(nf))
    }
  }

  lemma FloorToSecond(x: nat)
    ensures x - 1000 < (x / 1000) * 1000 <= x
  {
  }

  /** exp − iat (in ms) is the lifetime exactly when the lifetime is whole
      seconds, and within a second of it otherwise. */
  lemma IssuedLifetime(subject: string, typ: string, now: nat, ttl: nat)
    ensures var c := IssuedClaims(subject, typ, now, ttl);
            && c.sub == subject && c.typ == typ
            && ttl - 1000 < c.exp * 1000 - c.iat * 1000 < ttl + 1000
            && (ttl % 1000 == 0 ==> c.exp * 1000 - c.iat * 1000 == ttl)
  {
    FloorToSecond(now);
    FloorToSecond(now + ttl);
    if ttl % 1000 == 0 {
      var q := ttl / 1000;
      assert ttl == q * 1000;
      assert (now + ttl) / 1000 == now / 1000 + q by {
        assert now + ttl == (now / 1000 + q) * 1000 + now % 1000;
      }
    }
  }

  /** Issuing a second or more later gives strictly later "iat" and "exp",
      hence a different token. */
  lemma LaterIssueIsLater(k: Key, subject: string, typ: string, t1: nat, t2: nat, ttl: nat)
    requires t1 + 1000 <= t2
    ensures IssuedClaims(subject, typ, t2, ttl).iat > IssuedClaims(subject, typ, t1, ttl).iat
    ensures IssuedClaims(subject, typ, t2, ttl).exp > IssuedClaims(subject, typ, t1, ttl).exp
    ensures Issue(k, subject, typ, t1, ttl) != Issue(k, subject, typ, t2, ttl)
  {
    FloorToSecond(t1);
    FloorToSecond(t2);
    FloorToSecond(t1 + ttl);
    FloorToSecond(t2 + ttl);
    CompactInjective(IssuedClaims(subject, typ, t1, ttl), k, IssuedClaims(subject, typ, t2, ttl), k);
  }

  /** An issued token is accepted by a key and clock exactly when the key is
      the issuing key and the clock is not past "exp". */
  lemma {:induction false} IssuedTokenValidity(k: Key, k2: Key, subject: string, typ: string, now: nat, ttl: nat, later: nat)
    ensures ParseSignedClaims(Issue(k, subject, typ, now, ttl), k2, later).Ok? <==>
            k2 == k && later <= ((now + ttl) / 1000) * 1000
    ensures ParseSignedClaims(Issue(k, subject, typ, now, ttl), k2, later).Ok? ==>
            ParseSignedClaims(Issue(k, subject, typ, now, ttl), k2, later).value == IssuedClaims(subject, typ, now, ttl)
  {
  }

  /** A token checked when it is issued validates, provided its lifetime is at
      least a second (a shorter one may already be past its truncated "exp"). */
  lemma FreshTokenValidates(k: Key, subject: string, typ: string, now: nat, ttl: nat)
    requires ttl >= 1000
    ensures ParseSignedClaims(Issue(k, subject, typ, now, ttl), k, now) == Ok(IssuedClaims(subject, typ, now, ttl))
  {
    FloorToSecond(now + ttl);
  }

  /** Once the lifetime has passed, the token is rejected as expired. */
  lemma ExpiredAfterLifetime(k: Key, subject: string, typ: string, now: nat, ttl: nat, later: nat)
    requires later > now + ttl
    ensures ParseSignedClaims(Issue(k, subject, typ, now, ttl), k, later) == Err(Expired)
  {
    FloorToSecond(now + ttl);
  }

  /** A token signed with another key is rejected, whatever the clock. */
  lemma ForeignKeyRejected(k: Key, k2: Key, subject: string, typ: string, now: nat, ttl: nat, later: nat)
    requires k != k2
    ensures ParseSignedClaims(Issue(k, subject, typ, now, ttl), k2, later) == Err(SignatureMismatch)
  {
  }

  /** A string that is not a token, such as "not.a.token", is rejected as malformed. */
  lemma MalformedRejected(k: Key, now: nat)
    ensures ParseSignedClaims("not.a.token", k, now) == Err(Malformed)
  {
    assert !IsJavaWhitespace("not.a.token"[0]);
    assert DigitSpan("not.a.token") == 0;
  }

  /** The empty string is rejected before any parsing. */
  lemma BlankRejected(k: Key, now: nat)
    ensures ParseSignedClaims("", k, now) == Err(Blank)
  {
  }

  /** Validity does not look at the type claim: an access and a refresh token
      with the same subject, times and key are accepted or rejected together. */
  lemma {:induction false} TypeClaimIgnored(c: Claims, k: Key, k2: Key, now: nat, typ: string)
    ensures ParseSignedClaims(Compact(c, k), k2, now).Ok? == ParseSignedClaims(Compact(c.(typ := typ), k), k2, now).Ok?
  {
    ParseCompact(c, k);
    ParseCompact(c.(typ := typ), k);
    CompactHasText(c, k);
    CompactHasText(c.(typ := typ), k);
  }

  /** The subject round trip: the username read back from an issued token is
      the name it was issued for, for either type, while the token is live. */
  lemma UsernameRoundTrip(p: JwtTokenProvider, name: string, typ: string, now: nat, ttl: nat, later: nat)
    requires p.Ready()
    requires later <= ((now + ttl) / 1000) * 1000
    ensures p.GetUsername(Issue(p.key.value, name, typ, now, ttl), later) == Ok(name)
  {
  }

  /** Rotating the signing key rejects every token issued under the old one. */
  lemma KeyRotationRejects(p: JwtTokenProvider, q: JwtTokenProvider, name: string, typ: string, now: nat, ttl: nat, later: nat)
    requires p.Ready() && q.Ready() && p.key != q.key
    ensures !q.ValidateToken(Issue(p.key.value, name, typ, now, ttl), later)
  {
  }
}
