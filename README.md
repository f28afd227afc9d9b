# KidsGPT backend: authentication pipeline, in Dafny

This project models the request-authentication pipeline of the KidsGPT Spring Boot
backend and proves properties of it. The pipeline covers:

- the JWT codec in `JwtTokenProvider`: issuing access and refresh tokens, validating them and reading their claims;
- the bearer-token gate in `JwtAuthenticationFilter`;
- the revoked-token table;
- the user-details lookup;
- registration, login and logout in `AuthServiceImpl` and `AuthController`;
- the route table of `SecurityConfig`.

It also models the smaller rules around the pipeline:

- the exception-to-HTTP mapping of `GlobalExceptionHandler`;
- the `User` entity's lifecycle callbacks;
- `UserMapper`;
- the role seeding in `DataInitializer`;
- the status snapshot of `SystemStatusService`;
- the orchestration of `AiChatServiceImpl.chat`.

Each modelled source class becomes one module, plus four helper modules (`Wrappers`, `Text`, `Decimal`, `Exceptions`) with no source class of their own. Where the source changes state in place, the module holds a `class`:

- the provider's key;
- the revoked-token, user and role tables;
- the `User` entity;
- the security context and the filter chain;
- the chat stores.

Pure rules become functions, and each function's properties are proved as lemmas.

A token is modelled by a concrete encoding that can be read back:

- The claims `sub`, `iat` and `exp` follow sections 4.1.2, 4.1.6 and 4.1.4 of RFC 7519. The encoding also carries the private `type` claim and an opaque key tag standing for the signature.
- Each field is length-prefixed, and the decoder is proved to invert the encoder.
- Signing is modelled as attaching the key tag. Verification is key equality.
- `iat` and `exp` are whole seconds (RFC 7519 NumericDate). jjwt truncates `Date` values to seconds.
- A token is expired when the clock in milliseconds is past `exp * 1000`.

Some inputs become explicit parameters:

- the clock (milliseconds);
- the password encoder;
- the authentication manager's outcome;
- the random template index;
- the user's age text;
- the moderation model and the chat model (as oracles).

Where the source iterates over a `Set`, the iteration order is also a parameter, constrained to list each element once.

## Model

| member | source | states |
|---|---|---|
| Text.HasTextIff | src/main/java/uk/gegc/kidsgptbackend/systemstatus/SystemStatusService.java:39 | `StringUtils.hasText` holds exactly when some character is not Java whitespace |
| Text.StartsWithPrefix | src/main/java/uk/gegc/kidsgptbackend/security/JwtAuthenticationFilter.java:27-28 | a string built as prefix + rest starts with the prefix, and cutting the prefix's length off gives back the rest |
| Decimal.Digits | src/main/java/uk/gegc/kidsgptbackend/security/JwtTokenProvider.java:51-57 | the decimal rendering of a number claim is non-empty and all digits |
| Decimal.ValueOfDigits | src/main/java/uk/gegc/kidsgptbackend/security/JwtTokenProvider.java:51-57 | reading back the rendered digits gives the number (round trip) |
| Decimal.DigitSpan | src/main/java/uk/gegc/kidsgptbackend/security/JwtTokenProvider.java:74-78 | the scanned digit run is a maximal prefix of digits |
| Decimal.ParseNatOfDigits | src/main/java/uk/gegc/kidsgptbackend/security/JwtTokenProvider.java:74-78 | a number followed by its terminator parses back to that number and the remaining text |
| Tokens.ParseFieldOf | src/main/java/uk/gegc/kidsgptbackend/security/JwtTokenProvider.java:51-57 | a length-prefixed field is read back exactly, leaving the text after it |
| Tokens.ParseCompact | src/main/java/uk/gegc/kidsgptbackend/security/JwtTokenProvider.java:51-78 | decoding a compact token gives back its claims and the key it was signed with |
| Tokens.CompactInjective | src/main/java/uk/gegc/kidsgptbackend/security/JwtTokenProvider.java:51-57 | different claims or keys give different tokens |
| Tokens.Issue | src/main/java/uk/gegc/kidsgptbackend/security/JwtTokenProvider.java:47-71 | an issued token decodes to sub = name, iat = now in seconds, exp = (now + TTL) in seconds, and the type claim, signed with the key; it is never blank |
| Tokens.CompactHasText | src/main/java/uk/gegc/kidsgptbackend/security/JwtTokenProvider.java:51-57 | every compact token has text |
| Tokens.ParsedHasText | src/main/java/uk/gegc/kidsgptbackend/security/JwtTokenProvider.java:74-78 | any string that decodes has text, so a blank string never decodes |
| Tokens.ParseSignedClaims | src/main/java/uk/gegc/kidsgptbackend/security/JwtTokenProvider.java:74-91 | the parser accepts exactly when the token decodes, carries the verifying key and is not past exp. It fails with Blank exactly on a string without text and with Malformed exactly on text that does not decode |
| Tokens.JwtTokenProvider.Init | src/main/java/uk/gegc/kidsgptbackend/security/JwtTokenProvider.java:41-45 | after `init` the key is the one made from the configured secret |
| Tokens.JwtTokenProvider.GenerateAccessToken | src/main/java/uk/gegc/kidsgptbackend/security/JwtTokenProvider.java:47-58 | the token decodes to subject = name, type "access", iat = now/1000 and exp = (now + access TTL)/1000, signed with the provider's key |
| Tokens.JwtTokenProvider.GenerateRefreshToken | src/main/java/uk/gegc/kidsgptbackend/security/JwtTokenProvider.java:60-71 | the same with type "refresh" and the refresh TTL |
| Tokens.JwtTokenProvider.ValidateToken | src/main/java/uk/gegc/kidsgptbackend/security/JwtTokenProvider.java:85-96 | total: true exactly when the token decodes, is signed with this key and is not expired; false on every other input |
| Tokens.JwtTokenProvider.GetClaims | src/main/java/uk/gegc/kidsgptbackend/security/JwtTokenProvider.java:107-113 | succeeds exactly on tokens `validateToken` accepts, with the token's own claims; fails on the rest |
| Tokens.JwtTokenProvider.GetUsername | src/main/java/uk/gegc/kidsgptbackend/security/JwtTokenProvider.java:98-105 | succeeds exactly on valid tokens, with their subject |
| Tokens.JwtTokenProvider.GetAuthentication | src/main/java/uk/gegc/kidsgptbackend/security/JwtTokenProvider.java:73-83 | an invalid token is rejected; for a valid one the authentication holds the details and the authorities the user lookup returns now, or the lookup's error |
| Tokens.FloorToSecond | src/main/java/uk/gegc/kidsgptbackend/security/JwtTokenProvider.java:48-49 | truncating milliseconds to whole seconds loses less than one second |
| Tokens.IssuedLifetime | src/main/java/uk/gegc/kidsgptbackend/security/JwtTokenProvider.java:47-71 | sub and type are as issued; exp − iat is within a second of the TTL, and equal to it for a whole-second TTL |
| Tokens.LaterIssueIsLater | src/main/java/uk/gegc/kidsgptbackend/security/JwtTokenProvider.java:48-49 | issuing a second or more later gives strictly later iat and exp, and a different token |
| Tokens.IssuedTokenValidity | src/main/java/uk/gegc/kidsgptbackend/security/JwtTokenProvider.java:85-96 | an issued token parses under a key exactly when it is that key and the clock is not past exp; it then yields the issued claims |
| Tokens.FreshTokenValidates | src/main/java/uk/gegc/kidsgptbackend/security/JwtTokenProvider.java:85-92 | a token just issued with a TTL of at least one second parses under its own key |
| Tokens.ExpiredAfterLifetime | src/main/java/uk/gegc/kidsgptbackend/security/JwtTokenProvider.java:93-95 | past its lifetime a token fails as Expired |
| Tokens.ForeignKeyRejected | src/main/java/uk/gegc/kidsgptbackend/security/JwtTokenProvider.java:93-95 | under another key a token fails as SignatureMismatch |
| Tokens.MalformedRejected | src/main/java/uk/gegc/kidsgptbackend/security/JwtTokenProvider.java:93-95 | "not.a.token" fails as Malformed |
| Tokens.BlankRejected | src/main/java/uk/gegc/kidsgptbackend/security/JwtTokenProvider.java:93-95 | the empty string fails as Blank |
| Tokens.TypeClaimIgnored | src/main/java/uk/gegc/kidsgptbackend/security/JwtTokenProvider.java:85-96 | changing only the type claim never changes whether a token is accepted |
| Tokens.UsernameRoundTrip | src/main/java/uk/gegc/kidsgptbackend/security/JwtTokenProvider.java:98-105 | `getUsername` of a live token issued for a name, of either type, is that name |
| Tokens.KeyRotationRejects | src/main/java/uk/gegc/kidsgptbackend/security/JwtTokenProvider.java:85-96 | a provider holding a different signing key rejects the token |
| Revocation.Contains | src/main/java/uk/gegc/kidsgptbackend/repository/auth/RevokedTokenRepository.java:12 | holds exactly when some stored record has exactly this token |
| Revocation.Unexpired | src/main/java/uk/gegc/kidsgptbackend/repository/auth/RevokedTokenRepository.java:13 | keeps exactly the records whose expiry is not before the time, and nothing new |
| Revocation.UnexpiredUnique | src/main/java/uk/gegc/kidsgptbackend/model/auth/RevokedToken.java:22 | purging keeps the table free of duplicate tokens |
| Revocation.PurgeMonotone | src/main/java/uk/gegc/kidsgptbackend/repository/auth/RevokedTokenRepository.java:13 | a later purge time keeps no more records |
| Revocation.RevokedTokenRepository.Save | src/main/java/uk/gegc/kidsgptbackend/model/auth/RevokedToken.java:22-25 | the insert succeeds exactly for a new token of at most 512 characters and appends the record; otherwise the table is unchanged, and the error is the length violation for a token over 512 characters and the unique violation otherwise |
| Revocation.RevokedTokenRepository.DeleteByExpiresAtBefore | src/main/java/uk/gegc/kidsgptbackend/repository/auth/RevokedTokenRepository.java:13 | removes exactly the records with expiry strictly before the time, keeps the rest in order, and returns how many were removed |
| Revocation.PurgeKeepsLiveRevocations | src/main/java/uk/gegc/kidsgptbackend/repository/auth/RevokedTokenRepository.java:12-13 | after a purge a token is still revoked exactly when some record for it expires at or after the time |
| Users.ValueOf | src/main/java/uk/gegc/kidsgptbackend/mapper/UserMapper.java:32 | `RoleName.valueOf` finds the constant with that name, or fails when none has it |
| Users.ValueOfName | src/main/java/uk/gegc/kidsgptbackend/mapper/UserMapper.java:32 | `valueOf(r.name())` is `r` |
| Users.RoleNamesComplete | src/main/java/uk/gegc/kidsgptbackend/config/DataInitializer.java:21 | `values()` lists every constant once |
| Users.User.constructor | src/main/java/uk/gegc/kidsgptbackend/model/user/User.java:68-75 | a new user has no id or instants, empty strings and roles, and reports isNew |
| Users.User.MarkNotNew | src/main/java/uk/gegc/kidsgptbackend/model/user/User.java:77-81 | after the load/persist callback isNew is false and nothing else changes |
| Users.User.PrePersist | src/main/java/uk/gegc/kidsgptbackend/model/user/User.java:83-87 | createdAt becomes now, isNew becomes true, nothing else changes |
| Users.User.PreUpdate | src/main/java/uk/gegc/kidsgptbackend/model/user/User.java:89-96 | a live user gets updatedAt = now, a deleted one deletedAt = now, and the other field is left alone |
| Users.FindBy | src/main/java/uk/gegc/kidsgptbackend/security/QuizUserDetailsService.java:27-28 | a lookup finds a stored row with that column value, and fails exactly when there is none |
| Users.UserRepository.Persist | src/main/java/uk/gegc/kidsgptbackend/model/user/User.java:77-87 | the insert of a new user runs prePersist, gets an id, is refused exactly on a taken username (unique column), and leaves the entity not new. A refused insert keeps the table and the id counter, and the entity keeps the id and createdAt that prePersist gave it and stays new |
| Users.RoleRepository.FindByRole | src/main/java/uk/gegc/kidsgptbackend/repository/user/RoleRepository.java:12 | finds the role exactly when its name is stored |
| Users.RoleRepository.Save | src/main/java/uk/gegc/kidsgptbackend/config/DataInitializer.java:24-26 | appends a name exactly when it is not stored yet; a duplicate is a unique violation |
| UserDetails.DetailsOf | src/main/java/uk/gegc/kidsgptbackend/security/QuizUserDetailsService.java:31-44 | details carry the stored username and hash, enabled = isActive, the three other flags true, and one authority per role name |
| UserDetails.LoadUserByUsername | src/main/java/uk/gegc/kidsgptbackend/security/QuizUserDetailsService.java:25-45 | the username lookup comes first and a hit skips the email lookup; a miss tries the email; both missing gives UsernameNotFound with the input in its message |
| UserDetails.EmailHitCarriesStoredUsername | src/main/java/uk/gegc/kidsgptbackend/security/QuizUserDetailsService.java:28-37 | found by email, the details carry the stored username, not the input |
| UserDetails.AuthoritiesFollowCurrentRoles | src/main/java/uk/gegc/kidsgptbackend/security/QuizUserDetailsService.java:31-34 | changing a user's roles in the table changes the authorities of the next lookup to exactly the new roles |
| AuthFilter.BearerToken | src/main/java/uk/gegc/kidsgptbackend/security/JwtAuthenticationFilter.java:27-28 | a token exists exactly for a present header starting with "Bearer ", and it is the header with those 7 characters removed |
| AuthFilter.BearerTokenOf | src/main/java/uk/gegc/kidsgptbackend/security/JwtAuthenticationFilter.java:27-28 | "Bearer " + t yields t |
| AuthFilter.DecideCases | src/main/java/uk/gegc/kidsgptbackend/security/JwtAuthenticationFilter.java:25-33 | no bearer: no calls; invalid token: only validate; revoked: validate and the revocation check; otherwise the load too, with its outcome |
| AuthFilter.DoFilterInternal | src/main/java/uk/gegc/kidsgptbackend/security/JwtAuthenticationFilter.java:24-36 | as written: the context becomes `getAuthentication`'s value exactly for a valid, unrevoked token; the chain is continued once unless the lookup throws, in which case the error leaves the filter |
| AuthFilter.DecideGuarded | src/main/java/uk/gegc/kidsgptbackend/security/JwtAuthenticationFilter.java:29-35 | the corrected decision never throws, makes the same calls, and agrees with the written one whenever that one does not throw |
| AuthFilter.DoFilterInternalGuarded | src/main/java/uk/gegc/kidsgptbackend/security/JwtAuthenticationFilter.java:24-36 | corrected: the chain is continued exactly once on every request, and the context changes only to attach an identity |
| AuthFilter.NoBearerNoCalls | src/main/java/uk/gegc/kidsgptbackend/security/JwtAuthenticationFilter.java:27 | with no header or a non-Bearer header nothing is validated and nothing attached |
| AuthFilter.InvalidTokenNotLoaded | src/main/java/uk/gegc/kidsgptbackend/security/JwtAuthenticationFilter.java:29 | an invalid token stops after validation; neither the revocation table nor the lookup is consulted |
| AuthFilter.RevokedTokenNotLoaded | src/main/java/uk/gegc/kidsgptbackend/security/JwtAuthenticationFilter.java:29 | a valid revoked token attaches nothing and `getAuthentication` is not called |
| AuthFilter.AttachesExactly | src/main/java/uk/gegc/kidsgptbackend/security/JwtAuthenticationFilter.java:29-31 | an identity is attached exactly for a bearer token that is valid, not revoked and whose user loads, and it is `getAuthentication`'s value |
| AuthFilter.IssuedTokenAuthenticates | src/main/java/uk/gegc/kidsgptbackend/security/JwtAuthenticationFilter.java:29-31 | a live, unrevoked access token of a stored user attaches that user's details and current roles |
| AuthFilter.DeletedUserAbortsRequest | src/main/java/uk/gegc/kidsgptbackend/security/JwtAuthenticationFilter.java:29-30 | as written, a live token whose user is not in the table makes the lookup's UsernameNotFound escape |
| AuthFilter.DeletedUserGuardedContinues | src/main/java/uk/gegc/kidsgptbackend/security/JwtAuthenticationFilter.java:29-35 | with the guard, the same request continues anonymously |
| UserMapper.ParseRoles | src/main/java/uk/gegc/kidsgptbackend/mapper/UserMapper.java:29-33 | succeeds exactly when every role name is a RoleName constant, giving the set of those constants; otherwise some name is not one |
| UserMapper.ToDto | src/main/java/uk/gegc/kidsgptbackend/mapper/UserMapper.java:23-38 | copies id, username, email, isActive, createdAt, lastLoginDate and updatedAt; the roles are the parsed names; fails exactly when some role name is not a constant, with that name in the error |
| UserMapper.ToProfileDto | src/main/java/uk/gegc/kidsgptbackend/mapper/UserMapper.java:40-52 | copies id, username and createdAt; role is absent exactly when the user has no roles, and otherwise it is one of the user's roles |
| UserMapper.ToDtoOrderIrrelevant | src/main/java/uk/gegc/kidsgptbackend/mapper/UserMapper.java:29-33 | the DTO does not depend on the order the role set is iterated in |
| UserMapper.ProfileRoleAmongDtoRoles | src/main/java/uk/gegc/kidsgptbackend/mapper/UserMapper.java:41-45 | whichever role the profile shows is one of the DTO's roles |
| DataInitializer.MissingFrom | src/main/java/uk/gegc/kidsgptbackend/config/DataInitializer.java:21-28 | the names to insert are exactly the constants' names not yet present |
| DataInitializer.MissingDistinct | src/main/java/uk/gegc/kidsgptbackend/config/DataInitializer.java:21-28 | each missing name is inserted once |
| DataInitializer.DataInitializer.Run | src/main/java/uk/gegc/kidsgptbackend/config/DataInitializer.java:19-32 | saves exactly the missing role names, in `values()` order, appended to the existing rows, which are unchanged |
| DataInitializer.DataInitializer.InsertIfAbsent | src/main/java/uk/gegc/kidsgptbackend/config/DataInitializer.java:22-28 | one turn of the loop saves the name exactly when it is absent, appending it, and otherwise changes nothing |
| DataInitializer.AllRolesPresentAfterRun | src/main/java/uk/gegc/kidsgptbackend/config/DataInitializer.java:21-28 | after `run` every RoleName has a row |
| DataInitializer.SavesOnlyMissing | src/main/java/uk/gegc/kidsgptbackend/config/DataInitializer.java:23 | names already present are never saved, and the number of saves is the number of missing names |
| DataInitializer.RunIdempotent | src/main/java/uk/gegc/kidsgptbackend/config/DataInitializer.java:21-28 | a second `run` saves nothing |
| DataInitializer.SeedsEmptyTable | src/main/java/uk/gegc/kidsgptbackend/config/DataInitializer.java:21-28 | on an empty table all three names are saved |
| ExceptionHandler.FieldErrors | src/main/java/uk/gegc/kidsgptbackend/controller/advice/GlobalExceptionHandler.java:188-192 | one "field: message" detail per field error, in order |
| ExceptionHandler.Handle | src/main/java/uk/gegc/kidsgptbackend/controller/advice/GlobalExceptionHandler.java:33-212 | the body status is the HTTP status, except that the method-argument handler writes 400 into the body. Each message-carrying kind has its own title and its message as the one detail. The null-message defaults apply. ResponseStatus uses its reason as both title and detail. The two validation handlers list every violation in order. The catch-all for exceptions the modelled code raises answers 500 with the fixed text |
| ExceptionHandler.ClientErrorKindsAre4xx | src/main/java/uk/gegc/kidsgptbackend/controller/advice/GlobalExceptionHandler.java:33-147 | every client-error kind maps to a 4xx status |
| ExceptionHandler.UnexpectedHidesMessage | src/main/java/uk/gegc/kidsgptbackend/controller/advice/GlobalExceptionHandler.java:203-212 | the response to an unexpected exception does not depend on its message |
| ExceptionHandler.DataIntegrityDetail | src/main/java/uk/gegc/kidsgptbackend/controller/advice/GlobalExceptionHandler.java:104-113 | the detail is "Database error: " followed by the cause |
| AuthService.ClaimsFailure | src/main/java/uk/gegc/kidsgptbackend/service/auth/impl/AuthServiceImpl.java:90 | a blank token surfaces as IllegalArgument (400); every other parse failure as an unhandled JWT error (500) |
| AuthService.AuthServiceImpl.Register | src/main/java/uk/gegc/kidsgptbackend/service/auth/impl/AuthServiceImpl.java:43-66 | a taken username gives 409 before the email is looked at; a taken email gives 409; a missing ROLE_PARENT gives IllegalState. None of these saves anything. Otherwise exactly one active user is saved with the encoded password and roles {ROLE_PARENT}, and its DTO is returned |
| AuthService.AuthServiceImpl.Login | src/main/java/uk/gegc/kidsgptbackend/service/auth/impl/AuthServiceImpl.java:68-86 | succeeds exactly when authentication does, returning the provider's access and refresh tokens for the name and both TTLs; an authentication failure gives Unauthorized and any other failure a 401 ResponseStatus, both with the same message |
| AuthService.AuthServiceImpl.Logout | src/main/java/uk/gegc/kidsgptbackend/service/auth/impl/AuthServiceImpl.java:88-96 | an unreadable token fails before anything is stored. A readable one stores exactly one record (the token, expiring at its exp), unless the token is too long (the length violation) or already revoked (the unique violation). Afterwards the token is revoked. Every failure is a 4xx kind or the 500 catch-all |
| AuthService.LoginFailuresLookAlike | src/main/java/uk/gegc/kidsgptbackend/service/auth/impl/AuthServiceImpl.java:81-85 | every failed login is answered 401 with the same detail, so a missing user and a wrong password look alike |
| AuthService.LogoutOfUnreadableToken | src/main/java/uk/gegc/kidsgptbackend/service/auth/impl/AuthServiceImpl.java:90 | a blank token answers 400 and any other unreadable token 500 |
| AuthController.Respond | src/main/java/uk/gegc/kidsgptbackend/controller/AuthController.java:29-38 | a service result becomes the success status with its body, and a service error becomes the handler's response |
| AuthController.Me | src/main/java/uk/gegc/kidsgptbackend/controller/AuthController.java:50-57 | without a principal: 401 and no profile lookup; with one: exactly one lookup, by that username, answered 200 with the profile |
| AuthController.AuthControllerImpl.Register | src/main/java/uk/gegc/kidsgptbackend/controller/AuthController.java:24-31 | 201 exactly when the service registers, with its DTO; otherwise 409 and nothing saved |
| AuthController.AuthControllerImpl.Login | src/main/java/uk/gegc/kidsgptbackend/controller/AuthController.java:33-39 | 200 exactly when authentication succeeds; otherwise 401 with the uniform detail |
| AuthController.AuthControllerImpl.Logout | src/main/java/uk/gegc/kidsgptbackend/controller/AuthController.java:41-48 | a missing or non-Bearer header answers 200 and stores nothing. A bearer header hands the text after "Bearer " to the service. Whenever the service returns normally the answer is 200 |
| AuthController.LogoutRevokesHeaderToken | src/main/java/uk/gegc/kidsgptbackend/controller/AuthController.java:43-45 | the header's token is the text after the 7-character prefix |
| AuthController.LoggedOutTokenRejected | src/main/java/uk/gegc/kidsgptbackend/security/JwtAuthenticationFilter.java:29 | once its record is stored, a still-valid token no longer authenticates a request |
| AuthController.BlankAndExpiredInvalid | src/main/java/uk/gegc/kidsgptbackend/security/JwtTokenProvider.java:85-96 | a blank token, and an issued token past its expiry, never pass validateToken |
| AuthController.UnusableLogoutTokenIs401 | src/main/java/uk/gegc/kidsgptbackend/security/JwtAuthenticationFilter.java:27-35 | a logout whose bearer token is invalid or already revoked leaves the filter anonymous, and the logout route answers 401 (SecurityConfig.java lines 37-38 and 61) |
| SecurityConfig.FirstMatch | src/main/java/uk/gegc/kidsgptbackend/config/SecurityConfig.java:40-61 | finds the first rule that matches, with no earlier match; none when no rule matches |
| SecurityConfig.Required | src/main/java/uk/gegc/kidsgptbackend/config/SecurityConfig.java:40-61 | the first matching rule decides; a request no rule matches needs authentication |
| SecurityConfig.Authorize | src/main/java/uk/gegc/kidsgptbackend/config/SecurityConfig.java:36-38 | 401 exactly for an anonymous request to a route that needs authentication |
| SecurityConfig.NoRuleMatches | src/main/java/uk/gegc/kidsgptbackend/config/SecurityConfig.java:61 | a path matching none of the patterns falls to `anyRequest().authenticated()` |
| SecurityConfig.PublicNotUnderTree | src/main/java/uk/gegc/kidsgptbackend/config/SecurityConfig.java:41-59 | no listed public path lies in one of the GET trees |
| SecurityConfig.PublicPathsOpen | src/main/java/uk/gegc/kidsgptbackend/config/SecurityConfig.java:41-51 | the nine listed paths are public for every method |
| SecurityConfig.MeNeedsAuthentication | src/main/java/uk/gegc/kidsgptbackend/config/SecurityConfig.java:52 | /api/v1/auth/me needs authentication, for GET and every other method |
| SecurityConfig.GetTreesOpen | src/main/java/uk/gegc/kidsgptbackend/config/SecurityConfig.java:53-59 | GET on any of the seven trees or below them is public |
| SecurityConfig.OtherMethodsOnTreesNeedAuthentication | src/main/java/uk/gegc/kidsgptbackend/config/SecurityConfig.java:53-61 | any other method on those paths falls through to the authenticated default |
| SecurityConfig.ChatAndLogoutNeedAuthentication | src/main/java/uk/gegc/kidsgptbackend/config/SecurityConfig.java:61 | /api/v1/chat and /api/v1/auth/logout need authentication for every method |
| SecurityConfig.AnonymousGets401OnProtected | src/main/java/uk/gegc/kidsgptbackend/config/SecurityConfig.java:36-38 | an authenticated request always proceeds; an anonymous one gets 401 exactly on protected routes |
| SystemStatus.Property | src/main/java/uk/gegc/kidsgptbackend/systemstatus/SystemStatusService.java:38 | a missing property reads as "" |
| SystemStatus.KeyStatus | src/main/java/uk/gegc/kidsgptbackend/systemstatus/SystemStatusService.java:39-47 | MISSING exactly without text, PRESENT exactly with text and the "sk-" prefix, INVALID_FORMAT otherwise |
| SystemStatus.MillisToSeconds | src/main/java/uk/gegc/kidsgptbackend/systemstatus/SystemStatusService.java:56 | `long` division of milliseconds by 1000 truncates toward zero on both signs |
| SystemStatus.SystemStatusService.IsDbUp | src/main/java/uk/gegc/kidsgptbackend/systemstatus/SystemStatusService.java:66-84 | false without a "db" contributor or for an unknown kind; an indicator's status is UP; a composite is up exactly when no child indicator is down, skipping other children |
| SystemStatus.SystemStatusService.GetStatus | src/main/java/uk/gegc/kidsgptbackend/systemstatus/SystemStatusService.java:32-62 | db is UP exactly when the database is up, else DOWN; the key is classified; overall is UP exactly when the database is up and the key has the prefix; app is UP; uptime is (now − start) / 1000, truncated; version and timestamp copied |
| SystemStatus.OverallFollowsComponents | src/main/java/uk/gegc/kidsgptbackend/systemstatus/SystemStatusService.java:44-54 | overall is UP exactly when db is UP and the key is PRESENT |
| SystemStatus.PrefixedKeyHasText | src/main/java/uk/gegc/kidsgptbackend/systemstatus/SystemStatusService.java:40 | a key with the "sk-" prefix has text, so it is PRESENT |
| SystemStatus.AbsentKeyIsMissing | src/main/java/uk/gegc/kidsgptbackend/systemstatus/SystemStatusService.java:38-39 | an unset key is MISSING |
| SystemStatus.NoDatabaseIsDown | src/main/java/uk/gegc/kidsgptbackend/systemstatus/SystemStatusService.java:67-70 | no "db" contributor, or one of another kind, gives down |
| SystemStatus.CompositeDownIff | src/main/java/uk/gegc/kidsgptbackend/systemstatus/SystemStatusService.java:74-81 | an empty composite is up; a composite is down exactly when some child indicator is not UP |
| SystemStatus.UptimeBelowOneSecond | src/main/java/uk/gegc/kidsgptbackend/systemstatus/SystemStatusService.java:56 | under a second after start the uptime is 0 |
| Chat.SystemPromptParts | src/main/java/uk/gegc/kidsgptbackend/service/chat/impl/AiChatServiceImpl.java:131-139 | the prompt is the age sentence followed by the resource's text, or by "You are KidsGPT, keep replies friendly." when the resource cannot be read |
| Chat.FormatSplit | src/main/java/uk/gegc/kidsgptbackend/service/chat/impl/AiChatServiceImpl.java:81 | formatting a template whose text before `%s` has no `%` inserts the argument whole between the two parts |
| Chat.DecoratedContainsMessage | src/main/java/uk/gegc/kidsgptbackend/service/chat/impl/AiChatServiceImpl.java:53-57 | each decorated prompt holds the child's message unchanged after the template's lead-in |
| Chat.ValidateSafety | src/main/java/uk/gegc/kidsgptbackend/service/chat/impl/AiChatServiceImpl.java:141-157 | safe exactly when no moderation result is flagged; a failing moderation call becomes the moderation exception, which reaches the 500 catch-all |
| Chat.FindContextById | src/main/java/uk/gegc/kidsgptbackend/service/chat/impl/AiChatServiceImpl.java:122 | finds a stored context with that id, and fails exactly when there is none |
| Chat.AiChatServiceImpl.OpenContext | src/main/java/uk/gegc/kidsgptbackend/service/chat/impl/AiChatServiceImpl.java:125-128 | a new context owned by the name is appended under a fresh id |
| Chat.AiChatServiceImpl.StoreMessage | src/main/java/uk/gegc/kidsgptbackend/service/chat/impl/AiChatServiceImpl.java:79 | the message is appended and nothing else changes |
| Chat.AiChatServiceImpl.ResolveContext | src/main/java/uk/gegc/kidsgptbackend/service/chat/impl/AiChatServiceImpl.java:120-129 | with an id, the stored context or "Context not found", nothing changed; without one, a new context owned by the user is appended under the next id |
| Chat.AiChatServiceImpl.Answer | src/main/java/uk/gegc/kidsgptbackend/service/chat/impl/AiChatServiceImpl.java:75-118 | result, steps and the stores afterwards are those of `Converse`: the child's message, the model call, the reply moderation and the reply, or a rollback on failure |
| Chat.AiChatServiceImpl.Chat | src/main/java/uk/gegc/kidsgptbackend/service/chat/impl/AiChatServiceImpl.java:62-129 | result, step order and committed stores are those of `Run`, whose properties are the lemmas below |
| Chat.FlaggedInputStopsFirst | src/main/java/uk/gegc/kidsgptbackend/service/chat/impl/AiChatServiceImpl.java:66-68 | flagged input is refused after the moderation call alone: no user lookup, no context, no message |
| Chat.Prepare | src/main/java/uk/gegc/kidsgptbackend/service/chat/impl/AiChatServiceImpl.java:63-73 | the run gets past the checks exactly when the input is safe, the user exists and any given context id is stored; its first step is the input moderation, no step before the model call saves a message or calls the model, and a new context is owned by the principal under the next id |
| Chat.ConverseShape | src/main/java/uk/gegc/kidsgptbackend/service/chat/impl/AiChatServiceImpl.java:75-90 | after context resolution the USER message is saved, then the model is called, and no later step calls it again |
| Chat.ConverseRollback | src/main/java/uk/gegc/kidsgptbackend/service/chat/impl/AiChatServiceImpl.java:85-93 | a failing model call ends the call with the rate-limit error right after the call; any failure restores the committed stores |
| Chat.ModelCalledOnce | src/main/java/uk/gegc/kidsgptbackend/service/chat/impl/AiChatServiceImpl.java:75-90 | the model is called at most once, as the fifth step |
| Chat.UserMessageBeforeModel | src/main/java/uk/gegc/kidsgptbackend/service/chat/impl/AiChatServiceImpl.java:75-90 | once the checks pass, the USER message carrying the original text is saved right before the model is called, with the system prompt and the decorated text |
| Chat.ModelFailureRollsBack | src/main/java/uk/gegc/kidsgptbackend/service/chat/impl/AiChatServiceImpl.java:85-93 | a failing model call becomes the rate-limit error; no assistant message is saved and the transaction rolls back both stores |
| Chat.SuccessStoresConversation | src/main/java/uk/gegc/kidsgptbackend/service/chat/impl/AiChatServiceImpl.java:70-118 | on success exactly the USER and ASSISTANT messages are appended; the stored reply equals the response's and is either moderator-approved text or the fixed fallback |
| Chat.ReplySanitised | src/main/java/uk/gegc/kidsgptbackend/service/chat/impl/AiChatServiceImpl.java:94-108 | once the checks pass and the model answers, a reply the moderator flags becomes the fixed fallback, a passed reply is the model's own text, and a failing moderation call is the moderation exception |
| Chat.ContextResolution | src/main/java/uk/gegc/kidsgptbackend/service/chat/impl/AiChatServiceImpl.java:120-129 | without a context id a context owned by the principal is opened and its id returned; with one, the stored context is reused |
| Chat.AbsentResponseDefaults | src/main/java/uk/gegc/kidsgptbackend/service/chat/impl/AiChatServiceImpl.java:94-117 | a missing model response gives reply "", 0 tokens and model "gpt-4o-mini" |
| Chat.UnknownUserOrContextRefused | src/main/java/uk/gegc/kidsgptbackend/service/chat/impl/AiChatServiceImpl.java:70-73 | an unknown user gives "User not found" and an unknown context id "Context not found", and nothing is stored |

## Left out

Cryptography and encodings:
- HMAC-SHA signing (HS256, section 3.2 of RFC 7518), base64 key decoding and JWS compact serialisation are out. They are replaced by a length-prefixed encoding and key equality, so a token never collides with another by accident.
- Key-strength and base64 failures at `init` are out for the same reason.

Time and clocks:
- jjwt's exception texts are stand-ins; the model keeps only the error kinds.
- `LocalDateTime` zone conversion in logout is out. A revocation record's expiry is kept as `exp * 1000` milliseconds.
- The separate clock reads in one call (the two generators, the parse inside the filter, `Instant.now()` in the status service) are merged into one clock parameter, except the status timestamp.
- `long` overflow of clock arithmetic is out. The model's integers are unbounded.

Framework and persistence:
- Concurrency (stores shared across threads) is out.
- The JPA merge branch of `save`, Spring Data auditing (`@CreatedDate`), lazy loading and UUID generation are out. Ids come from a counter.
- `findByEmail` returning several rows is out. The first match is taken.
- Spring's path-matcher internals (trailing slashes, encoded characters, `**` in the middle) are out. A `/**` pattern is the base path or anything below it.
- The handlers inherited from `ResponseEntityExceptionHandler` for the standard MVC exceptions (405 for an unsupported method, 415 for an unsupported media type, 404 for no resource, 400 for a missing parameter, and so on) are out. Only the two overrides are modelled, and the catch-all stands for whatever else reaches the advice.
- Null exception messages are out. Several handlers build their detail with `List.of(ex.getMessage())` or `List.of(ex.getReason())` without a null check, and a null there would throw inside the advice. Messages are `string`s, so that path does not arise.
- `ModerationServiceException` is not part of this model, and it has no handler of its own. It is assumed not to extend any handled class, so it reaches the 500 catch-all (`Unexpected`).
- Null `username`, `email`, password and `roles` of a freshly built `User` are read as empty. A Java `toDto` on such a user would throw at `getRoles().stream()`, where the model's does not. No modelled path maps an unsaved user.
- Database error texts (the unique and length violations) are stand-ins for the driver's messages. The model keeps which constraint fails.
- The `SecurityContextHolder` thread-local and the servlet `FilterChain` are out. They are a per-request field and an invocation counter.

Collaborators and output:
- `getProfile` is declared in neither the service interface nor its implementation; it stays an opaque collaborator of `me`.
- `getAuthentication` calls the injected `UserDetailsService`, not the `QuizUserDetailsService` field beside it. The model binds it to `UserDetails.LoadUserByUsername`, assuming `QuizUserDetailsService` is the only `UserDetailsService` bean.
- The password encoder, the authentication manager, the moderation model and the chat model are oracles.
- The random template choice is an index below 3. Latency is a parameter because it is only measured.
- `System.out.println` in `DataInitializer`, the moderation warnings in `validateSafety` and all logging are out.
- `User.getAge()` is not declared in `User.java`. The age text is a parameter.
- Reading `system-prompt.txt` is I/O, so it is a constructor parameter whose absence is the read failure.
- `RoleName.java` is not part of this model. The declaration order of its constants (ROLE_PARENT, ROLE_ADMIN, ROLE_CHILD in `Users.ROLE_NAMES`) is assumed, and with it the order in which `DataInitializer` inserts missing roles.
- `String.format` is modelled only for the one `%s` that each template holds.

Deliberate limits of contracts:
- Tokens.JwtTokenProvider.Init: it ensures the key is the configured one. Decoding cannot fail in the model.
- Tokens.LaterIssueIsLater: it requires a gap of a second or more, because timestamps are whole seconds and two tokens issued within the same second can coincide.
- Tokens.IssuedLifetime: exp − iat equals the TTL only for whole-second TTLs; otherwise it is within one second of it.
- UserMapper.ToProfileDto: the role shown is the first of an unspecified iteration order, so the contract says only that it is one of the user's roles.
- SystemStatus.SystemStatusService.GetStatus: `Status` codes besides the four built-in ones are out.

Behaviour of the code worth knowing:
- `/api/v1/auth/logout` itself needs authentication. Through the filter chain, a logout with a blank, expired, otherwise invalid or already revoked bearer token is left anonymous by the filter and answered 401 before the controller runs (`AuthController.UnusableLogoutTokenIs401`).
- The controller and the service, reached without the filters, answer differently. An already revoked token hits the unique column (409) rather than being absorbed. An expired token fails parsing (500) and nothing is stored. A blank token answers 400, because jjwt throws `IllegalArgumentException` for it. Through the chain the 409 would need two logouts of the same token racing, and concurrency is out.

Not part of this model:
- The older chat service outside `impl/`. It calls a request accessor that the request record does not have.
- `DbHealthIndicator`, `SystemStatusController` and `ChatController`.
- The DTO validation annotations. The framework enforces them.

## Findings

| source | as written | input that shows it | evidently intended | confidence | as-written member | corrected member |
|---|---|---|---|---|---|---|
| src/main/java/uk/gegc/kidsgptbackend/security/JwtAuthenticationFilter.java:29-35 | `getAuthentication` runs inside the filter without a catch. Its `UsernameNotFoundException` leaves `doFilterInternal` before `filterChain.doFilter` | a live access token for a user who has since been removed from the user table | the gate only attaches or declines to attach: an unknown subject leaves the request anonymous and the chain is always continued | medium, not executed | AuthFilter.DeletedUserAbortsRequest (on AuthFilter.DecideCases / AuthFilter.DoFilterInternal) | AuthFilter.DeletedUserGuardedContinues (on AuthFilter.DecideGuarded / AuthFilter.DoFilterInternalGuarded) |
