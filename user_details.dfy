/** `QuizUserDetailsService.loadUserByUsername`: look the user up by
    username, then by email, and turn the row into Spring Security user
    details whose authorities are the user's current role names. */
module UserDetails {
  import opened Wrappers
  import opened Users

  /** `org.springframework.security.core.userdetails.User`. Spring keeps the
      authorities as a set, so the order the roles stream in does not show. */
  datatype Details = Details(
    username: string,
    password: string,
    enabled: bool,
    accountNonExpired: bool,
    credentialsNonExpired: bool,
    accountNonLocked: bool,
    authorities: set<string>)

  /** The repository queries the lookup performs, in order. */
  datatype Query = ByUsername(key: string) | ByEmail(key: string)

  /** `UsernameNotFoundException` with its message. */
  datatype NotFound = UsernameNotFound(message: string)

  datatype Loaded = Loaded(result: Result<Details, NotFound>, queries: seq<Query>)

  const NOT_FOUND_PREFIX := "User not found with username or email: "

  /** The details built from a found row: stored username, stored hash,
      `enabled` from `isActive`, the three other flags always true, and one
      authority per role. */
  function DetailsOf(u: UserRecord): (d: Details)
    ensures d.username == u.username && d.password == u.hashedPassword
    ensures d.enabled == u.isActive
    ensures d.accountNonExpired && d.credentialsNonExpired && d.accountNonLocked
    ensures d.authorities == u.roles
  {
    Details(u.username, u.hashedPassword, u.isActive, true, true, true, u.roles)
  }

  function LoadUserByUsername(users: seq<UserRecord>, usernameOrEmail: string): (r: Loaded)
    // the username lookup always comes first; the email lookup only after a miss
    ensures |r.queries| > 0 && r.queries[0] == ByUsername(usernameOrEmail)
    ensures FindBy(users, Username, usernameOrEmail).Some? <==> r.queries == [ByUsername(usernameOrEmail)]
    ensures FindBy(users, Username, usernameOrEmail).None? ==>
              r.queries == [ByUsername(usernameOrEmail), ByEmail(usernameOrEmail)]
    // found iff some row has the input as its username or as its email
    ensures r.result.Ok? <==>
              exists i :: 0 <= i < |users| && (users[i].username == usernameOrEmail || users[i].email == usernameOrEmail)
    // a username match wins over an email match
    ensures FindBy(users, Username, usernameOrEmail).Some? ==>
              r.result == Ok(DetailsOf(FindBy(users, Username, usernameOrEmail).value))
    ensures r.result.Ok? ==>
              exists u :: u in users && (u.username == usernameOrEmail || u.email == usernameOrEmail) && r.result.value == DetailsOf(u)
    ensures r.result.Err? ==> r.result.error == UsernameNotFound(NOT_FOUND_PREFIX + usernameOrEmail)
  {
    match FindBy(users, Username, usernameOrEmail)
    case Some(u) => Loaded(Ok(DetailsOf(u)), [ByUsername(usernameOrEmail)])
    case None =>
      var queries := [ByUsername(usernameOrEmail), ByEmail(usernameOrEmail)];
      match FindBy(users, Email, usernameOrEmail)
      case Some(u) => Loaded(Ok(DetailsOf(u)), queries)
      case None => Loaded(Err(UsernameNotFound(NOT_FOUND_PREFIX + usernameOrEmail)), queries)
  }

  /** Found by email: the details carry the stored username, not the email typed in. */
  lemma EmailHitCarriesStoredUsername(users: seq<UserRecord>, email: string, u: UserRecord)
    requires FindBy(users, Username, email).None?
    requires FindBy(users, Email, email) == Some(u)
    ensures LoadUserByUsername(users, email).result == Ok(DetailsOf(u))
    ensures LoadUserByUsername(users, email).result.value.username == u.username
  {
  }

  /** The authorities are read from the table at lookup time: changing a
      user's roles changes what the next lookup grants, and nothing else does. */
  lemma AuthoritiesFollowCurrentRoles(users: seq<UserRecord>, i: nat, newRoles: set<string>)
    requires i < |users|
    requires UniqueUsernames(users)
    ensures var changed := users[i := users[i].(roles := newRoles)];
            LoadUserByUsername(changed, users[i].username).result.Ok? &&
            LoadUserByUsername(changed, users[i].username).result.value.authorities == newRoles
  {
    var changed := users[i := users[i].(roles := newRoles)];
    var name := users[i].username;
    assert UniqueUsernames(changed);
    var hit := FindBy(changed, Username, name);
    assert ColumnOf(changed[i], Username) == name;
    assert hit.Some?;
    var k :| 0 <= k < |changed| && changed[k] == hit.value;
    assert k == i;
  }
}
