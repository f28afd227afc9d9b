/** `UserMapper`: the user row as the two DTOs the API returns. Roles are
    stored by name and parsed back into `RoleName` constants, so a row with a
    name that is not a constant cannot be mapped. */
module UserMapper {
  import opened Wrappers
  import opened Exceptions
  import opened Users

  /** `IllegalArgumentException` message of `Enum.valueOf` for `RoleName`. */
  const NO_ENUM_CONSTANT := "No enum constant uk.gegc.kidsgptbackend.model.user.RoleName."

  datatype UserDto = UserDto(
    id: Option<nat>,
    username: string,
    email: string,
    isActive: bool,
    roles: set<RoleName>,
    createdAt: Option<nat>,
    lastLoginDate: Option<nat>,
    updatedAt: Option<nat>)

  datatype UserProfileDto = UserProfileDto(id: Option<nat>, username: string, role: Option<RoleName>, createdAt: Option<nat>)

  /** The order a `Set`'s stream visits its elements in: each element once. */
  ghost predicate IterationOrder(order: seq<string>, roles: set<string>) {
    && (forall i, j :: 0 <= i < j < |order| ==> order[i] != order[j])
    && (forall x :: x in order <==> x in roles)
  }

  /** `map(RoleName::valueOf).collect(toSet())` over names in stream order:
      the first name that is not a constant aborts the stream. */
  function ParseRoles(order: seq<string>): (r: Result<set<RoleName>, ApiException>)
    ensures r.Ok? <==> forall i :: 0 <= i < |order| ==> ValueOf(order[i]).Some?
    ensures r.Ok? ==> forall rn: RoleName :: rn in r.value <==> Name(rn) in order
    ensures r.Err? ==> exists i :: && 0 <= i < |order| && ValueOf(order[i]).None?
                                   && (forall j :: 0 <= j < i ==> ValueOf(order[j]).Some?)
                                   && r.error == IllegalArgument(NO_ENUM_CONSTANT + order[i])
  {
    if order == [] then Ok({})
    else
      match ValueOf(order[0])
      case None => Err(IllegalArgument(NO_ENUM_CONSTANT + order[0]))
      case Some(rn) =>
        match ParseRoles(order[1..])
        case Err(e) =>
          assert forall i :: 0 <= i < |order| - 1 ==> order[1..][i] == order[i + 1];
          Err(e)
        case Ok(rest) =>
          assert forall x :: x in order <==> x == order[0] || x in order[1..];
          Ok({rn} + rest)
  }

  /** `toDto`: every column copied unchanged; the roles are the constants
      named by the row's role names. */
  function ToDto(u: UserRecord, order: seq<string>): (r: Result<UserDto, ApiException>)
    requires IterationOrder(order, u.roles)
    ensures r.Ok? <==> forall n :: n in u.roles ==> ValueOf(n).Some?
    ensures r.Ok? ==> && r.value.id == u.id && r.value.username == u.username && r.value.email == u.email
                      && r.value.isActive == u.isActive && r.value.createdAt == u.createdAt
                      && r.value.lastLoginDate == u.lastLoginDate && r.value.updatedAt == u.updatedAt
                      && forall rn: RoleName :: rn in r.value.roles <==> Name(rn) in u.roles
    ensures r.Err? ==> exists n :: n in u.roles && ValueOf(n).None? && r.error == IllegalArgument(NO_ENUM_CONSTANT + n)
  {
    match ParseRoles(order)
    case Err(e) => Err(e)
    case Ok(roles) => Ok(UserDto(u.id, u.username, u.email, u.isActive, roles, u.createdAt, u.lastLoginDate, u.updatedAt))
  }

  /** `toProfileDto`: id, username and creation time, and the constant named
      by the first role the set yields, or none for a user without roles. */
  function ToProfileDto(u: UserRecord, order: seq<string>): (r: Result<UserProfileDto, ApiException>)
    requires IterationOrder(order, u.roles)
    ensures (forall n :: n in u.roles ==> ValueOf(n).Some?) ==> r.Ok?
    ensures r.Ok? ==> && r.value.id == u.id && r.value.username == u.username && r.value.createdAt == u.createdAt
                      && (r.value.role.None? <==> u.roles == {})
                      && (r.value.role.Some? ==> Name(r.value.role.value) in u.roles)
    ensures r.Err? ==> exists n :: n in u.roles && ValueOf(n).None? && r.error == IllegalArgument(NO_ENUM_CONSTANT + n)
  {
    if order == [] then
      assert forall x :: x !in u.roles;
      Ok(UserProfileDto(u.id, u.username, None, u.createdAt))
    else
      assert order[0] in u.roles;
      match ValueOf(order[0])
      case None => Err(IllegalArgument(NO_ENUM_CONSTANT + order[0]))
      case Some(rn) => Ok(UserProfileDto(u.id, u.username, Some(rn), u.createdAt))
  }

  /** The DTO's roles do not depend on the order the set is visited in. */
  lemma {:induction false} ToDtoOrderIrrelevant(u: UserRecord, o1: seq<string>, o2: seq<string>)
    requires IterationOrder(o1, u.roles) && IterationOrder(o2, u.roles)
    requires ToDto(u, o1).Ok?
    ensures ToDto(u, o2) == ToDto(u, o1)
  {
    var r1 := ToDto(u, o1).value.roles;
    var r2 := ToDto(u, o2).value.roles;
    assert r1 == r2 by {
      forall rn: RoleName
        ensures rn in r1 <==> rn in r2
      {
      }
    }
  }

  /** The profile's role, when there is one, is among the full DTO's roles. */
  lemma ProfileRoleAmongDtoRoles(u: UserRecord, o1: seq<string>, o2: seq<string>)
    requires IterationOrder(o1, u.roles) && IterationOrder(o2, u.roles)
    requires ToDto(u, o1).Ok?
    ensures ToProfileDto(u, o2).Ok?
    ensures ToProfileDto(u, o2).value.role.Some? ==> ToProfileDto(u, o2).value.role.value in ToDto(u, o1).value.roles
  {
  }
}
