/** The user entity with its persistence callbacks, the role names, and the
    user and role tables the services read and write. Timestamps are
    milliseconds; a Java `null` String column is the empty string. */
module Users {
  import opened Wrappers
  import opened Exceptions

  /** The role constants, in the order `RoleName.values()` lists them. */
  datatype RoleName = ROLE_PARENT | ROLE_ADMIN | ROLE_CHILD

  const ROLE_NAMES: seq<RoleName> := [ROLE_PARENT, ROLE_ADMIN, ROLE_CHILD]

  /** `RoleName.name()`. */
  function Name(r: RoleName): string {
    match r
    case ROLE_PARENT => "ROLE_PARENT"
    case ROLE_ADMIN => "ROLE_ADMIN"
    case ROLE_CHILD => "ROLE_CHILD"
  }

  /** `RoleName.valueOf(s)`: `None` where Java throws `IllegalArgumentException`. */
  function ValueOf(s: string): (r: Option<RoleName>)
    ensures r.Some? ==> Name(r.value) == s
    ensures r.None? ==> forall n: RoleName :: Name(n) != s
  {
    if s == "ROLE_PARENT" then Some(ROLE_PARENT)
    else if s == "ROLE_ADMIN" then Some(ROLE_ADMIN)
    else if s == "ROLE_CHILD" then Some(ROLE_CHILD)
    else None
  }

  lemma ValueOfName(r: RoleName)
    ensures ValueOf(Name(r)) == Some(r)
  {
  }

  /** `values()` lists every constant exactly once. */
  lemma RoleNamesComplete(r: RoleName)
    ensures r in ROLE_NAMES
    ensures forall i, j :: 0 <= i < j < |ROLE_NAMES| ==> ROLE_NAMES[i] != ROLE_NAMES[j]
  {
  }

  /** The columns of one `users` row; `roles` holds the names of the joined roles. */
  datatype UserRecord = UserRecord(
    id: Option<nat>,
    username: string,
    email: string,
    hashedPassword: string,
    createdAt: Option<nat>,
    lastLoginDate: Option<nat>,
    updatedAt: Option<nat>,
    isActive: bool,
    isDeleted: bool,
    deletedAt: Option<nat>,
    roles: set<string>)

  /** The `User` entity: its persistent fields plus the transient `isNew`
      flag that Spring Data's `save` consults to choose between persist and merge. */
  class User {
    var id: Option<nat>
    var username: string
    var email: string
    var hashedPassword: string
    var createdAt: Option<nat>
    var lastLoginDate: Option<nat>
    var updatedAt: Option<nat>
    var isActive: bool
    var isDeleted: bool
    var deletedAt: Option<nat>
    var roles: set<string>
    var isNew: bool

    /** The persistent state, as one row. */
    function Row(): UserRecord
      reads this
    {
      UserRecord(id, username, email, hashedPassword, createdAt, lastLoginDate,
                 updatedAt, isActive, isDeleted, deletedAt, roles)
    }

    /** The no-argument constructor: Java's defaults, with null strings read as
        empty, null ids and instants as `None`, a null role set as empty, and `isNew`. */
    constructor ()
      ensures Row() == UserRecord(None, "", "", "", None, None, None, false, false, None, {})
      ensures IsNew()
    {
      id, username, email, hashedPassword := None, "", "", "";
      createdAt, lastLoginDate, updatedAt := None, None, None;
      isActive, isDeleted, deletedAt, roles := false, false, None, {};
      isNew := true;
    }

    /** `Persistable.isNew()`. */
    predicate IsNew()
      reads this
    {
      isNew
    }

    /** `@PostLoad` / `@PostPersist`: a loaded or stored user is no longer new. */
    method MarkNotNew()
      modifies this
      ensures !IsNew() && Row() == old(Row())
    {
      isNew := false;
    }

    /** `@PrePersist`: stamp the creation time; the user still counts as new. */
    method PrePersist(now: nat)
      modifies this
      ensures IsNew()
      ensures Row() == old(Row()).(createdAt := Some(now))
    {
      createdAt := Some(now);
      isNew := true;
    }

    /** `@PreUpdate`: a live user gets a new update time, a deleted one a
        deletion time; the other stamp is left alone. */
    method PreUpdate(now: nat)
      modifies this
      ensures isNew == old(isNew)
      ensures !old(isDeleted) ==> Row() == old(Row()).(updatedAt := Some(now))
      ensures old(isDeleted) ==> Row() == old(Row()).(deletedAt := Some(now))
    {
      if !isDeleted {
        updatedAt := Some(now);
      } else {
        deletedAt := Some(now);
      }
    }
  }

  /** The two columns the services look users up by. */
  datatype Column = Username | Email

  function ColumnOf(u: UserRecord, c: Column): string {
    match c
    case Username => u.username
    case Email => u.email
  }

  /** `findByUsername` / `findByEmail`: the first row whose column holds `key`. */
  function FindBy(rows: seq<UserRecord>, c: Column, key: string): (r: Option<UserRecord>)
    ensures r.Some? ==> r.value in rows && ColumnOf(r.value, c) == key
    ensures r.None? <==> forall i :: 0 <= i < |rows| ==> ColumnOf(rows[i], c) != key
  {
    if rows == [] then None
    else if ColumnOf(rows[0], c) == key then Some(rows[0])
    else FindBy(rows[1..], c, key)
  }

  /** The unique constraint on `users.username`. */
  ghost predicate UniqueUsernames(rows: seq<UserRecord>) {
    forall i, j :: 0 <= i < j < |rows| ==> rows[i].username != rows[j].username
  }

  /** Stand-in for the driver's message on a unique-key violation. */
  const UNIQUE_VIOLATION := "duplicate key value violates unique constraint"

  /** The `users` table. Ids are handed out from a counter, standing in for
      the generated UUIDs. */
  class UserRepository {
    var rows: seq<UserRecord>
    var nextId: nat

    ghost predicate Valid()
      reads this
    {
      && UniqueUsernames(rows)
      && forall i :: 0 <= i < |rows| ==> rows[i].id.Some? && rows[i].id.value < nextId
    }

    constructor ()
      ensures Valid() && rows == []
    {
      rows, nextId := [], 0;
    }

    predicate ExistsByUsername(name: string)
      reads this
    {
      FindBy(rows, Username, name).Some?
    }

    predicate ExistsByEmail(email: string)
      reads this
    {
      FindBy(rows, Email, email).Some?
    }

    /** The persist branch of `save` for a new user: the `@PrePersist`
        callback, an id, the insert (refused on a taken username), then
        `@PostPersist`. */
    method Persist(u: User, now: nat) returns (r: Result<UserRecord, ApiException>)
      requires Valid() && u.IsNew()
      modifies this, u
      ensures Valid()
      ensures r.Err? <==> old(ExistsByUsername(u.username))
      ensures r.Err? ==> rows == old(rows) && r.error == DataIntegrityViolation(UNIQUE_VIOLATION)
      ensures r.Err? ==> && nextId == old(nextId) && u.IsNew()
                         && u.Row() == old(u.Row()).(id := Some(old(nextId)), createdAt := Some(now))
      ensures r.Ok? ==> && r.value == old(u.Row()).(id := Some(old(nextId)), createdAt := Some(now))
                        && rows == old(rows) + [r.value]
                        && u.Row() == r.value && !u.IsNew()
    {
      u.PrePersist(now);
      u.id := Some(nextId);
      var row := u.Row();
      if FindBy(rows, Username, row.username).Some? {
        return Err(DataIntegrityViolation(UNIQUE_VIOLATION));
      }
      rows := rows + [row];
      nextId := nextId + 1;
      u.MarkNotNew();
      r := Ok(row);
    }
  }

  /** The `roles` table, each role by its unique `role_name`. */
  class RoleRepository {
    var names: seq<string>

    ghost predicate Valid()
      reads this
    {
      forall i, j :: 0 <= i < j < |names| ==> names[i] != names[j]
    }

    constructor (initial: seq<string>)
      requires forall i, j :: 0 <= i < j < |initial| ==> initial[i] != initial[j]
      ensures Valid() && names == initial
    {
      names := initial;
    }

    /** `findByRole(name)`. */
    function FindByRole(name: string): (r: Option<string>)
      reads this
      ensures r.Some? <==> name in names
      ensures r.Some? ==> r.value == name
    {
      if name in names then Some(name) else None
    }

    /** `save` of a new role: refused when the name is already stored. */
    method Save(name: string) returns (r: Result<(), ApiException>)
      requires Valid()
      modifies this
      ensures Valid()
      ensures r.Ok? <==> name !in old(names)
      ensures names == if r.Ok? then old(names) + [name] else old(names)
      ensures r.Err? ==> r.error == DataIntegrityViolation(UNIQUE_VIOLATION)
    {
      if name in names {
        return Err(DataIntegrityViolation(UNIQUE_VIOLATION));
      }
      names := names + [name];
      r := Ok(());
    }
  }
}
