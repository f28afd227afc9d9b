/** `DataInitializer.run`: at start-up, insert every `RoleName` the role
    table lacks, in `values()` order, and leave existing rows alone. */
module DataInitializer {
  import opened Wrappers
  import opened Users

  /** The names among `roles` that are not in `present`, in order. */
  function MissingFrom(roles: seq<RoleName>, present: seq<string>): (m: seq<string>)
    ensures |m| <= |roles|
    ensures forall i :: 0 <= i < |m| ==> m[i] !in present && ValueOf(m[i]).Some? && ValueOf(m[i]).value in roles
    ensures forall r :: r in roles && Name(r) !in present ==> Name(r) in m
  {
    if roles == [] then []
    else
      var init := roles[..|roles| - 1];
      var last := roles[|roles| - 1];
      assert forall r :: r in roles ==> r in init || r == last;
      ValueOfName(last);
      MissingFrom(init, present) + (if Name(last) in present then [] else [Name(last)])
  }

  /** One more constant adds its name exactly when it is not present. */
  lemma MissingStep(roles: seq<RoleName>, i: nat, present: seq<string>)
    requires i < |roles|
    ensures MissingFrom(roles[..i + 1], present) ==
            MissingFrom(roles[..i], present) + (if Name(roles[i]) in present then [] else [Name(roles[i])])
  {
    assert roles[..i + 1][..i] == roles[..i];
  }

  /** A constant's name is not among the names missed before it. */
  lemma NotMissedEarlier(roles: seq<RoleName>, i: nat, present: seq<string>)
    requires i < |roles|
    requires forall a, b :: 0 <= a < b < |roles| ==> roles[a] != roles[b]
    ensures Name(roles[i]) !in MissingFrom(roles[..i], present)
  {
    var m := MissingFrom(roles[..i], present);
    if Name(roles[i]) in m {
      var k :| 0 <= k < |m| && m[k] == Name(roles[i]);
      ValueOfName(roles[i]);
      assert false;
    }
  }

  /** Missing names are distinct when the constants are. */
  lemma {:induction false} MissingDistinct(roles: seq<RoleName>, present: seq<string>)
    requires forall i, j :: 0 <= i < j < |roles| ==> roles[i] != roles[j]
    ensures var m := MissingFrom(roles, present);
            forall i, j :: 0 <= i < j < |m| ==> m[i] != m[j]
  {
    if roles != [] {
      var n := |roles| - 1;
      var init := roles[..n];
      assert forall i :: 0 <= i < n ==> init[i] == roles[i];
      MissingDistinct(init, present);
      NotMissedEarlier(roles, n, present);
      MissingStep(roles, n, present);
      assert roles[..n + 1] == roles;
    }
  }

  /** One turn of the seeding loop: the name is stored so far exactly when
      it was stored before the loop, and the missing names grow by it
      exactly when it was not. */
  lemma InsertStep(i: nat, before: seq<string>, inserted: seq<string>)
    requires i < |ROLE_NAMES|
    requires inserted == MissingFrom(ROLE_NAMES[..i], before)
    ensures Name(ROLE_NAMES[i]) in before + inserted <==> Name(ROLE_NAMES[i]) in before
    ensures MissingFrom(ROLE_NAMES[..i + 1], before) ==
            inserted + (if Name(ROLE_NAMES[i]) in before then [] else [Name(ROLE_NAMES[i])])
  {
    RoleNamesComplete(ROLE_PARENT);
    MissingStep(ROLE_NAMES, i, before);
    NotMissedEarlier(ROLE_NAMES, i, before);
  }

  class DataInitializer {
    const roleRepository: RoleRepository

    constructor (roles: RoleRepository)
      ensures roleRepository == roles
    {
      roleRepository := roles;
    }

    /** One turn of the loop: `findByRole`, then `save` when it found nothing. */
    method InsertIfAbsent(name: string) returns (saved: bool)
      requires roleRepository.Valid()
      modifies roleRepository
      ensures roleRepository.Valid()
      ensures saved <==> name !in old(roleRepository.names)
      ensures roleRepository.names == old(roleRepository.names) + (if saved then [name] else [])
    {
      var existing := roleRepository.FindByRole(name);
      saved := existing.None?;
      if saved {
        var _ := roleRepository.Save(name);
      }
    }

    /** Saves exactly the missing role names, each once and in `values()`
        order, after the rows already there; answers the names it inserted. */
    method Run() returns (inserted: seq<string>)
      requires roleRepository.Valid()
      modifies roleRepository
      ensures roleRepository.Valid()
      ensures inserted == MissingFrom(ROLE_NAMES, old(roleRepository.names))
      ensures roleRepository.names == old(roleRepository.names) + inserted
    {
      ghost var before := roleRepository.names;
      inserted := [];
      for i := 0 to |ROLE_NAMES|
        invariant roleRepository.Valid()
        invariant inserted == MissingFrom(ROLE_NAMES[..i], before)
        invariant roleRepository.names == before + inserted
      {
        var name := Name(ROLE_NAMES[i]);
        InsertStep(i, before, inserted);
        var saved := InsertIfAbsent(name);
        if saved {
          inserted := inserted + [name];
        }
      }
      assert ROLE_NAMES[..|ROLE_NAMES|] == ROLE_NAMES;
    }
  }

  /** After a run every constant has a row. */
  lemma AllRolesPresentAfterRun(present: seq<string>, r: RoleName)
    ensures Name(r) in present + MissingFrom(ROLE_NAMES, present)
  {
    RoleNamesComplete(r);
  }

  /** Each missing name is saved exactly once, and present names never. */
  lemma SavesOnlyMissing(present: seq<string>)
    ensures var m := MissingFrom(ROLE_NAMES, present);
            && (forall i :: 0 <= i < |m| ==> m[i] !in present)
            && (forall i, j :: 0 <= i < j < |m| ==> m[i] != m[j])
  {
    RoleNamesComplete(ROLE_PARENT);
    MissingDistinct(ROLE_NAMES, present);
  }

  /** A second run saves nothing. */
  lemma {:induction false} RunIdempotent(present: seq<string>)
    ensures MissingFrom(ROLE_NAMES, present + MissingFrom(ROLE_NAMES, present)) == []
  {
    var after := present + MissingFrom(ROLE_NAMES, present);
    var m := MissingFrom(ROLE_NAMES, after);
    if m != [] {
      RoleNamesComplete(ValueOf(m[0]).value);
      ValueOfName(ValueOf(m[0]).value);
      AllRolesPresentAfterRun(present, ValueOf(m[0]).value);
      assert false;
    }
  }

  /** On an empty table all three constants are inserted, in `values()` order. */
  lemma SeedsEmptyTable()
    ensures MissingFrom(ROLE_NAMES, []) == ["ROLE_PARENT", "ROLE_ADMIN", "ROLE_CHILD"]
  {
    assert ROLE_NAMES[..2][..1] == [ROLE_PARENT];
    assert ROLE_NAMES[..2] == [ROLE_PARENT, ROLE_ADMIN];
  }
}
