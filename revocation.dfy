/** The `revoked_tokens` table behind `RevokedTokenRepository`: one record per
    revoked token with the instant it stops mattering. Instants are plain
    numbers (milliseconds); the zone conversion of `LocalDateTime` is left out. */
module Revocation {
  import opened Wrappers
  import opened Exceptions
  import opened Users

  /** A record; `expiresAt` is a non-null column, so every record has one. */
  datatype RevokedToken = RevokedToken(token: string, expiresAt: nat)

  /** `@Column(length = 512)` on the token. */
  const TOKEN_LENGTH := 512
  /** Stand-in for the database's text when a value exceeds the column length;
      the length is checked before the unique index. */
  const LENGTH_VIOLATION := "value too long for type character varying(512)"

  /** The unique constraint on the token column. */
  ghost predicate UniqueTokens(rows: seq<RevokedToken>) {
    forall i, j :: 0 <= i < j < |rows| ==> rows[i].token != rows[j].token
  }

  /** `existsByToken`: exact, case-sensitive match on the token string. */
  function Contains(rows: seq<RevokedToken>, token: string): (b: bool)
    ensures b <==> exists i :: 0 <= i < |rows| && rows[i].token == token
  {
    if rows == [] then false
    else rows[0].token == token || Contains(rows[1..], token)
  }

  /** The records a purge at `time` keeps, in their stored order. */
  function Unexpired(rows: seq<RevokedToken>, time: nat): (kept: seq<RevokedToken>)
    ensures |kept| <= |rows|
    ensures forall i :: 0 <= i < |kept| ==> kept[i] in rows && kept[i].expiresAt >= time
    ensures forall i :: 0 <= i < |rows| && rows[i].expiresAt >= time ==> rows[i] in kept
  {
    if rows == [] then []
    else
      var kept := Unexpired(rows[..|rows| - 1], time);
      var last := rows[|rows| - 1];
      assert forall i :: 0 <= i < |rows| - 1 ==> rows[i] == rows[..|rows| - 1][i];
      if last.expiresAt < time then kept else kept + [last]
  }

  /** A purge keeps the table unique. */
  lemma {:induction false} UnexpiredUnique(rows: seq<RevokedToken>, time: nat)
    requires UniqueTokens(rows)
    ensures UniqueTokens(Unexpired(rows, time))
  {
    if rows != [] {
      var init := rows[..|rows| - 1];
      var last := rows[|rows| - 1];
      assert UniqueTokens(init);
      UnexpiredUnique(init, time);
      var kept := Unexpired(init, time);
      forall k | 0 <= k < |kept|
        ensures kept[k].token != last.token
      {
        var i :| 0 <= i < |init| && init[i] == kept[k];
        assert rows[i] == init[i];
      }
    }
  }

  /** A purge never drops a record that would still be kept at an earlier time. */
  lemma {:induction false} PurgeMonotone(rows: seq<RevokedToken>, t1: nat, t2: nat)
    requires t1 <= t2
    ensures |Unexpired(rows, t2)| <= |Unexpired(rows, t1)|
  {
    if rows != [] {
      PurgeMonotone(rows[..|rows| - 1], t1, t2);
    }
  }

  class RevokedTokenRepository {
    var rows: seq<RevokedToken>

    ghost predicate Valid()
      reads this
    {
      UniqueTokens(rows)
    }

    constructor ()
      ensures Valid() && rows == []
    {
      rows := [];
    }

    predicate ExistsByToken(token: string)
      reads this
    {
      Contains(rows, token)
    }

    /** `save` of a new record: refused by the length or the unique constraint. */
    method Save(r: RevokedToken) returns (res: Result<(), ApiException>)
      requires Valid()
      modifies this
      ensures Valid()
      ensures res.Ok? <==> !old(ExistsByToken(r.token)) && |r.token| <= TOKEN_LENGTH
      ensures rows == if res.Ok? then old(rows) + [r] else old(rows)
      ensures res.Err? ==> res.error == DataIntegrityViolation(if |r.token| > TOKEN_LENGTH then LENGTH_VIOLATION else UNIQUE_VIOLATION)
      ensures ExistsByToken(r.token) <==> res.Ok? || old(ExistsByToken(r.token))
    {
      if |r.token| > TOKEN_LENGTH {
        return Err(DataIntegrityViolation(LENGTH_VIOLATION));
      }
      if Contains(rows, r.token) {
        return Err(DataIntegrityViolation(UNIQUE_VIOLATION));
      }
      rows := rows + [r];
      assert rows[|rows| - 1] == r;
      res := Ok(());
    }

    /** `deleteByExpiresAtBefore(time)`: removes every record whose expiry is
        strictly before `time`, keeps the rest untouched and in order, and
        answers how many it removed. */
    method DeleteByExpiresAtBefore(time: nat) returns (count: nat)
      requires Valid()
      modifies this
      ensures Valid()
      ensures rows == Unexpired(old(rows), time)
      ensures count == |old(rows)| - |rows|
    {
      var kept: seq<RevokedToken> := [];
      var removed: nat := 0;
      var i := 0;
      while i < |rows|
        invariant 0 <= i <= |rows|
        invariant kept == Unexpired(rows[..i], time)
        invariant removed == i - |kept|
      {
        assert rows[..i + 1][..i] == rows[..i];
        if rows[i].expiresAt < time {
          removed := removed + 1;
        } else {
          kept := kept + [rows[i]];
        }
        i := i + 1;
      }
      assert rows[..i] == rows;
      UnexpiredUnique(rows, time);
      rows := kept;
      count := removed;
    }
  }

  /** After a purge at `time`, a token is still revoked exactly when it was
      revoked before and its record does not expire before `time`. */
  lemma PurgeKeepsLiveRevocations(rows: seq<RevokedToken>, time: nat, token: string)
    ensures Contains(Unexpired(rows, time), token) <==>
            exists i :: 0 <= i < |rows| && rows[i].token == token && rows[i].expiresAt >= time
  {
    var kept := Unexpired(rows, time);
    if Contains(kept, token) {
      var k :| 0 <= k < |kept| && kept[k].token == token;
      var i :| 0 <= i < |rows| && rows[i] == kept[k];
    }
    if exists i :: 0 <= i < |rows| && rows[i].token == token && rows[i].expiresAt >= time {
      var i :| 0 <= i < |rows| && rows[i].token == token && rows[i].expiresAt >= time;
      var k :| 0 <= k < |kept| && kept[k] == rows[i];
    }
  }
}
