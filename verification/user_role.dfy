/** The user-role hook and the two role predicates derived from it. */
module UserRoles {
  import opened Wrappers
  import opened Seqs
  import opened Store

  /** `useUserRole(userId)`: the role of the user's single `user_roles` row, null when there is
      no user id, no row or no role, and an error when several rows match (`maybeSingle`). */
  function UserRoleOf(userId: Option<string>, table: seq<UserRole>): (r: Result<Option<string>, string>)
    ensures !Truthy(userId) ==> r == Ok(None)
    ensures Truthy(userId) && Count(table, (row: UserRole) => row.userId == userId.value) == 0 ==> r == Ok(None)
    ensures Truthy(userId) ==> (r.Err? <==> Count(table, (row: UserRole) => row.userId == userId.value) > 1)
    ensures r.Err? ==> r.error == MultipleRowsError
    ensures r.Ok? && r.value.Some? ==> exists i :: 0 <= i < |table| && table[i].userId == userId.value
                                                 && table[i].role == r.value
  {
    if !Truthy(userId) then Ok(None)
    else
      var rows := Filter(table, (row: UserRole) => row.userId == userId.value);
      if |rows| == 0 then Ok(None)
      else if |rows| == 1 then Ok(rows[0].role)
      else Err(MultipleRowsError)
  }

  /** The query's data: undefined while it failed. */
  function RoleData(reply: Result<Option<string>, string>): Option<string> {
    if reply.Ok? then reply.value else None
  }

  /** `useIsAdmin`: the role is "admin". */
  function IsAdmin(role: Option<string>): (r: bool)
    ensures r <==> role == Some("admin")
  {
    role == Some("admin")
  }

  /** `useIsScanner`: the role is "scanner" or "admin", so every admin is a scanner. */
  function IsScanner(role: Option<string>): (r: bool)
    ensures r <==> role == Some("scanner") || role == Some("admin")
    ensures IsAdmin(role) ==> r
  {
    role == Some("scanner") || role == Some("admin")
  }

  /** A user with no row has neither role. */
  lemma NoRowNoRole(userId: string, table: seq<UserRole>)
    requires forall i :: 0 <= i < |table| ==> table[i].userId != userId
    ensures !IsAdmin(RoleData(UserRoleOf(Some(userId), table)))
    ensures !IsScanner(RoleData(UserRoleOf(Some(userId), table)))
  {
    FilterNone(table, (row: UserRole) => row.userId == userId);
  }

  /** A user with exactly one row has that row's role: an "admin" row makes an admin, and a
      "scanner" or "admin" row a scanner. */
  lemma SingleRowRole(userId: string, table: seq<UserRole>, i: int)
    requires userId != ""
    requires 0 <= i < |table| && table[i].userId == userId
    requires forall j :: 0 <= j < |table| && j != i ==> table[j].userId != userId
    ensures UserRoleOf(Some(userId), table) == Ok(table[i].role)
    ensures IsAdmin(RoleData(UserRoleOf(Some(userId), table))) <==> table[i].role == Some("admin")
    ensures IsScanner(RoleData(UserRoleOf(Some(userId), table)))
        <==> table[i].role == Some("scanner") || table[i].role == Some("admin")
  {
    FilterSingle(table, (row: UserRole) => row.userId == userId, i);
  }

  /** Two rows for the same user make the hook fail, so that user is neither admin nor
      scanner whatever the rows say. */
  lemma TwoRowsNoRole(userId: string, table: seq<UserRole>, i: int, j: int)
    requires userId != ""
    requires 0 <= i < j < |table| && table[i].userId == userId && table[j].userId == userId
    ensures UserRoleOf(Some(userId), table) == Err(MultipleRowsError)
    ensures !IsAdmin(RoleData(UserRoleOf(Some(userId), table)))
    ensures !IsScanner(RoleData(UserRoleOf(Some(userId), table)))
  {
    var p := (row: UserRole) => row.userId == userId;
    assert table == table[..j] + [table[j]] + table[j + 1..];
    FilterAppend(table[..j] + [table[j]], table[j + 1..], p);
    FilterAppend(table[..j], [table[j]], p);
    assert table[..j][i] == table[i];
    assert table[i] in Filter(table[..j], p);
  }
}
