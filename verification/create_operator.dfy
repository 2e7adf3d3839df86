/**
 * The `create-operator` edge function: method dispatch, the required-field check, and the two
 * ordered store effects, creating the auth user and then inserting a `user_roles` row. The
 * role row as written carries the display name under `app_role` and no `user_id`, so it is
 * not linked to the user just created; `LinkedRoleInsert` is the row that would link them.
 */
module CreateOperator {
  import opened Wrappers
  import opened Text
  import opened Seqs
  import opened Store
  import opened Http
  import opened UserRoles

  datatype OperatorBody = OperatorBody(email: Option<string>, password: Option<string>,
                                       displayName: Option<string>, role: Option<string>)

  /** An HTTP request: its method and its body, or the message of the JSON parse failure. */
  datatype Request = Request(httpMethod: string, body: Result<OperatorBody, string>)

  /** The `user_roles` insert, field by field; absent fields are None. */
  datatype RoleInsert = RoleInsert(appRole: Option<string>, userId: Option<string>,
                                   displayName: Option<string>, role: string)

  /** The store calls, in the order the handler makes them. */
  datatype StoreCall =
    | CreateAuthUser(email: string, password: string, displayName: string, role: string)
    | InsertRole(row: RoleInsert)

  const MissingFields := "Missing required fields"
  const AuthErrorPrefix := "Auth error: "
  const RoleCreated := "User role created successfully"

  /** `!email || !password || !displayName || !role`. */
  predicate MissingField(b: OperatorBody) {
    !Truthy(b.email) || !Truthy(b.password) || !Truthy(b.displayName) || !Truthy(b.role)
  }

  /** The auth user: trimmed e-mail and display name, the password and role as sent. */
  function AuthCall(b: OperatorBody): (c: StoreCall)
    requires !MissingField(b)
    ensures c.CreateAuthUser? && c.email == Trim(b.email.value) && c.displayName == Trim(b.displayName.value)
    ensures c.password == b.password.value && c.role == b.role.value
  {
    CreateAuthUser(Trim(b.email.value), b.password.value, Trim(b.displayName.value), b.role.value)
  }

  /** The role row as written: `{ app_role: displayName, role }`, untrimmed, without user id. */
  function RoleInsertOf(b: OperatorBody): (row: RoleInsert)
    requires !MissingField(b)
    ensures row.userId.None? && row.displayName.None?
    ensures row.appRole == b.displayName && row.role == b.role.value
  {
    RoleInsert(b.displayName, None, None, b.role.value)
  }

  /** The role row that links the new user: their id, the trimmed display name and the role. */
  function LinkedRoleInsert(b: OperatorBody, newUserId: string): (row: RoleInsert)
    requires !MissingField(b)
    ensures row.userId == Some(newUserId) && row.role == b.role.value
    ensures row.displayName == Some(Trim(b.displayName.value)) && row.appRole.None?
  {
    RoleInsert(None, Some(newUserId), Some(Trim(b.displayName.value)), b.role.value)
  }

  /** The `user_roles` row a lookup by user id can find once the insert is stored: none when
      the insert has no user id, since `user_id = <id>` never matches null. */
  function StoredRole(row: RoleInsert, rowId: string, createdAt: string): (r: Option<UserRole>)
    ensures r.Some? <==> row.userId.Some?
    ensures r.Some? ==> r.value.userId == row.userId.value && r.value.role == Some(row.role)
  {
    if row.userId.Some? then Some(UserRole(rowId, row.userId.value, Some(row.role), row.displayName, createdAt))
    else None
  }

  function StoredRows(row: RoleInsert, rowId: string, createdAt: string): seq<UserRole> {
    var r := StoredRole(row, rowId, createdAt);
    if r.Some? then [r.value] else []
  }

  /** The handler as written. `authReply` is the new user's id or the auth error's message;
      `roleReply` is the role insert's error message, if any. */
  method HandleCreateOperator(req: Request, authReply: Result<string, string>, roleReply: Option<string>)
    returns (resp: Response, calls: seq<StoreCall>)
    ensures req.httpMethod == "OPTIONS" ==> resp == Preflight && calls == []
    ensures req.httpMethod != "OPTIONS" && req.httpMethod != "POST" ==> resp == MethodNotAllowed && calls == []
    ensures req.httpMethod == "POST" && req.body.Err? ==> resp == Response(500, ErrorMessage(req.body.error)) && calls == []
    ensures req.httpMethod == "POST" && req.body.Ok? && MissingField(req.body.value)
            ==> resp == Response(400, ErrorMessage(MissingFields)) && calls == []
    ensures req.httpMethod == "POST" && req.body.Ok? && !MissingField(req.body.value) && authReply.Err?
            ==> resp == Response(500, ErrorMessage(AuthErrorPrefix + authReply.error))
                && calls == [AuthCall(req.body.value)]
    ensures req.httpMethod == "POST" && req.body.Ok? && !MissingField(req.body.value) && authReply.Ok?
            ==> calls == [AuthCall(req.body.value), InsertRole(RoleInsertOf(req.body.value))]
                && resp == (if roleReply.Some? then Response(500, ErrorMessage(roleReply.value))
                            else Response(200, Success(RoleCreated)))
  {
    if req.httpMethod == "OPTIONS" {
      return Preflight, [];
    }
    if req.httpMethod != "POST" {
      return MethodNotAllowed, [];
    }
    if req.body.Err? {
      return Response(500, ErrorMessage(req.body.error)), [];
    }
    var body := req.body.value;
    if MissingField(body) {
      return Response(400, ErrorMessage(MissingFields)), [];
    }
    calls := [AuthCall(body)];
    if authReply.Err? {
      return Response(500, ErrorMessage(AuthErrorPrefix + authReply.error)), calls;
    }
    calls := calls + [InsertRole(RoleInsertOf(body))];
    if roleReply.Some? {
      return Response(500, ErrorMessage(roleReply.value)), calls;
    }
    resp := Response(200, Success(RoleCreated));
  }

  /** The handler with the linking role row: the same dispatch, checks and replies, with the
      new user's id, the trimmed display name and the role in the `user_roles` insert. */
  method HandleCreateOperatorLinked(req: Request, authReply: Result<string, string>, roleReply: Option<string>)
    returns (resp: Response, calls: seq<StoreCall>)
    ensures req.httpMethod == "OPTIONS" ==> resp == Preflight && calls == []
    ensures req.httpMethod != "OPTIONS" && req.httpMethod != "POST" ==> resp == MethodNotAllowed && calls == []
    ensures req.httpMethod == "POST" && req.body.Err? ==> resp == Response(500, ErrorMessage(req.body.error)) && calls == []
    ensures req.httpMethod == "POST" && req.body.Ok? && MissingField(req.body.value)
            ==> resp == Response(400, ErrorMessage(MissingFields)) && calls == []
    ensures req.httpMethod == "POST" && req.body.Ok? && !MissingField(req.body.value) && authReply.Err?
            ==> resp == Response(500, ErrorMessage(AuthErrorPrefix + authReply.error))
                && calls == [AuthCall(req.body.value)]
    ensures req.httpMethod == "POST" && req.body.Ok? && !MissingField(req.body.value) && authReply.Ok?
            ==> calls == [AuthCall(req.body.value), InsertRole(LinkedRoleInsert(req.body.value, authReply.value))]
                && resp == (if roleReply.Some? then Response(500, ErrorMessage(roleReply.value))
                            else Response(200, Success(RoleCreated)))
  {
    if req.httpMethod == "OPTIONS" {
      return Preflight, [];
    }
    if req.httpMethod != "POST" {
      return MethodNotAllowed, [];
    }
    if req.body.Err? {
      return Response(500, ErrorMessage(req.body.error)), [];
    }
    var body := req.body.value;
    if MissingField(body) {
      return Response(400, ErrorMessage(MissingFields)), [];
    }
    calls := [AuthCall(body)];
    if authReply.Err? {
      return Response(500, ErrorMessage(AuthErrorPrefix + authReply.error)), calls;
    }
    calls := calls + [InsertRole(LinkedRoleInsert(body, authReply.value))];
    if roleReply.Some? {
      return Response(500, ErrorMessage(roleReply.value)), calls;
    }
    resp := Response(200, Success(RoleCreated));
  }

  /** As written, a successfully created operator still has no role: the stored row is not
      found by the new user's id, so the user is neither admin nor scanner. */
  lemma CreatedOperatorHasNoRole(b: OperatorBody, newUserId: string, table: seq<UserRole>, rowId: string, createdAt: string)
    requires !MissingField(b)
    requires forall i :: 0 <= i < |table| ==> table[i].userId != newUserId
    ensures var stored := table + StoredRows(RoleInsertOf(b), rowId, createdAt);
            stored == table
            && !IsScanner(RoleData(UserRoleOf(Some(newUserId), stored)))
            && !IsAdmin(RoleData(UserRoleOf(Some(newUserId), stored)))
  {
    assert StoredRows(RoleInsertOf(b), rowId, createdAt) == [];
    assert table + [] == table;
    NoRowNoRole(newUserId, table);
  }

  /** With the linking row, the new operator's role is the one requested, so a "scanner" or
      "admin" operator passes the scanner page's role check. */
  lemma LinkedOperatorHasRole(b: OperatorBody, newUserId: string, table: seq<UserRole>, rowId: string, createdAt: string)
    requires !MissingField(b) && newUserId != ""
    requires forall i :: 0 <= i < |table| ==> table[i].userId != newUserId
    ensures var stored := table + StoredRows(LinkedRoleInsert(b, newUserId), rowId, createdAt);
            UserRoleOf(Some(newUserId), stored) == Ok(Some(b.role.value))
            && (IsScanner(RoleData(UserRoleOf(Some(newUserId), stored))) <==> b.role.value in {"scanner", "admin"})
  {
    var row := StoredRole(LinkedRoleInsert(b, newUserId), rowId, createdAt).value;
    var p := (r: UserRole) => r.userId == newUserId;
    FilterNone(table, p);
    FilterAll([row], p);
    FilterAppend(table, [row], p);
  }
}
