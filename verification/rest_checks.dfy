/** Two pure checks of the REST API in files/server.js: the role whitelist
    of `PATCH /api/users/:id/role` and the member list built by
    `POST /api/messages/rooms`. */
module RestChecks {
  import opened JsSet
  import opened Protocol

  /** The values of the `user_role` enum. */
  datatype Role = Admin | Moderator | Regular

  function RoleName(r: Role): string {
    match r
    case Admin => "admin"
    case Moderator => "moderator"
    case Regular => "user"
  }

  /** Reads a role name; `None` for anything outside the enum. */
  function ParseRole(s: string): (r: Option<Role>)
    ensures r.Some? ==> RoleName(r.value) == s
  {
    if s == "admin" then Some(Admin)
    else if s == "moderator" then Some(Moderator)
    else if s == "user" then Some(Regular)
    else None
  }

  /** Every enum value is read back from its own name, and only names of
      enum values are read at all. */
  lemma ParseRoleName(r: Role, s: string)
    ensures ParseRole(RoleName(r)) == Some(r)
    ensures ParseRole(s).Some? <==> exists q: Role :: RoleName(q) == s
  {
    if exists q: Role :: RoleName(q) == s {
      var q: Role :| RoleName(q) == s;
      assert ParseRole(RoleName(q)) == Some(q);
    }
  }

  datatype RoleUpdate = Accepted(role: Role) | Rejected(status: nat, error: string)

  /** The whitelist in front of the UPDATE: only `admin`, `moderator` and
      `user` get through; anything else is a 400 "Invalid role". */
  function CheckRoleUpdate(role: string): (r: RoleUpdate)
    ensures r.Accepted? <==> role == "admin" || role == "moderator" || role == "user"
    ensures r.Accepted? ==> RoleName(r.role) == role
    ensures r.Rejected? ==> r.status == 400 && r.error == "Invalid role"
  {
    match ParseRole(role)
    case Some(q) => Accepted(q)
    case None => Rejected(400, "Invalid role")
  }

  /** `[...new Set([creator, ...memberIds])]`: the creator first, then every
      listed member, each once. */
  method RoomMembers(creator: UserId, memberIds: seq<UserId>) returns (members: seq<UserId>)
    ensures NoDup(members)
    ensures |members| > 0 && members[0] == creator
    ensures forall u :: u in members <==> u == creator || u in memberIds
  {
    members := [creator];
    var i := 0;
    while i < |memberIds|
      invariant 0 <= i <= |memberIds|
      invariant NoDup(members)
      invariant |members| > 0 && members[0] == creator
      invariant forall u :: u in members <==> u == creator || u in memberIds[..i]
    {
      members := Add(members, memberIds[i]);
      i := i + 1;
    }
    assert memberIds[..i] == memberIds;
  }
}
