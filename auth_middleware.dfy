/**
 * The request guards. Each one reads the bearer token, verifies it (`verify`
 * stands for `jwt.verify` under JWT_SECRET and is None when it throws) and
 * either passes the request on or answers with a status. They are functions:
 * no guard changes any state.
 */
module AuthMiddleware {
  import opened Wrappers
  import opened Types
  import opened Headers
  import Utils

  /** The `Role` enum. */
  datatype Role = Guest | User | Admin

  /** The enum's numeric values. */
  function RoleValue(r: Role): int
  {
    match r
    case Guest => 0
    case User => 1
    case Admin => 2
  }

  /** The role strings stored in the users table and in tokens. */
  function RoleName(r: Role): string
  {
    match r
    case Guest => "Guest"
    case User => "User"
    case Admin => "Admin"
  }

  /** The `roles` array, ordered by rank. */
  const Roles: seq<string> := ["Guest", "User", "Admin"]

  /** `xs.indexOf(x)`: the first position of `x`, or -1. */
  function IndexOf<T(==)>(xs: seq<T>, x: T): (i: int)
    ensures i == -1 <==> x !in xs
    ensures 0 <= i ==> i < |xs| && xs[i] == x && x !in xs[..i]
    ensures -1 <= i
  {
    if xs == [] then -1
    else if xs[0] == x then 0
    else
      var k := IndexOf(xs[1..], x);
      assert xs[1..][..if k < 0 then 0 else k] == xs[1..if k < 0 then 1 else k + 1];
      if k == -1 then -1 else k + 1
  }

  /** `roles.indexOf(decoded.role)`; a missing role claim is `undefined`, never in the array. */
  function RoleRank(role: Option<string>): (rank: int)
    ensures rank == -1 <==> role.None? || role.value !in Roles
    ensures rank != -1 ==> 0 <= rank < 3 && Roles[rank] == role.value
  {
    if role.None? then -1 else IndexOf(Roles, role.value)
  }

  /** The array and the enum agree: each role's name sits at its enum value. */
  lemma {:induction false} RankOfRoleName(r: Role)
    ensures RoleRank(Some(RoleName(r))) == RoleValue(r)
  {
    match r
    case Guest =>
    case User =>
      assert Roles[0] != "User";
      assert Roles[1..][0] == "User";
    case Admin =>
      assert Roles[0] != "Admin" && Roles[1] != "Admin";
      assert Roles[1..][1..][0] == "Admin";
  }

  /** The outcome of a guard: call `next()`, or answer with a status. */
  datatype Decision = Next | Deny(status: int)

  /** `authAdmin`: only the "Admin" role ranks at least Role.ADMIN. */
  function AuthAdmin(header: Option<string>, verify: string -> Option<Claims>): (d: Decision)
    ensures d == Deny(401) <==> Verified(header, verify).None?
    ensures d == Next <==> Verified(header, verify).Some? && Verified(header, verify).value.role == Some("Admin")
    ensures d == Next || d == Deny(401) || d == Deny(403)
  {
    if BearerToken(header).None? then Deny(401)
    else match verify(BearerToken(header).value)
      case None => Deny(401)
      case Some(claims) =>
        RankOfRoleName(Admin);
        if RoleRank(claims.role) < RoleValue(Admin) then Deny(403) else Next
  }

  /** `authUser`: "User" and "Admin" pass; "Guest" and unknown role strings are forbidden. */
  function AuthUser(header: Option<string>, verify: string -> Option<Claims>): (d: Decision)
    ensures d == Deny(401) <==> Verified(header, verify).None?
    ensures d == Next <==> Verified(header, verify).Some? && Verified(header, verify).value.role in {Some("User"), Some("Admin")}
    ensures d == Next || d == Deny(401) || d == Deny(403)
  {
    if BearerToken(header).None? then Deny(401)
    else match verify(BearerToken(header).value)
      case None => Deny(401)
      case Some(claims) =>
        RankOfRoleName(Role.User);
        RankOfRoleName(Admin);
        if RoleRank(claims.role) < RoleValue(Role.User) then Deny(403) else Next
  }

  /** `authSelf`: compares the `user_id` claim with the path id; the role plays no part. */
  function AuthSelf(header: Option<string>, verify: string -> Option<Claims>, pathId: string): (d: Decision)
    ensures d == Deny(401) <==> Verified(header, verify).None?
    ensures d == Next <==> Verified(header, verify).Some? && Verified(header, verify).value.userId == Some(pathId)
    ensures d == Next || d == Deny(401) || d == Deny(403)
  {
    if BearerToken(header).None? then Deny(401)
    else match verify(BearerToken(header).value)
      case None => Deny(401)
      case Some(claims) => if claims.userId != Some(pathId) then Deny(403) else Next
  }

  /** `authSelfOrAdmin`: forbidden exactly when the `id` claim is not the path id and the role ranks below Admin. */
  function AuthSelfOrAdmin(header: Option<string>, verify: string -> Option<Claims>, pathId: string): (d: Decision)
    ensures d == Deny(401) <==> Verified(header, verify).None?
    ensures d == Deny(403) <==>
              && Verified(header, verify).Some?
              && Verified(header, verify).value.id != Some(pathId)
              && RoleRank(Verified(header, verify).value.role) < RoleValue(Admin)
    ensures d == Next || d == Deny(401) || d == Deny(403)
  {
    if BearerToken(header).None? then Deny(401)
    else match verify(BearerToken(header).value)
      case None => Deny(401)
      case Some(claims) =>
        if claims.id != Some(pathId) && RoleRank(claims.role) < RoleValue(Admin) then Deny(403) else Next
  }

  /** The guards are ordered: a request `authAdmin` lets through, `authUser` lets through too. */
  lemma AdminPassesUserGuard(header: Option<string>, verify: string -> Option<Claims>)
    ensures AuthAdmin(header, verify) == Next ==> AuthUser(header, verify) == Next
  {
  }

  /** Minimum-role reading of the two rank guards, over the enum. */
  lemma {:induction false} RankGuardsByRole(header: Option<string>, verify: string -> Option<Claims>, r: Role)
    requires Verified(header, verify).Some?
    requires Verified(header, verify).value.role == Some(RoleName(r))
    ensures AuthAdmin(header, verify) == Next <==> RoleValue(r) >= RoleValue(Admin)
    ensures AuthUser(header, verify) == Next <==> RoleValue(r) >= RoleValue(Role.User)
  {
    RankOfRoleName(r);
  }

  /** Tokens the service issues have no `user_id` claim, so `authSelf` forbids every one of them. */
  lemma AuthSelfRejectsIssuedTokens(header: Option<string>, verify: string -> Option<Claims>, p: Utils.Principal, pathId: string)
    requires Verified(header, verify) == Some(Utils.CreateAccessToken(p).claims)
    ensures AuthSelf(header, verify, pathId) == Deny(403)
  {
  }

  /** An Admin token passes `authSelfOrAdmin` for every path id. */
  lemma AdminPassesSelfOrAdmin(header: Option<string>, verify: string -> Option<Claims>, pathId: string)
    requires AuthAdmin(header, verify) == Next
    ensures AuthSelfOrAdmin(header, verify, pathId) == Next
  {
    RankOfRoleName(Admin);
  }
}
