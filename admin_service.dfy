/**
 * Granting and revoking the Admin role. Each handler reads the stored role of
 * the user named in the body and overwrites it. For an unknown id
 * `rows[0].role` reads a property of `undefined`, which throws and is answered
 * with 500.
 */
module AdminService {
  import opened Wrappers
  import opened Types
  import opened Database
  import AuthService

  /** A handler's status and the users table it leaves. */
  datatype AdminOutcome = AdminOutcome(status: int, users: map<string, User>)

  /** `grantAdmin` on a snapshot of the users table. */
  function Grant(users: map<string, User>, id: string): (r: AdminOutcome)
    ensures id !in users ==> r == AdminOutcome(500, users)
    ensures id in users && users[id].role == "Admin" ==> r == AdminOutcome(400, users)
    ensures id in users && users[id].role != "Admin" ==>
              r.status == 200 && r.users == users[id := users[id].(role := "Admin")]
    ensures r.users.Keys == users.Keys
    ensures forall k :: k in users && k != id ==> r.users[k] == users[k]
    ensures UsersWellFormed(users) ==> UsersWellFormed(r.users)
  {
    if id !in users then AdminOutcome(500, users)
    else if users[id].role == "Admin" then AdminOutcome(400, users)
    else AdminOutcome(200, users[id := users[id].(role := "Admin")])
  }

  /** `revokeAdmin` on a snapshot of the users table. */
  function Revoke(users: map<string, User>, id: string): (r: AdminOutcome)
    ensures id !in users ==> r == AdminOutcome(500, users)
    ensures id in users && users[id].role != "Admin" ==> r == AdminOutcome(400, users)
    ensures id in users && users[id].role == "Admin" ==>
              r.status == 200 && r.users == users[id := users[id].(role := "User")]
    ensures r.users.Keys == users.Keys
    ensures forall k :: k in users && k != id ==> r.users[k] == users[k]
    ensures UsersWellFormed(users) ==> UsersWellFormed(r.users)
  {
    if id !in users then AdminOutcome(500, users)
    else if users[id].role != "Admin" then AdminOutcome(400, users)
    else AdminOutcome(200, users[id := users[id].(role := "User")])
  }

  /** `grantAdmin`. */
  method GrantAdmin(db: Store, id: string) returns (status: int)
    requires db.Valid()
    modifies db
    ensures db.Valid() && db.backupCodes == old(db.backupCodes)
    ensures AdminOutcome(status, db.users) == Grant(old(db.users), id)
  {
    if id !in db.users {
      return 500;
    }
    var currentRole := db.users[id].role;
    if currentRole == "Admin" {
      return 400;
    }
    db.users := db.users[id := db.users[id].(role := "Admin")];
    status := 200;
  }

  /** `revokeAdmin`. */
  method RevokeAdmin(db: Store, id: string) returns (status: int)
    requires db.Valid()
    modifies db
    ensures db.Valid() && db.backupCodes == old(db.backupCodes)
    ensures AdminOutcome(status, db.users) == Revoke(old(db.users), id)
  {
    if id !in db.users {
      return 500;
    }
    var currentRole := db.users[id].role;
    if currentRole != "Admin" {
      return 400;
    }
    db.users := db.users[id := db.users[id].(role := "User")];
    status := 200;
  }

  /** Granting twice: the second grant is refused and changes nothing. */
  lemma GrantTwiceRefused(users: map<string, User>, id: string)
    requires Grant(users, id).status == 200
    ensures Grant(Grant(users, id).users, id) == AdminOutcome(400, Grant(users, id).users)
  {
  }

  /** After a successful grant a revoke succeeds and leaves the role "User", whatever it was before. */
  lemma GrantThenRevoke(users: map<string, User>, id: string)
    requires Grant(users, id).status == 200
    ensures Revoke(Grant(users, id).users, id).status == 200
    ensures Revoke(Grant(users, id).users, id).users == users[id := users[id].(role := "User")]
  {
    var granted := Grant(users, id).users;
    assert granted[id].(role := "User") == users[id].(role := "User");
    assert granted[id := granted[id].(role := "User")] == users[id := users[id].(role := "User")];
  }

  /** So revoke undoes grant exactly when the role was "User" ... */
  lemma GrantRevokeRestoresUser(users: map<string, User>, id: string)
    requires id in users && users[id].role == "User"
    ensures Revoke(Grant(users, id).users, id) == AdminOutcome(200, users)
  {
    GrantThenRevoke(users, id);
    assert users[id].(role := "User") == users[id];
    assert users[id := users[id]] == users;
  }

  /** ... and not for a "Guest", who comes back as a "User". */
  lemma GrantRevokePromotesGuest()
    ensures var users := map["g" := User("g", "g@example.org", "digest", "Guest", false, None)];
            && Grant(users, "g").status == 200
            && Revoke(Grant(users, "g").users, "g").status == 200
            && Revoke(Grant(users, "g").users, "g").users["g"].role == "User"
            && Revoke(Grant(users, "g").users, "g").users != users
  {
    var users := map["g" := User("g", "g@example.org", "digest", "Guest", false, None)];
    GrantThenRevoke(users, "g");
    assert Revoke(Grant(users, "g").users, "g").users["g"] != users["g"];
  }

  /** A token refreshed after a grant carries the new role, since refresh re-reads the user by email. */
  lemma RefreshAfterGrant(users: map<string, User>, id: string, cookie: Option<string>,
                          verifyRefresh: string -> Option<Claims>)
    requires UsersWellFormed(users) && Grant(users, id).status == 200 && Present(cookie)
    requires verifyRefresh(cookie.value).Some? && verifyRefresh(cookie.value).value.email == Some(users[id].email)
    ensures AuthService.RefreshUser(Grant(users, id).users, cookie, verifyRefresh).access.value.claims.role == Some("Admin")
  {
    var granted := Grant(users, id).users;
    assert granted[id].email == users[id].email;
    AuthService.RefreshReflectsStoredRole(granted, cookie, verifyRefresh, id);
  }
}
