/**
 * The in-memory stand-in for the PostgreSQL tables the services query, with
 * `getUserByEmail` of src/lib/utils.ts, the one lookup every flow shares.
 */
module Database {
  import opened Wrappers
  import opened Types

  /** No two users share an email (the table's unique constraint). */
  predicate EmailsUnique(users: map<string, User>)
  {
    forall a, b :: a in users && b in users && users[a].email == users[b].email ==> a == b
  }

  /** Every user is stored under its own `user_id`, and emails are unique. */
  predicate UsersWellFormed(users: map<string, User>)
  {
    && (forall k :: k in users ==> users[k].userId == k)
    && EmailsUnique(users)
  }

  /** `getUserByEmail`: `rows[0]` of the select by email, `undefined` when there is none. */
  function UserByEmail(users: map<string, User>, email: string): (r: Option<User>)
    requires EmailsUnique(users)
    ensures r.None? <==> forall k :: k in users ==> users[k].email != email
    ensures r.Some? ==> r.value.email == email && exists k :: k in users && users[k] == r.value
  {
    if exists k :: k in users && users[k].email == email then
      var k :| k in users && users[k].email == email;
      Some(users[k])
    else None
  }

  /** Looking up by email finds the user stored under the id when the email is theirs. */
  lemma UserByEmailFinds(users: map<string, User>, id: string)
    requires UsersWellFormed(users) && id in users
    ensures UserByEmail(users, users[id].email) == Some(users[id])
  {
  }

  /** The selection `WHERE user_id = $1` on a text column: a NULL parameter matches no row. */
  predicate SameId(id: Option<string>, userId: string)
  {
    id == Some(userId)
  }

  /** The two tables. The role a new row gets is the column's default, `defaultRole`. */
  class Store {
    var users: map<string, User>
    var backupCodes: seq<BackupCodeRow>
    const defaultRole: string

    ghost predicate Valid()
      reads this
    {
      UsersWellFormed(users)
    }

    constructor (defaultRole: string)
      ensures Valid() && users == map[] && backupCodes == [] && this.defaultRole == defaultRole
    {
      this.defaultRole := defaultRole;
      users := map[];
      backupCodes := [];
    }
  }
}
