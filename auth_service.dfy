/**
 * Registration, login, token refresh and two-factor enrolment over the
 * in-memory store. The chains of early returns are functions yielding the
 * step the handler takes next; the handlers that write the tables are methods
 * that take a `Database.Store` and modify it. Oracles: `complex` is `checkPasswordComplexity`,
 * `matches` is `bcrypt.compare`, `totp` is TOTP validation with window 0 for
 * a stored secret, and `verify`/`verifyRefresh` are `jwt.verify` under the
 * access and the refresh secret (None when it throws).
 */
module AuthService {
  import opened Wrappers
  import opened Types
  import opened Headers
  import opened Seqs
  import opened Database
  import opened Utils
  import opened JsStrings

  // ---------------------------------------------------------------- replies

  /** A success reply carrying an access and a refresh token for `user`. */
  function SessionReply(user: User): (r: Reply)
    ensures r.Reply? && r.status == 201
    ensures r.access == Some(CreateAccessToken(PrincipalOf(user)))
    ensures r.refresh == Some(CreateRefreshToken(user))
  {
    Reply(201, Some(CreateAccessToken(PrincipalOf(user))), Some(CreateRefreshToken(user)))
  }

  /** A reply with a status and no token. */
  function Refusal(status: int): Reply
  {
    Reply(status, None, None)
  }

  // ----------------------------------------------------------- registration

  /** The checks `registerUser` makes before hashing: None lets it go on. */
  function RegisterGate(email: Option<string>, password: Option<string>, complex: string -> bool): (refusal: Option<int>)
    ensures !Present(email) || !Present(password) ==> refusal == Some(400)
    ensures refusal.None? <==> Present(email) && Present(password) && complex(password.value)
    ensures refusal.None? || refusal == Some(400)
  {
    if !Present(email) || !Present(password) then Some(400)
    else if !complex(password.value) then Some(400)
    else None
  }

  /** The insert violates a unique constraint: the id or the email is already stored. */
  predicate InsertConflicts(users: map<string, User>, id: string, email: string)
  {
    id in users || exists k :: k in users && users[k].email == email
  }

  /**
   * `registerUser`. `newId` is the fresh `uuid()` and `digest` the bcrypt hash
   * of the password; a duplicate key is answered with 409.
   */
  method RegisterUser(db: Store, email: Option<string>, password: Option<string>,
                      complex: string -> bool, newId: string, digest: string) returns (reply: Reply)
    requires db.Valid()
    modifies db
    ensures db.Valid() && db.backupCodes == old(db.backupCodes)
    ensures RegisterGate(email, password, complex).Some? ==>
              reply == Refusal(400) && db.users == old(db.users)
    ensures RegisterGate(email, password, complex).None? && InsertConflicts(old(db.users), newId, email.value) ==>
              reply == Refusal(409) && db.users == old(db.users)
    ensures RegisterGate(email, password, complex).None? && !InsertConflicts(old(db.users), newId, email.value) ==>
              var user := User(newId, email.value, digest, db.defaultRole, false, None);
              && db.users == old(db.users)[newId := user]
              && reply == SessionReply(user)
  {
    var refusal := RegisterGate(email, password, complex);
    if refusal.Some? {
      return Refusal(refusal.value);
    }
    if InsertConflicts(db.users, newId, email.value) {
      return Refusal(409);
    }
    var user := User(newId, email.value, digest, db.defaultRole, false, None);
    db.users := db.users[newId := user];
    reply := SessionReply(user);
  }

  // --------------------------------------------------------------- backup codes

  /** How many backup codes an enrolment generates. */
  const BackupCodeCount: nat := 8

  /** A row of `user_id = $1 AND code = $2`. */
  predicate CodeMatches(row: BackupCodeRow, id: string, code: string)
  {
    row.userId == id && row.code == code
  }

  /** `rows[0]` of the select: the first matching row in table order. */
  function FirstMatch(rows: seq<BackupCodeRow>, id: string, code: string): (i: Option<nat>)
    ensures i.Some? ==> i.value < |rows| && CodeMatches(rows[i.value], id, code)
    ensures i.Some? ==> forall j :: 0 <= j < i.value ==> !CodeMatches(rows[j], id, code)
    ensures i.None? ==> forall j :: 0 <= j < |rows| ==> !CodeMatches(rows[j], id, code)
  {
    if rows == [] then None
    else if CodeMatches(rows[0], id, code) then Some(0)
    else match FirstMatch(rows[1..], id, code)
      case None => None
      case Some(k) => Some(k + 1)
  }

  /** The select finds a row and the first one found is not used yet. */
  predicate BackupCodeUsable(rows: seq<BackupCodeRow>, id: string, code: string)
  {
    var i := FirstMatch(rows, id, code);
    i.Some? && !rows[i.value].isUsed
  }

  /** `UPDATE tfa_backup_codes SET is_used = true WHERE user_id = $1 AND code = $2`. */
  function MarkUsed(rows: seq<BackupCodeRow>, id: string, code: string): (r: seq<BackupCodeRow>)
    ensures |r| == |rows|
    ensures forall i :: 0 <= i < |rows| && CodeMatches(rows[i], id, code) ==> r[i] == rows[i].(isUsed := true)
    ensures forall i :: 0 <= i < |rows| && !CodeMatches(rows[i], id, code) ==> r[i] == rows[i]
  {
    seq(|rows|, i requires 0 <= i < |rows| => if CodeMatches(rows[i], id, code) then rows[i].(isUsed := true) else rows[i])
  }

  /** A code is accepted at most once: after it is marked used it is never usable again. */
  lemma ConsumeOnce(rows: seq<BackupCodeRow>, id: string, code: string)
    ensures !BackupCodeUsable(MarkUsed(rows, id, code), id, code)
  {
    var marked := MarkUsed(rows, id, code);
    var i := FirstMatch(marked, id, code);
    if i.Some? {
      assert CodeMatches(rows[i.value], id, code);
    }
  }

  /** Consuming one code leaves every other code's usability as it was. */
  lemma {:induction false} ConsumeLeavesOthers(rows: seq<BackupCodeRow>, id: string, code: string, id': string, code': string)
    requires id' != id || code' != code
    ensures BackupCodeUsable(MarkUsed(rows, id, code), id', code') == BackupCodeUsable(rows, id', code')
  {
    var marked := MarkUsed(rows, id, code);
    forall j | 0 <= j < |rows|
      ensures CodeMatches(marked[j], id', code') == CodeMatches(rows[j], id', code')
      ensures CodeMatches(rows[j], id', code') ==> marked[j] == rows[j]
    {
    }
    FirstMatchAgrees(marked, rows, id', code');
  }

  /** Two tables that agree on which rows match, and on those rows, have the same first match. */
  lemma {:induction false} FirstMatchAgrees(a: seq<BackupCodeRow>, b: seq<BackupCodeRow>, id: string, code: string)
    requires |a| == |b|
    requires forall j :: 0 <= j < |a| ==> CodeMatches(a[j], id, code) == CodeMatches(b[j], id, code)
    requires forall j :: 0 <= j < |a| && CodeMatches(b[j], id, code) ==> a[j] == b[j]
    ensures FirstMatch(a, id, code) == FirstMatch(b, id, code)
    ensures BackupCodeUsable(a, id, code) == BackupCodeUsable(b, id, code)
  {
    if a != [] && !CodeMatches(a[0], id, code) {
      FirstMatchAgrees(a[1..], b[1..], id, code);
    }
  }

  /** `checkBackupCode`: select, then mark every matching row used. */
  method CheckBackupCode(db: Store, id: string, code: string) returns (ok: bool)
    modifies db
    ensures db.users == old(db.users)
    ensures ok == BackupCodeUsable(old(db.backupCodes), id, code)
    ensures db.backupCodes == if ok then MarkUsed(old(db.backupCodes), id, code) else old(db.backupCodes)
  {
    var first := FirstMatch(db.backupCodes, id, code);
    if first.None? || db.backupCodes[first.value].isUsed {
      return false;
    }
    db.backupCodes := MarkUsed(db.backupCodes, id, code);
    ok := true;
  }

  /** The character of a decimal digit. */
  function DigitChar(d: nat): (c: char)
    requires d < 10
    ensures '0' <= c <= '9'
  {
    (48 + d) as char
  }

  predicate AllDigits(s: string)
  {
    forall i :: 0 <= i < |s| ==> '0' <= s[i] <= '9'
  }

  /** `n.toString()` for a non-negative integer. */
  function DecimalString(n: nat): (s: string)
    ensures |s| >= 1 && AllDigits(s)
    decreases n
  {
    if n < 10 then [DigitChar(n)] else DecimalString(n / 10) + [DigitChar(n % 10)]
  }

  /** The number a string of digits denotes. */
  function DecimalValue(s: string): nat
    requires AllDigits(s)
  {
    if s == [] then 0 else 10 * DecimalValue(s[..|s| - 1]) + ((s[|s| - 1] as int) - 48)
  }

  /** Printing then reading a number gives it back. */
  lemma {:induction false} DecimalRoundTrip(n: nat)
    ensures DecimalValue(DecimalString(n)) == n
    decreases n
  {
    var s := DecimalString(n);
    if n >= 10 {
      DecimalRoundTrip(n / 10);
      assert s[..|s| - 1] == DecimalString(n / 10);
    }
  }

  function Pow10(k: nat): (p: nat)
    ensures p >= 1
  {
    if k == 0 then 1 else 10 * Pow10(k - 1)
  }

  /** A number between 10^k and 10^(k+1) prints with k + 1 digits. */
  lemma {:induction false} DecimalLength(n: nat, k: nat)
    requires Pow10(k) <= n < Pow10(k + 1)
    ensures |DecimalString(n)| == k + 1
    decreases k
  {
    if k > 0 {
      assert Pow10(k) == 10 * Pow10(k - 1);
      assert Pow10(k + 1) == 10 * Pow10(k);
      DecimalLength(n / 10, k - 1);
    } else {
      assert Pow10(1) == 10;
    }
  }

  /** An 8-digit decimal code for a number in [10000000, 99999999]. */
  predicate IsBackupCode(s: string)
  {
    |s| == 8 && AllDigits(s) && 10000000 <= DecimalValue(s) <= 99999999
  }

  /** `Math.floor(10000000 + draw).toString()` is a backup code for each draw in range. */
  lemma BackupCodeShape(draw: int)
    requires 0 <= draw < 90000000
    ensures IsBackupCode(DecimalString(10000000 + draw))
  {
    assert Pow10(7) == 10000000 && Pow10(8) == 100000000 by {
      assert Pow10(1) == 10;
      assert Pow10(4) == 10000;
    }
    DecimalLength(10000000 + draw, 7);
    DecimalRoundTrip(10000000 + draw);
  }

  /**
   * `generateBackupCodes`. `draws[i]` is the i-th value of
   * `Math.random() * 90000000`, already truncated to an integer.
   */
  method GenerateBackupCodes(draws: seq<int>) returns (codes: seq<string>)
    requires |draws| == BackupCodeCount
    requires forall i :: 0 <= i < |draws| ==> 0 <= draws[i] < 90000000
    ensures |codes| == BackupCodeCount
    ensures forall i :: 0 <= i < |codes| ==> codes[i] == DecimalString(10000000 + draws[i])
    ensures forall i :: 0 <= i < |codes| ==> IsBackupCode(codes[i])
  {
    codes := [];
    for i := 0 to BackupCodeCount
      invariant |codes| == i
      invariant forall j :: 0 <= j < i ==> codes[j] == DecimalString(10000000 + draws[j])
      invariant forall j :: 0 <= j < i ==> IsBackupCode(codes[j])
    {
      BackupCodeShape(draws[i]);
      var code := DecimalString(10000000 + draws[i]);
      codes := codes + [code];
    }
  }

  // -------------------------------------------------------------------- login

  /** Where `loginUser`'s chain of checks leads. */
  datatype LoginStep =
    | LoginRefused(status: int)
    | LoginTotp(user: User, code: string)
    | LoginBackupCode(user: User, code: string)
    | LoginIssue(user: User)

  /**
   * The checks of `loginUser`, in order: both fields, the user, the 2FA gate,
   * the password, then the second factor chosen by the token's length in
   * UTF-16 code units. A token of any other length is not checked at all.
   */
  function LoginGate(users: map<string, User>, email: Option<string>, password: Option<string>,
                     token: Option<string>, matches: (string, string) -> bool): (s: LoginStep)
    requires EmailsUnique(users)
    ensures !Present(email) || !Present(password) ==> s == LoginRefused(400)
    ensures Present(email) && Present(password) && UserByEmail(users, email.value).None? ==> s == LoginRefused(404)
    ensures Present(email) && Present(password) && UserByEmail(users, email.value).Some? ==>
              var user := UserByEmail(users, email.value).value;
              && (user.tfaEnabled && !Present(token) ==> s == LoginRefused(401))
              && (!(user.tfaEnabled && !Present(token)) && !matches(password.value, user.password) ==> s == LoginRefused(401))
    ensures Present(email) && Present(password) && UserByEmail(users, email.value).Some? ==>
              var user := UserByEmail(users, email.value).value;
              !(user.tfaEnabled && !Present(token)) && matches(password.value, user.password) ==>
                !s.LoginRefused? && s.user == user
    ensures !s.LoginRefused? ==>
              && Present(email) && Present(password)
              && UserByEmail(users, email.value) == Some(s.user)
              && (s.user.tfaEnabled ==> Present(token))
              && matches(password.value, s.user.password)
    ensures s.LoginTotp? <==> !s.LoginRefused? && s.user.tfaEnabled && JsLength(token.value) == 6
    ensures s.LoginBackupCode? <==> !s.LoginRefused? && s.user.tfaEnabled && JsLength(token.value) == 8
    ensures s.LoginTotp? || s.LoginBackupCode? ==> s.code == token.value
    ensures s.LoginIssue? <==> !s.LoginRefused? && (!s.user.tfaEnabled || JsLength(token.value) !in {6, 8})
    ensures s.LoginRefused? ==> s.status in {400, 401, 404}
  {
    if !Present(email) || !Present(password) then LoginRefused(400)
    else match UserByEmail(users, email.value)
      case None => LoginRefused(404)
      case Some(user) =>
        if user.tfaEnabled && !Present(token) then LoginRefused(401)
        else if !matches(password.value, user.password) then LoginRefused(401)
        else if user.tfaEnabled && JsLength(token.value) == 6 then LoginTotp(user, token.value)
        else if user.tfaEnabled && JsLength(token.value) == 8 then LoginBackupCode(user, token.value)
        else LoginIssue(user)
  }

  /**
   * The length that routes the second factor is JavaScript's, in UTF-16 code
   * units: three characters above U+FFFF make a 6-unit token, which goes to
   * TOTP validation.
   */
  lemma LoginRoutesByCodeUnits(users: map<string, User>, email: Option<string>, password: Option<string>,
                               matches: (string, string) -> bool)
    requires EmailsUnique(users) && Present(email) && Present(password)
    requires UserByEmail(users, email.value).Some? && UserByEmail(users, email.value).value.tfaEnabled
    requires matches(password.value, UserByEmail(users, email.value).value.password)
    ensures LoginGate(users, email, password, Some("\U{1F600}\U{1F600}\U{1F600}"), matches).LoginTotp?
  {
    SurrogatePairsCountTwice();
  }

  /** With 2FA on and no token, the answer is 401 whatever the password: the gate comes first. */
  lemma TfaGateBeforePassword(users: map<string, User>, email: Option<string>, password: Option<string>,
                              token: Option<string>, m1: (string, string) -> bool, m2: (string, string) -> bool)
    requires EmailsUnique(users) && Present(email) && Present(password) && !Present(token)
    requires UserByEmail(users, email.value).Some? && UserByEmail(users, email.value).value.tfaEnabled
    ensures LoginGate(users, email, password, token, m1) == LoginGate(users, email, password, token, m2) == LoginRefused(401)
  {
  }

  /** `loginUser`. */
  method LoginUser(db: Store, email: Option<string>, password: Option<string>, token: Option<string>,
                   matches: (string, string) -> bool, totp: (Option<string>, string) -> bool) returns (reply: Reply)
    requires db.Valid()
    modifies db
    ensures db.Valid() && db.users == old(db.users)
    ensures match LoginGate(old(db.users), email, password, token, matches)
      case LoginRefused(status) =>
        reply == Refusal(status) && db.backupCodes == old(db.backupCodes)
      case LoginTotp(user, code) =>
        && db.backupCodes == old(db.backupCodes)
        && reply == if totp(user.tfaSecret, code) then SessionReply(user) else Refusal(404)
      case LoginBackupCode(user, code) =>
        if BackupCodeUsable(old(db.backupCodes), user.userId, code) then
          reply == SessionReply(user) && db.backupCodes == MarkUsed(old(db.backupCodes), user.userId, code)
        else
          reply == Refusal(404) && db.backupCodes == old(db.backupCodes)
      case LoginIssue(user) =>
        reply == SessionReply(user) && db.backupCodes == old(db.backupCodes)
  {
    var step := LoginGate(db.users, email, password, token, matches);
    match step
    case LoginRefused(status) =>
      reply := Refusal(status);
    case LoginTotp(user, code) =>
      reply := if totp(user.tfaSecret, code) then SessionReply(user) else Refusal(404);
    case LoginBackupCode(user, code) =>
      var ok := CheckBackupCode(db, user.userId, code);
      reply := if ok then SessionReply(user) else Refusal(404);
    case LoginIssue(user) =>
      reply := SessionReply(user);
  }

  // ------------------------------------------------------------------ refresh

  /**
   * `refreshUser`: verifies the cookie with the refresh secret, reads the user
   * by the token's email and signs a new access token for what is stored now.
   * A user no longer found makes `createAccessToken` throw, which is caught as 401.
   */
  function RefreshUser(users: map<string, User>, cookie: Option<string>,
                       verifyRefresh: string -> Option<Claims>): (r: Reply)
    requires EmailsUnique(users)
    ensures r.Reply? && r.refresh.None?
    ensures r.status == 201 <==>
              && Present(cookie)
              && verifyRefresh(cookie.value).Some?
              && verifyRefresh(cookie.value).value.email.Some?
              && UserByEmail(users, verifyRefresh(cookie.value).value.email.value).Some?
    ensures r.status == 201 ==>
              r.access == Some(CreateAccessToken(PrincipalOf(
                UserByEmail(users, verifyRefresh(cookie.value).value.email.value).value)))
    ensures r.status != 201 ==> r == Refusal(401)
  {
    if !Present(cookie) then Refusal(401)
    else match verifyRefresh(cookie.value)
      case None => Refusal(401)
      case Some(claims) =>
        if claims.email.None? then Refusal(401)
        else match UserByEmail(users, claims.email.value)
          case None => Refusal(401)
          case Some(user) => Reply(201, Some(CreateAccessToken(PrincipalOf(user))), None)
  }

  /** The refreshed token carries the role stored now, not the one in the refresh token. */
  lemma RefreshReflectsStoredRole(users: map<string, User>, cookie: Option<string>,
                                  verifyRefresh: string -> Option<Claims>, id: string)
    requires UsersWellFormed(users) && id in users && Present(cookie)
    requires verifyRefresh(cookie.value).Some? && verifyRefresh(cookie.value).value.email == Some(users[id].email)
    ensures RefreshUser(users, cookie, verifyRefresh).status == 201
    ensures RefreshUser(users, cookie, verifyRefresh).access.value.claims.role == Some(users[id].role)
    ensures RefreshUser(users, cookie, verifyRefresh).access.value.claims.id == Some(id)
  {
    UserByEmailFinds(users, id);
  }

  // ---------------------------------------------------------------- enable 2FA

  /** Where `enableTwoFactorAuth`'s checks lead. */
  datatype EnableStep = EnableRefused(status: int) | EnableProceed(claims: Claims)

  /**
   * The checks of `enableTwoFactorAuth`: a token, its verification (a throw is
   * caught by the outer handler as 500), then the `tfa` claim.
   */
  function EnableGate(header: Option<string>, verify: string -> Option<Claims>): (s: EnableStep)
    ensures BearerToken(header).None? ==> s == EnableRefused(401)
    ensures BearerToken(header).Some? && verify(BearerToken(header).value).None? ==> s == EnableRefused(500)
    ensures BearerToken(header).Some? && verify(BearerToken(header).value).Some? ==>
              var claims := verify(BearerToken(header).value).value;
              s == if claims.tfa == Some(true) then EnableRefused(400) else EnableProceed(claims)
  {
    match BearerToken(header)
    case None => EnableRefused(401)
    case Some(t) =>
      match verify(t)
      case None => EnableRefused(500)
      case Some(claims) => if claims.tfa == Some(true) then EnableRefused(400) else EnableProceed(claims)
  }

  /** Issued tokens never carry `tfa`, so "already enabled" is never reported for them. */
  lemma EnableNeverSeesTfaClaim(header: Option<string>, verify: string -> Option<Claims>, p: Principal)
    requires BearerToken(header).Some? && verify(BearerToken(header).value) == Some(CreateAccessToken(p).claims)
    ensures EnableGate(header, verify) == EnableProceed(CreateAccessToken(p).claims)
  {
  }

  /** The rows `INSERT INTO tfa_backup_codes (user_id, code)` adds; `is_used` takes its default, false. */
  function NewCodeRows(id: string, codes: seq<string>): (rows: seq<BackupCodeRow>)
    ensures |rows| == |codes|
    ensures forall i :: 0 <= i < |codes| ==> rows[i] == BackupCodeRow(id, codes[i], false)
  {
    seq(|codes|, i requires 0 <= i < |codes| => BackupCodeRow(id, codes[i], false))
  }

  /**
   * `enableTwoFactorAuth`. `freshSecret` is `generateBase32Secret()` and
   * `draws` the random draws of `generateBackupCodes`. The code rows are
   * inserted without deleting earlier ones. When the `id` claim names no user
   * the update returns no row and the handler ends in 500; the insert is
   * assumed to fail then as well (the code table's `user_id` references users).
   */
  method EnableTwoFactorAuth(db: Store, header: Option<string>, verify: string -> Option<Claims>,
                             freshSecret: string, draws: seq<int>)
    returns (reply: Reply, secret: Option<string>, codes: seq<string>)
    requires db.Valid()
    requires |draws| == BackupCodeCount
    requires forall i :: 0 <= i < |draws| ==> 0 <= draws[i] < 90000000
    modifies db
    ensures db.Valid()
    ensures match EnableGate(header, verify)
      case EnableRefused(status) =>
        reply == Refusal(status) && secret.None? && codes == []
        && db.users == old(db.users) && db.backupCodes == old(db.backupCodes)
      case EnableProceed(claims) =>
        if claims.id.Some? && claims.id.value in old(db.users) then
          var id := claims.id.value;
          var user := old(db.users)[id].(tfaEnabled := true, tfaSecret := Some(freshSecret));
          && db.users == old(db.users)[id := user]
          && |codes| == BackupCodeCount
          && (forall i :: 0 <= i < |codes| ==> codes[i] == DecimalString(10000000 + draws[i]))
          && (forall i :: 0 <= i < |codes| ==> IsBackupCode(codes[i]))
          && db.backupCodes == old(db.backupCodes) + NewCodeRows(id, codes)
          && reply == Reply(200, Some(CreateAccessToken(PrincipalOf(user))), None)
          && secret == Some(freshSecret)
        else
          reply == Refusal(500) && secret.None? && codes == []
          && db.users == old(db.users) && db.backupCodes == old(db.backupCodes)
  {
    var step := EnableGate(header, verify);
    if step.EnableRefused? {
      return Refusal(step.status), None, [];
    }
    var claims := step.claims;
    if claims.id.None? || claims.id.value !in db.users {
      return Refusal(500), None, [];
    }
    var id := claims.id.value;
    var generated := GenerateBackupCodes(draws);
    var user := db.users[id].(tfaEnabled := true, tfaSecret := Some(freshSecret));
    db.users := db.users[id := user];
    db.backupCodes := db.backupCodes + NewCodeRows(id, generated);
    reply, secret, codes := Reply(200, Some(CreateAccessToken(PrincipalOf(user))), None), Some(freshSecret), generated;
  }

  // --------------------------------------------------------------- disable 2FA

  /** Where `disableTwoFactorAuth`'s checks lead. */
  datatype DisableStep =
    | DisableRefused(status: int)
    | DisableUnhandled
    | DisableTotp(claims: Claims, user: User, code: string)
    | DisableBackupCode(claims: Claims, user: User, code: string)

  /** The user `getUserByEmail` finds for a claim; a missing claim selects no row. */
  function UserByClaim(users: map<string, User>, email: Option<string>): (r: Option<User>)
    requires EmailsUnique(users)
    ensures email.None? ==> r.None?
    ensures email.Some? ==> r == UserByEmail(users, email.value)
  {
    if email.None? then None else UserByEmail(users, email.value)
  }

  /**
   * The checks of `disableTwoFactorAuth`, in order: a bearer token, its
   * verification (outside any try, so a throw leaves the request unanswered),
   * the 2FA token, the user read by the `email` claim, the user's 2FA flag,
   * the token length in UTF-16 code units, and then TOTP (6) or backup code (8).
   */
  function DisableGate(users: map<string, User>, header: Option<string>, verify: string -> Option<Claims>,
                       tfaToken: Option<string>): (s: DisableStep)
    requires EmailsUnique(users)
    ensures BearerToken(header).None? ==> s == DisableRefused(401)
    ensures BearerToken(header).Some? && verify(BearerToken(header).value).None? ==> s == DisableUnhandled
    ensures Verified(header, verify).Some? && !Present(tfaToken) ==> s == DisableRefused(400)
    ensures Verified(header, verify).Some? && Present(tfaToken) ==>
              var claims := Verified(header, verify).value;
              var found := UserByClaim(users, claims.email);
              && (found.None? ==> s == DisableRefused(404))
              && (found.Some? && !found.value.tfaEnabled ==> s == DisableRefused(400))
              && (found.Some? && found.value.tfaEnabled && JsLength(tfaToken.value) !in {6, 8} ==> s == DisableRefused(400))
              && (found.Some? && found.value.tfaEnabled && JsLength(tfaToken.value) == 6 ==>
                    s == DisableTotp(claims, found.value, tfaToken.value))
              && (found.Some? && found.value.tfaEnabled && JsLength(tfaToken.value) == 8 ==>
                    s == DisableBackupCode(claims, found.value, tfaToken.value))
    ensures s.DisableTotp? || s.DisableBackupCode? ==>
              s.user.tfaEnabled && Present(tfaToken) && s.code == tfaToken.value
    ensures s.DisableRefused? ==> s.status in {400, 401, 404}
  {
    match BearerToken(header)
    case None => DisableRefused(401)
    case Some(t) =>
      match verify(t)
      case None => DisableUnhandled
      case Some(claims) =>
        if !Present(tfaToken) then DisableRefused(400)
        else match UserByClaim(users, claims.email)
          case None => DisableRefused(404)
          case Some(user) =>
            if !user.tfaEnabled then DisableRefused(400)
            else if JsLength(tfaToken.value) != 6 && JsLength(tfaToken.value) != 8 then DisableRefused(400)
            else if JsLength(tfaToken.value) == 6 then DisableTotp(claims, user, tfaToken.value)
            else DisableBackupCode(claims, user, tfaToken.value)
  }

  /** `UPDATE users SET tfa_enabled = false, tfa_secret = null WHERE user_id = $1`. */
  function ClearTfa(users: map<string, User>, id: Option<string>): (r: map<string, User>)
    ensures r.Keys == users.Keys
    ensures forall k :: k in users && SameId(id, k) ==> r[k] == users[k].(tfaEnabled := false, tfaSecret := None)
    ensures forall k :: k in users && !SameId(id, k) ==> r[k] == users[k]
    ensures UsersWellFormed(users) ==> UsersWellFormed(r)
  {
    if id.Some? && id.value in users
    then users[id.value := users[id.value].(tfaEnabled := false, tfaSecret := None)]
    else users
  }

  /** `DELETE FROM tfa_backup_codes WHERE user_id = $1`. */
  function CodesWithout(rows: seq<BackupCodeRow>, id: Option<string>): (r: seq<BackupCodeRow>)
    ensures forall row :: row in r <==> row in rows && !SameId(id, row.userId)
    ensures forall row :: row in rows && !SameId(id, row.userId) ==> multiset(r)[row] == multiset(rows)[row]
  {
    var keep := (row: BackupCodeRow) => !SameId(id, row.userId);
    forall row | row in rows && keep(row) ensures multiset(Filter(rows, keep))[row] == multiset(rows)[row] {
      FilterCount(rows, keep, row);
    }
    Filter(rows, keep)
  }

  /** The success reply: a new access token with the claimed id and email and the stored role. */
  function DisabledReply(claims: Claims, user: User): (r: Reply)
    ensures r.Reply? && r.status == 200 && r.refresh.None?
    ensures r.access.Some? && r.access.value.key == AccessKey
    ensures r.access.value.claims.id == claims.id && r.access.value.claims.email == claims.email
    ensures r.access.value.claims.role == Some(user.role)
  {
    Reply(200, Some(CreateAccessToken(Principal(claims.id, claims.email, Some(user.role)))), None)
  }

  /**
   * `disableTwoFactorAuth`. On success the row under the `id` claim is
   * cleared and every code row of that id deleted.
   */
  method DisableTwoFactorAuth(db: Store, header: Option<string>, verify: string -> Option<Claims>,
                              tfaToken: Option<string>, totp: (Option<string>, string) -> bool)
    returns (reply: Reply)
    requires db.Valid()
    modifies db
    ensures db.Valid()
    ensures match DisableGate(old(db.users), header, verify, tfaToken)
      case DisableRefused(status) =>
        reply == Refusal(status) && db.users == old(db.users) && db.backupCodes == old(db.backupCodes)
      case DisableUnhandled =>
        reply == NoReply && db.users == old(db.users) && db.backupCodes == old(db.backupCodes)
      case DisableTotp(claims, user, code) =>
        if totp(user.tfaSecret, code) then
          && reply == DisabledReply(claims, user)
          && db.users == ClearTfa(old(db.users), claims.id)
          && db.backupCodes == CodesWithout(old(db.backupCodes), claims.id)
        else
          reply == Refusal(401) && db.users == old(db.users) && db.backupCodes == old(db.backupCodes)
      case DisableBackupCode(claims, user, code) =>
        if BackupCodeUsable(old(db.backupCodes), user.userId, code) then
          && reply == DisabledReply(claims, user)
          && db.users == ClearTfa(old(db.users), claims.id)
          && db.backupCodes == CodesWithout(MarkUsed(old(db.backupCodes), user.userId, code), claims.id)
        else
          reply == Refusal(401) && db.users == old(db.users) && db.backupCodes == old(db.backupCodes)
  {
    var step := DisableGate(db.users, header, verify, tfaToken);
    match step
    case DisableRefused(status) =>
      reply := Refusal(status);
    case DisableUnhandled =>
      reply := NoReply;
    case DisableTotp(claims, user, code) =>
      if !totp(user.tfaSecret, code) {
        return Refusal(401);
      }
      db.users := ClearTfa(db.users, claims.id);
      db.backupCodes := CodesWithout(db.backupCodes, claims.id);
      reply := DisabledReply(claims, user);
    case DisableBackupCode(claims, user, code) =>
      var ok := CheckBackupCode(db, user.userId, code);
      if !ok {
        return Refusal(401);
      }
      db.users := ClearTfa(db.users, claims.id);
      db.backupCodes := CodesWithout(db.backupCodes, claims.id);
      reply := DisabledReply(claims, user);
  }

  /**
   * For a token issued to the user it names, a successful disable leaves that
   * user with 2FA off, no secret and no code rows, and a token with the same
   * id, email and role.
   */
  lemma DisableForOwnToken(users: map<string, User>, rows: seq<BackupCodeRow>, claims: Claims, user: User)
    requires UsersWellFormed(users) && user.userId in users && users[user.userId] == user
    requires claims == CreateAccessToken(PrincipalOf(user)).claims
    ensures ClearTfa(users, claims.id)[user.userId].tfaEnabled == false
    ensures ClearTfa(users, claims.id)[user.userId].tfaSecret.None?
    ensures forall row :: row in CodesWithout(rows, claims.id) ==> row.userId != user.userId
    ensures DisabledReply(claims, user).access.value.claims == CreateAccessToken(PrincipalOf(user)).claims
  {
  }
}
