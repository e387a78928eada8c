/** The login lockout, role permission and multi-factor rules of the MFA/RBAC
    security service. The user, role and backup-code tables become fields of
    one class; password hashing, code hashing, one-time-password checking and
    the clock enter as parameters. */
module MfaRbac {
  import opened Common

  const DefaultMaxLoginAttempts := 5
  const DefaultLockoutDuration := 900
  const Wildcard := "*"

  /** The roles installed when the database is first created. */
  const DefaultRoles: map<string, seq<string>> := map[
    "admin" := [Wildcard],
    "operator" := ["virtualmin:read", "virtualmin:write", "webmin:read", "webmin:write",
                   "users:read", "users:write", "domains:read", "domains:write"],
    "user" := ["virtualmin:read", "domains:read"]]

  /** A row of the users table; times are seconds on the service's clock. */
  datatype User = User(
    id: nat,
    username: string,
    passwordHash: string,
    email: Option<string>,
    mfaSecret: Option<string>,
    mfaEnabled: bool,
    role: string,
    loginAttempts: nat,
    lockedUntil: Option<int>,
    lastLogin: Option<int>)

  /** A row of the backup-code table. */
  datatype BackupCode = BackupCode(id: nat, userId: nat, codeHash: string, used: bool)

  /** A row of the audit log. */
  datatype AuditEvent = AuditEvent(userId: Option<nat>, action: string, resource: string, success: bool, details: string)

  // ---------------------------------------------------------------- lookups

  /** The position of the user with this name (names are unique). */
  function ByName(users: seq<User>, name: string): (r: Option<nat>)
    ensures r.Some? ==> r.value < |users| && users[r.value].username == name
    ensures r.None? <==> forall i :: 0 <= i < |users| ==> users[i].username != name
  {
    if |users| == 0 then None
    else if users[|users| - 1].username == name then Some(|users| - 1)
    else ByName(users[..|users| - 1], name)
  }

  /** The position of the user with this id (ids are unique). */
  function ById(users: seq<User>, id: nat): (r: Option<nat>)
    ensures r.Some? ==> r.value < |users| && users[r.value].id == id
    ensures r.None? <==> forall i :: 0 <= i < |users| ==> users[i].id != id
  {
    if |users| == 0 then None
    else if users[|users| - 1].id == id then Some(|users| - 1)
    else ById(users[..|users| - 1], id)
  }

  predicate UniqueKeys(users: seq<User>)
  {
    forall i, j :: 0 <= i < j < |users| ==> users[i].id != users[j].id && users[i].username != users[j].username
  }

  // ---------------------------------------------------------------- permissions

  /** A role grants a permission when it exists and lists the permission or
      the wildcard. */
  predicate RoleGrants(roles: map<string, seq<string>>, role: string, permission: string)
  {
    role in roles && (Wildcard in roles[role] || permission in roles[role])
  }

  /** A user holds a permission when their role grants it; an unknown user or
      role holds nothing. */
  function HasPermission(users: seq<User>, roles: map<string, seq<string>>, userId: nat, permission: string): (b: bool)
    ensures b ==> exists i :: 0 <= i < |users| && users[i].id == userId && RoleGrants(roles, users[i].role, permission)
    ensures forall i :: 0 <= i < |users| && users[i].id == userId && users[i].role !in roles ==> !b || !UniqueKeys(users)
    ensures ById(users, userId).None? ==> !b
  {
    match ById(users, userId)
    case None => false
    case Some(i) =>
      assert UniqueKeys(users) ==> forall k :: 0 <= k < |users| && users[k].id == userId ==> k == i;
      RoleGrants(roles, users[i].role, permission)
  }

  /** With unique ids, holding a permission is exactly having a role that
      grants it. */
  lemma HasPermissionExact(users: seq<User>, roles: map<string, seq<string>>, userId: nat, permission: string, i: nat)
    requires UniqueKeys(users) && i < |users| && users[i].id == userId
    ensures HasPermission(users, roles, userId, permission) <==> RoleGrants(roles, users[i].role, permission)
  {
    var r := ById(users, userId);
    assert r.Some?;
    assert forall k :: 0 <= k < |users| && users[k].id == userId ==> k == i;
    assert r.value == i;
  }

  /** A wildcard role grants every permission. */
  lemma WildcardGrantsAll(users: seq<User>, roles: map<string, seq<string>>, userId: nat, p: string, q: string, i: nat)
    requires UniqueKeys(users) && i < |users| && users[i].id == userId
    requires users[i].role in roles && Wildcard in roles[users[i].role]
    ensures HasPermission(users, roles, userId, p) && HasPermission(users, roles, userId, q)
  {
    HasPermissionExact(users, roles, userId, p, i);
    HasPermissionExact(users, roles, userId, q, i);
  }

  /** The read-only default role cannot write. */
  lemma DefaultUserCannotWrite(users: seq<User>, userId: nat)
    requires ById(users, userId).Some? && users[ById(users, userId).value].role == "user"
    ensures !HasPermission(users, DefaultRoles, userId, "virtualmin:write")
    ensures HasPermission(users, DefaultRoles, userId, "domains:read")
  {
  }

  // ---------------------------------------------------------------- login

  predicate IsLocked(u: User, now: int)
  {
    u.lockedUntil.Some? && u.lockedUntil.value > now
  }

  datatype UserInfo = UserInfo(id: nat, username: string, email: Option<string>, role: string, mfaEnabled: bool)

  datatype LoginOutcome =
    | UserNotFound
    | AccountLocked
    | LockedOut(duration: int)
    | InvalidPassword
    | LoggedIn(info: UserInfo)

  datatype LoginStep = LoginStep(outcome: LoginOutcome, user: User)

  /** One login attempt on a known user: a locked account is refused before
      the password is looked at; a wrong password counts one more attempt and
      locks the account once the count reaches the maximum; a right one clears
      the count. */
  function Login(u: User, passwordOk: bool, now: int, maxAttempts: int, lockoutDuration: int): (s: LoginStep)
    ensures IsLocked(u, now) ==> s == LoginStep(AccountLocked, u)
    ensures !IsLocked(u, now) && !passwordOk ==>
      s.user.loginAttempts == u.loginAttempts + 1
      && (s.outcome.LockedOut? <==> u.loginAttempts + 1 >= maxAttempts)
      && (s.outcome.LockedOut? ==> s.user.lockedUntil == Some(now + lockoutDuration) && s.outcome.duration == lockoutDuration)
      && (!s.outcome.LockedOut? ==> s.outcome == InvalidPassword && s.user.lockedUntil == u.lockedUntil)
      && s.user.lastLogin == u.lastLogin
    ensures !IsLocked(u, now) && passwordOk ==>
      s.outcome == LoggedIn(UserInfo(u.id, u.username, u.email, u.role, u.mfaEnabled))
      && s.user.loginAttempts == 0 && s.user.lastLogin == Some(now)
      && s.user.lockedUntil == u.lockedUntil
    ensures s.outcome.LoggedIn? <==> !IsLocked(u, now) && passwordOk
    ensures s.user.(loginAttempts := 0, lockedUntil := None, lastLogin := None)
         == u.(loginAttempts := 0, lockedUntil := None, lastLogin := None)
  {
    if IsLocked(u, now) then LoginStep(AccountLocked, u)
    else if !passwordOk then
      var attempts := u.loginAttempts + 1;
      if attempts >= maxAttempts then
        LoginStep(LockedOut(lockoutDuration), u.(loginAttempts := attempts, lockedUntil := Some(now + lockoutDuration)))
      else
        LoginStep(InvalidPassword, u.(loginAttempts := attempts))
    else
      LoginStep(LoggedIn(UserInfo(u.id, u.username, u.email, u.role, u.mfaEnabled)),
                u.(loginAttempts := 0, lastLogin := Some(now)))
  }

  /** The audit row a login attempt writes. */
  function LoginAudit(userId: Option<nat>, outcome: LoginOutcome): (e: AuditEvent)
    ensures e.action == "login" && e.resource == "user"
    ensures e.success <==> outcome.LoggedIn?
    ensures outcome.UserNotFound? <==> e.details == "User not found"
  {
    var details := match outcome
      case UserNotFound => "User not found"
      case AccountLocked => "Account locked"
      case LockedOut(_) => "Account locked due to multiple failed attempts"
      case InvalidPassword => "Invalid password"
      case LoggedIn(_) => "Successful login";
    AuditEvent(userId, "login", "user", outcome.LoggedIn?, details)
  }

  /** The user after `k` wrong passwords at the same moment. */
  function WrongPasswords(u: User, k: nat, now: int, maxAttempts: int, lockoutDuration: int): User
  {
    if k == 0 then u else Login(WrongPasswords(u, k - 1, now, maxAttempts, lockoutDuration), false, now, maxAttempts, lockoutDuration).user
  }

  /** Before the limit is reached, each wrong password only counts. */
  lemma {:induction false} WrongPasswordsCount(u: User, k: nat, now: int, maxAttempts: int, lockoutDuration: int)
    requires !IsLocked(u, now) && u.loginAttempts + k < maxAttempts
    ensures WrongPasswords(u, k, now, maxAttempts, lockoutDuration).loginAttempts == u.loginAttempts + k
    ensures !IsLocked(WrongPasswords(u, k, now, maxAttempts, lockoutDuration), now)
  {
    if k > 0 {
      WrongPasswordsCount(u, k - 1, now, maxAttempts, lockoutDuration);
    }
  }

  /** Counting from an unlocked account, the wrong password that brings the
      count to the maximum locks it for the lockout duration, and the right
      password is refused from then until the lock expires. */
  lemma LockoutAfterMaxFailures(u: User, now: int, maxAttempts: int, lockoutDuration: int, later: int)
    requires !IsLocked(u, now) && u.loginAttempts < maxAttempts && lockoutDuration > 0
    requires now <= later < now + lockoutDuration
    ensures var k := maxAttempts - u.loginAttempts;
      var v := WrongPasswords(u, k, now, maxAttempts, lockoutDuration);
      v.loginAttempts == maxAttempts && v.lockedUntil == Some(now + lockoutDuration)
      && Login(v, true, later, maxAttempts, lockoutDuration).outcome == AccountLocked
  {
    var k := maxAttempts - u.loginAttempts;
    WrongPasswordsCount(u, k - 1, now, maxAttempts, lockoutDuration);
  }

  /** The count is not cleared when a lock expires, so a single wrong password
      after the expiry locks the account again. */
  lemma RelockAfterExpiry(u: User, now: int, maxAttempts: int, lockoutDuration: int)
    requires !IsLocked(u, now) && u.loginAttempts + 1 >= maxAttempts
    ensures Login(u, false, now, maxAttempts, lockoutDuration).outcome == LockedOut(lockoutDuration)
  {
  }

  /** With the lock expired, the right password logs in again. */
  lemma LockExpires(u: User, now: int, maxAttempts: int, lockoutDuration: int, later: int)
    requires !IsLocked(u, now) && u.loginAttempts + 1 >= maxAttempts
    requires later >= now + lockoutDuration
    ensures var locked := Login(u, false, now, maxAttempts, lockoutDuration).user;
      IsLocked(locked, now) <==> lockoutDuration > 0
    ensures var locked := Login(u, false, now, maxAttempts, lockoutDuration).user;
      Login(locked, true, later, maxAttempts, lockoutDuration).outcome.LoggedIn?
  {
  }

  /** `authenticate_user` as written. The lock is stored as a `datetime`, but
      the connection reads it back as text, and comparing that text with
      `datetime.now()` raises. So for any user whose row has ever carried a
      lock, the attempt ends in the handler's server error: `None`, with no
      row changed and no audit row written. */
  function LoginAsWritten(u: User, passwordOk: bool, now: int, maxAttempts: int, lockoutDuration: int): (s: Option<LoginStep>)
    ensures s.None? <==> u.lockedUntil.Some?
    ensures s.Some? ==> s.value == Login(u, passwordOk, now, maxAttempts, lockoutDuration)
  {
    if u.lockedUntil.Some? then None else Some(Login(u, passwordOk, now, maxAttempts, lockoutDuration))
  }

  /** As written, a lock never expires: once the failure that reaches the
      maximum has locked the row, no later attempt, with the right password or
      not and however late, gets past the server error. */
  lemma LockNeverExpiresAsWritten(u: User, now: int, maxAttempts: int, lockoutDuration: int, later: int, passwordOk: bool)
    requires u.lockedUntil.None? && u.loginAttempts + 1 >= maxAttempts
    ensures var first := LoginAsWritten(u, false, now, maxAttempts, lockoutDuration);
      && first.Some? && first.value.outcome == LockedOut(lockoutDuration)
      && LoginAsWritten(first.value.user, passwordOk, later, maxAttempts, lockoutDuration).None?
  {
  }

  // ---------------------------------------------------------------- multi-factor codes

  /** A code row that would answer this lookup: the user's, unused, with this hash. */
  predicate Usable(c: BackupCode, userId: nat, codeHash: string)
  {
    c.userId == userId && !c.used && c.codeHash == codeHash
  }

  /** The first usable backup code, in table order. */
  function FindBackup(codes: seq<BackupCode>, userId: nat, codeHash: string): (r: Option<nat>)
    ensures r.Some? ==> (r.value < |codes| && Usable(codes[r.value], userId, codeHash)
                         && forall j :: 0 <= j < r.value ==> !Usable(codes[j], userId, codeHash))
    ensures r.None? <==> forall j :: 0 <= j < |codes| ==> !Usable(codes[j], userId, codeHash)
  {
    if |codes| == 0 then None
    else if Usable(codes[0], userId, codeHash) then Some(0)
    else match FindBackup(codes[1..], userId, codeHash)
      case None => None
      case Some(j) => Some(j + 1)
  }

  /** How many rows would accept this code. */
  function UsableCount(codes: seq<BackupCode>, userId: nat, codeHash: string): nat
  {
    if |codes| == 0 then 0
    else (if Usable(codes[0], userId, codeHash) then 1 else 0) + UsableCount(codes[1..], userId, codeHash)
  }

  function MarkUsed(codes: seq<BackupCode>, i: nat): (r: seq<BackupCode>)
    requires i < |codes|
    ensures |r| == |codes| && r[i] == codes[i].(used := true)
    ensures forall j :: 0 <= j < |codes| && j != i ==> r[j] == codes[j]
  {
    codes[i := codes[i].(used := true)]
  }

  /** Marking a usable row used leaves one fewer row that accepts the code. */
  lemma {:induction false} MarkUsedCount(codes: seq<BackupCode>, i: nat, userId: nat, codeHash: string)
    requires i < |codes| && Usable(codes[i], userId, codeHash)
    ensures UsableCount(MarkUsed(codes, i), userId, codeHash) + 1 == UsableCount(codes, userId, codeHash)
  {
    var m := MarkUsed(codes, i);
    if i > 0 {
      assert m[1..] == MarkUsed(codes[1..], i - 1);
      MarkUsedCount(codes[1..], i - 1, userId, codeHash);
    } else {
      assert m[1..] == codes[1..];
    }
  }

  lemma {:induction false} UsableCountZero(codes: seq<BackupCode>, userId: nat, codeHash: string)
    ensures UsableCount(codes, userId, codeHash) == 0 <==> FindBackup(codes, userId, codeHash).None?
  {
    if |codes| > 0 {
      UsableCountZero(codes[1..], userId, codeHash);
      if FindBackup(codes[1..], userId, codeHash).None? {
        assert forall j :: 1 <= j < |codes| ==> !Usable(codes[j], userId, codeHash) by {
          forall j | 1 <= j < |codes| ensures !Usable(codes[j], userId, codeHash) {
            assert codes[j] == codes[1..][j - 1];
          }
        }
      } else {
        var j := FindBackup(codes[1..], userId, codeHash).value;
        assert codes[1..][j] == codes[j + 1];
      }
    }
  }

  datatype MfaOutcome =
    | NoSuchUser
    | MfaNotEnabled
    | BackupAccepted
    | BackupRejected
    | SecretMissing
    | TotpAccepted
    | TotpRejected
  {
    predicate Success() { this == MfaNotEnabled || this == BackupAccepted || this == TotpAccepted }
  }

  datatype MfaStep = MfaStep(outcome: MfaOutcome, codes: seq<BackupCode>)

  /** One second-factor check. A user without multi-factor enabled passes; a
      backup code passes when an unused row holds its hash, and that row is
      then used up; otherwise the one-time password is checked against the
      user's secret. */
  function VerifyMfa(users: seq<User>, codes: seq<BackupCode>, userId: nat, code: string, backup: bool,
                     hash: string -> string, totpValid: (string, string) -> bool): (s: MfaStep)
    ensures ById(users, userId).None? ==> s == MfaStep(NoSuchUser, codes)
    ensures ById(users, userId).Some? && !users[ById(users, userId).value].mfaEnabled ==> s == MfaStep(MfaNotEnabled, codes)
    ensures s.outcome == BackupAccepted <==>
      ById(users, userId).Some? && users[ById(users, userId).value].mfaEnabled && backup
      && FindBackup(codes, userId, hash(code)).Some?
    ensures s.outcome == BackupAccepted ==> s.codes == MarkUsed(codes, FindBackup(codes, userId, hash(code)).value)
    ensures s.outcome != BackupAccepted ==> s.codes == codes
    ensures s.outcome == TotpAccepted ==>
      (!backup && users[ById(users, userId).value].mfaSecret.Some?
       && totpValid(users[ById(users, userId).value].mfaSecret.value, code))
    ensures (ById(users, userId).Some? && users[ById(users, userId).value].mfaEnabled && backup
             && FindBackup(codes, userId, hash(code)).None?) ==> s == MfaStep(BackupRejected, codes)
    ensures ById(users, userId).Some? && users[ById(users, userId).value].mfaEnabled && !backup ==>
      var secret := users[ById(users, userId).value].mfaSecret;
      && (secret.None? || secret.value == "" ==> s == MfaStep(SecretMissing, codes))
      && (secret.Some? && secret.value != "" ==>
            s == MfaStep(if totpValid(secret.value, code) then TotpAccepted else TotpRejected, codes))
  {
    match ById(users, userId)
    case None => MfaStep(NoSuchUser, codes)
    case Some(i) =>
      if !users[i].mfaEnabled then MfaStep(MfaNotEnabled, codes)
      else if backup then
        match FindBackup(codes, userId, hash(code))
        case Some(j) => MfaStep(BackupAccepted, MarkUsed(codes, j))
        case None => MfaStep(BackupRejected, codes)
      else if users[i].mfaSecret.None? || users[i].mfaSecret.value == "" then MfaStep(SecretMissing, codes)
      else if totpValid(users[i].mfaSecret.value, code) then MfaStep(TotpAccepted, codes)
      else MfaStep(TotpRejected, codes)
  }

  /** A backup code works once per row that holds it: after it is accepted,
      the same code is accepted again only if another unused row held it. */
  lemma BackupCodeSingleUse(users: seq<User>, codes: seq<BackupCode>, userId: nat, code: string,
                            hash: string -> string, totpValid: (string, string) -> bool)
    requires VerifyMfa(users, codes, userId, code, true, hash, totpValid).outcome == BackupAccepted
    ensures var after := VerifyMfa(users, codes, userId, code, true, hash, totpValid).codes;
      VerifyMfa(users, after, userId, code, true, hash, totpValid).outcome == BackupAccepted
      <==> UsableCount(codes, userId, hash(code)) >= 2
  {
    var i := FindBackup(codes, userId, hash(code)).value;
    var after := MarkUsed(codes, i);
    MarkUsedCount(codes, i, userId, hash(code));
    UsableCountZero(after, userId, hash(code));
  }

  // ---------------------------------------------------------------- the service

  class MfaRbacSystem {
    const maxLoginAttempts: int
    const lockoutDuration: int
    var users: seq<User>
    var roles: map<string, seq<string>>
    var backupCodes: seq<BackupCode>
    var audit: seq<AuditEvent>

    ghost predicate Valid()
      reads this
    {
      UniqueKeys(users)
    }

    /** A fresh database: the default roles and the admin account, whose
        password hash is supplied; unset limits take their defaults. */
    constructor(maxLoginAttempts: Option<int>, lockoutDuration: Option<int>, adminPasswordHash: string)
      ensures Valid()
      ensures this.maxLoginAttempts == GetOr(maxLoginAttempts, DefaultMaxLoginAttempts)
      ensures this.lockoutDuration == GetOr(lockoutDuration, DefaultLockoutDuration)
      ensures users == [User(1, "admin", adminPasswordHash, None, None, false, "admin", 0, None, None)]
      ensures roles == DefaultRoles && backupCodes == [] && audit == []
    {
      this.maxLoginAttempts := GetOr(maxLoginAttempts, DefaultMaxLoginAttempts);
      this.lockoutDuration := GetOr(lockoutDuration, DefaultLockoutDuration);
      users := [User(1, "admin", adminPasswordHash, None, None, false, "admin", 0, None, None)];
      roles := DefaultRoles;
      backupCodes := [];
      audit := [];
    }

    function CheckPermission(userId: nat, permission: string): (b: bool)
      reads this
      ensures b == HasPermission(users, roles, userId, permission)
      ensures b ==> ById(users, userId).Some?
    {
      HasPermission(users, roles, userId, permission)
    }

    /** Authenticates `username`; `passwordMatches(hash, password)` stands for
        the password-hash check. Only the user's own row changes, and one audit
        row is written. */
    method AuthenticateUser(username: string, password: string, now: int, passwordMatches: (string, string) -> bool)
      returns (outcome: LoginOutcome)
      requires Valid()
      modifies this
      ensures Valid() && roles == old(roles) && backupCodes == old(backupCodes)
      ensures ByName(old(users), username).None? ==>
        outcome == UserNotFound && users == old(users) && audit == old(audit) + [LoginAudit(None, UserNotFound)]
      ensures ByName(old(users), username).Some? ==>
        var i := ByName(old(users), username).value;
        var step := Login(old(users)[i], passwordMatches(old(users)[i].passwordHash, password), now, maxLoginAttempts, lockoutDuration);
        outcome == step.outcome && users == old(users)[i := step.user]
        && audit == old(audit) + [LoginAudit(Some(old(users)[i].id), step.outcome)]
    {
      match ByName(users, username)
      case None =>
        outcome := UserNotFound;
        audit := audit + [LoginAudit(None, outcome)];
      case Some(i) =>
        var u := users[i];
        var step := Login(u, passwordMatches(u.passwordHash, password), now, maxLoginAttempts, lockoutDuration);
        users := users[i := step.user];
        outcome := step.outcome;
        audit := audit + [LoginAudit(Some(u.id), outcome)];
    }

    /** The second-factor check; `hash` stands for the code digest and
        `totpValid(secret, code)` for the one-time-password check. A backup
        code writes one audit row, accepted or not; a one-time password
        writes one when a secret is configured. */
    method VerifyMfaCode(userId: nat, code: string, backup: bool, hash: string -> string, totpValid: (string, string) -> bool)
      returns (outcome: MfaOutcome)
      modifies this
      ensures var step := VerifyMfa(old(users), old(backupCodes), userId, code, backup, hash, totpValid);
        outcome == step.outcome && backupCodes == step.codes
      ensures users == old(users) && roles == old(roles)
      ensures outcome in {BackupAccepted, BackupRejected, TotpAccepted, TotpRejected} ==>
        audit == old(audit) + [AuditEvent(Some(userId), "mfa", if backup then "backup_code" else "totp", outcome.Success(),
          match outcome
            case BackupAccepted => "Backup code used"
            case BackupRejected => "Invalid backup code"
            case TotpAccepted => "TOTP code verified"
            case _ => "Invalid TOTP code")]
      ensures !(outcome in {BackupAccepted, BackupRejected, TotpAccepted, TotpRejected}) ==> audit == old(audit)
    {
      var step := VerifyMfa(users, backupCodes, userId, code, backup, hash, totpValid);
      outcome := step.outcome;
      backupCodes := step.codes;
      match outcome
      case BackupAccepted =>
        audit := audit + [AuditEvent(Some(userId), "mfa", "backup_code", true, "Backup code used")];
      case BackupRejected =>
        audit := audit + [AuditEvent(Some(userId), "mfa", "backup_code", false, "Invalid backup code")];
      case TotpAccepted =>
        audit := audit + [AuditEvent(Some(userId), "mfa", "totp", true, "TOTP code verified")];
      case TotpRejected =>
        audit := audit + [AuditEvent(Some(userId), "mfa", "totp", false, "Invalid TOTP code")];
      case _ =>
    }
  }
}
