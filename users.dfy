/**
 * The user record of the directory: its three role choices, its defaults,
 * the confirmation-code check and the two role predicates.
 */
module Users {
  import opened Wrappers

  type UserId = nat

  /** The role choices, in ascending privilege. */
  datatype Role = UserRole | Moderator | Admin

  /** The value a role is stored as. */
  function RoleName(r: Role): string {
    match r
    case UserRole => "user"
    case Moderator => "moderator"
    case Admin => "admin"
  }

  /** The choice validation of the role field: only the three stored values are accepted. */
  function ParseRole(s: string): (r: Option<Role>)
    ensures r.Some? ==> RoleName(r.value) == s
    ensures r.None? ==> forall q: Role :: RoleName(q) != s
  {
    if s == "user" then Some(UserRole)
    else if s == "moderator" then Some(Moderator)
    else if s == "admin" then Some(Admin)
    else None
  }

  /** Parsing a stored role name gives the role back. */
  lemma ParseRoleName(r: Role)
    ensures ParseRole(RoleName(r)) == Some(r)
  {
  }

  /** Position of a role in the privilege order user < moderator < admin. */
  function Rank(r: Role): nat {
    match r
    case UserRole => 0
    case Moderator => 1
    case Admin => 2
  }

  const DefaultRole: Role := UserRole
  const ConfirmationCodeMaxLength: nat := 10

  /**
   * One row of the user table. `password` stands for the stored hash: it is
   * the raw password the hash was made from, or None when no password can match.
   */
  datatype User = User(
    id: UserId,
    username: string,
    email: string,
    firstName: string,
    lastName: string,
    bio: string,
    role: Role,
    emailConfirmed: bool,
    confirmationCode: string,
    password: Option<string>,
    isActive: bool,
    isStaff: bool,
    isSuperuser: bool)

  /** A user created from a username, an email and a confirmation code; every other field takes its default. */
  function NewUser(id: UserId, username: string, email: string, code: string): (u: User)
    ensures u.id == id && u.username == username && u.email == email && u.confirmationCode == code
    ensures u.role == DefaultRole && u.bio == "" && u.firstName == "" && u.lastName == ""
    ensures !u.emailConfirmed && u.isActive && !u.isStaff && !u.isSuperuser
    ensures forall raw :: !CheckPassword(u, raw)
  {
    User(id, username, email, "", "", "", DefaultRole, false, code, None, true, false, false)
  }

  /** A value a caller may pass where the code expects a string. */
  datatype Arg = Absent | Text(s: string) | NonText(truthy: bool)

  /** Python truthiness of an argument. */
  predicate Truthy(a: Arg) {
    match a
    case Absent => false
    case Text(s) => s != ""
    case NonText(t) => t
  }

  /** `check_confirmation_code`: a falsy or non-string argument fails, otherwise the stored code must equal it. */
  function CheckConfirmationCode(u: User, code: Arg): (ok: bool)
    ensures ok <==> code.Text? && code.s != "" && code.s == u.confirmationCode
  {
    if !Truthy(code) || !code.Text? then false else u.confirmationCode == code.s
  }

  /** A missing or empty code never passes. */
  lemma EmptyCodeFails(u: User)
    ensures !CheckConfirmationCode(u, Absent) && !CheckConfirmationCode(u, Text(""))
  {
  }

  /** A value that is not a string never passes, truthy or not. */
  lemma NonStringCodeFails(u: User, truthy: bool)
    ensures !CheckConfirmationCode(u, NonText(truthy))
  {
  }

  /** A user whose stored code is blank never passes, whatever is supplied. */
  lemma BlankStoredCodeNeverPasses(u: User, code: Arg)
    requires u.confirmationCode == ""
    ensures !CheckConfirmationCode(u, code)
  {
  }

  predicate IsAdmin(u: User) {
    u.role == Admin
  }

  predicate IsModerator(u: User) {
    u.role == Moderator
  }

  /** The role predicates follow the stored role exactly and never hold together. */
  lemma RolePredicates(u: User)
    ensures IsAdmin(u) <==> RoleName(u.role) == "admin"
    ensures IsModerator(u) <==> RoleName(u.role) == "moderator"
    ensures !(IsAdmin(u) && IsModerator(u))
  {
  }

  /** The guard of `send_confirmation_code`: mail is attempted only when both email and code are non-empty. */
  predicate ShouldSendConfirmationCode(u: User) {
    u.email != "" && u.confirmationCode != ""
  }

  /** A new user gets the confirmation mail exactly when both the email and the code are non-empty. */
  lemma NewUserGetsMail(id: UserId, username: string, email: string, code: string)
    ensures ShouldSendConfirmationCode(NewUser(id, username, email, code)) <==> email != "" && code != ""
  {
  }

  /** Password check against the stored hash. */
  predicate CheckPassword(u: User, raw: string) {
    u.password == Some(raw)
  }

  /** The backend's `user_can_authenticate`: only active users may log in. */
  predicate CanAuthenticate(u: User) {
    u.isActive
  }
}
