/**
 * The permission classes: predicates over whether the caller is
 * authenticated, the caller's role and superuser flag, and an object's author.
 */
module Permissions {
  import opened Users

  /** The requesting user: anonymous, or an authenticated user record. */
  datatype Caller = Anonymous | Authenticated(user: User)

  /** HTTP methods; the first three are the framework's safe (read-only) methods. */
  datatype Method = GET | HEAD | OPTIONS | POST | PUT | PATCH | DELETE

  predicate IsSafe(m: Method) {
    m == GET || m == HEAD || m == OPTIONS
  }

  /** `UserSignupPermission.has_permission`. */
  predicate SignupAllowed(c: Caller) {
    !c.Authenticated?
  }

  /** `IsAdminOrSuperUser.has_permission`. */
  predicate AdminOrSuperUser(c: Caller) {
    c.Authenticated? && (IsAdmin(c.user) || c.user.isSuperuser)
  }

  /** `IsOwnerOrModeratorOrAdmin.has_permission`. */
  predicate OwnerOrStaffAction(c: Caller) {
    c.Authenticated?
  }

  /** `IsOwnerOrModeratorOrAdmin.has_object_permission`: `author` is the id of the object's author. */
  predicate OwnerOrStaffObject(u: User, author: UserId) {
    author == u.id || IsAdmin(u) || IsModerator(u) || u.isSuperuser
  }

  /** The framework's `IsAuthenticatedOrReadOnly`, used by the viewsets as their default. */
  predicate AuthenticatedOrReadOnly(c: Caller, m: Method) {
    IsSafe(m) || c.Authenticated?
  }

  /** The signup permission admits exactly the anonymous callers. */
  lemma SignupOnlyAnonymous(c: Caller)
    ensures SignupAllowed(c) <==> c == Anonymous
  {
  }

  /** Admin-or-superuser: anonymous callers, moderators and plain users without the flag are denied. */
  lemma AdminOrSuperUserRule(c: Caller)
    ensures c == Anonymous ==> !AdminOrSuperUser(c)
    ensures c.Authenticated? ==> (AdminOrSuperUser(c) <==> c.user.role == Admin || c.user.isSuperuser)
    ensures c.Authenticated? && c.user.role != Admin && !c.user.isSuperuser ==> !AdminOrSuperUser(c)
  {
  }

  /** The object check admits the author whatever the author's role, and staff on any object. */
  lemma ObjectRuleAdmits(u: User, author: UserId)
    ensures author == u.id ==> OwnerOrStaffObject(u, author)
    ensures u.role in {Admin, Moderator} || u.isSuperuser ==> OwnerOrStaffObject(u, author)
  {
  }

  /** The object check denies a plain, non-superuser caller on someone else's object. */
  lemma ObjectRuleDenies(u: User, author: UserId)
    requires u.role == UserRole && !u.isSuperuser && author != u.id
    ensures !OwnerOrStaffObject(u, author)
  {
  }

  /** Raising a caller's role never turns an object-level allow into a deny. */
  lemma RaisingRoleKeepsObjectAllow(u: User, author: UserId, higher: Role)
    requires Rank(u.role) <= Rank(higher)
    requires OwnerOrStaffObject(u, author)
    ensures OwnerOrStaffObject(u.(role := higher), author)
  {
  }
}
