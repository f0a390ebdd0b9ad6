/**
 * Which permission class each viewset action uses, which serializer the title
 * viewset picks, and how the chosen class turns into an allow, a 401 or a 403.
 */
module Access {
  import opened Wrappers
  import opened Users
  import opened Permissions

  /** The routed viewsets. */
  datatype Viewset = CategoryViews | GenreViews | TitleViews | ReviewViews | CommentViews | UserViews

  /** The viewset actions, named as the framework names them; `Me` is the users' `me` action. */
  datatype Action = List | Retrieve | Create | Update | PartialUpdate | Destroy | Me

  /** The permission class an action is checked with. */
  datatype Guard = ReadOnlyUnlessAuthenticated | AdminOrSuperUserOnly | OwnerOrStaff

  /** The `get_permissions` of each viewset, with the users' class-level and `me` settings. */
  function PermissionFor(v: Viewset, a: Action): (g: Guard)
    ensures v == TitleViews ==> (g == ReadOnlyUnlessAuthenticated <==> a in {List, Retrieve})
  {
    match v
    case CategoryViews | GenreViews =>
      if a in {Create, Destroy} then AdminOrSuperUserOnly else ReadOnlyUnlessAuthenticated
    case TitleViews =>
      if a in {List, Retrieve} then ReadOnlyUnlessAuthenticated else AdminOrSuperUserOnly
    case ReviewViews | CommentViews =>
      if a in {PartialUpdate, Update, Destroy} then OwnerOrStaff else ReadOnlyUnlessAuthenticated
    case UserViews =>
      if a == Me then OwnerOrStaff else AdminOrSuperUserOnly
  }

  /** The two title serializers: nested read representation, or slug references for writes. */
  datatype TitleSerializer = NestedTitle | SlugTitle

  /** `TitleViewSet.get_serializer_class`. */
  function TitleSerializerFor(a: Action): (s: TitleSerializer)
    ensures s == NestedTitle <==> a in {List, Retrieve}
  {
    if a in {List, Retrieve} then NestedTitle else SlugTitle
  }

  /** The action-level check of each permission class. */
  predicate ActionAllowed(g: Guard, c: Caller, m: Method) {
    match g
    case ReadOnlyUnlessAuthenticated => AuthenticatedOrReadOnly(c, m)
    case AdminOrSuperUserOnly => AdminOrSuperUser(c)
    case OwnerOrStaff => OwnerOrStaffAction(c)
  }

  /** The object-level check: only the owner class restricts objects; the others admit every object. */
  predicate ObjectAllowed(g: Guard, c: Caller, author: UserId) {
    match g
    case OwnerOrStaff => c.Authenticated? && OwnerOrStaffObject(c.user, author)
    case _ => true
  }

  /** The outcome of the permission checks. */
  datatype Access = Allowed | NotAuthenticated | PermissionDenied

  /** A refusal is a 401 for an anonymous caller and a 403 otherwise. */
  function Refusal(c: Caller): Access {
    if c.Anonymous? then NotAuthenticated else PermissionDenied
  }

  /**
   * The checks of one request: the action-level check of the action's
   * class and, on a detail action, the object-level check against the
   * object's author.
   */
  function Check(v: Viewset, a: Action, m: Method, c: Caller, author: Option<UserId>): Access {
    var g := PermissionFor(v, a);
    if !ActionAllowed(g, c, m) then Refusal(c)
    else if author.Some? && !ObjectAllowed(g, c, author.value) then Refusal(c)
    else Allowed
  }

  /** Categories and genres: create and destroy need an admin or a superuser; the rest are read-only to anonymous callers. */
  lemma TaxonomyRules(v: Viewset, a: Action)
    requires v in {CategoryViews, GenreViews}
    ensures a in {Create, Destroy} ==> PermissionFor(v, a) == AdminOrSuperUserOnly
    ensures a !in {Create, Destroy} ==> PermissionFor(v, a) == ReadOnlyUnlessAuthenticated
    ensures PermissionFor(GenreViews, a) == PermissionFor(CategoryViews, a)
  {
  }

  /** Titles: list and retrieve are open to reads and use the nested serializer; all else needs an admin and uses slugs. */
  lemma TitleRules(a: Action)
    ensures a in {List, Retrieve} ==>
              PermissionFor(TitleViews, a) == ReadOnlyUnlessAuthenticated && TitleSerializerFor(a) == NestedTitle
    ensures a !in {List, Retrieve} ==>
              PermissionFor(TitleViews, a) == AdminOrSuperUserOnly && TitleSerializerFor(a) == SlugTitle
  {
  }

  /** Reviews and comments: edits and deletes use the owner class; everything else is read-only to anonymous callers. */
  lemma FeedbackRules(v: Viewset, a: Action)
    requires v in {ReviewViews, CommentViews}
    ensures a in {Update, PartialUpdate, Destroy} ==> PermissionFor(v, a) == OwnerOrStaff
    ensures a !in {Update, PartialUpdate, Destroy} ==> PermissionFor(v, a) == ReadOnlyUnlessAuthenticated
  {
  }

  /** An anonymous caller never gets past a non-safe method, on any viewset. */
  lemma AnonymousNeverWrites(v: Viewset, a: Action, m: Method, author: Option<UserId>)
    requires !IsSafe(m)
    ensures Check(v, a, m, Anonymous, author) == NotAuthenticated
  {
  }

  /** A plain, non-superuser caller cannot edit or delete someone else's review or comment. */
  lemma PlainUserCannotTouchOthers(v: Viewset, a: Action, m: Method, u: User, author: UserId)
    requires v in {ReviewViews, CommentViews} && a in {Update, PartialUpdate, Destroy}
    requires u.role == UserRole && !u.isSuperuser && author != u.id
    ensures Check(v, a, m, Authenticated(u), Some(author)) == PermissionDenied
  {
  }

  /** The author of a review or comment, or a moderator, admin or superuser, may edit or delete it. */
  lemma OwnerOrStaffMayTouch(v: Viewset, a: Action, m: Method, u: User, author: UserId)
    requires v in {ReviewViews, CommentViews} && a in {Update, PartialUpdate, Destroy}
    requires author == u.id || u.role in {Moderator, Admin} || u.isSuperuser
    ensures Check(v, a, m, Authenticated(u), Some(author)) == Allowed
  {
  }

  /** Every users action but `me` needs an admin or a superuser; a moderator is refused with 403. */
  lemma UserAdministration(a: Action, m: Method, u: User)
    requires a != Me && u.role != Admin && !u.isSuperuser
    ensures Check(UserViews, a, m, Authenticated(u), None) == PermissionDenied
  {
  }
}
