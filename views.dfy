/**
 * The endpoints: signup, the token exchange and its error mapping, the
 * `/users/me` edit with its role lock, and the creation of reviews and
 * comments bound to their parent rows, plus review edits.
 */
module Views {
  import opened Wrappers
  import opened Users
  import opened Auth
  import opened Permissions
  import opened Access
  import opened Reviews
  import opened Serializers

  const Ok: int := 200
  const CreatedStatus: int := 201
  const BadRequest: int := 400
  const Unauthorized: int := 401
  const Forbidden: int := 403
  const NotFound: int := 404
  const ServerError: int := 500

  const UsernameMaxLength: nat := 150
  const EmailMaxLength: nat := 254
  const PersonNameMaxLength: nat := 150

  /** A field-scoped validation error, tagged with the field's name. */
  datatype FieldError =
    | Required(field: string)
    | Blank(field: string)
    | TooLong(field: string)
    | Malformed(field: string)
    | Taken(field: string)
    | Rejected(field: string)
    | OutOfRange(field: string)
    | InvalidChoice(field: string)
    | NonField

  /** A response body: errors, an error code, or what a success returns. */
  datatype Body =
    | NoBody
    | Errors(errors: set<FieldError>)
    | Detail(code: string)
    | SignupData(username: string, email: string)
    | TokenBody(token: UserId)
    | UserData(user: User)
    | Row(id: Id)

  datatype Response = Response(status: int, body: Body)

  // ---------------------------------------------------------------- field checks

  /** A required field that does not allow blank: `value` None is a missing field. */
  function PresenceErrors(field: string, value: Option<string>): (errs: set<FieldError>)
    ensures errs == {} <==> value.Some? && value.value != ""
  {
    if value.None? then {Required(field)}
    else if value.value == "" then {Blank(field)}
    else {}
  }

  /**
   * The checks of a present, non-blank text field: the length limit, the
   * framework's format check (whose verdict is `formatOk`) and uniqueness;
   * every failing check adds its error.
   */
  function ContentErrors(field: string, value: string, maxLength: nat, formatOk: bool, taken: bool)
    : (errs: set<FieldError>)
    ensures errs == {} <==> |value| <= maxLength && formatOk && !taken
    ensures TooLong(field) in errs <==> |value| > maxLength
    ensures Taken(field) in errs <==> taken
  {
    (if |value| > maxLength then {TooLong(field)} else {})
    + (if formatOk then {} else {Malformed(field)})
    + (if taken then {Taken(field)} else {})
  }

  /** A required, unique text field. */
  function RequiredFieldErrors(field: string, value: Option<string>, maxLength: nat, formatOk: bool, taken: bool)
    : (errs: set<FieldError>)
    ensures errs == {} <==> value.Some? && value.value != "" && |value.value| <= maxLength && formatOk && !taken
  {
    if PresenceErrors(field, value) != {} then PresenceErrors(field, value)
    else ContentErrors(field, value.value, maxLength, formatOk, taken)
  }

  // ---------------------------------------------------------------- signup

  /** The username field of the signup serializer; `validate_username` runs only once the field's own checks pass. */
  function SignupUsernameErrors(db: Tables, username: Option<string>, formatOk: bool): set<FieldError> {
    var errs := RequiredFieldErrors("username", username, UsernameMaxLength, formatOk,
                                    username.Some? && UsernameTaken(db, username.value));
    if errs == {} && ValidateUsername(username.value).Failure? then {Rejected("username")} else errs
  }

  /** All errors of a signup request. */
  function SignupErrors(db: Tables, username: Option<string>, email: Option<string>, usernameOk: bool, emailOk: bool)
    : (errs: set<FieldError>)
    ensures errs == {} <==>
              && username.Some? && username.value != "" && |username.value| <= UsernameMaxLength
              && usernameOk && !UsernameTaken(db, username.value)
              && username.value !in {"me", "Me", "mE", "ME"}
              && email.Some? && email.value != "" && |email.value| <= EmailMaxLength
              && emailOk && !EmailTaken(db, email.value)
  {
    SignupUsernameErrors(db, username, usernameOk)
    + RequiredFieldErrors("email", email, EmailMaxLength, emailOk, email.Some? && EmailTaken(db, email.value))
  }

  /** The reserved name is refused at signup in every letter case. */
  lemma SignupRefusesReserved(db: Tables, name: string, email: Option<string>, usernameOk: bool, emailOk: bool)
    requires name in {"me", "Me", "mE", "ME"}
    ensures SignupErrors(db, Some(name), email, usernameOk, emailOk) != {}
  {
  }

  /** A username or email already in use is refused at signup; no code is reissued. */
  lemma SignupRefusesExisting(db: Tables, k: UserId, usernameOk: bool, emailOk: bool, username: string, email: string)
    requires k in db.users
    requires username == db.users[k].username || email == db.users[k].email
    ensures SignupErrors(db, Some(username), Some(email), usernameOk, emailOk) != {}
  {
  }

  /** A signup that passes validation is accepted by the store. */
  lemma ValidSignupStores(db: Tables, username: Option<string>, email: Option<string>, usernameOk: bool, emailOk: bool, code: string)
    requires SignupErrors(db, username, email, usernameOk, emailOk) == {}
    ensures InsertUserRow(db, username.value, email.value, code).Success?
  {
  }

  /**
   * `auth_signup`: `code` is the freshly generated confirmation code; the
   * second result says whether the confirmation mail is attempted.
   */
  method AuthSignup(s: Store, username: Option<string>, email: Option<string>, usernameOk: bool, emailOk: bool, code: string)
    returns (resp: Response, mailAttempted: bool)
    requires s.Valid() && 0 < |code| <= ConfirmationCodeMaxLength
    modifies s
    ensures s.Valid()
    ensures SignupErrors(old(s.Snapshot()), username, email, usernameOk, emailOk) != {} ==>
              && resp == Response(BadRequest, Errors(SignupErrors(old(s.Snapshot()), username, email, usernameOk, emailOk)))
              && !mailAttempted && s.Snapshot() == old(s.Snapshot())
    ensures SignupErrors(old(s.Snapshot()), username, email, usernameOk, emailOk) == {} ==>
              && resp == Response(Ok, SignupData(username.value, email.value))
              && mailAttempted
              && s.Snapshot() == InsertUserRow(old(s.Snapshot()), username.value, email.value, code).value
              && s.users[old(s.nextId)].confirmationCode == code
  {
    var errs := SignupErrors(s.Snapshot(), username, email, usernameOk, emailOk);
    if errs != {} {
      return Response(BadRequest, Errors(errs)), false;
    }
    ValidSignupStores(s.Snapshot(), username, email, usernameOk, emailOk, code);
    var id := s.AddUser(username.value, email.value, code);
    var saved := s.users[id.value];
    mailAttempted := ShouldSendConfirmationCode(saved);
    resp := Response(Ok, SignupData(username.value, email.value));
  }

  // ---------------------------------------------------------------- token exchange

  /** The user directory by username. */
  function Directory(db: Tables): (d: map<string, User>)
    requires UniqueUsers(db)
    ensures forall name :: name in d <==> UsernameTaken(db, name)
    ensures forall k :: k in db.users ==> db.users[k].username in d && d[db.users[k].username] == db.users[k]
    ensures KeyedByUsername(d)
  {
    map k | k in db.users :: db.users[k].username := db.users[k]
  }

  /** The error mapping of `auth_token`, on a request whose two fields are present. */
  function TokenResponse(outcome: Result<TokenData, TokenError>): Response {
    match outcome
    case Success(d) => Response(Ok, TokenBody(d.token))
    case Failure(Backend(UserNotFound)) => Response(NotFound, Detail("not_found"))
    case Failure(Backend(ConfirmationCodeIsIncorrect)) => Response(BadRequest, Detail("parse_error"))
    case Failure(NoActiveAccount) => Response(Unauthorized, Detail("no_active_account"))
  }

  /** `auth_token`, with the incorrect-code exception caught as the handler intends. */
  function AuthToken(db: Tables, username: Option<string>, code: Option<string>): Response
    requires UniqueUsers(db)
  {
    var errs := PresenceErrors("username", username) + PresenceErrors("confirmation_code", code);
    if errs != {} then Response(BadRequest, Errors(errs))
    else TokenResponse(ValidateToken(Directory(db), username.value, code.value))
  }

  /** A missing or blank field is a 400 with field errors. */
  lemma TokenFieldsRequired(db: Tables, username: Option<string>, code: Option<string>)
    requires UniqueUsers(db)
    requires username.None? || username == Some("") || code.None? || code == Some("")
    ensures AuthToken(db, username, code).status == BadRequest && AuthToken(db, username, code).body.Errors?
  {
  }

  /** An unknown username is a 404. */
  lemma TokenUnknownUser(db: Tables, name: string, code: string)
    requires UniqueUsers(db) && name != "" && code != "" && !UsernameTaken(db, name)
    ensures AuthToken(db, Some(name), Some(code)) == Response(NotFound, Detail("not_found"))
  {
  }

  /** For an existing user: a wrong code is a 400, the right code gives that user's token, or 401 if inactive. */
  lemma TokenForUser(db: Tables, k: UserId, code: string)
    requires UniqueUsers(db) && k in db.users && db.users[k].username != "" && code != ""
    ensures code != db.users[k].confirmationCode ==>
              AuthToken(db, Some(db.users[k].username), Some(code)) == Response(BadRequest, Detail("parse_error"))
    ensures code == db.users[k].confirmationCode && db.users[k].isActive ==>
              AuthToken(db, Some(db.users[k].username), Some(code)) == Response(Ok, TokenBody(db.users[k].id))
    ensures code == db.users[k].confirmationCode && !db.users[k].isActive ==>
              AuthToken(db, Some(db.users[k].username), Some(code)) == Response(Unauthorized, Detail("no_active_account"))
  {
    var d := Directory(db);
    assert d[db.users[k].username] == db.users[k];
    TokenOutcomes(d, db.users[k].username, code);
  }

  /** A 200 from the token endpoint carries only a token, issued to an active user. */
  lemma TokenSuccessCarriesToken(db: Tables, username: Option<string>, code: Option<string>)
    requires UniqueUsers(db) && UsersKeyed(db) && AuthToken(db, username, code).status == Ok
    ensures AuthToken(db, username, code).body.TokenBody?
    ensures var t := AuthToken(db, username, code).body.token;
            t in db.users && db.users[t].isActive && Some(db.users[t].username) == username
  {
    var d := Directory(db);
    assert username.Some? && code.Some?;
    var r := ValidateToken(d, username.value, code.value);
    assert r.Success? && username.value in d;
    var k :| k in db.users && db.users[k].username == username.value;
    assert d[username.value] == db.users[k];
    assert r.value.token == k;
  }

  /** The names the views module imports from the exceptions module, and the names that module defines. */
  const ViewsImports: set<string> := {"ConfirmationCodeIsIncorrectError", "UserNotFound"}
  const ExceptionsDefined: set<string> := {"ConfirmationCodeIsIncorrect", "UserNotFound"}

  /** The views module loads only if every name it imports is defined. */
  predicate ViewsLoad() {
    ViewsImports <= ExceptionsDefined
  }

  /** `auth_token` as written: the request is served only when the views module loads. */
  function AuthTokenAsWritten(db: Tables, username: Option<string>, code: Option<string>): Response
    requires UniqueUsers(db)
  {
    if ViewsLoad() then AuthToken(db, username, code) else Response(ServerError, NoBody)
  }

  /** As written, the import fails, so a wrong code gets a server error where a 400 is meant. */
  lemma ImportMismatch(db: Tables, k: UserId, code: string)
    requires UniqueUsers(db) && k in db.users && db.users[k].username != "" && code != ""
    requires code != db.users[k].confirmationCode
    ensures !ViewsLoad()
    ensures AuthTokenAsWritten(db, Some(db.users[k].username), Some(code)).status == ServerError
    ensures AuthToken(db, Some(db.users[k].username), Some(code)).status == BadRequest
  {
    assert "ConfirmationCodeIsIncorrectError" in ViewsImports;
    assert "ConfirmationCodeIsIncorrectError" !in ExceptionsDefined;
    TokenForUser(db, k, code);
  }

  // ---------------------------------------------------------------- /users/me

  /** The fields a PATCH may submit; None is a field left out. */
  datatype UserPatch = UserPatch(
    username: Option<string>,
    email: Option<string>,
    firstName: Option<string>,
    lastName: Option<string>,
    bio: Option<string>,
    role: Option<string>)

  /** Whether another user than `self` holds the username or the email. */
  predicate UsernameHeldByOther(db: Tables, self: UserId, name: string) {
    exists k :: k in db.users && k != self && db.users[k].username == name
  }

  predicate EmailHeldByOther(db: Tables, self: UserId, email: string) {
    exists k :: k in db.users && k != self && db.users[k].email == email
  }

  /** A partial update validates only the submitted fields; uniqueness ignores the user being edited. */
  function PatchErrors(db: Tables, u: User, p: UserPatch, usernameOk: bool, emailOk: bool): (errs: set<FieldError>)
    ensures errs == {} <==>
              && (p.username.Some? ==>
                    && p.username.value != "" && |p.username.value| <= UsernameMaxLength && usernameOk
                    && !UsernameHeldByOther(db, u.id, p.username.value))
              && (p.email.Some? ==>
                    && p.email.value != "" && |p.email.value| <= EmailMaxLength && emailOk
                    && !EmailHeldByOther(db, u.id, p.email.value))
              && (p.firstName.Some? ==> |p.firstName.value| <= PersonNameMaxLength)
              && (p.lastName.Some? ==> |p.lastName.value| <= PersonNameMaxLength)
              && (p.role.Some? ==> ParseRole(p.role.value).Some?)
  {
    (if p.username.None? then {}
     else RequiredFieldErrors("username", p.username, UsernameMaxLength, usernameOk,
                              UsernameHeldByOther(db, u.id, p.username.value)))
    + (if p.email.None? then {}
       else RequiredFieldErrors("email", p.email, EmailMaxLength, emailOk, EmailHeldByOther(db, u.id, p.email.value)))
    + (if p.firstName.Some? && |p.firstName.value| > PersonNameMaxLength then {TooLong("first_name")} else {})
    + (if p.lastName.Some? && |p.lastName.value| > PersonNameMaxLength then {TooLong("last_name")} else {})
    + (if p.role.Some? && ParseRole(p.role.value).None? then {InvalidChoice("role")} else {})
  }

  function Patched(current: string, submitted: Option<string>): string {
    if submitted.Some? then submitted.value else current
  }

  /**
   * The row a valid PATCH saves: each submitted field replaces the stored
   * one; the role does so only when `roleEditable`.
   */
  function ApplyPatch(u: User, p: UserPatch, roleEditable: bool): (r: User)
    requires p.role.Some? ==> ParseRole(p.role.value).Some?
    ensures r.(username := u.username, email := u.email, firstName := u.firstName,
               lastName := u.lastName, bio := u.bio, role := u.role) == u
    ensures p.username.None? ==> r.username == u.username
    ensures p.email.None? ==> r.email == u.email
    ensures p.firstName.None? ==> r.firstName == u.firstName
    ensures p.lastName.None? ==> r.lastName == u.lastName
    ensures p.bio.None? ==> r.bio == u.bio
    ensures p.role.None? || !roleEditable ==> r.role == u.role
  {
    u.(username := Patched(u.username, p.username),
       email := Patched(u.email, p.email),
       firstName := Patched(u.firstName, p.firstName),
       lastName := Patched(u.lastName, p.lastName),
       bio := Patched(u.bio, p.bio),
       role := if roleEditable && p.role.Some? then ParseRole(p.role.value).value else u.role)
  }

  /** A caller who is neither staff nor superuser keeps the old role, while the other submitted fields apply. */
  lemma RoleLocked(u: User, p: UserPatch)
    requires p.role.Some? ==> ParseRole(p.role.value).Some?
    ensures ApplyPatch(u, p, false)
            == u.(username := Patched(u.username, p.username),
                  email := Patched(u.email, p.email),
                  firstName := Patched(u.firstName, p.firstName),
                  lastName := Patched(u.lastName, p.lastName),
                  bio := Patched(u.bio, p.bio))
    ensures p.username.Some? ==> ApplyPatch(u, p, false).username == p.username.value
    ensures p.email.Some? ==> ApplyPatch(u, p, false).email == p.email.value
    ensures p.firstName.Some? ==> ApplyPatch(u, p, false).firstName == p.firstName.value
    ensures p.lastName.Some? ==> ApplyPatch(u, p, false).lastName == p.lastName.value
    ensures p.bio.Some? ==> ApplyPatch(u, p, false).bio == p.bio.value
  {
  }

  /** A staff or superuser caller gets the requested role. */
  lemma RoleApplied(u: User, p: UserPatch, r: Role)
    requires p.role == Some(RoleName(r))
    ensures ApplyPatch(u, p, true).role == r
  {
    ParseRoleName(r);
  }

  /** A valid PATCH of an existing user is accepted by the store. */
  lemma ValidPatchSaves(db: Tables, u: User, p: UserPatch, usernameOk: bool, emailOk: bool, roleEditable: bool)
    requires Consistent(db) && u.id in db.users && db.users[u.id] == u
    requires PatchErrors(db, u, p, usernameOk, emailOk) == {}
    ensures SaveUserRow(db, ApplyPatch(u, p, roleEditable)).Success?
  {
    var v := ApplyPatch(u, p, roleEditable);
    forall k | k in db.users && k != u.id
      ensures db.users[k].username != v.username && db.users[k].email != v.email
    {
      assert db.users[k].username != u.username && db.users[k].email != u.email;
    }
  }

  /** The signup rule on the reserved name is not repeated here: a PATCH may rename a user to it. */
  lemma PatchAcceptsReserved(db: Tables, u: User)
    requires !UsernameHeldByOther(db, u.id, "me")
    ensures PatchErrors(db, u, UserPatch(Some("me"), None, None, None, None, None), true, true) == {}
  {
  }

  /** `UsersViewSet.me` with PATCH. */
  method PatchMe(s: Store, caller: Caller, p: UserPatch, usernameOk: bool, emailOk: bool) returns (resp: Response)
    requires s.Valid()
    modifies s
    ensures s.Valid()
    ensures caller.Anonymous? ==>
              resp == Response(Unauthorized, Detail("not_authenticated")) && s.Snapshot() == old(s.Snapshot())
    ensures caller.Authenticated? && !UsernameTaken(old(s.Snapshot()), caller.user.username) ==>
              resp == Response(NotFound, Detail("not_found")) && s.Snapshot() == old(s.Snapshot())
    ensures caller.Authenticated? && UsernameTaken(old(s.Snapshot()), caller.user.username) ==>
              var u := Directory(old(s.Snapshot()))[caller.user.username];
              var errs := PatchErrors(old(s.Snapshot()), u, p, usernameOk, emailOk);
              && (errs != {} ==>
                    resp == Response(BadRequest, Errors(errs)) && s.Snapshot() == old(s.Snapshot()))
              && (errs == {} ==>
                    var v := ApplyPatch(u, p, caller.user.isSuperuser || caller.user.isStaff);
                    && resp == Response(Ok, UserData(v))
                    && s.Snapshot() == old(s.Snapshot()).(users := old(s.users)[u.id := v]))
  {
    if caller.Anonymous? {
      return Response(Unauthorized, Detail("not_authenticated"));
    }
    var db := s.Snapshot();
    var d := Directory(db);
    if caller.user.username !in d {
      return Response(NotFound, Detail("not_found"));
    }
    var u := d[caller.user.username];
    var errs := PatchErrors(db, u, p, usernameOk, emailOk);
    if errs != {} {
      return Response(BadRequest, Errors(errs));
    }
    var k :| k in db.users && db.users[k].username == caller.user.username;
    assert u == db.users[k] && u.id == k;
    var v := ApplyPatch(u, p, caller.user.isSuperuser || caller.user.isStaff);
    ValidPatchSaves(db, u, p, usernameOk, emailOk, caller.user.isSuperuser || caller.user.isStaff);
    var saved := s.SaveUser(v);
    resp := Response(Ok, UserData(v));
  }

  // ---------------------------------------------------------------- reviews and comments

  /** The score field: required, within [1, 10]. */
  function ScoreErrors(score: Option<int>): (errs: set<FieldError>)
    ensures errs == {} <==> score.Some? && ScoreMin <= score.value <= ScoreMax
  {
    if score.None? then {Required("score")}
    else if !(ScoreMin <= score.value <= ScoreMax) then {OutOfRange("score")}
    else {}
  }

  /** `ReviewViewSet.get_title`: the URL's title, or a 404. */
  function ReviewParent(db: Tables, title: Id): (r: Option<Id>)
    ensures r.Some? <==> title in db.titles
    ensures r.Some? ==> r.value == title
  {
    if title in db.titles then Some(title) else None
  }

  /** `CommentViewSet.get_reviews`: the URL's review looked up by its own id; the URL's title takes no part. */
  function CommentParent(db: Tables, title: Id, review: Id): (r: Option<Id>)
    ensures r.Some? <==> review in db.reviews
    ensures r.Some? ==> r.value == review
  {
    if review in db.reviews then Some(review) else None
  }

  /** A comment may be filed under a title that its review does not belong to. */
  lemma CommentParentIgnoresTitle(db: Tables, title: Id, review: Id)
    requires review in db.reviews && db.reviews[review].title != title
    ensures CommentParent(db, title, review) == Some(review)
  {
  }

  /** A review request whose title does not exist fails the lookup, however valid the rest is. */
  lemma UnknownTitleNotFound(db: Tables, title: Id)
    requires title !in db.titles
    ensures ReviewParent(db, title).None?
  {
  }

  /**
   * Creating a review: the caller must be authenticated, the fields valid
   * and the caller's review of the URL's title the first; the title must
   * exist; the new row is bound to that title and to the caller.
   */
  method CreateReview(s: Store, caller: Caller, title: Id, text: Option<string>, score: Option<int>)
    returns (resp: Response)
    requires s.Valid()
    requires caller.Authenticated? ==> caller.user.id in s.users
    modifies s
    ensures s.Valid()
    ensures caller.Anonymous? ==>
              resp == Response(Unauthorized, Detail("not_authenticated")) && s.Snapshot() == old(s.Snapshot())
    ensures caller.Authenticated? && PresenceErrors("text", text) + ScoreErrors(score) != {} ==>
              resp == Response(BadRequest, Errors(PresenceErrors("text", text) + ScoreErrors(score)))
              && s.Snapshot() == old(s.Snapshot())
    ensures caller.Authenticated? && PresenceErrors("text", text) + ScoreErrors(score) == {} ==>
              && (HasReviewed(old(s.Snapshot()), title, caller.user.id) ==>
                    resp == Response(BadRequest, Errors({NonField})) && s.Snapshot() == old(s.Snapshot()))
              && (!HasReviewed(old(s.Snapshot()), title, caller.user.id) && title !in old(s.titles) ==>
                    resp == Response(NotFound, Detail("not_found")) && s.Snapshot() == old(s.Snapshot()))
              && (!HasReviewed(old(s.Snapshot()), title, caller.user.id) && title in old(s.titles) ==>
                    && resp == Response(CreatedStatus, Row(old(s.nextId)))
                    && s.Snapshot() == InsertReviewRow(old(s.Snapshot()), title, caller.user.id, text.value, score.value).value)
  {
    if caller.Anonymous? {
      return Response(Unauthorized, Detail("not_authenticated"));
    }
    var errs := PresenceErrors("text", text) + ScoreErrors(score);
    if errs != {} {
      return Response(BadRequest, Errors(errs));
    }
    var data := ReviewData(text.value, score.value);
    var checked := ValidateReview(s.Snapshot(), POST, title, caller.user.id, data);
    if checked.Failure? {
      return Response(BadRequest, Errors({NonField}));
    }
    var parent := ReviewParent(s.Snapshot(), title);
    if parent.None? {
      return Response(NotFound, Detail("not_found"));
    }
    var id := s.AddReview(parent.value, caller.user.id, data.text, data.score);
    resp := Response(CreatedStatus, Row(id.value));
  }

  /**
   * Editing a review through `update` (PUT, every field required) or
   * `partial_update` (PATCH, only the submitted fields): the caller must be
   * authenticated, the review must belong to the URL's title, and the caller
   * must pass the object check; the duplicate rule does not apply.
   */
  method EditReview(s: Store, caller: Caller, m: Method, title: Id, id: Id, text: Option<string>, score: Option<int>)
    returns (resp: Response)
    requires s.Valid() && m in {PUT, PATCH}
    modifies s
    ensures s.Valid()
    ensures caller.Anonymous? ==>
              resp == Response(Unauthorized, Detail("not_authenticated")) && s.Snapshot() == old(s.Snapshot())
    ensures caller.Authenticated? && (title !in old(s.titles) || id !in old(s.reviews) || old(s.reviews)[id].title != title) ==>
              resp == Response(NotFound, Detail("not_found")) && s.Snapshot() == old(s.Snapshot())
    ensures caller.Authenticated? && title in old(s.titles) && id in old(s.reviews) && old(s.reviews)[id].title == title ==>
              var row := old(s.reviews)[id];
              && (!OwnerOrStaffObject(caller.user, row.author) ==>
                    resp == Response(Forbidden, Detail("permission_denied")) && s.Snapshot() == old(s.Snapshot()))
              && (OwnerOrStaffObject(caller.user, row.author) ==>
                    var errs := EditErrors(m, text, score);
                    && (errs != {} ==> resp == Response(BadRequest, Errors(errs)) && s.Snapshot() == old(s.Snapshot()))
                    && (errs == {} ==>
                          && resp == Response(Ok, Row(id))
                          && s.Snapshot() == old(s.Snapshot()).(reviews := old(s.reviews)[id :=
                               row.(text := Patched(row.text, text), score := PatchedScore(row.score, score))])))
  {
    if caller.Anonymous? {
      return Response(Unauthorized, Detail("not_authenticated"));
    }
    if title !in s.titles || id !in s.reviews || s.reviews[id].title != title {
      return Response(NotFound, Detail("not_found"));
    }
    var row := s.reviews[id];
    if !OwnerOrStaffObject(caller.user, row.author) {
      return Response(Forbidden, Detail("permission_denied"));
    }
    var errs := EditErrors(m, text, score);
    if errs != {} {
      return Response(BadRequest, Errors(errs));
    }
    var data := ReviewData(Patched(row.text, text), PatchedScore(row.score, score));
    EditsSkipDuplicateCheck(s.Snapshot(), m, title, caller.user.id, data);
    var checked := ValidateReview(s.Snapshot(), m, title, caller.user.id, data);
    assert ScoresInRange(s.Snapshot());
    var saved := s.EditReview(id, checked.value.text, checked.value.score);
    resp := Response(Ok, Row(id));
  }

  function PatchedScore(current: int, submitted: Option<int>): int {
    if submitted.Some? then submitted.value else current
  }

  /** The field errors of a review edit: PUT checks both fields, PATCH only the submitted ones. */
  function EditErrors(m: Method, text: Option<string>, score: Option<int>): (errs: set<FieldError>)
    ensures m == PUT ==> errs == PresenceErrors("text", text) + ScoreErrors(score)
    ensures m != PUT ==> (errs == {} <==>
              (text.Some? ==> text.value != "") && (score.Some? ==> ScoreMin <= score.value <= ScoreMax))
  {
    if m == PUT then PresenceErrors("text", text) + ScoreErrors(score)
    else (if text.None? then {} else PresenceErrors("text", text))
         + (if score.None? then {} else ScoreErrors(score))
  }

  /**
   * Creating a comment: the caller must be authenticated and the text
   * present; the review is looked up by its id alone and must exist.
   */
  method CreateComment(s: Store, caller: Caller, title: Id, review: Id, text: Option<string>)
    returns (resp: Response)
    requires s.Valid()
    requires caller.Authenticated? ==> caller.user.id in s.users
    modifies s
    ensures s.Valid()
    ensures caller.Anonymous? ==>
              resp == Response(Unauthorized, Detail("not_authenticated")) && s.Snapshot() == old(s.Snapshot())
    ensures caller.Authenticated? && PresenceErrors("text", text) != {} ==>
              resp == Response(BadRequest, Errors(PresenceErrors("text", text))) && s.Snapshot() == old(s.Snapshot())
    ensures caller.Authenticated? && PresenceErrors("text", text) == {} && review !in old(s.reviews) ==>
              resp == Response(NotFound, Detail("not_found")) && s.Snapshot() == old(s.Snapshot())
    ensures caller.Authenticated? && PresenceErrors("text", text) == {} && review in old(s.reviews) ==>
              && resp == Response(CreatedStatus, Row(old(s.nextId)))
              && s.Snapshot() == InsertCommentRow(old(s.Snapshot()), review, caller.user.id, text.value).value
  {
    if caller.Anonymous? {
      return Response(Unauthorized, Detail("not_authenticated"));
    }
    var errs := PresenceErrors("text", text);
    if errs != {} {
      return Response(BadRequest, Errors(errs));
    }
    var parent := CommentParent(s.Snapshot(), title, review);
    if parent.None? {
      return Response(NotFound, Detail("not_found"));
    }
    var id := s.AddComment(parent.value, caller.user.id, text.value);
    resp := Response(CreatedStatus, Row(id.value));
  }
}
