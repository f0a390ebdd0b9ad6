# YaMDb review service: a Dafny model of its rules

YaMDb is a REST service where users review titles (films, books, songs)
sorted into categories and genres, and comment on reviews. This project models
the rules at the core of the service and proves properties of them:

- **Sign-in without passwords.** A user signs up with a username and an email.
  The service stores a confirmation code for that user. The user then trades
  the username and the code for an access token
  (`Users`, `Auth`, `Serializers`, `Views`).
- **Roles and permission classes.** A user's role is `user`, `moderator` or
  `admin`, and a user may also carry the superuser flag. Three permission
  classes decide from these, from whether the caller is signed in, and from an
  object's author. Each viewset picks one of them per action
  (`Permissions`, `Access`).
- **Validation.** Signup refuses the reserved username `me`. A title's year may
  not lie in the future. Scores lie in [1, 10]. An author may review a title
  only once. A `/users/me` edit locks the role for callers who are neither staff nor
  superuser.
  A title's rating is derived from its reviews' scores
  (`Serializers`, `Views`).
- **The relational store.** It holds users, categories, genres, titles,
  title–genre links, reviews and comments. It enforces the uniqueness
  constraints and the referential actions. Deleting a category sets its titles'
  category to null. Deleting a title, a genre, a review or a user cascades
  (`Reviews`). The store also refuses a score outside [1, 10]. In the source
  that range is a pair of field validators rather than a database constraint.
  The store's check stands for those validators, which every modelled write
  path runs before it reaches the store.

The store is the class `Reviews.Store`. Its fields are one map per table plus
the id counter, and its methods rewrite them in place. Each method is proved
against a function on the tables as a value (`Reviews.Tables`). Those functions
and the invariant `Reviews.Consistent` carry the lemmas. The endpoints in
`Views` are methods on a `Store`. They are proved against the same functions
and against the field checks they run first.

Conventions of the model:

- An exception becomes the `Failure` case of a `Result`.
- Python truthiness of a value that should be a string becomes `Users.Arg`.
- A stored password hash becomes the raw password it was made from, or `None`
  when no password can match.
- The verdicts of the framework's library validators are boolean inputs:
  `usernameOk` for the username character set, `emailOk` for email syntax.
- The current year and the freshly generated confirmation code are parameters.
- The token issued to a user is represented by that user's id.

## Model

| member | source | states |
|---|---|---|
| Users.ParseRole | api_yamdb/users/models.py:8-16 | only the three stored role names parse, each to the role it names |
| Users.ParseRoleName | api_yamdb/users/models.py:12-16 | a stored role name parses back to its role |
| Users.NewUser | api_yamdb/users/models.py:23-37 | a new user has role `user`, an empty bio, no confirmed email, and no password matches it |
| Users.NewUserGetsMail | api_yamdb/users/models.py:44-53 | a new user gets the confirmation mail iff both the email and the code are non-empty |
| Users.CheckConfirmationCode | api_yamdb/users/models.py:55-61 | the code passes iff it is a non-empty string equal to the stored code |
| Users.EmptyCodeFails | api_yamdb/users/models.py:57-59 | a missing or empty code never passes |
| Users.NonStringCodeFails | api_yamdb/users/models.py:59 | a value that is not a string never passes, truthy or not |
| Users.BlankStoredCodeNeverPasses | api_yamdb/users/models.py:33-37 | a user whose stored code is blank never passes, whatever is supplied |
| Users.RolePredicates | api_yamdb/users/models.py:63-71 | `is_admin` iff role is "admin", `is_moderator` iff "moderator", never both |
| Auth.Authenticate | api_yamdb/users/auth.py:9-32 | UserNotFound exactly when the lookup misses; a returned user is the looked-up one and active; the code error only for a truthy code that fails the check |
| Auth.UnknownUsernameNotFound | api_yamdb/users/auth.py:16-19 | an unknown username yields UserNotFound whatever password or code is given |
| Auth.PasswordBeforeCode | api_yamdb/users/auth.py:21-26 | a correct password on an active user returns the user whatever code comes with it |
| Auth.WrongCodeRaises | api_yamdb/users/auth.py:27-30 | past the password path, a non-empty wrong code raises ConfirmationCodeIsIncorrect |
| Auth.MatchingCodeReturnsUser | api_yamdb/users/auth.py:27-32 | a matching code on an active user returns that user |
| Auth.InactiveGetsNothing | api_yamdb/users/auth.py:24 | an inactive user never gets a user back: the result is none unless the code check raises |
| Auth.NoCredentialsActiveReturned | api_yamdb/users/auth.py:21-32 | with neither password nor code, an existing active user is returned |
| Auth.MissingUsernameFallsBack | api_yamdb/users/auth.py:14-15 | a missing username is taken from the USERNAME_FIELD keyword argument, and fails when there is none |
| Auth.WrongPasswordStillReturnsUser | api_yamdb/users/auth.py:21-32 | as written, a wrong non-empty password without a code returns the active user |
| Auth.AuthenticateCheckingPassword | api_yamdb/users/auth.py:21-26 | the corrected backend decides every request without a non-empty password exactly as the backend does |
| Auth.PasswordDecidesLogin | api_yamdb/users/auth.py:21-26 | with the corrected backend, a non-empty password returns a user iff it matches an existing active user |
| Auth.GetUser | api_yamdb/users/auth.py:34-40 | the user is returned iff the id exists and the user is active |
| Permissions.SignupOnlyAnonymous | api_yamdb/api/permissions.py:4-6 | the signup permission admits exactly the anonymous callers |
| Permissions.AdminOrSuperUserRule | api_yamdb/api/permissions.py:9-15 | anonymous callers are denied; a signed-in caller is admitted iff admin or superuser |
| Permissions.ObjectRuleAdmits | api_yamdb/api/permissions.py:24-30 | the object check admits the author whatever the role, and admins, moderators and superusers on any object |
| Permissions.ObjectRuleDenies | api_yamdb/api/permissions.py:24-30 | the object check denies a plain, non-superuser caller on someone else's object |
| Permissions.RaisingRoleKeepsObjectAllow | api_yamdb/api/permissions.py:25-30 | raising a caller's role never turns an object-level allow into a deny |
| Access.PermissionFor | api_yamdb/api/views.py:113-116 | for titles, the read-only-unless-signed-in class is used exactly on list and retrieve |
| Access.TitleSerializerFor | api_yamdb/api/views.py:118-121 | the nested serializer is used exactly on list and retrieve |
| Access.TaxonomyRules | api_yamdb/api/views.py:91-103 | category and genre create and destroy need admin or superuser; other actions use the read-only rule; genres follow categories |
| Access.TitleRules | api_yamdb/api/views.py:113-121 | title reads use the read-only rule and the nested serializer; every other action needs admin and uses slugs |
| Access.FeedbackRules | api_yamdb/api/views.py:134-137 | review and comment update, partial update and destroy use the owner class; the rest use the read-only rule |
| Access.AnonymousNeverWrites | api_yamdb/api/views.py:91-157 | an anonymous caller is refused with 401 on every non-safe request on every viewset |
| Access.PlainUserCannotTouchOthers | api_yamdb/api/views.py:154-157 | a plain caller editing or deleting someone else's review or comment is refused with 403 |
| Access.OwnerOrStaffMayTouch | api_yamdb/api/views.py:134-137 | the author, a moderator, an admin or a superuser passes both checks on a review or comment edit |
| Access.UserAdministration | api_yamdb/api/views.py:58 | every users action but `me` refuses a non-admin, non-superuser caller with 403 |
| Reviews.EmptyTables | api_yamdb/reviews/models.py:9-161 | the empty store satisfies every constraint |
| Reviews.InsertUserRow | api_yamdb/users/models.py:18 | a user is stored iff username and email are both free; the new row takes the next id |
| Reviews.SaveUserRow | api_yamdb/users/models.py:18 | an edited user is saved iff it exists and no other user holds its username or email |
| Reviews.InsertCategoryRow | api_yamdb/reviews/models.py:9-13 | a category is stored iff its slug is free |
| Reviews.InsertGenreRow | api_yamdb/reviews/models.py:24-28 | a genre is stored iff its slug is free |
| Reviews.InsertTitleRow | api_yamdb/reviews/models.py:48-62 | a title is stored iff its year fits the column and its category, if any, exists |
| Reviews.InsertTitleGenreRow | api_yamdb/reviews/models.py:79-97 | a link is stored iff title and genre exist and the pair is new |
| Reviews.InsertReviewRow | api_yamdb/reviews/models.py:103-137 | a review is stored iff title and author exist, the score is in [1, 10] and the author has not reviewed the title |
| Reviews.UpdateReviewRow | api_yamdb/reviews/models.py:122-125 | an edit keeps title and author and needs a score in [1, 10] |
| Reviews.InsertCommentRow | api_yamdb/reviews/models.py:143-161 | a comment is stored iff its review and author exist |
| Reviews.SecondReviewRejected | api_yamdb/reviews/models.py:132-137 | a second review by the same author of the same title is refused |
| Reviews.DeleteCategoryRows | api_yamdb/reviews/models.py:55-62 | the category goes; each of its titles stays, with its category set to null and every other field unchanged; other titles and tables are unchanged |
| Reviews.DeleteGenreRows | api_yamdb/reviews/models.py:86-89 | the genre and its links go; no title is removed |
| Reviews.DeleteTitleRows | api_yamdb/reviews/models.py:82-85 | the title, its links, its reviews and their comments go; nothing else |
| Reviews.DeleteReviewRows | api_yamdb/reviews/models.py:146-151 | the review and its comments go; nothing else |
| Reviews.DeleteCommentRows | api_yamdb/reviews/models.py:143-161 | the comment table loses exactly that comment, the surviving comments are unchanged, and no other table changes |
| Reviews.DeleteUserRows | api_yamdb/reviews/models.py:116-121 | the user, their reviews, their comments and the comments on their reviews go |
| Reviews.InsertUserKeepsConsistent | api_yamdb/users/models.py:18 | a stored user keeps every constraint |
| Reviews.SaveUserKeepsConsistent | api_yamdb/users/models.py:18 | a saved user edit keeps every constraint |
| Reviews.InsertCategoryKeepsConsistent | api_yamdb/reviews/models.py:13 | a stored category keeps every constraint |
| Reviews.InsertGenreKeepsConsistent | api_yamdb/reviews/models.py:28 | a stored genre keeps every constraint |
| Reviews.InsertTitleKeepsConsistent | api_yamdb/reviews/models.py:55-62 | a stored title keeps every constraint |
| Reviews.InsertTitleGenreKeepsConsistent | api_yamdb/reviews/models.py:91-97 | a stored link keeps every constraint, pairs unique included |
| Reviews.InsertReviewKeepsConsistent | api_yamdb/reviews/models.py:122-137 | a stored review keeps every constraint, one review per pair and scores in range included |
| Reviews.UpdateReviewKeepsConsistent | api_yamdb/reviews/models.py:122-125 | a review edit keeps every constraint |
| Reviews.InsertCommentKeepsConsistent | api_yamdb/reviews/models.py:146-161 | a stored comment keeps every constraint |
| Reviews.DeleteCategoryKeepsConsistent | api_yamdb/reviews/models.py:55-62 | a category delete keeps every constraint |
| Reviews.DeleteGenreKeepsConsistent | api_yamdb/reviews/models.py:86-89 | a genre delete keeps every constraint |
| Reviews.DeleteTitleKeepsConsistent | api_yamdb/reviews/models.py:82-85 | a title delete leaves no dangling reference |
| Reviews.DeleteReviewKeepsConsistent | api_yamdb/reviews/models.py:146-151 | a review delete leaves no dangling reference |
| Reviews.DeleteCommentKeepsConsistent | api_yamdb/reviews/models.py:143-161 | a comment delete keeps every constraint |
| Reviews.DeleteUserKeepsConsistent | api_yamdb/reviews/models.py:116-121 | a user delete leaves no dangling reference |
| Reviews.Store.constructor | api_yamdb/reviews/models.py:9-161 | a new store is empty and consistent |
| Reviews.Store.AddUser | api_yamdb/users/models.py:18 | stores the user as InsertUserRow decides, keeping the store consistent |
| Reviews.Store.SaveUser | api_yamdb/users/models.py:18 | saves the edit as SaveUserRow decides, keeping the store consistent |
| Reviews.Store.AddCategory | api_yamdb/reviews/models.py:9-13 | stores the category as InsertCategoryRow decides |
| Reviews.Store.AddGenre | api_yamdb/reviews/models.py:24-28 | stores the genre as InsertGenreRow decides |
| Reviews.Store.AddTitle | api_yamdb/reviews/models.py:39-62 | stores the title as InsertTitleRow decides |
| Reviews.Store.AddTitleGenre | api_yamdb/reviews/models.py:79-97 | stores the link as InsertTitleGenreRow decides |
| Reviews.Store.AddReview | api_yamdb/reviews/models.py:103-137 | stores the review as InsertReviewRow decides |
| Reviews.Store.EditReview | api_yamdb/reviews/models.py:122-125 | saves the edit as UpdateReviewRow decides |
| Reviews.Store.AddComment | api_yamdb/reviews/models.py:143-161 | stores the comment as InsertCommentRow decides |
| Reviews.Store.DeleteCategory | api_yamdb/reviews/models.py:55-62 | the new tables are DeleteCategoryRows of the old; the store stays consistent |
| Reviews.Store.DeleteGenre | api_yamdb/reviews/models.py:86-89 | the new tables are DeleteGenreRows of the old |
| Reviews.Store.DeleteTitle | api_yamdb/reviews/models.py:82-85 | the new tables are DeleteTitleRows of the old |
| Reviews.Store.DeleteReview | api_yamdb/reviews/models.py:146-151 | the new tables are DeleteReviewRows of the old |
| Reviews.Store.DeleteComment | api_yamdb/reviews/models.py:143-161 | the new tables are DeleteCommentRows of the old |
| Reviews.Store.DeleteUser | api_yamdb/reviews/models.py:116-121 | the new tables are DeleteUserRows of the old |
| Serializers.ReservedSpellings | api_yamdb/api/serializers.py:25 | a name lower-cases to "me" iff it is one of "me", "Me", "mE", "ME" |
| Serializers.ValidateUsername | api_yamdb/api/serializers.py:23-27 | "me" in any letter case is refused; any other value comes back unchanged |
| Serializers.ValidateToken | api_yamdb/api/serializers.py:41-67 | success only for an existing active user, returning username, code and that user's token; no_active_account iff the backend yields no user; a backend exception comes out as that same exception |
| Serializers.TokenOutcomes | api_yamdb/api/serializers.py:41-58 | unknown user, wrong code, right code with inactive user, right code with active user: the four outcomes |
| Serializers.TokenIgnoresPassword | api_yamdb/api/serializers.py:37-39 | the token exchange does not depend on the stored password |
| Serializers.SumBounds | api_yamdb/reviews/models.py:122-125 | n scores in [1, 10] sum to between n and 10n |
| Serializers.RatingBounds | api_yamdb/api/serializers.py:132-137 | with scores in [1, 10], the rating is none iff there are no scores, and otherwise lies in [1, 10] |
| Serializers.ZeroMeanGivesNoRating | api_yamdb/api/serializers.py:137 | any non-empty list of scores with mean zero also gives no rating (a zero mean is falsy), so the bound on scores is what makes none mean "no reviews" |
| Serializers.TitleRating | api_yamdb/api/serializers.py:132-137 | in a consistent store, a title's rating is none iff it has no reviews, and otherwise lies in [1, 10] |
| Serializers.ValidateYear | api_yamdb/api/serializers.py:139-145 | a year after the current year is refused; any other year comes back unchanged |
| Serializers.StaleYearBound | api_yamdb/reviews/models.py:48-51 | once the calendar passes the year the code was loaded in, the current year is refused although `validate_year` accepts it |
| Serializers.YearAcceptedMeansNotFuture | api_yamdb/api/serializers.py:139-145 | the corrected year rule accepts exactly the years in the column's range that are not in the future |
| Serializers.ValidateReview | api_yamdb/api/serializers.py:172-181 | fails iff the method is POST and the caller already reviewed the title; otherwise returns the data unchanged |
| Serializers.EditsSkipDuplicateCheck | api_yamdb/api/serializers.py:174 | on any method but POST the data comes back unchanged |
| Views.SignupErrors | api_yamdb/api/serializers.py:15-27 | a signup is valid iff both fields are present, non-blank, within length, well-formed and free, and the username is not "me" in any case |
| Views.SignupRefusesReserved | api_yamdb/api/serializers.py:23-27 | the reserved name is refused at signup |
| Views.SignupRefusesExisting | api_yamdb/api/serializers.py:15-21 | a username or email already in use is refused at signup |
| Views.ValidSignupStores | api_yamdb/api/views.py:27-30 | a signup that passes validation is accepted by the store |
| Views.AuthSignup | api_yamdb/api/views.py:23-33 | an invalid signup answers 400 with its errors and changes nothing; a valid one stores the user with the fresh code, attempts the mail and answers 200 with username and email |
| Views.Directory | api_yamdb/users/auth.py:17 | the username lookup finds exactly the stored usernames, each to its user, and every entry carries its own key as username |
| Views.TokenFieldsRequired | api_yamdb/api/views.py:50 | a missing or blank field answers 400 with field errors |
| Views.TokenUnknownUser | api_yamdb/api/views.py:48-49 | an unknown username answers 404 |
| Views.TokenForUser | api_yamdb/api/views.py:40-47 | a wrong code answers 400; the right code answers 200 with that user's token, or 401 for an inactive user |
| Views.TokenSuccessCarriesToken | api_yamdb/api/views.py:42-45 | a 200 carries only a token, issued to the active user named in the request |
| Views.ImportMismatch | api_yamdb/api/views.py:11 | as written, the views module does not load, so a wrong code gets a server error where the handler means 400 |
| Views.PatchErrors | api_yamdb/api/serializers.py:75-88 | a partial edit is valid iff each submitted username is non-blank, at most 150 characters, well-formed and not held by another user, each submitted email likewise with 254, submitted first and last names have at most 150 characters, and a submitted role is one of the three |
| Views.ApplyPatch | api_yamdb/api/views.py:72-79 | the saved row differs from the stored one only in the editable fields, and a field not submitted (or the role, when not editable) keeps its stored value |
| Views.RoleLocked | api_yamdb/api/views.py:78-79 | for a caller who is neither staff nor superuser the saved row is the stored row with each submitted username, email, first name, last name and bio applied and the role kept |
| Views.RoleApplied | api_yamdb/api/views.py:76-77 | a staff or superuser caller gets the requested role |
| Views.ValidPatchSaves | api_yamdb/api/views.py:72-79 | a valid edit of an existing user is accepted by the store |
| Views.PatchAcceptsReserved | api_yamdb/api/serializers.py:75-88 | the reserved-name rule applies only at signup: an edit may rename a user to "me" |
| Views.PatchMe | api_yamdb/api/views.py:61-80 | 401 for anonymous, 404 for a missing user, 400 for invalid fields, else 200 and the user row replaced by the patched row, with the role locked unless staff or superuser |
| Views.ScoreErrors | api_yamdb/reviews/models.py:122-125 | the score field is valid iff present and in [1, 10] |
| Views.CommentParentIgnoresTitle | api_yamdb/api/views.py:159-160 | a review of another title is still found for a comment |
| Views.UnknownTitleNotFound | api_yamdb/api/views.py:139-140 | a review request for a missing title finds no parent |
| Views.CreateReview | api_yamdb/api/views.py:124-146 | 401 for anonymous, 400 for invalid fields or a second review, 404 for a missing title, else 201 and the review stored for the URL's title and the caller |
| Views.EditErrors | api_yamdb/api/serializers.py:159-170 | PUT checks both fields, PATCH only the submitted ones |
| Views.EditReview | api_yamdb/api/views.py:134-143 | 401 for anonymous, 404 unless the review belongs to the URL's title, 403 for a non-owner plain caller, 400 for invalid fields, else 200 and the review's text and score replaced |
| Views.CreateComment | api_yamdb/api/views.py:149-166 | 401 for anonymous, 400 for a missing text, 404 for a missing review, else 201 and the comment stored for that review and the caller |

## Left out

- Mail delivery is left out. `Views.AuthSignup` returns whether the mail is attempted, by the guard of `send_confirmation_code`. The sending itself and its silent failure are not modelled.
- JWT creation and signing are left out, and so is `update_last_login`. The token is the id of the user it is issued for.
- The randomness of `make_random_password` is left out. The code is a parameter: any non-empty string of at most 10 characters.
- `Serializers.Rating`: the rating is the exact mean. Rounding to two places and the database's floating-point `Avg` are not modelled.
- `Serializers.LowerChar`: only ASCII letters are lower-cased. No other character lower-cases to "m" or "e", so the reserved-name rule comes out the same.
- The library validators are not modelled. These are the username character set, email syntax, slug syntax and choice lookups other than the role. Their verdicts are inputs.
- Framework type coercion is not modelled. Nor is trimming of whitespace around text fields. Request fields arrive already typed and trimmed.
- Timestamps, `pub_date` and ordering are not modelled. Nor are filtering, search and pagination.
- Transactions and concurrent requests are not modelled. Each operation runs alone on the store.
- Store ids come from one counter shared by all tables. The database numbers each table separately. Ids are opaque in every rule, so nothing depends on the difference.
- The current year is a parameter of the year rule.
- Title create and update, the users administration actions and GET `/users/me` are covered only by the permission dispatch in `Access`. Their bodies are framework defaults.
- Review and comment destroy through the views are covered only by `Access` and the store's cascading `Reviews.Store.DeleteReview` and `Reviews.Store.DeleteComment`.
- Comment update and partial update are covered only by `Access`. Their bodies are framework defaults that replace a comment's text.
- Category and genre create and destroy, and their list views, are covered only by `Access` and the store's `AddCategory`, `AddGenre`, `DeleteCategory` and `DeleteGenre`. The views' bodies are framework defaults.
- `UserSignupPermission` is modelled as `Permissions.SignupAllowed`. No view uses it, since `auth_signup` sets no permission class.
- A refusal is modelled as 401 for an anonymous caller. The framework gives 401 only when the first authentication class sends a challenge header, which the JWT authentication class does. With another class it would be 403.
- Management commands, the admin registrations and the URL routing are not modelled. Neither is the filter configuration.

## Findings

| source | as written | input that shows it | evidently intended | confidence | as-written member | corrected member |
|---|---|---|---|---|---|---|
| api_yamdb/api/views.py:11 | imports `ConfirmationCodeIsIncorrectError`, which api_yamdb/users/exceptions.py does not define (it defines `ConfirmationCodeIsIncorrect`, the class raised at api_yamdb/users/auth.py:30), so importing the views module fails and no request is served | any request, since the URL configuration imports the views module; for instance a token request for an existing user with a wrong code gets a server error instead of 400 | the handler at api_yamdb/api/views.py:46-47 catches the class the backend raises and answers 400 | not executed; high | Views.AuthTokenAsWritten, shown by Views.ImportMismatch | Views.AuthToken, proved by Views.TokenForUser |
| api_yamdb/users/auth.py:21-32 | a password that fails the check does not end the request: it falls through to the final active-user test | an active user `u`, `authenticate(username=u.username, password="wrong")` without a code: `u` is returned | a non-empty password that does not match yields no user, as the framework's own backend does | not executed; medium (only requests that carry a password reach this path; the settings that enable the backend are not part of this model) | Auth.Authenticate, shown by Auth.WrongPasswordStillReturnsUser | Auth.AuthenticateCheckingPassword, proved by Auth.PasswordDecidesLogin |
| api_yamdb/reviews/models.py:50 | the year's upper bound is the year at the time the code was loaded, computed once | code loaded in 2025, request in 2026 for a title from 2026: refused, while `validate_year` accepts it | the bound is the current year at each request, as api_yamdb/api/serializers.py:141 reads it | not executed; high | Serializers.YearAcceptedAsWritten, shown by Serializers.StaleYearBound | Serializers.YearAccepted, proved by Serializers.YearAcceptedMeansNotFuture |

The other endpoints in `Views` are modelled with the import corrected, as the
handler evidently intends. The token exchange passes no password, and on such requests
`Auth.AuthenticateCheckingPassword` and `Auth.Authenticate` agree, so the token
model holds for the corrected backend as well.
