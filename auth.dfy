/**
 * The authentication backend: a lookup by username in the user directory,
 * then the password path, the confirmation-code path, or nothing.
 */
module Auth {
  import opened Wrappers
  import opened Users

  /** The two exceptions the backend raises. */
  datatype AuthError = UserNotFound | ConfirmationCodeIsIncorrect

  /** The user model's USERNAME_FIELD. */
  const UsernameField: string := "username"

  /** A directory keyed by username whose entries carry their own key. */
  ghost predicate KeyedByUsername(directory: map<string, User>) {
    forall name :: name in directory ==> directory[name].username == name
  }

  /** The username the backend looks up: the argument, else the USERNAME_FIELD keyword argument. */
  function LookupName(username: Option<string>, kwargs: map<string, string>): Option<string> {
    if username.Some? then username
    else if UsernameField in kwargs then Some(kwargs[UsernameField])
    else None
  }

  /** The password path: a non-empty password that matches, on a user allowed to log in. */
  predicate PasswordAccepted(u: User, password: Option<string>) {
    password.Some? && password.value != "" && CheckPassword(u, password.value) && CanAuthenticate(u)
  }

  /** `Backend.authenticate`. */
  function Authenticate(
    directory: map<string, User>,
    username: Option<string>,
    password: Option<string>,
    confirmationCode: Arg,
    kwargs: map<string, string>): (r: Result<Option<User>, AuthError>)
    ensures r == Failure(UserNotFound) <==>
              LookupName(username, kwargs).None? || LookupName(username, kwargs).value !in directory
    ensures r.Success? && r.value.Some? ==>
              r.value.value == directory[LookupName(username, kwargs).value] && r.value.value.isActive
    ensures r == Failure(ConfirmationCodeIsIncorrect) ==>
              Truthy(confirmationCode) && !CheckConfirmationCode(directory[LookupName(username, kwargs).value], confirmationCode)
  {
    var name := LookupName(username, kwargs);
    if name.None? || name.value !in directory then Failure(UserNotFound)
    else
      var user := directory[name.value];
      if PasswordAccepted(user, password) then Success(Some(user))
      else if Truthy(confirmationCode) && !CheckConfirmationCode(user, confirmationCode) then
        Failure(ConfirmationCodeIsIncorrect)
      else if CanAuthenticate(user) then Success(Some(user))
      else Success(None)
  }

  /** An unknown username yields UserNotFound whatever password or code is given. */
  lemma UnknownUsernameNotFound(
    directory: map<string, User>, name: string, password: Option<string>, code: Arg, kwargs: map<string, string>)
    requires name !in directory
    ensures Authenticate(directory, Some(name), password, code, kwargs) == Failure(UserNotFound)
  {
  }

  /** A correct password on an active user returns the user, whatever code comes with it. */
  lemma PasswordBeforeCode(
    directory: map<string, User>, name: string, password: string, code: Arg, kwargs: map<string, string>)
    requires name in directory && password != ""
    requires CheckPassword(directory[name], password) && directory[name].isActive
    ensures Authenticate(directory, Some(name), Some(password), code, kwargs) == Success(Some(directory[name]))
  {
  }

  /** Past the password path, a non-empty code that fails the check raises ConfirmationCodeIsIncorrect. */
  lemma WrongCodeRaises(
    directory: map<string, User>, name: string, password: Option<string>, code: string, kwargs: map<string, string>)
    requires name in directory && !PasswordAccepted(directory[name], password)
    requires code != "" && code != directory[name].confirmationCode
    ensures Authenticate(directory, Some(name), password, Text(code), kwargs) == Failure(ConfirmationCodeIsIncorrect)
  {
  }

  /** A matching code on an active user returns that user. */
  lemma MatchingCodeReturnsUser(
    directory: map<string, User>, name: string, password: Option<string>, kwargs: map<string, string>)
    requires name in directory && directory[name].isActive && directory[name].confirmationCode != ""
    ensures Authenticate(directory, Some(name), password, Text(directory[name].confirmationCode), kwargs)
            == Success(Some(directory[name]))
  {
  }

  /** An inactive user never gets a user back: the result is None unless the code check raises. */
  lemma InactiveGetsNothing(
    directory: map<string, User>, name: string, password: Option<string>, code: Arg, kwargs: map<string, string>)
    requires name in directory && !directory[name].isActive
    ensures Authenticate(directory, Some(name), password, code, kwargs) in
              {Success(None), Failure(ConfirmationCodeIsIncorrect)}
  {
  }

  /** With neither a password nor a code, an existing active user is returned. */
  lemma NoCredentialsActiveReturned(directory: map<string, User>, name: string, kwargs: map<string, string>)
    requires name in directory && directory[name].isActive
    ensures Authenticate(directory, Some(name), None, Absent, kwargs) == Success(Some(directory[name]))
  {
  }

  /**
   * A missing username falls back to the USERNAME_FIELD keyword argument. Since
   * `username` is a named parameter, Python never puts it among the keyword
   * arguments, so the fallback finds nothing and the lookup fails.
   */
  lemma MissingUsernameFallsBack(
    directory: map<string, User>, password: Option<string>, code: Arg, kwargs: map<string, string>)
    ensures UsernameField in kwargs ==>
              Authenticate(directory, None, password, code, kwargs)
              == Authenticate(directory, Some(kwargs[UsernameField]), password, code, kwargs)
    ensures UsernameField !in kwargs ==>
              Authenticate(directory, None, password, code, kwargs) == Failure(UserNotFound)
  {
  }

  /**
   * As written, a failed password check falls through to the last step: with
   * no code, a wrong non-empty password still returns an active user.
   */
  lemma WrongPasswordStillReturnsUser(directory: map<string, User>, name: string, wrong: string)
    requires name in directory && directory[name].isActive
    requires wrong != "" && !CheckPassword(directory[name], wrong)
    ensures Authenticate(directory, Some(name), Some(wrong), Absent, map[]) == Success(Some(directory[name]))
  {
  }

  /**
   * The backend with the password path closed: a non-empty password that does
   * not pass yields no user; every other request is decided as before.
   */
  function AuthenticateCheckingPassword(
    directory: map<string, User>,
    username: Option<string>,
    password: Option<string>,
    confirmationCode: Arg,
    kwargs: map<string, string>): (r: Result<Option<User>, AuthError>)
    ensures password.None? || password == Some("") ==>
              r == Authenticate(directory, username, password, confirmationCode, kwargs)
  {
    var name := LookupName(username, kwargs);
    if name.None? || name.value !in directory then Failure(UserNotFound)
    else if password.Some? && password.value != "" && !PasswordAccepted(directory[name.value], password) then Success(None)
    else Authenticate(directory, username, password, confirmationCode, kwargs)
  }

  /** With the corrected backend a non-empty password returns a user exactly when it matches an active user. */
  lemma PasswordDecidesLogin(
    directory: map<string, User>, username: Option<string>, pw: string, code: Arg, kwargs: map<string, string>)
    requires pw != ""
    ensures var r := AuthenticateCheckingPassword(directory, username, Some(pw), code, kwargs);
            r.Success? && r.value.Some? <==>
              && LookupName(username, kwargs).Some? && LookupName(username, kwargs).value in directory
              && PasswordAccepted(directory[LookupName(username, kwargs).value], Some(pw))
  {
  }

  /** `Backend.get_user`: the user with that id if it exists and may log in. */
  function GetUser(users: map<UserId, User>, id: UserId): (r: Option<User>)
    ensures r.Some? <==> id in users && users[id].isActive
    ensures r.Some? ==> r.value == users[id]
  {
    if id !in users then None
    else if CanAuthenticate(users[id]) then Some(users[id])
    else None
  }
}
