/**
 * The auth store: user-facing wording for the auth service's errors, the
 * `{ data, error }` results of signing up and signing in, and the signed-in
 * `user` that signing out and asking for the current user update.
 *
 * Every call into the auth service or the database is a parameter: the
 * value it resolved to, or the message of what it threw.
 */
module Auth {

  import opened Wrappers

  /** A row of `users` (only the fields the store reads or writes). */
  datatype User = User(id: string, email: string, name: Option<string>, avatarUrl: Option<string>,
                       createdAt: string, updatedAt: string)

  /** The account the auth service returns: `id`, `email` and `user_metadata.avatar_url`. */
  datatype AccountUser = AccountUser(id: string, email: string, avatarUrl: Option<string>)

  /** What a sign-up or sign-in resolves to: `data.user`, possibly absent. */
  datatype Session = Session(user: Option<AccountUser>)

  /**
   * An awaited auth call: it resolved to `{ data, error }`, where a present
   * `error` carries its `message`, or it threw an error with that message.
   */
  datatype AuthCall<T> = Returned(data: T, error: Option<string>) | Threw(message: string)

  /** What `signUp` and `signIn` return: `{ data, error: null }` or `{ data: null, error: { message } }`. */
  datatype AuthResult<T> = AuthResult(data: Option<T>, error: Option<string>)

  // The auth service's messages the store recognises.
  const InvalidCredentials: string := "Invalid login credentials"
  const EmailNotConfirmed: string := "Email not confirmed"
  const AlreadyRegistered: string := "User already registered"
  const ShortPassword: string := "Password should be at least 6 characters"
  const InvalidEmail: string := "Unable to validate email address: invalid format"
  const SignupDisabled: string := "signup is disabled"

  // What the user is shown instead.
  const CheckCredentials: string := "Invalid email or password. Please check your credentials and try again."
  const ConfirmEmail: string := "Please check your email and click the confirmation link before signing in."
  const TrySigningIn: string := "An account with this email already exists. Try signing in instead."
  const PasswordLength: string := "Password must be at least 6 characters long."
  const EnterValidEmail: string := "Please enter a valid email address."
  const RegistrationDisabled: string := "New account registration is currently disabled."
  const UnexpectedError: string := "An unexpected error occurred. Please try again."

  const SignUpUnexpected: string := "An unexpected error occurred during sign up"
  const SignInUnexpected: string := "An unexpected error occurred during sign in"
  const SignOutUnexpected: string := "An unexpected error occurred during sign out"
  const SignOutFailed: string := "Failed to sign out. Please try again."

  /** The message table: each recognised service message and the wording shown for it. */
  const KnownMessages: seq<(string, string)> := [
    (InvalidCredentials, CheckCredentials),
    (EmailNotConfirmed, ConfirmEmail),
    (AlreadyRegistered, TrySigningIn),
    (ShortPassword, PasswordLength),
    (InvalidEmail, EnterValidEmail),
    (SignupDisabled, RegistrationDisabled)
  ]

  predicate IsKnown(message: string)
  {
    exists i :: 0 <= i < |KnownMessages| && KnownMessages[i].0 == message
  }

  /** `error.message || fallback`: an empty message gives way to the fallback. */
  function MessageOr(message: string, fallback: string): (r: string)
  {
    if message != "" then message else fallback
  }

  /**
   * `getAuthErrorMessage`: a recognised message becomes the wording the
   * table gives for it; any other message is shown as it is, and an empty
   * one as the generic unexpected-error text.
   */
  function AuthErrorMessage(message: string): (r: string)
    ensures forall i :: 0 <= i < |KnownMessages| && KnownMessages[i].0 == message ==> r == KnownMessages[i].1
    ensures !IsKnown(message) ==> r == MessageOr(message, UnexpectedError)
  {
    if message == InvalidCredentials then assert KnownMessages[0].0 == message; CheckCredentials
    else if message == EmailNotConfirmed then assert KnownMessages[1].0 == message; ConfirmEmail
    else if message == AlreadyRegistered then assert KnownMessages[2].0 == message; TrySigningIn
    else if message == ShortPassword then assert KnownMessages[3].0 == message; PasswordLength
    else if message == InvalidEmail then assert KnownMessages[4].0 == message; EnterValidEmail
    else if message == SignupDisabled then assert KnownMessages[5].0 == message; RegistrationDisabled
    else MessageOr(message, UnexpectedError)
  }

  /** The user is never shown an empty error. */
  lemma AuthErrorMessageNeverEmpty(message: string)
    ensures AuthErrorMessage(message) != ""
  {
  }

  /**
   * None of the wordings is itself a recognised service message, so mapping
   * a message twice gives what mapping it once gave.
   */
  lemma AuthErrorMessageIdempotent(message: string)
    ensures AuthErrorMessage(AuthErrorMessage(message)) == AuthErrorMessage(message)
  {
  }

  /**
   * An auth call's outcome as the store returns it. A reported error is
   * thrown as a new error carrying its mapped wording, so the catch sees a
   * non-empty message; anything the call threw keeps its own message, or
   * the operation's fallback when that is empty.
   */
  function Settle<T>(call: AuthCall<T>, fallback: string): (r: AuthResult<T>)
    ensures r.error.None? <==> call.Returned? && call.error.None?
    ensures r.error.None? ==> r.data == Some(call.data)
    ensures r.error.Some? ==> r.data.None?
    ensures call.Returned? && call.error.Some? ==> r.error == Some(AuthErrorMessage(call.error.value))
    ensures call.Threw? ==> r.error == Some(MessageOr(call.message, fallback))
  {
    match call
    case Threw(message) => AuthResult(None, Some(MessageOr(message, fallback)))
    case Returned(data, error) =>
      if error.Some? then AuthResult(None, Some(MessageOr(AuthErrorMessage(error.value), fallback)))
      else AuthResult(Some(data), None)
  }

  /** A row `signUp` inserts. */
  datatype Row = UsersRow(id: string, email: string, name: string, avatarUrl: string) | ProfileRow(userId: string)

  /** The result of `signUp` and the rows it inserted on the way. */
  datatype SignUpOutcome = SignUpOutcome(result: AuthResult<Session>, inserted: seq<Row>)

  /**
   * `signUp`: after a successful sign-up that returned a user, it inserts
   * the `users` row and then, unless that insert threw, the `user_profiles`
   * row. `usersInsertThrows` says whether the first insert threw.
   */
  function SignUp(name: Option<string>, call: AuthCall<Session>, usersInsertThrows: bool): (o: SignUpOutcome)
    ensures o.result == Settle(call, SignUpUnexpected)
    ensures o.result.error.Some? ==> o.inserted == []
    ensures o.result.error.None? && call.data.user.None? ==> o.inserted == []
    ensures o.result.error.None? && call.data.user.Some? ==>
      var u := call.data.user.value;
      o.inserted == [UsersRow(u.id, u.email, name.GetOr(""), u.avatarUrl.GetOr(""))]
        + (if usersInsertThrows then [] else [ProfileRow(u.id)])
  {
    var result := Settle(call, SignUpUnexpected);
    if result.error.Some? || call.data.user.None? then SignUpOutcome(result, [])
    else
      var u := call.data.user.value;
      var users := UsersRow(u.id, u.email, name.GetOr(""), u.avatarUrl.GetOr(""));
      SignUpOutcome(result, if usersInsertThrows then [users] else [users, ProfileRow(u.id)])
  }

  /** A failing profile insert does not turn a successful sign-up into a failure. */
  lemma ProfileFailureKeepsSignUp(name: Option<string>, call: AuthCall<Session>)
    ensures SignUp(name, call, true).result == SignUp(name, call, false).result
    ensures call.Returned? && call.error.None? ==> SignUp(name, call, true).result == AuthResult(Some(call.data), None)
  {
  }

  /** A sign-up the service refuses returns no data and the mapped wording, and inserts nothing. */
  lemma SignUpRefused(name: Option<string>, data: Session, message: string, usersInsertThrows: bool)
    ensures var o := SignUp(name, Returned(data, Some(message)), usersInsertThrows);
      o == SignUpOutcome(AuthResult(None, Some(AuthErrorMessage(message))), [])
  {
    AuthErrorMessageNeverEmpty(message);
  }

  /** `signIn`: the service's answer as a `{ data, error }` result. */
  function SignIn(call: AuthCall<Session>): (r: AuthResult<Session>)
    ensures r == Settle(call, SignInUnexpected)
  {
    Settle(call, SignInUnexpected)
  }

  /** Whatever goes wrong in signing up or in, the error the caller gets is never empty. */
  lemma SettledErrorsNotEmpty<T>(call: AuthCall<T>, fallback: string)
    requires fallback != ""
    ensures Settle(call, fallback).error.Some? ==> Settle(call, fallback).error.value != ""
  {
    if call.Returned? && call.error.Some? {
      AuthErrorMessageNeverEmpty(call.error.value);
    }
  }

  /** The store: the signed-in user, if any. */
  class AuthStore {

    var user: Option<User>

    constructor()
      ensures user == None
    {
      user := None;
    }

    /**
     * `signOut`: the user is cleared only when the service reports no error.
     * A reported error is replaced by a fixed retry message; a thrown one
     * keeps its message, or the sign-out fallback when that is empty.
     */
    method SignOut(call: AuthCall<()>) returns (error: Option<string>)
      modifies this
      ensures call.Returned? && call.error.None? ==> user == None && error == None
      ensures call.Returned? && call.error.Some? ==> user == old(user) && error == Some(SignOutFailed)
      ensures call.Threw? ==> user == old(user) && error == Some(MessageOr(call.message, SignOutUnexpected))
    {
      match call
      case Threw(message) =>
        error := Some(MessageOr(message, SignOutUnexpected));
      case Returned(_, reported) =>
        if reported.Some? {
          error := Some(SignOutFailed);
        } else {
          user := None;
          error := None;
        }
    }

    /**
     * `getCurrentUser`: the service's current user becomes the store's and
     * is returned; if the service reports an error or the call throws, the
     * store forgets its user and returns none.
     */
    method GetCurrentUser(call: AuthCall<Option<User>>) returns (current: Option<User>)
      modifies this
      ensures call.Returned? && call.error.None? ==> user == call.data && current == call.data
      ensures !(call.Returned? && call.error.None?) ==> user == None && current == None
    {
      if call.Returned? && call.error.None? {
        user := call.data;
        current := call.data;
      } else {
        user := None;
        current := None;
      }
    }
  }
}
