/** The Firebase authentication provider: the state derived from the auth listener, and the
    results the login / register / resend actions hand back to the screens. The Firebase
    calls are inputs: `None` for a call that succeeded, or the error it raised. */
module AuthContext {
  import opened Types

  /** The part of a Firebase user the provider reads. */
  datatype User = User(uid: string, email: Option<string>, emailVerified: bool)

  /** A Firebase error: its `code` and its (possibly missing or empty) `message`. */
  datatype AuthError = AuthError(code: string, message: Option<string>)

  /** `{ success, error?, requiresConfirmation? }` */
  datatype AuthResult = AuthResult(success: bool, error: Option<string>, requiresConfirmation: Option<bool>)

  datatype Flags = Flags(needsEmailConfirmation: bool, emailConfirmed: bool)

  /** The two confirmation flags the listener derives from the signed-in user. */
  function FlagsFor(u: Option<User>): (f: Flags)
    ensures u.Some? ==> f.needsEmailConfirmation == !u.value.emailVerified
    ensures u.Some? ==> f.emailConfirmed == u.value.emailVerified
    ensures u.None? ==> !f.needsEmailConfirmation && !f.emailConfirmed
    ensures !(f.needsEmailConfirmation && f.emailConfirmed)
  {
    match u
    case Some(user) => Flags(!user.emailVerified, user.emailVerified)
    case None => Flags(false, false)
  }

  class AuthState {
    var user: Option<User>
    var loading: bool
    var needsEmailConfirmation: bool
    var emailConfirmed: bool

    constructor ()
      ensures user.None? && loading && !needsEmailConfirmation && !emailConfirmed
    {
      user := None;
      loading := true;
      needsEmailConfirmation := false;
      emailConfirmed := false;
    }

    /** The `onAuthStateChanged` callback. */
    method OnAuthStateChanged(current: Option<User>)
      modifies this
      ensures user == current && !loading
      ensures Flags(needsEmailConfirmation, emailConfirmed) == FlagsFor(current)
    {
      user := current;
      var f := FlagsFor(current);
      needsEmailConfirmation := f.needsEmailConfirmation;
      emailConfirmed := f.emailConfirmed;
      loading := false;
    }

    /** `handleEmailConfirmation`: when a Firebase user is signed in, it is reloaded and both
        flags follow the `emailVerified` of the current user after the reload (`afterReload`);
        if none is left by then, the `?? false` / `?? true` fallbacks clear both flags.
        `reloaded` is false when the reload is rejected: the `.then` callback never runs, so
        nothing changes. Without a signed-in user nothing happens either. */
    method HandleEmailConfirmation(signedIn: bool, reloaded: bool, afterReload: Option<User>)
      modifies this
      ensures signedIn && reloaded ==> Flags(needsEmailConfirmation, emailConfirmed) == FlagsFor(afterReload)
      ensures signedIn && reloaded && afterReload.Some? ==> emailConfirmed == afterReload.value.emailVerified
      ensures signedIn && reloaded && afterReload.None? ==> !emailConfirmed && !needsEmailConfirmation
      ensures user == old(user) && loading == old(loading)
      ensures !(signedIn && reloaded) ==>
        emailConfirmed == old(emailConfirmed) && needsEmailConfirmation == old(needsEmailConfirmation)
    {
      if signedIn && reloaded {
        emailConfirmed := if afterReload.Some? then afterReload.value.emailVerified else false;
        needsEmailConfirmation := !(if afterReload.Some? then afterReload.value.emailVerified else true);
      }
    }
  }

  /** The login error codes that have their own message. */
  const LoginMessages: map<string, string> := map[
    "auth/invalid-credential" := "Invalid email or password.",
    "auth/user-not-found" := "User not found.",
    "auth/wrong-password" := "Incorrect password.",
    "auth/too-many-requests" := "Too many attempts. Try again later."]

  /** The `if / else if` chain of `login`'s catch block. */
  function LoginErrorMessage(code: string): (msg: string)
    ensures code in LoginMessages ==> msg == LoginMessages[code]
    ensures code !in LoginMessages ==> msg == "Login failed"
  {
    if code == "auth/invalid-credential" then "Invalid email or password."
    else if code == "auth/user-not-found" then "User not found."
    else if code == "auth/wrong-password" then "Incorrect password."
    else if code == "auth/too-many-requests" then "Too many attempts. Try again later."
    else "Login failed"
  }

  /** `login`, given what the sign-in call raised (if anything). */
  function Login(failure: Option<AuthError>): (r: AuthResult)
    ensures r.success <==> failure.None?
    ensures r.requiresConfirmation.None?
    ensures failure.None? ==> r.error.None?
    ensures failure.Some? ==> r.error == Some(LoginErrorMessage(failure.value.code))
  {
    match failure
    case None => AuthResult(true, None, None)
    case Some(e) => AuthResult(false, Some(LoginErrorMessage(e.code)), None)
  }

  /** The register error codes that have their own message. */
  const RegisterMessages: map<string, string> := map[
    "auth/email-already-in-use" := "Email is already in use.",
    "auth/weak-password" := "Password should be at least 6 characters."]

  /** `register`'s catch block: a fixed message for two codes, otherwise the error's own
      message, or "Registration failed" when that is missing or empty. */
  function RegisterErrorMessage(e: AuthError): (msg: string)
    ensures e.code in RegisterMessages ==> msg == RegisterMessages[e.code]
    ensures e.code !in RegisterMessages && e.message.Some? && e.message.value != "" ==> msg == e.message.value
    ensures e.code !in RegisterMessages && (e.message.None? || e.message.value == "") ==> msg == "Registration failed"
    ensures msg != ""
  {
    if e.code == "auth/email-already-in-use" then "Email is already in use."
    else if e.code == "auth/weak-password" then "Password should be at least 6 characters."
    else if e.message.Some? && e.message.value != "" then e.message.value
    else "Registration failed"
  }

  /** `register`, given the error raised by the first of its three Firebase calls (create
      the user, set the display name, send the verification email) that failed. */
  function Register(failure: Option<AuthError>): (r: AuthResult)
    ensures r.success <==> failure.None?
    ensures r.success ==> r.requiresConfirmation == Some(true) && r.error.None?
    ensures !r.success ==> r.requiresConfirmation.None? && r.error == Some(RegisterErrorMessage(failure.value))
  {
    match failure
    case None => AuthResult(true, None, Some(true))
    case Some(e) => AuthResult(false, Some(RegisterErrorMessage(e)), None)
  }

  const MustBeLoggedIn := "Must be logged in to resend verification."

  /** `resendConfirmationEmail`: the email is sent only when a user is signed in whose email
      is the one given; `sendFailure` is what the send call raised, if it was made. */
  function ResendConfirmation(current: Option<User>, email: string, sendFailure: Option<AuthError>): (r: AuthResult)
    ensures !(current.Some? && current.value.email == Some(email)) ==> r == AuthResult(false, Some(MustBeLoggedIn), None)
    ensures r.success <==> current.Some? && current.value.email == Some(email) && sendFailure.None?
    ensures current.Some? && current.value.email == Some(email) && sendFailure.Some? ==> r.error == sendFailure.value.message
  {
    if current.Some? && current.value.email == Some(email) then
      match sendFailure
      case None => AuthResult(true, None, None)
      case Some(e) => AuthResult(false, e.message, None)
    else
      AuthResult(false, Some(MustBeLoggedIn), None)
  }
}
