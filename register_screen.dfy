/** The registration screen: the strength shown under the password field, and the submit
    handler (confirmation check, then the provider's `register`, then where to go). */
module RegisterScreen {
  import opened Types
  import opened Text
  import opened PasswordStrengthMeter
  import AuthContext
  import ProfileScreen

  /** The memoised `passwordStrength`, with its branches in the source's order (the last
      `weak` is kept although no password reaches it). Lengths are `password.length`, in
      UTF-16 code units. */
  function PasswordStrength(p: string): (s: Strength)
    ensures s == Blank <==> p == ""
    ensures 0 < Utf16Length(p) < 6 ==> s == Weak
    ensures s == Strong <==> Utf16Length(p) >= 8 && HasDigit(p) && HasUpper(p) && HasLower(p)
    ensures Utf16Length(p) >= 6 && s != Strong ==> s == Medium
  {
    if Utf16Length(p) == 0 then Blank
    else if Utf16Length(p) < 6 then Weak
    else
      var hasNumber := HasDigit(p);
      var hasUpperCase := HasUpper(p);
      var hasLowerCase := HasLower(p);
      if Utf16Length(p) >= 8 && hasNumber && hasUpperCase && hasLowerCase then Strong
      else if Utf16Length(p) >= 6 then Medium
      else Weak
  }

  /** The final `return 'weak'` is unreachable: weak means exactly "1 to 5 code units". */
  lemma WeakIffShort(p: string)
    ensures PasswordStrength(p) == Weak <==> 0 < Utf16Length(p) < 6
  {
  }

  /** The meter reads strong exactly for the passwords the profile screen accepts. */
  lemma StrongIffProfileAccepts(p: string)
    ensures PasswordStrength(p) == Strong <==> ProfileScreen.ValidatePassword(p).None?
  {
  }

  /** What submitting the form does: whether `register` is called, where the app navigates
      and which toast is shown. */
  datatype SubmitOutcome = SubmitOutcome(registerCalled: bool, navigateTo: Option<string>, toast: Toast)

  const DefaultFailure := "Registration failed. Please try again."

  /** `handleSubmit`; `result` is what `register` returns when it is called. */
  function HandleSubmit(password: string, confirmPassword: string, result: AuthContext.AuthResult): (o: SubmitOutcome)
    ensures o.registerCalled <==> password == confirmPassword
    ensures password != confirmPassword ==> o == SubmitOutcome(false, None, ErrorToast("Passwords don't match!"))
    ensures o.navigateTo == Some("/email-confirmation") <==>
      password == confirmPassword && result.success && result.requiresConfirmation == Some(true)
    ensures o.navigateTo == Some("/dashboard") <==>
      password == confirmPassword && result.success && result.requiresConfirmation != Some(true)
    ensures o.registerCalled && !result.success ==> o.navigateTo.None? && o.toast.ErrorToast?
    ensures o.registerCalled && !result.success && result.error.Some? && result.error.value != "" ==>
      o.toast == ErrorToast(result.error.value)
    ensures o.registerCalled && !result.success && (result.error.None? || result.error.value == "") ==>
      o.toast == ErrorToast(DefaultFailure)
  {
    if password != confirmPassword then
      SubmitOutcome(false, None, ErrorToast("Passwords don't match!"))
    else if result.success then
      if result.requiresConfirmation == Some(true) then
        SubmitOutcome(true, Some("/email-confirmation"),
          SuccessToast("Registration successful! Please check your email to confirm your account."))
      else
        SubmitOutcome(true, Some("/dashboard"), SuccessToast("Registration successful! Welcome to Cointrail."))
    else
      var message := if result.error.Some? && result.error.value != "" then result.error.value else DefaultFailure;
      SubmitOutcome(true, None, ErrorToast(message))
  }

  /** With the Firebase provider a successful registration always asks for confirmation, so
      the dashboard branch is never taken. */
  lemma SuccessfulRegistrationGoesToConfirmation(password: string)
    ensures HandleSubmit(password, password, AuthContext.Register(None)).navigateTo == Some("/email-confirmation")
  {
  }
}
