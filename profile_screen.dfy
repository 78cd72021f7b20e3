/** The profile screen: the password rules and the save handler, which updates the profile
    and then, when a new password was typed, the password. */
module ProfileScreen {
  import opened Types
  import opened Text

  const TooShort := "Password must be at least 8 characters long"
  const NoUppercase := "Password must contain at least one uppercase letter"
  const NoLowercase := "Password must contain at least one lowercase letter"
  const NoNumber := "Password must contain at least one number"

  /** `validatePassword`: the message of the first rule the password breaks, in the order
      length (in UTF-16 code units, as `password.length` counts), uppercase, lowercase,
      digit; `None` when it keeps all four. */
  function ValidatePassword(p: string): (r: Option<string>)
    ensures r.None? <==> Utf16Length(p) >= 8 && HasUpper(p) && HasLower(p) && HasDigit(p)
    ensures r == Some(TooShort) <==> Utf16Length(p) < 8
    ensures r == Some(NoUppercase) <==> Utf16Length(p) >= 8 && !HasUpper(p)
    ensures r == Some(NoLowercase) <==> Utf16Length(p) >= 8 && HasUpper(p) && !HasLower(p)
    ensures r == Some(NoNumber) <==> Utf16Length(p) >= 8 && HasUpper(p) && HasLower(p) && !HasDigit(p)
  {
    if Utf16Length(p) < 8 then Some(TooShort)
    else if !HasUpper(p) then Some(NoUppercase)
    else if !HasLower(p) then Some(NoLowercase)
    else if !HasDigit(p) then Some(NoNumber)
    else None
  }

  /** Seven characters, one of them outside the Basic Multilingual Plane, make eight code
      units: the password passes the length rule and every other rule. */
  lemma AstralCharacterCountsTwice()
    ensures ValidatePassword("Abcde1\U{1F600}").None?
  {
    var p := "Abcde1\U{1F600}";
    assert Utf16Length(p[6..]) == 2;
    assert Utf16Length(p) == 8 by {
      assert p[1..][1..][1..][1..][1..][1..] == p[6..];
    }
    assert IsUpper(p[0]) && IsLower(p[1]) && IsDigit(p[5]);
  }

  class ProfileForm {
    var fullName: string
    var currentPassword: string
    var newPassword: string
    var confirmPassword: string
    var isLoading: bool

    /** `handleUpdateProfile`. `profileFailure` and `passwordFailure` are the error messages
        of the two `updateUser` calls (the second is consulted only if that call is made);
        `passwordUpdateCalled` says whether it was made. */
    method UpdateProfile(profileFailure: Option<string>, passwordFailure: Option<string>)
      returns (passwordUpdateCalled: bool, toast: Toast)
      modifies this`currentPassword, this`newPassword, this`confirmPassword, this`isLoading
      ensures !isLoading
      ensures passwordUpdateCalled <==>
        profileFailure.None? && old(newPassword) != "" && old(newPassword) == old(confirmPassword) &&
        ValidatePassword(old(newPassword)).None?
      ensures profileFailure.Some? ==> toast == ErrorToast("Error updating profile: " + profileFailure.value)
      ensures profileFailure.None? && old(newPassword) == "" ==> toast == SuccessToast("Profile updated successfully!")
      ensures profileFailure.None? && old(newPassword) != "" && old(newPassword) != old(confirmPassword) ==>
        toast == ErrorToast("New passwords do not match")
      ensures profileFailure.None? && old(newPassword) != "" && old(newPassword) == old(confirmPassword) ==>
        ValidatePassword(old(newPassword)).Some? ==> toast == ErrorToast(ValidatePassword(old(newPassword)).value)
      ensures passwordUpdateCalled && passwordFailure.Some? ==>
        toast == ErrorToast("Error updating password: " + passwordFailure.value)
      ensures passwordUpdateCalled && passwordFailure.None? ==> toast == SuccessToast("Profile updated successfully!")
      ensures passwordUpdateCalled && passwordFailure.None? ==>
        currentPassword == "" && newPassword == "" && confirmPassword == ""
      ensures !(passwordUpdateCalled && passwordFailure.None?) ==>
        currentPassword == old(currentPassword) && newPassword == old(newPassword) && confirmPassword == old(confirmPassword)
    {
      isLoading := true;
      passwordUpdateCalled := false;
      if profileFailure.Some? {
        toast := ErrorToast("Error updating profile: " + profileFailure.value);
        isLoading := false;
        return;
      }
      if newPassword != "" {
        if newPassword != confirmPassword {
          toast := ErrorToast("New passwords do not match");
          isLoading := false;
          return;
        }
        var passwordError := ValidatePassword(newPassword);
        if passwordError.Some? {
          toast := ErrorToast(passwordError.value);
          isLoading := false;
          return;
        }
        passwordUpdateCalled := true;
        if passwordFailure.Some? {
          toast := ErrorToast("Error updating password: " + passwordFailure.value);
          isLoading := false;
          return;
        }
        currentPassword := "";
        newPassword := "";
        confirmPassword := "";
      }
      toast := SuccessToast("Profile updated successfully!");
      isLoading := false;
    }
  }
}
