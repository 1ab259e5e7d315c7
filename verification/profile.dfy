/**
  The profile page (`src/pages/Profile.jsx`): the form, seeded from the
  signed-in user; the save and password-change handlers up to their
  requests; the reset after a successful password change; the image size
  limit; and the cancel button of the edit mode.
*/
module Profile {
  import opened Base
  import opened Text
  import opened Entities
  import opened Forms

  datatype ProfileForm = ProfileForm(
    name: string,
    email: string,
    currentPassword: string,
    newPassword: string,
    confirmPassword: string)

  /** `user?.name || ""`: a missing user or field gives the empty string. */
  function NameOf(user: Option<User>): string {
    if user.None? then "" else user.value.name.GetOr("")
  }

  function EmailOf(user: Option<User>): string {
    if user.None? then "" else user.value.email.GetOr("")
  }

  /** The form as the page opens. */
  function InitialForm(user: Option<User>): (r: ProfileForm)
    ensures user.None? ==> r.name == "" && r.email == ""
    ensures user.Some? && user.value.name.Some? ==> r.name == user.value.name.value
    ensures user.Some? && user.value.name.None? ==> r.name == ""
    ensures user.Some? && user.value.email.Some? ==> r.email == user.value.email.value
    ensures user.Some? && user.value.email.None? ==> r.email == ""
    ensures r.currentPassword == "" && r.newPassword == "" && r.confirmPassword == ""
  {
    ProfileForm(NameOf(user), EmailOf(user), "", "", "")
  }

  datatype ProfileUpdate = ProfileUpdate(name: string, email: string)

  /** `handleSaveProfile`: a blank name is refused; otherwise name and email are sent as typed. */
  function SaveProfile(f: ProfileForm): (r: Submit<ProfileUpdate>)
    ensures r.Invalid? <==> IsBlank(f.name)
    ensures r.Invalid? ==> r.message == "Name is required"
    ensures r.Send? ==> r.payload == ProfileUpdate(f.name, f.email)
  {
    if IsBlank(f.name) then Invalid("Name is required") else Send(ProfileUpdate(f.name, f.email))
  }

  datatype PasswordChange = PasswordChange(currentPassword: string, newPassword: string)

  const FillInPasswords := "Please fill in all password fields"
  const NewNoMatch := "New passwords don't match"
  const TooShort := "Password must be at least 6 characters"

  /** `handleChangePassword`: both passwords present, the confirmation equal, then the length. */
  function ChangePassword(f: ProfileForm): (r: Submit<PasswordChange>)
    ensures r == Invalid(FillInPasswords) <==> f.currentPassword == "" || f.newPassword == ""
    ensures r == Invalid(NewNoMatch) <==> f.currentPassword != "" && f.newPassword != "" && f.newPassword != f.confirmPassword
    ensures r == Invalid(TooShort) <==> f.currentPassword != "" && f.newPassword != "" && f.newPassword == f.confirmPassword && |f.newPassword| < 6
    ensures r.Send? <==> f.currentPassword != "" && f.newPassword != "" && f.newPassword == f.confirmPassword && |f.newPassword| >= 6
    ensures r.Send? ==> r.payload == PasswordChange(f.currentPassword, f.newPassword)
  {
    if f.currentPassword == "" || f.newPassword == "" then Invalid(FillInPasswords)
    else if f.newPassword != f.confirmPassword then Invalid(NewNoMatch)
    else if |f.newPassword| < 6 then Invalid(TooShort)
    else Send(PasswordChange(f.currentPassword, f.newPassword))
  }

  /** A short password that is also mistyped is reported as a mismatch. */
  lemma MismatchBeforeLength()
    ensures ChangePassword(ProfileForm("n", "e", "old", "abc", "abd")) == Invalid(NewNoMatch)
  {
  }

  /** The form after a successful change: the three password fields are cleared. */
  function AfterPasswordChanged(f: ProfileForm): (r: ProfileForm)
    ensures r.name == f.name && r.email == f.email
    ensures r.currentPassword == "" && r.newPassword == "" && r.confirmPassword == ""
  {
    f.(currentPassword := "", newPassword := "", confirmPassword := "")
  }

  /** After the reset, a second submit is refused and the profile save is unaffected. */
  lemma ResetBlocksResubmit(f: ProfileForm)
    ensures ChangePassword(AfterPasswordChanged(f)) == Invalid(FillInPasswords)
    ensures SaveProfile(AfterPasswordChanged(f)) == SaveProfile(f)
  {
  }

  const MaxImageBytes: nat := MiB(2)

  /** `handleImageUpload`'s guard: more than 2 MiB is refused before any request. */
  function CheckImage(size: Option<nat>): (r: FileCheck)
    ensures r.TooLarge? <==> size.Some? && size.value > 2097152
    ensures r.Upload? ==> r.size <= 2097152
    ensures r.NoFile? <==> size.None?
  {
    CheckFile(size, MaxImageBytes, "Image size should be less than 2MB")
  }

  /** The cancel button of the edit mode: name and email back from the user, passwords untouched. */
  function CancelEdit(f: ProfileForm, user: Option<User>): (r: ProfileForm)
    ensures r.currentPassword == f.currentPassword && r.newPassword == f.newPassword && r.confirmPassword == f.confirmPassword
    ensures r.name == InitialForm(user).name && r.email == InitialForm(user).email
  {
    f.(name := NameOf(user), email := EmailOf(user))
  }

  /** Cancelling twice is cancelling once, and cancelling a fresh form changes nothing. */
  lemma CancelIdempotent(f: ProfileForm, user: Option<User>)
    ensures CancelEdit(CancelEdit(f, user), user) == CancelEdit(f, user)
    ensures CancelEdit(InitialForm(user), user) == InitialForm(user)
  {
  }
}
