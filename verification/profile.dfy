/** The profile page: loading the editable fields, saving them (switching the
    UI language when the preference changed), and the change-password form
    with its validation order. The backend calls are outcomes passed in. */
module Profile {
  import opened Optional

  /** A `profiles` row as fetched. */
  datatype ProfileRow = ProfileRow(
    id: string,
    name: Option<string>,
    email: Option<string>,
    phone: Option<string>,
    role: Option<string>,
    languagePreference: Option<string>,
    avatarUrl: Option<string>)

  /** The editable profile fields. */
  datatype ProfileForm = ProfileForm(name: string, phone: string, languagePreference: string)

  const DefaultLanguage: string := "en"
  const MinPasswordLength: nat := 6

  /** The fields before any profile has loaded. */
  const InitialForm: ProfileForm := ProfileForm("", "", DefaultLanguage)

  /** `fetchProfile`: a loaded row fills the fields, null name and phone
      becoming "" and a null language becoming "en"; a failed fetch leaves
      the fields as they were. */
  function FetchProfile(form: ProfileForm, row: Option<ProfileRow>): (r: ProfileForm)
    ensures row.None? ==> r == form
    ensures row.Some? ==> r.name == row.value.name.GetOr("") && r.phone == row.value.phone.GetOr("")
    ensures row.Some? && !TruthyString(row.value.languagePreference) ==> r.languagePreference == DefaultLanguage
    ensures row.Some? && TruthyString(row.value.languagePreference) ==> r.languagePreference == row.value.languagePreference.value
    ensures row.Some? ==> r.languagePreference != ""
  {
    if row.None? then form
    else ProfileForm(StringOr(row.value.name, ""), StringOr(row.value.phone, ""),
                     StringOr(row.value.languagePreference, DefaultLanguage))
  }

  const DefaultRole: string := "homeowner"

  /** The disabled email and role fields: `profile?.email || user?.email || ""`
      and `profile?.role || "homeowner"`. */
  function ReadOnlyFields(profile: Option<ProfileRow>, userEmail: Option<string>): (r: (string, string))
    ensures profile.Some? && TruthyString(profile.value.email) ==> r.0 == profile.value.email.value
    ensures !(profile.Some? && TruthyString(profile.value.email)) ==> r.0 == StringOr(userEmail, "")
    ensures r.0 == "" <==> !(profile.Some? && TruthyString(profile.value.email)) && !TruthyString(userEmail)
    ensures profile.Some? && TruthyString(profile.value.role) ==> r.1 == profile.value.role.value
    ensures !(profile.Some? && TruthyString(profile.value.role)) ==> r.1 == DefaultRole
    ensures r.1 != ""
  {
    var email := if profile.Some? && TruthyString(profile.value.email) then profile.value.email.value
                 else StringOr(userEmail, "");
    var role := if profile.Some? then StringOr(profile.value.role, DefaultRole) else DefaultRole;
    (email, role)
  }

  /** The update `handleSaveProfile` sends. */
  datatype ProfileUpdate = ProfileUpdate(name: string, phone: string, languagePreference: string)

  /** `handleSaveProfile` after the update returned: the UI language becomes
      the saved preference, and `changeLanguage` is called only when the
      update succeeded and the preference differs from the current language. */
  function SaveProfile(form: ProfileForm, currentLanguage: string, updateOk: bool): (r: (ProfileUpdate, string, bool))
    ensures r.0 == ProfileUpdate(form.name, form.phone, form.languagePreference)
    ensures r.2 <==> updateOk && form.languagePreference != currentLanguage
    ensures updateOk ==> r.1 == form.languagePreference
    ensures !updateOk ==> r.1 == currentLanguage
  {
    var switch := updateOk && form.languagePreference != currentLanguage;
    (ProfileUpdate(form.name, form.phone, form.languagePreference),
     if switch then form.languagePreference else currentLanguage,
     switch)
  }

  /** Saving twice in a row switches the language at most once. */
  lemma SecondSaveNeverSwitches(form: ProfileForm, currentLanguage: string)
    ensures var (_, lang, _) := SaveProfile(form, currentLanguage, true);
            !SaveProfile(form, lang, true).2
  {
  }

  /** The row as the database holds it after a successful update. */
  function Updated(row: ProfileRow, u: ProfileUpdate): ProfileRow {
    row.(name := Some(u.name), phone := Some(u.phone), languagePreference := Some(u.languagePreference))
  }

  /** After a successful save, the `fetchProfile` that follows it shows
      exactly the fields that were saved (a language is always chosen). */
  lemma SaveThenRefetchShowsForm(form: ProfileForm, current: string, row: ProfileRow, before: ProfileForm)
    requires form.languagePreference != ""
    ensures FetchProfile(before, Some(Updated(row, SaveProfile(form, current, true).0))) == form
  {
  }

  /** Loading a row and saving the form untouched writes back the row's
      fields, null name and phone as "" and a null or empty language as
      "en"; refetching then shows the same form again. */
  lemma UnchangedSaveWritesBackRow(row: ProfileRow, before: ProfileForm, current: string)
    ensures var form := FetchProfile(before, Some(row));
            var u := SaveProfile(form, current, true).0;
            && u == ProfileUpdate(StringOr(row.name, ""), StringOr(row.phone, ""), StringOr(row.languagePreference, DefaultLanguage))
            && FetchProfile(form, Some(Updated(row, u))) == form
  {
  }

  // ---------------------------------------------------------------------
  // Change password

  datatype PasswordForm = PasswordForm(newPassword: string, confirmPassword: string, changing: bool)

  datatype Notice = PasswordsDoNotMatch | PasswordTooShort | PasswordChanged | UpdateFailed

  /** The validation of `handleChangePassword`, in its order: the mismatch
      check comes before the length check. */
  function ValidatePassword(newPassword: string, confirmPassword: string): (r: Option<Notice>)
    ensures r.None? <==> newPassword == confirmPassword && |newPassword| >= MinPasswordLength
    ensures newPassword != confirmPassword ==> r == Some(PasswordsDoNotMatch)
    ensures newPassword == confirmPassword && |newPassword| < MinPasswordLength ==> r == Some(PasswordTooShort)
  {
    if newPassword != confirmPassword then Some(PasswordsDoNotMatch)
    else if |newPassword| < MinPasswordLength then Some(PasswordTooShort)
    else None
  }

  /** The start of `handleChangePassword`: either a rejection with the form
      untouched and no update call, or `changingPassword` set and an update
      call carrying the new password. */
  function SubmitPassword(f: PasswordForm): (r: (PasswordForm, Option<Notice>, Option<string>))
    ensures r.1.Some? <==> r.2.None?
    ensures r.2.Some? <==> f.newPassword == f.confirmPassword && |f.newPassword| >= MinPasswordLength
    ensures r.2.Some? ==> r.2.value == f.newPassword && r.0 == f.(changing := true)
    ensures r.1.Some? ==> r.0 == f
  {
    match ValidatePassword(f.newPassword, f.confirmPassword)
    case Some(notice) => (f, Some(notice), None)
    case None => (f.(changing := true), None, Some(f.newPassword))
  }

  /** The end of `handleChangePassword`: both fields are cleared only after a
      successful update; `changingPassword` is cleared either way. */
  function PasswordUpdateDone(f: PasswordForm, updateOk: bool): (r: (PasswordForm, Notice))
    ensures !r.0.changing
    ensures updateOk ==> r.0.newPassword == "" && r.0.confirmPassword == "" && r.1 == PasswordChanged
    ensures !updateOk ==> r.0.newPassword == f.newPassword && r.0.confirmPassword == f.confirmPassword && r.1 == UpdateFailed
  {
    if updateOk then (PasswordForm("", "", false), PasswordChanged)
    else (f.(changing := false), UpdateFailed)
  }

  /** A mismatched short password reports the mismatch, not the length. */
  lemma MismatchReportedFirst(newPassword: string, confirmPassword: string)
    requires newPassword != confirmPassword && |newPassword| < MinPasswordLength
    ensures SubmitPassword(PasswordForm(newPassword, confirmPassword, false)).1 == Some(PasswordsDoNotMatch)
  {
  }

  /** A whole submission: an update is attempted only for a matching password
      of at least six characters, and the form ends idle, cleared exactly
      when that update succeeded. */
  lemma PasswordRoundOutcome(f: PasswordForm, updateOk: bool)
    requires !f.changing
    ensures var (f1, notice, call) := SubmitPassword(f);
            var final := if call.Some? then PasswordUpdateDone(f1, updateOk).0 else f1;
            && !final.changing
            && (final.newPassword == "" <==> (call.Some? && updateOk) || f.newPassword == "")
            && (call.None? || !updateOk ==> final == f)
  {
  }
}
