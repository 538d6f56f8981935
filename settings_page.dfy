/**
 * The settings page: its form schema with the cross-field password rules,
 * the copy of the loaded profile into the form, and the submit step that
 * decides whether to change the password, whether to update the profile,
 * and whether to report that nothing changed. The email and URL format
 * checks are passed in as functions; the outcome of each request is a
 * parameter.
 */
module SettingsPage {
  import opened Common
  import ProfileRouter

  /** A JavaScript value of a `string | null | undefined` field, compared with `!==`. */
  datatype JsValue = Undefined | Null | Str(s: string)

  /** A possibly-undefined string. */
  function FromOptional(o: Option<string>): (v: JsValue)
    ensures v != Null
  {
    if o.Some? then Str(o.value) else Undefined
  }

  /** The form's values; `None` is an undefined field. */
  datatype ProfileForm = ProfileForm(
    name: string,
    email: string,
    bio: Option<string>,
    image: Option<string>,
    currentPassword: Option<string>,
    newPassword: Option<string>,
    confirmPassword: Option<string>)

  /** The loaded profile; `None` is a null column. */
  datatype LoadedProfile = LoadedProfile(
    name: Option<string>,
    email: Option<string>,
    bio: Option<string>,
    image: Option<string>)

  /** The four columns the page compares. */
  datatype Column = NameColumn | EmailColumn | BioColumn | ImageColumn

  function ColumnOf(p: LoadedProfile, c: Column): Option<string>
  {
    match c
    case NameColumn => p.name
    case EmailColumn => p.email
    case BioColumn => p.bio
    case ImageColumn => p.image
  }

  /** A column of the loaded profile as `userProfile?.column` reads it: undefined while nothing is loaded, else the value or null. */
  function LoadedField(profile: Option<LoadedProfile>, c: Column): JsValue
  {
    if profile.None? then Undefined
    else if ColumnOf(profile.value, c).None? then Null
    else Str(ColumnOf(profile.value, c).value)
  }

  /** The field rules of the schema. */
  predicate FieldsValid(d: ProfileForm, isEmail: string -> bool, isUrl: string -> bool)
  {
    && 2 <= |d.name| <= 50
    && isEmail(d.email)
    && (d.bio.Some? ==> |d.bio.value| <= 500)
    && (d.image.Some? ==> isUrl(d.image.value))
  }

  /** The password rules: a new password is empty or at least 8 long, needs the current one, and must be confirmed. */
  predicate PasswordRulesValid(d: ProfileForm)
  {
    && (Truthy(d.newPassword) ==> |d.newPassword.value| >= 8)
    && !(Truthy(d.newPassword) && !Truthy(d.currentPassword))
    && d.newPassword == d.confirmPassword
  }

  predicate SchemaValid(d: ProfileForm, isEmail: string -> bool, isUrl: string -> bool)
  {
    FieldsValid(d, isEmail, isUrl) && PasswordRulesValid(d)
  }

  /** A confirmation typed without a new password is rejected. */
  lemma ConfirmWithoutNewRejected(d: ProfileForm)
    requires d.newPassword.None? && d.confirmPassword.Some?
    ensures !PasswordRulesValid(d)
  {
  }

  /** A password change is requested only when all three password fields are non-empty. */
  predicate IsPasswordChange(d: ProfileForm)
  {
    Truthy(d.currentPassword) && Truthy(d.newPassword) && Truthy(d.confirmPassword)
  }

  /** The request `changePassword` receives. */
  function PasswordRequest(d: ProfileForm): ProfileRouter.PasswordInput
    requires IsPasswordChange(d)
  {
    ProfileRouter.PasswordInput(d.currentPassword.value, d.newPassword.value, d.confirmPassword.value)
  }

  /** A form that passes the schema and asks for a password change passes the server's password input check. */
  lemma PasswordChangeAcceptedByServer(d: ProfileForm, isEmail: string -> bool, isUrl: string -> bool)
    requires SchemaValid(d, isEmail, isUrl) && IsPasswordChange(d)
    ensures ProfileRouter.PasswordInputValid(PasswordRequest(d))
  {
  }

  /** The request `updateProfile` receives: name, email, bio and image. */
  function ProfileRequest(d: ProfileForm): ProfileRouter.ProfileInput
  {
    ProfileRouter.ProfileInput(Some(d.name), d.bio, d.image, Some(d.email))
  }

  /** A form that passes the schema yields a profile request the server's input check and field filter accept. */
  lemma ProfileRequestAcceptedByServer(d: ProfileForm, isEmail: string -> bool, isUrl: string -> bool)
    requires SchemaValid(d, isEmail, isUrl)
    ensures ProfileRouter.ProfileInputValid(ProfileRequest(d), isEmail, isUrl)
    ensures ProfileRouter.HasFields(ProfileRequest(d))
  {
  }

  /** Some of name, email, bio and image differs, by `!==`, from the loaded profile. */
  predicate HasProfileChanges(d: ProfileForm, profile: Option<LoadedProfile>)
  {
    || Str(d.name) != LoadedField(profile, NameColumn)
    || Str(d.email) != LoadedField(profile, EmailColumn)
    || FromOptional(d.bio) != LoadedField(profile, BioColumn)
    || FromOptional(d.image) != LoadedField(profile, ImageColumn)
  }

  /**
   * The form shows no change exactly when a profile is loaded, none of its
   * four columns is null, and the form holds the same four values.
   */
  lemma NoChangesIff(d: ProfileForm, profile: Option<LoadedProfile>)
    ensures !HasProfileChanges(d, profile) <==>
              && profile.Some?
              && profile.value.name == Some(d.name) && profile.value.email == Some(d.email)
              && profile.value.bio.Some? && d.bio == profile.value.bio
              && profile.value.image.Some? && d.image == profile.value.image
  {
  }

  /**
   * While the profile is not loaded, or when its bio or image column is
   * null, every submit counts as a profile change: the form's values are
   * never null, so `!==` always holds.
   */
  lemma NullColumnAlwaysChanged(d: ProfileForm, profile: Option<LoadedProfile>)
    requires profile.None? || profile.value.bio.None? || profile.value.image.None?
    ensures HasProfileChanges(d, profile)
  {
    NoChangesIff(d, profile);
  }

  /** The load effect: name, email and bio copied with null shown empty; the image only when non-empty. */
  function LoadedInto(d: ProfileForm, p: LoadedProfile): (r: ProfileForm)
    ensures r.name == (if p.name.Some? then p.name.value else "")
    ensures r.email == (if p.email.Some? then p.email.value else "")
    ensures r.bio == Some(if p.bio.Some? then p.bio.value else "")
    ensures r.image == (if Truthy(p.image) then p.image else d.image)
    ensures r.currentPassword == d.currentPassword && r.newPassword == d.newPassword
    ensures r.confirmPassword == d.confirmPassword
  {
    d.(name := if p.name.Some? then p.name.value else "",
       email := if p.email.Some? then p.email.value else "",
       bio := Some(if p.bio.Some? then p.bio.value else ""),
       image := if Truthy(p.image) then p.image else d.image)
  }

  /**
   * Right after loading a profile whose columns are all set and whose image
   * is non-empty, the untouched form shows no change; a null bio makes the
   * untouched form show a change.
   */
  lemma LoadedFormUnchanged(d: ProfileForm, p: LoadedProfile)
    ensures p.name.Some? && p.email.Some? && p.bio.Some? && Truthy(p.image)
            ==> !HasProfileChanges(LoadedInto(d, p), Some(p))
    ensures p.bio.None? ==> HasProfileChanges(LoadedInto(d, p), Some(p))
  {
    NoChangesIff(LoadedInto(d, p), Some(p));
  }

  /** What a submit sends and reports. */
  datatype SubmitReport = SubmitReport(
    passwordRequest: Option<ProfileRouter.PasswordInput>,
    profileRequest: Option<ProfileRouter.ProfileInput>,
    noChangesReported: bool)

  /** The three password fields emptied, as both success handlers do. */
  function PasswordsCleared(d: ProfileForm): ProfileForm
  {
    d.(currentPassword := Some(""), newPassword := Some(""), confirmPassword := Some(""))
  }

  class SettingsForm {
    var form: ProfileForm

    constructor ()
      ensures form == ProfileForm("", "", Some(""), None, Some(""), Some(""), Some(""))
    {
      form := ProfileForm("", "", Some(""), None, Some(""), Some(""), Some(""));
    }

    /** The load effect, run when the profile arrives. */
    method OnProfileLoaded(profile: Option<LoadedProfile>)
      modifies this
      ensures form == (if profile.Some? then LoadedInto(old(form), profile.value) else old(form))
    {
      if profile.Some? {
        var p := profile.value;
        form := form.(name := if p.name.Some? then p.name.value else "");
        form := form.(email := if p.email.Some? then p.email.value else "");
        form := form.(bio := Some(if p.bio.Some? then p.bio.value else ""));
        if Truthy(p.image) {
          form := form.(image := p.image);
        }
      }
    }

    /**
     * Submitting. Nothing happens unless the form passes the schema. Then a
     * password change is sent when all three password fields are filled; if
     * it fails, the rest is skipped. The profile update is sent when some
     * field differs from the loaded profile. "No changes to save" is reported
     * when neither is sent. Each successful request clears the password fields.
     */
    method OnSubmit(profile: Option<LoadedProfile>, isEmail: string -> bool, isUrl: string -> bool,
                    passwordOk: bool, profileOk: bool) returns (report: SubmitReport)
      modifies this
      ensures var d := old(form);
              && (report.passwordRequest.Some? <==> SchemaValid(d, isEmail, isUrl) && IsPasswordChange(d))
              && (report.passwordRequest.Some? ==> report.passwordRequest.value == PasswordRequest(d))
              && (report.profileRequest.Some? <==>
                    SchemaValid(d, isEmail, isUrl) && (!IsPasswordChange(d) || passwordOk) && HasProfileChanges(d, profile))
              && (report.profileRequest.Some? ==> report.profileRequest.value == ProfileRequest(d))
              && (report.noChangesReported <==>
                    SchemaValid(d, isEmail, isUrl) && !IsPasswordChange(d) && !HasProfileChanges(d, profile))
              && form == (if (report.passwordRequest.Some? && passwordOk) || (report.profileRequest.Some? && profileOk)
                          then PasswordsCleared(d) else d)
    {
      var data := form;
      report := SubmitReport(None, None, false);
      if !SchemaValid(data, isEmail, isUrl) {
        return;
      }
      var isPasswordChange := IsPasswordChange(data);
      if isPasswordChange {
        report := report.(passwordRequest := Some(PasswordRequest(data)));
        if !passwordOk {
          return;
        }
        form := PasswordsCleared(form);
      }
      var hasProfileChanges := HasProfileChanges(data, profile);
      if hasProfileChanges {
        report := report.(profileRequest := Some(ProfileRequest(data)));
        if !profileOk {
          return;
        }
        form := PasswordsCleared(form);
      }
      if !isPasswordChange && !hasProfileChanges {
        report := report.(noChangesReported := true);
      }
    }
  }
}
