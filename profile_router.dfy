/**
 * The account procedures of the signed-in user: `updateProfile` and
 * `changePassword`. Input validation, the field filter and the ordered
 * guards come first; then one write to the caller's own user record.
 * The email and URL format checks and bcrypt's `hash`/`compare` are passed
 * in as functions.
 */
module ProfileRouter {
  import opened Common
  import opened Domain
  import opened Store

  /** The input of `updateProfile`; `None` is a field left undefined. */
  datatype ProfileInput = ProfileInput(
    name: Option<string>,
    bio: Option<string>,
    image: Option<string>,
    email: Option<string>)

  /** The input schema of `updateProfile`: every supplied field is checked. */
  predicate ProfileInputValid(input: ProfileInput, isEmail: string -> bool, isUrl: string -> bool)
  {
    && (input.name.Some? ==> |input.name.value| >= 1)
    && (input.bio.Some? ==> |input.bio.value| <= 500)
    && (input.image.Some? ==> isUrl(input.image.value))
    && (input.email.Some? ==> isEmail(input.email.value))
  }

  /** At least one field survives the filter that drops undefined values. */
  predicate HasFields(input: ProfileInput)
  {
    input.name.Some? || input.bio.Some? || input.image.Some? || input.email.Some?
  }

  /** The user record with every supplied field written and the others kept. */
  function Applied(u: User, input: ProfileInput): (r: User)
    ensures r.id == u.id && r.password == u.password
    ensures r.name == (if input.name.Some? then input.name else u.name)
    ensures r.bio == (if input.bio.Some? then input.bio else u.bio)
    ensures r.image == (if input.image.Some? then input.image else u.image)
    ensures r.email == (if input.email.Some? then input.email else u.email)
  {
    u.(name := if input.name.Some? then input.name else u.name,
       bio := if input.bio.Some? then input.bio else u.bio,
       image := if input.image.Some? then input.image else u.image,
       email := if input.email.Some? then input.email else u.email)
  }

  /** Applying the same input twice is applying it once. */
  lemma AppliedIdempotent(u: User, input: ProfileInput)
    ensures Applied(Applied(u, input), input) == Applied(u, input)
  {
  }

  /**
   * `updateProfile`. The order of the checks is the source's: the input
   * schema, then the empty filter, then the email conflict (only for a
   * non-empty email), then the write, which fails when the caller's record
   * is missing or the email column's uniqueness would be broken.
   */
  method UpdateProfile(db: Database, caller: UserId, input: ProfileInput,
                       isEmail: string -> bool, isUrl: string -> bool) returns (r: Result<User>)
    requires db.Valid()
    modifies db`users
    ensures db.Valid()
    ensures !ProfileInputValid(input, isEmail, isUrl) ==> r == Err(BAD_REQUEST)
    ensures !HasFields(input) ==> r == Err(BAD_REQUEST)
    ensures ProfileInputValid(input, isEmail, isUrl) && HasFields(input)
            && Truthy(input.email) && EmailTakenByOther(old(db.users), input.email.value, caller)
            ==> r == Err(CONFLICT)
    ensures r.Ok? <==>
              && ProfileInputValid(input, isEmail, isUrl) && HasFields(input)
              && caller in old(db.users)
              && !(input.email.Some? && EmailTakenByOther(old(db.users), input.email.value, caller))
    ensures r.Ok? ==> r.value == Applied(old(db.users)[caller], input)
                      && db.users == old(db.users)[caller := r.value]
    ensures r.Err? ==> db.users == old(db.users)
  {
    if !ProfileInputValid(input, isEmail, isUrl) {
      return Err(BAD_REQUEST);
    }
    if !HasFields(input) {
      return Err(BAD_REQUEST);
    }
    if Truthy(input.email) && EmailTakenByOther(db.users, input.email.value, caller) {
      return Err(CONFLICT);
    }
    // the write itself: a missing record, or an email another user holds, makes it throw
    if caller !in db.users || (input.email.Some? && EmailTakenByOther(db.users, input.email.value, caller)) {
      return Err(INTERNAL_SERVER_ERROR);
    }
    var updated := Applied(db.users[caller], input);
    db.users := db.users[caller := updated];
    r := Ok(updated);
  }

  /** The input of `changePassword`. */
  datatype PasswordInput = PasswordInput(currentPassword: string, newPassword: string, confirmNewPassword: string)

  /** The input schema of `changePassword`, with its refinement that the two new passwords match. */
  predicate PasswordInputValid(input: PasswordInput)
  {
    && |input.currentPassword| >= 1
    && |input.newPassword| >= 8
    && |input.confirmNewPassword| >= 1
    && input.newPassword == input.confirmNewPassword
  }

  /**
   * `changePassword`. The stored-password check comes first, so the "user
   * not found" branch after it can never be taken.
   */
  method ChangePassword(db: Database, caller: UserId, input: PasswordInput,
                        hash: string -> string, compare: (string, string) -> bool) returns (r: Result<()>)
    requires db.Valid()
    modifies db`users
    ensures db.Valid()
    ensures !PasswordInputValid(input) ==> r == Err(BAD_REQUEST)
    ensures PasswordInputValid(input) && !(caller in old(db.users) && Truthy(old(db.users)[caller].password))
            ==> r == Err(BAD_REQUEST)
    ensures r != Err(NOT_FOUND)
    ensures PasswordInputValid(input) && caller in old(db.users) && Truthy(old(db.users)[caller].password)
            && !compare(input.currentPassword, old(db.users)[caller].password.value)
            ==> r == Err(UNAUTHORIZED)
    ensures PasswordInputValid(input) && caller in old(db.users) && Truthy(old(db.users)[caller].password)
            && compare(input.currentPassword, old(db.users)[caller].password.value)
            && compare(input.newPassword, old(db.users)[caller].password.value)
            ==> r == Err(BAD_REQUEST)
    ensures r.Ok? <==>
              && PasswordInputValid(input)
              && caller in old(db.users) && Truthy(old(db.users)[caller].password)
              && compare(input.currentPassword, old(db.users)[caller].password.value)
              && !compare(input.newPassword, old(db.users)[caller].password.value)
    ensures r.Ok? ==> db.users == old(db.users)[caller := old(db.users)[caller].(password := Some(hash(input.newPassword)))]
    ensures r.Err? ==> db.users == old(db.users)
  {
    if !PasswordInputValid(input) {
      return Err(BAD_REQUEST);
    }
    if caller !in db.users || !Truthy(db.users[caller].password) {
      return Err(BAD_REQUEST);
    }
    if caller !in db.users {
      assert false;
    }
    var stored := db.users[caller].password.value;
    if !compare(input.currentPassword, stored) {
      return Err(UNAUTHORIZED);
    }
    if compare(input.newPassword, stored) {
      return Err(BAD_REQUEST);
    }
    db.users := db.users[caller := db.users[caller].(password := Some(hash(input.newPassword)))];
    r := Ok(());
  }
}
