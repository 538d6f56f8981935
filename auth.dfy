/**
 * Sign-in: the credentials provider's `authorize` decision, and the `jwt`
 * and `session` callbacks that carry the signed-in user's id, email and
 * name from the login into the token and from the token into the session.
 * bcrypt's `compare` is passed in as a function.
 */
module Auth {
  import opened Common
  import opened Domain
  import opened Store
  import opened SignupRouter

  /** What the sign-in form submits; either field may be missing. */
  datatype Credentials = Credentials(email: Option<string>, password: Option<string>)

  /** What `authorize` returns for a signed-in user. */
  datatype AuthUser = AuthUser(id: UserId, email: Option<string>, name: Option<string>)

  /** A stored password accepts the given one when there is none, or when `compare` matches. */
  predicate PasswordAccepted(stored: Option<string>, password: string, compare: (string, string) -> bool)
  {
    Truthy(stored) ==> compare(password, stored.value)
  }

  /** Both fields of the form are present and non-empty. */
  predicate Supplied(credentials: Option<Credentials>)
  {
    credentials.Some? && Truthy(credentials.value.email) && Truthy(credentials.value.password)
  }

  /** `authorize`: the user with the submitted email, if their password is accepted. */
  function Authorize(users: map<UserId, User>, credentials: Option<Credentials>,
                     compare: (string, string) -> bool): (r: Option<AuthUser>)
    requires EmailsUnique(users) && UserKeysMatch(users)
    ensures !Supplied(credentials) ==> r.None?
    ensures r.Some? <==>
              && Supplied(credentials)
              && exists id :: id in users && users[id].email == credentials.value.email
                              && PasswordAccepted(users[id].password, credentials.value.password.value, compare)
    ensures r.Some? ==>
              && r.value.id in users
              && r.value.email == credentials.value.email
              && r.value == AuthUser(r.value.id, users[r.value.id].email, users[r.value.id].name)
  {
    if !Supplied(credentials) then None
    else
      match FindByEmail(users, credentials.value.email.value)
      case None => None
      case Some(id) =>
        var u := users[id];
        if !PasswordAccepted(u.password, credentials.value.password.value, compare) then None
        else Some(AuthUser(u.id, u.email, u.name))
  }

  /** A user without a stored password signs in with any non-empty password. */
  lemma NoStoredPasswordAcceptsAny(users: map<UserId, User>, id: UserId, password: string,
                                   compare: (string, string) -> bool)
    requires EmailsUnique(users) && UserKeysMatch(users)
    requires id in users && Truthy(users[id].email) && !Truthy(users[id].password)
    requires password != ""
    ensures Authorize(users, Some(Credentials(users[id].email, Some(password))), compare)
            == Some(AuthUser(id, users[id].email, users[id].name))
  {
    assert FindByEmail(users, users[id].email.value) == Some(id);
  }

  /**
   * After `signup`, the new account signs in with its own password, provided
   * `compare` recognises a password against its own hash.
   */
  lemma {:induction false} SignupThenAuthorize(users: map<UserId, User>, input: SignupInput, newId: UserId,
                                               hash: string -> string, compare: (string, string) -> bool)
    requires EmailsUnique(users) && UserKeysMatch(users)
    requires FindByEmail(users, input.email).None? && newId !in users
    requires input.email != "" && input.password != ""
    requires compare(input.password, hash(input.password))
    ensures EmailsUnique(users[newId := NewUser(newId, input, hash)])
    ensures UserKeysMatch(users[newId := NewUser(newId, input, hash)])
    ensures Authorize(users[newId := NewUser(newId, input, hash)], Some(Credentials(Some(input.email), Some(input.password))), compare)
            == Some(AuthUser(newId, Some(input.email), Some(input.name)))
  {
    var after := users[newId := NewUser(newId, input, hash)];
    forall a, b | a in after && b in after && after[a].email.Some? && after[a].email == after[b].email
      ensures a == b
    {
      if a != newId && b != newId {
        assert after[a] == users[a] && after[b] == users[b];
      }
    }
    var found := FindByEmail(after, input.email);
    assert after[newId].email == Some(input.email);
    assert found.Some? && after[found.value].email == after[newId].email;
  }

  /**
   * After `changePassword` stores hash(p), the account signs in with `p`,
   * provided `compare` recognises a password against its own hash.
   */
  lemma {:induction false} ChangePasswordThenAuthorize(users: map<UserId, User>, id: UserId, p: string,
                                                       hash: string -> string, compare: (string, string) -> bool)
    requires EmailsUnique(users) && UserKeysMatch(users)
    requires id in users && Truthy(users[id].email) && p != ""
    requires compare(p, hash(p))
    ensures EmailsUnique(users[id := users[id].(password := Some(hash(p)))])
    ensures UserKeysMatch(users[id := users[id].(password := Some(hash(p)))])
    ensures Authorize(users[id := users[id].(password := Some(hash(p)))], Some(Credentials(users[id].email, Some(p))), compare)
            == Some(AuthUser(id, users[id].email, users[id].name))
  {
    var after := users[id := users[id].(password := Some(hash(p)))];
    forall a, b | a in after && b in after && after[a].email.Some? && after[a].email == after[b].email
      ensures a == b
    {
      assert after[a].email == users[a].email && after[b].email == users[b].email;
    }
    var found := FindByEmail(after, users[id].email.value);
    assert after[id].email == users[id].email;
    assert found.Some? && after[found.value].email == after[id].email;
  }

  /** The JSON web token's user fields. */
  class Token {
    var id: Option<string>
    var email: Option<string>
    var name: Option<string>

    constructor (id: Option<string>, email: Option<string>, name: Option<string>)
      ensures this.id == id && this.email == email && this.name == name
    {
      this.id, this.email, this.name := id, email, name;
    }
  }

  /** `jwt`: on login (a user is present) the user's fields are copied into the token. */
  method Jwt(token: Token, user: Option<AuthUser>) returns (t: Token)
    modifies token
    ensures t == token
    ensures user.Some? ==> token.id == Some(user.value.id) && token.email == user.value.email && token.name == user.value.name
    ensures user.None? ==> token.id == old(token.id) && token.email == old(token.email) && token.name == old(token.name)
  {
    if user.Some? {
      token.id := Some(user.value.id);
      token.email := user.value.email;
      token.name := user.value.name;
    }
    return token;
  }

  /** The session's user fields. */
  class SessionUser {
    var id: Option<string>
    var email: Option<string>
    var name: Option<string>
    var image: Option<string>

    constructor (image: Option<string>)
      ensures id.None? && email.None? && name.None? && this.image == image
    {
      id, email, name, this.image := None, None, None, image;
    }
  }

  class Session {
    var user: SessionUser

    constructor (user: SessionUser)
      ensures this.user == user
    {
      this.user := user;
    }
  }

  /** `session`: when there is a token, its id, email and name are copied into the session's user; the image stays. */
  method SessionCallback(session: Session, token: Token?) returns (s: Session)
    modifies session.user
    ensures s == session && session.user == old(session.user)
    ensures token != null ==>
              && session.user.id == token.id && session.user.email == token.email && session.user.name == token.name
              && session.user.image == old(session.user.image)
    ensures token == null ==> unchanged(session.user)
  {
    if token != null {
      session.user.id := token.id;
      session.user.email := token.email;
      session.user.name := token.name;
      session.user.image := session.user.image;
    }
    return session;
  }

  /**
   * A credentials sign-in from end to end: `authorize`, then `jwt` with its
   * result, then `session`. A successful sign-in leaves the session naming
   * the account whose email was submitted.
   */
  method SignIn(users: map<UserId, User>, credentials: Option<Credentials>, compare: (string, string) -> bool,
                token: Token, session: Session) returns (signedIn: Option<AuthUser>)
    requires EmailsUnique(users) && UserKeysMatch(users)
    requires token != session.user as object
    modifies token, session.user
    ensures signedIn == Authorize(users, credentials, compare)
    ensures signedIn.Some? ==>
              && session.user.id == Some(signedIn.value.id)
              && signedIn.value.id in users
              && session.user.email == credentials.value.email
              && users[signedIn.value.id].email == credentials.value.email
  {
    signedIn := Authorize(users, credentials, compare);
    var t := Jwt(token, signedIn);
    var s := SessionCallback(session, t);
  }
}
