/**
 * The public `signup` procedure: after the email format check, its body runs
 * inside a `try` whose `catch` re-raises every failure as
 * INTERNAL_SERVER_ERROR, including the CONFLICT it throws itself for a
 * taken email.
 */
module SignupRouter {
  import opened Common
  import opened Domain
  import opened Store

  /** The input of `signup`. */
  datatype SignupInput = SignupInput(name: string, email: string, password: string)

  /** The record `signup` creates: name and email as given, the password hashed, no bio or image. */
  function NewUser(id: UserId, input: SignupInput, hash: string -> string): User
  {
    User(id, Some(input.name), Some(input.email), Some(hash(input.password)), None, None)
  }

  /** The `catch` of `signup`: a success passes through, every error becomes INTERNAL_SERVER_ERROR. */
  function Rewrap<T>(attempt: Result<T>): (r: Result<T>)
    ensures r.Ok? <==> attempt.Ok?
    ensures r.Ok? ==> r == attempt
    ensures r.Err? ==> r.error == INTERNAL_SERVER_ERROR
  {
    match attempt
    case Ok(_) => attempt
    case Err(_) => Err(INTERNAL_SERVER_ERROR)
  }

  /** `signup`: creates one user, with a hashed password, unless the email is already registered. */
  method Signup(db: Database, input: SignupInput, isEmail: string -> bool, hash: string -> string, newId: UserId)
    returns (r: Result<User>)
    requires db.Valid()
    requires newId !in db.users  // the database generates a fresh id
    modifies db`users
    ensures db.Valid()
    ensures !isEmail(input.email) ==> r == Err(BAD_REQUEST)
    ensures isEmail(input.email) && FindByEmail(old(db.users), input.email).Some? ==> r == Err(INTERNAL_SERVER_ERROR)
    ensures r != Err(CONFLICT)
    ensures r.Ok? <==> isEmail(input.email) && FindByEmail(old(db.users), input.email).None?
    ensures r.Ok? ==>
              && r.value.name == Some(input.name) && r.value.email == Some(input.email)
              && r.value.password == Some(hash(input.password))
              && r.value == NewUser(newId, input, hash)
              && db.users == old(db.users)[newId := r.value]
    ensures r.Err? ==> db.users == old(db.users)
  {
    if !isEmail(input.email) {
      return Err(BAD_REQUEST);
    }
    var attempt: Result<User>;
    var hashed := hash(input.password);
    if FindByEmail(db.users, input.email).Some? {
      attempt := Err(CONFLICT);
    } else {
      var user := User(newId, Some(input.name), Some(input.email), Some(hashed), None, None);
      db.users := db.users[newId := user];
      attempt := Ok(user);
    }
    r := Rewrap(attempt);
  }
}
