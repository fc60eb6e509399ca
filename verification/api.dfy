/**
 * The account endpoints: `register` adds a user under the lower-cased email
 * unless one exists, and `login` checks the password's hash and issues a
 * token. The password hash and the token encoder are opaque functions.
 */
module Api {
  import opened Wrappers
  import opened Text

  /** A row of `users`; new users get the plan "Free" and a story count of 0. */
  datatype User = User(
    id: int,
    email: string,
    username: string,
    passwordHash: string,
    plan: string,
    storiesCount: int)

  datatype AuthResponse = AuthResponse(message: string, token: string)

  /** An `HTTPException`: status code and detail. */
  datatype HttpError = HttpError(status: int, detail: string)

  const EmailTaken: HttpError := HttpError(400, "User with this email already exists.")
  const BadCredentials: HttpError := HttpError(401, "Invalid email or password.")

  /** Ids count up from 1, every stored email is lower-case, and no email is stored twice. */
  ghost predicate WellFormedUsers(users: seq<User>)
  {
    && (forall i :: 0 <= i < |users| ==> users[i].id == i + 1 && Lower(users[i].email) == users[i].email)
    && (forall i, j :: 0 <= i < j < |users| ==> users[i].email != users[j].email)
  }

  /** `filter(User.email == email).first()`. */
  function FindByEmail(users: seq<User>, email: string): (r: Option<User>)
    ensures r.Some? ==> r.value in users && r.value.email == email
    ensures r.None? <==> forall u :: u in users ==> u.email != email
  {
    if users == [] then None
    else if users[0].email == email then Some(users[0])
    else FindByEmail(users[1..], email)
  }

  /** With distinct emails, the user found is the only one with that email. */
  lemma {:induction false} FindByEmailUnique(users: seq<User>, k: nat)
    requires k < |users|
    requires forall i, j :: 0 <= i < j < |users| ==> users[i].email != users[j].email
    ensures FindByEmail(users, users[k].email) == Some(users[k])
  {
    if k > 0 {
      assert users[0].email != users[k].email;
      FindByEmailUnique(users[1..], k - 1);
    }
  }

  /** The user a login names, when the password's hash matches the stored one. */
  function Authenticate(users: seq<User>, hash: string -> string, email: string, password: string)
    : (r: Option<User>)
    ensures r.Some? ==> r.value in users && r.value.email == Lower(email)
                        && r.value.passwordHash == hash(password)
    ensures (forall u :: u in users ==> u.email != Lower(email)) ==> r.None?
  {
    match FindByEmail(users, Lower(email))
    case None => None
    case Some(u) => if u.passwordHash != hash(password) then None else Some(u)
  }

  /** A stored user whose email is the lower-cased login email and whose hash matches is the one found. */
  lemma AuthenticateFinds(users: seq<User>, hash: string -> string, email: string, password: string, k: nat)
    requires WellFormedUsers(users)
    requires k < |users| && users[k].email == Lower(email) && users[k].passwordHash == hash(password)
    ensures Authenticate(users, hash, email, password) == Some(users[k])
  {
    FindByEmailUnique(users, k);
  }

  /** With distinct emails, a stored user whose hash differs is refused. */
  lemma WrongPasswordRefused(users: seq<User>, hash: string -> string, email: string, password: string, k: nat)
    requires WellFormedUsers(users)
    requires k < |users| && users[k].email == Lower(email) && users[k].passwordHash != hash(password)
    ensures Authenticate(users, hash, email, password).None?
  {
    FindByEmailUnique(users, k);
  }

  /**
   * After `register(e, u, p)` has added its user, logging in with `p` and any
   * spelling of `e` that lower-cases the same finds that user.
   */
  lemma LoginAfterRegister(
    users: seq<User>, hash: string -> string, email: string, username: string, password: string,
    loginEmail: string)
    requires WellFormedUsers(users)
    requires FindByEmail(users, Lower(email)).None?
    requires Lower(loginEmail) == Lower(email)
    ensures var added := User(|users| + 1, Lower(email), username, hash(password), "Free", 0);
      Authenticate(users + [added], hash, loginEmail, password) == Some(added)
  {
    var added := User(|users| + 1, Lower(email), username, hash(password), "Free", 0);
    var after := users + [added];
    assert after[|users|] == added;
    forall i, j | 0 <= i < j < |after| ensures after[i].email != after[j].email {
      if j == |users| {
        assert after[i] in users;
      }
    }
    FindByEmailUnique(after, |users|);
  }

  class UserTable {
    var users: seq<User>
    /** `hash_password`. */
    const hash: string -> string

    ghost predicate Valid()
      reads this
    {
      WellFormedUsers(users)
    }

    constructor (hash: string -> string)
      ensures Valid() && users == [] && this.hash == hash
    {
      users := [];
      this.hash := hash;
    }

    /** `POST /auth/register`. */
    method Register(email: string, username: string, password: string) returns (r: Result<AuthResponse, HttpError>)
      requires Valid()
      modifies this
      ensures Valid()
      ensures FindByEmail(old(users), Lower(email)).Some? ==> r == Err(EmailTaken) && users == old(users)
      ensures FindByEmail(old(users), Lower(email)).None? ==>
        && r == Ok(AuthResponse("User registered successfully.", ""))
        && users == old(users) + [User(|old(users)| + 1, Lower(email), username, hash(password), "Free", 0)]
    {
      var normalised := Lower(email);
      var existing := FindByEmail(users, normalised);
      if existing.Some? {
        return Err(EmailTaken);
      }
      LowerIdempotent(email);
      var user := User(|users| + 1, normalised, username, hash(password), "Free", 0);
      users := users + [user];
      r := Ok(AuthResponse("User registered successfully.", ""));
    }

    /** `POST /auth/login`: the token is `createJwt` of the user's id; nothing changes. */
    function Login(email: string, password: string, createJwt: int -> string): (r: Result<AuthResponse, HttpError>)
      reads this
      ensures r.Err? ==> r.error == BadCredentials
      ensures r.Ok? <==> Authenticate(users, hash, email, password).Some?
      ensures r.Ok? ==> exists u :: u in users && u.email == Lower(email) && u.passwordHash == hash(password)
                                    && r.value == AuthResponse("Login successful.", createJwt(u.id))
    {
      match Authenticate(users, hash, email, password)
      case None => Err(BadCredentials)
      case Some(u) => Ok(AuthResponse("Login successful.", createJwt(u.id)))
    }
  }
}
