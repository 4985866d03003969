/** The account routes: `signup` (check-then-insert on the user
    collection) and `signin` (lookup and password comparison). The email
    syntax check, the password hash, the comparison and the token signer are
    external; they are parameters here. */
module Auth {
  import opened Wrappers
  import opened Seqs
  import opened Schema
  import opened Db

  /** A request body; `None` is a field that is missing or not a string. */
  datatype SignupBody = SignupBody(name: Option<string>, email: Option<string>, password: Option<string>)
  datatype SigninBody = SigninBody(email: Option<string>, password: Option<string>)

  /** The signup schema: a non-empty name, a well-formed email and a
      password of at least 6 characters. */
  predicate SignupValid(b: SignupBody, isEmail: string -> bool) {
    && b.name.Some? && |b.name.value| >= 1
    && b.email.Some? && isEmail(b.email.value)
    && b.password.Some? && |b.password.value| >= 6
  }

  /** The signin schema: a well-formed email and a non-empty password. */
  predicate SigninValid(b: SigninBody, isEmail: string -> bool) {
    && b.email.Some? && isEmail(b.email.value)
    && b.password.Some? && |b.password.value| >= 1
  }

  /** `userModel.findOne({email})`. */
  function UserByEmail(users: seq<User>, email: string): (r: Option<User>)
    ensures r.Some? ==> r.value in users && r.value.email == email
    ensures r.None? <==> email !in Keys(users, EmailKey)
  {
    match FindIndex(users, EmailKey, email)
    case None => None
    case Some(i) => Some(users[i])
  }

  /** `signup`: 400 when the body fails the schema, 409 when the email is
      taken, both changing nothing; otherwise 201 and exactly one new user
      with the given name and email, the hash of the password (not the
      password), a fresh id and no follows. */
  method Signup(db: Store, b: SignupBody, isEmail: string -> bool, hash: string -> Hash) returns (status: Status)
    requires db.Valid()
    modifies db
    ensures db.Valid()
    ensures !SignupValid(b, isEmail) ==> status == BadRequest
    ensures SignupValid(b, isEmail) && b.email.value in Keys(old(db.users), EmailKey) ==> status == Conflict
    ensures SignupValid(b, isEmail) && b.email.value !in Keys(old(db.users), EmailKey) ==>
      && status == Created
      && db.users == old(db.users) + [User(old(db.nextId), b.name.value, b.email.value, hash(b.password.value), [], [])]
      && db.nextId == old(db.nextId) + 1
    ensures status != Created ==> unchanged(db)
    ensures db.posts == old(db.posts) && db.comments == old(db.comments) && db.likes == old(db.likes)
  {
    if !SignupValid(b, isEmail) {
      return BadRequest;
    }
    if UserByEmail(db.users, b.email.value).Some? {
      return Conflict;
    }
    var u := User(db.nextId, b.name.value, b.email.value, hash(b.password.value), [], []);
    AddUserKeepsStore(db.users, db.posts, db.comments, db.likes, db.nextId, u);
    db.Save(db.users + [u], db.posts, db.comments, db.likes, db.nextId + 1);
    status := Created;
  }

  /** `signin`: 400 when the body fails the schema, 404 for an unknown
      email, 401 when the password does not match the stored hash, and
      otherwise a token signed over the user's id. */
  function Signin(users: seq<User>, b: SigninBody, isEmail: string -> bool,
                  compare: (string, Hash) -> bool, sign: Id -> string): (r: Result<string>)
    ensures !SigninValid(b, isEmail) ==> r == Failure(BadRequest)
    ensures SigninValid(b, isEmail) && b.email.value !in Keys(users, EmailKey) ==> r == Failure(NotFound)
    ensures SigninValid(b, isEmail) && b.email.value in Keys(users, EmailKey) ==>
      var u := UserByEmail(users, b.email.value).value;
      && (compare(b.password.value, u.password) ==> r == Success(sign(u.id)))
      && (!compare(b.password.value, u.password) ==> r == Failure(Unauthorized))
    ensures r.Success? ==> exists u :: u in users && u.email == b.email.value && r.value == sign(u.id)
  {
    if !SigninValid(b, isEmail) then Failure(BadRequest)
    else match UserByEmail(users, b.email.value)
      case None => Failure(NotFound)
      case Some(u) =>
        if !compare(b.password.value, u.password) then Failure(Unauthorized)
        else Success(sign(u.id))
  }

  /** `findOne` on a collection with a document appended finds that
      document when its email was not present before. */
  lemma UserByEmailAppended(users: seq<User>, u: User)
    requires u.email !in Keys(users, EmailKey)
    ensures UserByEmail(users + [u], u.email) == Some(u)
  {
    var s := users + [u];
    assert EmailKey(s[|users|]) == u.email;
    assert forall k :: 0 <= k < |users| ==> s[k] == users[k];
  }

  /** When the comparison accepts a password against its own hash, signing
      in with the email and password of a successful signup succeeds, with a
      token for the new user's id. */
  lemma SigninAfterSignup(users: seq<User>, id: Id, name: string, email: string, password: string,
                          isEmail: string -> bool, hash: string -> Hash,
                          compare: (string, Hash) -> bool, sign: Id -> string)
    requires SignupValid(SignupBody(Some(name), Some(email), Some(password)), isEmail)
    requires email !in Keys(users, EmailKey)
    requires compare(password, hash(password))
    ensures var users' := users + [User(id, name, email, hash(password), [], [])];
      Signin(users', SigninBody(Some(email), Some(password)), isEmail, compare, sign) == Success(sign(id))
  {
    UserByEmailAppended(users, User(id, name, email, hash(password), [], []));
  }

  /** A second signup with the same email is refused: after a successful
      signup the email is taken. */
  lemma SignupTakesEmail(users: seq<User>, u: User)
    ensures u.email in Keys(users + [u], EmailKey)
  {
    KeysAppend(users, u, EmailKey);
  }
}
