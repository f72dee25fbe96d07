/** The authentication controller: registering an account and logging in.
    bcrypt's salted hash and the JWT's secret, clock and expiry lie outside
    the model, so the hash a registration stores is a parameter, the token
    signed for an id is the function `sign`, and `bcrypt.compare` of an
    entered password against a stored hash is the function `matchesHash`. */
module AuthController {
  import opened JsValues
  import opened JsString
  import opened ObjectIds
  import opened UserModel

  /** The refusals the two endpoints send as `{ msg }`. */
  datatype Refusal = EmailTaken | UsernameTaken | BadCredentials {
    function Msg(): string {
      match this
      case EmailTaken => "Usuário com este e-mail já existe"
      case UsernameTaken => "Nome de usuário já existe"
      case BadCredentials => "Credenciais inválidas"
    }
  }

  /** The plain-text body of every 500 reply. */
  const SERVER_ERROR_TEXT: string := "Erro no Servidor"

  /** The JSON of a successful registration or login: never the password. */
  datatype AuthBody = AuthBody(id: ObjectId, username: string, email: string, token: string)

  /** A JSON body with a status, a JSON `{ msg }` refusal, or the plain-text 500 reply. */
  datatype AuthResponse =
    | Authenticated(status: int, body: AuthBody)
    | Refused(status: int, reason: Refusal)
    | ServerError

  datatype RegisterResult = RegisterResult(response: AuthResponse, users: seq<User>)

  /** `registerUser`. The duplicate e-mail check comes before the duplicate
      username check; both query with the setters applied. A user that fails
      validation, or an `_id` already in use, makes `save()` throw: 500. On
      success exactly one user, holding the hash, is appended. */
  function RegisterOutcome(users: seq<User>, username: string, email: string, password: string,
                           newId: ObjectId, passwordHash: string, sign: ObjectId -> string): (r: RegisterResult)
    ensures Taken(users, ByEmail, NormalizeEmail(email)) ==>
      r == RegisterResult(Refused(400, EmailTaken), users)
    ensures !Taken(users, ByEmail, NormalizeEmail(email)) && Taken(users, ByUsername, NormalizeUsername(username)) ==>
      r == RegisterResult(Refused(400, UsernameTaken), users)
    ensures r.response.Authenticated? ==> !Taken(users, ByEmail, NormalizeEmail(email))
    ensures r.response.Authenticated? ==> !Taken(users, ByUsername, NormalizeUsername(username))
    ensures r.response.Authenticated? ==> !Taken(users, ById, newId) && UserValid(username, email, password)
    ensures (&& !Taken(users, ByEmail, NormalizeEmail(email))
             && !Taken(users, ByUsername, NormalizeUsername(username))
             && (!UserValid(username, email, password) || Taken(users, ById, newId))) ==> r.response == ServerError
    ensures (&& !Taken(users, ByEmail, NormalizeEmail(email))
             && !Taken(users, ByUsername, NormalizeUsername(username))
             && !Taken(users, ById, newId)
             && UserValid(username, email, password)) ==> r.response.Authenticated?
    ensures r.response.Authenticated? ==>
      && r.users == users + [User(newId, NormalizeUsername(username), NormalizeEmail(email), passwordHash)]
      && r.response == Authenticated(201, AuthBody(newId, NormalizeUsername(username), NormalizeEmail(email), sign(newId)))
    ensures !r.response.Authenticated? ==> r.users == users
    ensures r.response.Refused? ==> r.response.status == 400
  {
    if FindFirst(users, ByEmail, NormalizeEmail(email)).Some? then
      RegisterResult(Refused(400, EmailTaken), users)
    else if FindFirst(users, ByUsername, NormalizeUsername(username)).Some? then
      RegisterResult(Refused(400, UsernameTaken), users)
    else if !UserValid(username, email, password) || FindFirst(users, ById, newId).Some? then
      RegisterResult(ServerError, users)
    else
      var u := User(newId, NormalizeUsername(username), NormalizeEmail(email), passwordHash);
      RegisterResult(Authenticated(201, AuthBody(u.id, u.username, u.email, sign(u.id))), users + [u])
  }

  /** Registration keeps the collection valid: the new user is normalised,
      passed validation and clashes with no id, username or e-mail. */
  lemma RegisterKeepsValid(users: seq<User>, username: string, email: string, password: string,
                           newId: ObjectId, passwordHash: string, sign: ObjectId -> string)
    requires UsersValid(users)
    ensures UsersValid(RegisterOutcome(users, username, email, password, newId, passwordHash, sign).users)
  {
    var u := User(newId, NormalizeUsername(username), NormalizeEmail(email), passwordHash);
    if RegisterOutcome(users, username, email, password, newId, passwordHash, sign).response.Authenticated? {
      NormalizeEmailIdempotent(email);
      NormalizeUsernameIdempotent(username);
      assert StoredUser(u);
      AppendUser(users, u);
    }
  }

  /** User `i` has the e-mail `email` normalises to, and `bcrypt.compare` of
      the entered password against its hash resolves to true. */
  predicate CredentialsOf(users: seq<User>, i: int, email: string, password: string,
                          matchesHash: string -> string -> bool) {
    0 <= i < |users| && users[i].email == NormalizeEmail(email) && matchesHash(password)(users[i].password)
  }

  /** `loginUser`. The body's `password` is a `Field`: `Undefined` or `Null`
      stands for any value that is not a string, which `bcrypt.compare`
      rejects, so the catch answers 500. An unknown e-mail and a wrong password
      get the same 400; a registered e-mail without a string password gets 500
      where an unknown one gets 400. */
  function LoginOutcome(users: seq<User>, email: string, password: Field<string>,
                        matchesHash: string -> string -> bool, sign: ObjectId -> string): (r: AuthResponse)
    ensures !Taken(users, ByEmail, NormalizeEmail(email)) ==> r == Refused(400, BadCredentials)
    ensures r.ServerError? <==> Taken(users, ByEmail, NormalizeEmail(email)) && !password.Given?
    ensures r.Refused? ==> r.status == 400 && r.reason == BadCredentials
    ensures r.Authenticated? ==>
      && r.status == 200 && password.Given?
      && exists i :: CredentialsOf(users, i, email, password.value, matchesHash)
                  && r.body == AuthBody(users[i].id, users[i].username, users[i].email, sign(users[i].id))
  {
    match FindFirst(users, ByEmail, NormalizeEmail(email))
    case None => Refused(400, BadCredentials)
    case Some(i) =>
      assert users[i].email == NormalizeEmail(email) by { assert KeyOf(users[i], ByEmail) == NormalizeEmail(email); }
      if !password.Given? then ServerError
      else if !matchesHash(password.value)(users[i].password) then Refused(400, BadCredentials)
      else Authenticated(200, AuthBody(users[i].id, users[i].username, users[i].email, sign(users[i].id)))
  }

  /** Without a string password the reply tells a registered e-mail (500)
      from an unknown one (400). */
  lemma MissingPasswordRevealsEmail(users: seq<User>, email: string, password: Field<string>,
                                    matchesHash: string -> string -> bool, sign: ObjectId -> string)
    requires !password.Given?
    ensures LoginOutcome(users, email, password, matchesHash, sign)
         == (if Taken(users, ByEmail, NormalizeEmail(email)) then ServerError else Refused(400, BadCredentials))
  {
  }

  /** The users collection, as the two endpoints see it. */
  class UserStore {
    var users: seq<User>

    ghost predicate Valid()
      reads this
    {
      UsersValid(users)
    }

    constructor ()
      ensures Valid() && users == []
    {
      users := [];
    }

    method RegisterUser(username: string, email: string, password: string,
                        newId: ObjectId, passwordHash: string, sign: ObjectId -> string) returns (resp: AuthResponse)
      requires Valid()
      modifies this
      ensures Valid()
      ensures RegisterResult(resp, users) == RegisterOutcome(old(users), username, email, password, newId, passwordHash, sign)
    {
      ghost var outcome := RegisterOutcome(users, username, email, password, newId, passwordHash, sign);
      RegisterKeepsValid(users, username, email, password, newId, passwordHash, sign);
      var existing := FindFirst(users, ByEmail, NormalizeEmail(email));
      if existing.Some? {
        return Refused(400, EmailTaken);
      }
      existing := FindFirst(users, ByUsername, NormalizeUsername(username));
      if existing.Some? {
        return Refused(400, UsernameTaken);
      }
      var user := User(newId, NormalizeUsername(username), NormalizeEmail(email), passwordHash);
      if !UserValid(username, email, password) || FindFirst(users, ById, newId).Some? {
        return ServerError;
      }
      assert outcome.users == users + [user];
      users := users + [user];
      var token := sign(user.id);
      resp := Authenticated(201, AuthBody(user.id, user.username, user.email, token));
    }

    method LoginUser(email: string, password: Field<string>, matchesHash: string -> string -> bool,
                     sign: ObjectId -> string) returns (resp: AuthResponse)
      ensures resp == LoginOutcome(users, email, password, matchesHash, sign)
    {
      var all := users;
      var found := FindFirst(all, ByEmail, NormalizeEmail(email));
      if found.None? {
        return Refused(400, BadCredentials);
      }
      var user := all[found.value];
      if !password.Given? {
        // bcrypt.compare rejects a password that is not a string
        return ServerError;
      }
      var isMatch := matchesHash(password.value)(user.password);
      if !isMatch {
        return Refused(400, BadCredentials);
      }
      var token := sign(user.id);
      resp := Authenticated(200, AuthBody(user.id, user.username, user.email, token));
    }
  }

  /** In a collection without duplicate e-mails, login succeeds exactly when the
      password is a string, the e-mail is registered and the password matches
      that user's hash. */
  lemma LoginSucceedsIff(users: seq<User>, email: string, password: Field<string>,
                         matchesHash: string -> string -> bool, sign: ObjectId -> string)
    requires UniqueAccounts(users)
    ensures LoginOutcome(users, email, password, matchesHash, sign).Authenticated? <==>
            password.Given? && exists i :: CredentialsOf(users, i, email, password.value, matchesHash)
  {
    var found := FindFirst(users, ByEmail, NormalizeEmail(email));
    if password.Given? && exists i :: CredentialsOf(users, i, email, password.value, matchesHash) {
      var i :| CredentialsOf(users, i, email, password.value, matchesHash);
      assert KeyOf(users[i], ByEmail) == NormalizeEmail(email);
      var k := found.value;
      assert KeyOf(users[k], ByEmail) == NormalizeEmail(email);
      assert k == i;
    }
  }

  /** A new account can log in with the password it registered, provided
      `bcrypt.compare` of that password accepts the hash made from it; both
      replies carry the token signed for the new id. */
  lemma RegisterThenLogin(users: seq<User>, username: string, email: string, password: string,
                          newId: ObjectId, passwordHash: string, sign: ObjectId -> string,
                          matchesHash: string -> string -> bool)
    requires RegisterOutcome(users, username, email, password, newId, passwordHash, sign).response.Authenticated?
    requires matchesHash(password)(passwordHash)
    ensures LoginOutcome(RegisterOutcome(users, username, email, password, newId, passwordHash, sign).users,
                         email, Given(password), matchesHash, sign)
         == Authenticated(200, AuthBody(newId, NormalizeUsername(username), NormalizeEmail(email), sign(newId)))
  {
    var u := User(newId, NormalizeUsername(username), NormalizeEmail(email), passwordHash);
    FindAfterAppend(users, u, ByEmail, NormalizeEmail(email));
  }

  /** Once an address is registered, registering it again in any spelling the
      setters normalise to the same value is refused as a duplicate e-mail. */
  lemma RegisterSameEmailTwice(users: seq<User>, username: string, email: string, password: string,
                               newId: ObjectId, passwordHash: string, sign: ObjectId -> string,
                               username2: string, email2: string, password2: string,
                               newId2: ObjectId, passwordHash2: string)
    requires RegisterOutcome(users, username, email, password, newId, passwordHash, sign).response.Authenticated?
    requires NormalizeEmail(email2) == NormalizeEmail(email)
    ensures RegisterOutcome(RegisterOutcome(users, username, email, password, newId, passwordHash, sign).users,
                            username2, email2, password2, newId2, passwordHash2, sign).response
         == Refused(400, EmailTaken)
  {
    var u := User(newId, NormalizeUsername(username), NormalizeEmail(email), passwordHash);
    FindAfterAppend(users, u, ByEmail, NormalizeEmail(email));
  }
}
