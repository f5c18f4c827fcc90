/**
 * The user handlers of handlers/users.go as operations on the users collection:
 * registration (insertUser, CreateUser) and login (authenticateUser, AuthUser).
 */
module UserHandlers {
  import opened Common
  import opened Users
  import opened UserStore

  // The HTTP errors the handlers build, with the source's codes and messages.
  const RegisterLookupFailed := Http(500, "Unable to decode user")
  const UserExists := Http(400, "User already exists")
  const HashFailed := Http(500, "Unable to process the password")
  const InsertFailed := Http(500, "Unable to insert user")
  const LoginLookupFailed := Http(422, "Unable to decode user")
  const UserNotFound := Http(404, "User does not exsists")
  const CredentialsInvalid := Http(401, "Credentials invalid")
  const PayloadUnparsable := Http(422, "Unable to parse the request payload")
  const PayloadInvalid := Http(400, "Unable to validate the\trequest payload")

  /**
   * insertUser: look the username up, refuse a duplicate, hash the password and
   * insert the user with the hash in place of the plaintext. Only a successful
   * insert changes the collection, and it adds exactly that one record.
   */
  method InsertUser(col: UserCollection, user: User, c: Crypto) returns (r: Result<ObjectId, Error>)
    requires col.Valid()
    modifies col
    ensures col.Valid()
    ensures r.Err? ==> col.docs == old(col.docs)
    ensures r.Err? ==> r.error in {RegisterLookupFailed, UserExists, HashFailed, InsertFailed}
    ensures HasUsername(old(col.docs), user.email) ==> r.Err?
    ensures HasUsername(old(col.docs), user.email) && user.email != [] ==>
              r == Err(UserExists) || r == Err(RegisterLookupFailed)
    ensures r == Err(UserExists) ==> HasUsername(old(col.docs), user.email) && user.email != []
    ensures r == Err(HashFailed) ==> c.hash(user.password).None?
    ensures r == Err(InsertFailed) ==> c.hash(user.password).Some?
    ensures c.hash(user.password).None? ==> r.Err?
    ensures r.Ok? ==> && c.hash(user.password).Some?
                      && r.value !in old(col.docs)
                      && !HasUsername(old(col.docs), user.email)
                      && col.docs == old(col.docs)[r.value := User(user.email, c.hash(user.password).value)]
    ensures r.Ok? && Sound(c) ==> IsCredValid(user.password, col.docs[r.value].password, c)
  {
    var found := col.FindOneByUsername(user.email);
    if found.Err? && found.error != NoDocuments {
      return Err(RegisterLookupFailed);
    }
    var newUser := if found.Ok? then found.value else User("", "");
    if newUser.email != "" {
      return Err(UserExists);
    }
    var hashed := c.hash(user.password);
    if hashed.None? {
      return Err(HashFailed);
    }
    var stored := user.(password := hashed.value);
    var inserted := col.InsertOne(stored);
    if inserted.Err? {
      return Err(InsertFailed);
    }
    r := Ok(inserted.value);
  }

  /**
   * CreateUser: bind, validate, then insertUser. A body that does not validate is
   * refused with the validator's error before the collection is read.
   */
  method CreateUser(col: UserCollection, body: Option<User>, isEmail: string -> bool, c: Crypto)
    returns (r: Result<ObjectId, Error>)
    requires col.Valid()
    modifies col
    ensures col.Valid()
    ensures r.Err? ==> col.docs == old(col.docs)
    ensures body.None? ==> r == Err(BindFailed)
    ensures body.Some? && !ValidUser(body.value, isEmail) ==>
              r == Err(ValidationFailed(UserViolations(body.value, isEmail)))
    ensures r == Err(BindFailed) ==> body.None?
    ensures r.Err? && r.error.ValidationFailed? ==> body.Some? && !ValidUser(body.value, isEmail)
    ensures body.Some? && ValidUser(body.value, isEmail) && HasUsername(old(col.docs), body.value.email) ==>
              r == Err(UserExists) || r == Err(RegisterLookupFailed)
    ensures r == Err(UserExists) ==> body.Some? && HasUsername(old(col.docs), body.value.email)
    ensures r == Err(HashFailed) ==> body.Some? && c.hash(body.value.password).None?
    ensures r == Err(InsertFailed) ==> body.Some? && c.hash(body.value.password).Some?
    ensures body.Some? && ValidUser(body.value, isEmail) && c.hash(body.value.password).None? ==> r.Err?
    ensures r.Err? ==> r.error in {BindFailed, RegisterLookupFailed, UserExists, HashFailed, InsertFailed}
                       || r.error.ValidationFailed?
    ensures r.Ok? ==> && body.Some? && ValidUser(body.value, isEmail)
                      && c.hash(body.value.password).Some?
                      && r.value !in old(col.docs)
                      && col.docs == old(col.docs)[r.value := User(body.value.email, c.hash(body.value.password).value)]
    ensures r.Ok? && Sound(c) ==> IsCredValid(body.value.password, col.docs[r.value].password, c)
  {
    if body.None? {
      return Err(BindFailed);
    }
    var violations := UserViolations(body.value, isEmail);
    if violations != [] {
      return Err(ValidationFailed(violations));
    }
    r := InsertUser(col, body.value, c);
  }

  /**
   * authenticateUser: a lookup fault gives 422, no such user 404, a password that
   * does not verify 401; otherwise the user comes back with the username only.
   * The collection is only read.
   */
  method AuthenticateUser(col: UserCollection, req: User, c: Crypto) returns (r: Result<User, Error>)
    requires col.Valid()
    ensures r.Ok? ==> && r.value == User(req.email, "")
                      && exists id :: id in col.docs && col.docs[id].email == req.email
                                      && IsCredValid(req.password, col.docs[id].password, c)
    ensures r.Err? ==> r.error in {LoginLookupFailed, UserNotFound, CredentialsInvalid}
    ensures r == Err(UserNotFound) ==> !HasUsername(col.docs, req.email)
    ensures !HasUsername(col.docs, req.email) ==> r == Err(UserNotFound) || r == Err(LoginLookupFailed)
    ensures r == Err(CredentialsInvalid) ==>
              exists id :: id in col.docs && col.docs[id].email == req.email
                           && !IsCredValid(req.password, col.docs[id].password, c)
    ensures forall id :: id in col.docs && col.docs[id].email == req.email ==>
              if IsCredValid(req.password, col.docs[id].password, c)
              then r.Ok? || r == Err(LoginLookupFailed)
              else r == Err(CredentialsInvalid) || r == Err(LoginLookupFailed)
  {
    var found := col.FindOneByUsername(req.email);
    if found.Err? && found.error != NoDocuments {
      return Err(LoginLookupFailed);
    }
    if found.Err? {
      return Err(UserNotFound);
    }
    var stored := found.value;
    if !IsCredValid(req.password, stored.password, c) {
      return Err(CredentialsInvalid);
    }
    r := Ok(User(stored.email, ""));
  }

  /** What AuthUser sends back on success. */
  datatype Reply = Reply(status: int, headers: map<string, string>, body: User)

  /**
   * AuthUser: a body that does not bind gives 422 and one that does not validate
   * 400, both before the collection is read; then authentication, then the token.
   * Only when both succeed is `x-auth-token` set, to "Bearer " and the token, and
   * the reply carries the username without the password.
   */
  method AuthUser(col: UserCollection, body: Option<User>, isEmail: string -> bool, c: Crypto,
                  sign: Signer, now: int)
    returns (r: Result<Reply, Error>)
    requires col.Valid()
    ensures body.None? <==> r == Err(PayloadUnparsable)
    ensures body.Some? && !ValidUser(body.value, isEmail) <==> r == Err(PayloadInvalid)
    ensures r == Err(LoginLookupFailed) ==> body.Some? && ValidUser(body.value, isEmail)
    ensures r == Err(UserNotFound) ==>
              body.Some? && ValidUser(body.value, isEmail) && !HasUsername(col.docs, body.value.email)
    ensures body.Some? && ValidUser(body.value, isEmail) && !HasUsername(col.docs, body.value.email) ==>
              r == Err(UserNotFound) || r == Err(LoginLookupFailed)
    ensures r == Err(CredentialsInvalid) ==>
              && body.Some? && ValidUser(body.value, isEmail)
              && exists id :: id in col.docs && col.docs[id].email == body.value.email
                              && !IsCredValid(body.value.password, col.docs[id].password, c)
    ensures r.Ok? ==>
      && body.Some? && ValidUser(body.value, isEmail)
      && (exists id :: id in col.docs && col.docs[id].email == body.value.email
                       && IsCredValid(body.value.password, col.docs[id].password, c))
      && sign(TokenClaims(body.value.email, now)).Some?
      && r.value == Reply(200,
                          map["x-auth-token" := "Bearer " + sign(TokenClaims(body.value.email, now)).value],
                          User(body.value.email, ""))
    ensures body.Some? && ValidUser(body.value, isEmail) ==>
      forall id :: id in col.docs && col.docs[id].email == body.value.email ==>
        if IsCredValid(body.value.password, col.docs[id].password, c)
        then sign(TokenClaims(body.value.email, now)).Some? ==> r.Ok? || r == Err(LoginLookupFailed)
        else r == Err(CredentialsInvalid) || r == Err(LoginLookupFailed)
    ensures r == Err(SigningFailed) ==>
      body.Some? && sign(TokenClaims(body.value.email, now)).None?
    ensures r.Err? ==> r.error in {PayloadUnparsable, PayloadInvalid, LoginLookupFailed,
                                   UserNotFound, CredentialsInvalid, SigningFailed}
  {
    if body.None? {
      return Err(PayloadUnparsable);
    }
    if UserViolations(body.value, isEmail) != [] {
      return Err(PayloadInvalid);
    }
    var user := AuthenticateUser(col, body.value, c);
    if user.Err? {
      return Err(user.error);
    }
    var token := CreateToken(user.value.email, now, sign);
    if token.Err? {
      return Err(token.error);
    }
    var headers := map["x-auth-token" := "Bearer " + token.value];
    r := Ok(Reply(200, headers, User(user.value.email, "")));
  }

  /**
   * Registering a user and then logging in with the same credentials: if the
   * registration succeeded, the login succeeds unless the store faults or signing
   * fails, and the token is issued for that username.
   */
  method RegisterThenLogin(col: UserCollection, user: User, isEmail: string -> bool, c: Crypto,
                           sign: Signer, now: int)
    returns (reg: Result<ObjectId, Error>, login: Result<Reply, Error>)
    requires col.Valid() && Sound(c) && ValidUser(user, isEmail)
    modifies col
    ensures col.Valid()
    ensures reg.Ok? && sign(TokenClaims(user.email, now)).Some? ==>
              login.Ok? || login == Err(LoginLookupFailed)
    ensures login.Ok? ==>
              && sign(TokenClaims(user.email, now)).Some?
              && login.value.headers == map["x-auth-token" := "Bearer " + sign(TokenClaims(user.email, now)).value]
              && login.value.body == User(user.email, "")
  {
    reg := CreateUser(col, Some(user), isEmail, c);
    if reg.Ok? {
      var id := reg.value;
      assert col.docs[id] == User(user.email, c.hash(user.password).value);
      assert IsCredValid(user.password, col.docs[id].password, c);
    }
    login := AuthUser(col, Some(user), isEmail, c, sign, now);
  }

  /**
   * Registering the same username twice: the second attempt is refused and the
   * collection holds exactly one record for that username.
   */
  method RegisterTwice(col: UserCollection, user: User, isEmail: string -> bool, c: Crypto)
    returns (first: Result<ObjectId, Error>, second: Result<ObjectId, Error>)
    requires col.Valid() && ValidUser(user, isEmail)
    modifies col
    ensures col.Valid()
    ensures first.Ok? ==> second == Err(UserExists) || second == Err(RegisterLookupFailed)
    ensures first.Ok? ==> && first.value in col.docs && col.docs[first.value].email == user.email
                          && forall id :: id in col.docs && col.docs[id].email == user.email ==> id == first.value
  {
    first := CreateUser(col, Some(user), isEmail, c);
    if first.Ok? {
      assert col.docs[first.value].email == user.email;
      assert HasUsername(col.docs, user.email);
    }
    second := CreateUser(col, Some(user), isEmail, c);
  }
}
