/**
 * The User entity of handlers/users.go and the pure logic around it: the
 * validator tags, the unique-username invariant of the users collection, the
 * password check, and the claims of the issued token.
 */
module Users {
  import opened Common

  /** A user; `email` is stored under the key "username". */
  datatype User = User(email: string, password: string)

  const MinPasswordLength := 8
  const MaxPasswordLength := 300

  /**
   * The validator tags on User: `required,email` on the username (`isEmail` is the
   * validator's address check) and `required,min=8,max=300` on the password, with
   * lengths counted in characters.
   */
  predicate ValidUser(u: User, isEmail: string -> bool) {
    && u.email != [] && isEmail(u.email)
    && MinPasswordLength <= |u.password| <= MaxPasswordLength
  }

  /** The field errors the validator reports, in field order, first failing tag per field. */
  function UserViolations(u: User, isEmail: string -> bool): (vs: seq<Violation>)
    ensures vs == [] <==> ValidUser(u, isEmail)
    ensures |vs| <= 2
    ensures forall i, j :: 0 <= i < j < |vs| ==> vs[i].field != vs[j].field
  {
    (if u.email == [] then [Violation("Email", "required")]
     else if !isEmail(u.email) then [Violation("Email", "email")] else [])
    + (if u.password == [] then [Violation("Password", "required")]
       else if |u.password| < MinPasswordLength then [Violation("Password", "min")]
       else if |u.password| > MaxPasswordLength then [Violation("Password", "max")] else [])
  }

  /** The unique index on "username": no two stored users share one. */
  ghost predicate UniqueUsernames(docs: map<ObjectId, User>) {
    forall a, b :: a in docs && b in docs && docs[a].email == docs[b].email ==> a == b
  }

  predicate HasUsername(docs: map<ObjectId, User>, name: string) {
    exists id :: id in docs && docs[id].email == name
  }

  /** Adding a user whose name is not yet taken keeps usernames unique. */
  lemma InsertKeepsUnique(docs: map<ObjectId, User>, id: ObjectId, u: User)
    requires UniqueUsernames(docs) && id !in docs && !HasUsername(docs, u.email)
    ensures UniqueUsernames(docs[id := u])
    ensures HasUsername(docs[id := u], u.email)
  {
    var after := docs[id := u];
    forall a, b | a in after && b in after && after[a].email == after[b].email
      ensures a == b
    {
      if a != id && b != id {
        assert docs[a].email == docs[b].email;
      }
    }
    assert after[id].email == u.email;
  }

  /**
   * The password hashing service (bcrypt at cost 8): `hash` may fail (None), and
   * `verify(digest, plain)` is CompareHashAndPassword succeeding.
   */
  datatype Crypto = Crypto(hash: string -> Option<string>, verify: (string, string) -> bool)

  /** The one property assumed of the hash: a digest verifies against its own plaintext. */
  ghost predicate Sound(c: Crypto) {
    forall p :: c.hash(p).Some? ==> c.verify(c.hash(p).value, p)
  }

  /** isCredValid(given, stored): the stored hash verifies against the given password. */
  function IsCredValid(given: string, stored: string, c: Crypto): (ok: bool)
    ensures Sound(c) && c.hash(given) == Some(stored) ==> ok
  {
    c.verify(stored, given)
  }

  // ---------------------------------------------------------------------------
  // Token claims.

  datatype ClaimValue = Flag(flag: bool) | Text(text: string) | Seconds(seconds: int)

  type Claims = map<string, ClaimValue>

  /** The token lifetime: 15 minutes, in seconds. */
  const TokenLifetime := 15 * 60

  /**
   * The claims CreateToken signs for `username` at Unix time `now`: the
   * authorisation flag (under the key as spelled in the source), the username and
   * the expiry. They carry exactly three keys, read back as the username, an
   * expiry 900 seconds after `now`, and an authorisation flag that is always true.
   */
  function TokenClaims(username: string, now: int): (c: Claims)
    ensures c.Keys == {"authozied", "username", "exp"}
    ensures Subject(c) == Some(username)
    ensures Expiry(c) == Some(now + 900)
    ensures c["authozied"] == Flag(true)
  {
    map["authozied" := Flag(true), "username" := Text(username), "exp" := Seconds(now + TokenLifetime)]
  }

  /** The subject a verifier reads back from a set of claims. */
  function Subject(c: Claims): Option<string> {
    if "username" in c && c["username"].Text? then Some(c["username"].text) else None
  }

  /** The expiry a verifier reads back from a set of claims. */
  function Expiry(c: Claims): Option<int> {
    if "exp" in c && c["exp"].Seconds? then Some(c["exp"].seconds) else None
  }

  /** HS256 signing with the configured secret; None when signing fails. */
  type Signer = Claims -> Option<string>

  /** CreateToken: the signed claims, or the signing error. */
  function CreateToken(username: string, now: int, sign: Signer): (r: Result<string, Error>)
    ensures r.Ok? <==> sign(TokenClaims(username, now)).Some?
    ensures r.Ok? ==> r.value == sign(TokenClaims(username, now)).value
    ensures r.Err? ==> r.error == SigningFailed
  {
    match sign(TokenClaims(username, now))
    case Some(token) => Ok(token)
    case None => Err(SigningFailed)
  }
}
