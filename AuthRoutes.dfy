/** The `/auth` router: register, login, verify and logout over the user
    collection. Register is a chain of early returns ending in one insert;
    the other three only read. */
module AuthRoutes {
  import opened Common
  import opened Users
  import opened Http
  import opened AuthMiddleware

  /** Which awaited call of a handler throws, if any. The lookup's own
      exception is the `Failed` lookup. */
  datatype Fault = NoFault | HashThrows | SaveThrows | SignThrows

  const RegisterSaltRounds: nat := 10

  // ---------------------------------------------------------------- register

  /** `req.body` of POST /register; None is an absent (or null) field. */
  datatype RegisterRequest = RegisterRequest(
    name: Option<string>,
    username: Option<string>,
    email: Option<string>,
    phone: Option<string>,
    password: Option<string>)

  /** None of the five fields is missing or falsy. */
  predicate Complete(b: RegisterRequest) {
    Truthy(b.name) && Truthy(b.username) && Truthy(b.email) && Truthy(b.phone) && Truthy(b.password)
  }

  /** `{ $or: [{ email }, { username }] }` */
  function RegisterQuery(b: RegisterRequest): Query
    requires Complete(b)
  {
    EmailOrUsername(b.email.value, b.username.value)
  }

  /** The document `new User({...})` builds: the four profile fields copied,
      the password replaced by its hash, no wallet balance set. */
  function NewUser(id: UserId, b: RegisterRequest, hashed: string): UserRecord
    requires Complete(b)
  {
    UserRecord(id, b.username.value, b.email.value, hashed, b.name.value, b.phone.value, None)
  }

  const AllFieldsRequired: Response := Response(400, Message("All fields are required"))
  const EmailTaken: Response := Response(400, Message("User with this email already exists"))
  const UsernameTaken: Response := Response(400, Message("Username is already taken"))
  const RegisterServerError: Response := Response(500, Message("Server error during registration"))

  /** POST /register. `found` is what `User.findOne` returned, `saltSeed` the
      randomness of `bcrypt.genSalt`, `fault` the step that throws. */
  method Register(store: UserStore, req: RegisterRequest, found: Lookup, hasher: Hasher,
                  saltSeed: string, fault: Fault) returns (resp: Response)
    requires store.Valid()
    requires Complete(req) ==> Responds(store.users, RegisterQuery(req), found)
    modifies store
    ensures store.Valid()
    ensures !Complete(req) ==> resp == AllFieldsRequired && store.users == old(store.users)
    ensures Complete(req) && found.Failed? ==> resp == RegisterServerError && store.users == old(store.users)
    ensures Complete(req) && found.Found? && found.user.email == req.email.value
            ==> resp == EmailTaken && store.users == old(store.users)
    ensures Complete(req) && found.Found? && found.user.email != req.email.value
            ==> found.user.username == req.username.value
                && resp == UsernameTaken && store.users == old(store.users)
    ensures Complete(req) && found.NotFound? && (fault == HashThrows || fault == SaveThrows)
            ==> resp == RegisterServerError && store.users == old(store.users)
    ensures Complete(req) && found.NotFound? && (fault == NoFault || fault == SignThrows)
            ==> var u := NewUser(|old(store.users)|, req, hasher.hash(req.password.value, Salt(RegisterSaltRounds, saltSeed)));
                && store.users == old(store.users) + [u]
                && resp == (if fault == NoFault
                            then Response(201, Registered("User registered successfully", Token(u.id, SevenDays), ProfileOf(u)))
                            else RegisterServerError)
    ensures old(Unique(store.users)) ==> Unique(store.users)
  {
    if !Truthy(req.name) || !Truthy(req.username) || !Truthy(req.email)
       || !Truthy(req.phone) || !Truthy(req.password) {
      return AllFieldsRequired;
    }
    var name, username, email, phone, password :=
      req.name.value, req.username.value, req.email.value, req.phone.value, req.password.value;

    if found.Failed? {
      return RegisterServerError;
    }
    if found.Found? {
      var existing := found.user;
      if existing.email == email {
        return EmailTaken;
      }
      if existing.username == username {
        return UsernameTaken;
      }
    }

    if fault == HashThrows {
      return RegisterServerError;
    }
    var hashed := hasher.hash(password, Salt(RegisterSaltRounds, saltSeed));
    var newUser := UserRecord(store.NextId(), username, email, hashed, name, phone, None);
    if fault == SaveThrows {
      return RegisterServerError;
    }
    if Unique(store.users) {
      AppendKeepsUnique(store.users, newUser);
    }
    store.Save(newUser);

    if fault == SignThrows {
      return RegisterServerError;
    }
    var token := Token(newUser.id, SevenDays);
    resp := Response(201, Registered("User registered successfully", token, ProfileOf(newUser)));
  }

  /** A second registration with the same body is turned away as a
      duplicate: once the new record is stored, a lookup that does not throw
      finds a record that shares its email or its username. */
  lemma SameBodyFoundAgain(users: seq<UserRecord>, id: UserId, req: RegisterRequest, hashed: string,
                           found: Lookup)
    requires Complete(req)
    requires Responds(users + [NewUser(id, req, hashed)], RegisterQuery(req), found) && !found.Failed?
    ensures found.Found?
    ensures found.user.email == req.email.value || found.user.username == req.username.value
  {
    var u := NewUser(id, req, hashed);
    assert u in users + [u] && Matches(u, RegisterQuery(req));
  }

  /** The stored password is the hash, never the plaintext, as long as the
      hash never returns its input. */
  lemma StoredPasswordIsHashed(id: UserId, req: RegisterRequest, hasher: Hasher, saltSeed: string)
    requires Complete(req) && HidesPlaintext(hasher)
    ensures NewUser(id, req, hasher.hash(req.password.value, Salt(RegisterSaltRounds, saltSeed))).password
            != req.password.value
  {
    var s := Salt(RegisterSaltRounds, saltSeed);
    assert hasher.hash(req.password.value, s) != req.password.value;
  }

  // ------------------------------------------------------------------- login

  /** `req.body` of POST /login. */
  datatype LoginRequest = LoginRequest(
    userInput: Option<string>,
    password: Option<string>,
    rememberMe: Option<bool>)

  predicate HasCredentials(r: LoginRequest) {
    Truthy(r.userInput) && Truthy(r.password)
  }

  /** `{ $or: [{ email: userInput }, { username: userInput }] }` */
  function LoginQuery(r: LoginRequest): Query
    requires HasCredentials(r)
  {
    EmailOrUsername(r.userInput.value, r.userInput.value)
  }

  /** `rememberMe ? '30d' : '7d'` */
  function TtlFor(rememberMe: Option<bool>): Ttl {
    if rememberMe == Some(true) then ThirtyDays else SevenDays
  }

  /** Which awaited call of the login handler throws, if any: the password
      comparison, or the signing of the token (`jwt.sign` throws when the
      secret is not configured). */
  datatype LoginFault = NoLoginFault | CompareThrows | SignatureThrows

  const CredentialsRequired: Response := Response(400, Message("Username/Email and password are required"))
  const InvalidCredentials: Response := Response(400, Message("Invalid credentials"))
  const LoginServerError: Response := Response(500, Message("Server error during login"))

  /** POST /login. `found` is what `User.findOne` returned, `fault` the later
      step that throws. */
  function Login(users: seq<UserRecord>, req: LoginRequest, found: Lookup, hasher: Hasher,
                 fault: LoginFault): (resp: Response)
    requires HasCredentials(req) ==> Responds(users, LoginQuery(req), found)
    ensures resp.status == 200
            <==> && HasCredentials(req) && found.Found? && fault == NoLoginFault
                 && hasher.compare(req.password.value, found.user.password)
    ensures resp.status == 200 ==>
              && found.user in users
              && (found.user.email == req.userInput.value || found.user.username == req.userInput.value)
              && resp.body == LoggedIn("Login successful", Token(found.user.id, TtlFor(req.rememberMe)),
                                       ProfileOf(found.user), req.rememberMe)
    ensures !HasCredentials(req) ==> resp == CredentialsRequired
    ensures HasCredentials(req) && found.Failed? ==> resp == LoginServerError
    ensures HasCredentials(req) && found.Found? && fault == CompareThrows ==> resp == LoginServerError
    ensures HasCredentials(req) && found.Found? && fault == SignatureThrows
            ==> resp == if hasher.compare(req.password.value, found.user.password)
                        then LoginServerError else InvalidCredentials
    ensures resp.status != 200 ==> resp in {CredentialsRequired, InvalidCredentials, LoginServerError}
  {
    if !HasCredentials(req) then CredentialsRequired
    else match found
      case Failed => LoginServerError
      case NotFound => InvalidCredentials
      case Found(u) =>
        if fault == CompareThrows then LoginServerError
        else if !hasher.compare(req.password.value, u.password) then InvalidCredentials
        else if fault == SignatureThrows then LoginServerError
        else
          assert fault.NoLoginFault?;
          Response(200, LoggedIn("Login successful", Token(u.id, TtlFor(req.rememberMe)),
                                 ProfileOf(u), req.rememberMe))
  }

  /** An unknown identifier and a wrong password are answered identically, in
      any two stores: the answer does not reveal which check failed. */
  lemma LoginFailuresIndistinguishable(
    users1: seq<UserRecord>, req1: LoginRequest,
    users2: seq<UserRecord>, req2: LoginRequest, u: UserRecord, hasher: Hasher,
    fault1: LoginFault, fault2: LoginFault)
    requires HasCredentials(req1) && Responds(users1, LoginQuery(req1), NotFound)
    requires HasCredentials(req2) && Responds(users2, LoginQuery(req2), Found(u))
    requires !hasher.compare(req2.password.value, u.password) && fault2 != CompareThrows
    ensures Login(users1, req1, NotFound, hasher, fault1) == Login(users2, req2, Found(u), hasher, fault2)
            == InvalidCredentials
  {
  }

  /** `rememberMe: true` gives a longer-lived token than any other value. */
  lemma RememberMeLivesLonger(other: Option<bool>)
    requires other != Some(true)
    ensures TtlFor(Some(true)).days > TtlFor(other).days
  {
  }

  /** `u` is the only stored record whose email or username is `input`. */
  predicate Identifies(users: seq<UserRecord>, input: string, u: UserRecord) {
    && u in users
    && Matches(u, EmailOrUsername(input, input))
    && forall v | v in users && Matches(v, EmailOrUsername(input, input)) :: v == u
  }

  /** When the identifier names exactly one record, every successful lookup
      finds that record. */
  lemma IdentifiedLookup(users: seq<UserRecord>, input: string, u: UserRecord, found: Lookup)
    requires Identifies(users, input, u)
    requires Responds(users, EmailOrUsername(input, input), found) && !found.Failed?
    ensures found == Found(u)
  {
  }

  /** Logging in by username and by email reach the same answer when each
      names only this user. */
  lemma LoginByEmailOrUsernameAgree(
    users: seq<UserRecord>, u: UserRecord, password: string, rememberMe: Option<bool>,
    byName: Lookup, byEmail: Lookup, hasher: Hasher, fault: LoginFault)
    requires u.username != "" && u.email != "" && password != ""
    requires Identifies(users, u.username, u) && Identifies(users, u.email, u)
    requires Responds(users, EmailOrUsername(u.username, u.username), byName) && !byName.Failed?
    requires Responds(users, EmailOrUsername(u.email, u.email), byEmail) && !byEmail.Failed?
    ensures Login(users, LoginRequest(Some(u.username), Some(password), rememberMe), byName, hasher, fault)
            == Login(users, LoginRequest(Some(u.email), Some(password), rememberMe), byEmail, hasher, fault)
  {
    IdentifiedLookup(users, u.username, u, byName);
    IdentifiedLookup(users, u.email, u, byEmail);
  }

  /** A user who registered can log in with the username and password they
      registered with, provided no other stored record answers to that name
      (as someone else's email) and the lookup does not throw. */
  lemma LoginAfterRegister(users: seq<UserRecord>, req: RegisterRequest, saltSeed: string,
                           hasher: Hasher, rememberMe: Option<bool>, found: Lookup, fault: LoginFault)
    requires Complete(req) && Sound(hasher)
    requires forall v | v in users :: !Matches(v, EmailOrUsername(req.username.value, req.username.value))
    requires var u := NewUser(|users|, req, hasher.hash(req.password.value, Salt(RegisterSaltRounds, saltSeed)));
             Responds(users + [u], EmailOrUsername(req.username.value, req.username.value), found)
    requires !found.Failed?
    ensures var u := NewUser(|users|, req, hasher.hash(req.password.value, Salt(RegisterSaltRounds, saltSeed)));
            Login(users + [u], LoginRequest(req.username, req.password, rememberMe), found, hasher, fault)
            == if fault == NoLoginFault
               then Response(200, LoggedIn("Login successful", Token(|users|, TtlFor(rememberMe)), ProfileOf(u), rememberMe))
               else LoginServerError
  {
    var s := Salt(RegisterSaltRounds, saltSeed);
    var u := NewUser(|users|, req, hasher.hash(req.password.value, s));
    var input := req.username.value;
    forall v | v in users + [u] && Matches(v, EmailOrUsername(input, input)) ensures v == u {
    }
    assert Identifies(users + [u], input, u);
    IdentifiedLookup(users + [u], input, u, found);
    assert hasher.compare(req.password.value, hasher.hash(req.password.value, s));
  }

  /** Register's duplicate check compares the new email only with emails and
      the new username only with usernames, so one stored string can be one
      user's username and another's email: with `a` stored, the body that
      creates `b` is complete and its duplicate query finds nothing. Login by
      that string then depends on which of the two the driver returns. */
  lemma IdentifierCanBeAmbiguous(hasher: Hasher)
    requires Sound(hasher)
    ensures var a := UserRecord(0, "sam", "sam@x.io", hasher.hash("pa55", Salt(10, "")), "A", "1", None);
            var b := UserRecord(1, "bob", "sam", hasher.hash("pa55", Salt(10, "r")), "B", "2", None);
            var body := RegisterRequest(Some("B"), Some("bob"), Some("sam"), Some("2"), Some("pa55"));
            var req := LoginRequest(Some("sam"), Some("pa55"), None);
            && Complete(body)
            && Responds([a], RegisterQuery(body), NotFound)
            && NewUser(1, body, b.password) == b
            && Unique([a, b])
            && Responds([a, b], LoginQuery(req), Found(a))
            && Responds([a, b], LoginQuery(req), Found(b))
            && Login([a, b], req, Found(a), hasher, NoLoginFault) != Login([a, b], req, Found(b), hasher, NoLoginFault)
  {
    var a := UserRecord(0, "sam", "sam@x.io", hasher.hash("pa55", Salt(10, "")), "A", "1", None);
    var b := UserRecord(1, "bob", "sam", hasher.hash("pa55", Salt(10, "r")), "B", "2", None);
    assert hasher.compare("pa55", a.password) && hasher.compare("pa55", b.password);
    assert "sam@x.io" != "sam";
  }

  // ----------------------------------------------------------- verify, logout

  /** The handler of GET /verify, after the gate: `User.findById(claims.userId)`
      without its password. A missing user is still `valid: true`; only a
      throwing lookup answers 401. */
  function VerifyHandler(users: seq<UserRecord>, claims: Token, found: Lookup): (resp: Response)
    requires Responds(users, ById(claims.userId), found)
    ensures resp.status == 401 <==> found.Failed?
    ensures found.Failed? ==> resp == InvalidTokenResponse
    ensures found.Found? ==> found.user in users && found.user.id == claims.userId
                             && resp == Response(200, Verified(Some(ProfileOf(found.user))))
    ensures found.NotFound? ==> (forall u | u in users :: u.id != claims.userId)
                                && resp == Response(200, Verified(None))
  {
    match found
    case Failed => InvalidTokenResponse
    case NotFound => Response(200, Verified(None))
    case Found(u) => Response(200, Verified(Some(ProfileOf(u))))
  }

  /** GET /verify: the gate, then the handler. */
  function VerifyRoute(users: seq<UserRecord>, authorization: Option<string>, verify: Verifier,
                       found: Lookup): (resp: Response)
    requires Gate(authorization, verify).Proceed?
             ==> Responds(users, ById(Gate(authorization, verify).claims.userId), found)
    ensures resp.status == 200 <==> Gate(authorization, verify).Proceed? && !found.Failed?
    ensures resp.status != 200 ==> resp.status == 401 && resp.body.Rejected?
  {
    match Gate(authorization, verify)
    case Halt(r) => r
    case Proceed(claims) => VerifyHandler(users, claims, found)
  }

  /** The scenario of a fresh registration: the token handed out, sent back
      as a bearer header, verifies to the new user's profile, password
      excluded. `sign` stands for `jwt.sign`, `verify` for `jwt.verify`. */
  lemma RegisteredTokenVerifies(users: seq<UserRecord>, u: UserRecord,
                                sign: Token -> string, verify: Verifier, found: Lookup)
    requires IdsAreIndices(users + [u]) && u.id == |users|
    requires var tok := Token(u.id, SevenDays); verify(sign(tok)) == Some(tok) && sign(tok) != "" && ' ' !in sign(tok)
    requires Responds(users + [u], ById(u.id), found) && !found.Failed?
    ensures var header := Some(AuthorizationHeader(sign(Token(u.id, SevenDays))));
            && Gate(header, verify) == Proceed(Token(u.id, SevenDays))
            && VerifyRoute(users + [u], header, verify, found) == Response(200, Verified(Some(ProfileOf(u))))
  {
    var tok := Token(u.id, SevenDays);
    SignedTokenPasses(sign, verify, tok);
    var all := users + [u];
    if found.Found? {
      var v := found.user;
      var k :| 0 <= k < |all| && all[k] == v;
      assert all[|users|] == u;
    }
  }

  const LoggedOut: Response := Response(200, Message("Logged out successfully"))

  /** POST /logout: a plain acknowledgement; nothing is read or written. */
  function Logout(): (resp: Response)
    ensures resp.status == 200 && resp.body.Message?
  {
    LoggedOut
  }
}
