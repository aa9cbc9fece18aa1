// pages/api/auth/register.ts, pages/api/auth/login.ts and models/user.ts: the
// user collection and the two routes over it. The collection is a class holding
// a map from stored e-mail to user, which is the schema's unique index. Hashing,
// password comparison and token signing are function parameters, and so are the
// outcome of connecting to the database and the clock.

module Users {
  import opened Text

  /** A stored user document; `password` holds the hash. */
  datatype User = User(id: nat, name: string, email: string, password: string, createdAt: int)

  /** The user object the routes answer with: it has no password field. */
  datatype PublicUser = PublicUser(id: nat, name: string, email: string)

  function Public(u: User): (p: PublicUser)
    ensures p.id == u.id && p.name == u.name && p.email == u.email
  {
    PublicUser(u.id, u.name, u.email)
  }

  /** The JSON body a route writes; `NoContent` for `res.status(..).end()`. */
  datatype Payload =
    | NoContent
    | Error(error: string)
    | ErrorDetails(error: string, details: string)
    | Registered(message: string, user: PublicUser)
    | LoggedIn(token: string, user: PublicUser)

  datatype Response = Response(status: int, payload: Payload)

  /** An exception as the catch blocks look at it: its `name`, its `message` and,
      for a validation error, the messages of its `errors`. */
  datatype Thrown = Thrown(name: string, message: string, errors: seq<string>)

  /** The body of a registration request; a missing or falsy property is "". */
  datatype RegisterBody = NoRegisterBody | RegisterForm(name: string, email: string, password: string)

  /** The body of a login request; a missing or falsy property is "". */
  datatype LoginBody = NoLoginBody | LoginForm(email: string, password: string)

  const MethodNotAllowed := "Method not allowed"
  const MissingInfo := "Eksik bilgi"
  const MissingInfoDetails := "İsim, email ve şifre gereklidir"
  const BadPassword := "Geçersiz şifre"
  const PasswordTooShort := "Şifre en az 6 karakter olmalıdır"
  const BadName := "Geçersiz isim"
  const NameTooShort := "İsim en az 2 karakter olmalıdır"
  const BadEmail := "Geçersiz email"
  const BadEmailDetails := "Lütfen geçerli bir email adresi giriniz"
  const UserExists := "Kullanıcı zaten mevcut"
  const UserExistsDetails := "Bu email adresi ile kayıtlı bir kullanıcı bulunmaktadır"
  const HashFailed := "Şifre işleme hatası"
  const HashFailedDetails := "Kayıt işlemi sırasında bir hata oluştu"
  const RegisteredMessage := "Kayıt başarılı"
  const DatabaseError := "Veritabanı bağlantı hatası"
  const DatabaseErrorDetails := "Lütfen daha sonra tekrar deneyiniz"
  const ValidationFailed := "Doğrulama hatası"
  const ServerError := "Sunucu hatası"
  const RegisterFailed := "Kayıt işlemi başarısız oldu"
  const ConnectionTimeout := "MongoDB connection timeout"
  /** What V8 says when `const { name, ... } = req.body` meets a missing body. */
  const NoBodyName := "Cannot destructure property 'name' of 'req.body' as it is undefined."

  const NameRequired := "İsim gereklidir"
  const EmailRequired := "Email gereklidir"
  const EmailInvalid := "Geçerli bir email adresi giriniz"
  const PasswordRequired := "Şifre gereklidir"

  const LoginMissing := "Email ve şifre gereklidir"
  const InvalidCredentials := "Geçersiz email veya şifre"
  const LoginFailed := "Giriş işlemi başarısız oldu"
  const UnknownError := "Bilinmeyen bir hata oluştu"
  const NotAFunction := "user.comparePassword is not a function"
  const NoBodyEmail := "Cannot destructure property 'email' of 'req.body' as it is undefined."
  const DefaultSecret := "your-secret-key"

  // ---------------------------------------------------------------------------
  // The e-mail pattern `^\S+@\S+\.\S+$`

  /** `/^\S+@\S+\.\S+$/.test(s)`: no whitespace anywhere, an `@` after at least one
      character and a `.` after at least one more, with something after the dot.
      `\S` also matches `@` and `.`, so any of them may be the ones matched. */
  predicate EmailShape(s: string)
  {
    NoSpace(s) && exists i, j :: 1 <= i && i + 2 <= j && j + 2 <= |s| && s[i] == '@' && s[j] == '.'
  }

  /** Every `a@b.c` with non-empty whitespace-free parts matches. */
  lemma EmailOfParts(a: string, b: string, c: string)
    requires a != [] && b != [] && c != []
    requires NoSpace(a) && NoSpace(b) && NoSpace(c)
    ensures EmailShape(a + "@" + b + "." + c)
  {
    var s := a + "@" + b + "." + c;
    NoSpaceAppend(a, "@");
    NoSpaceAppend(a + "@", b);
    NoSpaceAppend(a + "@" + b, ".");
    NoSpaceAppend(a + "@" + b + ".", c);
    var i, j := |a|, |a| + 1 + |b|;
    assert s[i] == '@';
    assert s[j] == '.';
  }

  /** Every match is some `a@b.c` with non-empty whitespace-free parts. */
  lemma EmailParts(s: string) returns (a: string, b: string, c: string)
    requires EmailShape(s)
    ensures a != [] && b != [] && c != []
    ensures NoSpace(a) && NoSpace(b) && NoSpace(c)
    ensures s == a + "@" + b + "." + c
  {
    var i, j :| 1 <= i && i + 2 <= j && j + 2 <= |s| && s[i] == '@' && s[j] == '.';
    a, b, c := s[..i], s[i + 1..j], s[j + 1..];
    assert s == a + [s[i]] + b + [s[j]] + c;
  }

  lemma LowerPunctuation()
    ensures ToLower("@") == "@" && ToLower(".") == "."
  {
    assert ToLower("@") == "@" + ToLower([]);
    assert ToLower(".") == "." + ToLower([]);
  }

  /** Lower-casing an address lower-cases its parts and keeps `@` and `.`. */
  lemma LowerParts(a: string, b: string, c: string)
    ensures ToLower(a + "@" + b + "." + c) == ToLower(a) + "@" + ToLower(b) + "." + ToLower(c)
  {
    LowerPunctuation();
    ToLowerAppend(a, "@");
    ToLowerAppend(a + "@", b);
    ToLowerAppend(a + "@" + b, ".");
    ToLowerAppend(a + "@" + b + ".", c);
  }

  /** Lower-casing keeps a matching address matching. */
  lemma EmailLowered(s: string)
    requires EmailShape(s)
    ensures EmailShape(ToLower(s))
  {
    var a, b, c := EmailParts(s);
    LowerParts(a, b, c);
    ToLowerNoSpace(a);
    ToLowerNoSpace(b);
    ToLowerNoSpace(c);
    EmailOfParts(ToLower(a), ToLower(b), ToLower(c));
  }

  // ---------------------------------------------------------------------------
  // The schema (models/user.ts)

  /** What the `name` setter stores: the trimmed name. */
  function StoredName(name: string): string
  {
    Trim(name)
  }

  /** What the `email` setters store: trimmed and lower-cased. */
  function StoredEmail(email: string): string
  {
    ToLower(Trim(email))
  }

  /** The setters may run in either order: trimming then lower-casing stores
      what lower-casing then trimming would. */
  lemma StoredEmailEitherOrder(email: string)
    ensures StoredEmail(email) == Trim(ToLower(email))
  {
    TrimLowerCommute(email);
  }

  /** The message of the first validator of `name` that fails: `required`, then
      `minlength` 2, both on the stored value. */
  function NameErrors(name: string): (r: seq<string>)
    ensures r == [] <==> |StoredName(name)| >= 2
  {
    var n := StoredName(name);
    if n == [] then [NameRequired] else if |n| < 2 then [NameTooShort] else []
  }

  /** `required`, then `match` on the stored e-mail. */
  function EmailErrors(email: string): (r: seq<string>)
    ensures r == [] <==> EmailShape(StoredEmail(email))
  {
    var e := StoredEmail(email);
    if e == [] then [EmailRequired] else if !EmailShape(e) then [EmailInvalid] else []
  }

  /** `required`, then `minlength` 6. */
  function PasswordErrors(password: string): (r: seq<string>)
    ensures r == [] <==> |password| >= 6
  {
    if password == [] then [PasswordRequired] else if |password| < 6 then [PasswordTooShort] else []
  }

  /** The messages of the `ValidationError` that `User.create` throws, one per
      failing path, in schema order; empty when the document is valid. */
  function SchemaErrors(name: string, email: string, password: string): (r: seq<string>)
    ensures r == [] <==> |StoredName(name)| >= 2 && EmailShape(StoredEmail(email)) && |password| >= 6
    ensures |r| <= 3
  {
    NameErrors(name) + EmailErrors(email) + PasswordErrors(password)
  }

  /** A document the schema accepts, as stored. */
  predicate ValidUser(u: User)
  {
    Trimmed(u.name) && |u.name| >= 2 && EmailShape(u.email) && |u.password| >= 6
  }

  /** A document whose fields pass the schema's validators is valid as stored. */
  lemma SchemaAcceptsStored(id: nat, name: string, email: string, hashed: string, now: int)
    requires SchemaErrors(name, email, hashed) == []
    ensures ValidUser(User(id, StoredName(name), StoredEmail(email), hashed, now))
  {
  }

  // ---------------------------------------------------------------------------
  // Registration (pages/api/auth/register.ts)

  /** The handler's own checks, in order; the first that fails decides the 400. */
  function CheckForm(name: string, email: string, password: string): (r: Option<Payload>)
    ensures r.None? <==> name != [] && email != [] && password != [] && |password| >= 6 && |name| >= 2 && EmailShape(email)
  {
    if name == [] || email == [] || password == [] then Some(ErrorDetails(MissingInfo, MissingInfoDetails))
    else if |password| < 6 then Some(ErrorDetails(BadPassword, PasswordTooShort))
    else if |name| < 2 then Some(ErrorDetails(BadName, NameTooShort))
    else if !EmailShape(email) then Some(ErrorDetails(BadEmail, BadEmailDetails))
    else None
  }

  /** Each check speaks only when all the earlier ones pass, whatever the later
      ones would say. */
  lemma CheckFormOrder(name: string, email: string, password: string)
    ensures name == [] || email == [] || password == [] ==>
      CheckForm(name, email, password) == Some(ErrorDetails(MissingInfo, MissingInfoDetails))
    ensures name != [] && email != [] && 0 < |password| < 6 ==>
      CheckForm(name, email, password) == Some(ErrorDetails(BadPassword, PasswordTooShort))
    ensures |name| == 1 && email != [] && |password| >= 6 ==>
      CheckForm(name, email, password) == Some(ErrorDetails(BadName, NameTooShort))
    ensures |name| >= 2 && email != [] && |password| >= 6 && !EmailShape(email) ==>
      CheckForm(name, email, password) == Some(ErrorDetails(BadEmail, BadEmailDetails))
  {
  }

  /** An e-mail the handler accepts is one the schema accepts: it has no
      whitespace to trim and stays a match when lower-cased. */
  lemma HandlerEmailPassesSchema(email: string)
    requires EmailShape(email)
    ensures StoredEmail(email) == ToLower(email)
    ensures EmailErrors(email) == []
  {
    assert |email| >= 5 by {
      var i, j :| 1 <= i && i + 2 <= j && j + 2 <= |email| && email[i] == '@' && email[j] == '.';
    }
    TrimOfTrimmed(email);
    EmailLowered(email);
  }

  /** A name of whitespace and one character passes the handler's `name.length < 2`
      test but not the schema, which measures the trimmed name. */
  lemma PaddedNameFailsSchema(c: char, email: string, password: string)
    requires !IsSpace(c) && EmailShape(email) && |password| >= 6
    ensures CheckForm("  " + [c], email, password).None?
    ensures NameErrors("  " + [c]) == [NameTooShort]
  {
    assert AllSpace("  ") && AllSpace([]);
    TrimUnique("  ", [c], []);
    assert "  " + [c] + [] == "  " + [c];
  }

  /** The catch block of the handler: a connection timeout gives 503, a schema
      validation error 400 with its messages joined, anything else 500 (with the
      error's message only in development). */
  function RegisterFailure(e: Thrown, development: bool): (r: Response)
    ensures r.status in {400, 500, 503}
    ensures r.status == 503 <==> Contains(e.message, ConnectionTimeout)
    ensures r.status == 400 <==> !Contains(e.message, ConnectionTimeout) && e.name == "ValidationError"
    ensures r.status == 500 && !development ==> r.payload == ErrorDetails(ServerError, RegisterFailed)
  {
    if Contains(e.message, ConnectionTimeout) then Response(503, ErrorDetails(DatabaseError, DatabaseErrorDetails))
    else if e.name == "ValidationError" then Response(400, ErrorDetails(ValidationFailed, Join(e.errors, ", ")))
    else Response(500, ErrorDetails(ServerError, if development then e.message else RegisterFailed))
  }

  /** What a registration does: the response and the user it inserts, if any. */
  datatype RegisterOutcome = RegisterOutcome(response: Response, added: Option<User>)

  function Rejected(r: Response): RegisterOutcome
  {
    RegisterOutcome(r, None)
  }

  /** The handler against the collection `users` (keyed by stored e-mail) and the
      next id. `connectError` is what connecting threw, `hash` is salting and
      hashing (`None` when it throws), `now` is `new Date()`. Mongoose runs the
      schema's `trim` and `lowercase` setters on the query filter, so the lookup
      is by the stored e-mail, the unique index's key; the insert then validates
      the document against the schema. */
  function RegisterResult(users: map<string, User>, nextId: nat, verb: string, body: RegisterBody,
                          connectError: Option<Thrown>, hash: string -> Option<string>,
                          now: int, development: bool): (o: RegisterOutcome)
    ensures o.response.status in {200, 201, 400, 405, 500, 503}
    ensures o.added.Some? <==> o.response.status == 201
    ensures o.added.Some? ==>
      var u := o.added.value;
      && body.RegisterForm?
      && u.id == nextId && u.createdAt == now
      && u.email !in users
      && ValidUser(u)
      && u.name == StoredName(body.name) && u.email == StoredEmail(body.email)
      && hash(body.password) == Some(u.password)
      && o.response.payload == Registered(RegisteredMessage, Public(u))
    ensures verb == "OPTIONS" ==> o == Rejected(Response(200, NoContent))
    ensures verb != "OPTIONS" && verb != "POST" ==> o == Rejected(Response(405, Error(MethodNotAllowed)))
    ensures verb == "POST" && body.NoRegisterBody? ==>
      o == Rejected(Response(500, ErrorDetails(ServerError, if development then NoBodyName else RegisterFailed)))
    ensures verb == "POST" && body.RegisterForm? && CheckForm(body.name, body.email, body.password).Some? ==>
      o == Rejected(Response(400, CheckForm(body.name, body.email, body.password).value))
    ensures verb == "POST" && body.RegisterForm? && CheckForm(body.name, body.email, body.password).None? && connectError.Some? ==>
      o == Rejected(RegisterFailure(connectError.value, development))
  {
    if verb == "OPTIONS" then Rejected(Response(200, NoContent))
    else if verb != "POST" then Rejected(Response(405, Error(MethodNotAllowed)))
    else if body.NoRegisterBody? then
      Rejected(Response(500, ErrorDetails(ServerError, if development then NoBodyName else RegisterFailed)))
    else
      var RegisterForm(name, email, password) := body;
      match CheckForm(name, email, password)
      case Some(p) => Rejected(Response(400, p))
      case None =>
        if connectError.Some? then Rejected(RegisterFailure(connectError.value, development))
        else StoreResult(users, nextId, name, email, password, hash, now)
  }

  /** The part of the handler after connecting: the lookup by stored e-mail, the
      hash, then `User.create`, which validates the document against the schema.
      A user is added exactly on 201, valid, under a free address. */
  function StoreResult(users: map<string, User>, nextId: nat, name: string, email: string, password: string,
                       hash: string -> Option<string>, now: int): (o: RegisterOutcome)
    ensures o.response.status in {201, 400, 500}
    ensures o.added.Some? <==> o.response.status == 201
    ensures o.added.Some? ==>
      var u := o.added.value;
      && u.id == nextId && u.createdAt == now
      && u.email !in users
      && ValidUser(u)
      && u.name == StoredName(name) && u.email == StoredEmail(email)
      && hash(password) == Some(u.password)
      && o.response.payload == Registered(RegisteredMessage, Public(u))
  {
    if StoredEmail(email) in users then Rejected(Response(400, ErrorDetails(UserExists, UserExistsDetails)))
    else match hash(password)
      case None => Rejected(Response(500, ErrorDetails(HashFailed, HashFailedDetails)))
      case Some(hashed) =>
        var errors := SchemaErrors(name, email, hashed);
        if errors != [] then
          // a ValidationError: not code 11000, so rethrown to the outer catch
          Rejected(Response(400, ErrorDetails(ValidationFailed, Join(errors, ", "))))
        else
          var u := User(nextId, StoredName(name), StoredEmail(email), hashed, now);
          RegisterOutcome(Response(201, Registered(RegisteredMessage, Public(u))), Some(u))
  }

  /** An address already taken once normalised is never registered again, and
      the answer is the duplicate 400 as soon as the form and the connection are
      fine. */
  lemma RegisterRefusesTakenEmail(users: map<string, User>, nextId: nat, name: string, email: string, password: string,
                                  connectError: Option<Thrown>, hash: string -> Option<string>, now: int, development: bool)
    requires StoredEmail(email) in users
    ensures RegisterResult(users, nextId, "POST", RegisterForm(name, email, password), connectError, hash, now, development).added.None?
    ensures CheckForm(name, email, password).None? && connectError.None? ==>
      RegisterResult(users, nextId, "POST", RegisterForm(name, email, password), connectError, hash, now, development).response
      == Response(400, ErrorDetails(UserExists, UserExistsDetails))
  {
  }

  /** The three refusals after connecting, in order: a taken address, a failed
      hash, a document the schema rejects. */
  lemma StoreRefusals(users: map<string, User>, nextId: nat, name: string, email: string, password: string,
                      hash: string -> Option<string>, now: int)
    ensures StoredEmail(email) in users ==>
      StoreResult(users, nextId, name, email, password, hash, now) == Rejected(Response(400, ErrorDetails(UserExists, UserExistsDetails)))
    ensures StoredEmail(email) !in users && hash(password).None? ==>
      StoreResult(users, nextId, name, email, password, hash, now) == Rejected(Response(500, ErrorDetails(HashFailed, HashFailedDetails)))
    ensures StoredEmail(email) !in users && hash(password).Some? && SchemaErrors(name, email, hash(password).value) != [] ==>
      StoreResult(users, nextId, name, email, password, hash, now)
      == Rejected(Response(400, ErrorDetails(ValidationFailed, Join(SchemaErrors(name, email, hash(password).value), ", "))))
  {
  }

  /** A valid form from a reachable database with a working hash registers exactly
      when the address is free and the hash is long enough, but for a name that
      is too short once trimmed. */
  lemma RegisterSucceeds(users: map<string, User>, nextId: nat, name: string, email: string, password: string,
                         hash: string -> Option<string>, now: int, development: bool)
    requires CheckForm(name, email, password).None?
    requires StoredEmail(email) !in users
    requires |StoredName(name)| >= 2
    requires hash(password).Some? && |hash(password).value| >= 6
    ensures RegisterResult(users, nextId, "POST", RegisterForm(name, email, password), None, hash, now, development)
      == RegisterOutcome(Response(201, Registered(RegisteredMessage, PublicUser(nextId, StoredName(name), ToLower(email)))),
                         Some(User(nextId, StoredName(name), ToLower(email), hash(password).value, now)))
  {
    HandlerEmailPassesSchema(email);
    var hashed := hash(password).value;
    assert SchemaErrors(name, email, hashed) == [];
    StoreSucceeds(users, nextId, name, email, password, hash, now);
    RegisterReachesStore(users, nextId, name, email, password, hash, now, development);
  }

  /** A form the handler accepts, with the database reachable, is handed to the
      lookup and the insert. */
  lemma RegisterReachesStore(users: map<string, User>, nextId: nat, name: string, email: string, password: string,
                             hash: string -> Option<string>, now: int, development: bool)
    requires CheckForm(name, email, password).None?
    ensures RegisterResult(users, nextId, "POST", RegisterForm(name, email, password), None, hash, now, development)
            == StoreResult(users, nextId, name, email, password, hash, now)
  {
  }

  /** With a free address, a working hash and a document the schema accepts, the
      insert happens with exactly the stored fields. */
  lemma StoreSucceeds(users: map<string, User>, nextId: nat, name: string, email: string, password: string,
                      hash: string -> Option<string>, now: int)
    requires StoredEmail(email) !in users
    requires hash(password).Some? && SchemaErrors(name, email, hash(password).value) == []
    ensures var u := User(nextId, StoredName(name), StoredEmail(email), hash(password).value, now);
            StoreResult(users, nextId, name, email, password, hash, now)
            == RegisterOutcome(Response(201, Registered(RegisteredMessage, Public(u))), Some(u))
  {
  }

  // ---------------------------------------------------------------------------
  // Login (pages/api/auth/login.ts)

  /** `process.env.JWT_SECRET || 'your-secret-key'`. */
  function JwtSecret(configured: string): (r: string)
    ensures r != []
    ensures configured != [] ==> r == configured
  {
    if configured == [] then DefaultSecret else configured
  }

  /** The handler against the collection. `comparePassword` is the document method
      the handler calls, `None` because the schema defines none; `sign` makes the
      token for a user id under the secret. The lookup runs the schema's setters
      on the address, as in registration. Nothing is changed. */
  function Login(users: map<string, User>, verb: string, body: LoginBody, connectError: Option<Thrown>,
                 comparePassword: Option<(User, string) -> bool>, secret: string,
                 sign: (nat, string) -> string): (r: Response)
    ensures r.status in {200, 400, 401, 405, 500}
    ensures r.status == 200 <==>
      && verb == "POST" && body.LoginForm? && body.email != [] && body.password != []
      && connectError.None? && StoredEmail(body.email) in users
      && comparePassword.Some? && comparePassword.value(users[StoredEmail(body.email)], body.password)
    ensures r.status == 200 ==>
      r.payload == LoggedIn(sign(users[StoredEmail(body.email)].id, secret), Public(users[StoredEmail(body.email)]))
    ensures r.status == 401 ==> r.payload == Error(InvalidCredentials)
    ensures verb != "POST" ==> r == Response(405, Error(MethodNotAllowed))
    ensures verb == "POST" && body.NoLoginBody? ==> r == Response(500, ErrorDetails(LoginFailed, NoBodyEmail))
    ensures verb == "POST" && body.LoginForm? && (body.email == [] || body.password == []) ==> r == Response(400, Error(LoginMissing))
    ensures verb == "POST" && body.LoginForm? && body.email != [] && body.password != [] && connectError.Some? ==>
      var m := connectError.value.message;
      r == Response(500, ErrorDetails(LoginFailed, if m != [] then m else UnknownError))
  {
    if verb != "POST" then Response(405, Error(MethodNotAllowed))
    else if body.NoLoginBody? then Response(500, ErrorDetails(LoginFailed, NoBodyEmail))
    else if body.email == [] || body.password == [] then Response(400, Error(LoginMissing))
    else if connectError.Some? then
      Response(500, ErrorDetails(LoginFailed, if connectError.value.message != [] then connectError.value.message else UnknownError))
    else if StoredEmail(body.email) !in users then Response(401, Error(InvalidCredentials))
    else
      var user := users[StoredEmail(body.email)];
      match comparePassword
      case None => Response(500, ErrorDetails(LoginFailed, NotAFunction))
      case Some(compare) =>
        if !compare(user, body.password) then Response(401, Error(InvalidCredentials))
        else Response(200, LoggedIn(sign(user.id, secret), Public(user)))
  }

  /** An unknown address and a wrong password get the same answer, so a caller
      cannot tell which of the two it was. */
  lemma LoginFailuresLookAlike(users: map<string, User>, other: map<string, User>, email: string, password: string,
                               compare: (User, string) -> bool, secret: string, sign: (nat, string) -> string)
    requires email != [] && password != []
    requires StoredEmail(email) !in users
    requires StoredEmail(email) in other && !compare(other[StoredEmail(email)], password)
    ensures Login(users, "POST", LoginForm(email, password), None, Some(compare), secret, sign)
         == Login(other, "POST", LoginForm(email, password), None, Some(compare), secret, sign)
         == Response(401, Error(InvalidCredentials))
  {
  }

  /** AS WRITTEN: the schema defines no `comparePassword`, so the call throws a
      TypeError for every stored user and login never succeeds; a known address
      with both fields on a live connection always gets the 500. */
  lemma LoginAsWritten(users: map<string, User>, verb: string, body: LoginBody, connectError: Option<Thrown>,
                       secret: string, sign: (nat, string) -> string)
    ensures Login(users, verb, body, connectError, None, secret, sign).status != 200
    ensures verb == "POST" && body.LoginForm? && body.email != [] && body.password != []
            && connectError.None? && StoredEmail(body.email) in users ==>
              Login(users, verb, body, connectError, None, secret, sign) == Response(500, ErrorDetails(LoginFailed, NotAFunction))
  {
  }

  /** AS WRITTEN: someone who has just registered gets the 500 when logging in
      with the same address and password. */
  lemma RegisterThenLoginAsWritten(users: map<string, User>, nextId: nat, name: string, email: string, password: string,
                                   hash: string -> Option<string>, now: int, development: bool,
                                   secret: string, sign: (nat, string) -> string)
    requires RegisterResult(users, nextId, "POST", RegisterForm(name, email, password), None, hash, now, development).added.Some?
    ensures
      var u := RegisterResult(users, nextId, "POST", RegisterForm(name, email, password), None, hash, now, development).added.value;
      Login(users[u.email := u], "POST", LoginForm(email, password), None, None, secret, sign)
      == Response(500, ErrorDetails(LoginFailed, NotAFunction))
  {
  }

  /** CORRECTED: with a `comparePassword` on the schema that accepts the password
      for the stored hash, someone who has registered can log in with the same
      password under any spelling of the address that normalises to the stored
      one (other case, surrounding whitespace). */
  lemma RegisterThenLogin(users: map<string, User>, nextId: nat, name: string, email: string, password: string,
                          hash: string -> Option<string>, now: int, development: bool,
                          typed: string, compare: (User, string) -> bool, secret: string, sign: (nat, string) -> string)
    requires RegisterResult(users, nextId, "POST", RegisterForm(name, email, password), None, hash, now, development).added.Some?
    requires compare(RegisterResult(users, nextId, "POST", RegisterForm(name, email, password), None, hash, now, development).added.value, password)
    requires typed != [] && StoredEmail(typed) == StoredEmail(email)
    ensures
      var u := RegisterResult(users, nextId, "POST", RegisterForm(name, email, password), None, hash, now, development).added.value;
      Login(users[u.email := u], "POST", LoginForm(typed, password), None, Some(compare), secret, sign)
      == Response(200, LoggedIn(sign(nextId, secret), Public(u)))
  {
  }

  // ---------------------------------------------------------------------------
  // The collection

  /** Every document is filed under its own e-mail, satisfies the schema and has
      an id below `nextId`; no two share an id. */
  predicate ValidTable(users: map<string, User>, nextId: nat)
  {
    && (forall e :: e in users ==> users[e].email == e && ValidUser(users[e]) && users[e].id < nextId)
    && (forall e, f :: e in users && f in users && e != f ==> users[e].id != users[f].id)
  }

  /** Inserting a valid document under a free address with the next id keeps the
      collection well formed. */
  lemma InsertKeepsTableValid(users: map<string, User>, nextId: nat, u: User)
    requires ValidTable(users, nextId)
    requires u.email !in users && u.id == nextId && ValidUser(u)
    ensures ValidTable(users[u.email := u], nextId + 1)
  {
    var t := users[u.email := u];
    forall e, f | e in t && f in t && e != f ensures t[e].id != t[f].id {
      if e == u.email {
        assert t[f] == users[f];
      } else if f == u.email {
        assert t[e] == users[e];
      }
    }
  }


  /** The `users` collection: documents by stored e-mail (the unique index) and
      the id the next insert receives. */
  class UserTable {
    var users: map<string, User>
    var nextId: nat

    /** The collection is well formed; see `ValidTable`. */
    predicate Valid()
      reads this
    {
      ValidTable(users, nextId)
    }

    constructor ()
      ensures Valid() && users == map[] && nextId == 0
    {
      users := map[];
      nextId := 0;
    }

    /** The registration route: it looks the address up, hashes the password,
        then inserts the document, answering as `RegisterResult` says. */
    method Register(verb: string, body: RegisterBody, connectError: Option<Thrown>,
                    hash: string -> Option<string>, now: int, development: bool) returns (r: Response)
      requires Valid()
      modifies this
      ensures Valid()
      ensures var o := RegisterResult(old(users), old(nextId), verb, body, connectError, hash, now, development);
        && r == o.response
        && (o.added.None? ==> users == old(users) && nextId == old(nextId))
        && (o.added.Some? ==> users == old(users)[o.added.value.email := o.added.value] && nextId == old(nextId) + 1)
    {
      if verb == "OPTIONS" {
        return Response(200, NoContent);
      }
      if verb != "POST" {
        return Response(405, Error(MethodNotAllowed));
      }
      if body.NoRegisterBody? {
        return Response(500, ErrorDetails(ServerError, if development then NoBodyName else RegisterFailed));
      }
      var name, email, password := body.name, body.email, body.password;
      var invalid := CheckForm(name, email, password);
      if invalid.Some? {
        return Response(400, invalid.value);
      }
      if connectError.Some? {
        return RegisterFailure(connectError.value, development);
      }
      RegisterReachesStore(users, nextId, name, email, password, hash, now, development);
      r := Store(name, email, password, hash, now);
    }

    /** The lookup, the hash and the insert, answering as `StoreResult` says. */
    method Store(name: string, email: string, password: string, hash: string -> Option<string>, now: int)
      returns (r: Response)
      requires Valid()
      modifies this
      ensures Valid()
      ensures var o := StoreResult(old(users), old(nextId), name, email, password, hash, now);
        && r == o.response
        && (o.added.None? ==> users == old(users) && nextId == old(nextId))
        && (o.added.Some? ==> users == old(users)[o.added.value.email := o.added.value] && nextId == old(nextId) + 1)
    {
      StoreRefusals(users, nextId, name, email, password, hash, now);
      var key := StoredEmail(email);
      if key in users {
        return Response(400, ErrorDetails(UserExists, UserExistsDetails));
      }
      var hashedPassword := hash(password);
      if hashedPassword.None? {
        return Response(500, ErrorDetails(HashFailed, HashFailedDetails));
      }
      var errors := SchemaErrors(name, email, hashedPassword.value);
      if errors != [] {
        return Response(400, ErrorDetails(ValidationFailed, Join(errors, ", ")));
      }
      var user := User(nextId, StoredName(name), key, hashedPassword.value, now);
      StoreSucceeds(users, nextId, name, email, password, hash, now);
      SchemaAcceptsStored(nextId, name, email, hashedPassword.value, now);
      Insert(user);
      return Response(201, Registered(RegisteredMessage, Public(user)));
    }

    /** `User.create` once the document is accepted: it is filed under its free
        address with the next id. */
    method Insert(u: User)
      requires Valid() && u.email !in users && u.id == nextId && ValidUser(u)
      modifies this
      ensures Valid() && users == old(users)[u.email := u] && nextId == old(nextId) + 1
    {
      InsertKeepsTableValid(users, nextId, u);
      users := users[u.email := u];
      nextId := nextId + 1;
    }
  }
}
