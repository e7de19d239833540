/** The credential service: registration, login and token verification with
    refresh, over the `user` table of the database. */
module Auth {

  import opened Json
  import opened PasswordHasher
  import opened TokenCodec

  /** The bcrypt cost factor used at registration. */
  const SaltRounds: nat := 10

  const UserExists := "User already exists"
  const InvalidCredentials := "User/Password not valid"
  const InvalidToken := "Invalid token"

  /** A row of the `user` table. `password` holds the bcrypt hash. */
  datatype User = User(id: nat, email: string, name: string, password: string)

  /** The answer of an operation: `{ user, token }` on success, otherwise the
      `status` and `message` of the exception it throws. */
  datatype Outcome = Ok(user: Object, token: string) | Err(status: int, message: string)

  /** The row as the ORM returns it: one property per column. */
  function Row(u: User): Object {
    map["id" := Int(u.id), "email" := Str(u.email), "name" := Str(u.name), "password" := Str(u.password)]
  }

  /** `const { password: __, ...rest } = user`: the public fields of a row,
      with none of the claims that verification strips. */
  function WithoutPassword(u: User): (rest: Object)
    ensures "password" !in rest
    ensures rest.Keys == {"id", "email", "name"}
    ensures rest["id"] == Int(u.id) && rest["email"] == Str(u.email) && rest["name"] == Str(u.name)
    ensures rest.Keys !! StrippedClaims
  {
    Rest(Row(u), {"password"})
  }

  /** Every row is filed under its own email, and ids are unique and below
      `nextId`, the id the table gives to the next row it creates. */
  ghost predicate TableValid(users: map<string, User>, nextId: nat) {
    (forall e :: e in users ==> users[e].email == e && users[e].id < nextId) &&
    (forall e, e' :: e in users && e' in users && users[e].id == users[e'].id ==> e == e')
  }

  class AuthService {

    /** The `user` table, keyed by its unique `email` column. */
    var users: map<string, User>
    /** The id the table gives to the next row it creates. */
    var nextId: nat

    const hasher: Hasher
    const codec: Codec

    /** The invariant of the table: see `TableValid`. */
    ghost predicate Valid()
      reads this
    {
      TableValid(users, nextId)
    }

    /** A service over an existing `user` table: `super()` opens the client
        on whatever rows the table already holds. `hasher` is bcrypt, which
        the source imports; `codec` is the injected `JwtService`. */
    constructor (hasher: Hasher, codec: Codec, users: map<string, User>, nextId: nat)
      requires TableValid(users, nextId)
      ensures Valid()
      ensures this.hasher == hasher && this.codec == codec
      ensures this.users == users && this.nextId == nextId
    {
      this.hasher := hasher;
      this.codec := codec;
      this.users := users;
      this.nextId := nextId;
    }

    /** `signJWT`: a token over `payload`, which a sound codec verifies back
        to the same fields. */
    function SignJwt(payload: Object): (r: SignResult)
      ensures RoundTrips(codec) && r.Signed? ==>
        codec.verify(r.token).Some? &&
        Rest(codec.verify(r.token).value, StrippedClaims) == Rest(payload, StrippedClaims)
    {
      codec.sign(payload)
    }

    /** `verifyToken`: the verified payload without `sub`, `iat` and `exp`,
        and a fresh token over exactly those fields. Every failure gives the
        same 401 answer. The user table is not consulted. */
    function VerifyToken(token: string): (r: Outcome)
      ensures codec.verify(token).None? ==> r == Err(401, InvalidToken)
      ensures r.Err? ==> r == Err(401, InvalidToken)
      ensures r.Ok? ==>
        codec.verify(token).Some? &&
        r.user == Rest(codec.verify(token).value, StrippedClaims) &&
        codec.sign(r.user) == Signed(r.token)
      ensures r.Ok? ==> r.user.Keys !! StrippedClaims
      ensures codec.verify(token).Some? && codec.sign(Rest(codec.verify(token).value, StrippedClaims)).Signed? ==> r.Ok?
    {
      match codec.verify(token)
      case None => Err(401, InvalidToken)
      case Some(claims) =>
        var user := Rest(claims, StrippedClaims);
        match SignJwt(user)
        case Signed(t) => Ok(user, t)
        case SignFailed(_) => Err(401, InvalidToken)
    }

    /** `registerUser`: refuses an email that is already taken, otherwise
        creates the row with the hashed password and answers with its public
        fields and a token over them. The row stays created even when signing
        then fails. */
    method RegisterUser(email: string, name: string, password: string, salt: string) returns (r: Outcome)
      requires Valid()
      modifies this
      ensures Valid()
      ensures old(email in users) ==>
        r == Err(400, UserExists) && users == old(users) && nextId == old(nextId)
      ensures old(email !in users) ==>
        var u := User(old(nextId), email, name, hasher.hash(password, SaltRounds, salt));
        users == old(users)[email := u] && |users| == |old(users)| + 1 && nextId == old(nextId) + 1 &&
        (r.Ok? <==> codec.sign(WithoutPassword(u)).Signed?) &&
        (r.Ok? ==> r.user == WithoutPassword(u) && codec.sign(r.user) == Signed(r.token)) &&
        (r.Err? ==> r == Err(400, codec.sign(WithoutPassword(u)).message))
    {
      if email in users {
        return Err(400, UserExists);
      }
      var newUser := User(nextId, email, name, hasher.hash(password, SaltRounds, salt));
      users := users[email := newUser];
      nextId := nextId + 1;
      var rest := WithoutPassword(newUser);
      match SignJwt(rest) {
        case Signed(token) => r := Ok(rest, token);
        case SignFailed(message) => r := Err(400, message);
      }
    }

    /** `loginUser`: succeeds exactly when the email is registered and the
        password matches its stored hash (and signing succeeds); an unknown
        email and a wrong password give the same answer. */
    function LoginUser(email: string, password: string): (r: Outcome)
      reads this
      ensures r.Ok? <==>
        email in users && hasher.compare(password, users[email].password) &&
        codec.sign(WithoutPassword(users[email])).Signed?
      ensures r.Ok? ==>
        r.user == WithoutPassword(users[email]) && codec.sign(r.user) == Signed(r.token)
      ensures Valid() && r.Ok? ==> r.user["email"] == Str(email)
      ensures email !in users || !hasher.compare(password, users[email].password) ==>
        r == Err(400, InvalidCredentials)
      ensures r.Err? ==> r.status == 400
      ensures (email in users && hasher.compare(password, users[email].password) &&
               codec.sign(WithoutPassword(users[email])).SignFailed?) ==>
        r == Err(400, codec.sign(WithoutPassword(users[email])).message)
    {
      if email !in users then Err(400, InvalidCredentials)
      else
        var user := users[email];
        if !hasher.compare(password, user.password) then Err(400, InvalidCredentials)
        else
          var rest := WithoutPassword(user);
          match SignJwt(rest)
          case Signed(t) => Ok(rest, t)
          case SignFailed(message) => Err(400, message)
    }
  }

  /** An unknown email and a known email with a wrong password cannot be
      told apart by the answer. */
  lemma LoginNoEnumeration(s: AuthService, unknown: string, p: string, known: string, wrong: string)
    requires unknown !in s.users
    requires known in s.users && !s.hasher.compare(wrong, s.users[known].password)
    ensures s.LoginUser(unknown, p) == s.LoginUser(known, wrong)
    ensures s.LoginUser(unknown, p) == Err(400, InvalidCredentials)
  {
  }

  /** A row registered with a password can be logged into with that password:
      the login answers with its public fields unless signing fails. */
  lemma LoginAfterRegister(s: AuthService, email: string, password: string, salt: string)
    requires Sound(s.hasher)
    requires email in s.users && s.users[email].password == s.hasher.hash(password, SaltRounds, salt)
    ensures s.codec.sign(WithoutPassword(s.users[email])).Signed? ==>
      s.LoginUser(email, password).Ok? && s.LoginUser(email, password).user == WithoutPassword(s.users[email])
    ensures s.LoginUser(email, password).Err? ==>
      s.LoginUser(email, password) == Err(400, s.codec.sign(WithoutPassword(s.users[email])).message)
  {
  }

  /** A token signed over a payload without `sub`, `iat` and `exp` verifies to
      that payload, and is refreshed into a token over the same payload. */
  lemma VerifyAfterSign(s: AuthService, payload: Object)
    requires RoundTrips(s.codec)
    requires s.codec.sign(payload).Signed? && payload.Keys !! StrippedClaims
    ensures s.VerifyToken(s.codec.sign(payload).token).Ok?
    ensures s.VerifyToken(s.codec.sign(payload).token).user == payload
  {
    var claims := s.codec.verify(s.codec.sign(payload).token).value;
    RestOfDisjoint(payload, StrippedClaims);
    assert Rest(claims, StrippedClaims) == payload;
  }

  /** The token a login hands out verifies to the same user. */
  lemma VerifyAfterLogin(s: AuthService, email: string, password: string)
    requires RoundTrips(s.codec)
    requires s.LoginUser(email, password).Ok?
    ensures s.VerifyToken(s.LoginUser(email, password).token).Ok?
    ensures s.VerifyToken(s.LoginUser(email, password).token).user == s.LoginUser(email, password).user
  {
    VerifyAfterSign(s, s.LoginUser(email, password).user);
  }

  /** Refreshing a refreshed token keeps the user fields. */
  lemma RefreshKeepsUser(s: AuthService, token: string)
    requires RoundTrips(s.codec)
    requires s.VerifyToken(token).Ok?
    ensures s.VerifyToken(s.VerifyToken(token).token).Ok?
    ensures s.VerifyToken(s.VerifyToken(token).token).user == s.VerifyToken(token).user
  {
    VerifyAfterSign(s, s.VerifyToken(token).user);
  }

  /** Two different emails that both log in get users with different ids,
      so a user's public fields name one row of the table. */
  lemma LoginDistinguishesUsers(s: AuthService, email: string, password: string, email': string, password': string)
    requires s.Valid()
    requires s.LoginUser(email, password).Ok? && s.LoginUser(email', password').Ok?
    requires email != email'
    ensures s.LoginUser(email, password).user["id"] != s.LoginUser(email', password').user["id"]
  {
  }

  /** Verification answers from the token and the codec alone: two services
      sharing a codec answer alike whatever their user tables hold, so a
      token outlives the deletion of its user until it expires. */
  lemma VerifyIgnoresStore(s: AuthService, s': AuthService, token: string)
    requires s.codec == s'.codec
    ensures s.VerifyToken(token) == s'.VerifyToken(token)
  {
  }

  /** Register and then log in with the same credentials: both answer with
      the same public fields. */
  method RegisterThenLogin(s: AuthService, email: string, name: string, password: string, salt: string)
    returns (registered: Outcome, loggedIn: Outcome)
    requires s.Valid() && Sound(s.hasher)
    modifies s
    ensures registered.Ok? ==> loggedIn.Ok? && loggedIn.user == registered.user
    ensures registered.Ok? ==> "password" !in loggedIn.user
  {
    registered := s.RegisterUser(email, name, password, salt);
    loggedIn := s.LoginUser(email, password);
    if registered.Ok? {
      LoginAfterRegister(s, email, password, salt);
    }
  }

  /** Registering the same email twice: the second attempt is refused and
      creates no second row. */
  method RegisterTwice(s: AuthService, email: string, name: string, password: string, salt: string,
                       name': string, password': string, salt': string)
    returns (first: Outcome, second: Outcome)
    requires s.Valid()
    modifies s
    ensures second == Err(400, UserExists)
    ensures s.users ==
      if email in old(s.users) then old(s.users)
      else old(s.users)[email := User(old(s.nextId), email, name, s.hasher.hash(password, SaltRounds, salt))]
  {
    first := s.RegisterUser(email, name, password, salt);
    var afterFirst := s.users;
    second := s.RegisterUser(email, name', password', salt');
    assert s.users == afterFirst;
  }
}
