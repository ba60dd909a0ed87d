/**
 * routes/auth.py: registration with a hashed password, and login issuing a one-hour JWT
 * whose claims are the username and the account's role.
 *
 * bcrypt and the JWT signature are parameters: `hash` gives the stored hash of a password,
 * `verify(plain, hashed)` answers whether they match (None where passlib raises on a hash it
 * cannot identify), `encode` signs a claim set. `now` is the current time in seconds.
 */
module Auth {
  import opened Values
  import opened ObjectIds
  import opened Http
  import opened Store
  import Tasks
  import Projects
  import Presets
  import TaskReport

  /** `ACCESS_TOKEN_EXPIRE_MINUTES`, in seconds. */
  const TokenLifetime := 60 * 60

  const ErrUserExists := HttpError(400, "Utilizador já existe.")
  const ErrBadCredentials := HttpError(400, "Credenciais inválidas")
  const RegisteredMessage := "Utilizador criado com sucesso!"

  type Hasher = string -> string
  type Verifier = (string, string) -> Option<bool>
  type Encoder = Claims -> string

  /** A claim set that create_access_token updates in place. */
  class ClaimSet {
    var entries: Claims

    constructor (entries: Claims)
      ensures this.entries == entries
    {
      this.entries := entries;
    }

    /** create_access_token: add the expiry one hour from `now` to the claims, then sign them. */
    method CreateAccessToken(now: int, encode: Encoder) returns (token: string)
      modifies this
      ensures entries == WithExpiry(old(entries), now)
      ensures token == encode(entries)
    {
      entries := entries["exp" := Time(now + TokenLifetime)];
      token := encode(entries);
    }
  }

  /** The claims with `exp` set to one hour after `now`; every other claim unchanged. */
  function WithExpiry(claims: Claims, now: int): (r: Claims)
    ensures r.Keys == claims.Keys + {"exp"}
    ensures r["exp"] == Time(now + TokenLifetime)
    ensures forall k :: k in claims && k != "exp" ==> r[k] == claims[k]
  {
    claims["exp" := Time(now + TokenLifetime)]
  }

  /** The role an account acts with: its `role` field, "user" when it has none. */
  function AccountRole(account: Doc): (r: Value)
    ensures "role" in account ==> r == account["role"]
    ensures "role" !in account ==> r == Str("user")
  {
    Get(account, "role", Str("user"))
  }

  /** The claims login signs for `username`. */
  function LoginClaims(username: string, account: Doc, now: int): (c: Claims)
    ensures c.Keys == {"sub", "role", "exp"}
    ensures c["sub"] == Str(username) && c["role"] == AccountRole(account) && c["exp"] == Time(now + TokenLifetime)
  {
    map["sub" := Str(username), "role" := AccountRole(account), "exp" := Time(now + TokenLifetime)]
  }

  /** Login signs exactly what create_access_token would sign for the username and role. */
  lemma LoginClaimsAreAccessTokenClaims(username: string, account: Doc, now: int)
    ensures LoginClaims(username, account, now) == WithExpiry(map["sub" := Str(username), "role" := AccountRole(account)], now)
  {
  }

  datatype LoginResponse = LoginResponse(accessToken: string, username: Value, role: Value)

  /**
   * login: an unknown username or a wrong password is 400; an account without a `password`
   * field, or with a stored password passlib cannot read, raises (500); otherwise the token
   * and the account's username and role are answered.
   */
  function LoginResult(users: Table, username: string, password: string, verify: Verifier, encode: Encoder, now: int)
    : (r: Result<LoginResponse>)
    ensures FindOne(users, map["username" := Str(username)]).None? ==> r == Err(ErrBadCredentials)
    ensures FindOne(users, map["username" := Str(username)]).Some? ==>
      var account := FindOne(users, map["username" := Str(username)]).value.1;
      && ("password" !in account || (!account["password"].Null? && !account["password"].Str?) ==>
            r == Err(InternalError))
      && ("password" in account && account["password"].Str? && verify(password, account["password"].s).None? ==>
            r == Err(InternalError))
      && ("password" in account && account["password"].Null? ==> r == Err(ErrBadCredentials))
      && ("password" in account && account["password"].Str? && verify(password, account["password"].s) == Some(false) ==>
            r == Err(ErrBadCredentials))
    ensures r.Ok? <==>
      && FindOne(users, map["username" := Str(username)]).Some?
      && var account := FindOne(users, map["username" := Str(username)]).value.1;
      && "password" in account && account["password"].Str?
      && verify(password, account["password"].s) == Some(true)
    ensures r.Ok? ==>
      && FindOne(users, map["username" := Str(username)]).Some?
      && var account := FindOne(users, map["username" := Str(username)]).value.1;
      && "password" in account && account["password"].Str?
      && verify(password, account["password"].s) == Some(true)
      && r.value == LoginResponse(encode(LoginClaims(username, account, now)), Get(account, "username", Null), AccountRole(account))
    ensures r.Err? ==> r.error == ErrBadCredentials || r.error == InternalError
  {
    match FindOne(users, map["username" := Str(username)])
    case None => Err(ErrBadCredentials)
    case Some(row) =>
      var account := row.1;
      if "password" !in account then Err(InternalError)
      else if account["password"].Null? then Err(ErrBadCredentials)
      else if !account["password"].Str? then Err(InternalError)
      else
        match verify(password, account["password"].s)
        case None => Err(InternalError)
        case Some(false) => Err(ErrBadCredentials)
        case Some(true) =>
          Ok(LoginResponse(encode(LoginClaims(username, account, now)), Get(account, "username", Null), AccountRole(account)))
  }

  /** The first account with the username carries that username. */
  lemma FoundAccountHasUsername(users: Table, username: string)
    requires Valid(users)
    ensures FindOne(users, map["username" := Str(username)]).Some? ==>
      var account := FindOne(users, map["username" := Str(username)]).value.1;
      "username" in account && account["username"] == Str(username)
  {
    var f := map["username" := Str(username)];
    FindSpec(users, EqFilter(f), NoRegex);
    var found := FindEq(users, f);
    if found != [] {
      assert found[0] in found;
      assert "username" in EqFilter(f);
    }
  }

  /** A successful login answers the very username that logged in. */
  lemma LoginAnswersUsername(users: Table, username: string, password: string, verify: Verifier, encode: Encoder, now: int)
    requires Valid(users)
    ensures var r := LoginResult(users, username, password, verify, encode, now);
      r.Ok? ==> r.value.username == Str(username)
  {
    FoundAccountHasUsername(users, username);
  }

  /** login, reading the account from the store. */
  method Login(users: Collection, username: string, password: string, verify: Verifier, encode: Encoder, now: int)
    returns (r: Result<LoginResponse>)
    ensures r == LoginResult(users.View(), username, password, verify, encode, now)
  {
    var dbUser := users.FindOneMatching(map["username" := Str(username)]);
    if dbUser.None? {
      return Err(ErrBadCredentials);
    }
    var account := dbUser.value.1;
    if "password" !in account {
      return Err(InternalError);
    }
    var stored := account["password"];
    if stored.Null? {
      return Err(ErrBadCredentials);
    }
    if !stored.Str? {
      return Err(InternalError);
    }
    var ok := verify(password, stored.s);
    if ok.None? {
      return Err(InternalError);
    }
    if !ok.value {
      return Err(ErrBadCredentials);
    }
    var toEncode := LoginClaims(username, account, now);
    var accessToken := encode(toEncode);
    r := Ok(LoginResponse(accessToken, Get(account, "username", Null), AccountRole(account)));
  }

  /** The account register stores: the username and the password's hash, and nothing else. */
  function NewAccount(username: string, password: string, hash: Hasher): (r: Doc)
    ensures r.Keys == {"username", "password"}
    ensures r["username"] == Str(username) && r["password"] == Str(hash(password))
  {
    map["username" := Str(username), "password" := Str(hash(password))]
  }

  /** register: 400 when an account with the username exists; otherwise the new account is stored. */
  method Register(users: Collection, username: string, password: string, hash: Hasher, newId: Oid) returns (r: Result<string>)
    requires newId !in users.rows
    modifies users
    ensures FindOne(old(users.View()), map["username" := Str(username)]).Some? ==>
      r == Err(ErrUserExists) && users.View() == old(users.View())
    ensures FindOne(old(users.View()), map["username" := Str(username)]).None? ==>
      && users.View() == Insert(old(users.View()), newId, NewAccount(username, password, hash))
      && r == Ok(RegisteredMessage)
  {
    var existing := users.FindOneMatching(map["username" := Str(username)]);
    if existing.Some? {
      return Err(ErrUserExists);
    }
    var hashed := hash(password);
    users.InsertOne(newId, map["username" := Str(username), "password" := Str(hashed)]);
    r := Ok(RegisteredMessage);
  }

  /** Usernames that registration has let in are unique. */
  ghost predicate UniqueUsernames(users: Table) {
    forall a, b :: a in users.rows && b in users.rows && a != b && "username" in users.rows[a] && "username" in users.rows[b] ==>
      users.rows[a]["username"] != users.rows[b]["username"]
  }

  /** Registration keeps usernames unique. */
  lemma RegisterKeepsUnique(users: Table, username: string, password: string, hash: Hasher, id: Oid)
    requires Valid(users) && UniqueUsernames(users) && id !in users.rows
    requires FindOne(users, map["username" := Str(username)]).None?
    ensures UniqueUsernames(Insert(users, id, NewAccount(username, password, hash)))
  {
    NoAccountNamed(users, username);
    var after := Insert(users, id, NewAccount(username, password, hash));
    assert after.rows == users.rows[id := NewAccount(username, password, hash)];
  }

  /** The username query matches exactly the accounts holding that username. */
  lemma UsernameFilterMatches(username: string, d: Doc)
    ensures Matches(EqFilter(map["username" := Str(username)]), d, NoRegex) <==> "username" in d && d["username"] == Str(username)
  {
    assert "username" in EqFilter(map["username" := Str(username)]);
  }

  /** When the username query finds nothing, no stored account holds that username. */
  lemma NoAccountNamed(users: Table, username: string)
    requires Valid(users) && FindOne(users, map["username" := Str(username)]).None?
    ensures forall a :: a in users.rows && "username" in users.rows[a] ==> users.rows[a]["username"] != Str(username)
  {
    var f := map["username" := Str(username)];
    FindSpec(users, EqFilter(f), NoRegex);
    forall a | a in users.rows && "username" in users.rows[a] ensures users.rows[a]["username"] != Str(username) {
      UsernameFilterMatches(username, users.rows[a]);
      assert (a, users.rows[a]) !in FindEq(users, f);
    }
  }

  /**
   * A fresh registration can log in at once with the same password: the account found is the
   * new one, its role is the default "user", and the token is signed for that username.
   */
  lemma RegisterThenLogin(users: Table, username: string, password: string, hash: Hasher, verify: Verifier,
                          encode: Encoder, now: int, id: Oid)
    requires Valid(users) && id !in users.rows
    requires FindOne(users, map["username" := Str(username)]).None?
    requires verify(password, hash(password)) == Some(true)
    ensures var after := Insert(users, id, NewAccount(username, password, hash));
      LoginResult(after, username, password, verify, encode, now) ==
        Ok(LoginResponse(encode(LoginClaims(username, NewAccount(username, password, hash), now)), Str(username), Str("user")))
  {
    var f := map["username" := Str(username)];
    var account := NewAccount(username, password, hash);
    FindAfterInsert(users, id, account, EqFilter(f), NoRegex);
    UsernameFilterMatches(username, account);
    assert FindEq(users, f) == [];
    assert FindEq(Insert(users, id, account), f) == [(id, account)];
  }

  /**
   * The token login answers is accepted by every guard it is presented to, as long as the
   * decoder gives back the signed claims: the shared task dependency, the project and preset
   * guards (with `sub` the username) and the report (exactly when the role is "admin").
   */
  lemma LoginTokenAuthenticates(h: Headers, decode: Decoder, username: string, account: Doc, now: int, token: string)
    requires username != "" && ' ' !in token
    requires Header(h, "authorization") == Some("Bearer " + token)
    requires decode(token) == Some(LoginClaims(username, account, now))
    ensures Tasks.GetCurrentUserFull(h, decode) == Ok(Tasks.Identity(Str(username), AccountRole(account)))
    ensures Projects.ProjectsCaller(h, decode) == Ok(Str(username))
    ensures Presets.PresetsCaller(h, decode) == Ok(Str(username))
    ensures TaskReport.AdminCheck(h, decode).Ok? <==> AccountRole(account) == Str("admin")
  {
    BearerRoundTrip(h, token);
  }
}
