/**
 * AuthService: registration, login, token issue and refresh over the user service. JWT signing
 * is a free constructor `Signed(claims, secret, expiresIn)`; verification, which depends on the
 * clock, is a parameter `verify(token, secret)` whose `Err` stands for a bad or expired token.
 * Configuration values are fields of `AuthConfig`, `""` when unset.
 */
module AuthService {
  import opened Wrappers
  import opened Enums
  import opened Js
  import opened ExceptionHelper
  import opened UserService

  /** The token payload `{sub, email, userType}`. */
  datatype Claims = Claims(sub: string, email: string, userType: UserType)

  datatype JwtToken = Signed(claims: Claims, secret: string, expiresIn: string) | Malformed(text: string)

  datatype Tokens = Tokens(access: JwtToken, refresh: JwtToken)

  /** The user part of every auth response: id, name and email only. */
  datatype PublicUser = PublicUser(id: string, name: string, email: string)

  datatype AuthResponse = AuthResponse(user: PublicUser, tokens: Option<Tokens>)

  datatype AuthConfig = AuthConfig(jwtSecret: string, jwtExpiresIn: string)

  datatype LoginDto = LoginDto(email: string, password: string)

  const InvalidEmail := DefaultError("Invalid email", "INVALID_EMAIL", 401, Undefined)
  const InvalidPassword := DefaultError("Invalid password", "INVALID_PASSWORD", 401, Undefined)
  const InvalidRefreshToken := DefaultError("Invalid or expired refresh token", "INVALID_REFRESH_TOKEN", 401, Undefined)

  function ClaimsOf(u: UserRecord): Claims {
    Claims(u.id, u.email, u.userType)
  }

  function PublicOf(u: UserRecord): PublicUser {
    PublicUser(u.id, u.name, u.email)
  }

  /** `generateTokens(metadata, expiresIn)`: signed with `JWT_SECRET`. */
  function GenerateTokens(claims: Claims, expiresIn: string, config: AuthConfig): (t: JwtToken)
    ensures t.Signed? && t.claims == claims && t.secret == config.jwtSecret && t.expiresIn == expiresIn
  {
    Signed(claims, config.jwtSecret, expiresIn)
  }

  /** `generateAuthTokens`: both tokens carry the user's `{sub, email, userType}` and the same
    * secret; the access token lasts `JWT_EXPIRES_IN`, or `7d` when that is unset, and the
    * refresh token always `30d`. */
  function GenerateAuthTokens(u: UserRecord, config: AuthConfig): (t: Tokens)
    ensures t.access.Signed? && t.refresh.Signed?
    ensures t.access.claims == t.refresh.claims == Claims(u.id, u.email, u.userType)
    ensures t.access.secret == t.refresh.secret == config.jwtSecret
    ensures t.access.expiresIn == (if config.jwtExpiresIn != "" then config.jwtExpiresIn else "7d")
    ensures t.refresh.expiresIn == "30d"
  {
    var claims := ClaimsOf(u);
    var expiresIn := if config.jwtExpiresIn != "" then config.jwtExpiresIn else "7d";
    Tokens(GenerateTokens(claims, expiresIn, config), GenerateTokens(claims, "30d", config))
  }

  /** `register`: a failure of user creation is passed on unchanged and no token is made;
    * otherwise the response holds the new user's public fields and a fresh token pair. */
  method Register(users: UserService, dto: CreateUserDto, newId: string, config: AuthConfig)
    returns (r: Result<AuthResponse, HttpException>)
    requires users.Valid()
    requires newId != "" && newId !in users.issued
    modifies users
    ensures users.Valid()
    ensures old(users.FindByEmail(dto.email)).Some? ==> r == Err(UserAlreadyExists) && users.users == old(users.users)
    ensures old(users.FindByEmail(dto.email)).None? ==>
      var u := UserRecord(newId, Text.Trim(dto.name), Text.Trim(dto.email), HashPassword(dto.password), UserType.User, None);
      && users.users == old(users.users)[newId := u]
      && r == Ok(AuthResponse(PublicOf(u), Some(GenerateAuthTokens(u, config))))
  {
    var created := users.Create(dto, newId);
    if created.Err? {
      return Err(created.error);
    }
    var user := created.value;
    var response := AuthResponse(PublicOf(user), None);
    response := response.(tokens := Some(GenerateAuthTokens(user, config)));
    r := Ok(response);
  }

  /** `login`: INVALID_EMAIL/401 for an unknown email, INVALID_PASSWORD/401 for a wrong
    * password, otherwise the user's public fields and a fresh token pair. */
  function Login(users: UserService, dto: LoginDto, config: AuthConfig): (r: Result<AuthResponse, HttpException>)
    requires users.Valid()
    reads users
    ensures r == Err(InvalidEmail) <==> users.FindByEmail(dto.email).None?
    ensures r == Err(InvalidPassword) <==>
      users.FindByEmail(dto.email).Some? && !ComparePassword(dto.password, users.FindByEmail(dto.email).value.password)
    ensures r.Err? ==> r.error.status == 401
    ensures r.Ok? ==>
      var u := users.FindByEmail(dto.email).value;
      && u.email == dto.email && ComparePassword(dto.password, u.password)
      && r.value == AuthResponse(PublicOf(u), Some(GenerateAuthTokens(u, config)))
  {
    match users.IsActiveByEmail(dto.email)
    case None => Err(InvalidEmail)
    case Some(u) =>
      if !ComparePassword(dto.password, u.password) then Err(InvalidPassword)
      else Ok(AuthResponse(PublicOf(u), Some(GenerateAuthTokens(u, config))))
  }

  /** `validateUser`: the user or null. */
  function ValidateUser(users: UserService, userId: string): (r: Option<UserRecord>)
    reads users
    ensures r.Some? <==> userId in users.users
    ensures r.Some? ==> r.value == users.users[userId]
  {
    users.FindById(userId)
  }

  /** `refreshToken`: every failure, a token that does not verify as well as a user that no
    * longer exists, comes out as INVALID_REFRESH_TOKEN/401; otherwise the user's public fields
    * and a fresh token pair. */
  function RefreshToken(users: UserService, token: JwtToken, config: AuthConfig,
    verify: (JwtToken, string) -> Result<Claims, string>): (r: Result<AuthResponse, HttpException>)
    reads users
    ensures r.Err? ==> r.error == InvalidRefreshToken
    ensures r.Ok? <==> verify(token, config.jwtSecret).Ok? && verify(token, config.jwtSecret).value.sub in users.users
    ensures r.Ok? ==>
      var u := users.users[verify(token, config.jwtSecret).value.sub];
      r.value == AuthResponse(PublicOf(u), Some(GenerateAuthTokens(u, config)))
  {
    match verify(token, config.jwtSecret)
    case Err(_) => Err(InvalidRefreshToken)
    case Ok(payload) =>
      match users.FindById(payload.sub)
      case None => Err(InvalidRefreshToken)
      case Some(u) => Ok(AuthResponse(PublicOf(u), Some(GenerateAuthTokens(u, config))))
  }

  /** A user who logs in with the password the stored hash was made from gets in, whatever else
    * is in the table. */
  lemma LoginWithOwnPassword(users: UserService, email: string, password: string, config: AuthConfig)
    requires users.Valid()
    requires users.FindByEmail(email).Some? && users.FindByEmail(email).value.password == HashPassword(password)
    ensures Login(users, LoginDto(email, password), config).Ok?
  {
    HashRoundTrip(password, password);
  }

  /** With a verifier that accepts the tokens this service signs (until they expire), the
    * refresh token issued to a stored user refreshes to that same user with new tokens. */
  lemma RefreshOfIssuedToken(users: UserService, u: UserRecord, config: AuthConfig,
    verify: (JwtToken, string) -> Result<Claims, string>)
    requires u.id in users.users && users.users[u.id] == u
    requires var t := GenerateAuthTokens(u, config).refresh;
      verify(t, config.jwtSecret) == Ok(t.claims)
    ensures var r := RefreshToken(users, GenerateAuthTokens(u, config).refresh, config, verify);
      r.Ok? && r.value.user == PublicOf(u) && r.value.tokens == Some(GenerateAuthTokens(u, config))
  {
  }
}
