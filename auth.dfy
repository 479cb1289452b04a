// The token service: issuing tokens (`UserToken`, `GetUserToken`) and deciding
// whether a presented token is live (`parseToken`, `ParseToken`). Signing,
// decoding and storing tokens are outside the model; their results are inputs.
module Auth {
  import opened Common

  datatype Config = Config(secret: string, expireDays: int, managerIds: set<string>)

  /** A stored token's state. */
  datatype TokenState = NormalToken | KickedToken | OtherTokenState(code: int)

  datatype Claims = Claims(userId: string, platformId: int, expiresAt: int)

  datatype Issued = Issued(token: string, expireTimeSeconds: int)

  const SecondsPerDay: int := 24 * 60 * 60

  /** `UserToken`. `userExists` is the user lookup, `created` the token the
      store creates. */
  function UserToken(config: Config, secret: string, userExists: bool, created: Result<string>): Result<Issued>
  {
    if secret != config.secret then Err(NoPermission)
    else if !userExists then Err(UserIdNotFound)
    else
      match created
      case Err(e) => Err(e)
      case Ok(token) => Ok(Issued(token, config.expireDays * 24 * 60 * 60))
  }

  /** `GetUserToken`: an admin fetches a token for a user who is not a manager.
      `callerIsAdmin` is the admin check on the caller. */
  function GetUserToken(config: Config, callerIsAdmin: bool, userId: string, userExists: bool,
                        created: Result<string>): Result<Issued>
  {
    if !callerIsAdmin then Err(NoPermission)
    else if userId in config.managerIds then Err(NoPermission)
    else if !userExists then Err(UserIdNotFound)
    else
      match created
      case Err(e) => Err(e)
      case Ok(token) => Ok(Issued(token, config.expireDays * 24 * 60 * 60))
  }

  /** A wrong secret is refused whatever else holds, and an issued token lives
      the configured number of days. */
  lemma UserTokenSpec(config: Config, secret: string, userExists: bool, created: Result<string>)
    ensures secret != config.secret ==> UserToken(config, secret, userExists, created) == Err(NoPermission)
    ensures UserToken(config, secret, userExists, created).Ok? <==>
      secret == config.secret && userExists && created.Ok?
    ensures UserToken(config, secret, userExists, created).Ok? ==>
      UserToken(config, secret, userExists, created).value ==
        Issued(created.value, config.expireDays * SecondsPerDay)
  {
  }

  /** Only an admin caller gets past the first check, and no token is ever
      handed out for a manager. For an admin asking about anyone else the
      answer is exactly `UserToken`'s with the right secret, so a token is
      issued exactly when the user exists and the store creates one, with the
      same lifetime. */
  lemma GetUserTokenSpec(config: Config, callerIsAdmin: bool, userId: string, userExists: bool,
                         created: Result<string>)
    ensures !callerIsAdmin ==>
      GetUserToken(config, callerIsAdmin, userId, userExists, created) == Err(NoPermission)
    ensures userId in config.managerIds ==>
      GetUserToken(config, callerIsAdmin, userId, userExists, created) == Err(NoPermission)
    ensures callerIsAdmin && userId !in config.managerIds ==>
      GetUserToken(config, callerIsAdmin, userId, userExists, created) ==
        UserToken(config, config.secret, userExists, created)
    ensures GetUserToken(config, callerIsAdmin, userId, userExists, created).Ok? <==>
      callerIsAdmin && userId !in config.managerIds && userExists && created.Ok?
  {
    UserTokenSpec(config, config.secret, userExists, created);
  }

  /** `parseToken`: `decoded` is the signature check and decoding of the token,
      `tokens` the tokens stored for the claimed user and platform. */
  function ParseTokenClaims(token: string, decoded: Result<Claims>, tokens: map<string, TokenState>): Result<Claims>
  {
    match decoded
    case Err(e) => Err(e)
    case Ok(claims) =>
      if |tokens| == 0 then Err(TokenNotExist)
      else if token in tokens then
        match tokens[token]
        case NormalToken => Ok(claims)
        case KickedToken => Err(TokenKicked)
        case OtherTokenState(_) => Err(TokenUnknown)
      else Err(TokenNotExist)
  }

  /** A decoded token is live exactly when it is stored as normal; a kicked one
      is reported kicked, one in any other state unknown, and one that is not
      stored (including when nothing is stored) as not existing. */
  lemma ParseTokenDecision(token: string, claims: Claims, tokens: map<string, TokenState>)
    ensures ParseTokenClaims(token, Ok(claims), tokens) == Ok(claims) <==>
      token in tokens && tokens[token] == NormalToken
    ensures token !in tokens ==> ParseTokenClaims(token, Ok(claims), tokens) == Err(TokenNotExist)
    ensures token in tokens && tokens[token] == KickedToken ==>
      ParseTokenClaims(token, Ok(claims), tokens) == Err(TokenKicked)
    ensures token in tokens && tokens[token].OtherTokenState? ==>
      ParseTokenClaims(token, Ok(claims), tokens) == Err(TokenUnknown)
  {
    if token !in tokens && |tokens| != 0 {
      assert ParseTokenClaims(token, Ok(claims), tokens) == Err(TokenNotExist);
    }
  }

  datatype Parsed = Parsed(userId: string, platform: string, expireTimeSeconds: int)

  /** `ParseToken`: the user, the platform's name (`platformName`, the
      protocol's table) and the expiry of a live token. */
  function ParseToken(token: string, decoded: Result<Claims>, tokens: map<string, TokenState>,
                      platformName: int -> string): (r: Result<Parsed>)
    ensures r.Ok? <==> ParseTokenClaims(token, decoded, tokens).Ok?
    ensures r.Ok? ==> r.value == Parsed(decoded.value.userId, platformName(decoded.value.platformId),
                                        decoded.value.expiresAt)
  {
    match ParseTokenClaims(token, decoded, tokens)
    case Err(e) => Err(e)
    case Ok(claims) => Ok(Parsed(claims.userId, platformName(claims.platformId), claims.expiresAt))
  }
}
