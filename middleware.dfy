/** backend/middleware/auth.go: the JWT authentication chain, the admin check behind it and the
    claims a token is signed with. Parsing and signing tokens are foreign: `verify` stands for
    `jwt.Parse` with the handler's key function, `sign` for `SignedString`. */
module Middleware {
  import opened Wrappers
  import opened Text
  import opened Models

  /** Seven days, the lifetime of a token. */
  const TokenLifetime: int := 7 * 24 * 3600

  /** The only signing method GenerateToken uses. */
  const HS256 := "HS256"

  const BearerPrefix := "Bearer "

  /** The claims GenerateToken puts in a token; `exp` is a Unix time in seconds. */
  datatype Claims = Claims(userId: nat, username: string, role: string, exp: int)

  /** What `jwt.Parse` with the key function yields. `Refused` is every error: a malformed
      token, a bad signature, an expired token, or a signing method that is not HMAC (the key
      function refuses those). Otherwise the token's validity flag and its `user_id` claim when
      that claim is a JSON number. */
  datatype Parsed = Refused | Parsed(valid: bool, userIdClaim: Option<real>)

  /** A value stored under the context key "user". */
  datatype CtxValue = UserValue(user: Row<UserFields>) | OtherValue

  /** The request context keys the middleware writes and the handlers read. */
  datatype Context = Context(user: Option<CtxValue>, userId: Option<nat>)

  const EmptyContext := Context(None, None)

  /** A middleware either aborts the chain with its response or lets the next one run. */
  datatype Step = Abort(resp: Response) | Next(ctx: Context)

  /** `uint(f)` for a float64 claim: truncation toward zero. Go leaves the conversion of a
      value outside the uint range unspecified; the model sends it to 0, an id no row has. */
  function UintOf(f: real): (n: nat)
    ensures 0.0 <= f < 18446744073709551616.0 ==> n == f.Floor
    ensures n as real <= f || n == 0
  {
    if 0.0 <= f < 18446744073709551616.0 then f.Floor else 0
  }

  /** The token JWTAuth parses: the header with one leading "Bearer " removed. */
  function TokenOf(header: string): (token: string)
    ensures BearerPrefix <= header ==> BearerPrefix + token == header
    ensures !(BearerPrefix <= header) ==> token == header
  {
    TrimPrefix(header, BearerPrefix)
  }

  /** A header that does not start with "Bearer " is used as the raw token. */
  lemma BearerStrippedOnce(token: string)
    ensures TokenOf(BearerPrefix + token) == token
    ensures TokenOf(BearerPrefix + BearerPrefix + token) == BearerPrefix + token
  {
    assert BearerPrefix <= BearerPrefix + token;
    assert BearerPrefix <= BearerPrefix + BearerPrefix + token;
    assert (BearerPrefix + BearerPrefix + token)[|BearerPrefix|..] == BearerPrefix + token;
  }

  /** JWTAuth: every check in order; on success the user and its id are stored. */
  function JWTAuth(ctx: Context, db: Db, header: string, verify: string -> Parsed, fails: Faults): (s: Step)
    requires Dense(db.users)
    ensures header == "" ==> s == Abort(Fail(401, "未提供认证令牌"))
    ensures s.Abort? ==> s.resp.status == 401 && s.resp.data == NoData
    ensures s.Next? <==>
      (header != "" && verify(TokenOf(header)).Parsed? && verify(TokenOf(header)).valid
       && verify(TokenOf(header)).userIdClaim.Some? && Fetch !in fails
       && Lookup(db.users, UintOf(verify(TokenOf(header)).userIdClaim.value)).Some?)
    ensures s.Next? ==>
      var id := UintOf(verify(TokenOf(header)).userIdClaim.value);
      s.ctx == ctx.(user := Some(UserValue(db.users[id - 1])), userId := Some(id))
      && db.users[id - 1].Live() && db.users[id - 1].id == id
  {
    if header == "" then Abort(Fail(401, "未提供认证令牌"))
    else
      var token := TokenOf(header);
      match verify(token)
      case Refused => Abort(Fail(401, "无效的认证令牌"))
      case Parsed(valid, claim) =>
        if !valid then Abort(Fail(401, "无效的认证令牌"))
        else if claim.None? then Abort(Fail(401, "无效的用户ID"))
        else
          var id := UintOf(claim.value);
          if Fetch in fails || Lookup(db.users, id).None? then Abort(Fail(401, "用户不存在"))
          else Next(ctx.(user := Some(UserValue(db.users[id - 1])), userId := Some(id)))
  }

  /** AdminAuth: the stored user must be a User whose role is "admin". */
  function AdminAuth(ctx: Context): (s: Step)
    ensures ctx.user.None? ==> s == Abort(Fail(401, "未认证"))
    ensures ctx.user == Some(OtherValue) ==> s == Abort(Fail(500, "用户信息类型错误"))
    ensures s.Abort? && s.resp.status == 403 ==> s.resp == Fail(403, "权限不足")
    ensures s.Next? <==> ctx.user.Some? && ctx.user.value.UserValue? && ctx.user.value.user.val.role == AdminRole
    ensures s.Next? ==> s.ctx == ctx
  {
    match ctx.user
    case None => Abort(Fail(401, "未认证"))
    case Some(OtherValue) => Abort(Fail(500, "用户信息类型错误"))
    case Some(UserValue(u)) => if u.val.role != AdminRole then Abort(Fail(403, "权限不足")) else Next(ctx)
  }

  /** The claims of a token for `user` issued at Unix time `nowUnix`. */
  function TokenClaims(user: Row<UserFields>, nowUnix: int): (c: Claims)
    ensures c.userId == user.id && c.username == user.val.username && c.role == user.val.role
    ensures c.exp - nowUnix == 604800
  {
    Claims(user.id, user.val.username, user.val.role, nowUnix + TokenLifetime)
  }

  /** GenerateToken: the claims signed with HS256; None is a signing error. */
  function GenerateToken(user: Row<UserFields>, nowUnix: int, sign: (string, Claims) -> Option<string>): (t: Option<string>)
    ensures t == sign(HS256, TokenClaims(user, nowUnix))
  {
    sign(HS256, TokenClaims(user, nowUnix))
  }

  /** Signer and parser agree: whatever `sign` produces with HS256, `verify` accepts as valid
      and reads the user id back as a number. */
  ghost predicate Agree(sign: (string, Claims) -> Option<string>, verify: string -> Parsed) {
    forall c: Claims :: sign(HS256, c).Some? ==> verify(sign(HS256, c).value) == Parsed(true, Some(c.userId as real))
  }

  /** A token GenerateToken issued for a live user, sent back as "Bearer <token>", passes
      JWTAuth and stores that same user. */
  lemma IssuedTokenAuthenticates(db: Db, user: Row<UserFields>, nowUnix: int, sign: (string, Claims) -> Option<string>,
                                 verify: string -> Parsed, fails: Faults)
    requires Dense(db.users) && Agree(sign, verify) && Fetch !in fails
    requires 1 <= user.id <= |db.users| && db.users[user.id - 1] == user && user.Live()
    requires user.id < 18446744073709551616 && GenerateToken(user, nowUnix, sign).Some?
    ensures var token := GenerateToken(user, nowUnix, sign).value;
      JWTAuth(EmptyContext, db, BearerPrefix + token, verify, fails)
        == Next(Context(Some(UserValue(user)), Some(user.id)))
  {
    var token := GenerateToken(user, nowUnix, sign).value;
    BearerStrippedOnce(token);
    assert verify(token) == Parsed(true, Some(user.id as real));
    assert UintOf(user.id as real) == user.id;
  }

  /** JWTAuth followed by AdminAuth lets a request through exactly when the token names a live
      user whose role is admin. */
  lemma AdminChain(db: Db, header: string, verify: string -> Parsed, fails: Faults)
    requires Dense(db.users)
    ensures var s := JWTAuth(EmptyContext, db, header, verify, fails);
      (s.Next? && AdminAuth(s.ctx).Next?) <==>
        (s.Next? && db.RoleOf(s.ctx.userId.value) == AdminRole)
  {
  }
}
