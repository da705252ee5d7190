/** backend/api/auth.go: registration, login and logout. bcrypt is foreign: `hash` stands for
    `GenerateFromPassword` (None is its error) and `check` for a successful
    `CompareHashAndPassword`. */
module Auth {
  import opened Wrappers
  import opened Text
  import opened Models
  import opened Middleware

  const BadRequest := "请求参数错误"
  const BadCredentials := "用户名或密码错误"
  const TokenFailed := "生成令牌失败"

  /** The decoded RegisterRequest; it has no Role field, so a request cannot choose one. */
  datatype RegisterBody = RegisterBody(username: string, email: string, password: string, nickname: string)

  datatype LoginBody = LoginBody(username: string, password: string)

  /** `Where("username = ?", …).First`'s RowsAffected > 0: a failed query counts as no row. */
  predicate UsernameInUse(db: Db, username: string, fails: Faults) {
    UsernameCheck !in fails && FirstBy(db.users, Username, username).Some?
  }

  predicate EmailInUse(db: Db, email: string, fails: Faults) {
    EmailCheck !in fails && FirstBy(db.users, Email, email).Some?
  }

  /** The user Register inserts: the hashed password and role "user", avatar left empty. */
  function NewUser(b: RegisterBody, hashed: string): (u: UserFields)
    ensures u.username == b.username && u.email == b.email && u.nickname == b.nickname
    ensures u.password == hashed && u.role == DefaultRole && u.avatar == ""
  {
    UserFields(b.username, b.email, hashed, b.nickname, "", DefaultRole)
  }

  /** POST /api/auth/register. */
  function RegisterSpec(db: Db, body: Option<RegisterBody>, hash: string -> Option<string>,
                        sign: (string, Claims) -> Option<string>, fails: Faults, now: DateTime, nowUnix: int): (o: Outcome)
    requires db.Valid()
    ensures o.db.Valid()
    ensures body.None? ==> o.resp == Fail(400, BadRequest)
    ensures body.Some? && UsernameInUse(db, body.value.username, fails) ==> o.resp == Fail(400, "用户名已存在")
    ensures body.Some? && !UsernameInUse(db, body.value.username, fails) && EmailInUse(db, body.value.email, fails) ==>
      o.resp == Fail(400, "邮箱已被注册")
    ensures o.resp.status == 400 ==> o.db == db
    ensures o.db != db ==>
      (body.Some? && hash(body.value.password).Some?
       && o.db == db.(users := Insert(db.users, now, NewUser(body.value, hash(body.value.password).value))))
    ensures o.resp.status == 200 ==>
      (o.db != db
       && var row := o.db.users[|db.users|];
          GenerateToken(row, nowUnix, sign).Some?
          && o.resp == Ok("注册成功", Session(PublicUser(row), GenerateToken(row, nowUnix, sign).value)))
    ensures o.resp == Fail(500, TokenFailed) ==> o.db != db
    ensures o.db != db <==>
      (body.Some? && !UsernameInUse(db, body.value.username, fails) && !EmailInUse(db, body.value.email, fails)
       && hash(body.value.password).Some? && Write !in fails
       && !db.UserClash(NewUser(body.value, hash(body.value.password).value), 0))
    ensures o.db != db ==> (o.resp.status == 200 <==> GenerateToken(o.db.users[|db.users|], nowUnix, sign).Some?)
    ensures o.resp.status == 200 || o.resp.status == 400 || o.resp.status == 500
  {
    if body.None? then Outcome(Fail(400, BadRequest), db)
    else
      var req := body.value;
      if UsernameInUse(db, req.username, fails) then Outcome(Fail(400, "用户名已存在"), db)
      else if EmailInUse(db, req.email, fails) then Outcome(Fail(400, "邮箱已被注册"), db)
      else match hash(req.password)
        case None => Outcome(Fail(500, "服务器内部错误"), db)
        case Some(hashed) =>
          var u := NewUser(req, hashed);
          if Write in fails || db.UserClash(u, 0) then Outcome(Fail(500, "创建用户失败"), db)
          else
            var created := db.(users := Insert(db.users, now, u));
            InsertKeepsDense(db.users, now, u);
            InsertKeepsUnique(db.users, Username, now, u);
            InsertKeepsUnique(db.users, Email, now, u);
            var row := created.users[|db.users|];
            match GenerateToken(row, nowUnix, sign)
            case None => Outcome(Fail(500, TokenFailed), created)
            case Some(token) => Outcome(Ok("注册成功", Session(PublicUser(row), token)), created)
  }

  method Register(db: Store, body: Option<RegisterBody>, hash: string -> Option<string>,
                  sign: (string, Claims) -> Option<string>, fails: Faults, now: DateTime, nowUnix: int)
    returns (resp: Response)
    requires db.Valid()
    modifies db
    ensures db.Valid()
    ensures Outcome(resp, db.State()) == RegisterSpec(old(db.State()), body, hash, sign, fails, now, nowUnix)
  {
    if body.None? {
      return Fail(400, BadRequest);
    }
    var req := body.value;
    if UsernameInUse(db.State(), req.username, fails) {
      return Fail(400, "用户名已存在");
    }
    if EmailInUse(db.State(), req.email, fails) {
      return Fail(400, "邮箱已被注册");
    }
    var hashed := hash(req.password);
    if hashed.None? {
      return Fail(500, "服务器内部错误");
    }
    var user := NewUser(req, hashed.value);
    if Write in fails || db.State().UserClash(user, 0) {
      return Fail(500, "创建用户失败");
    }
    InsertKeepsDense(db.users, now, user);
    InsertKeepsUnique(db.users, Username, now, user);
    InsertKeepsUnique(db.users, Email, now, user);
    var row := Row(|db.users| + 1, now, now, None, user);
    db.users := db.users + [row];
    var token := GenerateToken(row, nowUnix, sign);
    if token.None? {
      return Fail(500, TokenFailed);
    }
    resp := Ok("注册成功", Session(PublicUser(row), token.value));
  }

  /** POST /api/auth/login: an unknown username and a wrong password get the same answer. */
  function Login(db: Db, body: Option<LoginBody>, check: (string, string) -> bool,
                 sign: (string, Claims) -> Option<string>, fails: Faults, nowUnix: int): (resp: Response)
    ensures body.None? ==> resp == Fail(400, BadRequest)
    ensures resp.status == 401 ==> resp == Fail(401, BadCredentials)
    ensures resp.status == 401 <==>
      (body.Some? && (Fetch in fails || FirstBy(db.users, Username, body.value.username).None?
                      || !check(FirstBy(db.users, Username, body.value.username).value.val.password, body.value.password)))
    ensures resp.status == 200 ==>
      (body.Some? && Fetch !in fails
       && var user := FirstBy(db.users, Username, body.value.username).value;
          check(user.val.password, body.value.password)
          && GenerateToken(user, nowUnix, sign).Some?
          && resp == Ok("登录成功", Session(PublicUser(user), GenerateToken(user, nowUnix, sign).value)))
    ensures body.Some? && resp.status != 401 ==>
      (resp.status == 200 <==> GenerateToken(FirstBy(db.users, Username, body.value.username).value, nowUnix, sign).Some?)
    ensures resp.status == 200 || resp.status == 400 || resp.status == 401 || resp.status == 500
  {
    if body.None? then Fail(400, BadRequest)
    else
      var req := body.value;
      if Fetch in fails then Fail(401, BadCredentials)
      else match FirstBy(db.users, Username, req.username)
        case None => Fail(401, BadCredentials)
        case Some(user) =>
          if !check(user.val.password, req.password) then Fail(401, BadCredentials)
          else match GenerateToken(user, nowUnix, sign)
            case None => Fail(500, TokenFailed)
            case Some(token) => Ok("登录成功", Session(PublicUser(user), token))
  }

  /** POST /api/auth/logout: the server keeps no session, so nothing changes. */
  function Logout(db: Db): (o: Outcome)
    ensures o.db == db && o.resp == Response(200, 200, "登出成功", NoData)
  {
    Outcome(Response(200, 200, "登出成功", NoData), db)
  }

  /** The successful Register and Login answers carry the five public fields and no trace of
      the password. */
  lemma SessionIsPublic(db: Db, body: Option<RegisterBody>, hash: string -> Option<string>,
                        sign: (string, Claims) -> Option<string>, fails: Faults, now: DateTime, nowUnix: int)
    requires db.Valid() && RegisterSpec(db, body, hash, sign, fails, now, nowUnix).resp.status == 200
    ensures var r := RegisterSpec(db, body, hash, sign, fails, now, nowUnix).resp;
      r.data.Session? && r.data.user.Keys == {"id", "username", "email", "nickname", "role"}
      && r.data.user["role"] == Json.Str(DefaultRole) && r.data.user["username"] == Json.Str(body.value.username)
  {
  }

  /** The live row that holds a unique key is the one `First` finds. */
  lemma {:induction false} FirstByUnique<T>(t: seq<Row<T>>, key: T -> string, i: nat)
    requires UniqueBy(t, key) && i < |t| && t[i].Live()
    ensures FirstBy(t, key, key(t[i].val)) == Some(t[i])
  {
    var r := FirstBy(t, key, key(t[i].val));
    assert r.Some?;
    var j :| 0 <= j < |t| && t[j] == r.value;
    if j != i {
      assert key(t[j].val) == key(t[i].val);
    }
  }

  /** After registration the new user can log in with the same credentials exactly when bcrypt
      accepts the password against the stored hash. */
  lemma RegisterThenLogin(db: Db, body: RegisterBody, hash: string -> Option<string>, check: (string, string) -> bool,
                          sign: (string, Claims) -> Option<string>, fails: Faults, loginFails: Faults,
                          now: DateTime, nowUnix: int, later: int)
    requires db.Valid() && RegisterSpec(db, Some(body), hash, sign, fails, now, nowUnix).db != db
    requires Fetch !in loginFails
    ensures var after := RegisterSpec(db, Some(body), hash, sign, fails, now, nowUnix).db;
      var row := after.users[|db.users|];
      var resp := Login(after, Some(LoginBody(body.username, body.password)), check, sign, loginFails, later);
      row.val.password == hash(body.password).value
      && (resp.status == 401 <==> !check(hash(body.password).value, body.password))
      && (resp.status == 200 <==> check(hash(body.password).value, body.password) && GenerateToken(row, later, sign).Some?)
  {
    var after := RegisterSpec(db, Some(body), hash, sign, fails, now, nowUnix).db;
    var row := after.users[|db.users|];
    FirstByUnique(after.users, Username, |db.users|);
    assert FirstBy(after.users, Username, body.username) == Some(row);
  }
}
