/** frontend/src/pages/Login.jsx: the login form's onFinish, which sends the credentials through
    the gateway, stores the token it gets back and hands the session to the application store.
    The application store (`setCredentials`) is not part of this model: what is dispatched is
    recorded in the page's `credentials` field. `navigate` moves the browser's location. */
module Login {
  import opened Wrappers
  import opened Json
  import opened Gateway
  import Models
  import Middleware
  import Auth
  import opened Message

  const Fallback := Str("登录失败")
  const HomePath := "/"

  /** The `{ user, token }` dispatched to the application store. */
  datatype Credentials = Credentials(user: Json, token: Json)

  /** What onFinish does with a settled login call: the token it stores, what it dispatches,
      the toast and where it navigates. A rejection, and a TypeError thrown by reading a
      property of `null` or `undefined`, both end in the catch block. */
  datatype Effect = Effect(stored: Option<string>, credentials: Option<Credentials>, toast: Toast, goTo: Option<string>)

  /** The session fields of a resolved login body with `code === 200`, when reading them does
      not throw. */
  predicate Accepted(s: Settled) {
    s.Resolved? && !s.value.IsNullish() && s.value.Get("code") == Num(200) && !s.value.Get("data").IsNullish()
  }

  function LoginEffect(s: Settled): (e: Effect)
    ensures e.stored.Some? <==> Accepted(s)
    ensures e.credentials.Some? <==> Accepted(s)
    ensures e.goTo.Some? <==> Accepted(s)
    ensures e.toast.Success? <==> Accepted(s)
    ensures Accepted(s) ==>
      var data := s.value.Get("data");
      e.stored == Some(JsString(data.Get("token")))
      && e.credentials == Some(Credentials(data.Get("user"), data.Get("token")))
      && e.goTo == Some(HomePath)
    ensures s.Rejected? ==> e.toast == Error(s.error.Message().Or(Fallback))
    ensures s.Resolved? && !s.value.IsNullish() && s.value.Get("code") != Num(200) ==>
      e.toast == Error(s.value.Get("message").Or(Fallback))
    ensures s.Resolved? && !Accepted(s) && (s.value.IsNullish() || s.value.Get("code") == Num(200)) ==>
      e.toast == Error(Fallback)
  {
    match s
    case Rejected(err) => Effect(None, None, Error(err.Message().Or(Fallback)), None)
    case Resolved(response) =>
      if response.IsNullish() then Effect(None, None, Error(TypeError.Message().Or(Fallback)), None)
      else if response.Get("code") != Num(200) then Effect(None, None, Error(response.Get("message").Or(Fallback)), None)
      else
        var data := response.Get("data");
        if data.IsNullish() then Effect(None, None, Error(TypeError.Message().Or(Fallback)), None)
        else Effect(Some(JsString(data.Get("token"))), Some(Credentials(data.Get("user"), data.Get("token"))),
                    Success(Str("登录成功")), Some(HomePath))
  }

  /** The page state onFinish touches. */
  class LoginPage {
    var loading: bool
    var toasts: seq<Toast>
    var credentials: Option<Credentials>

    constructor ()
      ensures !loading && toasts == [] && credentials.None?
    {
      loading := false;
      toasts := [];
      credentials := None;
    }

    /** onFinish: loading while the call is in flight, then the effect of how it settled, on
        top of what the response interceptor already did to the browser. */
    method OnFinish(b: Browser, username: string, password: string, server: Request -> Delivery)
      modifies this, b
      ensures !loading
      ensures toasts == old(toasts) + [LoginEffect(Interpret(server(old(b.Outgoing(LoginCall(username, password)))))).toast]
      ensures var e := LoginEffect(Interpret(server(old(b.Outgoing(LoginCall(username, password))))));
        credentials == (if e.credentials.Some? then e.credentials else old(credentials))
      ensures var d := server(old(b.Outgoing(LoginCall(username, password))));
        var e := LoginEffect(Interpret(d));
        b.token == (if e.stored.Some? then e.stored else if Unauthorized(d) then None else old(b.token))
      ensures var d := server(old(b.Outgoing(LoginCall(username, password))));
        var e := LoginEffect(Interpret(d));
        b.location == (if e.goTo.Some? then e.goTo.value else if Unauthorized(d) then LoginPath else old(b.location))
    {
      loading := true;
      var s := b.Send(LoginCall(username, password), server);
      match s {
        case Rejected(err) =>
          toasts := toasts + [Error(err.Message().Or(Fallback))];
        case Resolved(response) =>
          if response.IsNullish() {
            toasts := toasts + [Error(TypeError.Message().Or(Fallback))];
          } else if response.Get("code") == Num(200) {
            var data := response.Get("data");
            if data.IsNullish() {
              toasts := toasts + [Error(TypeError.Message().Or(Fallback))];
            } else {
              var user, token := data.Get("user"), data.Get("token");
              b.token := Some(JsString(token));
              credentials := Some(Credentials(user, token));
              toasts := toasts + [Success(Str("登录成功"))];
              b.location := HomePath;
            }
          } else {
            toasts := toasts + [Error(response.Get("message").Or(Fallback))];
          }
      }
      loading := false;
    }
  }

  // ---------------------------------------------------------------- against the server

  /** A successful login stores exactly the token the server issued and dispatches the public
      user fields beside it. */
  lemma LoginStoresIssuedToken(db: Models.Db, body: Auth.LoginBody, check: (string, string) -> bool,
                               sign: (string, Middleware.Claims) -> Option<string>, fails: Models.Faults, nowUnix: int)
    requires Auth.Login(db, Some(body), check, sign, fails, nowUnix).status == 200
    ensures var resp := Auth.Login(db, Some(body), check, sign, fails, nowUnix);
      var e := LoginEffect(Interpret(Deliver(resp)));
      e.stored == Some(resp.data.token)
      && e.credentials == Some(Credentials(Obj(resp.data.user), Str(resp.data.token)))
      && e.toast == Success(Str("登录成功")) && e.goTo == Some(HomePath)
  {
  }

  /** Wrong credentials reject with a 401: the interceptor has dropped any stored token and
      redirected to the login page, nothing new is stored, and the toast shows the server's
      message. */
  lemma BadCredentialsDropToken(db: Models.Db, body: Auth.LoginBody, check: (string, string) -> bool,
                                sign: (string, Middleware.Claims) -> Option<string>, fails: Models.Faults, nowUnix: int)
    requires Auth.Login(db, Some(body), check, sign, fails, nowUnix).status == 401
    ensures var d := Deliver(Auth.Login(db, Some(body), check, sign, fails, nowUnix));
      var e := LoginEffect(Interpret(d));
      Unauthorized(d) && e.stored.None? && e.credentials.None?
      && e.toast == Error(Str(Auth.BadCredentials))
  {
    var resp := Auth.Login(db, Some(body), check, sign, fails, nowUnix);
    var j := EnvelopeJson(resp);
    assert j.fields["message"] == Str(Auth.BadCredentials);
  }

  /** The token a login stores authenticates the requests that follow: the request
      interceptor sends it as "Bearer <token>" and JWTAuth lets the logged-in user through. */
  lemma StoredTokenAuthenticates(db: Models.Db, body: Auth.LoginBody, check: (string, string) -> bool,
                                 sign: (string, Middleware.Claims) -> Option<string>, verify: string -> Middleware.Parsed,
                                 fails: Models.Faults, nowUnix: int)
    requires db.Valid() && Middleware.Agree(sign, verify) && Models.Fetch !in fails
    requires Auth.Login(db, Some(body), check, sign, fails, nowUnix).status == 200
    requires Auth.Login(db, Some(body), check, sign, fails, nowUnix).data.token != ""
    requires |db.users| < 18446744073709551616
    ensures var stored := LoginEffect(Interpret(Deliver(Auth.Login(db, Some(body), check, sign, fails, nowUnix)))).stored;
      var user := Models.FirstBy(db.users, Models.Username, body.username).value;
      Middleware.JWTAuth(Middleware.EmptyContext, db, HeaderSeen(Authorize(stored, DefaultHeaders)), verify, fails)
        == Middleware.Next(Middleware.Context(Some(Middleware.UserValue(user)), Some(user.id)))
  {
    var resp := Auth.Login(db, Some(body), check, sign, fails, nowUnix);
    var user := Models.FirstBy(db.users, Models.Username, body.username).value;
    LoginStoresIssuedToken(db, body, check, sign, fails, nowUnix);
    AttachedTokenReadBack(resp.data.token);
    var i :| 0 <= i < |db.users| && db.users[i] == user;
    Middleware.IssuedTokenAuthenticates(db, user, nowUnix, sign, verify, fails);
  }
}
