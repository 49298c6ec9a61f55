/** The WeChat login callback, `GET /api/auth/wechat/callback`: exchange the
    authorization code for an openid, derive a synthetic account (an e-mail
    address under a fixed domain and a password computed from the openid),
    create the account if it is new, sign in, and redirect home with the
    outcome in the query string.

    The token endpoint, the HMAC, and the account service are collaborators.
    The endpoint and the account service are each consulted at most once, so
    their answers are parameters and the trace records what they were asked;
    a `Threw` answer stands for an exception, which the handler turns into
    `error=internal_error`. */
module WechatCallback {
  import opened Common
  import opened Text

  /** The request URL's origin and its `code` query parameter. */
  datatype Request = Request(origin: string, code: Option<string>)

  /** `WECHAT_APP_ID`, `WECHAT_APP_SECRET`, `SUPABASE_SERVICE_ROLE_KEY`. */
  datatype Env = Env(appId: Option<string>, appSecret: Option<string>, serviceRoleKey: Option<string>)

  /** The token endpoint's JSON: whether `errcode` is truthy, and `openid`. */
  datatype TokenReply = TokenThrew | Token(errcode: bool, openid: Option<string>)

  /** `auth.admin.createUser`: threw, or its `error` (with its message). */
  datatype CreateReply = CreateThrew | Created(error: Option<string>)

  /** `auth.signInWithPassword`: threw, or whether it reported an error. */
  datatype SignInReply = SignInThrew | SignedIn(failed: bool)

  datatype NewUser = NewUser(email: string, password: string, emailConfirm: bool, wechatOpenid: string)

  datatype Effect =
    | FetchToken(url: string)
    | CreateUser(user: NewUser)
    | SignIn(email: string, password: string)

  /** A redirect to `origin + "?" + query`, or a JSON error. */
  datatype Response = Redirect(origin: string, query: string) | Json(status: nat, error: string)

  datatype Outcome = Outcome(response: Response, trace: seq<Effect>)

  const Domain: string := "@wechat.kanshouxiang.com"

  /** The synthetic e-mail address of an openid. */
  function Email(openid: string): (e: string)
    ensures EndsWith(e, Domain) && e[..|e| - |Domain|] == openid
  {
    assert (openid + Domain)[|openid|..] == Domain;
    openid + Domain
  }

  /** Different openids get different addresses. */
  lemma EmailInjective(a: string, b: string)
    requires Email(a) == Email(b)
    ensures a == b
  {
  }

  /** `generatePassword(openid)`: the hex HMAC-SHA256 of the openid under the
      service key, or under `fallback-secret` when that key is unset. */
  function Password(env: Env, hmacHex: (string, string) -> string, openid: string): (p: string)
    ensures Truthy(env.serviceRoleKey) ==> p == hmacHex(env.serviceRoleKey.value, openid)
    ensures !Truthy(env.serviceRoleKey) ==> p == hmacHex("fallback-secret", openid)
  {
    hmacHex(OrElse(env.serviceRoleKey, "fallback-secret"), openid)
  }

  function TokenUrl(appId: string, secret: string, code: string): string {
    "https://api.weixin.qq.com/sns/oauth2/access_token?appid=" + appId + "&secret=" + secret +
    "&code=" + code + "&grant_type=authorization_code"
  }

  function Back(req: Request, query: string): Response {
    Redirect(req.origin, query)
  }

  /** A creation error that only says the account exists means a returning
      user. */
  predicate Tolerated(error: Option<string>) {
    error.None? || Includes(error.value, "already been registered")
  }

  /** After the openid is known: create the account, then sign in. */
  function Account(req: Request, env: Env, hmacHex: (string, string) -> string, fetched: Effect,
                   openid: string, created: CreateReply, signedIn: SignInReply): (o: Outcome)
    ensures 2 <= |o.trace| <= 3 && o.trace[0] == fetched
    ensures o.trace[1] == CreateUser(NewUser(Email(openid), Password(env, hmacHex, openid), true, openid))
    ensures |o.trace| > 2 ==>
      created.Created? && Tolerated(created.error) &&
      o.trace[2] == SignIn(o.trace[1].user.email, o.trace[1].user.password)
    ensures |o.trace| == 2 ==> (o.response == Back(req, "error=internal_error") ||
      (o.response == Back(req, "error=create_user_failed") && created.Created? && !Tolerated(created.error)))
    ensures o.response == Back(req, "login_success=true") <==>
      |o.trace| == 3 && signedIn == SignedIn(false)
    // each answer of the account service leads to its own redirect
    ensures created == CreateThrew ==> o.response == Back(req, "error=internal_error") && |o.trace| == 2
    ensures created.Created? && !Tolerated(created.error) ==>
      o.response == Back(req, "error=create_user_failed") && |o.trace| == 2
    ensures created.Created? && Tolerated(created.error) ==> |o.trace| == 3
    ensures |o.trace| == 3 && signedIn == SignInThrew ==> o.response == Back(req, "error=internal_error")
    ensures |o.trace| == 3 && signedIn == SignedIn(true) ==> o.response == Back(req, "error=signin_failed")
  {
    var email := Email(openid);
    var password := Password(env, hmacHex, openid);
    var user := NewUser(email, password, true, openid);
    match created
    case CreateThrew => Outcome(Back(req, "error=internal_error"), [fetched, CreateUser(user)])
    case Created(error) =>
      if !Tolerated(error) then Outcome(Back(req, "error=create_user_failed"), [fetched, CreateUser(user)])
      else
        var trace := [fetched, CreateUser(user), SignIn(email, password)];
        match signedIn
        case SignInThrew => Outcome(Back(req, "error=internal_error"), trace)
        case SignedIn(failed) =>
          if failed then Outcome(Back(req, "error=signin_failed"), trace)
          else Outcome(Back(req, "login_success=true"), trace)
  }

  /** After the code is exchanged: read the token endpoint's reply. */
  function Exchanged(req: Request, env: Env, hmacHex: (string, string) -> string, fetched: Effect,
                     token: TokenReply, created: CreateReply, signedIn: SignInReply): (o: Outcome)
    ensures 1 <= |o.trace| <= 3 && o.trace[0] == fetched
    ensures token.Token? && token.errcode ==> o == Outcome(Back(req, "error=wechat_token_error"), [fetched])
    ensures token == TokenThrew || token == Token(false, None) ==>
      o == Outcome(Back(req, "error=internal_error"), [fetched])
    ensures token.Token? && !token.errcode && token.openid.Some? ==>
      o == Account(req, env, hmacHex, fetched, token.openid.value, created, signedIn)
    ensures |o.trace| > 1 ==> token.Token? && !token.errcode && token.openid.Some?
    ensures o.response == Back(req, "login_success=true") ==> |o.trace| == 3
  {
    match token
    case TokenThrew => Outcome(Back(req, "error=internal_error"), [fetched])
    case Token(errcode, openid) =>
      if errcode then Outcome(Back(req, "error=wechat_token_error"), [fetched])
      else if openid.None? then
        // hashing an undefined openid throws
        Outcome(Back(req, "error=internal_error"), [fetched])
      else Account(req, env, hmacHex, fetched, openid.value, created, signedIn)
  }

  function Handle(req: Request, env: Env, hmacHex: (string, string) -> string, token: TokenReply,
                  created: CreateReply, signedIn: SignInReply): (o: Outcome)
    // the code is checked before the configuration
    ensures !Truthy(req.code) ==> o == Outcome(Back(req, "error=no_code"), [])
    ensures Truthy(req.code) && (!Truthy(env.appId) || !Truthy(env.appSecret)) ==>
      o == Outcome(Json(500, "WeChat config missing"), [])
    ensures |o.trace| > 0 ==> (Truthy(req.code) && Truthy(env.appId) && Truthy(env.appSecret) &&
      o.trace[0] == FetchToken(TokenUrl(env.appId.value, env.appSecret.value, req.code.value)))
    ensures |o.trace| > 0 && token.Token? && token.errcode ==>
      o == Outcome(Back(req, "error=wechat_token_error"), o.trace[..1])
    // with a code and a configuration the token endpoint is always asked
    ensures Truthy(req.code) && Truthy(env.appId) && Truthy(env.appSecret) ==> |o.trace| > 0
    // a failed exchange, or a reply without an openid, is an internal error
    ensures |o.trace| > 0 && (token == TokenThrew || token == Token(false, None)) ==>
      o == Outcome(Back(req, "error=internal_error"), o.trace[..1])
    // an openid leads to its account
    ensures |o.trace| > 0 && token.Token? && !token.errcode && token.openid.Some? ==>
      o == Account(req, env, hmacHex, o.trace[0], token.openid.value, created, signedIn)
    // success exactly when the sign-in reported no error
    ensures o.response == Back(req, "login_success=true") <==>
      |o.trace| == 3 && signedIn == SignedIn(false)
    ensures |o.trace| <= 3
  {
    if !Truthy(req.code) then Outcome(Back(req, "error=no_code"), [])
    else if !Truthy(env.appId) || !Truthy(env.appSecret) then Outcome(Json(500, "WeChat config missing"), [])
    else
      var fetched := FetchToken(TokenUrl(env.appId.value, env.appSecret.value, req.code.value));
      Exchanged(req, env, hmacHex, fetched, token, created, signedIn)
  }

  /** The login succeeds exactly when every step does: a code, a
      configuration, an openid, an account that was created or already
      existed, and a sign-in without error. */
  lemma LoginSucceedsExactly(req: Request, env: Env, hmacHex: (string, string) -> string, token: TokenReply,
                             created: CreateReply, signedIn: SignInReply)
    ensures Handle(req, env, hmacHex, token, created, signedIn).response == Back(req, "login_success=true") <==>
      && Truthy(req.code) && Truthy(env.appId) && Truthy(env.appSecret)
      && token.Token? && !token.errcode && token.openid.Some?
      && created.Created? && Tolerated(created.error)
      && signedIn == SignedIn(false)
  {
    var o := Handle(req, env, hmacHex, token, created, signedIn);
    if Truthy(req.code) && Truthy(env.appId) && Truthy(env.appSecret) && token.Token? && !token.errcode && token.openid.Some? {
      var a := Account(req, env, hmacHex, o.trace[0], token.openid.value, created, signedIn);
      assert o == a;
    }
  }
}
