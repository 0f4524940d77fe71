/**
 * The OAuth2 authorization-code engine (routes/oauth2.rs), after RFC 6749:
 * the authorize page that mints codes (section 4.1.1), client authentication
 * (section 2.3.1, with the Basic scheme of section 2 of RFC 7617), the token
 * endpoint with its authorization_code and refresh_token grants (sections
 * 4.1.3 and 6), the bearer-token guard and the userinfo endpoint.
 */
module OAuth2 {
  import opened Wrappers
  import opened Text
  import opened Ids
  import opened Errors
  import Jwt
  import Scopes
  import Apps
  import Users
  import RefreshSessions

  /** Access tokens live one hour; authorization codes ten minutes. */
  const ACCESS_TOKEN_SECONDS: int := 60 * 60
  const AUTHORIZE_CODE_SECONDS: int := 10 * 60
  const AUTHORIZE_AUDIENCE: string := "wartid-authorize"
  const ACCESS_AUDIENCE: string := "wartid-access-token"

  /** `implies!(p => q)`. */
  function Implies(p: bool, q: bool): (r: bool)
    ensures r <==> (p ==> q)
  {
    !p || q
  }

  /** The four rows of the truth table, as the macro's own test lists them. */
  lemma ImpliesTruthTable()
    ensures Implies(true, true) && !Implies(true, false) && Implies(false, true) && Implies(false, false)
  {
  }

  // ---------------------------------------------------------------------------
  // Token payloads. A payload travels with its scopes in their text form, the
  // way the scope set serialises; reading it back parses them, and a failure
  // there is a failure of the whole decode.

  /** The `AuthorizeState` an authorization code carries, as serialised. */
  datatype AuthorizeWire = AuthorizeWire(client: AppId, user: UserId, scopes: string, redirectUri: string)

  /** The `AuthorizeState` read back from a code. */
  datatype AuthorizeState = AuthorizeState(client: AppId, user: UserId, initialScopes: Scopes.ScopeSet, redirectUri: string)

  /** The `AccessState` an access token carries, as serialised. */
  datatype AccessWire = AccessWire(client: AppId, user: UserId, scopes: string)

  datatype AccessState = AccessState(client: AppId, user: UserId, scopes: Scopes.ScopeSet)

  function ReadAuthorize(w: AuthorizeWire): (r: Option<AuthorizeState>)
    ensures r.Some? <==> Scopes.ParseScopes(w.scopes).Some?
    ensures r.Some? ==> r.value == AuthorizeState(w.client, w.user, Scopes.ParseScopes(w.scopes).value, w.redirectUri)
  {
    match Scopes.ParseScopes(w.scopes)
    case None => None
    case Some(s) => Some(AuthorizeState(w.client, w.user, s, w.redirectUri))
  }

  function ReadAccess(w: AccessWire): (r: Option<AccessState>)
    ensures r.Some? <==> Scopes.ParseScopes(w.scopes).Some?
    ensures r.Some? ==> r.value == AccessState(w.client, w.user, Scopes.ParseScopes(w.scopes).value)
  {
    match Scopes.ParseScopes(w.scopes)
    case None => None
    case Some(s) => Some(AccessState(w.client, w.user, s))
  }

  type Code = Jwt.Token<AuthorizeWire>
  type AccessToken = Jwt.Token<AccessWire>

  /** The two process-wide codecs, `JWT_AUTHORIZE` and `JWT_ACCESS`. */
  datatype Codecs = Codecs(authorize: Jwt.Codec, access: Jwt.Codec)

  /** The codecs built at start-up from two 32-byte random keys. */
  function NewCodecs(genAuthorize: seq<bv8>, genAccess: seq<bv8>): (c: Codecs)
    requires |genAuthorize| == 32 && |genAccess| == 32
    ensures ServerCodecs(c)
  {
    Codecs(Jwt.New(AUTHORIZE_AUDIENCE, AUTHORIZE_CODE_SECONDS, genAuthorize),
           Jwt.New(ACCESS_AUDIENCE, ACCESS_TOKEN_SECONDS, genAccess))
  }

  predicate ServerCodecs(c: Codecs) {
    && c.authorize.audience == AUTHORIZE_AUDIENCE && c.authorize.duration == AUTHORIZE_CODE_SECONDS
    && c.access.audience == ACCESS_AUDIENCE && c.access.duration == ACCESS_TOKEN_SECONDS
    && |c.authorize.key| == 32 && |c.access.key| == 32
  }

  // ---------------------------------------------------------------------------
  // Authorize

  /** The short form of the redirect shown to the user: the text between the first "//" and the next '/'. */
  function ShortRedirect(uri: string): (r: string)
    ensures r == uri || ('/' !in r && exists pre, post :: uri == pre + "//" + r + "/" + post)
    ensures SplitOnceStr(uri, "//").None? ==> r == uri
  {
    match SplitOnceStr(uri, "//")
    case None => uri
    case Some((pre, right)) =>
      match SplitOnceChar(right, '/')
      case None => uri
      case Some((left, post)) =>
        NestedSplit(uri, pre, "//", right, left, "/", post);
        left
  }

  /**
   * A redirect URI with a host part shows just that host: the text after the first
   * "//" up to the next '/', whatever the part before the "//" contains.
   */
  lemma ShortRedirectOfUrl(scheme: string, host: string, path: string)
    requires forall j :: 0 <= j < |scheme| ==> !OccursAt(scheme + "//" + host + "/" + path, "//", j)
    requires '/' !in host
    ensures ShortRedirect(scheme + "//" + host + "/" + path) == host
  {
    var rest := host + "/" + path;
    var uri := scheme + "//" + rest;
    assert scheme + "//" + host + "/" + path == uri;
    SplitOnceStrAt(scheme, "//", rest);
    SplitOnceCharAt(host, '/', path);
    assert ShortRedirect(uri) == host;
  }

  /** A redirect URI whose first "//" is followed by no '/' is shown whole. */
  lemma ShortRedirectWithoutHost(scheme: string, rest: string)
    requires forall j :: 0 <= j < |scheme| ==> !OccursAt(scheme + "//" + rest, "//", j)
    requires '/' !in rest
    ensures ShortRedirect(scheme + "//" + rest) == scheme + "//" + rest
  {
    SplitOnceStrAt(scheme, "//", rest);
  }

  /** The authorize query, as the form decoder delivers it. */
  datatype AuthorizeQuery = AuthorizeQuery(
    clientId: AppId,
    redirectUri: string,
    scope: Option<Scopes.ScopeSet>,
    state: Option<string>,
    nonce: Option<string>)

  /** What `authorize` answers with when it does not fail. */
  datatype AuthorizeOutcome =
    | ConsentPage(user: Users.User, app: Apps.UserApp, redirectShort: string, redirectUri: string,
                  code: Option<Code>, state: Option<string>, scopes: Scopes.ScopeSet)
    | RedirectToLogin(next: string)

  /** The app `authorize` may hand codes for: one that exists and has OAuth2 enabled. */
  function OAuthClient(apps: Apps.AppDirectory, id: AppId): (r: Option<Apps.UserApp>)
    reads apps
    ensures r.Some? <==> id in apps.apps && apps.apps[id].oauthSecret.Some?
    ensures r.Some? ==> r.value == apps.apps[id]
  {
    match apps.FindById(id)
    case Ok(found) =>
      if found.Some? && Apps.OAuth2(found.value).Some? then found else None
  }

  /** The client exists, has OAuth2 enabled, and allows the redirect URI. */
  predicate ClientAccepts(apps: Apps.AppDirectory, id: AppId, redirectUri: string)
    reads apps
  {
    OAuthClient(apps, id).Some? && Apps.IsRedirectAllowed(OAuthClient(apps, id).value, redirectUri)
  }

  /** `code` decodes, for the ten minutes after `now`, to exactly `state`. */
  ghost predicate CodeValid(codecs: Codecs, code: Code, state: AuthorizeState, now: int, leeway: nat) {
    forall t :: now <= t <= now + codecs.authorize.duration ==>
      Jwt.Decode(codecs.authorize, code, t, leeway, ReadAuthorize) == Ok(state)
  }

  /** A code minted at `now` with the scopes in their text form decodes back while it lives. */
  lemma MintedCodeValid(codecs: Codecs, client: AppId, user: UserId, text: string, scopes: Scopes.ScopeSet,
                        redirectUri: string, now: int, leeway: nat)
    requires Scopes.ParseScopes(text) == Some(scopes)
    ensures CodeValid(codecs, Jwt.Encode(codecs.authorize, AuthorizeWire(client, user, text, redirectUri), now),
                      AuthorizeState(client, user, scopes, redirectUri), now, leeway)
  {
    forall t | now <= t <= now + codecs.authorize.duration
      ensures Jwt.Decode(codecs.authorize, Jwt.Encode(codecs.authorize, AuthorizeWire(client, user, text, redirectUri), now),
                         t, leeway, ReadAuthorize) == Ok(AuthorizeState(client, user, scopes, redirectUri))
    {
      Jwt.RoundTrip(codecs.authorize, AuthorizeWire(client, user, text, redirectUri),
                    AuthorizeState(client, user, scopes, redirectUri), now, t, leeway, ReadAuthorize);
    }
  }

  /**
   * `authorize` at time `now`. `form` is the decoded query or the form error's text;
   * `session` is the logged-in user, if any. A logged-in user gets the consent page,
   * with a code exactly when asking for `email` does not meet an account without one;
   * the code decodes back to the client, the user, the scopes and the redirect URI.
   */
  method Authorize(codecs: Codecs, apps: Apps.AppDirectory, baseUrl: string, currentUri: string,
                   session: Option<Users.User>, form: Result<AuthorizeQuery, string>, now: int, leeway: nat)
    returns (r: WartIDResult<AuthorizeOutcome>)
    ensures form.Err? ==> r == Err(InvalidForm(form.error))
    ensures form.Ok? && session.None? ==> r == Ok(RedirectToLogin(baseUrl + currentUri))
    ensures form.Ok? && session.Some? && OAuthClient(apps, form.value.clientId).None? ==>
      r == Err(OAuth2Error("client not found"))
    ensures form.Ok? && session.Some? && OAuthClient(apps, form.value.clientId).Some? ==>
      var app := OAuthClient(apps, form.value.clientId).value;
      !Apps.IsRedirectAllowed(app, form.value.redirectUri) ==> r == Err(OAuth2Error("redirect uri is not configured"))
    ensures r.Ok? && r.value.ConsentPage? ==>
      && form.Ok? && session.Some?
      && OAuthClient(apps, form.value.clientId) == Some(r.value.app)
      && Apps.IsRedirectAllowed(r.value.app, form.value.redirectUri)
      && r.value.user == session.value
      && r.value.redirectUri == form.value.redirectUri
      && r.value.redirectShort == ShortRedirect(form.value.redirectUri)
      && r.value.state == form.value.state
      && r.value.scopes == form.value.scope.GetOr({})
      && (r.value.code.Some? <==> Implies(Scopes.Email in r.value.scopes, session.value.email.Some?))
    ensures r.Ok? && r.value.ConsentPage? && r.value.code.Some? ==>
      CodeValid(codecs, r.value.code.value,
                AuthorizeState(r.value.app.id, session.value.id, r.value.scopes, form.value.redirectUri), now, leeway)
    ensures form.Ok? && session.Some? && ClientAccepts(apps, form.value.clientId, form.value.redirectUri) ==>
      r.Ok? && r.value.ConsentPage?
  {
    if form.Err? {
      return Err(InvalidForm(form.error));
    }
    var query := form.value;
    if session.None? {
      return Ok(RedirectToLogin(baseUrl + currentUri));
    }
    var user := session.value;
    var client := OAuthClient(apps, query.clientId);
    if client.None? {
      return Err(OAuth2Error("client not found"));
    }
    var app := client.value;
    if !Apps.IsRedirectAllowed(app, query.redirectUri) {
      return Err(OAuth2Error("redirect uri is not configured"));
    }
    var short := ShortRedirect(query.redirectUri);
    var scopes := query.scope.GetOr({});
    var code: Option<Code> := None;
    if Implies(Scopes.Email in scopes, user.email.Some?) {
      var text := Scopes.Format(scopes);
      var minted := Jwt.Encode(codecs.authorize, AuthorizeWire(app.id, user.id, text, query.redirectUri), now);
      MintedCodeValid(codecs, app.id, user.id, text, scopes, query.redirectUri, now, leeway);
      code := Some(minted);
    }
    r := Ok(ConsentPage(user, app, short, query.redirectUri, code, query.state, scopes));
  }

  // ---------------------------------------------------------------------------
  // Client authentication

  datatype BasicAuthorization = BasicAuthorization(username: string, password: string)

  /** The outcome of a request guard: success, a failure with its status, or a panic. */
  datatype Outcome<T> = Success(value: T) | Failure(status: int, message: string) | Panicked

  const STATUS_BAD_REQUEST: int := 400
  const STATUS_UNAUTHORIZED: int := 401
  const STATUS_FORBIDDEN: int := 403
  const STATUS_INTERNAL_SERVER_ERROR: int := 500

  /**
   * `BasicAuthorization::from_request`: the first `Authorization` header must use the
   * Basic scheme; its credentials (`decode` is base64 then UTF-8, `None` when either
   * fails, which panics) split at the first ':' into client id and secret.
   */
  function ParseBasic(header: Option<string>, decode: string -> Option<string>): (r: Outcome<BasicAuthorization>)
    ensures header.None? ==> r == Failure(STATUS_FORBIDDEN, "No Authorization header")
    ensures header.Some? && !StartsWith(header.value, "Basic ") ==> r == Failure(STATUS_BAD_REQUEST, "Only basic auth is supported")
    ensures r.Panicked? <==> header.Some? && StartsWith(header.value, "Basic ") && decode(header.value[6..]).None?
    ensures r == Failure(STATUS_BAD_REQUEST, "Bad format, missing colon") <==>
      header.Some? && StartsWith(header.value, "Basic ") && decode(header.value[6..]).Some? && ':' !in decode(header.value[6..]).value
    ensures r.Success? ==>
      && header.Some? && StartsWith(header.value, "Basic ")
      && decode(header.value[6..]) == Some(r.value.username + ":" + r.value.password)
      && ':' !in r.value.username
  {
    match header
    case None => Failure(STATUS_FORBIDDEN, "No Authorization header")
    case Some(auth) =>
      match StripPrefix(auth, "Basic ")
      case None => Failure(STATUS_BAD_REQUEST, "Only basic auth is supported")
      case Some(encoded) =>
        assert encoded == auth[6..];
        match decode(encoded)
        case None => Panicked
        case Some(text) =>
          match SplitOnceChar(text, ':')
          case None => Failure(STATUS_BAD_REQUEST, "Bad format, missing colon")
          case Some((username, password)) => Success(BasicAuthorization(username, password))
  }

  /**
   * The client credentials of a token request: the Basic header alone, or the form's
   * `client_id` and `client_secret` together, and nothing else.
   */
  function ClientCredentials(auth: Option<BasicAuthorization>, clientId: Option<string>, clientSecret: Option<string>)
    : (r: Result<(string, string), string>)
    ensures r.Ok? <==> (auth.Some? && clientId.None? && clientSecret.None?) || (auth.None? && clientId.Some? && clientSecret.Some?)
    ensures r.Ok? && auth.Some? ==> r.value == (auth.value.username, auth.value.password)
    ensures r.Ok? && auth.None? ==> r.value == (clientId.value, clientSecret.value)
    ensures r.Err? ==> r.error == "multiple auth methods used simultaneously"
  {
    match (auth, clientId, clientSecret)
    case (Some(basic), None, None) => Ok((basic.username, basic.password))
    case (None, Some(id), Some(secret)) => Ok((id, secret))
    case _ => Err("multiple auth methods used simultaneously")
  }

  /**
   * The client-authentication half of `token`: the credentials, the client id parsed
   * as a UUID, the app looked up by it, and its secret compared with the one presented.
   * An app with OAuth2 disabled has no secret and so never authenticates.
   */
  function Authenticate(apps: Apps.AppDirectory, auth: Option<BasicAuthorization>, clientId: Option<string>,
                        clientSecret: Option<string>, parseUuid: UuidParser): (r: Result<(AppId, Apps.UserApp), string>)
    reads apps
    ensures r.Ok? <==>
      && ClientCredentials(auth, clientId, clientSecret).Ok?
      && var (id, secret) := ClientCredentials(auth, clientId, clientSecret).value;
      && parseUuid(id).Some?
      && parseUuid(id).value in apps.apps
      && apps.apps[parseUuid(id).value].oauthSecret == Some(secret)
    ensures r.Ok? ==> var (id, _) := ClientCredentials(auth, clientId, clientSecret).value;
      r.value == (parseUuid(id).value, apps.apps[parseUuid(id).value])
    ensures ClientCredentials(auth, clientId, clientSecret).Err? ==> r == Err("multiple auth methods used simultaneously")
    ensures ClientCredentials(auth, clientId, clientSecret).Ok? ==>
      var (id, secret) := ClientCredentials(auth, clientId, clientSecret).value;
      && (parseUuid(id).None? ==> r == Err("cannot parse client uuid"))
      && (parseUuid(id).Some? && parseUuid(id).value !in apps.apps ==> r == Err("unknown client id"))
      && (parseUuid(id).Some? && parseUuid(id).value in apps.apps && apps.apps[parseUuid(id).value].oauthSecret != Some(secret) ==>
            r == Err("invalid client secret"))
  {
    match ClientCredentials(auth, clientId, clientSecret)
    case Err(e) => Err(e)
    case Ok((id, secret)) =>
      match parseUuid(id)
      case None => Err("cannot parse client uuid")
      case Some(uuid) =>
        match apps.FindById(uuid)
        case Ok(None) => Err("unknown client id")
        case Ok(Some(app)) =>
          if !SecretMatches(app, secret) then Err("invalid client secret") else Ok((uuid, app))
  }

  /** The secret test of `token`: the presented secret equals the app's OAuth2 secret. */
  predicate SecretMatches(app: Apps.UserApp, secret: string) {
    Apps.OAuth2(app).Some? && Apps.OAuth2(app).value.0 == secret
  }

  // ---------------------------------------------------------------------------
  // Grants

  datatype GrantType = AuthorizationCode | RefreshToken

  /** The token request form; `redirectUri` and `scope` are read but never used. */
  datatype TokenQuery = TokenQuery(
    grantType: GrantType,
    code: Option<Code>,
    refreshToken: Option<string>,
    redirectUri: string,
    scope: Option<string>,
    clientId: Option<string>,
    clientSecret: Option<string>)

  const GRANT_MISMATCH: string :=
    "authorization_code grant type can only be used with ?code, and refresh_token grant type can only be used with ?refresh_token"

  /** The authorization_code grant, with a code and no refresh token. */
  predicate CodeGrant(q: TokenQuery) {
    q.grantType == AuthorizationCode && q.code.Some? && q.refreshToken.None?
  }

  /** The refresh_token grant, with a refresh token and no code. */
  predicate RefreshGrant(q: TokenQuery) {
    q.grantType == RefreshToken && q.code.None? && q.refreshToken.Some?
  }

  /**
   * The grant dispatch of `token` for the authenticated `client`: a code is decoded
   * and must name the client; a refresh token must open a live session of the
   * client, whose stored scopes are used (none when they no longer parse).
   */
  function ResolveGrant(codecs: Codecs, client: AppId, q: TokenQuery, rows: RefreshSessions.Rows, now: int, leeway: nat)
    : (r: Result<(UserId, Scopes.ScopeSet), string>)
    ensures !CodeGrant(q) && !RefreshGrant(q) ==> r == Err(GRANT_MISMATCH)
    ensures CodeGrant(q) ==>
      var d := Jwt.Decode(codecs.authorize, q.code.value, now, leeway, ReadAuthorize);
      && (d.Err? ==> r == Err("invalid code, might have expired: " + Jwt.ErrorText(d.error)))
      && (d.Ok? && d.value.client != client ==> r == Err("invalid client"))
      && (d.Ok? && d.value.client == client ==> r == Ok((d.value.user, d.value.initialScopes)))
    ensures RefreshGrant(q) ==>
      var s := RefreshSessions.Lookup(rows, q.refreshToken.value, now);
      && (s.None? ==> r == Err("No session found for this refresh token"))
      && (s.Some? && s.value.appId != client ==> r == Err("Forbidden app"))
      && (s.Some? && s.value.appId == client ==>
            r == Ok((s.value.usersId, Scopes.ParseScopes(s.value.initialScopes).GetOr({}))))
  {
    match (q.grantType, q.code, q.refreshToken)
    case (AuthorizationCode, Some(code), None) =>
      (match Jwt.Decode(codecs.authorize, code, now, leeway, ReadAuthorize)
       case Err(e) => Err("invalid code, might have expired: " + Jwt.ErrorText(e))
       case Ok(state) =>
         if state.client != client then Err("invalid client") else Ok((state.user, state.initialScopes)))
    case (RefreshToken, None, Some(token)) =>
      (match RefreshSessions.Lookup(rows, token, now)
       case None => Err("No session found for this refresh token")
       case Some(session) =>
         if session.appId != client then Err("Forbidden app")
         else Ok((session.usersId, Scopes.ParseScopes(session.initialScopes).GetOr({}))))
    case _ => Err(GRANT_MISMATCH)
  }

  /** Everything `token` decides before it writes: the client, then the grant. */
  function TokenDecision(codecs: Codecs, apps: Apps.AppDirectory, auth: Option<BasicAuthorization>, q: TokenQuery,
                         rows: RefreshSessions.Rows, parseUuid: UuidParser, now: int, leeway: nat)
    : (r: Result<(AppId, UserId, Scopes.ScopeSet), string>)
    reads apps
    ensures Authenticate(apps, auth, q.clientId, q.clientSecret, parseUuid).Err? ==>
      r == Err(Authenticate(apps, auth, q.clientId, q.clientSecret, parseUuid).error)
    ensures Authenticate(apps, auth, q.clientId, q.clientSecret, parseUuid).Ok? ==>
      var (client, app) := Authenticate(apps, auth, q.clientId, q.clientSecret, parseUuid).value;
      var g := ResolveGrant(codecs, app.id, q, rows, now, leeway);
      && (g.Err? ==> r == Err(g.error))
      && (g.Ok? ==> r == Ok((client, g.value.0, g.value.1)))
  {
    match Authenticate(apps, auth, q.clientId, q.clientSecret, parseUuid)
    case Err(e) => Err(e)
    case Ok((client, app)) =>
      match ResolveGrant(codecs, app.id, q, rows, now, leeway)
      case Err(e) => Err(e)
      case Ok((user, scopes)) => Ok((client, user, scopes))
  }

  /**
   * A code minted at `minted` for `client` is exchanged, within its ten minutes, for its
   * user and scopes, whatever redirect URI the token request names; presented by any
   * other client it is refused.
   */
  lemma {:induction false} CodeExchange(codecs: Codecs, code: Code, state: AuthorizeState, minted: int, now: int, leeway: nat,
                                        client: AppId, q: TokenQuery, rows: RefreshSessions.Rows)
    requires CodeValid(codecs, code, state, minted, leeway)
    requires minted <= now <= minted + codecs.authorize.duration
    requires q.grantType == AuthorizationCode && q.code == Some(code) && q.refreshToken.None?
    ensures client == state.client ==> ResolveGrant(codecs, client, q, rows, now, leeway) == Ok((state.user, state.initialScopes))
    ensures client != state.client ==> ResolveGrant(codecs, client, q, rows, now, leeway) == Err("invalid client")
  {
    assert Jwt.Decode(codecs.authorize, code, now, leeway, ReadAuthorize) == Ok(state);
  }

  /**
   * A refresh token that opens a live session of `client` yields that session's user and
   * its stored scopes; the session of another client is "Forbidden app".
   */
  lemma RefreshExchange(codecs: Codecs, client: AppId, q: TokenQuery, rows: RefreshSessions.Rows, now: int, leeway: nat,
                        scopes: Scopes.ScopeSet)
    requires q.grantType == RefreshToken && q.code.None? && q.refreshToken.Some?
    requires q.refreshToken.value in rows && rows[q.refreshToken.value].expiration >= now
    requires Scopes.ParseScopes(rows[q.refreshToken.value].initialScopes) == Some(scopes)
    ensures rows[q.refreshToken.value].appId == client ==>
      ResolveGrant(codecs, client, q, rows, now, leeway) == Ok((rows[q.refreshToken.value].usersId, scopes))
    ensures rows[q.refreshToken.value].appId != client ==>
      ResolveGrant(codecs, client, q, rows, now, leeway) == Err("Forbidden app")
  {
  }

  /** The `redirect_uri` and `scope` fields of a token request never influence its grant. */
  lemma GrantIgnoresRedirectAndScope(codecs: Codecs, client: AppId, q: TokenQuery, redirectUri: string, scope: Option<string>,
                                     rows: RefreshSessions.Rows, now: int, leeway: nat)
    ensures ResolveGrant(codecs, client, q.(redirectUri := redirectUri, scope := scope), rows, now, leeway)
         == ResolveGrant(codecs, client, q, rows, now, leeway)
  {
  }

  /**
   * Nothing is granted to a client that did not authenticate: a successful decision
   * came with exactly one credential method, and the secret presented is the app's.
   */
  lemma {:induction false} DecisionNeedsAuthentication(codecs: Codecs, apps: Apps.AppDirectory, auth: Option<BasicAuthorization>,
                                                       q: TokenQuery, rows: RefreshSessions.Rows, parseUuid: UuidParser, now: int, leeway: nat)
    requires TokenDecision(codecs, apps, auth, q, rows, parseUuid, now, leeway).Ok?
    ensures (auth.Some? && q.clientId.None? && q.clientSecret.None?) || (auth.None? && q.clientId.Some? && q.clientSecret.Some?)
    ensures var client := TokenDecision(codecs, apps, auth, q, rows, parseUuid, now, leeway).value.0;
      && client in apps.apps
      && apps.apps[client].oauthSecret.Some?
      && apps.apps[client].oauthSecret.value == (if auth.Some? then auth.value.password else q.clientSecret.value)
  {
    var a := Authenticate(apps, auth, q.clientId, q.clientSecret, parseUuid);
    assert a.Ok?;
    var (id, secret) := ClientCredentials(auth, q.clientId, q.clientSecret).value;
    assert a.value.0 == parseUuid(id).value;
  }

  /** `TokenResponse`; `tokenType` is the serialised `TokenType::Bearer`. */
  datatype TokenResponse = TokenResponse(accessToken: AccessToken, expiresIn: nat, tokenType: string, refreshToken: Option<string>)

  /** `token` decodes, for the hour after `now`, to exactly `state`. */
  ghost predicate AccessValid(codecs: Codecs, token: AccessToken, state: AccessState, now: int, leeway: nat) {
    forall t :: now <= t <= now + codecs.access.duration ==>
      Jwt.Decode(codecs.access, token, t, leeway, ReadAccess) == Ok(state)
  }

  /** An access token minted at `now` with the scopes in their text form decodes back while it lives. */
  lemma MintedAccessValid(codecs: Codecs, client: AppId, user: UserId, text: string, scopes: Scopes.ScopeSet, now: int, leeway: nat)
    requires Scopes.ParseScopes(text) == Some(scopes)
    ensures AccessValid(codecs, Jwt.Encode(codecs.access, AccessWire(client, user, text), now),
                        AccessState(client, user, scopes), now, leeway)
  {
    forall t | now <= t <= now + codecs.access.duration
      ensures Jwt.Decode(codecs.access, Jwt.Encode(codecs.access, AccessWire(client, user, text), now), t, leeway, ReadAccess)
              == Ok(AccessState(client, user, scopes))
    {
      Jwt.RoundTrip(codecs.access, AccessWire(client, user, text), AccessState(client, user, scopes), now, t, leeway, ReadAccess);
    }
  }

  /**
   * What the refresh upsert of `token` leaves behind: with `stored` the returned refresh
   * token, the table as the upsert of the fresh row leaves it: that row for the
   * (user, client) pair, every other pair's row as it was, and the pair's previous
   * token gone; without it, the table unchanged.
   */
  ghost predicate RefreshOutcome(before: RefreshSessions.Rows, after: RefreshSessions.Rows, stored: Option<string>,
                                 user: UserId, client: AppId, scopes: Scopes.ScopeSet, now: int, freshToken: string, fault: bool) {
    && (stored.Some? <==> !fault && !(freshToken in before && !RefreshSessions.SamePair(before[freshToken], user, client)))
    && (stored.None? ==> after == before)
    && (stored.Some? ==>
          && stored.value == freshToken && freshToken in after
          && after[freshToken].usersId == user && after[freshToken].appId == client
          && after[freshToken].expiration == now + 180 * 86400
          && Scopes.ParseScopes(after[freshToken].initialScopes) == Some(scopes)
          && (exists row: RefreshSessions.RefreshSession :: row.token == freshToken && RefreshSessions.Upsert(before, row) == Ok(after))
          && (forall t :: t in before && !RefreshSessions.SamePair(before[t], user, client) ==> t in after && after[t] == before[t])
          && (forall t :: t in before && RefreshSessions.SamePair(before[t], user, client) && t != freshToken ==> t !in after))
  }

  /**
   * `token` at time `now`. `freshToken` is the refresh token the store draws and
   * `fault` a failure of its upsert: that failure only drops `refresh_token` from
   * the response. The access token decodes, for its whole hour, to the client, the
   * user and the scopes the grant produced.
   */
  method Token(codecs: Codecs, apps: Apps.AppDirectory, refresh: RefreshSessions.RefreshStore,
               auth: Option<BasicAuthorization>, q: TokenQuery, parseUuid: UuidParser,
               now: int, leeway: nat, freshToken: string, fault: bool)
    returns (r: Result<TokenResponse, string>)
    requires apps.Valid() && RefreshSessions.Valid(refresh.rows)
    requires |freshToken| == 32 && IsAlphanumeric(freshToken)
    modifies refresh
    ensures RefreshSessions.Valid(refresh.rows)
    ensures var d := TokenDecision(codecs, apps, auth, q, old(refresh.rows), parseUuid, now, leeway);
      d.Err? ==> r == Err(d.error) && refresh.rows == old(refresh.rows)
    ensures var d := TokenDecision(codecs, apps, auth, q, old(refresh.rows), parseUuid, now, leeway);
      d.Ok? ==>
        && r.Ok? && r.value.expiresIn == 3600 && r.value.tokenType == "Bearer"
        && AccessValid(codecs, r.value.accessToken, AccessState(d.value.0, d.value.1, d.value.2), now, leeway)
        && RefreshOutcome(old(refresh.rows), refresh.rows, r.value.refreshToken, d.value.1, d.value.0, d.value.2,
                          now, freshToken, fault)
  {
    var authenticated := Authenticate(apps, auth, q.clientId, q.clientSecret, parseUuid);
    if authenticated.Err? {
      return Err(authenticated.error);
    }
    var (client, app) := authenticated.value;
    assert app.id == client;
    var grant := ResolveGrant(codecs, app.id, q, refresh.rows, now, leeway);
    if grant.Err? {
      return Err(grant.error);
    }
    var (user, scopes) := grant.value;
    assert TokenDecision(codecs, apps, auth, q, refresh.rows, parseUuid, now, leeway) == Ok((client, user, scopes));
    var stored := refresh.InsertOrRefresh(user, app.id, scopes, now, freshToken, fault);
    var refreshToken := if stored.Ok? then Some(stored.value) else None;
    var text := Scopes.Format(scopes);
    var access := Jwt.Encode(codecs.access, AccessWire(client, user, text), now);
    MintedAccessValid(codecs, client, user, text, scopes, now, leeway);
    r := Ok(TokenResponse(access, ACCESS_TOKEN_SECONDS, "Bearer", refreshToken));
  }

  // ---------------------------------------------------------------------------
  // Bearer guard and userinfo

  datatype BearerSession = BearerSession(user: Users.User, scopes: Scopes.ScopeSet)

  /**
   * `BearerSession::from_request`: `bearer` is the token after "Bearer " in the
   * `Authorization` header, if the header has that form. The token must decode on the
   * access codec and name a user that exists.
   */
  function BearerGuard(codecs: Codecs, users: Users.UserDirectory, bearer: Option<AccessToken>, now: int, leeway: nat)
    : (r: Outcome<BearerSession>)
    reads users
    ensures bearer.None? ==> r == Failure(STATUS_BAD_REQUEST, "missing bearer authentication header")
    ensures r.Success? <==>
      && bearer.Some?
      && Jwt.Decode(codecs.access, bearer.value, now, leeway, ReadAccess).Ok?
      && Jwt.Decode(codecs.access, bearer.value, now, leeway, ReadAccess).value.user in users.users
    ensures bearer.Some? && Jwt.Decode(codecs.access, bearer.value, now, leeway, ReadAccess).Err? ==>
      r == Failure(STATUS_UNAUTHORIZED, "cannot validate access token")
    ensures r.Success? ==>
      var state := Jwt.Decode(codecs.access, bearer.value, now, leeway, ReadAccess).value;
      r.value == BearerSession(users.users[state.user], state.scopes)
    ensures !r.Success? && bearer.Some? && Jwt.Decode(codecs.access, bearer.value, now, leeway, ReadAccess).Ok? ==>
      r == Failure(STATUS_INTERNAL_SERVER_ERROR, "authentication successful but user not in database")
    ensures !r.Panicked?
  {
    match bearer
    case None => Failure(STATUS_BAD_REQUEST, "missing bearer authentication header")
    case Some(token) =>
      match Jwt.Decode(codecs.access, token, now, leeway, ReadAccess)
      case Err(_) => Failure(STATUS_UNAUTHORIZED, "cannot validate access token")
      case Ok(state) =>
        match users.FindById(state.user)
        case Ok(None) => Failure(STATUS_INTERNAL_SERVER_ERROR, "authentication successful but user not in database")
        case Ok(Some(user)) => Success(BearerSession(user, state.scopes))
  }

  datatype UserInfo = UserInfo(sub: UserId, name: string, email: Option<string>)

  /** `userinfo`: the account's id and name, and its email only under the `email` scope. */
  function Userinfo(session: BearerSession): (r: UserInfo)
    ensures r.sub == session.user.id && r.name == session.user.username
    ensures r.email.Some? <==> session.user.email.Some? && Scopes.Email in session.scopes
    ensures r.email.Some? ==> r.email == session.user.email
  {
    UserInfo(session.user.id, session.user.username,
             if Scopes.Email in session.scopes then session.user.email else None)
  }
}
