# WartID identity provider — a Dafny model of its OAuth2 core

WartID is a small OAuth2 identity provider. People log in through a Discord
bot that sends them a short-lived signed login code. Registered client apps
then obtain authorization codes, access tokens and refresh tokens for those
people. This project models the decision logic of that server in Dafny and
proves the properties its code promises. It covers:

- the signed-token codec and its audience and expiry checks;
- the scope set with its parser and printer;
- the authorize, token and userinfo endpoints, with Basic client
  authentication;
- the login-session and refresh-session tables;
- the app and user tables;
- the Discord bridge;
- the panel form handlers, the flash messages of a page, and the
  base-URL check.

One Dafny module stands for each source file:

- `Jwt` stands for `utils/jwt.rs`, and `Scopes` for `model/scopes.rs`.
- `OAuth2` stands for `routes/oauth2.rs`.
- `RefreshSessions` stands for `model/oauth2session.rs`, and `LoginSessions`
  for `model/session.rs`.
- `Apps` and `Users` stand for the two model files.
- `Discord` stands for `discord.rs`.
- `AppsPanel` and `UsersPanel` stand for the two panel route files.
- `PageContexts` stands for `model/page_context.rs`, `Config` for `config.rs`,
  and `Errors` for `model/mod.rs`.

Four support modules complete the project:

- `Wrappers` holds `Option` and `Result`.
- `Text` holds the `str` operations the code uses: `strip_prefix`,
  `split_once`, `starts_with`, and the UTF-8 byte length that `len` returns.
- `Ids` holds UUIDs and the 64-bit integer ranges.
- `JsonWebToken` is an idealised stand-in for the `jsonwebtoken` library.

Modelling conventions:

- **Time.** Time is whole seconds. Every reading of the clock is a `now`
  parameter.
- **Signatures.** An HMAC-signed token is the value `Signed(payload, key)`.
  Any other text is `Unreadable`. A signature verifies exactly under the key
  that made it.
- **Random values.** Each random value is a parameter whose precondition
  states the shape of the draw. This covers generated secrets and tokens, the
  32-byte keys, and the ids the database assigns.
- **Tables.** Each table is a map held by a class. Its methods update the map
  in place. Pure functions over the maps specify those methods, and the lemmas
  are proved about the functions.
- **Scopes on the wire.** A token payload carries its scopes in their text
  form, just as the scope set serialises. Decoding parses them back.
- **One version.** The sources mix versions. The model follows the
  Rocket 0.5 OAuth2 routes together with the `discord.rs` bridge.
- **`InvalidForm`.** `routes/oauth2.rs` raises an `InvalidForm` error that the
  `WartIDError` enum in `model/mod.rs` lacks. The model follows the routes and
  adds that case.

## Model

| member | source | states |
|---|---|---|
| JsonWebToken.Encode | wartid-server/src/utils/jwt.rs:62-72 | the token is signed under the given key and carries the payload |
| JsonWebToken.Decode | wartid-server/src/utils/jwt.rs:76-77 | library decoding: accepted iff signed under the key and, when expiry is validated, not expired beyond the leeway; `ExpiredSignature` exactly for a genuine token past its expiry and leeway |
| Jwt.New | wartid-server/src/utils/jwt.rs:45-57 | a codec keeps its audience and duration, and its key is the 32 freshly drawn bytes |
| Jwt.Encode | wartid-server/src/utils/jwt.rs:59-73 | the token is signed with the codec's key; `aud` is the codec's audience, `iat` is now, `exp` is now plus the duration, and the subject is unchanged |
| Jwt.Decode | wartid-server/src/utils/jwt.rs:75-90 | a token not signed under the key is `InvalidSignature`, and so is any library or deserialisation failure; `InvalidAudience` iff a genuine token names another audience; `Expired` iff it is past `exp` but within the library's leeway; success iff genuine, right audience and now <= exp, and it returns the subject |
| Jwt.RoundTrip | wartid-server/src/utils/jwt.rs:59-90 | decoding what the same codec encoded, no later than its expiry, returns the subject |
| Jwt.ForeignKeyRejected | wartid-server/src/utils/jwt.rs:45-57 | a token from a codec with another key decodes to `InvalidSignature` |
| Jwt.ExpiryBoundary | wartid-server/src/utils/jwt.rs:76-87 | at now == exp the token is accepted; one second later it is `Expired` within a leeway and `InvalidSignature` beyond it |
| Jwt.NoLeewayNeverExpired | wartid-server/src/utils/jwt.rs:76-87 | with a library leeway of 0 the manual expiry check never fires, because the library has already rejected the token |
| Scopes.ParseScope | wartid-server/src/model/scopes.rs:17-28 | a single scope parses iff the text is exactly "basic", "email" or "dev", and then its name is that text; any other text names no scope |
| Scopes.NameParses | wartid-server/src/model/scopes.rs:17-38 | parsing the Display text of any scope returns that scope |
| Scopes.NameInjective | wartid-server/src/model/scopes.rs:30-38 | distinct scopes have distinct names |
| Scopes.Words | wartid-server/src/model/scopes.rs:53-54 | splitting on ASCII whitespace yields only non-empty words free of whitespace |
| Scopes.ParseAll | wartid-server/src/model/scopes.rs:53-57 | the parse succeeds iff every word names a scope, with no partial result; the result holds exactly the scopes whose names occur |
| Scopes.ParseScopes | wartid-server/src/model/scopes.rs:49-58 | `OAuth2Scopes::from_str`: succeeds iff every whitespace-separated word is known, and then yields the set of the named scopes |
| Scopes.DeserializeScopes | wartid-server/src/model/scopes.rs:76-86 | deserialising a string yields the parsed set, or the error "cannot parse scopes" exactly when parsing fails |
| Scopes.WordsOfJoin | wartid-server/src/model/scopes.rs:61-74 | splitting words joined with single spaces gives the same words back |
| Scopes.ParseJoinedNames | wartid-server/src/model/scopes.rs:53-74 | parsing the space-joined names of an enumeration of a set gives that set back |
| Scopes.EnumerationSize | wartid-server/src/model/scopes.rs:65 | an enumeration of a set without repeats has exactly as many entries as the set |
| Scopes.Format | wartid-server/src/model/scopes.rs:61-74 | Display: the text parses back to the same set, is its own word-split re-joined (single spaces, no leading or trailing space), and has one word per member |
| Scopes.BlankParsesEmpty | wartid-server/src/model/scopes.rs:40-41 | empty or whitespace-only text parses to the empty set, the `Default` |
| Scopes.ParseBasicEmail | wartid-server/src/model/scopes.rs:118-125 | "basic email" parses to {Basic, Email} |
| Scopes.DuplicateWordCollapses | wartid-server/src/model/scopes.rs:41 | repeating a word does not change the parse, because the result is a set |
| Errors.FromDiesel | wartid-server/src/model/mod.rs:36-40 | every database error becomes `Database` wrapping that error |
| Errors.ExtractNotFound | wartid-server/src/model/mod.rs:58-64 | `Ok(x)` gives `Ok(Some(x))`; the result is `Ok(None)` iff the error is `NotFound`; any other error gives `Err(Database(e))` |
| Errors.ExtractNotFoundInjective | wartid-server/src/model/mod.rs:58-64 | different query results never map to the same outcome |
| Apps.OAuth2 | wartid-server/src/model/app.rs:26-30 | `Some((secret, redirect))` iff a secret is set |
| Apps.RedirectRule | wartid-server/src/model/app.rs:32-35 | a URI is allowed iff the configured prefix is longer than 12 bytes and starts the URI; a prefix of 12 bytes or less allows nothing |
| Apps.ShortestRedirectLength | wartid-server/src/model/app.rs:33 | "https://a.bc" is 12 bytes long |
| Apps.RedirectExtends | wartid-server/src/model/app.rs:34 | whatever is appended to an allowed URI keeps it allowed |
| Apps.NewApp | wartid-server/src/model/app.rs:51-56 | a new app has the given name and visibility and OAuth2 disabled |
| Apps.WithOAuth | wartid-server/src/model/app.rs:94-106 | OAuth2 is enabled iff requested; when enabled, the secret is the given one; no other field changes |
| Apps.AppDirectory.Insert | wartid-server/src/model/app.rs:39-68 | the app row and the creator's manager row are added together, or neither is; returns the new id |
| Apps.AppDirectory.FindAll | wartid-server/src/model/app.rs:70-80 | exactly the apps that are not hidden or that the viewer manages |
| Apps.AppDirectory.FindById | wartid-server/src/model/app.rs:82-92 | the app whatever its `hidden` flag, or `None` when it is absent |
| Apps.AppDirectory.SetOAuth | wartid-server/src/model/app.rs:94-106 | sets the given 64-character alphanumeric secret, or clears it; only that column changes; a missing app is `Database(NotFound)` |
| Apps.AppDirectory.SetOAuthRedirectUri | wartid-server/src/model/app.rs:108-120 | only `oauth_redirect` changes; a missing app is `Database(NotFound)` |
| Apps.AppDirectory.SetNameDescription | wartid-server/src/model/app.rs:122-135 | only the name and description change; a missing app is `Database(NotFound)` |
| Users.ToI64 | wartid-server/src/model/user.rs:59 | the stored value is congruent to the id modulo 2^64, and it is negative iff the id is at least 2^63 |
| Users.ToU64 | wartid-server/src/model/user.rs:59 | the reverse reading is congruent modulo 2^64 |
| Users.ReinterpretBijection | wartid-server/src/model/user.rs:59-72 | the two readings are inverse bijections |
| Users.ToI64Injective | wartid-server/src/model/user.rs:59 | distinct Discord ids are stored as distinct values |
| Users.DiscordUser | wartid-server/src/model/user.rs:68-73 | a new account has the Discord name, no password, no email, and the reinterpreted Discord id |
| Users.FindOrCreate | wartid-server/src/model/user.rs:51-76 | an existing account with the Discord id is returned with the table unchanged; otherwise a new account is inserted; it fails iff there is no such account and the generated id is taken |
| Users.FirstLoginCreates | wartid-server/src/model/user.rs:68-75 | a first login inserts exactly the new account |
| Users.FindOrCreatePreservesValid | wartid-server/src/model/user.rs:51-76 | rows stay keyed by id, and no two accounts share a Discord id |
| Users.FindOrCreateIdempotent | wartid-server/src/model/user.rs:58-66 | a second call returns the same account and leaves the table alone |
| Users.VerifyJwt | wartid-server/src/model/user.rs:154-165 | accepted iff correctly signed and not expired beyond the leeway, and then returns (sub, name); a genuine token fails only as "ExpiredSignature" |
| Users.UserDirectory.FindAll | wartid-server/src/model/user.rs:29-38 | with guests: every account; without: exactly the accounts linked to Discord |
| Users.UserDirectory.FindById | wartid-server/src/model/user.rs:40-49 | the account with that id, or `None` |
| Users.UserDirectory.FindOrCreateByDiscordId | wartid-server/src/model/user.rs:51-76 | the result and the new table are those of `FindOrCreate`, and the table invariant is kept |
| Users.UserDirectory.AttemptLogin | wartid-server/src/model/user.rs:78-104 | a non-empty username gives `Ok(None)` and changes nothing; an empty username verifies the code, and a failure is `InvalidCredentials` with the error text; on success it finds or creates the Discord account |
| Discord.Encode | wartid-server/src/discord.rs:34-48 | the code is signed with the bot's key, carries the user id and name, and expires 600 s after now |
| Discord.TryAuthorize | wartid-server/src/discord.rs:174-187 | accepted iff genuine and not expired beyond the leeway, returning the claims; `Expired` exactly for a genuine code past expiry; a forged code is `Invalid` |
| Discord.SharedSecret | wartid-server/src/discord.rs:219-228 | a code made with the shared secret authorizes its user for 10 minutes plus the leeway and is `Expired` afterwards; a code made with another key is `Invalid` |
| Discord.ShouldHandle | wartid-server/src/discord.rs:78-83 | a message is handled iff its author is not a bot and it is a direct message or mentions the bot |
| Discord.Handler.constructor | wartid-server/src/discord.rs:225-233 | the handler starts with an empty cache; the login URL is the base URL plus "login-with-discord?token=" |
| Discord.Handler.IsUserAllowed | wartid-server/src/discord.rs:58-72 | allowed iff cached or a member of some allowed guild; a cached user leaves the cache unchanged; a newly found user is appended; a refusal leaves the cache unchanged; the cache only grows |
| Discord.Handler.OnMessage | wartid-server/src/discord.rs:77-157 | filtered messages are ignored; strangers are refused, with the cache unchanged; any other author gets a login code for their id and name, under the login URL, when the direct-message channel opened and `NoPrivateChannel` otherwise; the public hint is shown iff the request was not a direct message; an author who was not cached is appended to the cache exactly when found in a guild |
| Discord.SentCodeAuthorizes | wartid-server/src/discord.rs:112-120 | a code the bot sends authorizes exactly its recipient for ten minutes |
| LoginSessions.NewSessionFor | wartid-server/src/model/session.rs:48-54 | the session is for the given user and expires 14 days after now |
| LoginSessions.Lookup | wartid-server/src/model/session.rs:31-37 | returns the session's user iff the id matches and expiration >= now |
| LoginSessions.FreshSessionLifetime | wartid-server/src/model/session.rs:28-54 | a new session is found up to and including its 14-day expiry, and never after |
| LoginSessions.SessionStore.Insert | wartid-server/src/model/session.rs:20-26 | adds one row under the generated id and returns that id |
| LoginSessions.SessionStore.FindById | wartid-server/src/model/session.rs:28-38 | returns the user iff the id matches and expiration >= now; never modifies the table |
| RefreshSessions.Others | wartid-server/src/model/oauth2session.rs:49-54 | keeps exactly the rows of other (user, app) pairs, unchanged |
| RefreshSessions.Upsert | wartid-server/src/model/oauth2session.rs:49-54 | fails iff the new token already belongs to another pair |
| RefreshSessions.UpsertPreservesValid | wartid-server/src/model/oauth2session.rs:49-54 | rows stay keyed by token, with at most one row per (user, app) pair |
| RefreshSessions.UpsertReplaces | wartid-server/src/model/oauth2session.rs:41-54 | after an upsert the pair has exactly one row, the new one; other pairs' rows are unchanged; the pair's previous token is gone |
| RefreshSessions.Lookup | wartid-server/src/model/oauth2session.rs:63 | returns a row iff its token matches and expiration >= now |
| RefreshSessions.RefreshStore.InsertOrRefresh | wartid-server/src/model/oauth2session.rs:31-57 | returns the fresh 32-character token; the row holds the user, the app, now + 180 days, and the Display form of the scopes, which parses back to them; the new table is the upsert's, with every other pair's row unchanged and the pair's previous token gone; errors change nothing |
| RefreshSessions.RefreshStore.FindByToken | wartid-server/src/model/oauth2session.rs:59-67 | returns the row iff its token matches and expiration >= now; expired rows stay |
| OAuth2.Implies | wartid-server/src/routes/oauth2.rs:73-77 | `implies!(p => q)` is logical implication |
| OAuth2.ImpliesTruthTable | wartid-server/src/routes/oauth2.rs:79-86 | the four rows of the truth table |
| OAuth2.ReadAuthorize | wartid-server/src/routes/oauth2.rs:23-37 | a code payload reads back iff its scopes text parses |
| OAuth2.ReadAccess | wartid-server/src/routes/oauth2.rs:39-48 | an access payload reads back iff its scopes text parses |
| OAuth2.NewCodecs | wartid-server/src/routes/oauth2.rs:50-55 | the authorize codec has audience "wartid-authorize" and lasts 600 s; the access codec has audience "wartid-access-token" and lasts 3600 s |
| OAuth2.ShortRedirect | wartid-server/src/routes/oauth2.rs:117-121 | the whole URI, or a slash-free piece that sits between a "//" and a "/" of it; the whole URI when there is no "//" |
| OAuth2.ShortRedirectOfUrl | wartid-server/src/routes/oauth2.rs:117-121 | for any URI `scheme//host/path` whose first "//" is the one after `scheme`, with a slash-free host, the short form is the host |
| OAuth2.ShortRedirectWithoutHost | wartid-server/src/routes/oauth2.rs:117-121 | a URI whose first "//" is followed by no '/' is shown whole |
| OAuth2.OAuthClient | wartid-server/src/routes/oauth2.rs:108-111 | the app iff it exists and has OAuth2 enabled |
| OAuth2.MintedCodeValid | wartid-server/src/routes/oauth2.rs:127-133 | a minted code decodes to its client, user, scopes and redirect URI for its ten minutes |
| OAuth2.Authorize | wartid-server/src/routes/oauth2.rs:88-156 | a form error is `InvalidForm`; without a session it redirects to login at base URL plus current URI; otherwise "client not found" and "redirect uri is not configured" are checked in that order; the consent page gets a code iff not (email is requested and the user has no email); the code decodes back to app, user, scopes and redirect URI |
| OAuth2.ParseBasic | wartid-server/src/routes/oauth2.rs:186-221 | no header gives 403; a non-Basic scheme gives 400; an undecodable payload panics; no ':' gives 400; otherwise the credentials are split at the first ':' |
| OAuth2.ClientCredentials | wartid-server/src/routes/oauth2.rs:295-301 | accepted iff the Basic header comes alone or the form id and secret come together; otherwise "multiple auth methods used simultaneously" |
| OAuth2.Authenticate | wartid-server/src/routes/oauth2.rs:295-313 | succeeds iff the credentials are well-formed, the id parses, the app exists and its secret equals the one presented; errors "cannot parse client uuid", "unknown client id" and "invalid client secret" come in that order, and a disabled app never passes |
| OAuth2.ResolveGrant | wartid-server/src/routes/oauth2.rs:315-347 | authorization_code needs a code and no refresh token: the decode error text, "invalid client", or the code's user and scopes; refresh_token needs a refresh token and no code: "No session found…", "Forbidden app", or the stored user and scopes (empty if they do not parse); anything else is the grant-mismatch error |
| OAuth2.TokenDecision | wartid-server/src/routes/oauth2.rs:295-347 | client authentication comes first, then the grant |
| OAuth2.CodeExchange | wartid-server/src/routes/oauth2.rs:319-330 | a live code is exchanged for its user and scopes by its own client, whatever the redirect URI; any other client gets "invalid client" |
| OAuth2.RefreshExchange | wartid-server/src/routes/oauth2.rs:332-345 | a live session of the client yields its user and stored scopes; another client's session gives "Forbidden app" |
| OAuth2.GrantIgnoresRedirectAndScope | wartid-server/src/routes/oauth2.rs:315-328 | the `redirect_uri` and `scope` fields of the token request never affect the grant |
| OAuth2.DecisionNeedsAuthentication | wartid-server/src/routes/oauth2.rs:295-313 | a successful decision used exactly one auth method, and the secret presented is the app's |
| OAuth2.MintedAccessValid | wartid-server/src/routes/oauth2.rs:359-363 | a minted access token decodes to its client, user and scopes for its hour |
| OAuth2.Token | wartid-server/src/routes/oauth2.rs:289-371 | a rejected request returns the decision's error and changes nothing; otherwise expires_in is 3600 and token_type "Bearer", and the access token decodes to client, user and scopes; refresh_token is present iff the upsert succeeded; on success the table is the upsert's, holding the fresh row for the pair, every other pair's row unchanged, and no previous token of the pair; a failed upsert changes nothing |
| OAuth2.BearerGuard | wartid-server/src/routes/oauth2.rs:256-287 | a missing header gives 400; an undecodable token gives 401; a decoded token whose user is missing gives 500; otherwise the session holds that user and the token's scopes |
| OAuth2.Userinfo | wartid-server/src/routes/oauth2.rs:382-393 | returns sub and name; the email appears iff the user has one and the scopes contain email |
| PageContexts.PageContext.constructor | wartid-server/src/model/page_context.rs:16-30 | listings of Discord-linked users and of visible apps; no flash messages; flag false |
| PageContexts.PageContext.AddFlashMessage | wartid-server/src/model/page_context.rs:32-35 | appends (message, is_error) at the end; the flag becomes its old value or is_error; users and apps are unchanged; the flag stays true iff some message is an error |
| Config.DeserializeBaseUrl | wartid-server/src/config.rs:19-33 | accepted iff non-empty and ending in '/', and returned unchanged; otherwise an invalid-value error naming the URL |
| Config.OnlyLastCharacterMatters | wartid-server/src/config.rs:25 | acceptance depends only on the last character; the empty string is refused |
| AppsPanel.Render | wartid-server/src/routes/apps.rs:48-72 | each intent has a single raw form, with exactly its own button set |
| AppsPanel.Finalize | wartid-server/src/routes/apps.rs:90-130 | accepted exactly when the raw form is the rendering of some intent, which is then returned; otherwise `Duplicate` |
| AppsPanel.FinalizeRender | wartid-server/src/routes/apps.rs:90-130 | finalize inverts the rendering |
| AppsPanel.TwoButtonsRefused | wartid-server/src/routes/apps.rs:128 | pressing two buttons at once is `Duplicate` |
| AppsPanel.Applied | wartid-server/src/routes/apps.rs:161-182 | each intent changes only the fields of its setter |
| AppsPanel.ApplyIntent | wartid-server/src/routes/apps.rs:161-182 | runs the setter the intent maps to: the app becomes `Applied` and the table invariant holds; a missing app is `Database(NotFound)` and changes nothing |
| AppsPanel.ViewUpdate | wartid-server/src/routes/apps.rs:137-188 | a name under 3 bytes adds an error flash, updates nothing and shows the app; otherwise the setter runs, a missing app is `Database(NotFound)`, and success adds a non-error flash |
| UsersPanel.FromParam | wartid-server/src/routes/users.rs:19-29 | `NoAtSymbol` iff there is no leading '@'; success iff the rest parses as a UUID |
| UsersPanel.Render | wartid-server/src/routes/users.rs:65-78 | each intent has a single raw form, with only its own field and button |
| UsersPanel.Finalize | wartid-server/src/routes/users.rs:101-129 | accepted exactly when the raw form is the rendering of some intent; otherwise `Duplicate` |
| UsersPanel.FinalizeRender | wartid-server/src/routes/users.rs:101-129 | finalize inverts the rendering |
| UsersPanel.EmailRule | wartid-server/src/routes/users.rs:165 | an email is accepted iff it is at least 6 bytes long or contains an '@' |
| UsersPanel.ViewUpdate | wartid-server/src/routes/users.rs:132-197 | another user's account gives `InvalidCredentials("invalid account")`; a rejected value adds its error flash and shows the session user; otherwise the update's result is returned, with a success flash if it succeeded |

## Left out

- The HTTP layer is not modelled. This covers Rocket routing, cookies, the
  login-session request guard, HTML templates, and the browser script. The
  login session arrives as the logged-in user or `None`. A guard's `Option`
  result arrives as given.
- The outer form decoding is not modelled. Queries arrive already decoded:
  the authorize scope is already a set, and the authorize form error is its
  text.
- The compact encoding of tokens is not modelled. This covers base64, JSON,
  the header, and HMAC itself.
  - A bearer header arrives as the token it carries.
  - Basic credentials are decoded by a parameter. A parameter result of `None`
    stands for the panic on invalid base64 or UTF-8.
- UUID text parsing belongs to the `uuid` crate. It is a parameter.
- The database is one map per table, and each call is one atomic step.
  - Connection failures and other query errors are not modelled. The only
    failures are a taken primary key, a `fault` parameter on the refresh
    upsert, and the `managerRowRejected` parameter on app insertion.
  - Lookups and setters therefore never fail for other reasons. The
    `Err(format!("{:?}", e))` branches of the token step cannot occur.
  - Listings are sets, because the queries give no order.
- Random draws are parameters. This covers `gen_alphanumeric`, `OsRng` and
  database-generated ids.
- The system clock is a parameter. Timestamps have no sub-second part.
- The `jsonwebtoken` version is not pinned, because the sources mix two
  versions. Its expiry leeway is therefore a parameter (`leeway`). The
  library's own audience check is not modelled: the default validation the
  code uses does not set one.
- `User::update_username`, `update_email` and `update_password` are not part
  of this model. `UsersPanel.ViewUpdate` takes them as the parameter `update`.
- In the Discord bridge, these are not modelled: the Serenity client, the
  ignition and shutdown fairing, sending direct messages, the typing
  indicator, `random_of` with its message texts, the `RwLock`, and the
  standalone bot process. The guild-member request is the parameter
  `isMember`.
- `Discord.Encode`: the encoding error branch of the message handler is not
  modelled, because HMAC encoding of these claims cannot fail.
- The key file of `model/user.rs` is not modelled. The key is a parameter.
- `Users.UserDirectory.AttemptLogin` models the build with the `discord_bot` feature enabled. Without that feature, `attempt_login` always returns `Ok(None)`.
- Code the server never reaches is left out. This covers the statements
  after `return Ok(None)` in `attempt_login`, and the `unreachable!()` for
  response types other than `code`.
- `model/menu.rs`, `id.rs`, `schema.rs`, `main.rs` and `routes/mod.rs` are
  not part of this model.
- `OAuth2Scopes::contains` is Dafny's set membership `in`.
- `Config.DeserializeBaseUrl`: the error holds the URL and the expected
  description, not serde's formatted message text.
