/**
 * The Discord identity bridge (discord.rs): the bot hands out short-lived
 * login codes signed with a secret it shares with the web server, and only
 * to members of the configured guilds.
 */
module Discord {
  import opened Wrappers
  import opened Ids
  import Lib = JsonWebToken

  /** Login codes are valid for ten minutes. */
  const LOGIN_CODE_SECONDS: int := 10 * 60

  /** The claims of a login code: expiry, the Discord user id and the Discord name. */
  datatype IdentityClaims = IdentityClaims(exp: int, sub: U64, name: string)

  type LoginToken = Lib.Token<IdentityClaims>

  function Exp(c: IdentityClaims): int {
    c.exp
  }

  /** `encode`: a login code for `user`, issued at `now`. */
  function Encode(key: Lib.Key, user: U64, name: string, now: int): (t: LoginToken)
    ensures Lib.SignedUnder(t, key)
    ensures t.payload.sub == user && t.payload.name == name
    ensures t.payload.exp - now == 600
  {
    Lib.Encode(IdentityClaims(now + LOGIN_CODE_SECONDS, user, name), key)
  }

  /** `UnauthorizedError`. */
  datatype UnauthorizedError = Expired | Invalid(kind: Lib.ErrorKind)

  /** The `Display` text of an `UnauthorizedError`. */
  function UnauthorizedText(e: UnauthorizedError): string {
    match e
    case Expired => "expired login code, try regenerating a newer one"
    case Invalid(kind) => "invalid login code: " + Lib.ErrorText(kind)
  }

  /**
   * `DiscordAgent::try_authorize` with the library's `leeway`: an expired signature is
   * `Expired`, every other library error is `Invalid`.
   */
  function TryAuthorize(key: Lib.Key, t: LoginToken, now: int, leeway: nat): (r: Result<IdentityClaims, UnauthorizedError>)
    ensures r.Ok? <==> Lib.SignedUnder(t, key) && now - leeway <= t.payload.exp
    ensures r.Ok? ==> r.value == t.payload
    ensures r == Err(Expired) <==> Lib.SignedUnder(t, key) && t.payload.exp < now - leeway
    ensures !Lib.SignedUnder(t, key) ==> r.Err? && r.error.Invalid?
  {
    match Lib.Decode(t, key, true, leeway, now, Exp)
    case Ok(claims) => Ok(claims)
    case Err(kind) => if kind == Lib.ExpiredSignature then Err(Expired) else Err(Invalid(kind))
  }

  /**
   * The bot and the agent derive their keys from one secret: a code the bot issues
   * at `issued` authorizes its user until ten minutes later (plus the leeway), and is
   * `Expired` afterwards. A code signed with another secret is `Invalid`.
   */
  lemma SharedSecret(secret: Lib.Key, other: Lib.Key, user: U64, name: string, issued: int, now: int, leeway: nat)
    requires |secret| == 32 && other != secret
    ensures now <= issued + 600 + leeway ==>
      TryAuthorize(secret, Encode(secret, user, name, issued), now, leeway) == Ok(IdentityClaims(issued + 600, user, name))
    ensures now > issued + 600 + leeway ==>
      TryAuthorize(secret, Encode(secret, user, name, issued), now, leeway) == Err(Expired)
    ensures TryAuthorize(other, Encode(secret, user, name, issued), now, leeway) == Err(Invalid(Lib.InvalidSignature))
  {
    var t := Encode(secret, user, name, issued);
    assert t.payload == IdentityClaims(issued + 600, user, name);
  }

  /** The message-author filter of the `message` event: bots never, humans in a DM or when mentioning the bot. */
  function ShouldHandle(authorIsBot: bool, isPrivate: bool, mentionsMe: Option<bool>): (r: bool)
    ensures r <==> !authorIsBot && (isPrivate || mentionsMe == Some(true))
  {
    !(authorIsBot || !(isPrivate || mentionsMe.GetOr(false)))
  }

  /** The parts of a received message the handler looks at. */
  datatype Message = Message(authorId: U64, authorName: string, authorIsBot: bool, isPrivate: bool, mentionsMe: Option<bool>)

  /** What the handler does with a message. */
  datatype Reaction =
    | Ignored
    | RefusedStranger
    | NoPrivateChannel(publicHint: bool)
    | SentLoginCode(publicHint: bool, url: string, code: LoginToken)

  /** The event handler of the bot. */
  class Handler {
    const key: Lib.Key
    const loginUrl: string
    const allowedGuilds: seq<U64>
    var allowedUsersCache: seq<U64>

    /** The handler built at ignition: the login URL sits under the server's base URL. */
    constructor (secret: Lib.Key, baseUrl: string, guilds: seq<U64>)
      requires |secret| == 32
      ensures key == secret && loginUrl == baseUrl + "login-with-discord?token=" && allowedGuilds == guilds
      ensures allowedUsersCache == []
    {
      key := secret;
      loginUrl := baseUrl + "login-with-discord?token=";
      allowedGuilds := guilds;
      allowedUsersCache := [];
    }

    /**
     * `Handler::is_user_allowed`: a cached user is allowed at once; otherwise the
     * guilds are asked in order (`isMember(guild, user)` is the guild-member request
     * succeeding), and the first one that knows the user adds the user to the cache.
     */
    method IsUserAllowed(user: U64, isMember: (U64, U64) -> bool) returns (allowed: bool)
      modifies this
      ensures allowed <==> user in old(allowedUsersCache) || exists g :: g in allowedGuilds && isMember(g, user)
      ensures user in old(allowedUsersCache) ==> allowedUsersCache == old(allowedUsersCache)
      ensures user !in old(allowedUsersCache) && allowed ==> allowedUsersCache == old(allowedUsersCache) + [user]
      ensures !allowed ==> allowedUsersCache == old(allowedUsersCache)
      ensures old(allowedUsersCache) <= allowedUsersCache
    {
      if user in allowedUsersCache {
        return true;
      }
      var i := 0;
      while i < |allowedGuilds|
        invariant 0 <= i <= |allowedGuilds|
        invariant forall j :: 0 <= j < i ==> !isMember(allowedGuilds[j], user)
        invariant allowedUsersCache == old(allowedUsersCache)
      {
        if isMember(allowedGuilds[i], user) {
          allowedUsersCache := allowedUsersCache + [user];
          return true;
        }
        i := i + 1;
      }
      return false;
    }

    /**
     * The `message` event at time `now`; `privateChannelOpened` is whether opening the
     * direct-message channel succeeded. Unless the message is filtered out or the
     * author is a stranger, the author receives a login code in a direct message,
     * after a public hint when the request was made in a guild channel.
     */
    method OnMessage(m: Message, isMember: (U64, U64) -> bool, now: int, privateChannelOpened: bool)
      returns (reaction: Reaction)
      modifies this
      ensures !ShouldHandle(m.authorIsBot, m.isPrivate, m.mentionsMe) ==>
        reaction == Ignored && allowedUsersCache == old(allowedUsersCache)
      ensures reaction.RefusedStranger? <==>
        && ShouldHandle(m.authorIsBot, m.isPrivate, m.mentionsMe)
        && m.authorId !in old(allowedUsersCache)
        && (forall g :: g in allowedGuilds ==> !isMember(g, m.authorId))
      ensures reaction.SentLoginCode? ==> privateChannelOpened && reaction.publicHint == !m.isPrivate
      ensures reaction.SentLoginCode? ==> reaction.code == Encode(key, m.authorId, m.authorName, now)
      ensures reaction.SentLoginCode? ==> reaction.url == loginUrl
      ensures reaction.NoPrivateChannel? ==> !privateChannelOpened
      ensures ShouldHandle(m.authorIsBot, m.isPrivate, m.mentionsMe) && !reaction.RefusedStranger? ==>
        if privateChannelOpened then reaction.SentLoginCode? else reaction == NoPrivateChannel(!m.isPrivate)
      ensures m.authorId in old(allowedUsersCache) || (!reaction.SentLoginCode? && !reaction.NoPrivateChannel?) ==>
        allowedUsersCache == old(allowedUsersCache)
      ensures m.authorId !in old(allowedUsersCache) && (reaction.SentLoginCode? || reaction.NoPrivateChannel?) ==>
        allowedUsersCache == old(allowedUsersCache) + [m.authorId]
      ensures old(allowedUsersCache) <= allowedUsersCache
    {
      if !ShouldHandle(m.authorIsBot, m.isPrivate, m.mentionsMe) {
        return Ignored;
      }
      var allowed := IsUserAllowed(m.authorId, isMember);
      if !allowed {
        return RefusedStranger;
      }
      var publicHint := !m.isPrivate;
      if !privateChannelOpened {
        return NoPrivateChannel(publicHint);
      }
      var code := Encode(key, m.authorId, m.authorName, now);
      reaction := SentLoginCode(publicHint, loginUrl, code);
    }
  }

  /**
   * End to end: a code the bot sends to an allowed user, built on the same secret as
   * the agent, authorizes exactly that user for ten minutes.
   */
  lemma {:induction false} SentCodeAuthorizes(h: Handler, r: Reaction, m: Message, now: int, later: int, leeway: nat)
    requires r.SentLoginCode? && r.code == Encode(h.key, m.authorId, m.authorName, now)
    requires now <= later <= now + 600
    ensures TryAuthorize(h.key, r.code, later, leeway).Ok?
    ensures TryAuthorize(h.key, r.code, later, leeway).value.sub == m.authorId
    ensures TryAuthorize(h.key, r.code, later, leeway).value.name == m.authorName
  {
    assert r.code.payload == IdentityClaims(now + 600, m.authorId, m.authorName);
  }
}
