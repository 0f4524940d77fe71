/**
 * Accounts (model/user.rs): the `users` table, the find-or-create step of a
 * Discord login, the bit reinterpretation that stores a Discord id in a signed
 * column, and the login dispatch.
 */
module Users {
  import opened Wrappers
  import opened Ids
  import opened Errors
  import Lib = JsonWebToken
  import Discord

  datatype User = User(id: UserId, username: string, password: Option<string>, email: Option<string>, discordId: Option<I64>)

  const TWO_POW_63: int := 0x8000_0000_0000_0000
  const TWO_POW_64: int := 0x1_0000_0000_0000_0000

  /** The `transmute::<u64, i64>` of a Discord id: the two's-complement reading of the same 64 bits. */
  function ToI64(x: U64): (r: I64)
    ensures (r as int - x as int) % TWO_POW_64 == 0
    ensures r < 0 <==> x as int >= TWO_POW_63
  {
    if x as int < TWO_POW_63 then x as int as I64 else (x as int - TWO_POW_64) as I64
  }

  /** The reverse reading, from the signed column back to the unsigned id. */
  function ToU64(y: I64): (r: U64)
    ensures (r as int - y as int) % TWO_POW_64 == 0
  {
    if y >= 0 then y as int as U64 else (y as int + TWO_POW_64) as U64
  }

  /** The reinterpretation is a bijection between the two 64-bit ranges. */
  lemma ReinterpretBijection(x: U64, y: I64)
    ensures ToU64(ToI64(x)) == x
    ensures ToI64(ToU64(y)) == y
    ensures ToI64(x) == y <==> ToU64(y) == x
  {
  }

  /** Distinct Discord ids are stored as distinct column values. */
  lemma ToI64Injective(a: U64, b: U64)
    requires ToI64(a) == ToI64(b)
    ensures a == b
  {
    ReinterpretBijection(a, ToI64(a));
    ReinterpretBijection(b, ToI64(b));
  }

  type Table = map<UserId, User>

  /** Rows are keyed by their id and no two accounts share a Discord id. */
  ghost predicate Valid(users: Table) {
    && (forall id :: id in users ==> users[id].id == id)
    && (forall a, b :: a in users && b in users && users[a].discordId.Some? && users[a].discordId == users[b].discordId ==> a == b)
  }

  ghost predicate HasDiscordId(users: Table, d: I64) {
    exists id :: id in users && users[id].discordId == Some(d)
  }

  /** The account `find_or_create_by_discord_id` creates for a Discord user seen for the first time. */
  function DiscordUser(id: UserId, discord: U64, name: string): (u: User)
    ensures u.id == id && u.username == name && u.password.None? && u.email.None?
    ensures u.discordId == Some(ToI64(discord))
  {
    User(id, name, None, None, Some(ToI64(discord)))
  }

  /**
   * `find_or_create_by_discord_id` as a function of the table: the account holding the
   * Discord id if there is one, otherwise a new account under the id the database
   * generates (`newId`); an id already taken is a primary-key violation.
   */
  ghost function FindOrCreate(users: Table, discord: U64, name: string, newId: UserId): (r: Result<(Table, User), DieselError>)
    ensures HasDiscordId(users, ToI64(discord)) ==> r.Ok? && r.value.0 == users && r.value.1 in users.Values
    ensures r.Ok? ==> r.value.1.discordId == Some(ToI64(discord)) && r.value.1 in r.value.0.Values
    ensures r.Err? <==> !HasDiscordId(users, ToI64(discord)) && newId in users
  {
    var d := ToI64(discord);
    if HasDiscordId(users, d) then
      var id :| id in users && users[id].discordId == Some(d);
      Ok((users, users[id]))
    else if newId in users then
      Err(UniqueViolation("users_pkey"))
    else
      var u := DiscordUser(newId, discord, name);
      assert users[newId := u][newId] == u;
      Ok((users[newId := u], u))
  }

  /** A first login creates the account with the Discord name, no password, no email. */
  lemma FirstLoginCreates(users: Table, discord: U64, name: string, newId: UserId)
    requires !HasDiscordId(users, ToI64(discord)) && newId !in users
    ensures FindOrCreate(users, discord, name, newId) == Ok((users[newId := DiscordUser(newId, discord, name)], DiscordUser(newId, discord, name)))
  {
  }

  /** The table invariant survives find-or-create. */
  lemma FindOrCreatePreservesValid(users: Table, discord: U64, name: string, newId: UserId)
    requires Valid(users)
    requires FindOrCreate(users, discord, name, newId).Ok?
    ensures Valid(FindOrCreate(users, discord, name, newId).value.0)
  {
    var d := ToI64(discord);
    if !HasDiscordId(users, d) {
      var next := FindOrCreate(users, discord, name, newId).value.0;
      assert next == users[newId := DiscordUser(newId, discord, name)];
      forall a | a in users
        ensures users[a].discordId != Some(d)
      {
      }
    }
  }

  /**
   * Idempotence: once a Discord user has an account, find-or-create returns that same
   * account and leaves the table alone, whatever name or fresh id the next call brings.
   */
  lemma {:induction false} FindOrCreateIdempotent(users: Table, discord: U64, name: string, newId: UserId, name2: string, newId2: UserId)
    requires Valid(users)
    requires FindOrCreate(users, discord, name, newId).Ok?
    ensures var (next, u) := FindOrCreate(users, discord, name, newId).value;
      FindOrCreate(next, discord, name2, newId2) == Ok((next, u))
  {
    var (next, u) := FindOrCreate(users, discord, name, newId).value;
    var d := ToI64(discord);
    FindOrCreatePreservesValid(users, discord, name, newId);
    assert next[u.id] == u by {
      if HasDiscordId(users, d) {
        var id :| id in users && users[id].discordId == Some(d);
        assert u == users[id];
      }
    }
    assert HasDiscordId(next, d);
    var id2 :| id2 in next && next[id2].discordId == Some(d);
    assert FindOrCreate(next, discord, name2, newId2) == Ok((next, next[id2]));
    assert id2 == u.id;
  }

  /**
   * `discord_login::verify_jwt`: the login code is checked with expiry validation, and
   * its Discord id and name come back; a failure is the library error's text.
   */
  function VerifyJwt(key: Lib.Key, token: Discord.LoginToken, now: int, leeway: nat): (r: Result<(U64, string), string>)
    ensures r.Ok? <==> Lib.SignedUnder(token, key) && now - leeway <= token.payload.exp
    ensures r.Ok? ==> r.value == (token.payload.sub, token.payload.name)
    ensures r.Err? && Lib.SignedUnder(token, key) ==> r.error == "ExpiredSignature"
  {
    match Lib.Decode(token, key, true, leeway, now, Discord.Exp)
    case Err(e) => Err(Lib.ErrorText(e))
    case Ok(claims) => Ok((claims.sub, claims.name))
  }

  /** The `users` table. */
  class UserDirectory {
    var users: Table

    constructor ()
      ensures users == map[] && Valid(users)
    {
      users := map[];
    }

    /** `User::find_all`: every account, or only those linked to Discord when guests are excluded. */
    function FindAll(includeGuests: bool): (r: set<User>)
      reads this
      ensures includeGuests ==> r == users.Values
      ensures !includeGuests ==> forall u :: u in r <==> u in users.Values && u.discordId.Some?
    {
      if includeGuests then users.Values else set u | u in users.Values && u.discordId.Some?
    }

    /** `User::find_by_id`: the account with that id, if any. */
    function FindById(id: UserId): (r: WartIDResult<Option<User>>)
      reads this
      ensures r.Ok?
      ensures r.value.Some? <==> id in users
      ensures r.value.Some? ==> r.value.value == users[id]
    {
      Ok(if id in users then Some(users[id]) else None)
    }

    /** `User::find_or_create_by_discord_id`. */
    method FindOrCreateByDiscordId(discord: U64, name: string, newId: UserId) returns (r: WartIDResult<User>)
      requires Valid(users)
      modifies this
      ensures Valid(users)
      ensures FindOrCreate(old(users), discord, name, newId).Ok? ==>
        r == Ok(FindOrCreate(old(users), discord, name, newId).value.1)
        && users == FindOrCreate(old(users), discord, name, newId).value.0
      ensures FindOrCreate(old(users), discord, name, newId).Err? ==>
        r == Err(Database(FindOrCreate(old(users), discord, name, newId).error)) && users == old(users)
    {
      var d := ToI64(discord);
      if id :| id in users && users[id].discordId == Some(d) {
        ghost var spec := FindOrCreate(users, discord, name, newId);
        assert spec.value.1 == users[id];
        return Ok(users[id]);
      }
      if newId in users {
        return Err(FromDiesel(UniqueViolation("users_pkey")));
      }
      FindOrCreatePreservesValid(users, discord, name, newId);
      var u := DiscordUser(newId, discord, name);
      users := users[newId := u];
      r := Ok(u);
    }

    /**
     * `User::attempt_login`: an empty username means the password is a Discord login
     * code, and a verification failure is `InvalidCredentials` with its text; any other
     * username yields no user, since password login is not implemented.
     */
    method AttemptLogin(username: string, password: Discord.LoginToken, key: Lib.Key, now: int, leeway: nat, newId: UserId)
      returns (r: WartIDResult<Option<User>>)
      requires Valid(users)
      modifies this
      ensures Valid(users)
      ensures username != "" ==> r == Ok(None) && users == old(users)
      ensures username == "" && VerifyJwt(key, password, now, leeway).Err? ==>
        r == Err(InvalidCredentials(VerifyJwt(key, password, now, leeway).error)) && users == old(users)
      ensures username == "" && VerifyJwt(key, password, now, leeway).Ok? ==>
        var (discord, name) := VerifyJwt(key, password, now, leeway).value;
        match FindOrCreate(old(users), discord, name, newId)
        case Ok((next, u)) => r == Ok(Some(u)) && users == next
        case Err(e) => r == Err(Database(e)) && users == old(users)
    {
      if username == "" {
        var verified := VerifyJwt(key, password, now, leeway);
        if verified.Err? {
          return Err(InvalidCredentials(verified.error));
        }
        var (discord, name) := verified.value;
        var found := FindOrCreateByDiscordId(discord, name, newId);
        if found.Err? {
          return Err(found.error);
        }
        return Ok(Some(found.value));
      }
      return Ok(None);
    }
  }
}
