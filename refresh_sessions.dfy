/**
 * OAuth2 refresh sessions (model/oauth2session.rs): the `sessions_oauth2`
 * table, keyed by token, with at most one row per (user, app) pair.
 */
module RefreshSessions {
  import opened Wrappers
  import opened Text
  import opened Ids
  import opened Errors
  import Scopes

  const REFRESH_DAYS: int := 6 * 30

  datatype RefreshSession = RefreshSession(
    token: string,
    usersId: UserId,
    appId: AppId,
    initialScopes: string,
    expiration: int)

  type Rows = map<string, RefreshSession>

  /** Rows are keyed by their token and there is at most one row per (user, app) pair. */
  ghost predicate Valid(rows: Rows) {
    && (forall t :: t in rows ==> rows[t].token == t)
    && (forall t, u :: t in rows && u in rows && rows[t].usersId == rows[u].usersId && rows[t].appId == rows[u].appId ==> t == u)
  }

  predicate SamePair(s: RefreshSession, user: UserId, app: AppId) {
    s.usersId == user && s.appId == app
  }

  /** The rows that belong to another (user, app) pair. */
  function Others(rows: Rows, user: UserId, app: AppId): (r: Rows)
    ensures forall t :: t in r <==> t in rows && !SamePair(rows[t], user, app)
    ensures forall t :: t in r ==> r[t] == rows[t]
  {
    map t | t in rows && !SamePair(rows[t], user, app) :: rows[t]
  }

  /**
   * The `INSERT … ON CONFLICT (users_id, user_apps_id) DO UPDATE` statement: the row
   * of the same pair, if any, is replaced by `row`; a token already used by another
   * pair violates the primary key and changes nothing.
   */
  function Upsert(rows: Rows, row: RefreshSession): (r: Result<Rows, DieselError>)
    ensures r.Err? <==> row.token in rows && !SamePair(rows[row.token], row.usersId, row.appId)
  {
    if row.token in rows && !SamePair(rows[row.token], row.usersId, row.appId) then
      Err(UniqueViolation("sessions_oauth2_pkey"))
    else
      Ok(Others(rows, row.usersId, row.appId)[row.token := row])
  }

  /** The table invariant survives an upsert. */
  lemma UpsertPreservesValid(rows: Rows, row: RefreshSession)
    requires Valid(rows)
    requires Upsert(rows, row).Ok?
    ensures Valid(Upsert(rows, row).value)
  {
    var r := Upsert(rows, row).value;
    forall t, u | t in r && u in r && r[t].usersId == r[u].usersId && r[t].appId == r[u].appId
      ensures t == u
    {
      if t != row.token && u != row.token {
        assert r[t] == rows[t] && r[u] == rows[u];
      }
    }
  }

  /**
   * After an upsert the pair has exactly one row, the row one; every row of another
   * pair is untouched; and the pair's previous token no longer opens a session.
   */
  lemma {:induction false} UpsertReplaces(rows: Rows, row: RefreshSession)
    requires Valid(rows)
    requires Upsert(rows, row).Ok?
    ensures var r := Upsert(rows, row).value;
      && row.token in r && r[row.token] == row
      && (forall t :: t in r && SamePair(r[t], row.usersId, row.appId) ==> t == row.token)
      && (forall t :: t in rows && !SamePair(rows[t], row.usersId, row.appId) ==> t in r && r[t] == rows[t])
      && (forall t :: t in rows && SamePair(rows[t], row.usersId, row.appId) && t != row.token ==> t !in r)
  {
    var r := Upsert(rows, row).value;
    var o := Others(rows, row.usersId, row.appId);
    assert r == o[row.token := row];
    forall t | t in rows && !SamePair(rows[t], row.usersId, row.appId)
      ensures t in r && r[t] == rows[t]
    {
      assert t in o;
      assert t != row.token;
    }
  }

  /** The row whose token is `token`, if it is still valid at `now`. */
  function Lookup(rows: Rows, token: string, now: int): (r: Option<RefreshSession>)
    ensures r.Some? <==> token in rows && rows[token].expiration >= now
    ensures r.Some? ==> r.value == rows[token]
  {
    if token in rows && rows[token].expiration >= now then Some(rows[token]) else None
  }

  /** The `sessions_oauth2` table. */
  class RefreshStore {
    var rows: Rows

    constructor ()
      ensures rows == map[] && Valid(rows)
    {
      rows := map[];
    }

    /**
     * `OAuth2Session::insert_or_refresh`: a new 32-character alphanumeric token, the
     * scopes as their text form, and an expiration 180 days after `now`. `fault` stands
     * for any other failure of the statement.
     */
    method InsertOrRefresh(user: UserId, app: AppId, scopes: Scopes.ScopeSet, now: int, freshToken: string, fault: bool)
      returns (r: WartIDResult<string>)
      requires Valid(rows)
      requires |freshToken| == 32 && IsAlphanumeric(freshToken)
      modifies this
      ensures Valid(rows)
      ensures r.Ok? ==> r.value == freshToken && freshToken in rows
      ensures r.Ok? ==> var s := rows[freshToken];
        && s.usersId == user && s.appId == app && s.expiration == now + 180 * 86400
        && Scopes.ParseScopes(s.initialScopes) == Some(scopes)
      ensures r.Ok? ==> exists row: RefreshSession :: row.token == freshToken && Upsert(old(rows), row) == Ok(rows)
      ensures r.Ok? ==> forall t :: t in old(rows) && !SamePair(old(rows)[t], user, app) ==> t in rows && rows[t] == old(rows)[t]
      ensures r.Ok? ==> forall t :: t in old(rows) && SamePair(old(rows)[t], user, app) && t != freshToken ==> t !in rows
      ensures r.Ok? <==> !fault && !(freshToken in old(rows) && !SamePair(old(rows)[freshToken], user, app))
      ensures r.Err? ==> rows == old(rows)
    {
      var text := Scopes.Format(scopes);
      var row := RefreshSession(freshToken, user, app, text, now + REFRESH_DAYS * 86400);
      if fault {
        return Err(Database(QueryFailed("insert into sessions_oauth2")));
      }
      var u := Upsert(rows, row);
      match u
      case Err(e) =>
        r := Err(FromDiesel(e));
      case Ok(next) =>
        UpsertPreservesValid(rows, row);
        UpsertReplaces(rows, row);
        rows := next;
        r := Ok(freshToken);
    }

    /** `OAuth2Session::find_by_token`: the row for `token` whose expiration is not before `now`. */
    method FindByToken(token: string, now: int) returns (r: WartIDResult<Option<RefreshSession>>)
      ensures r.Ok?
      ensures r.value.Some? <==> token in rows && rows[token].expiration >= now
      ensures r.value.Some? ==> r.value.value == rows[token]
    {
      r := Ok(Lookup(rows, token, now));
    }
  }
}
