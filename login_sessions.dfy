/**
 * Browser login sessions (model/session.rs): the `sessions` table, whose rows
 * expire fourteen days after they are created.
 */
module LoginSessions {
  import opened Wrappers
  import opened Ids
  import opened Errors

  const SECONDS_PER_DAY: int := 86400
  const SESSION_DAYS: int := 14

  datatype Session = Session(id: SessionId, usersId: UserId, expiration: int)

  /** A row to be inserted: the database fills in the id. */
  datatype NewSession = NewSession(usersId: UserId, expiration: int)

  /** `NewSession::new`: a session for `user` valid for fourteen days from `now`. */
  function NewSessionFor(user: UserId, now: int): (s: NewSession)
    ensures s.usersId == user
    ensures s.expiration - now == 14 * 24 * 60 * 60
  {
    NewSession(user, now + SESSION_DAYS * SECONDS_PER_DAY)
  }

  /** The user a live session row names, if `id` has one still valid at `now`. */
  function Lookup(rows: map<SessionId, Session>, id: SessionId, now: int): (r: Option<UserId>)
    ensures r.Some? <==> id in rows && rows[id].expiration >= now
    ensures r.Some? ==> r.value == rows[id].usersId
  {
    if id in rows && rows[id].expiration >= now then Some(rows[id].usersId) else None
  }

  /** A session is found until its expiration instant, inclusive, and never after it. */
  lemma {:induction false} FreshSessionLifetime(rows: map<SessionId, Session>, id: SessionId, user: UserId, created: int, now: int)
    requires id in rows
    requires rows[id] == Session(id, user, NewSessionFor(user, created).expiration)
    ensures Lookup(rows, id, now) == Some(user) <==> now <= created + 14 * 86400
    ensures Lookup(rows, id, now).None? <==> now > created + 14 * 86400
  {
    var e := NewSessionFor(user, created).expiration;
    assert e == created + 14 * 86400;
  }

  /** The `sessions` table. */
  class SessionStore {
    var rows: map<SessionId, Session>

    ghost predicate Valid()
      reads this
    {
      forall id :: id in rows ==> rows[id].id == id
    }

    constructor ()
      ensures Valid() && rows == map[]
    {
      rows := map[];
    }

    /**
     * `Session::insert`: the row gets the id the database generates (`generatedId`);
     * an id already taken is a primary-key violation.
     */
    method Insert(pending: NewSession, generatedId: SessionId) returns (r: WartIDResult<SessionId>)
      requires Valid()
      modifies this
      ensures Valid()
      ensures r.Ok? <==> generatedId !in old(rows)
      ensures r.Ok? ==> r.value == generatedId
      ensures r.Ok? ==> rows == old(rows)[generatedId := Session(generatedId, pending.usersId, pending.expiration)]
      ensures r.Err? ==> rows == old(rows)
    {
      if generatedId in rows {
        return Err(Database(UniqueViolation("sessions_pkey")));
      }
      rows := rows[generatedId := Session(generatedId, pending.usersId, pending.expiration)];
      r := Ok(generatedId);
    }

    /** `Session::find_by_id`: the owner of a session whose expiration is not before `now`. */
    method FindById(id: SessionId, now: int) returns (r: WartIDResult<Option<UserId>>)
      ensures r.Ok?
      ensures r.value.Some? <==> id in rows && rows[id].expiration >= now
      ensures r.value.Some? ==> r.value.value == rows[id].usersId
    {
      r := Ok(Lookup(rows, id, now));
    }
  }
}
