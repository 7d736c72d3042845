/**
 * The login-token exchange (`POST /api/auth/session`): a login page that was told
 * its token completed trades the token id for a session. The handler reads the
 * token row, inserts a session row valid for seven days, sets the `sessionId`
 * cookie and marks the token `used`, in that order. The two tables are maps from
 * id to row; each statement of the database may reject, which `Faults` says.
 */
module AuthSession {
  import opened Wrappers
  import opened JsonValue
  import opened Http

  /** Seven days in milliseconds: `1000 * 60 * 60 * 24 * 7`. */
  const SessionLifetime: int := 1000 * 60 * 60 * 24 * 7

  /** The only status that may be exchanged, and the one it is left in. */
  const Completed := "completed"
  const Used := "used"

  /** A row of `auth_tokens`: `user_id` is nullable. */
  datatype TokenRow = TokenRow(userId: Option<string>, status: string)

  /** A row of `sessions`; `expiresAt` in milliseconds since the epoch. */
  datatype SessionRow = SessionRow(userId: string, expiresAt: int)

  /** The two tables the exchange touches. */
  datatype Tables = Tables(tokens: map<string, TokenRow>, sessions: map<string, SessionRow>)

  /** `platform.env`: whether the `DB` binding is there, and `ENVIRONMENT`. */
  datatype Env = Env(hasDb: bool, environment: string)

  /** Which of the three statements (select, insert, update) the database rejects. */
  datatype Faults = Faults(select: bool, insert: bool, update: bool)

  /** The options `cookies.set` is given, with the cookie's name and value. */
  datatype Cookie = Cookie(
    name: string,
    value: string,
    path: string,
    httpOnly: bool,
    secure: bool,
    sameSite: string,
    expires: int)

  /** A response and the cookie set on it, if any. */
  datatype Reply = Reply(outcome: Outcome, cookie: Option<Cookie>)

  /** What an exchange leaves behind: the tables and the reply. */
  datatype Exchanged = Exchanged(tables: Tables, reply: Reply)

  /** The `tokenId` taken from the body by destructuring. */
  datatype TokenParam =
    | Unreadable          // `request.json()` rejects, or the body is `null`
    | Unbindable          // a value the database refuses to bind, so the select throws
    | Id(id: string)
    | NotText             // any other value the database binds, which names no row

  /** An array every item of which is an integer from 0 to 255, bound as a blob. */
  predicate Bytes(items: seq<Json>)
  {
    forall i :: 0 <= i < |items| ==> items[i].JNum? && 0 <= items[i].n < 256
  }

  /**
   * What `.bind` accepts: `null`, booleans, numbers, strings and arrays of byte
   * values; `undefined` (an absent property) and objects make it throw.
   */
  predicate Bindable(v: Json)
  {
    match v
    case JObj(_) => false
    case JArr(items) => Bytes(items)
    case _ => true
  }

  function TokenParamOf(body: Option<Json>): (r: TokenParam)
    ensures r == Unreadable <==> body == None || body == Some(JNull)
    ensures r.Id? <==> body.Some? && body.value.JObj? && Lookup(body.value.fields, "tokenId").Some?
                       && Lookup(body.value.fields, "tokenId").value.JStr?
    ensures r.Id? ==> Lookup(body.value.fields, "tokenId") == Some(JStr(r.id))
    ensures r == NotText <==> body.Some? && body.value.JObj? && Lookup(body.value.fields, "tokenId").Some?
                              && Bindable(Lookup(body.value.fields, "tokenId").value)
                              && !Lookup(body.value.fields, "tokenId").value.JStr?
  {
    match body
    case None => Unreadable
    case Some(JNull) => Unreadable
    case Some(JObj(fields)) =>
      (match Lookup(fields, "tokenId")
       case None => Unbindable
       case Some(JStr(s)) => Id(s)
       case Some(v) => if Bindable(v) then NotText else Unbindable)
    case Some(_) => Unbindable
  }

  /** `json({error}, {status})`. */
  function Failure(status: nat, message: string): Reply
  {
    Reply(Respond(Response(status, JsonBody(JObj([Field("error", JStr(message))])))), None)
  }

  const NoDatabase := "Database not available"
  const BadToken := "Invalid or incomplete login token"
  const ServerError := "Failed to create user session"

  /** `new Date(Date.now() + 1000 * 60 * 60 * 24 * 7)`. */
  function ExpiresAt(now: int): (t: int)
    ensures t - now == 604800000
  {
    now + SessionLifetime
  }

  /** The `sessionId` cookie: secure everywhere except in development. */
  function SessionCookie(sessionId: string, env: Env, now: int): (c: Cookie)
    ensures c.name == "sessionId" && c.value == sessionId && c.expires == ExpiresAt(now)
    ensures c.path == "/" && c.httpOnly && c.sameSite == "lax"
    ensures c.secure <==> env.environment != "development"
  {
    Cookie("sessionId", sessionId, "/", true, env.environment != "development", "lax", ExpiresAt(now))
  }

  /** `json({success: true, userId})`. */
  function Success(userId: string): Json
  {
    JObj([Field("success", JBool(true)), Field("userId", JStr(userId))])
  }

  /** The row the select finds: only a string id can name one. */
  function Row(t: Tables, p: TokenParam): Option<TokenRow>
  {
    if p.Id? && p.id in t.tokens then Some(t.tokens[p.id]) else None
  }

  /**
   * The exchange, step by step. `sessionId` is the `uuidv4()` drawn for it and
   * `now` the clock; the insert also fails when the token has no user (`user_id`
   * is `NOT NULL` in `sessions`) or the id is already a session's (primary key).
   */
  function Exchange(t: Tables, env: Env, body: Option<Json>, sessionId: string, now: int, faults: Faults): (e: Exchanged)
    ensures e.tables.tokens.Keys == t.tokens.Keys
    ensures forall id :: id in t.tokens && e.tables.tokens[id] != t.tokens[id] ==>
              t.tokens[id].status == Completed && e.tables.tokens[id] == t.tokens[id].(status := Used)
    ensures e.tables.sessions.Keys <= t.sessions.Keys + {sessionId}
    ensures forall id :: id in t.sessions ==> id in e.tables.sessions && e.tables.sessions[id] == t.sessions[id]
    ensures e.reply.cookie.Some? ==>
              && e.reply.cookie == Some(SessionCookie(sessionId, env, now))
              && sessionId !in t.sessions && sessionId in e.tables.sessions
  {
    var p := TokenParamOf(body);
    if p == Unreadable then Exchanged(t, Reply(Threw, None))
    else if !env.hasDb then Exchanged(t, Failure(500, NoDatabase))
    else if p == Unbindable || faults.select then Exchanged(t, Failure(500, ServerError))
    else
      var row := Row(t, p);
      if row.None? || row.value.status != Completed then Exchanged(t, Failure(400, BadToken))
      else if row.value.userId.None? || faults.insert || sessionId in t.sessions then
        Exchanged(t, Failure(500, ServerError))
      else
        var userId := row.value.userId.value;
        var withSession := t.(sessions := t.sessions[sessionId := SessionRow(userId, ExpiresAt(now))]);
        var cookie := Some(SessionCookie(sessionId, env, now));
        if faults.update then Exchanged(withSession, Failure(500, ServerError).(cookie := cookie))
        else
          var done := withSession.(tokens := t.tokens[p.id := row.value.(status := Used)]);
          Exchanged(done, Reply(Respond(Response(200, JsonBody(Success(userId)))), cookie))
  }

  /** Whether an exchange would be granted a session on these tables. */
  predicate Grantable(t: Tables, env: Env, body: Option<Json>, sessionId: string, faults: Faults)
  {
    var p := TokenParamOf(body);
    && p.Id? && env.hasDb && !faults.select && !faults.insert && !faults.update
    && p.id in t.tokens && t.tokens[p.id].status == Completed && t.tokens[p.id].userId.Some?
    && sessionId !in t.sessions
  }

  /** Without a database binding the answer is 500 and nothing is touched. */
  lemma NoDatabaseUntouched(t: Tables, env: Env, body: Option<Json>, sessionId: string, now: int, faults: Faults)
    requires !env.hasDb && TokenParamOf(body) != Unreadable
    ensures Exchange(t, env, body, sessionId, now, faults) == Exchanged(t, Failure(500, NoDatabase))
  {
  }

  /**
   * A token that is absent or not `completed` gets 400, no session, no cookie and
   * an unchanged token, once the select itself succeeded.
   */
  lemma IncompleteRefused(t: Tables, env: Env, body: Option<Json>, sessionId: string, now: int, faults: Faults)
    requires env.hasDb && !faults.select
    requires TokenParamOf(body).Id? || TokenParamOf(body) == NotText
    requires Row(t, TokenParamOf(body)).None? || Row(t, TokenParamOf(body)).value.status != Completed
    ensures Exchange(t, env, body, sessionId, now, faults) == Exchanged(t, Failure(400, BadToken))
  {
  }

  /** A session is created (status 200) exactly when the exchange is grantable. */
  lemma GrantedIff(t: Tables, env: Env, body: Option<Json>, sessionId: string, now: int, faults: Faults)
    ensures var e := Exchange(t, env, body, sessionId, now, faults);
            (e.reply.outcome.Respond? && e.reply.outcome.response.status == 200)
            <==> Grantable(t, env, body, sessionId, faults)
  {
  }

  /**
   * A granted exchange inserts exactly one session, for the token's user and
   * expiring seven days on, sets the cookie to that session, marks the token
   * `used` and answers `{success: true, userId}`.
   */
  lemma GrantedEffects(t: Tables, env: Env, body: Option<Json>, sessionId: string, now: int, faults: Faults)
    requires Grantable(t, env, body, sessionId, faults)
    ensures var id := TokenParamOf(body).id;
            var userId := t.tokens[id].userId.value;
            var e := Exchange(t, env, body, sessionId, now, faults);
            && e.tables.sessions == t.sessions[sessionId := SessionRow(userId, now + 604800000)]
            && |e.tables.sessions.Keys| == |t.sessions.Keys| + 1
            && e.tables.tokens == t.tokens[id := TokenRow(Some(userId), Used)]
            && e.reply == Reply(Respond(Response(200, JsonBody(Success(userId)))), Some(SessionCookie(sessionId, env, now)))
  {
    var e := Exchange(t, env, body, sessionId, now, faults);
    assert e.tables.sessions.Keys == t.sessions.Keys + {sessionId};
  }

  /**
   * A token that was exchanged once cannot be exchanged again: nothing changes the
   * second time, and once the select succeeds the answer is 400.
   */
  lemma NoReplay(t: Tables, env: Env, body: Option<Json>, sessionId: string, now: int, faults: Faults,
                 sessionId2: string, now2: int, faults2: Faults)
    requires Grantable(t, env, body, sessionId, faults)
    ensures var first := Exchange(t, env, body, sessionId, now, faults).tables;
            var second := Exchange(first, env, body, sessionId2, now2, faults2);
            && second.tables == first
            && second.reply.cookie.None?
            && (!faults2.select ==> second.reply == Failure(400, BadToken))
            && second.reply.outcome != Respond(Response(200, JsonBody(Success(t.tokens[TokenParamOf(body).id].userId.value))))
  {
  }

  /**
   * When only the final update fails the client gets 500, yet the session row and
   * the cookie are already in place and the token is still `completed`, so it can
   * be exchanged again.
   */
  lemma FailedUpdateLeavesTokenReusable(t: Tables, env: Env, body: Option<Json>, sessionId: string, now: int,
                                        sessionId2: string, now2: int)
    requires Grantable(t, env, body, sessionId, Faults(false, false, false))
    requires sessionId2 != sessionId && sessionId2 !in t.sessions
    ensures var e := Exchange(t, env, body, sessionId, now, Faults(false, false, true));
            && e.reply == Failure(500, ServerError).(cookie := Some(SessionCookie(sessionId, env, now)))
            && sessionId in e.tables.sessions
            && e.tables.tokens == t.tokens
            && Grantable(e.tables, env, body, sessionId2, Faults(false, false, false))
  {
  }

  /**
   * A `tokenId` the database cannot bind (absent, an object, or an array that is
   * not all byte values) makes the select throw: 500, and nothing changes.
   */
  lemma UnbindableRefused(t: Tables, env: Env, body: Option<Json>, sessionId: string, now: int, faults: Faults)
    requires env.hasDb && body.Some? && body.value.JObj?
    requires Lookup(body.value.fields, "tokenId").None? || !Bindable(Lookup(body.value.fields, "tokenId").value)
    ensures TokenParamOf(body) == Unbindable
    ensures Exchange(t, env, body, sessionId, now, faults) == Exchanged(t, Failure(500, ServerError))
  {
  }

  /** Any database failure reached before the update answers 500 and leaves the tables as they were. */
  lemma EarlyFaultUntouched(t: Tables, env: Env, body: Option<Json>, sessionId: string, now: int, faults: Faults)
    requires env.hasDb && TokenParamOf(body).Id?
    requires faults.select || (faults.insert && Row(t, TokenParamOf(body)).Some?
                               && Row(t, TokenParamOf(body)).value.status == Completed)
    ensures Exchange(t, env, body, sessionId, now, faults) == Exchanged(t, Failure(500, ServerError))
  {
  }

  /** The database the route talks to. */
  class Database {
    var tokens: map<string, TokenRow>
    var sessions: map<string, SessionRow>

    constructor (tokens0: map<string, TokenRow>, sessions0: map<string, SessionRow>)
      ensures tokens == tokens0 && sessions == sessions0
    {
      tokens := tokens0;
      sessions := sessions0;
    }

    /** The `POST` handler: each statement in turn, stopping at the first that answers. */
    method Post(env: Env, body: Option<Json>, sessionId: string, now: int, faults: Faults) returns (reply: Reply)
      modifies this
      ensures Exchanged(Tables(tokens, sessions), reply)
           == Exchange(Tables(old(tokens), old(sessions)), env, body, sessionId, now, faults)
    {
      var p := TokenParamOf(body);
      if p == Unreadable {
        return Reply(Threw, None);
      }
      if !env.hasDb {
        return Failure(500, NoDatabase);
      }
      // 1. the token row
      if p == Unbindable || faults.select {
        return Failure(500, ServerError);
      }
      var row := Row(Tables(tokens, sessions), p);
      if row.None? || row.value.status != Completed {
        return Failure(400, BadToken);
      }
      // 2. the session row
      if row.value.userId.None? || faults.insert || sessionId in sessions {
        return Failure(500, ServerError);
      }
      var userId := row.value.userId.value;
      sessions := sessions[sessionId := SessionRow(userId, ExpiresAt(now))];
      // 3. the cookie
      var cookie := Some(SessionCookie(sessionId, env, now));
      // 4. the token is spent
      if faults.update {
        return Failure(500, ServerError).(cookie := cookie);
      }
      tokens := tokens[p.id := row.value.(status := Used)];
      reply := Reply(Respond(Response(200, JsonBody(Success(userId)))), cookie);
    }
  }
}
