/**
 * `Chat`: a room served over server-sent events. Clients join by opening
 * `.../events` and are replayed every stored message; anyone may POST a message to
 * `.../messages`, which is stamped, appended to the (uncapped) log, persisted and
 * pushed to every open stream. A stream whose write fails is dropped.
 */
module ChatHub {
  import opened Wrappers
  import opened JsonValue
  import opened Http
  import opened Membership
  import Sse = ServerSentEvents

  datatype Route = ToEvents | ToMessages | NotFound

  /** No path ends in both `/events` and `/messages`. */
  lemma EventsNotMessages(path: string)
    ensures !(EndsWith(path, "/events") && EndsWith(path, "/messages"))
  {
    if EndsWith(path, "/events") {
      assert path[|path| - 7] == '/' by { assert path[|path| - 7..][0] == path[|path| - 7]; }
    }
    if EndsWith(path, "/messages") {
      assert path[|path| - 7] == 'e' by { assert path[|path| - 9..][2] == path[|path| - 7]; }
    }
  }

  /**
   * The dispatch in `fetch`: `/events` whatever the method, `/messages` only for
   * POST. Since the two suffixes exclude each other, each route is taken exactly
   * when its own condition holds.
   */
  function RouteOf(path: string, verb: string): (r: Route)
    ensures r == ToEvents <==> EndsWith(path, "/events")
    ensures r == ToMessages <==> EndsWith(path, "/messages") && verb == "POST"
  {
    EventsNotMessages(path);
    if EndsWith(path, "/events") then ToEvents
    else if EndsWith(path, "/messages") && verb == "POST" then ToMessages
    else NotFound
  }

  /** The record `sendEvent(writer, 'message', m)` writes. */
  function MessageRecord(m: Json): (r: string)
    ensures Sse.ParseRecord(r) == Some((Sse.Event("message", Stringify(m)), ""))
  {
    Sse.RecordRoundTrip("message", Stringify(m), "");
    assert Sse.Record("message", Stringify(m)) + "" == Sse.Record("message", Stringify(m));
    Sse.Record("message", Stringify(m))
  }

  function MessageRecords(ms: seq<Json>): (r: seq<string>)
    ensures |r| == |ms|
    ensures forall i :: 0 <= i < |ms| ==> r[i] == MessageRecord(ms[i])
  {
    seq(|ms|, i requires 0 <= i < |ms| => MessageRecord(ms[i]))
  }

  /** What a client reads from its stream is exactly the messages, in order. */
  lemma ClientReadsMessages(ms: seq<Json>)
    ensures Sse.ParseStream(Sse.Concat(MessageRecords(ms)))
         == Some(seq(|ms|, i requires 0 <= i < |ms| => Sse.Event("message", Stringify(ms[i]))))
  {
    var events := seq(|ms|, i requires 0 <= i < |ms| => Sse.Event("message", Stringify(ms[i])));
    assert Sse.Records(events) == MessageRecords(ms);
    Sse.StreamRoundTrip(events);
  }

  lemma MessageRecordsAppend(a: seq<Json>, b: seq<Json>)
    ensures MessageRecords(a + b) == MessageRecords(a) + MessageRecords(b)
  {
  }

  /**
   * `this.messages.forEach(msg => this.sendEvent(writer, 'message', msg))`: the
   * records written to a joiner's stream, one per stored message, in log order.
   */
  method Replay(log: seq<Json>) returns (sent: seq<string>)
    ensures sent == MessageRecords(log)
  {
    sent := [];
    var i := 0;
    while i < |log|
      invariant 0 <= i <= |log|
      invariant sent == MessageRecords(log[..i])
    {
      MessageRecordsAppend(log[..i], [log[i]]);
      assert log[..i + 1] == log[..i] + [log[i]];
      sent := sent + [MessageRecord(log[i])];
      i := i + 1;
    }
    assert log[..i] == log;
  }

  /** One more published message extends a live session's stream by one record. */
  lemma PublishExtends(replay: seq<Json>, published: seq<Json>, from: nat, m: Json)
    requires from <= |published|
    ensures MessageRecords(replay + (published + [m])[from..])
         == MessageRecords(replay + published[from..]) + [MessageRecord(m)]
  {
    assert replay + (published + [m])[from..] == (replay + published[from..]) + [m];
    MessageRecordsAppend(replay + published[from..], [m]);
  }

  /**
   * `message.timestamp = Date.now()` on the parsed body. On an object the server
   * time replaces any client value and every other property is kept; on an array
   * the assignment succeeds but adds nothing JSON shows; on a primitive or `null`
   * it throws (class bodies are strict-mode code).
   */
  function Stamp(m: Json, now: int): (r: Option<Json>)
    ensures r.Some? <==> m.JObj? || m.JArr?
    ensures m.JObj? ==> r.Some? && r.value.JObj?
                        && Lookup(r.value.fields, "timestamp") == Some(JNum(now))
                        && forall k :: k != "timestamp" ==> Lookup(r.value.fields, k) == Lookup(m.fields, k)
    ensures m.JArr? ==> r == Some(m)
  {
    match m
    case JObj(fields) =>
      var stamped := SetField(fields, "timestamp", JNum(now));
      assert Lookup(stamped, "timestamp") == Some(JNum(now)) by {
        SetFieldLookup(fields, "timestamp", JNum(now), "timestamp");
      }
      assert forall k :: k != "timestamp" ==> Lookup(stamped, k) == Lookup(fields, k) by {
        forall k | k != "timestamp" ensures Lookup(stamped, k) == Lookup(fields, k) {
          SetFieldLookup(fields, "timestamp", JNum(now), k);
        }
      }
      Some(JObj(stamped))
    case JArr(_) => Some(m)
    case _ => None
  }

  /**
   * Every open session has been sent its replay followed by every message
   * broadcast since it joined, and nothing else.
   */
  ghost predicate Delivered(sessions: seq<nat>, streams: map<nat, seq<string>>, joinedAt: map<nat, nat>,
                            replayed: map<nat, seq<Json>>, published: seq<Json>)
  {
    forall s :: s in sessions ==>
      s in streams && s in joinedAt && s in replayed &&
      joinedAt[s] <= |published| &&
      streams[s] == MessageRecords(replayed[s] + published[joinedAt[s]..])
  }

  /** The hub's bookkeeping, stated on its values (see `Chat.Valid`). */
  ghost predicate Consistent(sessions: seq<nat>, streams: map<nat, seq<string>>, listening: set<nat>,
                             nextSession: nat, joinedAt: map<nat, nat>, replayed: map<nat, seq<Json>>,
                             published: seq<Json>)
  {
    && NoDup(sessions)
    && (forall s :: s in streams ==> s < nextSession)
    && (forall s :: s in sessions ==> s in streams)
    && (forall s :: s in listening ==> s in streams)
    && joinedAt.Keys == streams.Keys
    && replayed.Keys == streams.Keys
    && Delivered(sessions, streams, joinedAt, replayed, published)
  }

  /** A joiner that was replayed `log` keeps the bookkeeping consistent. */
  lemma ConsistentJoin(sessions: seq<nat>, streams: map<nat, seq<string>>, listening: set<nat>,
                       nextSession: nat, joinedAt: map<nat, nat>, replayed: map<nat, seq<Json>>,
                       published: seq<Json>, log: seq<Json>, register: bool)
    requires Consistent(sessions, streams, listening, nextSession, joinedAt, replayed, published)
    ensures Consistent(sessions + [nextSession], streams[nextSession := MessageRecords(log)],
                       if register then listening + {nextSession} else listening, nextSession + 1,
                       joinedAt[nextSession := |published|], replayed[nextSession := log], published)
  {
    assert nextSession !in sessions;
    NoDupAppend(sessions, nextSession);
    assert log + published[|published|..] == log;
  }

  /** A broadcast of `m` that pruned the sessions failing `ok` keeps the bookkeeping consistent. */
  lemma ConsistentBroadcast(sessions: seq<nat>, streams: map<nat, seq<string>>, listening: set<nat>,
                            nextSession: nat, joinedAt: map<nat, nat>, replayed: map<nat, seq<Json>>,
                            published: seq<Json>, m: Json, ok: nat -> bool, sent: map<nat, seq<string>>)
    requires Consistent(sessions, streams, listening, nextSession, joinedAt, replayed, published)
    requires sent == Deliver(streams, sessions, MessageRecord(m), ok)
    ensures Consistent(Filter(sessions, ok), sent, listening, nextSession, joinedAt, replayed, published + [m])
  {
    DeliverAt(streams, sessions, MessageRecord(m), ok);
    FilterNoDup(sessions, ok);
    FilterMembers(sessions, ok);
    var live := Filter(sessions, ok);
    forall s | s in live
      ensures s in sent && s in joinedAt && s in replayed && joinedAt[s] <= |published + [m]|
      ensures sent[s] == MessageRecords(replayed[s] + (published + [m])[joinedAt[s]..])
    {
      PublishExtends(replayed[s], published, joinedAt[s], m);
    }
  }

  /**
   * The `forEach` of `broadcast`: every session of the list as it stood when the
   * broadcast began is written `rec`; a session whose write fails is spliced
   * out of the live list (by its rejection handler). Returns the live list and
   * what every stream holds afterwards.
   */
  method Fanout(snapshot: seq<nat>, streams: map<nat, seq<string>>, rec: string, ok: nat -> bool)
    returns (live: seq<nat>, sent: map<nat, seq<string>>)
    requires NoDup(snapshot)
    requires forall s :: s in snapshot ==> s in streams
    ensures live == Filter(snapshot, ok)
    ensures sent == Deliver(streams, snapshot, rec, ok)
  {
    live := snapshot;
    sent := streams;
    var i := 0;
    while i < |snapshot|
      invariant 0 <= i <= |snapshot|
      invariant live == Filter(snapshot[..i], ok) + snapshot[i..]
      invariant sent == Deliver(streams, snapshot[..i], rec, ok)
    {
      var s := snapshot[i];
      FilterPassStep(snapshot, i, ok);
      DeliverStep(streams, snapshot, i, rec, ok);
      if ok(s) {
        sent := sent[s := sent[s] + [rec]];
      } else {
        live := Remove(live, s);
      }
      i := i + 1;
    }
    assert snapshot[..i] == snapshot;
  }

  class Chat {
    /** Open streams, in join order (`this.sessions`). */
    var sessions: seq<nat>
    /** The message log; None until the load started by the constructor completes. */
    var messages: Option<seq<Json>>
    /** Durable storage of the object: what was last put under each key. */
    var storage: map<string, seq<Json>>
    /** Every record written to each session's stream so far. */
    var streams: map<nat, seq<string>>
    /** Sessions whose abort listener was registered. */
    var listening: set<nat>
    /** Source of fresh session identities (each `handleSse` makes a new object). */
    var nextSession: nat

    /** Messages broadcast so far, in order. */
    ghost var published: seq<Json>
    /** How many messages had been broadcast when each session joined. */
    ghost var joinedAt: map<nat, nat>
    /** What each session was replayed when it joined. */
    ghost var replayed: map<nat, seq<Json>>

    /**
     * Sessions are distinct and known; and every open session has been sent its
     * replay followed by every message broadcast since it joined, nothing else.
     */
    ghost predicate Valid()
      reads this
    {
      Consistent(sessions, streams, listening, nextSession, joinedAt, replayed, published)
    }

    /** The object as the runtime creates it; `storage.get('messages')` is still pending. */
    constructor (stored: map<string, seq<Json>>)
      ensures Valid()
      ensures sessions == [] && messages == None && storage == stored
      ensures streams == map[] && listening == {}
    {
      sessions := [];
      messages := None;
      storage := stored;
      streams := map[];
      listening := {};
      nextSession := 0;
      published := [];
      joinedAt := map[];
      replayed := map[];
    }

    /** The `.then` of the constructor's load: `this.messages = messages || []`. */
    method Load()
      requires Valid() && messages == None
      modifies this
      ensures Valid()
      ensures messages == Some(if "messages" in storage then storage["messages"] else [])
      ensures sessions == old(sessions) && streams == old(streams) && storage == old(storage)
      ensures listening == old(listening) && nextSession == old(nextSession)
    {
      messages := Some(if "messages" in storage then storage["messages"] else []);
    }

    /** The effect of `handleSse` on the hub, as seen from the old state. */
    twostate predicate Joined(out: Outcome)
      reads this
    {
      var s := old(nextSession);
      && nextSession == s + 1
      && sessions == old(sessions) + [s]
      && messages == old(messages) && storage == old(storage)
      && (old(messages).Some? ==>
            && streams == old(streams)[s := MessageRecords(old(messages).value)]
            && listening == old(listening) + {s}
            && out == Respond(Response(200, EventStream(s))))
      && (old(messages).None? ==>
            && streams == old(streams)[s := []]
            && listening == old(listening)
            && out == Threw)
    }

    /**
     * `handleSse`: the new session goes at the end of `sessions`, then it alone is
     * sent one `message` record per stored message, in log order, and its abort
     * listener is registered. Before the log is loaded `this.messages.forEach`
     * throws after the push, so the session stays without a listener.
     */
    method HandleSse() returns (out: Outcome)
      requires Valid()
      modifies this
      ensures Valid()
      ensures Joined(out)
    {
      var s := nextSession;
      var log := messages.GetOr([]);
      var sent: seq<string> := [];
      if messages.Some? {
        sent := Replay(log);
      }
      ConsistentJoin(sessions, streams, listening, nextSession, joinedAt, replayed, published, log, messages.Some?);
      sessions, streams, nextSession := sessions + [s], streams[s := sent], s + 1;
      joinedAt, replayed := joinedAt[s := |published|], replayed[s := log];
      if messages.None? {
        out := Threw;
      } else {
        listening := listening + {s};
        out := Respond(Response(200, EventStream(s)));
      }
    }

    /**
     * The abort listener of session `s`: splices it out if it is still there.
     * A second abort, or one for a session already pruned, changes nothing.
     */
    method Abort(s: nat)
      requires Valid()
      modifies this
      ensures Valid()
      ensures sessions == if s in old(listening) then RemoveFirst(old(sessions), s) else old(sessions)
      ensures s in old(listening) ==> s !in sessions && RemoveFirst(sessions, s) == sessions
      ensures messages == old(messages) && storage == old(storage) && streams == old(streams)
      ensures listening == old(listening) && nextSession == old(nextSession)
    {
      if s in listening {
        RemoveFirstMembers(sessions, s);
        RemoveFirstIdempotent(sessions, s);
        sessions := Remove(sessions, s);
      }
    }

    /**
     * `broadcast(message)`: every session in the list at the start is written one
     * `message` record; a session whose write fails is spliced out when its
     * promise rejects. Survivors keep their order.
     */
    method Broadcast(m: Json, ok: nat -> bool)
      requires Valid()
      modifies this
      ensures Valid()
      ensures sessions == Filter(old(sessions), ok)
      ensures streams == Deliver(old(streams), old(sessions), MessageRecord(m), ok)
      ensures messages == old(messages) && storage == old(storage)
      ensures listening == old(listening) && nextSession == old(nextSession)
    {
      var live, sent := Fanout(sessions, streams, MessageRecord(m), ok);
      ConsistentBroadcast(sessions, streams, listening, nextSession, joinedAt, replayed, published, m, ok, sent);
      sessions := live;
      streams := sent;
      published := published + [m];
    }

    /** The body is JSON, can be stamped, and the log is loaded. */
    predicate Accepts(body: Option<Json>, now: int)
      reads this
    {
      body.Some? && Stamp(body.value, now).Some? && messages.Some?
    }

    /**
     * `handlePostMessage`: the stamped message goes at the end of the log (no
     * cap: the log grows by exactly one), the whole log is put under `'messages'`,
     * and only once that write succeeds is the message broadcast and
     * `{success: true}` returned. A body that is not JSON, cannot be stamped, or
     * arrives before the log is loaded throws and changes nothing; a failed put
     * throws after the message was logged, without broadcasting it.
     */
    method HandlePostMessage(body: Option<Json>, now: int, putOk: bool, ok: nat -> bool) returns (out: Outcome)
      requires Valid()
      modifies this
      ensures Valid()
      ensures !old(Accepts(body, now)) ==> out == Threw && unchanged(this)
      ensures old(Accepts(body, now)) ==>
                var m := Stamp(body.value, now).value;
                && messages == Some(old(messages).value + [m])
                && listening == old(listening) && nextSession == old(nextSession)
                && (!putOk ==> out == Threw && storage == old(storage)
                               && sessions == old(sessions) && streams == old(streams))
                && (putOk ==>
                      && storage == old(storage)["messages" := messages.value]
                      && sessions == Filter(old(sessions), ok)
                      && streams == Deliver(old(streams), old(sessions), MessageRecord(m), ok)
                      && out == Respond(Response(200, JsonBody(SuccessAck))))
    {
      if !Accepts(body, now) {
        out := Threw;
        return;
      }
      var m := Stamp(body.value, now).value;
      messages := Some(messages.value + [m]);
      if !putOk {
        out := Threw;
        return;
      }
      storage := storage["messages" := messages.value];
      Broadcast(m, ok);
      out := Respond(Response(200, JsonBody(SuccessAck)));
    }

    /** `fetch`: routes by path suffix and method; anything else is 404 "Not found". */
    method Fetch(req: Request, now: int, putOk: bool, ok: nat -> bool) returns (out: Outcome)
      requires Valid()
      modifies this
      ensures Valid()
      ensures RouteOf(req.path, req.verb) == NotFound ==>
                out == Respond(Response(404, Text("Not found"))) && unchanged(this)
      ensures RouteOf(req.path, req.verb) == ToEvents ==> Joined(out)
      ensures RouteOf(req.path, req.verb) == ToMessages && old(Accepts(req.body, now)) && putOk ==>
                && messages == Some(old(messages).value + [Stamp(req.body.value, now).value])
                && storage == old(storage)["messages" := messages.value]
                && sessions == Filter(old(sessions), ok)
                && streams == Deliver(old(streams), old(sessions), MessageRecord(Stamp(req.body.value, now).value), ok)
                && out == Respond(Response(200, JsonBody(SuccessAck)))
    {
      match RouteOf(req.path, req.verb)
      case ToEvents =>
        out := HandleSse();
      case ToMessages =>
        out := HandlePostMessage(req.body, now, putOk, ok);
      case NotFound =>
        out := Respond(Response(404, Text("Not found")));
    }
  }
}
