/**
 * `LoginSession`: a server-sent-events channel that tells a waiting login page
 * when its login completed. It keeps no history: a notification reaches the
 * writers listed at that moment. As written, `handleSse` lists the writer and
 * then fails while registering its close listener, so a listed writer is never
 * removed; the corrected handler, whose listener is registered, is modelled
 * beside it.
 */
module LoginSessionHub {
  import opened Wrappers
  import opened JsonValue
  import opened Http
  import opened Membership
  import Sse = ServerSentEvents

  datatype Route = ToEvents | ToNotify | NotFound

  /**
   * The dispatch in `fetch`: `/events` whatever the method, `/notify` only for
   * POST. The two suffixes have the same length and differ, so no path ends in
   * both and each route is taken exactly when its own condition holds.
   */
  function RouteOf(path: string, verb: string): (r: Route)
    ensures r == ToEvents <==> EndsWith(path, "/events")
    ensures r == ToNotify <==> EndsWith(path, "/notify") && verb == "POST"
  {
    if EndsWith(path, "/events") then
      assert path[|path| - 6] == 'e' by { assert path[|path| - 7..][1] == path[|path| - 6]; }
      ToEvents
    else if EndsWith(path, "/notify") && verb == "POST" then ToNotify
    else NotFound
  }

  /**
   * The record `broadcast(event, data)` writes to every stream; a reader gets
   * the event and the JSON text back, with nothing left over.
   */
  function Payload(event: string, data: Json): (r: string)
    ensures SingleLine(event) ==> Sse.ParseRecord(r) == Some((Sse.Event(event, Stringify(data)), ""))
  {
    var r := Sse.Record(event, Stringify(data));
    assert SingleLine(event) ==> Sse.ParseRecord(r) == Some((Sse.Event(event, Stringify(data)), "")) by {
      if SingleLine(event) {
        Sse.RecordRoundTrip(event, Stringify(data), "");
        assert r + "" == r;
      }
    }
    r
  }

  /**
   * The `forEach` of `broadcast`: the same record is written to every writer in
   * list order. A write that fails rejects the promise `write` returns, which
   * nobody handles: the `catch` around it never runs, nothing is delivered and
   * the writer stays listed.
   */
  method WriteAll(writers: seq<nat>, streams: map<nat, seq<string>>, rec: string, ok: nat -> bool)
    returns (sent: map<nat, seq<string>>)
    requires forall w :: w in writers ==> w in streams
    ensures sent == Deliver(streams, writers, rec, ok)
  {
    sent := streams;
    var i := 0;
    while i < |writers|
      invariant 0 <= i <= |writers|
      invariant sent == Deliver(streams, writers[..i], rec, ok)
    {
      var w := writers[i];
      DeliverStep(streams, writers, i, rec, ok);
      if ok(w) {
        sent := sent[w := sent[w] + [rec]];
      }
      i := i + 1;
    }
    assert writers[..i] == writers;
  }

  /** The writers the hub keeps, stated on its values (see `LoginSession.Valid`). */
  ghost predicate Registry(sessions: seq<nat>, streams: map<nat, seq<string>>, nextWriter: nat)
  {
    && NoDup(sessions)
    && (forall w :: w in sessions ==> w in streams)
    && (forall w :: w in streams ==> w < nextWriter)
  }

  /** A fresh writer added last keeps the registry. */
  lemma RegistryJoin(sessions: seq<nat>, streams: map<nat, seq<string>>, nextWriter: nat)
    requires Registry(sessions, streams, nextWriter)
    ensures Registry(sessions + [nextWriter], streams[nextWriter := []], nextWriter + 1)
  {
    assert nextWriter !in sessions;
    NoDupAppend(sessions, nextWriter);
  }

  /** One broadcast as history sees it: the record, and which writers' writes succeeded. */
  datatype Write = Write(rec: string, ok: nat -> bool)

  /** The records writer `w` receives from a run of broadcasts while it is listed. */
  function Received(log: seq<Write>, w: nat): seq<string>
  {
    if log == [] then []
    else
      var last := log[|log| - 1];
      Received(log[..|log| - 1], w) + (if last.ok(w) then [last.rec] else [])
  }

  /** Every record a writer receives is that of a broadcast whose write to it succeeded. */
  lemma {:induction false} ReceivedFrom(log: seq<Write>, w: nat)
    ensures forall i :: 0 <= i < |Received(log, w)| ==>
              exists k :: 0 <= k < |log| && log[k].ok(w) && log[k].rec == Received(log, w)[i]
  {
    if log != [] {
      var init := log[..|log| - 1];
      ReceivedFrom(init, w);
      var before := Received(init, w);
      var last := log[|log| - 1];
      var r := Received(log, w);
      assert r == before + (if last.ok(w) then [last.rec] else []);
      forall i | 0 <= i < |r|
        ensures exists k :: 0 <= k < |log| && log[k].ok(w) && log[k].rec == r[i]
      {
        if i < |before| {
          var k :| 0 <= k < |init| && init[k].ok(w) && init[k].rec == before[i];
          assert log[k] == init[k] && r[i] == before[i];
        } else {
          var k := |log| - 1;
          assert log[k].ok(w) && log[k].rec == r[i];
        }
      }
    } else {
      assert Received(log, w) == [];
    }
  }

  /** One more broadcast adds its record to what a writer listed since `from` receives, when the write succeeds. */
  lemma ReceivedAppend(log: seq<Write>, x: Write, from: nat, w: nat)
    requires from <= |log|
    ensures Received((log + [x])[from..], w) == Received(log[from..], w) + (if x.ok(w) then [x.rec] else [])
  {
    var since := (log + [x])[from..];
    assert since[..|since| - 1] == log[from..];
    assert since[|since| - 1] == x;
  }

  /**
   * The delivery law of the hub: a listed writer's stream holds, in order, the
   * record of every broadcast since it joined whose write to it succeeded, and
   * nothing else.
   */
  ghost predicate Delivery(sessions: seq<nat>, streams: map<nat, seq<string>>, joinedAt: map<nat, nat>,
                           log: seq<Write>)
  {
    forall w :: w in sessions ==>
      && w in streams && w in joinedAt && joinedAt[w] <= |log|
      && streams[w] == Received(log[joinedAt[w]..], w)
  }

  /** A fresh writer that joins now has been sent nothing, and the others keep theirs. */
  lemma DeliveryJoin(sessions: seq<nat>, streams: map<nat, seq<string>>, nextWriter: nat,
                     joinedAt: map<nat, nat>, log: seq<Write>)
    requires Registry(sessions, streams, nextWriter) && Delivery(sessions, streams, joinedAt, log)
    ensures Delivery(sessions + [nextWriter], streams[nextWriter := []], joinedAt[nextWriter := |log|], log)
  {
    assert log[|log|..] == [];
  }

  /** A broadcast extends the stream of each listed writer whose write succeeds by its record. */
  lemma DeliveryBroadcast(sessions: seq<nat>, streams: map<nat, seq<string>>, joinedAt: map<nat, nat>,
                          log: seq<Write>, rec: string, ok: nat -> bool)
    requires NoDup(sessions) && Delivery(sessions, streams, joinedAt, log)
    ensures Delivery(sessions, Deliver(streams, sessions, rec, ok), joinedAt, log + [Write(rec, ok)])
  {
    DeliverAt(streams, sessions, rec, ok);
    forall w | w in sessions
      ensures Deliver(streams, sessions, rec, ok)[w] == Received((log + [Write(rec, ok)])[joinedAt[w]..], w)
    {
      ReceivedAppend(log, Write(rec, ok), joinedAt[w], w);
    }
  }

  /**
   * A listed writer holds only records of broadcasts made since it joined, each
   * one whose write to it succeeded: a writer that joins late misses every
   * earlier notification.
   */
  lemma OnlySinceJoining(sessions: seq<nat>, streams: map<nat, seq<string>>, joinedAt: map<nat, nat>,
                         log: seq<Write>, w: nat)
    requires Delivery(sessions, streams, joinedAt, log) && w in sessions
    ensures forall i :: 0 <= i < |streams[w]| ==>
              exists k :: joinedAt[w] <= k < |log| && log[k].ok(w) && log[k].rec == streams[w][i]
  {
    var since := log[joinedAt[w]..];
    var got := Received(since, w);
    ReceivedFrom(since, w);
    assert forall i :: 0 <= i < |Received(since, w)| ==>
              exists k :: 0 <= k < |since| && since[k].ok(w) && since[k].rec == Received(since, w)[i];
    assert streams[w] == got;
    forall i | 0 <= i < |got|
      ensures exists k :: joinedAt[w] <= k < |log| && log[k].ok(w) && log[k].rec == got[i]
    {
      var j :| 0 <= j < |since| && since[j].ok(w) && since[j].rec == got[i];
      var k := joinedAt[w] + j;
      assert log[k] == since[j];
    }
  }

  /** What the close listener of writer `w` does, if one was registered for it: splice it out. */
  function Close(sessions: seq<nat>, w: nat, listening: set<nat>): seq<nat>
  {
    if w in listening then RemoveFirst(sessions, w) else sessions
  }

  /** The list after a run of stream closes, in order. */
  function CloseAll(sessions: seq<nat>, listening: set<nat>, closes: seq<nat>): seq<nat>
  {
    if closes == [] then sessions
    else Close(CloseAll(sessions, listening, closes[..|closes| - 1]), closes[|closes| - 1], listening)
  }

  /** Closes never add a writer, and the list stays free of duplicates. */
  lemma {:induction false} CloseAllShrinks(sessions: seq<nat>, listening: set<nat>, closes: seq<nat>)
    requires NoDup(sessions)
    ensures NoDup(CloseAll(sessions, listening, closes))
    ensures forall x :: x in CloseAll(sessions, listening, closes) ==> x in sessions
  {
    if closes != [] {
      var init := closes[..|closes| - 1];
      CloseAllShrinks(sessions, listening, init);
      RemoveFirstMembers(CloseAll(sessions, listening, init), closes[|closes| - 1]);
    }
  }

  /**
   * As written: a writer whose close listener was never registered stays listed
   * through any run of closes, its own included, and every later broadcast
   * still writes to it.
   */
  lemma {:induction false} UnlistenedWriterStays(sessions: seq<nat>, listening: set<nat>, closes: seq<nat>, w: nat)
    requires NoDup(sessions) && w in sessions && w !in listening
    ensures w in CloseAll(sessions, listening, closes)
  {
    if closes != [] {
      var init := closes[..|closes| - 1];
      UnlistenedWriterStays(sessions, listening, init, w);
      CloseAllShrinks(sessions, listening, init);
      RemoveFirstMembers(CloseAll(sessions, listening, init), closes[|closes| - 1]);
    }
  }

  /** Corrected: a writer whose close listener is registered is gone once its stream has closed. */
  lemma {:induction false} ListenerLeaves(sessions: seq<nat>, listening: set<nat>, closes: seq<nat>, w: nat)
    requires NoDup(sessions) && w in listening && w in closes
    ensures w !in CloseAll(sessions, listening, closes)
  {
    var init := closes[..|closes| - 1];
    var last := closes[|closes| - 1];
    CloseAllShrinks(sessions, listening, init);
    RemoveFirstMembers(CloseAll(sessions, listening, init), last);
    if last != w {
      assert w in init by { assert closes == init + [last]; }
      ListenerLeaves(sessions, listening, init, w);
    }
  }

  class LoginSession {
    /** Listed writers, in join order (`this.sessions`). */
    var sessions: seq<nat>
    /** Every record written to each writer's stream so far. */
    var streams: map<nat, seq<string>>
    /** Source of fresh writer identities (each `handleSse` makes a new stream). */
    var nextWriter: nat
    /** The writers whose close listener was registered. */
    var listening: set<nat>
    /** Every broadcast so far, and how many had been made when each writer joined. */
    ghost var log: seq<Write>
    ghost var joinedAt: map<nat, nat>

    ghost predicate Valid()
      reads this
    {
      && Registry(sessions, streams, nextWriter)
      && listening <= streams.Keys
      && joinedAt.Keys == streams.Keys
      && Delivery(sessions, streams, joinedAt, log)
    }

    constructor ()
      ensures Valid()
      ensures sessions == [] && streams == map[] && listening == {} && log == []
    {
      sessions := [];
      streams := map[];
      nextWriter := 0;
      listening := {};
      log := [];
      joinedAt := map[];
    }

    /**
     * `handleSse` as written: a fresh writer goes at the end of `sessions`; then
     * `readable.closed` is read on the readable side of a `TransformStream`, a
     * `ReadableStream`, which has no such property, and calling `.finally` on
     * `undefined` throws. The writer stays listed with no close listener, and
     * the request fails before any response is made.
     */
    method HandleSse() returns (out: Outcome)
      requires Valid()
      modifies this
      ensures Valid()
      ensures var w := old(nextWriter);
              && w !in old(streams) && w !in listening
              && sessions == old(sessions) + [w]
              && streams == old(streams)[w := []]
              && nextWriter == w + 1 && listening == old(listening)
              && log == old(log) && joinedAt == old(joinedAt)[w := |log|]
              && out == Threw
    {
      var w := nextWriter;
      RegistryJoin(sessions, streams, nextWriter);
      DeliveryJoin(sessions, streams, nextWriter, joinedAt, log);
      sessions, streams, nextWriter := sessions + [w], streams[w := []], w + 1;
      joinedAt := joinedAt[w := |log|];
      out := Threw;
    }

    /**
     * `handleSse` as evidently intended (the close promise taken from the
     * writer, whose `closed` exists): the same fresh writer, now with its close
     * listener registered, and the event-stream response.
     */
    method HandleSseListening() returns (out: Outcome)
      requires Valid()
      modifies this
      ensures Valid()
      ensures var w := old(nextWriter);
              && w !in old(streams) && w in listening
              && sessions == old(sessions) + [w]
              && streams == old(streams)[w := []]
              && nextWriter == w + 1 && listening == old(listening) + {w}
              && log == old(log) && joinedAt == old(joinedAt)[w := |log|]
              && out == Respond(Response(200, EventStream(w)))
    {
      var w := nextWriter;
      RegistryJoin(sessions, streams, nextWriter);
      DeliveryJoin(sessions, streams, nextWriter, joinedAt, log);
      sessions, streams, nextWriter := sessions + [w], streams[w := []], w + 1;
      joinedAt := joinedAt[w := |log|];
      listening := listening + {w};
      out := Respond(Response(200, EventStream(w)));
    }

    /**
     * Writer `w`'s stream closes: its listener, if registered, splices it out.
     * The other writers keep their order, and a second close changes nothing.
     */
    method StreamClosed(w: nat)
      requires Valid()
      modifies this
      ensures Valid()
      ensures sessions == Close(old(sessions), w, listening)
      ensures w in listening ==> w !in sessions && RemoveFirst(sessions, w) == sessions
      ensures streams == old(streams) && nextWriter == old(nextWriter) && listening == old(listening)
      ensures log == old(log) && joinedAt == old(joinedAt)
    {
      if w in listening {
        RemoveFirstMembers(sessions, w);
        RemoveFirstIdempotent(sessions, w);
        sessions := Remove(sessions, w);
      }
    }

    /**
     * `broadcast(event, data)`: the identical record goes to every listed writer
     * whose write succeeds. The list itself never changes.
     */
    method Broadcast(event: string, data: Json, ok: nat -> bool)
      requires Valid()
      modifies this
      ensures Valid()
      ensures streams == Deliver(old(streams), sessions, Payload(event, data), ok)
      ensures log == old(log) + [Write(Payload(event, data), ok)]
      ensures sessions == old(sessions) && nextWriter == old(nextWriter) && listening == old(listening)
      ensures joinedAt == old(joinedAt)
    {
      DeliveryBroadcast(sessions, streams, joinedAt, log, Payload(event, data), ok);
      streams := WriteAll(sessions, streams, Payload(event, data), ok);
      log := log + [Write(Payload(event, data), ok)];
    }

    /**
     * `handleNotify`: a JSON body is broadcast unchanged as a `message` record
     * and `{success: true}` is returned; a body that is not JSON gets 400 and
     * nothing is sent.
     */
    method HandleNotify(body: Option<Json>, ok: nat -> bool) returns (out: Outcome)
      requires Valid()
      modifies this
      ensures Valid()
      ensures sessions == old(sessions) && nextWriter == old(nextWriter) && listening == old(listening)
      ensures body.None? ==>
                && out == Respond(Response(400, Text("Invalid request body")))
                && streams == old(streams) && log == old(log)
      ensures body.Some? ==>
                && streams == Deliver(old(streams), sessions, Payload("message", body.value), ok)
                && log == old(log) + [Write(Payload("message", body.value), ok)]
                && out == Respond(Response(200, JsonBody(SuccessAck)))
    {
      if body.None? {
        out := Respond(Response(400, Text("Invalid request body")));
        return;
      }
      Broadcast("message", body.value, ok);
      out := Respond(Response(200, JsonBody(SuccessAck)));
    }

    /** `fetch`: routes by path suffix and method; anything else is 404 "Not found". */
    method Fetch(req: Request, ok: nat -> bool) returns (out: Outcome)
      requires Valid()
      modifies this
      ensures Valid()
      ensures RouteOf(req.path, req.verb) == NotFound ==>
                out == Respond(Response(404, Text("Not found"))) && unchanged(this)
      ensures RouteOf(req.path, req.verb) == ToEvents ==>
                && sessions == old(sessions) + [old(nextWriter)] && streams == old(streams)[old(nextWriter) := []]
                && listening == old(listening) && out == Threw
      ensures RouteOf(req.path, req.verb) == ToNotify ==>
                sessions == old(sessions)
    {
      match RouteOf(req.path, req.verb)
      case ToEvents =>
        out := HandleSse();
      case ToNotify =>
        out := HandleNotify(req.body, ok);
      case NotFound =>
        out := Respond(Response(404, Text("Not found")));
    }
  }
}
