/**
 * `ChatRoom`: a room served over WebSockets (RFC 6455) by a hibernatable object.
 * The runtime keeps the accepted sockets and the `{username}` attachment of each;
 * the object keeps a history of the last 50 messages, sends it to every joiner,
 * and echoes every message, join and leave to all sockets. A socket whose send
 * throws is closed.
 */
module ChatRoomHub {
  import opened Wrappers
  import opened JsonValue
  import opened Http
  import opened Membership

  /** At most this many messages are kept. */
  const HistoryCap: nat := 50

  /** The name of a client that gave none. */
  const Anonymous: string := "Аноним"

  /** `url.searchParams.get("username") || "Аноним"`: an absent or empty parameter falls back. */
  function Username(query: map<string, string>): (r: string)
    ensures r != ""
    ensures "username" in query && query["username"] != "" ==> r == query["username"]
    ensures "username" !in query || query["username"] == "" ==> r == Anonymous
  {
    if "username" in query && query["username"] != "" then query["username"] else Anonymous
  }

  /** `JSON.stringify({ action, data })`: the one frame shape the room sends. */
  function Envelope(action: string, data: Json): string
  {
    Stringify(JObj([Field("action", JStr(action)), Field("data", data)]))
  }

  /** The text of a two-member object: both members in order, and nothing else. */
  lemma PairText(k1: string, v1: Json, k2: string, v2: Json)
    ensures Stringify(JObj([Field(k1, v1), Field(k2, v2)]))
         == "{" + Quote(k1) + ":" + Stringify(v1) + "," + Quote(k2) + ":" + Stringify(v2) + "}"
  {
    var fields := [Field(k1, v1), Field(k2, v2)];
    var parts := seq(|fields|, i requires 0 <= i < |fields| => Member(fields[i].key, Stringify(fields[i].value)));
    var a := Member(k1, Stringify(v1));
    var d := Member(k2, Stringify(v2));
    assert parts == [a, d];
    assert Join(parts, ",") == a + "," + d by { assert parts[1..] == [d]; }
    assert Stringify(JObj(fields)) == "{" + (a + "," + d) + "}";
    Regroup9("{", Quote(k1), ":", Stringify(v1), ",", Quote(k2), ":", Stringify(v2), "}");
  }

  lemma Regroup9(s1: string, s2: string, s3: string, s4: string, s5: string, s6: string, s7: string,
                 s8: string, s9: string)
    ensures s1 + ((s2 + s3 + s4) + s5 + (s6 + s7 + s8)) + s9 == s1 + s2 + s3 + s4 + s5 + s6 + s7 + s8 + s9
  {
  }

  /**
   * The frame is an object whose `action` member comes first and whose `data`
   * member follows, with nothing else in it.
   */
  lemma EnvelopeText(action: string, data: Json)
    ensures Envelope(action, data)
         == "{" + Quote("action") + ":" + Quote(action) + "," + Quote("data") + ":" + Stringify(data) + "}"
  {
    PairText("action", JStr(action), "data", data);
  }

  /** The two member names need no escaping. */
  lemma EnvelopeKeys()
    ensures Quote("action") == "\"action\"" && Quote("data") == "\"data\""
  {
    EscapePlain("action");
    EscapePlain("data");
  }

  /** The frame a joiner is sent first. */
  function HistoryFrame(history: seq<Json>): string
  {
    Envelope("history", JArr(history))
  }

  /** What follows the name in the notice of a join, and of a leave. */
  const JoinSuffix := " вошел в чат"
  const LeaveSuffix := " вышел"

  /** `{ text: `${username}<suffix>` }`: an object whose only member is the text. */
  function Notice(username: string, suffix: string): (r: Json)
    ensures r.JObj? && Keys(r.fields) == ["text"]
    ensures Lookup(r.fields, "text") == Some(JStr(username + suffix))
  {
    JObj([Field("text", JStr(username + suffix))])
  }

  /** A message as the runtime hands it over: a string, or an `ArrayBuffer` for a binary frame. */
  datatype Incoming = TextFrame(text: string) | BinaryFrame(bytes: seq<bv8>)

  /** The `text` property as JSON shows it: an `ArrayBuffer` has no enumerable properties. */
  function TextValue(msg: Incoming): (r: Json)
    ensures msg.TextFrame? ==> r == JStr(msg.text)
    ensures msg.BinaryFrame? ==> Stringify(r) == "{}"
  {
    match msg
    case TextFrame(t) => JStr(t)
    case BinaryFrame(_) => JObj([])
  }

  /** `{ id, username, text, timestamp }` built from an inbound message. */
  function MessageData(id: string, username: string, msg: Incoming, now: int): (r: Json)
    ensures r.JObj? && Keys(r.fields) == ["id", "username", "text", "timestamp"]
    ensures Lookup(r.fields, "id") == Some(JStr(id))
    ensures Lookup(r.fields, "username") == Some(JStr(username))
    ensures Lookup(r.fields, "text") == Some(TextValue(msg))
    ensures Lookup(r.fields, "timestamp") == Some(JNum(now))
  {
    var last := [Field("timestamp", JNum(now))];
    var fromText := [Field("text", TextValue(msg))] + last;
    var fromName := [Field("username", JStr(username))] + fromText;
    var fields := [Field("id", JStr(id))] + fromName;
    assert Lookup(last, "timestamp") == Some(JNum(now));
    assert Lookup(fromText, "text") == Some(TextValue(msg));
    assert Lookup(fromText, "timestamp") == Lookup(last, "timestamp") by { assert fromText[1..] == last; }
    assert Lookup(fromName, "username") == Some(JStr(username));
    assert Lookup(fromName, "text") == Lookup(fromText, "text") by { assert fromName[1..] == fromText; }
    assert Lookup(fromName, "timestamp") == Lookup(fromText, "timestamp") by { assert fromName[1..] == fromText; }
    assert Lookup(fields, "username") == Lookup(fromName, "username") by { assert fields[1..] == fromName; }
    assert Lookup(fields, "text") == Lookup(fromName, "text") by { assert fields[1..] == fromName; }
    assert Lookup(fields, "timestamp") == Lookup(fromName, "timestamp") by { assert fields[1..] == fromName; }
    assert Keys(fields) == ["id", "username", "text", "timestamp"];
    JObj(fields)
  }

  /** The last `n` elements of `s` (all of them when there are fewer), in order. */
  function LastN<T>(s: seq<T>, n: nat): (r: seq<T>)
  {
    if |s| <= n then s else s[|s| - n..]
  }

  /** `history.push(m); if (history.length > 50) history.shift();` */
  function CappedAppend(h: seq<Json>, m: Json): (r: seq<Json>)
    ensures |h| <= HistoryCap ==> |r| <= HistoryCap
    ensures |r| > 0 && r[|r| - 1] == m
  {
    var pushed := h + [m];
    if |pushed| > HistoryCap then pushed[1..] else pushed
  }

  /** Adding to the last 50 of what was seen gives the last 50 of what is seen now. */
  lemma CappedAppendLastN(seen: seq<Json>, m: Json)
    ensures CappedAppend(LastN(seen, HistoryCap), m) == LastN(seen + [m], HistoryCap)
  {
    if |seen| >= HistoryCap {
      assert (seen[|seen| - HistoryCap..] + [m])[1..] == (seen + [m])[|seen| + 1 - HistoryCap..];
    }
  }

  /** The history after adding each of `ms` in turn. */
  function AddAll(h: seq<Json>, ms: seq<Json>): seq<Json>
  {
    if ms == [] then h else CappedAppend(AddAll(h, ms[..|ms| - 1]), ms[|ms| - 1])
  }

  /**
   * The FIFO law of the history: starting from at most 50 entries, any run of
   * additions leaves exactly the last min(n, 50) messages, oldest first.
   */
  lemma {:induction false} HistoryFifo(h: seq<Json>, ms: seq<Json>)
    requires |h| <= HistoryCap
    ensures AddAll(h, ms) == LastN(h + ms, HistoryCap)
    ensures |AddAll(h, ms)| == if |h| + |ms| <= HistoryCap then |h| + |ms| else HistoryCap
  {
    if ms != [] {
      var init := ms[..|ms| - 1];
      HistoryFifo(h, init);
      CappedAppendLastN(h + init, ms[|ms| - 1]);
      assert h + init + [ms[|ms| - 1]] == h + ms;
    }
  }

  /** Whether a send to `s` goes through: it was not closed by the room and the runtime takes it. */
  function Sendable(closed: set<nat>, ok: nat -> bool): nat -> bool
  {
    (s: nat) => s !in closed && ok(s)
  }

  /**
   * The `for…of` of `broadcast`: `frame` is sent to each socket in turn; a send
   * that throws is followed by `ws.close()`, and the loop goes on.
   */
  method SendAll(targets: seq<nat>, frames: map<nat, seq<string>>, closed: set<nat>, frame: string, ok: nat -> bool)
    returns (sent: map<nat, seq<string>>, closedAfter: set<nat>)
    requires forall s :: s in targets ==> s in frames
    ensures sent == Deliver(frames, targets, frame, Sendable(closed, ok))
    ensures closedAfter == closed + Rejected(targets, Sendable(closed, ok))
  {
    var goes := Sendable(closed, ok);
    sent := frames;
    closedAfter := closed;
    var i := 0;
    while i < |targets|
      invariant 0 <= i <= |targets|
      invariant sent == Deliver(frames, targets[..i], frame, goes)
      invariant closedAfter == closed + Rejected(targets[..i], goes)
    {
      var s := targets[i];
      DeliverStep(frames, targets, i, frame, goes);
      RejectedStep(targets, i, goes);
      if goes(s) {
        sent := sent[s := sent[s] + [frame]];
      } else {
        closedAfter := closedAfter + {s};
      }
      i := i + 1;
    }
    assert targets[..i] == targets;
  }

  /**
   * What every open socket has been sent: the history frame of its join, then
   * every frame broadcast since, as long as the room has not closed it.
   */
  ghost predicate Greeted(sockets: seq<nat>, frames: map<nat, seq<string>>, closed: set<nat>,
                          greeting: map<nat, string>, joinedAt: map<nat, nat>, broadcasts: seq<string>)
  {
    forall s :: s in sockets && s in greeting && s !in closed ==>
      s in frames && s in joinedAt && joinedAt[s] <= |broadcasts| &&
      frames[s] == [greeting[s]] + broadcasts[joinedAt[s]..]
  }

  /** The room's bookkeeping of sockets, stated on its values (see `ChatRoom.Valid`). */
  ghost predicate RoomConsistent(sockets: seq<nat>, attachments: map<nat, string>, frames: map<nat, seq<string>>,
                                 closed: set<nat>, nextSocket: nat, greeting: map<nat, string>,
                                 joinedAt: map<nat, nat>, broadcasts: seq<string>)
  {
    && NoDup(sockets)
    && (forall s :: s in sockets ==> s in attachments)
    && (forall s :: s in attachments ==> s < nextSocket)
    && frames.Keys == attachments.Keys
    && closed <= attachments.Keys
    && greeting.Keys <= attachments.Keys
    && Greeted(sockets, frames, closed, greeting, joinedAt, broadcasts)
  }

  /** What a wake-up restores: `storage.get("history") || []`. */
  function Stored(storage: map<string, seq<Json>>): seq<Json>
  {
    if "history" in storage then storage["history"] else []
  }

  /** The history is the last 50 of everything seen, once it starts within the cap. */
  ghost predicate HistoryLaw(history: seq<Json>, base: seq<Json>, posted: seq<Json>)
  {
    |base| <= HistoryCap ==> history == LastN(base + posted, HistoryCap)
  }

  /** Accepting a fresh socket changes no other socket's frames. */
  lemma RoomAccept(sockets: seq<nat>, attachments: map<nat, string>, frames: map<nat, seq<string>>,
                   closed: set<nat>, nextSocket: nat, greeting: map<nat, string>,
                   joinedAt: map<nat, nat>, broadcasts: seq<string>, username: string)
    requires RoomConsistent(sockets, attachments, frames, closed, nextSocket, greeting, joinedAt, broadcasts)
    ensures RoomConsistent(sockets + [nextSocket], attachments[nextSocket := username],
                           frames[nextSocket := []], closed, nextSocket + 1, greeting, joinedAt, broadcasts)
  {
    assert nextSocket !in sockets;
    NoDupAppend(sockets, nextSocket);
  }

  /** A socket accepted last and sent the history frame `hist` starts its delivery law there. */
  lemma RoomGreet(sockets: seq<nat>, attachments: map<nat, string>, frames: map<nat, seq<string>>,
                  closed: set<nat>, nextSocket: nat, greeting: map<nat, string>,
                  joinedAt: map<nat, nat>, broadcasts: seq<string>, ws: nat, hist: string)
    requires RoomConsistent(sockets, attachments, frames, closed, nextSocket, greeting, joinedAt, broadcasts)
    requires ws in frames && ws !in closed
    ensures RoomConsistent(sockets, attachments, frames[ws := [hist]], closed, nextSocket,
                           greeting[ws := hist], joinedAt[ws := |broadcasts|], broadcasts)
  {
    assert [hist] + broadcasts[|broadcasts|..] == [hist];
  }

  /** A broadcast keeps every open socket's frames equal to its greeting and what followed. */
  lemma GreetedBroadcast(sockets: seq<nat>, frames: map<nat, seq<string>>, closed: set<nat>,
                         greeting: map<nat, string>, joinedAt: map<nat, nat>, broadcasts: seq<string>,
                         frame: string, goes: nat -> bool)
    requires NoDup(sockets)
    requires Greeted(sockets, frames, closed, greeting, joinedAt, broadcasts)
    requires forall s :: s in sockets && s !in closed && s !in Rejected(sockets, goes) ==> goes(s)
    ensures Greeted(sockets, Deliver(frames, sockets, frame, goes), closed + Rejected(sockets, goes),
                    greeting, joinedAt, broadcasts + [frame])
  {
    var sent := Deliver(frames, sockets, frame, goes);
    DeliverAt(frames, sockets, frame, goes);
    forall s | s in sockets && s in greeting && s !in closed + Rejected(sockets, goes)
      ensures s in sent && s in joinedAt && joinedAt[s] <= |broadcasts + [frame]|
      ensures sent[s] == [greeting[s]] + (broadcasts + [frame])[joinedAt[s]..]
    {
      assert (broadcasts + [frame])[joinedAt[s]..] == broadcasts[joinedAt[s]..] + [frame];
    }
  }

  /** A broadcast keeps the room's bookkeeping consistent. */
  lemma RoomBroadcast(sockets: seq<nat>, attachments: map<nat, string>, frames: map<nat, seq<string>>,
                      closed: set<nat>, nextSocket: nat, greeting: map<nat, string>,
                      joinedAt: map<nat, nat>, broadcasts: seq<string>, frame: string, ok: nat -> bool)
    requires RoomConsistent(sockets, attachments, frames, closed, nextSocket, greeting, joinedAt, broadcasts)
    ensures RoomConsistent(sockets, attachments, Deliver(frames, sockets, frame, Sendable(closed, ok)),
                           closed + Rejected(sockets, Sendable(closed, ok)), nextSocket, greeting, joinedAt,
                           broadcasts + [frame])
  {
    var goes := Sendable(closed, ok);
    RejectedMembers(sockets, goes);
    GreetedBroadcast(sockets, frames, closed, greeting, joinedAt, broadcasts, frame, goes);
  }

  /** A socket that leaves the room changes no other socket's frames. */
  lemma RoomLeave(sockets: seq<nat>, attachments: map<nat, string>, frames: map<nat, seq<string>>,
                  closed: set<nat>, nextSocket: nat, greeting: map<nat, string>,
                  joinedAt: map<nat, nat>, broadcasts: seq<string>, ws: nat)
    requires RoomConsistent(sockets, attachments, frames, closed, nextSocket, greeting, joinedAt, broadcasts)
    ensures RoomConsistent(RemoveFirst(sockets, ws), attachments, frames, closed, nextSocket, greeting,
                           joinedAt, broadcasts)
  {
    RemoveFirstMembers(sockets, ws);
  }

  /**
   * The joiner's own frames after the join notice went out: its history frame,
   * then the notice itself unless that send failed.
   */
  lemma JoinerFrames(frames: map<nat, seq<string>>, sockets: seq<nat>, ws: nat, hist: string,
                     notice: string, goes: nat -> bool)
    requires ws !in sockets
    ensures var after := Deliver(frames[ws := [hist]], sockets + [ws], notice, goes);
            ws in after && after[ws] == [hist] + (if goes(ws) then [notice] else [])
  {
    DeliverOutside(frames[ws := [hist]], sockets, notice, goes, ws);
    DeliverStep(frames[ws := [hist]], sockets + [ws], |sockets|, notice, goes);
    assert (sockets + [ws])[..|sockets|] == sockets;
    assert (sockets + [ws])[..|sockets| + 1] == sockets + [ws];
  }

  class ChatRoom {
    /** The last messages, oldest first (`this.history`). */
    var history: seq<Json>
    /** Durable storage of the object: what was last put under each key. */
    var storage: map<string, seq<Json>>
    /** `getWebSockets()`: accepted sockets the runtime has not yet seen close, in accept order. */
    var sockets: seq<nat>
    /** The `{username}` attachment of every accepted socket. */
    var attachments: map<nat, string>
    /** Every frame sent to each accepted socket. */
    var frames: map<nat, seq<string>>
    /** Sockets the room called `close()` on after a failed send. */
    var closed: set<nat>
    /** Source of fresh socket identities (each `WebSocketPair` is new). */
    var nextSocket: nat

    /** The history as loaded from storage. */
    ghost var base: seq<Json>
    /** Messages added since the load, in order. */
    ghost var posted: seq<Json>
    /** Frames broadcast so far, in order. */
    ghost var broadcasts: seq<string>
    /** How many frames had been broadcast when each greeted socket joined. */
    ghost var joinedAt: map<nat, nat>
    /** The history frame each socket was sent at its join, when that send went through. */
    ghost var greeting: map<nat, string>

    ghost predicate Valid()
      reads this
    {
      && RoomConsistent(sockets, attachments, frames, closed, nextSocket, greeting, joinedAt, broadcasts)
      && HistoryLaw(history, base, posted)
      && history == Stored(storage)
    }

    /**
     * The object with its history restored: `stored || []`, read before any event
     * is let in (`blockConcurrencyWhile`).
     */
    constructor (stored: map<string, seq<Json>>)
      ensures Valid()
      ensures history == Stored(stored)
      ensures storage == stored && sockets == [] && attachments == map[] && frames == map[]
      ensures closed == {} && nextSocket == 0
    {
      history := Stored(stored);
      storage := stored;
      sockets := [];
      attachments := map[];
      frames := map[];
      closed := {};
      nextSocket := 0;
      base := history;
      posted := [];
      broadcasts := [];
      joinedAt := map[];
      greeting := map[];
    }

    /**
     * The constructor run again when the runtime wakes a hibernated object: the
     * history is read back from storage, while the runtime still holds the
     * accepted sockets, their attachments and what was sent to them. Every
     * addition was put to storage, so no message of the history is lost.
     */
    method Wake()
      requires Valid()
      modifies this
      ensures Valid()
      ensures history == Stored(storage) && history == old(history)
      ensures storage == old(storage) && sockets == old(sockets) && attachments == old(attachments)
      ensures frames == old(frames) && closed == old(closed) && nextSocket == old(nextSocket)
    {
      history := Stored(storage);
      base, posted := history, [];
    }

    /**
     * `broadcast(action, data)`: the same frame to every socket the runtime lists;
     * a socket whose send throws (the room closed it already, or the runtime
     * refuses) is closed and the loop goes on. The socket list is not changed.
     */
    method Broadcast(action: string, data: Json, ok: nat -> bool)
      requires Valid()
      modifies this
      ensures Valid()
      ensures frames == Deliver(old(frames), sockets, Envelope(action, data), Sendable(old(closed), ok))
      ensures closed == old(closed) + Rejected(sockets, Sendable(old(closed), ok))
      ensures history == old(history) && storage == old(storage) && sockets == old(sockets)
      ensures attachments == old(attachments) && nextSocket == old(nextSocket)
      ensures base == old(base) && posted == old(posted)
    {
      var frame := Envelope(action, data);
      RoomBroadcast(sockets, attachments, frames, closed, nextSocket, greeting, joinedAt, broadcasts, frame, ok);
      frames, closed := SendAll(sockets, frames, closed, frame, ok);
      broadcasts := broadcasts + [frame];
    }

    /** `addToHistory(m)`: push, drop the oldest beyond 50, and put the history under `"history"`. */
    method AddToHistory(m: Json)
      requires Valid()
      modifies this
      ensures Valid()
      ensures history == CappedAppend(old(history), m)
      ensures storage == old(storage)["history" := history]
      ensures sockets == old(sockets) && attachments == old(attachments) && frames == old(frames)
      ensures closed == old(closed) && nextSocket == old(nextSocket) && base == old(base)
    {
      if |base| <= HistoryCap {
        CappedAppendLastN(base + posted, m);
        assert base + posted + [m] == base + (posted + [m]);
      }
      history := CappedAppend(history, m);
      posted := posted + [m];
      storage := storage["history" := history];
    }

    /**
     * `acceptWebSocket(server)` and `serializeAttachment({ username })`: a fresh
     * socket is listed last, carrying the username, with nothing sent yet.
     */
    method Accept(username: string) returns (ws: nat)
      requires Valid()
      modifies this
      ensures Valid()
      ensures ws == old(nextSocket) && nextSocket == ws + 1
      ensures sockets == old(sockets) + [ws]
      ensures attachments == old(attachments)[ws := username]
      ensures frames == old(frames)[ws := []]
      ensures ws !in greeting && ws !in closed
      ensures history == old(history) && storage == old(storage) && closed == old(closed)
    {
      ws := nextSocket;
      RoomAccept(sockets, attachments, frames, closed, nextSocket, greeting, joinedAt, broadcasts, username);
      nextSocket, sockets, attachments, frames := ws + 1, sockets + [ws], attachments[ws := username], frames[ws := []];
    }

    /**
     * `server.send(JSON.stringify({ action: "history", data: this.history }))` to
     * a socket just accepted, which then holds the history frame alone.
     */
    method SendHistory(ws: nat)
      requires Valid()
      requires ws in frames && ws !in greeting && ws !in closed
      modifies this
      ensures Valid()
      ensures frames == old(frames)[ws := [HistoryFrame(history)]]
      ensures history == old(history) && storage == old(storage) && sockets == old(sockets)
      ensures attachments == old(attachments) && closed == old(closed) && nextSocket == old(nextSocket)
    {
      var hist := HistoryFrame(history);
      RoomGreet(sockets, attachments, frames, closed, nextSocket, greeting, joinedAt, broadcasts, ws, hist);
      frames, greeting, joinedAt := frames[ws := [hist]], greeting[ws := hist], joinedAt[ws := |broadcasts|];
    }

    /**
     * Lines 26-46 of `fetch`: a fresh socket is accepted with its `{username}`
     * attachment and sent the history frame; a send that throws makes the handler
     * throw, with the socket accepted and nothing broadcast. Otherwise the join
     * notice goes to every listed socket, the joiner included, and 101 is
     * returned with the client end.
     */
    method Join(username: string, greetOk: bool, ok: nat -> bool) returns (out: Outcome)
      requires Valid()
      modifies this
      ensures Valid()
      ensures history == old(history) && storage == old(storage)
      ensures var ws := old(nextSocket);
              && nextSocket == ws + 1
              && sockets == old(sockets) + [ws]
              && attachments == old(attachments)[ws := username]
              && (!greetOk ==> out == Threw && frames == old(frames)[ws := []] && closed == old(closed))
              && (greetOk ==>
                    var goes := Sendable(old(closed), ok);
                    && frames == Deliver(old(frames)[ws := [HistoryFrame(old(history))]], sockets,
                                         Envelope("notification", Notice(username, JoinSuffix)), goes)
                    && closed == old(closed) + Rejected(sockets, goes)
                    && frames[ws] == [HistoryFrame(old(history))]
                                     + (if ok(ws) then [Envelope("notification", Notice(username, JoinSuffix))] else [])
                    && out == Respond(Response(101, WebSocket(ws))))
    {
      var ws := Accept(username);
      if !greetOk {
        out := Threw;
        return;
      }
      ghost var accepted := frames;
      SendHistory(ws);
      assert frames == old(frames)[ws := [HistoryFrame(old(history))]] by {
        assert accepted == old(frames)[ws := []];
      }
      JoinerFrames(old(frames), old(sockets), ws, HistoryFrame(old(history)),
                   Envelope("notification", Notice(username, JoinSuffix)), Sendable(closed, ok));
      Broadcast("notification", Notice(username, JoinSuffix), ok);
      out := Respond(Response(101, WebSocket(ws)));
    }

    /**
     * `fetch`: the username is read first; a request that is not a WebSocket
     * upgrade gets 426 and changes nothing, any other joins the room.
     */
    method Fetch(req: Request, greetOk: bool, ok: nat -> bool) returns (out: Outcome)
      requires Valid()
      modifies this
      ensures Valid()
      ensures req.upgrade != Some("websocket") ==>
                out == Respond(Response(426, Text("Expected Upgrade: websocket"))) && unchanged(this)
      ensures req.upgrade == Some("websocket") ==>
                && attachments == old(attachments)[old(nextSocket) := Username(req.query)]
                && sockets == old(sockets) + [old(nextSocket)]
                && (greetOk ==> out == Respond(Response(101, WebSocket(old(nextSocket)))))
                && (!greetOk ==> out == Threw)
    {
      var username := Username(req.query);
      if req.upgrade != Some("websocket") {
        out := Respond(Response(426, Text("Expected Upgrade: websocket")));
        return;
      }
      out := Join(username, greetOk, ok);
    }

    /**
     * `webSocketMessage`: the message, tagged with a fresh id, the sender's
     * username and the current time, is added to the history and then broadcast
     * to every socket, the sender included. A socket without an attachment makes
     * the property read throw, which the handler catches: nothing changes.
     */
    method WebSocketMessage(ws: nat, msg: Incoming, id: string, now: int, ok: nat -> bool)
      requires Valid()
      modifies this
      ensures Valid()
      ensures ws !in old(attachments) ==> unchanged(this)
      ensures ws in old(attachments) ==>
                var m := MessageData(id, old(attachments)[ws], msg, now);
                && history == CappedAppend(old(history), m)
                && storage == old(storage)["history" := history]
                && frames == Deliver(old(frames), old(sockets), Envelope("message", m), Sendable(old(closed), ok))
                && closed == old(closed) + Rejected(old(sockets), Sendable(old(closed), ok))
                && sockets == old(sockets) && attachments == old(attachments)
                && nextSocket == old(nextSocket)
    {
      if ws !in attachments {
        return;
      }
      var m := MessageData(id, attachments[ws], msg, now);
      AddToHistory(m);
      Broadcast("message", m, ok);
    }

    /**
     * `webSocketClose`: the runtime has already dropped the socket from its list;
     * the leave notice goes to the sockets that remain. History is untouched. A
     * socket without an attachment makes the handler throw before any send.
     */
    method WebSocketClose(ws: nat, ok: nat -> bool) returns (threw: bool)
      requires Valid()
      modifies this
      ensures Valid()
      ensures threw <==> ws !in old(attachments)
      ensures threw ==> unchanged(this)
      ensures history == old(history) && storage == old(storage) && attachments == old(attachments)
      ensures !threw ==>
                && sockets == RemoveFirst(old(sockets), ws)
                && ws !in sockets
                && frames == Deliver(old(frames), sockets,
                                     Envelope("notification", Notice(old(attachments)[ws], LeaveSuffix)),
                                     Sendable(old(closed), ok))
                && closed == old(closed) + Rejected(sockets, Sendable(old(closed), ok))
                && nextSocket == old(nextSocket)
    {
      if ws !in attachments {
        threw := true;
        return;
      }
      threw := false;
      RoomLeave(sockets, attachments, frames, closed, nextSocket, greeting, joinedAt, broadcasts, ws);
      RemoveFirstMembers(sockets, ws);
      sockets := Remove(sockets, ws);
      Broadcast("notification", Notice(attachments[ws], LeaveSuffix), ok);
    }

    /** `webSocketError`: only logs. */
    method WebSocketError(ws: nat)
      requires Valid()
      ensures Valid()
      ensures unchanged(this)
    {
    }
  }
}
