# my-bots hubs, token envelope and login exchange in Dafny

This project models the server core of **my-bots**, a SvelteKit application on
Cloudflare Workers. The model has six parts:

- **`Chat`** (`chat_hub.dfy`) is a chat room served over server-sent events.
  - A client opening `…/events` is listed and replayed every stored message, one
    `event: message` record each.
  - A `POST …/messages` is stamped with the server time and appended to an
    uncapped log. The log is persisted, then the message is broadcast.
  - A session whose write fails is dropped from the list.
- **`ChatRoom`** (`chatroom_hub.dfy`) is a WebSocket room (RFC 6455) on a
  hibernatable object.
  - A request that is not an upgrade gets 426.
  - Each accepted socket carries a `{username}` attachment and is sent the
    history, which is capped at 50 entries, oldest dropped first.
  - Joins, messages and leaves are broadcast to every listed socket, the joiner
    and the sender included.
  - A socket whose send throws is closed.
- **`LoginSession`** (`login_session_hub.dfy`) is a server-sent-events channel
  with no history.
  - `POST …/notify` broadcasts its JSON body to the writers listed at that moment.
  - A failed write never removes a writer.
  - As written, `…/events` lists the new writer and then throws while
    registering its close listener, so the writer is never removed (see
    "## Findings"). The corrected handler, which registers the listener, is
    modelled beside it.
- **Bot token envelope** (`bot_token.dfy`, `base64.dfy`). A bot token is stored
  as the base 64 (section 4 of RFC 4648) of `iv(12) ‖ salt(16) ‖ ciphertext`.
  - The key is PBKDF2 (100000 iterations, SHA-256) to AES-GCM 256.
  - Decryption cuts the parts at fixed offsets.
- **Login-token exchange** (`auth_session.dfy`) trades a `completed` login token
  for a session.
  - It inserts a seven-day session row, sets the `sessionId` cookie and marks the
    token `used`.
  - Every error path is modelled.
- **Schema-init once-flag** (`server_hooks.dfy`). The flag is set only when
  initialisation succeeds, so a failure is retried on the next request.

Shared pieces:

- `server_sent_events.dfy` holds the `event:`/`data:` framing of the HTML Living
  Standard, section 9.2, with a client-side parser and the round trip.
- `json_value.dfy` holds JSON values, property update and `JSON.stringify`.
- `http.dfy` holds requests and responses.
- `membership.dfy` holds `indexOf`/`splice` removal, the pruning filter and
  delivery to a list of streams.

The hubs are classes whose fields are the source's lists and logs. Every
handler is a method whose `ensures` gives each field it changes and which
fields stay as they were. Each class keeps a `Valid()` invariant that every
handler preserves:

- for `Chat` and `LoginSession` it states what every listed client has been
  sent, from a ghost record of what was broadcast and when each client joined;
- for `ChatRoom` it states what every open socket has been sent since it was
  greeted, the FIFO law of the history, and that the history is what storage
  holds.

External effects are parameters:

- whether each write or send succeeds (`ok`);
- the clock (`now`);
- fresh ids;
- whether a storage `put` or a database statement succeeds;
- the crypto primitives.

## Model

| member | source | states |
|---|---|---|
| ChatHub.RouteOf | src/lib/server/Chat.js:22-30 | `/events` is taken exactly when the path ends in `/events`, `/messages` exactly when it ends in `/messages` and the method is POST; anything else is 404 |
| ChatHub.EventsNotMessages | src/lib/server/Chat.js:22-25 | no path ends in both `/events` and `/messages`, so the order of the two tests does not matter |
| ChatHub.MessageRecord | src/lib/server/Chat.js:109 | a client parsing the record gets back one `message` event whose data is the message's JSON text, with nothing left over |
| ChatHub.MessageRecords | src/lib/server/Chat.js:60 | one record per stored message, the i-th being the `message` record of the i-th message |
| ChatHub.Replay | src/lib/server/Chat.js:60 | the `forEach` replay loop writes exactly the `message` records of the whole log, in log order |
| ChatHub.MessageRecordsAppend | src/lib/server/Chat.js:60 | the records of two logs back to back are the records of their concatenation |
| ChatHub.ClientReadsMessages | src/lib/server/Chat.js:108-111 | a client parsing its stream reads back exactly the stored messages as `message` events, in order |
| ChatHub.PublishExtends | src/lib/server/Chat.js:94-104 | one more broadcast message extends a live session's expected stream by exactly its record |
| ChatHub.Stamp | src/lib/server/Chat.js:79 | on an object the server time becomes `timestamp` and every other property is kept; an array is unchanged; a primitive or null throws |
| ChatHub.ConsistentJoin | src/lib/server/Chat.js:57-60 | a joiner appended last and replayed the log keeps the sessions distinct and every stream equal to its replay plus what was broadcast since |
| ChatHub.ConsistentBroadcast | src/lib/server/Chat.js:94-104 | a broadcast that writes to every session and prunes the failed ones keeps the delivery law, with the message added to what was broadcast |
| ChatHub.Fanout | src/lib/server/Chat.js:95-104 | the live list is the snapshot minus the failed sessions, in order; every stream of the snapshot gets the record exactly when its write succeeds |
| ChatHub.Chat.constructor | src/lib/server/Chat.js:5-14 | no sessions, the log not yet loaded |
| ChatHub.Chat.Load | src/lib/server/Chat.js:12-14 | the log becomes the stored `messages`, or empty when none was stored |
| ChatHub.Chat.HandleSse | src/lib/server/Chat.js:34-72 | the session is appended last and its stream holds exactly the records of the log; before the load it throws after the push, with no abort listener |
| ChatHub.Chat.Abort | src/lib/server/Chat.js:63-68 | a listening session is spliced out (first occurrence) and no longer listed, so a second abort finds nothing to remove; all else unchanged |
| ChatHub.Chat.Broadcast | src/lib/server/Chat.js:94-105 | the sessions become those whose write succeeded, in order; each listed stream gains exactly one `message` record when its write succeeds |
| ChatHub.Chat.HandlePostMessage | src/lib/server/Chat.js:75-91 | a stamped message grows the log by exactly one; a successful put stores the whole log, broadcasts and returns `{success: true}`; a failed put throws without broadcasting; a bad body or unloaded log throws and changes nothing |
| ChatHub.Chat.Fetch | src/lib/server/Chat.js:18-31 | dispatches as `RouteOf`; 404 "Not found" changes nothing; an accepted POST whose put succeeds appends the stamped message, stores it, and delivers its record to the live streams as `Deliver` says |
| ServerSentEvents.Record | src/lib/server/Chat.js:109 | the record is `event: `, the kind, a line feed, `data: `, the data and a blank line |
| ServerSentEvents.RecordRoundTrip | src/lib/server/Chat.js:109 | a client reading a record of one-line kind and data gets exactly that event and the rest of the stream |
| ServerSentEvents.StreamRoundTrip | src/lib/server/LoginSession.js:69 | records written back to back are read back as exactly those events, in order |
| JsonValue.Stringify | src/lib/server/Chat.js:109 | `JSON.stringify` of any value is one line, so it fits the `data:` field |
| JsonValue.SetField | src/lib/server/Chat.js:79 | assigning a property keeps the key order and appends a new key last (JavaScript's order for keys that are not integer-like, such as `timestamp`) |
| JsonValue.SetFieldLookup | src/lib/server/Chat.js:79 | after the assignment the key reads the new value and every other key reads as before |
| Membership.NoDupAppend | src/lib/server/Chat.js:57 | pushing a fresh element keeps a list free of repeats |
| Membership.IndexOf | src/lib/server/Chat.js:64 | `indexOf` is -1 exactly when absent, else the first position holding the element |
| Membership.RemoveFirstAt | src/lib/server/Chat.js:64-67 | splicing at the found position removes the first occurrence |
| Membership.RemoveFirstAbsent | src/lib/server/Chat.js:65 | when the element is absent nothing is removed |
| Membership.RemoveFirstMembers | src/lib/server/Chat.js:64-67 | on distinct elements the removal drops exactly that element, shortens the list by one if it was there and keeps it distinct |
| Membership.RemoveFirstIdempotent | src/lib/server/Chat.js:63-68 | a second removal of the same session is a no-op |
| Membership.Remove | src/lib/server/Chat.js:64-67 | the `indexOf`/`splice` method computes the first-occurrence removal |
| Membership.FilterMembers | src/lib/server/Chat.js:97-103 | the pruned list holds exactly the sessions whose write succeeded |
| Membership.FilterNoDup | src/lib/server/Chat.js:97-103 | pruning keeps the sessions distinct |
| Membership.FilterAll | src/lib/server/Chat.js:95-104 | when every write succeeds no session is pruned |
| Membership.DeliverAt | src/lib/server/Chat.js:95-96 | over distinct targets every stream gains the record exactly once when it is a target whose send succeeds, and otherwise is unchanged |
| Membership.DeliverOutside | src/lib/server/LoginSession.js:72-80 | a stream that is not a target is untouched |
| Membership.RejectedMembers | src/lib/server/ChatRoom.js:96-102 | the sockets closed by a pass are exactly the targets whose send failed |
| ChatRoomHub.Username | src/lib/server/ChatRoom.js:20 | the name is the `username` parameter when present and non-empty, else "Аноним", and never empty |
| ChatRoomHub.PairText | src/lib/server/ChatRoom.js:91 | `JSON.stringify` of a two-property object is `{`, each key quoted with `:` and its value's text, the two joined by `,`, and `}` |
| ChatRoomHub.EnvelopeText | src/lib/server/ChatRoom.js:91 | the broadcast frame is the text `{"action":<quoted action>,"data":<data's JSON text>}` |
| ChatRoomHub.EnvelopeKeys | src/lib/server/ChatRoom.js:91 | the two keys are written unescaped as `"action"` and `"data"` |
| ChatRoomHub.Notice | src/lib/server/ChatRoom.js:44 | a notice has the single key `text`, holding the name followed by the suffix: " вошел в чат" for a join (line 44), " вышел" for a leave (line 81) |
| ChatRoomHub.TextValue | src/lib/server/ChatRoom.js:59 | a text frame is kept as that string; a binary frame shows as `{}` |
| ChatRoomHub.MessageData | src/lib/server/ChatRoom.js:61-66 | the message object has exactly the keys id, username, text, timestamp, in that order, holding the drawn id, the attached name, the frame's text and the time |
| ChatRoomHub.CappedAppend | src/lib/server/ChatRoom.js:107-108 | the new message is last and a history within 50 stays within 50 |
| ChatRoomHub.CappedAppendLastN | src/lib/server/ChatRoom.js:107-108 | pushing then shifting beyond 50 on the last 50 of what was seen gives the last 50 of what is seen now |
| ChatRoomHub.HistoryFifo | src/lib/server/ChatRoom.js:106-111 | from a history of at most 50, any run of additions leaves exactly the last min(n, 50) messages, oldest first |
| ChatRoomHub.SendAll | src/lib/server/ChatRoom.js:95-103 | each listed socket gets the frame when its send succeeds; exactly the sockets whose send threw are added to the closed ones |
| ChatRoomHub.RoomAccept | src/lib/server/ChatRoom.js:31-35 | accepting a fresh socket with its attachment keeps the room's bookkeeping and every other socket's frames |
| ChatRoomHub.RoomGreet | src/lib/server/ChatRoom.js:38-41 | a socket just sent the history frame starts its delivery law from that frame |
| ChatRoomHub.GreetedBroadcast | src/lib/server/ChatRoom.js:90-104 | after a broadcast every open, unclosed socket holds its history frame followed by every frame broadcast since it joined |
| ChatRoomHub.RoomBroadcast | src/lib/server/ChatRoom.js:90-104 | a broadcast keeps the room's bookkeeping, closing exactly the sockets whose send failed |
| ChatRoomHub.RoomLeave | src/lib/server/ChatRoom.js:76-82 | a socket leaving the list keeps the bookkeeping of the others |
| ChatRoomHub.JoinerFrames | src/lib/server/ChatRoom.js:31-44 | the joiner, being listed before the notice goes out, holds its history frame and then its own join notice unless that send failed |
| ChatRoomHub.ChatRoom.constructor | src/lib/server/ChatRoom.js:4-16 | on first creation the history is the stored one, or empty, and there are no sockets |
| ChatRoomHub.ChatRoom.Wake | src/lib/server/ChatRoom.js:4-16 | when a hibernated object wakes the history is read back from storage and equals the one before, while the accepted sockets, their attachments and their frames are kept |
| ChatRoomHub.ChatRoom.Broadcast | src/lib/server/ChatRoom.js:90-104 | one `{action, data}` frame to every listed socket whose send succeeds; the failed ones are closed; the list, history and storage are unchanged |
| ChatRoomHub.ChatRoom.AddToHistory | src/lib/server/ChatRoom.js:106-111 | the history is pushed and capped at 50 and stored under "history"; the FIFO law is kept |
| ChatRoomHub.ChatRoom.Accept | src/lib/server/ChatRoom.js:31-35 | a fresh socket is listed last with its username attachment and no frames |
| ChatRoomHub.ChatRoom.SendHistory | src/lib/server/ChatRoom.js:38-41 | the accepted socket holds exactly the history frame |
| ChatRoomHub.ChatRoom.Join | src/lib/server/ChatRoom.js:26-46 | the joiner is accepted and sent the history; then the join notice goes to every listed socket, the joiner included, and 101 is returned; the joiner itself holds the history frame, then its own notice unless that send failed; a failed history send throws with nothing broadcast |
| ChatRoomHub.ChatRoom.Fetch | src/lib/server/ChatRoom.js:18-47 | without `Upgrade: websocket` the answer is 426 "Expected Upgrade: websocket" and nothing changes; otherwise the user joins under the defaulted name |
| ChatRoomHub.ChatRoom.WebSocketMessage | src/lib/server/ChatRoom.js:52-73 | the message with id, username, text and time is added to the capped history and broadcast to all sockets, the sender included; a missing attachment is caught and changes nothing |
| ChatRoomHub.ChatRoom.WebSocketClose | src/lib/server/ChatRoom.js:76-82 | the closed socket is no longer listed and the leave notice goes to the rest; exactly the sockets whose send failed are closed; the history and the id counter are untouched |
| ChatRoomHub.ChatRoom.WebSocketError | src/lib/server/ChatRoom.js:84-86 | nothing changes |
| LoginSessionHub.RouteOf | src/lib/server/LoginSession.js:14-23 | `/events` exactly when the path ends so, `/notify` exactly for a POST to a path ending so, else 404 |
| LoginSessionHub.Payload | src/lib/server/LoginSession.js:69 | for a one-line event name a client parsing the record gets that event with the data's JSON text, with nothing left over |
| LoginSessionHub.WriteAll | src/lib/server/LoginSession.js:72-80 | each listed writer gets the record when its write succeeds; a failed write rejects a promise nobody handles, so the surrounding `catch` never runs and the writer stays listed |
| LoginSessionHub.RegistryJoin | src/lib/server/LoginSession.js:30 | a fresh writer pushed last keeps the writers distinct and known |
| LoginSessionHub.ReceivedFrom | src/lib/server/LoginSession.js:68-80 | every record a writer receives from a run of broadcasts is the record of one of them whose write to it succeeded |
| LoginSessionHub.DeliveryJoin | src/lib/server/LoginSession.js:28-30 | a writer pushed now has been sent nothing and the others' streams are untouched, so the delivery law holds |
| LoginSessionHub.DeliveryBroadcast | src/lib/server/LoginSession.js:68-80 | a broadcast extends each listed writer's stream by the record exactly when its write succeeds, keeping the delivery law across any run |
| LoginSessionHub.OnlySinceJoining | src/lib/server/LoginSession.js:68-80 | a listed writer holds only records of broadcasts made after it joined whose write to it succeeded; there is no history |
| LoginSessionHub.CloseAllShrinks | src/lib/server/LoginSession.js:33-38 | stream closes never add a writer and keep the list free of repeats |
| LoginSessionHub.UnlistenedWriterStays | src/lib/server/LoginSession.js:30-33 | a writer whose close listener was never registered stays listed through any run of closes, its own included |
| LoginSessionHub.ListenerLeaves | src/lib/server/LoginSession.js:33-38 | a writer whose close listener is registered is no longer listed once its stream has closed |
| LoginSessionHub.LoginSession.constructor | src/lib/server/LoginSession.js:4-8 | no writers |
| LoginSessionHub.LoginSession.HandleSse | src/lib/server/LoginSession.js:27-33 | as written: a fresh writer is pushed last with an empty stream, no close listener is registered, and the handler throws |
| LoginSessionHub.LoginSession.HandleSseListening | src/lib/server/LoginSession.js:27-47 | as intended: the fresh writer is pushed last with an empty stream and its close listener registered, and the answer is an event stream |
| LoginSessionHub.LoginSession.StreamClosed | src/lib/server/LoginSession.js:33-38 | a writer whose listener is registered is spliced out and no longer listed, so a second close changes nothing; a writer without one stays; the streams are untouched |
| LoginSessionHub.LoginSession.Broadcast | src/lib/server/LoginSession.js:68-81 | every listed writer whose write succeeds gets the record, and the broadcast is recorded; the list never changes, so a failed write prunes nobody |
| LoginSessionHub.LoginSession.HandleNotify | src/lib/server/LoginSession.js:50-65 | a JSON body is broadcast as a `message` record and `{success: true}` returned; otherwise 400 "Invalid request body" and nothing is sent |
| LoginSessionHub.LoginSession.Fetch | src/lib/server/LoginSession.js:10-24 | dispatches as `RouteOf`: `/events` pushes a writer and throws, as written; 404 "Not found" changes nothing |
| Base64.Encode | src/lib/server/botManagement.js:48 | every three bytes, or a final one or two, become four characters |
| Base64.ValueOfCharOf | src/lib/server/botManagement.js:48 | each 6-bit value has a character of the alphabet that reads back as it |
| Base64.GroupRoundTrip | src/lib/server/botManagement.js:48 | a full group of three bytes decodes back to those bytes |
| Base64.Decode | src/lib/server/botManagement.js:53 | text that decodes has a length that is a multiple of four, and yields three bytes per group less at most two of padding |
| Base64.RoundTrip | src/lib/server/botManagement.js:53 | decoding what was encoded gives back exactly the bytes |
| BotToken.DeriveKey | src/lib/server/botManagement.js:6-27 | the key is derived from the passphrase and salt with PBKDF2, 100000 iterations, SHA-256, for AES-GCM 256, extractable, with the given usages |
| BotToken.Slice | src/lib/server/botManagement.js:54-56 | `slice(from, to)` is the bytes from `from` to `to` when both are within the buffer, the rest from `from` when `to` is past the end, and empty when `from` is at or past `to` or the end |
| BotToken.Unpack | src/lib/server/botManagement.js:53-56 | on a buffer of at least 28 bytes the parts are 12 and 16 bytes long and concatenate back to the buffer |
| BotToken.UnpackPacked | src/lib/server/botManagement.js:43-56 | cutting a packed buffer at 12 and 28 gives back exactly the IV, salt and ciphertext |
| BotToken.SetAt | src/lib/server/botManagement.js:44-46 | `set(src, offset)` overwrites exactly the positions from the offset with `src` |
| BotToken.Pack | src/lib/server/botManagement.js:43-46 | the buffer is the IV, then the salt, then the ciphertext |
| BotToken.DecryptBotToken | src/lib/server/botManagement.js:52-67 | text that is not base 64 rejects, and any token returned is the UTF-8 decoding of some plaintext |
| BotToken.DecryptOfEnvelope | src/lib/server/botManagement.js:52-67 | decrypting the base 64 of `iv ‖ salt ‖ ciphertext` opens the ciphertext under that nonce and a key derived from the passphrase and that salt, and fails exactly when opening fails |
| BotToken.EncryptBotToken | src/lib/server/botManagement.js:30-49 | the text is the base 64 of IV, salt and the AES-GCM sealing of the token; with sound primitives decrypting it under the same passphrase gives back the token less one leading U+FEFF (`StripBom`), and a token that does not start with U+FEFF exactly |
| AuthSession.TokenParamOf | src/routes/api/auth/session/+server.js:9-19 | destructuring throws exactly on a body that is not JSON or is null; the id is a string exactly when the body has a string `tokenId`; any other `tokenId` the database can bind names no row, and the rest (absent, an object, an array not all bytes) cannot be bound |
| AuthSession.ExpiresAt | src/routes/api/auth/session/+server.js:29 | the session expires 604800000 ms (seven days) after now |
| AuthSession.SessionCookie | src/routes/api/auth/session/+server.js:36-42 | the `sessionId` cookie holds the session id, path `/`, httpOnly, sameSite lax, the session's expiry, and is secure exactly outside development |
| AuthSession.Exchange | src/routes/api/auth/session/+server.js:7-55 | no token row appears or disappears, and one that changes goes from `completed` to `used`; no session row is removed or altered and at most the drawn id is added; a cookie is set only when that id was new and is now a session |
| AuthSession.NoDatabaseUntouched | src/routes/api/auth/session/+server.js:11-13 | without a database binding the answer is 500 "Database not available" and no table changes |
| AuthSession.IncompleteRefused | src/routes/api/auth/session/+server.js:17-23 | a bindable `tokenId` whose row is absent or not `completed` gets 400, no cookie, and no table changes |
| AuthSession.UnbindableRefused | src/routes/api/auth/session/+server.js:15-19 | a `tokenId` that is absent, an object, or an array not all bytes makes the bind throw inside the `try`: 500 "Failed to create user session", and no table changes |
| AuthSession.GrantedIff | src/routes/api/auth/session/+server.js:21-49 | the answer is 200 exactly when the token exists, is `completed`, has a user, and no statement fails |
| AuthSession.GrantedEffects | src/routes/api/auth/session/+server.js:25-49 | a granted exchange inserts exactly one session for the token's user expiring seven days on, sets the cookie to it, marks the token `used` and answers `{success: true, userId}` |
| AuthSession.NoReplay | src/routes/api/auth/session/+server.js:21-46 | exchanging the same token again changes no table, sets no cookie and never succeeds; once the select succeeds the answer is 400 |
| AuthSession.FailedUpdateLeavesTokenReusable | src/routes/api/auth/session/+server.js:31-54 | if only the final update fails the answer is 500 with the session and cookie already in place and the token still exchangeable |
| AuthSession.EarlyFaultUntouched | src/routes/api/auth/session/+server.js:15-54 | a failing select, or a failing insert for a completed token, answers 500 "Failed to create user session" and changes nothing |
| AuthSession.Database.Post | src/routes/api/auth/session/+server.js:7-55 | the handler's statements in order leave the tables and reply that `Exchange` gives |
| ServerHooks.Step | src/hooks.server.js:8-24 | an attempt is made exactly when the flag is false and a database is bound; the flag is then set exactly when it was set or the attempt succeeded |
| ServerHooks.SetIffSomeSuccess | src/hooks.server.js:8-19 | from module load, the flag is set exactly when some request had a database and its initialisation succeeded |
| ServerHooks.SetIsFinal | src/hooks.server.js:8-13 | once set the flag stays set and no further initialisation is attempted |
| ServerHooks.FailuresRetried | src/hooks.server.js:15-24 | while no initialisation succeeds the flag stays false and every request with a database attempts again |
| ServerHooks.AttemptsStopAtFirstSuccess | src/hooks.server.js:8-13 | attempts are made for the requests with a database up to the first success, and none after |
| ServerHooks.Hooks.constructor | src/hooks.server.js:4 | the flag starts false |
| ServerHooks.Hooks.Handle | src/hooks.server.js:7-29 | the flag and the attempt count move as `Step` says; `resolve` is called once and its response returned unchanged |

## Left out

- Concurrency and asynchrony: `blockConcurrencyWhile`, un-awaited `storage.put` and `writer.write`, and the abort and `readable.closed` callbacks.
  - Each handler of the Durable Objects (`Chat`, `ChatRoom`, `LoginSession`) is one atomic step; the runtime runs one event of an object at a time.
  - A close callback is a separate operation (`Abort`, `StreamClosed`, `WebSocketClose`).
  - In `Chat.broadcast` the rejection handlers run after the loop; `Fanout` splices inside its loop instead. Both reach the same final state, because `Fanout` walks a snapshot of distinct sessions.
- The cold start of `Chat`: `messages` is an `Option` that is None until `Load` runs. `HandleSse` and `HandlePostMessage` model what the code does before that: it throws. The timing race itself is not modelled.
- Streams, `TextEncoder`, response headers (`Content-Type`, `Cache-Control`, `Connection`) and the client half of a `WebSocketPair`.
  - A stream is the sequence of record strings written to it.
  - A socket is an id with the frames sent to it.
- JSON parsing is not modelled. A body is a parsed value or None. Numbers are integers only: `Date.now()` values and integer-valued JSON numbers. JavaScript holds a JSON number as a double, so an integer above 2^53 is rounded and one of 10^21 or more is printed in exponent form; the model keeps and prints every integer exactly.
- `ChatHub.Stamp`: on an array, the assigned `timestamp` is not shown. `JSON.stringify` drops it, which is the only place a log entry is observed.
- `ChatRoomHub.TextValue`: a binary frame's text is stored as `{}`, which is what `JSON.stringify` shows for an `ArrayBuffer`. Its bytes are not kept.
- Header name case-insensitivity and URL percent-decoding: the path, the `username` query value and the `Upgrade` header arrive already decoded.
- `LoginSessionHub.LoginSession.StreamClosed`: as written it is never reached, because no close listener is ever registered. It is kept for the corrected handler `HandleSseListening`, which `Fetch` does not call.
- `ChatRoom.webSocketClose` on a socket the room already closed: the runtime's second close is not modelled. The room's `close()` is recorded in `closed`, and later sends to that socket fail.
- `lastTimestamp` in `Chat` is assigned and never read.
- `BotToken.DecryptBotToken`: decoding is strict padded base 64. Node's `Buffer.from(…, 'base64')` also accepts the URL-safe alphabet and missing padding, and skips other characters. Text that only Node accepts is rejected here.
- `Base64.Decode`: strict padded decoding. Unpadded, URL-safe or otherwise irregular text, which Node's `Buffer.from(…, 'base64')` decodes leniently, gives None here.
- `AuthSession.NoReplay`: holds for exchanges that do not overlap. Two overlapping POSTs with the same completed token can both read the row as `completed` before either `UPDATE` runs (src/routes/api/auth/session/+server.js:17-19, 44-46), and then both get a session.
- `ServerHooks.Hooks.Handle`: requests are handled one at a time. Two overlapping first requests both see the flag false and both call `initAllSchemas` (src/hooks.server.js:8-13).
- PBKDF2, AES-GCM and UTF-8 are parameters (`Primitives`). The `Sound` predicate states their laws: AES-GCM opens what it sealed under the same key and IV, and decoding the UTF-8 encoding of a text gives it back less one leading U+FEFF (`TextDecoder` consumes a leading byte order mark). Texts are sequences of Unicode scalar values, so lone surrogates, which `TextEncoder` replaces, do not arise.
  - Random IV and salt (`getRandomValues`) are arguments.
  - Key import (`importKey` of the raw passphrase) is part of `DeriveKey`.
- `AuthSession.TokenParamOf`: a bound `tokenId` that is `null`, a number, a boolean or a byte array names no row here. SQLite's text affinity could let a number match a text id. Which values D1 refuses to bind is taken as: `undefined`, objects, and arrays that are not all byte values.
- The exchange's `expires_at` is kept in milliseconds; its `toISOString` text is not modelled.
- The `sessions.user_id` foreign key to `users` is not checked. `uuidv4` collisions are modelled only as a failing insert (primary key).
- `console` logging everywhere; the message text of thrown errors.
- `ServerHooks.Hooks.Handle`: `event.platform && event.platform.env && event.platform.env.DB` is collapsed to one flag. What `initAllSchemas` does is left out; only whether it resolves or rejects is modelled.
- `ChatHub.Chat.Fetch`: states the POST outcome only for an accepted body whose put succeeds. The other cases are those of `HandlePostMessage`, which it calls.
- `ChatRoomHub.ChatRoom.Wake`: the stored history is read back in the same step; the wait inside `blockConcurrencyWhile` is not modelled. The model assumes every un-awaited `put` of the history has landed before the object sleeps.
- `ChatRoomHub.ChatRoom.Fetch`: states the frames sent only through `Join`, which it calls.
- `LoginSessionHub.LoginSession.Fetch`: states only that the writer list is unchanged for `/notify`. The records sent are those of `HandleNotify`, which it calls.

## Findings

| source | as written | input that shows it | evidently intended | confidence | as-written member | corrected member |
|---|---|---|---|---|---|---|
| src/lib/server/LoginSession.js:33 | `readable.closed.finally(…)` is called on the readable half of a `TransformStream`, a `ReadableStream`, which has no `closed` property; calling `.finally` on `undefined` throws after the writer was pushed at line 30 | any request to a path ending in `/events`: the request fails, and the writer stays in `sessions` for good, so every later broadcast still writes to it | take the close promise from the writer (`writer.closed.finally(…)`), so the writer is spliced out when its stream closes and the event stream is returned | high, from the Streams interface; not executed | LoginSessionHub.LoginSession.HandleSse, LoginSessionHub.UnlistenedWriterStays | LoginSessionHub.LoginSession.HandleSseListening, LoginSessionHub.ListenerLeaves |
