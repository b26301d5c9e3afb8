# Chat server coordination state, modelled in Dafny

This project models the server side of a socket.io chat application
(`server/server.js`): the per-connection session registry `users`, the
bounded global message log `messages`, the bounded per-room logs
`messagesByRoom`, the typing tracker `typingUsers`, the seven socket event
handlers that update them, and the two read-only HTTP endpoints
`GET /api/messages` (history search and pagination) and `GET /api/users`.

Layout, leaf first:

- `wrappers.dfy` (`Wrappers`): `Option` for JavaScript `undefined`, `Result` for the 400 reply.
- `seqs.dfy` (`Seqs`): `Array.prototype.filter` as `Filter`, "last n entries" as `Window`, subsequences, distinctness.
- `text.dfy` (`Text`): JavaScript truthiness of an optional string, `toLowerCase` and `includes`.
- `jsobject.dfy` (`JsObject`): a plain JavaScript object used as a dictionary. It keeps key insertion order, which is the order `Object.values` reports.
- `messagestore.dfy` (`MessageStore`): the message record and the bounded log with oldest-first eviction at 100 entries.
- `history.dfy` (`History`): the `/api/messages` pipeline, which is search, then `before`, then the last `limit`.
- `chat.dfy` (`Chat`): the class `ChatServer`, whose fields are the four module-level objects of the server. Each socket handler is one method. Each method returns the events it emits, and each event carries its audience (`Target`).
- `scenarios.dfy` (`Scenarios`): concrete event sequences whose outcomes are proved from the handler contracts.

Modelling choices:

- **Clocks are parameters.** `Date.now()` and `new Date().toISOString()` are passed in as `now` and `isoTime`. ISO timestamps of one format order the same way as the instants they encode, so they are modelled as integers.
- **JavaScript falsiness is kept where the code relies on it:**
  - an empty username sends as "Anonymous";
  - an empty room stores into `'global'`;
  - an empty image becomes `null`;
  - an empty `search` skips the search step;
  - an empty or absent `before` is given to the model as `None`, which skips the pagination step;
  - an empty or missing `room` in a query is the 400 error.
- **The acknowledgement callback is optional.** Whether the client supplied it is the parameter `hasCallback`.
- **Emits become returned events.** `io.to(r).emit` is `ToRoom(r)`, `io.emit` is `ToEveryone`, `socket.emit` and the callback are `ToSender`. `socket.to(r).emit` is `ToOthersIn(r)`, which means room `r` without the sender.

Behaviours of the code worth noting (the model follows the code):

- `message:read` does not check for a session.
- Read receipts and reactions are only relayed. They are never recorded on a message, and the message id they carry is never looked up.
- `message:read:update`, and the `typing_users` list emitted by the `typing` handler, go to every connection, not to one room. The `typing_users` list emitted on `disconnect` goes to the leaver's room.
- `typingUsers` stores the username the connection had at its latest `typing(true)`; every such event overwrites the entry. It does not resolve the current session.
- Private messages are never stored. Their `message` field is passed on without a default.

## Model

| member | source | states |
|---|---|---|
| Seqs.Filter | server/server.js:49-61 | the result holds exactly the elements of the input that satisfy the predicate, in input order (a subsequence), and is no longer than the input; how often each element occurs is stated by Seqs.FilterCount |
| Seqs.FilterCount | server/server.js:51-60 | filtering keeps every copy of a kept element: each element occurs in the result as often as in the input when it satisfies the predicate, and otherwise not at all |
| Seqs.FilterDistinct | server/server.js:78 | filtering a list without duplicates yields a list without duplicates |
| Text.LowerIdempotent | server/server.js:50-54 | lower-casing leaves no ASCII capital letter, so it is idempotent |
| Text.ContainsAt | server/server.js:53-54 | `includes` holds exactly when the query occurs at some position of the string |
| JsObject.Dict.Set | server/server.js:74 | assignment preserves the object invariant, updates that key only, keeps an existing key in place and appends a new one |
| JsObject.Dict.Delete | server/server.js:185-186 | `delete` preserves the invariant, removes that key only, keeps the remaining keys in their order (a subsequence of the old order), and is a no-op for an absent key |
| JsObject.Dict.Values | server/server.js:199 | `Object.values` lists one value per key, in key order, and exactly the object's values |
| JsObject.Empty | server/server.js:34-36 | `{}` has no keys and no values |
| JsObject.SetExistingKeepsOrder | server/server.js:74 | re-assigning an existing key changes only that key's position in `Object.values` |
| JsObject.SetNewAppends | server/server.js:74 | assigning a new key appends its value to `Object.values` |
| JsObject.SetThenDeleteRestores | server/server.js:185 | adding a new key and deleting it gives back the original object |
| MessageStore.BoundedAppend | server/server.js:104-115 | after push-then-shift the log stays within 100 entries, ends with the new message, and drops exactly the oldest entry when the old log was full |
| MessageStore.BoundedAppendIsWindow | server/server.js:107-115 | one send into a log within the bound keeps exactly the newest 100 entries |
| MessageStore.AppendAllIsWindow | server/server.js:104-115 | after any series of sends a log holds exactly the newest 100 messages, in sending order |
| MessageStore.OldestEvicted | server/server.js:110-115 | after 101 sends into an empty log the first message is gone and the other 100 remain in order |
| History.Selected | server/server.js:49-61 | a message passes both filters exactly when it is in the log, matches the search case-insensitively (or there is no search) and is strictly older than `before` (or there is none); each kept message occurs as often as in the log; order is preserved |
| History.TakeLast | server/server.js:63-64 | the slice is the suffix of the list of length `min(len, limit)`, and it is empty when `limit <= 0` |
| History.Query | server/server.js:42-66 | a missing or empty room is the 400 error; otherwise the result is the last `limit` (default 20) matches of that room's log only, in chronological order |
| History.UnknownRoomIsEmpty | server/server.js:46 | a room that has never stored a message answers with an empty list |
| History.UnfilteredReturnsLog | server/server.js:63-64 | with no filters and a limit at least the log's length, the whole log is returned |
| History.SearchIgnoresCase | server/server.js:50-54 | search texts that differ only in ASCII case give the same answer |
| History.FilteredOut | server/server.js:49-61 | a message that fails the search or the `before` filter is never returned |
| Chat.SenderName | server/server.js:96 | the sender is the session's non-empty username, and otherwise "Anonymous" |
| Chat.StorageRoom | server/server.js:105 | the storage room is the session's non-empty room, and otherwise `'global'` |
| Chat.RoomMembers | server/server.js:77-79 | the `user_list` payload holds exactly the sessions whose room is the given room, in `Object.values` order |
| Chat.RoomMembersDistinct | server/server.js:188-190 | a member list names each connection at most once |
| Chat.RoomMembersAll | server/server.js:78 | when every session is in the room, the member list is `Object.values(users)` |
| Chat.JoinListsJoiner | server/server.js:74-79 | after a join the room list contains the new session and no other session of that connection |
| Chat.LeaverUnlisted | server/server.js:185-190 | after a disconnect the connection is in no member list, and every other member of the room is still listed |
| Chat.ChatServer.constructor | server/server.js:34-38 | the server starts with empty users, typing users, global log and room logs |
| Chat.ChatServer.UserJoin | server/server.js:73-90 | sets or replaces `users[id]`; emits the room's member list, `user_joined` and a join notice to that room; nothing else changes |
| Chat.ChatServer.SendMessage | server/server.js:93-122 | builds the message with the sender, room, text and image defaults; appends it to the global log and to its room's log with bounded eviction; leaves other rooms, `users` and `typingUsers` unchanged; emits one `receive_message` to that room and an ack with the same id when a callback was given |
| Chat.ChatServer.MessageRead | server/server.js:125-127 | relays one read receipt with the reader's id to every connection and changes nothing |
| Chat.ChatServer.Typing | server/server.js:130-142 | without a session nothing changes and nothing is emitted; with one, `typing(true)` sets the connection's entry to its username and `typing(false)` deletes it, other entries are kept, and the typing names go to everyone |
| Chat.ChatServer.PrivateMessageTo | server/server.js:145-157 | builds the private message and emits it to room `to` without the sender and to the sender; nothing is stored |
| Chat.ChatServer.MessageReaction | server/server.js:160-169 | without a session emits nothing; with one, relays the reaction to the sender's room only; changes nothing |
| Chat.ChatServer.Disconnect | server/server.js:172-194 | for a joined connection removes it from `users` and `typingUsers` and emits `user_left`, a leave notice, the new member list and the typing names to its room; otherwise changes nothing and emits nothing |
| Chat.ChatServer.AllUsers | server/server.js:198-200 | `/api/users` lists every session once, in first-join order |
| Scenarios.TwoMembersOneMessage | server/server.js:73-122 | when A and B join "general" and A sends "hi", the room receives one message from A with body "hi", A is acknowledged with that id, and B's join listed A then B |
| Scenarios.TypingThenDisconnect | server/server.js:172-194 | when a typing member disconnects, the room gets a member list without it and an empty typing list |
| Scenarios.AnonymousActions | server/server.js:93-142 | a connection that never joined sends as "Anonymous" with an empty body and an empty image turned into `null`, the message is stored as the only entry of `'global'`, and its typing and reactions do nothing |
| Scenarios.PrivateToUnknown | server/server.js:145-157 | a private message to the unknown id "nobody" goes only to that id's group without the sender, and back to the sender; it reaches neither room "general" nor "general" without the sender |
| Scenarios.RetentionThroughQuery | server/server.js:104-115 | after 101 sends into a room, a query with a large limit returns all messages but the first, in order |

## Left out

- Express, CORS, dotenv, static files, the `/` route, `server.listen` and `console.log` are framework plumbing and are not modelled.
- The socket.io transport is not modelled: delivery, `socket.join` and room membership on the transport side. A `Target` names a room, not the set of sockets in it. On the transport, a socket that joins a second room stays in the first room's group until it closes; the model does not track that.
- `Date.now()` and `new Date().toISOString()` are clock reads and become parameters. Message ids are therefore not claimed unique, because the code does not make them so.
- `pendingAcks` is declared and never used, so it is not modelled.
- The string-to-number coercion of the `limit` query parameter is not modelled. A present `limit` is an integer; a non-numeric one, which JavaScript turns into `NaN` and so returns the whole list, is not covered.
- History.Query: a present `before` is assumed to be a string in the exact `toISOString()` format, and is modelled as the instant it encodes. The code compares `m.timestamp < before` as strings, character by character. A `before` in any other format behaves differently there, and the integer model does not capture it. For example, `before=2025-10-14T11:21:00Z` without milliseconds lets `…11:21:00.500Z` through, because `.` sorts before `Z`. An epoch-millisecond `before` such as `1700000000000` filters out every message.
- A `before` or `search` value that is an array (a repeated query parameter) is not covered.
- Text.Lower: maps only the ASCII letters, because full Unicode case mapping of `toLowerCase` is out of scope.
- JavaScript orders integer-like keys (such as `"42"`) before all other keys. The model assumes socket ids and room names are never integer-like, and it ignores special keys such as `__proto__`.
- A handler called without a payload object throws in JavaScript: `user_join`, `send_message`, `message:read`, `private_message` and `message:reaction` all read fields of their payload. That case is not modelled. Payload fields whose type differs from the one the model gives them are not modelled either.
- Stored reactions and `readBy` sets do not exist in the code (it only relays them), so the model has none.
- Multiple server processes and concurrency are not modelled: each event is handled to completion, one at a time.
