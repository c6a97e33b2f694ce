# LAN chat server: room and message-routing state machine

This project models the core of a LAN messenger server written for
Node.js with socket.io. The model covers the in-memory stores and the
socket event handlers that update them. It does not cover the HTTP
hosting, the file upload or the browser client.

The server keeps five pieces of state. The Dafny `ChatState.State` record
holds them as maps:

- `bySocket`: socket id to `{username, avatar}`.
- `byName`: username to socket id.
- `channels`: channel name to stored password. `None` stands for `null`.
  The store starts with the open channel `General`.
- `messages`: room key to message history. Histories are unbounded. Every
  event only appends to them, except `createChannel`, which resets the
  history of the name it creates.
- `rooms`: each live socket's set of joined rooms. socket.io keeps this set
  implicitly. Its domain is the set of live connections.

Each handler is one pure function in `Handlers`. It returns a `Step`: the
new state plus the emits it makes, in order. Each emit names the set of
sockets it reaches, worked out when the emit happens:

- `socket.emit` reaches the socket itself.
- `io.emit` reaches every live socket.
- `io.to(room)` reaches the sockets joined to `room` at that moment.

`Server.Apply` sends each tagged inbound event to its handler. `Server.Run`
folds `Apply` over a sequence of events. The trace lemmas in `Server`
prove invariants about every run from start-up.

The private-room key lives in `PrivateRoom`. It puts the two usernames in
lexicographic order and joins them with `___PRIVATE___`.

Behaviour of `server.js` that a reader might not expect:

- History is not bounded.
- There are no read receipts and no per-channel member counts.
- `disconnect` posts no notice and does not touch channels or histories.
- A socket that re-joins under a name that is still bound is rejected.
  This holds even when the name is its own.
- History is replayed as one `receiveMessage` per message, never as
  `loadMessages`.
- A live private message is broadcast to both sides with `room` set to the
  recipient's username. So the recipient sees its own name there, not the
  sender's (`Server.PrivateMessageCarriesRecipientName`).
- Usernames are never validated. Private-room keys can collide even
  between names that do not contain the separator
  (`PrivateRoom.SeparatorFreeNamesCollide`). Keys are collision-free when
  the names contain no underscore
  (`PrivateRoom.KeyInjectiveWithoutUnderscore`).
- `createChannel` resets the history of its name to an empty list. A
  channel created under a room name that already holds messages therefore
  loses them (`Server.CreateChannelDiscardsHistory`). Histories are
  append-only for every other event, and for a `createChannel` that is
  refused or targets a name without history (`Server.ApplyAppendOnly`).
- A socket that registers a second name keeps its first name bound. After
  it disconnects, that name points at a dead socket for good
  (`Server.RejoinLeavesStaleName`). So the name index and the socket
  registry stay exact inverses when no registered socket successfully joins
  under a second name (`Server.RunKeepsNamesCurrent`). One direction holds on every run: each
  registered user's name points back at its socket (`Server.RunPreservesValid`).

The model assumes what the transport guarantees. Socket ids are non-empty,
and a connection never reuses the id of a socket that is currently live. Events arrive only from live sockets. When a socket disconnects,
socket.io drops it from all its rooms before the handler runs.

## Model

| member | source | states |
|---|---|---|
| `PrivateRoom.SortPair` | server.js:41 | The pair comes back in ascending order and is the input pair, possibly swapped. |
| `PrivateRoom.Key` | server.js:40-42 | The key is the name that sorts first, the separator, then the other name, so its length is the two names' lengths plus the separator's. |
| `PrivateRoom.KeySymmetric` | server.js:40-42 | Both argument orders give the same private-room key. |
| `PrivateRoom.LessEqAntisymmetric` | server.js:41 | Two strings that each sort no later than the other are equal, so sorting a pair is unambiguous. |
| `PrivateRoom.KeyInjectiveWithoutUnderscore` | server.js:40-42 | When no username contains an underscore, equal keys come from the same two usernames. |
| `PrivateRoom.SeparatorFreeNamesCollide` | server.js:40-42 | The pairs ("A","PRIVATE___b") and ("A___PRIVATE","b") get the same key, although no name contains the separator. |
| `ChatState.Init` | server.js:34-37 | At start-up there are no users or histories, and `General` is the only channel, with no password. |
| `ChatState.Append` | server.js:194-195 | The message lands last in its room's history, creating the history if needed. The earlier messages and every other room are unchanged. |
| `ChatState.Members` | server.js:198 | An emit to a room reaches exactly the live sockets joined to it, and never a socket that is not live. |
| `ChatState.LeaveAllRooms` | server.js:45-52 | The socket keeps only rooms it already held. Of those it keeps its own id room and the excepted room, and drops every other. |
| `ChatState.NormalizePassword` | server.js:250 | A falsy password is stored as no password. A non-empty one is stored as given. |
| `ChatState.TypeOrText` | server.js:186 | A missing or empty message type becomes "text". Any other type is kept. |
| `ChatState.Replay` | server.js:306-309 | Replaying a history emits to the one requesting socket, one `receiveMessage` per message, and the messages carried are exactly the history in order. |
| `ChatState.IndexedNamesAreUnique` | server.js:98-108 | If every registered name points back at its socket, no two sockets share a username. |
| `Handlers.Connect` | server.js:90-91 | A new socket is live and belongs to exactly its own id room. Nothing else changes and nothing is emitted. |
| `Handlers.Join` | server.js:94-131 | A bound name is rejected with `joinFail` and leaves the state unchanged. Otherwise: exactly the two registry entries are written, the socket ends in exactly its own room and General, one welcome notice is appended at the end of General, and the welcome reaches every General member, the joiner included. |
| `Handlers.SendMessage` | server.js:134-164 | Unregistered senders are ignored. A private send to an unbound name changes nothing and only notifies the sender. No send changes the registry, the name index, the channels or the set of live sockets. |
| `Handlers.SendPrivate` | server.js:149-198 | A private send to a bound name appends one message under the pair's key, with `room` set to the recipient's name. It adds that key to the sender and to the live recipient, removes no membership, and broadcasts the message to the key's members afterwards. |
| `Handlers.SendToRoom` | server.js:184-198 | Any other send appends to the named room without checking that the channel exists or that the sender is a member, touches no other history or membership, and reaches the room's current members. |
| `Handlers.Outgoing` | server.js:179-189 | A sent message is a chat message carrying the sender's user record, the send time, the payload's room, privacy flag and content, and the payload's type or "text" when the type is missing or empty. |
| `Handlers.PasswordRefused` | server.js:214-217 | A channel without a password never refuses. A supplied password equal to the stored one is accepted. Any other supplied value, missing included, is refused when a password is set. |
| `Handlers.JoinChannel` | server.js:203-235 | A missing channel or a refused password changes nothing and sends `joinFail`. On success only the socket's room set changes, to its own room plus the channel. The whole history is replayed to it in order, then a confirmation. |
| `Handlers.CreateChannel` | server.js:238-268 | An existing name, General included, is refused without change. Otherwise the channel is stored with its password when non-empty, otherwise with none, and an empty history. The new name list goes to every socket, and the creator ends in exactly its own room and the channel. |
| `Handlers.AsSeenWith` | server.js:306-309 | Each replayed copy has `room` set to the other participant's name, keeps the kind, content and timestamp of the stored message, and for a chat message keeps its sender, type and privacy flag. A copy equals the stored message exactly when the stored `room` already names the other participant. |
| `Handlers.JoinPrivate` | server.js:271-313 | An offline name changes nothing and only notifies the requester. Otherwise the requester ends in exactly its own room and the pair's key. The other live socket gains the key and keeps its rooms. Stored histories are unchanged, and the replay carries copies renamed to the other user. |
| `Handlers.Disconnect` | server.js:348-356 | The socket stops being live. If it was registered, exactly its socket entry and its current name are deleted and the user list is republished. Channels and histories are untouched. |
| `Server.Apply` | server.js:90-356 | An event from a socket that is not live changes nothing. A connection adds exactly its id to the live sockets, a disconnect removes exactly its id, and every other event leaves the live set unchanged. No event adds, removes or changes the registration of any socket but its own. |
| `Server.ApplyPreservesValid` | server.js:98-108 | Every event keeps four facts: each live socket stays in its own room, only live sockets are registered, each registered name points back at its socket, and General stays open. |
| `Server.JoinPreservesValid` | server.js:94-131 | A `join`, accepted or refused, keeps the four invariants. |
| `Server.SendPreservesValid` | server.js:134-200 | A `sendMessage` keeps the four invariants. |
| `Server.JoinChannelPreservesValid` | server.js:203-235 | A `joinChannel` keeps the four invariants. |
| `Server.CreatePreservesValid` | server.js:238-268 | A `createChannel` keeps the four invariants. |
| `Server.JoinPrivatePreservesValid` | server.js:271-313 | A `joinPrivate` keeps the four invariants. |
| `Server.DisconnectPreservesValid` | server.js:348-356 | A `disconnect` keeps the four invariants. |
| `Server.RunPreservesValid` | server.js:94-356 | Those invariants hold after any sequence of events. |
| `Server.RunFromInitKeepsNamesUnique` | server.js:98-101 | From start-up, no two live users ever share a username. |
| `Server.ApplyKeepsChannels` | server.js:245-250 | No event removes a channel or changes a stored password. |
| `Server.RunKeepsChannels` | server.js:245-250 | No sequence of events removes a channel or changes a stored password. |
| `Server.ApplyAppendOnly` | server.js:194-251 | Every event leaves each earlier history as a prefix of the new one, unless it is a `createChannel` from a registered socket, for a name not yet a channel, over a room that already holds messages. |
| `Server.JoinAppends` | server.js:128-129 | A `join` only appends to histories. |
| `Server.SendAppends` | server.js:194-195 | A `sendMessage` only appends to histories. |
| `Server.RunAppendOnly` | server.js:245-251 | Over any run in which no successful channel creation targets a room that holds messages, every history only grows at its end. |
| `Server.UnregisteredSocketChangesNothing` | server.js:135-139 | On an unregistered socket, every handler but `join` changes nothing. A disconnect only drops the socket itself. |
| `Server.PrivateSendReachesBoth` | server.js:166-181 | When the maps are inverses, both sides of a private send are members of the pair's key afterwards and both receive the message. |
| `Server.GeneralAlwaysJoinable` | server.js:209-217 | Any registered socket joins General whatever password it supplies. |
| `Server.GeneralCannotBeRecreated` | server.js:245-248 | A request to create General changes nothing. |
| `Server.JoinKeepsNamesCurrent` | server.js:98-108 | A join keeps the two maps inverse, unless a registered socket asks for a name that is free and so gets a second name. |
| `Server.DisconnectKeepsNamesCurrent` | server.js:348-356 | A disconnect keeps the two maps inverse. |
| `Server.ApplyKeepsNamesCurrent` | server.js:94-131 | Every event keeps the two maps inverse, provided a join from a registered socket asks for a taken name. |
| `Server.RunKeepsNamesCurrent` | server.js:98-108 | When no registered socket successfully joins under a second name, the name index and the socket registry stay exact inverses over the whole run. |
| `Server.FreshJoin` | server.js:103-108 | A fresh socket registering an unused name keeps both invariants and binds exactly that name to that socket. |
| `Server.RejoinLeavesStaleName` | server.js:104-108 | A socket joins as "a", then as "b", then disconnects. Afterwards "a" still points at the dead socket and the maps are no longer inverses. |
| `Server.CreateChannelDiscardsHistory` | server.js:251 | A message sent to the non-channel room "dev" is stored. Creating channel "dev" afterwards leaves that room with an empty history. |
| `Server.PrivateMessageCarriesRecipientName` | server.js:184-198 | A private message reaches both sockets with `room` set to the recipient's username, which is never the sender's own username. |

## Left out

- HTTPS/HTTP bootstrap, certificate loading, socket.io options, `listen` and the interface listing (server.js:54-87, 396-429): hosting and I/O.
- `console.log` output throughout: it changes no state.
- The `/upload` endpoint and static file serving (server.js:20-29, 359-393): filesystem I/O and random file names. The model treats the result as an opaque URL string in message content.
- The WebRTC relay handlers `callUser`, `answerCall`, `rejectCall` and `endCall` (server.js:316-345): they pass data to another socket and keep no state.
- The process-level exception handlers (server.js:432-438).
- Timestamps: `toLocaleTimeString()` becomes an opaque `Timestamp` parameter.
- ChatState.AvatarUrl: the username is inserted without `encodeURIComponent` percent-encoding, because the encoding is display formatting and no property depends on it.
- `channelList` carries the set of channel names. The insertion order of `Object.keys` is not modelled, because no handler depends on it.
- PrivateRoom.LessEq compares strings by Unicode code point. JavaScript's default sort compares UTF-16 code units, and the two orders differ only for characters above U+FFFF against U+E000-U+FFFF. Symmetry does not depend on which order is used.
- Plain JavaScript objects serve as the stores. Their prototype quirks, such as a username of `__proto__`, are not modelled: the stores are Dafny maps.
- Payload values of the wrong JavaScript type, such as a numeric password or a non-string username, are not modelled. `isPrivate` is a boolean, and system notices have no `sender` or `isPrivate` field.
- The client script `public/script.js`: DOM rendering, display filters, media capture and local storage. Its `updateAvatar` emit has no server handler, so there is nothing to model.
