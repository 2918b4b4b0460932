# Presence registry and message relay of the climbing-partners chat

This project models the websocket side of the climbing-partners backend: the
in-memory session store that records which socket each logged-in user
announced itself on, and the three socket handlers that use it.

- `sessions.dfy`, module `Sessions`: the store. A `Session` is a pair
  `(uid, socketId)`; the store is an ordered `seq<Session>`. The pure
  functions `Find` (first entry with a user id), `HasUid` (some entry has a
  user id), `Saved` (the list after `saveSession`) and `RemoveSocket` (the
  list after `removeSession`) specify it, and the class `SessionStore` holds
  the list in its `users` field and updates it in place: `SaveSession`
  appends, `RemoveSession` reassigns the field to the filtered list,
  `FindSession` scans it from the front. Its invariant `Valid()` is "at most
  one entry per user id".
- `server.dfy`, module `Server`: the handlers. `add-user` saves the
  announced user on the current socket, `send-message` looks the receiver up
  and forwards `{senderUid, text}` to its socket if it has one (and drops the
  message silently otherwise), `disconnect` removes every session on the
  closing socket. Emitting is modelled as a returned list of `Emission`
  records. `Route` and `Step` specify one handler call on the list and `Run`
  a sequence of events handled in order; the class `Relay` holds the single
  shared store, its handler methods and `Handle` are proved against `Route`
  and `Step`, and `HandleAll` against `Run`.

The store follows first-binding-wins semantics: a second `saveSession` for
a user id that already has an entry is ignored (src/SessionStore.js:36), so
the user stays bound to the first socket. Several entries may share a socket
id, and empty ids are accepted like any other string. `StaleAfterReconnect`
shows one consequence: a user who announces itself on a new socket before
the old one closes is unreachable once the old one closes.

## Model

| member | source | states |
|---|---|---|
| `Sessions.Find` | src/SessionStore.js:25-27 | the result is an entry of the list with the requested user id, and there is no result exactly when no entry has that user id |
| `Sessions.FindIsFirst` | src/SessionStore.js:26 | when the entry at index i is the first with the user id, `Find` returns that entry |
| `Sessions.HasUid` | src/SessionStore.js:36 | some entry has the user id exactly when `Find` returns an entry for it |
| `Sessions.Saved` | src/SessionStore.js:35-38 | the list is unchanged when the user id already has an entry and otherwise gains exactly `(uid, socketId)` at the end; the old list is a prefix of the new one and afterwards the user id is present |
| `Sessions.SavedFind` | src/SessionStore.js:35-38 | after saving, the user id finds its earlier entry if it had one (first binding wins) and otherwise the new `(uid, socketId)`; every other user id finds what it found before |
| `Sessions.SavedKeepsUnique` | src/SessionStore.js:35-38 | saving keeps at most one entry per user id |
| `Sessions.RebindKeepsFirst` | src/SessionStore.js:36 | a second save for an already saved user id leaves the list unchanged and the user stays bound to the first socket |
| `Sessions.RemoveSocket` | src/SessionStore.js:45-47 | an entry survives removal exactly when it was in the list and is on another socket; the list does not grow |
| `Sessions.RemoveSocketAppend` | src/SessionStore.js:46 | removal distributes over concatenation, so the surviving entries keep their relative order |
| `Sessions.RemoveSocketCount` | src/SessionStore.js:46 | every copy of an entry on the removed socket is dropped (possibly several) and every copy of any other entry is kept |
| `Sessions.RemoveSocketUnknown` | src/SessionStore.js:46 | removing a socket id no entry carries leaves the list unchanged |
| `Sessions.RemoveSocketIdempotent` | src/SessionStore.js:46 | removing a socket id twice has the effect of removing it once |
| `Sessions.RemoveSocketKeepsUnique` | src/SessionStore.js:45-47 | removal keeps at most one entry per user id |
| `Sessions.RemoveSocketFind` | src/SessionStore.js:25-27 | in a list with one entry per user id, after removal a user is found exactly when its entry was on another socket, and then it is the same entry |
| `Sessions.SaveThenRemove` | src/SessionStore.js:35-47 | saving a fresh user on a socket and then removing that socket leaves the user not found |
| `Sessions.StaleAfterReconnect` | src/SessionStore.js:35-47 | a fresh user saved on a first socket, then on a second, is not found once the first socket is removed |
| `Sessions.SessionStore.constructor` | src/SessionStore.js:15-17 | a new store has an empty list and satisfies the one-entry-per-user invariant |
| `Sessions.SessionStore.FindSession` | src/SessionStore.js:25-27 | the linear scan returns `Find` of the list: a matching entry, or none exactly when no entry has the user id; it changes nothing |
| `Sessions.SessionStore.SaveSession` | src/SessionStore.js:35-38 | the list is unchanged when the user id is present and otherwise gains `(uid, socketId)` at the end; the invariant is kept |
| `Sessions.SessionStore.RemoveSession` | src/SessionStore.js:45-47 | the list becomes `RemoveSocket` of the old list; the invariant is kept |
| `Server.Route` | src/server.js:49-57 | `send-message` emits at most once; it emits nothing exactly when the receiver has no session; an emission goes to the socket `Find` records for the receiver and carries only the sender id and the text |
| `Server.RouteAfterAddUser` | src/server.js:44-56 | once a fresh user has announced itself on a socket, a message to it is emitted exactly once, to that socket |
| `Server.RouteAfterDisconnect` | src/server.js:44-62 | once the only socket of a user has disconnected, a message to it is dropped |
| `Server.Step` | src/server.js:43-63 | `send-message` leaves the list unchanged, `add-user` and `disconnect` emit nothing, and no event emits more than once |
| `Server.DisconnectUnannounced` | src/server.js:60-62 | a disconnect from a socket that never announced a user leaves the list unchanged and emits nothing |
| `Server.Run` | src/server.js:43-63 | handling a sequence of events in order emits at most once per `send-message` event, and never for `add-user` or `disconnect` |
| `Server.RunSnoc` | src/server.js:43-63 | handling one more event continues from the list the earlier events left and appends that event's emissions |
| `Server.RunKeepsUnique` | src/server.js:43-63 | every sequence of events keeps at most one session per user id |
| `Server.Relay.constructor` | src/server.js:41 | start-up creates one fresh, empty store |
| `Server.Relay.OnAddUser` | src/server.js:44-47 | the store's list becomes `Saved` of the old list with the announced user on the current socket; the invariant is kept |
| `Server.Relay.OnSendMessage` | src/server.js:49-57 | the emissions are `Route` of the store's list (at most one, none exactly when the receiver has no session); with no `modifies` clause the store is unchanged |
| `Server.Relay.OnDisconnect` | src/server.js:60-62 | the store's list becomes `RemoveSocket` of the old list for the closing socket; the invariant is kept |
| `Server.Relay.Handle` | src/server.js:43-63 | dispatching an event changes the list and emits exactly as `Step` says |
| `Server.Relay.HandleAll` | src/server.js:43-63 | handling events one at a time in arrival order leaves the list and the collected emissions exactly as `Run` says; the invariant is kept |

## Left out

- The socket.io and HTTP transport (`createServer`, `io.listen`, `app.listen`, the actual `emit` calls): network I/O. Emission is a returned `Emission` record; the event name `get-message` is implied by the record's type.
- The `console.log(uid)` in the `add-user` handler (src/server.js:45): console output.
- Express set-up, the router and the error-handling middleware (src/server.js:18-32, 66-98): plumbing over an external framework.
- Routers, controllers, Mongoose models, JWT and Firebase authentication: database and network glue over libraries that are not part of this model.
- Concurrency: Node runs the handlers one at a time, so the model is sequential; `Run` is that order of events.
- JavaScript's dynamic typing: user and socket ids are modelled as strings and `===` as string equality; payloads of other types (an `undefined` uid, say) are not modelled.
- Empty user or socket ids are not rejected; the model accepts every string, as the code does.
