# Shared task list: relay bookkeeping and task stores, modelled in Dafny

This project models the bookkeeping of a small shared-task-list application
in which several browsers edit one list of tasks and keep their copies in
step. Three pieces are modelled:

- **The relay server** (`server.js`). It keeps a registry from room id to
  the set of socket ids in the room. The `join-room`, `leave-room` and
  `disconnect` handlers update that registry and announce the change to the
  room. The other handlers pass envelopes on: the `todo-*` mutation events
  go to a room and the `webrtc-*` negotiation messages go to one socket.
  `rooms.dfy` gives the registry after each handler as a function and proves
  properties of it. `relay.dfy` holds the `Server` class, whose handlers
  update the `rooms` field in place. Each handler returns the emissions it
  would make as (target, event, payload) triples, in order.
- **The server's task store** (`src/server/db.ts`). This is a module-level
  list of tasks with lookup, create, update, delete and toggle by id.
  `todo_db.dfy` models it as the class `Db` over a `seq<Todo>` field. The
  random id and the current time are parameters. Each mutating method is
  tied to a function of the old list, and the lemmas are stated about those
  functions.
- **The client's task store** (`src/store/useTodoStore.ts`). Its reducers
  build a new list: `addTodoFromPeer` dedupes by id, `deleteTodoFromPeer`
  and `deleteTodo` filter, and `toggleTodoFromPeer`, `toggleTodo` and
  `updateTodo` replace by id. `todo_lists.dfy` models these as pure
  functions. `todo_store.dfy` holds the `Store` class with the `todos`,
  `isLoading` and `error` fields. Its request actions take the HTTP outcome
  as a parameter.

`todos.dfy` holds the task record and the `some`/`findIndex` lookups that
both stores use. `wrappers.dfy` holds `Option`.

Where a last-write-wins, tombstoning or one-room-per-socket design might be
expected, the model follows the code:

- There is no last-write-wins timestamp check. A peer's toggled record
  always replaces the local one.
- No deleted ids are kept, so a late `added` brings a deleted task back.
- A disconnect leaves emptied rooms in the registry. Only `leave-room`
  deletes them.
- Nothing stops one socket from being in several rooms.
- `create` never sets `priority`, so the record's `priority` is optional.

Lemmas state each of these facts about the code as written.

## Model

| member | source | states |
|---|---|---|
| Rooms.Join | server.js:37-40 | `join-room` creates the room if it is absent and adds the socket. No other room changes. |
| Rooms.Leave | server.js:98-103 | `leave-room` removes the socket and deletes the room once it is empty. An unknown room leaves the registry unchanged. Other rooms are unchanged. |
| Rooms.Drop | server.js:110-115 | `disconnect` keeps every room key, including emptied ones. |
| Rooms.JoinIdempotent | server.js:40 | Joining the same room twice equals joining it once (set semantics). |
| Rooms.JoinKeepsNoEmptyRoom | server.js:37-40 | A join never creates an empty room. |
| Rooms.TwoRoomsAtOnce | server.js:35-40 | One socket can be in two rooms at once. Nothing enforces a single room. |
| Rooms.LeaveUndoesFirstJoin | server.js:98-103 | No leak: joining a room that did not exist and then leaving it restores the registry exactly. |
| Rooms.LeaveKeepsNoEmptyRoom | server.js:98-103 | A leave never leaves an empty room behind. |
| Rooms.DropRemovesOnlyTheSocket | server.js:110-115 | After a disconnect the socket is in no room. Every other socket is in exactly the rooms it was in. |
| Rooms.DropCanLeaveEmptyRoom | server.js:110-115 | Unlike a leave, a disconnect of a room's only member leaves the room in the map with no members. |
| Rooms.ReplayMembers | server.js:35-116 | For any sequence of joins, leaves and disconnects from an empty registry, a room's members are exactly the sockets whose last relevant call joined it. |
| Rooms.JoinsAndLeavesKeepNoEmptyRoom | server.js:35-106 | Any sequence of joins and leaves alone never leaves an empty room in the registry. |
| Relay.Forward | server.js:52-93 | Each forwarding handler makes one emission to the envelope's room or target socket. It drops the destination field and keeps the content, which the emission reads back as the same envelope. The sender's id is stamped exactly on negotiation messages. Todo events are renamed and negotiation events keep their names. |
| Relay.ForwardInjective | server.js:52-93 | Forwarding loses nothing. Distinct envelopes from one caller give distinct emissions. |
| Relay.OtherMembers | server.js:46 | The `room-peers` list holds every room member except the caller, each exactly once. |
| Relay.Server.constructor | server.js:28 | The registry starts empty. |
| Relay.Server.JoinRoom | server.js:35-49 | The registry becomes `Join`. The room gets `peer-joined` with the caller's id. Then the caller gets `room-peers`, which holds exactly the room's other members. |
| Relay.Server.LeaveRoom | server.js:96-106 | The registry becomes `Leave`. `peer-left` goes to the room even when the room was unknown. |
| Relay.Server.Disconnect | server.js:108-116 | The registry becomes `Drop`. `peer-left` goes exactly to the rooms that contained the socket, once each, and nothing else is emitted. |
| Todos.FindIndex | src/server/db.ts:28 | `findIndex` gives the first index whose id matches. It gives -1 exactly when no record has the id. |
| Todos.FindIndexFollowsIds | src/server/db.ts:28 | Lists with the same ids in the same order find the same index. |
| TodoDb.NewTodo | src/server/db.ts:15-22 | A created record has the given id, title and description. It is not completed, has no priority, and both timestamps are the creation time. |
| TodoDb.ApplyUpdates | src/server/db.ts:31-35 | Each field given in the updates overrides. The id is kept and `updatedAt` becomes now. |
| TodoDb.Flip | src/server/db.ts:51-52 | A toggle negates `completed`, sets `updatedAt`, and changes nothing else. |
| TodoDb.Created | src/server/db.ts:23 | `push` adds the new record at the end and keeps every earlier record in place. |
| TodoDb.Updated | src/server/db.ts:27-37 | An update keeps the list's ids in order. An absent id leaves the list unchanged. |
| TodoDb.Deleted | src/server/db.ts:39-45 | A delete shortens the list by one when the id is present. An absent id leaves the list unchanged. |
| TodoDb.Toggled | src/server/db.ts:47-54 | A toggle keeps the list's ids in order. An absent id leaves the list unchanged. |
| TodoDb.Db.constructor | src/server/db.ts:3 | The store starts with no tasks. |
| TodoDb.Db.GetAll | src/server/db.ts:6-8 | `getAll` returns the whole list. |
| TodoDb.Db.GetById | src/server/db.ts:10-12 | `getById` returns the first record with the id, or none exactly when no record has it. |
| TodoDb.Db.Create | src/server/db.ts:14-25 | `create` appends exactly the new record at the end and returns it. |
| TodoDb.Db.Update | src/server/db.ts:27-37 | `update` leaves the list as `Updated`. It returns none exactly when the id is absent, and otherwise the stored new record. |
| TodoDb.Db.Delete | src/server/db.ts:39-45 | `delete` returns true exactly when the id is present and leaves the list as `Deleted`. |
| TodoDb.Db.Toggle | src/server/db.ts:47-54 | `toggle` leaves the list as `Toggled`. It returns none exactly when the id is absent, and otherwise the stored flipped record. |
| TodoDb.CreatedAppends | src/server/db.ts:14-25 | When the ids were unique before `create`, they stay unique exactly when the fresh id was unused. |
| TodoDb.UpdatedOnlyTouchesMatch | src/server/db.ts:31-36 | On a present id, `update` keeps the length and replaces only the first match, with its id kept and `updatedAt` now. |
| TodoDb.ToggledOnlyTouchesMatch | src/server/db.ts:48-52 | On a present id, `toggle` keeps the length, flips the first match, and leaves every other entry as it was, even when ids repeat. |
| TodoDb.ApplyUpdatesIdempotent | src/server/db.ts:31-35 | Applying the same updates at the same time twice equals applying them once. |
| TodoDb.DeletedRemovesFirstMatch | src/server/db.ts:39-45 | `splice` removes exactly the first match and keeps the other records in order. |
| TodoDb.ToggledTwice | src/server/db.ts:47-54 | Toggling the same id twice restores `completed`. Only the first match's `updatedAt` differs. |
| TodoDb.DeletedIsRemoveId | src/server/db.ts:39-45 | When the ids are unique, the server's `splice` gives the same list as the client's `filter`. |
| TodoDb.ToggledIsReplaceById | src/server/db.ts:47-54 | When the ids are unique, the server's in-place toggle gives the same list as the client's `map` with the returned record. |
| TodoDb.UpdatedIsReplaceById | src/server/db.ts:27-37 | When the ids are unique, the server's `update` gives the same list as the client's `map` with the returned record. |
| TodoLists.AddIfAbsent | src/store/useTodoStore.ts:94-102 | After `addTodoFromPeer` the id is present. The old list is a prefix of the new one, which grows by at most one entry, the incoming record. |
| TodoLists.RemoveId | src/store/useTodoStore.ts:104-108 | After the filter, no entry has the id. |
| TodoLists.ReplaceById | src/store/useTodoStore.ts:110-114 | The `map` keeps the length. Each entry with the id becomes the new record and every other entry stays in place. |
| TodoLists.AddIfAbsentCases | src/store/useTodoStore.ts:97-100 | A known id leaves the list unchanged. A new id appends the record at the end. |
| TodoLists.AddIfAbsentIdempotent | src/store/useTodoStore.ts:97-100 | Adding the same record twice equals adding it once. |
| TodoLists.AddIfAbsentKeepsUnique | src/store/useTodoStore.ts:94-102 | Dedupe by id keeps the ids unique. |
| TodoLists.RemoveIdMembers | src/store/useTodoStore.ts:106 | The filter keeps exactly the entries with another id. |
| TodoLists.RemoveIdAppend | src/store/useTodoStore.ts:106 | Filtering distributes over concatenation, so the remaining entries keep their relative order. |
| TodoLists.RemoveIdAbsent | src/store/useTodoStore.ts:106 | Deleting an absent id leaves the list unchanged. |
| TodoLists.RemoveIdIdempotent | src/store/useTodoStore.ts:104-108 | Deleting the same id twice equals deleting it once. |
| TodoLists.RemoveIdKeepsUnique | src/store/useTodoStore.ts:104-108 | The filter keeps the ids unique. |
| TodoLists.ReplaceByIdAbsent | src/store/useTodoStore.ts:112 | Replacing an absent id leaves the list unchanged. |
| TodoLists.ReplaceByIdIdempotent | src/store/useTodoStore.ts:110-114 | Applying a peer's toggled record twice equals applying it once. |
| TodoLists.ReplaceByIdKeepsIds | src/store/useTodoStore.ts:112 | Replacing by the record's own id keeps every id in place, so unique ids stay unique. |
| TodoLists.DeleteThenAddResurrects | src/store/useTodoStore.ts:94-108 | No deleted ids are kept. An `added` after a `deleted` for the same id puts the record back at the end. |
| TodoLists.DeleteThenReplaceIsDelete | src/store/useTodoStore.ts:104-114 | A `toggled` after a `deleted` for the same id changes nothing. |
| TodoLists.ReplaceIgnoresTimestamps | src/store/useTodoStore.ts:112 | The peer's record replaces the local one whatever its `updatedAt`. There is no timestamp check. |
| TodoLists.RemoveReplaceCommute | src/store/useTodoStore.ts:104-114 | A delete and a replacement commute for every pair of ids, including the same id. |
| TodoStore.Store.constructor | src/store/useTodoStore.ts:22-24 | The store starts with no tasks, not loading, and no error. |
| TodoStore.Store.FetchTodos | src/store/useTodoStore.ts:26-34 | Loading ends either way. Success installs the fetched list with no error. Failure keeps the list and sets the fetch error. |
| TodoStore.Store.AddTodo | src/store/useTodoStore.ts:36-48 | Success appends the server's record with no dedupe and returns it. Failure keeps the list, sets the add error and returns none. |
| TodoStore.Store.ToggleTodo | src/store/useTodoStore.ts:50-62 | Success replaces the entries with the requested id by the server's record. Failure keeps the list and sets the update error. |
| TodoStore.Store.DeleteTodo | src/store/useTodoStore.ts:64-74 | Success filters the id out. Failure keeps the list and sets the delete error. |
| TodoStore.Store.UpdateTodo | src/store/useTodoStore.ts:76-88 | Success replaces the entries with the id by the server's record. Failure keeps the list and sets the update error. |
| TodoStore.Store.SetTodos | src/store/useTodoStore.ts:90-92 | The list becomes exactly the given one. Nothing else changes. |
| TodoStore.Store.AddTodoFromPeer | src/store/useTodoStore.ts:94-102 | The list becomes `AddIfAbsent` of the old list. Loading state and error are unchanged. |
| TodoStore.Store.DeleteTodoFromPeer | src/store/useTodoStore.ts:104-108 | The list becomes `RemoveId` of the old list. Loading state and error are unchanged. |
| TodoStore.Store.ToggleTodoFromPeer | src/store/useTodoStore.ts:110-114 | The list becomes `ReplaceById` of the old list, by the record's own id. Loading state and error are unchanged. |
| TodoStore.DuplicateDeliveryIsHarmless | src/store/useTodoStore.ts:94-114 | Every peer event delivered twice in a row has the effect of delivering it once. |
| TodoStore.PeerEventsKeepUniqueIds | src/store/useTodoStore.ts:94-114 | Every peer event keeps the ids unique. |
| TodoStore.PeerEventLeavesOthers | src/store/useTodoStore.ts:94-114 | An entry whose id a peer event does not name is present afterwards exactly when it was before. |
| TodoStore.StaleAddAfterDelete | src/store/useTodoStore.ts:94-108 | A late copy of an `added` that arrives after the `deleted` for its id brings the task back. |

## Left out

- Relay.OtherMembers: the list covers each other member once, but in no particular order. JavaScript's `Array.from` on a `Set` gives insertion order, and sets do not record it.
- Relay.Server.Disconnect: the `peer-left` notices cover the right rooms once each, but in no particular order. `Map.forEach` visits the rooms in insertion order, and the model does not record it.
- socket.io itself is not modelled: `socket.join` and `socket.leave`, the delivery done by `socket.to(...)`, connection ids, CORS, the HTTP server and the logging. Emissions are returned values. A directed message to a socket that is gone reaches nobody.
- Envelopes with missing fields (`data.roomId` or `data.to` undefined) are not modelled. Every `Envelope` carries its fields.
- Concurrency is not modelled. Node runs one handler at a time, so each handler is one atomic step.
- TodoDb.ApplyUpdates: a field present in `updates` with the value `undefined` is treated as absent, whereas the spread copies it. An `id` slipped into `updates` at run time is not modelled, because the type excludes it.
- TodoDb.NewTodo: both timestamps take one `now`. The source reads the clock twice, and the two readings can differ.
- The random id (`Math.random`) and the clock (`new Date().toISOString()`) in `src/server/db.ts` are parameters. Id formatting and timestamp formatting are not modelled.
- Object identity is not modelled. `getAll` returns the live array and `getById`/`toggle` return the stored object. Later changes would show through those references, but the model returns values.
- The store's HTTP calls (axios) are not modelled. Each request action takes an abstract success or failure. The request body (title, description) is not represented.
- Each store action runs as one step, applied to the state when its request completes. The interval between `set({ error: null })` and the final `set`, in which other actions may run, is not modelled.
- `src/hooks/useWebRTC.ts` (peer sessions, negotiation, direct channels) is not part of this model. It is library plumbing around socket.io-client and simple-peer.
- The HTTP route handlers and their zod validation are not part of this model. `src/app/api/todos/sync/route.ts` calls a `todoDb.addTodo` that `src/server/db.ts` does not define, so it is not part of this model either.
- The views, form components and configuration files are not part of this model.
