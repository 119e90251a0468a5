# Real-time chat gateway — a Dafny model

This project models the WebSocket gateway behind the `/ws` endpoint of the
project-management server. The gateway keeps three pieces of in-memory state:

- the **connection registry** `clients`, mapping a user id to a set of sockets;
- the **room presence tracker** `rooms`, mapping a room id to a set of user ids;
- per socket, the `user` binding and a single `currentRoom`.

Incoming frames drive a small state machine:

- `auth` binds the socket to an identity;
- every other frame is refused until that happens;
- `join_room` makes the identity present in a room;
- `message` persists a chat row, echoes it to the sender's socket and broadcasts it to the room;
- `typing` and `task_update` are relayed;
- `close` deregisters the socket.

The gateway exists twice in the repository. `files/index.js` is the fuller copy; it checks durable membership and drops empty messages. `files/server.js` holds the inlined copy the server runs. One step function covers both, parameterised by a `Variant`:

- `Protocol.Full` is the `files/index.js` copy;
- `Protocol.Inlined` is the `files/server.js` copy.

The variants differ in four places in the modelled handlers:

- the membership check on `join_room`;
- the empty content/room guard on `message`;
- the text the outer `catch` sends (`Invalid message format` or `Invalid message`);
- whether `user_joined` and `typing` carry `room_id`.

Modules, leaf first:

- `JsSet` (`jsset.dfy`): JavaScript `Set` semantics. A set is an insertion-ordered, duplicate-free sequence, so broadcast order is deterministic. "Exactly once" becomes a statement about multiset counts.
- `Protocol` (`protocol.dfy`): frames, outgoing payloads, chat rows, the collaborators' answers (`Env`) and the two variants.
- `Registry` (`registry.dfy`): the gateway state and `broadcast`, with its delivery-count lemmas.
- `Gateway` (`gateway.dfy`): the `message` handler (`Step` and its branches) and the `close` handler (`Close`).
- `Traces` (`traces.dfy`): the transport's events, runs of events, and the registry invariant every step keeps.
- `Properties` (`properties.dfy`): bindings, presence, echo, relay and re-authentication properties.
- `RestChecks` (`rest_checks.dfy`): the role whitelist and the de-duplicated member list of a new room.

External effects are parameters. Each frame comes with an `Env`:

- `verify`: tokens that `jwt.verify` accepts, with their id. A token outside the map makes `jwt.verify` throw.
- `active`: the active users and their names.
- `members`: the durable `chat_room_members` rows.
- `lookupFails`: whether the SELECT queries throw.
- `insert`: the outcome of the INSERT. This is the columns the database fills in, or a failure.

A socket's `readyState` is the `open` flag of its record. Each frame is handled as one atomic step. A step returns:

- the new state;
- the payloads sent, in order, as (socket, payload) pairs;
- the chat rows written.

A JSON field that is missing or falsy is modelled as the empty string. So `if (ws.currentRoom)` reads as `currentRoom != ""`.

A few behaviours of the code are worth stating plainly, because a reader
might expect otherwise:

- Closing a socket does not remove its identity from any room's presence. Only `user_left` is sent, and presence only grows (`Properties.RunKeepsPresence`).
- An empty message gets no validation error. `files/index.js` drops it silently. `files/server.js` stores it and echoes it like any other message (`Properties.InlinedAlwaysPersists`).
- An unparsable frame gets `Invalid message format` from `files/index.js` and `Invalid message` from `files/server.js`.
- `files/server.js` never checks durable membership before a join (`Properties.InlinedJoinUnchecked`).
- Frames are not serialised per socket: each handler awaits its queries, and other frames may run in between. The model treats each frame as one atomic step.
- The close handler run twice would send `user_left` twice. A disconnect is idempotent only because `ws` emits `close` once per socket and nothing after it (`Traces.Deliver`, `Properties.DisconnectIdempotent`).

Re-authentication on a socket that is already bound leaves the socket in the previous identity's session set (`Properties.ReauthKeepsOldSession`). A later broadcast can then reach that socket twice (`Properties.ReauthDoubleDelivery`). The "exactly once" and "excluded by identity" guarantees are therefore proved for states in which no socket is registered under two identities (`Registry.DisjointSessions`). `Properties.ReachableBroadcastExactlyOnce` shows this holds in every run from the empty gateway that contains no such re-authentication. In those runs, with every frame handled atomically, the registry is also exact: an identity is registered precisely while it has an OPEN socket, and no entry holds a closed socket (`Properties.ReachableRegistryLive`). The code itself does not guarantee this, because its handlers await queries (see `## Left out`). A re-authenticated socket breaks this: after its `close`, the previous identity's entry still holds it.

## Model

| member | source | states |
|---|---|---|
| `Registry.Broadcast` | files/index.js:19-32 | An unknown room gets nothing. Every delivery is the given payload to an OPEN socket registered under a present identity other than the excluded one. Every such socket gets it. |
| `Registry.BroadcastCount` | files/server.js:635-644 | The copy in server.js, counted: a socket gets one copy per present, non-excluded identity that has it registered, and none if it is not OPEN. |
| `Registry.BroadcastExactlyOnce` | files/index.js:23-29 | With no socket under two identities, each OPEN socket of each present, non-excluded identity gets the payload exactly once. |
| `Registry.BroadcastSkipsExcluded` | files/index.js:24 | With no socket under two identities, exclusion is by identity: no socket of the excluded user gets anything, however many sockets that user has. |
| `Registry.SharedSocketDuplicates` | files/index.js:25-29 | A socket registered under two present, non-excluded identities gets the payload at least twice. |
| `JsSet.Add` | files/index.js:74-75 | `Set.add` keeps every element, adds the new one at the end only when it is absent, and keeps the set duplicate-free. |
| `JsSet.Delete` | files/index.js:123-124 | `Set.delete` keeps every other element and no duplicates, and shrinks a set holding the element by exactly one. |
| `Gateway.Authenticate` | files/index.js:45-60 | A rejected token or a failing lookup gives `Invalid token`; no active user gives `Invalid user`; either way state is unchanged. On success the socket is added to `clients[id]`, which is created if absent, no other entry changes, and only `auth_success` with id and name is sent. |
| `Gateway.Join` | files/index.js:66-79 | Without membership: `Not a member of this room` and no state change. A failing query gives the catch's error. Otherwise the identity is added to the room's set with set semantics and `currentRoom` is overwritten. `joined_room` goes to the requester first, then `user_joined` (with `room_id` in this copy) goes to the room excluding the joiner. |
| `Gateway.Submit` | files/index.js:83-98 | Empty content or room gives no output and no write. A failed insert gives only the catch's error to the sender and no write. Otherwise exactly one row is written with the sender's id, and `new_message` with `sender_name` is echoed to the sender first and then broadcast excluding the sender. |
| `Gateway.Step` | files/index.js:40-117 | Before authentication every non-`auth` frame gives only `Not authenticated` and no state change. A malformed frame gives only the catch's error. A row is written only for a stored `message` from an authenticated socket. Only `auth` touches the registry, and no frame opens, forgets or closes a socket. |
| `Gateway.Close` | files/index.js:119-130 | The socket stops being OPEN. Its current binding's set loses it, and the entry is deleted when it empties. Other entries and `rooms` are untouched. `user_left` goes only to the single `currentRoom`, and only when one is set. |
| `Traces.AuthenticatePreservesInv` | files/server.js:652-664 | The registry invariant survives `auth`: entries non-empty, sets duplicate-free, every open bound socket registered under its identity. |
| `Traces.StepPreservesInv` | files/server.js:647-681 | Every frame handler keeps the registry invariant. |
| `Traces.ClosePreservesInv` | files/server.js:682-688 | `close` keeps the invariant; in particular it never leaves an empty `clients` entry. |
| `Traces.RunPreservesInv` | files/index.js:16-17 | Every state a run reaches from a good state keeps the invariant on `clients` and `rooms`. |
| `Traces.Deliver` | files/index.js:37-40 | `ws` dispatch: accepting a socket sends and writes nothing. A frame or close on a socket that is unknown or already closed changes nothing and sends nothing. |
| `Traces.RunAppend` | files/index.js:40-41 | Runs compose. The writes and sends of a run are those of its first part followed by those of its rest, in event order. |
| `Properties.StepKeepsSingleBinding` | files/index.js:53-55 | Unless an `auth` moves a bound socket to another identity, every registered socket stays bound to the identity it is registered under. |
| `Properties.ReachableBroadcastExactlyOnce` | files/server.js:640-643 | In every state reached from the empty gateway without such a rebinding, broadcast reaches each target socket exactly once and never a socket of the excluded identity. |
| `Properties.RunKeepsLive` | files/index.js:121-124 | From a state satisfying the registry invariant, with every socket bound to the identity it is registered under and every registered socket OPEN, a run without a rebinding `auth` keeps every registered socket OPEN, because `close` removes the socket from the only entry that holds it. |
| `Properties.ReachableRegistryLive` | files/index.js:53-55 | In every state reached from the empty gateway without a rebinding `auth`, an identity is in the registry exactly when it has an OPEN socket bound to it, and every registered socket is OPEN. |
| `Properties.ReauthKeepsOldSession` | files/server.js:657-659 | After a re-`auth` as another identity the socket is registered under both identities. The following `close` still leaves it under the previous one. |
| `Properties.ReauthDoubleDelivery` | files/index.js:53-55 | A present socket that re-authenticates and rejoins the room gets, in the state the rejoin leaves, every broadcast there that excludes a third identity at least twice. |
| `Properties.RunKeepsPresence` | files/index.js:74-75 | Presence only grows. No event, including the close of an identity's last socket, removes it from a room. |
| `Properties.PresenceNeedsMembership` | files/index.js:69-75 | In index.js an identity becomes present in a room only through a `join_room` for that room. The frame must arrive on an open socket bound to that identity, and the membership query must succeed and list the identity. |
| `Properties.InlinedJoinUnchecked` | files/server.js:665-671 | In server.js `join_room` ignores the store entirely. It adds the identity to any room, sets `currentRoom`, sends `joined_room`, and sends a `user_joined` without `room_id`. |
| `Properties.EchoOnlyToOrigin` | files/index.js:94-96 | A stored message is written once. The sending socket gets the first send, and no other socket of the sender's identity gets anything. |
| `Properties.StoreFailureNoFanOut` | files/index.js:114-115 | A failed insert means no fan-out. Only the sender gets the catch's error; nothing is written or changed. |
| `Properties.InlinedAlwaysPersists` | files/server.js:672-677 | With no content guard, server.js writes a row exactly when the insert succeeds, even for empty content. |
| `Properties.RelayOnlyBroadcasts` | files/index.js:101-112 | `typing` and `task_update` consult no store and change no state. They only broadcast excluding the actor: `typing` to `room_id`, with `room_id` only in index.js, and `task_updated` to `project_id`. |
| `Properties.UnknownIgnored` | files/index.js:108-113 | An authenticated frame of unknown type sends nothing and changes nothing. |
| `Properties.DisconnectIdempotent` | files/server.js:682-688 | A second disconnect of the same socket does nothing, so there is no second `user_left`. |
| `RestChecks.CheckRoleUpdate` | files/server.js:179 | A role update is accepted exactly for `admin`, `moderator` and `user`, yielding that role. Anything else is a 400 `Invalid role`. |
| `RestChecks.ParseRoleName` | files/migrate.js:19 | Role names and the `user_role` enum round-trip. Only enum names parse. |
| `RestChecks.RoomMembers` | files/server.js:476 | The new room's member list is duplicate-free, starts with the creator, and holds exactly the creator and the listed members. |

## Left out

- JWT verification, bcrypt and the `pg` pool are foreign library calls. They are the `Env` oracles of each frame.
- The database's own effects are not modelled. The model records the rows the gateway asks to write; it does not model the `messages` table or its later reads.
- Async interleaving is left out. The model does not cover frames of different sockets interleaving while one awaits a query, or a socket closing while its frame is in flight. Each frame is one atomic step.
- `readyState` transitions other than `close` (CONNECTING, CLOSING) are left out. A socket is OPEN until its `close` event.
- Room and project ids are strings, and a missing or falsy id is the empty string. JavaScript `Map` keys keep `undefined`, `null`, `""`, `0`, `false`, and `5` versus `"5"` apart. The model merges them into one presence entry. For example, a `join_room` without `room_id` followed by a `typing` with `room_id: ""` reaches nobody in the code, but in the model it reaches the joiner.
- Properties.ReachableRegistryLive: holds only because each frame is handled atomically. In the code, a client can send `auth` and close the socket before the user lookup resolves (`files/index.js:48`, `files/server.js:655`). The close handler then runs while `user` is still null and removes nothing. Afterwards the `auth` handler registers the already closed socket in `clients[id]` (`files/index.js:53-55`), where it stays. No re-authentication is needed for this.
- Properties.PresenceNeedsMembership: holds only because each frame is handled atomically. In the code, the membership query of `join_room` checks the identity bound when the query starts (`files/index.js:69-72`). If an `auth` for another identity completes while the query is pending, the handler adds the new identity to the room (`files/index.js:75`), and that identity was never checked.
- Properties.RunKeepsLive: relies on atomic frames in the same way as `Properties.ReachableRegistryLive`.
- RestChecks.RoomMembers: takes a list of ids. A `member_ids` that is not an array is not modelled. In the code, `null` throws after the `chat_rooms` row is inserted, which gives a 500 (`files/server.js:474-476`), and a string is spread into its characters.
- JSON values are reduced to the fields the gateway reads. `is_typing` is a boolean and `task` is an opaque string. A falsy field is the empty string. `JSON.stringify` is not modelled; payloads are datatypes.
- A chat row carries id, room, sender, content and creation time. `file_url`, `is_edited` and `updated_at` are database defaults the gateway never reads.
- `ws.on('error')` in `files/index.js` only logs and is left out. `files/server.js` registers no `'error'` listener at all.
- The REST and GraphQL handlers in `files/server.js` and `files/schema.js`, migrations, seeds and the React client are not part of this model. Only the role whitelist and the room member list are kept.
- Review averages are left out; they use floating point.
