/** The wire protocol of the `/ws` endpoint and the external collaborators
    the gateway consults. JSON values are modelled by the fields the gateway
    reads; a missing or falsy string field is the empty string. */
module Protocol {

  type ConnId = nat
  type UserId = string
  type RoomId = string
  type Token = string

  datatype Option<T> = None | Some(value: T)

  /** The row `SELECT id, name, role FROM users` yields; the role is never read. */
  datatype User = User(id: UserId, name: string)

  /** A frame after `JSON.parse`, classified by its `type` field.
      `Malformed` is a frame `JSON.parse` rejects, or one that parses to a
      value whose `type` cannot be read (`null`). */
  datatype Frame =
    | Auth(token: Token)
    | JoinRoom(roomId: RoomId)
    | SendMessage(roomId: RoomId, content: string)
    | Typing(roomId: RoomId, isTyping: bool)
    | TaskUpdate(projectId: RoomId, task: string)
    | Unknown(kind: string)
    | Malformed

  /** The columns of a stored `messages` row that the database chooses. */
  datatype RowMeta = RowMeta(id: string, createdAt: int)

  /** A row of the `messages` table as `INSERT ... RETURNING *` returns it. */
  datatype ChatRow = ChatRow(id: string, roomId: RoomId, senderId: UserId, content: string, createdAt: int)

  /** The stored row enriched with `sender_name`, as carried by `new_message`. */
  datatype ChatMessage = ChatMessage(row: ChatRow, senderName: string)

  /** Everything the gateway sends. `room` of `UserJoined` and `TypingRelay`
      is `None` where a copy of the gateway leaves `room_id` out. */
  datatype Out =
    | AuthSuccess(id: UserId, name: string)
    | Error(text: string)
    | JoinedRoom(roomId: RoomId)
    | UserJoined(userId: UserId, name: string, room: Option<RoomId>)
    | UserLeft(userId: UserId, name: string)
    | NewMessage(chat: ChatMessage)
    | TypingRelay(userId: UserId, name: string, isTyping: bool, room: Option<RoomId>)
    | TaskUpdated(task: string, updatedBy: UserId)

  /** One `ws.send` of a payload to one connection. */
  datatype Delivery = Delivery(conn: ConnId, msg: Out)

  /** The answers of the collaborators for one frame.
      - `verify`: tokens `jwt.verify` accepts, with the `id` they carry;
        a token outside the map makes `jwt.verify` throw.
      - `active`: active users and their names (`is_active = true`).
      - `members`: the durable `chat_room_members` rows.
      - `lookupFails`: the SELECT queries throw.
      - `insert`: the columns `INSERT ... RETURNING *` fills in, or `None`
        when the insert throws. */
  datatype Env = Env(
    verify: map<Token, UserId>,
    active: map<UserId, string>,
    members: set<(RoomId, UserId)>,
    lookupFails: bool,
    insert: Option<RowMeta>)

  /** The points where the two copies of the gateway differ. */
  datatype Variant = Variant(
    checksMembership: bool,   // join_room consults chat_room_members
    requiresContent: bool,    // message with empty content or room is dropped
    failureText: string,      // what the outer catch sends
    tagsRoom: bool)           // user_joined and typing carry room_id

  /** `setupWebSocket` in files/index.js. */
  const Full := Variant(true, true, "Invalid message format", true)

  /** The inlined gateway in files/server.js that the server runs. */
  const Inlined := Variant(false, false, "Invalid message", false)

  const NotAuthenticated := "Not authenticated"
  const InvalidToken := "Invalid token"
  const InvalidUser := "Invalid user"
  const NotAMember := "Not a member of this room"
}
