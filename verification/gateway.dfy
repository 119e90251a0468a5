/** The per-socket handlers of the `/ws` endpoint: `ws.on('message')` as
    `Step` and `ws.on('close')` as `Close`. Each frame is handled as one
    atomic step from a state to a new state, the payloads sent (in order)
    and the chat rows written to the message store. */
module Gateway {
  import opened JsSet
  import opened Protocol
  import opened Registry

  datatype StepResult = StepResult(st: State, out: seq<Delivery>, writes: seq<ChatRow>)

  /** A lone `ws.send` back to the socket that sent the frame. */
  function Reply(st: State, c: ConnId, p: Out): StepResult {
    StepResult(st, [Delivery(c, p)], [])
  }

  /** The `auth` branch: `jwt.verify`, the active-user lookup, then
      registration of the socket under the resolved identity. */
  function Authenticate(st: State, c: ConnId, token: Token, env: Env): (r: StepResult)
    requires c in st.conns
    ensures r.writes == []
    // a token jwt.verify rejects, or a failing lookup
    ensures (token !in env.verify || env.lookupFails) ==> r == Reply(st, c, Error(InvalidToken))
    // no active user behind a valid token
    ensures token in env.verify && !env.lookupFails && env.verify[token] !in env.active ==>
      r == Reply(st, c, Error(InvalidUser))
    ensures token in env.verify && !env.lookupFails && env.verify[token] in env.active ==>
      var id := env.verify[token];
      && r.out == [Delivery(c, AuthSuccess(id, env.active[id]))]
      && r.st.conns == st.conns[c := st.conns[c].(user := Some(User(id, env.active[id])))]
      && r.st.rooms == st.rooms
      && r.st.clients.Keys == st.clients.Keys + {id}
      && (forall x | x in r.st.clients[id] :: x == c || x in Sessions(st, id))
      && c in r.st.clients[id]
      && |Sessions(st, id)| <= |r.st.clients[id]|
      && Sessions(st, id) == r.st.clients[id][..|Sessions(st, id)|]
      && (forall u | u in st.clients && u != id :: r.st.clients[u] == st.clients[u])
  {
    if token !in env.verify || env.lookupFails then Reply(st, c, Error(InvalidToken))
    else
      var id := env.verify[token];
      if id !in env.active then Reply(st, c, Error(InvalidUser))
      else
        var u := User(id, env.active[id]);
        var st' := st.(
          conns := st.conns[c := st.conns[c].(user := Some(u))],
          clients := st.clients[id := Add(Sessions(st, id), c)]);
        StepResult(st', [Delivery(c, AuthSuccess(u.id, u.name))], [])
  }

  /** The `join_room` branch, for an authenticated socket bound to `u`. */
  function Join(v: Variant, st: State, c: ConnId, u: User, room: RoomId, env: Env): (r: StepResult)
    requires c in st.conns
    ensures r.writes == []
    ensures v.checksMembership && env.lookupFails ==> r == Reply(st, c, Error(v.failureText))
    ensures v.checksMembership && !env.lookupFails && (room, u.id) !in env.members ==>
      r == Reply(st, c, Error(NotAMember))
    ensures !v.checksMembership || (!env.lookupFails && (room, u.id) in env.members) ==>
      && r.st.clients == st.clients
      && r.st.conns == st.conns[c := st.conns[c].(currentRoom := room)]
      && r.st.rooms.Keys == st.rooms.Keys + {room}
      && (forall x | x in r.st.rooms[room] :: x == u.id || x in Present(st, room))
      && u.id in r.st.rooms[room]
      && |Present(st, room)| <= |r.st.rooms[room]|
      && Present(st, room) == r.st.rooms[room][..|Present(st, room)|]
      && (forall q | q in st.rooms && q != room :: r.st.rooms[q] == st.rooms[q])
      && |r.out| >= 1 && r.out[0] == Delivery(c, JoinedRoom(room))
      && r.out[1..] == Broadcast(r.st, room, UserJoined(u.id, u.name, if v.tagsRoom then Some(room) else None), u.id)
  {
    if v.checksMembership && env.lookupFails then Reply(st, c, Error(v.failureText))
    else if v.checksMembership && (room, u.id) !in env.members then Reply(st, c, Error(NotAMember))
    else
      var st' := st.(
        rooms := st.rooms[room := Add(Present(st, room), u.id)],
        conns := st.conns[c := st.conns[c].(currentRoom := room)]);
      var notice := UserJoined(u.id, u.name, if v.tagsRoom then Some(room) else None);
      StepResult(st', [Delivery(c, JoinedRoom(room))] + Broadcast(st', room, notice, u.id), [])
  }

  /** The `message` branch: persist first, then echo and fan out. */
  function Submit(v: Variant, st: State, c: ConnId, u: User, room: RoomId, content: string, env: Env): (r: StepResult)
    ensures r.st == st
    ensures v.requiresContent && (content == "" || room == "") ==> r.out == [] && r.writes == []
    ensures !(v.requiresContent && (content == "" || room == "")) ==>
      match env.insert
      case None => r.out == [Delivery(c, Error(v.failureText))] && r.writes == []
      case Some(meta) =>
        var row := ChatRow(meta.id, room, u.id, content, meta.createdAt);
        var p := NewMessage(ChatMessage(row, u.name));
        && r.writes == [row]
        && |r.out| >= 1 && r.out[0] == Delivery(c, p)
        && r.out[1..] == Broadcast(st, room, p, u.id)
  {
    if v.requiresContent && (content == "" || room == "") then StepResult(st, [], [])
    else
      match env.insert
      case None => Reply(st, c, Error(v.failureText))
      case Some(meta) =>
        var row := ChatRow(meta.id, room, u.id, content, meta.createdAt);
        var p := NewMessage(ChatMessage(row, u.name));
        StepResult(st, [Delivery(c, p)] + Broadcast(st, room, p, u.id), [row])
  }

  /** `ws.on('message')`: dispatch on the frame's type, behind the
      authentication guard. */
  function Step(v: Variant, st: State, c: ConnId, f: Frame, env: Env): (r: StepResult)
    requires c in st.conns
    // nothing is written unless a message frame was stored
    ensures r.writes != [] ==> f.SendMessage? && env.insert.Some? && st.conns[c].user.Some?
    // the guard: before a successful auth only auth frames do anything
    ensures st.conns[c].user.None? && !f.Auth? && !f.Malformed? ==>
      r == Reply(st, c, Error(NotAuthenticated))
    ensures f.Malformed? ==> r == Reply(st, c, Error(v.failureText))
    // only `auth` touches the registry
    ensures !f.Auth? ==> r.st.clients == st.clients
    // frame handlers never accept, forget or close a socket
    ensures r.st.conns.Keys == st.conns.Keys
    ensures forall x | x in st.conns :: r.st.conns[x].open == st.conns[x].open
  {
    if f.Malformed? then Reply(st, c, Error(v.failureText))
    else if f.Auth? then Authenticate(st, c, f.token, env)
    else if st.conns[c].user.None? then Reply(st, c, Error(NotAuthenticated))
    else
      var u := st.conns[c].user.value;
      if f.JoinRoom? then Join(v, st, c, u, f.roomId, env)
      else if f.SendMessage? then Submit(v, st, c, u, f.roomId, f.content, env)
      else if f.Typing? then
        var p := TypingRelay(u.id, u.name, f.isTyping, if v.tagsRoom then Some(f.roomId) else None);
        StepResult(st, Broadcast(st, f.roomId, p, u.id), [])
      else if f.TaskUpdate? then
        StepResult(st, Broadcast(st, f.projectId, TaskUpdated(f.task, u.id), u.id), [])
      else StepResult(st, [], [])
  }

  /** `ws.on('close')`: the socket is no longer OPEN; an authenticated
      socket leaves its current binding's session set (the entry goes when
      it empties) and `user_left` goes to its single `currentRoom`. */
  function Close(st: State, c: ConnId): (r: StepResult)
    requires c in st.conns
    ensures r.writes == []
    ensures r.st.rooms == st.rooms
    ensures r.st.conns == st.conns[c := st.conns[c].(open := false)]
    ensures st.conns[c].user.None? ==> r.st.clients == st.clients && r.out == []
    ensures st.conns[c].user.Some? ==>
      var u := st.conns[c].user.value;
      && (forall x | x in Sessions(r.st, u.id) :: x in Sessions(st, u.id) && x != c)
      && (forall x | x in Sessions(st, u.id) && x != c :: x in Sessions(r.st, u.id))
      && (u.id in r.st.clients ==> |r.st.clients[u.id]| > 0)
      && (forall w | w in st.clients && w != u.id :: w in r.st.clients && r.st.clients[w] == st.clients[w])
      && r.st.clients.Keys <= st.clients.Keys
      && r.out == if st.conns[c].currentRoom == "" then []
                  else Broadcast(r.st, st.conns[c].currentRoom, UserLeft(u.id, u.name), u.id)
  {
    var conn := st.conns[c];
    var st0 := st.(conns := st.conns[c := conn.(open := false)]);
    if conn.user.None? then StepResult(st0, [], [])
    else
      var u := conn.user.value;
      var clients :=
        if u.id !in st.clients then st.clients
        else
          var rest := Delete(st.clients[u.id], c);
          if |rest| == 0 then st.clients - {u.id} else st.clients[u.id := rest];
      var st1 := st0.(clients := clients);
      var out := if conn.currentRoom == "" then []
                 else Broadcast(st1, conn.currentRoom, UserLeft(u.id, u.name), u.id);
      StepResult(st1, out, [])
  }
}
