/** The gateway's shared state — the connection registry (`clients`), the
    room presence tracker (`rooms`) and the per-connection variables — and
    `broadcast`, the only reader of the two registries. */
module Registry {
  import opened JsSet
  import opened Protocol

  /** What one socket's closure holds: whether `readyState` is OPEN, the
      `user` binding, and `ws.currentRoom` ("" until a join sets it). */
  datatype Conn = Conn(open: bool, user: Option<User>, currentRoom: RoomId)

  /** `clients`: userId -> Set<ws>; `rooms`: roomId -> Set<userId>;
      `conns`: every accepted socket. */
  datatype State = State(
    clients: map<UserId, seq<ConnId>>,
    rooms: map<RoomId, seq<UserId>>,
    conns: map<ConnId, Conn>)

  const Empty := State(map[], map[], map[])

  /** The sockets registered for `u` (`clients.get(u)`, empty when absent). */
  function Sessions(st: State, u: UserId): seq<ConnId> {
    if u in st.clients then st.clients[u] else []
  }

  /** The identities present in `r` (`rooms.get(r)`, empty when absent). */
  function Present(st: State, r: RoomId): seq<UserId> {
    if r in st.rooms then st.rooms[r] else []
  }

  predicate IsOpen(st: State, c: ConnId) {
    c in st.conns && st.conns[c].open
  }

  /** Every registry entry is a proper `Set`: no repeated element. */
  predicate SetsWellFormed(st: State) {
    && (forall u | u in st.clients :: NoDup(st.clients[u]))
    && (forall r | r in st.rooms :: NoDup(st.rooms[r]))
  }

  /** No socket is registered under two identities. */
  predicate DisjointSessions(st: State) {
    forall u1, u2, c | u1 in st.clients && u2 in st.clients && c in st.clients[u1] && c in st.clients[u2] ::
      u1 == u2
  }

  /** `userClients.forEach(ws => if OPEN then ws.send(payload))`. */
  function SendOpen(st: State, cs: seq<ConnId>, p: Out): (r: seq<Delivery>)
    ensures forall d | d in r :: d.msg == p && d.conn in cs && IsOpen(st, d.conn)
    ensures forall c | c in cs && IsOpen(st, c) :: Delivery(c, p) in r
  {
    if cs == [] then []
    else
      (if IsOpen(st, cs[0]) then [Delivery(cs[0], p)] else []) + SendOpen(st, cs[1..], p)
  }

  /** `roomMembers.forEach(...)`: every listed identity except `ex`. */
  function FanOut(st: State, us: seq<UserId>, p: Out, ex: UserId): (r: seq<Delivery>)
    ensures forall d | d in r ::
      d.msg == p && IsOpen(st, d.conn) &&
      exists u :: u in us && u != ex && d.conn in Sessions(st, u)
    ensures forall u, c | u in us && u != ex && c in Sessions(st, u) && IsOpen(st, c) ::
      Delivery(c, p) in r
  {
    if us == [] then []
    else
      var head := if us[0] == ex then [] else SendOpen(st, Sessions(st, us[0]), p);
      var rest := FanOut(st, us[1..], p, ex);
      assert forall d | d in head :: d.conn in Sessions(st, us[0]) && us[0] != ex;
      head + rest
  }

  /** `broadcast(roomId, message, excludeUserId)`: an unknown room gets
      nothing; otherwise every OPEN socket of every present identity other
      than `ex` gets the payload, and nothing else gets anything. */
  function Broadcast(st: State, room: RoomId, p: Out, ex: UserId): (r: seq<Delivery>)
    ensures room !in st.rooms ==> r == []
    ensures forall d | d in r ::
      d.msg == p && IsOpen(st, d.conn) &&
      exists u :: u in Present(st, room) && u != ex && d.conn in Sessions(st, u)
    ensures forall u, c | u in Present(st, room) && u != ex && c in Sessions(st, u) && IsOpen(st, c) ::
      Delivery(c, p) in r
  {
    if room !in st.rooms then [] else FanOut(st, st.rooms[room], p, ex)
  }

  /** How many identities of `us`, other than `ex`, have `c` registered. */
  function Holders(st: State, us: seq<UserId>, ex: UserId, c: ConnId): nat {
    if us == [] then 0
    else (if us[0] != ex && c in Sessions(st, us[0]) then 1 else 0) + Holders(st, us[1..], ex, c)
  }

  lemma {:induction false} SendOpenCount(st: State, cs: seq<ConnId>, p: Out, c: ConnId)
    ensures multiset(SendOpen(st, cs, p))[Delivery(c, p)] ==
      if IsOpen(st, c) then multiset(cs)[c] else 0
  {
    if cs != [] {
      assert cs == [cs[0]] + cs[1..];
      SendOpenCount(st, cs[1..], p, c);
    }
  }

  /** A socket receives one copy per present, non-excluded identity that
      has it registered, and none when it is not open. */
  lemma {:induction false} FanOutCount(st: State, us: seq<UserId>, p: Out, ex: UserId, c: ConnId)
    requires SetsWellFormed(st)
    ensures multiset(FanOut(st, us, p, ex))[Delivery(c, p)] ==
      if IsOpen(st, c) then Holders(st, us, ex, c) else 0
  {
    if us != [] {
      FanOutCount(st, us[1..], p, ex, c);
      if us[0] != ex {
        var cs := Sessions(st, us[0]);
        SendOpenCount(st, cs, p, c);
        NoDupCount(cs, c);
      }
    }
  }

  /** With disjoint sessions, a duplicate-free presence list holds a socket
      at most once: exactly once when its owner is listed and not excluded. */
  lemma {:induction false} HoldersOfOwner(st: State, us: seq<UserId>, ex: UserId, owner: UserId, c: ConnId)
    requires NoDup(us)
    requires DisjointSessions(st)
    requires c in Sessions(st, owner)
    ensures Holders(st, us, ex, c) == if owner in us && owner != ex then 1 else 0
  {
    if us != [] {
      assert us == [us[0]] + us[1..];
      NoDupCons(us[0], us[1..]);
      HoldersOfOwner(st, us[1..], ex, owner, c);
    }
  }

  lemma BroadcastCount(st: State, room: RoomId, p: Out, ex: UserId, c: ConnId)
    requires SetsWellFormed(st)
    ensures multiset(Broadcast(st, room, p, ex))[Delivery(c, p)] ==
      if IsOpen(st, c) then Holders(st, Present(st, room), ex, c) else 0
  {
    if room in st.rooms {
      FanOutCount(st, st.rooms[room], p, ex, c);
    }
  }

  /** Exactly-once delivery: when no socket is registered under two
      identities, an open socket of a present, non-excluded identity gets
      the payload exactly once. */
  lemma BroadcastExactlyOnce(st: State, room: RoomId, p: Out, ex: UserId, u: UserId, c: ConnId)
    requires SetsWellFormed(st) && DisjointSessions(st)
    requires u in Present(st, room) && u != ex
    requires c in Sessions(st, u) && IsOpen(st, c)
    ensures multiset(Broadcast(st, room, p, ex))[Delivery(c, p)] == 1
  {
    BroadcastCount(st, room, p, ex, c);
    HoldersOfOwner(st, Present(st, room), ex, u, c);
  }

  /** Exclusion is by identity: no socket registered for `ex` gets
      anything, however many sockets `ex` has. */
  lemma BroadcastSkipsExcluded(st: State, room: RoomId, p: Out, ex: UserId, c: ConnId)
    requires SetsWellFormed(st) && DisjointSessions(st)
    requires c in Sessions(st, ex)
    ensures forall d | d in Broadcast(st, room, p, ex) :: d.conn != c
  {
    BroadcastCount(st, room, p, ex, c);
    HoldersOfOwner(st, Present(st, room), ex, ex, c);
    assert Delivery(c, p) !in Broadcast(st, room, p, ex);
  }

  lemma {:induction false} HoldersOne(st: State, us: seq<UserId>, ex: UserId, u: UserId, c: ConnId)
    requires u in us && u != ex && c in Sessions(st, u)
    ensures Holders(st, us, ex, c) >= 1
  {
    if us[0] != u {
      HoldersOne(st, us[1..], ex, u, c);
    }
  }

  lemma {:induction false} HoldersTwo(st: State, us: seq<UserId>, ex: UserId, u1: UserId, u2: UserId, c: ConnId)
    requires u1 != u2 && u1 in us && u2 in us && u1 != ex && u2 != ex
    requires c in Sessions(st, u1) && c in Sessions(st, u2)
    ensures Holders(st, us, ex, c) >= 2
  {
    if us[0] == u1 {
      HoldersOne(st, us[1..], ex, u2, c);
    } else if us[0] == u2 {
      HoldersOne(st, us[1..], ex, u1, c);
    } else {
      HoldersTwo(st, us[1..], ex, u1, u2, c);
    }
  }

  /** Exclusion and single delivery both rest on disjoint sessions: an open
      socket registered under two present identities, neither excluded, gets
      the payload at least twice. */
  lemma SharedSocketDuplicates(st: State, room: RoomId, p: Out, ex: UserId, u1: UserId, u2: UserId, c: ConnId)
    requires SetsWellFormed(st)
    requires u1 != u2 && u1 in Present(st, room) && u2 in Present(st, room) && u1 != ex && u2 != ex
    requires c in Sessions(st, u1) && c in Sessions(st, u2) && IsOpen(st, c)
    ensures multiset(Broadcast(st, room, p, ex))[Delivery(c, p)] >= 2
  {
    BroadcastCount(st, room, p, ex, c);
    HoldersTwo(st, Present(st, room), ex, u1, u2, c);
  }
}
