/** Properties of the gateway that relate its operations: who can become
    present, who receives what, and what re-authentication leaves behind. */
module Properties {
  import opened Protocol
  import opened Registry
  import opened Gateway
  import opened Traces

  // ---------------------------------------------------------------------
  // Sessions and bindings

  /** Every registered socket is bound to the identity it is registered
      under. */
  predicate SingleBinding(st: State) {
    forall u, x | u in st.clients && x in st.clients[u] ::
      x in st.conns && st.conns[x].user.Some? && st.conns[x].user.value.id == u
  }

  lemma SingleBindingDisjoint(st: State)
    requires SingleBinding(st)
    ensures DisjointSessions(st)
  {
    forall u1, u2, c | u1 in st.clients && u2 in st.clients && c in st.clients[u1] && c in st.clients[u2]
      ensures u1 == u2
    {
      assert st.conns[c].user.value.id == u1;
    }
  }

  /** `f` would move socket `c`, already authenticated, to another identity. */
  predicate Rebinds(st: State, c: ConnId, f: Frame, env: Env) {
    && c in st.conns && st.conns[c].user.Some?
    && f.Auth? && f.token in env.verify && !env.lookupFails
    && env.verify[f.token] in env.active
    && env.verify[f.token] != st.conns[c].user.value.id
  }

  lemma StepKeepsSingleBinding(v: Variant, st: State, c: ConnId, f: Frame, env: Env)
    requires SingleBinding(st) && c in st.conns
    requires !Rebinds(st, c, f, env)
    ensures SingleBinding(Step(v, st, c, f, env).st)
  {
    var r := Step(v, st, c, f, env);
    if f.Auth? && f.token in env.verify && !env.lookupFails && env.verify[f.token] in env.active {
      var id := env.verify[f.token];
      forall u, x | u in r.st.clients && x in r.st.clients[u]
        ensures x in r.st.conns && r.st.conns[x].user.Some? && r.st.conns[x].user.value.id == u
      {
        if u == id && x != c {
          assert x in Sessions(st, id);
        } else if u != id {
          assert x in st.clients[u];
        }
      }
    }
  }

  lemma CloseKeepsSingleBinding(st: State, c: ConnId)
    requires SingleBinding(st) && c in st.conns
    ensures SingleBinding(Close(st, c).st)
  {
    var r := Close(st, c);
    if st.conns[c].user.Some? {
      forall u, x | u in r.st.clients && x in r.st.clients[u]
        ensures x in r.st.conns && r.st.conns[x].user.Some? && r.st.conns[x].user.value.id == u
      {
        assert x in Sessions(r.st, u);
        assert x in Sessions(st, u);
      }
    }
  }

  /** No event of the run, at the moment it is handled, rebinds a socket. */
  predicate NoRebind(v: Variant, st: State, evs: seq<Event>)
    decreases |evs|
  {
    evs == [] ||
    (&& !(evs[0].Receive? && IsOpen(st, evs[0].c) && Rebinds(st, evs[0].c, evs[0].f, evs[0].env))
     && NoRebind(v, Deliver(v, st, evs[0]).st, evs[1..]))
  }

  /** An event that does not rebind a socket keeps every registered socket
      bound to the identity it is registered under. */
  lemma DeliverKeepsSingleBinding(v: Variant, st: State, e: Event)
    requires SingleBinding(st)
    requires !(e.Receive? && IsOpen(st, e.c) && Rebinds(st, e.c, e.f, e.env))
    ensures SingleBinding(Deliver(v, st, e).st)
  {
    match e {
      case Connect(c) =>
      case Receive(c, f, env) =>
        if IsOpen(st, c) {
          StepKeepsSingleBinding(v, st, c, f, env);
        }
      case Disconnect(c) =>
        if IsOpen(st, c) {
          CloseKeepsSingleBinding(st, c);
        }
    }
  }

  lemma {:induction false} RunKeepsSingleBinding(v: Variant, st: State, evs: seq<Event>)
    requires SingleBinding(st) && NoRebind(v, st, evs)
    ensures SingleBinding(Run(v, st, evs).st)
    decreases |evs|
  {
    if evs != [] {
      DeliverKeepsSingleBinding(v, st, evs[0]);
      RunKeepsSingleBinding(v, Deliver(v, st, evs[0]).st, evs[1..]);
      assert Run(v, st, evs).st == Run(v, Deliver(v, st, evs[0]).st, evs[1..]).st;
    }
  }

  /** In every state reached from the empty gateway without a rebinding
      `auth`, `broadcast` reaches each open socket of each present,
      non-excluded identity exactly once, and never a socket of the excluded
      identity. */
  lemma ReachableBroadcastExactlyOnce(v: Variant, evs: seq<Event>, room: RoomId, p: Out, ex: UserId, c: ConnId)
    requires NoRebind(v, Empty, evs)
    ensures var st := Run(v, Empty, evs).st;
      && (forall u | u in Present(st, room) && u != ex && c in Sessions(st, u) && IsOpen(st, c) ::
            multiset(Broadcast(st, room, p, ex))[Delivery(c, p)] == 1)
      && (c in Sessions(st, ex) ==> forall d | d in Broadcast(st, room, p, ex) :: d.conn != c)
  {
    var st := Run(v, Empty, evs).st;
    EmptyInv();
    RunPreservesInv(v, Empty, evs);
    RunKeepsSingleBinding(v, Empty, evs);
    SingleBindingDisjoint(st);
    forall u | u in Present(st, room) && u != ex && c in Sessions(st, u) && IsOpen(st, c)
      ensures multiset(Broadcast(st, room, p, ex))[Delivery(c, p)] == 1
    {
      BroadcastExactlyOnce(st, room, p, ex, u, c);
    }
    if c in Sessions(st, ex) {
      BroadcastSkipsExcluded(st, room, p, ex, c);
    }
  }

  /** Every registered socket is OPEN. */
  predicate Live(st: State) {
    forall u, x | u in st.clients && x in st.clients[u] :: IsOpen(st, x)
  }

  lemma EmptyLive()
    ensures Live(Empty) && SingleBinding(Empty)
  {
  }

  /** An event that does not rebind a socket keeps the registry live: a
      `close` removes the socket from the only entry that holds it. */
  lemma DeliverKeepsLive(v: Variant, st: State, e: Event)
    requires Inv(st) && SingleBinding(st) && Live(st)
    requires !(e.Receive? && IsOpen(st, e.c) && Rebinds(st, e.c, e.f, e.env))
    ensures Live(Deliver(v, st, e).st)
  {
    var r := Deliver(v, st, e);
    match e {
      case Connect(c) =>
        forall u, x | u in r.st.clients && x in r.st.clients[u] ensures IsOpen(r.st, x) {
          assert u in st.clients && x in st.clients[u];
          assert x in st.conns && IsOpen(st, x);
        }
      case Receive(c, f, env) =>
        if IsOpen(st, c) {
          assert r == Step(v, st, c, f, env);
          forall u, x | u in r.st.clients && x in r.st.clients[u] ensures IsOpen(r.st, x) {
            if x != c {
              if f.Auth? && f.token in env.verify && !env.lookupFails && env.verify[f.token] in env.active
                 && u == env.verify[f.token] {
                assert x in Sessions(st, u);
              } else {
                assert x in st.clients[u];
              }
              assert IsOpen(st, x);
            }
          }
        }
      case Disconnect(c) =>
        if IsOpen(st, c) {
          assert r == Close(st, c);
          forall u, x | u in r.st.clients && x in r.st.clients[u] ensures IsOpen(r.st, x) {
            if st.conns[c].user.Some? && u == st.conns[c].user.value.id {
              assert x in Sessions(r.st, u);
              assert x in Sessions(st, u) && x != c;
            } else {
              assert u in st.clients && x in st.clients[u];
              assert st.conns[x].user.Some? && st.conns[x].user.value.id == u;
              assert x != c;
            }
            assert IsOpen(st, x);
          }
        }
    }
  }

  lemma {:induction false} RunKeepsLive(v: Variant, st: State, evs: seq<Event>)
    requires Inv(st) && SingleBinding(st) && Live(st) && NoRebind(v, st, evs)
    ensures Live(Run(v, st, evs).st)
    decreases |evs|
  {
    if evs != [] {
      var next := Deliver(v, st, evs[0]).st;
      DeliverKeepsLive(v, st, evs[0]);
      DeliverPreservesInv(v, st, evs[0]);
      DeliverKeepsSingleBinding(v, st, evs[0]);
      RunKeepsLive(v, next, evs[1..]);
      assert Run(v, st, evs).st == Run(v, next, evs[1..]).st;
    }
  }

  /** In every state reached from the empty gateway without a rebinding
      `auth`, an identity is in the registry exactly when it has an OPEN
      socket bound to it, and every registered socket is OPEN. */
  lemma ReachableRegistryLive(v: Variant, evs: seq<Event>)
    requires NoRebind(v, Empty, evs)
    ensures var st := Run(v, Empty, evs).st;
      && Live(st)
      && forall u :: u in st.clients <==>
           exists c :: IsOpen(st, c) && st.conns[c].user.Some? && st.conns[c].user.value.id == u
  {
    var st := Run(v, Empty, evs).st;
    EmptyInv();
    EmptyLive();
    RunPreservesInv(v, Empty, evs);
    RunKeepsSingleBinding(v, Empty, evs);
    RunKeepsLive(v, Empty, evs);
    forall u ensures u in st.clients <==>
        exists c :: IsOpen(st, c) && st.conns[c].user.Some? && st.conns[c].user.value.id == u
    {
      if u in st.clients {
        var c := st.clients[u][0];
        assert IsOpen(st, c) && st.conns[c].user.value.id == u;
      }
      if exists c :: IsOpen(st, c) && st.conns[c].user.Some? && st.conns[c].user.value.id == u {
        var c :| IsOpen(st, c) && st.conns[c].user.Some? && st.conns[c].user.value.id == u;
        assert c in Sessions(st, u);
      }
    }
  }

  /** Re-authentication as another identity leaves the socket registered
      under the previous identity as well, and the `close` that follows
      cleans only the current binding. */
  lemma ReauthKeepsOldSession(v: Variant, st: State, c: ConnId, f: Frame, env: Env)
    requires Inv(st) && IsOpen(st, c) && Rebinds(st, c, f, env)
    ensures var prev := st.conns[c].user.value.id;
      var r := Step(v, st, c, f, env);
      && c in Sessions(r.st, prev)
      && c in Sessions(r.st, env.verify[f.token])
      && !DisjointSessions(r.st)
      && c in Sessions(Close(r.st, c).st, prev)
  {
    var prev := st.conns[c].user.value.id;
    var id := env.verify[f.token];
    var r := Step(v, st, c, f, env);
    assert c in Sessions(st, prev);
    assert c in r.st.clients[prev] && c in r.st.clients[id];
    assert r.st.conns[c].user.value.id == id;
  }

  /** Re-authenticating a socket that is present in a room as another
      identity, then joining that room again, leaves the socket registered
      under both identities. In the state the rejoin leaves, every broadcast
      to the room that excludes a third identity reaches it at least twice. */
  lemma ReauthDoubleDelivery(v: Variant, st: State, c: ConnId, token: Token, room: RoomId, env: Env, p: Out, ex: UserId)
    requires Inv(st) && IsOpen(st, c) && Rebinds(st, c, Auth(token), env)
    requires st.conns[c].user.value.id in Present(st, room)
    requires (room, env.verify[token]) in env.members
    requires ex != st.conns[c].user.value.id && ex != env.verify[token]
    ensures var s1 := Step(v, st, c, Auth(token), env).st;
      var s2 := Step(v, s1, c, JoinRoom(room), env).st;
      multiset(Broadcast(s2, room, p, ex))[Delivery(c, p)] >= 2
  {
    var prev := st.conns[c].user.value.id;
    var id := env.verify[token];
    var s1 := Step(v, st, c, Auth(token), env).st;
    ReauthKeepsOldSession(v, st, c, Auth(token), env);
    StepPreservesInv(v, st, c, Auth(token), env);
    assert s1.conns[c].user.value.id == id;
    var s2 := Step(v, s1, c, JoinRoom(room), env).st;
    StepPreservesInv(v, s1, c, JoinRoom(room), env);
    assert s2.clients == s1.clients;
    assert prev in Present(s2, room) by {
      assert prev in Present(s1, room);
      DeliverKeepsPresence(v, s1, Receive(c, JoinRoom(room), env), room, prev);
    }
    SharedSocketDuplicates(s2, room, p, ex, prev, id, c);
  }

  // ---------------------------------------------------------------------
  // Presence

  lemma DeliverKeepsPresence(v: Variant, st: State, e: Event, room: RoomId, u: UserId)
    requires u in Present(st, room)
    ensures u in Present(Deliver(v, st, e).st, room)
  {
    if e.Receive? && IsOpen(st, e.c) && e.f.JoinRoom? && st.conns[e.c].user.Some? && e.f.roomId != room {
      assert Deliver(v, st, e).st.rooms[room] == st.rooms[room];
    }
  }

  /** Presence only grows: no event ever removes an identity from a room,
      not even the close of its last socket. */
  lemma {:induction false} RunKeepsPresence(v: Variant, st: State, evs: seq<Event>, room: RoomId, u: UserId)
    requires u in Present(st, room)
    ensures u in Present(Run(v, st, evs).st, room)
    decreases |evs|
  {
    if evs != [] {
      DeliverKeepsPresence(v, st, evs[0], room, u);
      RunKeepsPresence(v, Deliver(v, st, evs[0]).st, evs[1..], room, u);
      assert Run(v, st, evs).st == Run(v, Deliver(v, st, evs[0]).st, evs[1..]).st;
    }
  }

  /** Event `e` is a `join_room` for `room` that arrives on an open socket
      bound to `u`, with the membership query succeeding and listing `u`. */
  predicate JoinedBy(st: State, e: Event, room: RoomId, u: UserId) {
    && e.Receive? && e.f == JoinRoom(room) && IsOpen(st, e.c)
    && st.conns[e.c].user.Some? && st.conns[e.c].user.value.id == u
    && !e.env.lookupFails && (room, u) in e.env.members
  }

  lemma DeliverJoinAuthorized(st: State, e: Event, room: RoomId, u: UserId)
    requires u in Present(Deliver(Full, st, e).st, room)
    ensures u in Present(st, room) || JoinedBy(st, e, room, u)
  {
    if e.Receive? && IsOpen(st, e.c) && e.f.JoinRoom? && st.conns[e.c].user.Some? && e.f.roomId != room {
      assert Present(Deliver(Full, st, e).st, room) == Present(st, room);
    }
  }

  /** In files/index.js an identity becomes present in a room only through
      a `join_room` for that room, sent on a socket bound to that identity,
      that the durable membership confirmed. */
  lemma {:induction false} PresenceNeedsMembership(st: State, evs: seq<Event>, room: RoomId, u: UserId)
    requires u in Present(Run(Full, st, evs).st, room)
    ensures || u in Present(st, room)
            || exists i :: 0 <= i < |evs| && JoinedBy(Run(Full, st, evs[..i]).st, evs[i], room, u)
    decreases |evs|
  {
    if evs != [] {
      var next := Deliver(Full, st, evs[0]).st;
      assert Run(Full, st, evs).st == Run(Full, next, evs[1..]).st;
      PresenceNeedsMembership(next, evs[1..], room, u);
      if u in Present(next, room) {
        DeliverJoinAuthorized(st, evs[0], room, u);
        if !(u in Present(st, room)) {
          assert evs[..0] == [];
          assert JoinedBy(Run(Full, st, evs[..0]).st, evs[0], room, u);
        }
      } else {
        var i :| 0 <= i < |evs[1..]| && JoinedBy(Run(Full, next, evs[1..][..i]).st, evs[1..][i], room, u);
        assert evs[i + 1] == evs[1..][i];
        assert evs[..i + 1] == [evs[0]] + evs[1..][..i];
        RunAppend(Full, st, [evs[0]], evs[1..][..i]);
        assert Run(Full, st, [evs[0]]).st == next by {
          assert [evs[0]][1..] == [];
          assert Run(Full, st, [evs[0]]).st == Run(Full, next, []).st;
        }
        assert JoinedBy(Run(Full, st, evs[..i + 1]).st, evs[i + 1], room, u);
      }
    }
  }

  /** In files/server.js `join_room` adds the identity to any room without
      consulting the store. */
  lemma InlinedJoinUnchecked(st: State, c: ConnId, room: RoomId, env: Env, env': Env)
    requires c in st.conns && st.conns[c].user.Some?
    ensures var u := st.conns[c].user.value;
      var r := Step(Inlined, st, c, JoinRoom(room), env);
      && r == Step(Inlined, st, c, JoinRoom(room), env')
      && u.id in Present(r.st, room)
      && r.st.conns[c].currentRoom == room
      && r.out[0] == Delivery(c, JoinedRoom(room))
      && forall d | d in r.out[1..] :: d.msg == UserJoined(u.id, u.name, None)
  {
  }

  // ---------------------------------------------------------------------
  // Messages and relays

  /** The sender's identity sees its message once, on the socket that sent
      it: broadcast skips every socket of the sender, including the others
      it has open. */
  lemma EchoOnlyToOrigin(v: Variant, st: State, c: ConnId, room: RoomId, content: string, env: Env)
    requires Inv(st) && SingleBinding(st)
    requires c in st.conns && st.conns[c].user.Some?
    requires env.insert.Some? && !(v.requiresContent && (content == "" || room == ""))
    ensures var u := st.conns[c].user.value;
      var r := Step(v, st, c, SendMessage(room, content), env);
      && r.writes == [ChatRow(env.insert.value.id, room, u.id, content, env.insert.value.createdAt)]
      && r.out[0].conn == c
      && forall i | 1 <= i < |r.out| :: r.out[i].conn !in Sessions(st, u.id)
  {
    var u := st.conns[c].user.value;
    var r := Step(v, st, c, SendMessage(room, content), env);
    var meta := env.insert.value;
    var p := NewMessage(ChatMessage(ChatRow(meta.id, room, u.id, content, meta.createdAt), u.name));
    assert r.out[1..] == Broadcast(st, room, p, u.id);
    SingleBindingDisjoint(st);
    forall x | x in Sessions(st, u.id) ensures forall d | d in Broadcast(st, room, p, u.id) :: d.conn != x {
      BroadcastSkipsExcluded(st, room, p, u.id, x);
    }
    forall i | 1 <= i < |r.out| ensures r.out[i].conn !in Sessions(st, u.id) {
      assert r.out[i] in r.out[1..];
    }
  }

  /** A failing insert means no fan-out: the sender alone gets the catch's
      error and nothing is written or changed. */
  lemma StoreFailureNoFanOut(v: Variant, st: State, c: ConnId, room: RoomId, content: string, env: Env)
    requires c in st.conns && st.conns[c].user.Some? && env.insert.None?
    ensures var r := Step(v, st, c, SendMessage(room, content), env);
      && r.st == st && r.writes == []
      && forall d | d in r.out :: d == Delivery(c, Error(v.failureText))
  {
  }

  /** files/server.js has no content guard: every message is offered to the
      store, so it is written exactly when the insert succeeds. */
  lemma InlinedAlwaysPersists(st: State, c: ConnId, room: RoomId, content: string, env: Env)
    requires c in st.conns && st.conns[c].user.Some?
    ensures var r := Step(Inlined, st, c, SendMessage(room, content), env);
      |r.writes| == (if env.insert.Some? then 1 else 0)
  {
  }

  /** Typing and task updates are broadcasts only: no store, no membership
      check, no state change, and the actor is excluded. */
  lemma RelayOnlyBroadcasts(v: Variant, st: State, c: ConnId, f: Frame, env: Env, env': Env)
    requires c in st.conns && st.conns[c].user.Some?
    requires f.Typing? || f.TaskUpdate?
    ensures var u := st.conns[c].user.value;
      var r := Step(v, st, c, f, env);
      && r == Step(v, st, c, f, env')
      && r.st == st && r.writes == []
      && (f.Typing? ==> r.out == Broadcast(st, f.roomId,
            TypingRelay(u.id, u.name, f.isTyping, if v.tagsRoom then Some(f.roomId) else None), u.id))
      && (f.TaskUpdate? ==> r.out == Broadcast(st, f.projectId, TaskUpdated(f.task, u.id), u.id))
  {
  }

  /** A frame of a type the gateway does not know does nothing. */
  lemma UnknownIgnored(v: Variant, st: State, c: ConnId, kind: string, env: Env)
    requires c in st.conns && st.conns[c].user.Some?
    ensures Step(v, st, c, Unknown(kind), env) == StepResult(st, [], [])
  {
  }

  /** `ws` fires `close` once: a second disconnect of the same socket does
      nothing, in particular no second `user_left`. */
  lemma DisconnectIdempotent(v: Variant, st: State, c: ConnId)
    ensures var r := Deliver(v, st, Disconnect(c));
      Deliver(v, r.st, Disconnect(c)) == StepResult(r.st, [], [])
  {
  }
}
