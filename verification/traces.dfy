/** The gateway over whole runs: the transport's events, the invariants
    every step keeps, and what a run can and cannot do to presence. */
module Traces {
  import opened JsSet
  import opened Protocol
  import opened Registry
  import opened Gateway

  /** What the transport reports: a socket accepted, a frame received with
      the collaborators' answers for it, a socket closed. */
  datatype Event =
    | Connect(c: ConnId)
    | Receive(c: ConnId, f: Frame, env: Env)
    | Disconnect(c: ConnId)

  /** One event. `ws` emits nothing on a socket it never accepted or has
      already closed, and accepts each socket once. */
  function Deliver(v: Variant, st: State, e: Event): (r: StepResult)
    ensures e.Connect? ==> r.out == [] && r.writes == []
    ensures !IsOpen(st, e.c) && !e.Connect? ==> r == StepResult(st, [], [])
  {
    match e
    case Connect(c) =>
      if c in st.conns then StepResult(st, [], [])
      else StepResult(st.(conns := st.conns[c := Conn(true, None, "")]), [], [])
    case Receive(c, f, env) =>
      if IsOpen(st, c) then Step(v, st, c, f, env) else StepResult(st, [], [])
    case Disconnect(c) =>
      if IsOpen(st, c) then Close(st, c) else StepResult(st, [], [])
  }

  /** Events handled one at a time by `step`, outputs and writes in order. */
  function Fold(step: (State, Event) -> StepResult, st: State, evs: seq<Event>): StepResult
    decreases |evs|
  {
    if evs == [] then StepResult(st, [], [])
    else
      var first := step(st, evs[0]);
      var rest := Fold(step, first.st, evs[1..]);
      StepResult(rest.st, first.out + rest.out, first.writes + rest.writes)
  }

  /** A run of the gateway from `st`. */
  function Run(v: Variant, st: State, evs: seq<Event>): StepResult {
    Fold((s, e) => Deliver(v, s, e), st, evs)
  }

  lemma {:induction false} FoldAppend(step: (State, Event) -> StepResult, st: State, a: seq<Event>, b: seq<Event>)
    ensures var ra := Fold(step, st, a);
            var rb := Fold(step, ra.st, b);
            Fold(step, st, a + b) == StepResult(rb.st, ra.out + rb.out, ra.writes + rb.writes)
    decreases |a|
  {
    if a == [] {
      assert a + b == b;
    } else {
      assert (a + b)[0] == a[0];
      assert (a + b)[1..] == a[1..] + b;
      FoldAppend(step, step(st, a[0]).st, a[1..], b);
    }
  }

  /** Runs compose: a run of `a + b` is the run of `a` followed by the run
      of `b` from where `a` left off, so writes and sends keep event order. */
  lemma RunAppend(v: Variant, st: State, a: seq<Event>, b: seq<Event>)
    ensures var ra := Run(v, st, a);
            var rb := Run(v, ra.st, b);
            Run(v, st, a + b) == StepResult(rb.st, ra.out + rb.out, ra.writes + rb.writes)
  {
    FoldAppend((s, e) => Deliver(v, s, e), st, a, b);
  }

  /** The registry invariant: every `clients` entry is a non-empty set of
      accepted sockets, every `rooms` entry is a set, and every open,
      authenticated socket is registered under its identity. */
  predicate Inv(st: State) {
    && SetsWellFormed(st)
    && (forall u | u in st.clients :: |st.clients[u]| > 0)
    && (forall u, x | u in st.clients && x in st.clients[u] :: x in st.conns)
    && (forall c | c in st.conns && st.conns[c].open && st.conns[c].user.Some? ::
          c in Sessions(st, st.conns[c].user.value.id))
  }

  lemma EmptyInv()
    ensures Inv(Empty)
  {
  }

  lemma AuthenticatePreservesInv(st: State, c: ConnId, token: Token, env: Env)
    requires Inv(st) && c in st.conns
    ensures Inv(Authenticate(st, c, token, env).st)
  {
    var r := Authenticate(st, c, token, env);
    if token in env.verify && !env.lookupFails && env.verify[token] in env.active {
      var id := env.verify[token];
      assert r.st.clients[id] == Add(Sessions(st, id), c);
      forall u | u in r.st.clients
        ensures NoDup(r.st.clients[u]) && |r.st.clients[u]| > 0
        ensures forall x | x in r.st.clients[u] :: x in r.st.conns
      {
        if u != id {
          assert r.st.clients[u] == st.clients[u];
        }
      }
      forall x | x in r.st.conns && r.st.conns[x].open && r.st.conns[x].user.Some?
        ensures x in Sessions(r.st, r.st.conns[x].user.value.id)
      {
        if x != c {
          var w := st.conns[x].user.value.id;
          assert x in Sessions(st, w);
          if w == id {
            assert x in r.st.clients[id][..|st.clients[id]|];
          }
        }
      }
    } else {
      assert r.st == st;
    }
  }

  lemma StepPreservesInv(v: Variant, st: State, c: ConnId, f: Frame, env: Env)
    requires Inv(st) && c in st.conns
    ensures Inv(Step(v, st, c, f, env).st)
  {
    if f.Auth? {
      AuthenticatePreservesInv(st, c, f.token, env);
    } else if f.JoinRoom? && st.conns[c].user.Some? {
      var r := Step(v, st, c, f, env);
      forall q | q in r.st.rooms ensures NoDup(r.st.rooms[q]) {
        if q != f.roomId {
          assert r.st.rooms[q] == st.rooms[q];
        }
      }
    }
  }

  lemma ClosePreservesInv(st: State, c: ConnId)
    requires Inv(st) && c in st.conns
    ensures Inv(Close(st, c).st)
  {
    var r := Close(st, c);
    if st.conns[c].user.Some? {
      var id := st.conns[c].user.value.id;
      forall u | u in r.st.clients ensures NoDup(r.st.clients[u]) && |r.st.clients[u]| > 0 {
        if u == id {
          assert r.st.clients[u] == Delete(st.clients[u], c);
        }
      }
      forall x | x in r.st.conns && r.st.conns[x].open && r.st.conns[x].user.Some?
        ensures x in Sessions(r.st, r.st.conns[x].user.value.id)
      {
        assert x != c;
        assert x in Sessions(st, st.conns[x].user.value.id);
      }
    }
  }

  lemma DeliverPreservesInv(v: Variant, st: State, e: Event)
    requires Inv(st)
    ensures Inv(Deliver(v, st, e).st)
  {
    match e
    case Connect(c) =>
    case Receive(c, f, env) =>
      if IsOpen(st, c) {
        StepPreservesInv(v, st, c, f, env);
      }
    case Disconnect(c) =>
      if IsOpen(st, c) {
        ClosePreservesInv(st, c);
      }
  }

  /** Every state a run reaches from a good state is good; in particular
      no `clients` entry is ever left empty. */
  lemma {:induction false} RunPreservesInv(v: Variant, st: State, evs: seq<Event>)
    requires Inv(st)
    ensures Inv(Run(v, st, evs).st)
    decreases |evs|
  {
    if evs != [] {
      DeliverPreservesInv(v, st, evs[0]);
      RunPreservesInv(v, Deliver(v, st, evs[0]).st, evs[1..]);
      assert Run(v, st, evs).st == Run(v, Deliver(v, st, evs[0]).st, evs[1..]).st;
    }
  }
}
