/**
 * The WebSocket fan-out hub.  One goroutine owns the set of connected
 * clients and serves three channels: `register`, `unregister` and a
 * 256-slot `broadcast` buffer.  Each client has a `send` queue of capacity
 * 256 that its writer drains; a client whose queue is full when a message
 * is fanned out is closed and dropped.
 *
 * The loop is rendered sequentially: one method per arm of its `select`.
 * Clients are identified by number; a queue is the content of a client's
 * buffered `send` channel, and `closed` holds the clients whose channel has
 * been closed.  A closed client's channel still holds what was queued
 * before the close, which its writer drains before it sees the close.
 */
module WebSocketHub {
  import opened Wrappers

  type ClientId = nat

  /** A marshalled JSON message. */
  type Bytes = seq<bv8>

  /** Capacity of every client's `send` channel. */
  const SendCapacity := 256

  /** Capacity of the hub's `broadcast` channel. */
  const BroadcastCapacity := 256

  /** The clients and their queues, as the `Run` loop sees them. */
  datatype State = State(clients: set<ClientId>, queues: map<ClientId, seq<Bytes>>, closed: set<ClientId>)

  /**
   * Every member and every closed client has a queue, no client is both,
   * and no queue holds more than its capacity.
   */
  ghost predicate Inv(s: State) {
    && s.clients !! s.closed
    && s.queues.Keys == s.clients + s.closed
    && forall c :: c in s.queues ==> |s.queues[c]| <= SendCapacity
  }

  /** The `register` arm: `clients[client] = true`, with a new empty queue for a new client. */
  function Registered(s: State, c: ClientId): (r: State)
    ensures c in r.clients && r.closed == s.closed
    ensures r.clients == s.clients + {c}
    ensures c in s.queues ==> r.queues == s.queues
    ensures c !in s.queues ==> r.queues == s.queues[c := []]
  {
    State(s.clients + {c}, if c in s.queues then s.queues else s.queues[c := []], s.closed)
  }

  /** The `unregister` arm: a present client is removed and its queue closed. */
  function Unregistered(s: State, c: ClientId): (r: State)
    ensures c !in r.clients && r.queues == s.queues
    ensures c in s.clients ==> r.clients == s.clients - {c} && r.closed == s.closed + {c}
    ensures c !in s.clients ==> r == s
  {
    if c in s.clients then State(s.clients - {c}, s.queues, s.closed + {c}) else s
  }

  /** The members whose queue has no room left. */
  function Full(s: State): (f: set<ClientId>)
    requires s.clients <= s.queues.Keys
    ensures f <= s.clients
    ensures forall c :: c in s.clients ==> (c in f <==> |s.queues[c]| >= SendCapacity)
  {
    set c | c in s.clients && |s.queues[c]| >= SendCapacity
  }

  /**
   * The `broadcast` arm after a successful marshal: each member with room
   * gets `data` at the tail of its queue; each member whose queue is full is
   * closed and removed.  The outcome does not depend on the order in which
   * the members are visited.
   */
  function Fanout(s: State, data: Bytes): (r: State)
    requires s.clients <= s.queues.Keys
    ensures r.clients == s.clients - Full(s)
    ensures r.closed == s.closed + Full(s)
    ensures r.queues.Keys == s.queues.Keys
    ensures forall c :: c in s.clients && |s.queues[c]| < SendCapacity ==> r.queues[c] == s.queues[c] + [data]
    ensures forall c :: c in s.queues && (c !in s.clients || |s.queues[c]| >= SendCapacity) ==> r.queues[c] == s.queues[c]
  {
    State(s.clients - Full(s),
          map c | c in s.queues :: if c in s.clients && |s.queues[c]| < SendCapacity then s.queues[c] + [data] else s.queues[c],
          s.closed + Full(s))
  }

  /** The fan-out carried out for the members in `done` only: the state halfway through the loop. */
  function PartialFanout(s: State, data: Bytes, done: set<ClientId>): State
    requires s.clients <= s.queues.Keys
  {
    State(s.clients - Full(s) * done,
          map c | c in s.queues :: if c in s.clients && c in done && |s.queues[c]| < SendCapacity then s.queues[c] + [data] else s.queues[c],
          s.closed + Full(s) * done)
  }

  lemma PartialNone(s: State, data: Bytes)
    requires s.clients <= s.queues.Keys
    ensures PartialFanout(s, data, {}) == s
  {
    var t := PartialFanout(s, data, {});
    assert t.queues == s.queues;
    assert t.clients == s.clients;
    assert t.closed == s.closed;
  }

  lemma PartialAll(s: State, data: Bytes)
    requires s.clients <= s.queues.Keys
    ensures PartialFanout(s, data, s.clients) == Fanout(s, data)
  {
    var t, r := PartialFanout(s, data, s.clients), Fanout(s, data);
    assert Full(s) * s.clients == Full(s);
    assert t.queues == r.queues;
  }

  /** Serving one more member `c` in the loop: enqueue when there is room, otherwise close and remove. */
  lemma PartialStep(s: State, data: Bytes, done: set<ClientId>, c: ClientId)
    requires s.clients <= s.queues.Keys && done <= s.clients && c in s.clients - done
    ensures var t := PartialFanout(s, data, done);
            && c in t.clients && c in t.queues && t.queues[c] == s.queues[c]
            && (|t.queues[c]| < SendCapacity ==>
                  PartialFanout(s, data, done + {c}) == State(t.clients, t.queues[c := t.queues[c] + [data]], t.closed))
            && (|t.queues[c]| >= SendCapacity ==>
                  PartialFanout(s, data, done + {c}) == State(t.clients - {c}, t.queues, t.closed + {c}))
  {
    var t, u := PartialFanout(s, data, done), PartialFanout(s, data, done + {c});
    if |s.queues[c]| < SendCapacity {
      assert c !in Full(s);
      assert Full(s) * (done + {c}) == Full(s) * done;
      assert u.queues == t.queues[c := t.queues[c] + [data]];
    } else {
      assert c in Full(s);
      assert Full(s) * (done + {c}) == Full(s) * done + {c};
      assert u.queues == t.queues;
    }
  }

  /** A sequence of broadcasts, in the order they leave the `broadcast` channel. */
  function FanoutAll(s: State, msgs: seq<Bytes>): (r: State)
    requires Inv(s)
    ensures Inv(r)
    decreases |msgs|
  {
    if msgs == [] then s
    else
      FanoutInv(s, msgs[0]);
      FanoutAll(Fanout(s, msgs[0]), msgs[1..])
  }

  lemma RegisterInv(s: State, c: ClientId)
    requires Inv(s) && c !in s.closed
    ensures Inv(Registered(s, c))
  {
  }

  lemma UnregisterInv(s: State, c: ClientId)
    requires Inv(s)
    ensures Inv(Unregistered(s, c))
  {
  }

  /** The invariant survives a fan-out: in particular no queue grows beyond its capacity. */
  lemma FanoutInv(s: State, data: Bytes)
    requires Inv(s)
    ensures Inv(Fanout(s, data))
  {
    var r := Fanout(s, data);
    forall c | c in r.queues ensures |r.queues[c]| <= SendCapacity {
      if c in s.clients && |s.queues[c]| < SendCapacity {
        assert r.queues[c] == s.queues[c] + [data];
      } else {
        assert r.queues[c] == s.queues[c];
      }
    }
  }

  /** Registering a client that is already a member changes nothing. */
  lemma RegisterMember(s: State, c: ClientId)
    requires Inv(s) && c in s.clients
    ensures Registered(s, c) == s
  {
  }

  /** Unregistering twice is unregistering once. */
  lemma UnregisterIdempotent(s: State, c: ClientId)
    ensures Unregistered(Unregistered(s, c), c) == Unregistered(s, c)
  {
  }

  /**
   * A queue is closed at most once: the members a fan-out closes were not
   * closed before, and a client dropped by a fan-out is no longer a member,
   * so a later `unregister` of it changes nothing.
   */
  lemma CloseOnce(s: State, data: Bytes, c: ClientId)
    requires Inv(s)
    ensures Full(s) !! s.closed
    ensures c in Full(s) ==> Unregistered(Fanout(s, data), c) == Fanout(s, data)
  {
  }

  /**
   * A member whose queue has room for all of a run of broadcasts stays a
   * member and receives every one of them, in order, after what it held.
   */
  lemma {:induction false} FanoutAllMember(s: State, msgs: seq<Bytes>, c: ClientId)
    requires Inv(s) && c in s.clients
    requires |s.queues[c]| + |msgs| <= SendCapacity
    ensures c in FanoutAll(s, msgs).clients
    ensures FanoutAll(s, msgs).queues[c] == s.queues[c] + msgs
    decreases |msgs|
  {
    if msgs == [] {
      assert s.queues[c] + msgs == s.queues[c];
    } else {
      FanoutInv(s, msgs[0]);
      var s', q, rest := Fanout(s, msgs[0]), s.queues[c], msgs[1..];
      assert FanoutAll(s, msgs) == FanoutAll(s', rest);
      assert c in s'.clients && s'.queues[c] == q + [msgs[0]];
      FanoutAllMember(s', rest, c);
      AppendFirst(q, msgs);
    }
  }

  lemma AppendFirst<T>(q: seq<T>, m: seq<T>)
    requires m != []
    ensures q + [m[0]] + m[1..] == q + m
  {
    assert m == [m[0]] + m[1..];
  }

  /** Broadcasts never touch a client that is not a member: it gets nothing and stays out. */
  lemma {:induction false} FanoutAllOutsider(s: State, msgs: seq<Bytes>, c: ClientId)
    requires Inv(s) && c in s.queues && c !in s.clients
    ensures c !in FanoutAll(s, msgs).clients
    ensures c in FanoutAll(s, msgs).closed
    ensures FanoutAll(s, msgs).queues[c] == s.queues[c]
    decreases |msgs|
  {
    if msgs != [] {
      FanoutInv(s, msgs[0]);
      FanoutAllOutsider(Fanout(s, msgs[0]), msgs[1..], c);
    }
  }

  /**
   * The loop of the `broadcast` arm: visits the members one at a time in no
   * particular order, enqueueing where there is room and closing and removing
   * where there is none.
   */
  method ServeAll(s: State, data: Bytes) returns (r: State)
    requires s.clients <= s.queues.Keys
    ensures r == Fanout(s, data)
  {
    PartialNone(s, data);
    r := s;
    var todo := s.clients;
    while todo != {}
      invariant todo <= s.clients
      invariant r == PartialFanout(s, data, s.clients - todo)
      decreases |todo|
    {
      var c :| c in todo;
      ghost var done := s.clients - todo;
      assert s.clients - (todo - {c}) == done + {c};
      PartialStep(s, data, done, c);
      if |r.queues[c]| < SendCapacity {
        r := r.(queues := r.queues[c := r.queues[c] + [data]]);
      } else {
        r := r.(clients := r.clients - {c}, closed := r.closed + {c});
      }
      todo := todo - {c};
    }
    PartialAll(s, data);
  }

  /** The hub: the state of the `Run` loop plus the `broadcast` channel's buffer. */
  class Hub<M> {
    var clients: set<ClientId>
    var queues: map<ClientId, seq<Bytes>>
    var closed: set<ClientId>
    /** Messages waiting in the `broadcast` channel. */
    var pending: seq<M>

    function Snapshot(): State
      reads this
    {
      State(clients, queues, closed)
    }

    ghost predicate Valid()
      reads this
    {
      Inv(Snapshot()) && |pending| <= BroadcastCapacity
    }

    /** `NewHub`: no clients and an empty `broadcast` buffer. */
    constructor ()
      ensures Valid()
      ensures clients == {} && queues == map[] && closed == {} && pending == []
    {
      clients := {};
      queues := map[];
      closed := {};
      pending := [];
    }

    /** A client arrives on `register`.  Each connection registers a client once, before it can be closed. */
    method Register(c: ClientId)
      requires Valid() && c !in closed
      modifies this
      ensures Valid()
      ensures Snapshot() == Registered(old(Snapshot()), c)
      ensures pending == old(pending)
    {
      RegisterInv(Snapshot(), c);
      clients := clients + {c};
      if c !in queues {
        queues := queues[c := []];
      }
    }

    /** A client arrives on `unregister`. */
    method Unregister(c: ClientId)
      requires Valid()
      modifies this
      ensures Valid()
      ensures Snapshot() == Unregistered(old(Snapshot()), c)
      ensures pending == old(pending)
    {
      UnregisterInv(Snapshot(), c);
      if c in clients {
        clients := clients - {c};
        closed := closed + {c};
      }
    }

    /**
     * A message leaves the `broadcast` channel.  When `marshal` fails only
     * the message is consumed; otherwise every member is visited once, in
     * no particular order, and served as `Fanout` describes.
     */
    method RunBroadcast(marshal: M -> Option<Bytes>)
      requires Valid() && pending != []
      modifies this
      ensures Valid()
      ensures pending == old(pending)[1..]
      ensures marshal(old(pending)[0]).None? ==> Snapshot() == old(Snapshot())
      ensures marshal(old(pending)[0]).Some? ==> Snapshot() == Fanout(old(Snapshot()), marshal(old(pending)[0]).value)
    {
      var message := pending[0];
      pending := pending[1..];
      var marshalled := marshal(message);
      if marshalled.None? {
        return;
      }
      var data := marshalled.value;
      var s0 := Snapshot();
      FanoutInv(s0, data);
      var r := ServeAll(s0, data);
      clients, queues, closed := r.clients, r.queues, r.closed;
    }

    /** `Broadcast`: never blocks; a message finding the buffer full is dropped. */
    method Broadcast(m: M)
      requires Valid()
      modifies this
      ensures Valid()
      ensures Snapshot() == old(Snapshot())
      ensures old(|pending|) < BroadcastCapacity ==> pending == old(pending) + [m]
      ensures old(|pending|) >= BroadcastCapacity ==> pending == old(pending)
    {
      if |pending| < BroadcastCapacity {
        pending := pending + [m];
      }
    }

    /** `ClientCount`: the number of members. */
    method ClientCount() returns (n: int)
      requires Valid()
      ensures n == |clients|
    {
      n := |clients|;
    }

    /**
     * The client's writer takes the next message from its `send` channel:
     * the oldest queued message, or `None` once the channel is closed and
     * drained.  It waits while the channel is open and empty.
     */
    method Receive(c: ClientId) returns (m: Option<Bytes>)
      requires Valid() && c in queues && (queues[c] != [] || c in closed)
      modifies this
      ensures Valid()
      ensures clients == old(clients) && closed == old(closed) && pending == old(pending)
      ensures old(queues[c]) != [] ==> m == Some(old(queues[c][0])) && queues == old(queues)[c := old(queues[c][1..])]
      ensures old(queues[c]) == [] ==> m.None? && queues == old(queues)
    {
      if queues[c] != [] {
        m := Some(queues[c][0]);
        queues := queues[c := queues[c][1..]];
      } else {
        m := None;
      }
    }
  }
}
