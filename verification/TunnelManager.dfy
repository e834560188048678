/** The tunnel manager as the hub process runs it (src/hub/tunnelManager.ts), field by field. */
module TunnelManager {
  import opened Options
  import opened PeerSocket
  import opened TunnelState
  import R = PeerRegistry
  import PS = PeerStore

  class TunnelManager {
    const store: PS.PeerStore
    var expects: map<string, Expect>
    var sockets: map<string, nat>
    /** The `PeerSocket` records, by creation order: a dropped one still runs its chain. */
    var pipes: seq<Pipe>
    /** The `boundId` variable of each `attachSocket` call. */
    var bound: map<nat, string>
    var open: set<nat>
    var nextWs: nat
    var issued: seq<nat>

    ghost function Value(): Net
      reads this, store
    {
      Net(store.Value(), expects, sockets, pipes, bound, open, nextWs, issued)
    }

    ghost predicate Valid()
      reads this, store
    {
      store.Valid() && Linked(Value())
    }

    constructor (store: PS.PeerStore)
      requires store.Valid()
      ensures Valid() && this.store == store && Value() == Empty(store.Value())
    {
      this.store := store;
      expects, sockets, pipes, bound, open, nextWs, issued := map[], map[], [], map[], {}, 0, [];
    }

    method ExpectPeer(id: string, nonce: string, ttlMs: Option<nat>, details: string, now: nat)
      requires Valid()
      modifies this`expects
      ensures Valid() && Value() == TunnelState.ExpectPeer(old(Value()), id, nonce, ttlMs, details, now)
    {
      var ttl := DEFAULT_EXPECT_TTL;
      if ttlMs.Some? {
        ttl := ttlMs.value;
      }
      expects := expects[id := Expect(nonce, ttlMs, details, now + ttl)];
    }

    method GetExpect(id: string, now: nat) returns (found: Option<Expect>)
      requires Valid()
      modifies this`expects
      ensures Valid() && Value() == ForgetExpired(old(Value()), id, now)
      ensures found == LiveExpect(old(Value()), id, now)
    {
      if id !in expects {
        return None;
      }
      found := Some(expects[id]);
      if now > found.value.expiresAt {
        expects := expects - {id};
        return None;
      }
    }

    /** Deletes what has expired, one entry after the other. */
    method ListExpects(now: nat) returns (listed: map<string, Expect>)
      requires Valid()
      modifies this`expects
      ensures Valid() && Value() == ForgetAllExpired(old(Value()), now)
      ensures listed == expects
    {
      var todo := expects.Keys;
      while todo != {}
        invariant todo <= expects.Keys <= old(expects).Keys
        invariant forall id ::
          id in expects ==> expects[id] == old(expects)[id] && (id in todo || now <= expects[id].expiresAt)
        invariant forall id :: id in old(expects) && id !in expects ==> now > old(expects)[id].expiresAt
        decreases todo
      {
        var id :| id in todo;
        todo := todo - {id};
        if now > expects[id].expiresAt {
          expects := expects - {id};
        }
      }
      assert expects == ForgetAllExpired(old(Value()), now).expects;
      listed := expects;
    }

    method IsConnected(id: string) returns (connected: bool)
      requires Valid()
      ensures connected == TunnelState.IsConnected(Value(), id)
    {
      connected := id in sockets && pipes[sockets[id]].ws in open;
    }

    /** A new WebSocket connection; it is bound to no target yet. */
    method AttachSocket() returns (ws: nat)
      requires Valid()
      modifies this`open, this`nextWs
      ensures Valid() && ws == old(nextWs)
      ensures Value() == old(Value()).(open := old(open) + {ws}, nextWs := ws + 1)
    {
      ws := nextWs;
      open := open + {ws};
      nextWs := nextWs + 1;
    }

    /** The `hello` branch of the message handler: answers with the acknowledgement's error, if any. */
    method OnHelloMessage(ws: nat, hello: Hello, now: nat) returns (error: Option<string>)
      requires Valid()
      modifies this, store
      ensures Valid() && Value() == OnHello(old(Value()), ws, hello, now)
      ensures error.None? <==> Admits(old(Value()), hello, now)
    {
      if hello.targetId == "" || hello.nonce == "" {
        open := open - {ws};
        return Some("invalid_hello");
      }
      error := HandleHello(ws, hello, now);
      if error.Some? {
        open := open - {ws};
      } else {
        bound := bound[ws := hello.targetId];
      }
    }

    method HandleHello(ws: nat, hello: Hello, now: nat) returns (error: Option<string>)
      requires Valid() && hello.targetId != "" && hello.nonce != ""
      modifies this, store
      ensures Valid() && (error.None? <==> Admits(old(Value()), hello, now))
      ensures error.Some? ==> Value() == ForgetExpired(old(Value()), hello.targetId, now)
      ensures error.Some? ==> error.value == if LiveExpect(old(Value()), hello.targetId, now).None?
                                             then "unknown_or_expired_expect" else "nonce_mismatch"
      ensures error.None? ==>
                var found := old(Value()).expects[hello.targetId];
                Value() == Bind(Supersede(old(Value()), ws, hello.targetId, now), ws, hello, found, now)
    {
      var found := GetExpect(hello.targetId, now);
      if found.None? {
        return Some("unknown_or_expired_expect");
      }
      if found.value.nonce != hello.nonce {
        return Some("nonce_mismatch");
      }
      ReplaceSocket(ws, hello.targetId, now);
      InstallSocket(ws, hello, found.value, now);
      error := None;
    }

    /** First half of an accepted hello: any other connection of this target is closed. */
    method ReplaceSocket(ws: nat, id: string, now: nat)
      requires Valid()
      modifies this`pipes, this`open
      ensures Valid() && Value() == Supersede(old(Value()), ws, id, now)
    {
      if id in sockets && pipes[sockets[id]].ws != ws {
        open := open - {pipes[sockets[id]].ws};
        RejectAllPending(sockets[id], Replaced, now);
      }
    }

    /** Second half: the peer is registered, its expectation refreshed and its socket entered. */
    method InstallSocket(ws: nat, hello: Hello, awaited: Expect, now: nat)
      requires Valid()
      modifies this`expects, this`sockets, this`pipes, store
      ensures Valid() && Value() == Bind(old(Value()), ws, hello, awaited, now)
    {
      hide R.Register, R.WellKeyed, HelloPeer;
      var id := hello.targetId;
      var _ := store.Register(HelloPeer(hello), now);
      var ttl := DEFAULT_EXPECT_TTL;
      if awaited.ttlMs.Some? {
        ttl := awaited.ttlMs.value;
      }
      expects := expects[id := awaited.(expiresAt := now + ttl)];
      sockets := sockets[id := |pipes|];
      pipes := pipes + [Fresh(ws, id)];
    }

    /** The `response` branch of the message handler. */
    method OnResponseMessage(ws: nat, callId: nat, body: string, now: nat)
      requires Valid()
      modifies this`pipes
      ensures Valid() && Value() == OnResponse(old(Value()), ws, callId, body, now)
    {
      if ws !in bound || bound[ws] !in sockets {
        return;
      }
      var k := sockets[bound[ws]];
      var isPending := FindPending(pipes[k], callId);
      if isPending {
        pipes := pipes[k := Settle(pipes[k], callId, Replied(body), now)];
      }
    }

    method OnClose(ws: nat, now: nat)
      requires Valid()
      modifies this, store
      ensures Valid() && Value() == OnGone(CloseWs(old(Value()), ws), ws, now)
    {
      open := open - {ws};
      if ws in bound {
        DetachPeer(bound[ws], now);
      }
    }

    method OnError(ws: nat, now: nat)
      requires Valid()
      modifies this, store
      ensures Valid() && Value() == OnGone(old(Value()), ws, now)
    {
      if ws in bound {
        DetachPeer(bound[ws], now);
      }
    }

    method DetachPeer(id: string, now: nat)
      requires Valid()
      modifies this`pipes, this`sockets, store
      ensures Valid() && Value() == Detach(old(Value()), id, now)
    {
      if id !in sockets {
        return;
      }
      ghost var detached := Detach(Value(), id, now);
      var k := sockets[id];
      sockets := sockets - {id};
      RejectAllPending(k, Disconnected, now);
      if id in store.peers && store.peers[id].peer.transport.Tunnel? {
        var _ := store.Register(store.peers[id].peer.(tunnelConnected := Some(false)), now);
      }
      assert pipes == detached.pipes && store.Value() == detached.store;
      assert Value() == detached;
    }

    /** Rejects each pending promise in turn, then clears the map. */
    method RejectAllPending(k: nat, outcome: Outcome, now: nat)
      requires k < |pipes|
      modifies this`pipes
      ensures pipes == old(pipes)[k := RejectAll(old(pipes)[k], outcome, now)]
    {
      var p := pipes[k];
      var pending := p.pending;
      for i := 0 to |pending|
        invariant p == pipes[k].(log := pipes[k].log + SettleEach(pending, outcome, now)[..i])
      {
        p := p.(log := p.log + [Settlement(pending[i].id, outcome, now)]);
      }
      assert SettleEach(pending, outcome, now)[..|pending|] == SettleEach(pending, outcome, now);
      p := p.(pending := []);
      pipes := pipes[k := p];
    }

    method ProxyRequest(id: string, timeoutMs: Option<nat>, now: nat) returns (accepted: Option<nat>)
      requires Valid()
      modifies this`pipes, this`issued
      ensures Valid() && (Value(), accepted) == Proxy(old(Value()), id, timeoutMs, now)
    {
      var connected := IsConnected(id);
      if !connected {
        return None;
      }
      var k := sockets[id];
      var timeout := DEFAULT_TIMEOUT;
      if timeoutMs.Some? {
        timeout := timeoutMs.value;
      }
      var callId := |issued|;
      pipes := pipes[k := Chain(pipes[k], Call(callId, now, timeout))];
      issued := issued + [k];
      accepted := Some(callId);
    }

    /** The continuation of `queue.then(run, run)`, once the request before it has settled. */
    method RunRequest(k: nat, sendOk: bool, now: nat)
      requires Valid() && k < |pipes| && Ready(pipes[k])
      modifies this`pipes
      ensures Valid() && Value() == RunChain(old(Value()), k, sendOk, now)
    {
      var p := pipes[k];
      var call := p.calls[p.started];
      p := p.(started := p.started + 1, pending := p.pending + [Pending(call.id, now + call.timeout)]);
      if sendOk {
        p := p.(wire := p.wire + [call.id]);
      } else {
        p := p.(pending := Without(p.pending, call.id), log := p.log + [Settlement(call.id, SendFailed, now)]);
      }
      pipes := pipes[k := p];
    }

    method OnTimer(k: nat, callId: nat, now: nat)
      requires Valid() && k < |pipes| && Due(pipes[k], callId, now)
      modifies this`pipes
      ensures Valid() && Value() == TimerFires(old(Value()), k, callId, now)
    {
      pipes := pipes[k := Settle(pipes[k], callId, TimedOut, now)];
    }

    method CloseSocket(id: string, now: nat)
      requires id in sockets && sockets[id] < |pipes|
      modifies this`pipes, this`sockets, this`open
      ensures pipes == old(pipes)[old(sockets)[id] := RejectAll(old(pipes)[old(sockets)[id]], HubClosing, now)]
      ensures open == old(open) - {old(pipes)[old(sockets)[id]].ws}
      ensures sockets == old(sockets) - {id}
    {
      var k := sockets[id];
      RejectAllPending(k, HubClosing, now);
      open := open - {pipes[k].ws};
      sockets := sockets - {id};
    }

    /** Closes the current sockets one after the other; the store's flags stay. */
    method CloseAll(now: nat)
      requires Valid()
      modifies this`pipes, this`sockets, this`open
      ensures Valid() && Value() == TunnelState.CloseAll(old(Value()), now)
    {
      hide RejectAll, R.WellKeyed, RejectAt, SocketsOf;
      ghost var before := Value();
      ghost var done: set<nat> := {};
      RejectAtNone(before.pipes, now);
      while sockets != map[]
        invariant sockets.Keys <= before.sockets.Keys && |pipes| == |before.pipes|
        invariant forall t :: t in sockets ==> sockets[t] == before.sockets[t] && sockets[t] !in done
        invariant forall t :: t in before.sockets && t !in sockets ==> before.sockets[t] in done
        invariant done <= before.sockets.Values
        invariant pipes == RejectAt(before.pipes, done, HubClosing, now)
        invariant open == before.open - SocketsOf(before.pipes, done)
        decreases sockets.Keys
      {
        var id :| id in sockets;
        var k := sockets[id];
        assert before.pipes[k].target == id;
        RejectAtOneMore(before.pipes, done, k, now);
        CloseSocket(id, now);
        SocketsOfOneMore(before.pipes, done, k);
        done := done + {k};
      }
      assert done == before.sockets.Values;
      SocketsOfMeans(before.pipes, done);
    }
  }

  ghost function SocketsOf(pipes: seq<Pipe>, ks: set<nat>): set<nat> {
    set k | 0 <= k < |pipes| && k in ks :: pipes[k].ws
  }

  lemma {:induction false} SocketsOfMeans(pipes: seq<Pipe>, ks: set<nat>)
    ensures SocketsOf(pipes, ks) == set k | 0 <= k < |pipes| && k in ks :: pipes[k].ws
    ensures SocketsOf(pipes, {}) == {}
  {
  }

  lemma {:induction false} RejectAtNone(pipes: seq<Pipe>, now: nat)
    ensures RejectAt(pipes, {}, HubClosing, now) == pipes && SocketsOf(pipes, {}) == {}
  {
  }

  lemma {:induction false} RejectAtOneMore(pipes: seq<Pipe>, done: set<nat>, k: nat, now: nat)
    requires k < |pipes| && k !in done
    ensures |RejectAt(pipes, done, HubClosing, now)| == |pipes|
    ensures RejectAt(pipes, done, HubClosing, now)[k] == pipes[k]
    ensures RejectAt(pipes, done + {k}, HubClosing, now)
      == RejectAt(pipes, done, HubClosing, now)[k := RejectAll(pipes[k], HubClosing, now)]
  {
    hide RejectAll;
  }

  lemma {:induction false} SocketsOfOneMore(pipes: seq<Pipe>, ks: set<nat>, k: nat)
    requires k < |pipes|
    ensures SocketsOf(pipes, ks + {k}) == SocketsOf(pipes, ks) + {pipes[k].ws}
  {
  }

  method FindPending(p: Pipe, callId: nat) returns (found: bool)
    ensures found == IsPending(p, callId)
  {
    for i := 0 to |p.pending|
      invariant forall j :: 0 <= j < i ==> p.pending[j].id != callId
    {
      if p.pending[i].id == callId {
        return true;
      }
    }
    found := false;
  }
}
