/** What an event of the hub does to records, connections and expectations, spelled out. */
module TunnelEffects {
  import opened Options
  import opened PeerSocket
  import opened TunnelState
  import opened TunnelSafety
  import opened TunnelTrust
  import R = PeerRegistry

  // ---------- records ----------

  /** All records but that of `id` are as they were. */
  ghost predicate OthersStay(s: R.Registry, t: R.Registry, id: string) {
    forall other :: other != id ==>
      (other in t.records <==> other in s.records) && (other in s.records ==> t.records[other] == s.records[other])
  }

  /** An accepted hello records its target as a connected tunnel peer with its nonce, and as nobody's own if it is the
      lab; and it puts the end of the expectation off by its time-to-live. */
  lemma {:induction false} HelloRecords(n: Net, ws: nat, hello: Hello, now: nat)
    requires Admits(n, hello, now)
    ensures var m, id := OnHello(n, ws, hello, now), hello.targetId;
      && OthersStay(n.store, m.store, id)
      && id in m.store.records && m.store.records[id].lastHeartbeatAt == now
      && m.store.records[id].peer == R.Peer(id, if id == "lab" then R.Registered else R.Owned, R.Tunnel,
                                             Some(hello.nonce), Some(true), hello.details)
      && id in n.expects && m.expects
           == n.expects[id := n.expects[id].(expiresAt := now + TtlOf(n.expects[id].ttlMs))]
  {
    hide RejectAll;
  }

  /** A refused hello changes nothing but its connection and an expired expectation. */
  lemma {:induction false} RefusalChangesLittle(n: Net, ws: nat, hello: Hello, now: nat)
    requires !Admits(n, hello, now)
    ensures var m := OnHello(n, ws, hello, now);
      && m == n.(open := n.open - {ws}, expects := m.expects)
      && forall id :: if id in n.expects && (id != hello.targetId || now <= n.expects[id].expiresAt)
                      then id in m.expects && m.expects[id] == n.expects[id]
                      else id in m.expects ==> id in n.expects && m.expects[id] == n.expects[id]
  {
  }

  /** The end of an entry marks a tunnel peer as not connected, heard from just now, and leaves an HTTP peer alone. */
  lemma {:induction false} DetachRecords(n: Net, id: string, now: nat)
    requires Current(n, id).Some? && R.WellKeyed(n.store)
    ensures var m := Detach(n, id, now);
      && OthersStay(n.store, m.store, id) && m.sockets == n.sockets - {id}
      && (id in m.store.records <==> id in n.store.records)
      && (id in n.store.records ==>
            if n.store.records[id].peer.transport == R.Tunnel then
              && m.store.records[id].lastHeartbeatAt == now
              && m.store.records[id].peer == n.store.records[id].peer.(tunnelConnected := Some(false))
            else m.store.records[id] == n.store.records[id])
  {
    hide RejectAll;
    if id in n.store.records && n.store.records[id].peer.transport.Tunnel? {
      RegisterTouchesOne(n.store, n.store.records[id].peer.(tunnelConnected := Some(false)), now);
    }
  }

  lemma {:induction false} RegisterTouchesOne(s: R.Registry, peer: R.Peer, now: int)
    ensures var t := R.Register(s, peer, now);
      && OthersStay(s, t, peer.id) && peer.id in t.records
      && t.records[peer.id].peer == peer && t.records[peer.id].lastHeartbeatAt == now
  {
  }

  // ---------- connections ----------

  /** The connection of the present entry of `id`. */
  predicate Holds(n: Net, id: string, ws: nat) {
    id in n.sockets && n.sockets[id] < |n.pipes| && n.pipes[n.sockets[id]].ws == ws
  }

  /** The events that end a connection: its own close event, a frame that is no message, a hello on it that is refused,
      one accepted elsewhere for a target it holds, and the end of the hub if it holds any. */
  ghost predicate Closes(w: World, e: Event, ws: nat) {
    match e
    case Closed(x) => x == ws
    case InvalidFrame(x) => x == ws
    case HelloFrame(x, hello) =>
      x < w.net.nextWs && if Admits(w.net, hello, w.now) then x != ws && Holds(w.net, hello.targetId, ws) else x == ws
    case CloseHub => exists id :: Holds(w.net, id, ws)
    case _ => false
  }

  lemma {:induction false} HelloCloses(n: Net, x: nat, hello: Hello, ws: nat, now: nat)
    ensures ws in OnHello(n, x, hello, now).open <==>
      ws in n.open && !if Admits(n, hello, now) then x != ws && Holds(n, hello.targetId, ws) else x == ws
  {
    hide R.Register, RejectAll;
  }

  lemma {:induction false} HubCloses(n: Net, ws: nat, now: nat)
    requires Linked(n)
    ensures ws in CloseAll(n, now).open <==> ws in n.open && !exists id :: Holds(n, id, ws)
  {
    hide RejectAll, RejectAt;
    if id :| Holds(n, id, ws) {
      assert n.sockets[id] in n.sockets.Values;
    }
    if k :| 0 <= k < |n.pipes| && k in n.sockets.Values && n.pipes[k].ws == ws {
      var id :| id in n.sockets && n.sockets[id] == k;
      assert Holds(n, id, ws);
    }
  }

  /** A connection is open after an event exactly if it was and the event is none of these, or has just been made. */
  lemma {:induction false} OpenAfter(w: World, e: Event, ws: nat)
    requires Linked(w.net)
    ensures ws in Step(w, e).net.open
      <==> (ws in w.net.open && !Closes(w, e, ws)) || (e.Connect? && ws == w.net.nextWs)
  {
    hide OnHello, Detach, DeletePeer, CloseAll, KeepaliveTick, Ready, Due, IsPending, Settle, RunNext, Chain, Admits;
    hide R.Sweep, R.Register, R.Remove, R.Heartbeat, R.Select, Holds;
    var n, now := w.net, w.now;
    match e
    case HelloFrame(x, hello) => HelloCloses(n, x, hello, ws, now);
    case Closed(x) => if x in n.bound { LeavingOpens(CloseWs(n, x), n.bound[x], now); }
    case Errored(x) => if x in n.bound { LeavingOpens(n, n.bound[x], now); }
    case DeleteRoute(id) => LeavingOpens(n, id, now);
    case CloseHub => HubCloses(n, ws, now);
    case Tick => TickMindsTheLive(n, now);
    case _ =>
  }

  lemma {:induction false} LeavingOpens(n: Net, id: string, now: nat)
    ensures Detach(n, id, now).open == n.open && TunnelState.DeletePeer(n, id, now).open == n.open
    ensures Detach(n, id, now).bound == n.bound && TunnelState.DeletePeer(n, id, now).bound == n.bound
  {
    hide R.Sweep, R.Register, R.Remove, RejectAll;
  }

  /** A connection is taken for the target of the last hello that was accepted on it, and for none before. */
  lemma {:induction false} BoundAfter(w: World, e: Event)
    ensures Step(w, e).net.bound == if e.HelloFrame? && e.ws < w.net.nextWs && Admits(w.net, e.hello, w.now)
                                    then w.net.bound[e.ws := e.hello.targetId] else w.net.bound
  {
    hide OnHello, Detach, DeletePeer, CloseAll, KeepaliveTick, Ready, Due, IsPending, Settle, RunNext, Chain, Admits;
    hide R.Sweep, R.Register, R.Remove, R.Heartbeat, R.Select;
    var n, now := w.net, w.now;
    match e
    case HelloFrame(x, hello) => HelloBinds(n, x, hello, now);
    case Closed(x) => if x in n.bound { LeavingOpens(CloseWs(n, x), n.bound[x], now); }
    case Errored(x) => if x in n.bound { LeavingOpens(n, n.bound[x], now); }
    case DeleteRoute(id) => LeavingOpens(n, id, now);
    case CloseHub => ClosingBinds(n, now);
    case Tick => TickMindsTheLive(n, now);
    case _ =>
  }

  lemma {:induction false} HelloBinds(n: Net, ws: nat, hello: Hello, now: nat)
    ensures OnHello(n, ws, hello, now).bound
      == if Admits(n, hello, now) then n.bound[ws := hello.targetId] else n.bound
  {
    hide R.Register, RejectAll;
  }

  lemma {:induction false} ClosingBinds(n: Net, now: nat)
    ensures CloseAll(n, now).bound == n.bound
  {
    hide RejectAll;
  }

  // ---------- an announced hello is accepted ----------

  /** A peer with this nonce is expected at least until `since` plus its time-to-live. */
  predicate Awaited(n: Net, id: string, nonce: string, ttlMs: Option<nat>, since: nat) {
    && id in n.expects && n.expects[id].nonce == nonce && n.expects[id].ttlMs == ttlMs
    && since + TtlOf(ttlMs) <= n.expects[id].expiresAt
  }

  lemma {:induction false} StillAwaited(w: World, e: Event, id: string, nonce: string, ttlMs: Option<nat>, since: nat)
    requires Awaited(w.net, id, nonce, ttlMs, since) && since <= w.now <= since + TtlOf(ttlMs)
    requires e.ExpectRoute? ==> e.id != id
    ensures Awaited(Step(w, e).net, id, nonce, ttlMs, since) && w.now <= Step(w, e).now
  {
    hide OnHello, Detach, DeletePeer, CloseAll, KeepaliveTick, Ready, Due, IsPending, Settle, RunNext, Chain, Admits;
    hide R.Sweep, R.Register, R.Remove, R.Heartbeat, R.Select;
    var n, now := w.net, w.now;
    match e
    case HelloFrame(x, hello) =>
      if Admits(n, hello, now) { HelloRecords(n, x, hello, now); } else { RefusalChangesLittle(n, x, hello, now); }
    case Closed(x) => if x in n.bound { LeavingKeepsExpects(CloseWs(n, x), n.bound[x], now); }
    case Errored(x) => if x in n.bound { LeavingKeepsExpects(n, n.bound[x], now); }
    case DeleteRoute(other) => LeavingKeepsExpects(n, other, now);
    case CloseHub => LeavingKeepsExpects(n, id, now);
    case Tick => TickMindsTheLive(n, now);
    case _ =>
  }

  lemma {:induction false} LeavingKeepsExpects(n: Net, id: string, now: nat)
    ensures Detach(n, id, now).expects == n.expects && TunnelState.DeletePeer(n, id, now).expects == n.expects
    ensures CloseAll(n, now).expects == n.expects
  {
    hide R.Sweep, R.Register, R.Remove, RejectAll;
  }

  lemma {:induction false} RunAwaits(w: World, es: seq<Event>, id: string, nonce: string, ttlMs: Option<nat>,
      since: nat)
    requires Awaited(w.net, id, nonce, ttlMs, since) && since <= w.now && Run(w, es).now <= since + TtlOf(ttlMs)
    requires forall i :: 0 <= i < |es| && es[i].ExpectRoute? ==> es[i].id != id
    ensures Awaited(Run(w, es).net, id, nonce, ttlMs, since)
    decreases es
  {
    hide Step, Awaited;
    TimeGoesOn(w, es);
    if es != [] {
      StillAwaited(w, es[0], id, nonce, ttlMs, since);
      RunAwaits(Step(w, es[0]), es[1..], id, nonce, ttlMs, since);
    }
  }

  lemma {:induction false} TimeGoesOn(w: World, es: seq<Event>)
    ensures w.now <= Run(w, es).now
    decreases es
  {
    if es != [] {
      StepGoesOn(w, es[0]);
      TimeGoesOn(Step(w, es[0]), es[1..]);
    }
  }

  lemma {:induction false} StepGoesOn(w: World, e: Event)
    ensures w.now <= Step(w, e).now
  {
    hide OnHello, OnResponse, OnGone, Proxy, RunChain, TimerFires, CloseAll, KeepaliveTick, DeletePeer, PostExpect;
  }

  /** Whoever says the announced nonce within the announced time-to-live is accepted, whatever happened on the way -
      other hellos for the target, refused or accepted, its deletion, ticks, even the end of the hub -, unless the
      target was announced anew. */
  lemma {:induction false} AnnouncedHelloIsAccepted(w: World, announced: Event, es: seq<Event>, hello: Hello)
    requires announced.ExpectRoute? && announced.id == hello.targetId && announced.nonce == hello.nonce
    requires hello.targetId != "" && hello.nonce != ""
    requires forall i :: 0 <= i < |es| && es[i].ExpectRoute? ==> es[i].id != hello.targetId
    requires Run(Step(w, announced), es).now <= w.now + TtlOf(announced.ttlMs)
    ensures var r := Run(Step(w, announced), es); Admits(r.net, hello, r.now)
  {
    hide R.Sweep, R.Register, Run;
    RunAwaits(Step(w, announced), es, hello.targetId, hello.nonce, announced.ttlMs, w.now);
  }
}
