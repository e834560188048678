/** The state of the reverse-tunnel hub as a value, and what each event does to it
    (src/hub/tunnelManager.ts and the routes of src/hub/server.ts). */
module TunnelState {
  import opened Options
  import opened PeerSocket
  import R = PeerRegistry

  const DEFAULT_EXPECT_TTL: nat := 600_000
  const DEFAULT_TIMEOUT: nat := 60_000

  datatype Expect = Expect(nonce: string, ttlMs: Option<nat>, details: string, expiresAt: nat)

  datatype Hello = Hello(targetId: string, nonce: string, details: string)

  /** `pipes` holds every binding ever made, in order; `sockets` names the current one of each target.
      `bound` is the target id each connection last said hello for, `open` the connections whose ready
      state is OPEN, `nextWs` the next unused connection, and `issued` the binding every accepted request
      went to, by request id. */
  datatype Net = Net(store: R.Registry, expects: map<string, Expect>, sockets: map<string, nat>, pipes: seq<Pipe>,
                     bound: map<nat, string>, open: set<nat>, nextWs: nat, issued: seq<nat>)

  function Empty(store: R.Registry): Net {
    Net(store, map[], map[], [], map[], {}, 0, [])
  }

  /** Each entry of the socket map is a binding for its own target. */
  predicate Linked(n: Net) {
    forall t :: t in n.sockets ==> n.sockets[t] < |n.pipes| && n.pipes[n.sockets[t]].target == t
  }

  // ---------- expects ----------

  function ExpectPeer(n: Net, id: string, nonce: string, ttlMs: Option<nat>, details: string, now: nat): Net {
    var ttl := if ttlMs.Some? then ttlMs.value else DEFAULT_EXPECT_TTL;
    n.(expects := n.expects[id := Expect(nonce, ttlMs, details, now + ttl)])
  }

  /** `getExpect` forgets an expired entry ... */
  function ForgetExpired(n: Net, id: string, now: nat): Net {
    if id in n.expects && now > n.expects[id].expiresAt then n.(expects := n.expects - {id}) else n
  }

  /** ... and answers with an unexpired one. */
  function LiveExpect(n: Net, id: string, now: nat): Option<Expect> {
    if id in n.expects && now <= n.expects[id].expiresAt then Some(n.expects[id]) else None
  }

  function ForgetAllExpired(n: Net, now: nat): Net {
    n.(expects := map id | id in n.expects && now <= n.expects[id].expiresAt :: n.expects[id])
  }

  // ---------- connections ----------

  function Current(n: Net, id: string): Option<nat> {
    if id in n.sockets && n.sockets[id] < |n.pipes| then Some(n.sockets[id]) else None
  }

  predicate IsConnected(n: Net, id: string) {
    Current(n, id).Some? && n.pipes[Current(n, id).value].ws in n.open
  }

  function CloseWs(n: Net, ws: nat): Net {
    n.(open := n.open - {ws})
  }

  function RejectPipe(n: Net, k: nat, outcome: Outcome, now: nat): Net
    requires k < |n.pipes|
  {
    n.(pipes := n.pipes[k := RejectAll(n.pipes[k], outcome, now)])
  }

  predicate Admits(n: Net, hello: Hello, now: nat) {
    && hello.targetId != "" && hello.nonce != ""
    && LiveExpect(n, hello.targetId, now).Some?
    && LiveExpect(n, hello.targetId, now).value.nonce == hello.nonce
  }

  /** Closes the connection this target had, unless the hello came in on that very connection. */
  function Supersede(n: Net, ws: nat, id: string, now: nat): Net {
    match Current(n, id)
    case Some(k) =>
      if n.pipes[k].ws != ws then CloseWs(RejectPipe(n, k, Replaced, now), n.pipes[k].ws) else n
    case None => n
  }

  function HelloPeer(hello: Hello): R.Peer {
    R.Peer(hello.targetId, if hello.targetId == "lab" then R.Registered else R.Owned, R.Tunnel,
           Some(hello.nonce), Some(true), hello.details)
  }

  function Bind(n: Net, ws: nat, hello: Hello, awaited: Expect, now: nat): Net {
    var id := hello.targetId;
    var ttl := if awaited.ttlMs.Some? then awaited.ttlMs.value else DEFAULT_EXPECT_TTL;
    n.(store := R.Register(n.store, HelloPeer(hello), now),
       expects := n.expects[id := awaited.(expiresAt := now + ttl)],
       pipes := n.pipes + [Fresh(ws, id)],
       sockets := n.sockets[id := |n.pipes|])
  }

  function OnHello(n: Net, ws: nat, hello: Hello, now: nat): Net {
    if hello.targetId == "" || hello.nonce == "" then CloseWs(n, ws)
    else if Admits(n, hello, now) then
      Bind(Supersede(n, ws, hello.targetId, now), ws, hello, n.expects[hello.targetId], now).(
        bound := n.bound[ws := hello.targetId])
    else CloseWs(ForgetExpired(n, hello.targetId, now), ws)
  }

  /** A response is looked up in the current binding of the id the connection is bound to. */
  function OnResponse(n: Net, ws: nat, callId: nat, body: string, now: nat): Net {
    if ws !in n.bound then n
    else match Current(n, n.bound[ws])
      case Some(k) =>
        if IsPending(n.pipes[k], callId)
        then n.(pipes := n.pipes[k := Settle(n.pipes[k], callId, Replied(body), now)]) else n
      case None => n
  }

  function FlagOffline(s: R.Registry, id: string, now: nat): R.Registry {
    if id in s.records && s.records[id].peer.transport.Tunnel?
    then R.Register(s, s.records[id].peer.(tunnelConnected := Some(false)), now) else s
  }

  function Detach(n: Net, id: string, now: nat): Net {
    match Current(n, id)
    case Some(k) =>
      RejectPipe(n, k, Disconnected, now).(sockets := n.sockets - {id}, store := FlagOffline(n.store, id, now))
    case None => n
  }

  function OnGone(n: Net, ws: nat, now: nat): Net {
    if ws in n.bound then Detach(n, n.bound[ws], now) else n
  }

  // ---------- requests ----------

  function Proxy(n: Net, id: string, timeoutMs: Option<nat>, now: nat): (Net, Option<nat>) {
    if !IsConnected(n, id) then (n, None)
    else
      var k := Current(n, id).value;
      var call := Call(|n.issued|, now, if timeoutMs.Some? then timeoutMs.value else DEFAULT_TIMEOUT);
      (n.(pipes := n.pipes[k := Chain(n.pipes[k], call)], issued := n.issued + [k]), Some(call.id))
  }

  function RunChain(n: Net, k: nat, sendOk: bool, now: nat): Net {
    if k < |n.pipes| && Ready(n.pipes[k]) then n.(pipes := n.pipes[k := RunNext(n.pipes[k], sendOk, now)]) else n
  }

  function TimerFires(n: Net, k: nat, callId: nat, now: nat): Net {
    if k < |n.pipes| && Due(n.pipes[k], callId, now)
    then n.(pipes := n.pipes[k := Settle(n.pipes[k], callId, TimedOut, now)]) else n
  }

  function RejectAt(pipes: seq<Pipe>, ks: set<nat>, outcome: Outcome, now: nat): seq<Pipe> {
    seq(|pipes|, k requires 0 <= k < |pipes| => if k in ks then RejectAll(pipes[k], outcome, now) else pipes[k])
  }

  /** The store's flags keep what they said. */
  function CloseAll(n: Net, now: nat): Net {
    n.(pipes := RejectAt(n.pipes, n.sockets.Values, HubClosing, now),
       open := n.open - (set k | 0 <= k < |n.pipes| && k in n.sockets.Values :: n.pipes[k].ws),
       sockets := map[])
  }

  // ---------- the hub's routes ----------

  function Placeholder(id: string, nonce: string, details: string): R.Peer {
    R.Peer(id, R.Owned, R.Tunnel, Some(nonce), Some(false), details)
  }

  function SweepStore(n: Net, now: nat): Net {
    n.(store := R.Sweep(n.store, now))
  }

  function PostExpect(n: Net, id: string, nonce: string, ttlMs: Option<nat>, details: string, now: nat): Net {
    var m := ExpectPeer(n, id, nonce, ttlMs, details, now);
    SweepStore(m.(store := R.Register(m.store, Placeholder(id, nonce, details), now)), now)
  }

  function DeletePeer(n: Net, id: string, now: nat): Net {
    var m := if IsConnected(n, id) then Detach(n, id, now) else n;
    if id in m.store.records then SweepStore(m.(store := R.Remove(m.store, id)), now) else m
  }

  function PutSticky(n: Net, id: string, now: nat): Net {
    match R.Select(n.store, id)
    case Some(s) => SweepStore(n.(store := s), now)
    case None => n
  }

  /** One turn of the tick's loop: a tunnel peer that is connected, or else has an unexpired expectation,
      gets a heartbeat; asking for the expectation forgets an expired one. */
  function Mind(n: Net, id: string, now: nat): Net {
    if id !in n.store.records || n.store.records[id].peer.transport.Http? then n
    else if IsConnected(n, id) then n.(store := R.Heartbeat(n.store, id, now))
    else if LiveExpect(n, id, now).Some? then n.(store := R.Heartbeat(n.store, id, now))
    else ForgetExpired(n, id, now)
  }

  function MindAll(n: Net, ids: seq<string>, now: nat): Net
    decreases ids
  {
    if ids == [] then n else MindAll(Mind(n, ids[0], now), ids[1..], now)
  }

  function KeepaliveTick(n: Net, now: nat): Net {
    var listed := SweepStore(n, now);
    SweepStore(MindAll(listed, listed.store.order, now), now)
  }

  /** The peers that are connected or expected. */
  function LiveIds(n: Net, now: nat): set<string> {
    set id | id in n.store.records && (IsConnected(n, id) || LiveExpect(n, id, now).Some?)
  }

  // ---------- one run of the hub ----------

  datatype Event =
    | Connect
    | InvalidFrame(ws: nat)
    | HelloFrame(ws: nat, hello: Hello)
    | ResponseFrame(ws: nat, callId: nat, body: string)
    | Closed(ws: nat)
    | Errored(ws: nat)
    | ProxyCall(id: string, timeoutMs: Option<nat>)
    | ChainRuns(k: nat, sendOk: bool)
    | TimerExpires(k: nat, callId: nat)
    | ExpectRoute(id: string, nonce: string, ttlMs: Option<nat>, details: string)
    | RegisterRoute(peer: R.Peer)
    | HeartbeatRoute(id: string)
    | DeleteRoute(id: string)
    | StickyRoute(id: string)
    | ListRoute
    | PersistTimer
    | Tick
    | CloseHub
    | Advance(ms: nat)

  datatype World = World(now: nat, net: Net)

  /** An event that cannot happen in this state - a frame on a connection that was never made, a chain
      that is not ready, a timer that is not due - leaves it as it is. */
  function Step(w: World, e: Event): World {
    var n, now := w.net, w.now;
    match e
    case Connect => w.(net := n.(open := n.open + {n.nextWs}, nextWs := n.nextWs + 1))
    case InvalidFrame(ws) => w.(net := CloseWs(n, ws))
    case HelloFrame(ws, hello) => if ws < n.nextWs then w.(net := OnHello(n, ws, hello, now)) else w
    case ResponseFrame(ws, callId, body) => w.(net := OnResponse(n, ws, callId, body, now))
    case Closed(ws) => w.(net := OnGone(CloseWs(n, ws), ws, now))
    case Errored(ws) => w.(net := OnGone(n, ws, now))
    case ProxyCall(id, timeoutMs) => w.(net := Proxy(n, id, timeoutMs, now).0)
    case ChainRuns(k, sendOk) => w.(net := RunChain(n, k, sendOk, now))
    case TimerExpires(k, callId) => w.(net := TimerFires(n, k, callId, now))
    case ExpectRoute(id, nonce, ttlMs, details) => w.(net := PostExpect(n, id, nonce, ttlMs, details, now))
    case RegisterRoute(peer) => w.(net := SweepStore(n.(store := R.Register(n.store, peer, now)), now))
    case HeartbeatRoute(id) => w.(net := n.(store := R.Heartbeat(n.store, id, now)))
    case DeleteRoute(id) => w.(net := DeletePeer(n, id, now))
    case StickyRoute(id) => w.(net := PutSticky(n, id, now))
    case ListRoute => w.(net := ForgetAllExpired(SweepStore(n, now), now))
    case PersistTimer => w.(net := SweepStore(n, now))
    case Tick => w.(net := KeepaliveTick(n, now))
    case CloseHub => w.(net := CloseAll(n, now))
    case Advance(ms) => w.(now := now + ms)
  }

  function Run(w: World, es: seq<Event>): World
    decreases es
  {
    if es == [] then w else Run(Step(w, es[0]), es[1..])
  }
}
