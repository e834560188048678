/** What runs of the hub keep of its peer store, and whom they forget. */
module HubStore {
  import opened Options
  import opened PeerSocket
  import opened TunnelState
  import opened TunnelSafety
  import R = PeerRegistry

  // ---------- the selection ----------

  /** The body schemas refuse an empty id; a hello without a target is refused by the tunnel itself. */
  predicate NamedEvent(e: Event) {
    (e.ExpectRoute? ==> e.id != "") && (e.RegisterRoute? ==> e.peer.id != "")
  }

  ghost predicate SoundStore(s: R.Registry) {
    R.Sound(s) && "" !in s.records
  }

  lemma {:induction false} OpKeepsSound(s: R.Registry, op: R.Op)
    requires SoundStore(s) && R.Named(op)
    ensures SoundStore(R.Apply(s, op))
  {
    R.ApplyKeepsSound(s, op);
  }

  lemma {:induction false} RegisterSweepSound(s: R.Registry, peer: R.Peer, now: int)
    requires SoundStore(s) && peer.id != ""
    ensures SoundStore(R.Register(s, peer, now)) && SoundStore(R.Sweep(R.Register(s, peer, now), now))
  {
    hide SoundStore;
    OpKeepsSound(s, R.DoRegister(peer, now));
    OpKeepsSound(R.Register(s, peer, now), R.DoSweep(now));
  }

  lemma {:induction false} OfflineSound(s: R.Registry, id: string, now: nat)
    requires SoundStore(s)
    ensures SoundStore(FlagOffline(s, id, now))
  {
    hide R.Register;
    if id in s.records {
      RegisterSweepSound(s, s.records[id].peer.(tunnelConnected := Some(false)), now);
    }
  }

  lemma {:induction false} DetachSound(n: Net, id: string, now: nat)
    requires SoundStore(n.store)
    ensures SoundStore(Detach(n, id, now).store)
  {
    hide SoundStore, FlagOffline, RejectAll;
    OfflineSound(n.store, id, now);
  }

  lemma {:induction false} DeleteSound(n: Net, id: string, now: nat)
    requires SoundStore(n.store)
    ensures SoundStore(TunnelState.DeletePeer(n, id, now).store)
  {
    hide SoundStore, Detach;
    DetachSound(n, id, now);
    var m := if IsConnected(n, id) then Detach(n, id, now) else n;
    OpKeepsSound(m.store, R.DoRemove(id, now));
    OpKeepsSound(R.Remove(m.store, id), R.DoSweep(now));
  }

  lemma {:induction false} StickySound(n: Net, id: string, now: nat)
    requires SoundStore(n.store)
    ensures SoundStore(TunnelState.PutSticky(n, id, now).store)
  {
    hide SoundStore;
    OpKeepsSound(n.store, R.DoSelect(id, now));
    if R.Select(n.store, id).Some? {
      OpKeepsSound(R.Select(n.store, id).value, R.DoSweep(now));
    }
  }

  lemma {:induction false} HelloSound(n: Net, ws: nat, hello: Hello, now: nat)
    requires SoundStore(n.store)
    ensures SoundStore(OnHello(n, ws, hello, now).store)
  {
    hide SoundStore, RejectAll;
    if hello.targetId != "" {
      RegisterSweepSound(n.store, HelloPeer(hello), now);
    }
  }

  lemma {:induction false} TickSound(n: Net, now: nat)
    requires SoundStore(n.store)
    ensures SoundStore(KeepaliveTick(n, now).store)
  {
    hide SoundStore, KeepaliveTick, OnlyMinded, LiveIds, R.TickStore;
    TickMindsTheLive(n, now);
    OpKeepsSound(n.store, R.Tick(now, LiveIds(n, now)));
  }

  lemma {:induction false} StepKeepsSoundStore(w: World, e: Event)
    requires SoundStore(w.net.store) && NamedEvent(e)
    ensures SoundStore(Step(w, e).net.store)
  {
    hide SoundStore, OnHello, OnResponse, Detach, Proxy, RunChain, TimerFires, CloseAll, KeepaliveTick, DeletePeer;
    hide PutSticky, R.Sweep, R.Register, R.Heartbeat;
    var n, now := w.net, w.now;
    match e
    case HelloFrame(ws, hello) => HelloSound(n, ws, hello, now);
    case ResponseFrame(ws, callId, body) => QuietStore(n, ws, callId, body, now);
    case Closed(ws) => if ws in n.bound { DetachSound(CloseWs(n, ws), n.bound[ws], now); }
    case Errored(ws) => if ws in n.bound { DetachSound(n, n.bound[ws], now); }
    case ProxyCall(id, timeoutMs) => QuietProxy(n, id, timeoutMs, now);
    case ChainRuns(k, sendOk) => QuietChain(n, k, sendOk, now);
    case TimerExpires(k, callId) => QuietTimer(n, k, callId, now);
    case ExpectRoute(id, nonce, ttlMs, details) => RegisterSweepSound(n.store, Placeholder(id, nonce, details), now);
    case RegisterRoute(peer) => RegisterSweepSound(n.store, peer, now);
    case HeartbeatRoute(id) => OpKeepsSound(n.store, R.DoHeartbeat(id, now));
    case DeleteRoute(id) => DeleteSound(n, id, now);
    case StickyRoute(id) => StickySound(n, id, now);
    case ListRoute => OpKeepsSound(n.store, R.DoSweep(now));
    case PersistTimer => OpKeepsSound(n.store, R.DoSweep(now));
    case Tick => TickSound(n, now);
    case CloseHub => QuietClose(n, now);
    case _ =>
  }

  lemma {:induction false} QuietStore(n: Net, ws: nat, callId: nat, body: string, now: nat)
    ensures OnResponse(n, ws, callId, body, now).store == n.store
  {
  }

  lemma {:induction false} QuietProxy(n: Net, id: string, timeoutMs: Option<nat>, now: nat)
    ensures Proxy(n, id, timeoutMs, now).0.store == n.store
  {
  }

  lemma {:induction false} QuietChain(n: Net, k: nat, sendOk: bool, now: nat)
    ensures RunChain(n, k, sendOk, now).store == n.store
  {
  }

  lemma {:induction false} QuietTimer(n: Net, k: nat, callId: nat, now: nat)
    ensures TimerFires(n, k, callId, now).store == n.store
  {
  }

  lemma {:induction false} QuietClose(n: Net, now: nat)
    ensures CloseAll(n, now).store == n.store
  {
  }

  /** Over every run of the hub with named peers nothing is selected exactly when nothing is registered, and a
      selection names a registered peer. */
  lemma {:induction false} RunKeepsSoundStore(w: World, es: seq<Event>)
    requires SoundStore(w.net.store) && forall i :: 0 <= i < |es| ==> NamedEvent(es[i])
    ensures SoundStore(Run(w, es).net.store)
    decreases es
  {
    hide SoundStore, Step;
    if es != [] {
      StepKeepsSoundStore(w, es[0]);
      RunKeepsSoundStore(Step(w, es[0]), es[1..]);
    }
  }

  // ---------- silent peers ----------

  /** Nothing that happens in `e` is heard from `id`: no hello, expectation, registration or heartbeat for it, no
      end of its tunnel - which registers it once more -, and no tick that finds it connected or expected. */
  predicate Silent(w: World, e: Event, id: string) {
    match e
    case HelloFrame(ws, hello) => !(ws < w.net.nextWs && hello.targetId == id && Admits(w.net, hello, w.now))
    case Closed(ws) => !(ws in w.net.bound && w.net.bound[ws] == id && id in w.net.sockets)
    case Errored(ws) => !(ws in w.net.bound && w.net.bound[ws] == id && id in w.net.sockets)
    case ExpectRoute(other, _, _, _) => other != id
    case RegisterRoute(peer) => peer.id != id
    case HeartbeatRoute(other) => other != id
    case Tick => !IsConnected(w.net, id) && LiveExpect(w.net, id, w.now).None?
    case _ => true
  }

  predicate SilentRun(w: World, es: seq<Event>, id: string)
    decreases es
  {
    es == [] || (Silent(w, es[0], id) && SilentRun(Step(w, es[0]), es[1..], id))
  }

  /** The record of `id` is gone or as it was. */
  ghost predicate NotRenewed(s: R.Registry, t: R.Registry, id: string) {
    R.WellKeyed(t) && t.ttl == s.ttl && (id in t.records ==> id in s.records && t.records[id] == s.records[id])
  }

  lemma {:induction false} OpNotRenewed(s: R.Registry, op: R.Op, id: string)
    requires R.WellKeyed(s) && R.Leaves(op, id)
    ensures NotRenewed(s, R.Apply(s, op), id)
  {
    R.SilentStep(s, op, id);
  }

  lemma {:induction false} RegisterSweepNotRenewed(s: R.Registry, peer: R.Peer, id: string, now: int)
    requires R.WellKeyed(s) && peer.id != id
    ensures NotRenewed(s, R.Register(s, peer, now), id) && NotRenewed(s, R.Sweep(R.Register(s, peer, now), now), id)
  {
    hide R.WellKeyed;
    OpNotRenewed(s, R.DoRegister(peer, now), id);
    OpNotRenewed(R.Register(s, peer, now), R.DoSweep(now), id);
  }

  lemma {:induction false} DetachNotRenewed(n: Net, gone: string, id: string, now: nat)
    requires R.WellKeyed(n.store) && (gone == id ==> id !in n.sockets)
    ensures NotRenewed(n.store, Detach(n, gone, now).store, id)
  {
    hide RejectAll, R.Register;
    if gone in n.sockets && gone in n.store.records {
      RegisterSweepNotRenewed(n.store, n.store.records[gone].peer.(tunnelConnected := Some(false)), id, now);
    }
  }

  /** Deleting a connected peer registers it once more and then removes it. */
  lemma {:induction false} DeleteNotRenewed(n: Net, gone: string, id: string, now: nat)
    requires R.WellKeyed(n.store)
    ensures NotRenewed(n.store, TunnelState.DeletePeer(n, gone, now).store, id)
  {
    var m := if IsConnected(n, gone) then Detach(n, gone, now) else n;
    if gone != id {
      hide R.WellKeyed, Detach;
      DetachNotRenewed(n, gone, id, now);
      OpNotRenewed(m.store, R.DoRemove(gone, now), id);
      OpNotRenewed(R.Remove(m.store, gone), R.DoSweep(now), id);
    } else {
      DeleteRemoves(n, id, now);
    }
  }

  lemma {:induction false} DeleteRemoves(n: Net, id: string, now: nat)
    requires R.WellKeyed(n.store)
    ensures var t := TunnelState.DeletePeer(n, id, now).store;
      R.WellKeyed(t) && t.ttl == n.store.ttl && id !in t.records
  {
    hide R.WellKeyed, R.Sweep, R.Remove, Detach;
    DetachKeepsKeys(n, id, now);
    var m := if IsConnected(n, id) then Detach(n, id, now) else n;
    RemoveSweepDrops(m.store, id, now);
  }

  lemma {:induction false} DetachKeepsKeys(n: Net, id: string, now: nat)
    requires R.WellKeyed(n.store)
    ensures R.WellKeyed(Detach(n, id, now).store) && Detach(n, id, now).store.ttl == n.store.ttl
  {
    hide RejectAll;
    if id in n.store.records {
      R.RegisterKeepsKeys(n.store, n.store.records[id].peer.(tunnelConnected := Some(false)), now);
    }
  }

  lemma {:induction false} RemoveSweepDrops(s: R.Registry, id: string, now: int)
    requires R.WellKeyed(s)
    ensures var t := R.Sweep(R.Remove(s, id), now); R.WellKeyed(t) && t.ttl == s.ttl && id !in t.records
  {
    R.RetainKeeps(s.order, s.records.Keys - {id});
    R.SweepFacts(R.Remove(s, id), now);
  }

  lemma {:induction false} StickyNotRenewed(n: Net, sticky: string, id: string, now: nat)
    requires R.WellKeyed(n.store)
    ensures NotRenewed(n.store, TunnelState.PutSticky(n, sticky, now).store, id)
  {
    hide R.WellKeyed;
    OpNotRenewed(n.store, R.DoSelect(sticky, now), id);
    if R.Select(n.store, sticky).Some? {
      OpNotRenewed(R.Select(n.store, sticky).value, R.DoSweep(now), id);
    }
  }

  lemma {:induction false} HelloNotRenewed(n: Net, ws: nat, hello: Hello, id: string, now: nat)
    requires R.WellKeyed(n.store) && !(hello.targetId == id && Admits(n, hello, now))
    ensures NotRenewed(n.store, OnHello(n, ws, hello, now).store, id)
  {
    hide R.WellKeyed, RejectAll, R.Register;
    if hello.targetId != id {
      RegisterSweepNotRenewed(n.store, HelloPeer(hello), id, now);
    }
  }

  lemma {:induction false} TickNotRenewed(n: Net, id: string, now: nat)
    requires R.WellKeyed(n.store) && !IsConnected(n, id) && LiveExpect(n, id, now).None?
    ensures NotRenewed(n.store, KeepaliveTick(n, now).store, id)
  {
    hide R.WellKeyed, NotRenewed, KeepaliveTick, OnlyMinded, R.TickStore;
    TickMindsTheLive(n, now);
    OpNotRenewed(n.store, R.Tick(now, LiveIds(n, now)), id);
  }

  lemma {:induction false} StepNotRenewed(w: World, e: Event, id: string)
    requires R.WellKeyed(w.net.store) && Silent(w, e, id)
    ensures NotRenewed(w.net.store, Step(w, e).net.store, id)
  {
    hide OnHello, OnResponse, Detach, Proxy, RunChain, TimerFires, CloseAll, KeepaliveTick, DeletePeer, Admits;
    hide R.WellKeyed, PutSticky, R.Sweep, R.Register, R.Heartbeat, LiveExpect;
    var n, now := w.net, w.now;
    match e
    case HelloFrame(ws, hello) => if ws < n.nextWs { HelloNotRenewed(n, ws, hello, id, now); }
    case ResponseFrame(ws, callId, body) => QuietStore(n, ws, callId, body, now);
    case Closed(ws) => if ws in n.bound { DetachNotRenewed(CloseWs(n, ws), n.bound[ws], id, now); }
    case Errored(ws) => if ws in n.bound { DetachNotRenewed(n, n.bound[ws], id, now); }
    case ProxyCall(other, timeoutMs) => QuietProxy(n, other, timeoutMs, now);
    case ChainRuns(k, sendOk) => QuietChain(n, k, sendOk, now);
    case TimerExpires(k, callId) => QuietTimer(n, k, callId, now);
    case ExpectRoute(other, nonce, ttlMs, details) =>
      RegisterSweepNotRenewed(n.store, Placeholder(other, nonce, details), id, now);
    case RegisterRoute(peer) => RegisterSweepNotRenewed(n.store, peer, id, now);
    case HeartbeatRoute(other) => OpNotRenewed(n.store, R.DoHeartbeat(other, now), id);
    case DeleteRoute(other) => DeleteNotRenewed(n, other, id, now);
    case StickyRoute(sticky) => StickyNotRenewed(n, sticky, id, now);
    case ListRoute => OpNotRenewed(n.store, R.DoSweep(now), id);
    case PersistTimer => OpNotRenewed(n.store, R.DoSweep(now), id);
    case Tick => TickNotRenewed(n, id, now);
    case CloseHub => QuietClose(n, now);
    case _ =>
  }

  lemma {:induction false} RunNotRenewed(w: World, es: seq<Event>, id: string)
    requires R.WellKeyed(w.net.store) && SilentRun(w, es, id)
    ensures NotRenewed(w.net.store, Run(w, es).net.store, id)
    decreases es
  {
    hide R.WellKeyed, Step, Silent;
    if es != [] {
      StepNotRenewed(w, es[0], id);
      RunNotRenewed(Step(w, es[0]), es[1..], id);
    }
  }

  /** Whoever has been silent for longer than the time-to-live is in no later list, whatever else the hub did. */
  lemma {:induction false} SilentPeerLeavesTheHub(w: World, es: seq<Event>, id: string)
    requires R.WellKeyed(w.net.store) && SilentRun(w, es, id)
    requires id in w.net.store.records
      ==> Run(w, es).now - w.net.store.records[id].lastHeartbeatAt > w.net.store.ttl
    ensures var listed := Step(Run(w, es), ListRoute).net.store; id !in listed.records && id !in listed.order
  {
    RunNotRenewed(w, es, id);
    R.SweepFacts(Run(w, es).net.store, Run(w, es).now);
  }
}
