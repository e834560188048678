/** Which peers outlive the hub's sweeps: the store's time-to-live, seen from whole runs of the hub. */
module HubKeepalive {
  import opened Options
  import opened PeerSocket
  import opened TunnelState
  import opened TunnelSafety
  import HubStore
  import R = PeerRegistry

  /** A tunnel peer that was heard from at or after the last tick. */
  ghost predicate Fresh(s: R.Registry, id: string, lastTick: int) {
    R.WellKeyed(s) && id in s.records && s.records[id].peer.transport.Tunnel? &&
        lastTick <= s.records[id].lastHeartbeatAt
  }

  /** The hub minds `id`: the last tick is never more than the time-to-live ago, the peer is connected or
      expected at each one, and nobody deletes it or re-registers it as an HTTP peer. */
  predicate Minded(w: World, es: seq<Event>, id: string, lastTick: int)
    decreases es
  {
    es == [] ||
    var e := es[0];
    && lastTick <= w.now <= lastTick + w.net.store.ttl
    && (e.Tick? ==> IsConnected(w.net, id) || LiveExpect(w.net, id, w.now).Some?)
    && (e.DeleteRoute? ==> e.id != id)
    && (e.RegisterRoute? && e.peer.id == id ==> e.peer.transport.Tunnel?)
    && Minded(Step(w, e), es[1..], id, if e.Tick? then w.now else lastTick)
  }

  lemma {:induction false} OpKeepsFresh(s: R.Registry, op: R.Op, id: string, lastTick: int)
    requires Fresh(s, id, lastTick) && !op.Tick? && lastTick <= op.now <= lastTick + s.ttl
    requires op.DoRegister? && op.peer.id == id ==> op.peer.transport.Tunnel?
    requires op.DoRemove? ==> op.id != id
    ensures Fresh(R.Apply(s, op), id, lastTick) && R.Apply(s, op).ttl == s.ttl
  {
    assert [op][1..] == [];
    assert R.KeptAlive([op], id, lastTick, s.ttl);
    R.KeptAliveStep(s, op, id, lastTick);
  }

  lemma {:induction false} RegisterSweepFresh(s: R.Registry, peer: R.Peer, id: string, lastTick: int, now: nat)
    requires Fresh(s, id, lastTick) && lastTick <= now <= lastTick + s.ttl
    requires peer.id == id ==> peer.transport.Tunnel?
    ensures Fresh(R.Register(s, peer, now), id, lastTick) && R.Register(s, peer, now).ttl == s.ttl
    ensures Fresh(R.Sweep(R.Register(s, peer, now), now), id, lastTick)
    ensures R.Sweep(R.Register(s, peer, now), now).ttl == s.ttl
  {
    hide R.WellKeyed;
    OpKeepsFresh(s, R.DoRegister(peer, now), id, lastTick);
    OpKeepsFresh(R.Register(s, peer, now), R.DoSweep(now), id, lastTick);
  }

  lemma {:induction false} DetachFresh(n: Net, gone: string, id: string, lastTick: int, now: nat)
    requires Fresh(n.store, id, lastTick) && lastTick <= now <= lastTick + n.store.ttl
    ensures Fresh(Detach(n, gone, now).store, id, lastTick) && Detach(n, gone, now).store.ttl == n.store.ttl
  {
    if Current(n, gone).Some? && gone in n.store.records && n.store.records[gone].peer.transport.Tunnel? {
      RegisterSweepFresh(n.store, n.store.records[gone].peer.(tunnelConnected := Some(false)), id, lastTick, now);
    }
  }

  lemma {:induction false} DeleteFresh(n: Net, gone: string, id: string, lastTick: int, now: nat)
    requires Fresh(n.store, id, lastTick) && lastTick <= now <= lastTick + n.store.ttl && gone != id
    ensures Fresh(DeletePeer(n, gone, now).store, id, lastTick) && DeletePeer(n, gone, now).store.ttl == n.store.ttl
  {
    hide R.WellKeyed;
    DetachFresh(n, gone, id, lastTick, now);
    var m := if IsConnected(n, gone) then Detach(n, gone, now) else n;
    OpKeepsFresh(m.store, R.DoRemove(gone, now), id, lastTick);
    OpKeepsFresh(R.Remove(m.store, gone), R.DoSweep(now), id, lastTick);
  }

  lemma {:induction false} StickyFresh(n: Net, sticky: string, id: string, lastTick: int, now: nat)
    requires Fresh(n.store, id, lastTick) && lastTick <= now <= lastTick + n.store.ttl
    ensures Fresh(PutSticky(n, sticky, now).store, id, lastTick) && PutSticky(n, sticky, now).store.ttl == n.store.ttl
  {
    hide R.WellKeyed;
    OpKeepsFresh(n.store, R.DoSelect(sticky, now), id, lastTick);
    if sticky in n.store.records {
      OpKeepsFresh(R.Select(n.store, sticky).value, R.DoSweep(now), id, lastTick);
    }
  }

  lemma {:induction false} TickFresh(n: Net, id: string, lastTick: int, now: nat)
    requires Fresh(n.store, id, lastTick) && lastTick <= now <= lastTick + n.store.ttl
    requires IsConnected(n, id) || LiveExpect(n, id, now).Some?
    ensures Fresh(KeepaliveTick(n, now).store, id, now) && KeepaliveTick(n, now).store.ttl == n.store.ttl
  {
    TickMindsTheLive(n, now);
    R.TickFacts(n.store, LiveIds(n, now), now);
  }

  lemma {:induction false} HelloFresh(n: Net, ws: nat, hello: Hello, id: string, lastTick: int, now: nat)
    requires Fresh(n.store, id, lastTick) && lastTick <= now <= lastTick + n.store.ttl
    ensures Fresh(OnHello(n, ws, hello, now).store, id, lastTick) && OnHello(n, ws, hello, now).store.ttl == n.store.ttl
  {
    hide Fresh, R.Register, RejectAll, LiveExpect;
    RegisterSweepFresh(n.store, HelloPeer(hello), id, lastTick, now);
    assert Supersede(n, ws, hello.targetId, now).store == n.store;
  }

  lemma {:induction false} StepFresh(w: World, e: Event, id: string, lastTick: int)
    requires Fresh(w.net.store, id, lastTick) && Minded(w, [e], id, lastTick)
    ensures Fresh(Step(w, e).net.store, id, if e.Tick? then w.now else lastTick)
    ensures Step(w, e).net.store.ttl == w.net.store.ttl
  {
    hide R.WellKeyed, R.Sweep, R.Register, R.Remove, R.Heartbeat, R.Select, Detach, KeepaliveTick, LiveExpect;
    hide DeletePeer, PutSticky, OnHello, OnResponse, Proxy, RunChain, TimerFires, CloseAll;
    var n, now := w.net, w.now;
    match e
    case HelloFrame(ws, hello) => HelloFresh(n, ws, hello, id, lastTick, now);
    case ResponseFrame(ws, callId, body) => HubStore.QuietStore(n, ws, callId, body, now);
    case ProxyCall(target, timeoutMs) => HubStore.QuietProxy(n, target, timeoutMs, now);
    case ChainRuns(k, sendOk) => HubStore.QuietChain(n, k, sendOk, now);
    case TimerExpires(k, callId) => HubStore.QuietTimer(n, k, callId, now);
    case CloseHub => HubStore.QuietClose(n, now);
    case Closed(ws) => if ws in n.bound { DetachFresh(CloseWs(n, ws), n.bound[ws], id, lastTick, now); }
    case Errored(ws) => if ws in n.bound { DetachFresh(n, n.bound[ws], id, lastTick, now); }
    case ExpectRoute(other, nonce, ttlMs, details) =>
      RegisterSweepFresh(n.store, Placeholder(other, nonce, details), id, lastTick, now);
    case RegisterRoute(peer) => RegisterSweepFresh(n.store, peer, id, lastTick, now);
    case HeartbeatRoute(other) => OpKeepsFresh(n.store, R.DoHeartbeat(other, now), id, lastTick);
    case DeleteRoute(other) => DeleteFresh(n, other, id, lastTick, now);
    case StickyRoute(other) => StickyFresh(n, other, id, lastTick, now);
    case ListRoute => OpKeepsFresh(n.store, R.DoSweep(now), id, lastTick);
    case PersistTimer => OpKeepsFresh(n.store, R.DoSweep(now), id, lastTick);
    case Tick => TickFresh(n, id, lastTick, now);
    case _ =>
  }

  /** With ticks at most the time-to-live apart, a tunnel peer that is connected or expected at every
      tick is in the store after every run of the hub, whichever routes and timers swept on the way. */
  lemma {:induction false} MindedPeerSurvives(w: World, es: seq<Event>, id: string, lastTick: int)
    requires Fresh(w.net.store, id, lastTick) && Minded(w, es, id, lastTick)
    ensures id in Run(w, es).net.store.records && id in Run(w, es).net.store.order
    decreases es
  {
    if es != [] {
      assert Minded(w, [es[0]], id, lastTick) by {
        assert [es[0]][1..] == [];
      }
      StepFresh(w, es[0], id, lastTick);
      MindedPeerSurvives(Step(w, es[0]), es[1..], id, if es[0].Tick? then w.now else lastTick);
    }
  }
}
