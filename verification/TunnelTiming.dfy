/** How long a proxied request can take, when timers fire on time. */
module TunnelTiming {
  import opened Options
  import opened PeerSocket
  import opened TunnelState
  import opened TunnelSafety
  import R = PeerRegistry

  /** Time passes only when no promise continuation is ready to run, and never past an armed timer. */
  predicate Punctual(w: World, e: Event) {
    e.Advance? ==>
      forall k :: 0 <= k < |w.net.pipes| ==>
        && !Ready(w.net.pipes[k])
        && forall i :: 0 <= i < |w.net.pipes[k].pending| ==> w.now + e.ms <= w.net.pipes[k].pending[i].deadline
  }

  predicate PunctualRun(w: World, es: seq<Event>)
    decreases es
  {
    es == [] || (Punctual(w, es[0]) && PunctualRun(Step(w, es[0]), es[1..]))
  }

  /** Calls are dated in the order they were made. */
  predicate Dated(p: Pipe, now: nat) {
    && (forall i, j :: 0 <= i <= j < |p.calls| ==> p.calls[i].at <= p.calls[j].at)
    && (forall i :: 0 <= i < |p.calls| ==> p.calls[i].at <= now)
  }

  predicate Timely(p: Pipe, now: nat) {
    Orderly(p) && OnTime(p, now) && Dated(p, now)
  }

  predicate AllTimely(pipes: seq<Pipe>, now: nat) {
    forall k :: 0 <= k < |pipes| ==> Timely(pipes[k], now)
  }

  lemma {:induction false} RejectTimely(p: Pipe, outcome: Outcome, now: nat)
    requires Timely(p, now) && !outcome.SendFailed?
    ensures Timely(RejectAll(p, outcome, now), now)
  {
    RejectOnTime(p, outcome, now);
  }

  lemma {:induction false} SettleTimely(p: Pipe, id: nat, outcome: Outcome, now: nat)
    requires Timely(p, now) && IsPending(p, id) && !outcome.SendFailed?
    ensures Timely(Settle(p, id, outcome, now), now)
  {
    SettleIsRejectAll(p, id, outcome, now);
    RejectTimely(p, outcome, now);
  }

  lemma {:induction false} DetachTimely(n: Net, id: string, now: nat)
    requires AllTimely(n.pipes, now)
    ensures AllTimely(Detach(n, id, now).pipes, now)
  {
    if Current(n, id).Some? {
      RejectTimely(n.pipes[n.sockets[id]], Disconnected, now);
    }
  }

  lemma {:induction false} FreshTimely(ws: nat, id: string, now: nat)
    ensures Timely(Fresh(ws, id), now)
  {
    FreshIsOrderly(ws, id);
  }

  lemma {:induction false} HelloTimely(n: Net, ws: nat, hello: Hello, now: nat)
    requires AllTimely(n.pipes, now)
    ensures AllTimely(OnHello(n, ws, hello, now).pipes, now)
  {
    hide Timely, RejectAll, R.Register, Fresh;
    var id := hello.targetId;
    FreshTimely(ws, id, now);
    if Current(n, id).Some? {
      RejectTimely(n.pipes[n.sockets[id]], Replaced, now);
    }
    if Admits(n, hello, now) {
      var m := Supersede(n, ws, id, now);
      assert AllTimely(m.pipes, now);
      assert OnHello(n, ws, hello, now).pipes == m.pipes + [Fresh(ws, id)];
    }
  }

  lemma {:induction false} ProxyTimely(n: Net, id: string, timeoutMs: Option<nat>, now: nat)
    requires Inv(n) && AllTimely(n.pipes, now)
    ensures AllTimely(Proxy(n, id, timeoutMs, now).0.pipes, now)
  {
    hide Timely, Chain, Orderly;
    if IsConnected(n, id) {
      var call := Call(|n.issued|, now, if timeoutMs.Some? then timeoutMs.value else DEFAULT_TIMEOUT);
      TimelyChain(n.pipes[n.sockets[id]], call);
    }
  }

  lemma {:induction false} TimelyChain(p: Pipe, call: Call)
    requires Timely(p, call.at) && forall i :: 0 <= i < |p.calls| ==> p.calls[i].id != call.id
    ensures Timely(Chain(p, call), call.at)
  {
    ChainOnTime(p, call);
  }

  lemma {:induction false} WaitTimely(w: World, ms: nat)
    requires AllTimely(w.net.pipes, w.now) && Punctual(w, Advance(ms))
    ensures AllTimely(w.net.pipes, w.now + ms)
  {
    forall k | 0 <= k < |w.net.pipes|
      ensures Timely(w.net.pipes[k], w.now + ms)
    {
      ReadyWhenIdle(w.net.pipes[k]);
    }
  }

  lemma {:induction false} CloseAllTimely(n: Net, now: nat)
    requires AllTimely(n.pipes, now)
    ensures AllTimely(CloseAll(n, now).pipes, now)
  {
    forall k | 0 <= k < |n.pipes|
      ensures Timely(CloseAll(n, now).pipes[k], now)
    {
      RejectTimely(n.pipes[k], HubClosing, now);
    }
  }

  lemma {:induction false} ResponseTimely(n: Net, ws: nat, callId: nat, body: string, now: nat)
    requires AllTimely(n.pipes, now)
    ensures AllTimely(OnResponse(n, ws, callId, body, now).pipes, now)
  {
    if ws in n.bound && Current(n, n.bound[ws]).Some? && IsPending(n.pipes[n.sockets[n.bound[ws]]], callId) {
      SettleTimely(n.pipes[n.sockets[n.bound[ws]]], callId, Replied(body), now);
    }
  }

  lemma {:induction false} ChainTimely(n: Net, k: nat, sendOk: bool, now: nat)
    requires AllTimely(n.pipes, now)
    ensures AllTimely(RunChain(n, k, sendOk, now).pipes, now)
  {
    if k < |n.pipes| && Ready(n.pipes[k]) {
      RunOnTime(n.pipes[k], sendOk, now);
    }
  }

  lemma {:induction false} TimerTimely(n: Net, k: nat, callId: nat, now: nat)
    requires AllTimely(n.pipes, now)
    ensures AllTimely(TimerFires(n, k, callId, now).pipes, now)
  {
    if k < |n.pipes| && Due(n.pipes[k], callId, now) {
      SettleTimely(n.pipes[k], callId, TimedOut, now);
    }
  }

  lemma {:induction false} StepTimely(w: World, e: Event)
    requires Inv(w.net) && AllTimely(w.net.pipes, w.now) && Punctual(w, e)
    ensures AllTimely(Step(w, e).net.pipes, Step(w, e).now)
  {
    hide Timely, OnHello, OnResponse, Detach, Proxy, RunChain, TimerFires, CloseAll, KeepaliveTick;
    hide R.Sweep, R.Register, R.Remove, R.Heartbeat, R.Select;
    var n, now := w.net, w.now;
    match e
    case HelloFrame(ws, hello) => HelloTimely(n, ws, hello, now);
    case ResponseFrame(ws, callId, body) => ResponseTimely(n, ws, callId, body, now);
    case Closed(ws) => if ws in n.bound { DetachTimely(CloseWs(n, ws), n.bound[ws], now); }
    case Errored(ws) => if ws in n.bound { DetachTimely(n, n.bound[ws], now); }
    case ProxyCall(id, timeoutMs) => ProxyTimely(n, id, timeoutMs, now);
    case ChainRuns(k, sendOk) => ChainTimely(n, k, sendOk, now);
    case TimerExpires(k, callId) => TimerTimely(n, k, callId, now);
    case DeleteRoute(id) => DetachTimely(n, id, now);
    case CloseHub => CloseAllTimely(n, now);
    case Tick => TickMindsTheLive(n, now);
    case Advance(ms) => WaitTimely(w, ms);
    case _ =>
  }

  lemma {:induction false} RunTimely(w: World, es: seq<Event>)
    requires Inv(w.net) && AllTimely(w.net.pipes, w.now) && PunctualRun(w, es)
    ensures Inv(Run(w, es).net) && AllTimely(Run(w, es).net.pipes, Run(w, es).now)
    decreases es
  {
    if es != [] {
      StepKeeps(w, es[0]);
      StepTimely(w, es[0]);
      RunTimely(Step(w, es[0]), es[1..]);
    }
  }

  lemma {:induction false} LaterSettlesLater(calls: seq<Call>, i: nat, k: nat)
    requires i <= k < |calls|
    ensures SettleBy(calls, i) <= SettleBy(calls, k)
  {
    if i < k {
      LaterSettlesLater(calls, i, k - 1);
    }
  }

  /** The k-th request of a binding is settled no later than its own timeout after the later of its call
      and the bound of the request before it: at every moment of every punctual run it was settled by
      then or that moment has not come yet - whatever was detached, replaced or closed on the way. So it
      waits at most the sum of the timeouts up to its own. */
  lemma {:induction false} EveryRequestSettlesInTime(store: R.Registry, start: nat, es: seq<Event>, b: nat, k: nat)
    requires PunctualRun(World(start, Empty(store)), es)
    requires b < |Run(World(start, Empty(store)), es).net.pipes|
    requires k < |Run(World(start, Empty(store)), es).net.pipes[b].calls|
    ensures var w := Run(World(start, Empty(store)), es);
            var p := w.net.pipes[b];
            && SettleBy(p.calls, k) <= p.calls[k].at + Timeouts(p.calls, 0, k)
            && (if k < |p.log| then p.log[k].id == p.calls[k].id && p.log[k].at <= SettleBy(p.calls, k)
                else w.now <= SettleBy(p.calls, k))
  {
    var w0 := World(start, Empty(store));
    RunTimely(w0, es);
    var w := Run(w0, es);
    var p := w.net.pipes[b];
    assert Timely(p, w.now);
    WaitIsBounded(p.calls, 0, k);
    if |p.log| <= k {
      LaterSettlesLater(p.calls, |p.log|, k);
    }
  }
}
