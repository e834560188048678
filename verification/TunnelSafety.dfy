/** What every run of the reverse-tunnel hub keeps. */
module TunnelSafety {
  import opened Options
  import opened PeerSocket
  import opened TunnelState
  import R = PeerRegistry

  /** Every binding handles its requests in order, request identities are never shared, each entry of
      the socket map is a binding for that target, and no accepted request is ever lost. */
  predicate Inv(n: Net) {
    && (forall k :: 0 <= k < |n.pipes| ==> Orderly(n.pipes[k]) && Owns(n.issued, k, n.pipes[k].calls))
    && Linked(n)
    && (forall id :: 0 <= id < |n.issued| ==> n.issued[id] < |n.pipes| && HasCall(n.pipes[n.issued[id]].calls, id))
  }

  /** The requests `calls` were all issued to binding `k`. */
  predicate Owns(issued: seq<nat>, k: nat, calls: seq<Call>) {
    forall i :: 0 <= i < |calls| ==> calls[i].id < |issued| && issued[calls[i].id] == k
  }

  /** Replacing one pipe by a later state of itself keeps the invariant. */
  lemma {:induction false} PipeStep(n: Net, k: nat, p: Pipe)
    requires Inv(n) && k < |n.pipes|
    requires Orderly(p) && p.calls == n.pipes[k].calls && p.target == n.pipes[k].target
    ensures Inv(n.(pipes := n.pipes[k := p]))
  {
    hide Orderly;
  }

  lemma {:induction false} RejectPipeKeeps(n: Net, k: nat, outcome: Outcome, now: nat)
    requires Inv(n) && k < |n.pipes| && !outcome.SendFailed?
    ensures Inv(RejectPipe(n, k, outcome, now))
  {
    hide Orderly;
    RejectKeepsOrder(n.pipes[k], outcome, now);
    PipeStep(n, k, RejectAll(n.pipes[k], outcome, now));
  }

  lemma {:induction false} SettleKeeps(n: Net, k: nat, id: nat, outcome: Outcome, now: nat)
    requires Inv(n) && k < |n.pipes| && IsPending(n.pipes[k], id) && !outcome.SendFailed?
    ensures Inv(n.(pipes := n.pipes[k := Settle(n.pipes[k], id, outcome, now)]))
  {
    hide Orderly;
    SettleIsRejectAll(n.pipes[k], id, outcome, now);
    RejectPipeKeeps(n, k, outcome, now);
  }

  lemma {:induction false} SupersedeKeeps(n: Net, ws: nat, id: string, now: nat)
    requires Inv(n)
    ensures Inv(Supersede(n, ws, id, now)) && Supersede(n, ws, id, now).sockets == n.sockets
  {
    hide Orderly;
    if id in n.sockets {
      RejectPipeKeeps(n, n.sockets[id], Replaced, now);
    }
  }

  lemma {:induction false} BindKeeps(n: Net, ws: nat, hello: Hello, awaited: Expect, now: nat)
    requires Inv(n)
    ensures Inv(Bind(n, ws, hello, awaited, now))
  {
    hide Orderly;
    FreshIsOrderly(ws, hello.targetId);
    var b := Bind(n, ws, hello, awaited, now);
    assert forall k ::
      0 <= k < |b.pipes| ==> b.pipes[k] == if k < |n.pipes| then n.pipes[k] else Fresh(ws, hello.targetId);
  }

  lemma {:induction false} OnHelloKeeps(n: Net, ws: nat, hello: Hello, now: nat)
    requires Inv(n)
    ensures Inv(OnHello(n, ws, hello, now))
  {
    hide Orderly, Owns, Supersede, Bind;
    if Admits(n, hello, now) {
      SupersedeKeeps(n, ws, hello.targetId, now);
      BindKeeps(Supersede(n, ws, hello.targetId, now), ws, hello, n.expects[hello.targetId], now);
    }
  }

  lemma {:induction false} DetachKeeps(n: Net, id: string, now: nat)
    requires Inv(n)
    ensures Inv(Detach(n, id, now))
  {
    hide Orderly;
    if id in n.sockets {
      RejectPipeKeeps(n, n.sockets[id], Disconnected, now);
    }
  }

  lemma {:induction false} ChainKeepsCalls(n: Net, k: nat, call: Call)
    requires Inv(n) && k < |n.pipes| && call.id == |n.issued|
    ensures forall id :: 0 <= id <= |n.issued| ==>
              HasCall(n.pipes[k := Chain(n.pipes[k], call)][(n.issued + [k])[id]].calls, id)
  {
    var pipes := n.pipes[k := Chain(n.pipes[k], call)];
    forall id | 0 <= id <= |n.issued|
      ensures HasCall(pipes[(n.issued + [k])[id]].calls, id)
    {
      if id == |n.issued| {
        assert pipes[k].calls[|n.pipes[k].calls|].id == id;
      } else {
        var m := n.issued[id];
        var i :| 0 <= i < |n.pipes[m].calls| && n.pipes[m].calls[i].id == id;
        assert pipes[m].calls[i].id == id;
      }
    }
  }

  lemma {:induction false} ProxyKeeps(n: Net, id: string, timeoutMs: Option<nat>, now: nat)
    requires Inv(n)
    ensures Inv(Proxy(n, id, timeoutMs, now).0)
  {
    hide Orderly;
    if IsConnected(n, id) {
      var k := n.sockets[id];
      var call := Call(|n.issued|, now, if timeoutMs.Some? then timeoutMs.value else DEFAULT_TIMEOUT);
      ChainKeepsOrder(n.pipes[k], call);
      ChainKeepsCalls(n, k, call);
    }
  }

  lemma {:induction false} RunChainKeeps(n: Net, k: nat, sendOk: bool, now: nat)
    requires Inv(n)
    ensures Inv(RunChain(n, k, sendOk, now))
  {
    hide Orderly;
    if k < |n.pipes| && Ready(n.pipes[k]) {
      RunKeepsOrder(n.pipes[k], sendOk, now);
      PipeStep(n, k, RunNext(n.pipes[k], sendOk, now));
    }
  }

  lemma {:induction false} CloseAllKeeps(n: Net, now: nat)
    requires Inv(n)
    ensures Inv(CloseAll(n, now))
  {
    hide Orderly;
    forall k | 0 <= k < |n.pipes|
      ensures Orderly(CloseAll(n, now).pipes[k])
    {
      RejectKeepsOrder(n.pipes[k], HubClosing, now);
    }
  }

  lemma {:induction false} ResponseKeeps(n: Net, ws: nat, callId: nat, body: string, now: nat)
    requires Inv(n)
    ensures Inv(OnResponse(n, ws, callId, body, now))
  {
    hide Orderly, IsPending, Settle;
    if ws in n.bound && n.bound[ws] in n.sockets && IsPending(n.pipes[n.sockets[n.bound[ws]]], callId) {
      SettleKeeps(n, n.sockets[n.bound[ws]], callId, Replied(body), now);
    }
  }

  lemma {:induction false} TimerKeeps(n: Net, k: nat, callId: nat, now: nat)
    requires Inv(n)
    ensures Inv(TimerFires(n, k, callId, now))
  {
    hide Orderly, Settle;
    if k < |n.pipes| && Due(n.pipes[k], callId, now) {
      SettleKeeps(n, k, callId, TimedOut, now);
    }
  }

  lemma {:induction false} DeleteKeeps(n: Net, id: string, now: nat)
    requires Inv(n)
    ensures Inv(TunnelState.DeletePeer(n, id, now))
  {
    hide Orderly, Detach, R.Sweep, R.Remove;
    DetachKeeps(n, id, now);
  }

  lemma {:induction false} StepKeeps(w: World, e: Event)
    requires Inv(w.net)
    ensures Inv(Step(w, e).net)
  {
    hide Orderly, Owns, OnHello, OnResponse, Detach, Proxy, RunChain, TimerFires, CloseAll, KeepaliveTick, DeletePeer;
    hide R.Sweep, R.Register, R.Remove, R.Heartbeat, R.Select;
    var n, now := w.net, w.now;
    match e
    case HelloFrame(ws, hello) => OnHelloKeeps(n, ws, hello, now);
    case ResponseFrame(ws, callId, body) => ResponseKeeps(n, ws, callId, body, now);
    case Closed(ws) => if ws in n.bound { DetachKeeps(CloseWs(n, ws), n.bound[ws], now); }
    case Errored(ws) => if ws in n.bound { DetachKeeps(n, n.bound[ws], now); }
    case ProxyCall(id, timeoutMs) => ProxyKeeps(n, id, timeoutMs, now);
    case ChainRuns(k, sendOk) => RunChainKeeps(n, k, sendOk, now);
    case TimerExpires(k, callId) => TimerKeeps(n, k, callId, now);
    case DeleteRoute(id) => DeleteKeeps(n, id, now);
    case Tick => TickMindsTheLive(n, now);
    case CloseHub => CloseAllKeeps(n, now);
    case _ =>
  }

  lemma {:induction false} RunKeeps(w: World, es: seq<Event>)
    requires Inv(w.net)
    ensures Inv(Run(w, es).net)
    decreases es
  {
    if es != [] {
      StepKeeps(w, es[0]);
      RunKeeps(Step(w, es[0]), es[1..]);
    }
  }

  // ---------- requests ----------

  /** A binding's history only grows: what was called, sent or settled stays so. */
  predicate Extends(p: Pipe, q: Pipe) {
    p.ws == q.ws && p.target == q.target && p.calls <= q.calls && p.started <= q.started && p.wire <= q.wire
    && p.log <= q.log
  }

  predicate AllExtend(n: Net, m: Net) {
    |n.pipes| <= |m.pipes| && n.issued <= m.issued && forall k :: 0 <= k < |n.pipes| ==> Extends(n.pipes[k], m.pipes[k])
  }

  lemma {:induction false} SupersedeExtends(n: Net, ws: nat, id: string, now: nat)
    ensures AllExtend(n, Supersede(n, ws, id, now))
  {
  }

  lemma {:induction false} HelloExtends(n: Net, ws: nat, hello: Hello, now: nat)
    ensures AllExtend(n, OnHello(n, ws, hello, now))
  {
    hide R.Register, LiveExpect, Supersede, Extends;
    SupersedeExtends(n, ws, hello.targetId, now);
    AllExtendSelf(n);
  }

  lemma {:induction false} AllExtendSelf(n: Net)
    ensures AllExtend(n, n)
  {
  }

  lemma {:induction false} DetachExtends(n: Net, id: string, now: nat)
    ensures AllExtend(n, Detach(n, id, now))
  {
  }

  lemma {:induction false} ResponseExtends(n: Net, ws: nat, callId: nat, body: string, now: nat)
    ensures AllExtend(n, OnResponse(n, ws, callId, body, now))
  {
    hide IsPending, Without;
  }

  lemma {:induction false} ProxyExtends(n: Net, id: string, timeoutMs: Option<nat>, now: nat)
    ensures AllExtend(n, Proxy(n, id, timeoutMs, now).0)
  {
  }

  lemma {:induction false} RunChainExtends(n: Net, k: nat, sendOk: bool, now: nat)
    ensures AllExtend(n, RunChain(n, k, sendOk, now))
  {
    hide Ready;
  }

  lemma {:induction false} TimerExtends(n: Net, k: nat, callId: nat, now: nat)
    ensures AllExtend(n, TimerFires(n, k, callId, now))
  {
    hide Due, Without;
  }

  lemma {:induction false} CloseAllExtends(n: Net, now: nat)
    ensures AllExtend(n, CloseAll(n, now))
  {
  }

  lemma {:induction false} DeleteExtends(n: Net, id: string, now: nat)
    ensures AllExtend(n, TunnelState.DeletePeer(n, id, now))
  {
    hide Detach, R.Sweep, R.Remove;
    DetachExtends(n, id, now);
  }

  lemma {:induction false} StepExtends(w: World, e: Event)
    ensures AllExtend(w.net, Step(w, e).net)
  {
    hide OnHello, OnResponse, Detach, Proxy, RunChain, TimerFires, CloseAll, KeepaliveTick, DeletePeer, LiveExpect;
    hide R.Sweep, R.Register, R.Remove, R.Heartbeat, R.Select;
    var n, now := w.net, w.now;
    match e
    case HelloFrame(ws, hello) => HelloExtends(n, ws, hello, now);
    case Closed(ws) => if ws in n.bound { DetachExtends(CloseWs(n, ws), n.bound[ws], now); }
    case Errored(ws) => if ws in n.bound { DetachExtends(n, n.bound[ws], now); }
    case ResponseFrame(ws, callId, body) => ResponseExtends(n, ws, callId, body, now);
    case ProxyCall(id, timeoutMs) => ProxyExtends(n, id, timeoutMs, now);
    case ChainRuns(k, sendOk) => RunChainExtends(n, k, sendOk, now);
    case TimerExpires(k, callId) => TimerExtends(n, k, callId, now);
    case CloseHub => CloseAllExtends(n, now);
    case DeleteRoute(id) => DeleteExtends(n, id, now);
    case Tick => TickMindsTheLive(n, now);
    case _ =>
  }

  /** A settled promise keeps its one outcome through every later run. */
  lemma {:induction false} RunExtends(w: World, es: seq<Event>)
    ensures AllExtend(w.net, Run(w, es).net)
    decreases es
  {
    if es != [] {
      StepExtends(w, es[0]);
      RunExtends(Step(w, es[0]), es[1..]);
      var n, m, o := w.net, Step(w, es[0]).net, Run(w, es).net;
      assert forall k :: 0 <= k < |n.pipes| ==> Extends(n.pipes[k], m.pipes[k]) && Extends(m.pipes[k], o.pipes[k]);
    }
  }

  predicate Waiting(n: Net, id: nat)
    requires id < |n.issued| && n.issued[id] < |n.pipes|
  {
    var p := n.pipes[n.issued[id]];
    p.started <= |p.calls| && HasCall(p.calls[p.started..], id)
  }

  /** In every run from a hub without connections: each binding has at most one request in flight and
      sent its requests in call order; and each accepted request is, at any moment, exactly one of
      waiting, in flight on its own binding, or settled there by exactly one resolve or reject. */
  lemma {:induction false} RequestLaws(store: R.Registry, start: nat, es: seq<Event>)
    ensures var n := Run(World(start, Empty(store)), es).net;
            && Inv(n)
            && (forall k :: 0 <= k < |n.pipes| ==> |n.pipes[k].pending| <= 1 && WireInCallOrder(n.pipes[k]))
            && (forall id :: 0 <= id < |n.issued| ==> n.issued[id] < |n.pipes| && ExactlyOne(
                  Waiting(n, id), IsPending(n.pipes[n.issued[id]], id), IsSettled(n.pipes[n.issued[id]], id)))
            && SettledOnce(n)
  {
    var n := Run(World(start, Empty(store)), es).net;
    RunKeeps(World(start, Empty(store)), es);
    forall k | 0 <= k < |n.pipes|
      ensures |n.pipes[k].pending| <= 1 && WireInCallOrder(n.pipes[k])
    {
      OrderlyMeans(n.pipes[k]);
    }
    forall id | 0 <= id < |n.issued|
      ensures n.issued[id] < |n.pipes| && ExactlyOne(
                Waiting(n, id), IsPending(n.pipes[n.issued[id]], id), IsSettled(n.pipes[n.issued[id]], id))
    {
      OneFate(n, id);
    }
    NeverSettledTwice(n);
  }

  /** No two settlements in the whole hub are of the same request. */
  ghost predicate SettledOnce(n: Net) {
    forall k, m, i, j ::
      0 <= k < |n.pipes| && 0 <= m < |n.pipes| && 0 <= i < |n.pipes[k].log| && 0 <= j < |n.pipes[m].log| ==>
      (n.pipes[k].log[i].id == n.pipes[m].log[j].id ==> k == m && i == j)
  }

  lemma {:induction false} NeverSettledTwice(n: Net)
    requires Inv(n)
    ensures SettledOnce(n)
  {
    forall k, m, i, j | 0 <= k < |n.pipes| && 0 <= m < |n.pipes| && 0 <= i < |n.pipes[k].log| &&
        0 <= j < |n.pipes[m].log|
      ensures n.pipes[k].log[i].id == n.pipes[m].log[j].id ==> k == m && i == j
    {
      SettledAtHome(n, k, i);
      SettledAtHome(n, m, j);
      OrderlyMeans(n.pipes[k]);
    }
  }

  predicate ExactlyOne(a: bool, b: bool, c: bool) {
    (a && !b && !c) || (!a && b && !c) || (!a && !b && c)
  }

  predicate WireInCallOrder(p: Pipe) {
    forall i, j :: 0 <= i < j < |p.wire| ==> Place(p.calls, p.wire[i]) < Place(p.calls, p.wire[j]) < |p.calls|
  }

  lemma {:induction false} SettledAtHome(n: Net, k: nat, i: nat)
    requires Inv(n) && k < |n.pipes| && i < |n.pipes[k].log|
    ensures n.pipes[k].log[i].id < |n.issued| && n.issued[n.pipes[k].log[i].id] == k
  {
    assert n.pipes[k].log[i].id == n.pipes[k].calls[i].id;
  }

  lemma {:induction false} OneFate(n: Net, id: nat)
    requires Inv(n) && id < |n.issued|
    ensures ExactlyOne(Waiting(n, id), IsPending(n.pipes[n.issued[id]], id), IsSettled(n.pipes[n.issued[id]], id))
  {
    hide Orderly;
    var p := n.pipes[n.issued[id]];
    var i :| 0 <= i < |p.calls| && p.calls[i].id == id;
    assert Orderly(p);
    FateOf(p, i);
    LogIsCalled(p);
  }

  lemma {:induction false} LogIsCalled(p: Pipe)
    requires Orderly(p)
    ensures |p.log| <= p.started <= |p.log| + 1 && p.started <= |p.calls|
  {
  }

  /** A response changes the hub exactly when its connection is bound to a target whose current binding
      has the named request in flight; then it settles that request, with that body, and nothing else. */
  lemma {:induction false} ResponseSettlesItsOwn(n: Net, ws: nat, callId: nat, body: string, now: nat)
    requires Inv(n)
    ensures var m := OnResponse(n, ws, callId, body, now);
            var hits := callId < |n.issued| && ws in n.bound && n.bound[ws] in n.sockets &&
                        n.sockets[n.bound[ws]] == n.issued[callId] && IsPending(n.pipes[n.issued[callId]], callId);
            && (m != n <==> hits)
            && (hits ==>
                  var k := n.issued[callId];
                  && m == n.(pipes := n.pipes[k := m.pipes[k]])
                  && m.pipes[k] == n.pipes[k].(
                          pending := [], log := n.pipes[k].log + [Settlement(callId, Replied(body), now)]))
  {
    if ws in n.bound && n.bound[ws] in n.sockets {
      var k := n.sockets[n.bound[ws]];
      ReadyWhenIdle(n.pipes[k]);
      if IsPending(n.pipes[k], callId) {
        SettleIsRejectAll(n.pipes[k], callId, Replied(body), now);
        assert |OnResponse(n, ws, callId, body, now).pipes[k].log| > |n.pipes[k].log|;
      }
    }
  }

  /** A response to a request that has already settled - however that happened - changes nothing. */
  lemma {:induction false} LateResponseIsIgnored(n: Net, ws: nat, callId: nat, body: string, now: nat)
    requires Inv(n) && callId < |n.issued| && IsSettled(n.pipes[n.issued[callId]], callId)
    ensures OnResponse(n, ws, callId, body, now) == n
  {
    OneFate(n, callId);
    ResponseSettlesItsOwn(n, ws, callId, body, now);
  }

  // ---------- one connection, several bindings ----------

  function InFlightOn(pipes: seq<Pipe>, ws: nat): nat {
    if pipes == [] then 0
    else (if pipes[0].ws == ws then |pipes[0].pending| else 0) + InFlightOn(pipes[1..], ws)
  }

  function BindingsOn(pipes: seq<Pipe>, ws: nat): nat {
    if pipes == [] then 0 else (if pipes[0].ws == ws then 1 else 0) + BindingsOn(pipes[1..], ws)
  }

  /** A connection carries at most one request per hello it had accepted. */
  lemma {:induction false} InFlightPerBinding(pipes: seq<Pipe>, ws: nat)
    requires forall k :: 0 <= k < |pipes| ==> Orderly(pipes[k])
    ensures InFlightOn(pipes, ws) <= BindingsOn(pipes, ws)
  {
    if pipes != [] {
      OrderlyMeans(pipes[0]);
      InFlightPerBinding(pipes[1..], ws);
    }
  }

  /** And no better: every accepted hello gives its connection one more chain, whoever held the target before,
      and the next request joins whatever is already in flight there. */
  lemma {:induction false} HelloAddsALane(n: Net, ws: nat, hello: Hello, now: nat)
    requires Inv(n) && Admits(n, hello, now) && ws in n.open
    ensures var m := OneMoreRequest(n, ws, hello, now);
            && Inv(m) && Admits(m, hello, now) && ws in m.open
            && hello.targetId in m.sockets && m.pipes[m.sockets[hello.targetId]].ws == ws
            && InFlightOn(m.pipes, ws) == InFlightOn(n.pipes, ws) + 1
  {
    hide Inv, InFlightOn, OnHello, Supersede, Proxy, RunChain, Admits;
    var id := hello.targetId;
    var a := OnHello(n, ws, hello, now);
    var b := Proxy(a, id, None, now).0;
    OnHelloKeeps(n, ws, hello, now);
    ProxyKeeps(a, id, None, now);
    RunChainKeeps(b, |n.pipes|, true, now);
    InvLinks(n, id);
    SupersedeSparesOthers(n, ws, id, now);
    HelloLane(n, ws, hello, now);
    RequestOnLane(a, ws, id, now);
    StillAdmits(a, b, hello, now);
    InFlightOnAppended(Supersede(n, ws, id, now).pipes, LaneOf(ws, id, |a.issued|, now), ws);
  }

  lemma {:induction false} InvLinks(n: Net, id: string)
    requires Inv(n)
    ensures Linked(n) && (id in n.sockets ==> n.sockets[id] < |n.pipes|)
  {
  }

  /** What `RunChain` after `Proxy` makes of a fresh binding. */
  function LaneOf(ws: nat, id: string, callId: nat, now: nat): Pipe {
    RunNext(Chain(Fresh(ws, id), Call(callId, now, DEFAULT_TIMEOUT)), true, now)
  }

  /** Whom the hello supersedes holds another connection. */
  lemma {:induction false} SupersedeSparesOthers(n: Net, ws: nat, id: string, now: nat)
    ensures var m := Supersede(n, ws, id, now);
            && |m.pipes| == |n.pipes| && InFlightOn(m.pipes, ws) == InFlightOn(n.pipes, ws)
            && (ws in n.open ==> ws in m.open)
  {
    match Current(n, id) {
      case Some(k) =>
        if n.pipes[k].ws != ws {
          InFlightElsewhere(n.pipes, k, RejectAll(n.pipes[k], Replaced, now), ws);
        }
      case None =>
    }
  }

  lemma {:induction false} InFlightElsewhere(pipes: seq<Pipe>, k: nat, p: Pipe, ws: nat)
    requires k < |pipes| && pipes[k].ws != ws && p.ws != ws
    ensures InFlightOn(pipes[k := p], ws) == InFlightOn(pipes, ws)
  {
    if k > 0 {
      InFlightElsewhere(pipes[1..], k - 1, p, ws);
      assert pipes[k := p][1..] == pipes[1..][k - 1 := p];
    } else {
      assert pipes[0 := p][1..] == pipes[1..];
    }
  }

  lemma {:induction false} HelloLane(n: Net, ws: nat, hello: Hello, now: nat)
    requires Admits(n, hello, now) && ws in Supersede(n, ws, hello.targetId, now).open
    ensures var a, s := OnHello(n, ws, hello, now), Supersede(n, ws, hello.targetId, now);
            && Admits(a, hello, now) && ws in a.open && a.issued == n.issued
            && a.pipes == s.pipes + [Fresh(ws, hello.targetId)]
            && hello.targetId in a.sockets && a.sockets[hello.targetId] == |s.pipes|
  {
    hide R.Register, RejectAll;
  }

  lemma {:induction false} RequestOnLane(a: Net, ws: nat, id: string, now: nat)
    requires a.pipes != [] && a.pipes[|a.pipes| - 1] == Fresh(ws, id)
    requires id in a.sockets && a.sockets[id] == |a.pipes| - 1 && ws in a.open
    ensures var k := |a.pipes| - 1;
            var m := RunChain(Proxy(a, id, None, now).0, k, true, now);
            && m.pipes == a.pipes[..k] + [LaneOf(ws, id, |a.issued|, now)]
            && m.sockets == a.sockets && m.open == a.open && m.expects == a.expects
            && LaneOf(ws, id, |a.issued|, now).ws == ws && |LaneOf(ws, id, |a.issued|, now).pending| == 1
  {
  }

  lemma {:induction false} StillAdmits(a: Net, b: Net, hello: Hello, now: nat)
    requires Admits(a, hello, now)
    ensures forall m: Net :: m.expects == a.expects ==> Admits(m, hello, now)
  {
  }

  function OneMoreRequest(n: Net, ws: nat, hello: Hello, now: nat): Net {
    RunChain(Proxy(OnHello(n, ws, hello, now), hello.targetId, None, now).0, |n.pipes|, true, now)
  }

  lemma {:induction false} InFlightOnAppended(pipes: seq<Pipe>, p: Pipe, ws: nat)
    ensures InFlightOn(pipes + [p], ws) == InFlightOn(pipes, ws) + if p.ws == ws then |p.pending| else 0
  {
    if pipes == [] {
      assert [p][1..] == [];
    } else {
      assert (pipes + [p])[1..] == pipes[1..] + [p];
      InFlightOnAppended(pipes[1..], p, ws);
    }
  }

  /** So one request per connection is not what the hub keeps: two hellos put two on the wire. */
  lemma {:induction false} RehelloOverlaps(n: Net, ws: nat, hello: Hello, now: nat)
    requires Inv(n) && Admits(n, hello, now) && ws in n.open
    ensures InFlightOn(OneMoreRequest(OneMoreRequest(n, ws, hello, now), ws, hello, now).pipes, ws) >= 2
  {
    HelloAddsALane(n, ws, hello, now);
    HelloAddsALane(OneMoreRequest(n, ws, hello, now), ws, hello, now);
  }

  // ---------- the same over runs ----------

  /** A hello accepted on connection `ws`. */
  predicate Accepts(w: World, e: Event, ws: nat) {
    e.HelloFrame? && e.ws == ws && ws < w.net.nextWs && Admits(w.net, e.hello, w.now)
  }

  function AcceptedHellos(w: World, es: seq<Event>, ws: nat): nat
    decreases es
  {
    if es == [] then 0 else (if Accepts(w, es[0], ws) then 1 else 0) + AcceptedHellos(Step(w, es[0]), es[1..], ws)
  }

  lemma {:induction false} SameBindings(a: seq<Pipe>, b: seq<Pipe>, ws: nat)
    requires |a| == |b| && forall k :: 0 <= k < |a| ==> a[k].ws == b[k].ws
    ensures BindingsOn(a, ws) == BindingsOn(b, ws)
  {
    if a != [] {
      SameBindings(a[1..], b[1..], ws);
    }
  }

  lemma {:induction false} BindingsOnAppended(pipes: seq<Pipe>, p: Pipe, ws: nat)
    ensures BindingsOn(pipes + [p], ws) == BindingsOn(pipes, ws) + if p.ws == ws then 1 else 0
  {
    if pipes == [] {
      assert [p][1..] == [];
    } else {
      assert (pipes + [p])[1..] == pipes[1..] + [p];
      BindingsOnAppended(pipes[1..], p, ws);
    }
  }

  lemma {:induction false} HelloMakesBinding(n: Net, ws: nat, hello: Hello, now: nat)
    ensures var m := OnHello(n, ws, hello, now);
      if Admits(n, hello, now) then |m.pipes| == |n.pipes| + 1 && m.pipes[|n.pipes|].ws == ws
      else |m.pipes| == |n.pipes|
  {
    hide R.Register, RejectAll;
  }

  /** Only an accepted hello makes a binding, on its own connection. */
  lemma {:induction false} StepMakesBindings(w: World, e: Event)
    ensures var n, m := w.net.pipes, Step(w, e).net.pipes;
      if e.HelloFrame? && Accepts(w, e, e.ws) then |m| == |n| + 1 && m[|n|].ws == e.ws else |m| == |n|
  {
    hide OnHello, Admits, KeepaliveTick, Ready, Due, IsPending, Settle, RunNext, Chain, RejectAll, LiveExpect;
    hide R.Sweep, R.Register, R.Remove, R.Heartbeat, R.Select;
    if e.HelloFrame? {
      HelloMakesBinding(w.net, e.ws, e.hello, w.now);
    } else if e.Tick? {
      TickMindsTheLive(w.net, w.now);
    }
  }

  lemma {:induction false} StepBinds(w: World, e: Event, ws: nat)
    ensures BindingsOn(Step(w, e).net.pipes, ws) == BindingsOn(w.net.pipes, ws) + if Accepts(w, e, ws) then 1 else 0
  {
    hide Step;
    var n, m := w.net.pipes, Step(w, e).net.pipes;
    StepMakesBindings(w, e);
    StepExtends(w, e);
    SameBindings(n, m[..|n|], ws);
    if |m| == |n| {
      assert m[..|n|] == m;
    } else {
      assert m[..|n|] + [m[|n|]] == m;
      BindingsOnAppended(m[..|n|], m[|n|], ws);
    }
  }

  lemma {:induction false} RunBinds(w: World, es: seq<Event>, ws: nat)
    ensures BindingsOn(Run(w, es).net.pipes, ws) == BindingsOn(w.net.pipes, ws) + AcceptedHellos(w, es, ws)
    decreases es
  {
    hide Step;
    if es != [] {
      StepBinds(w, es[0], ws);
      RunBinds(Step(w, es[0]), es[1..], ws);
    }
  }

  /** In every run a connection never has more requests in flight than hellos accepted on it: one, if it says
      hello once. */
  lemma {:induction false} InFlightPerHello(store: R.Registry, start: nat, es: seq<Event>, ws: nat)
    ensures var w0 := World(start, Empty(store)); InFlightOn(Run(w0, es).net.pipes, ws) <= AcceptedHellos(w0, es, ws)
  {
    var w0 := World(start, Empty(store));
    RunKeeps(w0, es);
    RunBinds(w0, es, ws);
    InFlightPerBinding(Run(w0, es).net.pipes, ws);
  }

  /** And two hellos are enough for two requests: a run with two on the wire of one connection. */
  lemma {:induction false} TwoHellosTwoInFlight(store: R.Registry, start: nat)
    ensures var hello := Hello("td", "nonce", "");
      var request := [HelloFrame(0, hello), ProxyCall("td", None), ChainRuns(0, true)];
      var again := [HelloFrame(0, hello), ProxyCall("td", None), ChainRuns(1, true)];
      var w := Run(World(start, Empty(store)), [ExpectRoute("td", "nonce", None, ""), Connect] + request + again);
      InFlightOn(w.net.pipes, 0) >= 2
  {
    hide Inv, OneMoreRequest, InFlightOn, Step, Run, RequestEvents, Admits;
    var hello := Hello("td", "nonce", "");
    var first := [ExpectRoute("td", "nonce", None, ""), Connect];
    var w0 := World(start, Empty(store));
    var one, two := RequestEvents(0, hello, 0), RequestEvents(0, hello, 1);
    EmptyInv(store);
    RunKeeps(w0, first);
    Expected(w0, hello);
    var w := Run(w0, first);
    RequestRun(w, 0, hello);
    HelloAddsALane(w.net, 0, hello, start);
    OneLane(w.net, 0, hello, start);
    RequestRun(Run(w, one), 0, hello);
    RunThen(w0, first, one);
    RunThen(w0, first + one, two);
    RehelloOverlaps(w.net, 0, hello, start);
    Spelled(hello);
  }

  lemma {:induction false} EmptyInv(store: R.Registry)
    ensures Inv(Empty(store))
  {
  }

  lemma {:induction false} OneLane(n: Net, ws: nat, hello: Hello, now: nat)
    requires Admits(n, hello, now) && n.pipes == [] && n.sockets == map[] && ws in n.open
    ensures |OneMoreRequest(n, ws, hello, now).pipes| == 1
  {
    hide R.Register, RunNext;
    HelloLane(n, ws, hello, now);
  }

  lemma {:induction false} Spelled(hello: Hello)
    ensures forall k ::
      RequestEvents(0, hello, k) == [HelloFrame(0, hello), ProxyCall(hello.targetId, None), ChainRuns(k, true)]
  {
  }

  function RequestEvents(ws: nat, hello: Hello, k: nat): seq<Event> {
    [HelloFrame(ws, hello), ProxyCall(hello.targetId, None), ChainRuns(k, true)]
  }

  lemma {:induction false} Expected(w0: World, hello: Hello)
    requires w0.net == Empty(w0.net.store) && hello.targetId != "" && hello.nonce != ""
    ensures var w := Run(w0, [ExpectRoute(hello.targetId, hello.nonce, None, ""), Connect]);
      && w.now == w0.now && Admits(w.net, hello, w.now) && w.net.open == {0} && w.net.nextWs == 1
      && w.net.sockets == map[] && w.net.pipes == []
  {
    hide R.Register, R.Sweep;
    var es := [ExpectRoute(hello.targetId, hello.nonce, None, ""), Connect];
    assert es[1..] == [Connect] && [Connect][1..] == [];
    assert Run(w0, es) == Step(Step(w0, es[0]), Connect);
    assert {} + {0} == {0};
  }

  lemma {:induction false} RequestRun(w: World, ws: nat, hello: Hello)
    requires ws < w.net.nextWs
    ensures var r := Run(w, RequestEvents(ws, hello, |w.net.pipes|));
      r.net == OneMoreRequest(w.net, ws, hello, w.now) && r.now == w.now && ws < r.net.nextWs
  {
    hide OnHello, Proxy, RunChain;
    RunThree(w, RequestEvents(ws, hello, |w.net.pipes|));
    NextWsStays(w.net, ws, hello, w.now, hello.targetId, |w.net.pipes|);
  }

  lemma {:induction false} RunThree(w: World, es: seq<Event>)
    requires |es| == 3
    ensures Run(w, es) == Step(Step(Step(w, es[0]), es[1]), es[2])
  {
    hide Step;
    assert es[1..][1..] == [es[2]] && [es[2]][1..] == [];
    assert Run(Step(Step(w, es[0]), es[1]), [es[2]]) == Step(Step(Step(w, es[0]), es[1]), es[2]);
  }

  lemma {:induction false} NextWsStays(n: Net, ws: nat, hello: Hello, now: nat, id: string, k: nat)
    ensures RunChain(Proxy(OnHello(n, ws, hello, now), id, None, now).0, k, true, now).nextWs == n.nextWs
  {
    hide R.Register, RejectAll;
  }

  lemma {:induction false} RunThen(w: World, es: seq<Event>, more: seq<Event>)
    ensures Run(w, es + more) == Run(Run(w, es), more)
    decreases es
  {
    hide Step;
    if es == [] {
      assert es + more == more;
    } else {
      RunThen(Step(w, es[0]), es[1..], more);
      assert (es + more)[1..] == es[1..] + more;
    }
  }

  lemma {:induction false} RunSnoc(w: World, es: seq<Event>)
    requires es != []
    ensures var n := |es| - 1; Run(w, es) == Step(Run(w, es[..n]), es[n])
  {
    hide Step;
    var n := |es| - 1;
    RunThen(w, es[..n], [es[n]]);
    assert es[..n] + [es[n]] == es && [es[n]][1..] == [];
  }

  // ---------- the keepalive tick ----------

  /** The tick touches nothing but the store and expired expectations. */
  predicate OnlyMinded(n: Net, m: Net, now: nat) {
    && m == n.(store := m.store, expects := m.expects)
    && (forall id :: id in m.expects ==> id in n.expects && m.expects[id] == n.expects[id])
    && (forall id :: id in n.expects && now <= n.expects[id].expiresAt ==> id in m.expects)
  }

  lemma {:induction false} MindAllBeats(n: Net, ids: seq<string>, live: set<string>, now: nat)
    requires forall id :: id in n.store.records ==> (id in live <==> IsConnected(n, id) || LiveExpect(n, id, now).Some?)
    ensures MindAll(n, ids, now).store == R.BeatAll(n.store, ids, live, now)
    ensures OnlyMinded(n, MindAll(n, ids, now), now)
    decreases ids
  {
    if ids != [] {
      var m := Mind(n, ids[0], now);
      assert OnlyMinded(n, m, now);
      MindAllBeats(m, ids[1..], live, now);
    }
  }

  /** The tick is the store's tick for exactly the peers that are connected or expected when it starts. */
  lemma {:induction false} TickMindsTheLive(n: Net, now: nat)
    ensures KeepaliveTick(n, now).store == R.TickStore(n.store, LiveIds(n, now), now)
    ensures OnlyMinded(n, KeepaliveTick(n, now), now)
  {
    var listed := SweepStore(n, now);
    MindAllBeats(listed, listed.store.order, LiveIds(n, now), now);
  }
}
