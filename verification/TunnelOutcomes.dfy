/** Why a proxied request was settled the way it was: every settlement goes back to its cause. */
module TunnelOutcomes {
  import opened Options
  import opened PeerSocket
  import opened TunnelState
  import opened TunnelSafety
  import R = PeerRegistry

  /** Binding `k` is the entry of its target. */
  predicate IsCurrent(n: Net, k: nat) {
    k < |n.pipes| && n.pipes[k].target in n.sockets && n.sockets[n.pipes[k].target] == k
  }

  /** `e` is the end of a connection that is bound to `target`, whichever connection the target has now. */
  predicate Ends(n: Net, e: Event, target: string) {
    (e.Closed? || e.Errored?) && e.ws in n.bound && n.bound[e.ws] == target
  }

  /** A hello that is accepted for `target` on another connection than `ws`. */
  predicate TakesOver(w: World, e: Event, target: string, ws: nat) {
    && e.HelloFrame? && e.ws < w.net.nextWs && e.ws != ws && e.hello.targetId == target
    && target != "" && e.hello.nonce != "" && target in w.net.expects
    && w.now <= w.net.expects[target].expiresAt && w.net.expects[target].nonce == e.hello.nonce
  }

  /** The event `e`, taken in state `w`, is what settles a request on binding `k` as `s` says. */
  predicate Causes(w: World, e: Event, k: nat, s: Settlement)
    requires k < |w.net.pipes|
  {
    var n, p := w.net, w.net.pipes[k];
    && s.at == w.now
    && match s.outcome {
      case Replied(body) =>
        && IsPending(p, s.id) && IsCurrent(n, k)
        && e.ResponseFrame? && e.callId == s.id && e.body == body && e.ws in n.bound && n.bound[e.ws] == p.target
      case TimedOut =>
        && e == TimerExpires(k, s.id)
        && exists i :: 0 <= i < |p.pending| && p.pending[i].id == s.id && p.pending[i].deadline <= w.now
      case SendFailed => e == ChainRuns(k, false) && Ready(p) && p.calls[p.started].id == s.id
      case Replaced => IsPending(p, s.id) && IsCurrent(n, k) && TakesOver(w, e, p.target, p.ws)
      case Disconnected =>
        && IsPending(p, s.id) && IsCurrent(n, k)
        && (Ends(n, e, p.target) || (e == DeleteRoute(p.target) && p.ws in n.open))
      case HubClosing => IsPending(p, s.id) && IsCurrent(n, k) && e.CloseHub?
    }
  }

  /** The step settles at most one request of binding `k`, and as `s` says exactly if it causes that. */
  predicate SettlesExactly(w: World, e: Event, k: nat, s: Settlement)
    requires k < |w.net.pipes|
  {
    k < |Step(w, e).net.pipes| && LogsOne(w.net.pipes[k].log, Step(w, e).net.pipes[k].log, s, Causes(w, e, k, s))
  }

  predicate LogsOne(before: seq<Settlement>, after: seq<Settlement>, s: Settlement, caused: bool) {
    |after| <= |before| + 1 && before <= after && (after == before + [s] <==> caused)
  }

  // ---------- one binding ----------

  lemma {:induction false} LogsNone(log: seq<Settlement>, s: Settlement)
    ensures LogsOne(log, log, s, false)
  {
    assert |log + [s]| == |log| + 1;
  }

  lemma {:induction false} LogsThis(log: seq<Settlement>, t: Settlement, s: Settlement)
    ensures LogsOne(log, log + [t], s, s == t)
  {
    assert (log + [t])[|log|] == t && (log + [s])[|log|] == s;
  }

  lemma {:induction false} RejectLogs(p: Pipe, outcome: Outcome, now: nat, s: Settlement)
    requires Orderly(p)
    ensures LogsOne(p.log, RejectAll(p, outcome, now).log, s, IsPending(p, s.id) && s.outcome == outcome && s.at == now)
  {
    if p.pending != [] {
      assert SettleEach(p.pending, outcome, now) == [Settlement(p.pending[0].id, outcome, now)];
      LogsThis(p.log, Settlement(p.pending[0].id, outcome, now), s);
    } else {
      assert p.log + SettleEach(p.pending, outcome, now) == p.log;
      LogsNone(p.log, s);
    }
  }

  // ---------- one event ----------

  lemma {:induction false} Orderlies(n: Net, k: nat)
    requires Inv(n) && k < |n.pipes|
    ensures Orderly(n.pipes[k])
  {
  }

  /** The event rejects all that is in flight on the binding, if it `hits`. */
  lemma {:induction false} RejectsExactly(w: World, e: Event, k: nat, s: Settlement, outcome: Outcome, hits: bool)
    requires Inv(w.net) && k < |w.net.pipes| && k < |Step(w, e).net.pipes|
    requires Step(w, e).net.pipes[k] == if hits then RejectAll(w.net.pipes[k], outcome, w.now) else w.net.pipes[k]
    requires Causes(w, e, k, s)
      <==> hits && IsPending(w.net.pipes[k], s.id) && s.outcome == outcome && s.at == w.now
    ensures SettlesExactly(w, e, k, s)
  {
    hide Inv, Orderly, RejectAll, Step, Causes, IsPending, LogsOne;
    Orderlies(w.net, k);
    RejectLogs(w.net.pipes[k], outcome, w.now, s);
    LogsNone(w.net.pipes[k].log, s);
  }

  lemma {:induction false} CurrentMeans(n: Net, id: string, k: nat)
    requires Inv(n) && k < |n.pipes|
    ensures Current(n, id) == Some(k) <==> IsCurrent(n, k) && n.pipes[k].target == id
  {
    hide Orderly, Owns;
  }

  lemma {:induction false} SupersededPipe(n: Net, ws: nat, id: string, k: nat, now: nat)
    requires Inv(n) && k < |n.pipes|
    ensures var m := Supersede(n, ws, id, now);
      && |m.pipes| == |n.pipes|
      && m.pipes[k] == if IsCurrent(n, k) && n.pipes[k].target == id && n.pipes[k].ws != ws
                       then RejectAll(n.pipes[k], Replaced, now) else n.pipes[k]
  {
    hide Inv, RejectAll;
    CurrentMeans(n, id, k);
  }

  lemma {:induction false} HelloSettles(w: World, ws: nat, hello: Hello, k: nat, s: Settlement)
    requires Inv(w.net) && k < |w.net.pipes|
    ensures SettlesExactly(w, HelloFrame(ws, hello), k, s)
  {
    hide Inv, RejectAll, IsPending, Supersede, IsCurrent, R.Register, SettlesExactly;
    var n, p := w.net, w.net.pipes[k];
    SupersededPipe(n, ws, hello.targetId, k, w.now);
    RejectsExactly(w, HelloFrame(ws, hello), k, s, Replaced,
                   IsCurrent(n, k) && TakesOver(w, HelloFrame(ws, hello), p.target, p.ws));
  }

  lemma {:induction false} DetachedPipe(n: Net, id: string, k: nat, now: nat)
    requires Inv(n) && k < |n.pipes|
    ensures var m := Detach(n, id, now);
      && |m.pipes| == |n.pipes|
      && m.pipes[k] == if IsCurrent(n, k) && n.pipes[k].target == id then RejectAll(n.pipes[k], Disconnected, now)
                       else n.pipes[k]
  {
    hide Inv, RejectAll, FlagOffline;
    CurrentMeans(n, id, k);
  }

  lemma {:induction false} CloseWsKeeps(n: Net, ws: nat)
    requires Inv(n)
    ensures Inv(CloseWs(n, ws))
  {
    hide Orderly, Owns;
  }

  lemma {:induction false} EndSettles(w: World, e: Event, k: nat, s: Settlement)
    requires Inv(w.net) && k < |w.net.pipes| && (e.Closed? || e.Errored?)
    ensures SettlesExactly(w, e, k, s)
  {
    hide Inv, Detach, RejectAll, IsPending, SettlesExactly;
    var n := if e.Closed? then CloseWs(w.net, e.ws) else w.net;
    CloseWsKeeps(w.net, e.ws);
    if e.ws in n.bound {
      DetachedPipe(n, n.bound[e.ws], k, w.now);
    }
    assert IsCurrent(n, k) <==> IsCurrent(w.net, k);
    RejectsExactly(w, e, k, s, Disconnected, IsCurrent(w.net, k) && Ends(w.net, e, w.net.pipes[k].target));
  }

  lemma {:induction false} DeletedPipe(n: Net, id: string, k: nat, now: nat)
    requires Inv(n) && k < |n.pipes|
    ensures var m := TunnelState.DeletePeer(n, id, now);
      && |m.pipes| == |n.pipes|
      && m.pipes[k] == if IsCurrent(n, k) && n.pipes[k].target == id && n.pipes[k].ws in n.open
                       then RejectAll(n.pipes[k], Disconnected, now) else n.pipes[k]
  {
    hide Inv, Detach, RejectAll, R.Remove, R.Sweep;
    DetachedPipe(n, id, k, now);
    CurrentMeans(n, id, k);
  }

  lemma {:induction false} DeleteSettles(w: World, id: string, k: nat, s: Settlement)
    requires Inv(w.net) && k < |w.net.pipes|
    ensures SettlesExactly(w, DeleteRoute(id), k, s)
  {
    hide Inv, RejectAll, IsPending, IsCurrent, TunnelState.DeletePeer, SettlesExactly;
    var p := w.net.pipes[k];
    DeletedPipe(w.net, id, k, w.now);
    RejectsExactly(w, DeleteRoute(id), k, s, Disconnected,
                   IsCurrent(w.net, k) && p.target == id && p.ws in w.net.open);
  }

  lemma {:induction false} CloseSettles(w: World, k: nat, s: Settlement)
    requires Inv(w.net) && k < |w.net.pipes|
    ensures SettlesExactly(w, CloseHub, k, s)
  {
    hide IsPending, RejectAll, Orderly, Owns, SettlesExactly;
    assert k in w.net.sockets.Values <==> IsCurrent(w.net, k);
    RejectsExactly(w, CloseHub, k, s, HubClosing, IsCurrent(w.net, k));
  }

  lemma {:induction false} ResponseSettles(w: World, ws: nat, id: nat, body: string, k: nat, s: Settlement)
    requires Inv(w.net) && k < |w.net.pipes|
    ensures SettlesExactly(w, ResponseFrame(ws, id, body), k, s)
  {
    hide Inv, IsPending, Without, LogsOne;
    LogsThis(w.net.pipes[k].log, Settlement(id, Replied(body), w.now), s);
    LogsNone(w.net.pipes[k].log, s);
    if ws in w.net.bound {
      CurrentMeans(w.net, w.net.bound[ws], k);
    }
  }

  lemma {:induction false} TimerSettles(w: World, j: nat, id: nat, k: nat, s: Settlement)
    requires k < |w.net.pipes|
    ensures SettlesExactly(w, TimerExpires(j, id), k, s)
  {
    hide IsPending, Without, LogsOne;
    LogsThis(w.net.pipes[k].log, Settlement(id, TimedOut, w.now), s);
    LogsNone(w.net.pipes[k].log, s);
  }

  lemma {:induction false} ChainSettles(w: World, j: nat, sendOk: bool, k: nat, s: Settlement)
    requires k < |w.net.pipes|
    ensures SettlesExactly(w, ChainRuns(j, sendOk), k, s)
  {
    hide IsPending, Without, IsSettled, LogsOne;
    var p := w.net.pipes[k];
    if Ready(p) {
      LogsThis(p.log, Settlement(p.calls[p.started].id, SendFailed, w.now), s);
    }
    LogsNone(p.log, s);
  }

  lemma {:induction false} ProxySettles(w: World, id: string, timeoutMs: Option<nat>, k: nat, s: Settlement)
    requires k < |w.net.pipes|
    ensures SettlesExactly(w, ProxyCall(id, timeoutMs), k, s)
  {
    hide IsPending, LogsOne;
    LogsNone(w.net.pipes[k].log, s);
  }

  /** Every event settles exactly what it is the cause of. */
  lemma {:induction false} StepSettlesExactly(w: World, e: Event, k: nat, s: Settlement)
    requires Inv(w.net) && k < |w.net.pipes|
    ensures SettlesExactly(w, e, k, s)
  {
    hide SettlesExactly;
    match e
    case HelloFrame(ws, hello) => HelloSettles(w, ws, hello, k, s);
    case ResponseFrame(ws, id, body) => ResponseSettles(w, ws, id, body, k, s);
    case Closed(_) => EndSettles(w, e, k, s);
    case Errored(_) => EndSettles(w, e, k, s);
    case ProxyCall(id, timeoutMs) => ProxySettles(w, id, timeoutMs, k, s);
    case ChainRuns(j, sendOk) => ChainSettles(w, j, sendOk, k, s);
    case TimerExpires(j, id) => TimerSettles(w, j, id, k, s);
    case DeleteRoute(id) => DeleteSettles(w, id, k, s);
    case CloseHub => CloseSettles(w, k, s);
    case Tick => TickSettles(w, k, s);
    case _ => QuietSettles(w, e, k, s);
  }

  lemma {:induction false} TickSettles(w: World, k: nat, s: Settlement)
    requires k < |w.net.pipes|
    ensures SettlesExactly(w, Tick, k, s)
  {
    hide KeepaliveTick, IsPending, LogsOne;
    TickMindsTheLive(w.net, w.now);
    LogsNone(w.net.pipes[k].log, s);
  }

  predicate Quiet(e: Event) {
    || e.Connect? || e.InvalidFrame? || e.ExpectRoute? || e.RegisterRoute? || e.HeartbeatRoute? || e.StickyRoute?
    || e.ListRoute? || e.PersistTimer? || e.Advance?
  }

  lemma {:induction false} QuietSettles(w: World, e: Event, k: nat, s: Settlement)
    requires k < |w.net.pipes| && Quiet(e)
    ensures SettlesExactly(w, e, k, s)
  {
    hide IsPending, LogsOne, R.Register, R.Sweep, R.Heartbeat, R.Select;
    LogsNone(w.net.pipes[k].log, s);
  }

  // ---------- over whole runs ----------

  /** A binding that the step makes has no history. */
  lemma {:induction false} StepMakesFresh(w: World, e: Event)
    ensures forall k :: |w.net.pipes| <= k < |Step(w, e).net.pipes| ==>
      var p := Step(w, e).net.pipes[k]; p.calls == [] && p.pending == [] && p.log == []
  {
    hide Step;
    StepMakesBindings(w, e);
    if e.HelloFrame? {
      HelloMakesFresh(w, e.ws, e.hello);
    }
  }

  lemma {:induction false} HelloMakesFresh(w: World, ws: nat, hello: Hello)
    ensures forall k :: |w.net.pipes| <= k < |Step(w, HelloFrame(ws, hello)).net.pipes| ==>
      var p := Step(w, HelloFrame(ws, hello)).net.pipes[k]; p.calls == [] && p.pending == [] && p.log == []
  {
    hide R.Register, RejectAll, LiveExpect;
  }

  /** In every run from a hub without connections each settlement of each binding goes back to its cause: a reply
      to a response frame with that id and body on a connection bound to the target, whose present binding had
      the request in flight; a timeout to its own timer; and each other rejection to the event it names. */
  lemma {:induction false} EverySettlementHasItsCause(store: R.Registry, start: nat, es: seq<Event>, k: nat, i: nat)
    returns (j: nat)
    requires k < |Run(World(start, Empty(store)), es).net.pipes|
    requires i < |Run(World(start, Empty(store)), es).net.pipes[k].log|
    ensures var w0 := World(start, Empty(store));
      && j < |es| && k < |Run(w0, es[..j]).net.pipes| && i == |Run(w0, es[..j]).net.pipes[k].log|
      && Causes(Run(w0, es[..j]), es[j], k, Run(w0, es).net.pipes[k].log[i])
    decreases |es|
  {
    hide Step, Inv, Causes;
    var w0 := World(start, Empty(store));
    var n := |es| - 1;
    var before := Run(w0, es[..n]);
    RunSnoc(w0, es);
    EmptyInv(store);
    RunKeeps(w0, es[..n]);
    StepMakesFresh(before, es[n]);
    StepExtends(before, es[n]);
    if i < |before.net.pipes[k].log| {
      j := EverySettlementHasItsCause(store, start, es[..n], k, i);
      assert es[..n][..j] == es[..j];
    } else {
      j := n;
      var after := Run(w0, es).net.pipes[k].log;
      StepSettlesExactly(before, es[n], k, after[i]);
      assert after == before.net.pipes[k].log + [after[i]];
    }
  }

  // ---------- when a request starts, and where it comes from ----------

  /** The event puts a request of binding `k` on the wire and arms its timer. */
  predicate Starts(w: World, e: Event, k: nat, q: Pending) {
    && k < |w.net.pipes| && e == ChainRuns(k, true)
    && var p := w.net.pipes[k];
       && Ready(p) && q.id == p.calls[p.started].id && q.deadline == w.now + p.calls[p.started].timeout
  }

  /** The event is the call of a request, and binding `k` is the open entry of its target. */
  predicate Issues(w: World, e: Event, k: nat, call: Call) {
    && k < |w.net.pipes| && e.ProxyCall? && e.id == w.net.pipes[k].target
    && IsCurrent(w.net, k) && w.net.pipes[k].ws in w.net.open
    && call == Call(|w.net.issued|, w.now, if e.timeoutMs.Some? then e.timeoutMs.value else 60_000)
  }

  /** No new call, no new request in flight. */
  predicate OnlyLess(p: Pipe, q: Pipe) {
    q.calls == p.calls && q.started == p.started && forall x :: x in q.pending ==> x in p.pending
  }

  lemma {:induction false} WithoutIsLess(pending: seq<Pending>, id: nat)
    ensures forall x :: x in Without(pending, id) ==> x in pending
  {
    if pending != [] {
      WithoutIsLess(pending[1..], id);
      assert pending == [pending[0]] + pending[1..];
    }
  }

  lemma {:induction false} SettlingIsLess(p: Pipe, id: nat, outcome: Outcome, now: nat)
    ensures OnlyLess(p, p) && OnlyLess(p, RejectAll(p, outcome, now)) && OnlyLess(p, Settle(p, id, outcome, now))
  {
    WithoutIsLess(p.pending, id);
  }

  /** The three ways of a binding on: a new call, the start of the next one, or less in flight. */
  ghost predicate Goes(w: World, e: Event, k: nat)
    requires k < |w.net.pipes|
  {
    && k < |Step(w, e).net.pipes|
    && var p, q := w.net.pipes[k], Step(w, e).net.pipes[k];
       || OnlyLess(p, q)
       || (exists call :: Issues(w, e, k, call) && q == Chain(p, call))
       || (e.ChainRuns? && e.k == k && Ready(p) && q == RunNext(p, e.sendOk, w.now))
  }

  lemma {:induction false} GoesByLess(w: World, e: Event, k: nat, outcome: Outcome)
    requires k < |w.net.pipes| && k < |Step(w, e).net.pipes|
    requires var p, q := w.net.pipes[k], Step(w, e).net.pipes[k]; q == p || q == RejectAll(p, outcome, w.now)
    ensures Goes(w, e, k)
  {
    hide Step, OnlyLess;
    SettlingIsLess(w.net.pipes[k], 0, outcome, w.now);
  }

  lemma {:induction false} HelloGoes(w: World, ws: nat, hello: Hello, k: nat)
    requires Inv(w.net) && k < |w.net.pipes|
    ensures Goes(w, HelloFrame(ws, hello), k)
  {
    hide Inv, RejectAll, Supersede, IsCurrent, LiveExpect, R.Register, Goes;
    SupersededPipe(w.net, ws, hello.targetId, k, w.now);
    GoesByLess(w, HelloFrame(ws, hello), k, Replaced);
  }

  lemma {:induction false} EndGoes(w: World, e: Event, k: nat)
    requires Inv(w.net) && k < |w.net.pipes| && (e.Closed? || e.Errored?)
    ensures Goes(w, e, k)
  {
    hide Inv, Detach, RejectAll, IsCurrent, Goes;
    var n := if e.Closed? then CloseWs(w.net, e.ws) else w.net;
    CloseWsKeeps(w.net, e.ws);
    if e.ws in n.bound {
      DetachedPipe(n, n.bound[e.ws], k, w.now);
    }
    GoesByLess(w, e, k, Disconnected);
  }

  lemma {:induction false} DeleteGoes(w: World, id: string, k: nat)
    requires Inv(w.net) && k < |w.net.pipes|
    ensures Goes(w, DeleteRoute(id), k)
  {
    hide Inv, RejectAll, IsCurrent, TunnelState.DeletePeer, Goes;
    DeletedPipe(w.net, id, k, w.now);
    GoesByLess(w, DeleteRoute(id), k, Disconnected);
  }

  lemma {:induction false} SettleGoes(w: World, e: Event, k: nat)
    requires k < |w.net.pipes| && (e.ResponseFrame? || e.TimerExpires?)
    ensures Goes(w, e, k)
  {
    hide IsPending, Due, Settle, OnlyLess;
    SettlingIsLess(w.net.pipes[k], e.callId, if e.TimerExpires? then TimedOut else Replied(e.body), w.now);
  }

  lemma {:induction false} ProxyGoes(w: World, id: string, timeoutMs: Option<nat>, k: nat)
    requires Inv(w.net) && k < |w.net.pipes|
    ensures Goes(w, ProxyCall(id, timeoutMs), k)
  {
    hide Inv, OnlyLess, Chain;
    CurrentMeans(w.net, id, k);
    SettlingIsLess(w.net.pipes[k], 0, TimedOut, w.now);
    if Current(w.net, id) == Some(k) && IsConnected(w.net, id) {
      var call := Call(|w.net.issued|, w.now, if timeoutMs.Some? then timeoutMs.value else DEFAULT_TIMEOUT);
      assert Issues(w, ProxyCall(id, timeoutMs), k, call);
    }
  }

  lemma {:induction false} ChainGoes(w: World, j: nat, sendOk: bool, k: nat)
    requires k < |w.net.pipes|
    ensures Goes(w, ChainRuns(j, sendOk), k)
  {
    hide Ready, RunNext, OnlyLess;
    SettlingIsLess(w.net.pipes[k], 0, TimedOut, w.now);
  }

  lemma {:induction false} StepGoes(w: World, e: Event, k: nat)
    requires Inv(w.net) && k < |w.net.pipes|
    ensures Goes(w, e, k)
  {
    hide Inv, Goes, KeepaliveTick;
    hide R.Sweep, R.Register, R.Heartbeat, R.Select;
    match e
    case HelloFrame(ws, hello) => HelloGoes(w, ws, hello, k);
    case Closed(_) => EndGoes(w, e, k);
    case Errored(_) => EndGoes(w, e, k);
    case DeleteRoute(id) => DeleteGoes(w, id, k);
    case ResponseFrame(_, _, _) => SettleGoes(w, e, k);
    case TimerExpires(_, _) => SettleGoes(w, e, k);
    case ProxyCall(id, timeoutMs) => ProxyGoes(w, id, timeoutMs, k);
    case ChainRuns(j, sendOk) => ChainGoes(w, j, sendOk, k);
    case CloseHub => GoesByLess(w, e, k, HubClosing);
    case Tick => TickMindsTheLive(w.net, w.now); GoesByLess(w, e, k, HubClosing);
    case _ => GoesByLess(w, e, k, HubClosing);
  }

  lemma {:induction false} PendingAfter(w: World, e: Event, k: nat, q: Pending)
    requires k < |w.net.pipes| && Goes(w, e, k) && q in Step(w, e).net.pipes[k].pending
    ensures q in w.net.pipes[k].pending || Starts(w, e, k, q)
  {
    hide Step, IsSettled;
    var p := w.net.pipes[k];
    if e.ChainRuns? && e.k == k && Ready(p) {
      WithoutLast(p.pending, Pending(p.calls[p.started].id, w.now + p.calls[p.started].timeout));
    }
  }

  lemma {:induction false} WithoutLast(pending: seq<Pending>, x: Pending)
    ensures forall y :: y in Without(pending + [x], x.id) ==> y in pending
  {
    if pending == [] {
      assert pending + [x] == [x] && [x][1..] == [];
    } else {
      WithoutLast(pending[1..], x);
      assert (pending + [x])[1..] == pending[1..] + [x];
      assert pending == [pending[0]] + pending[1..];
    }
  }

  /** Every call of a binding was made while it was the open entry of its target, with the time it was made and
      the timeout it asked for, or a minute. */
  lemma {:induction false} CallsComeFromProxies(store: R.Registry, start: nat, es: seq<Event>, k: nat, i: nat)
    returns (g: nat)
    requires k < |Run(World(start, Empty(store)), es).net.pipes|
    requires i < |Run(World(start, Empty(store)), es).net.pipes[k].calls|
    ensures var w0 := World(start, Empty(store));
      g < |es| && Issues(Run(w0, es[..g]), es[g], k, Run(w0, es).net.pipes[k].calls[i])
    decreases |es|
  {
    hide Step, Inv, Issues;
    var w0 := World(start, Empty(store));
    var n := |es| - 1;
    var before := Run(w0, es[..n]);
    RunSnoc(w0, es);
    EmptyInv(store);
    RunKeeps(w0, es[..n]);
    StepMakesFresh(before, es[n]);
    StepExtends(before, es[n]);
    StepGoes(before, es[n], k);
    if i < |before.net.pipes[k].calls| {
      g := CallsComeFromProxies(store, start, es[..n], k, i);
      assert es[..n][..g] == es[..g];
    } else {
      g := n;
    }
  }

  /** Whatever is in flight was started by a send, with a deadline its own timeout later. */
  lemma {:induction false} PendingWasStarted(store: R.Registry, start: nat, es: seq<Event>, k: nat, q: Pending)
    returns (h: nat)
    requires k < |Run(World(start, Empty(store)), es).net.pipes|
    requires q in Run(World(start, Empty(store)), es).net.pipes[k].pending
    ensures var w0 := World(start, Empty(store)); h < |es| && Starts(Run(w0, es[..h]), es[h], k, q)
    decreases |es|
  {
    hide Step, Inv, Starts;
    var w0 := World(start, Empty(store));
    var n := |es| - 1;
    var before := Run(w0, es[..n]);
    RunSnoc(w0, es);
    EmptyInv(store);
    RunKeeps(w0, es[..n]);
    StepMakesFresh(before, es[n]);
    StepGoes(before, es[n], k);
    PendingAfter(before, es[n], k, q);
    if q in before.net.pipes[k].pending {
      h := PendingWasStarted(store, start, es[..n], k, q);
      assert es[..n][..h] == es[..h];
    } else {
      h := n;
    }
  }

  /** A request that timed out had been sent at least its own timeout before. */
  lemma {:induction false} TimeoutsTakeTheirTime(store: R.Registry, start: nat, es: seq<Event>, k: nat, i: nat)
    returns (h: nat, j: nat)
    requires k < |Run(World(start, Empty(store)), es).net.pipes|
    requires i < |Run(World(start, Empty(store)), es).net.pipes[k].log|
    requires Run(World(start, Empty(store)), es).net.pipes[k].log[i].outcome.TimedOut?
    ensures var w0 := World(start, Empty(store));
      var p := Run(w0, es).net.pipes[k];
      && h < j < |es| && es[h] == ChainRuns(k, true) && es[j] == TimerExpires(k, p.log[i].id)
      && k < |Run(w0, es[..h]).net.pipes| && Run(w0, es[..h]).net.pipes[k].started == i
      && i < |p.calls| && p.calls[i].id == p.log[i].id
      && Run(w0, es[..h]).now + p.calls[i].timeout <= p.log[i].at == Run(w0, es[..j]).now
  {
    hide Step, Inv;
    var w0 := World(start, Empty(store));
    j := EverySettlementHasItsCause(store, start, es, k, i);
    var w := Run(w0, es[..j]);
    var s := Run(w0, es).net.pipes[k].log[i];
    var m :| 0 <= m < |w.net.pipes[k].pending| && w.net.pipes[k].pending[m].id == s.id
      && w.net.pipes[k].pending[m].deadline <= w.now;
    var q := w.net.pipes[k].pending[m];
    h := PendingWasStarted(store, start, es[..j], k, q);
    assert es[..j][..h] == es[..h];
    SameCall(store, start, es, h, k, i, q.id);
  }

  /** The call that is started after `es[..h]` is the one that the log later lists at its place. */
  lemma {:induction false} SameCall(store: R.Registry, start: nat, es: seq<Event>, h: nat, k: nat, i: nat, id: nat)
    requires h <= |es| && k < |Run(World(start, Empty(store)), es[..h]).net.pipes|
    requires var p := Run(World(start, Empty(store)), es[..h]).net.pipes[k];
      p.started < |p.calls| && p.calls[p.started].id == id
    requires k < |Run(World(start, Empty(store)), es).net.pipes|
    requires var r := Run(World(start, Empty(store)), es).net.pipes[k]; i < |r.log| && r.log[i].id == id
    ensures var p, r := Run(World(start, Empty(store)), es[..h]).net.pipes[k],
                        Run(World(start, Empty(store)), es).net.pipes[k];
      p.started == i < |r.calls| && r.calls[i] == p.calls[i] && r.calls[i].id == id
  {
    hide Step;
    var w0 := World(start, Empty(store));
    var w := Run(w0, es[..h]);
    RunThen(w0, es[..h], es[h..]);
    assert es[..h] + es[h..] == es;
    RunExtends(w, es[h..]);
    EmptyInv(store);
    RunKeeps(w0, es);
    Orderlies(Run(w0, es).net, k);
    var p, r := w.net.pipes[k], Run(w0, es).net.pipes[k];
    assert r.calls[..|p.calls|] == p.calls && r.calls[p.started] == p.calls[p.started];
    assert r.calls[i].id == r.log[i].id;
  }
}
