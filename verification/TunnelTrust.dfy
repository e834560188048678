/** Where an entry of the socket map and a "connected" flag come from. */
module TunnelTrust {
  import opened Options
  import opened PeerSocket
  import opened TunnelState
  import opened TunnelSafety
  import R = PeerRegistry

  /** A record that says "connected" is a tunnel peer with an entry in the socket map. */
  predicate Backed(n: Net) {
    BackedBy(n.store, n.sockets.Keys)
  }

  predicate BackedBy(s: R.Registry, targets: set<string>) {
    forall id :: id in s.records ==>
      && s.records[id].peer.id == id
      && (s.records[id].peer.tunnelConnected == Some(true) ==> s.records[id].peer.transport.Tunnel? && id in targets)
  }

  /** The two events that can leave a flag behind: closing the hub, and a raw registration that claims
      to be connected. */
  predicate Honest(e: Event) {
    !e.CloseHub? && (e.RegisterRoute? ==> e.peer.tunnelConnected != Some(true))
  }

  lemma {:induction false} SweepBacked(s: R.Registry, targets: set<string>, now: int)
    requires BackedBy(s, targets)
    ensures BackedBy(R.Sweep(s, now), targets)
  {
  }

  lemma {:induction false} HeartbeatBacked(s: R.Registry, targets: set<string>, id: string, now: int)
    requires BackedBy(s, targets)
    ensures BackedBy(R.Heartbeat(s, id, now), targets)
  {
  }

  lemma {:induction false} SelectBacked(s: R.Registry, targets: set<string>, id: string)
    requires BackedBy(s, targets) && id in s.records
    ensures BackedBy(R.Select(s, id).value, targets)
  {
  }

  lemma {:induction false} TickBacked(s: R.Registry, targets: set<string>, live: set<string>, now: int)
    requires BackedBy(s, targets)
    ensures BackedBy(R.TickStore(s, live, now), targets)
  {
    var listed := R.Sweep(s, now);
    SweepBacked(s, targets, now);
    R.BeatAllKeeps(listed, listed.order, live, now);
    SweepBacked(R.BeatAll(listed, listed.order, live, now), targets, now);
  }

  lemma {:induction false} RegisterBacked(s: R.Registry, targets: set<string>, peer: R.Peer, now: int)
    requires BackedBy(s, targets)
    requires peer.tunnelConnected == Some(true) ==> peer.transport.Tunnel? && peer.id in targets
    ensures BackedBy(R.Register(s, peer, now), targets)
    ensures BackedBy(R.Sweep(R.Register(s, peer, now), now), targets)
  {
    SweepBacked(R.Register(s, peer, now), targets, now);
  }

  lemma {:induction false} DetachBacked(n: Net, id: string, now: nat)
    requires Backed(n)
    ensures Backed(Detach(n, id, now))
  {
    hide RejectAll;
  }

  lemma {:induction false} DeleteBacked(n: Net, id: string, now: nat)
    requires Backed(n)
    ensures Backed(DeletePeer(n, id, now))
  {
    DetachBacked(n, id, now);
    var m := if IsConnected(n, id) then Detach(n, id, now) else n;
    if id in m.store.records {
      SweepBacked(R.Remove(m.store, id), m.sockets.Keys, now);
    }
  }

  lemma {:induction false} HelloBacked(n: Net, ws: nat, hello: Hello, now: nat)
    requires Backed(n)
    ensures Backed(OnHello(n, ws, hello, now))
  {
    if Admits(n, hello, now) {
      var m := Supersede(n, ws, hello.targetId, now);
      var peer := HelloPeer(hello);
      RegisterBacked(n.store, n.sockets.Keys + {hello.targetId}, peer, now);
      assert m.store == n.store && m.sockets == n.sockets;
    }
  }

  lemma {:induction false} StepBacked(w: World, e: Event)
    requires Backed(w.net) && Honest(e)
    ensures Backed(Step(w, e).net)
  {
    hide Ready, Due, IsPending, Settle, RunNext, Chain, RejectAll, LiveExpect, Admits, R.Sweep, R.Register;
    hide OnHello, Detach, DeletePeer, KeepaliveTick, LiveIds, BackedBy, R.Heartbeat;
    var n, now := w.net, w.now;
    var targets := n.sockets.Keys;
    match e
    case HelloFrame(ws, hello) => HelloBacked(n, ws, hello, now);
    case Closed(ws) => if ws in n.bound { DetachBacked(CloseWs(n, ws), n.bound[ws], now); }
    case Errored(ws) => if ws in n.bound { DetachBacked(n, n.bound[ws], now); }
    case ExpectRoute(id, nonce, ttlMs, details) =>
      RegisterBacked(n.store, targets, Placeholder(id, nonce, details), now);
    case RegisterRoute(peer) => RegisterBacked(n.store, targets, peer, now);
    case HeartbeatRoute(id) => HeartbeatBacked(n.store, targets, id, now);
    case DeleteRoute(id) => DeleteBacked(n, id, now);
    case StickyRoute(id) =>
      if id in n.store.records {
        SelectBacked(n.store, targets, id);
        SweepBacked(R.Select(n.store, id).value, targets, now);
      }
    case ListRoute => SweepBacked(n.store, targets, now);
    case PersistTimer => SweepBacked(n.store, targets, now);
    case Tick =>
      TickBacked(n.store, targets, LiveIds(n, now), now);
      TickMindsTheLive(n, now);
    case _ =>
  }

  /** Until the hub closes, and while no raw registration claims the flag, a record whose flag says
      "connected" always has an entry in the socket map. */
  lemma {:induction false} FlagsAreBacked(w: World, es: seq<Event>)
    requires Backed(w.net)
    requires forall i :: 0 <= i < |es| ==> Honest(es[i])
    ensures Backed(Run(w, es).net)
    decreases es
  {
    if es != [] {
      StepBacked(w, es[0]);
      FlagsAreBacked(Step(w, es[0]), es[1..]);
    }
  }

  /** Closing keeps the flags sound exactly when no record said "connected". */
  lemma {:induction false} CloseAllForgetsFlags(n: Net, now: nat)
    requires Backed(n)
    ensures Backed(CloseAll(n, now)) <==>
            forall id :: id in n.store.records ==> n.store.records[id].peer.tunnelConnected != Some(true)
  {
    assert CloseAll(n, now).sockets == map[];
  }

  // ---------- where an entry comes from ----------

  /** `e` is a hello, taken in state `w`, that matches an unexpired expectation for `id` by nonce and
      makes binding `k` on its own connection. */
  predicate Introduces(w: World, e: Event, id: string, k: nat) {
    && e.HelloFrame? && e.ws < w.net.nextWs && e.hello.targetId == id && k == |w.net.pipes|
    && id in w.net.expects && w.now <= w.net.expects[id].expiresAt && w.net.expects[id].nonce == e.hello.nonce
  }

  lemma {:induction false} TickKeepsSockets(n: Net, now: nat)
    ensures KeepaliveTick(n, now).sockets == n.sockets
    ensures forall id :: id in KeepaliveTick(n, now).expects ==>
              id in n.expects && KeepaliveTick(n, now).expects[id] == n.expects[id]
  {
    TickMindsTheLive(n, now);
  }

  /** `m` has no entry that `n` did not have. */
  predicate NoNewEntry(n: Net, m: Net) {
    forall id :: id in m.sockets ==> id in n.sockets && m.sockets[id] == n.sockets[id]
  }

  lemma {:induction false} LeavingAddsNoEntry(n: Net, id: string, now: nat)
    ensures NoNewEntry(n, Detach(n, id, now)) && NoNewEntry(n, TunnelState.DeletePeer(n, id, now))
    ensures NoNewEntry(n, CloseAll(n, now))
  {
    hide R.Sweep, R.Register, R.Remove, RejectAll;
  }

  lemma {:induction false} HelloIntroduces(w: World, ws: nat, hello: Hello, id: string)
    requires ws < w.net.nextWs && id in OnHello(w.net, ws, hello, w.now).sockets
    requires !(id in w.net.sockets && w.net.sockets[id] == OnHello(w.net, ws, hello, w.now).sockets[id])
    ensures var m := OnHello(w.net, ws, hello, w.now);
      && Introduces(w, HelloFrame(ws, hello), id, m.sockets[id])
      && m.pipes[m.sockets[id]] == Fresh(ws, id)
  {
    hide R.Sweep, R.Register, RejectAll;
  }

  lemma {:induction false} StepIntroduces(w: World, e: Event, id: string)
    requires id in Step(w, e).net.sockets
    requires !(id in w.net.sockets && w.net.sockets[id] == Step(w, e).net.sockets[id])
    ensures Introduces(w, e, id, Step(w, e).net.sockets[id])
    ensures Step(w, e).net.pipes[Step(w, e).net.sockets[id]] == Fresh(e.ws, id)
  {
    hide OnHello, Detach, DeletePeer, CloseAll, KeepaliveTick, Ready, Due, IsPending, Settle, RunNext, Chain;
    hide R.Sweep, R.Register, R.Remove, R.Heartbeat, R.Select;
    var n, now := w.net, w.now;
    match e
    case HelloFrame(ws, hello) => HelloIntroduces(w, ws, hello, id);
    case Closed(ws) => if ws in n.bound { LeavingAddsNoEntry(CloseWs(n, ws), n.bound[ws], now); }
    case Errored(ws) => if ws in n.bound { LeavingAddsNoEntry(n, n.bound[ws], now); }
    case DeleteRoute(other) => LeavingAddsNoEntry(n, other, now);
    case CloseHub => LeavingAddsNoEntry(n, id, now);
    case Tick => TickKeepsSockets(n, now);
    case _ =>
  }

  /** Every entry of the socket map was there at the start or goes back to such a hello, and its
      binding sits on the connection that hello came in on. */
  lemma {:induction false} EntriesComeFromHellos(w: World, es: seq<Event>, id: string)
    requires id in Run(w, es).net.sockets
    requires !(id in w.net.sockets && w.net.sockets[id] == Run(w, es).net.sockets[id])
    ensures exists i :: 0 <= i < |es| && Introduces(Run(w, es[..i]), es[i], id, Run(w, es).net.sockets[id])
              && Run(w, es).net.sockets[id] < |Run(w, es).net.pipes|
              && Run(w, es).net.pipes[Run(w, es).net.sockets[id]].ws == es[i].ws
    decreases es
  {
    var k := Run(w, es).net.sockets[id];
    var next := Step(w, es[0]);
    if id in next.net.sockets && next.net.sockets[id] == k {
      StepIntroduces(w, es[0], id);
      RunExtends(next, es[1..]);
      assert Run(w, es[..0]) == w;
    } else {
      EntriesComeFromHellos(next, es[1..], id);
      var j :| 0 <= j < |es| - 1 && Introduces(Run(next, es[1..][..j]), es[1..][j], id, k)
        && k < |Run(w, es).net.pipes| && Run(w, es).net.pipes[k].ws == es[1..][j].ws;
      assert es[..j + 1][1..] == es[1..][..j] && es[..j + 1][0] == es[0];
    }
  }

  /** An expectation was there at the start, with this nonce, or its nonce came with an expect route. */
  lemma {:induction false} NoncesComeFromRoutes(w: World, es: seq<Event>, id: string)
    requires id in Run(w, es).net.expects
    ensures || (id in w.net.expects && w.net.expects[id].nonce == Run(w, es).net.expects[id].nonce)
            || exists i :: 0 <= i < |es| && Announces(es[i], id, Run(w, es).net.expects[id].nonce)
    decreases es
  {
    if es != [] {
      var next := Step(w, es[0]);
      NoncesComeFromRoutes(next, es[1..], id);
      var nonce := Run(w, es).net.expects[id].nonce;
      if id in next.net.expects && next.net.expects[id].nonce == nonce {
        if !(id in w.net.expects && w.net.expects[id].nonce == nonce) {
          StepExpects(w, es[0], id);
        }
      } else {
        var j :| 0 <= j < |es| - 1 && Announces(es[1..][j], id, nonce);
        assert es[j + 1] == es[1..][j];
      }
    }
  }

  predicate Announces(e: Event, id: string, nonce: string) {
    e.ExpectRoute? && e.id == id && e.nonce == nonce
  }

  function TtlOf(ttlMs: Option<nat>): nat {
    if ttlMs.Some? then ttlMs.value else 600_000
  }

  /** The expectation `x` for `id` stands after `e`: it is as it was, or the route has just announced it, or an
      accepted hello has put its end off. */
  predicate Stands(w: World, e: Event, id: string, x: Expect) {
    || (id in w.net.expects && x == w.net.expects[id])
    || (e.ExpectRoute? && e.id == id && x == Expect(e.nonce, e.ttlMs, e.details, w.now + TtlOf(e.ttlMs)))
    || (Introduces(w, e, id, |w.net.pipes|)
        && x == w.net.expects[id].(expiresAt := w.now + TtlOf(w.net.expects[id].ttlMs)))
  }

  predicate NoNewExpect(n: Net, m: Net) {
    forall id :: id in m.expects ==> id in n.expects && m.expects[id] == n.expects[id]
  }

  lemma {:induction false} HelloExpects(w: World, ws: nat, hello: Hello, id: string)
    requires ws < w.net.nextWs && id in OnHello(w.net, ws, hello, w.now).expects
    ensures Stands(w, HelloFrame(ws, hello), id, OnHello(w.net, ws, hello, w.now).expects[id])
  {
    hide R.Register, RejectAll;
  }

  lemma {:induction false} LeavingExpects(n: Net, id: string, now: nat)
    ensures NoNewExpect(n, Detach(n, id, now)) && NoNewExpect(n, TunnelState.DeletePeer(n, id, now))
    ensures NoNewExpect(n, CloseAll(n, now))
  {
    hide R.Sweep, R.Register, R.Remove, RejectAll;
  }

  lemma {:induction false} StepExpects(w: World, e: Event, id: string)
    requires id in Step(w, e).net.expects
    ensures Stands(w, e, id, Step(w, e).net.expects[id])
  {
    hide OnHello, Detach, DeletePeer, CloseAll, KeepaliveTick, Ready, Due, IsPending, Settle, RunNext, Chain;
    hide R.Sweep, R.Register, R.Remove, R.Heartbeat, R.Select;
    var n, now := w.net, w.now;
    match e
    case HelloFrame(ws, hello) => if ws < n.nextWs { HelloExpects(w, ws, hello, id); }
    case Closed(ws) => if ws in n.bound { LeavingExpects(CloseWs(n, ws), n.bound[ws], now); }
    case Errored(ws) => if ws in n.bound { LeavingExpects(n, n.bound[ws], now); }
    case DeleteRoute(other) => LeavingExpects(n, other, now);
    case CloseHub => LeavingExpects(n, id, now);
    case Tick => TickKeepsSockets(n, now);
    case _ =>
  }

  /** Nonce and time-to-live of an expectation come from one expect route `h`, and it ends that time after the
      route, or after a hello `j` accepted since. */
  lemma {:induction false} ExpectationsEnd(store: R.Registry, start: nat, es: seq<Event>, id: string)
    returns (h: nat, j: nat)
    requires id in Run(World(start, Empty(store)), es).net.expects
    ensures var w0 := World(start, Empty(store));
      var x := Run(w0, es).net.expects[id];
      && h <= j < |es| && Announces(es[h], id, x.nonce) && es[h].ttlMs == x.ttlMs
      && (j == h || Introduces(Run(w0, es[..j]), es[j], id, |Run(w0, es[..j]).net.pipes|))
      && x.expiresAt == Run(w0, es[..j]).now + TtlOf(x.ttlMs)
    decreases |es|
  {
    hide Step, Introduces;
    var w0 := World(start, Empty(store));
    var n := |es| - 1;
    var before := Run(w0, es[..n]);
    RunSnoc(w0, es);
    StepExpects(before, es[n], id);
    if es[n].ExpectRoute? && es[n].id == id && Run(w0, es).net.expects[id] ==
      Expect(es[n].nonce, es[n].ttlMs, es[n].details, before.now + TtlOf(es[n].ttlMs)) {
      h, j := n, n;
    } else {
      IntroducesKnown(before, es[n], id);
      h, j := ExpectationsEnd(store, start, es[..n], id);
      assert es[..n][h] == es[h] && es[..n][j] == es[j] && es[..n][..j] == es[..j];
      if Run(w0, es).net.expects[id] != before.net.expects[id] {
        j := n;
      }
    }
  }

  lemma {:induction false} IntroducesKnown(w: World, e: Event, id: string)
    ensures Introduces(w, e, id, |w.net.pipes|) ==> id in w.net.expects
  {
  }

  /** So a hello is accepted only with the nonce of an expect route, and within the time-to-live which that route
      gave, counted from the route itself or from a hello accepted since. */
  lemma {:induction false} HellosComeInTime(store: R.Registry, start: nat, es: seq<Event>, id: string, i: nat)
    returns (h: nat, j: nat)
    requires i < |es|
    requires var w := Run(World(start, Empty(store)), es[..i]); Introduces(w, es[i], id, |w.net.pipes|)
    ensures var w0 := World(start, Empty(store));
      && h <= j < i && Announces(es[h], id, es[i].hello.nonce)
      && (j == h || Introduces(Run(w0, es[..j]), es[j], id, |Run(w0, es[..j]).net.pipes|))
      && Run(w0, es[..i]).now <= Run(w0, es[..j]).now + TtlOf(es[h].ttlMs)
  {
    h, j := ExpectationsEnd(store, start, es[..i], id);
    assert es[..i][h] == es[h] && es[..i][j] == es[j] && es[..i][..j] == es[..j];
  }

  /** So in a run from a hub without connections every connected target said, on its own connection and
      in time, the nonce that an earlier expect route announced for it. */
  lemma {:induction false} EveryEntryWasExpected(store: R.Registry, start: nat, es: seq<Event>, id: string)
    requires id in Run(World(start, Empty(store)), es).net.sockets
    ensures exists h, i :: 0 <= h < i < |es| &&
              Introduces(Run(World(start, Empty(store)), es[..i]), es[i], id,
                         Run(World(start, Empty(store)), es).net.sockets[id]) &&
              Announces(es[h], id, es[i].hello.nonce)
  {
    var w0 := World(start, Empty(store));
    EntriesComeFromHellos(w0, es, id);
    var i :| 0 <= i < |es| && Introduces(Run(w0, es[..i]), es[i], id, Run(w0, es).net.sockets[id]);
    var w := Run(w0, es[..i]);
    var nonce := es[i].hello.nonce;
    assert w.net.expects[id].nonce == nonce;
    NoncesComeFromRoutes(w0, es[..i], id);
    var h :| 0 <= h < |es[..i]| && Announces(es[..i][h], id, nonce);
    assert es[h] == es[..i][h];
    assert Announces(es[h], id, es[i].hello.nonce);
  }

  // ---------- how long an entry stays ----------

  /** The events that end the present entry of `id`: a further accepted hello for it, the end of any connection
      that is bound to it - the one it holds or one it replaced -, its deletion while it is connected, and the
      end of the hub. */
  predicate Drops(w: World, e: Event, id: string) {
    match e
    case HelloFrame(ws, hello) => ws < w.net.nextWs && hello.targetId == id && Admits(w.net, hello, w.now)
    case Closed(ws) => ws in w.net.bound && w.net.bound[ws] == id
    case Errored(ws) => ws in w.net.bound && w.net.bound[ws] == id
    case DeleteRoute(other) => other == id && IsConnected(w.net, id)
    case CloseHub => true
    case _ => false
  }

  predicate HasEntry(n: Net, id: string, k: nat) {
    id in n.sockets && n.sockets[id] == k
  }

  lemma {:induction false} HelloReplaces(n: Net, ws: nat, hello: Hello, id: string, k: nat, now: nat)
    requires HasEntry(n, id, k) && k < |n.pipes|
    ensures HasEntry(OnHello(n, ws, hello, now), id, k) <==> !(hello.targetId == id && Admits(n, hello, now))
  {
    hide R.Register, RejectAll;
  }

  lemma {:induction false} DetachRemoves(n: Net, gone: string, id: string, k: nat, now: nat)
    requires HasEntry(n, id, k) && k < |n.pipes|
    ensures HasEntry(Detach(n, gone, now), id, k) <==> gone != id
    ensures HasEntry(TunnelState.DeletePeer(n, gone, now), id, k) <==> !(gone == id && IsConnected(n, id))
  {
    hide R.Register, R.Remove, R.Sweep, RejectAll;
  }

  lemma {:induction false} ClosingRemoves(n: Net, id: string, k: nat, now: nat)
    ensures !HasEntry(CloseAll(n, now), id, k)
  {
    assert CloseAll(n, now).sockets == map[];
  }

  /** An entry stays exactly if the event is none of these. */
  lemma {:induction false} EntryStaysUnlessDropped(w: World, e: Event, id: string, k: nat)
    requires Inv(w.net) && HasEntry(w.net, id, k)
    ensures HasEntry(Step(w, e).net, id, k) <==> !Drops(w, e, id)
  {
    hide OnHello, Detach, DeletePeer, CloseAll, KeepaliveTick, Ready, Due, IsPending, Settle, RunNext, Chain, Admits;
    hide R.Sweep, R.Register, R.Remove, R.Heartbeat, R.Select, Orderly;
    var n, now := w.net, w.now;
    match e
    case HelloFrame(ws, hello) => HelloReplaces(n, ws, hello, id, k, now);
    case Closed(ws) => if ws in n.bound { DetachRemoves(CloseWs(n, ws), n.bound[ws], id, k, now); }
    case Errored(ws) => if ws in n.bound { DetachRemoves(n, n.bound[ws], id, k, now); }
    case DeleteRoute(other) => DetachRemoves(n, other, id, k, now);
    case CloseHub => ClosingRemoves(n, id, k, now);
    case Tick => TickKeepsSockets(n, now);
    case _ =>
  }

  /** A binding that lost its entry never gets it back. */
  lemma {:induction false} LostForGood(w: World, es: seq<Event>, id: string, k: nat)
    requires !HasEntry(w.net, id, k) && k < |w.net.pipes|
    ensures !HasEntry(Run(w, es).net, id, k)
    decreases es
  {
    hide Step, Fresh;
    if es != [] {
      var next := Step(w, es[0]);
      if HasEntry(next.net, id, k) {
        StepIntroduces(w, es[0], id);
      }
      StepExtends(w, es[0]);
      LostForGood(next, es[1..], id, k);
    }
  }

  /** Over whole runs: a binding is still the entry of its target at the end exactly if no event on the way
      was one that drops it. */
  lemma {:induction false} EntrySurvivesExactly(w: World, es: seq<Event>, id: string, k: nat)
    requires Inv(w.net) && HasEntry(w.net, id, k)
    ensures HasEntry(Run(w, es).net, id, k)
      <==> forall i :: 0 <= i < |es| ==> !Drops(Run(w, es[..i]), es[i], id)
    decreases es
  {
    hide Inv, Step, Drops;
    if es != [] {
      var next := Step(w, es[0]);
      assert es[..0] == [] && Run(w, es[..0]) == w;
      EntryStaysUnlessDropped(w, es[0], id, k);
      StepKeeps(w, es[0]);
      InvLinks(w.net, id);
      StepExtends(w, es[0]);
      forall i | 0 < i < |es|
        ensures Run(w, es[..i]) == Run(next, es[1..][..i - 1]) && es[i] == es[1..][i - 1]
      {
        assert es[..i][1..] == es[1..][..i - 1] && es[..i][0] == es[0];
      }
      if HasEntry(next.net, id, k) {
        EntrySurvivesExactly(next, es[1..], id, k);
        forall j | 0 <= j < |es| - 1
          ensures Drops(Run(next, es[1..][..j]), es[1..][j], id) <==> Drops(Run(w, es[..j + 1]), es[j + 1], id)
        {
          assert es[..j + 1][1..] == es[1..][..j] && es[..j + 1][0] == es[0];
        }
      } else {
        LostForGood(next, es[1..], id, k);
      }
    }
  }

  /** In particular the replacement of a connection does not survive it: a hello on another connection takes a
      target over, the old connection stays bound to that target, and its later close event drops the new
      entry, and only that. */
  lemma {:induction false} OldCloseDropsTheReplacement(n: Net, former: nat, ws: nat, hello: Hello, now: nat, later: nat)
    requires Inv(n) && Admits(n, hello, now) && former != ws
    requires former in n.bound && n.bound[former] == hello.targetId
    ensures var m := OnHello(n, ws, hello, now);
            var id := hello.targetId;
            && id in m.sockets && m.pipes[m.sockets[id]] == Fresh(ws, id)
            && id !in OnGone(CloseWs(m, former), former, later).sockets
            && (forall t :: t != id ==> (t in OnGone(CloseWs(m, former), former, later).sockets <==> t in n.sockets))
  {
    OnHelloKeeps(n, ws, hello, now);
  }
}
