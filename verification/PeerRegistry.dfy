/** The value of the hub's peer registry: an insertion-ordered map of records with one sticky selection
    and a time-to-live sweep (src/hub/peerStore.ts). The class in PeerStore.dfy updates its fields in
    place and is proved against these functions. */
module PeerRegistry {
  import opened Options

  datatype Transport = Http | Tunnel

  datatype PeerSource = Registered | Owned | Builtin

  /** A registered peer. `details` stands for the fields the store only carries along. */
  datatype Peer = Peer(id: string, source: PeerSource, transport: Transport, nonce: Option<string>,
                       tunnelConnected: Option<bool>, details: string)

  datatype Record = Record(peer: Peer, lastHeartbeatAt: int, registeredAt: int)

  /** `order` is the insertion order of the map's keys. */
  datatype Registry = Registry(ttl: nat, order: seq<string>, records: map<string, Record>, selected: Option<string>)

  // ---------- the operations on values ----------

  function Register(s: Registry, peer: Peer, now: int): Registry {
    var registeredAt := if peer.id in s.records then s.records[peer.id].registeredAt else now;
    s.(order := if peer.id in s.records then s.order else s.order + [peer.id],
       records := s.records[peer.id := Record(peer, now, registeredAt)],
       selected := if s.selected.None? then Some(peer.id) else s.selected)
  }

  function Heartbeat(s: Registry, id: string, now: int): Registry {
    if id in s.records then s.(records := s.records[id := s.records[id].(lastHeartbeatAt := now)]) else s
  }

  /** The keys of `order` that are still in `alive`, in their old order. */
  function Retain(order: seq<string>, alive: set<string>): seq<string> {
    if order == [] then []
    else if order[0] in alive then [order[0]] + Retain(order[1..], alive)
    else Retain(order[1..], alive)
  }

  function First(order: seq<string>): Option<string> {
    if order == [] then None else Some(order[0])
  }

  function Remove(s: Registry, id: string): Registry {
    if id in s.records then
      var order := Retain(s.order, s.records.Keys - {id});
      s.(order := order, records := s.records - {id},
         selected := if s.selected == Some(id) then First(order) else s.selected)
    else s
  }

  function Select(s: Registry, id: string): Option<Registry> {
    if id in s.records then Some(s.(selected := Some(id))) else None
  }

  predicate Expired(s: Registry, id: string, now: int)
    requires id in s.records
  {
    now - s.records[id].lastHeartbeatAt > s.ttl
  }

  function Alive(s: Registry, now: int): set<string> {
    set id | id in s.records && !Expired(s, id, now)
  }

  /** A selection is replaced only when it is truthy: neither null nor the empty string. */
  predicate SelectionLost(selected: Option<string>, alive: set<string>) {
    selected.Some? && selected.value != "" && selected.value !in alive
  }

  function Sweep(s: Registry, now: int): Registry {
    var alive := Alive(s, now);
    var order := Retain(s.order, alive);
    s.(order := order, records := s.records - (s.records.Keys - alive),
       selected := if SelectionLost(s.selected, alive) then First(order) else s.selected)
  }

  function Records(s: Registry): seq<Record>
    requires WellKeyed(s)
  {
    seq(|s.order|, i requires 0 <= i < |s.order| => s.records[s.order[i]])
  }

  // ---------- what every store keeps ----------

  /** The insertion order lists every key once. */
  ghost predicate WellKeyed(s: Registry) {
    && (forall i, j :: 0 <= i < j < |s.order| ==> s.order[i] != s.order[j])
    && (forall id :: id in s.order <==> id in s.records)
    && (forall id :: id in s.records ==> s.records[id].peer.id == id)
  }

  /** Nothing is selected exactly when nothing is registered, and a selection names a live peer. */
  predicate SelectionSound(s: Registry) {
    && (s.selected.None? <==> s.order == [])
    && (s.selected.Some? ==> s.selected.value in s.records)
  }

  ghost predicate Sound(s: Registry) {
    WellKeyed(s) && SelectionSound(s)
  }

  lemma {:induction false} RetainKeeps(order: seq<string>, alive: set<string>)
    requires forall i, j :: 0 <= i < j < |order| ==> order[i] != order[j]
    ensures forall id :: id in Retain(order, alive) <==> id in order && id in alive
    ensures forall i, j :: 0 <= i < j < |Retain(order, alive)| ==> Retain(order, alive)[i] != Retain(order, alive)[j]
  {
    if order != [] {
      RetainKeeps(order[1..], alive);
      assert forall id :: id in order <==> id == order[0] || id in order[1..];
    }
  }

  lemma {:induction false} RetainAll(order: seq<string>, alive: set<string>)
    requires forall id :: id in order ==> id in alive
    ensures Retain(order, alive) == order
  {
    if order != [] {
      RetainAll(order[1..], alive);
      assert order == [order[0]] + order[1..];
    }
  }

  lemma {:induction false} RetainNext(order: seq<string>, i: nat, alive: set<string>)
    requires i < |order|
    ensures Retain(order[..i + 1], alive) ==
            Retain(order[..i], alive) + if order[i] in alive then [order[i]] else []
  {
    if i == 0 {
      assert order[..1] == [order[0]];
      assert [order[0]][1..] == [];
    } else {
      RetainNext(order[1..], i - 1, alive);
      assert order[..i][1..] == order[1..][..i - 1] && order[..i + 1][1..] == order[1..][..i];
    }
  }

  lemma {:induction false} RegisterKeepsKeys(s: Registry, peer: Peer, now: int)
    requires WellKeyed(s)
    ensures WellKeyed(Register(s, peer, now))
  {
    var t := Register(s, peer, now);
    assert t.order == s.order || t.order[|s.order|] == peer.id;
    assert forall id :: id in s.order ==> id in t.order;
  }

  lemma {:induction false} RegisterKeepsSound(s: Registry, peer: Peer, now: int)
    requires Sound(s)
    ensures Sound(Register(s, peer, now))
  {
    RegisterKeepsKeys(s, peer, now);
  }

  lemma {:induction false} RemoveKeepsSound(s: Registry, id: string)
    requires Sound(s)
    ensures Sound(Remove(s, id))
  {
    RetainKeeps(s.order, s.records.Keys - {id});
    var t := Remove(s, id);
    if id in s.records && s.selected != Some(id) {
      assert s.selected.value in t.order;
    }
  }

  /** A sweep keeps exactly the records that have not expired, untouched and in their old order. */
  lemma {:induction false} SweepFacts(s: Registry, now: int)
    requires WellKeyed(s)
    ensures WellKeyed(Sweep(s, now)) && Sweep(s, now).ttl == s.ttl
    ensures Sweep(s, now).records.Keys == Alive(s, now)
    ensures forall id :: id in Sweep(s, now).records ==> Sweep(s, now).records[id] == s.records[id]
  {
    RetainKeeps(s.order, Alive(s, now));
    var t := Sweep(s, now);
    assert forall i :: 0 <= i < |t.order| ==> t.order[i] in Retain(s.order, Alive(s, now));
  }

  /** A sweep keeps the store sound, with one exception that a caller can see beforehand: a peer
      registered under the empty id is selected and expired. The selection then dangles. */
  lemma {:induction false} SweepKeepsSound(s: Registry, now: int)
    requires Sound(s)
    ensures WellKeyed(Sweep(s, now))
    ensures SelectionSound(Sweep(s, now)) <==> !(s.selected == Some("") && Expired(s, "", now))
  {
    SweepFacts(s, now);
    RetainKeeps(s.order, Alive(s, now));
    var t := Sweep(s, now);
    if s.selected.Some? && !SelectionLost(s.selected, Alive(s, now)) && s.selected.value != "" {
      assert s.selected.value in t.order;
    }
    if t.order != [] {
      assert t.order[0] in Alive(s, now);
    }
    if s.selected == Some("") && !Expired(s, "", now) {
      assert "" in t.order;
    }
  }

  lemma {:induction false} EmptyIdDangles()
    ensures var s := Register(Registry(45000, [], map[], None), Peer("", Registered, Http, None, None, ""), 0);
            Sound(s) && !SelectionSound(Sweep(s, 45001))
  {
    var empty := Registry(45000, [], map[], None);
    var p := Peer("", Registered, Http, None, None, "");
    RegisterKeepsSound(empty, p, 0);
    SweepKeepsSound(Register(empty, p, 0), 45001);
  }

  // ---------- runs of operations ----------

  /** One call into the store. `Tick(now, live)` is the hub's keepalive tick: `live` holds the peers
      whose tunnel is connected or expected at that moment (src/hub/server.ts:316-326). */
  datatype Op =
    | DoRegister(peer: Peer, now: int)
    | DoHeartbeat(id: string, now: int)
    | DoRemove(id: string, now: int)
    | DoSelect(id: string, now: int)
    | DoSweep(now: int)
    | Tick(now: int, live: set<string>)

  /** The tick's heartbeats: every listed tunnel peer in `live`. */
  function BeatAll(s: Registry, ids: seq<string>, live: set<string>, now: int): Registry
    decreases ids
  {
    if ids == [] then s
    else
      var id := ids[0];
      var beats := id in s.records && s.records[id].peer.transport.Tunnel? && id in live;
      BeatAll(if beats then Heartbeat(s, id, now) else s, ids[1..], live, now)
  }

  function TickStore(s: Registry, live: set<string>, now: int): Registry {
    var listed := Sweep(s, now);
    Sweep(BeatAll(listed, listed.order, live, now), now)
  }

  function Apply(s: Registry, op: Op): Registry {
    match op
    case DoRegister(peer, now) => Register(s, peer, now)
    case DoHeartbeat(id, now) => Heartbeat(s, id, now)
    case DoRemove(id, _) => Remove(s, id)
    case DoSelect(id, _) => (match Select(s, id) case Some(t) => t case None => s)
    case DoSweep(now) => Sweep(s, now)
    case Tick(now, live) => TickStore(s, live, now)
  }

  function Run(s: Registry, ops: seq<Op>): Registry
    decreases ops
  {
    if ops == [] then s else Run(Apply(s, ops[0]), ops[1..])
  }

  predicate Named(op: Op) {
    op.DoRegister? ==> op.peer.id != ""
  }

  lemma {:induction false} BeatAllKeeps(s: Registry, ids: seq<string>, live: set<string>, now: int)
    ensures var t := BeatAll(s, ids, live, now);
            && t.order == s.order && t.selected == s.selected && t.ttl == s.ttl && t.records.Keys == s.records.Keys
            && forall id :: id in s.records ==>
                 && t.records[id].peer == s.records[id].peer
                 && t.records[id].registeredAt == s.records[id].registeredAt
                 && t.records[id].lastHeartbeatAt ==
                      if id in ids && s.records[id].peer.transport.Tunnel? && id in live then now
                      else s.records[id].lastHeartbeatAt
    decreases ids
  {
    if ids != [] {
      var id := ids[0];
      var beats := id in s.records && s.records[id].peer.transport.Tunnel? && id in live;
      BeatAllKeeps(if beats then Heartbeat(s, id, now) else s, ids[1..], live, now);
    }
  }

  /** A tick drops exactly what had expired before it - its second sweep finds nothing more - and
      moves the heartbeat of the live tunnel peers to `now`. */
  lemma {:induction false} TickFacts(s: Registry, live: set<string>, now: int)
    requires WellKeyed(s)
    ensures var t := TickStore(s, live, now);
            && WellKeyed(t) && t.ttl == s.ttl && t.records.Keys == Alive(s, now)
            && t.order == Sweep(s, now).order && t.selected == Sweep(s, now).selected
            && forall id :: id in t.records ==>
                 t.records[id] == if s.records[id].peer.transport.Tunnel? && id in live
                                  then s.records[id].(lastHeartbeatAt := now) else s.records[id]
  {
    SweepFacts(s, now);
    SweptSelection(s, now);
    hide Sweep;
    var listed := Sweep(s, now);
    BeatAllKeeps(listed, listed.order, live, now);
    var beaten := BeatAll(listed, listed.order, live, now);
    NothingToSweep(beaten, now);
  }

  lemma {:induction false} SweptSelection(s: Registry, now: int)
    requires WellKeyed(s)
    ensures var t := Sweep(s, now); !SelectionLost(t.selected, t.records.Keys)
  {
    SweepFacts(s, now);
    var t := Sweep(s, now);
    assert t.order != [] ==> t.order[0] in t.order;
  }

  lemma {:induction false} NothingToSweep(s: Registry, now: int)
    requires WellKeyed(s) && Alive(s, now) == s.records.Keys && !SelectionLost(s.selected, s.records.Keys)
    ensures Sweep(s, now) == s
  {
    var alive := Alive(s, now);
    assert forall id :: id in s.order ==> id in alive;
    RetainAll(s.order, alive);
    hide WellKeyed, Alive, Retain, First;
    var gone := s.records.Keys - alive;
    assert gone == {} && s.records - gone == s.records;
  }

  lemma {:induction false} ApplyKeepsSound(s: Registry, op: Op)
    requires Sound(s) && "" !in s.records && Named(op)
    ensures Sound(Apply(s, op)) && "" !in Apply(s, op).records && Apply(s, op).ttl == s.ttl
  {
    match op
    case DoRegister(peer, now) => RegisterKeepsSound(s, peer, now);
    case DoHeartbeat(id, now) =>
    case DoRemove(id, _) => RemoveKeepsSound(s, id);
    case DoSelect(id, _) =>
    case DoSweep(now) => SweepKeepsSound(s, now);
    case Tick(now, live) =>
      SweepKeepsSound(s, now);
      TickFacts(s, live, now);
  }

  /** Over every run of store operations the selection is null exactly when there are no peers and
      otherwise names a live one. */
  lemma {:induction false} RunKeepsSound(s: Registry, ops: seq<Op>)
    requires Sound(s) && "" !in s.records
    requires forall i :: 0 <= i < |ops| ==> Named(ops[i])
    ensures Sound(Run(s, ops)) && "" !in Run(s, ops).records
    decreases ops
  {
    if ops != [] {
      ApplyKeepsSound(s, ops[0]);
      RunKeepsSound(Apply(s, ops[0]), ops[1..]);
    }
  }

  // ---------- the time-to-live ----------

  /** What `op` does to the heartbeat of a peer it neither registers, heartbeats nor ticks alive. */
  predicate Leaves(op: Op, id: string) {
    && (op.DoRegister? ==> op.peer.id != id)
    && (op.DoHeartbeat? ==> op.id != id)
    && (op.Tick? ==> id !in op.live)
  }

  lemma {:induction false} SilentStep(s: Registry, op: Op, id: string)
    requires WellKeyed(s) && Leaves(op, id)
    ensures id in Apply(s, op).records ==> id in s.records && Apply(s, op).records[id] == s.records[id]
    ensures Apply(s, op).ttl == s.ttl && WellKeyed(Apply(s, op))
  {
    match op
    case DoRegister(peer, now) => RegisterKeepsKeys(s, peer, now);
    case DoHeartbeat(_, now) =>
    case DoRemove(other, _) => RetainKeeps(s.order, s.records.Keys - {other});
    case DoSelect(_, _) =>
    case DoSweep(now) => SweepFacts(s, now);
    case Tick(now, live) =>
      TickFacts(s, live, now);
  }

  /** A peer that stays silent - no registration, no heartbeat, not alive at a tick - for longer than
      the time-to-live is in no later list. */
  lemma {:induction false} SilentPeerExpires(s: Registry, ops: seq<Op>, id: string, now: int)
    requires WellKeyed(s)
    requires forall i :: 0 <= i < |ops| ==> Leaves(ops[i], id)
    requires id in s.records ==> now - s.records[id].lastHeartbeatAt > s.ttl
    ensures id !in Sweep(Run(s, ops), now).records
    ensures id !in Sweep(Run(s, ops), now).order
    decreases ops
  {
    if ops == [] {
      SweepFacts(s, now);
    } else {
      SilentStep(s, ops[0], id);
      SilentPeerExpires(Apply(s, ops[0]), ops[1..], id, now);
    }
  }

  /** Times never run backwards, the last tick is never more than the time-to-live ago, and
      the peer `id` stays a tunnel peer that is live at every tick and is not removed. */
  predicate KeptAlive(ops: seq<Op>, id: string, lastTick: int, ttl: int)
  {
    ops == [] ||
    var op := ops[0];
    && lastTick <= op.now <= lastTick + ttl
    && (op.DoRegister? && op.peer.id == id ==> op.peer.transport.Tunnel?)
    && (op.DoRemove? ==> op.id != id)
    && (op.Tick? ==> id in op.live)
    && (forall i :: 0 <= i < |ops| ==> op.now <= ops[i].now)
    && KeptAlive(ops[1..], id, if op.Tick? then op.now else lastTick, ttl)
  }

  lemma {:induction false} SweepSpares(s: Registry, id: string, now: int)
    requires WellKeyed(s) && id in s.records && now - s.records[id].lastHeartbeatAt <= s.ttl
    ensures var t := Sweep(s, now);
      WellKeyed(t) && t.ttl == s.ttl && id in t.records && t.records[id] == s.records[id]
  {
    SweepFacts(s, now);
  }

  lemma {:induction false} TickSpares(s: Registry, live: set<string>, id: string, now: int)
    requires WellKeyed(s) && id in s.records && now - s.records[id].lastHeartbeatAt <= s.ttl
    requires s.records[id].peer.transport.Tunnel? && id in live
    ensures var t := TickStore(s, live, now);
      && WellKeyed(t) && t.ttl == s.ttl
      && id in t.records && t.records[id] == s.records[id].(lastHeartbeatAt := now)
  {
    hide TickStore;
    TickFacts(s, live, now);
  }

  lemma {:induction false} KeptAliveStep(s: Registry, op: Op, id: string, lastTick: int)
    requires WellKeyed(s) && id in s.records && s.records[id].peer.transport.Tunnel?
    requires lastTick <= s.records[id].lastHeartbeatAt
    requires KeptAlive([op], id, lastTick, s.ttl)
    ensures var t := Apply(s, op);
            && WellKeyed(t) && t.ttl == s.ttl && id in t.records && t.records[id].peer.transport.Tunnel?
            && (if op.Tick? then op.now else lastTick) <= t.records[id].lastHeartbeatAt
  {
    hide Remove, Sweep, TickStore;
    match op
    case DoRegister(peer, now) => RegisterKeepsKeys(s, peer, now);
    case DoHeartbeat(_, now) =>
    case DoRemove(other, _) => RemoveKeepsOthers(s, other, id);
    case DoSelect(_, _) =>
    case DoSweep(now) => SweepSpares(s, id, now);
    case Tick(now, live) => TickSpares(s, live, id, now);
  }

  lemma {:induction false} RemoveKeepsOthers(s: Registry, gone: string, id: string)
    requires WellKeyed(s) && id in s.records && gone != id
    ensures var t := Remove(s, gone);
      WellKeyed(t) && t.ttl == s.ttl && id in t.records && t.records[id] == s.records[id]
  {
    RetainKeeps(s.order, s.records.Keys - {gone});
  }

  /** With ticks at most the time-to-live apart, a tunnel peer that is connected or expected at every
      tick is there after any run - and so after every prefix of it, whoever swept. */
  lemma {:induction false} TickedPeerSurvives(s: Registry, ops: seq<Op>, id: string, lastTick: int)
    requires WellKeyed(s) && id in s.records && s.records[id].peer.transport.Tunnel?
    requires lastTick <= s.records[id].lastHeartbeatAt
    requires KeptAlive(ops, id, lastTick, s.ttl)
    ensures id in Run(s, ops).records && id in Run(s, ops).order
    decreases ops
  {
    if ops != [] {
      assert KeptAlive([ops[0]], id, lastTick, s.ttl) by {
        assert [ops[0]][1..] == [];
      }
      KeptAliveStep(s, ops[0], id, lastTick);
      TickedPeerSurvives(Apply(s, ops[0]), ops[1..], id, if ops[0].Tick? then ops[0].now else lastTick);
    }
  }
}
