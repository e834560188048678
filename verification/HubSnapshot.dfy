/** Saving the peer store and restoring it after a hub restart (src/hub/server.ts:252-290,
    src/hub/persistence.ts). The JSON file is taken to give back what was written. */
module HubSnapshot {
  import opened Options
  import R = PeerRegistry
  import PS = PeerStore

  datatype Snapshot = Snapshot(selectedId: Option<string>, peers: seq<R.Peer>)

  function PeersOf(records: seq<R.Record>): seq<R.Peer> {
    seq(|records|, i requires 0 <= i < |records| => records[i].peer)
  }

  /** The selection is read before the listing sweeps the store. */
  function Persist(s: R.Registry, now: int): (R.Registry, Snapshot)
    requires R.WellKeyed(s)
  {
    R.SweepFacts(s, now);
    (R.Sweep(s, now), Snapshot(s.selected, PeersOf(R.Records(R.Sweep(s, now)))))
  }

  /** A tunnel peer comes back offline: its socket is gone. */
  function Offline(peer: R.Peer): R.Peer {
    if peer.transport.Tunnel? then peer.(tunnelConnected := Some(false)) else peer
  }

  function RegisterAll(s: R.Registry, peers: seq<R.Peer>, now: int): R.Registry
    decreases peers
  {
    if peers == [] then s
    else RegisterAll(R.Register(s, Offline(peers[0]), now), peers[1..], now)
  }

  function Restore(s: R.Registry, snap: Snapshot, now: int): R.Registry {
    var t := RegisterAll(s, snap.peers, now);
    if snap.selectedId.Some? && snap.selectedId.value != "" && snap.selectedId.value in t.records
    then t.(selected := snap.selectedId) else t
  }

  function IdsOf(peers: seq<R.Peer>): seq<string> {
    seq(|peers|, i requires 0 <= i < |peers| => peers[i].id)
  }

  lemma {:induction false} RegisterNew(s: R.Registry, peer: R.Peer, now: int)
    requires peer.id !in s.records
    ensures var t := R.Register(s, peer, now);
            && t.ttl == s.ttl && t.order == s.order + [peer.id] && t.records.Keys == s.records.Keys + {peer.id}
            && t.selected == if s.selected.Some? then s.selected else Some(peer.id)
  {
  }

  /** Different ids, none of them in the store. */
  predicate AllNew(s: R.Registry, peers: seq<R.Peer>) {
    && (forall i, j :: 0 <= i < j < |peers| ==> peers[i].id != peers[j].id)
    && forall i :: 0 <= i < |peers| ==> peers[i].id !in s.records
  }

  lemma {:induction false} RestIsNew(s: R.Registry, peers: seq<R.Peer>, now: int)
    requires peers != [] && AllNew(s, peers)
    ensures var next := R.Register(s, Offline(peers[0]), now);
            && AllNew(next, peers[1..])
            && next.ttl == s.ttl && next.order == s.order + [peers[0].id]
            && next.selected == if s.selected.Some? then s.selected else Some(peers[0].id)
  {
    RegisterNew(s, Offline(peers[0]), now);
    hide R.Register;
  }

  lemma {:induction false} RegisterAllOrder(s: R.Registry, peers: seq<R.Peer>, now: int)
    requires AllNew(s, peers)
    ensures var t := RegisterAll(s, peers, now);
            && t.ttl == s.ttl && t.order == s.order + IdsOf(peers)
            && t.selected == (if s.selected.Some? || peers == [] then s.selected else Some(peers[0].id))
    decreases peers
  {
    hide R.Register, Offline, IdsOf, AllNew;
    if peers != [] {
      RestIsNew(s, peers, now);
      RegisterAllOrder(R.Register(s, Offline(peers[0]), now), peers[1..], now);
      IdsOfFirst(peers);
      assert s.order + [peers[0].id] + IdsOf(peers[1..]) == s.order + ([peers[0].id] + IdsOf(peers[1..]));
    } else {
      NoIds();
      assert s.order + [] == s.order;
    }
  }

  lemma {:induction false} NoIds()
    ensures IdsOf([]) == []
  {
  }

  lemma {:induction false} IdsOfFirst(peers: seq<R.Peer>)
    requires peers != []
    ensures IdsOf(peers) == [peers[0].id] + IdsOf(peers[1..])
  {
  }

  lemma {:induction false} RegisterAllKeys(s: R.Registry, peers: seq<R.Peer>, now: int, id: string)
    requires id !in IdsOf(peers)
    ensures id in RegisterAll(s, peers, now).records <==> id in s.records
    ensures id in s.records ==> RegisterAll(s, peers, now).records[id] == s.records[id]
    decreases peers
  {
    if peers != [] {
      var rest := peers[1..];
      assert IdsOf(peers)[0] == peers[0].id && forall i :: 0 <= i < |rest| ==> IdsOf(rest)[i] == IdsOf(peers)[i + 1];
      RegisterAllKeys(R.Register(s, Offline(peers[0]), now), rest, now, id);
    }
  }

  lemma {:induction false} RegisterAllRecord(s: R.Registry, peers: seq<R.Peer>, now: int, k: nat)
    requires forall i, j :: 0 <= i < j < |peers| ==> peers[i].id != peers[j].id
    requires k < |peers| && peers[k].id !in s.records
    ensures peers[k].id in RegisterAll(s, peers, now).records
    ensures RegisterAll(s, peers, now).records[peers[k].id] == R.Record(Offline(peers[k]), now, now)
    decreases peers
  {
    var next := R.Register(s, Offline(peers[0]), now);
    if k == 0 {
      RegisterAllKeys(next, peers[1..], now, peers[0].id);
    } else {
      RegisterAllRecord(next, peers[1..], now, k - 1);
    }
  }

  lemma {:induction false} PeersFollowTheOrder(live: R.Registry)
    requires R.WellKeyed(live)
    ensures IdsOf(PeersOf(R.Records(live))) == live.order
    ensures forall i :: 0 <= i < |live.order| ==> live.order[i] in live.records
  {
    forall i | 0 <= i < |live.order|
      ensures live.order[i] in live.records && PeersOf(R.Records(live))[i].id == live.order[i]
    {
      assert live.order[i] in live.order;
    }
  }

  lemma {:induction false} RebuildsRecord(live: R.Registry, now: int, ttl: nat, id: string)
    requires R.WellKeyed(live)
    ensures var t := RegisterAll(R.Registry(ttl, [], map[], None), PeersOf(R.Records(live)), now);
            && (id in t.records <==> id in live.records)
            && (id in live.records ==> t.records[id] == R.Record(Offline(live.records[id].peer), now, now))
  {
    var empty := R.Registry(ttl, [], map[], None);
    var peers := PeersOf(R.Records(live));
    PeersFollowTheOrder(live);
    assert forall i :: 0 <= i < |peers| ==> peers[i].id == IdsOf(peers)[i];
    if id in live.order {
      var k :| 0 <= k < |live.order| && live.order[k] == id;
      RegisterAllRecord(empty, peers, now, k);
    } else {
      RegisterAllKeys(empty, peers, now, id);
    }
  }

  /** The table a restart rebuilds: every peer offline, registered and heard from at `now`. */
  function Rebuilt(live: R.Registry, now: int): map<string, R.Record> {
    map id | id in live.records :: R.Record(Offline(live.records[id].peer), now, now)
  }

  lemma {:induction false} RebuildsOrder(live: R.Registry, now: int, ttl: nat)
    requires R.WellKeyed(live)
    ensures var t := RegisterAll(R.Registry(ttl, [], map[], None), PeersOf(R.Records(live)), now);
            t.ttl == ttl && t.order == live.order && t.selected == R.First(live.order)
  {
    var peers := PeersOf(R.Records(live));
    PeersFollowTheOrder(live);
    assert forall i :: 0 <= i < |peers| ==> peers[i].id == IdsOf(peers)[i];
    RegisterAllOrder(R.Registry(ttl, [], map[], None), peers, now);
  }

  lemma {:induction false} RebuildsTable(live: R.Registry, now: int, ttl: nat)
    requires R.WellKeyed(live)
    ensures RegisterAll(R.Registry(ttl, [], map[], None), PeersOf(R.Records(live)), now).records == Rebuilt(live, now)
  {
    var table := RegisterAll(R.Registry(ttl, [], map[], None), PeersOf(R.Records(live)), now).records;
    forall id
      ensures id in table <==> id in Rebuilt(live, now)
      ensures id in Rebuilt(live, now) ==> id in table && table[id] == Rebuilt(live, now)[id]
    {
      RebuildsRecord(live, now, ttl, id);
    }
  }

  /** Restoring what was saved into an empty store gives back the live store after the save: the same
      peers in the same order, tunnel peers offline, and the same selection - although the saved
      selection was read before the save swept the store. */
  lemma {:induction false} RestoreUndoesPersist(s: R.Registry, saved: int, restored: int, ttl: nat)
    requires R.Sound(s) && "" !in s.records
    ensures var (live, snap) := Persist(s, saved);
            Restore(R.Registry(ttl, [], map[], None), snap, restored) ==
            R.Registry(ttl, live.order, Rebuilt(live, restored), live.selected)
  {
    var live := R.Sweep(s, saved);
    R.SweepFacts(s, saved);
    R.SweepKeepsSound(s, saved);
    RebuildsOrder(live, restored, ttl);
    RebuildsTable(live, restored, ttl);
    if s.selected.Some? && s.selected.value in live.records {
      assert live.selected == s.selected;
    } else {
      assert live.selected == R.First(live.order);
    }
  }

  /** `record` is a saved peer as it comes back: heard from just now, and if it is a tunnel peer not connected. */
  predicate ComesBack(record: R.Record, peers: seq<R.Peer>, now: int) {
    && record.lastHeartbeatAt == now
    && (record.peer.transport.Tunnel? ==> record.peer.tunnelConnected == Some(false))
    && exists peer :: peer in peers && record.peer == if peer.transport.Tunnel?
                                                      then peer.(tunnelConnected := Some(false)) else peer
  }

  predicate AllComeBack(s: R.Registry, peers: seq<R.Peer>, now: int) {
    forall id :: id in s.records ==> ComesBack(s.records[id], peers, now)
  }

  lemma {:induction false} RegisteredComesBack(s: R.Registry, peer: R.Peer, peers: seq<R.Peer>, now: int)
    requires AllComeBack(s, peers, now) && peer in peers
    ensures AllComeBack(R.Register(s, Offline(peer), now), peers, now)
  {
    var t := R.Register(s, Offline(peer), now);
    assert ComesBack(t.records[peer.id], peers, now);
  }

  lemma {:induction false} RegisteredComeBack(s: R.Registry, some: seq<R.Peer>, peers: seq<R.Peer>, now: int)
    requires AllComeBack(s, peers, now) && forall peer :: peer in some ==> peer in peers
    ensures AllComeBack(RegisterAll(s, some, now), peers, now)
    decreases some
  {
    hide AllComeBack, R.Register, Offline;
    if some != [] {
      RegisteredComesBack(s, some[0], peers, now);
      RegisteredComeBack(R.Register(s, Offline(some[0]), now), some[1..], peers, now);
    }
  }

  /** Whatever was saved, nothing is connected after a restart. */
  lemma {:induction false} NothingIsConnectedAfterARestart(snap: Snapshot, now: int, ttl: nat)
    ensures var t := Restore(R.Registry(ttl, [], map[], None), snap, now);
            forall id :: id in t.records ==> ComesBack(t.records[id], snap.peers, now)
  {
    hide ComesBack, RegisterAll;
    RegisteredComeBack(R.Registry(ttl, [], map[], None), snap.peers, snap.peers, now);
  }

  /** A restart selects the saved selection if it is a name and was saved with its peer, else the first peer. */
  lemma {:induction false} RestoredSelection(snap: Snapshot, now: int, ttl: nat)
    ensures var t := Restore(R.Registry(ttl, [], map[], None), snap, now);
      var saved := snap.selectedId;
      t.selected == if saved.Some? && saved.value != "" && saved.value in IdsOf(snap.peers) then saved
                    else if snap.peers == [] then None else Some(snap.peers[0].id)
  {
    var empty := R.Registry(ttl, [], map[], None);
    FirstIsSelected(empty, snap.peers, now);
    if snap.selectedId.Some? {
      RestoredIds(empty, snap.peers, now, snap.selectedId.value);
    }
  }

  lemma {:induction false} FirstIsSelected(s: R.Registry, peers: seq<R.Peer>, now: int)
    ensures RegisterAll(s, peers, now).selected
      == if s.selected.Some? || peers == [] then s.selected else Some(peers[0].id)
    decreases peers
  {
    if peers != [] {
      FirstIsSelected(R.Register(s, Offline(peers[0]), now), peers[1..], now);
    }
  }

  lemma {:induction false} RestoredIds(s: R.Registry, peers: seq<R.Peer>, now: int, id: string)
    ensures id in RegisterAll(s, peers, now).records <==> id in s.records || id in IdsOf(peers)
    decreases peers
  {
    if peers != [] {
      RestoredIds(R.Register(s, Offline(peers[0]), now), peers[1..], now, id);
      assert IdsOf(peers) == [peers[0].id] + IdsOf(peers[1..]);
    }
  }

  // ---------- the two functions as the server runs them ----------

  method PersistStore(store: PS.PeerStore, now: int) returns (snap: Snapshot)
    requires store.Valid()
    modifies store
    ensures store.Valid() && (store.Value(), snap) == Persist(old(store.Value()), now)
  {
    var selectedId := store.selectedId;
    var records := store.List(now);
    var peers: seq<R.Peer> := [];
    for i := 0 to |records|
      invariant peers == PeersOf(records)[..i]
    {
      peers := peers + [records[i].peer];
    }
    assert peers == PeersOf(records);
    snap := Snapshot(selectedId, peers);
  }

  method RestoreStore(store: PS.PeerStore, snap: Snapshot, now: int)
    requires store.Valid()
    modifies store
    ensures store.Valid() && store.Value() == Restore(old(store.Value()), snap, now)
  {
    for i := 0 to |snap.peers|
      invariant store.Valid()
      invariant RegisterAll(store.Value(), snap.peers[i..], now) == RegisterAll(old(store.Value()), snap.peers, now)
    {
      var peer := snap.peers[i];
      assert snap.peers[i..][0] == peer && snap.peers[i..][1..] == snap.peers[i + 1..];
      var _ := store.Register(Offline(peer), now);
    }
    if snap.selectedId.Some? && snap.selectedId.value != "" {
      var _ := store.Select(snap.selectedId.value);
    }
  }
}
