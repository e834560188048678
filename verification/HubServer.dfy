/** The hub's route handlers and its keepalive tick (src/hub/server.ts), over the store and the tunnel
    manager they share. */
module HubServer {
  import opened Options
  import opened PeerSocket
  import opened TunnelState
  import R = PeerRegistry
  import HS = HubSnapshot
  import PS = PeerStore
  import TM = TunnelManager

  class HubServer {
    const store: PS.PeerStore
    const tunnel: TM.TunnelManager

    ghost predicate Valid()
      reads this, tunnel, tunnel.store
    {
      tunnel.store == store && tunnel.Valid()
    }

    ghost function Value(): Net
      reads this, tunnel, tunnel.store
    {
      tunnel.Value()
    }

    /** Restores the snapshot, if there is one, before anything listens. */
    constructor (snapshot: Option<HS.Snapshot>, ttlMs: nat, now: int)
      ensures Valid() && fresh(store) && fresh(tunnel)
      ensures var empty := R.Registry(ttlMs, [], map[], None);
              Value() == Empty(if snapshot.Some? then HS.Restore(empty, snapshot.value, now) else empty)
    {
      var s := new PS.PeerStore(ttlMs);
      if snapshot.Some? {
        HS.RestoreStore(s, snapshot.value, now);
      }
      store := s;
      tunnel := new TM.TunnelManager(s);
    }

    method GetPeers(now: nat)
      returns (peers: seq<R.Record>, selectedId: Option<string>, expects: map<string, Expect>)
      requires Valid()
      modifies store, tunnel
      ensures Valid() && Value() == ForgetAllExpired(SweepStore(old(Value()), now), now)
      ensures peers == R.Records(Value().store) && selectedId == Value().store.selected
      ensures expects == Value().expects
    {
      peers := store.List(now);
      selectedId := store.selectedId;
      expects := tunnel.ListExpects(now);
    }

    method PostRegister(peer: R.Peer, now: nat)
      requires Valid()
      modifies store
      ensures Valid() && Value() == SweepStore(old(Value()).(store := R.Register(old(Value()).store, peer, now)), now)
    {
      var _ := store.Register(peer, now);
      var _ := HS.PersistStore(store, now);
    }

    method PostExpect(id: string, nonce: string, ttlMs: Option<nat>, details: string, now: nat)
      requires Valid()
      modifies store, tunnel
      ensures Valid() && Value() == TunnelState.PostExpect(old(Value()), id, nonce, ttlMs, details, now)
    {
      tunnel.ExpectPeer(id, nonce, ttlMs, details, now);
      var _ := store.Register(Placeholder(id, nonce, details), now);
      var _ := HS.PersistStore(store, now);
    }

    method DeletePeer(id: string, now: nat) returns (ok: bool)
      requires Valid()
      modifies store, tunnel
      ensures Valid() && Value() == TunnelState.DeletePeer(old(Value()), id, now)
      ensures ok == (id in old(store.peers))
    {
      hide R.WellKeyed, R.Sweep, Detach;
      DetachKeepsIds(Value(), id, now);
      var connected := tunnel.IsConnected(id);
      if connected {
        tunnel.DetachPeer(id, now);
      }
      ok := store.Remove(id);
      if ok {
        var _ := HS.PersistStore(store, now);
      }
    }

    method PutSticky(id: string, now: nat) returns (ok: bool)
      requires Valid()
      modifies store
      ensures Valid() && Value() == TunnelState.PutSticky(old(Value()), id, now)
      ensures ok == (id in old(store.peers))
    {
      var record := store.Select(id);
      ok := record.Some?;
      if ok {
        var _ := HS.PersistStore(store, now);
      }
    }

    method MindPeer(peer: R.Peer, now: nat)
      requires Valid() && peer.id in store.peers && store.peers[peer.id].peer == peer
      modifies store, tunnel
      ensures Valid() && Value() == Mind(old(Value()), peer.id, now)
    {
      if peer.transport.Tunnel? {
        var keep := tunnel.IsConnected(peer.id);
        if !keep {
          var found := tunnel.GetExpect(peer.id, now);
          keep := found.Some?;
        }
        if keep {
          var _ := store.Heartbeat(peer.id, now);
        }
      }
    }

    /** Keeps tunnel peers alive while connected or expected; asking for an expectation forgets an
        expired one. */
    method Tick(now: nat)
      requires Valid()
      modifies store, tunnel
      ensures Valid() && Value() == KeepaliveTick(old(Value()), now)
    {
      hide Mind, R.WellKeyed, R.Sweep, R.Records, StillListed;
      ghost var before := Value();
      var peers := store.List(now);
      ghost var listed := Value();
      AllListed(before.store, now);
      assert listed == SweepStore(before, now);
      ghost var ids := listed.store.order;
      for i := 0 to |peers|
        invariant Valid() && |peers| == |ids|
        invariant MindAll(Value(), ids[i..], now) == MindAll(listed, ids, now)
        invariant StillListed(Value().store, peers, ids, i)
      {
        assert ids[i..][0] == ids[i] && ids[i..][1..] == ids[i + 1..];
        ghost var value := Value();
        NextListed(value.store, peers, ids, i);
        MindPeer(peers[i].peer, now);
        KeepsListed(value, peers, ids, i, now);
      }
      assert ids[|peers|..] == [];
      ghost var minded := Value();
      assert minded == MindAll(listed, ids, now);
      var _ := store.Sweep(now);
      assert Value() == SweepStore(minded, now);
    }
  }

  lemma {:induction false} DetachKeepsIds(n: Net, id: string, now: nat)
    requires R.WellKeyed(n.store)
    ensures forall k :: k in Detach(n, id, now).store.records <==> k in n.store.records
  {
  }

  /** The peers that the tick has not come to are still those of the store. */
  ghost predicate StillListed(s: R.Registry, peers: seq<R.Record>, ids: seq<string>, i: nat)
    requires |peers| == |ids|
  {
    forall j :: i <= j < |peers| ==>
      peers[j].peer.id == ids[j] && ids[j] in s.records && s.records[ids[j]].peer == peers[j].peer
  }

  lemma {:induction false} NextListed(s: R.Registry, peers: seq<R.Record>, ids: seq<string>, i: nat)
    requires |peers| == |ids| && i < |peers| && StillListed(s, peers, ids, i)
    ensures peers[i].peer.id == ids[i] && ids[i] in s.records && s.records[ids[i]].peer == peers[i].peer
  {
  }

  lemma {:induction false} KeepsListed(n: Net, peers: seq<R.Record>, ids: seq<string>, i: nat, now: nat)
    requires |peers| == |ids| && i < |peers| && StillListed(n.store, peers, ids, i)
    ensures StillListed(Mind(n, ids[i], now).store, peers, ids, i + 1)
  {
    hide Mind;
    MindKeepsPeers(n, ids[i], now);
  }

  lemma {:induction false} MindKeepsPeers(n: Net, id: string, now: nat)
    ensures forall k :: k in n.store.records ==>
              k in Mind(n, id, now).store.records && Mind(n, id, now).store.records[k].peer == n.store.records[k].peer
  {
  }

  lemma {:induction false} AllListed(s: R.Registry, now: nat)
    requires R.WellKeyed(s)
    ensures var t := R.Sweep(s, now);
      R.WellKeyed(t) && |R.Records(t)| == |t.order| && StillListed(t, R.Records(t), t.order, 0)
  {
    SweptRecords(s, now);
  }

  lemma {:induction false} SweptRecords(s: R.Registry, now: nat)
    requires R.WellKeyed(s)
    ensures var t := R.Sweep(s, now);
            && R.WellKeyed(t) && |R.Records(t)| == |t.order|
            && forall j :: 0 <= j < |t.order| ==>
                 R.Records(t)[j].peer.id == t.order[j] && t.order[j] in t.records &&
                     t.records[t.order[j]] == R.Records(t)[j]
  {
    R.SweepFacts(s, now);
    assert forall j :: 0 <= j < |R.Sweep(s, now).order| ==> R.Sweep(s, now).order[j] in R.Sweep(s, now).order;
  }
}
