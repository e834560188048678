/** The in-memory peer store of one hub process (src/hub/peerStore.ts), field by field. */
module PeerStore {
  import opened Options
  import R = PeerRegistry

  class PeerStore {
    /** The JavaScript `Map`: its entries, and its keys in insertion order. */
    var peers: map<string, R.Record>
    var keys: seq<string>
    var selectedId: Option<string>
    const ttlMs: nat

    function Value(): R.Registry
      reads this
    {
      R.Registry(ttlMs, keys, peers, selectedId)
    }

    ghost predicate Valid()
      reads this
    {
      R.WellKeyed(Value())
    }

    constructor (ttlMs: nat)
      ensures Valid() && R.Sound(Value())
      ensures Value() == R.Registry(ttlMs, [], map[], None)
    {
      this.ttlMs := ttlMs;
      peers, keys, selectedId := map[], [], None;
    }

    method Register(peer: R.Peer, now: int) returns (record: R.Record)
      requires Valid()
      modifies this
      ensures Valid() && Value() == R.Register(old(Value()), peer, now)
      ensures record == peers[peer.id]
    {
      var registeredAt := now;
      if peer.id in peers {
        registeredAt := peers[peer.id].registeredAt;
      } else {
        keys := keys + [peer.id];
      }
      record := R.Record(peer, now, registeredAt);
      peers := peers[peer.id := record];
      if selectedId.None? {
        selectedId := Some(peer.id);
      }
      assert forall id :: id in old(keys) ==> id in keys;
      assert peer.id in keys by {
        if peer.id !in old(peers) {
          assert keys[|keys| - 1] == peer.id;
        }
      }
    }

    method Heartbeat(id: string, now: int) returns (record: Option<R.Record>)
      requires Valid()
      modifies this
      ensures Valid() && Value() == R.Heartbeat(old(Value()), id, now)
      ensures record == if id in old(peers) then Some(peers[id]) else None
    {
      if id !in peers {
        return None;
      }
      peers := peers[id := peers[id].(lastHeartbeatAt := now)];
      record := Some(peers[id]);
    }

    method Remove(id: string) returns (ok: bool)
      requires Valid()
      modifies this
      ensures Valid() && Value() == R.Remove(old(Value()), id)
      ensures ok == (id in old(peers))
    {
      ok := id in peers;
      if ok {
        R.RetainKeeps(keys, peers.Keys - {id});
        keys := DeleteKey(keys, id, peers.Keys - {id});
        peers := peers - {id};
        assert forall i :: 0 <= i < |keys| ==> keys[i] in R.Retain(old(keys), old(peers).Keys - {id});
        if selectedId == Some(id) {
          selectedId := R.First(keys);
        }
      }
    }

    method Select(id: string) returns (record: Option<R.Record>)
      requires Valid()
      modifies this
      ensures Valid()
      ensures match R.Select(old(Value()), id)
              case Some(next) => Value() == next && record == Some(peers[id])
              case None => Value() == old(Value()) && record == None
    {
      if id !in peers {
        return None;
      }
      selectedId := Some(id);
      record := Some(peers[id]);
    }

    method Sweep(now: int) returns (dropped: seq<string>)
      requires Valid()
      modifies this
      ensures Valid() && Value() == R.Sweep(old(Value()), now)
      ensures forall id :: id in dropped <==> id in old(peers) && id !in peers
    {
      R.SweepFacts(Value(), now);
      dropped := DropExpired(now);
      if selectedId.Some? && selectedId.value != "" && selectedId.value !in peers {
        selectedId := R.First(keys);
      }
      assert Value() == R.Sweep(old(Value()), now);
    }

    /** The loop of the sweep: deletes every expired entry from the map. */
    method DropExpired(now: int) returns (dropped: seq<string>)
      requires Valid()
      modifies this`peers, this`keys
      ensures keys == R.Sweep(old(Value()), now).order
      ensures peers == R.Sweep(old(Value()), now).records
      ensures forall id :: id in dropped <==> id in old(peers) && id !in peers
    {
      hide R.Alive, R.Expired, R.WellKeyed, R.Retain;
      ghost var before := Value();
      ghost var alive := R.Alive(before, now);
      NothingRetained(alive);
      ghost var gone: set<string> := {};
      dropped := [];
      var kept: seq<string> := [];
      var i := 0;
      while i < |keys|
        invariant 0 <= i <= |keys|
        invariant keys == before.order
        invariant kept == R.Retain(keys[..i], alive)
        invariant gone <= before.records.Keys - alive
        invariant forall j :: 0 <= j < i ==> keys[j] in alive || keys[j] in gone
        invariant forall j :: i <= j < |keys| ==> keys[j] !in gone
        invariant peers == before.records - gone
        invariant forall id :: id in dropped <==> id in gone
      {
        var id := keys[i];
        KeyFacts(before, now, i);
        R.RetainNext(keys, i, alive);
        if now - peers[id].lastHeartbeatAt > ttlMs {
          gone := gone + {id};
          peers := peers - {id};
          dropped := dropped + [id];
        } else {
          kept := kept + [id];
        }
        i := i + 1;
      }
      assert keys[..i] == keys;
      ExactlyTheExpired(before, now, gone);
      keys := kept;
    }

    static lemma {:induction false} NothingRetained(alive: set<string>)
      ensures R.Retain([], alive) == []
    {
    }

    /** Key `i` is a key once, and alive exactly if its record is recent. */
    static lemma {:induction false} KeyFacts(before: R.Registry, now: int, i: nat)
      requires R.WellKeyed(before) && i < |before.order|
      ensures var id := before.order[i];
        && id in before.records && (forall j :: i < j < |before.order| ==> before.order[j] != id)
        && (id in R.Alive(before, now) <==> now - before.records[id].lastHeartbeatAt <= before.ttl)
    {
      assert before.order[i] in before.order;
    }

    static lemma {:induction false} ExactlyTheExpired(before: R.Registry, now: int, gone: set<string>)
      requires R.WellKeyed(before)
      requires gone <= before.records.Keys - R.Alive(before, now)
      requires forall j ::
        0 <= j < |before.order| ==> before.order[j] in R.Alive(before, now) || before.order[j] in gone
      ensures gone == before.records.Keys - R.Alive(before, now)
    {
      forall id | id in before.records && id !in R.Alive(before, now)
        ensures id in gone
      {
        var j :| 0 <= j < |before.order| && before.order[j] == id;
      }
    }

    /** Sweeps, then copies the surviving records out in insertion order. */
    method List(now: int) returns (records: seq<R.Record>)
      requires Valid()
      modifies this
      ensures Valid() && Value() == R.Sweep(old(Value()), now)
      ensures records == R.Records(Value())
    {
      var _ := Sweep(now);
      records := Copies();
    }

    method Copies() returns (records: seq<R.Record>)
      requires Valid()
      ensures records == R.Records(Value())
    {
      records := [];
      for i := 0 to |keys|
        invariant records == R.Records(Value())[..i]
      {
        assert keys[i] in keys;
        records := records + [peers[keys[i]]];
      }
    }
  }

  /** `Map.delete` on the key order. */
  method DeleteKey(keys: seq<string>, id: string, ghost rest: set<string>) returns (kept: seq<string>)
    requires forall k :: k in keys ==> (k in rest <==> k != id)
    ensures kept == R.Retain(keys, rest)
  {
    kept := [];
    var i := 0;
    while i < |keys|
      invariant 0 <= i <= |keys|
      invariant kept == R.Retain(keys[..i], rest)
    {
      R.RetainNext(keys, i, rest);
      if keys[i] != id {
        kept := kept + [keys[i]];
      }
      i := i + 1;
    }
    assert keys[..i] == keys;
  }
}
