/** The sticky target registry of one MCP process (src/core/targetRegistry.ts): a cache of the hub's
    peers with a selection of its own, and - unless told otherwise - a built-in lab target. */
module TargetRegistry {
  import opened Options
  import R = PeerRegistry
  import HS = HubSnapshot
  import HubStore
  import TS = TunnelState

  const LAB := "lab"

  datatype Source = Builtin | Owned

  datatype Target = Target(id: string, source: Source, transport: R.Transport, details: string)

  /** `order` is the insertion order of the target map. */
  datatype Targets = Targets(order: seq<string>, known: map<string, Target>, selected: string, seedLab: bool)

  const LAB_TARGET := Target(LAB, Builtin, R.Http, "Lab (conventional :9981)")

  /** The hub's answer to `GET /peers`: what is left after its sweep, and the selection after that. */
  datatype Listing = Listing(peers: seq<R.Peer>, selectedId: Option<string>)

  function HubListing(hub: R.Registry, now: nat): Listing
    requires R.WellKeyed(hub)
  {
    R.SweepFacts(hub, now);
    var live := R.Sweep(hub, now);
    Listing(HS.PeersOf(R.Records(live)), live.selected)
  }

  function PeerToTarget(peer: R.Peer): Target {
    var builtin := !peer.source.Owned? && (peer.source.Builtin? || peer.id == LAB);
    Target(peer.id, if builtin then Builtin else Owned, peer.transport, peer.details)
  }

  function Put(t: Targets, target: Target): Targets {
    t.(order := if target.id in t.known then t.order else t.order + [target.id], known := t.known[target.id := target])
  }

  function PutAll(t: Targets, peers: seq<R.Peer>): Targets
    decreases peers
  {
    if peers == [] then t else PutAll(Put(t, PeerToTarget(peers[0])), peers[1..])
  }

  function Seeded(t: Targets): Targets {
    if t.seedLab && LAB !in t.known then Put(t, LAB_TARGET) else t
  }

  /** The truthy selection of the hub if it is known, else the lab, else the first target. */
  function Choose(t: Targets, selectedId: Option<string>): string {
    if selectedId.Some? && selectedId.value != "" && selectedId.value in t.known then selectedId.value
    else if LAB in t.known then LAB
    else if t.order != [] then t.order[0]
    else LAB
  }

  function Sync(t: Targets, listing: Listing): Targets {
    var filled := Seeded(PutAll(t.(order := [], known := map[]), listing.peers));
    filled.(selected := Choose(filled, listing.selectedId))
  }

  function Fresh(seedLab: bool): Targets {
    Seeded(Targets([], map[], LAB, seedLab))
  }

  function Select(t: Targets, id: string): Option<Targets> {
    if id in t.known then Some(t.(selected := id)) else None
  }

  /** Refuses to overwrite the lab. */
  function UpsertOwned(t: Targets, target: Target): Option<Targets> {
    if target.id == LAB then None else Some(Put(t, target.(source := Owned)))
  }

  function Drop(t: Targets, id: string): Targets {
    t.(order := R.Retain(t.order, t.known.Keys - {id}), known := t.known - {id})
  }

  function RemoveOwned(t: Targets, id: string): Option<Targets> {
    if id == LAB then None
    else
      var dropped := Drop(t, id);
      Some(if t.selected == id then dropped.(selected := LAB) else dropped)
  }

  // ---------- with a hub ----------

  /** How asking the hub for its peers ends: there is no hub, it lists them, the call rejects (the hub is down, too
      slow or answers with an error status), or a good status comes with something else than a list of peers,
      of which `read` is what can be read before the loop over it throws. */
  datatype Answer = NoHub | Listed(listing: Listing) | Failed | Garbled(read: seq<R.Peer>)

  predicate Throws(answer: Answer) {
    answer.Failed? || answer.Garbled?
  }

  /** What `syncFromHub` leaves, throwing or not: the map is cleared before the loop that a garbled answer breaks. */
  function Refresh(t: Targets, answer: Answer): Targets {
    match answer
    case NoHub => t
    case Listed(listing) => Sync(t, listing)
    case Failed => t
    case Garbled(read) => PutAll(t.(order := [], known := map[]), read)
  }

  /** The first answer refreshes the cache; a target that the second one names is selected on the hub first, and if
      the hub refuses or any answer fails, the selection stays. */
  function SelectedOnHub(t: Targets, id: string, first: Answer, second: Answer, accepted: bool): Option<Targets> {
    if first.NoHub? then Select(t, id)
    else if Throws(first) || !second.Listed? then None
    else if id in HS.IdsOf(second.listing.peers) && !accepted then None
    else Select(Refresh(t, first), id)
  }

  /** Without a hub the entry just goes; with one the cache is refreshed after the hub was asked to drop it. A
      removed selection falls back to the lab or else to the first target left - if the refresh does not throw. */
  function RemoveOwnedAsync(t: Targets, id: string, answer: Answer): Option<Targets> {
    if id == LAB || Throws(answer) then None
    else
      var left := Refresh(Drop(t, id), answer);
      Some(if left.selected == id then left.(selected := Choose(left, None)) else left)
  }

  // ---------- after every sync ----------

  lemma {:induction false} PutAllKnows(t: Targets, peers: seq<R.Peer>)
    ensures var r := PutAll(t, peers);
            && r.selected == t.selected && r.seedLab == t.seedLab
            && (forall id :: id in r.known <==> id in t.known || id in HS.IdsOf(peers))
    decreases peers
  {
    if peers != [] {
      var rest := peers[1..];
      PutAllKnows(Put(t, PeerToTarget(peers[0])), rest);
      assert HS.IdsOf(peers) == [peers[0].id] + HS.IdsOf(rest);
    }
  }

  lemma {:induction false} SyncKnows(t: Targets, listing: Listing)
    ensures var r := Sync(t, listing);
            && r.seedLab == t.seedLab
            && forall id :: id in r.known <==> (id == LAB && t.seedLab) || id in HS.IdsOf(listing.peers)
  {
    PutAllKnows(t.(order := [], known := map[]), listing.peers);
  }

  /** After a sync with a sound hub the sticky target is the hub's, or the lab when the hub is empty; and
      it is a known target exactly when the lab is seeded or the hub has peers. */
  lemma {:induction false} SyncFollowsTheHub(t: Targets, hub: R.Registry, now: nat)
    requires R.Sound(hub) && "" !in hub.records
    ensures var live := R.Sweep(hub, now);
            var r := Sync(t, HubListing(hub, now));
            && r.selected == (if live.selected.Some? then live.selected.value else LAB)
            && (r.selected in r.known <==> t.seedLab || live.order != [])
            && (forall id :: id in r.known <==> (id == LAB && t.seedLab) || id in live.records)
  {
    R.SweepFacts(hub, now);
    R.SweepKeepsSound(hub, now);
    var live := R.Sweep(hub, now);
    HS.PeersFollowTheOrder(live);
    SyncKnows(t, HubListing(hub, now));
    if live.order != [] {
      assert live.selected.value in live.order;
    }
  }

  /** So after every sync with a running hub: it started sound and its peers have names. */
  lemma {:induction false} SyncFollowsARunningHub(t: Targets, w: TS.World, es: seq<TS.Event>)
    requires HubStore.SoundStore(w.net.store) && forall i :: 0 <= i < |es| ==> HubStore.NamedEvent(es[i])
    ensures R.WellKeyed(TS.Run(w, es).net.store)
    ensures var hub := TS.Run(w, es);
      var live := TS.Step(hub, TS.ListRoute).net.store;
      var r := Sync(t, HubListing(hub.net.store, hub.now));
      && r.selected == (if live.selected.Some? then live.selected.value else LAB)
      && (live.selected.Some? <==> live.order != [])
      && (forall id :: id in r.known <==> (id == LAB && t.seedLab) || id in live.records)
      && (t.seedLab ==> r.selected in r.known)
  {
    HubStore.RunKeepsSoundStore(w, es);
    var hub := TS.Run(w, es);
    R.SweepKeepsSound(hub.net.store, hub.now);
    SyncFollowsTheHub(t, hub.net.store, hub.now);
  }

  /** What a known target says is what the hub's peer of that id says. */
  predicate Shows(target: Target, peer: R.Peer) {
    && target.id == peer.id && target.transport == peer.transport && target.details == peer.details
    && (target.source == Builtin <==> peer.source.Builtin? || (peer.source.Registered? && peer.id == "lab"))
  }

  lemma {:induction false} PutAllShows(t: Targets, peers: seq<R.Peer>, k: nat)
    requires k < |peers| && forall i, j :: 0 <= i < j < |peers| ==> peers[i].id != peers[j].id
    ensures var r := PutAll(t, peers); peers[k].id in r.known && Shows(r.known[peers[k].id], peers[k])
    decreases peers
  {
    if k > 0 {
      PutAllShows(Put(t, PeerToTarget(peers[0])), peers[1..], k - 1);
    } else {
      var next := Put(t, PeerToTarget(peers[0]));
      PutAllLeaves(next, peers[1..], peers[0].id);
    }
  }

  lemma {:induction false} PutAllLeaves(t: Targets, peers: seq<R.Peer>, id: string)
    requires forall i :: 0 <= i < |peers| ==> peers[i].id != id
    ensures var r := PutAll(t, peers);
      (id in r.known <==> id in t.known) && (id in t.known ==> r.known[id] == t.known[id])
    decreases peers
  {
    if peers != [] {
      PutAllLeaves(Put(t, PeerToTarget(peers[0])), peers[1..], id);
    }
  }

  /** After a sync every known target shows the hub's peer of its id, or is the seeded lab where the hub has none. */
  lemma {:induction false} SyncShowsTheHub(t: Targets, hub: R.Registry, now: nat, id: string)
    requires R.WellKeyed(hub)
    ensures var live, r := R.Sweep(hub, now), Sync(t, HubListing(hub, now));
      if id in live.records then id in r.known && Shows(r.known[id], live.records[id].peer)
      else id in r.known ==>
        id == "lab" && t.seedLab && r.known[id] == Target("lab", Builtin, R.Http, LAB_TARGET.details)
  {
    hide PutAll, Shows, R.Sweep, Choose;
    R.SweepFacts(hub, now);
    var live := R.Sweep(hub, now);
    var listing := HubListing(hub, now);
    ListingOfLive(live);
    SyncKnows(t, listing);
    var cleared := t.(order := [], known := map[]);
    if id in live.records {
      var k :| 0 <= k < |live.order| && live.order[k] == id;
      PutAllShows(cleared, listing.peers, k);
    } else {
      PutAllLeaves(cleared, listing.peers, id);
    }
  }

  lemma {:induction false} ListingOfLive(live: R.Registry)
    requires R.WellKeyed(live)
    ensures var peers := HS.PeersOf(R.Records(live));
      && |peers| == |live.order| && HS.IdsOf(peers) == live.order
      && (forall i, j :: 0 <= i < j < |peers| ==> peers[i].id != peers[j].id)
      && forall i :: 0 <= i < |peers| ==>
           live.order[i] in live.records && peers[i] == live.records[live.order[i]].peer && peers[i].id == live.order[i]
  {
    HS.PeersFollowTheOrder(live);
    var peers := HS.PeersOf(R.Records(live));
    assert forall i :: 0 <= i < |peers| ==> peers[i].id == HS.IdsOf(peers)[i];
  }

  // ---------- every run of a seeded registry ----------

  /** The lab is always there and the selection always names a known target. */
  predicate Settled(t: Targets) {
    t.seedLab && LAB in t.known && t.selected in t.known
  }

  /** One call into the registry, with the hub's answers to it: `accepted` and `registered` say whether the hub
      took the selection and the new peer. */
  datatype Op =
    | DoSync(answer: Answer)
    | DoSelect(id: string)
    | DoSelectAsync(id: string, first: Answer, second: Answer, accepted: bool)
    | DoUpsert(target: Target)
    | DoUpsertAsync(target: Target, registered: bool, answer: Answer)
    | DoRemove(id: string)
    | DoRemoveAsync(id: string, answer: Answer)

  function Or(t: Targets, o: Option<Targets>): Targets {
    if o.Some? then o.value else t
  }

  /** A call that throws leaves what it had changed by then. */
  function Apply(t: Targets, op: Op): Targets {
    match op
    case DoSync(answer) => Refresh(t, answer)
    case DoSelect(id) => Or(t, Select(t, id))
    case DoSelectAsync(id, first, second, accepted) =>
      Or(Refresh(t, first), SelectedOnHub(t, id, first, second, accepted))
    case DoUpsert(target) => Or(t, UpsertOwned(t, target))
    case DoUpsertAsync(target, registered, answer) =>
      var upserted := UpsertOwned(t, target);
      if upserted.None? then t
      else if answer.NoHub? || registered then Refresh(upserted.value, answer)
      else upserted.value
    case DoRemove(id) => Or(t, RemoveOwned(t, id))
    case DoRemoveAsync(id, answer) =>
      Or(if id == LAB then t else Refresh(Drop(t, id), answer), RemoveOwnedAsync(t, id, answer))
  }

  function Run(t: Targets, ops: seq<Op>): Targets
    decreases ops
  {
    if ops == [] then t else Run(Apply(t, ops[0]), ops[1..])
  }

  /** A garbled answer that does not get as far as the lab and the selected target. */
  predicate Forgets(t: Targets, answer: Answer) {
    && answer.Garbled?
    && !(LAB in HS.IdsOf(answer.read) && t.selected in HS.IdsOf(answer.read))
  }

  /** The calls that unsettle: a removal of the selected target whose listing rejects, and a garbled answer. */
  predicate Unsettles(t: Targets, op: Op) {
    match op
    case DoSync(answer) => Forgets(t, answer)
    case DoSelect(_) => false
    case DoSelectAsync(_, first, _, _) => Forgets(t, first)
    case DoUpsert(_) => false
    case DoUpsertAsync(target, registered, answer) => target.id != LAB && registered && Forgets(t, answer)
    case DoRemove(_) => false
    case DoRemoveAsync(id, answer) => id != LAB && (Forgets(t, answer) || (answer.Failed? && t.selected == id))
  }

  lemma {:induction false} RefreshSettles(t: Targets, answer: Answer)
    requires t.seedLab
    ensures answer.Listed? ==> Settled(Refresh(t, answer))
    ensures answer.Garbled? ==> (Settled(Refresh(t, answer)) <==> !Forgets(t, answer))
  {
    match answer {
      case NoHub =>
      case Listed(listing) => SyncKnows(t, listing);
      case Failed =>
      case Garbled(read) => PutAllKnows(t.(order := [], known := map[]), read);
    }
  }

  /** A settled registry stays settled over a call exactly if the call is not one of those: it does so over every
      call without a hub, with a good listing, or with one that rejects - but for the removal of the selected
      target, which has left the map when the listing rejects and stays selected. */
  lemma {:induction false} CallStaysSettled(t: Targets, op: Op)
    requires Settled(t)
    ensures Settled(Apply(t, op)) <==> !Unsettles(t, op)
  {
    match op {
      case DoSync(answer) => RefreshSettles(t, answer);
      case DoSelect(id) =>
      case DoSelectAsync(id, first, second, accepted) => RefreshSettles(t, first);
      case DoUpsert(target) =>
      case DoUpsertAsync(target, registered, answer) =>
        if target.id != LAB {
          RefreshSettles(UpsertOwned(t, target).value, answer);
        }
      case DoRemove(id) =>
      case DoRemoveAsync(id, answer) => RefreshSettles(Drop(t, id), answer);
    }
  }

  /** The registry is settled all through a run exactly if no call of the run unsettles it. */
  lemma {:induction false} RunStaysSettled(t: Targets, ops: seq<Op>)
    requires Settled(t)
    ensures (forall n :: 0 <= n <= |ops| ==> Settled(Run(t, ops[..n])))
      <==> forall n :: 0 <= n < |ops| ==> !Unsettles(Run(t, ops[..n]), ops[n])
  {
    if forall n :: 0 <= n < |ops| ==> !Unsettles(Run(t, ops[..n]), ops[n]) {
      for n := 0 to |ops|
        invariant forall m :: 0 <= m <= n ==> Settled(Run(t, ops[..m]))
      {
        CallStaysSettled(Run(t, ops[..n]), ops[n]);
        RunSnoc(t, ops, n);
      }
    } else {
      var n :| 0 <= n < |ops| && Unsettles(Run(t, ops[..n]), ops[n]);
      if Settled(Run(t, ops[..n])) {
        CallStaysSettled(Run(t, ops[..n]), ops[n]);
        RunSnoc(t, ops, n);
      }
    }
  }

  lemma {:induction false} RunSnoc(t: Targets, ops: seq<Op>, n: nat)
    requires n < |ops|
    ensures Run(t, ops[..n + 1]) == Apply(Run(t, ops[..n]), ops[n])
    decreases n
  {
    if n > 0 {
      RunSnoc(Apply(t, ops[0]), ops[1..], n - 1);
      assert ops[..n + 1][1..] == ops[1..][..n] && ops[..n][1..] == ops[1..][..n - 1];
    } else {
      assert ops[..1] == [ops[0]] && ops[..0] == [];
    }
  }

  /** The calls that end in a fresh cache. */
  predicate Relists(op: Op) {
    match op
    case DoSync(answer) => answer.Listed?
    case DoSelectAsync(_, first, _, _) => first.Listed?
    case DoUpsertAsync(target, registered, answer) => target.id != LAB && registered && answer.Listed?
    case DoRemoveAsync(id, answer) => id != LAB && answer.Listed?
    case _ => false
  }

  /** What a failing listing left dangling ends with the next good one: a lab-seeded registry is settled from then
      on, whatever it was before, until a call unsettles it again. */
  lemma {:induction false} RelistingSettles(t: Targets, op: Op, ops: seq<Op>)
    requires t.seedLab && Relists(op)
    requires forall n :: 0 <= n < |ops| ==> !Unsettles(Run(Apply(t, op), ops[..n]), ops[n])
    ensures Settled(Apply(t, op)) && Settled(Run(Apply(t, op), ops))
  {
    match op {
      case DoSync(answer) => RefreshSettles(t, answer);
      case DoSelectAsync(id, first, second, accepted) => RefreshSettles(t, first);
      case DoUpsertAsync(target, registered, answer) => RefreshSettles(UpsertOwned(t, target).value, answer);
      case DoRemoveAsync(id, answer) => RefreshSettles(Drop(t, id), answer);
    }
    RunStaysSettled(Apply(t, op), ops);
    assert ops[..|ops|] == ops;
  }

  /** A target that is stopped while the hub is down stays selected and is unknown; and an answer without a list
      takes the lab as well. */
  lemma {:induction false} StoppedWhileTheHubIsDown()
    ensures var x := Target("x", Owned, R.Http, "");
      var t := Run(Fresh(true), [DoUpsert(x), DoSelect("x")]);
      && Settled(t)
      && var down := Apply(t, DoRemoveAsync("x", Failed));
      && !Settled(down) && down.selected == "x" && down.known.Keys == {LAB}
      && var lost := Apply(t, DoSync(Garbled([])));
      && !Settled(lost) && lost.selected == "x" && lost.known == map[]
  {
    var x := Target("x", Owned, R.Http, "");
    var empty := Fresh(true);
    assert Run(empty, [DoUpsert(x), DoSelect("x")]) == Apply(Apply(empty, DoUpsert(x)), DoSelect("x")) by {
      assert [DoUpsert(x), DoSelect("x")][1..] == [DoSelect("x")] && [DoSelect("x")][1..] == [];
    }
    assert "x" != LAB;
  }

  /** Without the lab, removing a target locally can leave the selection dangling: exactly when the
      selected target itself goes. */
  lemma {:induction false} RemovalWithoutLab(t: Targets, id: string)
    requires id != LAB && LAB !in t.known && t.selected in t.known
    ensures var r := RemoveOwned(t, id).value;
            r.selected in r.known <==> t.selected != id
  {
  }

  // ---------- one entry each ----------

  /** The insertion order lists every known target once. */
  ghost predicate OneEntryEach(t: Targets) {
    && (forall i, j :: 0 <= i < j < |t.order| ==> t.order[i] != t.order[j])
    && (forall id :: id in t.order <==> id in t.known)
    && (forall id :: id in t.known ==> t.known[id].id == id)
  }

  lemma {:induction false} PutKeepsEntries(t: Targets, target: Target)
    requires OneEntryEach(t)
    ensures OneEntryEach(Put(t, target))
  {
    var r := Put(t, target);
    assert r.order == t.order || r.order[|t.order|] == target.id;
    assert forall id :: id in t.order ==> id in r.order;
  }

  lemma {:induction false} PutAllKeepsEntries(t: Targets, peers: seq<R.Peer>)
    requires OneEntryEach(t)
    ensures OneEntryEach(PutAll(t, peers))
    decreases peers
  {
    hide OneEntryEach, Put, PeerToTarget;
    if peers != [] {
      PutKeepsEntries(t, PeerToTarget(peers[0]));
      PutAllKeepsEntries(Put(t, PeerToTarget(peers[0])), peers[1..]);
    }
  }

  lemma {:induction false} RefreshKeepsEntries(t: Targets, answer: Answer)
    requires OneEntryEach(t)
    ensures OneEntryEach(Refresh(t, answer))
  {
    var cleared := t.(order := [], known := map[]);
    assert OneEntryEach(cleared);
    match answer {
      case NoHub =>
      case Listed(listing) =>
        PutAllKeepsEntries(cleared, listing.peers);
        PutKeepsEntries(PutAll(cleared, listing.peers), LAB_TARGET);
      case Failed =>
      case Garbled(read) => PutAllKeepsEntries(cleared, read);
    }
  }

  /** A removal takes that entry and no other, and leaves the others in their order. */
  lemma {:induction false} DropTakesOne(t: Targets, id: string)
    requires OneEntryEach(t)
    ensures var r := Drop(t, id);
      && OneEntryEach(r) && id !in r.known && r.selected == t.selected && r.seedLab == t.seedLab
      && (forall other :: other != id ==> (other in r.known <==> other in t.known))
      && (forall other :: other in r.known ==> r.known[other] == t.known[other])
      && InOrder(t.order, r.order)
  {
    R.RetainKeeps(t.order, t.known.Keys - {id});
    RetainKeepsOrder(t.order, t.known.Keys - {id});
    assert Drop(t, id).order == R.Retain(t.order, t.known.Keys - {id});
    hide InOrder, R.Retain;
  }

  ghost predicate Earlier(order: seq<string>, a: string, b: string) {
    exists i, j :: 0 <= i < j < |order| && order[i] == a && order[j] == b
  }

  lemma {:induction false} EarlierInRest(order: seq<string>, a: string, b: string)
    requires order != [] && Earlier(order[1..], a, b)
    ensures Earlier(order, a, b)
  {
    var rest := order[1..];
    var i, j :| 0 <= i < j < |rest| && rest[i] == a && rest[j] == b;
    assert order[i + 1] == a && order[j + 1] == b;
  }

  ghost predicate InOrder(order: seq<string>, r: seq<string>) {
    forall i, j :: 0 <= i < j < |r| ==> Earlier(order, r[i], r[j])
  }

  lemma {:induction false} RetainKeepsOrder(order: seq<string>, kept: set<string>)
    ensures forall id :: id in R.Retain(order, kept) ==> id in order
    ensures InOrder(order, R.Retain(order, kept))
  {
    if order != [] {
      var r, rest := R.Retain(order, kept), R.Retain(order[1..], kept);
      RetainKeepsOrder(order[1..], kept);
      forall i, j | 0 <= i < j < |r|
        ensures Earlier(order, r[i], r[j])
      {
        if order[0] in kept && i == 0 {
          assert r[j] == rest[j - 1] && rest[j - 1] in order[1..];
          var m :| 0 <= m < |order| - 1 && order[1..][m] == r[j];
          assert order[0] == r[0] && order[m + 1] == r[j];
        } else {
          var d := if order[0] in kept then 1 else 0;
          assert r[i] == rest[i - d] && r[j] == rest[j - d];
          assert 0 <= i - d < j - d < |rest|;
          EarlierInRest(order, rest[i - d], rest[j - d]);
        }
      }
    }
  }

  /** Over every run each known target has one entry. */
  lemma {:induction false} RunKeepsEntries(t: Targets, ops: seq<Op>)
    requires OneEntryEach(t)
    ensures OneEntryEach(Run(t, ops))
    decreases ops
  {
    hide OneEntryEach, Apply;
    if ops != [] {
      CallKeepsEntries(t, ops[0]);
      RunKeepsEntries(Apply(t, ops[0]), ops[1..]);
    }
  }

  lemma {:induction false} SelectionIsNoEntry(t: Targets, id: string)
    ensures OneEntryEach(t.(selected := id)) <==> OneEntryEach(t)
  {
  }

  lemma {:induction false} CallKeepsEntries(t: Targets, op: Op)
    requires OneEntryEach(t)
    ensures OneEntryEach(Apply(t, op))
  {
    hide OneEntryEach, Refresh, Drop, Put, Choose;
    match op {
      case DoSync(answer) => RefreshKeepsEntries(t, answer);
      case DoSelect(id) => SelectionIsNoEntry(t, id);
      case DoSelectAsync(id, first, second, accepted) =>
        RefreshKeepsEntries(t, first);
        SelectionIsNoEntry(t, id);
        SelectionIsNoEntry(Refresh(t, first), id);
      case DoUpsert(target) => PutKeepsEntries(t, target.(source := Owned));
      case DoUpsertAsync(target, registered, answer) =>
        var put := Put(t, target.(source := Owned));
        PutKeepsEntries(t, target.(source := Owned));
        RefreshKeepsEntries(put, answer);
      case DoRemove(id) =>
        DropTakesOne(t, id);
        SelectionIsNoEntry(Drop(t, id), LAB);
      case DoRemoveAsync(id, answer) =>
        DropTakesOne(t, id);
        var left := Refresh(Drop(t, id), answer);
        RefreshKeepsEntries(Drop(t, id), answer);
        SelectionIsNoEntry(left, Choose(left, None));
    }
  }

  /** A selection with a hub succeeds exactly if both listings come, the first one - or the seed - knows the target,
      and the hub takes it if it has it by then; it moves the selection and nothing else. */
  lemma {:induction false} SelectingOnTheHub(t: Targets, id: string, first: Answer, second: Answer, accepted: bool)
    requires !first.NoHub?
    ensures var selected := SelectedOnHub(t, id, first, second, accepted);
      && (selected.Some? <==>
            && first.Listed? && second.Listed?
            && (id in HS.IdsOf(first.listing.peers) || (id == "lab" && t.seedLab))
            && (id in HS.IdsOf(second.listing.peers) ==> accepted))
      && (selected.Some? ==> selected.value == Refresh(t, first).(selected := id))
      && (selected.None? ==>
            Apply(t, DoSelectAsync(id, first, second, accepted)) == Refresh(t, first))
  {
    if first.Listed? {
      SyncKnows(t, first.listing);
    }
  }

  /** Without a hub or with a good listing an asynchronous removal leaves the selection on a known target unless none
      is left: on the lab if it has to move and there is one, else on the oldest target. */
  lemma {:induction false} RemovalFallsBack(t: Targets, id: string, answer: Answer)
    requires OneEntryEach(t) && t.selected in t.known && id != LAB && !Throws(answer)
    ensures var r := Apply(t, DoRemoveAsync(id, answer));
      && (r.selected in r.known <==> r.known != map[])
      && (answer.NoHub? ==> id !in r.known && r.selected == if t.selected != id then t.selected
            else if LAB in r.known || r.order == [] then LAB else r.order[0])
  {
    hide OneEntryEach, Drop, Sync, Choose;
    var dropped := Drop(t, id);
    DropTakesOne(t, id);
    RefreshKeepsEntries(dropped, answer);
    ChooseKnown(Refresh(dropped, answer), None);
    if answer.Listed? {
      SyncChooses(dropped, answer.listing);
    } else {
      ChooseFallsBack(dropped);
      NoneKnown(dropped);
    }
  }

  lemma {:induction false} NoneKnown(t: Targets)
    ensures t.selected in t.known ==> t.known != map[]
  {
  }

  lemma {:induction false} ChooseKnown(t: Targets, selectedId: Option<string>)
    requires OneEntryEach(t)
    ensures Choose(t, selectedId) in t.known <==> t.known != map[]
  {
    if t.known != map[] {
      var k :| k in t.known;
      assert k in t.order;
    }
    assert t.order != [] ==> t.order[0] in t.order;
  }

  lemma {:induction false} SyncChooses(t: Targets, listing: Listing)
    requires OneEntryEach(Sync(t, listing))
    ensures var r := Sync(t, listing); r.selected in r.known <==> r.known != map[]
  {
    var r := Sync(t, listing);
    ChooseKnown(r, listing.selectedId);
  }

  lemma {:induction false} ChooseFallsBack(t: Targets)
    ensures Choose(t, None) == if LAB in t.known || t.order == [] then LAB else t.order[0]
  {
  }

  // ---------- the class ----------

  class TargetRegistry {
    /** The JavaScript `Map`: its entries, and its keys in insertion order. */
    var targets: map<string, Target>
    var keys: seq<string>
    var selectedId: string
    const seedLab: bool

    function Value(): Targets
      reads this
    {
      Targets(keys, targets, selectedId, seedLab)
    }

    constructor (seedLab: bool)
      ensures Value() == Fresh(seedLab)
    {
      this.seedLab := seedLab;
      selectedId := LAB;
      if seedLab {
        targets, keys := map[LAB := LAB_TARGET], [LAB];
      } else {
        targets, keys := map[], [];
      }
    }

    method SetTarget(target: Target)
      modifies this`targets, this`keys
      ensures Value() == Put(old(Value()), target)
    {
      if target.id !in targets {
        keys := keys + [target.id];
      }
      targets := targets[target.id := target];
    }

    method SyncFromHub(answer: Answer) returns (ok: bool)
      modifies this
      ensures ok == !Throws(answer) && Value() == Refresh(old(Value()), answer)
    {
      if answer.NoHub? || answer.Failed? {
        return answer.NoHub?;
      }
      ok := answer.Listed?;
      var peers := if ok then answer.listing.peers else answer.read;
      ghost var cleared := Value().(order := [], known := map[]);
      targets, keys := map[], [];
      for i := 0 to |peers|
        invariant PutAll(Value(), peers[i..]) == PutAll(cleared, peers)
      {
        assert peers[i..][0] == peers[i] && peers[i..][1..] == peers[i + 1..];
        SetTarget(PeerToTarget(peers[i]));
      }
      assert Value() == PutAll(cleared, peers);
      if ok {
        Settle(answer.listing.selectedId);
      }
    }

    /** Seeds the lab and chooses the selection. */
    method Settle(hubSelected: Option<string>)
      modifies this
      ensures var filled := Seeded(old(Value())); Value() == filled.(selected := Choose(filled, hubSelected))
    {
      if seedLab && LAB !in targets {
        SetTarget(LAB_TARGET);
      }
      if hubSelected.Some? && hubSelected.value != "" && hubSelected.value in targets {
        selectedId := hubSelected.value;
      } else if LAB in targets {
        selectedId := LAB;
      } else if |keys| > 0 {
        selectedId := keys[0];
      } else {
        selectedId := LAB;
      }
    }

    method SelectTarget(id: string) returns (ok: bool)
      modifies this`selectedId
      ensures ok == (id in targets) && Value() == Or(old(Value()), Select(old(Value()), id))
    {
      ok := id in targets;
      if ok {
        selectedId := id;
      }
    }

    method SelectOnHub(id: string, first: Answer, second: Answer, accepted: bool) returns (ok: bool)
      modifies this
      ensures ok == SelectedOnHub(old(Value()), id, first, second, accepted).Some?
      ensures Value() == Apply(old(Value()), DoSelectAsync(id, first, second, accepted))
    {
      if first.NoHub? {
        ok := SelectTarget(id);
        return;
      }
      ok := SyncFromHub(first);
      if !ok || id !in targets || !second.Listed? {
        return false;
      }
      var onHub := IsListed(second.listing.peers, id);
      if onHub && !accepted {
        return false;
      }
      selectedId := id;
    }

    method Upsert(target: Target) returns (ok: bool)
      modifies this`targets, this`keys
      ensures ok == (target.id != LAB) && Value() == Or(old(Value()), UpsertOwned(old(Value()), target))
    {
      ok := target.id != LAB;
      if ok {
        SetTarget(target.(source := Owned));
      }
    }

    method UpsertOnHub(target: Target, registered: bool, answer: Answer) returns (ok: bool)
      modifies this
      ensures ok == (target.id != LAB && (answer.NoHub? || (registered && answer.Listed?)))
      ensures Value() == Apply(old(Value()), DoUpsertAsync(target, registered, answer))
    {
      ok := Upsert(target);
      if ok && !answer.NoHub? {
        if !registered {
          return false;
        }
        ok := SyncFromHub(answer);
      }
    }

    method Remove(id: string) returns (ok: bool)
      modifies this
      ensures ok == (id != LAB) && Value() == Or(old(Value()), RemoveOwned(old(Value()), id))
    {
      ok := id != LAB;
      if ok {
        keys := R.Retain(keys, targets.Keys - {id});
        targets := targets - {id};
        if selectedId == id {
          selectedId := LAB;
        }
      }
    }

    method RemoveAsync(id: string, answer: Answer) returns (ok: bool)
      modifies this
      ensures ok == (id != LAB && !Throws(answer)) && Value() == Apply(old(Value()), DoRemoveAsync(id, answer))
    {
      if id == LAB {
        return false;
      }
      keys := R.Retain(keys, targets.Keys - {id});
      targets := targets - {id};
      ok := SyncFromHub(answer);
      if ok && selectedId == id {
        selectedId := if LAB in targets then LAB else if |keys| > 0 then keys[0] else LAB;
      }
    }
  }

  method IsListed(peers: seq<R.Peer>, id: string) returns (listed: bool)
    ensures listed == (id in HS.IdsOf(peers))
  {
    listed := false;
    for i := 0 to |peers|
      invariant listed == (id in HS.IdsOf(peers)[..i])
    {
      assert HS.IdsOf(peers)[..i + 1] == HS.IdsOf(peers)[..i] + [peers[i].id];
      listed := listed || peers[i].id == id;
    }
  }
}
