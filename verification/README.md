# Verified models of the TouchDesigner MCP server's hard parts

This project models, in Dafny, the parts of the TouchDesigner MCP server whose behaviour depends on order,
time, or all inputs at once, and proves what they promise. `dafny verify dfyconfig.toml` checks everything.

Objects that the source updates in place are classes, loops are loops, and each such method is proved against
a specification function; what the source promises is then proved about those functions, over whole runs
where the promise is about runs.

| file | what it models |
|---|---|
| PeerRegistry, PeerStore | the hub's insertion-ordered peer map with a sticky selection and a time-to-live |
| PeerSocket | one tunnel socket: its chain of requests, the one in flight, the wire and the settlements |
| TunnelState, TunnelSafety, TunnelOutcomes, TunnelEffects, TunnelTiming, TunnelTrust, TunnelManager | the reverse-tunnel hub as a step relation over connections, frames, timers and routes, and the class that takes those steps |
| HubSnapshot, HubStore, HubKeepalive, HubServer | saving and restoring, the store over runs of the hub, the keepalive tick, the routes |
| TargetRegistry | the client's cache of the hub's list |
| TargetQueue | the per-target promise-chain lock, for bodies that call it again |
| WsCodec | the hand-written WebSocket client of RFC 6455, sections 5.2 to 5.5 |
| NodeLayout | grid placement of new nodes |
| SchemaSlim | published tool schemas and the metadata read off the full ones |
| RouteMatch | OpenAPI route matching |
| StatusLog | the bridge's bounded event log |
| EgoGraph, TreeWalk, OutlineNames | the wire neighbourhood of a node, the pruned tree walks, and what they report entry by entry |
| Toc, Graft, GraftAgreement | grafting the boot files into a foreign project |
| Text, Options | shared text functions and the optional value |

## What the code does that one might not think

Each of these is stated as a lemma, with the exact condition where there is one.

- The close event of a replaced connection removes the entry that replaced it
  (`TunnelTrust.OldCloseDropsTheReplacement`); `TunnelTrust.EntrySurvivesExactly` lists all that removes one.
- "One request in flight" holds per accepted hello, not per connection: a second hello on the same connection
  starts a second chain (`TunnelSafety.TwoHellosTwoInFlight`).
- Closing the hub leaves `tunnelConnected` flags set (`TunnelTrust.CloseAllForgetsFlags`).
- A sweep tests the selection for truth, so a selected peer with the empty id leaves the selection dangling.
  The hub's body schemas refuse an empty id, the store does not (`PeerRegistry.SweepKeepsSound`).
- Stopping the selected target while the hub does not answer deletes it and leaves it selected: `removeOwnedAsync`
  refreshes the cache before it repairs the selection, and the refresh throws
  (`TargetRegistry.StoppedWhileTheHubIsDown`, exactly when: `TargetRegistry.CallStaysSettled`). The next good
  listing mends it (`TargetRegistry.RelistingSettles`).
- `syncFromHub` clears its cache before it reads the list, so an answer with a good status but no list of peers
  empties the registry, the lab included (the same lemmas).
- A path filter loses its leading slashes only: `project1/` lists `project1` and nothing below it
  (`TreeWalk.TrailingSlashHidesWhatIsBelow`, exactly when: `TreeWalk.EmptyPartsHideWhatIsBelow`).
- Two `.n` files of one directory whose names differ in the case of the extension are both listed, under one path
  (`OutlineNames.EachOperatorOnce`).
- The WebSocket client ignores FIN and continuation frames (`WsCodec.FragmentsAreNotJoined`) and raises on a
  ping of 65536 bytes and more (`WsCodec.LongPingIsRefused`).
- The per-target lock is re-entrant for the innermost held id only. A body that holds A and B and awaits a call
  for A waits for ever (`TargetQueue.HoldingBothWays`, exactly when: `TargetQueue.NestedCallNeverStarts`), as do two
  chains that want each other's id (`TargetQueue.CrossWait`, exactly when: `TargetQueue.NewCallNeverStarts`).
- A nested call that its body does not await can outlive its section and run beside the next one
  (`TargetQueue.UnawaitedBodyOverlaps`, exactly when: `TargetQueue.OverlapsExactly`).
- A route pattern with a repeated placeholder name loses a value (`RouteMatch.FillGivesShares`), and one that
  ends in a literal also matches longer paths (`RouteMatch.LongerPathsMatchToo`).
- The metadata reader knows a `nullish` node that slimming does not (`SchemaSlim.OptionalIsNotRequired`). Nothing
  under `src` builds one, and zod 4's own `.nullish()` is an optional over a nullable, so with the library's
  builders the two readings always agree.
- The `NODE_NAME_DUPLICATE` check of the conflict gate is never reached, since the two before it cover its
  cases (`Graft.CollisionsNeverRefuse`).
- The graft sweeps the tree by directory entries and the table of contents by text, and the two disagree: what
  lies inside `project1/tdmcp_port_onstart` or `local/tdmcp_boot` is deleted but stays listed, and files such as
  `local/tdmcp_boot.cparm` are unlisted but stay (`GraftAgreement.AgreeExactly`, and what it means for the result:
  `GraftAgreement.StaysInStepExactly`).

## How the world outside is modelled

- Clocks are parameters, or the `now` of a run. In a run of the hub, time passes as an event of its own.
  "Timers fire on time" means that time never passes an armed timer and never passes while a promise
  continuation is ready to run.
- A connection is a number, and a request is identified by the order in which it was accepted: the random
  UUID of the source is modelled as a fresh number.
- A socket's `send` may throw: each step that sends carries the outcome. A `recv` returns any non-empty part
  of what was asked for.
- A call into the lock knows the call whose body made it, and whether that body ends before it. Holding an id is
  then no assumption: it follows from the calls above.
- A request of the registry to the hub is answered, rejected, or answered with something else than a list of peers;
  each call carries the answers it gets.
- Mask keys come from a function of how many were drawn before, so that every sequence of keys is covered.
- Zod itself is modelled by what a schema accepts: a missing property is read as an undefined value, and the
  checks on a node are any predicate on its input.
- A file system is a map from paths to files and directories in which every path has its parent, compared with
  regard to case.

## Model

| member | source | states |
|---|---|---|
| TunnelSafety.RequestLaws | src/hub/tunnelManager.ts:149-312 | In every run of the hub each binding has at most one request in flight and sent its requests in call order, and each accepted request is at every moment exactly one of waiting, in flight on its own binding, or settled there once |
| TunnelSafety.RunKeeps | src/hub/tunnelManager.ts:101-328 | Every event of the hub, whatever it closes, replaces or times out, keeps the tunnel invariant: orderly bindings, socket entries that are bindings of their own target, no accepted request lost |
| TunnelSafety.RunExtends | src/hub/tunnelManager.ts:245-312 | A settled promise keeps its one outcome through every later run; nothing is settled, sent or queued away again |
| TunnelSafety.NeverSettledTwice | src/hub/tunnelManager.ts:245-312 | No two settlements anywhere in the hub belong to the same request |
| TunnelSafety.OneFate | src/hub/tunnelManager.ts:256-312 | An accepted request is exactly one of waiting, in flight and settled |
| TunnelSafety.ResponseSettlesItsOwn | src/hub/tunnelManager.ts:149-160 | A response settles at most the pending request whose id it carries, on the current binding of the id its connection is bound to |
| TunnelSafety.LateResponseIsIgnored | src/hub/tunnelManager.ts:152-155 | A response whose request is not pending on that current binding changes nothing |
| TunnelOutcomes.EverySettlementHasItsCause | src/hub/tunnelManager.ts:149-328 | In every run each settlement goes back to the event that made it, at its time: a reply to a response frame with that id and that body, on a connection bound to the target whose present binding had the request in flight; a timeout to its own timer; a failed send to the send; a replacement to an accepted hello on another connection; a disconnection to the end of a connection bound to the target or to its deletion; a closing to the end of the hub |
| TunnelOutcomes.StepSettlesExactly | src/hub/tunnelManager.ts:149-328 | An event settles a request on a binding in a given way exactly if it is such a cause, and at most one |
| TunnelOutcomes.TimeoutsTakeTheirTime | src/hub/tunnelManager.ts:275-287 | A request that timed out had been sent at least its own timeout before, by the event that started it |
| TunnelOutcomes.CallsComeFromProxies | src/hub/tunnelManager.ts:256-274 | Every call of a binding was made for its target while the binding was the open entry, with the timeout asked for, or a minute |
| TunnelOutcomes.PendingWasStarted | src/hub/tunnelManager.ts:273-301 | Whatever is in flight was put on the wire by the start of its turn, and is due its own timeout later |
| TunnelSafety.InFlightPerBinding | src/hub/tunnelManager.ts:220-311 | A connection has no more requests in flight than it has bindings |
| TunnelSafety.HelloAddsALane | src/hub/tunnelManager.ts:184-225 | An accepted hello adds a chain to its connection beside those it has, whoever held the target before, and the next request goes out at once beside whatever is in flight there |
| TunnelSafety.RehelloOverlaps | src/hub/tunnelManager.ts:184-225 | So one request in flight per connection fails: two hellos on one connection put two requests on its wire |
| TunnelSafety.InFlightPerHello | src/hub/tunnelManager.ts:119-311 | In every run a connection has at most as many requests in flight as hellos were accepted on it, so one if it says hello once |
| TunnelSafety.TwoHellosTwoInFlight | src/hub/tunnelManager.ts:184-225 | A run from the empty hub with two requests in flight on one connection |
| TunnelSafety.StepMakesBindings | src/hub/tunnelManager.ts:184-225 | Only an accepted hello makes a binding, one on its own connection |
| PeerSocket.OrderlyMeans | src/hub/tunnelManager.ts:274-311 | In an orderly binding at most one request is in flight, exactly the finished calls are settled, each once, and the wire order is the call order |
| PeerSocket.FateOf | src/hub/tunnelManager.ts:274-311 | The i-th call waits, is in flight or is settled according to its place against the started and the settled ones |
| PeerSocket.ChainKeepsOrder | src/hub/tunnelManager.ts:306-311 | Chaining one more call keeps a binding orderly |
| PeerSocket.RunKeepsOrder | src/hub/tunnelManager.ts:274-304 | Starting the next call keeps a binding orderly, whether the send succeeds or throws |
| PeerSocket.RejectKeepsOrder | src/hub/tunnelManager.ts:245-251 | Rejecting everything pending keeps a binding orderly and settles all that had started |
| PeerSocket.WaitIsBounded | src/hub/tunnelManager.ts:274-311 | A request waits at most the sum of the timeouts from the first request that may still be unsettled at its call up to its own |
| TunnelTiming.EveryRequestSettlesInTime | src/hub/tunnelManager.ts:230-311 | If timers fire on time, the k-th request of a binding is settled no later than its own timeout after the later of its call and the bound of the one before it, in every run, across detach, replace and close |
| TunnelTiming.RunTimely | src/hub/tunnelManager.ts:230-312 | Every punctual run keeps all bindings within their bounds |
| TunnelTrust.FlagsAreBacked | src/hub/tunnelManager.ts:172-243 | Until the hub closes, and while no raw registration claims the flag, a record that says connected is a tunnel peer with an entry in the socket map |
| TunnelTrust.CloseAllForgetsFlags | src/hub/tunnelManager.ts:314-328 | Closing leaves the flags as they were: they stay sound exactly if none was set |
| TunnelTrust.EntriesComeFromHellos | src/hub/tunnelManager.ts:172-225 | Every entry of the socket map goes back to a hello that matched, by nonce, an expectation unexpired at that moment, on the connection the entry holds |
| TunnelTrust.EveryEntryWasExpected | src/hub/tunnelManager.ts:46-225 | From a hub without connections, that nonce was announced by an earlier expect request for the same target |
| TunnelTrust.ExpectationsEnd | src/hub/tunnelManager.ts:53-213 | Nonce and time-to-live of an expectation come from one expect route, and it ends that time after the route or after a hello accepted since |
| TunnelTrust.HellosComeInTime | src/hub/tunnelManager.ts:53-182 | A hello is accepted only with the nonce of an expect route and within the time-to-live that the route gave, ten minutes by default, counted from the route or from a hello accepted since |
| TunnelEffects.AnnouncedHelloIsAccepted | src/hub/tunnelManager.ts:53-225 | Whoever says the announced nonce within the announced time-to-live is accepted, whatever happened on the way, unless the target was announced anew |
| TunnelEffects.HelloRecords | src/hub/tunnelManager.ts:195-213 | An accepted hello records its target as a connected tunnel peer with its nonce, owned unless it is the lab, and puts the end of its expectation off by the time-to-live |
| TunnelEffects.DetachRecords | src/hub/tunnelManager.ts:227-240 | The end of an entry marks a tunnel peer as not connected, heard from just now, and leaves an HTTP peer alone |
| TunnelEffects.OpenAfter | src/hub/tunnelManager.ts:101-328 | A connection ends exactly with its close event, a frame that is no message, a refused hello on it, a hello accepted elsewhere for a target it holds, or the end of the hub if it holds any |
| TunnelEffects.BoundAfter | src/hub/tunnelManager.ts:101-147 | A connection is taken for the target of the last hello accepted on it |
| TunnelTrust.OldCloseDropsTheReplacement | src/hub/tunnelManager.ts:163-233 | After a hello on another connection took a target over, the later close event of the replaced connection removes the new entry, and only that |
| TunnelTrust.EntryStaysUnlessDropped | src/hub/tunnelManager.ts:163-328 | An entry of the socket map outlives an event exactly if that is no accepted hello for its target, no end of a connection bound to that target, no deletion of the connected target and not the end of the hub |
| TunnelTrust.EntrySurvivesExactly | src/hub/tunnelManager.ts:101-328 | Over whole runs: a binding is still the entry of its target exactly if no event on the way was one of these |
| TunnelManager.TunnelManager.constructor | src/hub/tunnelManager.ts:41-44 | Starts with no expectation, no connection and no request, on the given store |
| TunnelManager.TunnelManager.ExpectPeer | src/hub/tunnelManager.ts:46-55 | Records the expectation with its expiry |
| TunnelManager.TunnelManager.GetExpect | src/hub/tunnelManager.ts:57-65 | Answers with an unexpired expectation and forgets an expired one |
| TunnelManager.TunnelManager.ListExpects | src/hub/tunnelManager.ts:67-73 | Forgets every expired expectation and lists the others |
| TunnelManager.TunnelManager.IsConnected | src/hub/tunnelManager.ts:75-78 | True exactly if the target has an entry whose connection is open |
| TunnelManager.TunnelManager.AttachSocket | src/hub/tunnelManager.ts:101-102 | A new connection, bound to no target |
| TunnelManager.TunnelManager.OnHelloMessage | src/hub/tunnelManager.ts:119-147 | An accepted hello binds the connection, a refused or invalid one closes it |
| TunnelManager.TunnelManager.HandleHello | src/hub/tunnelManager.ts:172-228 | Accepts exactly the hellos whose nonce matches an unexpired expectation, replaces another connection of the target, and installs the new one; otherwise names the error and changes only the expectations |
| TunnelManager.TunnelManager.ReplaceSocket | src/hub/tunnelManager.ts:184-193 | Closes and rejects another connection of the target, not the same one |
| TunnelManager.TunnelManager.InstallSocket | src/hub/tunnelManager.ts:195-226 | Registers the peer, refreshes the expectation and enters a fresh binding |
| TunnelManager.TunnelManager.OnResponseMessage | src/hub/tunnelManager.ts:149-160 | Resolves the pending request of that id in the current binding, if there is one |
| TunnelManager.TunnelManager.OnClose | src/hub/tunnelManager.ts:163-165 | A closed connection detaches whatever is entered under the id it is bound to |
| TunnelManager.TunnelManager.OnError | src/hub/tunnelManager.ts:167-169 | The same for an error event |
| TunnelManager.TunnelManager.DetachPeer | src/hub/tunnelManager.ts:230-243 | Removes the entry, rejects what is pending and marks a tunnel record offline, which refreshes its heartbeat |
| TunnelManager.TunnelManager.RejectAllPending | src/hub/tunnelManager.ts:245-251 | Each pending promise is rejected once, in order, and none is left |
| TunnelManager.TunnelManager.ProxyRequest | src/hub/tunnelManager.ts:256-311 | Refuses an offline target, otherwise appends the call to the chain of the current binding |
| TunnelManager.TunnelManager.RunRequest | src/hub/tunnelManager.ts:274-304 | When the call before it has settled, the next one arms its timer and is sent, or is rejected at once if the send throws |
| TunnelManager.TunnelManager.OnTimer | src/hub/tunnelManager.ts:278-285 | A due timer rejects its own request |
| TunnelManager.TunnelManager.CloseSocket | src/hub/tunnelManager.ts:315-322 | One turn of the closing loop |
| TunnelManager.TunnelManager.CloseAll | src/hub/tunnelManager.ts:314-328 | Rejects what is pending on every entry, closes the connections and empties the map |
| PeerRegistry.RunKeepsSound | src/hub/peerStore.ts:16-86 | Over all store operations the selection is null exactly when there are no peers and otherwise names a live one |
| PeerRegistry.SweepKeepsSound | src/hub/peerStore.ts:74-86 | A sweep keeps this exactly unless a peer with the empty id is selected and expired |
| PeerRegistry.EmptyIdDangles | src/hub/peerStore.ts:82-84 | A concrete store whose selection dangles after a sweep |
| PeerRegistry.SilentPeerExpires | src/hub/peerStore.ts:30-86 | A peer with no heartbeat, registration or keeping tick for longer than the time-to-live is in no later list |
| PeerRegistry.TickedPeerSurvives | src/hub/peerStore.ts:30-86 | With ticks at most the time-to-live apart, a tunnel peer live at every tick survives every sweep |
| PeerRegistry.TickFacts | src/hub/server.ts:316-326 | A tick drops exactly what had expired before it and refreshes exactly the live tunnel peers; its second sweep finds nothing |
| PeerRegistry.SweepFacts | src/hub/peerStore.ts:74-86 | A sweep keeps exactly the unexpired records, untouched |
| HubKeepalive.MindedPeerSurvives | src/hub/server.ts:61-326 | Over whole runs of the hub, through every route and timer that sweeps, a tunnel peer connected or expected at each tick stays listed |
| HubStore.SilentPeerLeavesTheHub | src/hub/server.ts:61-326 | Over whole runs of the hub a peer from which nothing was heard for longer than the time-to-live is in no later list |
| HubStore.RunKeepsSoundStore | src/hub/server.ts:61-326 | Over whole runs of the hub with named peers the selection is null exactly when there are no peers and otherwise names one |
| PeerStore.PeerStore.Register | src/hub/peerStore.ts:16-28 | Overwrites in place or appends, keeps the first registration time, selects the first peer |
| PeerStore.PeerStore.Heartbeat | src/hub/peerStore.ts:30-35 | Moves the heartbeat of a known peer |
| PeerStore.PeerStore.Remove | src/hub/peerStore.ts:37-43 | Deletes the peer and, if it was selected, selects the oldest one left |
| PeerStore.PeerStore.Select | src/hub/peerStore.ts:65-72 | Selects a known peer, refuses an unknown one |
| PeerStore.PeerStore.Sweep | src/hub/peerStore.ts:74-86 | Drops exactly the expired peers, in order, and repairs a truthy selection that was dropped |
| PeerStore.PeerStore.DropExpired | src/hub/peerStore.ts:75-81 | The deleting loop of the sweep |
| PeerStore.PeerStore.List | src/hub/peerStore.ts:50-53 | Sweeps, then lists the records in insertion order |
| HubSnapshot.RestoreUndoesPersist | src/hub/server.ts:252-290 | Restoring a saved store into an empty one gives the same peers in the same order, tunnel peers offline, and the selection of the live store after the save, although it was read before the save swept |
| HubSnapshot.RestoredSelection | src/hub/server.ts:273-290 | A restart selects the saved selection if it is a name and was saved with its peer, else the first peer |
| HubSnapshot.NothingIsConnectedAfterARestart | src/hub/server.ts:273-290 | Whatever was saved, every restored peer is a saved one, heard from just now, and no tunnel peer is connected |
| HubSnapshot.PersistStore | src/hub/server.ts:252-271 | Reads the selection, then lists, which sweeps |
| HubSnapshot.RestoreStore | src/hub/server.ts:273-290 | Registers every saved peer, then selects the saved one if it is there |
| HubServer.HubServer.constructor | src/hub/server.ts:302-314 | Restores the snapshot into the store before the tunnel manager sees it |
| HubServer.HubServer.GetPeers | src/hub/server.ts:61-71 | Lists after a sweep, and returns the selection and the unexpired expectations with the peers |
| HubServer.HubServer.PostRegister | src/hub/server.ts:73-82 | Registers the peer and saves |
| HubServer.HubServer.PostExpect | src/hub/server.ts:84-106 | Records the expectation, registers an offline placeholder and saves |
| HubServer.HubServer.DeletePeer | src/hub/server.ts:122-133 | Detaches a connected peer, removes it and saves |
| HubServer.HubServer.PutSticky | src/hub/server.ts:142-155 | Selects a known peer and saves |
| HubServer.HubServer.MindPeer | src/hub/server.ts:318-324 | One turn of the tick: a connected or expected tunnel peer gets a heartbeat |
| HubServer.HubServer.Tick | src/hub/server.ts:316-326 | List, mind every listed peer, sweep |
| TunnelSafety.TickMindsTheLive | src/hub/server.ts:316-326 | The tick's loop over connections and expectations refreshes exactly the peers connected or expected when it starts, although asking forgets expectations on the way |
| TargetRegistry.SyncFollowsTheHub | src/core/targetRegistry.ts:99-125 | After a sync the sticky target is the hub's, or the lab when the hub is empty, and the known targets are the hub's peers and a seeded lab |
| TargetRegistry.SyncShowsTheHub | src/core/targetRegistry.ts:12-125 | After a sync every known target shows the transport, the details and the source of the hub peer of its id, or is the seeded lab where the hub has none |
| TargetRegistry.SyncFollowsARunningHub | src/core/targetRegistry.ts:99-125 | The same for the hub at any moment of any run, and the selection of a registry seeded with the lab is always known |
| TargetRegistry.CallStaysSettled | src/core/targetRegistry.ts:99-232 | A registry seeded with the lab whose selection names a known target keeps both over a call, whatever the hub answers, exactly if the call neither removes the selected target while the listing rejects nor meets a garbled list without the lab or the selected target |
| TargetRegistry.RunStaysSettled | src/core/targetRegistry.ts:99-232 | Over a whole run it keeps both all through exactly if no call on the way is one of these |
| TargetRegistry.RelistingSettles | src/core/targetRegistry.ts:99-125 | After the next good listing a registry seeded with the lab has both again, whatever it was before, until such a call |
| TargetRegistry.StoppedWhileTheHubIsDown | src/core/targetRegistry.ts:214-232 | A concrete registry: removing the selected target while the hub is down leaves it selected and unknown; an answer without a list loses the lab too |
| TargetRegistry.RemovalWithoutLab | src/core/targetRegistry.ts:204-212 | Without the lab a local removal leaves the selection dangling exactly if it removes the selected target |
| TargetRegistry.SelectingOnTheHub | src/core/targetRegistry.ts:160-174 | A selection with a hub succeeds exactly if both listings come, the first or the seed knows the target, and the hub takes it if it has it by then; it moves the selection and nothing else |
| TargetRegistry.RemovalFallsBack | src/core/targetRegistry.ts:214-232 | Unless the listing throws, an asynchronous removal leaves the selection on a known target exactly if any is left, and without a hub on the lab or else the oldest one if it has to move |
| TargetRegistry.RunKeepsEntries | src/core/targetRegistry.ts:99-232 | Over every run the insertion order lists each known target once |
| TargetRegistry.DropTakesOne | src/core/targetRegistry.ts:204-212 | A removal takes that entry and no other, and leaves the others in their order |
| TargetRegistry.TargetRegistry.constructor | src/core/targetRegistry.ts:64-81 | Seeds the lab unless told not to |
| TargetRegistry.TargetRegistry.SyncFromHub | src/core/targetRegistry.ts:99-125 | Replaces the cache by the list of the hub, seeds the lab, chooses the selection; without a hub or when the call rejects nothing changes, and a garbled list leaves what was read of it |
| TargetRegistry.TargetRegistry.SelectTarget | src/core/targetRegistry.ts:148-157 | Selects a known target, refuses an unknown one |
| TargetRegistry.TargetRegistry.SelectOnHub | src/core/targetRegistry.ts:160-174 | Refreshes the cache, refuses an unknown target, and selects on the hub first if a second listing names the target: if the hub refuses or an answer fails, what was refreshed stays and the selection does not follow |
| TargetRegistry.TargetRegistry.Upsert | src/core/targetRegistry.ts:178-189 | Enters an owned target, never the lab |
| TargetRegistry.TargetRegistry.UpsertOnHub | src/core/targetRegistry.ts:191-201 | Enters an owned target, registers it and refreshes the cache; if registering fails the target stays entered, if the listing does, so does what it left |
| TargetRegistry.TargetRegistry.Remove | src/core/targetRegistry.ts:204-212 | Removes a target other than the lab; a removed selection falls back to the lab |
| TargetRegistry.TargetRegistry.RemoveAsync | src/core/targetRegistry.ts:214-232 | Removes a target other than the lab, with a hub and without; a removed selection falls back to the lab or else to the first target left, unless the listing throws first |
| TargetQueue.SectionsTakeTurns | src/core/targetQueue.ts:10-34 | In every run the sections of one target never overlap and run in call order, whether earlier ones threw or not, and the first unfinished one is running or free to start |
| TargetQueue.StartsAfterTheReleasesAhead | src/core/targetQueue.ts:18-33 | A waiting section is free to start after exactly as many releases as unfinished sections were ahead of it at its call |
| TargetQueue.MayStartWhenFirst | src/core/targetQueue.ts:18-28 | A waiting section may start exactly if every earlier one of its target has finished |
| TargetQueue.SameIdNeverWaits | src/core/targetQueue.ts:14-32 | In every run a call runs at once exactly if the section that its caller runs in has its id; it then belongs to that section and leaves every queue as it was |
| TargetQueue.NestedBodiesShareTheirSection | src/core/targetQueue.ts:10-34 | Two bodies of one target that run at the same time belong to one section, unless one has outlived its section, which it cannot while the calls above it are awaited |
| TargetQueue.OverlapsExactly | src/core/targetQueue.ts:14-33 | A running nested body can come to run beside a later section of its target exactly if its own section neither waits for it, directly or through others, nor is in a deadlock |
| TargetQueue.UnawaitedBodyOverlaps | src/core/targetQueue.ts:14-33 | A concrete run in which a nested body that was not awaited runs beside the next section of its target |
| TargetQueue.NeverStartsExactlyIfStuck | src/core/targetQueue.ts:18-33 | A waiting call starts in no continuation of the run exactly if it is in a set of calls each of which waits for another of them |
| TargetQueue.StartsUnlessStuck | src/core/targetQueue.ts:18-33 | Otherwise a continuation in which it starts, built from the moves that are left |
| TargetQueue.DeadlockForEver | src/core/targetQueue.ts:18-33 | No call of such a set ever moves, whatever else is called |
| TargetQueue.StuckFromTheStart | src/core/targetQueue.ts:14-28 | A queueing call is stuck from the start exactly if a section ahead of it is stuck already, or waits, directly or through others, for the body that makes and awaits the call |
| TargetQueue.NewCallNeverStarts | src/core/targetQueue.ts:14-33 | So, decided at the moment of the call, these are exactly the queueing calls that start in no continuation of the run |
| TargetQueue.HeldAboveNeverStarts | src/core/targetQueue.ts:14-28 | An awaited call for an id held further up its caller chain, but not by its caller, never starts |
| TargetQueue.NestedCallNeverStarts | src/core/targetQueue.ts:14-28 | If nobody queues behind the caller chain and no section ahead is stuck, a nested call never starts exactly if it is awaited and a section of its caller chain holds its id |
| TargetQueue.HoldingBothWays | src/core/targetQueue.ts:14-28 | The run in which A calls for B, and there for A again: in every continuation that call waits and both bodies go on running |
| TargetQueue.CrossWait | src/core/targetQueue.ts:14-28 | The run of two chains that want each other's id: the first call can still start, after the second call neither ever does |
| TargetQueue.TargetQueues.Enqueue | src/core/targetQueue.ts:14-27 | A call nests or links itself behind its target's chain |
| TargetQueue.TargetQueues.Begin | src/core/targetQueue.ts:28-30 | A section whose chain is settled starts |
| TargetQueue.TargetQueues.Release | src/core/targetQueue.ts:31-33 | Ending opens the gate of a queueing call, thrown or not |
| WsCodec.DecodesEveryFrame | td/modules/utils/tdmcp_tunnel.py:267-291 | The decoder undoes every legal encoding of RFC 6455 section 5.2, whatever length form and mask, and takes exactly its bytes off the stream |
| WsCodec.SenderUsesTheShortestForm | td/modules/utils/tdmcp_tunnel.py:247-264 | No byte string that the decoder reads as one masked frame of this payload is shorter than what the sender writes |
| WsCodec.MaskedTwice | td/modules/utils/tdmcp_tunnel.py:262-291 | Masking twice with one key gives back the payload (RFC 6455 section 5.3) |
| WsCodec.XorAt | td/modules/utils/tdmcp_tunnel.py:260-262 | Masking sets a bit exactly if the payload bit and the mask bit differ |
| WsCodec.FramesAreLaidOut | td/modules/utils/tdmcp_tunnel.py:247-315 | A text and a pong go out as section 5.2 lays them out: FIN set, reserved bits clear, opcode 1 or 10, mask bit, the length in seven, sixteen or sixty-four bits in network byte order, the mask, and each payload bit changed exactly where the mask has one |
| WsCodec.UnmaskingGivesThePayload | td/modules/utils/tdmcp_tunnel.py:260-262 | Whoever undoes the mask of such a frame bit by bit has the payload |
| WsCodec.BigEndianRoundTrip | td/modules/utils/tdmcp_tunnel.py:256-287 | Reading back a packed length field gives the length |
| WsCodec.ReceivesWhatWasSent | td/modules/utils/tdmcp_tunnel.py:247-315 | For any texts with any masks and any passing frames between them, as many calls yield exactly the texts in order, take exactly the frames' bytes, and send one pong per ping and nothing else |
| WsCodec.PongsEchoPings | td/modules/utils/tdmcp_tunnel.py:294-308 | Each pong, decoded, is a pong frame with its ping's payload (RFC 6455 section 5.5) |
| WsCodec.LongPingIsRefused | td/modules/utils/tdmcp_tunnel.py:300-302 | A ping whose length does not fit two bytes raises instead of being answered |
| WsCodec.FragmentsAreNotJoined | td/modules/utils/tdmcp_tunnel.py:281-315 | Of a text cut into fragments, with control frames between them, only the first fragment is delivered, while the pings are answered; that is the text that was sent exactly if every continuation is empty |
| WsCodec.Socket.RecvExact | td/modules/utils/tdmcp_tunnel.py:267-274 | Exactly n bytes off the stream, however it is chunked, or the end of the stream |
| WsCodec.Socket.RecvLength | td/modules/utils/tdmcp_tunnel.py:283-287 | The length from the second header byte or the extended field |
| WsCodec.Socket.RecvBody | td/modules/utils/tdmcp_tunnel.py:288-291 | The mask and the unmasked payload |
| WsCodec.Socket.RecvFrame | td/modules/utils/tdmcp_tunnel.py:280-291 | One frame off the stream |
| WsCodec.Socket.SendText | td/modules/utils/tdmcp_tunnel.py:247-264 | Writes one masked text frame, or fails on a payload of 2^64 bytes and more |
| WsCodec.Socket.SendPong | td/modules/utils/tdmcp_tunnel.py:294-307 | Writes one masked pong, or fails on a payload of 65536 bytes and more |
| WsCodec.Socket.RecvTextMessage | td/modules/utils/tdmcp_tunnel.py:277-315 | Reads frames until a text, a close frame, the end of the stream or a refused pong, answering pings on the way |
| NodeLayout.FirstFreeCell | td/modules/mcp/services/node_layout.py:41-60 | The corner of the least free cell in row-major order, an error exactly if none of 100000 is free; within 4n+1 cells if none of the n boxes is larger than the new one, so no error for n up to 24999 |
| NodeLayout.NextCell | td/modules/mcp/services/node_layout.py:32-38 | The first cell is at the origin, the next one a pitch to the right, or after a full row at its beginning a pitch further down |
| NodeLayout.OverlapMeans | td/modules/mcp/services/node_layout.py:16-29 | Two boxes overlap exactly if a point lies inside the one and inside the other grown by the margin |
| NodeLayout.BlocksAtMostFour | td/modules/mcp/services/node_layout.py:16-38 | A box no wider or taller than the new one blocks at most four cells |
| NodeLayout.AllBlockedIsSmall | td/modules/mcp/services/node_layout.py:52-59 | All boxes together block at most four cells each, and every cell that is not free is among them |
| NodeLayout.SomeCellIsFree | td/modules/mcp/services/node_layout.py:52-60 | So one of the first 4n+1 cells is free |
| NodeLayout.PlacementsStayClear | td/modules/mcp/services/api_service.py:326-350 | Nodes placed one after the other beside any children, whatever the sizes, are pairwise clear by the gap exactly if the children were |
| NodeLayout.EqualNodesFillTheGrid | td/modules/mcp/services/node_layout.py:32-59 | Nodes of one size fill the grid without a hole: the n-th gets the n-th cell |
| SchemaSlim.PublishedSchemaRelaxes | src/features/tools/slimSchemaForMcp.ts:103-115 | Every value the full tool schema accepts is accepted by the published one, for any nesting and any further dropped keys |
| SchemaSlim.StripRelaxes | src/features/tools/slimSchemaForMcp.ts:10-40 | The same for one field |
| SchemaSlim.PublishedFieldAccepts | src/features/tools/slimSchemaForMcp.ts:10-91 | What a published field accepts, exactly: the base type of the original, missing or null where a wrapper says so, the same inside; the checks are gone, the types are not |
| SchemaSlim.PublishedSchemaAccepts | src/features/tools/slimSchemaForMcp.ts:103-129 | The published schema accepts exactly the objects whose fields, without the dropped ones, are so |
| SchemaSlim.BaseAcceptsTheRest | src/features/tools/metadata/touchDesignerToolMetadata.ts:103-141 | The base type the metadata shows is no wrapper, and accepts what the field accepts besides a missing value and null |
| SchemaSlim.LeanIsFixed | src/features/tools/slimSchemaForMcp.ts:10-91 | Slimming leaves a schema alone exactly if it is already types and enumerations only |
| SchemaSlim.StripIsLean | src/features/tools/slimSchemaForMcp.ts:10-91 | Slimming always ends in such a schema |
| SchemaSlim.SlimmingIsIdempotent | src/features/tools/slimSchemaForMcp.ts:103-115 | Slimming a published schema with the same dropped keys gives it back |
| SchemaSlim.OptionalIsNotRequired | src/features/tools/metadata/touchDesignerToolMetadata.ts:103-140 | A published field is declared optional exactly if the metadata does not require it, unless a nullish node comes before every optional wrapper |
| SchemaSlim.PublishedMatchesMetadata | src/features/tools/metadata/touchDesignerToolMetadata.ts:73-85 | The published shape lists the documented parameters in order, without the dropped ones, optional where the documentation does not require them |
| SchemaSlim.MayBeLeftOut | src/features/tools/slimSchemaForMcp.ts:15-39 | A published field accepts a missing value exactly if it is not required or its own type does |
| SchemaSlim.StripFieldForPublish | src/features/tools/slimSchemaForMcp.ts:10-40 | Peeling the wrappers and putting them back computes the recursive slimming |
| SchemaSlim.RebuildBaseLean | src/features/tools/slimSchemaForMcp.ts:42-91 | The switch over base types |
| SchemaSlim.SlimSchemaForMcp | src/features/tools/slimSchemaForMcp.ts:103-115 | The loop over the shape |
| SchemaSlim.Unwrap | src/features/tools/metadata/touchDesignerToolMetadata.ts:103-140 | The base type and the required flag below all wrappers |
| SchemaSlim.DeriveParameters | src/features/tools/metadata/touchDesignerToolMetadata.ts:73-85 | One parameter per field, in order |
| RouteMatch.MatchRoute | td/modules/mcp/controllers/openapi_router.py:99-157 | The first exact route answers; else the first whose pattern matches, with its parameters; none exactly if neither exists |
| RouteMatch.MatchParts | td/modules/mcp/controllers/openapi_router.py:126-155 | The walk over the parts of one pattern |
| RouteMatch.WalkMeans | td/modules/mcp/controllers/openapi_router.py:129-155 | A pattern matches exactly the paths that are long enough and agree with its literal parts, and each name gets the share of its last placeholder |
| RouteMatch.RouteAnswers | td/modules/mcp/controllers/openapi_router.py:103-160 | A route without a brace answers its own path alone; any other also the paths that fit its parts |
| RouteMatch.LongerPathsMatchToo | td/modules/mcp/controllers/openapi_router.py:136-155 | A pattern that ends in a literal also matches every longer path, with the same parameters |
| RouteMatch.FillGivesShares | td/modules/mcp/controllers/openapi_router.py:140-149 | Putting the parameters back gives the matched parts exactly if placeholders of one name stood for one text |
| RouteMatch.SubstitutionGivesTheHead | td/modules/mcp/controllers/openapi_router.py:126-155 | With distinct names, substituting the parameters gives back whole segments at the head of the path, and the whole path if the pattern ends in a placeholder |
| RouteMatch.RepeatedNameLosesAValue | td/modules/mcp/controllers/openapi_router.py:140-149 | With a repeated name the earlier value is lost |
| RouteMatch.MatchingRecoversTheValues | td/modules/mcp/controllers/openapi_router.py:99-157 | Matching a path instantiated from a lone route with distinct placeholders recovers the values, unless the path is the pattern itself, which yields none |
| StatusLog.TheTableShowsTheTail | td/modules/utils/tdmcp_status.py:47-422 | After any interleaving of records and flushes the deque is the last hundred events ever accepted, and a flush leaves in the table the last hundred of the rows it started with and all events since, whatever the pending buffer dropped |
| StatusLog.RunKeepsStep | td/modules/utils/tdmcp_status.py:47-422 | The invariant behind it, over every run |
| StatusLog.LastOfLasts | td/modules/utils/tdmcp_status.py:22-36 | Bounding two halves before bounding their concatenation changes nothing |
| StatusLog.RoutineLinesAreApart | td/modules/utils/tdmcp_status.py:70-77 | Any two routine hub lines that were kept are at least thirty seconds apart |
| StatusLog.RecordMeans | td/modules/utils/tdmcp_status.py:50-91 | A line is dropped only if it is a routine success of the hub, neither forced nor with a word of failure nor about a start, that comes within thirty seconds of the last one; otherwise time, level and line are kept in their columns |
| StatusLog.TruncateMeans | td/modules/utils/tdmcp_status.py:43-47 | A message becomes one line without blanks at its ends, cut at 160 characters with an ellipsis |
| StatusLog.TunnelStateMeans | td/modules/utils/tdmcp_status.py:62-73 | Which words set the tunnel state, the earlier before the later |
| StatusLog.FlushMeans | td/modules/utils/tdmcp_status.py:381-424 | A flush waits for half a second unless forced, and moves the pending rows to the table if the face is there |
| StatusLog.Truncate | td/modules/utils/tdmcp_status.py:40-44 | One line of at most 160 characters |
| StatusLog.StatusLog.constructor | td/modules/utils/tdmcp_status.py:22-37 | Empty deques, no flush and no routine line yet |
| StatusLog.StatusLog.Record | td/modules/utils/tdmcp_status.py:47-83 | Appends to both deques unless a routine line comes too early |
| StatusLog.StatusLog.ReadTunnelState | td/modules/utils/tdmcp_status.py:57-68 | The tunnel state is read off the message's words, in the order of the branches |
| StatusLog.StatusLog.TrimTable | td/modules/utils/tdmcp_status.py:371-378 | Deletes the oldest rows until the header and a hundred rows are left |
| StatusLog.StatusLog.Flush | td/modules/utils/tdmcp_status.py:381-422 | Throttled or without a face nothing moves; else the pending rows are appended, the table is trimmed and their number returned |
| EgoGraph.EgoSubgraph | src/toe/wires.ts:327-372 | Returns, in input order, exactly the edges whose destination, stripped source or raw source is joined to the seed by a walk of at most radius hops |
| EgoGraph.SourceOfAnInput | src/toe/parseExpand.ts:232-256 | An input named without slashes comes from the same directory, at the top from the name itself; a path with slashes is joined to the directory unless it starts with a slash, project or local |
| EgoGraph.WireOfASibling | src/toe/wires.ts:340-380 | The wire from a sibling joins exactly the two paths and is in the neighbourhood of both |
| EgoGraph.PortsAreDropped | src/toe/wires.ts:344-347 | The node an edge comes from is its source without an output port and then without an input port |
| EgoGraph.EgoGrows | src/toe/wires.ts:349-372 | A larger radius keeps every edge of a smaller one, in order |
| EgoGraph.BallGrows | src/toe/wires.ts:349-361 | Expanding only the frontier reaches the whole next ball |
| EgoGraph.OneMoreHop | src/toe/wires.ts:351-361 | At most r+1 hops is at most r hops or one hop further |
| EgoGraph.OnlyThePortIsDropped | src/toe/wires.ts:345 | A source path changes exactly if it ends in the port word and digits, and then loses just that |
| EgoGraph.Neighbours | src/toe/wires.ts:335-347 | The adjacency map joins two nodes exactly if some edge does |
| EgoGraph.Link | src/toe/wires.ts:335-340 | Enters both directions |
| EgoGraph.Expand | src/toe/wires.ts:353-360 | The unvisited neighbours of the frontier |
| EgoGraph.Visit | src/toe/wires.ts:354-359 | The inner loop |
| TreeWalk.PruningLosesNothing | src/toe/digest.ts:595-650 | The pruned walk sees, in order, exactly what a walk over the whole tree would keep |
| TreeWalk.NothingBelow | src/toe/digest.ts:604-626 | Nothing is wanted below a hidden directory, one at the last level, or one that fails the filter |
| TreeWalk.FilterClosed | src/toe/digest.ts:656-664 | Below a path that fails the filter every path fails it |
| TreeWalk.FilterComparesNames | src/toe/digest.ts:656-664 | A filter lets through exactly the paths comparable, name by name, with its parts between the slashes |
| TreeWalk.EmptyPartsHideWhatIsBelow | src/toe/digest.ts:583-664 | What lies below the path that a filter names is let through exactly if the filter has no empty part; the path itself exactly if the empty parts come last |
| TreeWalk.TrailingSlashHidesWhatIsBelow | src/toe/digest.ts:583-664 | So a filter that ends in a slash, which the normalisation keeps, lets the path before the slash through and nothing below it |
| TreeWalk.WantedMeans | src/toe/walkDepth.ts:8-38 | For every filter, a directory or file is wanted exactly if no name on its path is hidden, its path, a file without its extension, is comparable with the parts of the normalised filter, and it is at most the given number of levels below the nonempty ones; without a filter the levels count from the root |
| TreeWalk.KeyIsThePath | src/toe/digest.ts:635-636 | What the filter looks at is the path of names, with a file's extension gone |
| TreeWalk.EveryEntryHasAPath | src/toe/digest.ts:611-613 | Every entry is met under the path of the names above it, at that path's depth |
| TreeWalk.CollectOutlineEntries | src/toe/digest.ts:577-654 | Lists exactly the wanted directories and the wanted .n files without a directory twin, each with its hint |
| OutlineNames.OutlineMeans | src/toe/digest.ts:577-654 | Over the tree, path by path: a directory to be shown is listed under its path with the text of the .n file beside it, a .n file under its path without the extension exactly if no directory of that name is beside it, and nothing else |
| OutlineNames.EachOperatorOnce | src/toe/digest.ts:595-650 | In a tree of distinct names no path is listed twice, but for two .n files whose names differ in the case of the extension |
| OutlineNames.AllMeans | src/toe/digest.ts:595-650 | The walk over the whole tree meets exactly the entries of the tree, each under its path |
| TreeWalk.WalkOutline | src/toe/digest.ts:595-650 | The recursive walk that pushes into the list |
| TreeWalk.CollectWireEdges | src/toe/wires.ts:57-136 | Collects the inputs of exactly the wanted .n and .network files |
| OutlineNames.WiresMean | src/toe/wires.ts:57-136 | Over the tree, path by path: the wires collected are exactly the inputs of the .n and .network files to be shown, each to the operator of its file |
| TreeWalk.WalkEdges | src/toe/wires.ts:74-132 | The recursive walk that pushes the edges |
| Toc.DedupeRemovesWhatIsReported | src/toe/graftManifest.ts:563-611 | Deduplication removes exactly as many lines as are reported as duplicates, and afterwards none is reported |
| Toc.DedupeKeepsFirsts | src/toe/graftManifest.ts:583-611 | It leaves the first occurrence of each entry, in order |
| Toc.UniqueIsFirsts | src/toe/graftManifest.ts:588-602 | Keeping what a seen-set has not seen is keeping first occurrences, by position |
| Toc.FindDuplicateTocLines | src/toe/graftManifest.ts:563-580 | Reports each later spelling, with the first one if that differs |
| Toc.DuplicatesAre | src/toe/graftManifest.ts:563-580 | One report for each entry that has been there before, by position: its spelling, after the first one if that differs |
| Toc.KeyMeans | src/toe/graftManifest.ts:140-142 | Two lines name one entry exactly if they differ in case and the direction of slashes only |
| Toc.DedupeToc | src/toe/graftManifest.ts:583-611 | The deduplicated lines, and as many removed as there are duplicates |
| Toc.RemoveEntries | src/toe/graftManifest.ts:1092-1109 | Exactly the dropped entries go |
| Toc.RemoveTocLines | src/toe/graftManifest.ts:1092-1109 | Blank lines and the other entries stay |
| Toc.RemovalOfConcat | src/toe/graftManifest.ts:1092-1109 | A removal decides line by line: a line goes exactly if it is not blank and is to be dropped |
| Toc.TextsEndInABreak | src/toe/graftManifest.ts:583-1109 | After a deduplication and a merge the text ends in a line break, after a removal if it did before |
| Toc.MergeAddsFresh | src/toe/graftManifest.ts:1061-1090 | Merging fresh, distinct entries puts exactly them at the end |
| Toc.MergeTocEntries | src/toe/graftManifest.ts:1061-1090 | Appends the missing entries and deduplicates |
| Graft.WipeMakesAbsent | src/toe/graftManifest.ts:614-787 | After a sweep the classifier says absent, whatever the tree, the manifest and the project folder were |
| Graft.StagedIsFull | src/toe/graftManifest.ts:614-1022 | Once the boot files are staged the classifier says full exactly if the modules' tox is there or a bridge is embedded, and else partial |
| Graft.GraftIsFull | src/toe/graftManifest.ts:614-1022 | A sweep and staging end as full exactly if the tox is there |
| Graft.GraftKeepsTheRest | src/toe/graftManifest.ts:758-1022 | Every path outside the swept names, the manifest and the boot directory itself is as before |
| Graft.GraftTwice | src/toe/injectMcp.ts:322-324 | Grafting again leaves the same tree |
| Graft.TocAfterGraft | src/toe/injectMcp.ts:322-324 | Afterwards the entries are the first occurrences of the entries no graft owns, in order, and then exactly the three boot files |
| GraftAgreement.OwnedMeans | src/toe/graftManifest.ts:161-182 | Which paths of names the table of contents owns, in terms of the names and whatever their case |
| GraftAgreement.OnstartMeans | src/toe/graftManifest.ts:185-195 | Which manifest lines belong to the start operator, beside the bridge or inside it, by names |
| GraftAgreement.AgreeExactly | src/toe/graftManifest.ts:161-785 | For every path of names and every manifest: the two ways in which the sweep of the tree and that of the list can disagree, each as an exact condition on the path |
| GraftAgreement.FourDisagreements | src/toe/graftManifest.ts:161-785 | Four concrete paths on which they do |
| GraftAgreement.StaysInStepExactly | src/toe/injectMcp.ts:322-324 | If the entries were exactly the files before the graft, they are afterwards exactly if every file was treated alike: it goes exactly if its line goes, because it is owned or because an earlier line differs from it in case or slashes only |
| GraftAgreement.StaysInStepWithoutDuplicates | src/toe/injectMcp.ts:322-324 | If moreover no duplicate was reported and local was no file: exactly if no file of the tree is in one of the two sets of disagreement |
| GraftAgreement.ListedAfter | src/toe/injectMcp.ts:322-324 | Which lines are listed after the graft |
| GraftAgreement.FilesAfter | src/toe/injectMcp.ts:322-324 | Which files there are after the graft |
| Graft.InjectAgain | src/toe/injectMcp.ts:267-324 | Injecting once more is refused, skipped or replaced as asked, and a replacement ends in the same tree and entries |
| Graft.GateMeans | src/toe/injectMcp.ts:283-325 | State by state: an existing bridge is overwritten only on replace, left alone when complete and skip was asked, otherwise refused with the code of its state; without a bridge the injection goes ahead |
| Graft.ClassifyMeans | src/toe/graftManifest.ts:614-760 | A bridge is absent exactly if nothing of it is there, and complete exactly if what is to be loaded and what loads it are |
| Graft.WorkingCopy.HasEntriesOfStem | src/toe/graftManifest.ts:312-326 | Whether project1 has an entry of that operator name, in any case |
| Graft.WorkingCopy.DetectBridgeConflict | src/toe/graftManifest.ts:614-752 | The state of the bridge, by the checks in their order |
| Graft.WorkingCopy.RemoveReserved | src/toe/graftManifest.ts:763-769 | Removes every entry of project1 with a reserved name, recursively |
| Graft.WorkingCopy.RemoveEach | src/toe/graftManifest.ts:771-783 | Removes each path that is there, recursively |
| Graft.WorkingCopy.WipeGraftOwned | src/toe/graftManifest.ts:758-787 | The tree loses exactly what a graft owns, and so does the table of contents |
| Graft.WorkingCopy.StageBootInExpand | src/toe/graftManifest.ts:984-1022 | Writes the three boot files and returns their entries |
| Graft.WorkingCopy.Graft | src/toe/injectMcp.ts:322-324 | Sweep, stage, merge |
| Graft.WorkingCopy.Inject | src/toe/injectMcp.ts:267-324 | The gate's answer, and the tree and entries that go with it; a refusal wipes the working copy, a skip deletes the expanded tree and its table of contents |

## Left out

- Express, `ws`, axios, process control and TouchDesigner objects: only their events are modelled.
- The source's socket objects form a growing list of bindings here, and a closed-over `sock` is its index; aliasing between a binding and its map entry is the index itself.
- JSON, UTF-8 and the zod body schemas: frames and bodies arrive parsed; an invalid frame is an event of its own. Texts are byte payloads, so a payload that is not UTF-8 is not told apart.
- The WebSocket handshake, receive timeouts in the middle of a frame, and the lock around sending: one frame is written at a time.
- Node's clamping of timer delays above 2^31 milliseconds, and of a delay of zero to one.
- The hub saves to its default path even when it was started with another one (`persistStore(store)` in the routes); files are values here.
- `tunnelMgr` saving 100 ms after a change is the event `PersistTimer`, which may come at any moment.
- `selectAsync`, `upsertOwnedAsync` and `removeOwnedAsync` are one step each, with how each of their requests to the hub ended; calls that interleave between their awaits are not modelled.
- TargetQueue: a body that throws while it still awaits a nested call counts as not awaiting it.
- `getConnectedPeer`, `findConnectedByNonce`, `count`, `get` and the response presenters: they read and compute nothing hard.
- SchemaSlim.DeriveParameters: gives names and required flags; the rendered types and the descriptions are display text.
- Catalogue sizes; `leanJsonSchema`.
- Zod's exhaustive records over enumerated keys and its output side (defaults filled in, keys stripped): only what is accepted as input.
- The order of `Object.entries` for keys that look like integers.
- Coordinates are exact reals, so rounding of floats is not modelled.
- Case folding, blanks and digits are ASCII; `localeCompare` has no counterpart.
- TreeWalk.CollectOutlineEntries: lists in walk order; the final `localeCompare` sort is left out.
- `readOpHint`, `parseNInputs` and `parseCompInputs`: the text read is the hint, and the parsers of `.n` and `.network` files are any functions.
- Files that vanish or fail to read during a walk, and links.
- `resolveWiresForSeed` falling back to the children of a hub, and the select, bind and export edges collected there.
- The face around the event table: creating it, its summary and colours; an `appendRow` that raises.
- A plain file called `project1` or `local`, on which the source throws; the 27-byte header of a text file, whose body alone is kept; line endings, since the table of contents is its lines.
- Graft.WorkingCopy.DetectBridgeConflict: answers the state alone; the lists of present, missing and extra paths only feed messages and warnings.
- Colliding spellings below `project1` are a parameter of the gate; the checks after staging, the build number and collapsing are not modelled.
- Raw-text `dedupeToc` drops one blank line at the end per call, so that only its entries, not its bytes, are the same the second time.
- Reconnect threads and backoff, the expand cache, hub start-up locks, prompts and command lines.
