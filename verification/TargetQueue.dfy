/** The per-target promise-chain lock (src/core/targetQueue.ts), for bodies that call it again. */
module TargetQueue {
  import opened Options

  /** A promise of the chain: settled from the start, or once `previous` has settled and the gate of
      call `gate` is released. The map only ever holds promises that cannot reject. */
  datatype Promise = Resolved | Chained(previous: Promise, gate: nat)

  /** A body has not started, runs, or has ended by returning or throwing. */
  datatype Phase = Waiting | Running | Finished(threw: bool)

  /** One call of `withTargetQueue`. `caller` is the call whose body made it, `None` outside any body;
      `awaited`: that body does not end before this call has. `previous` is the chain a queueing call found,
      `None` for a call that re-entered. */
  datatype Call = Call(target: string, caller: Option<nat>, awaited: bool, previous: Option<Promise>, phase: Phase)

  /** `queues` is the module-level map, `released` the gates opened so far, `calls` every call in order;
      a call's index is its gate. */
  datatype Queues = Queues(queues: map<string, Promise>, released: set<nat>, calls: seq<Call>)

  const EMPTY := Queues(map[], {}, [])

  predicate IsSettled(p: Promise, released: set<nat>) {
    p.Resolved? || (IsSettled(p.previous, released) && p.gate in released)
  }

  predicate Unfinished(q: Queues, k: int) {
    0 <= k < |q.calls| && !q.calls[k].phase.Finished?
  }

  /** A queueing call is a section of its target; the others run inside one. */
  predicate IsSection(q: Queues, k: int) {
    0 <= k < |q.calls| && q.calls[k].previous.Some?
  }

  predicate Runs(q: Queues, k: int) {
    0 <= k < |q.calls| && q.calls[k].phase.Running?
  }

  /** Only a body that has begun makes calls. */
  predicate MayCall(q: Queues, caller: Option<nat>) {
    caller.Some? ==> caller.value < |q.calls| && !q.calls[caller.value].phase.Waiting?
  }

  /** `holding.getStore()`: a body runs under the id of its own call, queued or nested. */
  function Holding(q: Queues, caller: Option<nat>): Option<string>
    requires MayCall(q, caller)
  {
    if caller.None? then None else Some(q.calls[caller.value].target)
  }

  function Tail(q: Queues, target: string): Promise {
    if target in q.queues then q.queues[target] else Resolved
  }

  /** A call under its own id runs at once and leaves the queue alone; any other one queues. A body that has
      ended waits for nothing any more. */
  function Enter(q: Queues, target: string, caller: Option<nat>, awaited: bool): Queues
    requires MayCall(q, caller)
  {
    var waits := awaited && caller.Some? && Runs(q, caller.value);
    if Holding(q, caller) == Some(target) then q.(calls := q.calls + [Call(target, caller, waits, None, Running)])
    else
      var previous := Tail(q, target);
      q.(queues := q.queues[target := Chained(previous, |q.calls|)],
         calls := q.calls + [Call(target, caller, waits, Some(previous), Waiting)])
  }

  predicate MayStart(q: Queues, k: nat) {
    IsSection(q, k) && q.calls[k].phase.Waiting? && IsSettled(q.calls[k].previous.value, q.released)
  }

  function SetPhase(q: Queues, k: nat, phase: Phase): Queues
    requires k < |q.calls|
  {
    q.(calls := q.calls[k := q.calls[k].(phase := phase)])
  }

  function Start(q: Queues, k: nat): Queues {
    if MayStart(q, k) then SetPhase(q, k, Running) else q
  }

  predicate Awaits(q: Queues, k: int, j: int) {
    0 <= k && 0 <= j < |q.calls| && q.calls[j].caller == Some(k) && q.calls[j].awaited
  }

  /** A body ends when every call it awaits has ended. */
  predicate MayFinish(q: Queues, k: nat) {
    Runs(q, k) && forall j :: 0 <= j < |q.calls| && Awaits(q, k, j) ==> q.calls[j].phase.Finished?
  }

  /** The `finally` block of a queueing call: its gate opens whether or not the body threw. */
  function Finish(q: Queues, k: nat, threw: bool): Queues {
    if !MayFinish(q, k) then q
    else if IsSection(q, k) then SetPhase(q, k, Finished(threw)).(released := q.released + {k})
    else SetPhase(q, k, Finished(threw))
  }

  datatype Event =
    | Called(target: string, caller: Option<nat>, awaited: bool)
    | Started(k: nat)
    | Ended(k: nat, threw: bool)

  function Step(q: Queues, e: Event): Queues {
    match e
    case Called(target, caller, awaited) => if MayCall(q, caller) then Enter(q, target, caller, awaited) else q
    case Started(k) => Start(q, k)
    case Ended(k, threw) => Finish(q, k, threw)
  }

  function Run(q: Queues, es: seq<Event>): Queues
    decreases es
  {
    if es == [] then q else Run(Step(q, es[0]), es[1..])
  }

  // ---------- what every run keeps ----------

  /** The chain that a queueing call number `n` for `target` finds: one link per earlier section of it. */
  function ChainOf(calls: seq<Call>, target: string, n: nat): Promise
    requires n <= |calls|
  {
    if n == 0 then Resolved
    else if calls[n - 1].target == target && calls[n - 1].previous.Some?
    then Chained(ChainOf(calls, target, n - 1), n - 1)
    else ChainOf(calls, target, n - 1)
  }

  /** Sections of one target, `j` the earlier one. */
  predicate Before(q: Queues, j: int, k: int) {
    0 <= j < k < |q.calls| && IsSection(q, j) && IsSection(q, k) && q.calls[j].target == q.calls[k].target
  }

  ghost predicate Inv(q: Queues) {
    Linked(q) && GatesOpen(q) && InOrder(q) && Nested(q)
  }

  /** Every section, and every tail in the map, links to all earlier sections of its target. */
  ghost predicate Linked(q: Queues) {
    && (forall k :: 0 <= k < |q.calls| && q.calls[k].previous.Some? ==>
         q.calls[k].previous.value == ChainOf(q.calls, q.calls[k].target, k))
    && (forall t :: Tail(q, t) == ChainOf(q.calls, t, |q.calls|))
  }

  /** The open gates are those of the finished sections. */
  ghost predicate GatesOpen(q: Queues) {
    forall k: nat :: k in q.released <==> IsSection(q, k) && q.calls[k].phase.Finished?
  }

  /** Once a section runs, every earlier one of its target has finished. */
  ghost predicate InOrder(q: Queues) {
    forall j, k :: Before(q, j, k) && !q.calls[k].phase.Waiting? ==> q.calls[j].phase.Finished?
  }

  /** Callers come first, have begun, and run while an awaited call of theirs is unfinished; a call that
      re-entered never waits and has its caller's target. */
  ghost predicate Nested(q: Queues) {
    forall k :: 0 <= k < |q.calls| ==> NestedCall(q, k)
  }

  predicate NestedCall(q: Queues, k: nat)
    requires k < |q.calls|
  {
    var c := q.calls[k];
    && (c.caller.Some? ==> c.caller.value < k && !q.calls[c.caller.value].phase.Waiting?)
    && (c.awaited ==> c.caller.Some? && (!c.phase.Finished? ==> q.calls[c.caller.value].phase.Running?))
    && (c.previous.None? ==> c.caller.Some? && !c.phase.Waiting? && q.calls[c.caller.value].target == c.target)
  }

  lemma {:induction false} ChainIgnoresPhases(s: seq<Call>, t: seq<Call>, target: string, n: nat)
    requires n <= |s| && n <= |t|
    requires forall i :: 0 <= i < n ==> s[i].target == t[i].target && s[i].previous == t[i].previous
    ensures ChainOf(s, target, n) == ChainOf(t, target, n)
  {
    if n > 0 {
      ChainIgnoresPhases(s, t, target, n - 1);
    }
  }

  lemma {:induction false} ChainSettles(calls: seq<Call>, target: string, n: nat, released: set<nat>)
    requires n <= |calls|
    ensures IsSettled(ChainOf(calls, target, n), released) <==>
            forall j :: 0 <= j < n && calls[j].target == target && calls[j].previous.Some? ==> j in released
  {
    if n > 0 {
      ChainSettles(calls, target, n - 1, released);
    }
  }

  /** A waiting section may start exactly when every earlier one of its target has finished. */
  lemma {:induction false} MayStartWhenFirst(q: Queues, k: nat)
    requires Inv(q) && IsSection(q, k) && q.calls[k].phase.Waiting?
    ensures MayStart(q, k) <==> forall j :: Before(q, j, k) ==> q.calls[j].phase.Finished?
  {
    hide InOrder, Nested;
    ChainSettles(q.calls, q.calls[k].target, k, q.released);
    assert forall j ::
      0 <= j < k && q.calls[j].target == q.calls[k].target && q.calls[j].previous.Some? <==> Before(q, j, k);
  }

  // ---------- a call is made ----------

  lemma {:induction false} EnterChains(q: Queues, target: string, caller: Option<nat>, awaited: bool,
      t: string, n: nat)
    requires MayCall(q, caller) && n <= |q.calls|
    ensures var r := Enter(q, target, caller, awaited);
      |r.calls| == |q.calls| + 1 && ChainOf(r.calls, t, n) == ChainOf(q.calls, t, n)
  {
    ChainIgnoresPhases(Enter(q, target, caller, awaited).calls, q.calls, t, n);
  }

  lemma {:induction false} EnterTail(q: Queues, target: string, caller: Option<nat>, awaited: bool, t: string)
    requires Linked(q) && MayCall(q, caller)
    ensures var r := Enter(q, target, caller, awaited); Tail(r, t) == ChainOf(r.calls, t, |r.calls|)
  {
    hide Holding;
    EnterChains(q, target, caller, awaited, t, |q.calls|);
    assert Tail(q, t) == ChainOf(q.calls, t, |q.calls|);
  }

  lemma {:induction false} EnterLinks(q: Queues, target: string, caller: Option<nat>, awaited: bool)
    requires Linked(q) && MayCall(q, caller)
    ensures Linked(Enter(q, target, caller, awaited))
  {
    hide Holding, ChainOf;
    var r := Enter(q, target, caller, awaited);
    forall t
      ensures Tail(r, t) == ChainOf(r.calls, t, |r.calls|)
    {
      EnterTail(q, target, caller, awaited, t);
    }
    forall k | 0 <= k < |r.calls| && r.calls[k].previous.Some?
      ensures r.calls[k].previous.value == ChainOf(r.calls, r.calls[k].target, k)
    {
      EnterChains(q, target, caller, awaited, r.calls[k].target, k);
      if k < |q.calls| {
        assert r.calls[k] == q.calls[k];
      } else {
        assert Tail(q, target) == ChainOf(q.calls, target, |q.calls|);
      }
    }
  }

  lemma {:induction false} EnterOrders(q: Queues, target: string, caller: Option<nat>, awaited: bool)
    requires GatesOpen(q) && InOrder(q) && MayCall(q, caller)
    ensures GatesOpen(Enter(q, target, caller, awaited)) && InOrder(Enter(q, target, caller, awaited))
  {
    var r := Enter(q, target, caller, awaited);
    assert forall k :: 0 <= k < |q.calls| ==> r.calls[k] == q.calls[k];
    forall j, k | Before(r, j, k) && !r.calls[k].phase.Waiting?
      ensures r.calls[j].phase.Finished?
    {
      assert Before(q, j, k);
    }
  }

  lemma {:induction false} EnterNests(q: Queues, target: string, caller: Option<nat>, awaited: bool)
    requires Nested(q) && MayCall(q, caller)
    ensures Nested(Enter(q, target, caller, awaited))
  {
    var r := Enter(q, target, caller, awaited);
    forall k | 0 <= k < |r.calls|
      ensures NestedCall(r, k)
    {
      if k < |q.calls| {
        assert r.calls[k] == q.calls[k] && NestedCall(q, k);
      }
    }
  }

  // ---------- a body starts or ends ----------

  lemma {:induction false} PhaseLinks(q: Queues, k: nat, phase: Phase)
    requires Linked(q) && k < |q.calls|
    ensures Linked(SetPhase(q, k, phase))
  {
    var r := SetPhase(q, k, phase);
    forall t, n | 0 <= n <= |q.calls|
      ensures ChainOf(r.calls, t, n) == ChainOf(q.calls, t, n)
    {
      ChainIgnoresPhases(r.calls, q.calls, t, n);
    }
    assert forall t :: Tail(r, t) == Tail(q, t);
  }

  lemma {:induction false} StartOrders(q: Queues, k: nat)
    requires Inv(q) && MayStart(q, k)
    ensures GatesOpen(Start(q, k)) && InOrder(Start(q, k))
  {
    MayStartWhenFirst(q, k);
    hide Linked, Nested, MayStart, IsSettled;
    var r := SetPhase(q, k, Running);
    assert Start(q, k) == r && q.calls[k].phase.Waiting?;
    forall i, j | Before(r, i, j) && !r.calls[j].phase.Waiting?
      ensures r.calls[i].phase.Finished?
    {
      assert Before(q, i, j);
    }
  }

  lemma {:induction false} StartNests(q: Queues, k: nat)
    requires Nested(q) && MayStart(q, k)
    ensures Nested(Start(q, k))
  {
    var r := Start(q, k);
    forall i | 0 <= i < |r.calls|
      ensures NestedCall(r, i)
    {
      assert NestedCall(q, i);
    }
  }

  lemma {:induction false} FinishOrders(q: Queues, k: nat, threw: bool)
    requires GatesOpen(q) && InOrder(q) && MayFinish(q, k)
    ensures GatesOpen(Finish(q, k, threw)) && InOrder(Finish(q, k, threw))
  {
    var r := Finish(q, k, threw);
    assert Runs(q, k);
    forall i, j | Before(r, i, j) && !r.calls[j].phase.Waiting?
      ensures r.calls[i].phase.Finished?
    {
      assert Before(q, i, j);
    }
  }

  lemma {:induction false} FinishNests(q: Queues, k: nat, threw: bool)
    requires Nested(q) && MayFinish(q, k)
    ensures Nested(Finish(q, k, threw))
  {
    var r := Finish(q, k, threw);
    forall i | 0 <= i < |r.calls|
      ensures NestedCall(r, i)
    {
      assert NestedCall(q, i);
      if q.calls[i].caller == Some(k) && q.calls[i].awaited {
        assert Awaits(q, k, i);
      }
    }
  }

  lemma {:induction false} StepKeeps(q: Queues, e: Event)
    requires Inv(q)
    ensures Inv(Step(q, e))
  {
    hide Linked, GatesOpen, InOrder, Nested, Enter;
    match e
    case Called(target, caller, awaited) =>
      if MayCall(q, caller) {
        EnterLinks(q, target, caller, awaited);
        EnterOrders(q, target, caller, awaited);
        EnterNests(q, target, caller, awaited);
      }
    case Started(k) =>
      if MayStart(q, k) {
        PhaseLinks(q, k, Running);
        StartOrders(q, k);
        StartNests(q, k);
      }
    case Ended(k, threw) =>
      if MayFinish(q, k) {
        PhaseLinks(q, k, Finished(threw));
        LinkedIgnoresGates(SetPhase(q, k, Finished(threw)), q.released + {k});
        FinishOrders(q, k, threw);
        FinishNests(q, k, threw);
      }
  }

  lemma {:induction false} LinkedIgnoresGates(q: Queues, released: set<nat>)
    requires Linked(q)
    ensures Linked(q.(released := released))
  {
    var r := q.(released := released);
    assert forall t :: Tail(r, t) == Tail(q, t);
  }

  lemma {:induction false} EmptyKeeps()
    ensures Inv(EMPTY)
  {
    assert forall t :: ChainOf([], t, 0) == Resolved;
  }

  lemma {:induction false} RunKeeps(q: Queues, es: seq<Event>)
    requires Inv(q)
    ensures Inv(Run(q, es))
    decreases es
  {
    if es != [] {
      StepKeeps(q, es[0]);
      RunKeeps(Step(q, es[0]), es[1..]);
    }
  }

  // ---------- sections take turns ----------

  ghost predicate NoOverlap(q: Queues) {
    forall j, k :: Before(q, j, k) ==> !(q.calls[j].phase.Running? && q.calls[k].phase.Running?)
  }

  ghost predicate IsFirst(q: Queues, k: nat) {
    IsSection(q, k) && Unfinished(q, k) && forall j :: Before(q, j, k) ==> q.calls[j].phase.Finished?
  }

  ghost predicate NeverStuck(q: Queues) {
    forall k: nat :: IsFirst(q, k) ==> Runs(q, k) || MayStart(q, k)
  }

  /** In every run the sections of one target never overlap and run in call order - a section that runs
      or has run found every earlier one finished, thrown or not - and the first unfinished section of a
      target is running or free to start. */
  lemma {:induction false} SectionsTakeTurns(es: seq<Event>)
    ensures var q := Run(EMPTY, es);
            Inv(q) && NoOverlap(q) && InOrder(q) && NeverStuck(q)
  {
    EmptyKeeps();
    RunKeeps(EMPTY, es);
    TurnsOf(Run(EMPTY, es));
  }

  lemma {:induction false} TurnsOf(q: Queues)
    requires Inv(q)
    ensures NoOverlap(q) && NeverStuck(q)
  {
    hide Linked, GatesOpen, Nested, MayStart;
    forall k: nat | IsFirst(q, k)
      ensures Runs(q, k) || MayStart(q, k)
    {
      if q.calls[k].phase.Waiting? {
        MayStartWhenFirst(q, k);
      }
    }
  }

  /** How many unfinished sections of its target are ahead of section `k`. */
  function Ahead(q: Queues, k: nat): nat
    requires k < |q.calls|
  {
    AheadUpTo(q, k, k)
  }

  function AheadUpTo(q: Queues, k: nat, n: nat): nat
    requires n <= k < |q.calls|
  {
    if n == 0 then 0
    else AheadUpTo(q, k, n - 1) + if Before(q, n - 1, k) && Unfinished(q, n - 1) then 1 else 0
  }

  lemma {:induction false} NoneAhead(q: Queues, k: nat, n: nat)
    requires n <= k < |q.calls|
    ensures AheadUpTo(q, k, n) == 0 <==> forall j :: j < n && Before(q, j, k) ==> q.calls[j].phase.Finished?
  {
    if n > 0 {
      NoneAhead(q, k, n - 1);
    }
  }

  /** Whether `e` releases a section that `k` waits for. */
  predicate Frees(q: Queues, e: Event, k: nat) {
    e.Ended? && MayFinish(q, e.k) && Before(q, e.k, k)
  }

  lemma {:induction false} StepMovesUp(q: Queues, e: Event, k: nat, n: nat)
    requires n <= k < |q.calls|
    ensures k < |Step(q, e).calls|
    ensures AheadUpTo(Step(q, e), k, n) == AheadUpTo(q, k, n) - if Frees(q, e, k) && e.k < n then 1 else 0
  {
    hide MayStart, MayFinish, Holding;
    StepKeepsShape(q, e, k);
    if n > 0 {
      StepMovesUp(q, e, k, n - 1);
      StepKeepsShape(q, e, n - 1);
    }
  }

  /** What no step changes about a call, and which step ends it. */
  lemma {:induction false} StepKeepsShape(q: Queues, e: Event, k: nat)
    requires k < |q.calls|
    ensures |q.calls| <= |Step(q, e).calls|
    ensures Step(q, e).calls[k].(phase := q.calls[k].phase) == q.calls[k]
    ensures Step(q, e).calls[k].phase != q.calls[k].phase
      ==> (e == Started(k) && MayStart(q, k)) || (e.Ended? && e.k == k && MayFinish(q, k))
    ensures e.Ended? && e.k == k && MayFinish(q, k) ==> Runs(q, k) && Step(q, e).calls[k].phase == Finished(e.threw)
    ensures e == Started(k) && MayStart(q, k) ==> q.calls[k].phase.Waiting? && Step(q, e).calls[k].phase.Running?
  {
    hide IsSettled;
  }

  function Releases(q: Queues, es: seq<Event>, k: nat): nat
    decreases es
  {
    if es == [] then 0 else (if Frees(q, es[0], k) then 1 else 0) + Releases(Step(q, es[0]), es[1..], k)
  }

  /** A waiting section is free to start after exactly as many releases as there were unfinished sections
      ahead of it - no later call can get between. */
  lemma {:induction false} StartsAfterTheReleasesAhead(q: Queues, es: seq<Event>, k: nat)
    requires Inv(q) && IsSection(q, k)
    ensures IsSection(Run(q, es), k)
    ensures Releases(q, es, k) <= Ahead(q, k) && Ahead(Run(q, es), k) == Ahead(q, k) - Releases(q, es, k)
    ensures Run(q, es).calls[k].phase.Waiting? ==> (MayStart(Run(q, es), k) <==> Releases(q, es, k) == Ahead(q, k))
    decreases es
  {
    hide Inv, Step, MayStart;
    if es == [] {
      NoneAhead(q, k, k);
      if q.calls[k].phase.Waiting? {
        MayStartWhenFirst(q, k);
      }
    } else {
      StepKeeps(q, es[0]);
      StepMovesUp(q, es[0], k, k);
      StepKeepsShape(q, es[0], k);
      StartsAfterTheReleasesAhead(Step(q, es[0]), es[1..], k);
    }
  }

  // ---------- nested calls and their section ----------

  /** The section that call `k` runs in: its own, or the one its caller runs in. */
  function Owner(q: Queues, k: nat): (owner: nat)
    requires k < |q.calls|
    ensures owner <= k
  {
    var c := q.calls[k];
    if c.previous.Some? || c.caller.None? || c.caller.value >= k then k else Owner(q, c.caller.value)
  }

  /** Every call from `k` up to its section is awaited. */
  predicate AwaitedUp(q: Queues, k: nat)
    requires k < |q.calls|
  {
    var c := q.calls[k];
    c.previous.Some? || c.caller.None? || c.caller.value >= k || (c.awaited && AwaitedUp(q, c.caller.value))
  }

  lemma {:induction false} OwnerFacts(q: Queues, k: nat)
    requires Nested(q) && k < |q.calls|
    ensures IsSection(q, Owner(q, k)) && q.calls[Owner(q, k)].target == q.calls[k].target
    ensures Runs(q, k) && AwaitedUp(q, k) ==> Runs(q, Owner(q, k))
    ensures !q.calls[k].phase.Waiting? ==> !q.calls[Owner(q, k)].phase.Waiting?
  {
    assert NestedCall(q, k);
    if q.calls[k].previous.None? {
      OwnerFacts(q, q.calls[k].caller.value);
    }
  }

  /** In every run a call under its caller's own id never waits; it runs in a section of its target, which is
      still running as long as the calls in between are awaited. So two bodies of one target that run at the
      same time belong to one section - unless one of them has outlived its section. */
  lemma {:induction false} NestedBodiesShareTheirSection(es: seq<Event>, j: nat, k: nat)
    requires Runs(Run(EMPTY, es), j) && Runs(Run(EMPTY, es), k)
    requires Run(EMPTY, es).calls[j].target == Run(EMPTY, es).calls[k].target
    ensures var q := Run(EMPTY, es);
      && (AwaitedUp(q, j) ==> Runs(q, Owner(q, j)))
      && (Owner(q, j) == Owner(q, k) || !Runs(q, Owner(q, j)) || !Runs(q, Owner(q, k)))
  {
    hide Linked, GatesOpen;
    SectionsTakeTurns(es);
    var q := Run(EMPTY, es);
    OwnerFacts(q, j);
    OwnerFacts(q, k);
    assert Before(q, Owner(q, j), Owner(q, k)) || Before(q, Owner(q, k), Owner(q, j)) || Owner(q, j) == Owner(q, k);
  }

  /** A call waits exactly if its caller does not hold its id; whatever else is queued. */
  lemma {:induction false} SameIdNeverWaits(es: seq<Event>, target: string, caller: Option<nat>, awaited: bool)
    requires MayCall(Run(EMPTY, es), caller)
    ensures var q := Run(EMPTY, es);
      var r := Run(EMPTY, es + [Called(target, caller, awaited)]);
      && |r.calls| == |q.calls| + 1
      && (r.calls[|q.calls|].phase.Running? <==>
           caller.Some? && IsSection(q, Owner(q, caller.value)) && q.calls[Owner(q, caller.value)].target == target)
      && (r.calls[|q.calls|].phase.Running? ==> Owner(r, |q.calls|) == Owner(q, caller.value) && r.queues == q.queues)
  {
    EmptyKeeps();
    RunKeeps(EMPTY, es);
    RunMore(EMPTY, es, [Called(target, caller, awaited)]);
    var q := Run(EMPTY, es);
    var r := Enter(q, target, caller, awaited);
    assert Run(q, [Called(target, caller, awaited)]) == r by {
      assert [Called(target, caller, awaited)][1..] == [];
    }
    if caller.Some? {
      OwnerFacts(q, caller.value);
      OwnerStays(q, r, caller.value);
    }
  }

  lemma {:induction false} OwnerStays(q: Queues, r: Queues, k: nat)
    requires k < |q.calls| <= |r.calls| && r.calls[..|q.calls|] == q.calls
    ensures Owner(r, k) == Owner(q, k)
  {
    assert r.calls[k] == r.calls[..|q.calls|][k];
    var c := q.calls[k];
    if c.previous.None? && c.caller.Some? && c.caller.value < k {
      OwnerStays(q, r, c.caller.value);
    }
  }

  lemma {:induction false} RunMore(q: Queues, es: seq<Event>, more: seq<Event>)
    ensures Run(q, es + more) == Run(Run(q, es), more)
    decreases es
  {
    if es == [] {
      assert es + more == more;
    } else {
      RunMore(Step(q, es[0]), es[1..], more);
      assert (es + more)[1..] == es[1..] + more;
    }
  }

  // ---------- calls that wait for ever ----------

  /** `k` cannot go on before `j` has ended: a waiting section waits for the unfinished ones ahead of it, a
      running body for the unfinished calls it awaits. */
  predicate WaitsFor(q: Queues, k: int, j: int) {
    && Unfinished(q, k) && Unfinished(q, j)
    && if q.calls[k].phase.Waiting? then Before(q, j, k) else Awaits(q, k, j)
  }

  ghost predicate Blocked(q: Queues, d: set<nat>, k: nat) {
    exists j: nat :: j in d && WaitsFor(q, k, j)
  }

  /** Each of these calls waits for another of them. */
  ghost predicate Deadlock(q: Queues, d: set<nat>) {
    forall k :: k in d ==> Blocked(q, d, k)
  }

  ghost predicate Stuck(q: Queues, k: nat) {
    exists d: set<nat> :: k in d && Deadlock(q, d)
  }

  /** Each of these calls but `b` waits for another of them: none moves before `b` does. */
  ghost predicate HeldBy(q: Queues, d: set<nat>, b: int) {
    forall k :: k in d && k != b ==> Blocked(q, d, k)
  }

  ghost predicate StuckBut(q: Queues, k: nat, b: int) {
    exists d: set<nat> :: k in d && HeldBy(q, d, b)
  }

  /** `NOBODY` is no call. */
  const NOBODY := -1

  lemma {:induction false} StuckByNobody(q: Queues, d: set<nat>, k: nat)
    ensures Deadlock(q, d) <==> HeldBy(q, d, NOBODY)
    ensures Stuck(q, k) <==> StuckBut(q, k, NOBODY)
  {
    hide Blocked;
    assert forall c: set<nat> :: Deadlock(q, c) <==> HeldBy(q, c, NOBODY);
  }

  lemma {:induction false} WaiterStays(q: Queues, e: Event, k: nat, j: nat)
    requires Inv(q) && WaitsFor(q, k, j)
    ensures k < |Step(q, e).calls| && j < |Step(q, e).calls| && Step(q, e).calls[k] == q.calls[k]
  {
    hide Inv, Step, MayStart;
    StepKeepsShape(q, e, k);
    StepKeepsShape(q, e, j);
    if q.calls[k].phase.Waiting? {
      SectionWaits(q, k);
      MayStartWhenFirst(q, k);
    }
  }

  lemma {:induction false} StillWaits(q: Queues, r: Queues, k: nat, j: nat)
    requires WaitsFor(q, k, j) && |q.calls| <= |r.calls|
    requires r.calls[k] == q.calls[k] && r.calls[j] == q.calls[j]
    ensures WaitsFor(r, k, j)
  {
  }

  /** While `b` runs, if it is a call at all, nobody held by it moves. */
  lemma {:induction false} HeldStay(q: Queues, e: Event, d: set<nat>, b: int)
    requires Inv(q) && HeldBy(q, d, b) && (b in d ==> Runs(q, b) && Runs(Step(q, e), b))
    ensures HeldBy(Step(q, e), d, b)
    ensures forall k :: k in d ==> k < |q.calls| && k < |Step(q, e).calls| && Step(q, e).calls[k] == q.calls[k]
  {
    hide Inv, Step, WaitsFor, Moves;
    forall k | k in d
      ensures k < |q.calls| && k < |Step(q, e).calls| && Step(q, e).calls[k] == q.calls[k]
    {
      if k == b {
        StepKeepsShape(q, e, k);
      } else {
        assert Blocked(q, d, k);
        var j: nat :| j in d && WaitsFor(q, k, j);
        Waiters(q, k, j);
        WaiterStays(q, e, k, j);
      }
    }
    forall k | k in d && k != b
      ensures Blocked(Step(q, e), d, k)
    {
      assert Blocked(q, d, k);
      var j: nat :| j in d && WaitsFor(q, k, j);
      Waiters(q, k, j);
      StepGrows(q, e);
      StillWaits(q, Step(q, e), k, j);
    }
  }

  lemma {:induction false} StepGrows(q: Queues, e: Event)
    ensures |q.calls| <= |Step(q, e).calls|
  {
    hide IsSettled;
  }

  lemma {:induction false} Waiters(q: Queues, k: nat, j: nat)
    requires WaitsFor(q, k, j)
    ensures k < |q.calls| && j < |q.calls|
  {
  }

  lemma {:induction false} SectionWaits(q: Queues, k: nat)
    requires Inv(q) && k < |q.calls| && q.calls[k].phase.Waiting?
    ensures IsSection(q, k)
  {
    assert NestedCall(q, k);
  }

  lemma {:induction false} HeldForEver(q: Queues, es: seq<Event>, d: set<nat>, b: int, k: nat)
    requires Inv(q) && HeldBy(q, d, b) && k in d && (b in d ==> Runs(q, b) && Runs(Run(q, es), b))
    ensures k < |q.calls| && k < |Run(q, es).calls| && Run(q, es).calls[k] == q.calls[k]
    decreases es
  {
    hide Inv, Step, HeldBy;
    if es == [] {
      HeldAreCalls(q, d, b, k);
    } else {
      if b in d {
        RunsBetween(q, es, b);
      }
      HeldStay(q, es[0], d, b);
      StepKeeps(q, es[0]);
      HeldForEver(Step(q, es[0]), es[1..], d, b, k);
    }
  }

  lemma {:induction false} HeldAreCalls(q: Queues, d: set<nat>, b: int, k: nat)
    requires HeldBy(q, d, b) && k in d && (b in d ==> Runs(q, b))
    ensures k < |q.calls|
  {
    if k != b {
      assert Blocked(q, d, k);
    }
  }

  /** Nobody in a deadlock ever moves. */
  lemma {:induction false} DeadlockForEver(q: Queues, es: seq<Event>, d: set<nat>, k: nat)
    requires Inv(q) && Deadlock(q, d) && k in d
    ensures k < |q.calls| && k < |Run(q, es).calls| && Run(q, es).calls[k] == q.calls[k]
  {
    hide Inv, Run, Deadlock, HeldBy;
    StuckByNobody(q, d, k);
    HeldForEver(q, es, d, NOBODY, k);
  }

  /** A body that runs now and after some events runs in between. */
  lemma {:induction false} RunsBetween(q: Queues, es: seq<Event>, b: nat)
    requires es != [] && Runs(q, b) && Runs(Run(q, es), b)
    ensures Runs(Step(q, es[0]), b)
  {
    hide Step;
    StepKeepsShape(q, es[0], b);
    if Step(q, es[0]).calls[b].phase.Finished? {
      StaysFinished(Step(q, es[0]), es[1..], b);
    }
  }

  lemma {:induction false} StaysFinished(q: Queues, es: seq<Event>, k: nat)
    requires k < |q.calls| && q.calls[k].phase.Finished?
    ensures k < |Run(q, es).calls| && Run(q, es).calls[k].phase.Finished?
    decreases es
  {
    hide Step;
    if es != [] {
      StepKeepsShape(q, es[0], k);
      StaysFinished(Step(q, es[0]), es[1..], k);
    }
  }

  /** What is left to do. */
  function Left(calls: seq<Call>): nat {
    if calls == [] then 0
    else Left(calls[..|calls| - 1]) + match calls[|calls| - 1].phase {
      case Waiting => 2
      case Running => 1
      case Finished(_) => 0
    }
  }

  lemma {:induction false} LeftShrinks(calls: seq<Call>, k: nat, phase: Phase)
    requires k < |calls| && !phase.Waiting? && !calls[k].phase.Finished?
    requires calls[k].phase.Running? ==> phase.Finished?
    ensures Left(calls[k := calls[k].(phase := phase)]) < Left(calls)
  {
    var n := |calls| - 1;
    var after := calls[k := calls[k].(phase := phase)];
    if k < n {
      LeftShrinks(calls[..n], k, phase);
      assert after[..n] == calls[..n][k := calls[k].(phase := phase)];
    } else {
      assert after[..n] == calls[..n];
    }
  }

  /** Something can move: a section that may start or a body that may end. */
  predicate Moves(q: Queues, e: Event) {
    (e.Started? && MayStart(q, e.k)) || (e.Ended? && MayFinish(q, e.k))
  }

  function AllBelow(n: nat): (s: set<nat>)
    ensures forall k: nat :: k in s <==> k < n
  {
    if n == 0 then {} else AllBelow(n - 1) + {n - 1}
  }

  /** If nothing but the end of `b` can move anything, `b` holds all unfinished calls. */
  lemma {:induction false} NothingElseMoves(q: Queues, k: nat, b: int)
    requires Inv(q) && Unfinished(q, k) && forall e :: Moves(q, e) ==> e.Ended? && e.k == b
    ensures StuckBut(q, k, b)
  {
    hide Inv, MayStart;
    var d := set i | i in AllBelow(|q.calls|) && Unfinished(q, i);
    forall i | i in d && i != b
      ensures Blocked(q, d, i)
    {
      assert !Moves(q, Started(i)) && !Moves(q, Ended(i, false));
      if q.calls[i].phase.Waiting? {
        SectionWaits(q, i);
        MayStartWhenFirst(q, i);
        var j :| Before(q, j, i) && !q.calls[j].phase.Finished?;
        assert j in d && WaitsFor(q, i, j);
      } else {
        var j :| 0 <= j < |q.calls| && Awaits(q, i, j) && !q.calls[j].phase.Finished?;
        assert j in d && WaitsFor(q, i, j);
      }
    }
    assert HeldBy(q, d, b);
  }

  /** A move makes no deadlock, and holds nobody. */
  lemma {:induction false} MoveKeepsFree(q: Queues, e: Event, d: set<nat>, b: int)
    requires Inv(q) && Moves(q, e) && HeldBy(Step(q, e), d, b)
    ensures HeldBy(q, d, b)
  {
    hide Inv, Step, WaitsFor, Moves;
    forall k | k in d && k != b
      ensures Blocked(q, d, k)
    {
      assert Blocked(Step(q, e), d, k);
      var j: nat :| j in d && WaitsFor(Step(q, e), k, j);
      WaitedBefore(q, e, k, j);
    }
  }

  lemma {:induction false} WaitedBefore(q: Queues, e: Event, k: nat, j: nat)
    requires Inv(q) && Moves(q, e) && WaitsFor(Step(q, e), k, j)
    ensures WaitsFor(q, k, j)
  {
    hide Linked, GatesOpen, InOrder, Step, Moves;
    MoveShape(q, e);
    assert NestedCall(q, j);
  }

  lemma {:induction false} MoveShape(q: Queues, e: Event)
    requires Moves(q, e)
    ensures e.k < |q.calls| && Unfinished(q, e.k)
    ensures var phase := if e.Started? then Running else Finished(e.threw);
      Step(q, e).calls == q.calls[e.k := q.calls[e.k].(phase := phase)]
    ensures e.Started? ==> q.calls[e.k].phase.Waiting?
    ensures e.Ended? ==> q.calls[e.k].phase.Running?
  {
    hide IsSettled;
  }

  /** A call that is not held by `b` can go on while `b` does nothing: here is how. */
  lemma {:induction false} MovesUnlessStuck(q: Queues, k: nat, b: int) returns (es: seq<Event>)
    requires Inv(q) && Unfinished(q, k) && !StuckBut(q, k, b) && k != b && (0 <= b ==> Runs(q, b))
    ensures k < |Run(q, es).calls| && (0 <= b ==> Runs(Run(q, es), b))
    ensures Run(q, es).calls[k].phase == if q.calls[k].phase.Waiting? then Running else Finished(false)
    decreases Left(q.calls)
  {
    hide Inv, Step, MayStart, MayFinish, HeldBy;
    var e := MoveOf(q, k, b);
    MoveShape(q, e);
    StepKeeps(q, e);
    LeftShrinks(q.calls, e.k, if e.Started? then Running else Finished(e.threw));
    var r := Step(q, e);
    if e.k == k {
      es := [e];
      assert [e][1..] == [];
    } else {
      if StuckBut(r, k, b) {
        var d: set<nat> :| k in d && HeldBy(r, d, b);
        MoveKeepsFree(q, e, d, b);
      }
      var rest := MovesUnlessStuck(r, k, b);
      es := [e] + rest;
      assert es[1..] == rest;
    }
  }

  /** A move that is not the end of `b`; nobody throws. */
  lemma {:induction false} MoveOf(q: Queues, k: nat, b: int) returns (e: Event)
    requires Inv(q) && Unfinished(q, k) && !StuckBut(q, k, b) && (0 <= b ==> Runs(q, b))
    ensures Moves(q, e) && e.k != b && (e.Ended? ==> !e.threw)
  {
    hide Inv, StuckBut, IsSettled;
    if forall e :: Moves(q, e) ==> e.Ended? && e.k == b {
      NothingElseMoves(q, k, b);
    }
    var m :| Moves(q, m) && !(m.Ended? && m.k == b);
    e := if m.Started? then m else Ended(m.k, false);
  }

  /** So a waiting call that is in no deadlock can still start. */
  lemma {:induction false} StartsUnlessStuck(q: Queues, k: nat) returns (es: seq<Event>)
    requires Inv(q) && IsSection(q, k) && q.calls[k].phase.Waiting? && !Stuck(q, k)
    ensures k < |Run(q, es).calls| && Run(q, es).calls[k].phase.Running?
  {
    hide Inv, Run, Stuck, StuckBut;
    StuckByNobody(q, {}, k);
    es := MovesUnlessStuck(q, k, NOBODY);
  }

  /** A waiting call never starts, in any continuation, exactly if it is in a deadlock now. */
  lemma {:induction false} NeverStartsExactlyIfStuck(q: Queues, k: nat)
    requires Inv(q) && IsSection(q, k) && q.calls[k].phase.Waiting?
    ensures (forall es :: k < |Run(q, es).calls| && Run(q, es).calls[k].phase.Waiting?) <==> Stuck(q, k)
  {
    hide Inv, Run, Deadlock;
    if Stuck(q, k) {
      var d: set<nat> :| k in d && Deadlock(q, d);
      forall es
        ensures k < |Run(q, es).calls| && Run(q, es).calls[k].phase.Waiting?
      {
        DeadlockForEver(q, es, d, k);
      }
    } else {
      var es := StartsUnlessStuck(q, k);
      assert !Run(q, es).calls[k].phase.Waiting?;
    }
  }

  // ---------- when a new call is stuck ----------

  /** An unfinished section of `target`. */
  predicate Holds(q: Queues, j: int, target: string) {
    IsSection(q, j) && Unfinished(q, j) && q.calls[j].target == target
  }

  ghost predicate IsPath(q: Queues, path: seq<nat>, j: nat, c: nat) {
    && path != [] && path[0] == j && path[|path| - 1] == c
    && forall i :: 0 < i < |path| ==> WaitsFor(q, path[i - 1], path[i])
  }

  /** `j` waits for `c`, directly or through others, or is `c`. */
  ghost predicate Reaches(q: Queues, j: nat, c: nat) {
    exists path :: IsPath(q, path, j, c)
  }

  lemma {:induction false} ReachesBehind(q: Queues, k: nat, j: nat, c: nat)
    requires WaitsFor(q, k, j) && Reaches(q, j, c)
    ensures Reaches(q, k, c)
  {
    hide WaitsFor;
    var path :| IsPath(q, path, j, c);
    assert IsPath(q, [k] + path, k, c);
  }

  /** Whom a body makes wait by calling: itself, if it awaits the call. */
  predicate Joins(q: Queues, caller: Option<nat>, awaited: bool, c: nat) {
    awaited && caller == Some(c) && Runs(q, c)
  }

  lemma {:induction false} WaitsAfterCall(q: Queues, target: string, caller: Option<nat>, awaited: bool, i: nat, j: nat)
    requires Inv(q) && MayCall(q, caller) && Holding(q, caller) != Some(target)
    ensures var r, k := Enter(q, target, caller, awaited), |q.calls|;
      && (i < k && j < k ==> (WaitsFor(r, i, j) <==> WaitsFor(q, i, j)))
      && (WaitsFor(r, k, j) <==> Holds(q, j, target))
      && (i < k ==> (WaitsFor(r, i, k) <==> Joins(q, caller, awaited, i)))
  {
    hide Inv, Holding;
    var r, k := Enter(q, target, caller, awaited), |q.calls|;
    assert r.calls[k].previous.Some? && r.calls[k].phase.Waiting? && r.calls[k].target == target;
    if i < k {
      assert r.calls[i] == q.calls[i];
    }
    if j < k {
      assert r.calls[j] == q.calls[j];
    }
  }

  /** A queueing call is stuck from the start exactly if a section ahead of it is stuck already, or waits for
      the very body that makes the call and awaits it. */
  lemma {:induction false} StuckFromTheStart(q: Queues, target: string, caller: Option<nat>, awaited: bool)
    requires Inv(q) && MayCall(q, caller) && Holding(q, caller) != Some(target)
    ensures Stuck(Enter(q, target, caller, awaited), |q.calls|) <==>
      exists j: nat :: Holds(q, j, target) && (Stuck(q, j) || !Apart(q, caller, awaited, j))
  {
    hide Inv, Enter, Holding, WaitsFor, Holds, Joins, Deadlock, Reaches, MayCall;
    var r, k := Enter(q, target, caller, awaited), |q.calls|;
    if Stuck(r, k) {
      var d: set<nat> :| k in d && Deadlock(r, d);
      var j := StuckBehind(q, target, caller, awaited, d);
    }
    if j: nat :| Holds(q, j, target) && (Stuck(q, j) || !Apart(q, caller, awaited, j)) {
      if Stuck(q, j) {
        var d: set<nat> :| j in d && Deadlock(q, d);
        StuckToo(q, target, caller, awaited, d, j);
      } else {
        var c: nat :| Joins(q, caller, awaited, c) && Reaches(q, j, c);
        ClosesTheRing(q, target, caller, awaited, j, c);
      }
    }
  }

  /** `i` does not wait for the body that makes the call. */
  ghost predicate Apart(q: Queues, caller: Option<nat>, awaited: bool, i: nat) {
    forall c: nat :: Joins(q, caller, awaited, c) ==> !Reaches(q, i, c)
  }

  lemma {:induction false} StuckBehind(q: Queues, target: string, caller: Option<nat>, awaited: bool, d: set<nat>)
    returns (j: nat)
    requires Inv(q) && MayCall(q, caller) && Holding(q, caller) != Some(target)
    requires Deadlock(Enter(q, target, caller, awaited), d) && |q.calls| in d
    ensures Holds(q, j, target) && (Stuck(q, j) || !Apart(q, caller, awaited, j))
  {
    hide Inv, Enter, Holding, WaitsFor, Holds, MayCall, Apart, Blocked;
    var r, k := Enter(q, target, caller, awaited), |q.calls|;
    assert Blocked(r, d, k);
    j := Blocker(r, d, k);
    WaitsAfterCall(q, target, caller, awaited, k, j);
    HoldsOld(q, j, target);
    if Apart(q, caller, awaited, j) {
      RestIsDeadlocked(q, target, caller, awaited, d, j);
    }
  }

  lemma {:induction false} Blocker(q: Queues, d: set<nat>, k: nat) returns (j: nat)
    requires Blocked(q, d, k)
    ensures j in d && WaitsFor(q, k, j)
  {
    j :| j in d && WaitsFor(q, k, j);
  }

  lemma {:induction false} RestIsDeadlocked(q: Queues, target: string, caller: Option<nat>, awaited: bool, d: set<nat>,
      j: nat)
    requires Inv(q) && MayCall(q, caller) && Holding(q, caller) != Some(target)
    requires Deadlock(Enter(q, target, caller, awaited), d)
    requires j in d && j != |q.calls| && Apart(q, caller, awaited, j)
    ensures Stuck(q, j)
  {
    hide Inv, Enter, Holding, WaitsFor, MayCall, Apart, Blocked;
    var rest := set i | i in d && i != |q.calls| && Apart(q, caller, awaited, i);
    forall i | i in rest
      ensures Blocked(q, rest, i)
    {
      assert Blocked(Enter(q, target, caller, awaited), d, i);
      var l := ApartBehind(q, target, caller, awaited, d, i);
      BlockedBy(q, rest, i, l);
    }
    assert j in rest && Deadlock(q, rest);
  }

  lemma {:induction false} ApartBehind(q: Queues, target: string, caller: Option<nat>, awaited: bool, d: set<nat>,
      i: nat)
    returns (l: nat)
    requires Inv(q) && MayCall(q, caller) && Holding(q, caller) != Some(target)
    requires Blocked(Enter(q, target, caller, awaited), d, i) && i != |q.calls| && Apart(q, caller, awaited, i)
    ensures l in d && l != |q.calls| && Apart(q, caller, awaited, l) && WaitsFor(q, i, l)
  {
    hide Inv, Enter, Holding, WaitsFor, Joins, Reaches, MayCall;
    l :| l in d && WaitsFor(Enter(q, target, caller, awaited), i, l);
    NotAfter(q, target, caller, awaited, i, l);
    WaitsAfterCall(q, target, caller, awaited, i, l);
    ReachesItself(q, i);
    assert l != |q.calls|;
    forall c: nat | Joins(q, caller, awaited, c)
      ensures !Reaches(q, l, c)
    {
      if Reaches(q, l, c) {
        ReachesBehind(q, i, l, c);
      }
    }
  }

  lemma {:induction false} HoldsOld(q: Queues, j: nat, target: string)
    requires Holds(q, j, target)
    ensures j < |q.calls|
  {
  }

  lemma {:induction false} NotAfter(q: Queues, target: string, caller: Option<nat>, awaited: bool, i: nat, l: nat)
    requires MayCall(q, caller) && WaitsFor(Enter(q, target, caller, awaited), i, l)
    ensures i <= |q.calls| && l <= |q.calls|
  {
    hide Holding;
  }

  lemma {:induction false} ReachesItself(q: Queues, c: nat)
    ensures Reaches(q, c, c)
  {
    assert IsPath(q, [c], c, c);
  }

  lemma {:induction false} StuckToo(q: Queues, target: string, caller: Option<nat>, awaited: bool, d: set<nat>, j: nat)
    requires Inv(q) && MayCall(q, caller) && Holding(q, caller) != Some(target)
    requires Deadlock(q, d) && j in d && Holds(q, j, target)
    ensures Stuck(Enter(q, target, caller, awaited), |q.calls|)
  {
    hide Inv, Enter, Holding, WaitsFor, Holds, MayCall, Blocked;
    var r, k := Enter(q, target, caller, awaited), |q.calls|;
    var all := d + {k};
    forall i | i in all
      ensures Blocked(r, all, i)
    {
      if i in d {
        assert Blocked(q, d, i);
        StillBlocked(q, target, caller, awaited, d, all, i);
      } else {
        NewlyBlocked(q, target, caller, awaited, all, j);
      }
    }
    assert Deadlock(r, all);
  }

  lemma {:induction false} StillBlocked(q: Queues, target: string, caller: Option<nat>, awaited: bool,
      d: set<nat>, all: set<nat>, i: nat)
    requires Inv(q) && MayCall(q, caller) && Holding(q, caller) != Some(target)
    requires Blocked(q, d, i) && d <= all
    ensures Blocked(Enter(q, target, caller, awaited), all, i)
  {
    hide Inv, Enter, Holding, WaitsFor, MayCall;
    var l: nat :| l in d && WaitsFor(q, i, l);
    Waiters(q, i, l);
    WaitsAfterCall(q, target, caller, awaited, i, l);
  }

  lemma {:induction false} NewlyBlocked(q: Queues, target: string, caller: Option<nat>, awaited: bool,
      all: set<nat>, j: nat)
    requires Inv(q) && MayCall(q, caller) && Holding(q, caller) != Some(target)
    requires j in all && Holds(q, j, target)
    ensures Blocked(Enter(q, target, caller, awaited), all, |q.calls|)
  {
    hide Inv, Enter, Holding, WaitsFor, Holds, MayCall;
    WaitsAfterCall(q, target, caller, awaited, |q.calls|, j);
  }

  function Members(path: seq<nat>): (s: set<nat>)
    ensures forall k :: k in s <==> k in path
  {
    set k | k in path
  }

  lemma {:induction false} ClosesTheRing(q: Queues, target: string, caller: Option<nat>, awaited: bool, j: nat, c: nat)
    requires Inv(q) && MayCall(q, caller) && Holding(q, caller) != Some(target)
    requires Holds(q, j, target) && Joins(q, caller, awaited, c) && Reaches(q, j, c)
    ensures Stuck(Enter(q, target, caller, awaited), |q.calls|)
  {
    hide Inv, Enter, Holding, WaitsFor, Holds, Joins, MayCall, Blocked;
    var r, k := Enter(q, target, caller, awaited), |q.calls|;
    var path :| IsPath(q, path, j, c);
    var all := Members(path) + {k};
    forall i | i in all
      ensures Blocked(r, all, i)
    {
      if i == k {
        assert path[0] in all;
        NewlyBlocked(q, target, caller, awaited, all, j);
      } else {
        var n :| 0 <= n < |path| && path[n] == i;
        if n + 1 < |path| {
          assert WaitsFor(q, path[n], path[n + 1]) && path[n + 1] in all;
          assert Blocked(q, all, i) by { BlockedBy(q, all, i, path[n + 1]); }
          StillBlocked(q, target, caller, awaited, all, all, i);
        } else {
          JoinsOld(q, caller, awaited, c);
          WaitsAfterCall(q, target, caller, awaited, i, k);
          BlockedBy(r, all, i, k);
        }
      }
    }
    assert Deadlock(r, all);
  }

  lemma {:induction false} BlockedBy(q: Queues, d: set<nat>, k: nat, j: nat)
    requires j in d && WaitsFor(q, k, j)
    ensures Blocked(q, d, k)
  {
  }

  lemma {:induction false} JoinsOld(q: Queues, caller: Option<nat>, awaited: bool, c: nat)
    requires Joins(q, caller, awaited, c)
    ensures c < |q.calls|
  {
  }

  lemma {:induction false} EnteredWaits(q: Queues, target: string, caller: Option<nat>, awaited: bool)
    requires MayCall(q, caller) && Holding(q, caller) != Some(target)
    ensures var r := Enter(q, target, caller, awaited);
      IsSection(r, |q.calls|) && r.calls[|q.calls|].phase.Waiting?
  {
  }

  /** So a queueing call starts in no continuation exactly if, at the moment it is made, a section ahead of it is
      stuck or waits for the body that makes and awaits the call. */
  lemma {:induction false} NewCallNeverStarts(q: Queues, target: string, caller: Option<nat>, awaited: bool)
    requires Inv(q) && MayCall(q, caller) && Holding(q, caller) != Some(target)
    ensures var r, k := Enter(q, target, caller, awaited), |q.calls|;
      (forall es :: k < |Run(r, es).calls| && Run(r, es).calls[k].phase.Waiting?)
      <==> exists j: nat :: Holds(q, j, target) && (Stuck(q, j) || !Apart(q, caller, awaited, j))
  {
    hide Linked, GatesOpen, InOrder, Nested, Run, Stuck, Holds, Apart;
    StuckFromTheStart(q, target, caller, awaited);
    StepKeeps(q, Called(target, caller, awaited));
    EnteredWaits(q, target, caller, awaited);
    NeverStartsExactlyIfStuck(Enter(q, target, caller, awaited), |q.calls|);
  }

  // ---------- the caller chain ----------

  /** `a` is `c` or stands above it in its chain of callers, each awaiting the next call. */
  predicate Up(q: Queues, a: nat, c: nat) {
    a == c
    || (c < |q.calls| && q.calls[c].awaited && q.calls[c].caller.Some? && q.calls[c].caller.value < c
        && Up(q, a, q.calls[c].caller.value))
  }

  lemma {:induction false} UpReaches(q: Queues, a: nat, c: nat)
    requires Nested(q) && Unfinished(q, c) && Up(q, a, c)
    ensures Reaches(q, a, c)
  {
    if a == c {
      ReachesItself(q, c);
    } else {
      var p := q.calls[c].caller.value;
      assert NestedCall(q, c);
      UpReaches(q, a, p);
      var path :| IsPath(q, path, a, p);
      assert WaitsFor(q, p, c);
      assert IsPath(q, path + [c], a, c);
    }
  }

  /** Nobody queues behind a section of the caller chain. */
  ghost predicate Uncrossed(q: Queues, c: nat) {
    forall a: nat, w: nat :: Up(q, a, c) && Before(q, a, w) ==> !q.calls[w].phase.Waiting?
  }

  lemma {:induction false} ReachesUp(q: Queues, path: seq<nat>, j: nat, c: nat)
    requires Nested(q) && Uncrossed(q, c) && IsPath(q, path, j, c)
    ensures Up(q, j, c)
    decreases |path|
  {
    var n := |path|;
    if n > 1 {
      var b := path[n - 2];
      assert WaitsFor(q, b, c);
      assert Up(q, c, c);
      assert NestedCall(q, c);
      assert Awaits(q, b, c);
      assert forall a: nat :: Up(q, a, b) ==> Up(q, a, c);
      assert IsPath(q, path[..n - 1], j, b);
      ReachesUp(q, path[..n - 1], j, b);
    }
  }

  /** A body that awaits a call for an id held above it in its caller chain, but not by itself, waits for
      ever: the call never starts, in any continuation, and no call of the chain ever ends. */
  lemma {:induction false} HeldAboveNeverStarts(q: Queues, target: string, c: nat, a: nat, es: seq<Event>)
    requires Inv(q) && Runs(q, c) && q.calls[c].target != target
    requires Up(q, a, c) && Holds(q, a, target)
    ensures var k := |q.calls|;
      var r := Run(Enter(q, target, Some(c), true), es);
      k < |r.calls| && r.calls[k].phase.Waiting?
  {
    hide Linked, GatesOpen, InOrder, Run, Stuck;
    UpReaches(q, a, c);
    assert Joins(q, Some(c), true, c);
    assert !Apart(q, Some(c), true, a);
    NewCallNeverStarts(q, target, Some(c), true);
  }

  /** When nobody else queues behind the caller chain and no section ahead is stuck already, that is the only
      way: the call never starts exactly if it is awaited and a section of the caller chain holds its id. */
  lemma {:induction false} NestedCallNeverStarts(q: Queues, target: string, c: nat, awaited: bool)
    requires Inv(q) && Runs(q, c) && q.calls[c].target != target
    requires Uncrossed(q, c) && forall j: nat :: Holds(q, j, target) ==> !Stuck(q, j)
    ensures var r, k := Enter(q, target, Some(c), awaited), |q.calls|;
      (forall es :: k < |Run(r, es).calls| && Run(r, es).calls[k].phase.Waiting?)
      <==> awaited && exists a: nat :: Up(q, a, c) && Holds(q, a, target)
  {
    hide Linked, GatesOpen, InOrder, Uncrossed, Run, Stuck, Holds, Up;
    NewCallNeverStarts(q, target, Some(c), awaited);
    if j: nat :| Holds(q, j, target) && !Apart(q, Some(c), awaited, j) {
      var path :| IsPath(q, path, j, c);
      ReachesUp(q, path, j, c);
    }
    if a: nat :| Up(q, a, c) && Holds(q, a, target) {
      UpReaches(q, a, c);
      assert awaited ==> Joins(q, Some(c), awaited, c);
      assert awaited ==> !Apart(q, Some(c), awaited, a);
    }
  }

  // ---------- bodies that outlive their section ----------

  /** Held by `b` is held for ever or waiting for `b`. */
  lemma {:induction false} StuckButMeans(q: Queues, s: nat, b: nat)
    ensures StuckBut(q, s, b) <==> Stuck(q, s) || Reaches(q, s, b)
  {
    hide WaitsFor;
    if d: set<nat> :| s in d && HeldBy(q, d, b) {
      if !Reaches(q, s, b) {
        RestIsFree(q, d, s, b);
      }
    }
    if d: set<nat> :| s in d && Deadlock(q, d) {
      assert HeldBy(q, d, b);
    }
    if path :| IsPath(q, path, s, b) {
      PathIsHeld(q, path, s, b);
    }
  }

  lemma {:induction false} RestIsFree(q: Queues, d: set<nat>, s: nat, b: nat)
    requires s in d && HeldBy(q, d, b) && !Reaches(q, s, b)
    ensures Stuck(q, s)
  {
    hide WaitsFor, Reaches, Blocked;
    var rest := set i | i in d && !Reaches(q, i, b);
    forall i | i in rest
      ensures Blocked(q, rest, i)
    {
      ReachesItself(q, b);
      assert Blocked(q, d, i);
      var j := Blocker(q, d, i);
      if Reaches(q, j, b) {
        ReachesBehind(q, i, j, b);
      }
      BlockedBy(q, rest, i, j);
    }
    assert Deadlock(q, rest);
  }

  lemma {:induction false} PathIsHeld(q: Queues, path: seq<nat>, s: nat, b: nat)
    requires IsPath(q, path, s, b)
    ensures StuckBut(q, s, b)
  {
    hide WaitsFor, Blocked;
    var d := Members(path);
    forall i | i in d && i != b
      ensures Blocked(q, d, i)
    {
      var n :| 0 <= n < |path| && path[n] == i;
      assert WaitsFor(q, path[n], path[n + 1]) && path[n + 1] in d;
      BlockedBy(q, d, i, path[n + 1]);
    }
    assert HeldBy(q, d, b) && path[0] in d;
  }

  /** After `es` the body of `b` runs beside section `k`, which is later than `s`, the one that `b` belongs to. */
  ghost predicate Overlaps(q: Queues, es: seq<Event>, s: nat, b: nat, k: nat) {
    Runs(Run(q, es), b) && Runs(Run(q, es), k) && Before(Run(q, es), s, k)
  }

  /** A nested body that runs can outlive its section and run beside a later one of its target exactly if the
      section neither waits for the body, directly or through others, nor is in a deadlock. */
  lemma {:induction false} OverlapsExactly(q: Queues, b: nat)
    requires Inv(q) && Runs(q, b) && !IsSection(q, b)
    ensures var s := Owner(q, b);
      (exists es, k: nat :: Overlaps(q, es, s, b, k)) <==> !Stuck(q, s) && !Reaches(q, s, b)
  {
    hide Linked, GatesOpen, InOrder, Stuck, StuckBut, Reaches, Overlaps, Run, Owner;
    var s := Owner(q, b);
    OwnerFacts(q, b);
    StuckButMeans(q, s, b);
    if es, k: nat :| Overlaps(q, es, s, b, k) {
      OverlapMeansFree(q, es, s, b, k);
    }
    if !StuckBut(q, s, b) {
      var es, k := LaterSection(q, s, b);
    }
  }

  lemma {:induction false} OverlapMeansFree(q: Queues, es: seq<Event>, s: nat, b: nat, k: nat)
    requires Inv(q) && Runs(q, b) && s < |q.calls| && s != b && Overlaps(q, es, s, b, k)
    ensures !StuckBut(q, s, b)
  {
    hide Run, HeldBy, Linked, GatesOpen, Nested;
    RunKeeps(q, es);
    if d: set<nat> :| s in d && HeldBy(q, d, b) {
      HeldForEver(q, es, d, b, s);
      HeldAreUnfinished(q, d, b, s);
    }
  }

  lemma {:induction false} HeldAreUnfinished(q: Queues, d: set<nat>, b: nat, s: nat)
    requires HeldBy(q, d, b) && s in d && s != b
    ensures Unfinished(q, s)
  {
    assert Blocked(q, d, s);
  }

  /** The section ends first, and then the next one starts: one that waits already, or a new one. */
  lemma {:induction false} LaterSection(q: Queues, s: nat, b: nat) returns (es: seq<Event>, k: nat)
    requires Inv(q) && Runs(q, b) && !IsSection(q, b) && IsSection(q, s) && q.calls[s].target == q.calls[b].target
    requires !q.calls[s].phase.Waiting? && !StuckBut(q, s, b)
    ensures Overlaps(q, es, s, b, k)
  {
    hide Inv, Run, StuckBut;
    var first: seq<Event> := [];
    NoRun(q);
    if !q.calls[s].phase.Finished? {
      first := MovesUnlessStuck(q, s, b);
      RunKeeps(q, first);
    }
    SameShape(q, first, s);
    SameShape(q, first, b);
    var r := Run(q, first);
    var next;
    next, k := NextStarts(r, s, b);
    es := first + next;
    RunMore(q, first, next);
  }

  lemma {:induction false} NoRun(q: Queues)
    ensures Run(q, []) == q
  {
  }

  lemma {:induction false} SameShape(q: Queues, es: seq<Event>, k: nat)
    requires k < |q.calls|
    ensures k < |Run(q, es).calls| && Run(q, es).calls[k].(phase := q.calls[k].phase) == q.calls[k]
    decreases es
  {
    hide Step;
    if es != [] {
      StepKeepsShape(q, es[0], k);
      SameShape(Step(q, es[0]), es[1..], k);
    }
  }

  /** The first unfinished section of `target`, if there is one from `n` on. */
  lemma {:induction false} FirstUnfinished(q: Queues, target: string, n: nat) returns (k: nat)
    requires n <= |q.calls|
    ensures n <= k <= |q.calls| && (k < |q.calls| ==> Holds(q, k, target))
    ensures forall j: nat :: n <= j < k ==> !Holds(q, j, target)
    decreases |q.calls| - n
  {
    if n == |q.calls| || Holds(q, n, target) {
      k := n;
    } else {
      k := FirstUnfinished(q, target, n + 1);
    }
  }

  lemma {:induction false} NextStarts(q: Queues, s: nat, b: nat) returns (es: seq<Event>, k: nat)
    requires Inv(q) && Runs(q, b) && !IsSection(q, b)
    requires IsSection(q, s) && q.calls[s].phase.Finished? && q.calls[s].target == q.calls[b].target
    ensures Overlaps(q, es, s, b, k)
  {
    hide Inv, MayStart, Step, IsSettled;
    var target := q.calls[s].target;
    k := FirstUnfinished(q, target, 0);
    if k < |q.calls| {
      NextWaits(q, s, k);
      es := if Runs(q, k) then [] else [Started(k)];
      RunOne(q, Started(k));
      StepKeepsShape(q, Started(k), k);
      StepKeepsShape(q, Started(k), s);
      StepKeepsShape(q, Started(k), b);
    } else {
      var r := Step(q, Called(target, None, false));
      es := [Called(target, None, false), Started(k)];
      NewSectionStarts(q, target);
      assert [Called(target, None, false), Started(k)][1..] == [Started(k)];
      RunOne(r, Started(k));
      assert r.calls[..k][s] == q.calls[s] && r.calls[..k][b] == q.calls[b];
      StepKeepsShape(r, Started(k), k);
      StepKeepsShape(r, Started(k), s);
      StepKeepsShape(r, Started(k), b);
    }
  }

  lemma {:induction false} NextWaits(q: Queues, s: nat, k: nat)
    requires Inv(q) && IsSection(q, s) && q.calls[s].phase.Finished? && Holds(q, k, q.calls[s].target)
    requires forall j: nat :: j < k ==> !Holds(q, j, q.calls[s].target)
    ensures Before(q, s, k) && (Runs(q, k) || MayStart(q, k))
  {
    hide Linked, GatesOpen, Nested, MayStart;
    assert !Before(q, k, s);
    if q.calls[k].phase.Waiting? {
      MayStartWhenFirst(q, k);
      assert forall j :: Before(q, j, k) ==> !Holds(q, j, q.calls[s].target);
    }
  }

  lemma {:induction false} NewSectionStarts(q: Queues, target: string)
    requires Inv(q) && forall j: nat :: !Holds(q, j, target)
    ensures var r, k := Step(q, Called(target, None, false)), |q.calls|;
      MayStart(r, k) && IsSection(r, k) && r.calls[k].target == target
      && |r.calls| == k + 1 && r.calls[..k] == q.calls
  {
    hide Linked, GatesOpen, InOrder, Nested, MayStart;
    var r, k := Step(q, Called(target, None, false)), |q.calls|;
    StepKeeps(q, Called(target, None, false));
    assert r.calls[..k] == q.calls;
    forall j | Before(r, j, k)
      ensures r.calls[j].phase.Finished?
    {
      assert r.calls[j] == q.calls[j] && !Holds(q, j, target);
    }
    MayStartWhenFirst(r, k);
  }

  // ---------- two runs ----------

  /** The bodies that hold `a` and `b`; the second called by the first or by nobody. */
  function TwoHolders(a: string, b: string, nested: bool): seq<Event> {
    [Called(a, None, false), Started(0), Called(b, if nested then Some(0) else None, nested), Started(1)]
  }

  /** A holds `a`, calls for `b`, and there calls for `a` again: that call never starts, although a body that
      asked for its own id would run at once. */
  lemma {:induction false} HoldingBothWays(a: string, b: string, es: seq<Event>)
    requires a != b
    ensures var r := Run(EMPTY, TwoHolders(a, b, true) + [Called(a, Some(1), true)] + es);
      && |r.calls| >= 3 && r.calls[2].target == a && r.calls[2].phase.Waiting?
      && r.calls[0].phase.Running? && r.calls[1].phase.Running?
  {
    hide Inv, Step, Run, TwoHolders;
    var e := Called(a, Some(1), true);
    var q := TwoHeld(a, b, true);
    RunMore(EMPTY, TwoHolders(a, b, true), [e]);
    RunMore(EMPTY, TwoHolders(a, b, true) + [e], es);
    RunOne(q, e);
    StepKeeps(q, e);
    var r := Step(q, e);
    ThirdCall(q, a, Some(1), r);
    RingOfThree(r);
    DeadlockForEver(r, es, {0, 1, 2}, 0);
    DeadlockForEver(r, es, {0, 1, 2}, 1);
    DeadlockForEver(r, es, {0, 1, 2}, 2);
  }

  lemma {:induction false} ThirdCall(q: Queues, target: string, caller: Option<nat>, r: Queues)
    requires r == Step(q, Called(target, caller, true)) && caller.Some? && caller.value < |q.calls|
    requires Runs(q, caller.value) && q.calls[caller.value].target != target
    ensures r.calls == q.calls + [Call(target, caller, true, Some(Tail(q, target)), Waiting)]
  {
  }

  lemma {:induction false} RingOfThree(r: Queues)
    requires |r.calls| == 3 && Before(r, 0, 2) && r.calls[2].phase.Waiting? && Runs(r, 0) && Runs(r, 1)
    requires Awaits(r, 0, 1) && Awaits(r, 1, 2)
    ensures Deadlock(r, {0, 1, 2})
  {
    BlockedBy(r, {0, 1, 2}, 0, 1);
    BlockedBy(r, {0, 1, 2}, 1, 2);
    BlockedBy(r, {0, 1, 2}, 2, 0);
  }

  lemma {:induction false} RunOne(q: Queues, e: Event)
    ensures Run(q, [e]) == Step(q, e)
  {
    assert [e][1..] == [];
  }

  lemma {:induction false} TwoHeld(a: string, b: string, nested: bool) returns (q: Queues)
    requires a != b
    ensures q == Run(EMPTY, TwoHolders(a, b, nested)) && Inv(q)
    ensures q.calls == [Call(a, None, false, Some(Resolved), Running),
                        Call(b, if nested then Some(0) else None, nested, Some(Resolved), Running)]
  {
    hide Inv;
    var es := TwoHolders(a, b, nested);
    EmptyKeeps();
    RunKeeps(EMPTY, es);
    FirstHolder(a);
    var q2 := Step(Step(EMPTY, es[0]), es[1]);
    q := Step(Step(q2, es[2]), es[3]);
    SecondHolder(q2, a, b, nested);
    RunFour(EMPTY, es);
  }

  lemma {:induction false} RunFour(q: Queues, es: seq<Event>)
    requires |es| == 4
    ensures Run(q, es) == Step(Step(Step(Step(q, es[0]), es[1]), es[2]), es[3])
  {
    hide Step;
    var q2 := Step(Step(q, es[0]), es[1]);
    assert es[1..][1..] == es[2..];
    assert Run(q, es) == Run(q2, es[2..]);
    assert es[2..][1..] == [es[3]];
    RunOne(Step(q2, es[2]), es[3]);
  }

  lemma {:induction false} FirstHolder(a: string)
    ensures Step(Step(EMPTY, Called(a, None, false)), Started(0))
      == Queues(map[a := Chained(Resolved, 0)], {}, [Call(a, None, false, Some(Resolved), Running)])
  {
    var q := Step(EMPTY, Called(a, None, false));
    assert q.calls == [Call(a, None, false, Some(Resolved), Waiting)];
    assert MayStart(q, 0);
  }

  lemma {:induction false} SecondHolder(q: Queues, a: string, b: string, nested: bool)
    requires a != b
    requires q == Queues(map[a := Chained(Resolved, 0)], {}, [Call(a, None, false, Some(Resolved), Running)])
    ensures var caller: Option<nat> := if nested then Some(0) else None;
      Step(Step(q, Called(b, caller, nested)), Started(1)).calls
      == [Call(a, None, false, Some(Resolved), Running), Call(b, caller, nested, Some(Resolved), Running)]
  {
    var caller: Option<nat> := if nested then Some(0) else None;
    var r := Step(q, Called(b, caller, nested));
    assert r.calls == q.calls + [Call(b, caller, nested, Some(Resolved), Waiting)];
    assert MayStart(r, 1);
  }

  /** A nested call that its body does not await can outlive the section, and then runs beside the next one. */
  lemma {:induction false} UnawaitedBodyOverlaps(a: string)
    ensures var q := Run(EMPTY, [Called(a, None, false), Started(0), Called(a, Some(0), false), Ended(0, false)]
                                + [Called(a, None, false), Started(2)]);
      && |q.calls| == 3 && q.calls[1].target == a && q.calls[2].target == a && Runs(q, 1) && Runs(q, 2)
      && Owner(q, 1) == 0 && Owner(q, 2) == 2
  {
    var es := [Called(a, None, false), Started(0), Called(a, Some(0), false), Ended(0, false)];
    FirstHolder(a);
    RunFour(EMPTY, es);
    var q := Run(EMPTY, es);
    Outlives(a);
    RunMore(EMPTY, es, [Called(a, None, false), Started(2)]);
    var r := Step(q, Called(a, None, false));
    assert r.calls == q.calls + [Call(a, None, false, Some(Chained(Resolved, 0)), Waiting)];
    assert MayStart(r, 2);
    assert [Called(a, None, false), Started(2)][1..] == [Started(2)];
    RunOne(r, Started(2));
  }

  lemma {:induction false} Outlives(a: string)
    ensures var q := Queues(map[a := Chained(Resolved, 0)], {}, [Call(a, None, false, Some(Resolved), Running)]);
      Step(Step(q, Called(a, Some(0), false)), Ended(0, false))
      == Queues(map[a := Chained(Resolved, 0)], {0},
                [Call(a, None, false, Some(Resolved), Finished(false)), Call(a, Some(0), false, None, Running)])
  {
    var q := Queues(map[a := Chained(Resolved, 0)], {}, [Call(a, None, false, Some(Resolved), Running)]);
    var r := Step(q, Called(a, Some(0), false));
    assert r.calls == q.calls + [Call(a, Some(0), false, None, Running)];
    assert MayFinish(r, 0);
    assert r.released + {0} == {0};
  }

  /** Two chains that want each other's id: neither caller chain holds the id it asks for, and the first call
      could still start, but once the second is made neither ever does. */
  lemma {:induction false} CrossWait(a: string, b: string, es: seq<Event>)
    requires a != b
    ensures var first := TwoHolders(a, b, false) + [Called(b, Some(0), true)];
      var r := Run(EMPTY, first + [Called(a, Some(1), true)] + es);
      && !Stuck(Run(EMPTY, first), 2)
      && |r.calls| >= 4 && r.calls[2].phase.Waiting? && r.calls[3].phase.Waiting?
      && r.calls[2].target == b && r.calls[3].target == a
  {
    hide Inv, Step, Run, TwoHolders, Stuck;
    var e, f := Called(b, Some(0), true), Called(a, Some(1), true);
    var q := TwoHeld(a, b, false);
    RunMore(EMPTY, TwoHolders(a, b, false), [e]);
    RunMore(EMPTY, TwoHolders(a, b, false) + [e], [f]);
    RunMore(EMPTY, TwoHolders(a, b, false) + [e] + [f], es);
    RunOne(q, e);
    var m := Step(q, e);
    RunOne(m, f);
    var r := Step(m, f);
    StepKeeps(q, e);
    StepKeeps(m, f);
    ThirdCall(q, b, Some(0), m);
    ThirdCall(m, a, Some(1), r);
    FirstCallIsFree(m, b);
    RingOfFour(r);
    DeadlockForEver(r, es, {0, 1, 2, 3}, 2);
    DeadlockForEver(r, es, {0, 1, 2, 3}, 3);
  }

  lemma {:induction false} RingOfFour(r: Queues)
    requires |r.calls| == 4 && Before(r, 1, 2) && Before(r, 0, 3) && Runs(r, 0) && Runs(r, 1)
    requires r.calls[2].phase.Waiting? && r.calls[3].phase.Waiting? && Awaits(r, 0, 2) && Awaits(r, 1, 3)
    ensures Deadlock(r, {0, 1, 2, 3})
  {
    BlockedBy(r, {0, 1, 2, 3}, 0, 2);
    BlockedBy(r, {0, 1, 2, 3}, 2, 1);
    BlockedBy(r, {0, 1, 2, 3}, 1, 3);
    BlockedBy(r, {0, 1, 2, 3}, 3, 0);
  }

  /** The section of `b` that the first call waits for can still end. */
  lemma {:induction false} FirstCallIsFree(m: Queues, b: string)
    requires |m.calls| == 3 && m.calls[2].phase.Waiting? && MayFinish(m, 1)
    requires m.calls[0].target != b && m.calls[1].target == b && m.calls[2].target == b
    ensures !Stuck(m, 2)
  {
    hide MayFinish, Deadlock;
    forall d: set<nat> | Deadlock(m, d)
      ensures 2 !in d
    {
      EnderIsFree(m, 1, d);
      OnlyOneAhead(m, b, d);
    }
  }

  lemma {:induction false} EnderIsFree(q: Queues, k: nat, d: set<nat>)
    requires MayFinish(q, k) && Deadlock(q, d)
    ensures k !in d
  {
    assert k in d ==> Blocked(q, d, k);
  }

  lemma {:induction false} OnlyOneAhead(m: Queues, b: string, d: set<nat>)
    requires |m.calls| == 3 && m.calls[2].phase.Waiting? && Deadlock(m, d)
    requires m.calls[0].target != b && m.calls[2].target == b
    ensures 2 in d ==> 1 in d
  {
    assert 2 in d ==> Blocked(m, d, 2);
  }

  // ---------- the module's state ----------

  class TargetQueues {
    var queues: map<string, Promise>
    var released: set<nat>
    var calls: seq<Call>

    function Value(): Queues
      reads this
    {
      Queues(queues, released, calls)
    }

    ghost predicate Valid()
      reads this
    {
      Inv(Value())
    }

    constructor ()
      ensures Valid() && Value() == EMPTY
    {
      queues, released, calls := map[], {}, [];
      new;
      EmptyKeeps();
    }

    /** Up to the `await`: `None` means the body runs at once, `Some(k)` that it waits as section `k`. */
    method Enqueue(target: string, caller: Option<nat>, awaited: bool) returns (section: Option<nat>)
      requires Valid() && MayCall(Value(), caller)
      modifies this
      ensures Valid() && Value() == Enter(old(Value()), target, caller, awaited)
      ensures section == if Holding(old(Value()), caller) == Some(target) then None else Some(|old(calls)|)
    {
      StepKeeps(Value(), Called(target, caller, awaited));
      hide Inv, Holding;
      var waits := awaited && caller.Some? && calls[caller.value].phase.Running?;
      var gate := |calls|;
      if Holding(Value(), caller) == Some(target) {
        calls := calls + [Call(target, caller, waits, None, Running)];
        return None;
      }
      var previous := if target in queues then queues[target] else Resolved;
      calls := calls + [Call(target, caller, waits, Some(previous), Waiting)];
      queues := queues[target := Chained(previous, gate)];
      section := Some(gate);
    }

    method Begin(k: nat)
      requires Valid() && MayStart(Value(), k)
      modifies this`calls
      ensures Valid() && Value() == Start(old(Value()), k) && calls[k].phase.Running?
    {
      StepKeeps(Value(), Started(k));
      calls := calls[k := calls[k].(phase := Running)];
    }

    /** A queueing call releases its gate, a nested one just returns. */
    method Release(k: nat, threw: bool)
      requires Valid() && MayFinish(Value(), k)
      modifies this`calls, this`released
      ensures Valid() && Value() == Finish(old(Value()), k, threw)
      ensures k in released <==> old(calls)[k].previous.Some?
    {
      StepKeeps(Value(), Ended(k, threw));
      ghost var gates := released;
      assert k !in gates;
      var section := calls[k].previous.Some?;
      calls := calls[k := calls[k].(phase := Finished(threw))];
      if section {
        released := released + {k};
      }
    }
  }
}
