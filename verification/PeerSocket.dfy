/** One tunnel binding - the `PeerSocket` record of src/hub/tunnelManager.ts - with its promise chain
    of proxied requests, its `pending` map and what became of every request. */
module PeerSocket {
  import opened Options

  /** How a proxied request's promise was settled: `Replied` resolves it, everything else rejects it. */
  datatype Outcome = Replied(body: string) | TimedOut | SendFailed | Replaced | Disconnected | HubClosing

  /** One call of `proxyRequest`; `at` is the moment of the call. */
  datatype Call = Call(id: nat, at: nat, timeout: nat)

  /** An entry of `pending`: the request is on the wire and its timer is armed. */
  datatype Pending = Pending(id: nat, deadline: nat)

  datatype Settlement = Settlement(id: nat, outcome: Outcome, at: nat)

  /** `calls` are all requests ever chained, `started` says how many of them have run, `wire` lists the
      ids handed to the socket and `log` every resolve or reject, both in the order they happened. */
  datatype Pipe = Pipe(ws: nat, target: string, calls: seq<Call>, started: nat,
                       pending: seq<Pending>, wire: seq<nat>, log: seq<Settlement>)

  function Fresh(ws: nat, target: string): Pipe {
    Pipe(ws, target, [], 0, [], [], [])
  }

  // ---------- the operations ----------

  function Chain(p: Pipe, call: Call): Pipe {
    p.(calls := p.calls + [call])
  }

  predicate IsSettled(p: Pipe, id: nat) {
    exists i :: 0 <= i < |p.log| && p.log[i].id == id
  }

  /** The promise chain may run its next request: the one before it has settled, either way. */
  predicate Ready(p: Pipe) {
    p.started < |p.calls| && (p.started == 0 || (p.started <= |p.calls| && IsSettled(p, p.calls[p.started - 1].id)))
  }

  function Without(pending: seq<Pending>, id: nat): seq<Pending> {
    if pending == [] then []
    else (if pending[0].id == id then [] else [pending[0]]) + Without(pending[1..], id)
  }

  function RunNext(p: Pipe, sendOk: bool, now: nat): Pipe
    requires p.started < |p.calls|
  {
    var call := p.calls[p.started];
    var pending := p.pending + [Pending(call.id, now + call.timeout)];
    if sendOk then
      p.(started := p.started + 1, pending := pending, wire := p.wire + [call.id])
    else
      p.(started := p.started + 1, pending := Without(pending, call.id),
         log := p.log + [Settlement(call.id, SendFailed, now)])
  }

  predicate IsPending(p: Pipe, id: nat) {
    exists i :: 0 <= i < |p.pending| && p.pending[i].id == id
  }

  predicate Due(p: Pipe, id: nat, now: nat) {
    exists i :: 0 <= i < |p.pending| && p.pending[i].id == id && p.pending[i].deadline <= now
  }

  /** Takes the request out of `pending`, stops its timer and settles its promise. */
  function Settle(p: Pipe, id: nat, outcome: Outcome, now: nat): Pipe {
    p.(pending := Without(p.pending, id), log := p.log + [Settlement(id, outcome, now)])
  }

  function SettleEach(pending: seq<Pending>, outcome: Outcome, now: nat): seq<Settlement> {
    seq(|pending|, i requires 0 <= i < |pending| => Settlement(pending[i].id, outcome, now))
  }

  /** `rejectAllPending`: requests still waiting in the chain are not touched. */
  function RejectAll(p: Pipe, outcome: Outcome, now: nat): Pipe {
    p.(pending := [], log := p.log + SettleEach(p.pending, outcome, now))
  }

  // ---------- order and exactly-once settlement ----------

  /** The ids of the first `n` calls, leaving out those whose send threw. */
  function Sent(calls: seq<Call>, log: seq<Settlement>, n: nat): seq<nat>
    requires n <= |calls|
  {
    if n == 0 then []
    else Sent(calls, log, n - 1) +
         if n <= |log| && log[n - 1].outcome.SendFailed? then [] else [calls[n - 1].id]
  }

  /** Requests settle one by one in call order, each is on the wire alone, and the wire saw them in
      call order. */
  predicate Orderly(p: Pipe) {
    && (forall i, j :: 0 <= i < j < |p.calls| ==> p.calls[i].id != p.calls[j].id)
    && |p.log| <= p.started <= |p.calls|
    && (forall i :: 0 <= i < |p.log| ==> p.log[i].id == p.calls[i].id)
    && (if p.started == |p.log| then p.pending == []
        else p.started == |p.log| + 1 && |p.pending| == 1 && p.pending[0].id == p.calls[|p.log|].id)
    && p.wire == Sent(p.calls, p.log, p.started)
  }

  lemma {:induction false} SentPrefix(calls: seq<Call>, more: seq<Call>, log: seq<Settlement>,
      after: seq<Settlement>, n: nat)
    requires n <= |calls| && n <= |log| + 1
    requires n == |log| + 1 && |after| > 0 ==> !after[0].outcome.SendFailed?
    ensures Sent(calls + more, log + after, n) == Sent(calls, log, n)
  {
    if n > 0 {
      SentPrefix(calls, more, log, after, n - 1);
      assert n <= |log| ==> (log + after)[n - 1] == log[n - 1];
    }
  }

  /** In an orderly pipe the chain moves exactly when nothing is in flight. */
  lemma {:induction false} ReadyWhenIdle(p: Pipe)
    requires Orderly(p)
    ensures Ready(p) <==> p.started == |p.log| && p.started < |p.calls|
    ensures forall id :: IsPending(p, id) <==> p.started > |p.log| && id == p.calls[|p.log|].id
  {
    if p.started > 0 && p.started == |p.log| {
      assert p.log[p.started - 1].id == p.calls[p.started - 1].id;
    }
  }

  lemma {:induction false} ChainKeepsOrder(p: Pipe, call: Call)
    requires Orderly(p)
    requires forall i :: 0 <= i < |p.calls| ==> p.calls[i].id != call.id
    ensures Orderly(Chain(p, call))
  {
    SentPrefix(p.calls, [call], p.log, [], p.started);
    assert p.log + [] == p.log;
  }

  lemma {:induction false} FreshIsOrderly(ws: nat, target: string)
    ensures Orderly(Fresh(ws, target))
  {
    assert Fresh(ws, target).pending == [];
  }

  lemma {:induction false} AloneWithout(entry: Pending, pending: seq<Pending>)
    requires pending == []
    ensures Without(pending + [entry], entry.id) == []
  {
    assert pending + [entry] == [entry];
    assert [entry][1..] == [];
  }

  lemma {:induction false} RunKeepsOrder(p: Pipe, sendOk: bool, now: nat)
    requires Orderly(p) && Ready(p)
    ensures Orderly(RunNext(p, sendOk, now))
  {
    ReadyWhenIdle(p);
    if !sendOk {
      AloneWithout(Pending(p.calls[p.started].id, now + p.calls[p.started].timeout), p.pending);
      SentPrefix(p.calls, [], p.log, [Settlement(p.calls[p.started].id, SendFailed, now)], p.started);
      assert p.calls + [] == p.calls;
    }
  }

  lemma {:induction false} SettleIsRejectAll(p: Pipe, id: nat, outcome: Outcome, now: nat)
    requires Orderly(p) && IsPending(p, id)
    ensures Settle(p, id, outcome, now) == RejectAll(p, outcome, now)
  {
    ReadyWhenIdle(p);
    assert p.pending[1..] == [] && Without([], id) == [];
    assert Without(p.pending, id) == [];
    assert SettleEach(p.pending, outcome, now) == [Settlement(id, outcome, now)];
  }

  lemma {:induction false} RejectKeepsOrder(p: Pipe, outcome: Outcome, now: nat)
    requires Orderly(p) && !outcome.SendFailed?
    ensures Orderly(RejectAll(p, outcome, now))
    ensures |p.log| <= |RejectAll(p, outcome, now).log| == p.started
  {
    SentPrefix(p.calls, [], p.log, SettleEach(p.pending, outcome, now), p.started);
    assert p.calls + [] == p.calls;
  }

  /** What an orderly pipe means to its callers: at most one request is in flight, no promise is
      settled twice, exactly the finished calls are settled, and the wire order is the call order. */
  lemma {:induction false} OrderlyMeans(p: Pipe)
    requires Orderly(p)
    ensures |p.pending| <= 1
    ensures forall i, j :: 0 <= i < j < |p.log| ==> p.log[i].id != p.log[j].id
    ensures forall i :: 0 <= i < |p.calls| ==> (IsSettled(p, p.calls[i].id) <==> i < |p.log|)
    ensures forall i :: 0 <= i < |p.calls| ==> !(IsSettled(p, p.calls[i].id) && IsPending(p, p.calls[i].id))
    ensures forall i, j :: 0 <= i < j < |p.wire| ==> Place(p.calls, p.wire[i]) < Place(p.calls, p.wire[j]) < |p.calls|
  {
    ReadyWhenIdle(p);
    forall i | 0 <= i < |p.calls|
      ensures IsSettled(p, p.calls[i].id) <==> i < |p.log|
    {
      if i < |p.log| {
        assert p.log[i].id == p.calls[i].id;
      }
    }
    SentInOrder(p.calls, p.log, p.started);
  }

  /** A call is waiting in the chain, on the wire, or settled - and only one of these. */
  lemma {:induction false} FateOf(p: Pipe, i: nat)
    requires Orderly(p) && i < |p.calls|
    ensures HasCall(p.calls[p.started..], p.calls[i].id) <==> p.started <= i
    ensures IsPending(p, p.calls[i].id) <==> |p.log| == i < p.started
    ensures IsSettled(p, p.calls[i].id) <==> i < |p.log|
  {
    ReadyWhenIdle(p);
    OrderlyMeans(p);
    if p.started <= i {
      assert p.calls[p.started..][i - p.started] == p.calls[i];
    } else {
      assert forall j :: 0 <= j < |p.calls| - p.started ==> p.calls[p.started..][j] == p.calls[p.started + j];
    }
  }

  predicate HasCall(calls: seq<Call>, id: nat) {
    exists i :: 0 <= i < |calls| && calls[i].id == id
  }

  /** The position of a call, by its id. */
  function Place(calls: seq<Call>, id: nat): nat {
    if calls == [] || calls[0].id == id then 0 else 1 + Place(calls[1..], id)
  }

  lemma {:induction false} PlaceOf(calls: seq<Call>, k: nat)
    requires k < |calls|
    requires forall i, j :: 0 <= i < j < |calls| ==> calls[i].id != calls[j].id
    ensures Place(calls, calls[k].id) == k
  {
    if k > 0 {
      PlaceOf(calls[1..], k - 1);
    }
  }

  lemma {:induction false} SentInOrder(calls: seq<Call>, log: seq<Settlement>, n: nat)
    requires n <= |calls|
    requires forall i, j :: 0 <= i < j < |calls| ==> calls[i].id != calls[j].id
    ensures forall i :: 0 <= i < |Sent(calls, log, n)| ==> Place(calls, Sent(calls, log, n)[i]) < n
    ensures forall i, j :: 0 <= i < j < |Sent(calls, log, n)| ==>
              Place(calls, Sent(calls, log, n)[i]) < Place(calls, Sent(calls, log, n)[j])
  {
    if n > 0 {
      var before := Sent(calls, log, n - 1);
      SentInOrder(calls, log, n - 1);
      PlaceOf(calls, n - 1);
      if n <= |log| && log[n - 1].outcome.SendFailed? {
        assert Sent(calls, log, n) == before;
      } else {
        assert Sent(calls, log, n) == before + [calls[n - 1].id];
      }
    }
  }

  // ---------- how long a request can wait ----------

  function Max(a: nat, b: nat): nat {
    if a < b then b else a
  }

  /** When the k-th request starts at the latest. */
  function StartBy(calls: seq<Call>, k: nat): nat
    requires k < |calls|
    decreases k, 0
  {
    if k == 0 then calls[0].at else Max(calls[k].at, SettleBy(calls, k - 1))
  }

  /** When it is settled at the latest: its own timeout after that. */
  function SettleBy(calls: seq<Call>, k: nat): nat
    requires k < |calls|
    decreases k, 1
  {
    StartBy(calls, k) + calls[k].timeout
  }

  /** The state of a pipe whose timers have all fired on time up to `now`. */
  predicate OnTime(p: Pipe, now: nat)
    requires Orderly(p)
  {
    && (forall i :: 0 <= i < |p.log| ==> p.log[i].at <= SettleBy(p.calls, i))
    && (if |p.log| < p.started then now <= p.pending[0].deadline <= SettleBy(p.calls, |p.log|)
        else if p.started < |p.calls| then now <= StartBy(p.calls, p.started)
        else true)
  }

  lemma {:induction false} SettleByPrefix(calls: seq<Call>, call: Call, k: nat)
    requires k < |calls|
    ensures SettleBy(calls + [call], k) == SettleBy(calls, k)
    ensures StartBy(calls + [call], k) == StartBy(calls, k)
  {
    if k > 0 {
      SettleByPrefix(calls, call, k - 1);
    }
  }

  lemma {:induction false} ChainOnTime(p: Pipe, call: Call)
    requires Orderly(p) && OnTime(p, call.at)
    requires forall i :: 0 <= i < |p.calls| ==> p.calls[i].id != call.id
    ensures Orderly(Chain(p, call)) && OnTime(Chain(p, call), call.at)
  {
    ChainKeepsOrder(p, call);
    forall i | 0 <= i < |p.calls|
      ensures SettleBy(p.calls + [call], i) == SettleBy(p.calls, i)
          && StartBy(p.calls + [call], i) == StartBy(p.calls, i)
    {
      SettleByPrefix(p.calls, call, i);
    }
  }

  lemma {:induction false} RunOnTime(p: Pipe, sendOk: bool, now: nat)
    requires Orderly(p) && Ready(p) && OnTime(p, now)
    ensures Orderly(RunNext(p, sendOk, now)) && OnTime(RunNext(p, sendOk, now), now)
  {
    ReadyWhenIdle(p);
    RunKeepsOrder(p, sendOk, now);
  }

  lemma {:induction false} RejectOnTime(p: Pipe, outcome: Outcome, now: nat)
    requires Orderly(p) && OnTime(p, now) && !outcome.SendFailed?
    ensures Orderly(RejectAll(p, outcome, now)) && OnTime(RejectAll(p, outcome, now), now)
  {
    RejectKeepsOrder(p, outcome, now);
  }

  function Timeouts(calls: seq<Call>, i: nat, k: nat): nat
    requires i <= k < |calls|
  {
    calls[k].timeout + if i == k then 0 else Timeouts(calls, i, k - 1)
  }

  /** Counted from its own call, a request waits no longer than the sum of the timeouts from the first
      request that could still be unsettled at that moment up to its own. */
  lemma {:induction false} WaitIsBounded(calls: seq<Call>, i: nat, k: nat)
    requires i <= k < |calls|
    requires forall m, n :: 0 <= m <= n < |calls| ==> calls[m].at <= calls[n].at
    requires i > 0 ==> SettleBy(calls, i - 1) <= calls[k].at
    ensures calls[k].at + calls[k].timeout <= SettleBy(calls, k) <= calls[k].at + Timeouts(calls, i, k)
  {
    SettleByFrom(calls, i, k, calls[k].at);
  }

  lemma {:induction false} SettleByFrom(calls: seq<Call>, i: nat, k: nat, moment: nat)
    requires i <= k < |calls|
    requires forall m :: 0 <= m <= k ==> calls[m].at <= moment
    requires i > 0 ==> SettleBy(calls, i - 1) <= moment
    ensures SettleBy(calls, k) <= moment + Timeouts(calls, i, k)
  {
    if i < k {
      SettleByFrom(calls, i, k - 1, moment);
    }
  }
}
