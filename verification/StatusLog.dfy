/** The bridge's event log (td/modules/utils/tdmcp_status.py): a deque of the last events, a second bounded
    deque of events on their way to the table, and the table on the bridge's face. */
module StatusLog {
  import opened Text

  const MAX_EVENTS: nat := 100
  const MAX_EVENT_CHARS: nat := 160
  const FLUSH_INTERVAL_S: real := 0.5
  const HUB_OK_MIN_INTERVAL_S: real := 30.0

  datatype Row = Row(time: string, level: string, event: string)

  const HEADER := Row("time", "level", "event")

  // ---------- text ----------

  function WithoutBreaks(s: string): (r: string)
    ensures |r| == |s| && '\n' !in r
  {
    seq(|s|, i requires 0 <= i < |s| => if s[i] == '\n' then ' ' else s[i])
  }

  /** One line of at most `MAX_EVENT_CHARS` characters. */
  function Truncate(msg: string): (r: string)
    ensures |r| <= MAX_EVENT_CHARS && '\n' !in r
  {
    var s := Trim(WithoutBreaks(msg));
    if |s| <= MAX_EVENT_CHARS then s else s[..MAX_EVENT_CHARS - 1] + ['\U{2026}']
  }

  // ---------- the state and its two operations, on values ----------

  /** `rows` is the table without its header. */
  datatype Log = Log(events: seq<Row>, pending: seq<Row>, rows: seq<Row>, lastHubOk: real, lastFlush: real,
                     tunnel: string)

  datatype Step =
    | Record(level: string, event: string, force: bool, now: real, clock: string)
      // `face`: the bridge and its DATs are there
    | Flush(force: bool, now: real, face: bool)

  function Last(s: seq<Row>): (r: seq<Row>)
    ensures |r| == if |s| <= MAX_EVENTS then |s| else MAX_EVENTS
  {
    if |s| <= MAX_EVENTS then s else s[|s| - MAX_EVENTS..]
  }

  function LevelOf(level: string): string {
    Lower(if level == "" then "info" else level)
  }

  /** The hub's routine success lines, of which at most one per interval is kept. */
  predicate Routine(level: string, event: string, force: bool) {
    var low := Lower(Truncate(event));
    && !force && LevelOf(level) == "hub" && !Contains(low, "fail") && !Contains(low, "error")
    && !Contains(low, "registered") && !Contains(low, "hub spawned") && !Contains(low, "hub running")
    && (Contains(low, "heartbeat") || EndsWith(low, "ok"))
  }

  /** The tunnel state that a message tells, read off its words in this order; other messages leave it. */
  function TunnelAfter(tunnel: string, low: string): string {
    if Contains(low, "connected as") || StartsWith(low, "connected") then "connected"
    else if Contains(low, "connecting") then "connecting"
    else if Contains(low, "disconnected") || Contains(low, "hello rejected") || Contains(low, "recv error") then
      if Contains(low, "rejected") || Contains(low, "error") then "error" else "disconnected"
    else if Contains(low, "paused") then "paused"
    else if Contains(low, "session error") || Contains(low, "missing nonce") then "error"
    else tunnel
  }

  predicate Accepted(log: Log, step: Step) {
    && step.Record?
    && (Routine(step.level, step.event, step.force) ==> step.now - log.lastHubOk >= HUB_OK_MIN_INTERVAL_S)
  }

  function RowOf(step: Step): Row
    requires step.Record?
  {
    Row(step.clock, LevelOf(step.level), Truncate(step.event))
  }

  function Added(log: Log, step: Step): seq<Row> {
    if Accepted(log, step) then [RowOf(step)] else []
  }

  /** A flush that reaches the table. */
  predicate Flushes(log: Log, step: Step) {
    step.Flush? && (step.force || step.now - log.lastFlush >= FLUSH_INTERVAL_S) && step.face
  }

  function Next(log: Log, step: Step): Log {
    match step
    case Record(level, event, force, now, _) =>
      var told := log.(tunnel := TunnelAfter(log.tunnel, Lower(Truncate(event))));
      if !Accepted(log, step) then told
      else told.(events := Last(log.events + [RowOf(step)]), pending := Last(log.pending + [RowOf(step)]),
                 lastHubOk := if Routine(level, event, force) then now else log.lastHubOk)
    case Flush(force, now, _) =>
      if !force && now - log.lastFlush < FLUSH_INTERVAL_S then log
      else if !Flushes(log, step) then log.(lastFlush := now)
      else log.(lastFlush := now, pending := [], rows := Last(log.rows + log.pending))
  }

  function Run(log: Log, steps: seq<Step>): Log
    decreases |steps|
  {
    if steps == [] then log else Run(Next(log, steps[0]), steps[1..])
  }

  /** Every event the run accepts, oldest first. */
  function History(log: Log, steps: seq<Step>): seq<Row>
    decreases |steps|
  {
    if steps == [] then [] else Added(log, steps[0]) + History(Next(log, steps[0]), steps[1..])
  }

  // ---------- what a message becomes ----------

  ghost predicate Has(s: string, part: string) {
    exists i :: 0 <= i <= |s| && part <= s[i..]
  }

  lemma {:induction false} HasNext(s: string, part: string)
    ensures Has(s, part) <==> StartsWith(s, part) || (s != "" && Has(s[1..], part))
  {
    assert s[0..] == s;
    if s != "" {
      if i :| 0 <= i <= |s| - 1 && part <= s[1..][i..] {
        assert s[1..][i..] == s[i + 1..];
      }
      if i :| 0 < i <= |s| && part <= s[i..] {
        assert s[1..][i - 1..] == s[i..];
      }
    }
  }

  lemma {:induction false} ContainsMeans(s: string, part: string)
    ensures Contains(s, part) <==> Has(s, part)
  {
    hide Has;
    HasNext(s, part);
    if s != "" {
      ContainsMeans(s[1..], part);
    }
  }

  /** A message becomes one line without blanks at its ends, cut at 160 characters with an ellipsis at the end. */
  lemma {:induction false} TruncateMeans(before: string, msg: string, after: string)
    requires (forall c :: c in before || c in after ==> IsBlank(c)) && msg != ""
    requires !IsBlank(msg[0]) && !IsBlank(msg[|msg| - 1])
    ensures var line := seq(|msg|, i requires 0 <= i < |msg| => if msg[i] == '\n' then ' ' else msg[i]);
      Truncate(before + msg + after) == if |msg| <= 160 then line else line[..159] + "\U{2026}"
  {
    var line := WithoutBreaks(msg);
    var a, b := WithoutBreaks(before), WithoutBreaks(after);
    var s := WithoutBreaks(before + msg + after);
    assert s == a + line + b;
    forall c | c in a || c in b
      ensures IsBlank(c)
    {
      if c in a {
        var i :| 0 <= i < |a| && a[i] == c;
        assert before[i] in before;
      } else {
        var i :| 0 <= i < |b| && b[i] == c;
        assert after[i] in after;
      }
    }
    TrimDropsBlanks(a, line, b);
  }

  lemma {:induction false} TrimDropsBlanks(a: string, line: string, b: string)
    requires (forall c :: c in a || c in b ==> IsBlank(c)) && line != ""
    requires !IsBlank(line[0]) && !IsBlank(line[|line| - 1])
    ensures Trim(a + line + b) == line
  {
    assert a + line + b == a + (line + b);
    StripLeftDrops(a, line + b);
    StripRightDrops(line, b);
  }

  lemma {:induction false} StripLeftDrops(a: string, s: string)
    requires (forall c :: c in a ==> IsBlank(c)) && s != "" && !IsBlank(s[0])
    ensures StripLeft(a + s) == s
  {
    if a == "" {
      assert a + s == s;
    } else {
      assert (a + s)[0] == a[0] && a[0] in a && (a + s)[1..] == a[1..] + s;
      StripLeftDrops(a[1..], s);
    }
  }

  lemma {:induction false} StripRightDrops(s: string, b: string)
    requires (forall c :: c in b ==> IsBlank(c)) && s != "" && !IsBlank(s[|s| - 1])
    ensures StripRight(s + b) == s
  {
    if b == "" {
      assert s + b == s;
    } else {
      var n := |b| - 1;
      assert (s + b)[|s| + n] == b[n] && b[n] in b && (s + b)[..|s| + n] == s + b[..n];
      StripRightDrops(s, b[..n]);
    }
  }

  /** A record is dropped only if it is a routine success line of the hub - a heartbeat or an `ok` without a word of
      failure and not about a start - that comes too soon and is not forced; otherwise the deque gets the time, the
      level in lower case, `info` for none, and the line. */
  lemma {:induction false} RecordMeans(log: Log, level: string, event: string, force: bool, now: real, clock: string)
    ensures var line := Truncate(event);
      var low := Lower(line);
      var failure := Has(low, "fail") || Has(low, "error");
      var start := Has(low, "registered") || Has(low, "hub spawned") || Has(low, "hub running");
      var success := Has(low, "heartbeat") || EndsWith(low, "ok");
      var dropped := !force && Lower(level) == "hub" && success && !failure && !start && now - log.lastHubOk < 30.0;
      Next(log, Record(level, event, force, now, clock)).events
        == if dropped then log.events
           else Last(log.events + [Row(clock, if level == "" then "info" else Lower(level), line)])
  {
    hide Truncate, Contains, EndsWith, Has, TunnelAfter;
    var low := Lower(Truncate(event));
    ContainsMeans(low, "fail");
    ContainsMeans(low, "error");
    ContainsMeans(low, "registered");
    ContainsMeans(low, "hub spawned");
    ContainsMeans(low, "hub running");
    ContainsMeans(low, "heartbeat");
    InfoIsLow();
  }

  lemma {:induction false} InfoIsLow()
    ensures Lower("info") == "info" && Lower("") == ""
  {
  }

  /** The words that decide the tunnel state, the earlier before the later: so an error wins over the end of a
      connection that it names, and a message about a connection made wins over both. */
  lemma {:induction false} TunnelStateMeans(tunnel: string, low: string)
    ensures var made := Has(low, "connected as") || "connected" <= low;
      var making := !made && Has(low, "connecting");
      var lost := !made && !making
        && (Has(low, "disconnected") || Has(low, "hello rejected") || Has(low, "recv error"));
      var paused := !made && !making && !lost && Has(low, "paused");
      var failed := (lost && (Has(low, "rejected") || Has(low, "error")))
        || (!made && !making && !lost && !paused && (Has(low, "session error") || Has(low, "missing nonce")));
      && (made ==> TunnelAfter(tunnel, low) == "connected")
      && (making ==> TunnelAfter(tunnel, low) == "connecting")
      && (lost && !failed ==> TunnelAfter(tunnel, low) == "disconnected")
      && (failed ==> TunnelAfter(tunnel, low) == "error")
      && (paused ==> TunnelAfter(tunnel, low) == "paused")
      && (!made && !making && !lost && !paused && !failed ==> TunnelAfter(tunnel, low) == tunnel)
  {
    hide Contains, Has;
    ContainsMeans(low, "connected as");
    ContainsMeans(low, "connecting");
    ContainsMeans(low, "disconnected");
    ContainsMeans(low, "hello rejected");
    ContainsMeans(low, "recv error");
    ContainsMeans(low, "rejected");
    ContainsMeans(low, "error");
    ContainsMeans(low, "paused");
    ContainsMeans(low, "session error");
    ContainsMeans(low, "missing nonce");
  }

  /** The last hundred rows, or all if there are fewer. */
  lemma {:induction false} LastMeans(s: seq<Row>)
    ensures exists dropped :: s == dropped + Last(s) && (dropped == [] || |Last(s)| == 100)
    ensures |Last(s)| <= 100
  {
    if |s| <= MAX_EVENTS {
      assert s == [] + Last(s);
    } else {
      assert s == s[..|s| - MAX_EVENTS] + Last(s);
    }
  }

  /** A flush does nothing within half a second of the last one unless forced; else it resets that time, and
      if the face is there the pending rows move to the table. */
  lemma {:induction false} FlushMeans(log: Log, force: bool, now: real, face: bool)
    ensures var after := Next(log, Flush(force, now, face));
      if !force && now - log.lastFlush < 0.5 then after == log
      else
        && after.lastFlush == now && after.events == log.events && after.tunnel == log.tunnel
        && after.lastHubOk == log.lastHubOk
        && if face then after.rows == Last(log.rows + log.pending) && after.pending == []
           else after.rows == log.rows && after.pending == log.pending
  {
    hide Last;
  }

  // ---------- bounded buffers in a chain ----------

  /** Bounding the halves first changes nothing. */
  lemma {:induction false} LastOfLasts(a: seq<Row>, b: seq<Row>)
    ensures Last(Last(a) + Last(b)) == Last(a + b)
  {
    if |b| >= MAX_EVENTS {
      EndOfConcat(Last(a), Last(b));
      EndOfConcat(a, b);
    } else if |a| > MAX_EVENTS {
      var skip := |a| - MAX_EVENTS;
      assert Last(a) + b == (a + b)[skip..];
      assert (a + b)[skip..][|b|..] == (a + b)[skip + |b|..];
    }
  }

  lemma {:induction false} EndOfConcat(a: seq<Row>, b: seq<Row>)
    requires |b| >= MAX_EVENTS
    ensures Last(a + b) == b[|b| - MAX_EVENTS..]
  {
    if |a + b| == MAX_EVENTS {
      assert a + b == b;
    } else {
      assert (a + b)[|a| + |b| - MAX_EVENTS..] == b[|b| - MAX_EVENTS..];
    }
  }

  /** `all` has been accepted since the table held `base`. */
  predicate InStep(log: Log, base: seq<Row>, all: seq<Row>) {
    && log.events == Last(all)
    && Last(log.rows + log.pending) == Last(base + all)
  }

  lemma {:induction false} NextKeepsStep(log: Log, step: Step, base: seq<Row>, all: seq<Row>)
    requires InStep(log, base, all)
    ensures InStep(Next(log, step), base, all + Added(log, step))
  {
    hide Last, RowOf, Routine;
    if Accepted(log, step) {
      var x := [RowOf(step)];
      AppendKeepsLast(all, log.events, x);
      AppendKeepsLast(base + all, log.rows + log.pending, x);
      LastOfLasts(log.rows, log.pending + x);
      LastOfLasts(log.rows, Last(log.pending + x));
      LastTwice(log.pending + x);
      assert (log.rows + log.pending) + x == log.rows + (log.pending + x);
      assert (base + all) + x == base + (all + x);
    } else {
      assert all + [] == all;
      LastTwice(log.rows + log.pending);
      assert Last(log.rows + log.pending) + [] == Last(log.rows + log.pending);
    }
  }

  lemma {:induction false} LastTwice(s: seq<Row>)
    ensures Last(Last(s)) == Last(s)
  {
  }

  /** Sequences with the same tail keep it when one row is added. */
  lemma {:induction false} AppendKeepsLast(a: seq<Row>, b: seq<Row>, x: seq<Row>)
    requires Last(a) == Last(b) || Last(a) == b
    ensures Last(a + x) == Last(b + x)
  {
    LastOfLasts(a, x);
    LastOfLasts(b, x);
    LastTwice(a);
  }

  lemma {:induction false} RunKeepsStep(log: Log, steps: seq<Step>, base: seq<Row>, all: seq<Row>)
    requires InStep(log, base, all)
    ensures InStep(Run(log, steps), base, all + History(log, steps))
    decreases |steps|
  {
    hide InStep, Added, Next;
    if steps == [] {
      assert all + [] == all;
    } else {
      var added := Added(log, steps[0]);
      NextKeepsStep(log, steps[0], base, all);
      RunKeepsStep(Next(log, steps[0]), steps[1..], base, all + added);
      assert all + (added + History(Next(log, steps[0]), steps[1..])) ==
        (all + added) + History(Next(log, steps[0]), steps[1..]);
    }
  }

  /** After any interleaving of records and flushes since the start, the deque holds the last hundred events
      ever accepted, and a flush that reaches the table leaves there the last hundred of the rows it started
      with and all the events since, whatever the pending buffer dropped on the way. */
  lemma {:induction false} TheTableShowsTheTail(steps: seq<Step>, flush: Step, base: seq<Row>)
    ensures var start, log := Start(base), Run(Start(base), steps);
      && log.events == Last(History(start, steps))
      && (Flushes(log, flush) ==>
           Next(log, flush).rows == Last(base + History(start, steps)) && Next(log, flush).pending == [])
  {
    assert base + [] == base;
    RunKeepsStep(Start(base), steps, base, []);
    assert [] + History(Start(base), steps) == History(Start(base), steps);
  }

  /** The module as loaded, over a table that holds `base`. */
  function Start(base: seq<Row>): Log {
    Log([], [], base, 0.0, 0.0, "idle")
  }

  // ---------- routine lines are rare ----------

  predicate KeepsRoutine(log: Log, step: Step) {
    Accepted(log, step) && Routine(step.level, step.event, step.force)
  }

  /** When the run accepted a routine line. */
  function RoutineTimes(log: Log, steps: seq<Step>): seq<real>
    decreases |steps|
  {
    if steps == [] then []
    else if KeepsRoutine(log, steps[0]) then [steps[0].now] + RoutineTimes(Next(log, steps[0]), steps[1..])
    else RoutineTimes(Next(log, steps[0]), steps[1..])
  }

  lemma {:induction false} RoutineStep(log: Log, step: Step)
    ensures KeepsRoutine(log, step) ==> Next(log, step).lastHubOk == step.now >= log.lastHubOk + HUB_OK_MIN_INTERVAL_S
    ensures !KeepsRoutine(log, step) ==> Next(log, step).lastHubOk == log.lastHubOk
  {
    hide Routine, RowOf, Last;
  }

  predicate Apart(times: seq<real>) {
    forall i, j :: 0 <= i < j < |times| ==> times[j] - times[i] >= HUB_OK_MIN_INTERVAL_S
  }

  /** Any two routine lines that were kept are at least an interval apart, even if the clock is set back. */
  lemma {:induction false} RoutineLinesAreApart(log: Log, steps: seq<Step>)
    ensures Apart([log.lastHubOk] + RoutineTimes(log, steps))
    decreases |steps|
  {
    hide KeepsRoutine, Next;
    if steps != [] {
      RoutineStep(log, steps[0]);
      RoutineLinesAreApart(Next(log, steps[0]), steps[1..]);
      var after := [Next(log, steps[0]).lastHubOk] + RoutineTimes(Next(log, steps[0]), steps[1..]);
      var times := [log.lastHubOk] + RoutineTimes(log, steps);
      if KeepsRoutine(log, steps[0]) {
        assert times == [log.lastHubOk] + after;
        assert after[0] == steps[0].now;
        forall i, j | 0 <= i < j < |times|
          ensures times[j] - times[i] >= HUB_OK_MIN_INTERVAL_S
        {
          assert times[j] == after[j - 1];
          if i > 0 {
            assert times[i] == after[i - 1];
          } else {
            assert j == 1 || after[j - 1] - after[0] >= HUB_OK_MIN_INTERVAL_S;
          }
        }
      } else {
        assert times == after;
      }
    }
  }

  // ---------- the module itself ----------

  class StatusLog {
    var events: seq<Row>
    var pending: seq<Row>
    var table: seq<Row>
    var lastHubOk: real
    var lastFlush: real
    var tunnelState: string

    ghost predicate Valid()
      reads this
    {
      table != [] && table[0] == HEADER
    }

    ghost function State(): Log
      reads this
      requires Valid()
    {
      Log(events, pending, table[1..], lastHubOk, lastFlush, tunnelState)
    }

    constructor (base: seq<Row>)
      ensures Valid() && State() == Start(base)
    {
      events, pending, table, lastHubOk, lastFlush, tunnelState := [], [], [HEADER] + base, 0.0, 0.0, "idle";
    }

    method ReadTunnelState(low: string)
      modifies this`tunnelState
      ensures tunnelState == TunnelAfter(old(tunnelState), low)
    {
      hide Contains, StartsWith;
      if Contains(low, "connected as") || StartsWith(low, "connected") {
        tunnelState := "connected";
      } else if Contains(low, "connecting") {
        tunnelState := "connecting";
      } else if Contains(low, "disconnected") || Contains(low, "hello rejected") || Contains(low, "recv error") {
        tunnelState := if Contains(low, "rejected") || Contains(low, "error") then "error" else "disconnected";
      } else if Contains(low, "paused") {
        tunnelState := "paused";
      } else if Contains(low, "session error") || Contains(low, "missing nonce") {
        tunnelState := "error";
      }
    }

    method Record(level: string, event: string, force: bool, now: real, clock: string)
      requires Valid()
      modifies this`events, this`pending, this`lastHubOk, this`tunnelState
      ensures Valid() && State() == Next(old(State()), Step.Record(level, event, force, now, clock))
    {
      hide Contains, Lower, Truncate, EndsWith, TunnelAfter;
      var lvl := LevelOf(level);
      var msg := Truncate(event);
      var low := Lower(msg);
      ReadTunnelState(low);
      if !force && lvl == "hub" && !Contains(low, "fail") && !Contains(low, "error") {
        if Contains(low, "registered") || Contains(low, "hub spawned") || Contains(low, "hub running") {
        } else if Contains(low, "heartbeat") || EndsWith(low, "ok") {
          if now - lastHubOk < HUB_OK_MIN_INTERVAL_S {
            return;
          }
          lastHubOk := now;
        }
      }
      var row := Row(clock, lvl, msg);
      events := Append(events, row);
      pending := Append(pending, row);
    }

    /** `deque(maxlen=MAX_EVENTS).append`. */
    static function Append(deque: seq<Row>, row: Row): seq<Row> {
      Last(deque + [row])
    }

    /** Keeps the header and at most `MAX_EVENTS` data rows. */
    method TrimTable()
      requires Valid()
      modifies this`table
      ensures Valid() && table[1..] == Last(old(table)[1..])
    {
      ghost var rows := table[1..];
      while |table| > MAX_EVENTS + 1
        invariant Valid() && Last(table[1..]) == Last(rows)
        invariant table == old(table) || |table| >= MAX_EVENTS + 1
        decreases |table|
      {
        ghost var before := table[1..];
        table := table[..1] + table[2..];
        assert table[1..] == before[1..];
      }
    }

    method Flush(force: bool, now: real, face: bool) returns (n: nat)
      requires Valid()
      modifies this`table, this`pending, this`lastFlush
      ensures Valid() && State() == Next(old(State()), Step.Flush(force, now, face))
      ensures n == if Flushes(old(State()), Step.Flush(force, now, face)) then |old(pending)| else 0
    {
      if !force && now - lastFlush < FLUSH_INTERVAL_S {
        return 0;
      }
      lastFlush := now;
      if !face {
        return 0;
      }
      var batch := pending;
      pending := [];
      n := 0;
      for i := 0 to |batch|
        invariant n == i && Valid() && pending == [] && lastFlush == now
        invariant table[1..] == old(table)[1..] + batch[..i]
      {
        table := table + [batch[i]];
        n := n + 1;
      }
      assert table[1..] == old(table)[1..] + batch;
      TrimTable();
    }
  }
}
