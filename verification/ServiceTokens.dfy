/**
 src/db/service_sessions.rs, src/auth/reaper.rs: liveness of service tokens and
 the background reaper.

 Assumed of the database: each statement is atomic and reads one non-decreasing
 clock.
 */
module ServiceTokens {
  import opened Prelude

  type Token = nat
  type Time = int

  const SECOND: int := 1_000_000_000

  datatype Row = Row(name: string, lastSeen: Time)

  type Table = map<Token, Row>

  datatype Op =
    | Insert(at: Time, token: Token, name: string)
    | Touch(at: Time, token: Token)
    | Lookup(at: Time, token: Token)
    | Reap(at: Time)

  datatype Reply = Inserted(name: string) | Touched(known: bool) | Found(service: Option<string>)

  /** The heartbeat window in clock units; configured in whole seconds. */
  function Window(seconds: nat): nat { seconds * SECOND }

  predicate Alive(window: nat, row: Row, now: Time) { row.lastSeen > now - window }

  predicate Stale(window: nat, row: Row, now: Time) { row.lastSeen < now - window }

  function Reaped(window: nat, table: Table, now: Time): Table {
    map t | t in table && !Stale(window, table[t], now) :: table[t]
  }

  function Apply(window: nat, table: Table, op: Op): Table {
    match op
    case Insert(at, token, name) => table[token := Row(if token in table then table[token].name else name, at)]
    case Touch(at, token) => if token in table then table[token := table[token].(lastSeen := at)] else table
    case Lookup(_, _) => table
    case Reap(at) => Reaped(window, table, at)
  }

  /** What the caller of an operation learns; nobody learns anything from a reap. */
  function Answer(window: nat, table: Table, op: Op): Reply
    requires !op.Reap?
  {
    match op
    case Insert(at, token, name) => Inserted(if token in table then table[token].name else name)
    case Touch(at, token) => Touched(token in table)
    case Lookup(at, token) =>
      Found(if token in table && Alive(window, table[token], at) then Some(table[token].name) else None)
  }

  function Run(window: nat, ops: seq<Op>): Table {
    if |ops| == 0 then map[] else Apply(window, Run(window, ops[..|ops|-1]), ops[|ops|-1])
  }

  function Replies(window: nat, ops: seq<Op>): seq<Reply> {
    if |ops| == 0 then []
    else
      var init, op := ops[..|ops|-1], ops[|ops|-1];
      Replies(window, init) + (if op.Reap? then [] else [Answer(window, Run(window, init), op)])
  }

  /** The callers' operations, without the reaper's. */
  function Clients(ops: seq<Op>): seq<Op> {
    if |ops| == 0 then []
    else Clients(ops[..|ops|-1]) + (if ops[|ops|-1].Reap? then [] else [ops[|ops|-1]])
  }

  ghost predicate Chronological(ops: seq<Op>) {
    forall i, j :: 0 <= i < j < |ops| ==> ops[i].at <= ops[j].at
  }

  // ----- when the reaper cannot be noticed -----

  /**
   Against the table as it would be without any reaping: a heartbeat of a known
   token comes within the window of the token's previous touch, and a token is
   issued again only within the window or to the same service.
   */
  predicate OpDisciplined(window: nat, table: Table, op: Op) {
    match op
    case Touch(at, token) => token in table ==> at <= table[token].lastSeen + window
    case Insert(at, token, name) =>
      token in table ==> at <= table[token].lastSeen + window || table[token].name == name
    case _ => true
  }

  ghost predicate Disciplined(window: nat, script: seq<Op>) {
    forall i :: 0 <= i < |script| ==> OpDisciplined(window, Run(window, script[..i]), script[i])
  }

  ghost predicate IsScript(script: seq<Op>) {
    Chronological(script) && forall i :: 0 <= i < |script| ==> !script[i].Reap?
  }

  /** Any reaper schedule whatsoever leaves every caller with the same answers. */
  ghost predicate ReaperInvisible(window: nat, script: seq<Op>) {
    forall ops :: Chronological(ops) && Clients(ops) == script ==> Replies(window, ops) == Replies(window, script)
  }

  /** The reaped table is the full one minus rows that are dead by now. */
  ghost predicate Simulates(window: nat, now: Time, reaped: Table, full: Table) {
    && (forall t :: t in reaped ==> t in full && reaped[t] == full[t])
    && (forall t :: t in full && t !in reaped ==> full[t].lastSeen + window < now)
  }

  lemma StepSimulates(window: nat, now: Time, reaped: Table, full: Table, op: Op)
    requires Simulates(window, now, reaped, full) && now <= op.at
    requires !op.Reap? && OpDisciplined(window, full, op)
    ensures Simulates(window, op.at, Apply(window, reaped, op), Apply(window, full, op))
    ensures Answer(window, reaped, op) == Answer(window, full, op)
  {
  }

  lemma ReapSimulates(window: nat, now: Time, reaped: Table, full: Table, at: Time)
    requires Simulates(window, now, reaped, full) && now <= at
    ensures Simulates(window, at, Reaped(window, reaped, at), full)
  {
  }

  lemma {:induction false} ScheduleSimulates(window: nat, ops: seq<Op>)
    requires Chronological(ops) && Disciplined(window, Clients(ops))
    ensures |ops| > 0 ==> Simulates(window, ops[|ops|-1].at, Run(window, ops), Run(window, Clients(ops)))
    ensures |ops| == 0 ==> Run(window, ops) == Run(window, Clients(ops)) == map[]
    ensures Replies(window, ops) == Replies(window, Clients(ops))
  {
    hide Apply, Answer, OpDisciplined, Simulates;
    if |ops| > 0 {
      var init, op := ops[..|ops|-1], ops[|ops|-1];
      var script, full := Clients(ops), Clients(init);
      if op.Reap? {
        assert script == full;
      } else {
        assert script[..|full|] == full && script[|full|] == op;
        forall i | 0 <= i < |full| ensures full[..i] == script[..i] && full[i] == script[i] {}
        assert OpDisciplined(window, Run(window, script[..|full|]), script[|full|]);
      }
      ScheduleSimulates(window, init);
      var now := if |init| > 0 then init[|init|-1].at else op.at;
      assert Simulates(window, now, Run(window, init), Run(window, full)) by {
        if |init| == 0 { EmptySimulates(window, now); }
      }
      if op.Reap? {
        ReapSimulates(window, now, Run(window, init), Run(window, full), op.at);
        assert Apply(window, Run(window, init), op) == Reaped(window, Run(window, init), op.at) by { ApplyReap(window, Run(window, init), op); }
      } else {
        StepSimulates(window, now, Run(window, init), Run(window, full), op);
      }
    }
  }

  lemma EmptySimulates(window: nat, now: Time)
    ensures Simulates(window, now, map[], map[])
  {
  }

  lemma ApplyReap(window: nat, table: Table, op: Op)
    requires op.Reap?
    ensures Apply(window, table, op) == Reaped(window, table, op.at)
  {
  }

  // ----- and when it can -----

  lemma {:induction false} ScriptIsItsOwnClients(script: seq<Op>)
    requires forall i :: 0 <= i < |script| ==> !script[i].Reap?
    ensures Clients(script) == script
  {
    if |script| > 0 {
      ScriptIsItsOwnClients(script[..|script|-1]);
    }
  }

  lemma {:induction false} ClientsConcat(a: seq<Op>, b: seq<Op>)
    ensures Clients(a + b) == Clients(a) + Clients(b)
    decreases |b|
  {
    if |b| == 0 {
      assert a + b == a && Clients(b) == [];
    } else {
      var init := b[..|b|-1];
      assert (a + b)[..|a + b|-1] == a + init;
      ClientsConcat(a, init);
    }
  }

  lemma {:induction false} RepliesGrow(window: nat, ops: seq<Op>, k: nat)
    requires k <= |ops|
    ensures Replies(window, ops[..k]) <= Replies(window, ops)
    decreases |ops|
  {
    if k < |ops| {
      var init := ops[..|ops|-1];
      assert init[..k] == ops[..k];
      RepliesGrow(window, init, k);
    } else {
      assert ops[..k] == ops;
    }
  }

  /** A reap at the very moment of an undisciplined operation changes its answer. */
  lemma ReapShows(window: nat, table: Table, op: Op)
    requires !op.Reap? && !OpDisciplined(window, table, op)
    ensures Answer(window, Reaped(window, table, op.at), op) != Answer(window, table, op)
  {
  }

  /** The script with one reap just before its i-th operation. */
  function WithReap(script: seq<Op>, i: nat): seq<Op>
    requires i < |script|
  {
    script[..i] + [Reap(script[i].at)] + script[i..]
  }

  lemma WithReapInOrder(script: seq<Op>, i: nat)
    requires IsScript(script) && i < |script|
    ensures Chronological(WithReap(script, i))
  {
  }

  lemma ReapIsNoClient(at: Time)
    ensures Clients([Reap(at)]) == []
  {
  }

  lemma {:induction false} WithReapSameClients(script: seq<Op>, i: nat)
    requires IsScript(script) && i < |script|
    ensures Clients(WithReap(script, i)) == script
  {
    hide Clients;
    var before, reap, rest := script[..i], Reap(script[i].at), script[i..];
    ClientsConcat(before + [reap], rest);
    ClientsConcat(before, [reap]);
    ReapIsNoClient(script[i].at);
    assert Clients(before) + [] == Clients(before);
    ClientsConcat(before, rest);
    assert before + rest == script;
    ScriptIsItsOwnClients(script);
  }

  lemma LastReply(window: nat, before: seq<Op>, op: Op)
    requires !op.Reap?
    ensures Replies(window, before + [op]) == Replies(window, before) + [Answer(window, Run(window, before), op)]
  {
  }

  lemma AfterReap(window: nat, before: seq<Op>, at: Time)
    ensures Replies(window, before + [Reap(at)]) == Replies(window, before)
    ensures Run(window, before + [Reap(at)]) == Reaped(window, Run(window, before), at)
  {
  }

  lemma {:induction false} LateHeartbeatShows(window: nat, script: seq<Op>, i: nat)
    requires IsScript(script) && i < |script|
    requires !OpDisciplined(window, Run(window, script[..i]), script[i])
    ensures Replies(window, WithReap(script, i)) != Replies(window, script)
  {
    hide Run, Replies, Answer, OpDisciplined, Reaped;
    var before, op, ops := script[..i], script[i], WithReap(script, i);
    LastReply(window, before, op);
    AfterReap(window, before, op.at);
    LastReply(window, before + [Reap(op.at)], op);
    ReapShows(window, Run(window, before), op);
    assert script[..i+1] == before + [op];
    assert ops[..i+2] == before + [Reap(op.at)] + [op];
    RepliesGrow(window, script, i + 1);
    RepliesGrow(window, ops, i + 2);
    var n := |Replies(window, before)|;
    assert Replies(window, script[..i+1])[n] != Replies(window, ops[..i+2])[n];
  }

  /**
   No reaper schedule is ever noticed by the callers of a script if and only if
   every heartbeat of a known token comes within the window of its previous
   touch (and re-issued tokens keep to the window or to their service).
   */
  lemma {:induction false} ReaperInvisibleIffDisciplined(window: nat, script: seq<Op>)
    requires IsScript(script)
    ensures ReaperInvisible(window, script) <==> Disciplined(window, script)
  {
    hide Run, Replies, OpDisciplined;
    if Disciplined(window, script) {
      forall ops | Chronological(ops) && Clients(ops) == script
        ensures Replies(window, ops) == Replies(window, script)
      {
        ScheduleSimulates(window, ops);
      }
    } else {
      var i :| 0 <= i < |script| && !OpDisciplined(window, Run(window, script[..i]), script[i]);
      LateHeartbeatShows(window, script, i);
      WithReapInOrder(script, i);
      WithReapSameClients(script, i);
    }
  }

  // ----- how long a dead row can stay -----

  /** `max(window / 3, 5 s)`, in whole clock units. */
  function Period(seconds: nat): (p: nat)
    ensures p >= 5 * SECOND
  {
    Max(Window(seconds) / 3, 5 * SECOND)
  }

  /** After a reap, every row left or added was touched within the window before that reap, or later. */
  lemma {:induction false} RowsOutliveLastReap(window: nat, ops: seq<Op>, k: nat, t: Token)
    requires Chronological(ops) && k < |ops| && ops[k].Reap?
    requires t in Run(window, ops)
    ensures ops[k].at <= Run(window, ops)[t].lastSeen + window
    decreases |ops|
  {
    var init, op := ops[..|ops|-1], ops[|ops|-1];
    if k < |init| {
      assert init[k] == ops[k];
      if t in Run(window, init) {
        RowsOutliveLastReap(window, init, k, t);
      }
    }
  }

  /** When the interval started at `start` fires for the i-th time. */
  function TickAt(seconds: nat, start: Time, i: nat): Time { start + i * Period(seconds) }

  ghost predicate ReapedWithin(ops: seq<Op>, tick: Time, delay: nat) {
    exists k :: 0 <= k < |ops| && ops[k].Reap? && tick <= ops[k].at <= tick + delay
  }

  /** Every tick of the reaper's interval has reaped at most `delay` later. */
  ghost predicate ReapedAfterEveryTick(seconds: nat, start: Time, delay: nat, ops: seq<Op>, now: Time) {
    forall i: nat :: TickAt(seconds, start, i) + delay <= now ==> ReapedWithin(ops, TickAt(seconds, start, i), delay)
  }

  lemma {:induction false} LatestTick(seconds: nat, start: Time, now: Time) returns (i: nat)
    requires start <= now
    ensures TickAt(seconds, start, i) <= now < TickAt(seconds, start, i) + Period(seconds)
  {
    i := (now - start) / Period(seconds);
    assert now - start == i * Period(seconds) + (now - start) % Period(seconds);
  }

  /**
   With an interval that fires every `max(window / 3, 5 s)` from `start` on, and
   reaps that read the clock at most `delay` after their tick, a row is gone less
   than window + max(window / 3, 5 s) + delay after its last touch.
   */
  lemma {:induction false} DeadRowsAreReaped(seconds: nat, start: Time, delay: nat, ops: seq<Op>, now: Time, t: Token)
    requires Chronological(ops) && start + delay <= now && ReapedAfterEveryTick(seconds, start, delay, ops, now)
    requires t in Run(Window(seconds), ops)
    ensures var window := seconds * SECOND;
      now < Run(window, ops)[t].lastSeen + window + Max(window / 3, 5 * SECOND) + delay
  {
    hide Run, TickAt;
    var i := LatestTick(seconds, start, now - delay);
    assert ReapedWithin(ops, TickAt(seconds, start, i), delay);
    var k :| 0 <= k < |ops| && ops[k].Reap? && TickAt(seconds, start, i) <= ops[k].at;
    RowsOutliveLastReap(Window(seconds), ops, k, t);
  }

  // ----- what a lookup tells -----

  /** Operation j is the last one to touch the token: its issue, or a heartbeat that found it. */
  ghost predicate LastTouch(window: nat, ops: seq<Op>, j: int, t: Token) {
    0 <= j < |ops| && Touches(window, ops, j, t) && forall k :: j < k < |ops| ==> !Touches(window, ops, k, t)
  }

  ghost predicate Touches(window: nat, ops: seq<Op>, k: int, t: Token)
    requires 0 <= k < |ops|
  {
    (ops[k].Insert? && ops[k].token == t) || (ops[k].Touch? && ops[k].token == t && t in Run(window, ops[..k]))
  }

  lemma {:induction false} TouchesPrefix(window: nat, ops: seq<Op>, n: nat)
    requires n <= |ops|
    ensures forall k, t | 0 <= k < n :: Touches(window, ops[..n], k, t) <==> Touches(window, ops, k, t)
  {
    hide Run;
    assert forall k | 0 <= k < n :: ops[..n][..k] == ops[..k] && ops[..n][k] == ops[k];
  }

  lemma {:induction false} LastTouchStep(window: nat, ops: seq<Op>, j: int, t: Token)
    requires |ops| > 0
    ensures var n := |ops| - 1;
      LastTouch(window, ops, j, t) <==>
        if Touches(window, ops, n, t) then j == n else LastTouch(window, ops[..n], j, t)
  {
    hide Touches;
    TouchesPrefix(window, ops, |ops| - 1);
  }

  /** A stored row was last touched when its row says, and was issued under its name. */
  lemma {:induction false} RowIsLastTouched(window: nat, ops: seq<Op>, t: Token) returns (j: nat)
    requires t in Run(window, ops)
    ensures LastTouch(window, ops, j, t) && ops[j].at == Run(window, ops)[t].lastSeen
    ensures exists i :: 0 <= i < |ops| && ops[i].Insert? && ops[i].token == t && ops[i].name == Run(window, ops)[t].name
  {
    var n := |ops| - 1;
    var init, op := ops[..n], ops[n];
    j := n;
    if t in Run(window, init) {
      j := RowIsLastTouched(window, init, t);
      var i :| 0 <= i < n && init[i].Insert? && init[i].token == t && init[i].name == Run(window, init)[t].name;
      assert ops[i] == init[i];
    }
    LastTouchStep(window, ops, n, t);
    LastTouchStep(window, ops, j, t);
    if Touches(window, ops, n, t) {
      j := n;
    }
  }

  /** A token touched less than the window before `at` has not been reaped by then. */
  lemma {:induction false} RecentlyTouchedIsStored(window: nat, ops: seq<Op>, j: nat, t: Token, at: Time)
    requires LastTouch(window, ops, j, t) && at < ops[j].at + window
    requires forall k :: 0 <= k < |ops| ==> ops[k].at <= at
    ensures t in Run(window, ops)
  {
    var n := |ops| - 1;
    var init := ops[..n];
    LastTouchStep(window, ops, j, t);
    if !Touches(window, ops, n, t) {
      assert init[j] == ops[j];
      RecentlyTouchedIsStored(window, init, j, t, at);
      var i := RowIsLastTouched(window, init, t);
      assert i == j;
    }
  }

  /**
   Whatever the reaper's schedule, a lookup finds a token exactly if the token
   was issued, or answered a heartbeat, less than the window before.
   */
  lemma {:induction false} FoundIffTouchedRecently(window: nat, ops: seq<Op>, k: nat)
    requires Chronological(ops) && k < |ops| && ops[k].Lookup?
    ensures Answer(window, Run(window, ops[..k]), ops[k]).service.Some? <==>
            exists j :: 0 <= j < k && LastTouch(window, ops[..k], j, ops[k].token) && ops[k].at < ops[j].at + window
  {
    hide Run, LastTouch;
    var before, t, at := ops[..k], ops[k].token, ops[k].at;
    if t in Run(window, before) {
      var j := RowIsLastTouched(window, before, t);
      TouchIndex(window, before, j, t);
      assert ops[j] == before[j];
      forall i | LastTouch(window, before, i, t) ensures i == j { TouchUnique(window, before, i, j, t); }
    } else {
      forall j | 0 <= j < k && LastTouch(window, before, j, t) ensures at >= ops[j].at + window {
        assert ops[j] == before[j];
        if at < before[j].at + window {
          RecentlyTouchedIsStored(window, before, j, t, at);
        }
      }
    }
  }

  lemma TouchIndex(window: nat, ops: seq<Op>, j: int, t: Token)
    requires LastTouch(window, ops, j, t)
    ensures 0 <= j < |ops|
  {
  }

  lemma TouchUnique(window: nat, ops: seq<Op>, i: int, j: int, t: Token)
    requires LastTouch(window, ops, i, t) && LastTouch(window, ops, j, t)
    ensures i == j
  {
  }

  // ----- the table and the reaper task -----

  class TokenTable {
    var rows: Table

    constructor ()
      ensures rows == map[]
    {
      rows := map[];
    }

    /** Upsert: a known token only has its freshness renewed. */
    method Add(at: Time, token: Token, name: string) returns (row: Row)
      modifies this
      ensures rows == Apply(0, old(rows), Insert(at, token, name))
      ensures row == Row(if token in old(rows) then old(rows)[token].name else name, at) && rows == old(rows)[token := row]
      ensures Inserted(row.name) == Answer(0, old(rows), Insert(at, token, name))
    {
      if token in rows {
        row := rows[token].(lastSeen := at);
      } else {
        row := Row(name, at);
      }
      rows := rows[token := row];
    }

    method LookupAlive(window: nat, at: Time, token: Token) returns (name: Option<string>)
      ensures Found(name) == Answer(window, rows, Lookup(at, token))
      ensures name.Some? <==> token in rows && at < rows[token].lastSeen + window
      ensures name.Some? ==> name.value == rows[token].name
    {
      name := None;
      if token in rows {
        var row := rows[token];
        if row.lastSeen > at - window {
          name := Some(row.name);
        }
      }
    }

    method Heartbeat(at: Time, token: Token) returns (known: bool)
      modifies this
      ensures rows == Apply(0, old(rows), Touch(at, token))
      ensures known <==> token in old(rows)
      ensures rows == if known then old(rows)[token := Row(old(rows)[token].name, at)] else old(rows)
      ensures Touched(known) == Answer(0, old(rows), Touch(at, token))
    {
      known := token in rows;
      if known {
        rows := rows[token := rows[token].(lastSeen := at)];
      }
    }

    method ReapStale(window: nat, at: Time) returns (removed: nat)
      modifies this
      ensures rows == Reaped(window, old(rows), at)
      ensures forall t :: t in rows <==> t in old(rows) && at <= old(rows)[t].lastSeen + window
      ensures forall t :: t in rows ==> rows[t] == old(rows)[t]
      ensures removed == |old(rows)| - |rows|
    {
      var stale := set t | t in rows && rows[t].lastSeen < at - window;
      removed := |stale|;
      KeysSplit(rows, stale);
      rows := rows - stale;
    }

    /** The reaper task over the ticks of its interval. */
    method Reaper(window: nat, ticks: seq<Time>)
      modifies this
      ensures rows == AfterTicks(window, old(rows), ticks)
    {
      for i := 0 to |ticks|
        invariant rows == AfterTicks(window, old(rows), ticks[..i])
      {
        assert ticks[..i+1][..i] == ticks[..i];
        var removed := ReapStale(window, ticks[i]);
      }
      assert ticks[..|ticks|] == ticks;
    }
  }

  lemma KeysSplit(table: Table, gone: set<Token>)
    requires gone <= table.Keys
    ensures |table| == |table - gone| + |gone|
  {
  }

  function AfterTicks(window: nat, table: Table, ticks: seq<Time>): Table {
    if |ticks| == 0 then table else Reaped(window, AfterTicks(window, table, ticks[..|ticks|-1]), ticks[|ticks|-1])
  }

  /** Many ticks in a row remove what the last of them alone would. */
  lemma {:induction false} LastTickDecides(window: nat, table: Table, ticks: seq<Time>)
    requires |ticks| > 0 && forall i, j :: 0 <= i < j < |ticks| ==> ticks[i] <= ticks[j]
    ensures AfterTicks(window, table, ticks) == Reaped(window, table, ticks[|ticks|-1])
  {
    var init, last := ticks[..|ticks|-1], ticks[|ticks|-1];
    if |init| > 0 {
      LastTickDecides(window, table, init);
      assert init[|init|-1] <= last;
    }
  }
}
