/**
 What holds over whole runs of the ambiguity queue: any interleaving of flags,
 polls and writes of other workers to the nodes, under one profile.
 */
module AmbiguityRuns {
  import opened Options
  import opened Severities
  import opened Database
  import opened AmbiguityQueue

  datatype State = State(rows: seq<Entry>, alerts: seq<Alert>, nodes: Nodes, tasks: Tasks)

  datatype Op =
    | Raise(now: int, flag: Flag, task: string)
    | Poll(now: int)
    | Write(now: int, key: NodeKey, status: Status)
    | Create(now: int, task: string, row: Task)

  function Reached(p: Profile, s: State, now: int): nat {
    Reach(p, s.tasks, s.rows, |s.rows|, now)
  }

  function Polled(p: Profile, rows: seq<Entry>, n: nat, now: int): (after: seq<Entry>)
    ensures PolledUpTo(p, rows, n, now, after)
  {
    seq(|rows|, i requires 0 <= i < |rows| => if i < n then NextRow(p, rows[i], now) else rows[i])
  }

  function Step(p: Profile, s: State, op: Op): State {
    match op
    case Raise(now, flag, task) =>
      s.(rows := RowsAfterFlag(p, s.rows, flag, task, now), nodes := NodesAfterFlag(p, s.rows, s.nodes, flag, task, now))
    case Poll(now) =>
      var n := Reached(p, s, now);
      s.(rows := Polled(p, s.rows, n, now), alerts := s.alerts + AlertsUpTo(p, s.rows, n, now),
         nodes := NodesUpTo(p, s.rows, s.nodes, n, now))
    case Write(now, key, status) =>
      s.(nodes := SetNode(s.nodes, key, status))
    case Create(now, task, row) =>
      s.(tasks := s.tasks[task := row])
  }

  /** The state after the first n operations, from an empty queue. */
  function Run(p: Profile, start: State, ops: seq<Op>, n: nat): State
    requires n <= |ops|
  {
    if n == 0 then start.(rows := [], alerts := []) else Step(p, Run(p, start, ops, n - 1), ops[n - 1])
  }

  // ---- A row's life ----

  function Rank(status: EntryStatus): nat {
    match status case Waiting => 0 case Escalated => 1 case Expired => 2
  }

  /** What a row keeps for ever, and how its status may move. */
  ghost predicate Onward(before: Entry, after: Entry) {
    && after == before.(status := after.status, escalatedAt := after.escalatedAt, reEscalations := after.reEscalations)
    && Rank(before.status) <= Rank(after.status)
    && before.reEscalations <= after.reEscalations
    && (before.status == Expired ==> after == before)
    && (before.severity != Low && after.status == Expired ==> before.status == Expired)
  }

  ghost predicate AllOnward(before: seq<Entry>, after: seq<Entry>) {
    |before| <= |after| && forall i :: 0 <= i < |before| ==> Onward(before[i], after[i])
  }

  lemma {:induction false} StepOnward(p: Profile, s: State, op: Op)
    ensures AllOnward(s.rows, Step(p, s, op).rows)
  {
  }

  /** Rows are never lost; they move from waiting to escalated to expired, and expired is final. */
  lemma {:induction false} RunOnward(p: Profile, start: State, ops: seq<Op>, m: nat, n: nat)
    requires m <= n <= |ops|
    ensures AllOnward(Run(p, start, ops, m).rows, Run(p, start, ops, n).rows)
  {
    if m < n {
      RunOnward(p, start, ops, m, n - 1);
      StepOnward(p, Run(p, start, ops, n - 1), ops[n - 1]);
    }
  }

  // ---- The rate limit ----

  /** Rows of the task that do not block and were created in the closed window of an hour from `from`. */
  function NonBlockingIn(rows: seq<Entry>, n: nat, task: string, from: int): nat
    requires n <= |rows|
  {
    if n == 0 then 0
    else
      NonBlockingIn(rows, n - 1, task, from)
      + if rows[n - 1].task == task && !rows[n - 1].blocking && from <= rows[n - 1].createdAt <= from + 3600
        then 1 else 0
  }

  ghost predicate UnderLimit(rows: seq<Entry>, n: nat, row: Entry, limit: nat)
    requires n <= |rows|
  {
    row.blocking || CountSince(rows, n, row.task, row.createdAt - RATE_WINDOW_S) < limit
  }

  /** Every row that does not block was under the limit when it came. */
  ghost predicate WithinLimit(rows: seq<Entry>, limit: nat) {
    forall n: nat :: n < |rows| ==> UnderLimit(rows, n, rows[n], limit)
  }

  lemma {:induction false} CountSinceFrame(rows: seq<Entry>, after: seq<Entry>, n: nat, task: string, since: int)
    requires n <= |rows| && n <= |after|
    requires forall i :: 0 <= i < n ==> after[i].task == rows[i].task && after[i].createdAt == rows[i].createdAt
    ensures CountSince(after, n, task, since) == CountSince(rows, n, task, since)
  {
    if n > 0 {
      CountSinceFrame(rows, after, n - 1, task, since);
    }
  }

  lemma {:induction false} UnderLimitFrame(rows: seq<Entry>, after: seq<Entry>, n: nat, row: Entry, now: Entry, limit: nat)
    requires n <= |rows| && AllOnward(rows, after) && UnderLimit(rows, n, row, limit)
    requires now.blocking == row.blocking && now.task == row.task && now.createdAt == row.createdAt
    ensures UnderLimit(after, n, now, limit)
  {
    assert forall i :: 0 <= i < n ==> Onward(rows[i], after[i]);
    CountSinceFrame(rows, after, n, row.task, row.createdAt - RATE_WINDOW_S);
  }

  lemma {:induction false} StepWithinLimit(p: Profile, s: State, op: Op, limit: nat)
    requires p.rateLimit == Some(limit) && WithinLimit(s.rows, limit)
    ensures WithinLimit(Step(p, s, op).rows, limit)
  {
    var rows, after := s.rows, Step(p, s, op).rows;
    StepOnward(p, s, op);
    forall n: nat | n < |after|
      ensures UnderLimit(after, n, after[n], limit)
    {
      if n < |rows| {
        assert Onward(rows[n], after[n]) && UnderLimit(rows, n, rows[n], limit);
        UnderLimitFrame(rows, after, n, rows[n], after[n], limit);
      } else {
        assert op.Raise? && after == rows + [NewRow(p, op.flag, op.task, op.now)];
        assert UnderLimit(rows, n, after[n], limit);
        UnderLimitFrame(rows, after, n, after[n], after[n], limit);
      }
    }
  }

  lemma {:induction false} WindowWithinCount(rows: seq<Entry>, n: nat, task: string, from: int, last: int)
    requires n <= |rows| && last <= from + RATE_WINDOW_S
    ensures NonBlockingIn(rows, n, task, from) <= CountSince(rows, n, task, last - RATE_WINDOW_S)
  {
    if n > 0 {
      WindowWithinCount(rows, n - 1, task, from, last);
    }
  }

  lemma {:induction false} WindowWithinLimit(rows: seq<Entry>, n: nat, task: string, from: int, limit: nat)
    requires n <= |rows| && WithinLimit(rows, limit)
    ensures NonBlockingIn(rows, n, task, from) <= limit
  {
    if n > 0 {
      WindowWithinLimit(rows, n - 1, task, from, limit);
      var row := rows[n - 1];
      if row.task == task && !row.blocking && from <= row.createdAt <= from + RATE_WINDOW_S {
        assert UnderLimit(rows, n - 1, row, limit);
        WindowWithinCount(rows, n - 1, task, from, row.createdAt);
      }
    }
  }

  /** At most `limit` rows that do not block, per task, in any hour; whatever the clock does. */
  lemma {:induction false} RateLimitHolds(p: Profile, start: State, ops: seq<Op>, n: nat, limit: nat,
                                          task: string, from: int)
    requires n <= |ops| && p.rateLimit == Some(limit)
    ensures var rows := Run(p, start, ops, n).rows; NonBlockingIn(rows, |rows|, task, from) <= limit
  {
    RunWithinLimit(p, start, ops, n, limit);
    var rows := Run(p, start, ops, n).rows;
    WindowWithinLimit(rows, |rows|, task, from, limit);
  }

  lemma {:induction false} RunWithinLimit(p: Profile, start: State, ops: seq<Op>, n: nat, limit: nat)
    requires n <= |ops| && p.rateLimit == Some(limit)
    ensures WithinLimit(Run(p, start, ops, n).rows, limit)
  {
    if n > 0 {
      RunWithinLimit(p, start, ops, n - 1, limit);
      StepWithinLimit(p, Run(p, start, ops, n - 1), ops[n - 1], limit);
    }
  }

  // ---- No repeats within the window ----

  ghost predicate SameSubjects(a: Entry, b: Entry) {
    SameSubject(a, b.task, b.category, b.node)
  }

  ghost predicate NoRepeats(rows: seq<Entry>) {
    forall i, j :: 0 <= i < j < |rows| && SameSubjects(rows[i], rows[j]) && Live(rows[i]) && Live(rows[j]) ==>
      rows[j].createdAt - rows[i].createdAt > 3600
  }

  lemma {:induction false} StepNoRepeats(p: Profile, s: State, op: Op)
    requires NoRepeats(s.rows)
    ensures NoRepeats(Step(p, s, op).rows)
  {
    var rows, after := s.rows, Step(p, s, op).rows;
    StepOnward(p, s, op);
    forall i, j | 0 <= i < j < |after| && SameSubjects(after[i], after[j]) && Live(after[i]) && Live(after[j])
      ensures after[j].createdAt - after[i].createdAt > DEDUP_WINDOW_S
    {
      assert Onward(rows[i], after[i]);
      if j < |rows| {
        assert Onward(rows[j], after[j]);
        assert SameSubjects(rows[i], rows[j]);
      } else {
        assert op.Raise?;
        assert SameSubject(rows[i], op.task, op.flag.category, op.flag.node);
      }
    }
  }

  /** Two live rows on the same subject were created more than an hour apart, the later one behind the earlier. */
  lemma {:induction false} DedupHolds(p: Profile, start: State, ops: seq<Op>, n: nat)
    requires n <= |ops|
    ensures NoRepeats(Run(p, start, ops, n).rows)
  {
    if n > 0 {
      DedupHolds(p, start, ops, n - 1);
      StepNoRepeats(p, Run(p, start, ops, n - 1), ops[n - 1]);
    }
  }

  // ---- Escalation ----

  /** The shapes a row can have, whatever the clock does. */
  ghost predicate Shaped(row: Entry) {
    && (row.status == Waiting ==> row.escalatedAt == None && row.reEscalations == 0)
    && (row.status == Escalated ==> row.escalatedAt.Some?)
    && (row.status == Expired ==> row.severity == Low)
    && (row.severity == Low ==> row.reEscalations == 0)
    && (row.severity == Low && !row.blocking ==> row.status == Expired && row.escalatedAt == None)
  }

  ghost predicate AllShaped(rows: seq<Entry>) {
    forall i :: 0 <= i < |rows| ==> Shaped(rows[i])
  }

  lemma {:induction false} StepShaped(p: Profile, s: State, op: Op)
    requires AllShaped(s.rows)
    ensures AllShaped(Step(p, s, op).rows)
  {
    if op.Poll? {
      forall i | 0 <= i < |s.rows|
        ensures Shaped(s.rows[i]) && Shaped(NextRow(p, s.rows[i], op.now))
      {
        assert Shaped(s.rows[i]);
      }
    }
  }

  lemma {:induction false} RunShaped(p: Profile, start: State, ops: seq<Op>, n: nat)
    requires n <= |ops|
    ensures AllShaped(Run(p, start, ops, n).rows)
  {
    if n > 0 {
      RunShaped(p, start, ops, n - 1);
      StepShaped(p, Run(p, start, ops, n - 1), ops[n - 1]);
    }
  }

  /** Every high and medium row stays live for ever; a row that expired was low. */
  lemma {:induction false} OnlyLowExpires(p: Profile, start: State, ops: seq<Op>, m: nat, n: nat, i: nat)
    requires m <= n <= |ops| && i < |Run(p, start, ops, m).rows| && Run(p, start, ops, m).rows[i].severity != Low
    ensures i < |Run(p, start, ops, n).rows| && Live(Run(p, start, ops, n).rows[i])
  {
    RunOnward(p, start, ops, m, n);
    RunShaped(p, start, ops, n);
    assert Onward(Run(p, start, ops, m).rows[i], Run(p, start, ops, n).rows[i]);
  }

  /** Escalations keep their distance: a high row every `timeoutHigh`, a medium row after the digest window
      and then every two of them. */
  ghost predicate Timely(p: Profile, row: Entry, clock: int) {
    && 0 <= row.createdAt <= clock
    && (row.escalatedAt.Some? ==>
          && row.createdAt <= row.escalatedAt.value <= clock
          && (row.severity == High ==> row.createdAt + row.reEscalations * p.timeoutHigh <= row.escalatedAt.value)
          && (row.severity == Medium ==>
                row.createdAt + 900 + row.reEscalations * (p.timeoutHigh * 2) <= row.escalatedAt.value))
  }

  ghost predicate AllTimely(p: Profile, rows: seq<Entry>, clock: int) {
    forall i :: 0 <= i < |rows| ==> Timely(p, rows[i], clock)
  }

  ghost predicate Clocked(ops: seq<Op>) {
    && (forall i :: 0 <= i < |ops| ==> 0 <= ops[i].now)
    && forall i, j :: 0 <= i < j < |ops| ==> ops[i].now <= ops[j].now
  }

  function ClockAt(ops: seq<Op>, n: nat): int
    requires n <= |ops|
  {
    if n == 0 then 0 else ops[n - 1].now
  }

  lemma {:induction false} OneMoreWindow(start: int, count: nat, window: nat, last: int, now: int)
    requires start + count * window <= last && window <= now - last
    ensures start + (count + 1) * window <= now
  {
  }

  lemma {:induction false} NextRowTimely(p: Profile, row: Entry, clock: int, now: int)
    requires Shaped(row) && Timely(p, row, clock) && clock <= now
    ensures Timely(p, NextRow(p, row, now), now)
  {
    if ActionOf(p, row, now) == Escalate2 {
      if row.severity == High {
        OneMoreWindow(row.createdAt, row.reEscalations, p.timeoutHigh, EscalatedOr(row, now), now);
      } else {
        OneMoreWindow(row.createdAt + DIGEST_WINDOW_S, row.reEscalations, p.timeoutHigh * 2, EscalatedOr(row, now), now);
      }
    }
  }

  lemma {:induction false} StepTimely(p: Profile, s: State, op: Op, clock: int)
    requires AllShaped(s.rows) && AllTimely(p, s.rows, clock) && 0 <= clock <= op.now
    ensures AllTimely(p, Step(p, s, op).rows, op.now)
  {
    var after := Step(p, s, op).rows;
    forall i | 0 <= i < |after|
      ensures Timely(p, after[i], op.now)
    {
      if i < |s.rows| {
        assert Shaped(s.rows[i]) && Timely(p, s.rows[i], clock);
        if op.Poll? {
          NextRowTimely(p, s.rows[i], clock, op.now);
        }
      }
    }
  }

  lemma {:induction false} EscalationsKeepTheirDistance(p: Profile, start: State, ops: seq<Op>, n: nat)
    requires n <= |ops| && Clocked(ops)
    ensures AllTimely(p, Run(p, start, ops, n).rows, ClockAt(ops, n))
  {
    if n > 0 {
      EscalationsKeepTheirDistance(p, start, ops, n - 1);
      RunShaped(p, start, ops, n - 1);
      StepTimely(p, Run(p, start, ops, n - 1), ops[n - 1], ClockAt(ops, n - 1));
    }
  }

  /** Nothing is overdue after a poll. */
  lemma {:induction false} PollLeavesNothingOverdue(p: Profile, row: Entry, now: int)
    requires Shaped(row) && 0 < row.createdAt <= now && p.timeoutHigh > 0 && p.timeoutLow > 0
    ensures var after := NextRow(p, row, now);
      && (after.status == Waiting ==> after.severity == Medium && now - after.createdAt < 900)
      && (after.status == Escalated && after.escalatedAt.value > 0 ==>
            now - after.escalatedAt.value
              < match after.severity case High => p.timeoutHigh case Medium => p.timeoutHigh * 2 case Low => p.timeoutLow)
  {
  }

  lemma {:induction false} RowSettled(p: Profile, row: Entry, now: int)
    requires p.timeoutHigh > 0 && p.timeoutLow > 0 && now != 0
    ensures ActionOf(p, NextRow(p, row, now), now) == Wait
  {
  }

  /** With positive timeouts a second poll at the same time changes nothing and sends nothing. */
  lemma {:induction false} PollTwice(p: Profile, s: State, now: int)
    requires p.timeoutHigh > 0 && p.timeoutLow > 0 && now != 0
    ensures var once := Step(p, s, Poll(now)); Step(p, once, Poll(now)) == once
  {
    var n, once := Reached(p, s, now), Step(p, s, Poll(now));
    forall i | 0 <= i < n
      ensures ActionOf(p, once.rows[i], now) == Wait && NextRow(p, once.rows[i], now) == once.rows[i]
    {
      RowSettled(p, s.rows[i], now);
    }
    ReachIs(p, s.tasks, s.rows, |s.rows|, now);
    ReachAgain(p, s.tasks, once.rows, n, |s.rows|, now);
    NothingToDo(p, once.rows, once.nodes, n, now);
    assert Polled(p, once.rows, n, now) == once.rows;
  }

  lemma {:induction false} NothingToDo(p: Profile, rows: seq<Entry>, nodes: Nodes, n: nat, now: int)
    requires n <= |rows| && forall i :: 0 <= i < n ==> ActionOf(p, rows[i], now) == Wait
    ensures AlertsUpTo(p, rows, n, now) == [] && NodesUpTo(p, rows, nodes, n, now) == nodes
  {
    if n > 0 {
      NothingToDo(p, rows, nodes, n - 1, now);
    }
  }

  // ---- A poll that raises ----

  /** Where a poll ends: at the first row that raises, or behind the last one. */
  lemma {:induction false} ReachIs(p: Profile, tasks: Tasks, rows: seq<Entry>, n: nat, now: int)
    requires n <= |rows|
    ensures var r := Reach(p, tasks, rows, n, now);
      && (forall i :: 0 <= i < r ==> !Fails(p, tasks, rows[i], now))
      && (r < n ==> Fails(p, tasks, rows[r], now))
  {
    if n > 0 {
      ReachIs(p, tasks, rows, n - 1, now);
    }
  }

  lemma {:induction false} ReachAgain(p: Profile, tasks: Tasks, rows: seq<Entry>, r: nat, n: nat, now: int)
    requires r <= n <= |rows|
    requires forall i :: 0 <= i < r ==> !Fails(p, tasks, rows[i], now)
    requires r < n ==> Fails(p, tasks, rows[r], now)
    ensures Reach(p, tasks, rows, n, now) == r
  {
    ReachIs(p, tasks, rows, n, now);
  }

  /** A poll deals with every row exactly when no row that is due belongs to a task that does not exist. */
  lemma {:induction false} PollCompletes(p: Profile, s: State, now: int)
    ensures Reached(p, s, now) == |s.rows| <==>
      forall i :: 0 <= i < |s.rows| ==> !Fails(p, s.tasks, s.rows[i], now)
  {
    ReachIs(p, s.tasks, s.rows, |s.rows|, now);
  }

  ghost predicate Orphan(s: State, i: nat) {
    i < |s.rows| && s.rows[i].severity == High && s.rows[i].status == Waiting && s.rows[i].task !in s.tasks
  }

  /** A high row of a task that does not exist starves every row behind it, as long as nobody creates the task. */
  lemma {:induction false} OrphanStarves(p: Profile, start: State, ops: seq<Op>, m: nat, n: nat, i: nat, j: nat)
    requires m <= n <= |ops| && i < j < |Run(p, start, ops, m).rows| && Orphan(Run(p, start, ops, m), i)
    requires Run(p, start, ops, m).rows[i].task !in Run(p, start, ops, n).tasks
    ensures j < |Run(p, start, ops, n).rows| && Orphan(Run(p, start, ops, n), i)
    ensures Run(p, start, ops, n).rows[i] == Run(p, start, ops, m).rows[i]
    ensures Run(p, start, ops, n).rows[j] == Run(p, start, ops, m).rows[j]
  {
    if m < n {
      var s := Run(p, start, ops, n - 1);
      OrphanStarves(p, start, ops, m, n - 1, i, j);
      if ops[n - 1].Poll? {
        assert Fails(p, s.tasks, s.rows[i], ops[n - 1].now);
        ReachIs(p, s.tasks, s.rows, |s.rows|, ops[n - 1].now);
      }
    }
  }

  // ---- Alerts are accounted for ----

  /** One escalation for a row that was ever escalated, and its count of repeats. */
  function AlertsDue(row: Entry): multiset<Alert> {
    (if row.escalatedAt.Some? then multiset{Alert(Escalation, row.task, row.node, row.severity, row.category)} else multiset{})
    + multiset{}[Alert(ReEscalation, row.task, row.node, row.severity, row.category) := row.reEscalations]
  }

  function AllAlertsDue(rows: seq<Entry>, n: nat): multiset<Alert>
    requires n <= |rows|
  {
    if n == 0 then multiset{} else AllAlertsDue(rows, n - 1) + AlertsDue(rows[n - 1])
  }

  lemma {:induction false} ActionAlertsDue(p: Profile, row: Entry, now: int)
    requires Shaped(row)
    ensures AlertsDue(NextRow(p, row, now)) == AlertsDue(row) + multiset(AlertsOfAction(row, ActionOf(p, row, now)))
  {
    var after := NextRow(p, row, now);
    assert AlertFor(Escalation, after) == AlertFor(Escalation, row);
    assert AlertFor(ReEscalation, after) == AlertFor(ReEscalation, row);
  }

  lemma {:induction false} PollAlertsDue(p: Profile, rows: seq<Entry>, n: nat, reached: nat, now: int, after: seq<Entry>)
    requires n <= reached <= |rows| && AllShaped(rows) && PolledUpTo(p, rows, reached, now, after)
    ensures AllAlertsDue(after, n) == AllAlertsDue(rows, n) + multiset(AlertsUpTo(p, rows, n, now))
  {
    if n > 0 {
      PollAlertsDue(p, rows, n - 1, reached, now, after);
      var row := rows[n - 1];
      ActionAlertsDue(p, row, now);
      MultisetConcat(AlertsUpTo(p, rows, n - 1, now), AlertsOfAction(row, ActionOf(p, row, now)));
    }
  }

  lemma {:induction false} MultisetConcat(a: seq<Alert>, b: seq<Alert>)
    ensures multiset(a + b) == multiset(a) + multiset(b)
  {
  }

  lemma {:induction false} MultisetSwap(a: multiset<Alert>, b: multiset<Alert>, c: multiset<Alert>)
    ensures a + b + c == a + c + b
  {
  }

  lemma {:induction false} AlertsDueFrame(rows: seq<Entry>, after: seq<Entry>, n: nat)
    requires n <= |rows| && n <= |after| && forall i :: 0 <= i < n ==> after[i] == rows[i]
    ensures AllAlertsDue(after, n) == AllAlertsDue(rows, n)
  {
    if n > 0 {
      AlertsDueFrame(rows, after, n - 1);
    }
  }

  /** Rows that the poll did not reach add the same on both sides. */
  lemma {:induction false} AlertsDueTail(rows: seq<Entry>, after: seq<Entry>, n: nat, m: nat, sent: multiset<Alert>)
    requires n <= m <= |rows| == |after| && forall i :: n <= i < m ==> after[i] == rows[i]
    requires AllAlertsDue(after, n) == AllAlertsDue(rows, n) + sent
    ensures AllAlertsDue(after, m) == AllAlertsDue(rows, m) + sent
  {
    if n < m {
      AlertsDueTail(rows, after, n, m - 1, sent);
      var before, row := AllAlertsDue(rows, m - 1), AlertsDue(rows[m - 1]);
      calc {
        AllAlertsDue(after, m);
        before + sent + row;
        { MultisetSwap(before, sent, row); }
        before + row + sent;
        AllAlertsDue(rows, m) + sent;
      }
    }
  }

  lemma {:induction false} AppendDue(rows: seq<Entry>, row: Entry)
    requires row.escalatedAt == None && row.reEscalations == 0
    ensures AllAlertsDue(rows + [row], |rows| + 1) == AllAlertsDue(rows, |rows|)
  {
    AlertsDueFrame(rows, rows + [row], |rows|);
    assert (rows + [row])[|rows|] == row;
    assert AlertsDue(row) == multiset{};
  }

  ghost predicate Accounted(s: State) {
    multiset(s.alerts) == AllAlertsDue(s.rows, |s.rows|)
  }

  lemma {:induction false} PollAccounted(p: Profile, s: State, now: int)
    requires AllShaped(s.rows) && Accounted(s)
    ensures Accounted(Step(p, s, Poll(now)))
  {
    var n, after := Reached(p, s, now), Polled(p, s.rows, Reached(p, s, now), now);
    PollAlertsDue(p, s.rows, n, n, now, after);
    AlertsDueTail(s.rows, after, n, |s.rows|, multiset(AlertsUpTo(p, s.rows, n, now)));
    MultisetConcat(s.alerts, AlertsUpTo(p, s.rows, n, now));
  }

  lemma {:induction false} RaiseAccounted(p: Profile, s: State, now: int, flag: Flag, task: string)
    requires Accounted(s)
    ensures Accounted(Step(p, s, Raise(now, flag, task)))
  {
    if !Swallowed(p, s.rows, flag, task, now) {
      AppendDue(s.rows, NewRow(p, flag, task, now));
    }
  }

  lemma {:induction false} StepAccounted(p: Profile, s: State, op: Op)
    requires AllShaped(s.rows) && Accounted(s)
    ensures Accounted(Step(p, s, op))
  {
    match op
    case Raise(now, flag, task) => RaiseAccounted(p, s, now, flag, task);
    case Poll(now) => PollAccounted(p, s, now);
    case _ =>
  }

  /** The alerts sent are exactly the ones the rows account for. */
  lemma {:induction false} AlertsAccountedFor(p: Profile, start: State, ops: seq<Op>, n: nat)
    requires n <= |ops|
    ensures Accounted(Run(p, start, ops, n))
  {
    if n > 0 {
      AlertsAccountedFor(p, start, ops, n - 1);
      RunShaped(p, start, ops, n - 1);
      StepAccounted(p, Run(p, start, ops, n - 1), ops[n - 1]);
    }
  }

  // ---- Blocked nodes ----

  ghost predicate Blocks(row: Entry, key: NodeKey) {
    row.blocking && row.task == key.task && row.node == Some(key.node)
  }

  /** Every node that a live row blocks is blocked. */
  ghost predicate BlocksHold(rows: seq<Entry>, nodes: Nodes) {
    forall i, key :: 0 <= i < |rows| && Blocks(rows[i], key) && Live(rows[i]) && key in nodes ==> nodes[key] == Blocked
  }

  lemma {:induction false} FlagsKeepBlocks(p: Profile, s: State, now: int, flag: Flag, task: string)
    requires BlocksHold(s.rows, s.nodes)
    ensures var after := Step(p, s, Raise(now, flag, task)); BlocksHold(after.rows, after.nodes)
  {
  }

  ghost predicate Releases(p: Profile, row: Entry, key: NodeKey, now: int) {
    Unblocks(row, ActionOf(p, row, now)) && key == NodeKey(row.task, row.node.value)
  }

  lemma {:induction false} PolledNodes(p: Profile, rows: seq<Entry>, nodes: Nodes, n: nat, now: int, key: NodeKey)
    requires n <= |rows|
    ensures key in NodesUpTo(p, rows, nodes, n, now) <==> key in nodes
    ensures key in nodes ==>
      NodesUpTo(p, rows, nodes, n, now)[key]
      == if exists i :: 0 <= i < n && Releases(p, rows[i], key, now) then Provisional else nodes[key]
  {
    if n > 0 {
      PolledNodes(p, rows, nodes, n - 1, now, key);
      if Releases(p, rows[n - 1], key, now) {
        assert exists i :: 0 <= i < n && Releases(p, rows[i], key, now);
      } else if i :| 0 <= i < n && Releases(p, rows[i], key, now) {
        assert 0 <= i < n - 1;
      }
    }
  }

  /** The row is dealt with by the poll and releases the node. */
  ghost predicate ReleasedBy(p: Profile, s: State, key: NodeKey, now: int, i: int) {
    0 <= i < Reached(p, s, now) && Releases(p, s.rows[i], key, now)
  }

  /** A low row times out and gives back a node that another live row still blocks. */
  ghost predicate ReleasedUnderneath(p: Profile, s: State, now: int) {
    exists i, j, key ::
      && ReleasedBy(p, s, key, now, i) && key in s.nodes
      && 0 <= j < |s.rows| && Blocks(s.rows[j], key) && Live(Polled(p, s.rows, Reached(p, s, now), now)[j])
  }

  lemma {:induction false} UnderneathBreaks(p: Profile, s: State, now: int)
    requires ReleasedUnderneath(p, s, now)
    ensures var after := Step(p, s, Poll(now)); !BlocksHold(after.rows, after.nodes)
  {
    var after := Step(p, s, Poll(now));
    var i, j, key :| ReleasedBy(p, s, key, now, i) && key in s.nodes
                     && 0 <= j < |s.rows| && Blocks(s.rows[j], key)
                     && Live(Polled(p, s.rows, Reached(p, s, now), now)[j]);
    PolledNodes(p, s.rows, s.nodes, Reached(p, s, now), now, key);
    assert Blocks(after.rows[j], key);
  }

  /** A poll keeps every blocked node blocked, unless a low row times out underneath another one. */
  lemma {:induction false} PollKeepsBlocks(p: Profile, s: State, now: int)
    requires BlocksHold(s.rows, s.nodes)
    ensures var after := Step(p, s, Poll(now));
      BlocksHold(after.rows, after.nodes) <==> !ReleasedUnderneath(p, s, now)
  {
    var after := Step(p, s, Poll(now));
    if ReleasedUnderneath(p, s, now) {
      UnderneathBreaks(p, s, now);
    } else {
      forall j, key | 0 <= j < |after.rows| && Blocks(after.rows[j], key) && Live(after.rows[j]) && key in after.nodes
        ensures after.nodes[key] == Blocked
      {
        PolledNodes(p, s.rows, s.nodes, Reached(p, s, now), now, key);
        assert Blocks(s.rows[j], key) && Live(s.rows[j]);
        assert forall i :: 0 <= i < Reached(p, s, now) && Releases(p, s.rows[i], key, now) ==> ReleasedBy(p, s, key, now, i);
      }
    }
  }

  lemma {:induction false} PollReleases(p: Profile, s: State, key: NodeKey, now: int)
    requires Reached(p, s, now) == |s.rows| == 2 && key in s.nodes && Releases(p, s.rows[0], key, now)
    ensures var after := Step(p, s, Poll(now)).nodes; key in after && after[key] == Provisional
  {
    PolledNodes(p, s.rows, s.nodes, 2, now, key);
  }

  // ---- Low rows expire late ----

  /** The low timeout is over: it runs from the escalation or else from the creation; a time of zero is missing. */
  ghost predicate TimedOut(p: Profile, row: Entry, now: int) {
    if row.escalatedAt.Some? && row.escalatedAt.value != 0 then row.escalatedAt.value + p.timeoutLow <= now
    else if row.createdAt != 0 then row.createdAt + p.timeoutLow <= now
    else p.timeoutLow == 0
  }

  /** A poll lets an escalated low row expire when its timeout is over, and leaves it as it is before. */
  lemma {:induction false} PollTreatsLow(p: Profile, s: State, now: int, i: nat)
    requires i < |s.rows| && s.rows[i].severity == Low && s.rows[i].status == Escalated
    ensures Step(p, s, Poll(now)).rows[i] ==
      if i < Reached(p, s, now) && TimedOut(p, s.rows[i], now) then s.rows[i].(status := Expired) else s.rows[i]
  {
  }

  /** The row blocks the node and the poll lets it expire. */
  ghost predicate ExpiresOn(before: seq<Entry>, after: seq<Entry>, j: int, key: NodeKey) {
    && 0 <= j < |before| == |after| && before[j].status != Expired && after[j].status == Expired
    && before[j].blocking && before[j].task == key.task && before[j].node == Some(key.node)
  }

  /** A poll gives back exactly the nodes on which a row expires. */
  lemma {:induction false} PollGivesBack(p: Profile, s: State, now: int, key: NodeKey)
    requires key in s.nodes && key.task != "" && key.node != ""
    ensures var after := Step(p, s, Poll(now));
      key in after.nodes
      && after.nodes[key] == if exists j :: ExpiresOn(s.rows, after.rows, j, key) then Provisional else s.nodes[key]
  {
    var n, after := Reached(p, s, now), Step(p, s, Poll(now));
    PolledNodes(p, s.rows, s.nodes, n, now, key);
    forall j
      ensures 0 <= j < n && Releases(p, s.rows[j], key, now) <==> ExpiresOn(s.rows, after.rows, j, key)
    {
      if 0 <= j < |s.rows| {
        assert after.rows[j] == if j < n then NextRow(p, s.rows[j], now) else s.rows[j];
      }
    }
  }

  /** Before its timeout a low row stays as it is, and its node comes back only if another row expires on it. */
  lemma {:induction false} EarlyPollLeavesLow(p: Profile, s: State, now: int, i: nat, key: NodeKey)
    requires i < |s.rows| && s.rows[i].severity == Low && s.rows[i].status == Escalated && !TimedOut(p, s.rows[i], now)
    requires Blocks(s.rows[i], key) && key in s.nodes && key.task != "" && key.node != ""
    ensures var after := Step(p, s, Poll(now));
      && after.rows[i] == s.rows[i]
      && key in after.nodes
      && (after.nodes[key] != s.nodes[key] ==> exists j :: j != i && ExpiresOn(s.rows, after.rows, j, key))
  {
    PollTreatsLow(p, s, now, i);
    PollGivesBack(p, s, now, key);
  }

  /** No row expires but an escalated low one whose timeout is over. */
  lemma {:induction false} StepExpiresLate(p: Profile, s: State, op: Op, i: nat)
    requires AllShaped(s.rows) && i < |s.rows| && s.rows[i].status != Expired
    ensures i < |Step(p, s, op).rows|
    ensures Step(p, s, op).rows[i].status == Expired ==>
      op.Poll? && s.rows[i].severity == Low && s.rows[i].status == Escalated && TimedOut(p, s.rows[i], op.now)
    ensures s.rows[i].severity == Low && s.rows[i].status == Escalated && Step(p, s, op).rows[i].status != Expired ==>
      Step(p, s, op).rows[i] == s.rows[i]
  {
    assert Shaped(s.rows[i]);
    if op.Poll? && s.rows[i].severity == Low && s.rows[i].status == Escalated {
      PollTreatsLow(p, s, op.now, i);
    }
  }

  /**
   Over any run a live row that has expired later was low and escalated, and a
   poll let it expire whose clock was past the escalation by the low timeout or
   more; until then an escalated one does not change.
   */
  lemma {:induction false} LowRowsExpireLate(p: Profile, start: State, ops: seq<Op>, m: nat, n: nat, i: nat) returns (k: nat)
    requires m <= n <= |ops| && i < |Run(p, start, ops, m).rows| && Run(p, start, ops, m).rows[i].status != Expired
    requires i < |Run(p, start, ops, n).rows| && Run(p, start, ops, n).rows[i].status == Expired
    ensures m <= k < n && ops[k].Poll? && i < |Run(p, start, ops, k).rows|
    ensures var row := Run(p, start, ops, k).rows[i];
      row.severity == Low && row.status == Escalated && TimedOut(p, row, ops[k].now)
      && (Run(p, start, ops, m).rows[i].status == Escalated ==> row == Run(p, start, ops, m).rows[i])
    decreases n - m
  {
    var row := Run(p, start, ops, m).rows[i];
    var next := NextRowOf(p, start, ops, m, i);
    if next.status == Expired {
      k := m;
    } else {
      if row.status == Escalated && row.severity != Low {
        OnlyLowExpires(p, start, ops, m, n, i);
      }
      k := LowRowsExpireLate(p, start, ops, m + 1, n, i);
    }
  }

  lemma {:induction false} NextRowOf(p: Profile, start: State, ops: seq<Op>, m: nat, i: nat) returns (next: Entry)
    requires m < |ops| && i < |Run(p, start, ops, m).rows| && Run(p, start, ops, m).rows[i].status != Expired
    ensures i < |Run(p, start, ops, m + 1).rows| && next == Run(p, start, ops, m + 1).rows[i]
    ensures var row := Run(p, start, ops, m).rows[i];
      && (next.status == Expired ==>
            ops[m].Poll? && row.severity == Low && row.status == Escalated && TimedOut(p, row, ops[m].now))
      && (row.severity == Low && row.status == Escalated && next.status != Expired ==> next == row)
  {
    var s := Run(p, start, ops, m);
    RunShaped(p, start, ops, m);
    StepExpiresLate(p, s, ops[m], i);
    assert Run(p, start, ops, m + 1) == Step(p, s, ops[m]);
    next := Run(p, start, ops, m + 1).rows[i];
  }

  const LOW_FLAG := Flag(Low, "timing", Some("dispatched"))
  const HIGH_FLAG := Flag(High, "quantity", Some("dispatched"))
  const DISPATCHED := NodeKey("task_001", "dispatched")

  function TwoFlags(): seq<Op> {
    [Raise(1000, LOW_FLAG, "task_001"), Raise(1000, HIGH_FLAG, "task_001"), Poll(1000), Poll(15400)]
  }

  function OneTask(row: Task): State {
    State([], [], map[DISPATCHED := Pending], map["task_001" := row])
  }

  lemma {:induction false} TwoFlagsQueued(p: Profile, row: Task)
    requires !p.silentResolutionAllowed && p.rateLimit == None
    ensures Run(p, OneTask(row), TwoFlags(), 2)
      == OneTask(row).(rows := [NewRow(p, LOW_FLAG, "task_001", 1000), NewRow(p, HIGH_FLAG, "task_001", 1000)],
                       nodes := map[DISPATCHED := Blocked])
  {
    var s1, s2 := Run(p, OneTask(row), TwoFlags(), 1), Run(p, OneTask(row), TwoFlags(), 2);
    assert s1 == Step(p, Run(p, OneTask(row), TwoFlags(), 0), TwoFlags()[0]);
    assert s1.rows == [NewRow(p, LOW_FLAG, "task_001", 1000)];
    assert s2 == Step(p, s1, TwoFlags()[1]);
    assert s2.rows == [s1.rows[0], NewRow(p, HIGH_FLAG, "task_001", 1000)];
  }

  lemma {:induction false} TwoFlagsEscalated(p: Profile, row: Task)
    requires !p.silentResolutionAllowed && p.rateLimit == None
    ensures var s, rows := Run(p, OneTask(row), TwoFlags(), 3), Run(p, OneTask(row), TwoFlags(), 2).rows;
      && |rows| == 2 && s.rows == [AfterAction(rows[0], Escalate, 1000), AfterAction(rows[1], Escalate, 1000)]
      && s.tasks == OneTask(row).tasks && DISPATCHED in s.nodes
  {
    TwoFlagsQueued(p, row);
    var s2, s3 := Run(p, OneTask(row), TwoFlags(), 2), Run(p, OneTask(row), TwoFlags(), 3);
    PollCompletes(p, s2, 1000);
    assert s3 == Step(p, s2, TwoFlags()[2]);
    PolledNodes(p, s2.rows, s2.nodes, 2, 1000, DISPATCHED);
  }

  /** It does happen: a low and a high flag on the same node, one poll, and a poll after the low timeout. */
  lemma {:induction false} BlockedNodeReleased(p: Profile, row: Task)
    requires !p.silentResolutionAllowed && p.rateLimit == None && p.timeoutLow == 14400 && p.timeoutHigh == 1800
    ensures var s := Run(p, OneTask(row), TwoFlags(), 4);
      && |s.rows| == 2 && s.rows[1].severity == High && Live(s.rows[1]) && Blocks(s.rows[1], DISPATCHED)
      && DISPATCHED in s.nodes && s.nodes[DISPATCHED] == Provisional
  {
    TwoFlagsQueued(p, row);
    TwoFlagsEscalated(p, row);
    var s3 := Run(p, OneTask(row), TwoFlags(), 3);
    PollCompletes(p, s3, 15400);
    assert Releases(p, s3.rows[0], DISPATCHED, 15400);
    PollReleases(p, s3, DISPATCHED, 15400);
    assert Run(p, OneTask(row), TwoFlags(), 4) == Step(p, s3, TwoFlags()[3]);
  }

  /** A high flag for a task that does not exist, another one, and as many polls as you like. */
  function OrphanFlags(polls: seq<int>): seq<Op> {
    [Raise(1000, HIGH_FLAG, "no_task"), Raise(1000, HIGH_FLAG, "task_001")]
    + seq(|polls|, i requires 0 <= i < |polls| => Poll(polls[i]))
  }

  lemma {:induction false} OrphanQueued(p: Profile, row: Task, polls: seq<int>)
    requires p.rateLimit.Some? ==> p.rateLimit.value > 0
    ensures var s := Run(p, OneTask(row), OrphanFlags(polls), 2);
      && s.rows == [NewRow(p, HIGH_FLAG, "no_task", 1000), NewRow(p, HIGH_FLAG, "task_001", 1000)]
      && s.tasks == OneTask(row).tasks && s.alerts == []
  {
    var ops := OrphanFlags(polls);
    var s0, s1, s2 := Run(p, OneTask(row), ops, 0), Run(p, OneTask(row), ops, 1), Run(p, OneTask(row), ops, 2);
    assert s1 == Step(p, s0, ops[0]);
    assert !Swallowed(p, s0.rows, HIGH_FLAG, "no_task", 1000);
    assert s1.rows == [NewRow(p, HIGH_FLAG, "no_task", 1000)];
    assert s2 == Step(p, s1, ops[1]);
    assert CountSince(s1.rows, 1, "task_001", 1000 - RATE_WINDOW_S) == 0;
    assert !Swallowed(p, s1.rows, HIGH_FLAG, "task_001", 1000);
  }

  lemma {:induction false} OrphanPoll(polls: seq<int>, k: nat)
    requires k < |polls|
    ensures |OrphanFlags(polls)| == |polls| + 2 && OrphanFlags(polls)[k + 2] == Poll(polls[k])
  {
  }

  lemma {:induction false} PollKeepsShape(p: Profile, s: State, now: int)
    ensures var after := Step(p, s, Poll(now)); after.tasks == s.tasks && |after.rows| == |s.rows|
  {
  }

  lemma {:induction false} PollsKeepTasks(p: Profile, row: Task, polls: seq<int>, n: nat)
    requires n <= |polls|
    ensures Run(p, OneTask(row), OrphanFlags(polls), n + 2).tasks == OneTask(row).tasks
    ensures |Run(p, OneTask(row), OrphanFlags(polls), n + 2).rows| == |Run(p, OneTask(row), OrphanFlags(polls), 2).rows|
  {
    var ops := OrphanFlags(polls);
    assert Run(p, OneTask(row), ops, 2) == Step(p, Step(p, Run(p, OneTask(row), ops, 0), ops[0]), ops[1]);
    for k := 0 to n
      invariant Run(p, OneTask(row), ops, k + 2).tasks == OneTask(row).tasks
      invariant |Run(p, OneTask(row), ops, k + 2).rows| == |Run(p, OneTask(row), ops, 2).rows|
    {
      OrphanPoll(polls, k);
      PollKeepsShape(p, Run(p, OneTask(row), ops, k + 2), polls[k]);
      assert Run(p, OneTask(row), ops, k + 3) == Step(p, Run(p, OneTask(row), ops, k + 2), Poll(polls[k]));
    }
  }

  /** It does happen: the second flag is due at every poll, and no poll ever escalates it. */
  lemma {:induction false} OrphanArises(p: Profile, row: Task, polls: seq<int>)
    requires p.rateLimit.Some? ==> p.rateLimit.value > 0
    ensures var s, ops := Run(p, OneTask(row), OrphanFlags(polls), 2), OrphanFlags(polls);
      && |s.rows| == 2 && Orphan(s, 0) && s.rows[1].task in s.tasks
      && Run(p, OneTask(row), ops, |ops|).rows == s.rows
      && forall now :: ActionOf(p, s.rows[1], now) == Escalate
  {
    var ops := OrphanFlags(polls);
    OrphanQueued(p, row, polls);
    PollsKeepTasks(p, row, polls, |polls|);
    OrphanStarves(p, OneTask(row), ops, 2, |ops|, 0, 1);
  }
}
