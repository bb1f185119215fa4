/**
 Ambiguity flags: the producer that queues them, with its window of silence for
 repeats and its rate limit, and the polling worker that escalates, escalates
 again and lets low ones expire.  A poll reads the live rows once and then
 treats them in order; an alert for a task that does not exist raises, and the
 poll ends there.
 */
module AmbiguityQueue {
  import opened Options
  import opened Severities
  import opened Database

  const DEDUP_WINDOW_S := 3600
  const RATE_WINDOW_S := 3600
  const DIGEST_WINDOW_S := 900
  const GATE_NODES := {"order_confirmation", "order_ready", "dispatched", "supplier_QC"}

  datatype Profile = Profile(
    silentResolutionAllowed: bool, rateLimit: Option<nat>, timeoutHigh: nat, timeoutLow: nat,
    targetHigh: seq<string>, targetLow: seq<string>)

  datatype Flag = Flag(severity: Severity, category: string, node: Option<string>)

  predicate Live(row: Entry) {
    row.status != Expired
  }

  // ---- The producer ----

  predicate ShouldBlock(p: Profile, flag: Flag) {
    flag.node.Some? && flag.node.value in GATE_NODES && !p.silentResolutionAllowed
  }

  predicate SameSubject(row: Entry, task: string, category: string, node: Option<string>) {
    row.task == task && row.category == category && row.node == node
  }

  /** A live row on the same subject, not older than the window. */
  predicate IsDuplicate(rows: seq<Entry>, task: string, flag: Flag, now: int) {
    exists i :: 0 <= i < |rows| &&
      SameSubject(rows[i], task, flag.category, flag.node) && rows[i].createdAt >= now - DEDUP_WINDOW_S && Live(rows[i])
  }

  /** The rows of the task among the first n that were created at `since` or later. */
  function CountSince(rows: seq<Entry>, n: nat, task: string, since: int): nat
    requires n <= |rows|
  {
    if n == 0 then 0
    else
      CountSince(rows, n - 1, task, since)
      + if rows[n - 1].task == task && rows[n - 1].createdAt >= since then 1 else 0
  }

  predicate RateLimited(p: Profile, rows: seq<Entry>, task: string, now: int) {
    p.rateLimit.Some? && CountSince(rows, |rows|, task, now - RATE_WINDOW_S) >= p.rateLimit.value
  }

  function NewRow(p: Profile, flag: Flag, task: string, now: int): Entry {
    Entry(task, flag.node, flag.severity, flag.category,
          if flag.severity == Low then p.targetLow else p.targetHigh,
          ShouldBlock(p, flag),
          if flag.severity == Low && !ShouldBlock(p, flag) then Expired else Waiting,
          now, None, 0)
  }

  /** The flag is swallowed: a repeat, or over the limit and not blocking. */
  predicate Swallowed(p: Profile, rows: seq<Entry>, flag: Flag, task: string, now: int) {
    IsDuplicate(rows, task, flag, now) || (!ShouldBlock(p, flag) && RateLimited(p, rows, task, now))
  }

  function RowsAfterFlag(p: Profile, rows: seq<Entry>, flag: Flag, task: string, now: int): seq<Entry> {
    if Swallowed(p, rows, flag, task, now) then rows else rows + [NewRow(p, flag, task, now)]
  }

  function NodesAfterFlag(p: Profile, rows: seq<Entry>, nodes: Nodes, flag: Flag, task: string, now: int): Nodes {
    if ShouldBlock(p, flag) && !Swallowed(p, rows, flag, task, now)
    then SetNode(nodes, NodeKey(task, flag.node.value), Blocked)
    else nodes
  }

  method CheckDuplicate(db: Db, task: string, flag: Flag, now: int) returns (found: bool)
    ensures found == IsDuplicate(db.queue, task, flag, now)
  {
    var cutoff := now - DEDUP_WINDOW_S;
    for i := 0 to |db.queue|
      invariant forall k :: 0 <= k < i ==>
        !(SameSubject(db.queue[k], task, flag.category, flag.node) && db.queue[k].createdAt >= cutoff && Live(db.queue[k]))
    {
      var row := db.queue[i];
      if row.task == task && row.category == flag.category && row.node == flag.node
         && row.createdAt >= cutoff && row.status != Expired
      {
        return true;
      }
    }
    return false;
  }

  method CheckRateLimit(p: Profile, db: Db, task: string, now: int) returns (limited: bool)
    ensures limited == RateLimited(p, db.queue, task, now)
  {
    if p.rateLimit == None {
      return false;
    }
    var cutoff, count := now - RATE_WINDOW_S, 0;
    for i := 0 to |db.queue|
      invariant count == CountSince(db.queue, i, task, cutoff)
    {
      if db.queue[i].task == task && db.queue[i].createdAt >= cutoff {
        count := count + 1;
      }
    }
    limited := count >= p.rateLimit.value;
  }

  method HandleAmbiguity(p: Profile, db: Db, flag: Flag, task: string, now: int)
    modifies db`queue, db`nodes
    ensures db.queue == RowsAfterFlag(p, old(db.queue), flag, task, now)
    ensures db.nodes == NodesAfterFlag(p, old(db.queue), old(db.nodes), flag, task, now)
  {
    var target := p.targetLow;
    if flag.severity in {High, Medium} {
      target := p.targetHigh;
    }
    var shouldBlock := flag.node != None && flag.node.value in GATE_NODES && !p.silentResolutionAllowed;
    var duplicate := CheckDuplicate(db, task, flag, now);
    if duplicate {
      return;
    }
    if !shouldBlock {
      var limited := CheckRateLimit(p, db, task, now);
      if limited {
        return;
      }
    }
    if flag.severity == Low && !shouldBlock {
      db.queue := db.queue + [Entry(task, flag.node, flag.severity, flag.category, target, false, Expired, now, None, 0)];
      return;
    }
    db.queue := db.queue
      + [Entry(task, flag.node, flag.severity, flag.category, target, shouldBlock, Waiting, now, None, 0)];
    if shouldBlock {
      db.UpdateNode(task, flag.node.value, Blocked);
    }
  }

  // ---- What becomes of a flag, read off the queue ----

  /** A live row of the last hour on the same task, category and node. */
  ghost predicate HasLiveRepeat(rows: seq<Entry>, flag: Flag, task: string, now: int) {
    exists i :: 0 <= i < |rows|
      && rows[i].task == task && rows[i].category == flag.category && rows[i].node == flag.node
      && (rows[i].status == Waiting || rows[i].status == Escalated) && now - rows[i].createdAt <= 3600
  }

  /** The positions of the rows of a task from the last hour, among the first n. */
  function LastHour(rows: seq<Entry>, n: nat, task: string, now: int): set<int>
    requires n <= |rows|
  {
    set i | 0 <= i < n && rows[i].task == task && now - rows[i].createdAt <= 3600
  }

  ghost predicate AtLimit(p: Profile, rows: seq<Entry>, task: string, now: int) {
    p.rateLimit.Some? && |LastHour(rows, |rows|, task, now)| >= p.rateLimit.value
  }

  /** The flag blocks a gate, and nothing may be resolved in silence. */
  ghost predicate StopsGate(p: Profile, flag: Flag) {
    && !p.silentResolutionAllowed
    && (|| flag.node == Some("order_confirmation") || flag.node == Some("order_ready")
        || flag.node == Some("dispatched") || flag.node == Some("supplier_QC"))
  }

  /** The row of a flag: it waits, but a low one that blocks nothing is resolved at once. */
  ghost predicate RowOfFlag(p: Profile, flag: Flag, task: string, now: int, row: Entry) {
    && row.task == task && row.node == flag.node && row.severity == flag.severity && row.category == flag.category
    && row.createdAt == now && row.escalatedAt == None && row.reEscalations == 0
    && row.target == (if flag.severity == High || flag.severity == Medium then p.targetHigh else p.targetLow)
    && (row.blocking <==> StopsGate(p, flag))
    && row.status == if flag.severity == Low && !StopsGate(p, flag) then Expired else Waiting
  }

  lemma {:induction false} CountIsLastHour(rows: seq<Entry>, n: nat, task: string, now: int)
    requires n <= |rows|
    ensures CountSince(rows, n, task, now - RATE_WINDOW_S) == |LastHour(rows, n, task, now)|
  {
    if n == 0 {
      assert LastHour(rows, 0, task, now) == {};
    } else {
      CountIsLastHour(rows, n - 1, task, now);
      var before := LastHour(rows, n - 1, task, now);
      if n - 1 in LastHour(rows, n, task, now) {
        assert LastHour(rows, n, task, now) == before + {n - 1};
      } else {
        assert LastHour(rows, n, task, now) == before;
      }
    }
  }

  /**
   A flag without a live repeat, which blocks a gate or finds its task under the
   limit, is queued once behind the others, and a gate it blocks reads blocked;
   any other flag leaves no trace.
   */
  lemma {:induction false} FlagIsQueued(p: Profile, rows: seq<Entry>, nodes: Nodes, flag: Flag, task: string, now: int)
    ensures var after, nodesAfter := RowsAfterFlag(p, rows, flag, task, now), NodesAfterFlag(p, rows, nodes, flag, task, now);
      if HasLiveRepeat(rows, flag, task, now) || (!StopsGate(p, flag) && AtLimit(p, rows, task, now)) then
        after == rows && nodesAfter == nodes
      else
        && |after| == |rows| + 1 && after[..|rows|] == rows && RowOfFlag(p, flag, task, now, after[|rows|])
        && nodesAfter.Keys == nodes.Keys
        && forall key :: key in nodes ==>
             nodesAfter[key] == if StopsGate(p, flag) && key.task == task && flag.node == Some(key.node) then Blocked
                                else nodes[key]
  {
    CountIsLastHour(rows, |rows|, task, now);
    assert IsDuplicate(rows, task, flag, now) <==> HasLiveRepeat(rows, flag, task, now);
  }

  // ---- The polling worker ----

  datatype Action = Wait | Escalate | Escalate2 | Resolve

  /** Python's `created_at or now`: a zero counts as missing. */
  function CreatedOr(row: Entry, now: int): int {
    if row.createdAt == 0 then now else row.createdAt
  }

  /** `escalated_at or created_at` */
  function EscalatedOr(row: Entry, now: int): int {
    if row.escalatedAt.Some? && row.escalatedAt.value != 0 then row.escalatedAt.value else CreatedOr(row, now)
  }

  /** What one poll does to a row. */
  function ActionOf(p: Profile, row: Entry, now: int): Action {
    match row.status
    case Waiting =>
      (match row.severity
       case High => Escalate
       case Medium => if now - CreatedOr(row, now) >= DIGEST_WINDOW_S then Escalate else Wait
       case Low => if row.blocking then Escalate else Resolve)
    case Escalated =>
      var age := now - EscalatedOr(row, now);
      (match row.severity
       case High => if age >= p.timeoutHigh then Escalate2 else Wait
       case Medium => if age >= p.timeoutHigh * 2 then Escalate2 else Wait
       case Low => if age >= p.timeoutLow then Resolve else Wait)
    case Expired => Wait
  }

  function AfterAction(row: Entry, action: Action, now: int): Entry {
    match action
    case Wait => row
    case Escalate => row.(status := Escalated, escalatedAt := Some(now))
    case Escalate2 => row.(escalatedAt := Some(now), reEscalations := row.reEscalations + 1)
    case Resolve => row.(status := Expired)
  }

  function NextRow(p: Profile, row: Entry, now: int): Entry {
    AfterAction(row, ActionOf(p, row, now), now)
  }

  function AlertFor(kind: AlertKind, row: Entry): Alert {
    Alert(kind, row.task, row.node, row.severity, row.category)
  }

  function AlertsOfAction(row: Entry, action: Action): seq<Alert> {
    match action
    case Escalate => [AlertFor(Escalation, row)]
    case Escalate2 => [AlertFor(ReEscalation, row)]
    case _ => []
  }

  /** A resolved blocking row gives its node back as provisional, if row and node are named. */
  predicate Unblocks(row: Entry, action: Action) {
    action == Resolve && row.blocking && row.node.Some? && row.node.value != "" && row.task != ""
  }

  function NodesAfterAction(nodes: Nodes, row: Entry, action: Action): Nodes {
    if Unblocks(row, action) then SetNode(nodes, NodeKey(row.task, row.node.value), Provisional) else nodes
  }

  /** The alert row refers to its task, so an escalation for a task that does not exist raises. */
  predicate Fails(p: Profile, tasks: Tasks, row: Entry, now: int) {
    ActionOf(p, row, now) in {Escalate, Escalate2} && row.task !in tasks
  }

  /** How many of the first n rows a poll deals with: it ends at the first one that raises. */
  function Reach(p: Profile, tasks: Tasks, rows: seq<Entry>, n: nat, now: int): (reached: nat)
    requires n <= |rows|
    ensures reached <= n
  {
    if n == 0 then 0
    else
      var before := Reach(p, tasks, rows, n - 1, now);
      if before == n - 1 && !Fails(p, tasks, rows[n - 1], now) then n else before
  }

  function AlertsUpTo(p: Profile, rows: seq<Entry>, n: nat, now: int): seq<Alert>
    requires n <= |rows|
  {
    if n == 0 then []
    else AlertsUpTo(p, rows, n - 1, now) + AlertsOfAction(rows[n - 1], ActionOf(p, rows[n - 1], now))
  }

  function NodesUpTo(p: Profile, rows: seq<Entry>, nodes: Nodes, n: nat, now: int): Nodes
    requires n <= |rows|
  {
    if n == 0 then nodes
    else NodesAfterAction(NodesUpTo(p, rows, nodes, n - 1, now), rows[n - 1], ActionOf(p, rows[n - 1], now))
  }

  /** The rows after a poll that has dealt with the first n. */
  ghost predicate PolledUpTo(p: Profile, rows: seq<Entry>, n: nat, now: int, after: seq<Entry>) {
    && |after| == |rows|
    && forall i :: 0 <= i < |rows| ==> after[i] == if i < n then NextRow(p, rows[i], now) else rows[i]
  }

  method SendEscalation(db: Db, entry: Entry, again: bool) returns (ok: bool)
    modifies db`alerts
    ensures ok == (entry.task in db.tasks)
    ensures db.alerts
      == if ok then old(db.alerts) + [AlertFor(if again then ReEscalation else Escalation, entry)] else old(db.alerts)
  {
    if entry.task !in db.tasks {
      return false;
    }
    db.alerts := db.alerts
      + [Alert(if again then ReEscalation else Escalation, entry.task, entry.node, entry.severity, entry.category)];
    return true;
  }

  method FirstEscalation(db: Db, id: nat, entry: Entry, now: int) returns (ok: bool)
    requires id < |db.queue| && entry == db.queue[id]
    modifies db`queue, db`alerts
    ensures ok == (entry.task in db.tasks)
    ensures db.queue == if ok then old(db.queue)[id := AfterAction(entry, Escalate, now)] else old(db.queue)
    ensures db.alerts == if ok then old(db.alerts) + AlertsOfAction(entry, Escalate) else old(db.alerts)
  {
    ok := SendEscalation(db, entry, false);
    if ok {
      db.queue := db.queue[id := db.queue[id].(status := Escalated, escalatedAt := Some(now))];
    }
  }

  method NextEscalation(db: Db, id: nat, entry: Entry, now: int) returns (ok: bool)
    requires id < |db.queue| && entry == db.queue[id]
    modifies db`queue, db`alerts
    ensures ok == (entry.task in db.tasks)
    ensures db.queue == if ok then old(db.queue)[id := AfterAction(entry, Escalate2, now)] else old(db.queue)
    ensures db.alerts == if ok then old(db.alerts) + AlertsOfAction(entry, Escalate2) else old(db.alerts)
  {
    ok := SendEscalation(db, entry, true);
    if ok {
      db.queue := db.queue[id := db.queue[id].(escalatedAt := Some(now), reEscalations := entry.reEscalations + 1)];
    }
  }

  method AutoResolve(db: Db, id: nat, entry: Entry, now: int)
    requires id < |db.queue| && entry == db.queue[id]
    modifies db`queue, db`nodes
    ensures db.queue == old(db.queue)[id := AfterAction(entry, Resolve, now)]
    ensures db.nodes == NodesAfterAction(old(db.nodes), entry, Resolve)
  {
    if entry.blocking && entry.node != None && entry.node.value != "" && entry.task != "" {
      db.UpdateNode(entry.task, entry.node.value, Provisional);
    }
    db.queue := db.queue[id := db.queue[id].(status := Expired)];
  }

  /** The tables after an action on row `id`; not `ok` when its alert raises. */
  twostate predicate Acted(db: Db, id: nat, entry: Entry, action: Action, now: int, ok: bool)
    reads db`queue, db`alerts, db`nodes
    requires id < |old(db.queue)|
  {
    && db.queue == (if ok then old(db.queue)[id := AfterAction(entry, action, now)] else old(db.queue))
    && db.alerts == (if ok then old(db.alerts) + AlertsOfAction(entry, action) else old(db.alerts))
    && db.nodes == if ok then NodesAfterAction(old(db.nodes), entry, action) else old(db.nodes)
  }

  method ProcessWaiting(p: Profile, db: Db, id: nat, entry: Entry, now: int) returns (ok: bool)
    requires id < |db.queue| && entry == db.queue[id] && entry.status == Waiting
    modifies db`queue, db`nodes, db`alerts
    ensures ok == !Fails(p, db.tasks, entry, now)
    ensures Acted(db, id, entry, ActionOf(p, entry, now), now, ok)
  {
    ok := true;
    var createdAt := if entry.createdAt != 0 then entry.createdAt else now;
    if entry.severity == High {
      ok := FirstEscalation(db, id, entry, now);
    } else if entry.severity == Medium {
      if now - createdAt >= DIGEST_WINDOW_S {
        ok := FirstEscalation(db, id, entry, now);
      }
    } else if entry.blocking {
      ok := FirstEscalation(db, id, entry, now);
    } else {
      AutoResolve(db, id, entry, now);
    }
  }

  method ProcessEscalated(p: Profile, db: Db, id: nat, entry: Entry, now: int) returns (ok: bool)
    requires id < |db.queue| && entry == db.queue[id] && entry.status == Escalated
    modifies db`queue, db`nodes, db`alerts
    ensures ok == !Fails(p, db.tasks, entry, now)
    ensures Acted(db, id, entry, ActionOf(p, entry, now), now, ok)
  {
    ok := true;
    var since := if entry.createdAt != 0 then entry.createdAt else now;
    if entry.escalatedAt != None && entry.escalatedAt.value != 0 {
      since := entry.escalatedAt.value;
    }
    assert since == EscalatedOr(entry, now);
    if entry.severity == High {
      if now - since >= p.timeoutHigh {
        ok := NextEscalation(db, id, entry, now);
      }
    } else if entry.severity == Medium {
      if now - since >= p.timeoutHigh * 2 {
        ok := NextEscalation(db, id, entry, now);
      }
    } else if now - since >= p.timeoutLow {
      AutoResolve(db, id, entry, now);
    }
  }

  /** One row of the poll, in the source's branches; not `ok` when the alert raises. */
  method ProcessEntry(p: Profile, db: Db, id: nat, entry: Entry, now: int) returns (ok: bool)
    requires id < |db.queue| && entry == db.queue[id] && Live(entry)
    modifies db`queue, db`nodes, db`alerts
    ensures ok == !Fails(p, db.tasks, entry, now)
    ensures db.queue == if ok then old(db.queue)[id := NextRow(p, entry, now)] else old(db.queue)
    ensures db.alerts
      == if ok then old(db.alerts) + AlertsOfAction(entry, ActionOf(p, entry, now)) else old(db.alerts)
    ensures db.nodes
      == if ok then NodesAfterAction(old(db.nodes), entry, ActionOf(p, entry, now)) else old(db.nodes)
  {
    if entry.status == Waiting {
      ok := ProcessWaiting(p, db, id, entry, now);
    } else {
      ok := ProcessEscalated(p, db, id, entry, now);
    }
  }

  /** The tables when a poll has dealt with the first n rows. */
  ghost predicate Polling(p: Profile, rows: seq<Entry>, n: nat, now: int, queue: seq<Entry>,
                          alerts0: seq<Alert>, alerts: seq<Alert>, nodes0: Nodes, nodes: Nodes)
    requires n <= |rows|
  {
    && PolledUpTo(p, rows, n, now, queue)
    && alerts == alerts0 + AlertsUpTo(p, rows, n, now)
    && nodes == NodesUpTo(p, rows, nodes0, n, now)
  }

  lemma {:induction false} PollStep(p: Profile, rows: seq<Entry>, n: nat, now: int, queue: seq<Entry>,
                                    alerts0: seq<Alert>, alerts: seq<Alert>, nodes0: Nodes, nodes: Nodes)
    requires n < |rows| && Polling(p, rows, n, now, queue, alerts0, alerts, nodes0, nodes)
    ensures queue[n] == rows[n]
    ensures var action := ActionOf(p, rows[n], now);
      Polling(p, rows, n + 1, now, queue[n := AfterAction(rows[n], action, now)],
              alerts0, alerts + AlertsOfAction(rows[n], action), nodes0, NodesAfterAction(nodes, rows[n], action))
  {
    var added := AlertsOfAction(rows[n], ActionOf(p, rows[n], now));
    assert alerts0 + (AlertsUpTo(p, rows, n, now) + added) == alerts0 + AlertsUpTo(p, rows, n, now) + added;
  }

  /** One poll: the rows that were live when it began, in order, until one raises. */
  method CheckQueue(p: Profile, db: Db, now: int) returns (completed: bool)
    modifies db`queue, db`nodes, db`alerts
    ensures completed == (Reach(p, db.tasks, old(db.queue), |old(db.queue)|, now) == |old(db.queue)|)
    ensures
      var rows, reached := old(db.queue), Reach(p, db.tasks, old(db.queue), |old(db.queue)|, now);
      && PolledUpTo(p, rows, reached, now, db.queue)
      && db.alerts == old(db.alerts) + AlertsUpTo(p, rows, reached, now)
      && db.nodes == NodesUpTo(p, rows, old(db.nodes), reached, now)
  {
    var rows := db.queue;
    for id := 0 to |rows|
      invariant Reach(p, db.tasks, rows, id, now) == id
      invariant Polling(p, rows, id, now, db.queue, old(db.alerts), db.alerts, old(db.nodes), db.nodes)
    {
      PollStep(p, rows, id, now, db.queue, old(db.alerts), db.alerts, old(db.nodes), db.nodes);
      if rows[id].status != Expired {
        var ok := ProcessEntry(p, db, id, rows[id], now);
        if !ok {
          ReachStops(p, db.tasks, rows, id, |rows|, now);
          return false;
        }
      } else {
        assert db.queue[id := rows[id]] == db.queue && db.alerts + [] == db.alerts;
      }
    }
    return true;
  }

  lemma {:induction false} ReachStops(p: Profile, tasks: Tasks, rows: seq<Entry>, id: nat, n: nat, now: int)
    requires id < n <= |rows| && Reach(p, tasks, rows, id, now) == id && Fails(p, tasks, rows[id], now)
    ensures Reach(p, tasks, rows, n, now) == id
  {
    if id < n - 1 {
      ReachStops(p, tasks, rows, id, n - 1, now);
    }
  }
}
