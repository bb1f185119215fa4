/** How the router worker writes an agent's output for one task into the store. */
module RouterWorker {
  import opened Options
  import opened Severities
  import opened Database
  import opened TaskStore
  import opened AmbiguityQueue
  import opened AmbiguityRuns

  const PROVISIONAL_THRESHOLD := 0.75

  datatype NodeUpdate = NodeUpdate(node: string, status: Status, confidence: real)

  datatype TaskOutput = TaskOutput(updates: seq<NodeUpdate>, flags: seq<Flag>, extractions: seq<Extraction>)

  // ---- Node updates ----

  /** An unsure update is written as provisional, unless it is pending or provisional anyway. */
  function Written(update: NodeUpdate): Status {
    if update.confidence < PROVISIONAL_THRESHOLD && update.status !in {Pending, Provisional} then Provisional
    else update.status
  }

  function AfterUpdates(nodes: Nodes, task: string, updates: seq<NodeUpdate>, n: nat): Nodes
    requires n <= |updates|
  {
    if n == 0 then nodes
    else SetNode(AfterUpdates(nodes, task, updates, n - 1), NodeKey(task, updates[n - 1].node), Written(updates[n - 1]))
  }

  predicate TouchesStock(output: TaskOutput) {
    exists i :: 0 <= i < |output.updates| && output.updates[i].node == "filled_from_stock"
  }

  function AfterTriggers(nodes: Nodes, task: string, output: TaskOutput): Nodes {
    var updated := AfterUpdates(nodes, task, output.updates, |output.updates|);
    Cascaded(if TouchesStock(output) then StockChecked(updated, task) else updated, task)
  }

  // ---- Flags ----

  function RowsAfterFlags(p: Profile, rows: seq<Entry>, flags: seq<Flag>, n: nat, task: string, now: int): seq<Entry>
    requires n <= |flags|
  {
    if n == 0 then rows
    else RowsAfterFlag(p, RowsAfterFlags(p, rows, flags, n - 1, task, now), flags[n - 1], task, now)
  }

  function NodesAfterFlags(p: Profile, rows: seq<Entry>, nodes: Nodes, flags: seq<Flag>, n: nat, task: string, now: int):
      Nodes
    requires n <= |flags|
  {
    if n == 0 then nodes
    else
      NodesAfterFlag(p, RowsAfterFlags(p, rows, flags, n - 1, task, now),
                     NodesAfterFlags(p, rows, nodes, flags, n - 1, task, now), flags[n - 1], task, now)
  }

  /** Blocking a gate makes no trigger due. */
  lemma {:induction false} BlockKeepsClosed(nodes: Nodes, key: NodeKey, task: string)
    requires Closed(nodes, task) && key.node in GATE_NODES
    ensures Closed(SetNode(nodes, key, Blocked), task)
    ensures Closed(SetNode(nodes, key, Provisional), task)
  {
    assert forall k: NodeKey :: k.node !in GATE_NODES ==>
      (k in SetNode(nodes, key, Blocked) <==> k in nodes) && (k in nodes ==> SetNode(nodes, key, Blocked)[k] == nodes[k]);
  }

  lemma {:induction false} FlagsKeepClosed(p: Profile, rows: seq<Entry>, nodes: Nodes, flags: seq<Flag>, n: nat,
                                           flagged: string, now: int, task: string)
    requires n <= |flags| && Closed(nodes, task)
    ensures Closed(NodesAfterFlags(p, rows, nodes, flags, n, flagged, now), task)
  {
    if n > 0 {
      FlagsKeepClosed(p, rows, nodes, flags, n - 1, flagged, now, task);
      if ShouldBlock(p, flags[n - 1]) {
        BlockKeepsClosed(NodesAfterFlags(p, rows, nodes, flags, n - 1, flagged, now),
                         NodeKey(flagged, flags[n - 1].node.value), task);
      }
    }
  }

  /** Only gates are ever blocked by a row. */
  ghost predicate GatesOnly(rows: seq<Entry>) {
    forall i :: 0 <= i < |rows| && rows[i].blocking ==> rows[i].node.Some? && rows[i].node.value in GATE_NODES
  }

  lemma {:induction false} RunGatesOnly(p: Profile, start: State, ops: seq<Op>, n: nat)
    requires n <= |ops|
    ensures GatesOnly(Run(p, start, ops, n).rows)
  {
    if n > 0 {
      RunGatesOnly(p, start, ops, n - 1);
      StepOnward(p, Run(p, start, ops, n - 1), ops[n - 1]);
      StepGatesOnly(p, Run(p, start, ops, n - 1), ops[n - 1]);
    }
  }

  lemma {:induction false} StepGatesOnly(p: Profile, s: State, op: Op)
    requires GatesOnly(s.rows)
    ensures GatesOnly(Step(p, s, op).rows)
  {
    StepOnward(p, s, op);
    var after := Step(p, s, op).rows;
    forall i | 0 <= i < |after| && after[i].blocking
      ensures after[i].node.Some? && after[i].node.value in GATE_NODES
    {
      if i < |s.rows| {
        assert Onward(s.rows[i], after[i]);
      }
    }
  }

  lemma {:induction false} PolledNodesClosed(p: Profile, rows: seq<Entry>, nodes: Nodes, n: nat, now: int, task: string)
    requires n <= |rows| && GatesOnly(rows) && Closed(nodes, task)
    ensures Closed(NodesUpTo(p, rows, nodes, n, now), task)
  {
    if n > 0 {
      PolledNodesClosed(p, rows, nodes, n - 1, now, task);
      if Unblocks(rows[n - 1], ActionOf(p, rows[n - 1], now)) {
        BlockKeepsClosed(NodesUpTo(p, rows, nodes, n - 1, now), NodeKey(rows[n - 1].task, rows[n - 1].node.value), task);
      }
    }
  }

  ghost predicate QueueOp(op: Op) {
    op.Raise? || op.Poll?
  }

  /** Only flags and polls. */
  ghost predicate QueueOnly(ops: seq<Op>) {
    forall i :: 0 <= i < |ops| ==> QueueOp(ops[i])
  }

  lemma {:induction false} NextKeepsClosed(p: Profile, start: State, ops: seq<Op>, n: nat, task: string)
    requires n < |ops| && QueueOp(ops[n]) && Closed(Run(p, start, ops, n).nodes, task)
    ensures Closed(Run(p, start, ops, n + 1).nodes, task)
  {
    RunGatesOnly(p, start, ops, n);
    StepKeepsClosed(p, Run(p, start, ops, n), ops[n], task);
    assert Run(p, start, ops, n + 1) == Step(p, Run(p, start, ops, n), ops[n]);
  }

  lemma {:induction false} ClosedAlong(states: seq<Nodes>, n: nat, task: string)
    requires n < |states| && Closed(states[0], task)
    requires forall k: nat :: k < n && Closed(states[k], task) ==> Closed(states[k + 1], task)
    ensures Closed(states[n], task)
  {
    if n != 0 {
      ClosedAlong(states, n - 1, task);
    }
  }

  /** The nodes of the run from m to n: each step keeps a task closed. */
  lemma {:induction false} NodesAlong(p: Profile, start: State, ops: seq<Op>, m: nat, n: nat, task: string)
      returns (states: seq<Nodes>)
    requires m <= n <= |ops| && QueueOnly(ops[m..n])
    ensures |states| == n - m + 1 && states[0] == Run(p, start, ops, m).nodes && states[n - m] == Run(p, start, ops, n).nodes
    ensures forall k: nat :: k < n - m && Closed(states[k], task) ==> Closed(states[k + 1], task)
    decreases n - m
  {
    if m == n {
      states := [Run(p, start, ops, m).nodes];
    } else {
      assert ops[m..n][0] == ops[m] && ops[m + 1..n] == ops[m..n][1..];
      var rest := NodesAlong(p, start, ops, m + 1, n, task);
      states := [Run(p, start, ops, m).nodes] + rest;
      if Closed(states[0], task) {
        NextKeepsClosed(p, start, ops, m, task);
      }
      forall k: nat | 0 < k < n - m && Closed(states[k], task)
        ensures Closed(states[k + 1], task)
      {
        assert states[k] == rest[k - 1] && states[k + 1] == rest[k];
      }
    }
  }

  /** Whatever the ambiguity workers do later, no trigger of a closed task becomes due. */
  lemma {:induction false} QueueKeepsClosed(p: Profile, start: State, ops: seq<Op>, m: nat, n: nat, task: string)
    requires m <= n <= |ops| && QueueOnly(ops[m..n])
    requires Closed(Run(p, start, ops, m).nodes, task)
    ensures Closed(Run(p, start, ops, n).nodes, task)
  {
    var states := NodesAlong(p, start, ops, m, n, task);
    ClosedAlong(states, n - m, task);
  }

  lemma {:induction false} StepKeepsClosed(p: Profile, s: State, op: Op, task: string)
    requires QueueOp(op) && GatesOnly(s.rows) && Closed(s.nodes, task)
    ensures Closed(Step(p, s, op).nodes, task)
  {
    match op
    case Raise(now, flag, flagged) =>
      if ShouldBlock(p, flag) {
        BlockKeepsClosed(s.nodes, NodeKey(flagged, flag.node.value), task);
      }
    case Poll(now) =>
      PolledNodesClosed(p, s.rows, s.nodes, Reached(p, s, now), now, task);
  }

  // ---- Items that change after the lock ----

  function LockGate(orderType: string): string {
    if orderType == "supplier_order" then "supplier_collection" else "order_confirmation"
  }

  function LockedNode(orderType: string): string {
    if orderType == "supplier_order" then "supplier_QC" else "dispatched"
  }

  function LockFlag(orderType: string): Flag {
    Flag(High, "quantity", Some(LockedNode(orderType)))
  }

  /** The lock of an order: suppliers' orders are locked by the collection, all others by the confirmation. */
  ghost predicate Locked(nodes: Nodes, task: string, orderType: string) {
    StatusOf(nodes, task, if orderType == "supplier_order" then "supplier_collection" else "order_confirmation")
    == Some(Completed)
  }

  /** A live row about the task's quantities on the locked node, raised within the last hour. */
  ghost predicate QuantityRaised(rows: seq<Entry>, task: string, orderType: string, now: int) {
    exists i :: 0 <= i < |rows|
      && rows[i].task == task && rows[i].category == "quantity"
      && rows[i].node == Some(if orderType == "supplier_order" then "supplier_QC" else "dispatched")
      && (rows[i].status == Waiting || rows[i].status == Escalated) && now - rows[i].createdAt <= 3600
  }

  /** The lock flag is never lost: a row is there afterwards, either a new one or the one it repeats. */
  lemma {:induction false} LockFlagRaised(p: Profile, rows: seq<Entry>, nodes: Nodes, task: string, orderType: string,
                                          now: int)
    requires !p.silentResolutionAllowed
    ensures var after := RowsAfterFlag(p, rows, LockFlag(orderType), task, now);
      && QuantityRaised(after, task, orderType, now)
      && (after == rows <==> QuantityRaised(rows, task, orderType, now))
      && (after != rows ==>
            var nodesAfter := NodesAfterFlag(p, rows, nodes, LockFlag(orderType), task, now);
            StatusOf(nodesAfter, task, if orderType == "supplier_order" then "supplier_QC" else "dispatched")
              in {None, Some(Blocked)})
  {
    var after := RowsAfterFlag(p, rows, LockFlag(orderType), task, now);
    if IsDuplicate(rows, task, LockFlag(orderType), now) {
      assert after == rows;
    } else {
      var row := after[|rows|];
      assert SameSubject(row, task, "quantity", Some(LockedNode(orderType))) && Live(row);
    }
  }

  /** Flag number i of the output is queued and blocks the gate. */
  ghost predicate BlocksGate(p: Profile, rows: seq<Entry>, flags: seq<Flag>, i: nat, task: string, now: int, gate: string)
    requires i < |flags|
  {
    && ShouldBlock(p, flags[i]) && flags[i].node == Some(gate)
    && !Swallowed(p, RowsAfterFlags(p, rows, flags, i, task, now), flags[i], task, now)
  }

  /** The lock still reads completed behind the flags exactly if it did before and no flag blocked it. */
  lemma {:induction false} LockAfterFlags(p: Profile, rows: seq<Entry>, nodes: Nodes, flags: seq<Flag>, n: nat,
                                          task: string, now: int, gate: string)
    requires n <= |flags|
    ensures StatusOf(NodesAfterFlags(p, rows, nodes, flags, n, task, now), task, gate) == Some(Completed) <==>
      && StatusOf(nodes, task, gate) == Some(Completed)
      && forall i: nat :: i < n ==> !BlocksGate(p, rows, flags, i, task, now, gate)
    ensures StatusOf(NodesAfterFlags(p, rows, nodes, flags, n, task, now), task, gate) == None <==>
      StatusOf(nodes, task, gate) == None
  {
    if n > 0 {
      LockAfterFlags(p, rows, nodes, flags, n - 1, task, now, gate);
      var before := NodesAfterFlags(p, rows, nodes, flags, n - 1, task, now);
      var after := NodesAfterFlags(p, rows, nodes, flags, n, task, now);
      if BlocksGate(p, rows, flags, n - 1, task, now, gate) {
        assert after == SetNode(before, NodeKey(task, gate), Blocked);
      } else {
        assert StatusOf(after, task, gate) == StatusOf(before, task, gate);
      }
    }
  }

  /** The nodes behind the agent's updates, the triggers and the flags: the lock is read here. */
  function NodesBeforeLock(p: Profile, rows: seq<Entry>, nodes: Nodes, task: string, output: TaskOutput, now: int): Nodes {
    NodesAfterFlags(p, rows, AfterTriggers(nodes, task, output), output.flags, |output.flags|, task, now)
  }

  /** Items change while the lock reads completed. */
  predicate ChangesBehindLock(p: Profile, rows: seq<Entry>, nodes: Nodes, task: string, orderType: string,
                              output: TaskOutput, now: int) {
    && output.extractions != []
    && StatusOf(NodesBeforeLock(p, rows, nodes, task, output, now), task, LockGate(orderType)) == Some(Completed)
  }

  /** The queue when a whole output has been applied. */
  function QueueAfterOutput(p: Profile, rows: seq<Entry>, nodes: Nodes, task: string, orderType: string,
                            output: TaskOutput, now: int): seq<Entry> {
    var flagged := RowsAfterFlags(p, rows, output.flags, |output.flags|, task, now);
    if ChangesBehindLock(p, rows, nodes, task, orderType, output, now)
    then RowsAfterFlag(p, flagged, LockFlag(orderType), task, now) else flagged
  }

  function NodesAfterOutput(p: Profile, rows: seq<Entry>, nodes: Nodes, task: string, orderType: string,
                            output: TaskOutput, now: int): Nodes {
    var flagged := RowsAfterFlags(p, rows, output.flags, |output.flags|, task, now);
    var before := NodesBeforeLock(p, rows, nodes, task, output, now);
    if ChangesBehindLock(p, rows, nodes, task, orderType, output, now)
    then NodesAfterFlag(p, flagged, before, LockFlag(orderType), task, now) else before
  }

  // ---- What a node reads in the end ----

  /** Update k is the last one for the node. */
  ghost predicate LastFor(updates: seq<NodeUpdate>, n: nat, k: int, node: string)
    requires n <= |updates|
  {
    0 <= k < n && updates[k].node == node && forall j :: k < j < n ==> updates[j].node != node
  }

  /**
   A node of the task reads the status of its last update, or provisional if that
   one is less sure than 0.75 and neither pending nor provisional; a node without
   an update, or of another task, reads what it did.
   */
  ghost predicate ReadsUpdate(updates: seq<NodeUpdate>, n: nat, task: string, key: NodeKey, before: Status, after: Status)
    requires n <= |updates|
  {
    && (forall k :: key.task == task && LastFor(updates, n, k, key.node) ==>
          if updates[k].confidence >= 0.75 || updates[k].status == Pending || updates[k].status == Provisional
          then after == updates[k].status else after == Provisional)
    && ((key.task == task ==> forall k :: 0 <= k < n ==> updates[k].node != key.node) ==> after == before)
  }

  lemma {:induction false} UpdatesMean(nodes: Nodes, task: string, updates: seq<NodeUpdate>, n: nat, key: NodeKey)
    requires n <= |updates|
    ensures key in AfterUpdates(nodes, task, updates, n) <==> key in nodes
    ensures key in nodes ==> ReadsUpdate(updates, n, task, key, nodes[key], AfterUpdates(nodes, task, updates, n)[key])
  {
    if n > 0 {
      UpdatesMean(nodes, task, updates, n - 1, key);
      var last := updates[n - 1].node;
      forall k | LastFor(updates, n, k, key.node)
        ensures if last == key.node then k == n - 1 else LastFor(updates, n - 1, k, key.node)
      {
      }
    }
  }

  /** A flag of the output blocks the node. */
  ghost predicate FlagNames(p: Profile, flags: seq<Flag>, node: string) {
    !p.silentResolutionAllowed && exists i :: 0 <= i < |flags| && flags[i].node == Some(node)
  }

  lemma {:induction false} FlagsLeave(p: Profile, rows: seq<Entry>, nodes: Nodes, flags: seq<Flag>, n: nat, task: string,
                                      now: int, key: NodeKey)
    requires n <= |flags|
    ensures var after := NodesAfterFlags(p, rows, nodes, flags, n, task, now);
      && (key in after <==> key in nodes)
      && (key in nodes && (key.task == task && IsGate(key.node) ==> !FlagNames(p, flags, key.node)) ==>
            after[key] == nodes[key])
      && (key in nodes && after[key] != nodes[key] ==> after[key] == Blocked)
  {
    for k := 0 to n
      invariant var after := NodesAfterFlags(p, rows, nodes, flags, k, task, now);
        && (key in after <==> key in nodes)
        && (key in nodes && (key.task == task && IsGate(key.node) ==> !FlagNames(p, flags, key.node)) ==>
              after[key] == nodes[key])
        && (key in nodes && after[key] != nodes[key] ==> after[key] == Blocked)
    {
      FlagIsQueued(p, RowsAfterFlags(p, rows, flags, k, task, now), NodesAfterFlags(p, rows, nodes, flags, k, task, now),
                   flags[k], task, now);
    }
  }

  ghost predicate IsGate(node: string) {
    node == "order_confirmation" || node == "order_ready" || node == "dispatched" || node == "supplier_QC"
  }

  /** The automatic triggers of an output may write the node. */
  ghost predicate MayTrigger(output: TaskOutput, node: string) {
    || node == "predispatch_checklist" || node == "delivery_photo_check"
    || (node == "order_ready" && exists i :: 0 <= i < |output.updates| && output.updates[i].node == "filled_from_stock")
  }

  /** A flag of the output, or the one for items that changed, may block the node. */
  ghost predicate MayBlock(p: Profile, orderType: string, output: TaskOutput, node: string) {
    && !p.silentResolutionAllowed && IsGate(node)
    && (|| (exists i :: 0 <= i < |output.flags| && output.flags[i].node == Some(node))
        || (output.extractions != [] && node == if orderType == "supplier_order" then "supplier_QC" else "dispatched"))
  }

  lemma {:induction false} TriggersLeave(nodes: Nodes, task: string, output: TaskOutput, key: NodeKey)
    requires key.task == task ==> !MayTrigger(output, key.node)
    ensures var updated := AfterUpdates(nodes, task, output.updates, |output.updates|);
      && (key in AfterTriggers(nodes, task, output) <==> key in updated)
      && (key in updated ==> AfterTriggers(nodes, task, output)[key] == updated[key])
  {
    var updated := AfterUpdates(nodes, task, output.updates, |output.updates|);
    var checked := if TouchesStock(output) then StockChecked(updated, task) else updated;
    StockMeans(updated, task);
    CascadeMeans(checked, task);
    assert key in checked <==> key in updated;
  }

  /**
   What an output makes of the nodes: whatever neither a trigger nor a flag may
   write reads its last update, downgraded if it is unsure.
   */
  lemma {:induction false} NodesReadTheirUpdates(p: Profile, rows: seq<Entry>, nodes: Nodes, task: string, orderType: string,
                                                 output: TaskOutput, now: int, key: NodeKey)
    requires key in nodes
    requires key.task == task ==> !MayTrigger(output, key.node) && !MayBlock(p, orderType, output, key.node)
    ensures var after := NodesAfterOutput(p, rows, nodes, task, orderType, output, now);
      key in after && ReadsUpdate(output.updates, |output.updates|, task, key, nodes[key], after[key])
  {
    UpdatesMean(nodes, task, output.updates, |output.updates|, key);
    TriggersLeave(nodes, task, output, key);
    var triggered := AfterTriggers(nodes, task, output);
    var flagged := RowsAfterFlags(p, rows, output.flags, |output.flags|, task, now);
    FlagsLeave(p, rows, triggered, output.flags, |output.flags|, task, now, key);
    FlagIsQueued(p, flagged, NodesBeforeLock(p, rows, nodes, task, output, now), LockFlag(orderType), task, now);
  }

  /**
   An item change of a locked order is on the queue afterwards exactly if no flag
   of the same output blocked the lock, or the flags put it there themselves.
   */
  lemma {:induction false} ItemChangeRaised(p: Profile, rows: seq<Entry>, nodes: Nodes, task: string, orderType: string,
                                            output: TaskOutput, now: int)
    requires !p.silentResolutionAllowed && output.extractions != []
    requires Locked(AfterTriggers(nodes, task, output), task, orderType)
    ensures QuantityRaised(QueueAfterOutput(p, rows, nodes, task, orderType, output, now), task, orderType, now) <==>
      || (forall i: nat :: i < |output.flags| ==> !BlocksGate(p, rows, output.flags, i, task, now, LockGate(orderType)))
      || QuantityRaised(RowsAfterFlags(p, rows, output.flags, |output.flags|, task, now), task, orderType, now)
  {
    var flagged := RowsAfterFlags(p, rows, output.flags, |output.flags|, task, now);
    LockAfterFlags(p, rows, AfterTriggers(nodes, task, output), output.flags, |output.flags|, task, now, LockGate(orderType));
    LockFlagRaised(p, flagged, NodesBeforeLock(p, rows, nodes, task, output, now), task, orderType, now);
  }

  /** It does happen: a flag on the confirmation hides an item change that comes with it, and only the flag does. */
  lemma {:induction false} FlagHidesItemChange(p: Profile, task: string, extraction: Extraction, now: int)
    requires !p.silentResolutionAllowed
    ensures
      var nodes := map[NodeKey(task, "order_confirmation") := Completed];
      var output := TaskOutput([], [Flag(High, "entity", Some("order_confirmation"))], [extraction]);
      var quiet := output.(flags := []);
      && (forall row :: row in QueueAfterOutput(p, [], nodes, task, "client_order", output, now) ==> row.category != "quantity")
      && QuantityRaised(QueueAfterOutput(p, [], nodes, task, "client_order", quiet, now), task, "client_order", now)
  {
    var nodes := map[NodeKey(task, "order_confirmation") := Completed];
    var flag := Flag(High, "entity", Some("order_confirmation"));
    var output := TaskOutput([], [flag], [extraction]);
    var quiet := output.(flags := []);
    assert AfterTriggers(nodes, task, output) == nodes == AfterTriggers(nodes, task, quiet);
    ItemChangeRaised(p, [], nodes, task, "client_order", quiet, now);
    assert RowsAfterFlags(p, [], output.flags, 0, task, now) == [];
    assert !Swallowed(p, [], flag, task, now);
    assert RowsAfterFlags(p, [], output.flags, 1, task, now) == [NewRow(p, flag, task, now)];
    assert BlocksGate(p, [], output.flags, 0, task, now, "order_confirmation");
    LockAfterFlags(p, [], nodes, output.flags, 1, task, now, "order_confirmation");
  }

  method CheckPostConfirmation(p: Profile, db: Db, task: string, orderType: string, now: int)
    modifies db`queue, db`nodes
    ensures
      var locked := StatusOf(old(db.nodes), task, LockGate(orderType)) == Some(Completed);
      && db.queue
         == (if locked then RowsAfterFlag(p, old(db.queue), LockFlag(orderType), task, now) else old(db.queue))
      && db.nodes
         == (if locked then NodesAfterFlag(p, old(db.queue), old(db.nodes), LockFlag(orderType), task, now)
             else old(db.nodes))
  {
    var lockGate, blockingNode := "order_confirmation", "dispatched";
    if orderType == "supplier_order" {
      lockGate, blockingNode := "supplier_collection", "supplier_QC";
    }
    if StatusOf(db.nodes, task, lockGate) != Some(Completed) {
      return;
    }
    HandleAmbiguity(p, db, Flag(High, "quantity", Some(blockingNode)), task, now);
  }

  // ---- The whole output ----

  method ApplyUpdates(db: Db, task: string, output: TaskOutput)
    modifies db`nodes
    ensures db.nodes == AfterTriggers(old(db.nodes), task, output)
  {
    var stock := false;
    for i := 0 to |output.updates|
      invariant db.nodes == AfterUpdates(old(db.nodes), task, output.updates, i)
      invariant stock <==> exists k :: 0 <= k < i && output.updates[k].node == "filled_from_stock"
    {
      var update := output.updates[i];
      var status := update.status;
      if update.confidence < PROVISIONAL_THRESHOLD && status != Pending && status != Provisional {
        status := Provisional;
      }
      db.UpdateNode(task, update.node, status);
      if update.node == "filled_from_stock" {
        stock := true;
      }
    }
    if stock {
      var _ := CheckStock(db, task);
    }
    var _ := CascadeTriggers(db, task);
  }

  method RaiseFlags(p: Profile, db: Db, flags: seq<Flag>, task: string, now: int)
    modifies db`queue, db`nodes
    ensures db.queue == RowsAfterFlags(p, old(db.queue), flags, |flags|, task, now)
    ensures db.nodes == NodesAfterFlags(p, old(db.queue), old(db.nodes), flags, |flags|, task, now)
  {
    for i := 0 to |flags|
      invariant db.queue == RowsAfterFlags(p, old(db.queue), flags, i, task, now)
      invariant db.nodes == NodesAfterFlags(p, old(db.queue), old(db.nodes), flags, i, task, now)
    {
      HandleAmbiguity(p, db, flags[i], task, now);
    }
  }

  /**
   Afterwards no trigger of the task is due, whatever the agent wrote; and items
   that changed behind the lock are on the queue.
   */
  method ApplyOutput(p: Profile, db: Db, task: string, orderType: string, output: TaskOutput, now: int)
    modifies db`nodes, db`queue, db`clientItems, db`supplierItems
    ensures Closed(db.nodes, task)
    ensures db.queue == QueueAfterOutput(p, old(db.queue), old(db.nodes), task, orderType, output, now)
    ensures db.nodes == NodesAfterOutput(p, old(db.queue), old(db.nodes), task, orderType, output, now)
    ensures !p.silentResolutionAllowed && output.extractions != [] && Locked(db.nodes, task, orderType) ==>
      QuantityRaised(db.queue, task, orderType, now)
    ensures (if orderType == "supplier_order" then db.supplierItems else db.clientItems)
      == AfterExtractions(if orderType == "supplier_order" then old(db.supplierItems) else old(db.clientItems),
                          task, output.extractions, |output.extractions|)
    ensures if orderType == "supplier_order" then db.clientItems == old(db.clientItems)
            else db.supplierItems == old(db.supplierItems)
  {
    ApplyUpdates(db, task, output);
    CascadeCloses(if TouchesStock(output)
                  then StockChecked(AfterUpdates(old(db.nodes), task, output.updates, |output.updates|), task)
                  else AfterUpdates(old(db.nodes), task, output.updates, |output.updates|), task);
    FlagsKeepClosed(p, db.queue, db.nodes, output.flags, |output.flags|, task, now, task);
    RaiseFlags(p, db, output.flags, task, now);
    if output.extractions != [] {
      ghost var rows, nodes := db.queue, db.nodes;
      var _ := ApplyItemExtractions(db, task, orderType, output.extractions);
      CheckPostConfirmation(p, db, task, orderType, now);
      if !p.silentResolutionAllowed {
        LockFlagRaised(p, rows, nodes, task, orderType, now);
      }
      BlockKeepsClosed(nodes, NodeKey(task, LockedNode(orderType)), task);
    }
  }
}
