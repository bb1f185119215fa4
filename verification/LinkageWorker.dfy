/**
 The linkage worker: one stream event inserts links, writes nodes, reconciles
 the affected client orders, prunes finished orders and raises flags.  The
 agent's answer is an input; Python's sets are visited in an arbitrary order.
 */
module LinkageWorker {
  import opened Options
  import opened Database
  import opened Ordering
  import opened TaskStore
  import opened Fulfilment
  import opened AmbiguityQueue

  const MAX_RETRY_ATTEMPTS := 3

  datatype LinkUpdate = LinkUpdate(
    client: string, clientItem: string, supplier: Option<string>, supplierItem: Option<string>,
    quantity: Option<real>, confidence: real, status: LinkStatus)

  datatype OrderUpdate = OrderUpdate(order: string, node: string, status: Status)

  datatype LinkageFlag = LinkageFlag(flag: Flag, affected: seq<string>)

  datatype LinkageOutput = LinkageOutput(
    updates: seq<LinkUpdate>, orderUpdates: seq<OrderUpdate>, flags: seq<LinkageFlag>)

  datatype Payload = Missing | Malformed | Parsed

  datatype Event = Event(id: string, kind: string, payload: Payload, task: string)

  // ---- Inserting links ----

  /** The links, and the next new id. */
  datatype LinkTable = LinkTable(links: seq<Link>, nextId: nat)

  function NewLink(update: LinkUpdate, id: nat): Link {
    Link(id, update.client, update.clientItem, update.supplier, update.supplierItem, update.quantity,
         update.confidence, update.status)
  }

  function InsertedLink(update: LinkUpdate, id: nat): Link {
    var link := NewLink(update, id);
    link.(status := ConfirmedStatus(link))
  }

  /** The rows that the first n updates add. */
  function Inserted(updates: seq<LinkUpdate>, id: nat, n: nat): (rows: seq<Link>)
    requires n <= |updates|
    ensures |rows| == n && forall i :: 0 <= i < n ==> rows[i] == InsertedLink(updates[i], id + i)
  {
    if n == 0 then [] else Inserted(updates, id, n - 1) + [InsertedLink(updates[n - 1], id + n - 1)]
  }

  function WithInserted(table: LinkTable, updates: seq<LinkUpdate>, n: nat): LinkTable
    requires n <= |updates|
  {
    LinkTable(table.links + Inserted(updates, table.nextId, n), table.nextId + n)
  }

  function OneMore(table: LinkTable, update: LinkUpdate): LinkTable {
    LinkTable(table.links + [InsertedLink(update, table.nextId)], table.nextId + 1)
  }

  lemma {:induction false} InsertedOneMore(table: LinkTable, updates: seq<LinkUpdate>, n: nat)
    requires n < |updates|
    ensures WithInserted(table, updates, n + 1) == OneMore(WithInserted(table, updates, n), updates[n])
  {
    var rows := Inserted(updates, table.nextId, n);
    var row := InsertedLink(updates[n], table.nextId + n);
    assert Inserted(updates, table.nextId, n + 1) == rows + [row];
    assert table.links + (rows + [row]) == table.links + rows + [row];
  }

  /** How many updates from the n-th on name orders that exist, up to the first that does not; counted from the start. */
  function Insertable(tasks: Tasks, updates: seq<LinkUpdate>, n: nat): (count: nat)
    requires n <= |updates|
    ensures n <= count <= |updates| && forall i :: n <= i < count ==> Refers(tasks, NewLink(updates[i], 0))
    ensures count < |updates| ==> !Refers(tasks, NewLink(updates[count], 0))
    decreases |updates| - n
  {
    if n < |updates| && Refers(tasks, NewLink(updates[n], 0)) then Insertable(tasks, updates, n + 1) else n
  }

  /** The updates name orders that exist. */
  ghost predicate AllRefer(tasks: Tasks, updates: seq<LinkUpdate>) {
    forall i :: 0 <= i < |updates| ==>
      updates[i].client in tasks && (updates[i].supplier == None || updates[i].supplier.value in tasks)
  }

  ghost function TableOf(db: Db): LinkTable
    reads db`links, db`nextLinkId
  {
    LinkTable(db.links, db.nextLinkId)
  }

  /** Inserts one link under a new id. */
  method InsertOne(db: Db, update: LinkUpdate) returns (ok: bool)
    requires db.LinkIds()
    modifies db`links, db`nextLinkId
    ensures db.LinkIds() && ok == Refers(db.tasks, NewLink(update, 0))
    ensures TableOf(db) == if ok then OneMore(old(TableOf(db)), update) else old(TableOf(db))
  {
    ok := UpsertLink(db, NewLink(update, db.nextLinkId));
    if ok {
      db.nextLinkId := db.nextLinkId + 1;
    }
  }

  /** The links are inserted up to the first that names an order which does not exist. */
  method InsertLinks(db: Db, updates: seq<LinkUpdate>) returns (ok: bool)
    requires db.LinkIds()
    modifies db`links, db`nextLinkId
    ensures db.LinkIds() && ok == AllRefer(db.tasks, updates)
    ensures TableOf(db) == WithInserted(old(TableOf(db)), updates, Insertable(db.tasks, updates, 0))
  {
    var i := 0;
    while i != |updates|
      invariant db.LinkIds() && i <= |updates| && Insertable(db.tasks, updates, 0) == Insertable(db.tasks, updates, i)
      invariant TableOf(db) == WithInserted(old(TableOf(db)), updates, i)
      decreases |updates| - i
    {
      InsertedOneMore(old(TableOf(db)), updates, i);
      ok := InsertOne(db, updates[i]);
      if !ok {
        return;
      }
      i := i + 1;
    }
    ok := true;
  }

  // ---- Node updates ----

  function AfterOrderUpdates(nodes: Nodes, updates: seq<OrderUpdate>, n: nat): Nodes
    requires n <= |updates|
  {
    if n == 0 then nodes
    else
      SetNode(AfterOrderUpdates(nodes, updates, n - 1), NodeKey(updates[n - 1].order, updates[n - 1].node),
              updates[n - 1].status)
  }

  method ApplyOrderUpdates(db: Db, updates: seq<OrderUpdate>)
    modifies db`nodes
    ensures db.nodes == AfterOrderUpdates(old(db.nodes), updates, |updates|)
  {
    for i := 0 to |updates|
      invariant db.nodes == AfterOrderUpdates(old(db.nodes), updates, i)
    {
      db.UpdateNode(updates[i].order, updates[i].node, updates[i].status);
    }
  }

  // ---- Reconciling every affected client ----

  function Affected(output: LinkageOutput): set<string> {
    (set i | 0 <= i < |output.updates| :: output.updates[i].client)
    + (set i | 0 <= i < |output.orderUpdates| :: output.orderUpdates[i].order)
  }

  /** The answer links or updates the order. */
  ghost predicate Touches(output: LinkageOutput, order: string) {
    || (exists k :: 0 <= k < |output.updates| && output.updates[k].client == order)
    || (exists k :: 0 <= k < |output.orderUpdates| && output.orderUpdates[k].order == order)
  }

  lemma {:induction false} AffectedMeans(output: LinkageOutput, order: string)
    ensures order in Affected(output) <==> Touches(output, order)
  {
  }

  /** The nodes when the given clients read their verdicts. */
  function AfterReconcile(items: seq<Item>, links: seq<Link>, nodes: Nodes, clients: set<string>): Nodes {
    map key | key in nodes ::
      if key.node == "order_ready" && key.task in clients && Verdict(items, links, key.task).Some?
      then Verdict(items, links, key.task).value else nodes[key]
  }

  lemma {:induction false} ReconcileOneMore(items: seq<Item>, links: seq<Link>, nodes: Nodes, done: set<string>, client: string)
    ensures Reconciled(items, links, AfterReconcile(items, links, nodes, done), client)
            == AfterReconcile(items, links, nodes, done + {client})
  {
    var now := AfterReconcile(items, links, nodes, done);
    assert now.Keys == nodes.Keys;
    assert Reconciled(items, links, now, client).Keys == nodes.Keys;
  }

  /** In whatever order the clients are visited; a sum that raises ends the visits. */
  method ReconcileAll(db: Db, clients: set<string>) returns (ok: bool, ghost done: set<string>)
    modifies db`nodes
    ensures ok <==> forall client :: client in clients ==> !Raises(db.clientItems, db.links, client)
    ensures if ok then done == clients else done < clients
    ensures db.nodes == AfterReconcile(db.clientItems, db.links, old(db.nodes), done)
  {
    var todo := clients;
    done := {};
    assert db.nodes == AfterReconcile(db.clientItems, db.links, db.nodes, {});
    while todo != {}
      invariant todo <= clients && done == clients - todo
      invariant forall client :: client in done ==> !Raises(db.clientItems, db.links, client)
      invariant db.nodes == AfterReconcile(db.clientItems, db.links, old(db.nodes), done)
    {
      var client :| client in todo;
      ReconcileOneMore(db.clientItems, db.links, old(db.nodes), done, client);
      var r := ReconcileOrderReady(db, client);
      if r.Raised? {
        assert client in clients && client !in done;
        return false, done;
      }
      todo := todo - {client};
      done := done + {client};
    }
    ok := true;
  }

  // ---- Pruning ----

  /** The links that belong to none of the orders. */
  function Outside(of: string -> Link -> bool, orders: set<string>): Link -> bool {
    (link: Link) => !exists order :: order in orders && of(order)(link)
  }

  /** A link belongs to at most one order. */
  ghost predicate OneOrder(of: string -> Link -> bool) {
    forall a, b, link :: of(a)(link) && of(b)(link) ==> a == b
  }

  /** The orders that have links, all of them done. */
  function PrunedOrders(links: seq<Link>, orders: set<string>, of: string -> Link -> bool, done: LinkStatus -> bool):
      set<string>
  {
    set order | order in orders && Prunable(links, of(order), done)
  }

  function AfterPrunes(links: seq<Link>, orders: set<string>, of: string -> Link -> bool, done: LinkStatus -> bool): seq<Link> {
    Filter(Outside(of, PrunedOrders(links, orders, of, done)), links)
  }

  /** The closed orders read "completed" at `task_closed`, if they have that node. */
  function NodesClosed(nodes: Nodes, orders: set<string>): Nodes {
    map key | key in nodes :: if key.node == "task_closed" && key.task in orders then Completed else nodes[key]
  }

  function TasksClosed(tasks: Tasks, orders: set<string>): Tasks {
    map task | task in tasks :: if task in orders then tasks[task].(closed := true) else tasks[task]
  }

  lemma {:induction false} CloseOneMore(nodes: Nodes, tasks: Tasks, orders: set<string>, order: string)
    ensures SetNode(NodesClosed(nodes, orders), NodeKey(order, "task_closed"), Completed) == NodesClosed(nodes, orders + {order})
    ensures CloseTask(TasksClosed(tasks, orders), order) == TasksClosed(tasks, orders + {order})
  {
  }

  lemma {:induction false} CloseBoth(nodes: Nodes, tasks: Tasks, first: set<string>, second: set<string>)
    ensures NodesClosed(NodesClosed(nodes, first), second) == NodesClosed(nodes, first + second)
    ensures TasksClosed(TasksClosed(tasks, first), second) == TasksClosed(tasks, first + second)
  {
  }

  lemma {:induction false} CloseNone(nodes: Nodes, tasks: Tasks)
    ensures NodesClosed(nodes, {}) == nodes && TasksClosed(tasks, {}) == tasks
  {
  }

  lemma {:induction false} FilterTwice<T>(first: T -> bool, second: T -> bool, both: T -> bool, xs: seq<T>)
    requires forall x :: x in xs ==> both(x) == (first(x) && second(x))
    ensures Filter(second, Filter(first, xs)) == Filter(both, xs)
  {
    if xs != [] {
      var n := |xs| - 1;
      assert xs[n] in xs && forall x :: x in xs[..n] ==> x in xs;
      FilterTwice(first, second, both, xs[..n]);
      if first(xs[n]) {
        FilterAppend(second, Filter(first, xs[..n]), xs[n]);
      }
    }
  }

  lemma {:induction false} PrunableMembers(links: seq<Link>, which: Link -> bool, done: LinkStatus -> bool)
    ensures Prunable(links, which, done) <==>
      && (exists link :: link in links && which(link))
      && forall link :: link in links && which(link) ==> done(link.status)
  {
    assert forall i :: 0 <= i < |links| ==> links[i] in links;
  }

  /** Pruning some orders says nothing about whether another one can be pruned. */
  lemma {:induction false} PrunableOutside(links: seq<Link>, of: string -> Link -> bool, done: LinkStatus -> bool,
                                           pruned: set<string>, order: string)
    requires OneOrder(of) && order !in pruned
    ensures Prunable(Filter(Outside(of, pruned), links), of(order), done) <==> Prunable(links, of(order), done)
  {
    var rest := Filter(Outside(of, pruned), links);
    FilterMembers(Outside(of, pruned), links);
    PrunableMembers(links, of(order), done);
    PrunableMembers(rest, of(order), done);
    assert forall link :: of(order)(link) ==> Outside(of, pruned)(link);
  }

  /** One order more; whether it goes does not depend on those before it. */
  lemma {:induction false} PruneOneMore(links: seq<Link>, visited: set<string>, of: string -> Link -> bool,
                                        done: LinkStatus -> bool, order: string)
    requires OneOrder(of) && order !in visited
    ensures Prunable(AfterPrunes(links, visited, of, done), of(order), done) <==> Prunable(links, of(order), done)
    ensures Pruned(AfterPrunes(links, visited, of, done), of(order), done) == AfterPrunes(links, visited + {order}, of, done)
    ensures PrunedOrders(links, visited + {order}, of, done) ==
      if Prunable(links, of(order), done) then PrunedOrders(links, visited, of, done) + {order}
      else PrunedOrders(links, visited, of, done)
  {
    var pruned := PrunedOrders(links, visited, of, done);
    PrunableOutside(links, of, done, pruned, order);
    if Prunable(links, of(order), done) {
      assert PrunedOrders(links, visited + {order}, of, done) == pruned + {order};
      FilterTwice(Outside(of, pruned), Not(of(order)), Outside(of, pruned + {order}), links);
    } else {
      assert PrunedOrders(links, visited + {order}, of, done) == pruned;
    }
  }

  lemma {:induction false} PruneNone(links: seq<Link>, of: string -> Link -> bool, done: LinkStatus -> bool)
    ensures PrunedOrders(links, {}, of, done) == {} && AfterPrunes(links, {}, of, done) == links
  {
    assert PrunedOrders(links, {}, of, done) == {};
    FilterAll(Outside(of, {}), links);
  }

  /** Links that are done do not count, so no prune changes any client's verdict. */
  lemma {:induction false} PrunesKeepVerdicts(items: seq<Item>, links: seq<Link>, orders: set<string>,
                                              of: string -> Link -> bool, done: LinkStatus -> bool, client: string)
    requires !done(Confirmed) && !done(AutoAllocated)
    ensures Verdict(items, AfterPrunes(links, orders, of, done), client) == Verdict(items, links, client)
  {
    var pruned := PrunedOrders(links, orders, of, done);
    forall link | link in links && !Outside(of, pruned)(link)
      ensures link.status !in {Confirmed, AutoAllocated}
    {
      var order :| order in pruned && of(order)(link);
      PrunableMembers(links, of(order), done);
    }
    FilterKeepsVerdict(items, links, Outside(of, pruned), client);
  }

  /** A link that counts is never pruned. */
  lemma {:induction false} CountingLinksStay(links: seq<Link>, orders: set<string>, of: string -> Link -> bool,
                                             done: LinkStatus -> bool, link: Link)
    requires !done(Confirmed) && !done(AutoAllocated)
    requires link in links && link.status in {Confirmed, AutoAllocated}
    ensures link in AfterPrunes(links, orders, of, done)
  {
    var pruned := PrunedOrders(links, orders, of, done);
    FilterMembers(Outside(of, pruned), links);
    forall order | order in pruned
      ensures !of(order)(link)
    {
      PrunableMembers(links, of(order), done);
    }
  }

  /** The tables that pruning writes. */
  ghost predicate AllPruned(db: Db, links: seq<Link>, nodes: Nodes, tasks: Tasks, visited: set<string>,
                            of: string -> Link -> bool, done: LinkStatus -> bool)
    reads db`links, db`nodes, db`tasks
  {
    && db.links == AfterPrunes(links, visited, of, done)
    && db.nodes == NodesClosed(nodes, PrunedOrders(links, visited, of, done))
    && db.tasks == TasksClosed(tasks, PrunedOrders(links, visited, of, done))
  }

  method PruneNext(db: Db, order: string, of: string -> Link -> bool, done: LinkStatus -> bool,
                   ghost links: seq<Link>, ghost nodes: Nodes, ghost tasks: Tasks, ghost visited: set<string>)
    requires OneOrder(of) && order !in visited && AllPruned(db, links, nodes, tasks, visited, of, done)
    modifies db`links, db`nodes, db`tasks
    ensures AllPruned(db, links, nodes, tasks, visited + {order}, of, done)
  {
    PruneOneMore(links, visited, of, done, order);
    CloseOneMore(nodes, tasks, PrunedOrders(links, visited, of, done), order);
    var pruned := Prune(db, order, of(order), done);
  }

  /** Which orders are pruned does not depend on the order of the visits. */
  method PruneAll(db: Db, orders: set<string>, of: string -> Link -> bool, done: LinkStatus -> bool)
    requires OneOrder(of)
    modifies db`links, db`nodes, db`tasks
    ensures AllPruned(db, old(db.links), old(db.nodes), old(db.tasks), orders, of, done)
  {
    var todo := orders;
    ghost var visited := {};
    PruneNone(db.links, of, done);
    CloseNone(db.nodes, db.tasks);
    while todo != {}
      invariant todo <= orders && visited == orders - todo
      invariant AllPruned(db, old(db.links), old(db.nodes), old(db.tasks), visited, of, done)
    {
      var order :| order in todo;
      PruneNext(db, order, of, done, old(db.links), old(db.nodes), old(db.tasks), visited);
      todo, visited := todo - {order}, visited + {order};
    }
    assert visited == orders;
  }

  // ---- Flags ----

  /** The tasks that a flag is raised for: the affected ones, or the event's own. */
  function Targets(flag: LinkageFlag, task: string): seq<string> {
    if flag.affected != [] then flag.affected else [task]
  }

  function RowsAfterTargets(p: Profile, rows: seq<Entry>, flag: Flag, targets: seq<string>, n: nat, now: int): seq<Entry>
    requires n <= |targets|
  {
    if n == 0 then rows
    else RowsAfterFlag(p, RowsAfterTargets(p, rows, flag, targets, n - 1, now), flag, targets[n - 1], now)
  }

  function RowsAfterAll(p: Profile, rows: seq<Entry>, flags: seq<LinkageFlag>, n: nat, task: string, now: int): seq<Entry>
    requires n <= |flags|
  {
    if n == 0 then rows
    else
      var targets := Targets(flags[n - 1], task);
      RowsAfterTargets(p, RowsAfterAll(p, rows, flags, n - 1, task, now), flags[n - 1].flag, targets, |targets|, now)
  }

  function NodesAfterTargets(p: Profile, rows: seq<Entry>, nodes: Nodes, flag: Flag, targets: seq<string>, n: nat,
                             now: int): Nodes
    requires n <= |targets|
  {
    if n == 0 then nodes
    else NodesAfterFlag(p, RowsAfterTargets(p, rows, flag, targets, n - 1, now),
                        NodesAfterTargets(p, rows, nodes, flag, targets, n - 1, now), flag, targets[n - 1], now)
  }

  function NodesAfterAll(p: Profile, rows: seq<Entry>, nodes: Nodes, flags: seq<LinkageFlag>, n: nat, task: string,
                         now: int): Nodes
    requires n <= |flags|
  {
    if n == 0 then nodes
    else
      var targets := Targets(flags[n - 1], task);
      NodesAfterTargets(p, RowsAfterAll(p, rows, flags, n - 1, task, now),
                        NodesAfterAll(p, rows, nodes, flags, n - 1, task, now), flags[n - 1].flag, targets, |targets|, now)
  }

  /** Some gates may have become blocked; nothing else changed. */
  ghost predicate OnlyBlocked(before: Nodes, after: Nodes) {
    && after.Keys == before.Keys
    && forall key :: key in before && after[key] != before[key] ==> after[key] == Blocked && key.node in GATE_NODES
  }

  lemma {:induction false} FlagsOnlyBlock(p: Profile, rows: seq<Entry>, nodes: Nodes, flags: seq<LinkageFlag>, n: nat,
                                          task: string, now: int)
    requires n <= |flags|
    ensures OnlyBlocked(nodes, NodesAfterAll(p, rows, nodes, flags, n, task, now))
  {
    for k := 0 to n
      invariant OnlyBlocked(nodes, NodesAfterAll(p, rows, nodes, flags, k, task, now))
    {
      var targets := Targets(flags[k], task);
      TargetsOnlyBlock(p, RowsAfterAll(p, rows, flags, k, task, now), NodesAfterAll(p, rows, nodes, flags, k, task, now),
                       flags[k].flag, targets, |targets|, now);
    }
  }

  lemma {:induction false} TargetsOnlyBlock(p: Profile, rows: seq<Entry>, nodes: Nodes, flag: Flag, targets: seq<string>,
                                            n: nat, now: int)
    requires n <= |targets|
    ensures OnlyBlocked(nodes, NodesAfterTargets(p, rows, nodes, flag, targets, n, now))
  {
    for k := 0 to n
      invariant OnlyBlocked(nodes, NodesAfterTargets(p, rows, nodes, flag, targets, k, now))
    {
    }
  }

  // ---- Which flags are raised, and for which tasks ----

  /** A flag is raised for the tasks it names, or else for the task of the event. */
  ghost predicate IsTarget(flag: LinkageFlag, task: string, target: string) {
    target in flag.affected || (flag.affected == [] && target == task)
  }

  /** The queue has a row of the last hour on the flag's subject, or the flag stops no gate and its task is at the limit. */
  ghost predicate Noted(p: Profile, rows: seq<Entry>, flag: Flag, target: string, now: int) {
    || (exists j :: 0 <= j < |rows| && rows[j].task == target && rows[j].category == flag.category
                    && rows[j].node == flag.node && now - rows[j].createdAt <= 3600)
    || (!StopsGate(p, flag) && AtLimit(p, rows, target, now))
  }

  lemma {:induction false} NotedGrows(p: Profile, rows: seq<Entry>, after: seq<Entry>, flag: Flag, target: string, now: int)
    requires rows <= after && Noted(p, rows, flag, target, now)
    ensures Noted(p, after, flag, target, now)
  {
    if j :| 0 <= j < |rows| && rows[j].task == target && rows[j].category == flag.category
            && rows[j].node == flag.node && now - rows[j].createdAt <= 3600 {
      assert after[j] == rows[j];
    } else {
      var before, later := LastHour(rows, |rows|, target, now), LastHour(after, |after|, target, now);
      assert before <= later;
      Subset(before, later);
    }
  }

  lemma {:induction false} Subset(a: set<int>, b: set<int>)
    requires a <= b
    ensures |a| <= |b|
  {
    assert b == a + (b - a);
  }

  /** The rows that a flag's targets add: each belongs to one of the first n, and each of these is noted. */
  ghost predicate RaisedFor(p: Profile, rows: seq<Entry>, after: seq<Entry>, flag: Flag, targets: seq<string>, n: nat, now: int)
    requires n <= |targets|
  {
    && rows <= after
    && (forall j :: |rows| <= j < |after| ==> after[j].task in targets[..n] && RowOfFlag(p, flag, after[j].task, now, after[j]))
    && forall k :: 0 <= k < n ==> Noted(p, after, flag, targets[k], now)
  }

  lemma {:induction false} FlagIsNoted(p: Profile, rows: seq<Entry>, flag: Flag, target: string, now: int)
    ensures var after := RowsAfterFlag(p, rows, flag, target, now);
      Noted(p, after, flag, target, now) && rows <= after
      && forall j :: |rows| <= j < |after| ==> RowOfFlag(p, flag, target, now, after[j])
  {
    FlagIsQueued(p, rows, map[], flag, target, now);
    var after := RowsAfterFlag(p, rows, flag, target, now);
    if |after| > |rows| {
      assert RowOfFlag(p, flag, target, now, after[|rows|]);
    }
  }

  lemma {:induction false} OneTargetMore(p: Profile, rows: seq<Entry>, before: seq<Entry>, after: seq<Entry>, flag: Flag,
                                         targets: seq<string>, n: nat, now: int)
    requires n < |targets| && RaisedFor(p, rows, before, flag, targets, n, now)
    requires before <= after && Noted(p, after, flag, targets[n], now)
    requires forall j :: |before| <= j < |after| ==> RowOfFlag(p, flag, targets[n], now, after[j])
    ensures RaisedFor(p, rows, after, flag, targets, n + 1, now)
  {
    forall k | 0 <= k < n
      ensures Noted(p, after, flag, targets[k], now)
    {
      NotedGrows(p, before, after, flag, targets[k], now);
    }
    assert targets[..n + 1] == targets[..n] + [targets[n]];
    forall j | |rows| <= j < |after|
      ensures after[j].task in targets[..n + 1] && RowOfFlag(p, flag, after[j].task, now, after[j])
    {
      if j < |before| {
        assert after[j] == before[j];
      }
    }
  }

  lemma {:induction false} TargetsRaised(p: Profile, rows: seq<Entry>, flag: Flag, targets: seq<string>, n: nat, now: int)
    requires n <= |targets|
    ensures RaisedFor(p, rows, RowsAfterTargets(p, rows, flag, targets, n, now), flag, targets, n, now)
  {
    if n > 0 {
      var before := RowsAfterTargets(p, rows, flag, targets, n - 1, now);
      TargetsRaised(p, rows, flag, targets, n - 1, now);
      FlagIsNoted(p, before, flag, targets[n - 1], now);
      OneTargetMore(p, rows, before, RowsAfterFlag(p, before, flag, targets[n - 1], now), flag, targets, n - 1, now);
    }
  }

  /** Every row that the first n flags add is one of theirs, for one of its targets; and each of them is noted for each target. */
  ghost predicate AllRaised(p: Profile, rows: seq<Entry>, after: seq<Entry>, flags: seq<LinkageFlag>, n: nat, task: string,
                            now: int)
    requires n <= |flags|
  {
    && rows <= after
    && (forall j :: |rows| <= j < |after| ==>
          exists i :: 0 <= i < n && IsTarget(flags[i], task, after[j].task)
                      && RowOfFlag(p, flags[i].flag, after[j].task, now, after[j]))
    && forall i, target :: 0 <= i < n && IsTarget(flags[i], task, target) ==> Noted(p, after, flags[i].flag, target, now)
  }

  lemma {:induction false} OneFlagMore(p: Profile, rows: seq<Entry>, before: seq<Entry>, after: seq<Entry>,
                                       flags: seq<LinkageFlag>, n: nat, task: string, now: int)
    requires n < |flags| && AllRaised(p, rows, before, flags, n, task, now)
    requires var targets := Targets(flags[n], task); RaisedFor(p, before, after, flags[n].flag, targets, |targets|, now)
    ensures AllRaised(p, rows, after, flags, n + 1, task, now)
  {
    var targets := Targets(flags[n], task);
    assert targets[..|targets|] == targets;
    forall j | |rows| <= j < |after|
      ensures exists i :: 0 <= i < n + 1 && IsTarget(flags[i], task, after[j].task)
                          && RowOfFlag(p, flags[i].flag, after[j].task, now, after[j])
    {
      if j < |before| {
        assert after[j] == before[j];
      } else {
        assert IsTarget(flags[n], task, after[j].task);
      }
    }
    forall i, target | 0 <= i < n + 1 && IsTarget(flags[i], task, target)
      ensures Noted(p, after, flags[i].flag, target, now)
    {
      if i < n {
        NotedGrows(p, before, after, flags[i].flag, target, now);
      } else {
        assert target in targets;
        var k :| 0 <= k < |targets| && targets[k] == target;
        assert Noted(p, after, flags[i].flag, targets[k], now);
      }
    }
  }

  lemma {:induction false} NextFlagRaised(p: Profile, rows: seq<Entry>, before: seq<Entry>, flags: seq<LinkageFlag>, n: nat,
                                          task: string, now: int)
    requires n < |flags| && AllRaised(p, rows, before, flags, n, task, now)
    ensures var targets := Targets(flags[n], task);
      AllRaised(p, rows, RowsAfterTargets(p, before, flags[n].flag, targets, |targets|, now), flags, n + 1, task, now)
  {
    var targets := Targets(flags[n], task);
    TargetsRaised(p, before, flags[n].flag, targets, |targets|, now);
    OneFlagMore(p, rows, before, RowsAfterTargets(p, before, flags[n].flag, targets, |targets|, now), flags, n, task, now);
  }

  lemma {:induction false} NoFlagRaised(p: Profile, rows: seq<Entry>, flags: seq<LinkageFlag>, task: string, now: int)
    ensures AllRaised(p, rows, rows, flags, 0, task, now)
  {
  }

  /** The flags of an answer reach exactly the tasks they are about. */
  lemma {:induction false} FlagsReachTheirTasks(p: Profile, rows: seq<Entry>, flags: seq<LinkageFlag>, n: nat, task: string,
                                                now: int)
    requires n <= |flags|
    ensures AllRaised(p, rows, RowsAfterAll(p, rows, flags, n, task, now), flags, n, task, now)
  {
    NoFlagRaised(p, rows, flags, task, now);
    var k, after := 0, rows;
    while k != n
      invariant k <= n && after == RowsAfterAll(p, rows, flags, k, task, now)
      invariant AllRaised(p, rows, after, flags, k, task, now)
      decreases n - k
    {
      var targets := Targets(flags[k], task);
      NextFlagRaised(p, rows, after, flags, k, task, now);
      after := RowsAfterTargets(p, after, flags[k].flag, targets, |targets|, now);
      k := k + 1;
    }
  }

  /** A flag of the answer stops this gate. */
  ghost predicate StoppedBy(p: Profile, flags: seq<LinkageFlag>, n: nat, task: string, key: NodeKey)
    requires n <= |flags|
  {
    exists i :: 0 <= i < n && IsTarget(flags[i], task, key.task) && StopsGate(p, flags[i].flag)
                && flags[i].flag.node == Some(key.node)
  }

  /** The node is as before, or one of the first n targets owns it and the flag has stopped it. */
  ghost predicate StoppedFor(p: Profile, before: Nodes, after: Nodes, flag: Flag, targets: seq<string>, n: nat, key: NodeKey)
    requires n <= |targets|
  {
    && (key in after <==> key in before)
    && (key in before && after[key] != before[key] ==>
          after[key] == Blocked && StopsGate(p, flag) && flag.node == Some(key.node)
          && exists k :: 0 <= k < n && targets[k] == key.task)
  }

  lemma {:induction false} TargetsStop(p: Profile, rows: seq<Entry>, nodes: Nodes, flag: Flag, targets: seq<string>, n: nat,
                                       now: int, key: NodeKey)
    requires n <= |targets|
    ensures StoppedFor(p, nodes, NodesAfterTargets(p, rows, nodes, flag, targets, n, now), flag, targets, n, key)
  {
    if n > 0 {
      var before := NodesAfterTargets(p, rows, nodes, flag, targets, n - 1, now);
      TargetsStop(p, rows, nodes, flag, targets, n - 1, now, key);
      NextTargetStops(p, nodes, RowsAfterTargets(p, rows, flag, targets, n - 1, now), before, flag, targets, n - 1, now, key);
    }
  }

  lemma {:induction false} NextTargetStops(p: Profile, nodes: Nodes, rows: seq<Entry>, before: Nodes, flag: Flag,
                                           targets: seq<string>, n: nat, now: int, key: NodeKey)
    requires n < |targets| && StoppedFor(p, nodes, before, flag, targets, n, key)
    ensures StoppedFor(p, nodes, NodesAfterFlag(p, rows, before, flag, targets[n], now), flag, targets, n + 1, key)
  {
    FlagIsQueued(p, rows, before, flag, targets[n], now);
  }

  /** Flags change nothing but the gates they stop, which read blocked. */
  lemma {:induction false} FlagsStopGates(p: Profile, rows: seq<Entry>, nodes: Nodes, flags: seq<LinkageFlag>, n: nat,
                                          task: string, now: int, key: NodeKey)
    requires n <= |flags|
    ensures var after := NodesAfterAll(p, rows, nodes, flags, n, task, now);
      && (key in after <==> key in nodes)
      && (key in nodes && after[key] != nodes[key] ==> after[key] == Blocked && StoppedBy(p, flags, n, task, key))
  {
    if n > 0 {
      var targets := Targets(flags[n - 1], task);
      FlagsStopGates(p, rows, nodes, flags, n - 1, task, now, key);
      TargetsStop(p, RowsAfterAll(p, rows, flags, n - 1, task, now), NodesAfterAll(p, rows, nodes, flags, n - 1, task, now),
                  flags[n - 1].flag, targets, |targets|, now, key);
    }
  }

  method RaiseAll(p: Profile, db: Db, flags: seq<LinkageFlag>, task: string, now: int)
    modifies db`queue, db`nodes
    ensures db.queue == RowsAfterAll(p, old(db.queue), flags, |flags|, task, now)
    ensures db.nodes == NodesAfterAll(p, old(db.queue), old(db.nodes), flags, |flags|, task, now)
  {
    for i := 0 to |flags|
      invariant db.queue == RowsAfterAll(p, old(db.queue), flags, i, task, now)
      invariant db.nodes == NodesAfterAll(p, old(db.queue), old(db.nodes), flags, i, task, now)
    {
      RaiseFor(p, db, flags[i].flag, Targets(flags[i], task), now);
    }
  }

  method RaiseFor(p: Profile, db: Db, flag: Flag, targets: seq<string>, now: int)
    modifies db`queue, db`nodes
    ensures db.queue == RowsAfterTargets(p, old(db.queue), flag, targets, |targets|, now)
    ensures db.nodes == NodesAfterTargets(p, old(db.queue), old(db.nodes), flag, targets, |targets|, now)
  {
    for i := 0 to |targets|
      invariant db.queue == RowsAfterTargets(p, old(db.queue), flag, targets, i, now)
      invariant db.nodes == NodesAfterTargets(p, old(db.queue), old(db.nodes), flag, targets, i, now)
    {
      HandleAmbiguity(p, db, flag, targets[i], now);
    }
  }

  // ---- One event ----

  predicate OpenClientOrders(tasks: Tasks) {
    exists task :: task in tasks && tasks[task].orderType == "client_order" && !tasks[task].closed
  }

  /** Events that are acknowledged without asking the agent. */
  predicate Ignored(tasks: Tasks, event: Event) {
    event.kind != "message_processed" || event.payload != Parsed || !OpenClientOrders(tasks)
  }

  /** The suppliers named by an update that ends a link. */
  function EndedSuppliers(output: LinkageOutput): set<string> {
    set i | 0 <= i < |output.updates| && Terminal(output.updates[i].status) && output.updates[i].supplier.Some?
      :: output.updates[i].supplier.value
  }

  function CompletedClients(output: LinkageOutput): set<string> {
    set i | 0 <= i < |output.updates| && output.updates[i].status == LinkCompleted :: output.updates[i].client
  }

  lemma {:induction false} FilterFreshIds(links: seq<Link>, keep: Link -> bool, next: nat)
    requires FreshIds(links, next)
    ensures FreshIds(Filter(keep, links), next)
  {
    if links != [] {
      var n := |links| - 1;
      FilterFreshIds(links[..n], keep, next);
      FilterMembers(keep, links[..n]);
      var rest := Filter(keep, links[..n]);
      forall i | 0 <= i < |rest|
        ensures rest[i].id != links[n].id
      {
        assert rest[i] in links[..n];
      }
    }
  }

  /** The suppliers' links are pruned first, then the clients'. */
  function AfterBothPrunes(links: seq<Link>, output: LinkageOutput): seq<Link> {
    AfterPrunes(AfterPrunes(links, EndedSuppliers(output), OfSupplier, Terminal),
                CompletedClients(output), OfClient, IsCompleted)
  }

  /** The orders that the prunes close. */
  function ClosedOrders(links: seq<Link>, output: LinkageOutput): set<string> {
    PrunedOrders(links, EndedSuppliers(output), OfSupplier, Terminal)
    + PrunedOrders(AfterPrunes(links, EndedSuppliers(output), OfSupplier, Terminal),
                   CompletedClients(output), OfClient, IsCompleted)
  }

  /** What an event writes. */
  datatype Tables = Tables(links: LinkTable, nodes: Nodes, tasks: Tasks, queue: seq<Entry>)

  ghost function TablesOf(db: Db): Tables
    reads db`links, db`nextLinkId, db`nodes, db`tasks, db`queue
  {
    Tables(TableOf(db), db.nodes, db.tasks, db.queue)
  }

  /** The agent's own updates, and then the verdicts of the affected clients. */
  function ReadyNodes(items: seq<Item>, links: seq<Link>, nodes: Nodes, output: LinkageOutput): Nodes {
    AfterReconcile(items, links, AfterOrderUpdates(nodes, output.orderUpdates, |output.orderUpdates|), Affected(output))
  }

  /** The tables when the agent's answer has been applied. */
  function AfterOutput(p: Profile, items: seq<Item>, t: Tables, output: LinkageOutput, task: string, now: int): Tables {
    var linked := WithInserted(t.links, output.updates, |output.updates|);
    var ready := ReadyNodes(items, linked.links, t.nodes, output);
    var closed := ClosedOrders(linked.links, output);
    Tables(linked.(links := AfterBothPrunes(linked.links, output)),
           NodesAfterAll(p, t.queue, NodesClosed(ready, closed), output.flags, |output.flags|, task, now),
           TasksClosed(t.tasks, closed),
           RowsAfterAll(p, t.queue, output.flags, |output.flags|, task, now))
  }

  /** The client's order reads its verdict, or a flag has blocked it; an order without the node has nothing to read. */
  ghost predicate Settled(items: seq<Item>, links: seq<Link>, nodes: Nodes, client: string) {
    Verdict(items, links, client).Some? ==>
      StatusOf(nodes, client, "order_ready") in {None, Some(Blocked), Verdict(items, links, client)}
  }

  lemma {:induction false} BothPrunesKeep(items: seq<Item>, links: seq<Link>, output: LinkageOutput, client: string)
    ensures Verdict(items, AfterBothPrunes(links, output), client) == Verdict(items, links, client)
    ensures Unpriced(AfterBothPrunes(links, output), client) <==> Unpriced(links, client)
  {
    var between := AfterPrunes(links, EndedSuppliers(output), OfSupplier, Terminal);
    var after := AfterBothPrunes(links, output);
    PrunesKeepVerdicts(items, links, EndedSuppliers(output), OfSupplier, Terminal, client);
    PrunesKeepVerdicts(items, between, CompletedClients(output), OfClient, IsCompleted, client);
    if i :| 0 <= i < |links| && Counts(links[i], client) && links[i].quantity == None {
      CountingLinksStay(links, EndedSuppliers(output), OfSupplier, Terminal, links[i]);
      CountingLinksStay(between, CompletedClients(output), OfClient, IsCompleted, links[i]);
      var k :| 0 <= k < |after| && after[k] == links[i];
    }
    if i :| 0 <= i < |after| && Counts(after[i], client) && after[i].quantity == None {
      FilterMembers(Outside(OfClient, PrunedOrders(between, CompletedClients(output), OfClient, IsCompleted)), between);
      FilterMembers(Outside(OfSupplier, PrunedOrders(links, EndedSuppliers(output), OfSupplier, Terminal)), links);
      assert after[i] in after && after[i] in between && after[i] in links;
      var k :| 0 <= k < |links| && links[k] == after[i];
    }
  }

  /** Every affected client ends up with its verdict, whatever is pruned and flagged behind the reconciliation. */
  lemma {:induction false} OutputSettles(p: Profile, items: seq<Item>, t: Tables, output: LinkageOutput, task: string,
                                         now: int, client: string)
    requires Touches(output, client)
    ensures var after := AfterOutput(p, items, t, output, task, now);
      Settled(items, after.links.links, after.nodes, client)
  {
    var linked := WithInserted(t.links, output.updates, |output.updates|).links;
    var ready := ReadyNodes(items, linked, t.nodes, output);
    AffectedMeans(output, client);
    BothPrunesKeep(items, linked, output, client);
    FlagsOnlyBlock(p, t.queue, NodesClosed(ready, ClosedOrders(linked, output)), output.flags, |output.flags|, task, now);
  }

  // ---- What an applied answer does, read off the answer ----

  /** The old links, and behind them a row for every update; a candidate the agent is sure of is confirmed. */
  ghost predicate LinkedAsSaid(before: LinkTable, updates: seq<LinkUpdate>, linked: seq<Link>) {
    && |linked| == |before.links| + |updates| && linked[..|before.links|] == before.links
    && forall k :: 0 <= k < |updates| ==>
         var u := updates[k];
         linked[|before.links| + k] ==
         Link(before.nextId + k, u.client, u.clientItem, u.supplier, u.supplierItem, u.quantity, u.confidence,
              if u.confidence >= 0.92 && u.status == Candidate then Confirmed else u.status)
  }

  lemma {:induction false} InsertedAsSaid(table: LinkTable, updates: seq<LinkUpdate>)
    ensures LinkedAsSaid(table, updates, WithInserted(table, updates, |updates|).links)
  {
    var linked := WithInserted(table, updates, |updates|).links;
    assert linked[..|table.links|] == table.links;
    forall k | 0 <= k < |updates|
      ensures linked[|table.links| + k] == InsertedLink(updates[k], table.nextId + k)
    {
      assert linked[|table.links| + k] == Inserted(updates, table.nextId, |updates|)[k];
    }
  }

  /** An update ends a link of the supplier order, and all its links have ended. */
  ghost predicate SupplierDone(linked: seq<Link>, output: LinkageOutput, order: string) {
    && (exists k :: 0 <= k < |output.updates| && output.updates[k].supplier == Some(order)
                    && (output.updates[k].status == Fulfilled || output.updates[k].status == LinkFailed
                        || output.updates[k].status == Invalidated))
    && (exists link :: link in linked && link.supplier == Some(order))
    && forall link :: link in linked && link.supplier == Some(order) ==>
         link.status == Fulfilled || link.status == LinkFailed || link.status == Invalidated
  }

  /** The link is not one of a supplier order that is done. */
  ghost predicate LeftBySuppliers(linked: seq<Link>, output: LinkageOutput, link: Link) {
    link in linked && (link.supplier.Some? ==> !SupplierDone(linked, output, link.supplier.value))
  }

  /** An update completes a link of the client order, and all links it still has are completed. */
  ghost predicate ClientDone(linked: seq<Link>, output: LinkageOutput, order: string) {
    && (exists k :: 0 <= k < |output.updates| && output.updates[k].client == order && output.updates[k].status == LinkCompleted)
    && (exists link :: LeftBySuppliers(linked, output, link) && link.client == order)
    && forall link :: LeftBySuppliers(linked, output, link) && link.client == order ==> link.status == LinkCompleted
  }

  /** Exactly the orders that are done are closed, and exactly their links are gone. */
  ghost predicate ClosedAsSaid(output: LinkageOutput, linked: seq<Link>, links: seq<Link>, before: Tasks, after: Tasks) {
    && (forall link :: link in links <==> LeftBySuppliers(linked, output, link) && !ClientDone(linked, output, link.client))
    && after.Keys == before.Keys
    && forall order :: order in before ==>
         && after[order].orderType == before[order].orderType
         && (after[order].closed <==>
               before[order].closed || SupplierDone(linked, output, order) || ClientDone(linked, output, order))
  }

  lemma {:induction false} SupplierPruned(linked: seq<Link>, output: LinkageOutput, order: string)
    ensures order in PrunedOrders(linked, EndedSuppliers(output), OfSupplier, Terminal) <==> SupplierDone(linked, output, order)
  {
    PrunableMembers(linked, OfSupplier(order), Terminal);
    if k :| 0 <= k < |output.updates| && output.updates[k].supplier == Some(order) && Terminal(output.updates[k].status) {
      assert order in EndedSuppliers(output);
    }
  }

  lemma {:induction false} LeftAfterSuppliers(linked: seq<Link>, output: LinkageOutput, link: Link)
    ensures link in AfterPrunes(linked, EndedSuppliers(output), OfSupplier, Terminal) <==> LeftBySuppliers(linked, output, link)
  {
    var pruned := PrunedOrders(linked, EndedSuppliers(output), OfSupplier, Terminal);
    FilterMembers(Outside(OfSupplier, pruned), linked);
    if link.supplier.Some? {
      SupplierPruned(linked, output, link.supplier.value);
      assert OfSupplier(link.supplier.value)(link);
    }
  }

  lemma {:induction false} ClientPruned(linked: seq<Link>, output: LinkageOutput, order: string)
    ensures order in PrunedOrders(AfterPrunes(linked, EndedSuppliers(output), OfSupplier, Terminal), CompletedClients(output),
                                  OfClient, IsCompleted)
      <==> ClientDone(linked, output, order)
  {
    var between := AfterPrunes(linked, EndedSuppliers(output), OfSupplier, Terminal);
    PrunableMembers(between, OfClient(order), IsCompleted);
    forall link
      ensures link in between <==> LeftBySuppliers(linked, output, link)
    {
      LeftAfterSuppliers(linked, output, link);
    }
    if k :| 0 <= k < |output.updates| && output.updates[k].client == order && output.updates[k].status == LinkCompleted {
      assert order in CompletedClients(output);
    }
  }

  lemma {:induction false} ClosedOrdersMean(linked: seq<Link>, output: LinkageOutput, order: string)
    ensures order in ClosedOrders(linked, output) <==> SupplierDone(linked, output, order) || ClientDone(linked, output, order)
  {
    SupplierPruned(linked, output, order);
    ClientPruned(linked, output, order);
  }

  lemma {:induction false} LinksLeft(linked: seq<Link>, output: LinkageOutput, link: Link)
    ensures link in AfterBothPrunes(linked, output) <==>
      LeftBySuppliers(linked, output, link) && !ClientDone(linked, output, link.client)
  {
    var between := AfterPrunes(linked, EndedSuppliers(output), OfSupplier, Terminal);
    FilterMembers(Outside(OfClient, PrunedOrders(between, CompletedClients(output), OfClient, IsCompleted)), between);
    LeftAfterSuppliers(linked, output, link);
    ClientPruned(linked, output, link.client);
    assert OfClient(link.client)(link);
  }

  /** Which orders an answer closes, and which links it leaves. */
  lemma {:induction false} OutputCloses(p: Profile, items: seq<Item>, t: Tables, output: LinkageOutput, task: string, now: int)
    ensures var after, linked := AfterOutput(p, items, t, output, task, now), WithInserted(t.links, output.updates, |output.updates|).links;
      LinkedAsSaid(t.links, output.updates, linked) && ClosedAsSaid(output, linked, after.links.links, t.tasks, after.tasks)
  {
    var linked := WithInserted(t.links, output.updates, |output.updates|).links;
    InsertedAsSaid(t.links, output.updates);
    PrunesCloseAsSaid(linked, output, t.tasks);
  }

  lemma {:induction false} PrunesCloseAsSaid(linked: seq<Link>, output: LinkageOutput, tasks: Tasks)
    ensures ClosedAsSaid(output, linked, AfterBothPrunes(linked, output), tasks,
                         TasksClosed(tasks, ClosedOrders(linked, output)))
  {
    forall order
      ensures order in ClosedOrders(linked, output) <==> SupplierDone(linked, output, order) || ClientDone(linked, output, order)
    {
      ClosedOrdersMean(linked, output, order);
    }
    forall link
      ensures link in AfterBothPrunes(linked, output) <==>
        LeftBySuppliers(linked, output, link) && !ClientDone(linked, output, link.client)
    {
      LinksLeft(linked, output, link);
    }
  }

  /** The node reads its last update of the answer, or what it did if there is none. */
  ghost predicate OwnUpdate(updates: seq<OrderUpdate>, n: nat, key: NodeKey, before: Status, own: Status)
    requires n <= |updates|
  {
    && (forall k :: LastFor(updates, n, k, key) ==> own == updates[k].status)
    && ((forall k :: 0 <= k < n ==> !For(updates[k], key)) ==> own == before)
  }

  ghost predicate For(update: OrderUpdate, key: NodeKey) {
    update.order == key.task && update.node == key.node
  }

  /** Update k is the last one for the node. */
  ghost predicate LastFor(updates: seq<OrderUpdate>, n: nat, k: int, key: NodeKey)
    requires n <= |updates|
  {
    0 <= k < n && For(updates[k], key) && forall j :: k < j < n ==> !For(updates[j], key)
  }

  lemma {:induction false} OrderUpdatesMean(nodes: Nodes, updates: seq<OrderUpdate>, n: nat, key: NodeKey)
    requires n <= |updates|
    ensures key in AfterOrderUpdates(nodes, updates, n) <==> key in nodes
    ensures key in nodes ==> OwnUpdate(updates, n, key, nodes[key], AfterOrderUpdates(nodes, updates, n)[key])
  {
    if n > 0 {
      OrderUpdatesMean(nodes, updates, n - 1, key);
      forall k | LastFor(updates, n, k, key)
        ensures if For(updates[n - 1], key) then k == n - 1 else LastFor(updates, n - 1, k, key)
      {
      }
    }
  }

  /**
   What a node reads after the answer, `own` being its own update: an order that
   is done reads completed at `task_closed`; a touched order reads its verdict at
   `order_ready`; behind that only the gates that a flag stops read blocked.
   */
  ghost predicate NodeReads(p: Profile, items: seq<Item>, linked: seq<Link>, output: LinkageOutput, task: string,
                            key: NodeKey, own: Status, after: Status) {
    var verdict := Verdict(items, linked, key.task);
    if key.node == "task_closed" then
      after == if SupplierDone(linked, output, key.task) || ClientDone(linked, output, key.task) then Completed else own
    else
      || after == (if key.node == "order_ready" && Touches(output, key.task) && verdict.Some? then verdict.value else own)
      || (after == Blocked && StoppedBy(p, output.flags, |output.flags|, task, key))
  }

  lemma {:induction false} ReadyMeans(items: seq<Item>, links: seq<Link>, nodes: Nodes, output: LinkageOutput, key: NodeKey)
    requires key in nodes
    ensures key in ReadyNodes(items, links, nodes, output)
    ensures key in AfterOrderUpdates(nodes, output.orderUpdates, |output.orderUpdates|)
    ensures ReadyNodes(items, links, nodes, output)[key] ==
      if key.node == "order_ready" && Touches(output, key.task) && Verdict(items, links, key.task).Some?
      then Verdict(items, links, key.task).value
      else AfterOrderUpdates(nodes, output.orderUpdates, |output.orderUpdates|)[key]
  {
    OrderUpdatesMean(nodes, output.orderUpdates, |output.orderUpdates|, key);
    AffectedMeans(output, key.task);
  }

  lemma {:induction false} ClosedNodesMean(linked: seq<Link>, output: LinkageOutput, nodes: Nodes, key: NodeKey)
    requires key in nodes
    ensures key in NodesClosed(nodes, ClosedOrders(linked, output))
    ensures NodesClosed(nodes, ClosedOrders(linked, output))[key] ==
      if key.node == "task_closed" && (SupplierDone(linked, output, key.task) || ClientDone(linked, output, key.task))
      then Completed else nodes[key]
  {
    ClosedOrdersMean(linked, output, key.task);
  }

  lemma {:induction false} StoppedNodeReads(p: Profile, items: seq<Item>, linked: seq<Link>, queue: seq<Entry>, nodes: Nodes,
                                            output: LinkageOutput, task: string, now: int, key: NodeKey)
    requires key in nodes
    ensures key in AfterOrderUpdates(nodes, output.orderUpdates, |output.orderUpdates|)
    ensures
      var closed := NodesClosed(ReadyNodes(items, linked, nodes, output), ClosedOrders(linked, output));
      var after := NodesAfterAll(p, queue, closed, output.flags, |output.flags|, task, now);
      key in after && NodeReads(p, items, linked, output, task, key,
                                AfterOrderUpdates(nodes, output.orderUpdates, |output.orderUpdates|)[key], after[key])
  {
    var ready := ReadyNodes(items, linked, nodes, output);
    ReadyMeans(items, linked, nodes, output, key);
    ClosedNodesMean(linked, output, ready, key);
    FlagsStopGates(p, queue, NodesClosed(ready, ClosedOrders(linked, output)), output.flags, |output.flags|, task, now, key);
  }

  /** Behind the agent's own updates only verdicts, closed orders and stopped gates change the nodes. */
  lemma {:induction false} OutputExplained(p: Profile, items: seq<Item>, t: Tables, output: LinkageOutput, task: string,
                                           now: int, key: NodeKey) returns (own: Status)
    requires key in t.nodes
    ensures var after, linked := AfterOutput(p, items, t, output, task, now), WithInserted(t.links, output.updates, |output.updates|).links;
      && key in after.nodes
      && OwnUpdate(output.orderUpdates, |output.orderUpdates|, key, t.nodes[key], own)
      && NodeReads(p, items, linked, output, task, key, own, after.nodes[key])
  {
    var linked := WithInserted(t.links, output.updates, |output.updates|).links;
    OrderUpdatesMean(t.nodes, output.orderUpdates, |output.orderUpdates|, key);
    own := AfterOrderUpdates(t.nodes, output.orderUpdates, |output.orderUpdates|)[key];
    StoppedNodeReads(p, items, linked, t.queue, t.nodes, output, task, now, key);
  }

  /** The output names orders that exist, and makes no affected client's sum raise. */
  ghost predicate Accepted(tasks: Tasks, items: seq<Item>, table: LinkTable, output: LinkageOutput) {
    && AllRefer(tasks, output.updates)
    && forall client :: client in Affected(output) ==>
         !Raises(items, WithInserted(table, output.updates, |output.updates|).links, client)
  }

  /** A failed attempt leaves the links that it had inserted. */
  function AfterFailure(tasks: Tasks, table: LinkTable, answer: Option<LinkageOutput>): LinkTable {
    match answer
    case None => table
    case Some(output) => WithInserted(table, output.updates, Insertable(tasks, output.updates, 0))
  }

  /** And, if all its links could be inserted, the agent's updates and the verdicts of some clients. */
  ghost predicate FailedNodes(tasks: Tasks, items: seq<Item>, table: LinkTable, before: Nodes, after: Nodes,
                              answer: Option<LinkageOutput>) {
    if answer.Some? && AllRefer(tasks, answer.value.updates) then
      exists done :: done < Affected(answer.value) && after ==
        AfterReconcile(items, AfterFailure(tasks, table, answer).links,
                       AfterOrderUpdates(before, answer.value.orderUpdates, |answer.value.orderUpdates|), done)
    else after == before
  }

  method LinkAndReconcile(db: Db, output: LinkageOutput) returns (ok: bool)
    requires db.LinkIds()
    modifies db`links, db`nextLinkId, db`nodes
    ensures db.LinkIds()
    ensures ok == Accepted(db.tasks, db.clientItems, old(TableOf(db)), output)
    ensures TableOf(db) == AfterFailure(db.tasks, old(TableOf(db)), Some(output))
    ensures ok ==> db.nodes == ReadyNodes(db.clientItems, db.links, old(db.nodes), output)
    ensures !ok ==> FailedNodes(db.tasks, db.clientItems, old(TableOf(db)), old(db.nodes), db.nodes, Some(output))
  {
    ok := InsertLinks(db, output.updates);
    if !ok {
      return;
    }
    ApplyOrderUpdates(db, output.orderUpdates);
    ghost var done;
    ok, done := ReconcileAll(db, Affected(output));
  }

  method PruneOrders(db: Db, output: LinkageOutput)
    modifies db`links, db`nodes, db`tasks
    ensures db.links == AfterBothPrunes(old(db.links), output)
    ensures db.nodes == NodesClosed(old(db.nodes), ClosedOrders(old(db.links), output))
    ensures db.tasks == TasksClosed(old(db.tasks), ClosedOrders(old(db.links), output))
  {
    ghost var suppliers := PrunedOrders(db.links, EndedSuppliers(output), OfSupplier, Terminal);
    PruneAll(db, EndedSuppliers(output), OfSupplier, Terminal);
    CloseBoth(old(db.nodes), old(db.tasks), suppliers, PrunedOrders(db.links, CompletedClients(output), OfClient, IsCompleted));
    PruneAll(db, CompletedClients(output), OfClient, IsCompleted);
  }

  method PruneAndRaise(p: Profile, db: Db, output: LinkageOutput, task: string, now: int)
    requires db.LinkIds()
    modifies db`links, db`nodes, db`tasks, db`queue
    ensures db.LinkIds() && db.links == AfterBothPrunes(old(db.links), output)
    ensures db.nodes == NodesAfterAll(p, old(db.queue), NodesClosed(old(db.nodes), ClosedOrders(old(db.links), output)),
                                      output.flags, |output.flags|, task, now)
    ensures db.tasks == TasksClosed(old(db.tasks), ClosedOrders(old(db.links), output))
    ensures db.queue == RowsAfterAll(p, old(db.queue), output.flags, |output.flags|, task, now)
  {
    PrunesKeepIds(db.links, output, db.nextLinkId);
    PruneOrders(db, output);
    assert db.LinkIds();
    RaiseAll(p, db, output.flags, task, now);
  }

  /** The agent's answer is applied as a whole, or it leaves the links it had inserted. */
  method ApplyAnswer(p: Profile, db: Db, output: LinkageOutput, task: string, now: int) returns (ok: bool)
    requires db.LinkIds()
    modifies db`links, db`nextLinkId, db`nodes, db`tasks, db`queue
    ensures db.LinkIds() && ok == Accepted(old(db.tasks), db.clientItems, old(TableOf(db)), output)
    ensures ok ==> TablesOf(db) == AfterOutput(p, db.clientItems, old(TablesOf(db)), output, task, now)
    ensures !ok ==>
      && db.tasks == old(db.tasks) && db.queue == old(db.queue)
      && TableOf(db) == AfterFailure(db.tasks, old(TableOf(db)), Some(output))
      && FailedNodes(db.tasks, db.clientItems, old(TableOf(db)), old(db.nodes), db.nodes, Some(output))
  {
    ok := LinkAndReconcile(db, output);
    if ok {
      assert TableOf(db) == WithInserted(old(TableOf(db)), output.updates, |output.updates|);
      PruneAndRaise(p, db, output, task, now);
    }
  }

  /** An attempt at the event works: there is nothing to do, or the agent's answer can be applied. */
  ghost predicate Works(tasks: Tasks, items: seq<Item>, table: LinkTable, event: Event, answer: Option<LinkageOutput>) {
    Ignored(tasks, event) || (answer.Some? && Accepted(tasks, items, table, answer.value))
  }

  lemma {:induction false} PrunesKeepIds(links: seq<Link>, output: LinkageOutput, next: nat)
    requires FreshIds(links, next)
    ensures FreshIds(AfterBothPrunes(links, output), next)
  {
    var between := AfterPrunes(links, EndedSuppliers(output), OfSupplier, Terminal);
    FilterFreshIds(links, Outside(OfSupplier, PrunedOrders(links, EndedSuppliers(output), OfSupplier, Terminal)), next);
    FilterFreshIds(between, Outside(OfClient, PrunedOrders(between, CompletedClients(output), OfClient, IsCompleted)), next);
  }

  lemma {:induction false} InsertedUnpriced(table: LinkTable, updates: seq<LinkUpdate>, n: nat, client: string)
    requires n <= |updates|
    ensures Unpriced(WithInserted(table, updates, n).links, client) <==>
      Unpriced(table.links, client)
      || exists k :: 0 <= k < n && Counts(InsertedLink(updates[k], 0), client) && updates[k].quantity == None
  {
    var links, added := table.links, Inserted(updates, table.nextId, n);
    var after := links + added;
    if i :| 0 <= i < |links| && Counts(links[i], client) && links[i].quantity == None {
      assert after[i] == links[i];
    }
    if k :| 0 <= k < n && Counts(InsertedLink(updates[k], 0), client) && updates[k].quantity == None {
      assert after[|links| + k] == added[k];
    }
    if i :| 0 <= i < |after| && Counts(after[i], client) && after[i].quantity == None {
      if i < |links| {
        assert after[i] == links[i];
      } else {
        assert after[i] == added[i - |links|];
      }
    }
  }

  lemma {:induction false} FailureKeepsUnpriced(tasks: Tasks, table: LinkTable, answer: Option<LinkageOutput>)
    ensures forall client :: Unpriced(table.links, client) ==> Unpriced(AfterFailure(tasks, table, answer).links, client)
  {
    if answer.Some? {
      forall client | Unpriced(table.links, client)
        ensures Unpriced(AfterFailure(tasks, table, answer).links, client)
      {
        InsertedUnpriced(table, answer.value.updates, Insertable(tasks, answer.value.updates, 0), client);
      }
    }
  }

  lemma {:induction false} OutputKeeps(p: Profile, items: seq<Item>, t: Tables, output: LinkageOutput, task: string, now: int)
    ensures var after := AfterOutput(p, items, t, output, task, now);
      && (forall client :: Touches(output, client) ==> Settled(items, after.links.links, after.nodes, client))
      && forall client :: Unpriced(t.links.links, client) ==> Unpriced(after.links.links, client)
  {
    forall client
      ensures Touches(output, client) ==>
        Settled(items, AfterOutput(p, items, t, output, task, now).links.links,
                AfterOutput(p, items, t, output, task, now).nodes, client)
      ensures Unpriced(t.links.links, client) ==>
        Unpriced(AfterOutput(p, items, t, output, task, now).links.links, client)
    {
      if Touches(output, client) {
        OutputSettles(p, items, t, output, task, now, client);
      }
      InsertedUnpriced(t.links, output.updates, |output.updates|, client);
      BothPrunesKeep(items, WithInserted(t.links, output.updates, |output.updates|).links, output, client);
    }
  }

  /** One attempt at an event: the answer is applied as a whole, or it leaves the links it had inserted. */
  method ProcessEvent(p: Profile, db: Db, event: Event, answer: Option<LinkageOutput>, now: int) returns (ok: bool)
    requires db.LinkIds()
    modifies db`links, db`nextLinkId, db`nodes, db`tasks, db`queue, db`acked
    ensures db.LinkIds()
    ensures ok == Works(old(db.tasks), db.clientItems, old(TableOf(db)), event, answer)
    ensures db.acked == if ok then old(db.acked) + [event.id] else old(db.acked)
    ensures ok && Ignored(old(db.tasks), event) ==> TablesOf(db) == old(TablesOf(db))
    ensures Ignored(old(db.tasks), event) <==>
      || event.kind != "message_processed" || event.payload == Missing || event.payload == Malformed
      || forall task :: task in old(db.tasks) && old(db.tasks)[task].orderType == "client_order" ==> old(db.tasks)[task].closed
    ensures ok && !Ignored(old(db.tasks), event) ==>
      TablesOf(db) == AfterOutput(p, db.clientItems, old(TablesOf(db)), answer.value, event.task, now)
    ensures !ok ==>
      && db.tasks == old(db.tasks) && db.queue == old(db.queue)
      && TableOf(db) == AfterFailure(db.tasks, old(TableOf(db)), answer)
      && FailedNodes(db.tasks, db.clientItems, old(TableOf(db)), old(db.nodes), db.nodes, answer)
    ensures ok && !Ignored(old(db.tasks), event) ==>
      forall client :: Touches(answer.value, client) ==> Settled(db.clientItems, db.links, db.nodes, client)
    ensures forall client :: Unpriced(old(db.links), client) ==> Unpriced(db.links, client)
  {
    if event.kind != "message_processed" || event.payload != Parsed || !OpenClientOrders(db.tasks) {
      db.acked := db.acked + [event.id];
      return true;
    }
    if answer == None {
      return false;
    }
    ok := ApplyAnswer(p, db, answer.value, event.task, now);
    FailureKeepsUnpriced(old(db.tasks), old(TableOf(db)), answer);
    if ok {
      OutputKeeps(p, db.clientItems, old(TablesOf(db)), answer.value, event.task, now);
      db.acked := db.acked + [event.id];
    }
  }

  // ---- Retries ----

  /** The links when k attempts have failed. */
  function TableBefore(tasks: Tasks, table: LinkTable, answers: seq<Option<LinkageOutput>>, k: nat): LinkTable
    requires k <= |answers|
  {
    if k == 0 then table else AfterFailure(tasks, TableBefore(tasks, table, answers, k - 1), answers[k - 1])
  }

  /** The first n attempts fail. */
  ghost predicate AllFail(tasks: Tasks, items: seq<Item>, table: LinkTable, event: Event,
                          answers: seq<Option<LinkageOutput>>, n: nat)
    requires n <= |answers|
  {
    forall k :: 0 <= k < n ==> !Works(tasks, items, TableBefore(tasks, table, answers, k), event, answers[k])
  }

  ghost predicate AllAffect(answers: seq<Option<LinkageOutput>>, client: string) {
    forall k :: 0 <= k < |answers| && answers[k].Some? ==> Touches(answers[k].value, client)
  }

  lemma {:induction false} PoisonStays(tasks: Tasks, table: LinkTable, answers: seq<Option<LinkageOutput>>, client: string,
                                       n: nat)
    requires Unpriced(table.links, client) && n <= |answers|
    ensures Unpriced(TableBefore(tasks, table, answers, n).links, client)
  {
    for k := 0 to n
      invariant Unpriced(TableBefore(tasks, table, answers, k).links, client)
    {
      FailureKeepsUnpriced(tasks, TableBefore(tasks, table, answers, k), answers[k]);
    }
  }

  lemma {:induction false} PoisonRefuses(tasks: Tasks, items: seq<Item>, table: LinkTable, output: LinkageOutput, client: string)
    requires Raises(items, table.links, client) && Touches(output, client)
    ensures !Accepted(tasks, items, table, output)
  {
    AffectedMeans(output, client);
    InsertedUnpriced(table, output.updates, |output.updates|, client);
  }

  /** A poisoned client stays poisoned, and every event whose answers affect it ends in the dead letters. */
  lemma {:induction false} PoisonFails(tasks: Tasks, items: seq<Item>, table: LinkTable, event: Event,
                                       answers: seq<Option<LinkageOutput>>, client: string)
    requires Raises(items, table.links, client) && !Ignored(tasks, event)
    ensures forall k :: 0 <= k <= |answers| ==> Raises(items, TableBefore(tasks, table, answers, k).links, client)
    ensures AllAffect(answers, client) ==> AllFail(tasks, items, table, event, answers, |answers|)
  {
    forall k | 0 <= k <= |answers|
      ensures Raises(items, TableBefore(tasks, table, answers, k).links, client)
    {
      PoisonStays(tasks, table, answers, client, k);
    }
    forall k | 0 <= k < |answers| && answers[k].Some? && Touches(answers[k].value, client)
      ensures !Accepted(tasks, items, TableBefore(tasks, table, answers, k), answers[k].value)
    {
      PoisonRefuses(tasks, items, TableBefore(tasks, table, answers, k), answers[k].value, client);
    }
  }

  lemma {:induction false} NoPoisonWorks(tasks: Tasks, items: seq<Item>, table: LinkTable, event: Event,
                                         answers: seq<Option<LinkageOutput>>, k: nat)
    requires k < |answers| && !Ignored(tasks, event)
    requires Works(tasks, items, TableBefore(tasks, table, answers, k), event, answers[k])
    ensures forall client :: Raises(items, table.links, client) ==> !AllAffect(answers, client)
  {
    forall client | Raises(items, table.links, client)
      ensures !AllAffect(answers, client)
    {
      PoisonFails(tasks, items, table, event, answers, client);
    }
  }

  /** The nodes before each attempt: a failed one wrote the agent's updates and the verdicts of some clients, at most. */
  ghost predicate NodesThroughout(tasks: Tasks, items: seq<Item>, table: LinkTable, answers: seq<Option<LinkageOutput>>,
                                  nodesAt: seq<Nodes>)
    requires 0 < |nodesAt| <= |answers| + 1
  {
    forall k :: 0 <= k < |nodesAt| - 1 ==>
      FailedNodes(tasks, items, TableBefore(tasks, table, answers, k), nodesAt[k], nodesAt[k + 1], answers[k])
  }

  lemma {:induction false} NodesOneMore(tasks: Tasks, items: seq<Item>, table: LinkTable, answers: seq<Option<LinkageOutput>>,
                                        nodesAt: seq<Nodes>, nodes: Nodes)
    requires 0 < |nodesAt| <= |answers| && NodesThroughout(tasks, items, table, answers, nodesAt)
    requires var k := |nodesAt| - 1;
      FailedNodes(tasks, items, TableBefore(tasks, table, answers, k), nodesAt[k], nodes, answers[k])
    ensures NodesThroughout(tasks, items, table, answers, nodesAt + [nodes])
  {
    var longer := nodesAt + [nodes];
    forall k | 0 <= k < |longer| - 1
      ensures FailedNodes(tasks, items, TableBefore(tasks, table, answers, k), longer[k], longer[k + 1], answers[k])
    {
      assert longer[k] == nodesAt[k];
      if k < |nodesAt| - 1 {
        assert longer[k + 1] == nodesAt[k + 1];
      } else {
        assert longer[k + 1] == nodes;
      }
    }
  }

  /** The first n attempts have failed, and left these links and nodes. */
  ghost predicate Failed(tasks: Tasks, items: seq<Item>, start: LinkTable, event: Event, answers: seq<Option<LinkageOutput>>,
                         n: nat, table: LinkTable, nodesAt: seq<Nodes>) {
    && n <= |answers| && AllFail(tasks, items, start, event, answers, n) && table == TableBefore(tasks, start, answers, n)
    && |nodesAt| == n + 1 && NodesThroughout(tasks, items, start, answers, nodesAt)
  }

  lemma {:induction false} FailedOneMore(tasks: Tasks, items: seq<Item>, start: LinkTable, event: Event,
                                         answers: seq<Option<LinkageOutput>>, n: nat, table: LinkTable,
                                         nodesAt: seq<Nodes>, nodes: Nodes)
    requires n < |answers| && Failed(tasks, items, start, event, answers, n, table, nodesAt)
    requires !Works(tasks, items, table, event, answers[n])
    requires FailedNodes(tasks, items, table, nodesAt[n], nodes, answers[n])
    ensures Failed(tasks, items, start, event, answers, n + 1, AfterFailure(tasks, table, answers[n]), nodesAt + [nodes])
  {
    NodesOneMore(tasks, items, start, answers, nodesAt, nodes);
  }

  /**
   At most three attempts, each with an answer of its own, on the links that the
   failed ones left; the event is acknowledged when one of them works.
   */
  method Attempt(p: Profile, db: Db, event: Event, answers: seq<Option<LinkageOutput>>, now: int)
      returns (failures: nat, ghost nodesAt: seq<Nodes>)
    requires db.LinkIds() && |answers| == MAX_RETRY_ATTEMPTS
    modifies db`links, db`nextLinkId, db`nodes, db`tasks, db`queue, db`acked
    ensures db.LinkIds() && failures <= MAX_RETRY_ATTEMPTS
    ensures db.acked == if failures < MAX_RETRY_ATTEMPTS then old(db.acked) + [event.id] else old(db.acked)
    ensures Failed(old(db.tasks), db.clientItems, old(TableOf(db)), event, answers, failures,
                   TableBefore(old(db.tasks), old(TableOf(db)), answers, failures), nodesAt)
    ensures nodesAt[0] == old(db.nodes)
    ensures
      var table := TableBefore(old(db.tasks), old(TableOf(db)), answers, failures);
      var before := Tables(table, nodesAt[failures], old(db.tasks), old(db.queue));
      if failures == MAX_RETRY_ATTEMPTS then TablesOf(db) == before
      else
        && Works(old(db.tasks), db.clientItems, table, event, answers[failures])
        && TablesOf(db) == AfterAttempt(p, db.clientItems, before, event, answers[failures], now)
  {
    failures, nodesAt := 0, [db.nodes];
    while failures < MAX_RETRY_ATTEMPTS
      invariant db.LinkIds() && failures <= MAX_RETRY_ATTEMPTS && db.acked == old(db.acked)
      invariant db.tasks == old(db.tasks) && db.queue == old(db.queue)
      invariant Failed(old(db.tasks), db.clientItems, old(TableOf(db)), event, answers, failures, TableOf(db), nodesAt)
      invariant nodesAt[0] == old(db.nodes) && nodesAt[failures] == db.nodes
      decreases MAX_RETRY_ATTEMPTS - failures
    {
      ghost var before := TablesOf(db);
      var ok := ProcessEvent(p, db, event, answers[failures], now);
      if ok {
        assert TablesOf(db) == AfterAttempt(p, db.clientItems, before, event, answers[failures], now);
        return;
      }
      FailedOneMore(old(db.tasks), db.clientItems, old(TableOf(db)), event, answers, failures, before.links, nodesAt, db.nodes);
      failures, nodesAt := failures + 1, nodesAt + [db.nodes];
    }
  }

  /** What an attempt that works leaves. */
  ghost function AfterAttempt(p: Profile, items: seq<Item>, t: Tables, event: Event, answer: Option<LinkageOutput>,
                              now: int): Tables
    requires Works(t.tasks, items, t.links, event, answer)
  {
    if Ignored(t.tasks, event) then t else AfterOutput(p, items, t, answer.value, event.task, now)
  }

  /**
   An event with its retries.  It is acknowledged once in any case; it goes to
   the dead letters when all attempts failed, which a poisoned client makes sure of.
   */
  method ProcessWithRetry(p: Profile, db: Db, event: Event, answers: seq<Option<LinkageOutput>>, now: int)
      returns (failures: nat, ghost nodesAt: seq<Nodes>)
    requires db.LinkIds() && |answers| == 3
    modifies db`links, db`nextLinkId, db`nodes, db`tasks, db`queue, db`acked, db`deadLetters
    ensures db.LinkIds()
    ensures db.acked == old(db.acked) + [event.id] && failures <= 3
    ensures db.deadLetters == if failures == 3 then old(db.deadLetters) + [event.id] else old(db.deadLetters)
    ensures AllFail(old(db.tasks), db.clientItems, old(TableOf(db)), event, answers, failures)
    ensures |nodesAt| == failures + 1 && nodesAt[0] == old(db.nodes)
    ensures NodesThroughout(old(db.tasks), db.clientItems, old(TableOf(db)), answers, nodesAt)
    ensures
      var table := TableBefore(old(db.tasks), old(TableOf(db)), answers, failures);
      var before := Tables(table, nodesAt[failures], old(db.tasks), old(db.queue));
      if failures == 3 then TablesOf(db) == before
      else
        && Works(old(db.tasks), db.clientItems, table, event, answers[failures])
        && TablesOf(db) == AfterAttempt(p, db.clientItems, before, event, answers[failures], now)
    ensures failures < 3 && !Ignored(old(db.tasks), event) ==>
      forall client :: Touches(answers[failures].value, client) ==>
        Settled(db.clientItems, db.links, db.nodes, client)
    ensures forall client :: Unpriced(old(db.links), client) ==> Unpriced(db.links, client)
    ensures !Ignored(old(db.tasks), event)
            && (exists client :: Raises(db.clientItems, old(db.links), client) && AllAffect(answers, client)) ==>
      failures == 3
  {
    failures, nodesAt := Attempt(p, db, event, answers, now);
    ghost var table := TableBefore(old(db.tasks), old(TableOf(db)), answers, failures);
    forall client | Unpriced(old(db.links), client)
      ensures Unpriced(table.links, client)
    {
      PoisonStays(old(db.tasks), old(TableOf(db)), answers, client, failures);
    }
    if failures == MAX_RETRY_ATTEMPTS {
      db.deadLetters := db.deadLetters + [event.id];
      db.acked := db.acked + [event.id];
    } else if !Ignored(old(db.tasks), event) {
      NoPoisonWorks(old(db.tasks), db.clientItems, old(TableOf(db)), event, answers, failures);
      OutputKeeps(p, db.clientItems, Tables(table, nodesAt[failures], old(db.tasks), old(db.queue)),
                  answers[failures].value, event.task, now);
    }
  }

  // ---- Poisoned clients ----

  /** The update's link counts for the client, and has no quantity. */
  ghost predicate InsertsUnpriced(update: LinkUpdate, client: string) {
    && update.client == client && update.quantity == None
    && (|| update.status == Confirmed || update.status == AutoAllocated
        || (update.status == Candidate && update.confidence >= 0.92))
  }

  /**
   A failed attempt poisons a client with items exactly if it inserted a
   counting link of that client without a quantity.
   */
  lemma {:induction false} FailurePoisons(tasks: Tasks, items: seq<Item>, table: LinkTable, output: LinkageOutput,
                                          client: string)
    requires !Raises(items, table.links, client)
    ensures Raises(items, AfterFailure(tasks, table, Some(output)).links, client) <==>
      && HasItems(items, client)
      && exists k :: 0 <= k < |output.updates| && AllRefer(tasks, output.updates[..k + 1]) && InsertsUnpriced(output.updates[k], client)
  {
    var n := Insertable(tasks, output.updates, 0);
    InsertedUnpriced(table, output.updates, n, client);
    forall k | 0 <= k < |output.updates|
      ensures k < n <==> AllRefer(tasks, output.updates[..k + 1])
      ensures Counts(InsertedLink(output.updates[k], 0), client) && output.updates[k].quantity == None
        <==> InsertsUnpriced(output.updates[k], client)
    {
      if n <= k {
        assert output.updates[..k + 1][n] == output.updates[n] && !Refers(tasks, NewLink(output.updates[n], 0));
      } else {
        forall i | 0 <= i <= k
          ensures Refers(tasks, NewLink(output.updates[i], 0)) && output.updates[..k + 1][i] == output.updates[i]
        {
        }
      }
    }
  }

  /** An answer that is applied poisons nobody, and heals nobody. */
  lemma {:induction false} SuccessNeverPoisons(p: Profile, items: seq<Item>, t: Tables, output: LinkageOutput, task: string,
                                               now: int, client: string)
    requires Accepted(t.tasks, items, t.links, output)
    ensures Raises(items, AfterOutput(p, items, t, output, task, now).links.links, client) <==>
      Raises(items, t.links.links, client)
  {
    var n := |output.updates|;
    BothPrunesKeep(items, WithInserted(t.links, output.updates, n).links, output, client);
    InsertedUnpriced(t.links, output.updates, n, client);
    if k :| 0 <= k < n && Counts(InsertedLink(output.updates[k], 0), client) && output.updates[k].quantity == None {
      assert client in Affected(output);
    }
  }

  /** It happens: a confident candidate without a quantity fails, and poisons its client. */
  lemma {:induction false} ConfidentCandidatePoisons()
    ensures
      var tasks := map["c1" := Task("client_order", false)];
      var items := [Item("c1", "atta 50kg", None, Some(50.0), None)];
      var event := Event("e1", "message_processed", Parsed, "c1");
      var output := LinkageOutput([LinkUpdate("c1", "atta 50kg", None, None, None, 0.95, Candidate)], [], []);
      var empty := LinkTable([], 0);
      && !Ignored(tasks, event) && !Raises(items, empty.links, "c1")
      && !Works(tasks, items, empty, event, Some(output))
      && Raises(items, AfterFailure(tasks, empty, Some(output)).links, "c1")
  {
    var tasks := map["c1" := Task("client_order", false)];
    var items := [Item("c1", "atta 50kg", None, Some(50.0), None)];
    var output := LinkageOutput([LinkUpdate("c1", "atta 50kg", None, None, None, 0.95, Candidate)], [], []);
    var empty := LinkTable([], 0);
    assert items[0].task == "c1" && "c1" in tasks && tasks["c1"].orderType == "client_order";
    assert Counts(InsertedLink(output.updates[0], 0), "c1") && output.updates[0].quantity == None;
    assert Insertable(tasks, output.updates, 0) == 1;
    assert "c1" in Affected(output) by {
      assert output.updates[0].client == "c1";
    }
    FailurePoisons(tasks, items, empty, output, "c1");
  }

  // ---- Triggers behind a reconciliation ----

  /** Reconciling leaves a trigger due exactly when it makes an order ready whose checklist has not started. */
  lemma {:induction false} ReconcileKeepsClosed(items: seq<Item>, links: seq<Link>, nodes: Nodes, client: string)
    requires Closed(nodes, client)
    ensures Closed(Reconciled(items, links, nodes, client), client) <==>
      !(Verdict(items, links, client).Some? && StatusOf(nodes, client, "order_ready").Some?
        && Idle(StatusOf(nodes, client, "predispatch_checklist")))
  {
    VerdictMeans(items, links, client);
  }

  /** It happens: one item, one confirmed link that meets it, and the checklist stays pending. */
  lemma {:induction false} ReconcileLeavesTriggerDue()
    ensures
      var nodes := map[NodeKey("c1", "order_ready") := Pending, NodeKey("c1", "predispatch_checklist") := Pending];
      var items := [Item("c1", "atta 50kg", None, Some(50.0), None)];
      var links := [Link(0, "c1", "atta 50kg", Some("s1"), None, Some(50.0), 0.95, Confirmed)];
      Closed(nodes, "c1") && ChecklistDue(Reconciled(items, links, nodes, "c1"), "c1")
  {
    var items := [Item("c1", "atta 50kg", None, Some(50.0), None)];
    var links := [Link(0, "c1", "atta 50kg", Some("s1"), None, Some(50.0), 0.95, Confirmed)];
    assert Allocated(links, 0, "c1", "atta 50kg") == 0.0;
    assert Met(links, items[0]);
    VerdictMeans(items, links, "c1");
  }
}
