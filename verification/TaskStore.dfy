/**
 The task store: the automatic triggers between the nodes of a task, and the
 item extractions of an agent, which add, change or remove the items of one
 task in the table of its order type.  The links between client and supplier
 orders, with their reconciliation and pruning, have a module of their own,
 `Fulfilment`.
 */
module TaskStore {
  import opened Options
  import opened Database
  import opened Ordering

  // ---- Automatic triggers ----

  predicate Idle(status: Option<Status>) {
    status == Some(Pending) || status == Some(Skipped)
  }

  /** What the order gets from stock, if stock alone decides. */
  function StockVerdict(nodes: Nodes, task: string): Option<Status> {
    var stock := StatusOf(nodes, task, "filled_from_stock");
    if stock !in {Some(Active), Some(Completed)} then None
    else if StatusOf(nodes, task, "supplier_indent") !in {None, Some(Skipped), Some(Pending)} then None
    else if StatusOf(nodes, task, "order_ready") in {Some(Completed), Some(Active)} then None
    else stock
  }

  function StockChecked(nodes: Nodes, task: string): Nodes {
    match StockVerdict(nodes, task)
    case None => nodes
    case Some(status) => SetNode(nodes, NodeKey(task, "order_ready"), status)
  }

  predicate ChecklistDue(nodes: Nodes, task: string) {
    (StatusOf(nodes, task, "order_ready") == Some(Completed) || StatusOf(nodes, task, "order_ready") == Some(Partial))
    && Idle(StatusOf(nodes, task, "predispatch_checklist"))
  }

  predicate PhotoDue(nodes: Nodes, task: string) {
    StatusOf(nodes, task, "dispatched") == Some(Completed) && Idle(StatusOf(nodes, task, "delivery_photo_check"))
  }

  function Cascaded(nodes: Nodes, task: string): Nodes {
    var first := if ChecklistDue(nodes, task) then SetNode(nodes, NodeKey(task, "predispatch_checklist"), Active) else nodes;
    if PhotoDue(nodes, task) then SetNode(first, NodeKey(task, "delivery_photo_check"), Active) else first
  }

  /** No trigger of the task is due. */
  ghost predicate Closed(nodes: Nodes, task: string) {
    !ChecklistDue(nodes, task) && !PhotoDue(nodes, task)
  }

  lemma {:induction false} CascadeCloses(nodes: Nodes, task: string)
    ensures Closed(Cascaded(nodes, task), task)
    ensures forall key :: key in Cascaded(nodes, task) <==> key in nodes
    ensures forall key :: key in nodes && Cascaded(nodes, task)[key] != nodes[key] ==>
      key in {NodeKey(task, "predispatch_checklist"), NodeKey(task, "delivery_photo_check")}
  {
  }

  /** Where no trigger is due the cascade changes nothing, and only there. */
  lemma {:induction false} CascadeFixpoint(nodes: Nodes, task: string)
    ensures Cascaded(nodes, task) == nodes <==> Closed(nodes, task)
  {
    if ChecklistDue(nodes, task) {
      assert Cascaded(nodes, task)[NodeKey(task, "predispatch_checklist")] == Active;
    } else if PhotoDue(nodes, task) {
      assert Cascaded(nodes, task)[NodeKey(task, "delivery_photo_check")] == Active;
    }
  }

  /** Stock check and then cascade: doing both again changes nothing. */
  lemma {:induction false} TriggersIdempotent(nodes: Nodes, task: string)
    ensures var once := Cascaded(StockChecked(nodes, task), task); Cascaded(StockChecked(once, task), task) == once
  {
    var once := Cascaded(StockChecked(nodes, task), task);
    CascadeCloses(StockChecked(nodes, task), task);
    assert StockChecked(once, task) == once;
    CascadeFixpoint(once, task);
  }

  /** What the stock check does to the nodes of a task. */
  ghost predicate StockDecides(nodes: Nodes, after: Nodes, task: string) {
    var stock, indent := StatusOf(nodes, task, "filled_from_stock"), StatusOf(nodes, task, "supplier_indent");
    var ready := StatusOf(nodes, task, "order_ready");
    var decides := && (stock == Some(Active) || stock == Some(Completed))
                   && (indent == None || indent == Some(Skipped) || indent == Some(Pending))
                   && ready != Some(Completed) && ready != Some(Active);
    && after.Keys == nodes.Keys
    && forall key :: key in nodes ==>
         after[key] == if decides && key == NodeKey(task, "order_ready") then stock.value else nodes[key]
  }

  /** What the cascade does to them: both conditions look at the nodes before it. */
  ghost predicate TriggersFire(nodes: Nodes, after: Nodes, task: string) {
    && after.Keys == nodes.Keys
    && forall key :: key in nodes ==>
         after[key] ==
           if (nodes[key] == Pending || nodes[key] == Skipped)
              && (|| (&& key == NodeKey(task, "predispatch_checklist")
                      && (StatusOf(nodes, task, "order_ready") == Some(Completed)
                          || StatusOf(nodes, task, "order_ready") == Some(Partial)))
                  || (key == NodeKey(task, "delivery_photo_check") && StatusOf(nodes, task, "dispatched") == Some(Completed)))
           then Active else nodes[key]
  }

  lemma {:induction false} StockMeans(nodes: Nodes, task: string)
    ensures StockDecides(nodes, StockChecked(nodes, task), task)
  {
    var verdict := StockVerdict(nodes, task);
    assert verdict.Some? ==> verdict == StatusOf(nodes, task, "filled_from_stock");
    assert StockChecked(nodes, task).Keys == nodes.Keys;
  }

  lemma {:induction false} CascadeMeans(nodes: Nodes, task: string)
    ensures TriggersFire(nodes, Cascaded(nodes, task), task)
  {
    assert Cascaded(nodes, task).Keys == nodes.Keys;
  }

  method CheckStock(db: Db, task: string) returns (verdict: Option<Status>)
    modifies db`nodes
    ensures verdict == StockVerdict(old(db.nodes), task)
    ensures db.nodes == StockChecked(old(db.nodes), task)
  {
    var stock := StatusOf(db.nodes, task, "filled_from_stock");
    if stock != Some(Active) && stock != Some(Completed) {
      return None;
    }
    var indent := StatusOf(db.nodes, task, "supplier_indent");
    if indent != None && indent != Some(Skipped) && indent != Some(Pending) {
      return None;
    }
    var ready := StatusOf(db.nodes, task, "order_ready");
    if ready == Some(Completed) || ready == Some(Active) {
      return None;
    }
    var status := if stock == Some(Completed) then Completed else Active;
    db.UpdateNode(task, "order_ready", status);
    return Some(status);
  }

  /** Both conditions are read before either node is written. */
  method CascadeTriggers(db: Db, task: string) returns (activated: seq<string>)
    modifies db`nodes
    ensures db.nodes == Cascaded(old(db.nodes), task)
    ensures activated
      == (if ChecklistDue(old(db.nodes), task) then ["predispatch_checklist"] else [])
       + (if PhotoDue(old(db.nodes), task) then ["delivery_photo_check"] else [])
  {
    var nodes := db.nodes;
    activated := [];
    var ready, checklist := StatusOf(nodes, task, "order_ready"), StatusOf(nodes, task, "predispatch_checklist");
    if ready in {Some(Completed), Some(Partial)} && checklist in {Some(Pending), Some(Skipped)} {
      db.UpdateNode(task, "predispatch_checklist", Active);
      activated := activated + ["predispatch_checklist"];
    }
    if StatusOf(nodes, task, "dispatched") == Some(Completed)
       && StatusOf(nodes, task, "delivery_photo_check") in {Some(Pending), Some(Skipped)}
    {
      db.UpdateNode(task, "delivery_photo_check", Active);
      activated := activated + ["delivery_photo_check"];
    }
  }

  // ---- Item extractions ----

  datatype ItemOp = AddItem | UpdateItem | RemoveItem

  datatype Extraction = Extraction(
    op: ItemOp, description: string, unit: Option<string>, quantity: Option<real>, specs: Option<string>,
    existing: Option<string>)

  /** `existing_description or description` */
  function Matches(ext: Extraction): string {
    if ext.existing.Some? && ext.existing.value != "" then ext.existing.value else ext.description
  }

  function Extracted(ext: Extraction, task: string): Item {
    Item(task, ext.description, ext.unit, ext.quantity, ext.specs)
  }

  predicate Hit(item: Item, task: string, ext: Extraction) {
    item.task == task && item.description == Matches(ext)
  }

  function Rewritten(items: seq<Item>, task: string, ext: Extraction): seq<Item> {
    seq(|items|, i requires 0 <= i < |items| => if Hit(items[i], task, ext) then Extracted(ext, task) else items[i])
  }

  function AfterExtraction(items: seq<Item>, task: string, ext: Extraction): seq<Item> {
    match ext.op
    case AddItem => items + [Extracted(ext, task)]
    case UpdateItem => Rewritten(items, task, ext)
    case RemoveItem => Filter(item => !Hit(item, task, ext), items)
  }

  function AfterExtractions(items: seq<Item>, task: string, exts: seq<Extraction>, n: nat): seq<Item>
    requires n <= |exts|
  {
    if n == 0 then items else AfterExtraction(AfterExtractions(items, task, exts, n - 1), task, exts[n - 1])
  }

  function ItemsOf(items: seq<Item>, task: string): seq<Item> {
    Filter((item: Item) => item.task == task, items)
  }

  lemma {:induction false} RewrittenOthers(items: seq<Item>, task: string, ext: Extraction, other: string)
    requires other != task
    ensures ItemsOf(Rewritten(items, task, ext), other) == ItemsOf(items, other)
  {
    if items != [] {
      var n := |items| - 1;
      RewrittenOthers(items[..n], task, ext, other);
      assert Rewritten(items, task, ext)[..n] == Rewritten(items[..n], task, ext);
    }
  }

  lemma {:induction false} RemovedOthers(items: seq<Item>, task: string, ext: Extraction, other: string)
    requires other != task
    ensures ItemsOf(Filter((item: Item) => !Hit(item, task, ext), items), other) == ItemsOf(items, other)
  {
    if items != [] {
      var n := |items| - 1;
      RemovedOthers(items[..n], task, ext, other);
      if items[n].task != task {
        FilterAppend((item: Item) => item.task == other, Filter((item: Item) => !Hit(item, task, ext), items[..n]), items[n]);
      }
    }
  }

  /** Extractions of one task leave the items of every other task alone, in order. */
  lemma {:induction false} OtherTasksUntouched(items: seq<Item>, task: string, exts: seq<Extraction>, n: nat, other: string)
    requires n <= |exts| && other != task
    ensures ItemsOf(AfterExtractions(items, task, exts, n), other) == ItemsOf(items, other)
  {
    if n > 0 {
      OtherTasksUntouched(items, task, exts, n - 1, other);
      var before, ext := AfterExtractions(items, task, exts, n - 1), exts[n - 1];
      match ext.op
      case AddItem => FilterAppend((item: Item) => item.task == other, before, Extracted(ext, task));
      case UpdateItem => RewrittenOthers(before, task, ext, other);
      case RemoveItem => RemovedOthers(before, task, ext, other);
    }
  }

  /** Which items an update or removal is about: the description it names, or else its own. */
  ghost predicate Names(ext: Extraction, item: Item, task: string) {
    && item.task == task
    && item.description ==
       if ext.existing == None || ext.existing == Some("") then ext.description else ext.existing.value
  }

  /** What one extraction does to the table. */
  ghost predicate Extracts(items: seq<Item>, after: seq<Item>, task: string, ext: Extraction) {
    var item := Item(task, ext.description, ext.unit, ext.quantity, ext.specs);
    match ext.op
    case AddItem => after == items + [item]
    case UpdateItem =>
      && |after| == |items|
      && forall i :: 0 <= i < |items| ==> after[i] == if Names(ext, items[i], task) then item else items[i]
    case RemoveItem =>
      forall x :: multiset(after)[x] == if Names(ext, x, task) then 0 else multiset(items)[x]
  }

  lemma {:induction false} RemovedCount(items: seq<Item>, task: string, ext: Extraction, x: Item)
    ensures multiset(Filter((item: Item) => !Hit(item, task, ext), items))[x] ==
      if Names(ext, x, task) then 0 else multiset(items)[x]
  {
    if items != [] {
      var n := |items| - 1;
      RemovedCount(items[..n], task, ext, x);
      assert items == items[..n] + [items[n]];
    }
  }

  /** Every extraction adds its item, rewrites the items it names, or removes them; the rest stays. */
  lemma {:induction false} ExtractionsMean(items: seq<Item>, task: string, exts: seq<Extraction>, n: nat)
    requires n < |exts|
    ensures Extracts(AfterExtractions(items, task, exts, n), AfterExtractions(items, task, exts, n + 1), task, exts[n])
  {
    var before, ext := AfterExtractions(items, task, exts, n), exts[n];
    if ext.op == RemoveItem {
      forall x
        ensures multiset(Filter((item: Item) => !Hit(item, task, ext), before))[x] ==
          if Names(ext, x, task) then 0 else multiset(before)[x]
      {
        RemovedCount(before, task, ext, x);
      }
    }
  }

  method ApplyItemExtractions(db: Db, task: string, orderType: string, exts: seq<Extraction>) returns (changed: seq<string>)
    modifies db`clientItems, db`supplierItems
    ensures |changed| == |exts|
    ensures forall i :: 0 <= i < |exts| ==>
      changed[i] == if exts[i].op == RemoveItem then Matches(exts[i]) else exts[i].description
    ensures orderType == "supplier_order" ==>
      && db.supplierItems == AfterExtractions(old(db.supplierItems), task, exts, |exts|)
      && db.clientItems == old(db.clientItems)
    ensures orderType != "supplier_order" ==>
      && db.clientItems == AfterExtractions(old(db.clientItems), task, exts, |exts|)
      && db.supplierItems == old(db.supplierItems)
  {
    var table := if orderType == "supplier_order" then db.supplierItems else db.clientItems;
    ghost var before := table;
    changed := [];
    for i := 0 to |exts|
      invariant table == AfterExtractions(before, task, exts, i)
      invariant |changed| == i
      invariant forall k :: 0 <= k < i ==>
        changed[k] == if exts[k].op == RemoveItem then Matches(exts[k]) else exts[k].description
    {
      var ext := exts[i];
      match ext.op
      case AddItem =>
        table := table + [Item(task, ext.description, ext.unit, ext.quantity, ext.specs)];
        changed := changed + [ext.description];
      case UpdateItem =>
        table := Rewritten(table, task, ext);
        changed := changed + [ext.description];
      case RemoveItem =>
        table := Filter(item => !Hit(item, task, ext), table);
        changed := changed + [Matches(ext)];
    }
    if orderType == "supplier_order" {
      db.supplierItems := table;
    } else {
      db.clientItems := table;
    }
  }
}
