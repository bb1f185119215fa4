/**
 The tables that the workers share.  A node's text key joins a task id and a
 node id; here it is the pair.  A row of the ambiguity queue is known by its
 position, because rows are never deleted.
 */
module Database {
  import opened Options
  import opened Severities

  datatype Status =
    Pending | Active | InProgress | Completed | Blocked | Provisional | Skipped | Failed | Partial

  datatype NodeKey = NodeKey(task: string, node: string)

  type Nodes = map<NodeKey, Status>

  /** `UPDATE task_nodes`: a node that does not exist is not created. */
  function SetNode(nodes: Nodes, key: NodeKey, status: Status): Nodes {
    if key in nodes then nodes[key := status] else nodes
  }

  /** `nodes.get(node)` for one task. */
  function StatusOf(nodes: Nodes, task: string, node: string): Option<Status> {
    var key := NodeKey(task, node);
    if key in nodes then Some(nodes[key]) else None
  }

  datatype EntryStatus = Waiting | Escalated | Expired

  /** A row of `ambiguity_queue`. */
  datatype Entry = Entry(
    task: string, node: Option<string>, severity: Severity, category: string, target: seq<string>,
    blocking: bool, status: EntryStatus, createdAt: int, escalatedAt: Option<int>, reEscalations: nat)

  datatype AlertKind = Escalation | ReEscalation

  /** A row of `task_alerts_fired`. */
  datatype Alert = Alert(kind: AlertKind, task: string, node: Option<string>, severity: Severity, category: string)

  /** A row of `task_instances`; a closed one has the stage "completed". */
  datatype Task = Task(orderType: string, closed: bool)

  type Tasks = map<string, Task>

  /** A row of `client_order_items` or `supplier_order_items`. */
  datatype Item = Item(task: string, description: string, unit: Option<string>, quantity: Option<real>, specs: Option<string>)

  datatype LinkStatus = Confirmed | Candidate | AutoAllocated | LinkFailed | Fulfilled | LinkCompleted | Invalidated

  /** A row of `fulfillment_links`. */
  datatype Link = Link(
    id: nat, client: string, clientItem: string, supplier: Option<string>, supplierItem: Option<string>,
    quantity: Option<real>, confidence: real, status: LinkStatus)

  /** Link ids are distinct, and the next one is new. */
  ghost predicate FreshIds(links: seq<Link>, next: nat) {
    && (forall i :: 0 <= i < |links| ==> links[i].id < next)
    && forall i, j :: 0 <= i < j < |links| ==> links[i].id != links[j].id
  }

  class Db {
    var tasks: Tasks
    var nodes: Nodes
    var clientItems: seq<Item>
    var supplierItems: seq<Item>
    var links: seq<Link>
    var nextLinkId: nat
    var queue: seq<Entry>
    var alerts: seq<Alert>
    var acked: seq<string>
    var deadLetters: seq<string>

    ghost predicate LinkIds()
      reads this`links, this`nextLinkId
    {
      FreshIds(links, nextLinkId)
    }

    constructor (tasks: Tasks, nodes: Nodes)
      ensures this.tasks == tasks && this.nodes == nodes && queue == [] && alerts == []
      ensures clientItems == [] && supplierItems == [] && links == [] && acked == [] && deadLetters == [] && LinkIds()
    {
      this.tasks := tasks;
      this.nodes := nodes;
      clientItems, supplierItems := [], [];
      links, nextLinkId := [], 0;
      queue, alerts := [], [];
      acked, deadLetters := [], [];
    }

    method UpdateNode(task: string, node: string, status: Status)
      modifies this`nodes
      ensures nodes == SetNode(old(nodes), NodeKey(task, node), status)
    {
      var key := NodeKey(task, node);
      if key in nodes {
        nodes := nodes[key := status];
      }
    }
  }
}
