/**
 Fulfilment links between client and supplier orders: upserting, reconciling a
 client order against its links, and pruning.
 */
module Fulfilment {
  import opened Options
  import opened Database
  import opened Ordering

  const AUTO_CONFIRM := 0.92

  // ---- What a client order has been allocated ----

  /** The link counts towards the client's order. */
  predicate Counts(link: Link, client: string) {
    link.client == client && link.status in {Confirmed, AutoAllocated}
  }

  function Amount(link: Link): real {
    match link.quantity case None => 0.0 case Some(q) => q
  }

  predicate CountsFor(link: Link, client: string, description: string) {
    Counts(link, client) && link.clientItem == description
  }

  /** The quantity that the first n links allocate to a description. */
  function Allocated(links: seq<Link>, n: nat, client: string, description: string): real
    requires n <= |links|
  {
    if n == 0 then 0.0
    else
      Allocated(links, n - 1, client, description)
      + if CountsFor(links[n - 1], client, description) then Amount(links[n - 1]) else 0.0
  }

  /** `quantity or 0.0` */
  function Required(item: Item): real {
    match item.quantity case None => 0.0 case Some(q) => q
  }

  predicate Met(links: seq<Link>, item: Item) {
    Allocated(links, |links|, item.task, item.description) >= Required(item)
  }

  function CountItems(items: seq<Item>, n: nat, client: string): nat
    requires n <= |items|
  {
    if n == 0 then 0 else CountItems(items, n - 1, client) + if items[n - 1].task == client then 1 else 0
  }

  function CountMet(items: seq<Item>, n: nat, links: seq<Link>, client: string): nat
    requires n <= |items|
  {
    if n == 0 then 0
    else
      CountMet(items, n - 1, links, client) + if items[n - 1].task == client && Met(links, items[n - 1]) then 1 else 0
  }

  function Verdict(items: seq<Item>, links: seq<Link>, client: string): Option<Status> {
    var all, met := CountItems(items, |items|, client), CountMet(items, |items|, links, client);
    if all == 0 then None
    else if met == all then Some(Completed)
    else if met > 0 then Some(Partial)
    else None
  }

  /** A counting link without a quantity makes the sum raise. */
  ghost predicate Unpriced(links: seq<Link>, client: string) {
    exists i :: 0 <= i < |links| && links[i].client == client && links[i].quantity == None
                && (links[i].status == Confirmed || links[i].status == AutoAllocated)
  }

  ghost predicate HasItems(items: seq<Item>, client: string) {
    exists i :: 0 <= i < |items| && items[i].task == client
  }

  ghost predicate Raises(items: seq<Item>, links: seq<Link>, client: string) {
    HasItems(items, client) && Unpriced(links, client)
  }

  lemma {:induction false} CountBounds(items: seq<Item>, n: nat, links: seq<Link>, client: string)
    requires n <= |items|
    ensures CountMet(items, n, links, client) <= CountItems(items, n, client)
    ensures CountItems(items, n, client) > 0 <==> exists i :: 0 <= i < n && items[i].task == client
    ensures CountMet(items, n, links, client) > 0 <==> exists i :: 0 <= i < n && items[i].task == client && Met(links, items[i])
    ensures CountMet(items, n, links, client) == CountItems(items, n, client)
      <==> forall i :: 0 <= i < n && items[i].task == client ==> Met(links, items[i])
  {
    if n > 0 {
      CountBounds(items, n - 1, links, client);
    }
  }

  /** The links allocate what the item asks for; an item without a quantity asks for nothing. */
  ghost predicate HasEnough(links: seq<Link>, item: Item) {
    Allocated(links, |links|, item.task, item.description) >= if item.quantity == None then 0.0 else item.quantity.value
  }

  /** The verdict without counting: every item met, some met, or none. */
  lemma {:induction false} VerdictMeans(items: seq<Item>, links: seq<Link>, client: string)
    ensures Verdict(items, links, client) == Some(Completed) <==>
      HasItems(items, client) && forall i :: 0 <= i < |items| && items[i].task == client ==> HasEnough(links, items[i])
    ensures Verdict(items, links, client) == Some(Partial) <==>
      && (exists i :: 0 <= i < |items| && items[i].task == client && HasEnough(links, items[i]))
      && (exists i :: 0 <= i < |items| && items[i].task == client && !HasEnough(links, items[i]))
    ensures Verdict(items, links, client) in {None, Some(Partial), Some(Completed)}
  {
    CountBounds(items, |items|, links, client);
    assert forall i :: 0 <= i < |items| ==> (HasEnough(links, items[i]) <==> Met(links, items[i]));
  }

  function Reconciled(items: seq<Item>, links: seq<Link>, nodes: Nodes, client: string): Nodes {
    match Verdict(items, links, client)
    case None => nodes
    case Some(status) => SetNode(nodes, NodeKey(client, "order_ready"), status)
  }

  datatype Outcome<T> = Raised | Returned(value: T)

  function Share(shares: map<string, real>, description: string): real {
    if description in shares then shares[description] else 0.0
  }

  /** The map of allocated quantities, in one pass; raises on a counting link without a quantity. */
  method AllocatedMap(links: seq<Link>, client: string) returns (r: Outcome<map<string, real>>)
    ensures r.Raised? <==> Unpriced(links, client)
    ensures r.Returned? ==> forall d :: Share(r.value, d) == Allocated(links, |links|, client, d)
  {
    var shares: map<string, real> := map[];
    for i := 0 to |links|
      invariant forall k :: 0 <= k < i ==> !(Counts(links[k], client) && links[k].quantity == None)
      invariant forall d :: Share(shares, d) == Allocated(links, i, client, d)
    {
      var link := links[i];
      if link.client == client && link.status in {Confirmed, AutoAllocated} {
        if link.quantity == None {
          return Raised;
        }
        shares := shares[link.clientItem := Share(shares, link.clientItem) + link.quantity.value];
      }
    }
    return Returned(shares);
  }

  method ReconcileOrderReady(db: Db, client: string) returns (r: Outcome<Option<Status>>)
    modifies db`nodes
    ensures r.Raised? <==> Raises(db.clientItems, db.links, client)
    ensures r.Raised? ==> db.nodes == old(db.nodes)
    ensures r.Returned? ==>
      && r.value == Verdict(db.clientItems, db.links, client)
      && db.nodes == Reconciled(db.clientItems, db.links, old(db.nodes), client)
  {
    var items, all := db.clientItems, 0;
    for i := 0 to |items|
      invariant all == CountItems(items, i, client)
    {
      if items[i].task == client {
        all := all + 1;
      }
    }
    CountBounds(items, |items|, db.links, client);
    if all == 0 {
      return Returned(None);
    }
    var shares := AllocatedMap(db.links, client);
    if shares.Raised? {
      return Raised;
    }
    var fullyMet := 0;
    for i := 0 to |items|
      invariant fullyMet == CountMet(items, i, db.links, client)
    {
      if items[i].task == client {
        var required := if items[i].quantity == None then 0.0 else items[i].quantity.value;
        if Share(shares.value, items[i].description) >= required {
          fullyMet := fullyMet + 1;
        }
      }
    }
    var verdict := Partial;
    if fullyMet == all {
      verdict := Completed;
    } else if fullyMet == 0 {
      return Returned(None);
    }
    db.UpdateNode(client, "order_ready", verdict);
    return Returned(Some(verdict));
  }

  // ---- The verdict depends on the allocated sums alone ----

  ghost predicate SameShares(links: seq<Link>, after: seq<Link>, client: string) {
    forall d :: Allocated(after, |after|, client, d) == Allocated(links, |links|, client, d)
  }

  lemma {:induction false} SameCounts(items: seq<Item>, n: nat, links: seq<Link>, after: seq<Link>, client: string)
    requires n <= |items| && SameShares(links, after, client)
    ensures CountMet(items, n, after, client) == CountMet(items, n, links, client)
  {
    if n > 0 {
      SameCounts(items, n - 1, links, after, client);
    }
  }

  lemma {:induction false} SameVerdict(items: seq<Item>, links: seq<Link>, after: seq<Link>, client: string)
    requires SameShares(links, after, client)
    ensures Verdict(items, after, client) == Verdict(items, links, client)
  {
    SameCounts(items, |items|, links, after, client);
  }

  function VerdictRank(verdict: Option<Status>): nat {
    match verdict
    case Some(Completed) => 2
    case Some(_) => 1
    case None => 0
  }

  /** More shares, never a lower verdict. */
  lemma {:induction false} VerdictMonotone(items: seq<Item>, links: seq<Link>, after: seq<Link>, client: string)
    requires forall d :: Allocated(after, |after|, client, d) >= Allocated(links, |links|, client, d)
    ensures VerdictRank(Verdict(items, after, client)) >= VerdictRank(Verdict(items, links, client))
  {
    MoreMet(items, |items|, links, after, client);
    CountBounds(items, |items|, after, client);
  }

  lemma {:induction false} MoreMet(items: seq<Item>, n: nat, links: seq<Link>, after: seq<Link>, client: string)
    requires n <= |items|
    requires forall d :: Allocated(after, |after|, client, d) >= Allocated(links, |links|, client, d)
    ensures CountMet(items, n, after, client) >= CountMet(items, n, links, client)
  {
    if n > 0 {
      MoreMet(items, n - 1, links, after, client);
    }
  }

  lemma {:induction false} AllocatedFrame(links: seq<Link>, after: seq<Link>, n: nat, client: string, d: string)
    requires n <= |links| && n <= |after| && forall i :: 0 <= i < n ==> after[i] == links[i]
    ensures Allocated(after, n, client, d) == Allocated(links, n, client, d)
  {
    if n > 0 {
      AllocatedFrame(links, after, n - 1, client, d);
    }
  }

  /** One link more allocates its quantity to its own item, if it is confirmed or allocated automatically. */
  lemma {:induction false} AllocatedAppend(links: seq<Link>, link: Link, client: string, d: string)
    ensures Allocated([], 0, client, d) == 0.0
    ensures Allocated(links + [link], |links| + 1, client, d)
      == Allocated(links, |links|, client, d)
         + if link.client == client && link.clientItem == d && (link.status == Confirmed || link.status == AutoAllocated)
              && link.quantity.Some?
           then link.quantity.value else 0.0
  {
    AllocatedFrame(links, links + [link], |links|, client, d);
  }

  /** A new link with a quantity that is not negative never lowers a verdict, of any client. */
  lemma {:induction false} NewLinkNeverLowers(items: seq<Item>, links: seq<Link>, link: Link, client: string)
    requires Amount(link) >= 0.0
    ensures VerdictRank(Verdict(items, links + [link], client)) >= VerdictRank(Verdict(items, links, client))
  {
    forall d
      ensures Allocated(links + [link], |links + [link]|, client, d) >= Allocated(links, |links|, client, d)
    {
      AllocatedAppend(links, link, client, d);
    }
    VerdictMonotone(items, links, links + [link], client);
  }

  // ---- Pruning ----

  predicate Terminal(status: LinkStatus) {
    status in {Fulfilled, LinkFailed, Invalidated}
  }

  predicate IsCompleted(status: LinkStatus) {
    status == LinkCompleted
  }

  function OfSupplier(supplier: string): Link -> bool {
    (link: Link) => link.supplier == Some(supplier)
  }

  function OfClient(client: string): Link -> bool {
    (link: Link) => link.client == client
  }

  function Not(which: Link -> bool): Link -> bool {
    (link: Link) => !which(link)
  }

  /** The links of one order are dropped when there are some and all are done. */
  predicate Prunable(links: seq<Link>, which: Link -> bool, done: LinkStatus -> bool) {
    && (exists i :: 0 <= i < |links| && which(links[i]))
    && forall i :: 0 <= i < |links| && which(links[i]) ==> done(links[i].status)
  }

  function Pruned(links: seq<Link>, which: Link -> bool, done: LinkStatus -> bool): seq<Link> {
    if Prunable(links, which, done) then Filter(Not(which), links) else links
  }

  function CloseTask(tasks: Tasks, task: string): Tasks {
    if task in tasks then tasks[task := tasks[task].(closed := true)] else tasks
  }

  /** Drops the links of one order and closes it, if all of them are done. */
  method Prune(db: Db, task: string, which: Link -> bool, done: LinkStatus -> bool) returns (pruned: bool)
    modifies db`links, db`nodes, db`tasks
    ensures pruned == Prunable(old(db.links), which, done)
    ensures db.links == Pruned(old(db.links), which, done)
    ensures db.nodes == if pruned then SetNode(old(db.nodes), NodeKey(task, "task_closed"), Completed) else old(db.nodes)
    ensures db.tasks == if pruned then CloseTask(old(db.tasks), task) else old(db.tasks)
  {
    var found, all := false, true;
    for i := 0 to |db.links|
      invariant found <==> exists k :: 0 <= k < i && which(db.links[k])
      invariant all <==> forall k :: 0 <= k < i && which(db.links[k]) ==> done(db.links[k].status)
    {
      if which(db.links[i]) {
        found := true;
        if !done(db.links[i].status) {
          all := false;
        }
      }
    }
    pruned := found && all;
    if pruned {
      db.links := Filter(Not(which), db.links);
      db.UpdateNode(task, "task_closed", Completed);
      if task in db.tasks {
        db.tasks := db.tasks[task := db.tasks[task].(closed := true)];
      }
    }
  }

  lemma {:induction false} FilterShares(links: seq<Link>, keep: Link -> bool, client: string, d: string)
    requires forall link :: link in links && !keep(link) ==> !CountsFor(link, client, d)
    ensures Allocated(Filter(keep, links), |Filter(keep, links)|, client, d) == Allocated(links, |links|, client, d)
  {
    if links != [] {
      var n := |links| - 1;
      assert links == links[..n] + [links[n]];
      FilterShares(links[..n], keep, client, d);
      AllocatedAppend(links[..n], links[n], client, d);
      if keep(links[n]) {
        AllocatedAppend(Filter(keep, links[..n]), links[n], client, d);
      }
    }
  }

  /** Dropping links that do not count changes no verdict. */
  lemma {:induction false} FilterKeepsVerdict(items: seq<Item>, links: seq<Link>, keep: Link -> bool, client: string)
    requires forall link :: link in links && !keep(link) ==> link.status !in {Confirmed, AutoAllocated}
    ensures Verdict(items, Filter(keep, links), client) == Verdict(items, links, client)
  {
    forall d
      ensures Allocated(Filter(keep, links), |Filter(keep, links)|, client, d) == Allocated(links, |links|, client, d)
    {
      FilterShares(links, keep, client, d);
    }
    SameVerdict(items, links, Filter(keep, links), client);
  }

  // ---- Upserting a link ----

  function ConfirmedStatus(link: Link): LinkStatus {
    if link.confidence >= AUTO_CONFIRM && link.status == Candidate then Confirmed else link.status
  }

  /** The foreign keys of a link. */
  predicate Refers(tasks: Tasks, link: Link) {
    link.client in tasks && (link.supplier == None || link.supplier.value in tasks)
  }

  method UpsertLink(db: Db, link: Link) returns (ok: bool)
    requires db.LinkIds()
    modifies db`links
    ensures (forall i :: 0 <= i < |old(db.links)| ==> old(db.links)[i].id != link.id) ==>
      && ok == Refers(db.tasks, link)
      && db.links == if ok then old(db.links) + [link.(status := ConfirmedStatus(link))] else old(db.links)
    ensures forall i :: 0 <= i < |old(db.links)| && old(db.links)[i].id == link.id ==>
      && ok
      && db.links == old(db.links)[i := old(db.links)[i].(quantity := link.quantity, confidence := link.confidence,
                                                          status := ConfirmedStatus(link))]
  {
    var status := link.status;
    if link.confidence >= AUTO_CONFIRM && status == Candidate {
      status := Confirmed;
    }
    for i := 0 to |db.links|
      invariant forall k :: 0 <= k < i ==> db.links[k].id != link.id
    {
      if db.links[i].id == link.id {
        db.links := db.links[i := db.links[i].(quantity := link.quantity, confidence := link.confidence, status := status)];
        return true;
      }
    }
    ok := link.client in db.tasks && (link.supplier == None || link.supplier.value in db.tasks);
    if ok {
      db.links := db.links + [link.(status := status)];
    }
  }

  // ---- What "completed" says about demand ----

  /** What the client's items ask for under one description, together. */
  function Demand(items: seq<Item>, n: nat, client: string, description: string): real
    requires n <= |items|
  {
    if n == 0 then 0.0
    else
      Demand(items, n - 1, client, description)
      + if Wanted(items[n - 1], client, description) then Required(items[n - 1]) else 0.0
  }

  predicate Wanted(item: Item, client: string, description: string) {
    item.task == client && item.description == description
  }

  ghost predicate NonNegative(items: seq<Item>, client: string) {
    forall i :: 0 <= i < |items| && items[i].task == client ==> Required(items[i]) >= 0.0
  }

  ghost predicate Covered(items: seq<Item>, links: seq<Link>, client: string) {
    forall i :: 0 <= i < |items| && items[i].task == client ==>
      Allocated(links, |links|, client, items[i].description) >= Demand(items, |items|, client, items[i].description)
  }

  /** No two items of the client share a description and both ask for something. */
  ghost predicate SeparateDemand(items: seq<Item>, client: string) {
    forall i, j :: 0 <= i < j < |items| && items[i].task == items[j].task == client
                   && items[i].description == items[j].description ==>
      Required(items[i]) <= 0.0 || Required(items[j]) <= 0.0
  }

  lemma {:induction false} DemandBounds(items: seq<Item>, n: nat, client: string, d: string)
    requires n <= |items| && NonNegative(items, client)
    ensures Demand(items, n, client, d) >= 0.0
    ensures forall i :: 0 <= i < n && Wanted(items[i], client, d) ==> Demand(items, n, client, d) >= Required(items[i])
    ensures forall i, j :: 0 <= i < j < n && Wanted(items[i], client, d) && Wanted(items[j], client, d) ==>
      Demand(items, n, client, d) >= Required(items[i]) + Required(items[j])
  {
    if n > 0 {
      DemandBounds(items, n - 1, client, d);
    }
  }

  lemma {:induction false} DemandIsOneItem(items: seq<Item>, n: nat, client: string, d: string, bound: real)
    requires n <= |items| && NonNegative(items, client) && SeparateDemand(items, client) && bound >= 0.0
    requires forall i :: 0 <= i < n && Wanted(items[i], client, d) ==> Required(items[i]) <= bound
    ensures Demand(items, n, client, d) <= bound
  {
    if n > 0 {
      var last := items[n - 1];
      if Wanted(last, client, d) && Required(last) > 0.0 {
        assert forall i :: 0 <= i < n - 1 && Wanted(items[i], client, d) ==> Required(items[i]) <= 0.0;
        DemandIsOneItem(items, n - 1, client, d, 0.0);
      } else {
        DemandIsOneItem(items, n - 1, client, d, bound);
      }
    }
  }

  lemma {:induction false} CompletedCovers(items: seq<Item>, links: seq<Link>, client: string)
    requires NonNegative(items, client) && SeparateDemand(items, client)
    requires Verdict(items, links, client) == Some(Completed)
    ensures Covered(items, links, client)
  {
    VerdictMeans(items, links, client);
    forall i | 0 <= i < |items| && items[i].task == client
      ensures Allocated(links, |links|, client, items[i].description) >= Demand(items, |items|, client, items[i].description)
    {
      assert Met(links, items[i]);
      DemandIsOneItem(items, |items|, client, items[i].description,
                      Allocated(links, |links|, client, items[i].description));
    }
  }

  function LinkFor(client: string, description: string, quantity: real): Link {
    Link(0, client, description, None, None, Some(quantity), 1.0, Confirmed)
  }

  /** One link for every item of the client that is not described as `d`. */
  function LinksExcept(items: seq<Item>, n: nat, client: string, d: string): seq<Link>
    requires n <= |items|
  {
    if n == 0 then []
    else
      LinksExcept(items, n - 1, client, d)
      + if items[n - 1].task == client && items[n - 1].description != d
        then [LinkFor(client, items[n - 1].description, Required(items[n - 1]))] else []
  }

  lemma {:induction false} LinksExceptAllocate(items: seq<Item>, n: nat, client: string, d: string, e: string)
    requires n <= |items|
    ensures var links := LinksExcept(items, n, client, d);
      Allocated(links, |links|, client, e) == if e == d then 0.0 else Demand(items, n, client, e)
  {
    if n > 0 {
      LinksExceptAllocate(items, n - 1, client, d, e);
      var last := items[n - 1];
      var before := LinksExcept(items, n - 1, client, d);
      AllocatedAppend(before, LinkFor(client, last.description, Required(last)), client, e);
      assert before + [] == before;
    }
  }

  /** Two items with one description can both be met by a quantity that does not cover them together. */
  lemma {:induction false} SharedDescription(items: seq<Item>, client: string, i: nat, j: nat) returns (links: seq<Link>)
    requires NonNegative(items, client) && i < j < |items|
    requires items[i].task == items[j].task == client && items[i].description == items[j].description
    requires Required(items[i]) > 0.0 && Required(items[j]) > 0.0
    ensures Verdict(items, links, client) == Some(Completed) && !Covered(items, links, client)
  {
    var d := items[i].description;
    var lesser := if Required(items[i]) < Required(items[j]) then Required(items[i]) else Required(items[j]);
    var given := Demand(items, |items|, client, d) - lesser;
    var others := LinksExcept(items, |items|, client, d);
    links := others + [LinkFor(client, d, given)];
    DemandBounds(items, |items|, client, d);
    forall k | 0 <= k < |items| && items[k].task == client
      ensures Met(links, items[k])
    {
      var e := items[k].description;
      LinksExceptAllocate(items, |items|, client, d, e);
      AllocatedAppend(others, LinkFor(client, d, given), client, e);
      DemandBounds(items, |items|, client, e);
      assert Wanted(items[k], client, e);
      if e == d {
        assert Wanted(items[i], client, d) && Wanted(items[j], client, d);
        GivenIsEnough(items, client, d, i, j, k);
      }
    }
    VerdictMeans(items, links, client);
    LinksExceptAllocate(items, |items|, client, d, d);
    AllocatedAppend(others, LinkFor(client, d, given), client, d);
  }

  lemma {:induction false} GivenIsEnough(items: seq<Item>, client: string, d: string, i: nat, j: nat, k: nat)
    requires NonNegative(items, client) && i < j < |items| && k < |items|
    requires Wanted(items[i], client, d) && Wanted(items[j], client, d) && Wanted(items[k], client, d)
    ensures k != i ==> Demand(items, |items|, client, d) - Required(items[i]) >= Required(items[k])
    ensures k != j ==> Demand(items, |items|, client, d) - Required(items[j]) >= Required(items[k])
  {
    DemandBounds(items, |items|, client, d);
  }

  /** "Completed" guarantees that demand is covered exactly when demand under one description is never split. */
  lemma {:induction false} CompletedMeansCovered(items: seq<Item>, client: string)
    requires NonNegative(items, client)
    ensures SeparateDemand(items, client) <==>
      forall links :: Verdict(items, links, client) == Some(Completed) ==> Covered(items, links, client)
  {
    if SeparateDemand(items, client) {
      forall links | Verdict(items, links, client) == Some(Completed)
        ensures Covered(items, links, client)
      {
        CompletedCovers(items, links, client);
      }
    } else {
      var i, j :| 0 <= i < j < |items| && items[i].task == items[j].task == client
                  && items[i].description == items[j].description
                  && !(Required(items[i]) <= 0.0 || Required(items[j]) <= 0.0);
      var links := SharedDescription(items, client, i, j);
    }
  }
}
