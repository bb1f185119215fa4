/**
 Replaying a list of messages.  A message of an entity group goes into the
 buffer of sender scraps once for each entity it is routed to; one of a shared
 group goes to the conversation router instead of it.  Where a message goes, and which
 scraps raise when they are processed, are parameters.
 */
module Replay {
  import opened Ordering
  import opened MessageBuffer
  import opened BufferRuns

  type Route = (string, real)

  const CONV_PENDING: seq<Route> := [("__conv_pending__", 0.0)]

  datatype Router = Router(route: Incoming -> seq<Route>, hasContent: Incoming -> bool, raises: SenderScrap -> bool)

  datatype Stats = Stats(total: nat, routed: nat, unrouted: nat, noise: nat, calls: nat, errors: nat)

  // ---- What a replay must do ----

  function AddOp(entity: string, m: Incoming, clock: int): Op {
    Add(entity, m, "", 0, clock)
  }

  /** What is put in under a key, with the first n routes of one message. */
  function RoutedBy(put: Parcel, routes: seq<Route>, m: Incoming, n: nat, clock: int, key: Key): Parcel
    requires n <= |routes|
  {
    if n == 0 then put else Plus(RoutedBy(put, routes, m, n - 1, clock, key), AddOp(routes[n - 1].0, m, clock), key)
  }

  /** The routes to entities: none for a shared group. */
  function EntityRoutes(router: Router, m: Incoming): seq<Route> {
    if router.route(m) == CONV_PENDING then [] else router.route(m)
  }

  /** What the first n messages put in under a key: each message once for each of its routes. */
  function Routed(router: Router, messages: seq<Incoming>, n: nat, clock: int, key: Key): Parcel
    requires n <= |messages|
  {
    if n == 0 then NOTHING
    else
      var routes := EntityRoutes(router, messages[n - 1]);
      RoutedBy(Routed(router, messages, n - 1, clock, key), routes, messages[n - 1], |routes|, clock, key)
  }

  predicate IsShared(router: Router, m: Incoming) {
    router.route(m) == CONV_PENDING
  }

  predicate IsRouted(router: Router, m: Incoming) {
    router.route(m) != []
  }

  predicate IsNoise(router: Router, m: Incoming) {
    router.route(m) == [] && !router.hasContent(m)
  }

  // ---- The calls on the buffer ----

  function RouteOps(ops: seq<Op>, routes: seq<Route>, m: Incoming, n: nat, clock: int): seq<Op>
    requires n <= |routes|
  {
    if n == 0 then ops else RouteOps(ops, routes, m, n - 1, clock) + [AddOp(routes[n - 1].0, m, clock)]
  }

  /** The calls so far, with those for one more message. */
  function MessageOps(ops: seq<Op>, router: Router, m: Incoming, clock: int): seq<Op> {
    var routes := EntityRoutes(router, m);
    if routes == [] then ops
    else if m.timestamp == 0 then RouteOps(ops, routes, m, |routes|, clock)
    else RouteOps(ops, routes, m, |routes|, clock) + [FlushStale(m.timestamp)]
  }

  function OpsUpTo(router: Router, messages: seq<Incoming>, n: nat, clock: int): seq<Op>
    requires n <= |messages|
  {
    if n == 0 then [] else MessageOps(OpsUpTo(router, messages, n - 1, clock), router, messages[n - 1], clock)
  }

  function RunAll(ops: seq<Op>): State {
    Run(SCRAP_GAP_S, SCRAP_MAX_SIZE, ops, |ops|)
  }

  function PutInAll(ops: seq<Op>, key: Key): Parcel {
    PutIn(ops, |ops|, key)
  }

  lemma {:induction false} RunFrame(a: seq<Op>, b: seq<Op>, n: nat, key: Key)
    requires n <= |a| && n <= |b| && forall i :: 0 <= i < n ==> a[i] == b[i]
    ensures Run(SCRAP_GAP_S, SCRAP_MAX_SIZE, a, n) == Run(SCRAP_GAP_S, SCRAP_MAX_SIZE, b, n)
    ensures PutIn(a, n, key) == PutIn(b, n, key)
  {
    if n > 0 {
      RunFrame(a, b, n - 1, key);
    }
  }

  lemma {:induction false} RunAppend(ops: seq<Op>, op: Op, key: Key)
    ensures RunAll(ops + [op]) == Step(SCRAP_GAP_S, SCRAP_MAX_SIZE, RunAll(ops), op)
    ensures PutInAll(ops + [op], key) == Plus(PutInAll(ops, key), op, key)
  {
    RunFrame(ops + [op], ops, |ops|, key);
  }

  lemma {:induction false} RouteOpsPutIn(ops: seq<Op>, routes: seq<Route>, m: Incoming, n: nat, clock: int, key: Key)
    requires n <= |routes|
    ensures PutInAll(RouteOps(ops, routes, m, n, clock), key) == RoutedBy(PutInAll(ops, key), routes, m, n, clock, key)
  {
    if n > 0 {
      RouteOpsPutIn(ops, routes, m, n - 1, clock, key);
      RunAppend(RouteOps(ops, routes, m, n - 1, clock), AddOp(routes[n - 1].0, m, clock), key);
    }
  }

  lemma {:induction false} MessageOpsPutIn(ops: seq<Op>, router: Router, m: Incoming, clock: int, key: Key)
    ensures var routes := EntityRoutes(router, m);
      PutInAll(MessageOps(ops, router, m, clock), key) == RoutedBy(PutInAll(ops, key), routes, m, |routes|, clock, key)
  {
    var routes := EntityRoutes(router, m);
    RouteOpsPutIn(ops, routes, m, |routes|, clock, key);
    RunAppend(RouteOps(ops, routes, m, |routes|, clock), FlushStale(m.timestamp), key);
  }

  /** The calls put in exactly what the messages are routed as. */
  lemma {:induction false} OpsPutIn(router: Router, messages: seq<Incoming>, n: nat, clock: int, key: Key)
    requires n <= |messages|
    ensures PutInAll(OpsUpTo(router, messages, n, clock), key) == Routed(router, messages, n, clock, key)
  {
    if n > 0 {
      OpsPutIn(router, messages, n - 1, clock, key);
      MessageOpsPutIn(OpsUpTo(router, messages, n - 1, clock), router, messages[n - 1], clock, key);
    }
  }

  /** After the last flush every routed message has been handed over, in order, once for each route. */
  lemma {:induction false} AllHandedOver(router: Router, messages: seq<Incoming>, clock: int, key: Key)
    ensures
      var end := RunAll(OpsUpTo(router, messages, |messages|, clock) + [FlushAll]);
      end.live == [] && All(end.out, key) == Routed(router, messages, |messages|, clock, key)
  {
    var before := OpsUpTo(router, messages, |messages|, clock);
    var ops := before + [FlushAll];
    RunAppend(before, FlushAll, key);
    BufferConserves(SCRAP_GAP_S, SCRAP_MAX_SIZE, ops, |ops|, key);
    OpsPutIn(router, messages, |messages|, clock, key);
    JoinLaws(All(RunAll(ops).out, key), NOTHING, NOTHING);
    assert All([], key) == NOTHING;
  }

  // ---- The loop ----

  /** How many of the scraps raise when they are processed. */
  function CountRaising(router: Router, scraps: seq<SenderScrap>): (count: nat)
    ensures count <= |scraps|
  {
    if scraps == [] then 0
    else
      var n := |scraps| - 1;
      if router.raises(scraps[n]) then CountRaising(router, scraps[..n]) + 1 else CountRaising(router, scraps[..n])
  }

  /** Between two moments, the errors grow by the scraps that raise, and the calls by the others. */
  ghost predicate Accounted(router: Router, handled0: seq<SenderScrap>, stats0: Stats, handled: seq<SenderScrap>, stats: Stats) {
    && stats.errors - CountRaising(router, handled) == stats0.errors - CountRaising(router, handled0)
    && stats.calls + stats.errors - |handled| == stats0.calls + stats0.errors - |handled0|
  }

  /** Processes scraps one by one; one that raises is counted as an error, and the rest still follow. */
  method HandleScraps(router: Router, scraps: seq<SenderScrap>, handled0: seq<SenderScrap>, stats0: Stats)
      returns (handled: seq<SenderScrap>, stats: Stats)
    ensures handled == handled0 + scraps
    ensures stats == stats0.(calls := stats.calls, errors := stats.errors)
    ensures Accounted(router, handled0, stats0, handled, stats)
  {
    handled, stats := handled0, stats0;
    for i := 0 to |scraps|
      invariant handled == handled0 + scraps[..i]
      invariant stats == stats0.(calls := stats.calls, errors := stats.errors)
      invariant Accounted(router, handled0, stats0, handled, stats)
    {
      assert scraps[..i + 1] == scraps[..i] + [scraps[i]];
      if router.raises(scraps[i]) {
        stats := stats.(errors := stats.errors + 1);
      } else {
        stats := stats.(calls := stats.calls + 1);
      }
      assert (handled + [scraps[i]])[..|handled|] == handled;
      handled := handled + [scraps[i]];
    }
    assert scraps[..|scraps|] == scraps;
  }

  method ToEntity(router: Router, buf: Buffer, entity: string, m: Incoming, clock: int,
                  handled0: seq<SenderScrap>, stats0: Stats, ghost ops: seq<Op>)
      returns (handled: seq<SenderScrap>, stats: Stats)
    requires buf.gap == SCRAP_GAP_S && buf.maxSize == SCRAP_MAX_SIZE && buf.Valid()
    requires State(buf.scraps, handled0) == RunAll(ops)
    modifies buf
    ensures buf.Valid() && State(buf.scraps, handled) == RunAll(ops + [AddOp(entity, m, clock)])
    ensures stats == stats0.(calls := stats.calls, errors := stats.errors)
    ensures Accounted(router, handled0, stats0, handled, stats)
  {
    var flushed := buf.Add(entity, m, "", 0, clock);
    handled, stats := HandleScraps(router, flushed, handled0, stats0);
    RunAppend(ops, AddOp(entity, m, clock), Key("", ""));
  }

  method FlushBefore(router: Router, buf: Buffer, now: int, handled0: seq<SenderScrap>, stats0: Stats, ghost ops: seq<Op>)
      returns (handled: seq<SenderScrap>, stats: Stats)
    requires buf.gap == SCRAP_GAP_S && buf.maxSize == SCRAP_MAX_SIZE && buf.Valid()
    requires State(buf.scraps, handled0) == RunAll(ops)
    modifies buf
    ensures buf.Valid() && State(buf.scraps, handled) == RunAll(ops + [FlushStale(now)])
    ensures forall scrap :: scrap in buf.scraps ==> scrap.lastTs > now - SCRAP_GAP_S
    ensures stats == stats0.(calls := stats.calls, errors := stats.errors)
    ensures Accounted(router, handled0, stats0, handled, stats)
  {
    StaleFlushLeavesFresh(SCRAP_GAP_S, SCRAP_MAX_SIZE, RunAll(ops), now);
    RunAppend(ops, FlushStale(now), Key("", ""));
    var stale := buf.FlushStale(now);
    handled, stats := HandleScraps(router, stale, handled0, stats0);
  }

  /** A message of an entity group: to every entity it is routed to, and then the stale scraps go. */
  method ToEntities(router: Router, buf: Buffer, m: Incoming, clock: int,
                    handled0: seq<SenderScrap>, stats0: Stats, ghost ops: seq<Op>)
      returns (handled: seq<SenderScrap>, stats: Stats)
    requires buf.gap == SCRAP_GAP_S && buf.maxSize == SCRAP_MAX_SIZE && buf.Valid()
    requires State(buf.scraps, handled0) == RunAll(ops) && EntityRoutes(router, m) != []
    modifies buf
    ensures buf.Valid() && State(buf.scraps, handled) == RunAll(MessageOps(ops, router, m, clock))
    ensures m.timestamp != 0 ==> forall scrap :: scrap in buf.scraps ==> scrap.lastTs > m.timestamp - 60
    ensures stats == stats0.(calls := stats.calls, errors := stats.errors)
    ensures Accounted(router, handled0, stats0, handled, stats)
  {
    handled, stats := handled0, stats0;
    var routes := router.route(m);
    for i := 0 to |routes|
      invariant buf.Valid() && State(buf.scraps, handled) == RunAll(RouteOps(ops, routes, m, i, clock))
      invariant stats == stats0.(calls := stats.calls, errors := stats.errors)
      invariant Accounted(router, handled0, stats0, handled, stats)
    {
      handled, stats := ToEntity(router, buf, routes[i].0, m, clock, handled, stats, RouteOps(ops, routes, m, i, clock));
    }
    if m.timestamp != 0 {
      handled, stats := FlushBefore(router, buf, m.timestamp, handled, stats, RouteOps(ops, routes, m, |routes|, clock));
    }
  }

  function CountRouted(router: Router, messages: seq<Incoming>, n: nat): nat
    requires n <= |messages|
  {
    if n == 0 then 0 else CountRouted(router, messages, n - 1) + if IsRouted(router, messages[n - 1]) then 1 else 0
  }

  function CountNoise(router: Router, messages: seq<Incoming>, n: nat): nat
    requires n <= |messages|
  {
    if n == 0 then 0 else CountNoise(router, messages, n - 1) + if IsNoise(router, messages[n - 1]) then 1 else 0
  }

  function SharedUpTo(router: Router, messages: seq<Incoming>, n: nat): seq<Incoming>
    requires n <= |messages|
  {
    if n == 0 then []
    else if IsShared(router, messages[n - 1]) then SharedUpTo(router, messages, n - 1) + [messages[n - 1]]
    else SharedUpTo(router, messages, n - 1)
  }

  /** Which of the first n messages are kept, by position. */
  function Positions(keep: Incoming -> bool, messages: seq<Incoming>, n: nat): set<int>
    requires n <= |messages|
  {
    set i | 0 <= i < n && keep(messages[i])
  }

  function Routable(router: Router): Incoming -> bool {
    (m: Incoming) => router.route(m) != []
  }

  function Noisy(router: Router): Incoming -> bool {
    (m: Incoming) => router.route(m) == [] && !router.hasContent(m)
  }

  function ToShared(router: Router): Incoming -> bool {
    (m: Incoming) => router.route(m) == [("__conv_pending__", 0.0)]
  }

  lemma {:induction false} OnePositionMore(keep: Incoming -> bool, messages: seq<Incoming>, n: nat)
    requires n < |messages|
    ensures |Positions(keep, messages, n + 1)| == |Positions(keep, messages, n)| + if keep(messages[n]) then 1 else 0
  {
    var before, after := Positions(keep, messages, n), Positions(keep, messages, n + 1);
    if keep(messages[n]) {
      assert after == before + {n};
    } else {
      assert after == before;
    }
  }

  lemma {:induction false} RoutedCount(router: Router, messages: seq<Incoming>, n: nat)
    requires n <= |messages|
    ensures CountRouted(router, messages, n) == |Positions(Routable(router), messages, n)|
  {
    if n == 0 {
      assert Positions(Routable(router), messages, 0) == {};
    } else {
      RoutedCount(router, messages, n - 1);
      OnePositionMore(Routable(router), messages, n - 1);
    }
  }

  lemma {:induction false} NoiseCount(router: Router, messages: seq<Incoming>, n: nat)
    requires n <= |messages|
    ensures CountNoise(router, messages, n) == |Positions(Noisy(router), messages, n)|
  {
    if n == 0 {
      assert Positions(Noisy(router), messages, 0) == {};
    } else {
      NoiseCount(router, messages, n - 1);
      OnePositionMore(Noisy(router), messages, n - 1);
    }
  }

  lemma {:induction false} SharedFiltered(router: Router, messages: seq<Incoming>, n: nat)
    requires n <= |messages|
    ensures SharedUpTo(router, messages, n) == Filter(ToShared(router), messages[..n])
  {
    if n > 0 {
      SharedFiltered(router, messages, n - 1);
      assert messages[..n] == messages[..n - 1] + [messages[n - 1]];
      FilterAppend(ToShared(router), messages[..n - 1], messages[n - 1]);
    }
  }

  /** One message: it is counted, and goes to the conversation router or to the buffer. */
  method ReplayOne(router: Router, buf: Buffer, m: Incoming, clock: int, handled0: seq<SenderScrap>, stats0: Stats,
                   ghost ops: seq<Op>)
      returns (handled: seq<SenderScrap>, stats: Stats, shared: bool)
    requires buf.gap == SCRAP_GAP_S && buf.maxSize == SCRAP_MAX_SIZE && buf.Valid()
    requires State(buf.scraps, handled0) == RunAll(ops)
    modifies buf
    ensures buf.Valid() && State(buf.scraps, handled) == RunAll(MessageOps(ops, router, m, clock))
    ensures shared == IsShared(router, m)
    ensures stats.total == stats0.total
    ensures stats.routed == stats0.routed + if IsRouted(router, m) then 1 else 0
    ensures stats.noise == stats0.noise + if IsNoise(router, m) then 1 else 0
    ensures stats.routed + stats.unrouted + stats.noise == stats0.routed + stats0.unrouted + stats0.noise + 1
    ensures Accounted(router, handled0, stats0, handled, stats)
  {
    handled, stats, shared := handled0, stats0, false;
    var routes := router.route(m);
    if routes == [] {
      if router.hasContent(m) {
        stats := stats.(unrouted := stats.unrouted + 1);
      } else {
        stats := stats.(noise := stats.noise + 1);
      }
      return;
    }
    stats := stats.(routed := stats.routed + 1);
    if routes == CONV_PENDING {
      shared := true;
      return;
    }
    handled, stats := ToEntities(router, buf, m, clock, handled, stats, ops);
  }

  /** The counts and the shared messages when the first n messages have been replayed. */
  ghost predicate Counted(router: Router, messages: seq<Incoming>, n: nat, stats: Stats, fed: seq<Incoming>)
    requires n <= |messages|
  {
    && fed == SharedUpTo(router, messages, n)
    && stats.total == |messages| && stats.routed + stats.unrouted + stats.noise == n
    && stats.routed == CountRouted(router, messages, n) && stats.noise == CountNoise(router, messages, n)
  }

  /** The next message, with the list for the conversation router. */
  method ReplayNext(router: Router, buf: Buffer, messages: seq<Incoming>, n: nat, clock: int, handled0: seq<SenderScrap>,
                    stats0: Stats, fed0: seq<Incoming>)
      returns (handled: seq<SenderScrap>, stats: Stats, fed: seq<Incoming>)
    requires n < |messages| && Counted(router, messages, n, stats0, fed0)
    requires buf.gap == SCRAP_GAP_S && buf.maxSize == SCRAP_MAX_SIZE && buf.Valid()
    requires State(buf.scraps, handled0) == RunAll(OpsUpTo(router, messages, n, clock))
    modifies buf
    ensures buf.Valid() && State(buf.scraps, handled) == RunAll(OpsUpTo(router, messages, n + 1, clock))
    ensures Counted(router, messages, n + 1, stats, fed)
    ensures Accounted(router, handled0, stats0, handled, stats)
  {
    var shared;
    handled, stats, shared := ReplayOne(router, buf, messages[n], clock, handled0, stats0, OpsUpTo(router, messages, n, clock));
    fed := fed0;
    if shared {
      fed := fed + [messages[n]];
    }
  }

  /** The scraps that go at the very end. */
  method FlushRest(router: Router, buf: Buffer, handled0: seq<SenderScrap>, stats0: Stats, ghost ops: seq<Op>)
      returns (handled: seq<SenderScrap>, stats: Stats)
    requires buf.Valid() && State(buf.scraps, handled0) == RunAll(ops)
    modifies buf
    ensures handled == RunAll(ops + [FlushAll]).out
    ensures stats == stats0.(calls := stats.calls, errors := stats.errors)
    ensures Accounted(router, handled0, stats0, handled, stats)
  {
    RunAppend(ops, FlushAll, Key("", ""));
    var rest := buf.FlushAll();
    handled, stats := HandleScraps(router, rest, handled0, stats0);
  }

  /**
   The replay: `fed` went to the conversation router, `handled` are the scraps
   that were processed, in order.
   */
  method ReplayMessages(router: Router, messages: seq<Incoming>, clock: int)
      returns (stats: Stats, handled: seq<SenderScrap>, fed: seq<Incoming>)
    ensures handled == RunAll(OpsUpTo(router, messages, |messages|, clock) + [FlushAll]).out
    ensures fed == Filter(ToShared(router), messages)
    ensures stats.total == |messages| == stats.routed + stats.unrouted + stats.noise
    ensures stats.routed == |Positions(Routable(router), messages, |messages|)|
    ensures stats.noise == |Positions(Noisy(router), messages, |messages|)|
    ensures stats.errors == CountRaising(router, handled) && stats.calls == |handled| - CountRaising(router, handled)
  {
    var buf := new Buffer(SCRAP_GAP_S, SCRAP_MAX_SIZE);
    stats, handled, fed := Stats(|messages|, 0, 0, 0, 0, 0), [], [];
    ghost var start := stats;
    for i := 0 to |messages|
      invariant buf.gap == SCRAP_GAP_S && buf.maxSize == SCRAP_MAX_SIZE && buf.Valid()
      invariant State(buf.scraps, handled) == RunAll(OpsUpTo(router, messages, i, clock))
      invariant Counted(router, messages, i, stats, fed) && Accounted(router, [], start, handled, stats)
    {
      handled, stats, fed := ReplayNext(router, buf, messages, i, clock, handled, stats, fed);
    }
    handled, stats := FlushRest(router, buf, handled, stats, OpsUpTo(router, messages, |messages|, clock));
    RoutedCount(router, messages, |messages|);
    NoiseCount(router, messages, |messages|);
    SharedFiltered(router, messages, |messages|);
    assert messages[..|messages|] == messages;
  }
}
