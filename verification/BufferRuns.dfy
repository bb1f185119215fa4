/** What holds for any sequence of calls on the message buffer. */
module BufferRuns {
  import opened Ordering
  import opened MessageBuffer

  datatype Op =
    | Add(entity: string, m: Incoming, event: string, now: int, clock: int)
    | FlushStale(now: int)
    | FlushAll

  /** The live scraps, and the ones handed over so far. */
  datatype State = State(live: seq<SenderScrap>, out: seq<SenderScrap>)

  function KeyOf(op: Op): Key
    requires op.Add?
  {
    Key(op.entity, SenderOf(op.m))
  }

  function Step(gap: int, maxSize: int, s: State, op: Op): State {
    match op
    case Add(entity, m, event, now, clock) =>
      var ts := Stamp(now, m, clock);
      State(AfterAdd(s.live, KeyOf(op), m, event, ts, gap, maxSize),
            s.out + FlushedByAdd(s.live, KeyOf(op), ts, gap, maxSize))
    case FlushStale(now) =>
      State(Filter(FreshOnes(now, gap), s.live), s.out + Filter(StaleOnes(now, gap), s.live))
    case FlushAll =>
      State([], s.out + s.live)
  }

  function Run(gap: int, maxSize: int, ops: seq<Op>, n: nat): State
    requires n <= |ops|
  {
    if n == 0 then State([], []) else Step(gap, maxSize, Run(gap, maxSize, ops, n - 1), ops[n - 1])
  }

  lemma {:induction false} RunDistinct(gap: int, maxSize: int, ops: seq<Op>, n: nat)
    requires n <= |ops|
    ensures DistinctKeys(Run(gap, maxSize, ops, n).live)
  {
    if n > 0 {
      RunDistinct(gap, maxSize, ops, n - 1);
      StepDistinct(gap, maxSize, Run(gap, maxSize, ops, n - 1), ops[n - 1]);
    }
  }

  lemma {:induction false} StepDistinct(gap: int, maxSize: int, s: State, op: Op)
    requires DistinctKeys(s.live)
    ensures DistinctKeys(Step(gap, maxSize, s, op).live)
  {
    match op
    case Add(_, m, event, now, clock) =>
      DistinctAfterAdd(s.live, KeyOf(op), m, event, Stamp(now, m, clock), gap, maxSize);
    case FlushStale(now) => FilterDistinct(FreshOnes(now, gap), s.live);
    case FlushAll =>
  }

  // ---- Nothing is lost, doubled or reordered ----

  /** Messages and event ids, each in order. */
  datatype Parcel = Parcel(messages: seq<Incoming>, events: seq<string>)

  const NOTHING := Parcel([], [])

  function Join(a: Parcel, b: Parcel): Parcel {
    Parcel(a.messages + b.messages, a.events + b.events)
  }

  function Carried(scrap: SenderScrap): Parcel {
    Parcel(scrap.messages, scrap.events)
  }

  /** What the first n scraps carry under a key, in order. */
  function Gathered(scraps: seq<SenderScrap>, n: nat, key: Key): Parcel
    requires n <= |scraps|
  {
    if n == 0 then NOTHING
    else if scraps[n - 1].key == key then Join(Gathered(scraps, n - 1, key), Carried(scraps[n - 1]))
    else Gathered(scraps, n - 1, key)
  }

  function All(scraps: seq<SenderScrap>, key: Key): Parcel {
    Gathered(scraps, |scraps|, key)
  }

  function Brought(op: Op): Parcel
    requires op.Add?
  {
    Parcel([op.m], EventOf(op.event))
  }

  /** What is put in under a key, with one more operation. */
  function Plus(put: Parcel, op: Op, key: Key): Parcel {
    if !op.Add? || KeyOf(op) != key then put
    else Parcel(put.messages + [op.m], if op.event == "" then put.events else put.events + [op.event])
  }

  /** What the first n operations put in under a key, in order. */
  function PutIn(ops: seq<Op>, n: nat, key: Key): Parcel
    requires n <= |ops|
  {
    if n == 0 then NOTHING else Plus(PutIn(ops, n - 1, key), ops[n - 1], key)
  }

  lemma {:induction false} JoinLaws(a: Parcel, b: Parcel, c: Parcel)
    ensures Join(Join(a, b), c) == Join(a, Join(b, c))
    ensures Join(a, NOTHING) == a && Join(NOTHING, a) == a
  {
    assert (a.messages + b.messages) + c.messages == a.messages + (b.messages + c.messages);
    assert (a.events + b.events) + c.events == a.events + (b.events + c.events);
    assert a.messages + [] == a.messages && a.events + [] == a.events;
    assert [] + a.messages == a.messages && [] + a.events == a.events;
  }

  lemma {:induction false} GatheredFrame(a: seq<SenderScrap>, b: seq<SenderScrap>, n: nat, key: Key)
    requires n <= |a| && n <= |b| && forall i :: 0 <= i < n ==> a[i] == b[i]
    ensures Gathered(a, n, key) == Gathered(b, n, key)
  {
    if n > 0 {
      GatheredFrame(a, b, n - 1, key);
    }
  }

  lemma {:induction false} AllConcat(a: seq<SenderScrap>, b: seq<SenderScrap>, n: nat, key: Key)
    requires n <= |b|
    ensures Gathered(a + b, |a| + n, key) == Join(All(a, key), Gathered(b, n, key))
  {
    if n == 0 {
      GatheredFrame(a + b, a, |a|, key);
      JoinLaws(All(a, key), NOTHING, NOTHING);
    } else {
      AllConcat(a, b, n - 1, key);
      JoinLaws(All(a, key), Gathered(b, n - 1, key), Carried(b[n - 1]));
    }
  }

  lemma {:induction false} AllAppend(scraps: seq<SenderScrap>, scrap: SenderScrap, key: Key)
    ensures All(scraps + [scrap], key) == if scrap.key == key then Join(All(scraps, key), Carried(scrap)) else All(scraps, key)
  {
    GatheredFrame(scraps + [scrap], scraps, |scraps|, key);
  }

  /** With distinct keys at most one scrap carries anything under a key. */
  lemma {:induction false} GatheredAt(scraps: seq<SenderScrap>, n: nat, i: nat)
    requires i < n <= |scraps| && DistinctKeys(scraps)
    ensures Gathered(scraps, n, scraps[i].key) == Carried(scraps[i])
  {
    if i == n - 1 {
      GatheredNone(scraps, n - 1, scraps[i].key);
    } else {
      GatheredAt(scraps, n - 1, i);
    }
    JoinLaws(Carried(scraps[i]), NOTHING, NOTHING);
  }

  lemma {:induction false} GatheredNone(scraps: seq<SenderScrap>, n: nat, key: Key)
    requires n <= |scraps| && forall i :: 0 <= i < n ==> scraps[i].key != key
    ensures Gathered(scraps, n, key) == NOTHING
  {
    if n > 0 {
      GatheredNone(scraps, n - 1, key);
    }
  }

  lemma {:induction false} WithoutOne(scraps: seq<SenderScrap>, i: nat, key: Key)
    requires i < |scraps| && DistinctKeys(scraps)
    ensures All(Without(scraps, i), key) == if scraps[i].key == key then NOTHING else All(scraps, key)
  {
    var rest := Without(scraps, i);
    assert forall j :: 0 <= j < |rest| ==> rest[j] == if j < i then scraps[j] else scraps[j + 1];
    if j :| 0 <= j < |scraps| && scraps[j].key == key && j != i {
      GatheredAt(scraps, |scraps|, j);
      GatheredAt(rest, |rest|, if j < i then j else j - 1);
    } else {
      GatheredNone(rest, |rest|, key);
      if scraps[i].key != key {
        GatheredNone(scraps, |scraps|, key);
      }
    }
  }

  lemma {:induction false} ReplacedOne(scraps: seq<SenderScrap>, i: nat, added: SenderScrap, key: Key)
    requires i < |scraps| && DistinctKeys(scraps) && added.key == scraps[i].key
    ensures Join(All([scraps[i]], key), All(Without(scraps, i) + [added], key))
      == if added.key == key then Join(All(scraps, key), Carried(added)) else All(scraps, key)
  {
    WithoutOne(scraps, i, key);
    AllAppend(Without(scraps, i), added, key);
    assert Gathered([scraps[i]], 0, key) == NOTHING;
    if scraps[i].key == key {
      GatheredAt(scraps, |scraps|, i);
      JoinLaws(Carried(scraps[i]), NOTHING, NOTHING);
      JoinLaws(Carried(added), NOTHING, NOTHING);
    } else {
      JoinLaws(All(scraps, key), NOTHING, NOTHING);
    }
  }

  lemma {:induction false} ExtendedOne(scraps: seq<SenderScrap>, i: nat, scrap: SenderScrap, key: Key)
    requires i < |scraps| && DistinctKeys(scraps) && scrap.key == scraps[i].key
    ensures All(scraps[i := scrap], key) == if scrap.key == key then Carried(scrap) else All(scraps, key)
    ensures scrap.key == key ==> All(scraps, key) == Carried(scraps[i])
  {
    var after := scraps[i := scrap];
    if scrap.key == key {
      GatheredAt(scraps, |scraps|, i);
      GatheredAt(after, |after|, i);
    } else if j :| 0 <= j < |scraps| && scraps[j].key == key {
      GatheredAt(scraps, |scraps|, j);
      GatheredAt(after, |after|, j);
    } else {
      GatheredNone(scraps, |scraps|, key);
      GatheredNone(after, |after|, key);
    }
  }

  lemma {:induction false} AddConserves(scraps: seq<SenderScrap>, op: Op, ts: int, gap: int, maxSize: int, key: Key)
    requires DistinctKeys(scraps) && op.Add?
    ensures Join(All(FlushedByAdd(scraps, KeyOf(op), ts, gap, maxSize), key),
                 All(AfterAdd(scraps, KeyOf(op), op.m, op.event, ts, gap, maxSize), key))
      == if KeyOf(op) == key then Join(All(scraps, key), Brought(op)) else All(scraps, key)
  {
    var i := IndexOf(scraps, KeyOf(op));
    var added := SenderScrap(KeyOf(op), [op.m], EventOf(op.event), ts);
    if i < |scraps| && Due(scraps[i], ts, gap, maxSize) {
      ReplacedOne(scraps, i, added, key);
    } else {
      JoinLaws(All(AfterAdd(scraps, KeyOf(op), op.m, op.event, ts, gap, maxSize), key), NOTHING, NOTHING);
      if i == |scraps| {
        AllAppend(scraps, added, key);
      } else {
        ExtendedOne(scraps, i, Extended(scraps[i], op.m, op.event, ts), key);
      }
    }
  }

  /** Splitting the scraps into stale and fresh ones splits what they carry. */
  lemma {:induction false} SplitConserves(scraps: seq<SenderScrap>, now: int, gap: int, key: Key)
    requires DistinctKeys(scraps)
    ensures Join(All(Filter(StaleOnes(now, gap), scraps), key), All(Filter(FreshOnes(now, gap), scraps), key))
      == All(scraps, key)
  {
    if scraps == [] {
      JoinLaws(NOTHING, NOTHING, NOTHING);
    } else {
      var n := |scraps| - 1;
      var before, last := scraps[..n], scraps[n];
      assert scraps == before + [last];
      SplitConserves(before, now, gap, key);
      AllAppend(before, last, key);
      AllAppend(Filter(StaleOnes(now, gap), before), last, key);
      AllAppend(Filter(FreshOnes(now, gap), before), last, key);
      if last.key == key {
        GatheredNone(before, n, key);
        JoinLaws(Carried(last), NOTHING, NOTHING);
      }
    }
  }

  /** What has been handed over under the key and what is live make up `put`. */
  ghost predicate Conserved(s: State, put: Parcel, key: Key) {
    Join(All(s.out, key), All(s.live, key)) == put
  }

  /** Handing over moves load from the live scraps to the ones that are out. */
  lemma {:induction false} HandOver(s: State, flushed: seq<SenderScrap>, live: seq<SenderScrap>, put: Parcel, key: Key)
    requires Conserved(s, put, key) && Join(All(flushed, key), All(live, key)) == All(s.live, key)
    ensures Conserved(State(live, s.out + flushed), put, key)
  {
    AllConcat(s.out, flushed, |flushed|, key);
    JoinLaws(All(s.out, key), All(flushed, key), All(live, key));
  }

  lemma {:induction false} HandOverMore(s: State, flushed: seq<SenderScrap>, live: seq<SenderScrap>, put: Parcel,
                                        more: Parcel, key: Key)
    requires Conserved(s, put, key) && Join(All(flushed, key), All(live, key)) == Join(All(s.live, key), more)
    ensures Conserved(State(live, s.out + flushed), Join(put, more), key)
  {
    AllConcat(s.out, flushed, |flushed|, key);
    JoinLaws(All(s.out, key), All(flushed, key), All(live, key));
    JoinLaws(All(s.out, key), All(s.live, key), more);
  }

  lemma {:induction false} StepConserves(gap: int, maxSize: int, s: State, op: Op, put: Parcel, key: Key)
    requires DistinctKeys(s.live) && Conserved(s, put, key)
    ensures Conserved(Step(gap, maxSize, s, op), Plus(put, op, key), key)
  {
    match op
    case Add(_, m, event, now, clock) =>
      var ts := Stamp(now, m, clock);
      var flushed := FlushedByAdd(s.live, KeyOf(op), ts, gap, maxSize);
      var live := AfterAdd(s.live, KeyOf(op), m, event, ts, gap, maxSize);
      AddConserves(s.live, op, ts, gap, maxSize, key);
      if KeyOf(op) == key {
        HandOverMore(s, flushed, live, put, Brought(op), key);
        assert Plus(put, op, key) == Join(put, Brought(op));
      } else {
        HandOver(s, flushed, live, put, key);
      }
    case FlushStale(now) =>
      SplitConserves(s.live, now, gap, key);
      HandOver(s, Filter(StaleOnes(now, gap), s.live), Filter(FreshOnes(now, gap), s.live), put, key);
    case FlushAll =>
      JoinLaws(All(s.live, key), NOTHING, NOTHING);
      assert Gathered([], 0, key) == NOTHING;
      HandOver(s, s.live, [], put, key);
  }

  lemma {:induction false} RunConserves(gap: int, maxSize: int, ops: seq<Op>, n: nat, key: Key)
    requires n < |ops| && Conserved(Run(gap, maxSize, ops, n), PutIn(ops, n, key), key)
    ensures Conserved(Run(gap, maxSize, ops, n + 1), PutIn(ops, n + 1, key), key)
  {
    var s, op, put := Run(gap, maxSize, ops, n), ops[n], PutIn(ops, n, key);
    RunDistinct(gap, maxSize, ops, n);
    StepConserves(gap, maxSize, s, op, put, key);
    assert Run(gap, maxSize, ops, n + 1) == Step(gap, maxSize, s, op);
    assert PutIn(ops, n + 1, key) == Plus(put, op, key);
  }

  /** Under every key, the scraps handed over and the live one carry what was put in: in order, once each. */
  lemma {:induction false} BufferConserves(gap: int, maxSize: int, ops: seq<Op>, n: nat, key: Key)
    requires n <= |ops|
    ensures Conserved(Run(gap, maxSize, ops, n), PutIn(ops, n, key), key)
  {
    JoinLaws(NOTHING, NOTHING, NOTHING);
    var k := 0;
    while k != n
      invariant k <= n && Conserved(Run(gap, maxSize, ops, k), PutIn(ops, k, key), key)
      decreases n - k
    {
      RunConserves(gap, maxSize, ops, k, key);
      k := k + 1;
    }
  }

  // ---- Sizes and gaps ----

  /** A scrap is never empty and never too large; with a limit below one it holds a single message. */
  ghost predicate Sized(scrap: SenderScrap, maxSize: int) {
    1 <= |scrap.messages| && (|scrap.messages| <= maxSize || |scrap.messages| == 1)
  }

  /** Stamped by its last message, and no silence inside is longer than the gap. */
  ghost predicate Paced(scrap: SenderScrap, gap: int) {
    && scrap.messages != [] && scrap.lastTs == scrap.messages[|scrap.messages| - 1].timestamp != 0
    && forall i :: 0 <= i < |scrap.messages| - 1 ==>
         scrap.messages[i + 1].timestamp - scrap.messages[i].timestamp <= gap
  }

  ghost predicate Everywhere(s: State, holds: SenderScrap -> bool) {
    && (forall i :: 0 <= i < |s.live| ==> holds(s.live[i]))
    && forall i :: 0 <= i < |s.out| ==> holds(s.out[i])
  }

  /** Additions keep the property: for a new scrap, and for one that is not due. */
  ghost predicate Inductive(holds: SenderScrap -> bool, gap: int, maxSize: int, op: Op) {
    op.Add? ==>
      var ts := Stamp(op.now, op.m, op.clock);
      && holds(SenderScrap(KeyOf(op), [op.m], EventOf(op.event), ts))
      && forall scrap: SenderScrap :: holds(scrap) && !Due(scrap, ts, gap, maxSize) ==>
           holds(Extended(scrap, op.m, op.event, ts))
  }

  lemma {:induction false} StepEverywhere(holds: SenderScrap -> bool, gap: int, maxSize: int, s: State, op: Op)
    requires Everywhere(s, holds) && Inductive(holds, gap, maxSize, op)
    ensures Everywhere(Step(gap, maxSize, s, op), holds)
  {
    if op.FlushStale? {
      FilterMembers(FreshOnes(op.now, gap), s.live);
      FilterMembers(StaleOnes(op.now, gap), s.live);
      var kept, stale := Filter(FreshOnes(op.now, gap), s.live), Filter(StaleOnes(op.now, gap), s.live);
      assert forall i :: 0 <= i < |kept| ==> kept[i] in s.live;
      assert forall i :: 0 <= i < |stale| ==> stale[i] in s.live;
    }
  }

  lemma {:induction false} RunEverywhere(holds: SenderScrap -> bool, gap: int, maxSize: int, ops: seq<Op>, n: nat)
    requires n <= |ops| && forall i :: 0 <= i < n ==> Inductive(holds, gap, maxSize, ops[i])
    ensures Everywhere(Run(gap, maxSize, ops, n), holds)
  {
    if n > 0 {
      RunEverywhere(holds, gap, maxSize, ops, n - 1);
      StepEverywhere(holds, gap, maxSize, Run(gap, maxSize, ops, n - 1), ops[n - 1]);
    }
  }

  /** Every scrap, live or handed over, keeps the size limit, for any calls. */
  lemma {:induction false} ScrapsSized(gap: int, maxSize: int, ops: seq<Op>, n: nat)
    requires n <= |ops|
    ensures Everywhere(Run(gap, maxSize, ops, n), scrap => Sized(scrap, maxSize))
  {
    var holds := (scrap: SenderScrap) => Sized(scrap, maxSize);
    RunEverywhere(holds, gap, maxSize, ops, n);
    assert Everywhere(Run(gap, maxSize, ops, n), holds);
  }

  /** Added without an explicit time, and with a timestamp of its own. */
  ghost predicate SelfStamped(op: Op) {
    op.Add? ==> op.now == 0 && op.m.timestamp != 0
  }

  /** No silence inside a scrap is longer than the gap, if the messages carry their timestamps. */
  lemma {:induction false} ScrapsPaced(gap: int, maxSize: int, ops: seq<Op>, n: nat)
    requires n <= |ops| && forall i :: 0 <= i < n ==> SelfStamped(ops[i])
    ensures Everywhere(Run(gap, maxSize, ops, n), scrap => Paced(scrap, gap))
  {
    var holds := (scrap: SenderScrap) => Paced(scrap, gap);
    forall i | 0 <= i < n
      ensures Inductive(holds, gap, maxSize, ops[i])
    {
      assert SelfStamped(ops[i]);
    }
    RunEverywhere(holds, gap, maxSize, ops, n);
    assert Everywhere(Run(gap, maxSize, ops, n), holds);
  }

  // ---- When a message joins, and when it does not ----

  ghost predicate HasKey(scrap: SenderScrap, entity: string, m: Incoming) {
    scrap.key == Key(entity, if m.senderJid != "" then m.senderJid else if m.senderName != "" then m.senderName else "unknown")
  }

  /** The sender was silent for longer than the gap; a scrap without a time counts as just heard. */
  ghost predicate SilentFor(scrap: SenderScrap, ts: int, gap: int) {
    if scrap.lastTs == 0 then gap < 0 else scrap.lastTs + gap < ts
  }

  /**
   A message joins the live scrap of its sender and entity if that one is heard
   within the gap and has room; otherwise that scrap, if there is one, is handed
   over and a new one starts behind the others.
   */
  lemma {:induction false} MessageJoins(gap: int, maxSize: int, s: State, op: Op)
    requires op.Add? && DistinctKeys(s.live)
    ensures var after := Step(gap, maxSize, s, op);
      var ts := if op.now != 0 then op.now else if op.m.timestamp != 0 then op.m.timestamp else op.clock;
      var event := if op.event == "" then [] else [op.event];
      && (forall i :: 0 <= i < |s.live| && HasKey(s.live[i], op.entity, op.m)
                      && !SilentFor(s.live[i], ts, gap) && |s.live[i].messages| < maxSize ==>
            && after.out == s.out && |after.live| == |s.live|
            && after.live[i] == SenderScrap(s.live[i].key, s.live[i].messages + [op.m], s.live[i].events + event, ts)
            && forall k :: 0 <= k < |s.live| && k != i ==> after.live[k] == s.live[k])
      && (forall i :: 0 <= i < |s.live| && HasKey(s.live[i], op.entity, op.m)
                      && (SilentFor(s.live[i], ts, gap) || |s.live[i].messages| >= maxSize) ==>
            && after.out == s.out + [s.live[i]]
            && after.live == s.live[..i] + s.live[i + 1..] + [SenderScrap(s.live[i].key, [op.m], event, ts)])
      && ((forall i :: 0 <= i < |s.live| ==> !HasKey(s.live[i], op.entity, op.m)) ==>
            && after.out == s.out
            && exists scrap :: HasKey(scrap, op.entity, op.m) && after.live == s.live + [scrap]
                               && scrap == SenderScrap(scrap.key, [op.m], event, ts))
  {
    var key, ts := KeyOf(op), Stamp(op.now, op.m, op.clock);
    var i := IndexOf(s.live, key);
    assert s.out + [] == s.out;
    if i == |s.live| {
      var scrap := SenderScrap(key, [op.m], EventOf(op.event), ts);
      assert HasKey(scrap, op.entity, op.m);
    }
  }

  /** Right after a flush of the stale ones every live scrap heard its sender within the gap. */
  lemma {:induction false} StaleFlushLeavesFresh(gap: int, maxSize: int, s: State, now: int)
    ensures forall scrap :: scrap in Step(gap, maxSize, s, FlushStale(now)).live ==> scrap.lastTs > now - gap
    ensures forall scrap :: scrap in s.live && scrap.lastTs > now - gap ==> scrap in Step(gap, maxSize, s, FlushStale(now)).live
    ensures forall scrap :: scrap in Step(gap, maxSize, s, FlushStale(now)).out <==>
      scrap in s.out || (scrap in s.live && scrap.lastTs <= now - gap)
  {
    FilterMembers(FreshOnes(now, gap), s.live);
    FilterMembers(StaleOnes(now, gap), s.live);
  }
}
