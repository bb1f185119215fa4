/**
 How the conversation router spreads assignments along reply threads, and how
 it splits a segment into assigned and unassigned messages.  A conversation is
 seen through its entity and the messages of its scraps; every message has the
 key `message_id`, possibly with an empty text.
 */
module ThreadEnhancement {
  import opened Options
  import opened Messages
  import opened Ordering
  import opened ReplyTree

  datatype Conv = Conv(entityRef: string, scraps: seq<seq<Message>>)

  // ---- Assignments ----

  ghost predicate HasId(messages: seq<Message>, id: string) {
    exists k :: 0 <= k < |messages| && messages[k].id == id
  }

  ghost predicate InConv(conv: Conv, id: string) {
    exists s :: 0 <= s < |conv.scraps| && HasId(conv.scraps[s], id)
  }

  ghost predicate Assigned(convs: seq<Conv>, id: string) {
    exists c :: 0 <= c < |convs| && InConv(convs[c], id)
  }

  /** Conversations only grow at their ends. */
  ghost predicate Grown(before: seq<Conv>, after: seq<Conv>) {
    && |after| == |before|
    && forall c :: 0 <= c < |before| ==> after[c].entityRef == before[c].entityRef && before[c].scraps <= after[c].scraps
  }

  lemma {:induction false} GrownKeeps(before: seq<Conv>, after: seq<Conv>, c: nat, id: string)
    requires Grown(before, after) && c < |before| && InConv(before[c], id)
    ensures InConv(after[c], id)
  {
    var s :| 0 <= s < |before[c].scraps| && HasId(before[c].scraps[s], id);
    assert after[c].scraps[s] == before[c].scraps[s];
  }

  /** A conversation of the entity holds the message. */
  ghost predicate Backing(convs: seq<Conv>, ref: string, id: string) {
    exists c :: 0 <= c < |convs| && convs[c].entityRef == ref && InConv(convs[c], id)
  }

  ghost predicate Backed(convs: seq<Conv>, entities: map<string, string>) {
    forall id :: id in entities ==> Backing(convs, entities[id], id)
  }

  /** The lookup from message to entity; a later conversation overrides, an empty id is left out. */
  method MessageEntities(convs: seq<Conv>) returns (entities: map<string, string>)
    ensures forall id :: id in entities <==> id != "" && Assigned(convs, id)
    ensures Backed(convs, entities)
  {
    entities := map[];
    for c := 0 to |convs|
      invariant forall id :: id in entities <==> id != "" && exists b :: 0 <= b < c && InConv(convs[b], id)
      invariant Backed(convs, entities)
    {
      entities := AddConv(convs, c, entities);
    }
  }

  method AddConv(convs: seq<Conv>, c: nat, entities0: map<string, string>) returns (entities: map<string, string>)
    requires c < |convs| && Backed(convs, entities0)
    ensures forall id :: id in entities <==> id in entities0 || (id != "" && InConv(convs[c], id))
    ensures Backed(convs, entities)
  {
    entities := entities0;
    for s := 0 to |convs[c].scraps|
      invariant forall id :: id in entities <==>
        id in entities0 || (id != "" && exists t :: 0 <= t < s && HasId(convs[c].scraps[t], id))
      invariant Backed(convs, entities)
    {
      entities := AddScrap(convs, c, s, entities);
    }
  }

  method AddScrap(convs: seq<Conv>, c: nat, s: nat, entities0: map<string, string>) returns (entities: map<string, string>)
    requires c < |convs| && s < |convs[c].scraps| && Backed(convs, entities0)
    ensures forall id :: id in entities <==> id in entities0 || (id != "" && HasId(convs[c].scraps[s], id))
    ensures Backed(convs, entities)
  {
    entities := entities0;
    var messages := convs[c].scraps[s];
    for k := 0 to |messages|
      invariant forall id :: id in entities <==> id in entities0 || (id != "" && exists j :: 0 <= j < k && messages[j].id == id)
      invariant Backed(convs, entities)
    {
      var id := messages[k].id;
      if id != "" {
        assert HasId(messages, id);
        assert InConv(convs[c], id);
        assert Backing(convs, convs[c].entityRef, id);
        entities := entities[id := convs[c].entityRef];
      }
    }
  }

  // ---- Threads ----

  /** The message ids of one thread, in order. */
  function IdsOf(threaded: seq<ThreadedMessage>, thread: nat, n: nat): seq<string>
    requires n <= |threaded|
  {
    if n == 0 then []
    else if threaded[n - 1].threadId == Some(thread) then IdsOf(threaded, thread, n - 1) + [threaded[n - 1].messageId]
    else IdsOf(threaded, thread, n - 1)
  }

  lemma {:induction false} IdsOfMembers(threaded: seq<ThreadedMessage>, thread: nat, n: nat)
    requires n <= |threaded|
    ensures forall id :: id in IdsOf(threaded, thread, n) <==>
      exists i :: 0 <= i < n && threaded[i].threadId == Some(thread) && threaded[i].messageId == id
  {
    if n > 0 {
      IdsOfMembers(threaded, thread, n - 1);
    }
  }

  function Group(groups: map<nat, seq<string>>, thread: nat): seq<string> {
    if thread in groups then groups[thread] else []
  }

  /** Every thread once, in the order of first appearance, with its message ids. */
  method GroupThreads(threaded: seq<ThreadedMessage>) returns (order: seq<nat>, groups: map<nat, seq<string>>)
    requires forall i :: 0 <= i < |threaded| ==> threaded[i].threadId.Some?
    ensures forall i :: 0 <= i < |threaded| ==> threaded[i].threadId.value in order
    ensures Distinct(order) && forall t :: t in order ==> t in groups
    ensures forall t: nat :: Group(groups, t) == IdsOf(threaded, t, |threaded|)
  {
    order, groups := [], map[];
    for i := 0 to |threaded|
      invariant forall k :: 0 <= k < i ==> threaded[k].threadId.value in order
      invariant Distinct(order) && forall t :: t in order <==> t in groups
      invariant forall t: nat :: Group(groups, t) == IdsOf(threaded, t, i)
    {
      var t := threaded[i].threadId.value;
      if t !in groups {
        order := order + [t];
      }
      groups := groups[t := Group(groups, t) + [threaded[i].messageId]];
    }
  }

  /** Among the first n messages this one is there, and none behind it has its id. */
  ghost predicate IsLast(messages: seq<Message>, n: nat, m: Message)
    requires n <= |messages|
  {
    exists k :: 0 <= k < n && messages[k] == m && forall j :: k < j < n ==> messages[j].id != m.id
  }

  lemma {:induction false} IsLastStep(messages: seq<Message>, n: nat)
    requires n < |messages|
    ensures IsLast(messages, n + 1, messages[n])
    ensures forall m :: IsLast(messages, n, m) && m.id != messages[n].id ==> IsLast(messages, n + 1, m)
  {
    forall m | IsLast(messages, n, m) && m.id != messages[n].id
      ensures IsLast(messages, n + 1, m)
    {
      var k :| 0 <= k < n && messages[k] == m && forall j :: k < j < n ==> messages[j].id != m.id;
    }
    assert messages[n] == messages[n];
  }

  /** `{m["message_id"]: m for m in messages}`: the last message with an id wins. */
  method MessagesById(messages: seq<Message>) returns (byId: map<string, Message>)
    ensures forall id :: id in byId <==> HasId(messages, id)
    ensures forall id :: id in byId ==> byId[id].id == id && IsLast(messages, |messages|, byId[id])
  {
    byId := map[];
    for k := 0 to |messages|
      invariant forall id :: id in byId <==> exists j :: 0 <= j < k && messages[j].id == id
      invariant forall id :: id in byId ==> byId[id].id == id && IsLast(messages, k, byId[id])
    {
      IsLastStep(messages, k);
      byId := byId[messages[k].id := messages[k]];
    }
  }

  // ---- Spreading along one thread ----

  ghost predicate Touches(ids: seq<string>, entities: map<string, string>) {
    exists id :: id in ids && id in entities
  }

  /** The first n ids without those that are known, in order. */
  function Missing(ids: seq<string>, known: set<string>, n: nat): (missing: seq<string>)
    requires n <= |ids|
    ensures forall id :: id in missing <==> id in ids[..n] && id !in known
  {
    if n == 0 then []
    else
      assert ids[..n] == ids[..n - 1] + [ids[n - 1]];
      if ids[n - 1] in known then Missing(ids, known, n - 1) else Missing(ids, known, n - 1) + [ids[n - 1]]
  }

  /** The messages of the ids, in order. */
  function Fetched(byId: map<string, Message>, ids: seq<string>): seq<Message>
    requires forall id :: id in ids ==> id in byId
  {
    seq(|ids|, k requires 0 <= k < |ids| => byId[ids[k]])
  }

  /** The entities of the first n ids that are known. */
  function Refs(ids: seq<string>, entities: map<string, string>, n: nat): set<string>
    requires n <= |ids|
  {
    if n == 0 then {}
    else if ids[n - 1] in entities then Refs(ids, entities, n - 1) + {entities[ids[n - 1]]}
    else Refs(ids, entities, n - 1)
  }

  lemma {:induction false} RefsMembers(ids: seq<string>, entities: map<string, string>, n: nat)
    requires n <= |ids|
    ensures forall ref :: ref in Refs(ids, entities, n) <==> InheritsFrom(ids[..n], entities, ref)
  {
    if n > 0 {
      RefsMembers(ids, entities, n - 1);
      assert ids[..n] == ids[..n - 1] + [ids[n - 1]];
    }
  }

  method SplitThread(ids: seq<string>, entities: map<string, string>) returns (refs: set<string>, missing: seq<string>)
    ensures missing == Missing(ids, entities.Keys, |ids|)
    ensures refs == {} <==> !Touches(ids, entities)
    ensures forall ref :: ref in refs <==> InheritsFrom(ids, entities, ref)
  {
    refs, missing := {}, [];
    for k := 0 to |ids|
      invariant missing == Missing(ids, entities.Keys, k) && refs == Refs(ids, entities, k)
    {
      if ids[k] in entities {
        refs := refs + {entities[ids[k]]};
      } else {
        missing := missing + [ids[k]];
      }
    }
    assert ids[..|ids|] == ids;
    RefsMembers(ids, entities, |ids|);
    if id :| id in ids && id in entities {
      assert InheritsFrom(ids, entities, entities[id]) && entities[id] in refs;
    }
  }

  /** The messages that a thread lacks, as one new scrap of the entity. */
  method CollectMissing(missing: seq<string>, byId: map<string, Message>, ref: string, entities0: map<string, string>)
      returns (scrap: seq<Message>, entities: map<string, string>)
    requires forall id :: id in byId ==> byId[id].id == id
    requires forall id :: id in missing ==> id in byId
    ensures forall id :: id in entities <==> id in entities0 || id in missing
    ensures forall id :: id in entities ==> entities[id] == if id in missing then ref else entities0[id]
    ensures forall id :: HasId(scrap, id) <==> id in missing
    ensures scrap == Fetched(byId, missing) && forall m :: m in scrap ==> m.id in byId && m == byId[m.id]
  {
    scrap, entities := [], entities0;
    for k := 0 to |missing|
      invariant |scrap| == k && forall j :: 0 <= j < k ==> scrap[j] == byId[missing[j]]
      invariant forall id :: id in entities <==> id in entities0 || id in missing[..k]
      invariant forall id :: id in entities ==> entities[id] == if id in missing[..k] then ref else entities0[id]
    {
      assert missing[..k + 1] == missing[..k] + [missing[k]];
      scrap := scrap + [byId[missing[k]]];
      entities := entities[missing[k] := ref];
    }
    assert missing[..|missing|] == missing;
    forall id | id in missing
      ensures HasId(scrap, id)
    {
      var k :| 0 <= k < |missing| && missing[k] == id;
      assert scrap[k].id == id;
    }
  }

  method FindConv(convs: seq<Conv>, ref: string) returns (c: nat)
    requires exists b :: 0 <= b < |convs| && convs[b].entityRef == ref
    ensures IsFirst(convs, ref, c)
  {
    c := 0;
    while convs[c].entityRef != ref
      invariant c < |convs| && forall b :: 0 <= b < c ==> convs[b].entityRef != ref
      decreases |convs| - c
    {
      c := c + 1;
    }
  }

  /** The first conversation of the entity. */
  ghost predicate IsFirst(convs: seq<Conv>, ref: string, c: int) {
    0 <= c < |convs| && convs[c].entityRef == ref && forall b :: 0 <= b < c ==> convs[b].entityRef != ref
  }

  /** A message newly in the lookup lands in the first conversation of its entity, and nothing else lands anywhere. */
  ghost predicate Lands(convs0: seq<Conv>, convs: seq<Conv>, entities0: map<string, string>, entities: map<string, string>)
    requires |convs| == |convs0|
  {
    forall c, id :: 0 <= c < |convs| ==>
      (InConv(convs[c], id) <==>
       InConv(convs0[c], id) || (id in entities && id !in entities0 && IsFirst(convs0, entities[id], c)))
  }

  /** The lookup keeps its entries, and a new entry repeats that of another message of the thread. */
  ghost predicate Inherits(ids: seq<string>, entities0: map<string, string>, entities: map<string, string>) {
    && (forall id :: id in entities0 ==> id in entities && entities[id] == entities0[id])
    && (forall id :: id in entities && id !in entities0 ==> InheritsFrom(ids, entities0, entities[id]))
    && forall id, other :: id in entities && other in entities && id !in entities0 && other !in entities0 ==>
         entities[id] == entities[other]
  }

  ghost predicate InheritsFrom(ids: seq<string>, entities: map<string, string>, ref: string) {
    exists id :: id in ids && id in entities && entities[id] == ref
  }

  /** The conversations when one gets a new scrap. */
  function WithScrap(convs: seq<Conv>, c: nat, scrap: seq<Message>): seq<Conv>
    requires c < |convs|
  {
    convs[c := convs[c].(scraps := convs[c].scraps + [scrap])]
  }

  ghost predicate GainsScrap(convs0: seq<Conv>, convs: seq<Conv>, scrap: seq<Message>) {
    exists c :: 0 <= c < |convs0| && convs == WithScrap(convs0, c, scrap)
  }

  lemma {:induction false} NewScrapHolds(convs: seq<Conv>, c: nat, scrap: seq<Message>, b: nat, id: string)
    requires c < |convs| && b < |convs|
    ensures Grown(convs, WithScrap(convs, c, scrap))
    ensures InConv(WithScrap(convs, c, scrap)[b], id) <==> InConv(convs[b], id) || (b == c && HasId(scrap, id))
  {
    var after := WithScrap(convs, c, scrap);
    assert after[c].scraps[|convs[c].scraps|] == scrap;
    if InConv(convs[b], id) {
      GrownKeeps(convs, after, b, id);
    }
    if InConv(after[b], id) {
      var s :| 0 <= s < |after[b].scraps| && HasId(after[b].scraps[s], id);
      assert s < |convs[b].scraps| ==> after[b].scraps[s] == convs[b].scraps[s];
    }
  }

  lemma {:induction false} NewScrapBacks(convs: seq<Conv>, c: nat, scrap: seq<Message>, entities0: map<string, string>,
                                         entities: map<string, string>, missing: seq<string>)
    requires c < |convs| && Backed(convs, entities0) && IsFirst(convs, convs[c].entityRef, c)
    requires forall id :: id in missing ==> id !in entities0
    requires forall id :: id in entities <==> id in entities0 || id in missing
    requires forall id :: id in entities ==> entities[id] == if id in missing then convs[c].entityRef else entities0[id]
    requires forall id :: HasId(scrap, id) <==> id in missing
    ensures Grown(convs, WithScrap(convs, c, scrap)) && Backed(WithScrap(convs, c, scrap), entities)
    ensures Lands(convs, WithScrap(convs, c, scrap), entities0, entities)
  {
    var after := WithScrap(convs, c, scrap);
    forall b, id | 0 <= b < |convs|
      ensures InConv(after[b], id) <==> InConv(convs[b], id) || (b == c && id in missing)
    {
      NewScrapHolds(convs, c, scrap, b, id);
    }
    forall id | id in entities
      ensures Backing(after, entities[id], id)
    {
      if id in missing {
        assert InConv(after[c], id);
      } else {
        assert Backing(convs, entities0[id], id);
      }
    }
  }

  lemma {:induction false} LandsAssigned(convs0: seq<Conv>, convs: seq<Conv>, entities0: map<string, string>,
                                         entities: map<string, string>)
    requires Grown(convs0, convs) && Backed(convs, entities) && Lands(convs0, convs, entities0, entities)
    ensures forall id :: Assigned(convs, id) <==> Assigned(convs0, id) || (id in entities && id !in entities0)
  {
    forall id
      ensures Assigned(convs, id) <==> Assigned(convs0, id) || (id in entities && id !in entities0)
    {
      if Assigned(convs0, id) {
        var c :| 0 <= c < |convs0| && InConv(convs0[c], id);
        assert InConv(convs[c], id);
      }
      if id in entities {
        assert Backing(convs, entities[id], id);
      }
    }
  }

  /** The scraps that a conversation gains hold messages of the lookup as they are. */
  ghost predicate FromLookup(convs0: seq<Conv>, convs: seq<Conv>, byId: map<string, Message>)
    requires |convs| == |convs0|
  {
    forall c, s, m :: 0 <= c < |convs| && |convs0[c].scraps| <= s < |convs[c].scraps| && m in convs[c].scraps[s] ==>
      m.id in byId && m == byId[m.id]
  }

  lemma {:induction false} NewScrapFrom(convs: seq<Conv>, c: nat, scrap: seq<Message>, byId: map<string, Message>)
    requires c < |convs| && forall m :: m in scrap ==> m.id in byId && m == byId[m.id]
    ensures FromLookup(convs, WithScrap(convs, c, scrap), byId)
  {
    var after := WithScrap(convs, c, scrap);
    forall b, s, m | 0 <= b < |after| && |convs[b].scraps| <= s < |after[b].scraps| && m in after[b].scraps[s]
      ensures m.id in byId && m == byId[m.id]
    {
      assert b == c && after[b].scraps[s] == scrap;
    }
  }

  lemma {:induction false} LookupTwice(convs0: seq<Conv>, convs1: seq<Conv>, convs: seq<Conv>, byId: map<string, Message>)
    requires Grown(convs0, convs1) && Grown(convs1, convs)
    requires FromLookup(convs0, convs1, byId) && FromLookup(convs1, convs, byId)
    ensures FromLookup(convs0, convs, byId)
  {
    forall c, s, m | 0 <= c < |convs| && |convs0[c].scraps| <= s < |convs[c].scraps| && m in convs[c].scraps[s]
      ensures m.id in byId && m == byId[m.id]
    {
      if s < |convs1[c].scraps| {
        assert convs[c].scraps[s] == convs1[c].scraps[s];
      }
    }
  }

  /** The missing messages become one scrap of the first conversation of the entity. */
  method AddMissing(convs0: seq<Conv>, entities0: map<string, string>, missing: seq<string>, byId: map<string, Message>,
                    ref: string, ghost ids: seq<string>)
      returns (convs: seq<Conv>, entities: map<string, string>)
    requires Backed(convs0, entities0) && InheritsFrom(ids, entities0, ref)
    requires forall id :: id in byId ==> byId[id].id == id
    requires forall id :: id in missing ==> id in byId && id !in entities0
    ensures Grown(convs0, convs) && Backed(convs, entities)
    ensures forall id :: id in entities <==> id in entities0 || id in missing
    ensures Inherits(ids, entities0, entities) && Lands(convs0, convs, entities0, entities)
    ensures FromLookup(convs0, convs, byId) && GainsScrap(convs0, convs, Fetched(byId, missing))
  {
    ghost var id :| id in ids && id in entities0 && entities0[id] == ref;
    assert Backing(convs0, ref, id);
    var c := FindConv(convs0, ref);
    var scrap;
    scrap, entities := CollectMissing(missing, byId, ref, entities0);
    NewScrapBacks(convs0, c, scrap, entities0, entities, missing);
    NewScrapFrom(convs0, c, scrap, byId);
    convs := WithScrap(convs0, c, scrap);
  }

  /**
   A thread with an assigned message becomes assigned as a whole, to the first
   conversation of one of its entities; any other thread stays as it is.
   */
  method SpreadThread(convs0: seq<Conv>, entities0: map<string, string>, ids: seq<string>, byId: map<string, Message>)
      returns (convs: seq<Conv>, entities: map<string, string>)
    requires Backed(convs0, entities0) && forall id :: id in byId ==> byId[id].id == id
    requires forall id :: id in ids ==> id in byId
    ensures Grown(convs0, convs) && Backed(convs, entities)
    ensures forall id :: id in entities <==> id in entities0 || (id in ids && Touches(ids, entities0))
    ensures Inherits(ids, entities0, entities) && Lands(convs0, convs, entities0, entities)
    ensures FromLookup(convs0, convs, byId)
    ensures convs == convs0
         || (Touches(ids, entities0) && GainsScrap(convs0, convs, Fetched(byId, Missing(ids, entities0.Keys, |ids|))))
  {
    convs, entities := convs0, entities0;
    var refs, missing := SplitThread(ids, entities0);
    assert ids[..|ids|] == ids;
    if refs != {} && missing != [] {
      var ref :| ref in refs;
      convs, entities := AddMissing(convs0, entities0, missing, byId, ref, ids);
    }
  }

  // ---- Spreading along all threads ----

  ghost predicate SameThread(threaded: seq<ThreadedMessage>, i: int, j: int)
    requires 0 <= i < |threaded| && 0 <= j < |threaded|
  {
    threaded[i].threadId == threaded[j].threadId
  }

  /** The message with this id answers in a thread that has an assigned message. */
  ghost predicate Reached(threaded: seq<ThreadedMessage>, convs: seq<Conv>, id: string) {
    exists i, j :: 0 <= i < |threaded| && 0 <= j < |threaded| && SameThread(threaded, i, j)
      && threaded[i].messageId != "" && Assigned(convs, threaded[i].messageId) && threaded[j].messageId == id
  }

  /** No message id occurs in two threads. */
  ghost predicate SeparateIds(threaded: seq<ThreadedMessage>) {
    forall i, j :: 0 <= i < |threaded| && 0 <= j < |threaded| && threaded[i].messageId == threaded[j].messageId ==>
      SameThread(threaded, i, j)
  }

  ghost predicate Touched(threaded: seq<ThreadedMessage>, thread: nat, known: set<string>) {
    exists id :: id in IdsOf(threaded, thread, |threaded|) && id in known
  }

  /** Of the first k threads, those with a message known at the start are known as a whole. */
  ghost predicate Covered(threaded: seq<ThreadedMessage>, order: seq<nat>, k: nat, known0: set<string>, known: set<string>)
    requires k <= |order|
  {
    && known0 <= known
    && forall t :: 0 <= t < k && Touched(threaded, order[t], known0) ==>
         forall id :: id in IdsOf(threaded, order[t], |threaded|) ==> id in known
  }

  /** Some thread with a message known at the start has this message. */
  ghost predicate Justified(threaded: seq<ThreadedMessage>, order: seq<nat>, known0: set<string>, id: string) {
    exists t :: t in order && Touched(threaded, t, known0) && id in IdsOf(threaded, t, |threaded|)
  }

  ghost predicate AllJustified(threaded: seq<ThreadedMessage>, order: seq<nat>, known0: set<string>, known: set<string>) {
    forall id :: id in known && id !in known0 ==> Justified(threaded, order, known0, id)
  }

  /** The known messages are assigned, and every new assignment is known. */
  ghost predicate Consistent(convs0: seq<Conv>, convs: seq<Conv>, known: set<string>) {
    && (forall id :: id in known ==> Assigned(convs, id))
    && forall id :: Assigned(convs, id) ==> Assigned(convs0, id) || id in known
  }

  /** An id of a thread that is in a touched thread is in this thread, if ids are separate. */
  lemma {:induction false} OneThread(threaded: seq<ThreadedMessage>, t: nat, u: nat, id: string)
    requires SeparateIds(threaded)
    requires id in IdsOf(threaded, t, |threaded|) && id in IdsOf(threaded, u, |threaded|)
    ensures t == u
  {
    IdsOfMembers(threaded, t, |threaded|);
    IdsOfMembers(threaded, u, |threaded|);
    var i :| 0 <= i < |threaded| && threaded[i].threadId == Some(t) && threaded[i].messageId == id;
    var j :| 0 <= j < |threaded| && threaded[j].threadId == Some(u) && threaded[j].messageId == id;
    assert SameThread(threaded, i, j);
  }

  lemma {:induction false} CoverOneMore(threaded: seq<ThreadedMessage>, order: seq<nat>, k: nat, known0: set<string>,
                                        known: set<string>, after: set<string>)
    requires k < |order| && Covered(threaded, order, k, known0, known) && known <= after
    requires Touched(threaded, order[k], known) ==> forall id :: id in IdsOf(threaded, order[k], |threaded|) ==> id in after
    ensures Covered(threaded, order, k + 1, known0, after)
  {
    if Touched(threaded, order[k], known0) {
      var id :| id in IdsOf(threaded, order[k], |threaded|) && id in known0;
      assert Touched(threaded, order[k], known);
    }
  }

  lemma {:induction false} JustifyOneMore(threaded: seq<ThreadedMessage>, order: seq<nat>, thread: nat, known0: set<string>,
                                          known: set<string>, after: set<string>)
    requires SeparateIds(threaded) && thread in order && AllJustified(threaded, order, known0, known)
    requires forall id :: id in after && id !in known ==>
      id in IdsOf(threaded, thread, |threaded|) && Touched(threaded, thread, known)
    ensures AllJustified(threaded, order, known0, after)
  {
    forall id | id in after && id !in known
      ensures Justified(threaded, order, known0, id)
    {
      var other :| other in IdsOf(threaded, thread, |threaded|) && other in known;
      if other !in known0 {
        assert Justified(threaded, order, known0, other);
        var t :| t in order && Touched(threaded, t, known0) && other in IdsOf(threaded, t, |threaded|);
        OneThread(threaded, t, thread, other);
      }
      assert Touched(threaded, thread, known0);
    }
  }

  /** One conversation gains one scrap, of messages that were not known and now are. */
  ghost predicate GainsMissing(convs0: seq<Conv>, convs: seq<Conv>, known0: set<string>, known: set<string>) {
    exists scrap: seq<Message> :: GainsScrap(convs0, convs, scrap) && forall m :: m in scrap ==> m.id !in known0 && m.id in known
  }

  lemma {:induction false} GainsAreMissing(convs0: seq<Conv>, convs: seq<Conv>, known0: set<string>, known: set<string>,
                                           byId: map<string, Message>, ids: seq<string>)
    requires (forall id :: id in byId ==> byId[id].id == id) && forall id :: id in ids ==> id in byId && id in known
    requires GainsScrap(convs0, convs, Fetched(byId, Missing(ids, known0, |ids|)))
    ensures GainsMissing(convs0, convs, known0, known)
  {
    var missing := Missing(ids, known0, |ids|);
    var scrap := Fetched(byId, missing);
    assert ids[..|ids|] == ids;
    forall m | m in scrap
      ensures m.id !in known0 && m.id in known
    {
      var k :| 0 <= k < |scrap| && scrap[k] == m;
      assert missing[k] in missing && m.id == missing[k];
    }
  }

  ghost predicate Gained(convs0: seq<Conv>, convs: seq<Conv>, c: int, s: int)
    requires |convs| == |convs0|
  {
    0 <= c < |convs| && |convs0[c].scraps| <= s < |convs[c].scraps|
  }

  ghost predicate NoCommonId(first: seq<Message>, second: seq<Message>) {
    forall m, n :: m in first && n in second ==> m.id != n.id
  }

  /** The gained scraps hold messages that were not known at the start and now are, and no two share one. */
  ghost predicate GainsOnce(convs0: seq<Conv>, convs: seq<Conv>, known0: set<string>, known: set<string>)
    requires |convs| == |convs0|
  {
    && (forall c, s, m :: Gained(convs0, convs, c, s) && m in convs[c].scraps[s] ==> m.id !in known0 && m.id in known)
    && forall c, s, d, t :: Gained(convs0, convs, c, s) && Gained(convs0, convs, d, t) && (c != d || s != t) ==>
         NoCommonId(convs[c].scraps[s], convs[d].scraps[t])
  }

  lemma {:induction false} GainedBefore(convs0: seq<Conv>, before: seq<Conv>, b: nat, scrap: seq<Message>, c: int, s: int)
    requires Grown(convs0, before) && b < |before| && Gained(convs0, WithScrap(before, b, scrap), c, s)
    ensures if Gained(convs0, before, c, s) then WithScrap(before, b, scrap)[c].scraps[s] == before[c].scraps[s]
            else c == b && s == |before[b].scraps| && WithScrap(before, b, scrap)[c].scraps[s] == scrap
  {
  }

  lemma {:induction false} OnceStep(convs0: seq<Conv>, before: seq<Conv>, convs: seq<Conv>, known0: set<string>,
                                    was: set<string>, known: set<string>)
    requires Grown(convs0, before) && |convs| == |convs0| && GainsOnce(convs0, before, known0, was)
    requires known0 <= was <= known && (convs == before || GainsMissing(before, convs, was, known))
    ensures GainsOnce(convs0, convs, known0, known)
  {
    if convs != before {
      var scrap: seq<Message> :| GainsScrap(before, convs, scrap) && forall m :: m in scrap ==> m.id !in was && m.id in known;
      var b :| 0 <= b < |before| && convs == WithScrap(before, b, scrap);
      forall c, s | Gained(convs0, convs, c, s)
        ensures forall m :: m in convs[c].scraps[s] ==> m.id !in known0 && m.id in known
      {
        GainedBefore(convs0, before, b, scrap, c, s);
      }
      forall c, s, d, t | Gained(convs0, convs, c, s) && Gained(convs0, convs, d, t) && (c != d || s != t)
        ensures NoCommonId(convs[c].scraps[s], convs[d].scraps[t])
      {
        GainedBefore(convs0, before, b, scrap, c, s);
        GainedBefore(convs0, before, b, scrap, d, t);
      }
    }
  }

  /** What a conversation gains was in none before, and is gained once; only messages without an id are exempt. */
  ghost predicate GainsNew(convs0: seq<Conv>, convs: seq<Conv>)
    requires |convs| == |convs0|
  {
    && (forall c, s, m :: Gained(convs0, convs, c, s) && m in convs[c].scraps[s] ==> m.id == "" || !Assigned(convs0, m.id))
    && forall c, s, d, t :: Gained(convs0, convs, c, s) && Gained(convs0, convs, d, t) && (c != d || s != t) ==>
         NoCommonId(convs[c].scraps[s], convs[d].scraps[t])
  }

  /** What a conversation gains are messages of the list, of several with one id the last. */
  ghost predicate GainsLast(convs0: seq<Conv>, convs: seq<Conv>, all: seq<Message>)
    requires |convs| == |convs0|
  {
    forall c, s, m :: Gained(convs0, convs, c, s) && m in convs[c].scraps[s] ==>
      IsLast(all, |all|, m)
  }

  /**
   Afterwards every thread that had an assigned message is assigned as a whole,
   to a conversation of one of its entities; no assignment is lost, and nothing
   else was assigned.
   */
  method EnhanceWithReplyTree(convs0: seq<Conv>, threaded: seq<ThreadedMessage>, all: seq<Message>)
      returns (convs: seq<Conv>)
    requires forall i :: 0 <= i < |threaded| ==> threaded[i].threadId.Some? && HasId(all, threaded[i].messageId)
    ensures Grown(convs0, convs)
    ensures forall id :: Assigned(convs0, id) || Reached(threaded, convs0, id) ==> Assigned(convs, id)
    ensures SeparateIds(threaded) ==>
      forall id :: Assigned(convs, id) ==> Assigned(convs0, id) || Reached(threaded, convs0, id)
    ensures forall id :: Assigned(convs, id) ==> Assigned(convs0, id) || HasId(all, id)
    ensures Joined(threaded, convs0, convs)
    ensures SeparateIds(threaded) ==> JoinedAtOnce(threaded, convs0, convs)
    ensures GainsLast(convs0, convs, all) && GainsNew(convs0, convs)
  {
    var entities := MessageEntities(convs0);
    ghost var known0, start := entities.Keys, entities;
    var order, groups := GroupThreads(threaded);
    var byId := MessagesById(all);
    convs := convs0;
    for k := 0 to |order|
      invariant Backed(convs, entities)
      invariant Spreading(threaded, order, k, convs0, known0, convs, entities.Keys, all)
      invariant Joining(threaded, order, k, convs0, start, convs, entities)
      invariant FromLookup(convs0, convs, byId) && known0 <= entities.Keys && GainsOnce(convs0, convs, known0, entities.Keys)
    {
      ghost var before, was := convs, entities;
      convs, entities := SpreadNext(convs, entities, threaded, order[k], groups, byId, all);
      SpreadStep(threaded, order, k, convs0, known0, before, was.Keys, convs, entities.Keys, all);
      JoinStep(threaded, order, k, convs0, start, before, was, convs, entities);
      LookupTwice(convs0, before, convs, byId);
      OnceStep(convs0, before, convs, known0, was.Keys, entities.Keys);
    }
    SpreadIsComplete(threaded, order, convs0, known0, convs, entities.Keys, all);
  }

  /** The thread of the message has another message, if required with an id, in a conversation of the entity. */
  ghost predicate Joins(threaded: seq<ThreadedMessage>, convs: seq<Conv>, named: bool, ref: string, id: string) {
    exists i, j :: 0 <= i < |threaded| && 0 <= j < |threaded| && SameThread(threaded, i, j) && threaded[j].messageId == id
      && Supports(convs, named, ref, threaded[i].messageId, id)
  }

  ghost predicate Supports(convs: seq<Conv>, named: bool, ref: string, other: string, id: string) {
    other != id && (named ==> other != "") && Backing(convs, ref, other)
  }

  /** Whatever a conversation gains, another message of the thread is in a conversation of the same entity. */
  ghost predicate Joined(threaded: seq<ThreadedMessage>, convs0: seq<Conv>, convs: seq<Conv>)
    requires |convs| == |convs0|
  {
    forall c, id :: 0 <= c < |convs| && InConv(convs[c], id) && !InConv(convs0[c], id) ==>
      Joins(threaded, convs, false, convs[c].entityRef, id)
  }

  /** And that other message was there from the start. */
  ghost predicate JoinedAtOnce(threaded: seq<ThreadedMessage>, convs0: seq<Conv>, convs: seq<Conv>)
    requires |convs| == |convs0|
  {
    forall c, id :: 0 <= c < |convs| && InConv(convs[c], id) && !InConv(convs0[c], id) ==>
      Joins(threaded, convs0, true, convs[c].entityRef, id)
  }

  /** The lookup keeps the entries of the start, and threads yet to come hold no message that is new in it. */
  ghost predicate LookupGrows(threaded: seq<ThreadedMessage>, order: seq<nat>, k: nat,
                              start: map<string, string>, entities: map<string, string>)
    requires k <= |order|
  {
    && (forall id :: id in start ==> id in entities && entities[id] == start[id])
    && (SeparateIds(threaded) ==>
          forall id :: id in entities && id !in start ==> NewIn(threaded, order, k, id))
  }

  ghost predicate NewIn(threaded: seq<ThreadedMessage>, order: seq<nat>, k: nat, id: string)
    requires k <= |order|
  {
    exists t :: 0 <= t < k && id in IdsOf(threaded, order[t], |threaded|)
  }

  /** The loop when the first k threads are done: where the new messages are. */
  ghost predicate Joining(threaded: seq<ThreadedMessage>, order: seq<nat>, k: nat, convs0: seq<Conv>,
                          start: map<string, string>, convs: seq<Conv>, entities: map<string, string>)
    requires k <= |order|
  {
    && Distinct(order) && Backed(convs0, start) && "" !in start && Backed(convs, entities) && Grown(convs0, convs)
    && LookupGrows(threaded, order, k, start, entities) && Joined(threaded, convs0, convs)
    && (SeparateIds(threaded) ==> JoinedAtOnce(threaded, convs0, convs))
  }

  lemma {:induction false} LookupStep(threaded: seq<ThreadedMessage>, order: seq<nat>, k: nat, start: map<string, string>,
                                      was: map<string, string>, entities: map<string, string>)
    requires k < |order| && LookupGrows(threaded, order, k, start, was)
    requires Inherits(IdsOf(threaded, order[k], |threaded|), was, entities)
    requires forall id :: id in entities && id !in was ==> id in IdsOf(threaded, order[k], |threaded|)
    ensures LookupGrows(threaded, order, k + 1, start, entities)
  {
    if SeparateIds(threaded) {
      forall id | id in entities && id !in start
        ensures NewIn(threaded, order, k + 1, id)
      {
        if id in was {
          assert NewIn(threaded, order, k, id);
        } else {
          assert id in IdsOf(threaded, order[k], |threaded|);
        }
      }
    }
  }

  lemma {:induction false} JoinsThread(threaded: seq<ThreadedMessage>, thread: nat, convs: seq<Conv>, named: bool,
                                       ref: string, other: string, id: string)
    requires other in IdsOf(threaded, thread, |threaded|) && id in IdsOf(threaded, thread, |threaded|)
    requires Supports(convs, named, ref, other, id)
    ensures Joins(threaded, convs, named, ref, id)
  {
    IdsOfMembers(threaded, thread, |threaded|);
    var i :| 0 <= i < |threaded| && threaded[i].threadId == Some(thread) && threaded[i].messageId == other;
    var j :| 0 <= j < |threaded| && threaded[j].threadId == Some(thread) && threaded[j].messageId == id;
    assert SameThread(threaded, i, j);
  }

  /** A message that the k-th thread adds joins one that is already there, and was there from the start if ids are separate. */
  lemma {:induction false} JoinOne(threaded: seq<ThreadedMessage>, order: seq<nat>, k: nat, convs0: seq<Conv>,
                                   start: map<string, string>, before: seq<Conv>, was: map<string, string>,
                                   ref: string, id: string)
    requires k < |order| && Joining(threaded, order, k, convs0, start, before, was)
    requires id !in was && id in IdsOf(threaded, order[k], |threaded|)
    requires InheritsFrom(IdsOf(threaded, order[k], |threaded|), was, ref)
    ensures Joins(threaded, before, false, ref, id)
    ensures SeparateIds(threaded) ==> Joins(threaded, convs0, true, ref, id)
  {
    var ids := IdsOf(threaded, order[k], |threaded|);
    var other :| other in ids && other in was && was[other] == ref;
    assert Supports(before, false, ref, other, id);
    JoinsThread(threaded, order[k], before, false, ref, other, id);
    if SeparateIds(threaded) {
      if other !in start {
        assert NewIn(threaded, order, k, other);
        var t :| 0 <= t < k && other in IdsOf(threaded, order[t], |threaded|);
        OneThread(threaded, order[t], order[k], other);
      }
      assert Supports(convs0, true, ref, other, id);
      JoinsThread(threaded, order[k], convs0, true, ref, other, id);
    }
  }

  lemma {:induction false} JoinsGrows(threaded: seq<ThreadedMessage>, before: seq<Conv>, after: seq<Conv>, ref: string,
                                      id: string)
    requires Grown(before, after) && Joins(threaded, before, false, ref, id)
    ensures Joins(threaded, after, false, ref, id)
  {
    var i, j :| 0 <= i < |threaded| && 0 <= j < |threaded| && SameThread(threaded, i, j) && threaded[j].messageId == id
      && Supports(before, false, ref, threaded[i].messageId, id);
    var c :| 0 <= c < |before| && before[c].entityRef == ref && InConv(before[c], threaded[i].messageId);
    GrownKeeps(before, after, c, threaded[i].messageId);
    assert Supports(after, false, ref, threaded[i].messageId, id);
  }

  lemma {:induction false} JoinStep(threaded: seq<ThreadedMessage>, order: seq<nat>, k: nat, convs0: seq<Conv>,
                                    start: map<string, string>, before: seq<Conv>, was: map<string, string>,
                                    convs: seq<Conv>, entities: map<string, string>)
    requires k < |order| && Joining(threaded, order, k, convs0, start, before, was)
    requires Grown(before, convs) && Backed(convs, entities)
    requires Inherits(IdsOf(threaded, order[k], |threaded|), was, entities) && Lands(before, convs, was, entities)
    requires forall id :: id in entities && id !in was ==> id in IdsOf(threaded, order[k], |threaded|)
    ensures Joining(threaded, order, k + 1, convs0, start, convs, entities)
  {
    LookupStep(threaded, order, k, start, was, entities);
    forall c, id | 0 <= c < |convs| && InConv(convs[c], id) && !InConv(convs0[c], id)
      ensures Joins(threaded, convs, false, convs[c].entityRef, id)
      ensures SeparateIds(threaded) ==> Joins(threaded, convs0, true, convs[c].entityRef, id)
    {
      if !InConv(before[c], id) {
        JoinOne(threaded, order, k, convs0, start, before, was, entities[id], id);
      }
      JoinsGrows(threaded, before, convs, convs[c].entityRef, id);
    }
  }

  /** The loop when the first k threads are done: which messages are assigned. */
  ghost predicate Spreading(threaded: seq<ThreadedMessage>, order: seq<nat>, k: nat, convs0: seq<Conv>, known0: set<string>,
                            convs: seq<Conv>, known: set<string>, all: seq<Message>)
    requires k <= |order|
  {
    && Grown(convs0, convs) && Consistent(convs0, convs, known) && Covered(threaded, order, k, known0, known)
    && (SeparateIds(threaded) ==> AllJustified(threaded, order, known0, known))
    && forall id :: Assigned(convs, id) ==> Assigned(convs0, id) || HasId(all, id)
  }

  /** What one thread adds. */
  ghost predicate Added(threaded: seq<ThreadedMessage>, thread: nat, before: seq<Conv>, known: set<string>,
                        convs: seq<Conv>, after: set<string>, all: seq<Message>) {
    && Grown(before, convs) && known <= after
    && (Touched(threaded, thread, known) ==> forall id :: id in IdsOf(threaded, thread, |threaded|) ==> id in after)
    && (forall id :: id in after && id !in known ==>
          id in IdsOf(threaded, thread, |threaded|) && Touched(threaded, thread, known) && HasId(all, id))
    && forall id :: Assigned(convs, id) <==> Assigned(before, id) || (id in after && id !in known)
  }

  lemma {:induction false} SpreadStep(threaded: seq<ThreadedMessage>, order: seq<nat>, k: nat, convs0: seq<Conv>,
                                      known0: set<string>, before: seq<Conv>, known: set<string>,
                                      convs: seq<Conv>, after: set<string>, all: seq<Message>)
    requires k < |order| && Spreading(threaded, order, k, convs0, known0, before, known, all)
    requires Added(threaded, order[k], before, known, convs, after, all)
    ensures Spreading(threaded, order, k + 1, convs0, known0, convs, after, all)
  {
    CoverOneMore(threaded, order, k, known0, known, after);
    if SeparateIds(threaded) {
      JustifyOneMore(threaded, order, order[k], known0, known, after);
    }
  }

  /** One round of the loop: the thread's ids come from the lookup. */
  method SpreadNext(convs0: seq<Conv>, entities0: map<string, string>, threaded: seq<ThreadedMessage>, thread: nat,
                    groups: map<nat, seq<string>>, byId: map<string, Message>, ghost all: seq<Message>)
      returns (convs: seq<Conv>, entities: map<string, string>)
    requires Backed(convs0, entities0) && thread in groups && Group(groups, thread) == IdsOf(threaded, thread, |threaded|)
    requires (forall id :: id in byId <==> HasId(all, id)) && forall id :: id in byId ==> byId[id].id == id
    requires forall i :: 0 <= i < |threaded| ==> HasId(all, threaded[i].messageId)
    ensures Backed(convs, entities)
    ensures Added(threaded, thread, convs0, entities0.Keys, convs, entities.Keys, all)
    ensures Inherits(IdsOf(threaded, thread, |threaded|), entities0, entities) && Lands(convs0, convs, entities0, entities)
    ensures FromLookup(convs0, convs, byId)
    ensures convs == convs0 || GainsMissing(convs0, convs, entities0.Keys, entities.Keys)
  {
    var ids := groups[thread];
    IdsOfMembers(threaded, thread, |threaded|);
    convs, entities := SpreadThread(convs0, entities0, ids, byId);
    LandsAssigned(convs0, convs, entities0, entities);
    assert Touches(ids, entities0) <==> Touched(threaded, thread, entities0.Keys);
    if convs != convs0 {
      GainsAreMissing(convs0, convs, entities0.Keys, entities.Keys, byId, ids);
    }
  }

  lemma {:induction false} SpreadIsComplete(threaded: seq<ThreadedMessage>, order: seq<nat>, convs0: seq<Conv>,
                                            known0: set<string>, convs: seq<Conv>, known: set<string>, all: seq<Message>)
    requires Spreading(threaded, order, |order|, convs0, known0, convs, known, all)
    requires forall i :: 0 <= i < |threaded| ==> threaded[i].threadId.Some? && threaded[i].threadId.value in order
    requires forall id :: id in known0 <==> id != "" && Assigned(convs0, id)
    ensures forall id :: Assigned(convs0, id) || Reached(threaded, convs0, id) ==> Assigned(convs, id)
    ensures SeparateIds(threaded) ==>
      forall id :: Assigned(convs, id) ==> Assigned(convs0, id) || Reached(threaded, convs0, id)
  {
    forall id | Assigned(convs0, id)
      ensures Assigned(convs, id)
    {
      var c :| 0 <= c < |convs0| && InConv(convs0[c], id);
      GrownKeeps(convs0, convs, c, id);
    }
    forall id | Reached(threaded, convs0, id)
      ensures Assigned(convs, id)
    {
      var i, j :| 0 <= i < |threaded| && 0 <= j < |threaded| && SameThread(threaded, i, j)
        && threaded[i].messageId != "" && Assigned(convs0, threaded[i].messageId) && threaded[j].messageId == id;
      var thread := threaded[i].threadId.value;
      IdsOfMembers(threaded, thread, |threaded|);
      assert threaded[i].messageId in IdsOf(threaded, thread, |threaded|);
      assert Touched(threaded, thread, known0);
      var t :| 0 <= t < |order| && order[t] == thread;
      assert id in IdsOf(threaded, order[t], |threaded|);
    }
    if SeparateIds(threaded) {
      forall id | Assigned(convs, id) && !Assigned(convs0, id)
        ensures Reached(threaded, convs0, id)
      {
        assert Justified(threaded, order, known0, id);
        var t :| t in order && Touched(threaded, t, known0) && id in IdsOf(threaded, t, |threaded|);
        IdsOfMembers(threaded, t, |threaded|);
        var first :| first in IdsOf(threaded, t, |threaded|) && first in known0;
        var i :| 0 <= i < |threaded| && threaded[i].threadId == Some(t) && threaded[i].messageId == first;
        var j :| 0 <= j < |threaded| && threaded[j].threadId == Some(t) && threaded[j].messageId == id;
        assert SameThread(threaded, i, j);
      }
    }
  }

  /** So when ids are separate, no thread is left half assigned. */
  lemma {:induction false} WholeThreads(threaded: seq<ThreadedMessage>, convs0: seq<Conv>, convs: seq<Conv>, i: nat, j: nat)
    requires SeparateIds(threaded) && i < |threaded| && j < |threaded| && SameThread(threaded, i, j)
    requires forall id :: Assigned(convs, id) <==> Assigned(convs0, id) || Reached(threaded, convs0, id)
    requires threaded[i].messageId != "" && Assigned(convs, threaded[i].messageId)
    ensures Assigned(convs, threaded[j].messageId)
  {
    var id := threaded[i].messageId;
    if Reached(threaded, convs0, id) {
      var a, b :| 0 <= a < |threaded| && 0 <= b < |threaded| && SameThread(threaded, a, b)
        && threaded[a].messageId != "" && Assigned(convs0, threaded[a].messageId) && threaded[b].messageId == id;
      assert SameThread(threaded, b, i);
      assert SameThread(threaded, a, j);
    }
    assert Reached(threaded, convs0, threaded[j].messageId);
  }

  lemma {:induction false} FilterChronological(keep: Message -> bool, messages: seq<Message>)
    requires Chronological(messages)
    ensures Chronological(Filter(keep, messages))
  {
    if messages != [] {
      var n := |messages| - 1;
      FilterChronological(keep, messages[..n]);
      FilterMembers(keep, messages[..n]);
      var before := Filter(keep, messages[..n]);
      forall i | 0 <= i < |before|
        ensures before[i].timestamp <= messages[n].timestamp
      {
        assert before[i] in messages[..n];
      }
    }
  }

  /** Every message with text in its scored form, and every pair in one thread exactly when replies connect it. */
  ghost predicate ThreadedBy(score: Scorer, text: seq<Message>, threaded: seq<ThreadedMessage>) {
    && |threaded| == |text| && ParentsFirst(threaded) && ThreadsAreConversations(ParentsOf(threaded), threaded)
    && forall i :: 0 <= i < |text| ==> Scored(score, text, i, threaded[i])
  }

  /** Replies connect the message with another one, if required with an id, in a conversation of the entity. */
  ghost predicate Answers(threaded: seq<ThreadedMessage>, convs: seq<Conv>, named: bool, ref: string, id: string)
    requires ParentsFirst(threaded)
  {
    exists i: nat, j: nat :: i < |threaded| && j < |threaded| && Connected(ParentsOf(threaded), i, j)
      && threaded[j].messageId == id && Supports(convs, named, ref, threaded[i].messageId, id)
  }

  ghost predicate DistinctIds(messages: seq<Message>) {
    forall i, j :: 0 <= i < j < |messages| ==> messages[i].id != messages[j].id
  }

  lemma {:induction false} ThreadsSeparate(score: Scorer, text: seq<Message>, threaded: seq<ThreadedMessage>)
    requires ThreadedBy(score, text, threaded) && DistinctIds(text)
    ensures SeparateIds(threaded)
  {
    forall i: nat, j: nat | i < |threaded| && j < |threaded| && threaded[i].messageId == threaded[j].messageId
      ensures SameThread(threaded, i, j)
    {
      assert Scored(score, text, i, threaded[i]) && Scored(score, text, j, threaded[j]);
      assert i == j;
    }
  }

  lemma {:induction false} JoinsAnswers(score: Scorer, text: seq<Message>, threaded: seq<ThreadedMessage>,
                                        convs: seq<Conv>, named: bool, ref: string, id: string)
    requires ThreadedBy(score, text, threaded) && Joins(threaded, convs, named, ref, id)
    ensures Answers(threaded, convs, named, ref, id)
  {
    var i: nat, j: nat :| i < |threaded| && j < |threaded| && SameThread(threaded, i, j)
      && threaded[j].messageId == id && Supports(convs, named, ref, threaded[i].messageId, id);
    assert Connected(ParentsOf(threaded), i, j);
  }

  /** Whatever a conversation gains answers a message of its entity: of the start if ids are distinct. */
  ghost predicate GainsAnswer(threaded: seq<ThreadedMessage>, convs0: seq<Conv>, convs: seq<Conv>, distinct: bool)
    requires ParentsFirst(threaded) && |convs| == |convs0|
  {
    forall c, id :: 0 <= c < |convs| && InConv(convs[c], id) && !InConv(convs0[c], id) ==>
      Answers(threaded, if distinct then convs0 else convs, distinct, convs[c].entityRef, id)
  }

  /**
   The second step of a flush: the messages with text are threaded by their best
   parents, and whoever is connected by replies with an assigned message is
   assigned.  If no two messages with text share an id, nobody else is, and
   everybody joins the entity of a message assigned before.
   */
  method AssignByReplies(score: Scorer, hasText: Message -> bool, convs0: seq<Conv>, all: seq<Message>)
      returns (convs: seq<Conv>, threaded: seq<ThreadedMessage>)
    requires Chronological(all)
    ensures Grown(convs0, convs) && ThreadedBy(score, Filter(hasText, all), threaded)
    ensures forall i: nat, j: nat ::
      (i < |threaded| && j < |threaded| && Connected(ParentsOf(threaded), i, j)
       && threaded[i].messageId != "" && Assigned(convs0, threaded[i].messageId)) ==>
      Assigned(convs, threaded[j].messageId)
    ensures forall id :: Assigned(convs0, id) ==> Assigned(convs, id)
    ensures forall id :: Assigned(convs, id) ==> Assigned(convs0, id) || HasId(all, id)
    ensures GainsAnswer(threaded, convs0, convs, DistinctIds(Filter(hasText, all)))
    ensures GainsLast(convs0, convs, all) && GainsNew(convs0, convs)
  {
    var text := Filter(hasText, all);
    FilterChronological(hasText, all);
    FilterMembers(hasText, all);
    threaded := BuildReplyTree(score, text);
    forall i | 0 <= i < |threaded|
      ensures threaded[i].messageId == text[i].id && HasId(all, threaded[i].messageId)
    {
      assert Scored(score, text, i, threaded[i]);
      assert text[i] in all;
      var k :| 0 <= k < |all| && all[k] == text[i];
    }
    if DistinctIds(text) {
      ThreadsSeparate(score, text, threaded);
    }
    convs := EnhanceWithReplyTree(convs0, threaded, all);
    forall i: nat, j: nat | i < |threaded| && j < |threaded| && Connected(ParentsOf(threaded), i, j)
                            && threaded[i].messageId != "" && Assigned(convs0, threaded[i].messageId)
      ensures Assigned(convs, threaded[j].messageId)
    {
      assert SameThread(threaded, i, j);
      assert Reached(threaded, convs0, threaded[j].messageId);
    }
    ghost var distinct := DistinctIds(text);
    forall c, id | 0 <= c < |convs| && InConv(convs[c], id) && !InConv(convs0[c], id)
      ensures Answers(threaded, if distinct then convs0 else convs, distinct, convs[c].entityRef, id)
    {
      JoinsAnswers(score, text, threaded, if distinct then convs0 else convs, distinct, convs[c].entityRef, id);
    }
  }

  // ---- The split of a segment ----

  /** The messages whose ids are in no conversation, in order. */
  ghost function Left(convs: seq<Conv>, messages: seq<Message>, n: nat): seq<Message>
    requires n <= |messages|
  {
    if n == 0 then []
    else if Assigned(convs, messages[n - 1].id) then Left(convs, messages, n - 1)
    else Left(convs, messages, n - 1) + [messages[n - 1]]
  }

  lemma {:induction false} LeftIds(convs: seq<Conv>, messages: seq<Message>, n: nat)
    requires n <= |messages|
    ensures forall m :: m in Left(convs, messages, n) <==>
      !Assigned(convs, m.id) && exists k :: 0 <= k < n && messages[k] == m
  {
    if n > 0 {
      LeftIds(convs, messages, n - 1);
    }
  }

  method AssignedIds(convs: seq<Conv>) returns (ids: set<string>)
    ensures forall id :: id in ids <==> Assigned(convs, id)
  {
    ids := {};
    for c := 0 to |convs|
      invariant forall id :: id in ids <==> exists b :: 0 <= b < c && InConv(convs[b], id)
    {
      ids := AddIds(convs[c], ids);
    }
  }

  method AddIds(conv: Conv, ids0: set<string>) returns (ids: set<string>)
    ensures forall id :: id in ids <==> id in ids0 || InConv(conv, id)
  {
    ids := ids0;
    for s := 0 to |conv.scraps|
      invariant forall id :: id in ids <==> id in ids0 || exists t :: 0 <= t < s && HasId(conv.scraps[t], id)
    {
      ghost var before := ids;
      for k := 0 to |conv.scraps[s]|
        invariant forall id :: id in ids <==> id in before || exists j :: 0 <= j < k && conv.scraps[s][j].id == id
      {
        ids := ids + {conv.scraps[s][k].id};
      }
      assert forall id :: id in ids <==> id in before || HasId(conv.scraps[s], id);
    }
  }

  /** The ids of a segment fall into those of its conversations and those left over, and no id into both. */
  method SplitSegment(convs: seq<Conv>, messages: seq<Message>) returns (unassigned: seq<Message>)
    requires forall id :: Assigned(convs, id) ==> HasId(messages, id)
    ensures forall id :: HasId(messages, id) <==> Assigned(convs, id) || HasId(unassigned, id)
    ensures forall id :: !(Assigned(convs, id) && HasId(unassigned, id))
    ensures unassigned == Left(convs, messages, |messages|)
  {
    var taken := AssignedIds(convs);
    unassigned := [];
    for k := 0 to |messages|
      invariant unassigned == Left(convs, messages, k)
    {
      if messages[k].id !in taken {
        unassigned := unassigned + [messages[k]];
      }
    }
    LeftIds(convs, messages, |messages|);
    forall id
      ensures HasId(messages, id) <==> Assigned(convs, id) || HasId(unassigned, id)
      ensures !(Assigned(convs, id) && HasId(unassigned, id))
    {
      LeftHasId(convs, messages, id);
    }
  }

  lemma {:induction false} LeftHasId(convs: seq<Conv>, messages: seq<Message>, id: string)
    ensures HasId(Left(convs, messages, |messages|), id) <==> HasId(messages, id) && !Assigned(convs, id)
  {
    LeftIds(convs, messages, |messages|);
    var left := Left(convs, messages, |messages|);
    if j :| 0 <= j < |left| && left[j].id == id {
      assert left[j] in left;
    }
    if HasId(messages, id) && !Assigned(convs, id) {
      var k :| 0 <= k < |messages| && messages[k].id == id;
      assert messages[k] in left;
      var j :| 0 <= j < |left| && left[j] == messages[k];
    }
  }
}
