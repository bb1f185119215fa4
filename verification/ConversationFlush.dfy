/**
 One flush of the conversation router, from the messages of a segment to its
 conversations and the messages left over.  The matching by dates and by the
 language model, which comes before the split, is not part of this model.
 */
module ConversationFlush {
  import opened Messages
  import opened Ordering
  import opened ScrapDetector
  import opened ConversationLabels
  import opened ConversationManager
  import R = ReplyTree
  import T = ThreadEnhancement

  // ---- From the scraps of the detector to those of the manager ----

  /** One sender's scraps, in list order. */
  function Sent(views: seq<ScrapView>, p: string): (sent: seq<ScrapView>)
    ensures forall v :: v in sent <==> v in views && v.sender == p
  {
    if views == [] then []
    else
      var n := |views| - 1;
      assert views == views[..n] + [views[n]];
      if views[n].sender == p then Sent(views[..n], p) + [views[n]] else Sent(views[..n], p)
  }

  /** The scraps hold the runs, in order, and name the entities of their runs. */
  ghost predicate HoldEach(sent: seq<ScrapView>, groupId: string, evidence: Evidence, runs: seq<seq<Message>>) {
    && |sent| == |runs|
    && forall i :: 0 <= i < |sent| ==> sent[i].groupId == groupId && sent[i].Holds(evidence, runs[i])
  }

  /** Every sender's scraps hold the greedy cut of that sender's messages; together they are in order of time. */
  ghost predicate CutGreedily(views: seq<ScrapView>, messages: seq<Message>, groupId: string, evidence: Evidence) {
    && (forall i, j :: 0 <= i < j < |views| ==> views[i].firstMsgTs <= views[j].firstMsgTs)
    && forall p :: HoldEach(Sent(views, p), groupId, evidence, Greedy(evidence, MessagesOf(messages, p)))
  }

  /** Open scraps that name each entity once and hold messages of the segment, every one of them. */
  ghost predicate CutFrom(views: seq<ScrapView>, messages: seq<Message>) {
    && (forall v :: v in views ==> OpenPart(v, messages))
    && forall m :: m in messages ==> exists v :: v in views && m in v.messages
  }

  /** The messages of an open scrap are the sender's, and the segment's. */
  ghost predicate OpenPart(v: ScrapView, messages: seq<Message>) {
    && v.status == Open && (forall c :: multiset(v.entityMatches)[c] <= 1)
    && forall m :: m in v.messages ==> m in messages && m.sender == v.sender
  }

  method ViewsOf(scraps: seq<Scrap>) returns (views: seq<ScrapView>)
    ensures AreViews(views, scraps)
  {
    views := [];
    for i := 0 to |scraps|
      invariant |views| == i && forall k :: 0 <= k < i ==> views[k] == scraps[k].View()
    {
      var s := scraps[i];
      views := views + [ScrapView(s.groupId, s.sender, s.messages, s.firstMsgTs, s.lastMsgTs, s.entityMatches, s.status)];
    }
  }

  ghost predicate AreViews(views: seq<ScrapView>, scraps: seq<Scrap>)
    reads set s | s in scraps
  {
    |views| == |scraps| && forall i :: 0 <= i < |scraps| ==> views[i] == scraps[i].View()
  }

  lemma {:induction false} AreViewsAppend(views: seq<ScrapView>, scraps: seq<Scrap>, scrap: Scrap)
    requires AreViews(views, scraps)
    ensures AreViews(views + [scrap.View()], scraps + [scrap])
  {
  }

  /** The views of a sender's scraps are the sender's views. */
  lemma {:induction false} SentAreViews(scraps: seq<Scrap>, views: seq<ScrapView>, p: string)
    requires AreViews(views, scraps)
    ensures AreViews(Sent(views, p), BySender(scraps, p))
  {
    if scraps != [] {
      var n := |scraps| - 1;
      SentAreViews(scraps[..n], views[..n], p);
      if scraps[n].sender == p {
        AreViewsAppend(Sent(views[..n], p), BySender(scraps[..n], p), scraps[n]);
        assert Sent(views, p) == Sent(views[..n], p) + [views[n]];
        assert BySender(scraps, p) == BySender(scraps[..n], p) + [scraps[n]];
      }
    }
  }

  lemma {:induction false} ViewsAreCut(scraps: seq<Scrap>, views: seq<ScrapView>, messages: seq<Message>, groupId: string,
                                       evidence: Evidence)
    requires AreViews(views, scraps)
    requires forall i, j :: 0 <= i < j < |scraps| ==> scraps[i].firstMsgTs <= scraps[j].firstMsgTs
    requires forall p :: HoldRuns(BySender(scraps, p), groupId, p, evidence, Greedy(evidence, MessagesOf(messages, p)))
    ensures CutGreedily(views, messages, groupId, evidence)
  {
    forall p
      ensures HoldEach(Sent(views, p), groupId, evidence, Greedy(evidence, MessagesOf(messages, p)))
    {
      SentAreViews(scraps, views, p);
      assert HoldRuns(BySender(scraps, p), groupId, p, evidence, Greedy(evidence, MessagesOf(messages, p)));
    }
  }

  /** A message is in one of the greedy runs of its sender. */
  lemma {:induction false} RunOf(messages: seq<Message>, evidence: Evidence, m: Message) returns (k: nat)
    requires m in messages
    ensures k < |Greedy(evidence, MessagesOf(messages, m.sender))|
    ensures m in Greedy(evidence, MessagesOf(messages, m.sender))[k]
  {
    var strand := MessagesOf(messages, m.sender);
    var runs := Greedy(evidence, strand);
    MessagesOfMembers(messages, m.sender);
    GreedyIsShortest(evidence, strand);
    ConcatMembers(runs);
    assert m in Concat(runs);
    k :| 0 <= k < |runs| && m in runs[k];
  }

  /** And these hold that sender's messages alone. */
  lemma {:induction false} RunMembers(messages: seq<Message>, p: string, evidence: Evidence, k: nat)
    requires k < |Greedy(evidence, MessagesOf(messages, p))|
    ensures forall m :: m in Greedy(evidence, MessagesOf(messages, p))[k] ==> m in messages && m.sender == p
  {
    var strand := MessagesOf(messages, p);
    var runs := Greedy(evidence, strand);
    MessagesOfMembers(messages, p);
    GreedyIsShortest(evidence, strand);
    ConcatMembers(runs);
    forall m | m in runs[k]
      ensures m in messages && m.sender == p
    {
      assert m in Concat(runs);
      assert m in strand;
    }
  }

  lemma {:induction false} HoldingIsOpen(v: ScrapView, messages: seq<Message>, evidence: Evidence, run: seq<Message>)
    requires v.Holds(evidence, run) && forall m :: m in run ==> m in messages && m.sender == v.sender
    ensures OpenPart(v, messages)
  {
  }

  lemma {:induction false} SentIsOpen(sent: seq<ScrapView>, messages: seq<Message>, groupId: string, p: string,
                                      evidence: Evidence, k: nat)
    requires HoldEach(sent, groupId, evidence, Greedy(evidence, MessagesOf(messages, p)))
    requires k < |sent| && sent[k].sender == p
    ensures OpenPart(sent[k], messages)
  {
    var runs := Greedy(evidence, MessagesOf(messages, p));
    RunMembers(messages, p, evidence, k);
    assert sent[k].Holds(evidence, runs[k]);
    HoldingIsOpen(sent[k], messages, evidence, runs[k]);
  }

  lemma {:induction false} SentCover(sent: seq<ScrapView>, messages: seq<Message>, groupId: string, p: string,
                                     evidence: Evidence, m: Message) returns (k: nat)
    requires HoldEach(sent, groupId, evidence, Greedy(evidence, MessagesOf(messages, p)))
    requires m in messages && m.sender == p
    ensures k < |sent| && m in sent[k].messages
  {
    k := RunOf(messages, evidence, m);
    assert sent[k].Holds(evidence, Greedy(evidence, MessagesOf(messages, p))[k]);
  }

  /** A sender's scraps hold that sender's messages, and no others. */
  lemma {:induction false} SenderMessages(views: seq<ScrapView>, messages: seq<Message>, groupId: string, p: string,
                                          evidence: Evidence)
    requires HoldEach(Sent(views, p), groupId, evidence, Greedy(evidence, MessagesOf(messages, p)))
    ensures forall m :: m in messages && m.sender == p ==> exists v :: v in views && v.sender == p && m in v.messages
    ensures forall v :: v in views && v.sender == p ==> OpenPart(v, messages)
  {
    var sent := Sent(views, p);
    forall m | m in messages && m.sender == p
      ensures exists v :: v in views && v.sender == p && m in v.messages
    {
      var k := SentCover(sent, messages, groupId, p, evidence, m);
      assert sent[k] in sent;
    }
    forall v | v in views && v.sender == p
      ensures OpenPart(v, messages)
    {
      assert v in sent;
      var k :| 0 <= k < |sent| && sent[k] == v;
      SentIsOpen(sent, messages, groupId, p, evidence, k);
    }
  }

  lemma {:induction false} CutCovers(views: seq<ScrapView>, messages: seq<Message>, groupId: string, evidence: Evidence)
    requires CutGreedily(views, messages, groupId, evidence)
    ensures CutFrom(views, messages)
  {
    forall v | v in views
      ensures OpenPart(v, messages)
    {
      SenderMessages(views, messages, groupId, v.sender, evidence);
    }
    forall m | m in messages
      ensures exists v :: v in views && m in v.messages
    {
      SenderMessages(views, messages, groupId, m.sender, evidence);
    }
  }

  /** So the evidence lists that the manager works with have no repetitions. */
  lemma {:induction false} CutNamesOnce(views: seq<ScrapView>, messages: seq<Message>, itemMatch: ItemMatcher,
                                        isPayment: PaymentTest)
    requires CutFrom(views, messages)
    ensures NoRepetitions(Pieces(views, itemMatch, isPayment))
  {
    forall i, c | 0 <= i < |views|
      ensures multiset(PieceOf(views[i], itemMatch, isPayment).evidence)[c] <= 1
    {
      assert views[i] in views;
    }
  }

  // ---- From the conversations of the manager to the list that replies extend ----

  /** The conversation has the messages of the scraps at these positions, in this order. */
  ghost predicate HoldsEntries(conv: T.Conv, entries: seq<nat>, sorted: seq<ScrapView>) {
    && |conv.scraps| == |entries|
    && forall k :: 0 <= k < |conv.scraps| ==> entries[k] < |sorted| && conv.scraps[k] == sorted[entries[k]].messages
  }

  ghost predicate ShowsOne(conv: T.Conv, conversation: Conversation, sorted: seq<ScrapView>) {
    conv.entityRef == conversation.entityRef && HoldsEntries(conv, conversation.scraps, sorted)
  }

  ghost predicate Listed(convs: seq<T.Conv>, ref: string) {
    exists c :: 0 <= c < |convs| && convs[c].entityRef == ref
  }

  /** Every conversation once, in any order, with the messages of its scraps. */
  ghost predicate Shows(convs: seq<T.Conv>, conversations: map<string, Conversation>, refs: set<string>,
                        sorted: seq<ScrapView>) {
    && (forall c :: 0 <= c < |convs| ==>
          convs[c].entityRef in refs && convs[c].entityRef in conversations
          && ShowsOne(convs[c], conversations[convs[c].entityRef], sorted))
    && (forall ref :: ref in refs ==> Listed(convs, ref))
    && forall b, c :: 0 <= b < c < |convs| ==> convs[b].entityRef != convs[c].entityRef
  }

  /** The list is the book: every entry once, in any order, with the messages of its scraps. */
  ghost predicate ShowsBook(convs: seq<T.Conv>, book: Book, sorted: seq<ScrapView>) {
    && (forall c :: 0 <= c < |convs| ==>
          convs[c].entityRef in book && HoldsEntries(convs[c], book[convs[c].entityRef], sorted))
    && (forall ref :: ref in book ==> Listed(convs, ref))
    && forall b, c :: 0 <= b < c < |convs| ==> convs[b].entityRef != convs[c].entityRef
  }

  method ListOne(conversation: Conversation, sorted: seq<ScrapView>) returns (conv: T.Conv)
    requires forall k :: 0 <= k < |conversation.scraps| ==> conversation.scraps[k] < |sorted|
    ensures ShowsOne(conv, conversation, sorted)
  {
    var scraps := [];
    for k := 0 to |conversation.scraps|
      invariant |scraps| == k
      invariant forall j :: 0 <= j < k ==> scraps[j] == sorted[conversation.scraps[j]].messages
    {
      scraps := scraps + [sorted[conversation.scraps[k]].messages];
    }
    conv := T.Conv(conversation.entityRef, scraps);
  }

  method ListConversations(conversations: map<string, Conversation>, sorted: seq<ScrapView>) returns (convs: seq<T.Conv>)
    requires forall ref :: ref in conversations ==> conversations[ref].entityRef == ref
    requires forall ref, k :: ref in conversations && 0 <= k < |conversations[ref].scraps| ==>
      conversations[ref].scraps[k] < |sorted|
    ensures Shows(convs, conversations, conversations.Keys, sorted)
  {
    convs := [];
    var rest := conversations.Keys;
    while rest != {}
      invariant rest <= conversations.Keys
      invariant Shows(convs, conversations, conversations.Keys - rest, sorted)
    {
      var ref :| ref in rest;
      var conv := ListOne(conversations[ref], sorted);
      ghost var before := convs;
      convs := convs + [conv];
      assert forall c :: 0 <= c < |before| ==> convs[c] == before[c];
      assert convs[|before|].entityRef == ref;
      forall other | other in conversations.Keys - rest
        ensures Listed(convs, other)
      {
        var c :| 0 <= c < |before| && before[c].entityRef == other;
        assert convs[c].entityRef == other;
      }
      rest := rest - {ref};
    }
  }

  // ---- What the scraps say about a message ----

  /** A scrap that conversation `ref` holds has a message of this id. */
  ghost predicate Held(sorted: seq<ScrapView>, ps: seq<Piece>, ref: string, id: string)
    requires |sorted| == |ps|
  {
    exists i :: 0 <= i < |ps| && Copies(ps, i, |ps|, ref) > 0 && T.HasId(sorted[i].messages, id)
  }

  lemma {:induction false} ShownIsHeld(convs: seq<T.Conv>, conversations: map<string, Conversation>, sorted: seq<ScrapView>,
                                       ps: seq<Piece>, ref: string, id: string)
    requires |sorted| == |ps| && HoldLabelled(conversations, ps) && Shows(convs, conversations, conversations.Keys, sorted)
    requires T.Backing(convs, ref, id)
    ensures Held(sorted, ps, ref, id)
  {
    var c :| 0 <= c < |convs| && convs[c].entityRef == ref && T.InConv(convs[c], id);
    var s :| 0 <= s < |convs[c].scraps| && T.HasId(convs[c].scraps[s], id);
    var i := conversations[ref].scraps[s];
    assert i in multiset(conversations[ref].scraps);
    assert Copies(ps, i, |ps|, ref) > 0 && T.HasId(sorted[i].messages, id);
  }

  lemma {:induction false} ScrapIsShown(conv: T.Conv, conversation: Conversation, sorted: seq<ScrapView>, i: nat, id: string)
    requires ShowsOne(conv, conversation, sorted) && i < |sorted| && i in multiset(conversation.scraps)
    requires T.HasId(sorted[i].messages, id)
    ensures T.InConv(conv, id)
  {
    assert i in conversation.scraps;
    var s :| 0 <= s < |conversation.scraps| && conversation.scraps[s] == i;
    assert T.HasId(conv.scraps[s], id);
  }

  lemma {:induction false} HeldIsShown(convs: seq<T.Conv>, conversations: map<string, Conversation>, sorted: seq<ScrapView>,
                                       ps: seq<Piece>, ref: string, id: string)
    requires |sorted| == |ps| && HoldLabelled(conversations, ps) && Shows(convs, conversations, conversations.Keys, sorted)
    requires Held(sorted, ps, ref, id)
    ensures T.Backing(convs, ref, id)
  {
    var i :| 0 <= i < |ps| && Copies(ps, i, |ps|, ref) > 0 && T.HasId(sorted[i].messages, id);
    assert ref in conversations && i in multiset(conversations[ref].scraps);
    assert Listed(convs, ref);
    var c :| 0 <= c < |convs| && convs[c].entityRef == ref;
    ScrapIsShown(convs[c], conversations[ref], sorted, i, id);
  }

  /** Replies connect the message with another one, with an id, that the conversation of the entity holds. */
  ghost predicate HeldByReply(threaded: seq<R.ThreadedMessage>, sorted: seq<ScrapView>, ps: seq<Piece>, ref: string, id: string)
    requires R.ParentsFirst(threaded) && |sorted| == |ps|
  {
    exists i: nat, j: nat :: i < |threaded| && j < |threaded| && R.Connected(R.ParentsOf(threaded), i, j)
      && threaded[j].messageId == id && threaded[i].messageId != "" && Held(sorted, ps, ref, threaded[i].messageId)
  }

  /** What the flush makes of the scraps and the reply threads. */
  ghost predicate AssignedAsSaid(convs: seq<T.Conv>, threaded: seq<R.ThreadedMessage>, sorted: seq<ScrapView>, ps: seq<Piece>,
                                 distinct: bool)
    requires R.ParentsFirst(threaded) && |sorted| == |ps|
  {
    && (forall ref, id :: Held(sorted, ps, ref, id) ==> T.Backing(convs, ref, id))
    && (forall ref, id :: HeldByReply(threaded, sorted, ps, ref, id) ==> T.Assigned(convs, id))
    && (distinct ==> forall ref, id :: T.Backing(convs, ref, id) ==>
          Held(sorted, ps, ref, id) || HeldByReply(threaded, sorted, ps, ref, id))
  }

  lemma {:induction false} SpreadAsSaid(convs0: seq<T.Conv>, convs: seq<T.Conv>, threaded: seq<R.ThreadedMessage>,
                                        sorted: seq<ScrapView>, ps: seq<Piece>, distinct: bool)
    requires R.ParentsFirst(threaded) && |sorted| == |ps| && T.Grown(convs0, convs)
    requires forall ref, id :: T.Backing(convs0, ref, id) <==> Held(sorted, ps, ref, id)
    requires T.GainsAnswer(threaded, convs0, convs, distinct)
    requires forall i: nat, j: nat ::
      (i < |threaded| && j < |threaded| && R.Connected(R.ParentsOf(threaded), i, j)
       && threaded[i].messageId != "" && T.Assigned(convs0, threaded[i].messageId)) ==>
      T.Assigned(convs, threaded[j].messageId)
    ensures AssignedAsSaid(convs, threaded, sorted, ps, distinct)
  {
    forall ref, id | Held(sorted, ps, ref, id)
      ensures T.Backing(convs, ref, id)
    {
      assert T.Backing(convs0, ref, id);
      var c :| 0 <= c < |convs0| && convs0[c].entityRef == ref && T.InConv(convs0[c], id);
      T.GrownKeeps(convs0, convs, c, id);
    }
    forall ref, id | HeldByReply(threaded, sorted, ps, ref, id)
      ensures T.Assigned(convs, id)
    {
      var i: nat, j: nat :| i < |threaded| && j < |threaded| && R.Connected(R.ParentsOf(threaded), i, j)
        && threaded[j].messageId == id && threaded[i].messageId != "" && Held(sorted, ps, ref, threaded[i].messageId);
      assert T.Backing(convs0, ref, threaded[i].messageId);
      assert T.Assigned(convs0, threaded[i].messageId);
    }
    if distinct {
      forall ref, id | T.Backing(convs, ref, id) && !Held(sorted, ps, ref, id)
        ensures HeldByReply(threaded, sorted, ps, ref, id)
      {
        var c :| 0 <= c < |convs| && convs[c].entityRef == ref && T.InConv(convs[c], id);
        assert !T.Backing(convs0, ref, id);
        assert T.Answers(threaded, convs0, true, ref, id);
        var i: nat, j: nat :| i < |threaded| && j < |threaded| && R.Connected(R.ParentsOf(threaded), i, j)
          && threaded[j].messageId == id && T.Supports(convs0, true, ref, threaded[i].messageId, id);
        assert Held(sorted, ps, ref, threaded[i].messageId);
      }
    }
  }

  lemma {:induction false} PartHasId(v: ScrapView, messages: seq<Message>, id: string)
    requires OpenPart(v, messages) && T.HasId(v.messages, id)
    ensures T.HasId(messages, id)
  {
    var k :| 0 <= k < |v.messages| && v.messages[k].id == id;
    assert v.messages[k] in messages;
    var m :| 0 <= m < |messages| && messages[m] == v.messages[k];
  }

  lemma {:induction false} HeldIsOfSegment(views: seq<ScrapView>, sorted: seq<ScrapView>, messages: seq<Message>,
                                           ps: seq<Piece>, ref: string, id: string)
    requires CutFrom(views, messages) && OnlyNamed(views, sorted) && |sorted| == |ps|
    requires Held(sorted, ps, ref, id)
    ensures T.HasId(messages, id)
  {
    var i :| 0 <= i < |ps| && Copies(ps, i, |ps|, ref) > 0 && T.HasId(sorted[i].messages, id);
    assert views[i] in views && views[i].messages == sorted[i].messages;
    PartHasId(views[i], messages, id);
  }

  /** Every message of a conversation is one of the segment. */
  ghost predicate OfSegment(convs: seq<T.Conv>, messages: seq<Message>) {
    forall c, s, m :: 0 <= c < |convs| && 0 <= s < |convs[c].scraps| && m in convs[c].scraps[s] ==> m in messages
  }

  lemma {:induction false} ShownOfSegment(convs: seq<T.Conv>, conversations: map<string, Conversation>, views: seq<ScrapView>,
                                          sorted: seq<ScrapView>, messages: seq<Message>)
    requires Shows(convs, conversations, conversations.Keys, sorted)
    requires CutFrom(views, messages) && OnlyNamed(views, sorted)
    ensures OfSegment(convs, messages)
  {
    forall c, s, m | 0 <= c < |convs| && 0 <= s < |convs[c].scraps| && m in convs[c].scraps[s]
      ensures m in messages
    {
      var i := conversations[convs[c].entityRef].scraps[s];
      assert convs[c].scraps[s] == sorted[i].messages == views[i].messages;
      assert views[i] in views;
    }
  }

  lemma {:induction false} ShownIsBook(convs: seq<T.Conv>, conversations: map<string, Conversation>, views: seq<ScrapView>,
                                       sorted: seq<ScrapView>, ps: seq<Piece>)
    requires Shows(convs, conversations, conversations.Keys, sorted) && OnlyNamed(views, sorted)
    requires Represents(conversations, BookUpTo(ps, |ps|), ps)
    ensures ShowsBook(convs, BookUpTo(ps, |ps|), views)
  {
    var book := BookUpTo(ps, |ps|);
    forall c | 0 <= c < |convs|
      ensures convs[c].entityRef in book && HoldsEntries(convs[c], book[convs[c].entityRef], views)
    {
      var entries := conversations[convs[c].entityRef].scraps;
      assert ShowsOne(convs[c], conversations[convs[c].entityRef], sorted) && entries == book[convs[c].entityRef];
      assert forall k :: 0 <= k < |entries| ==> sorted[entries[k]].messages == views[entries[k]].messages;
    }
  }

  lemma {:induction false} GainsOfSegment(convs0: seq<T.Conv>, convs: seq<T.Conv>, messages: seq<Message>)
    requires T.Grown(convs0, convs) && OfSegment(convs0, messages) && T.GainsLast(convs0, convs, messages)
    ensures OfSegment(convs, messages)
  {
    forall c, s, m | 0 <= c < |convs| && 0 <= s < |convs[c].scraps| && m in convs[c].scraps[s]
      ensures m in messages
    {
      if s < |convs0[c].scraps| {
        assert convs[c].scraps[s] == convs0[c].scraps[s];
      } else {
        assert T.IsLast(messages, |messages|, m);
      }
    }
  }

  /** The manager's sort finds the scraps in order. */
  lemma {:induction false} InOrderAlready(views: seq<ScrapView>)
    requires forall i, j :: 0 <= i < j < |views| ==> views[i].firstMsgTs <= views[j].firstMsgTs
    ensures ByFirstMessage(views) == views
  {
    SortedStays(map v | v in views :: v.firstMsgTs, views);
  }

  /**
   The scraps of a segment in the manager's conversations.  No scrap is held
   twice by one, unless a payment is about the bookkeeping reference itself.
   */
  method ConversationsOf(messages: seq<Message>, groupId: string, evidence: Evidence, itemMatch: ItemMatcher,
                         isPayment: PaymentTest)
      returns (convs: seq<T.Conv>, sorted: seq<ScrapView>, ghost views: seq<ScrapView>, ghost ps: seq<Piece>)
    requires Chronological(messages)
    ensures CutGreedily(views, messages, groupId, evidence) && CutFrom(views, messages)
    ensures OnlyNamed(views, sorted) && ps == Pieces(views, itemMatch, isPayment)
    ensures NamesEvidence(views, sorted, itemMatch) && ReadOff(ps, sorted, isPayment)
    ensures HeldOnce(ps) <==> forall i :: 0 <= i < |ps| && ps[i].payment ==> !IsAbout(ps, i, BOOKKEEPING_ENTITY_REF)
    ensures forall ref, id :: T.Backing(convs, ref, id) <==> Held(sorted, ps, ref, id)
    ensures forall id :: T.Assigned(convs, id) ==> T.HasId(messages, id)
    ensures ShowsBook(convs, BookUpTo(ps, |ps|), views) && OfSegment(convs, messages)
  {
    var scraps := DetectScraps(messages, groupId, evidence);
    var list := ViewsOf(scraps);
    views := list;
    ViewsAreCut(scraps, views, messages, groupId, evidence);
    CutCovers(views, messages, groupId, evidence);
    InOrderAlready(views);
    var conversations;
    conversations, sorted, ps := BuildConversations(list, groupId, itemMatch, isPayment);
    CutNamesOnce(views, messages, itemMatch, isPayment);
    HeldAtMostOnce(ps);
    convs := ListConversations(conversations, sorted);
    ShownOfSegment(convs, conversations, views, sorted, messages);
    ShownIsBook(convs, conversations, views, sorted, ps);
    forall ref, id
      ensures T.Backing(convs, ref, id) <==> Held(sorted, ps, ref, id)
    {
      if T.Backing(convs, ref, id) {
        ShownIsHeld(convs, conversations, sorted, ps, ref, id);
      }
      if Held(sorted, ps, ref, id) {
        HeldIsShown(convs, conversations, sorted, ps, ref, id);
      }
    }
    forall id | T.Assigned(convs, id)
      ensures T.HasId(messages, id)
    {
      var c :| 0 <= c < |convs| && T.InConv(convs[c], id);
      assert T.Backing(convs, convs[c].entityRef, id);
      HeldIsOfSegment(views, sorted, messages, ps, convs[c].entityRef, id);
    }
  }

  /**
   A flush: every id of the segment is in its conversations or left over, never
   both.  The scraps are the greedy cuts of the senders' messages; the manager's
   conversations are the book of their labels; behind that a conversation gains
   only messages of the segment that none had, each once.  If ids are distinct,
   whatever it gains answers a message that it had.
   */
  method Flush(messages: seq<Message>, groupId: string, evidence: Evidence, itemMatch: ItemMatcher, isPayment: PaymentTest,
               score: R.Scorer, hasText: Message -> bool)
      returns (convs: seq<T.Conv>, unassigned: seq<Message>, threaded: seq<R.ThreadedMessage>,
               ghost views: seq<ScrapView>, ghost sorted: seq<ScrapView>, ghost ps: seq<Piece>, ghost built: seq<T.Conv>)
    requires Chronological(messages)
    ensures CutGreedily(views, messages, groupId, evidence) && CutFrom(views, messages)
    ensures OnlyNamed(views, sorted) && ps == Pieces(views, itemMatch, isPayment)
    ensures NamesEvidence(views, sorted, itemMatch) && ReadOff(ps, sorted, isPayment)
    ensures ShowsBook(built, BookUpTo(ps, |ps|), views)
    ensures T.Grown(built, convs) && T.GainsLast(built, convs, messages) && T.GainsNew(built, convs)
    ensures T.ThreadedBy(score, Filter(hasText, messages), threaded)
    ensures T.GainsAnswer(threaded, built, convs, T.DistinctIds(Filter(hasText, messages)))
    ensures AssignedAsSaid(convs, threaded, sorted, ps, T.DistinctIds(Filter(hasText, messages)))
    ensures forall id :: T.HasId(messages, id) <==> T.Assigned(convs, id) || T.HasId(unassigned, id)
    ensures forall id :: !(T.Assigned(convs, id) && T.HasId(unassigned, id))
    ensures unassigned == T.Left(convs, messages, |messages|) && OfSegment(convs, messages)
  {
    var convs0, list;
    convs0, list, views, ps := ConversationsOf(messages, groupId, evidence, itemMatch, isPayment);
    sorted, built := list, convs0;
    convs, threaded := T.AssignByReplies(score, hasText, convs0, messages);
    SpreadAsSaid(convs0, convs, threaded, sorted, ps, T.DistinctIds(Filter(hasText, messages)));
    GainsOfSegment(convs0, convs, messages);
    unassigned := T.SplitSegment(convs, messages);
  }
}
