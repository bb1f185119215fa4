/**
 The conversation manager: scraps are taken in chronological order and put
 into conversations, or wait in a buffer until evidence arrives.
 */
module ConversationManager {
  import opened Messages
  import opened Ordering
  import opened ScrapDetector
  import opened ConversationLabels

  // Conversations and buffers refer to a scrap by its position in the sorted
  // list.  The loop updates the conversations, the sender states, and each
  // scrap's status and entities.

  datatype ConvType = Order | Singleton

  function InferConvType(entityRef: string): ConvType {
    if "singleton:" <= entityRef then Singleton else Order
  }

  datatype Conversation = Conversation(
    groupId: string, entityRef: string, convType: ConvType, scraps: seq<nat>, createdAt: int, lastActivity: int)
  {
    function AddScrap(scrap: nat, lastMsgTs: int): Conversation {
      this.(scraps := scraps + [scrap], lastActivity := if lastActivity < lastMsgTs then lastMsgTs else lastActivity)
    }
  }

  function NewConversation(groupId: string, entityRef: string, timestamp: int): Conversation {
    Conversation(groupId, entityRef, InferConvType(entityRef), [], timestamp, timestamp)
  }

  /** Created when its first scrap began, last active when the latest of its scraps ended. */
  ghost predicate Dated(conv: Conversation, ps: seq<Piece>) {
    && conv.scraps != [] && (forall k :: 0 <= k < |conv.scraps| ==> conv.scraps[k] < |ps|)
    && conv.createdAt == ps[conv.scraps[0]].first
    && conv.createdAt <= conv.lastActivity
    && (forall k :: 0 <= k < |conv.scraps| ==> ps[conv.scraps[k]].last <= conv.lastActivity)
    && (conv.lastActivity != conv.createdAt ==>
          exists k :: 0 <= k < |conv.scraps| && ps[conv.scraps[k]].last == conv.lastActivity)
  }

  /** The conversations are exactly the entries of the book: each holds its scraps, in this order, and is dated by them. */
  ghost predicate Represents(conversations: map<string, Conversation>, book: Book, ps: seq<Piece>) {
    && (forall ref :: ref in conversations <==> ref in book)
    && forall ref :: ref in conversations ==>
         && conversations[ref].entityRef == ref
         && (conversations[ref].convType == Singleton <==> "singleton:" <= ref)
         && conversations[ref].scraps == book[ref]
         && Dated(conversations[ref], ps)
  }

  lemma {:induction false} AddScrapDated(conv: Conversation, scrap: nat, ps: seq<Piece>)
    requires scrap < |ps|
    requires Dated(conv, ps) || (conv.scraps == [] && conv.createdAt == conv.lastActivity == ps[scrap].first)
    ensures Dated(conv.AddScrap(scrap, ps[scrap].last), ps)
  {
    var longer := conv.AddScrap(scrap, ps[scrap].last);
    assert longer.scraps[|conv.scraps|] == scrap;
    if longer.lastActivity == conv.lastActivity != conv.createdAt {
      var k :| 0 <= k < |conv.scraps| && ps[conv.scraps[k]].last == conv.lastActivity;
      assert longer.scraps[k] == conv.scraps[k];
    }
  }

  /** The view and the piece of a scrap agree on its times. */
  ghost predicate SameTimes(view: ScrapView, ps: seq<Piece>, scrap: nat) {
    scrap < |ps| && view.firstMsgTs == ps[scrap].first && view.lastMsgTs == ps[scrap].last
  }

  method GetOrCreate(conversations: map<string, Conversation>, entityRef: string, groupId: string, timestamp: int)
      returns (updated: map<string, Conversation>)
    ensures updated == if entityRef in conversations then conversations
                       else conversations[entityRef := NewConversation(groupId, entityRef, timestamp)]
  {
    updated := conversations;
    if entityRef !in updated {
      updated := updated[entityRef := NewConversation(groupId, entityRef, timestamp)];
    }
  }

  /** Put a scrap into the conversation of an entity, creating the conversation if there is none. */
  method AddTo(conversations: map<string, Conversation>, entityRef: string, groupId: string,
               scrap: nat, view: ScrapView, ghost book: Book, ghost ps: seq<Piece>)
      returns (updated: map<string, Conversation>)
    requires Represents(conversations, book, ps) && SameTimes(view, ps, scrap)
    ensures Represents(updated, Enter(book, entityRef, scrap), ps)
  {
    updated := GetOrCreate(conversations, entityRef, groupId, view.firstMsgTs);
    AddScrapDated(updated[entityRef], scrap, ps);
    updated := updated[entityRef := updated[entityRef].AddScrap(scrap, view.lastMsgTs)];
  }

  /** Put a scrap into the conversation of an entity that has one. */
  method AddToExisting(conversations: map<string, Conversation>, entityRef: string, scrap: nat, view: ScrapView,
                       ghost book: Book, ghost ps: seq<Piece>)
      returns (updated: map<string, Conversation>)
    requires Represents(conversations, book, ps) && entityRef in conversations && SameTimes(view, ps, scrap)
    ensures Represents(updated, Enter(book, entityRef, scrap), ps) && entityRef in updated
  {
    AddScrapDated(conversations[entityRef], scrap, ps);
    updated := conversations[entityRef := conversations[entityRef].AddScrap(scrap, view.lastMsgTs)];
  }

  // ---- Scraps and senders while the list is worked through ----

  // The item matcher and the payment keywords are parameters; `itemMatch` gives
  // "" when no single entity fits or no task has items.

  type ItemMatcher = seq<Message> -> string
  type PaymentTest = seq<Message> -> bool

  /** Evidence from the text, or else from the item matcher. */
  function EvidenceOf(matches: seq<string>, messages: seq<Message>, itemMatch: ItemMatcher): seq<string> {
    if matches != [] then matches
    else if itemMatch(messages) != "" then [itemMatch(messages)]
    else []
  }

  function PieceOf(scrap: ScrapView, itemMatch: ItemMatcher, isPayment: PaymentTest): Piece {
    Piece(scrap.sender, scrap.firstMsgTs, scrap.lastMsgTs,
          EvidenceOf(scrap.entityMatches, scrap.messages, itemMatch), isPayment(scrap.messages))
  }

  ghost predicate Matches(scraps: seq<ScrapView>, ps: seq<Piece>, itemMatch: ItemMatcher, isPayment: PaymentTest) {
    |scraps| == |ps| && forall i :: 0 <= i < |ps| ==> PieceOf(scraps[i], itemMatch, isPayment) == ps[i]
  }

  /** Exactly the labelled scraps are marked as assigned, and those already taken name their evidence. */
  ghost predicate Marked(scraps: seq<ScrapView>, ps: seq<Piece>, n: int)
    requires |scraps| == |ps| && n <= |ps|
  {
    && (forall i :: 0 <= i < |ps| ==> (scraps[i].status == Assigned <==> Label(ps, i, n) != []))
    && forall i :: 0 <= i < n ==> scraps[i].entityMatches == ps[i].evidence
  }

  /** The sender's current context ("" is none) and the positions of the sender's unassigned scraps. */
  datatype SenderState = SenderState(currentEntityRef: string, buffered: seq<nat>)

  ghost predicate Tracks(states: map<string, SenderState>, ps: seq<Piece>, n: nat)
    requires n <= |ps|
  {
    && (forall p :: p in states ==>
          states[p].currentEntityRef == ContextOf(ps, p, n) && states[p].buffered == WaitingOf(ps, p, n))
    && forall p :: p !in states ==> Previous(ps, p, n) == -1 && WaitingOf(ps, p, n) == []
  }

  lemma {:induction false} NewSender(states: map<string, SenderState>, ps: seq<Piece>, n: nat)
    requires n < |ps| && Tracks(states, ps, n)
    ensures var state := if ps[n].sender in states then states[ps[n].sender] else SenderState("", []);
            state.currentEntityRef == ContextOf(ps, ps[n].sender, n) && state.buffered == WaitingOf(ps, ps[n].sender, n)
  {
  }

  lemma {:induction false} TracksStep(states: map<string, SenderState>, ps: seq<Piece>, n: nat, state: SenderState)
    requires n < |ps| && Tracks(states, ps, n)
    requires state.currentEntityRef == Context(ps, n) && state.buffered == WaitingOf(ps, ps[n].sender, n + 1)
    ensures Tracks(states[ps[n].sender := state], ps, n + 1)
  {
    forall p: string
      ensures p != ps[n].sender ==> Previous(ps, p, n + 1) == Previous(ps, p, n)
      ensures p != ps[n].sender ==> WaitingOf(ps, p, n + 1) == WaitingOf(ps, p, n)
    {
      assert WaitingOf(ps, p, n + 1) == NextWaiting(ps, p, n, WaitingOf(ps, p, n));
    }
    assert Previous(ps, ps[n].sender, n + 1) == n;
  }

  /** Scrap i gains a label when scrap n is taken. */
  predicate Gains(ps: seq<Piece>, n: nat, i: nat)
    requires n < |ps| && i < |ps|
  {
    if ps[n].evidence != [] then i == n || Released(ps, i, n)
    else i == n && Context(ps, n) != ""
  }

  lemma {:induction false} LabelledStep(ps: seq<Piece>, n: nat, i: nat)
    requires n < |ps| && i < |ps|
    ensures Label(ps, i, n + 1) != [] <==> Label(ps, i, n) != [] || Gains(ps, n, i)
  {
    LabelNewest(ps, n);
    if i < n {
      LabelStep(ps, i, n);
    }
  }

  lemma {:induction false} ContextHasConversation(ps: seq<Piece>, sender: string, n: nat, book: Book)
    requires n <= |ps| && Kept(ps, n, book) && ContextOf(ps, sender, n) != ""
    ensures ContextOf(ps, sender, n) in book
  {
    var j := Previous(ps, sender, n);
    var ref := Context(ps, j);
    assert ref in Label(ps, j, n);
    assert Times(book, ref, j) == Copies(ps, j, n, ref);
  }

  /** The state after the first n scraps of the sorted list. */
  ghost predicate Progress(conversations: map<string, Conversation>, states: map<string, SenderState>,
                           scraps: seq<ScrapView>, ps: seq<Piece>, n: nat,
                           itemMatch: ItemMatcher, isPayment: PaymentTest) {
    && n <= |ps| && Matches(scraps, ps, itemMatch, isPayment) && Marked(scraps, ps, n)
    && Represents(conversations, BookUpTo(ps, n), ps)
    && Tracks(states, ps, n)
  }

  // ---- The steps ----

  /** Put a scrap with evidence into the conversation of each of its entities. */
  method AssignEvidence(conversations: map<string, Conversation>, scrap: nat, view: ScrapView, ghost book: Book,
                        ghost ps: seq<Piece>)
      returns (updated: map<string, Conversation>)
    requires Represents(conversations, book, ps) && SameTimes(view, ps, scrap)
    ensures Represents(updated, EnterUnder(book, view.entityMatches, |view.entityMatches|, scrap), ps)
  {
    updated := conversations;
    ghost var b := book;
    for k := 0 to |view.entityMatches|
      invariant b == EnterUnder(book, view.entityMatches, k, scrap)
      invariant Represents(updated, b, ps)
    {
      updated := AddTo(updated, view.entityMatches[k], view.groupId, scrap, view, b, ps);
      b := Enter(b, view.entityMatches[k], scrap);
    }
  }

  /** Of the buffered scraps, those that ended at most an hour before scrap n; the stale rest is dropped. */
  method RecentOf(buffered: seq<nat>, scraps: seq<ScrapView>, n: nat, ghost ps: seq<Piece>) returns (recent: seq<nat>)
    requires n < |scraps| == |ps| && Timed(scraps, ps)
    requires forall k :: 0 <= k < |buffered| ==> buffered[k] < n
    ensures recent == Recent(ps, n, buffered, |buffered|)
  {
    recent := [];
    for k := 0 to |buffered|
      invariant recent == Recent(ps, n, buffered, k)
    {
      var gap := scraps[n].firstMsgTs - scraps[buffered[k]].lastMsgTs;
      if gap <= BACKPROP_MAX_S {
        recent := recent + [buffered[k]];
      }
    }
  }

  function Mark(scraps: seq<ScrapView>, i: nat): seq<ScrapView>
    requires i < |scraps|
  {
    scraps[i := scraps[i].(status := Assigned)]
  }

  /** The first n of the given scraps marked as assigned. */
  function MarkEach(scraps: seq<ScrapView>, positions: seq<nat>, n: nat): (marked: seq<ScrapView>)
    requires n <= |positions| && forall k :: 0 <= k < |positions| ==> positions[k] < |scraps|
    ensures |marked| == |scraps|
  {
    if n == 0 then scraps else Mark(MarkEach(scraps, positions, n - 1), positions[n - 1])
  }

  lemma {:induction false} MarkEachAt(scraps: seq<ScrapView>, positions: seq<nat>, n: nat, i: nat)
    requires n <= |positions| && forall k :: 0 <= k < |positions| ==> positions[k] < |scraps|
    requires i < |scraps|
    ensures MarkEach(scraps, positions, n)[i] ==
            if i in positions[..n] then scraps[i].(status := Assigned) else scraps[i]
  {
    if 0 < n {
      MarkEachAt(scraps, positions, n - 1, i);
      assert positions[..n] == positions[..n - 1] + [positions[n - 1]];
    }
  }

  /** The first k of the scraps have joined the conversation and are marked. */
  ghost predicate Propagated(updated: map<string, Conversation>, marked: seq<ScrapView>, entityRef: string,
                             recent: seq<nat>, k: nat, scraps: seq<ScrapView>, book: Book, ps: seq<Piece>)
    requires k <= |recent| && forall j :: 0 <= j < |recent| ==> recent[j] < |scraps|
  {
    && Represents(updated, EnterEach(book, entityRef, recent, k), ps) && entityRef in updated
    && marked == MarkEach(scraps, recent, k)
  }

  /** One buffered scrap joins the conversation and is marked. */
  method PropagateOne(conversations: map<string, Conversation>, entityRef: string, recent: seq<nat>, k: nat,
                      scraps: seq<ScrapView>, marks: seq<ScrapView>, ghost book: Book, ghost ps: seq<Piece>)
      returns (updated: map<string, Conversation>, marked: seq<ScrapView>)
    requires k < |recent| && (forall j :: 0 <= j < |recent| ==> recent[j] < |scraps|) && Timed(scraps, ps)
    requires Propagated(conversations, marks, entityRef, recent, k, scraps, book, ps)
    ensures Propagated(updated, marked, entityRef, recent, k + 1, scraps, book, ps)
  {
    var i := recent[k];
    TimedAt(scraps, ps, i);
    updated := AddToExisting(conversations, entityRef, i, scraps[i], EnterEach(book, entityRef, recent, k), ps);
    marked := Mark(marks, i);
  }

  /** Backward propagation: the given scraps join the conversation of the new evidence and are marked. */
  method Propagate(conversations: map<string, Conversation>, entityRef: string, recent: seq<nat>,
                   scraps: seq<ScrapView>, ghost book: Book, ghost ps: seq<Piece>)
      returns (updated: map<string, Conversation>, marked: seq<ScrapView>)
    requires Represents(conversations, book, ps) && entityRef in conversations && Timed(scraps, ps)
    requires forall k :: 0 <= k < |recent| ==> recent[k] < |scraps|
    ensures Represents(updated, EnterEach(book, entityRef, recent, |recent|), ps)
    ensures marked == MarkEach(scraps, recent, |recent|)
  {
    updated, marked := conversations, scraps;
    for k := 0 to |recent|
      invariant Propagated(updated, marked, entityRef, recent, k, scraps, book, ps)
    {
      updated, marked := PropagateOne(updated, entityRef, recent, k, scraps, marked, book, ps);
    }
  }

  /** A scrap with evidence: it is assigned, and the evidence reaches back to the sender's recent buffered scraps. */
  method TakeWithEvidence(conversations: map<string, Conversation>, buffered: seq<nat>, scraps: seq<ScrapView>, n: nat,
                          ghost ps: seq<Piece>, ghost book: Book)
      returns (updated: map<string, Conversation>, marked: seq<ScrapView>)
    requires Represents(conversations, book, ps)
    requires n < |scraps| == |ps| && Timed(scraps, ps)
    requires ps[n].evidence != [] && scraps[n].entityMatches == ps[n].evidence
    requires forall k :: 0 <= k < |buffered| ==> buffered[k] < n
    ensures Represents(updated, EnterEvidence(ps, n, book, buffered), ps)
    ensures var recent := Recent(ps, n, buffered, |buffered|);
            marked == Mark(MarkEach(scraps, recent, |recent|), n)
  {
    updated := AssignEvidence(conversations, n, scraps[n], book, ps);
    marked := scraps;
    FirstIsEntered(book, ps[n].evidence, |ps[n].evidence|, n);
    if buffered != [] {
      var recent := RecentOf(buffered, scraps, n, ps);
      updated, marked := Propagate(updated, scraps[n].entityMatches[0], recent, scraps,
                                   EnterUnder(book, ps[n].evidence, |ps[n].evidence|, n), ps);
    }
    marked := Mark(marked, n);
  }

  /** The end of the sender's last assigned scrap, scanning the list from its end; 0 if there is none. */
  method LastAssignedEnd(scraps: seq<ScrapView>, sender: string, ghost j: nat) returns (lastTs: int)
    requires j < |scraps| && scraps[j].sender == sender && scraps[j].status == Assigned
    requires forall i :: j < i < |scraps| && scraps[i].sender == sender ==> scraps[i].status != Assigned
    ensures lastTs == scraps[j].lastMsgTs
  {
    lastTs := 0;
    var k := |scraps|;
    while k > 0
      invariant j < k <= |scraps|
    {
      k := k - 1;
      if scraps[k].sender == sender && scraps[k].status == Assigned {
        lastTs := scraps[k].lastMsgTs;
        break;
      }
    }
  }

  /** Whether a scrap without evidence continues its sender's context. */
  method Carries(scraps: seq<ScrapView>, n: nat, ghost ps: seq<Piece>) returns (carried: bool)
    requires n < |scraps| == |ps| && Timed(scraps, ps) && Marked(scraps, ps, n)
    requires ps[n].evidence == [] && ContextOf(ps, ps[n].sender, n) != ""
    ensures carried <==> Context(ps, n) != ""
    ensures carried ==> Context(ps, n) == ContextOf(ps, ps[n].sender, n)
  {
    ghost var j := Previous(ps, ps[n].sender, n);
    var lastTs := LastAssignedEnd(scraps, scraps[n].sender, j);
    carried := lastTs != 0 && scraps[n].firstMsgTs - lastTs <= CARRY_MAX_S;
  }

  lemma {:induction false} MarkedStep(scraps: seq<ScrapView>, ps: seq<Piece>, n: nat, marked: seq<ScrapView>)
    requires n < |scraps| == |ps| && |marked| == |scraps| && Marked(scraps, ps, n)
    requires scraps[n].entityMatches == ps[n].evidence
    requires forall i :: 0 <= i < |ps| ==> marked[i] == if Gains(ps, n, i) then scraps[i].(status := Assigned) else scraps[i]
    ensures Marked(marked, ps, n + 1)
  {
    forall i: nat | i < |ps|
      ensures marked[i].status == Assigned <==> Label(ps, i, n + 1) != []
    {
      LabelledStep(ps, n, i);
    }
  }

  lemma {:induction false} EvidenceMarks(scraps: seq<ScrapView>, ps: seq<Piece>, n: nat, buffered: seq<nat>)
    requires n < |scraps| == |ps| && Marked(scraps, ps, n) && scraps[n].entityMatches == ps[n].evidence
    requires ps[n].evidence != [] && Waiting(ps, ps[n].sender, n, buffered)
    ensures var recent := Recent(ps, n, buffered, |buffered|);
            Marked(Mark(MarkEach(scraps, recent, |recent|), n), ps, n + 1)
  {
    var recent := Recent(ps, n, buffered, |buffered|);
    var marked := Mark(MarkEach(scraps, recent, |recent|), n);
    RecentMembers(ps, n, buffered);
    assert recent[..|recent|] == recent;
    forall i: nat | i < |ps|
      ensures marked[i] == if Gains(ps, n, i) then scraps[i].(status := Assigned) else scraps[i]
    {
      MarkEachAt(scraps, recent, |recent|, i);
    }
    MarkedStep(scraps, ps, n, marked);
  }

  /** Sender and times of every scrap. */
  ghost predicate Timed(scraps: seq<ScrapView>, ps: seq<Piece>) {
    && |scraps| == |ps|
    && forall i :: 0 <= i < |ps| ==>
         scraps[i].sender == ps[i].sender && scraps[i].firstMsgTs == ps[i].first && scraps[i].lastMsgTs == ps[i].last
  }

  lemma {:induction false} TimedAt(scraps: seq<ScrapView>, ps: seq<Piece>, i: nat)
    requires Timed(scraps, ps) && i < |scraps|
    ensures SameTimes(scraps[i], ps, i)
  {
  }

  /** The scrap joins the conversation of its sender's context, which exists. */
  method ContinueContext(conversations: map<string, Conversation>, entityRef: string, n: nat, view: ScrapView,
                         ghost ps: seq<Piece>)
      returns (updated: map<string, Conversation>)
    requires SameTimes(view, ps, n) && Represents(conversations, BookUpTo(ps, n), ps)
    requires ContextOf(ps, ps[n].sender, n) == Context(ps, n) == entityRef != ""
    ensures Represents(updated, EnterContext(ps, n, BookUpTo(ps, n)), ps)
  {
    BookIsKept(ps, n);
    ContextHasConversation(ps, ps[n].sender, n, BookUpTo(ps, n));
    updated := AddToExisting(conversations, entityRef, n, view, BookUpTo(ps, n), ps);
  }

  /** A scrap without evidence continues its sender's context or is buffered. */
  method CarryOrBuffer(conversations: map<string, Conversation>, state: SenderState, scraps: seq<ScrapView>, n: nat,
                       ghost ps: seq<Piece>)
      returns (updated: map<string, Conversation>, after: SenderState, marked: seq<ScrapView>)
    requires n < |scraps| == |ps| && Timed(scraps, ps) && Marked(scraps, ps, n)
    requires Represents(conversations, BookUpTo(ps, n), ps)
    requires scraps[n].entityMatches == ps[n].evidence == []
    requires state.currentEntityRef == ContextOf(ps, ps[n].sender, n)
    requires state.buffered == WaitingOf(ps, ps[n].sender, n)
    ensures Represents(updated, EnterContext(ps, n, BookUpTo(ps, n)), ps)
    ensures |marked| == |scraps| && Marked(marked, ps, n + 1)
    ensures forall i :: 0 <= i < |scraps| ==> marked[i] == scraps[i].(status := marked[i].status)
    ensures after.currentEntityRef == Context(ps, n) && after.buffered == WaitingOf(ps, ps[n].sender, n + 1)
  {
    updated, marked := conversations, scraps;
    var carried := false;
    if state.currentEntityRef != "" {
      // The buffer is empty here, so the silence is measured from the last assigned scrap.
      WaitingOfWaits(ps, ps[n].sender, n);
      BufferEmpty(ps, ps[n].sender, n, state.buffered);
      carried := Carries(scraps, n, ps);
    }
    assert WaitingOf(ps, ps[n].sender, n + 1) == NextWaiting(ps, ps[n].sender, n, state.buffered);
    if carried {
      TimedAt(scraps, ps, n);
      updated := ContinueContext(updated, state.currentEntityRef, n, scraps[n], ps);
      marked := Mark(marked, n);
      after := state;
    } else {
      after := SenderState("", state.buffered + [n]);
    }
    MarkedStep(scraps, ps, n, marked);
  }

  /** Assign the next scrap, whose evidence is already resolved, or buffer it. */
  method AssignScrap(conversations: map<string, Conversation>, state: SenderState, scraps: seq<ScrapView>, n: nat,
                     ghost ps: seq<Piece>)
      returns (updated: map<string, Conversation>, after: SenderState, marked: seq<ScrapView>)
    requires n < |scraps| == |ps| && Timed(scraps, ps) && Marked(scraps, ps, n)
    requires Represents(conversations, BookUpTo(ps, n), ps)
    requires scraps[n].entityMatches == ps[n].evidence
    requires state.currentEntityRef == ContextOf(ps, ps[n].sender, n)
    requires state.buffered == WaitingOf(ps, ps[n].sender, n)
    ensures Represents(updated, EnterScrap(ps, n, BookUpTo(ps, n), WaitingOf(ps, ps[n].sender, n)), ps)
    ensures |marked| == |scraps| && Marked(marked, ps, n + 1)
    ensures forall i :: 0 <= i < |scraps| ==> marked[i] == scraps[i].(status := marked[i].status)
    ensures after.currentEntityRef == Context(ps, n) && after.buffered == WaitingOf(ps, ps[n].sender, n + 1)
  {
    if scraps[n].entityMatches != [] {
      updated, marked := TakeWithEvidence(conversations, state.buffered, scraps, n, ps, BookUpTo(ps, n));
      after := SenderState(scraps[n].entityMatches[0], []);
      WaitingOfWaits(ps, ps[n].sender, n);
      EvidenceMarks(scraps, ps, n, state.buffered);
      OnlyMarks(scraps, Recent(ps, n, state.buffered, |state.buffered|), n);
    } else {
      updated, after, marked := CarryOrBuffer(conversations, state, scraps, n, ps);
    }
  }

  lemma {:induction false} OnlyMarks(scraps: seq<ScrapView>, positions: seq<nat>, n: nat)
    requires n < |scraps| && forall k :: 0 <= k < |positions| ==> positions[k] < |scraps|
    ensures var marked := Mark(MarkEach(scraps, positions, |positions|), n);
            forall i :: 0 <= i < |scraps| ==> marked[i] == scraps[i].(status := marked[i].status)
  {
    forall i: nat | i < |scraps|
      ensures var marked := MarkEach(scraps, positions, |positions|);
              marked[i] == scraps[i].(status := marked[i].status)
    {
      MarkEachAt(scraps, positions, |positions|, i);
    }
  }

  lemma {:induction false} ResolveKeepsPiece(scrap: ScrapView, itemMatch: ItemMatcher, isPayment: PaymentTest)
    ensures var resolved := scrap.(entityMatches := EvidenceOf(scrap.entityMatches, scrap.messages, itemMatch));
            PieceOf(resolved, itemMatch, isPayment) == PieceOf(scrap, itemMatch, isPayment)
  {
  }

  /** Item matching for a scrap that names no entity. */
  method ResolveEvidence(scrap: ScrapView, itemMatch: ItemMatcher) returns (resolved: ScrapView)
    ensures resolved == scrap.(entityMatches := EvidenceOf(scrap.entityMatches, scrap.messages, itemMatch))
  {
    resolved := scrap;
    if scrap.entityMatches == [] {
      var entity := itemMatch(scrap.messages);
      if entity != "" {
        resolved := resolved.(entityMatches := [entity]);
      }
    }
  }

  /** Replacing scrap n by one that names its evidence keeps everything said about the scraps. */
  lemma {:induction false} ResolveKeeps(scraps: seq<ScrapView>, ps: seq<Piece>, n: nat, resolved: ScrapView,
                                        itemMatch: ItemMatcher, isPayment: PaymentTest)
    requires n < |scraps| && Matches(scraps, ps, itemMatch, isPayment) && Marked(scraps, ps, n)
    requires resolved == scraps[n].(entityMatches := EvidenceOf(scraps[n].entityMatches, scraps[n].messages, itemMatch))
    ensures Matches(scraps[n := resolved], ps, itemMatch, isPayment) && Marked(scraps[n := resolved], ps, n)
    ensures Timed(scraps[n := resolved], ps) && resolved.entityMatches == ps[n].evidence
  {
    ResolveKeepsPiece(scraps[n], itemMatch, isPayment);
    assert PieceOf(scraps[n], itemMatch, isPayment) == ps[n];
    forall i | 0 <= i < |ps|
      ensures PieceOf(scraps[n := resolved][i], itemMatch, isPayment) == ps[i]
    {
      assert PieceOf(scraps[i], itemMatch, isPayment) == ps[i];
    }
  }

  /** A payment is entered in the bookkeeping conversation as well; that conversation is a singleton by its name. */
  method TakePayment(conversations: map<string, Conversation>, n: nat, scrap: ScrapView, groupId: string,
                     isPayment: PaymentTest, ghost ps: seq<Piece>, ghost book: Book)
      returns (updated: map<string, Conversation>)
    requires Represents(conversations, book, ps)
    requires SameTimes(scrap, ps, n) && ps[n].payment == isPayment(scrap.messages)
    ensures Represents(updated, EnterPayment(ps, n, book), ps)
  {
    updated := conversations;
    if isPayment(scrap.messages) {
      updated := AddTo(updated, BOOKKEEPING_ENTITY_REF, groupId, n, scrap, book, ps);
    }
  }

  /** The same scraps but for their marks and the evidence they name. */
  ghost predicate OnlyNamed(before: seq<ScrapView>, after: seq<ScrapView>) {
    && |after| == |before|
    && forall i :: 0 <= i < |before| ==>
         after[i] == before[i].(status := after[i].status, entityMatches := after[i].entityMatches)
  }

  /** Take the next scrap of the sorted list. */
  method TakeScrap(conversations: map<string, Conversation>, states: map<string, SenderState>,
                   scraps: seq<ScrapView>, n: nat,
                   groupId: string, itemMatch: ItemMatcher, isPayment: PaymentTest, ghost ps: seq<Piece>)
      returns (updated: map<string, Conversation>, tracked: map<string, SenderState>, marked: seq<ScrapView>)
    requires n < |scraps| && Progress(conversations, states, scraps, ps, n, itemMatch, isPayment)
    ensures Progress(updated, tracked, marked, ps, n + 1, itemMatch, isPayment) && OnlyNamed(scraps, marked)
  {
    var sender := scraps[n].sender;
    assert PieceOf(scraps[n], itemMatch, isPayment) == ps[n];
    NewSender(states, ps, n);
    var state := if sender in states then states[sender] else SenderState("", []);
    var resolved := ResolveEvidence(scraps[n], itemMatch);
    ResolveKeeps(scraps, ps, n, resolved, itemMatch, isPayment);
    var after, known := state, scraps[n := resolved];
    updated, after, marked := AssignScrap(conversations, state, known, n, ps);
    tracked := states[sender := after];
    TracksStep(states, ps, n, after);
    updated := TakePayment(updated, n, scraps[n], groupId, isPayment, ps,
                           EnterScrap(ps, n, BookUpTo(ps, n), WaitingOf(ps, sender, n)));
    MarkingKeepsPieces(known, marked, ps, itemMatch, isPayment);
  }

  lemma {:induction false} MarkingKeepsPieces(scraps: seq<ScrapView>, marked: seq<ScrapView>, ps: seq<Piece>,
                                              itemMatch: ItemMatcher, isPayment: PaymentTest)
    requires Matches(scraps, ps, itemMatch, isPayment) && |marked| == |scraps|
    requires forall i :: 0 <= i < |scraps| ==> marked[i] == scraps[i].(status := marked[i].status)
    ensures Matches(marked, ps, itemMatch, isPayment)
  {
    forall i | 0 <= i < |ps|
      ensures PieceOf(marked[i], itemMatch, isPayment) == ps[i]
    {
      assert PieceOf(scraps[i], itemMatch, isPayment) == ps[i];
    }
  }

  function Pieces(scraps: seq<ScrapView>, itemMatch: ItemMatcher, isPayment: PaymentTest): (ps: seq<Piece>)
    ensures Matches(scraps, ps, itemMatch, isPayment)
  {
    seq(|scraps|, i requires 0 <= i < |scraps| => PieceOf(scraps[i], itemMatch, isPayment))
  }

  function ByFirstMessage(scraps: seq<ScrapView>): (sorted: seq<ScrapView>)
    ensures |sorted| == |scraps|
  {
    var sorted := StableSort(map v | v in scraps :: v.firstMsgTs, scraps);
    SameMembers(sorted, scraps);
    sorted
  }

  /**
   Conversation `ref` holds scrap i exactly as often as the labels say, and
   nothing else; it exists exactly if it holds a scrap.
   */
  ghost predicate HoldLabelled(conversations: map<string, Conversation>, ps: seq<Piece>) {
    && (forall ref, i :: 0 <= i < |ps| ==>
          Copies(ps, i, |ps|, ref) == if ref in conversations then multiset(conversations[ref].scraps)[i] else 0)
    && (forall ref :: ref in conversations <==> exists i :: 0 <= i < |ps| && Copies(ps, i, |ps|, ref) > 0)
    && forall ref, k :: ref in conversations && 0 <= k < |conversations[ref].scraps| ==>
         conversations[ref].scraps[k] < |ps|
  }

  lemma {:induction false} BookShown(conversations: map<string, Conversation>, ps: seq<Piece>)
    requires Represents(conversations, BookUpTo(ps, |ps|), ps)
    ensures HoldLabelled(conversations, ps)
  {
    var book := BookUpTo(ps, |ps|);
    BookIsKept(ps, |ps|);
    BookIsTight(ps, |ps|);
    forall ref, i | 0 <= i < |ps|
      ensures Copies(ps, i, |ps|, ref) == if ref in conversations then multiset(conversations[ref].scraps)[i] else 0
    {
      assert Times(book, ref, i) == Copies(ps, i, |ps|, ref);
    }
  }

  /** A scrap keeps the entities that its text names; else it names the one that its items fit, if there is one. */
  ghost predicate NamesEvidence(before: seq<ScrapView>, after: seq<ScrapView>, itemMatch: ItemMatcher) {
    && |after| == |before|
    && forall i :: 0 <= i < |before| ==>
         if before[i].entityMatches != [] then after[i].entityMatches == before[i].entityMatches
         else if itemMatch(before[i].messages) != "" then after[i].entityMatches == [itemMatch(before[i].messages)]
         else after[i].entityMatches == []
  }

  /** What the labels look at is what the scraps say. */
  ghost predicate ReadOff(ps: seq<Piece>, scraps: seq<ScrapView>, isPayment: PaymentTest) {
    && |ps| == |scraps|
    && forall i :: 0 <= i < |scraps| ==>
         ps[i] == Piece(scraps[i].sender, scraps[i].firstMsgTs, scraps[i].lastMsgTs, scraps[i].entityMatches,
                        isPayment(scraps[i].messages))
  }

  /** A conversation holds a scrap. */
  predicate Has(conversations: map<string, Conversation>, ref: string, i: nat) {
    ref in conversations && i in conversations[ref].scraps
  }

  /**
   Every conversation that a scrap names holds it, and so does the bookkeeping
   conversation if it is a payment.  Any other one holds it only if the scrap
   names nothing and is about that entity by what its sender said before or next.
   */
  ghost predicate HoldWhatIsSaid(conversations: map<string, Conversation>, scraps: seq<ScrapView>, ps: seq<Piece>,
                                 isPayment: PaymentTest)
    requires |ps| == |scraps|
  {
    && (forall i, k :: 0 <= i < |scraps| && 0 <= k < |scraps[i].entityMatches| ==>
          Has(conversations, scraps[i].entityMatches[k], i))
    && (forall i :: 0 <= i < |scraps| && isPayment(scraps[i].messages) ==>
          Has(conversations, "singleton:bookkeeping", i))
    && forall ref, i :: ref != "" && 0 <= i < |scraps| ==>
         (Has(conversations, ref, i) <==>
            || ref in scraps[i].entityMatches
            || (ref == "singleton:bookkeeping" && isPayment(scraps[i].messages))
            || (scraps[i].entityMatches == [] && IsAbout(ps, i, ref)))
  }

  lemma {:induction false} HasMeans(conversations: map<string, Conversation>, ps: seq<Piece>, i: nat, ref: string)
    requires HoldLabelled(conversations, ps) && i < |ps|
    ensures Has(conversations, ref, i) <==>
      ref in Label(ps, i, |ps|) || (ps[i].payment && ref == "singleton:bookkeeping")
  {
    var refs := Label(ps, i, |ps|);
    assert ref in refs <==> ref in multiset(refs);
    assert Copies(ps, i, |ps|, ref) == if ref in conversations then multiset(conversations[ref].scraps)[i] else 0;
  }

  lemma {:induction false} LabelledIsSaid(conversations: map<string, Conversation>, scraps: seq<ScrapView>, ps: seq<Piece>,
                                          isPayment: PaymentTest)
    requires HoldLabelled(conversations, ps) && ReadOff(ps, scraps, isPayment)
    ensures HoldWhatIsSaid(conversations, scraps, ps, isPayment)
  {
    forall i, k | 0 <= i < |scraps| && 0 <= k < |scraps[i].entityMatches|
      ensures Has(conversations, scraps[i].entityMatches[k], i)
    {
      HasMeans(conversations, ps, i, scraps[i].entityMatches[k]);
    }
    forall i | 0 <= i < |scraps| && isPayment(scraps[i].messages)
      ensures Has(conversations, "singleton:bookkeeping", i)
    {
      HasMeans(conversations, ps, i, "singleton:bookkeeping");
    }
    forall ref, i | ref != "" && 0 <= i < |scraps|
      ensures Has(conversations, ref, i) <==>
        || ref in scraps[i].entityMatches
        || (ref == "singleton:bookkeeping" && isPayment(scraps[i].messages))
        || (scraps[i].entityMatches == [] && IsAbout(ps, i, ref))
    {
      HasMeans(conversations, ps, i, ref);
      LabelMeans(ps, i, ref);
    }
  }

  /** At the end every scrap names its evidence. */
  lemma {:induction false} EvidenceIsNamed(before: seq<ScrapView>, after: seq<ScrapView>, ps: seq<Piece>,
                                           itemMatch: ItemMatcher, isPayment: PaymentTest)
    requires ps == Pieces(before, itemMatch, isPayment) && Matches(after, ps, itemMatch, isPayment)
    requires Marked(after, ps, |ps|) && OnlyNamed(before, after)
    ensures NamesEvidence(before, after, itemMatch) && ReadOff(ps, after, isPayment)
  {
    forall i | 0 <= i < |before|
      ensures after[i].entityMatches == ps[i].evidence == EvidenceOf(before[i].entityMatches, before[i].messages, itemMatch)
      ensures ps[i] == Piece(after[i].sender, after[i].firstMsgTs, after[i].lastMsgTs, after[i].entityMatches,
                             isPayment(after[i].messages))
    {
      assert PieceOf(before[i], itemMatch, isPayment) == ps[i] == PieceOf(after[i], itemMatch, isPayment);
    }
  }

  function BeginsAt(t: int): ScrapView -> bool {
    (v: ScrapView) => v.firstMsgTs == t
  }

  /** The same scraps in order of their first message, ties in list order. */
  ghost predicate InOrder(scraps: seq<ScrapView>, sorted: seq<ScrapView>) {
    && multiset(sorted) == multiset(scraps)
    && (forall i, j :: 0 <= i < j < |sorted| ==> sorted[i].firstMsgTs <= sorted[j].firstMsgTs)
    && forall t :: Filter(BeginsAt(t), sorted) == Filter(BeginsAt(t), scraps)
  }

  lemma {:induction false} ByFirstMessageInOrder(scraps: seq<ScrapView>)
    ensures InOrder(scraps, ByFirstMessage(scraps))
  {
    var keys := map v | v in scraps :: v.firstMsgTs;
    StableSortSorted(keys, scraps);
    SameMembers(StableSort(keys, scraps), scraps);
    forall t
      ensures Filter(BeginsAt(t), ByFirstMessage(scraps)) == Filter(BeginsAt(t), scraps)
    {
      FilterMembers(BeginsAt(t), scraps);
      var kept := Filter(BeginsAt(t), scraps);
      assert forall i :: 0 <= i < |kept| ==> kept[i] in scraps && keys[kept[i]] == t;
      StableSortFiltered(keys, scraps, BeginsAt(t));
    }
  }

  lemma {:induction false} NothingTaken(scraps: seq<ScrapView>, ps: seq<Piece>, itemMatch: ItemMatcher, isPayment: PaymentTest)
    requires Matches(scraps, ps, itemMatch, isPayment)
    requires forall v :: v in scraps ==> v.status == Open
    ensures Progress(map[], map[], scraps, ps, 0, itemMatch, isPayment)
  {
  }

  /**
   Assign scraps to conversations.  The conversations are exactly the book of
   the sorted list: each holds what the labels say, in the order in which it came
   to hold it.  Exactly the labelled scraps are marked as assigned; every scrap
   names its evidence and is otherwise unchanged.
   */
  method BuildConversations(scraps: seq<ScrapView>, groupId: string, itemMatch: ItemMatcher, isPayment: PaymentTest)
      returns (conversations: map<string, Conversation>, sorted: seq<ScrapView>, ghost ps: seq<Piece>)
    requires forall v :: v in scraps ==> v.status == Open
    ensures ps == Pieces(ByFirstMessage(scraps), itemMatch, isPayment) && InOrder(scraps, ByFirstMessage(scraps))
    ensures NamesEvidence(ByFirstMessage(scraps), sorted, itemMatch)
    ensures ReadOff(ps, sorted, isPayment) && HoldWhatIsSaid(conversations, sorted, ps, isPayment)
    ensures Represents(conversations, BookUpTo(ps, |ps|), ps) && HoldLabelled(conversations, ps)
    ensures Matches(sorted, ps, itemMatch, isPayment) && Marked(sorted, ps, |ps|)
    ensures OnlyNamed(ByFirstMessage(scraps), sorted)
  {
    sorted := ByFirstMessage(scraps);
    ps := Pieces(sorted, itemMatch, isPayment);
    SortKeepsOpen(scraps);
    NothingTaken(sorted, ps, itemMatch, isPayment);
    conversations := map[];
    var states: map<string, SenderState> := map[];
    for n := 0 to |sorted|
      invariant Progress(conversations, states, sorted, ps, n, itemMatch, isPayment)
      invariant OnlyNamed(ByFirstMessage(scraps), sorted)
    {
      conversations, states, sorted := TakeScrap(conversations, states, sorted, n, groupId, itemMatch, isPayment, ps);
    }
    BookShown(conversations, ps);
    EvidenceIsNamed(ByFirstMessage(scraps), sorted, ps, itemMatch, isPayment);
    LabelledIsSaid(conversations, sorted, ps, isPayment);
    ByFirstMessageInOrder(scraps);
  }

  lemma {:induction false} SortKeepsOpen(scraps: seq<ScrapView>)
    requires forall v :: v in scraps ==> v.status == Open
    ensures forall v :: v in ByFirstMessage(scraps) ==> v.status == Open
  {
    SameMembers(StableSort(map v | v in scraps :: v.firstMsgTs, scraps), scraps);
  }
}
