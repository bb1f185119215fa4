/**
 Scrap detection: one sender's messages are cut into scraps at long silences
 and where the entity under discussion changes.  What the text layers extract
 from a message is a parameter, `evidence`.
 */
module ScrapDetector {
  import opened Messages
  import opened Ordering

  const BURST_GAP_S := 900

  type Evidence = Message -> set<string>

  // ---- What a partition is ----

  /** All entities mentioned in a run of messages. */
  function Mentions(evidence: Evidence, run: seq<Message>): set<string> {
    if run == [] then {} else Mentions(evidence, run[..|run| - 1]) + evidence(run[|run| - 1])
  }

  /** m starts a new run: there is none yet, or it is too late, or it is about other entities than all seen in the run. */
  predicate Breaks(evidence: Evidence, run: seq<Message>, m: Message) {
    || run == []
    || m.timestamp - run[|run| - 1].timestamp > BURST_GAP_S
    || (evidence(m) != {} && Mentions(evidence, run) != {} && evidence(m) * Mentions(evidence, run) == {})
  }

  /**
   Message k of a run goes with those before it: it comes at most 900 s after
   the last of them, and is about nothing, or the first to be about anything, or
   about something that an earlier one is about.
   */
  ghost predicate GoesWith(evidence: Evidence, run: seq<Message>, k: nat)
    requires 0 < k < |run|
  {
    && run[k].timestamp - run[k - 1].timestamp <= 900
    && (|| evidence(run[k]) == {}
        || (forall j :: 0 <= j < k ==> evidence(run[j]) == {})
        || exists j, e :: 0 <= j < k && e in evidence(run[j]) && e in evidence(run[k]))
  }

  /**
   A message does not go with a run: it comes more than 900 s after its last
   message, or it is about something, the run is too, and they share nothing.
   */
  ghost predicate GoesApart(evidence: Evidence, run: seq<Message>, m: Message)
    requires run != []
  {
    || m.timestamp - run[|run| - 1].timestamp > 900
    || (&& evidence(m) != {}
        && (exists j :: 0 <= j < |run| && evidence(run[j]) != {})
        && forall j, e :: 0 <= j < |run| && e in evidence(run[j]) ==> e !in evidence(m))
  }

  /** A run in which every message goes with the messages before it. */
  ghost predicate Coherent(evidence: Evidence, run: seq<Message>) {
    run != [] && forall k :: 0 < k < |run| ==> GoesWith(evidence, run, k)
  }

  lemma {:induction false} MentionsMeans(evidence: Evidence, run: seq<Message>)
    ensures forall e :: e in Mentions(evidence, run) <==> exists j :: 0 <= j < |run| && e in evidence(run[j])
  {
    if run != [] {
      var n := |run| - 1;
      MentionsMeans(evidence, run[..n]);
      forall e
        ensures e in Mentions(evidence, run[..n]) <==> exists j :: 0 <= j < n && e in evidence(run[j])
      {
        if j :| 0 <= j < n && e in evidence(run[j]) {
          assert run[..n][j] == run[j];
        }
      }
    }
  }

  lemma {:induction false} BreaksMeans(evidence: Evidence, run: seq<Message>, m: Message)
    requires run != []
    ensures Breaks(evidence, run, m) <==> GoesApart(evidence, run, m)
  {
    MentionsMeans(evidence, run);
    if exists j :: 0 <= j < |run| && evidence(run[j]) != {} {
      var j :| 0 <= j < |run| && evidence(run[j]) != {};
      var e :| e in evidence(run[j]);
      assert e in Mentions(evidence, run);
    }
    if Mentions(evidence, run) != {} {
      var e :| e in Mentions(evidence, run);
    }
    if evidence(m) * Mentions(evidence, run) != {} {
      var e :| e in evidence(m) * Mentions(evidence, run);
    } else {
      forall j, e | 0 <= j < |run| && e in evidence(run[j])
        ensures e !in evidence(m)
      {
        assert e in Mentions(evidence, run);
        assert e !in evidence(m) * Mentions(evidence, run);
      }
    }
  }

  lemma {:induction false} GoesWithMeans(evidence: Evidence, run: seq<Message>, k: nat)
    requires 0 < k < |run|
    ensures GoesWith(evidence, run, k) <==> !Breaks(evidence, run[..k], run[k])
  {
    BreaksMeans(evidence, run[..k], run[k]);
    assert run[..k][k - 1] == run[k - 1];
    if j :| 0 <= j < k && evidence(run[j]) != {} {
      assert run[..k][j] == run[j];
    }
    if j, e :| 0 <= j < k && e in evidence(run[j]) && e in evidence(run[k]) {
      assert run[..k][j] == run[j];
    }
  }

  ghost predicate CoherentPartition(evidence: Evidence, parts: seq<seq<Message>>, messages: seq<Message>) {
    && Concat(parts) == messages
    && forall part :: part in parts ==> Coherent(evidence, part)
  }

  /** The greedy partition: a message joins the current run unless it breaks with it. */
  function Greedy(evidence: Evidence, messages: seq<Message>): seq<seq<Message>> {
    GreedyUpTo(evidence, messages, |messages|)
  }

  function GreedyUpTo(evidence: Evidence, messages: seq<Message>, n: nat): seq<seq<Message>>
    requires n <= |messages|
  {
    if n == 0 then [] else Place(evidence, GreedyUpTo(evidence, messages, n - 1), messages[n - 1])
  }

  function Place(evidence: Evidence, parts: seq<seq<Message>>, m: Message): seq<seq<Message>> {
    if parts == [] || Breaks(evidence, Last(parts), m) then parts + [[m]]
    else parts[..|parts| - 1] + [Last(parts) + [m]]
  }

  function Last<T>(s: seq<T>): T
    requires s != []
  {
    s[|s| - 1]
  }

  lemma {:induction false} CoherentExtend(evidence: Evidence, run: seq<Message>, m: Message)
    requires Coherent(evidence, run) && !Breaks(evidence, run, m)
    ensures Coherent(evidence, run + [m])
  {
    var longer := run + [m];
    forall k | 0 < k < |longer|
      ensures GoesWith(evidence, longer, k)
    {
      GoesWithMeans(evidence, longer, k);
      assert longer[..k] == run[..k];
      if k < |run| {
        GoesWithMeans(evidence, run, k);
      } else {
        assert run[..k] == run;
      }
    }
  }

  lemma {:induction false} CoherentShorten(evidence: Evidence, run: seq<Message>)
    requires Coherent(evidence, run) && 1 < |run|
    ensures var n := |run| - 1; Coherent(evidence, run[..n]) && !Breaks(evidence, run[..n], run[n])
  {
    var n := |run| - 1;
    GoesWithMeans(evidence, run, n);
    forall k | 0 < k < n
      ensures GoesWith(evidence, run[..n], k)
    {
      assert run[..n][..k] == run[..k];
      GoesWithMeans(evidence, run, k);
      GoesWithMeans(evidence, run[..n], k);
    }
  }

  lemma {:induction false} PlaceIsCoherent(evidence: Evidence, parts: seq<seq<Message>>, messages: seq<Message>, m: Message)
    requires CoherentPartition(evidence, parts, messages)
    ensures CoherentPartition(evidence, Place(evidence, parts, m), messages + [m])
  {
    ConcatAppend(parts, m);
    var placed := Place(evidence, parts, m);
    var last := placed[|placed| - 1];
    assert Coherent(evidence, last) by {
      if parts != [] && !Breaks(evidence, Last(parts), m) {
        assert Last(parts) in parts;
        CoherentExtend(evidence, Last(parts), m);
      }
    }
    assert forall part :: part in placed ==> part == last || part in parts;
  }

  /** The greedy partition loses no message, keeps their order and is coherent. */
  lemma {:induction false} GreedyIsCoherent(evidence: Evidence, messages: seq<Message>, n: nat)
    requires n <= |messages|
    ensures CoherentPartition(evidence, GreedyUpTo(evidence, messages, n), messages[..n])
  {
    if 0 < n {
      GreedyIsCoherent(evidence, messages, n - 1);
      assert messages[..n] == messages[..n - 1] + [messages[n - 1]];
      PlaceIsCoherent(evidence, GreedyUpTo(evidence, messages, n - 1), messages[..n - 1], messages[n - 1]);
    }
  }

  // ---- No coherent partition is shorter ----

  /** A coherent partition without its last message. */
  function DropLast(parts: seq<seq<Message>>): seq<seq<Message>>
    requires parts != [] && Last(parts) != []
  {
    var n := |parts| - 1;
    if |parts[n]| == 1 then parts[..n] else parts[..n] + [parts[n][..|parts[n]| - 1]]
  }

  lemma {:induction false} DropLastPartitions(evidence: Evidence, parts: seq<seq<Message>>, messages: seq<Message>)
    requires messages != [] && CoherentPartition(evidence, parts, messages)
    ensures parts != [] && Last(parts) != []
    ensures var n := |messages| - 1;
            CoherentPartition(evidence, DropLast(parts), messages[..n]) && Last(Last(parts)) == messages[n]
  {
    assert parts != [];
    var k := |parts| - 1;
    var part := parts[k];
    assert part in parts;
    assert messages == Concat(parts[..k]) + part;
    assert part == part[..|part| - 1] + [Last(part)];
    if |part| == 1 {
      assert Concat(parts[..k]) == messages[..|messages| - 1];
    } else {
      CoherentShorten(evidence, part);
      var shorter := parts[..k] + [part[..|part| - 1]];
      assert shorter[..k] == parts[..k];
      assert Concat(shorter) == messages[..|messages| - 1];
    }
  }

  /**
   The exchange argument.  Against any coherent partition the greedy one is
   never ahead in the number of parts; its current run has seen every entity
   the other's current run has seen; and if the counts are equal the two
   current runs have seen the same entities.
   */
  ghost predicate NoWorse(evidence: Evidence, greedy: seq<seq<Message>>, parts: seq<seq<Message>>) {
    && |greedy| <= |parts|
    && (greedy != [] && parts != [] ==>
          && Mentions(evidence, Last(parts)) <= Mentions(evidence, Last(greedy))
          && (|greedy| == |parts| ==> Mentions(evidence, Last(parts)) == Mentions(evidence, Last(greedy))))
  }

  lemma {:induction false} MentionsAppend(evidence: Evidence, run: seq<Message>, m: Message)
    ensures Mentions(evidence, run + [m]) == Mentions(evidence, run) + evidence(m)
  {
    assert (run + [m])[..|run|] == run;
  }

  lemma {:induction false} NoWorseNewPart(evidence: Evidence, greedy: seq<seq<Message>>, parts: seq<seq<Message>>, m: Message)
    requires greedy != [] && parts != [] && Last(greedy) != [] && Last(parts) != []
    requires NoWorse(evidence, greedy, parts)
    ensures NoWorse(evidence, Place(evidence, greedy, m), parts + [[m]])
  {
    MentionsAppend(evidence, [], m);
    assert [] + [m] == [m];
    MentionsAppend(evidence, Last(greedy), m);
    assert Last(parts + [[m]]) == [m];
  }

  /** One more message, which the other partition puts in a new part or in its current one. */
  lemma {:induction false} NoWorseStep(evidence: Evidence, greedy: seq<seq<Message>>, parts: seq<seq<Message>>, m: Message)
    requires greedy != [] && parts != [] && Last(greedy) != [] && Last(parts) != []
    requires Last(Last(greedy)) == Last(Last(parts))
    requires NoWorse(evidence, greedy, parts)
    ensures NoWorse(evidence, Place(evidence, greedy, m), parts + [[m]])
    ensures !Breaks(evidence, Last(parts), m) ==>
      NoWorse(evidence, Place(evidence, greedy, m), parts[..|parts| - 1] + [Last(parts) + [m]])
  {
    NoWorseNewPart(evidence, greedy, parts, m);
    MentionsAppend(evidence, [], m);
    assert [] + [m] == [m];
    MentionsAppend(evidence, Last(greedy), m);
    MentionsAppend(evidence, Last(parts), m);
    assert Last(parts[..|parts| - 1] + [Last(parts) + [m]]) == Last(parts) + [m];
  }

  lemma {:induction false} GreedyIsNoWorse(evidence: Evidence, messages: seq<Message>, n: nat,
                                           parts: seq<seq<Message>>)
    requires n <= |messages| && CoherentPartition(evidence, parts, messages[..n])
    ensures NoWorse(evidence, GreedyUpTo(evidence, messages, n), parts)
    decreases n
  {
    if 0 < n {
      var m := messages[n - 1];
      assert messages[..n][..n - 1] == messages[..n - 1];
      DropLastPartitions(evidence, parts, messages[..n]);
      var other := DropLast(parts);
      GreedyIsNoWorse(evidence, messages, n - 1, other);
      if n == 1 {
        assert messages[..n] == [m];
        FirstMessage(evidence, parts, m);
      } else {
        SameClock(evidence, messages, n - 1, other);
        NoWorseStep(evidence, GreedyUpTo(evidence, messages, n - 1), other, m);
        DropLastInverse(evidence, parts, m);
      }
    }
  }

  lemma {:induction false} DropLastInverse(evidence: Evidence, parts: seq<seq<Message>>, m: Message)
    requires parts != [] && Coherent(evidence, Last(parts)) && Last(Last(parts)) == m
    ensures var other := DropLast(parts);
            || parts == other + [[m]]
            || (&& other != [] && Last(other) != [] && !Breaks(evidence, Last(other), m)
                && parts == other[..|other| - 1] + [Last(other) + [m]])
  {
    var part := Last(parts);
    if |part| == 1 {
      assert part == [m];
    } else {
      CoherentShorten(evidence, part);
      assert Last(DropLast(parts)) + [m] == part;
    }
  }

  lemma {:induction false} FirstMessage(evidence: Evidence, parts: seq<seq<Message>>, m: Message)
    requires CoherentPartition(evidence, parts, [m])
    ensures parts == [[m]]
  {
    var k := |parts| - 1;
    assert parts[k] in parts;
    assert [m] == Concat(parts[..k]) + parts[k];
    if 0 < k {
      assert parts[k - 1] in parts;
      assert Concat(parts[..k]) == Concat(parts[..k][..k - 1]) + parts[..k][k - 1];
    }
    assert k == 0 && parts[0] == [m];
  }

  /** Both current runs end in the same message. */
  lemma {:induction false} SameClock(evidence: Evidence, messages: seq<Message>, n: nat, q: seq<seq<Message>>)
    requires 0 < n <= |messages| && CoherentPartition(evidence, q, messages[..n])
    ensures var p := GreedyUpTo(evidence, messages, n);
            && p != [] && Last(p) != [] && q != [] && Last(q) != []
            && Last(Last(p)) == Last(Last(q)) == messages[n - 1]
  {
    GreedyIsCoherent(evidence, messages, n);
    DropLastPartitions(evidence, GreedyUpTo(evidence, messages, n), messages[..n]);
    DropLastPartitions(evidence, q, messages[..n]);
  }

  /** The greedy partition is coherent, and no coherent partition of the same messages has fewer parts. */
  lemma {:induction false} GreedyIsShortest(evidence: Evidence, messages: seq<Message>)
    ensures CoherentPartition(evidence, Greedy(evidence, messages), messages)
    ensures forall parts :: CoherentPartition(evidence, parts, messages) ==> |Greedy(evidence, messages)| <= |parts|
  {
    assert messages[..|messages|] == messages;
    GreedyIsCoherent(evidence, messages, |messages|);
    forall parts | CoherentPartition(evidence, parts, messages)
      ensures |Greedy(evidence, messages)| <= |parts|
    {
      GreedyIsNoWorse(evidence, messages, |messages|, parts);
    }
  }

  // ---- The greedy partition, without the algorithm ----

  /** The first message of part i does not go with the part before. */
  ghost predicate Border(evidence: Evidence, parts: seq<seq<Message>>, i: nat)
    requires 0 < i < |parts|
  {
    parts[i - 1] != [] && parts[i] != [] && GoesApart(evidence, parts[i - 1], parts[i][0])
  }

  /** Every message goes with the part it is in, and the first one of a part does not go with the part before. */
  ghost predicate Cut(evidence: Evidence, parts: seq<seq<Message>>, messages: seq<Message>) {
    && Concat(parts) == messages
    && (forall i :: 0 <= i < |parts| ==> Coherent(evidence, parts[i]))
    && forall i :: 0 < i < |parts| ==> Border(evidence, parts, i)
  }

  lemma {:induction false} PlaceCuts(evidence: Evidence, parts: seq<seq<Message>>, messages: seq<Message>, m: Message)
    requires Cut(evidence, parts, messages)
    ensures Cut(evidence, Place(evidence, parts, m), messages + [m])
  {
    assert CoherentPartition(evidence, parts, messages);
    PlaceIsCoherent(evidence, parts, messages, m);
    var placed := Place(evidence, parts, m);
    forall i | 0 < i < |placed|
      ensures Border(evidence, placed, i)
    {
      assert Coherent(evidence, placed[i - 1]) && Coherent(evidence, placed[i]) by {
        assert placed[i - 1] in placed && placed[i] in placed;
      }
      if i == |parts| {
        BreaksMeans(evidence, parts[i - 1], m);
      } else {
        assert Border(evidence, parts, i) && placed[i - 1] == parts[i - 1] && placed[i][0] == parts[i][0];
      }
    }
    forall i | 0 <= i < |placed|
      ensures Coherent(evidence, placed[i])
    {
      assert placed[i] in placed;
    }
  }

  lemma {:induction false} DropLastCuts(evidence: Evidence, parts: seq<seq<Message>>, messages: seq<Message>)
    requires messages != [] && Cut(evidence, parts, messages)
    ensures parts != [] && Last(parts) != []
    ensures var n := |messages| - 1;
            Cut(evidence, DropLast(parts), messages[..n]) && Place(evidence, DropLast(parts), messages[n]) == parts
  {
    DropLastPartitions(evidence, parts, messages);
    var other := DropLast(parts);
    forall i | 0 <= i < |other|
      ensures Coherent(evidence, other[i])
    {
      assert other[i] in other;
    }
    forall i | 0 < i < |other|
      ensures Border(evidence, other, i)
    {
      assert Border(evidence, parts, i) && Coherent(evidence, other[i]);
      assert other[i - 1] == parts[i - 1] && other[i][0] == parts[i][0];
    }
    DropLastInverse(evidence, parts, Last(messages));
    if other != [] && |Last(parts)| == 1 {
      BreaksMeans(evidence, Last(other), Last(messages));
      assert Border(evidence, parts, |parts| - 1);
    }
  }

  lemma {:induction false} CutsAgree(evidence: Evidence, messages: seq<Message>, n: nat, parts: seq<seq<Message>>)
    requires n <= |messages|
    ensures Cut(evidence, parts, messages[..n]) <==> parts == GreedyUpTo(evidence, messages, n)
    decreases n
  {
    if n == 0 {
      assert messages[..0] == [];
      assert parts != [] ==> Concat(parts) == Concat(parts[..|parts| - 1]) + Last(parts);
    } else {
      var before := GreedyUpTo(evidence, messages, n - 1);
      assert messages[..n][..n - 1] == messages[..n - 1] && messages[..n] == messages[..n - 1] + [messages[n - 1]];
      CutsAgree(evidence, messages, n - 1, before);
      PlaceCuts(evidence, before, messages[..n - 1], messages[n - 1]);
      if Cut(evidence, parts, messages[..n]) {
        DropLastCuts(evidence, parts, messages[..n]);
        CutsAgree(evidence, messages, n - 1, DropLast(parts));
      }
    }
  }

  /** The greedy partition is the one cut that the rule allows. */
  lemma {:induction false} GreedyIsTheCut(evidence: Evidence, messages: seq<Message>, parts: seq<seq<Message>>)
    ensures parts == Greedy(evidence, messages) <==> Cut(evidence, parts, messages)
  {
    assert messages[..|messages|] == messages;
    CutsAgree(evidence, messages, |messages|, parts);
  }

  // ---- Scraps ----

  datatype ScrapStatus = Open | Assigned

  /** The first timestamp that is not zero; zero counts as "not set". */
  function FirstTimestamp(run: seq<Message>): int {
    if run == [] then 0
    else
      var n := |run| - 1;
      if FirstTimestamp(run[..n]) != 0 then FirstTimestamp(run[..n]) else run[n].timestamp
  }

  function LastTimestamp(run: seq<Message>): int {
    if run == [] then 0 else run[|run| - 1].timestamp
  }

  /** The contents of a scrap at one moment. */
  datatype ScrapView = ScrapView(
    groupId: string, sender: string, messages: seq<Message>,
    firstMsgTs: int, lastMsgTs: int, entityMatches: seq<string>, status: ScrapStatus)
  {
    ghost predicate Valid() {
      firstMsgTs == FirstTimestamp(messages) && lastMsgTs == LastTimestamp(messages)
    }

    /** The scrap holds exactly this run, is in no conversation yet, and names the entities of the run. */
    ghost predicate Holds(evidence: Evidence, run: seq<Message>) {
      Valid() && messages == run && status == Open && Lists(entityMatches, Mentions(evidence, run))
    }
  }

  class Scrap {
    const groupId: string
    const sender: string
    var messages: seq<Message>
    var firstMsgTs: int
    var lastMsgTs: int
    var entityMatches: seq<string>
    var status: ScrapStatus

    ghost function View(): ScrapView
      reads this
    {
      ScrapView(groupId, sender, messages, firstMsgTs, lastMsgTs, entityMatches, status)
    }

    constructor (groupId: string, sender: string)
      ensures View() == ScrapView(groupId, sender, [], 0, 0, [], Open)
    {
      this.groupId, this.sender := groupId, sender;
      messages, firstMsgTs, lastMsgTs, entityMatches, status := [], 0, 0, [], Open;
    }

    method AddMessage(msg: Message)
      requires View().Valid()
      modifies `messages, `firstMsgTs, `lastMsgTs
      ensures View().Valid()
      ensures messages == old(messages) + [msg]
      ensures firstMsgTs == (if old(firstMsgTs) == 0 then msg.timestamp else old(firstMsgTs)) && lastMsgTs == msg.timestamp
    {
      messages := messages + [msg];
      assert messages[..|messages| - 1] == old(messages);
      if firstMsgTs == 0 {
        firstMsgTs := msg.timestamp;
      }
      lastMsgTs := msg.timestamp;
    }
  }

  /** A list holding each element of the set once, in any order. */
  ghost predicate Lists(list: seq<string>, elements: set<string>) {
    multiset(list) == multiset(elements)
  }

  method ListOf(elements: set<string>) returns (list: seq<string>)
    ensures Lists(list, elements)
  {
    list := [];
    var rest := elements;
    while rest != {}
      invariant rest <= elements
      invariant Lists(list, elements - rest)
    {
      var x :| x in rest;
      list := list + [x];
      rest := rest - {x};
    }
  }

  /**
   One message: it goes into the current scrap, or into a new one if there is
   none yet or it breaks with the current one.
   */
  method TakeMessage(currentScrap: Scrap?, currentEntities: set<string>, msg: Message,
                     groupId: string, sender: string, evidence: Evidence, ghost run: seq<Message>)
      returns (scrap: Scrap, entities: set<string>)
    requires currentScrap == null <==> run == []
    requires currentScrap != null ==>
      && currentScrap.groupId == groupId && currentScrap.sender == sender
      && currentScrap.View().Holds(evidence, run)
      && currentEntities == Mentions(evidence, run)
    modifies currentScrap
    ensures scrap.groupId == groupId && scrap.sender == sender
    ensures entities == Mentions(evidence, scrap.messages)
    ensures !Breaks(evidence, run, msg) ==> scrap == currentScrap && scrap.View().Holds(evidence, run + [msg])
    ensures Breaks(evidence, run, msg) ==>
      && fresh(scrap) && scrap.View().Holds(evidence, [msg])
      && (currentScrap != null ==> currentScrap.View() == old(currentScrap.View()))
  {
    var msgEntities := evidence(msg);
    var shouldBreak := false;
    if currentScrap == null {
      shouldBreak := true;
    } else {
      var gap := msg.timestamp - currentScrap.lastMsgTs;
      if gap > BURST_GAP_S {
        shouldBreak := true;
      }
      if msgEntities != {} && currentEntities != {} && msgEntities * currentEntities == {} {
        shouldBreak := true;
      }
    }
    if shouldBreak {
      scrap := new Scrap(groupId, sender);
      entities := Collect(scrap, msg, msgEntities, {}, evidence, []);
      assert [] + [msg] == [msg];
    } else {
      scrap := currentScrap;
      entities := Collect(scrap, msg, msgEntities, currentEntities, evidence, run);
    }
  }

  /** Add a message to a scrap and record the entities it mentions. */
  method Collect(scrap: Scrap, msg: Message, msgEntities: set<string>, entities: set<string>,
                 ghost evidence: Evidence, ghost run: seq<Message>)
      returns (updated: set<string>)
    requires scrap.View().Holds(evidence, run)
    requires entities == Mentions(evidence, run) && msgEntities == evidence(msg)
    modifies scrap
    ensures scrap.View().Holds(evidence, run + [msg])
    ensures updated == Mentions(evidence, run + [msg])
  {
    MentionsAppend(evidence, run, msg);
    updated := entities;
    scrap.AddMessage(msg);
    if msgEntities != {} {
      updated := entities + msgEntities;
      // The list is never empty here, so the source's fallback for an empty list has nothing to do.
      scrap.entityMatches := ListOf(updated);
    }
  }

  /** The scraps are separate objects of one sender that hold the given runs, in order. */
  ghost predicate HoldRuns(scraps: seq<Scrap>, groupId: string, sender: string, evidence: Evidence,
                           runs: seq<seq<Message>>)
    reads set s | s in scraps
  {
    && |scraps| == |runs|
    && Distinct(scraps)
    && forall i :: 0 <= i < |scraps| ==>
         && scraps[i].groupId == groupId && scraps[i].sender == sender
         && scraps[i].View().Holds(evidence, runs[i])
  }

  /** The finished scraps hold all parts but the last, and the current scrap, another object, holds the last. */
  ghost predicate Cutting(scraps: seq<Scrap>, currentScrap: Scrap?, currentEntities: set<string>,
                          groupId: string, sender: string, evidence: Evidence, parts: seq<seq<Message>>)
    reads scraps, currentScrap
  {
    if currentScrap == null then
      scraps == [] && parts == []
    else
      && |parts| == |scraps| + 1 && Last(parts) != []
      && HoldRuns(scraps, groupId, sender, evidence, parts[..|scraps|])
      && currentScrap !in scraps
      && currentScrap.groupId == groupId && currentScrap.sender == sender
      && currentScrap.View().Holds(evidence, Last(parts))
      && currentEntities == Mentions(evidence, Last(parts))
  }

  lemma {:induction false} HoldRunsAppend(scraps: seq<Scrap>, scrap: Scrap, groupId: string, sender: string,
                                          evidence: Evidence, parts: seq<seq<Message>>)
    requires |parts| == |scraps| + 1 && HoldRuns(scraps, groupId, sender, evidence, parts[..|scraps|])
    requires scrap !in scraps && scrap.groupId == groupId && scrap.sender == sender
    requires scrap.View().Holds(evidence, Last(parts))
    ensures HoldRuns(scraps + [scrap], groupId, sender, evidence, parts)
  {
  }

  /** One message more. */
  method Advance(scraps: seq<Scrap>, currentScrap: Scrap?, currentEntities: set<string>, msg: Message,
                 groupId: string, sender: string, evidence: Evidence, ghost parts: seq<seq<Message>>)
      returns (finished: seq<Scrap>, scrap: Scrap, entities: set<string>)
    requires Cutting(scraps, currentScrap, currentEntities, groupId, sender, evidence, parts)
    modifies currentScrap
    ensures scrap == currentScrap || fresh(scrap)
    ensures finished == scraps || (currentScrap != null && finished == scraps + [currentScrap])
    ensures Cutting(finished, scrap, entities, groupId, sender, evidence, Place(evidence, parts, msg))
  {
    ghost var run := if parts == [] then [] else Last(parts);
    ghost var placed := Place(evidence, parts, msg);
    finished := scraps;
    if currentScrap != null {
      HoldRunsAppend(scraps, currentScrap, groupId, sender, evidence, parts);
    }
    scrap, entities := TakeMessage(currentScrap, currentEntities, msg, groupId, sender, evidence, run);
    if currentScrap != null && scrap != currentScrap {
      finished := finished + [currentScrap];
      assert placed[..|finished|] == parts && Last(placed) == [msg];
    } else {
      assert placed[..|finished|] == parts[..|finished|] && Last(placed) == if run == [] then [msg] else run + [msg];
    }
  }

  /** Cut one sender's messages into scraps. */
  method PartitionStrand(messages: seq<Message>, groupId: string, sender: string, evidence: Evidence)
      returns (scraps: seq<Scrap>)
    ensures fresh(scraps)
    ensures HoldRuns(scraps, groupId, sender, evidence, Greedy(evidence, messages))
  {
    scraps := [];
    var currentScrap: Scrap? := null;
    var currentEntities: set<string> := {};
    ghost var parts: seq<seq<Message>> := [];
    for n := 0 to |messages|
      invariant parts == GreedyUpTo(evidence, messages, n)
      invariant fresh(scraps) && (currentScrap != null ==> fresh(currentScrap))
      invariant Cutting(scraps, currentScrap, currentEntities, groupId, sender, evidence, parts)
    {
      scraps, currentScrap, currentEntities :=
        Advance(scraps, currentScrap, currentEntities, messages[n], groupId, sender, evidence, parts);
      parts := Place(evidence, parts, messages[n]);
    }
    if currentScrap != null {
      HoldRunsAppend(scraps, currentScrap, groupId, sender, evidence, parts);
      scraps := scraps + [currentScrap];
    }
  }

  // ---- All senders of a group ----

  function BySender(scraps: seq<Scrap>, sender: string): (sent: seq<Scrap>)
    ensures forall s :: s in sent ==> s in scraps && s.sender == sender
    ensures forall s :: s in scraps && s.sender == sender ==> s in sent
  {
    if scraps == [] then []
    else
      var n := |scraps| - 1;
      assert scraps == scraps[..n] + [scraps[n]];
      if scraps[n].sender == sender then BySender(scraps[..n], sender) + [scraps[n]] else BySender(scraps[..n], sender)
  }

  function SentBy(sender: string): Scrap -> bool {
    (s: Scrap) => s.sender == sender
  }

  lemma {:induction false} BySenderFilters(scraps: seq<Scrap>, sender: string)
    ensures BySender(scraps, sender) == Filter(SentBy(sender), scraps)
  {
    if scraps != [] {
      BySenderFilters(scraps[..|scraps| - 1], sender);
    }
  }

  lemma {:induction false} FirstTimestampOccurs(run: seq<Message>)
    requires run != []
    ensures exists m :: m in run && m.timestamp == FirstTimestamp(run)
  {
    var n := |run| - 1;
    if n == 0 {
      assert FirstTimestamp(run[..0]) == 0;
      assert run[0] in run;
    } else {
      FirstTimestampOccurs(run[..n]);
      assert run[n] in run;
    }
  }

  lemma {:induction false} PartsInTimeOrder(parts: seq<seq<Message>>, i: nat, j: nat, x: Message, y: Message)
    requires Chronological(Concat(parts)) && i < j < |parts| && x in parts[i] && y in parts[j]
    ensures x.timestamp <= y.timestamp
    decreases |parts|
  {
    var n := |parts| - 1;
    var front := Concat(parts[..n]);
    if j < n {
      forall a, b | 0 <= a < b < |front|
        ensures front[a].timestamp <= front[b].timestamp
      {
        assert front[a] == Concat(parts)[a] && front[b] == Concat(parts)[b];
      }
      PartsInTimeOrder(parts[..n], i, j, x, y);
    } else {
      ConcatMembers(parts[..n]);
      assert parts[..n][i] == parts[i] && x in front;
      var a :| 0 <= a < |front| && front[a] == x;
      var b :| 0 <= b < |parts[n]| && parts[n][b] == y;
      assert Concat(parts)[a] == x && Concat(parts)[|front| + b] == y;
    }
  }

  lemma {:induction false} PartsStartInOrder(parts: seq<seq<Message>>, i: nat, j: nat)
    requires Chronological(Concat(parts)) && i < j < |parts| && parts[i] != [] && parts[j] != []
    ensures FirstTimestamp(parts[i]) <= FirstTimestamp(parts[j])
  {
    FirstTimestampOccurs(parts[i]);
    FirstTimestampOccurs(parts[j]);
    var x: Message :| x in parts[i] && x.timestamp == FirstTimestamp(parts[i]);
    var y: Message :| y in parts[j] && y.timestamp == FirstTimestamp(parts[j]);
    PartsInTimeOrder(parts, i, j, x, y);
  }

  /** In chronological order the runs of one sender start in order. */
  lemma {:induction false} RunsStartInOrder(evidence: Evidence, strand: seq<Message>)
    requires Chronological(strand)
    ensures var runs := Greedy(evidence, strand);
            forall i, j :: 0 <= i < j < |runs| ==> FirstTimestamp(runs[i]) <= FirstTimestamp(runs[j])
  {
    var runs := Greedy(evidence, strand);
    GreedyIsShortest(evidence, strand);
    forall i, j | 0 <= i < j < |runs|
      ensures FirstTimestamp(runs[i]) <= FirstTimestamp(runs[j])
    {
      assert runs[i] in runs && runs[j] in runs;
      PartsStartInOrder(runs, i, j);
    }
  }

  /** Group the messages into sender strands. */
  method SenderStrands(messages: seq<Message>) returns (strands: map<string, seq<Message>>)
    ensures forall p :: MessagesOf(messages, p) == if p in strands then strands[p] else []
  {
    strands := map[];
    for n := 0 to |messages|
      invariant forall p :: MessagesOf(messages[..n], p) == if p in strands then strands[p] else []
    {
      var msg := messages[n];
      assert messages[..n + 1][..n] == messages[..n] && messages[..n + 1][n] == msg;
      var sender := msg.sender;
      if sender !in strands {
        strands := strands[sender := []];
      }
      strands := strands[sender := strands[sender] + [msg]];
    }
    assert messages[..|messages|] == messages;
  }

  /** Each sender's scraps hold that sender's runs. */
  ghost predicate SendersHold(all: seq<Scrap>, groupId: string, evidence: Evidence,
                              runs: map<string, seq<seq<Message>>>)
    reads all
  {
    && (forall s :: s in all ==> s.sender in runs)
    && forall p :: p in runs ==> HoldRuns(BySender(all, p), groupId, p, evidence, runs[p])
  }

  lemma {:induction false} SenderAppend(all: seq<Scrap>, scraps: seq<Scrap>, sender: string, p: string)
    requires forall s :: s in scraps ==> s.sender == sender
    requires forall s :: s in all ==> s.sender != sender
    ensures BySender(all + scraps, p) == if p == sender then scraps else BySender(all, p)
  {
    BySenderFilters(all + scraps, p);
    BySenderFilters(all, p);
    FilterConcat(SentBy(p), all, scraps);
    FilterAll(SentBy(p), scraps);
    FilterAll(SentBy(p), all);
  }

  lemma {:induction false} SendersHoldAppend(all: seq<Scrap>, scraps: seq<Scrap>, groupId: string, evidence: Evidence,
                          runs: map<string, seq<seq<Message>>>, sender: string, cut: seq<seq<Message>>)
    requires SendersHold(all, groupId, evidence, runs) && sender !in runs
    requires HoldRuns(scraps, groupId, sender, evidence, cut)
    ensures SendersHold(all + scraps, groupId, evidence, runs[sender := cut])
  {
    forall p | p in runs[sender := cut]
      ensures HoldRuns(BySender(all + scraps, p), groupId, p, evidence, runs[sender := cut][p])
    {
      SenderAppend(all, scraps, sender, p);
    }
  }

  /** The runs of every strand. */
  ghost predicate RunsOf(runs: map<string, seq<seq<Message>>>, strands: map<string, seq<Message>>, evidence: Evidence) {
    forall p :: p in runs ==> p in strands && runs[p] == Greedy(evidence, strands[p])
  }

  /** Cut one sender's strand and add its scraps to those of the senders before. */
  method CutStrand(all: seq<Scrap>, sender: string, strand: seq<Message>, groupId: string, evidence: Evidence,
                   ghost runs: map<string, seq<seq<Message>>>)
      returns (longer: seq<Scrap>)
    requires Distinct(all) && SendersHold(all, groupId, evidence, runs) && sender !in runs
    ensures |all| <= |longer| && forall i :: 0 <= i < |longer| ==>
      if i < |all| then longer[i] == all[i] else fresh(longer[i])
    ensures Distinct(longer)
    ensures SendersHold(longer, groupId, evidence, runs[sender := Greedy(evidence, strand)])
  {
    var scraps := PartitionStrand(strand, groupId, sender, evidence);
    DistinctConcat(all, scraps);
    SendersHoldAppend(all, scraps, groupId, evidence, runs, sender, Greedy(evidence, strand));
    longer := all + scraps;
  }

  /** Cut every strand, one sender after the other. */
  method CutStrands(strands: map<string, seq<Message>>, groupId: string, evidence: Evidence)
      returns (all: seq<Scrap>, ghost runs: map<string, seq<seq<Message>>>)
    ensures fresh(all) && Distinct(all)
    ensures RunsOf(runs, strands, evidence) && runs.Keys == strands.Keys
    ensures SendersHold(all, groupId, evidence, runs)
  {
    all, runs := [], map[];
    var rest := strands.Keys;
    while rest != {}
      invariant forall i :: 0 <= i < |all| ==> fresh(all[i])
      invariant Distinct(all) && RunsOf(runs, strands, evidence)
      invariant rest <= strands.Keys && runs.Keys == strands.Keys - rest
      invariant SendersHold(all, groupId, evidence, runs)
    {
      var sender :| sender in rest;
      all := CutStrand(all, sender, strands[sender], groupId, evidence, runs);
      runs := runs[sender := Greedy(evidence, strands[sender])];
      rest := rest - {sender};
    }
  }

  /** The scraps of a group, all senders together, in order of their first message. */
  method DetectScraps(messages: seq<Message>, groupId: string, evidence: Evidence) returns (scraps: seq<Scrap>)
    requires Chronological(messages)
    ensures fresh(scraps) && Distinct(scraps)
    ensures forall i, j :: 0 <= i < j < |scraps| ==> scraps[i].firstMsgTs <= scraps[j].firstMsgTs
    ensures forall p :: HoldRuns(BySender(scraps, p), groupId, p, evidence, Greedy(evidence, MessagesOf(messages, p)))
  {
    var strands := SenderStrands(messages);
    var all, runs := CutStrands(strands, groupId, evidence);
    scraps := SortByFirst(all);
    DistinctPermutation(all, scraps);
    SameMembers(all, scraps);
    assert forall i :: 0 <= i < |scraps| ==> scraps[i] in all;
    forall p
      ensures HoldRuns(BySender(scraps, p), groupId, p, evidence, Greedy(evidence, MessagesOf(messages, p)))
    {
      SortKeepsSender(all, scraps, p, groupId, evidence, messages, strands, runs);
    }
  }

  lemma {:induction false} NoneSent(scraps: seq<Scrap>, p: string)
    requires forall i :: 0 <= i < |scraps| ==> scraps[i].sender != p
    ensures BySender(scraps, p) == []
  {
    if scraps != [] {
      NoneSent(scraps[..|scraps| - 1], p);
    }
  }

  lemma {:induction false} SortKeepsSender(all: seq<Scrap>, sorted: seq<Scrap>, p: string, groupId: string, evidence: Evidence,
                        messages: seq<Message>, strands: map<string, seq<Message>>,
                        runs: map<string, seq<seq<Message>>>)
    requires Chronological(messages)
    requires MessagesOf(messages, p) == if p in strands then strands[p] else []
    requires RunsOf(runs, strands, evidence) && (p in strands ==> p in runs)
    requires SendersHold(all, groupId, evidence, runs)
    requires sorted == ByFirst(all)
    ensures HoldRuns(BySender(sorted, p), groupId, p, evidence, Greedy(evidence, MessagesOf(messages, p)))
  {
    if p in strands {
      MessagesOfChronological(messages, p);
      SortKeepsStrand(all, p, groupId, evidence, strands[p]);
    } else {
      forall i | 0 <= i < |sorted|
        ensures sorted[i].sender != p
      {
        SameMember(all, sorted, i);
      }
      NoneSent(sorted, p);
    }
  }

  ghost function FirstTimes(scraps: seq<Scrap>): map<Scrap, int>
    reads scraps
  {
    map s | s in scraps :: s.firstMsgTs
  }

  /** The scraps in order of their first message, ties in list order. */
  ghost function ByFirst(scraps: seq<Scrap>): seq<Scrap>
    reads scraps
  {
    StableSort(FirstTimes(scraps), scraps)
  }

  lemma {:induction false} SortKeepsStrand(all: seq<Scrap>, p: string, groupId: string, evidence: Evidence, strand: seq<Message>)
    requires Chronological(strand)
    requires HoldRuns(BySender(all, p), groupId, p, evidence, Greedy(evidence, strand))
    ensures BySender(ByFirst(all), p) == BySender(all, p)
  {
    var keys := FirstTimes(all);
    RunsStartInOrder(evidence, strand);
    assert forall s :: s in BySender(all, p) ==> s in keys && keys[s] == s.firstMsgTs;
    BySenderFilters(all, p);
    StableSortFiltered(keys, all, SentBy(p));
    BySenderFilters(StableSort(keys, all), p);
  }

  method SortByFirst(scraps: seq<Scrap>) returns (sorted: seq<Scrap>)
    ensures sorted == ByFirst(scraps)
    ensures multiset(sorted) == multiset(scraps)
    ensures forall i, j :: 0 <= i < j < |sorted| ==> sorted[i].firstMsgTs <= sorted[j].firstMsgTs
  {
    var keys := map s | s in scraps :: s.firstMsgTs;
    sorted := StableSort(keys, scraps);
    assert keys == FirstTimes(scraps);
    StableSortSorted(keys, scraps);
    forall i: nat | i < |sorted|
      ensures sorted[i] in keys && keys[sorted[i]] == sorted[i].firstMsgTs
    {
      SameMember(scraps, sorted, i);
    }
  }
}
