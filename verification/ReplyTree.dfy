/**
 Reply-tree threading.  Every message looks back over at most fifteen messages
 for the one it most likely answers; the parent links form a forest, and the
 trees of the forest are the threads.  What the patterns find in a text is a
 parameter, `Lexicon`; texts are compared after trimming.
 */
module ReplyTree {
  import opened Options
  import opened Messages
  import opened Ordering

  const MIN_REPLY_SCORE := 2.0
  const MAX_LOOKBACK := 15
  const MAX_GAP_S := 900

  datatype Lexicon = Lexicon(
    isAffirmation: string -> bool, isQuestion: string -> bool,
    hasNumber: string -> bool, keywords: string -> set<string>)

  datatype ThreadedMessage = ThreadedMessage(
    idx: nat, messageId: string, sender: string, body: string, timestamp: int,
    parentIdx: Option<nat>, replyScore: real, threadId: Option<nat>)

  /** How likely the first message answers the second. */
  type Scorer = (Message, Message) -> real

  // ---- Scoring ----

  /** Senders are compared by their first thirty characters. */
  function SenderKey(m: Message): string {
    if |m.sender| <= 30 then m.sender else m.sender[..30]
  }

  /** How likely `current` answers `previous`. */
  function Score(lex: Lexicon, current: Message, previous: Message): real {
    var gap := current.timestamp - previous.timestamp;
    var same := SenderKey(current) == SenderKey(previous);
    var temporal :=
      if same then (if gap <= 120 then 2.0 else 0.0)
      else if gap <= 60 then 3.0
      else if gap <= 300 then 1.5
      else if gap <= 900 then 0.5
      else 0.0;
    var affirmation := if !same && lex.isAffirmation(current.body) then 2.0 else 0.0;
    var answer :=
      if !same && lex.isQuestion(previous.body) && !lex.isQuestion(current.body) && gap <= 300 then 1.5 else 0.0;
    var numeric := if lex.hasNumber(current.body) && lex.hasNumber(previous.body) && gap <= 300 then 1.0 else 0.0;
    var topic :=
      if lex.keywords(current.body) * lex.keywords(previous.body) == {} then 0.0
      else if same then 0.75
      else 1.5;
    temporal + affirmation + answer + numeric + topic
  }

  function ScoreWith(lex: Lexicon): Scorer {
    (current, previous) => Score(lex, current, previous)
  }

  // ---- The best parent ----

  function Gap(ms: seq<Message>, i: int, j: int): int
    requires 0 <= i < |ms| && 0 <= j < |ms|
  {
    ms[i].timestamp - ms[j].timestamp
  }

  function Earliest(i: int): int {
    if i < MAX_LOOKBACK then 0 else i - MAX_LOOKBACK
  }

  /** The messages j that message i may answer: among the last fifteen, at most fifteen minutes old. */
  predicate Candidate(ms: seq<Message>, i: int, j: int)
    requires 0 <= i < |ms|
  {
    0 <= j && i - 15 <= j < i && Gap(ms, i, j) <= 900
  }

  /** `parent` is the nearest of the candidates with the highest score, if that reaches the threshold. */
  ghost predicate BestParent(score: Scorer, ms: seq<Message>, i: int, parent: Option<nat>)
    requires 0 <= i < |ms|
  {
    match parent
    case None =>
      forall k :: Candidate(ms, i, k) ==> score(ms[i], ms[k]) < 2.0
    case Some(j) =>
      && Candidate(ms, i, j)
      && score(ms[i], ms[j]) >= 2.0
      && forall k :: Candidate(ms, i, k) ==>
           && score(ms[i], ms[k]) <= score(ms[i], ms[j])
           && (j < k ==> score(ms[i], ms[k]) < score(ms[i], ms[j]))
  }

  /** The specification leaves no choice. */
  lemma {:induction false} BestParentIsUnique(score: Scorer, ms: seq<Message>, i: int, p: Option<nat>, q: Option<nat>)
    requires 0 <= i < |ms| && BestParent(score, ms, i, p) && BestParent(score, ms, i, q)
    ensures p == q
  {
    if p.Some? && q.Some? {
      assert Candidate(ms, i, p.value) && Candidate(ms, i, q.value);
    }
  }

  /** The search of message i has covered every j with `low <= j < i`. */
  ghost predicate Searched(score: Scorer, ms: seq<Message>, i: nat, low: int, best: Option<nat>, bestScore: real)
    requires i < |ms|
  {
    && 0 <= low
    && bestScore >= 0.0
    && (forall k :: low <= k < i ==> score(ms[i], ms[k]) <= bestScore)
    && match best
       case None => bestScore == 0.0
       case Some(b) =>
         && low <= b < i && bestScore == score(ms[i], ms[b])
         && forall k :: b < k < i ==> score(ms[i], ms[k]) < bestScore
  }

  lemma {:induction false} SearchedIsBest(score: Scorer, ms: seq<Message>, i: nat, low: int,
                                          best: Option<nat>, bestScore: real)
    requires i < |ms| && Searched(score, ms, i, low, best, bestScore)
    requires forall k :: Candidate(ms, i, k) <==> low <= k < i
    ensures BestParent(score, ms, i, if bestScore >= MIN_REPLY_SCORE then best else None)
  {
  }

  /** The backward search with its early exit, over a chronological list. */
  method ChooseParent(score: Scorer, ms: seq<Message>, i: nat) returns (parent: Option<nat>, replyScore: real)
    requires i < |ms| && Chronological(ms)
    ensures BestParent(score, ms, i, parent)
    ensures replyScore == match parent case None => 0.0 case Some(j) => if j < i then score(ms[i], ms[j]) else 0.0
  {
    var bestScore, bestIdx: Option<nat> := 0.0, None;
    var j := i - 1;
    while j >= Earliest(i)
      invariant Earliest(i) - 1 <= j < i
      invariant j + 1 < i ==> ms[i].timestamp - ms[j + 1].timestamp <= MAX_GAP_S
      invariant Searched(score, ms, i, j + 1, bestIdx, bestScore)
    {
      var gap := ms[i].timestamp - ms[j].timestamp;
      if gap > MAX_GAP_S {
        break;
      }
      var s := score(ms[i], ms[j]);
      if s > bestScore {
        bestScore, bestIdx := s, Some(j);
      }
      j := j - 1;
    }
    SearchedIsBest(score, ms, i, j + 1, bestIdx, bestScore);
    parent, replyScore := None, 0.0;
    if bestScore >= MIN_REPLY_SCORE {
      parent, replyScore := bestIdx, bestScore;
    }
  }

  /** Which messages within the gap the shipped weights let a message answer. */
  ghost predicate MayAnswer(lex: Lexicon, current: Message, previous: Message) {
    var gap := current.timestamp - previous.timestamp;
    var shared := exists word :: word in lex.keywords(current.body) && word in lex.keywords(previous.body);
    if SenderKey(current) == SenderKey(previous) then gap <= 120
    else
      || gap <= 60
      || lex.isAffirmation(current.body) || shared
      || (gap <= 300 && (|| (lex.isQuestion(previous.body) && !lex.isQuestion(current.body))
                         || (lex.hasNumber(current.body) && lex.hasNumber(previous.body))))
  }

  /**
   A score reaches the threshold exactly so: one's own message within two minutes;
   another's within a minute, or within a quarter of an hour if it is affirmed or
   shares a keyword, or within five minutes if it is a question that gets no
   question back or both name numbers.
   */
  lemma {:induction false} ThresholdMeans(lex: Lexicon, current: Message, previous: Message)
    requires current.timestamp - previous.timestamp <= 900
    ensures Score(lex, current, previous) >= MIN_REPLY_SCORE <==> MayAnswer(lex, current, previous)
  {
    var shared := lex.keywords(current.body) * lex.keywords(previous.body);
    if shared != {} {
      var word :| word in shared;
    }
    if word :| word in lex.keywords(current.body) && word in lex.keywords(previous.body) {
      assert word in shared;
    }
  }

  /** A message that follows the one before it within a minute always answers something. */
  lemma {:induction false} QuickRepliesAreNotRoots(lex: Lexicon, ms: seq<Message>, i: int, parent: Option<nat>)
    requires 0 < i < |ms| && Gap(ms, i, i - 1) <= 60 && BestParent(ScoreWith(lex), ms, i, parent)
    ensures parent != None
  {
    assert Candidate(ms, i, i - 1);
    assert ScoreWith(lex)(ms[i], ms[i - 1]) >= 2.0;
  }

  // ---- The reply forest ----

  type Forest = up: seq<Option<nat>> | forall i :: 0 <= i < |up| && up[i].Some? ==> up[i].value < i

  function Root(up: Forest, i: nat): (root: nat)
    requires i < |up|
    ensures root <= i && up[root] == None
  {
    match up[i]
    case None => i
    case Some(parent) => Root(up, parent)
  }

  function CountRoots(up: Forest, n: nat): nat
    requires n <= |up|
  {
    if n == 0 then 0 else CountRoots(up, n - 1) + if up[n - 1] == None then 1 else 0
  }

  /** How many roots come before the root of i. */
  function Rank(up: Forest, i: nat): nat
    requires i < |up|
  {
    CountRoots(up, Root(up, i))
  }

  lemma {:induction false} CountRootsMonotone(up: Forest, m: nat, n: nat)
    requires m <= n <= |up|
    ensures CountRoots(up, m) <= CountRoots(up, n)
    ensures m < n && up[m] == None ==> CountRoots(up, m) < CountRoots(up, n)
  {
    if m < n {
      CountRootsMonotone(up, m, n - 1);
    }
  }

  /** Two messages have the same rank exactly when they have the same root. */
  lemma {:induction false} SameRankSameRoot(up: Forest, i: nat, j: nat)
    requires i < |up| && j < |up|
    ensures Rank(up, i) == Rank(up, j) <==> Root(up, i) == Root(up, j)
    ensures Root(up, i) < Root(up, j) ==> Rank(up, i) < Rank(up, j)
  {
    var r, s := Root(up, i), Root(up, j);
    if r < s {
      CountRootsMonotone(up, r, s);
    } else {
      CountRootsMonotone(up, s, r);
    }
  }

  function ChildrenUpTo(up: Forest, parent: nat, n: nat): seq<nat>
    requires n <= |up|
  {
    if n == 0 then []
    else if up[n - 1] == Some(parent) then ChildrenUpTo(up, parent, n - 1) + [n - 1]
    else ChildrenUpTo(up, parent, n - 1)
  }

  function RootsUpTo(up: Forest, n: nat): seq<nat>
    requires n <= |up|
  {
    if n == 0 then []
    else if up[n - 1] == None then RootsUpTo(up, n - 1) + [n - 1]
    else RootsUpTo(up, n - 1)
  }

  lemma {:induction false} ChildrenMembers(up: Forest, parent: nat, n: nat)
    requires n <= |up|
    ensures forall c: nat :: c in ChildrenUpTo(up, parent, n) <==> c < n && up[c] == Some(parent)
    ensures Distinct(ChildrenUpTo(up, parent, n))
  {
    if n > 0 {
      ChildrenMembers(up, parent, n - 1);
    }
  }

  lemma {:induction false} RootsRanked(up: Forest, n: nat)
    requires n <= |up|
    ensures |RootsUpTo(up, n)| == CountRoots(up, n)
    ensures forall k :: 0 <= k < |RootsUpTo(up, n)| ==>
      RootsUpTo(up, n)[k] < n && up[RootsUpTo(up, n)[k]] == None && CountRoots(up, RootsUpTo(up, n)[k]) == k
  {
    if n > 0 {
      RootsRanked(up, n - 1);
    }
  }

  // ---- Breadth-first labelling ----

  /** In the middle of tree number k: earlier trees are visited, the queue is the border of what is visited. */
  ghost predicate Frontier(up: Forest, k: nat, visited: set<nat>, queue: seq<nat>) {
    && (forall i :: i in visited ==> i < |up| && Rank(up, i) <= k)
    && (forall i: nat :: i < |up| && Rank(up, i) < k ==> i in visited)
    && (forall i :: i in queue ==> i < |up| && Rank(up, i) == k && i !in visited)
    && Distinct(queue)
    && (forall i: nat :: i < |up| && Rank(up, i) == k ==>
          (i in visited || i in queue <==> up[i] == None || up[i].value in visited))
  }

  ghost predicate VisitedBelow(up: Forest, k: nat, visited: set<nat>) {
    forall i: nat :: i in visited <==> i < |up| && Rank(up, i) < k
  }

  lemma {:induction false} FrontierStart(up: Forest, k: nat, visited: set<nat>, root: nat)
    requires root < |up| && up[root] == None && CountRoots(up, root) == k && VisitedBelow(up, k, visited)
    ensures root !in visited && Frontier(up, k, visited, [root])
  {
    assert Rank(up, root) == k;
    forall i: nat | i < |up| && Rank(up, i) == k
      ensures i in visited || i in [root] <==> up[i] == None || up[i].value in visited
    {
      SameRankSameRoot(up, i, root);
      if up[i].Some? {
        assert Rank(up, up[i].value) == k;
      }
    }
  }

  /** The popped message was never visited before; its children join the queue. */
  lemma {:induction false} FrontierStep(up: Forest, k: nat, visited: set<nat>, queue: seq<nat>)
    requires queue != [] && Frontier(up, k, visited, queue)
    ensures queue[0] < |up| && queue[0] !in visited && Rank(up, queue[0]) == k
    ensures Frontier(up, k, visited + {queue[0]}, queue[1..] + ChildrenUpTo(up, queue[0], |up|))
  {
    var idx, children := queue[0], ChildrenUpTo(up, queue[0], |up|);
    ChildrenMembers(up, idx, |up|);
    assert forall c :: c in children ==> Rank(up, c) == Rank(up, idx);
    assert forall c :: c in queue <==> c == idx || c in queue[1..];
    forall c | c in children
      ensures c !in queue[1..] && c !in visited
    {
      assert up[c] == Some(idx);
    }
    assert Distinct(queue[1..]);
    DistinctConcat(queue[1..], children);
  }

  lemma {:induction false} FrontierEmpty(up: Forest, k: nat, visited: set<nat>)
    requires Frontier(up, k, visited, [])
    ensures VisitedBelow(up, k + 1, visited)
  {
    forall i: nat | i < |up| && Rank(up, i) == k
      ensures i in visited
    {
      FrontierReaches(up, k, visited, i);
    }
  }

  lemma {:induction false} FrontierReaches(up: Forest, k: nat, visited: set<nat>, i: nat)
    requires Frontier(up, k, visited, []) && i < |up| && Rank(up, i) == k
    ensures i in visited
  {
    if up[i].Some? {
      FrontierReaches(up, k, visited, up[i].value);
    }
  }


  function InThread(m: ThreadedMessage, threadId: nat): ThreadedMessage {
    m.(threadId := Some(threadId))
  }

  ghost predicate ParentsFirst(messages: seq<ThreadedMessage>) {
    forall i :: 0 <= i < |messages| && messages[i].parentIdx.Some? ==> messages[i].parentIdx.value < i
  }

  ghost function ParentsOf(messages: seq<ThreadedMessage>): (up: Forest)
    requires ParentsFirst(messages)
  {
    var up := seq(|messages|, i requires 0 <= i < |messages| => messages[i].parentIdx);
    up
  }

  /** A list of messages as the scoring loop leaves it: numbered, parents first, no thread ids yet. */
  ghost predicate Linked(messages: seq<ThreadedMessage>) {
    && ParentsFirst(messages)
    && forall i :: 0 <= i < |messages| ==> messages[i].idx == i && messages[i].threadId == None
  }

  /** The messages with a thread id for exactly those that were visited. */
  ghost predicate Labelled(up: Forest, before: seq<ThreadedMessage>, now: seq<ThreadedMessage>, visited: set<nat>) {
    && |now| == |before| == |up|
    && forall i: nat :: i < |up| ==>
         now[i] == if i in visited then InThread(before[i], Rank(up, i) + 1) else before[i]
  }

  lemma {:induction false} LabelOne(up: Forest, before: seq<ThreadedMessage>, now: seq<ThreadedMessage>,
                                    visited: set<nat>, i: nat, threadId: nat, after: seq<ThreadedMessage>)
    requires Labelled(up, before, now, visited) && i < |up| && i !in visited && threadId == Rank(up, i) + 1
    requires after == now[i := InThread(now[i], threadId)]
    ensures Labelled(up, before, after, visited + {i})
  {
  }

  /** The numbers below n. */
  ghost function Below(n: nat): (numbers: set<nat>)
    ensures forall i: nat :: i in numbers <==> i < n
  {
    if n == 0 then {} else Below(n - 1) + {n - 1}
  }

  /** `children.get(parent, [])` */
  function Lookup(children: map<nat, seq<nat>>, parent: nat): seq<nat> {
    if parent in children then children[parent] else []
  }

  method ChildrenLookup(messages: array<ThreadedMessage>, ghost up: Forest) returns (children: map<nat, seq<nat>>)
    requires Linked(messages[..]) && up == ParentsOf(messages[..])
    ensures forall p: nat :: Lookup(children, p) == ChildrenUpTo(up, p, messages.Length)
  {
    children := map[];
    for i := 0 to messages.Length
      invariant forall p: nat :: Lookup(children, p) == ChildrenUpTo(up, p, i)
    {
      var m := messages[i];
      assert m == messages[..][i];
      if m.parentIdx.Some? {
        var p := m.parentIdx.value;
        children := children[p := Lookup(children, p) + [m.idx]];
      }
    }
  }

  method FindRoots(messages: array<ThreadedMessage>, ghost up: Forest) returns (roots: seq<nat>)
    requires Linked(messages[..]) && up == ParentsOf(messages[..])
    ensures roots == RootsUpTo(up, messages.Length)
  {
    roots := [];
    for i := 0 to messages.Length
      invariant roots == RootsUpTo(up, i)
    {
      var m := messages[i];
      assert m == messages[..][i];
      if m.parentIdx == None {
        roots := roots + [m.idx];
      }
    }
  }

  method SetThread(messages: array<ThreadedMessage>, idx: nat, threadId: nat)
    requires idx < messages.Length
    modifies messages
    ensures messages[..] == old(messages[..])[idx := InThread(old(messages[..])[idx], threadId)]
  {
    messages[idx] := InThread(messages[idx], threadId);
  }

  /**
   Breadth-first search from one root.  A popped message is never one that was
   visited before, so the source's test for that is an assertion here.
   */
  method LabelThread(messages: array<ThreadedMessage>, children: map<nat, seq<nat>>, root: nat, k: nat,
                     visited0: set<nat>, ghost before: seq<ThreadedMessage>, ghost up: Forest)
      returns (visited: set<nat>)
    requires root < |up| && up[root] == None && CountRoots(up, root) == k && VisitedBelow(up, k, visited0)
    requires forall p: nat :: Lookup(children, p) == ChildrenUpTo(up, p, |up|)
    requires Labelled(up, before, messages[..], visited0)
    modifies messages
    ensures VisitedBelow(up, k + 1, visited) && Labelled(up, before, messages[..], visited)
  {
    FrontierStart(up, k, visited0, root);
    visited := visited0;
    var queue := [root];
    while queue != []
      invariant Frontier(up, k, visited, queue)
      invariant Labelled(up, before, messages[..], visited)
      decreases Below(|up|) - visited
    {
      var idx := queue[0];
      FrontierStep(up, k, visited, queue);
      assert idx in Below(|up|) - visited;
      queue := queue[1..] + Lookup(children, idx);
      ghost var now := messages[..];
      SetThread(messages, idx, k + 1);
      LabelOne(up, before, now, visited, idx, k + 1, messages[..]);
      visited := visited + {idx};
    }
    FrontierEmpty(up, k, visited);
  }

  /** The same messages, each with the number of its tree. */
  ghost predicate Numbered(before: seq<ThreadedMessage>, now: seq<ThreadedMessage>)
    requires ParentsFirst(before)
  {
    && |now| == |before|
    && forall i: nat :: i < |before| ==> now[i] == InThread(before[i], Rank(ParentsOf(before), i) + 1)
  }

  /** Every message gets the number of its tree; no message is left over for the source's last loop. */
  method AssignThreadIds(messages: array<ThreadedMessage>)
    requires Linked(messages[..])
    modifies messages
    ensures Linked(old(messages[..]))
    ensures Numbered(old(messages[..]), messages[..])
  {
    ghost var before := messages[..];
    ghost var up: Forest := ParentsOf(before);
    var children := ChildrenLookup(messages, up);
    var roots := FindRoots(messages, up);
    RootsRanked(up, |up|);
    var visited: set<nat> := {};
    for k := 0 to |roots|
      invariant VisitedBelow(up, k, visited) && Labelled(up, before, messages[..], visited)
    {
      visited := LabelThread(messages, children, roots[k], k, visited, before, up);
    }
    forall i: nat | i < |up|
      ensures messages[i] == InThread(before[i], Rank(up, i) + 1)
    {
      CountRootsMonotone(up, Root(up, i), |up|);
      assert i in visited;
      assert messages[..][i] == messages[i];
    }
  }

  // ---- Threads are the connected components ----

  ghost predicate Adjacent(up: Forest, i: nat, j: nat)
    requires i < |up| && j < |up|
  {
    up[i] == Some(j) || up[j] == Some(i)
  }

  /** A walk from i to j along parent links, in either direction. */
  ghost predicate Walk(up: Forest, path: seq<nat>, i: nat, j: nat) {
    && path != [] && path[0] == i && path[|path| - 1] == j
    && (forall k :: 0 <= k < |path| ==> path[k] < |up|)
    && forall k :: 0 <= k < |path| - 1 ==> Adjacent(up, path[k], path[k + 1])
  }

  ghost predicate Connected(up: Forest, i: nat, j: nat) {
    exists path :: Walk(up, path, i, j)
  }

  lemma {:induction false} WalkKeepsRoot(up: Forest, path: seq<nat>, i: nat, j: nat)
    requires Walk(up, path, i, j)
    ensures i < |up| && j < |up| && Root(up, i) == Root(up, j)
    decreases |path|
  {
    if |path| > 1 {
      assert Adjacent(up, path[0], path[1]);
      WalkKeepsRoot(up, path[1..], path[1], j);
    }
  }

  lemma {:induction false} WalkToRoot(up: Forest, i: nat) returns (path: seq<nat>)
    requires i < |up|
    ensures Walk(up, path, i, Root(up, i))
  {
    match up[i]
    case None =>
      path := [i];
    case Some(parent) =>
      var rest := WalkToRoot(up, parent);
      path := [i] + rest;
  }

  lemma {:induction false} WalkBack(up: Forest, path: seq<nat>, i: nat, j: nat) returns (back: seq<nat>)
    requires Walk(up, path, i, j)
    ensures Walk(up, back, j, i)
    decreases |path|
  {
    if |path| == 1 {
      back := path;
    } else {
      var rest := WalkBack(up, path[1..], path[1], j);
      assert Adjacent(up, path[0], path[1]);
      back := rest + [i];
    }
  }

  lemma {:induction false} WalkJoin(up: Forest, first: seq<nat>, second: seq<nat>, i: nat, j: nat, k: nat)
    requires Walk(up, first, i, j) && Walk(up, second, j, k)
    ensures Walk(up, first + second[1..], i, k)
  {
    var path := first + second[1..];
    forall m | 0 <= m < |path| - 1
      ensures Adjacent(up, path[m], path[m + 1])
    {
      if m >= |first| - 1 {
        assert path[m] == second[m - (|first| - 1)];
        assert path[m + 1] == second[m - (|first| - 1) + 1];
      }
    }
  }

  /** Two messages are in the same thread exactly when parent links connect them. */
  lemma {:induction false} ThreadsAreComponents(up: Forest, i: nat, j: nat)
    requires i < |up| && j < |up|
    ensures Rank(up, i) == Rank(up, j) <==> Connected(up, i, j)
  {
    SameRankSameRoot(up, i, j);
    if Root(up, i) == Root(up, j) {
      var there := WalkToRoot(up, i);
      var down := WalkToRoot(up, j);
      var back := WalkBack(up, down, j, Root(up, j));
      WalkJoin(up, there, back, i, Root(up, i), j);
    }
    if Connected(up, i, j) {
      var path :| Walk(up, path, i, j);
      WalkKeepsRoot(up, path, i, j);
    }
  }

  /** Everyone from position cut on has a root there, if a silence beyond the limit comes before it. */
  lemma {:induction false} SilenceKeepsRoots(score: Scorer, ms: seq<Message>, up: Forest, cut: nat, i: nat)
    requires Chronological(ms) && |up| == |ms| && forall k: nat :: k < |ms| ==> BestParent(score, ms, k, up[k])
    requires 0 < cut <= i < |ms| && Gap(ms, cut, cut - 1) > MAX_GAP_S
    ensures cut <= Root(up, i)
    decreases i
  {
    if up[i].Some? {
      var parent := up[i].value;
      assert Candidate(ms, i, parent);
      assert ms[cut].timestamp <= ms[i].timestamp;
      var before := if parent < cut then parent else cut - 1;
      assert ms[before].timestamp <= ms[cut - 1].timestamp;
      SilenceKeepsRoots(score, ms, up, cut, parent);
    }
  }

  /** A silence of more than a quarter of an hour ends every conversation: no thread reaches across it. */
  lemma {:induction false} SilenceSeparates(score: Scorer, ms: seq<Message>, up: Forest, cut: nat, i: nat, j: nat)
    requires Chronological(ms) && |up| == |ms| && forall k: nat :: k < |ms| ==> BestParent(score, ms, k, up[k])
    requires 0 < cut < |ms| && Gap(ms, cut, cut - 1) > MAX_GAP_S
    requires i < cut <= j < |ms|
    ensures !Connected(up, i, j)
  {
    SilenceKeepsRoots(score, ms, up, cut, j);
    if path :| Walk(up, path, i, j) {
      WalkKeepsRoot(up, path, i, j);
    }
  }

  /** The ids in use are 1 up to the number of roots; the k-th root starts thread k + 1. */
  lemma {:induction false} ThreadIdsAreDense(up: Forest)
    ensures forall i: nat :: i < |up| ==> Rank(up, i) < CountRoots(up, |up|)
    ensures |RootsUpTo(up, |up|)| == CountRoots(up, |up|)
    ensures forall k :: 0 <= k < |RootsUpTo(up, |up|)| ==>
      var root := RootsUpTo(up, |up|)[k]; root < |up| && up[root] == None && Rank(up, root) == k
  {
    forall i: nat | i < |up|
      ensures Rank(up, i) < CountRoots(up, |up|)
    {
      CountRootsMonotone(up, Root(up, i), |up|);
    }
    RootsRanked(up, |up|);
  }

  // ---- The whole construction ----

  /** The scored form of message i, before it has a thread. */
  ghost predicate Scored(score: Scorer, ms: seq<Message>, i: nat, t: ThreadedMessage)
    requires i < |ms|
  {
    && t.idx == i && t.messageId == ms[i].id && t.sender == SenderKey(ms[i])
    && t.body == ms[i].body && t.timestamp == ms[i].timestamp
    && BestParent(score, ms, i, t.parentIdx)
    && t.replyScore == (match t.parentIdx case None => 0.0 case Some(j) => if j < i then score(ms[i], ms[j]) else 0.0)
  }

  method ScoreMessages(score: Scorer, ms: seq<Message>) returns (threaded: seq<ThreadedMessage>)
    requires Chronological(ms)
    ensures |threaded| == |ms| && Linked(threaded)
    ensures forall i :: 0 <= i < |ms| ==> Scored(score, ms, i, threaded[i])
  {
    threaded := [];
    for i := 0 to |ms|
      invariant |threaded| == i && Linked(threaded)
      invariant forall k :: 0 <= k < i ==> Scored(score, ms, k, threaded[k])
    {
      var parent, replyScore := ChooseParent(score, ms, i);
      var tm := ThreadedMessage(i, ms[i].id, SenderKey(ms[i]), ms[i].body, ms[i].timestamp, parent, replyScore, None);
      threaded := threaded + [tm];
    }
  }

  lemma {:induction false} NumberedIsThreaded(score: Scorer, ms: seq<Message>,
                                              scored: seq<ThreadedMessage>, threaded: seq<ThreadedMessage>)
    requires |scored| == |ms| && ParentsFirst(scored) && Numbered(scored, threaded)
    requires forall i :: 0 <= i < |ms| ==> Scored(score, ms, i, scored[i])
    ensures ParentsFirst(threaded) && ParentsOf(threaded) == ParentsOf(scored)
    ensures NumberedByRoot(ParentsOf(scored), threaded)
    ensures forall i :: 0 <= i < |ms| ==> Scored(score, ms, i, threaded[i])
  {
    assert forall i: nat :: i < |ms| ==> threaded[i].parentIdx == scored[i].parentIdx;
    assert ParentsOf(threaded) == ParentsOf(scored);
  }

  ghost predicate NumberedByRoot(up: Forest, threaded: seq<ThreadedMessage>) {
    |threaded| == |up| && forall i: nat :: i < |up| ==> threaded[i].threadId == Some(Rank(up, i) + 1)
  }

  /** Two messages share a thread exactly when parent links connect them; threads are numbered by their roots. */
  ghost predicate ThreadsAreConversations(up: Forest, threaded: seq<ThreadedMessage>) {
    && NumberedByRoot(up, threaded)
    && forall i: nat, j: nat :: i < |up| && j < |up| ==>
         (threaded[i].threadId == threaded[j].threadId <==> Connected(up, i, j))
  }

  lemma {:induction false} NumberedConversations(up: Forest, threaded: seq<ThreadedMessage>)
    requires NumberedByRoot(up, threaded)
    ensures ThreadsAreConversations(up, threaded)
  {
    forall i: nat, j: nat | i < |up| && j < |up|
      ensures threaded[i].threadId == threaded[j].threadId <==> Connected(up, i, j)
    {
      ThreadsAreComponents(up, i, j);
    }
  }

  /** Every message has its best parent, and the threads are the components of the parent links. */
  method BuildReplyTree(score: Scorer, ms: seq<Message>) returns (threaded: seq<ThreadedMessage>)
    requires Chronological(ms)
    ensures |threaded| == |ms| && ParentsFirst(threaded) && ThreadsAreConversations(ParentsOf(threaded), threaded)
    ensures forall i :: 0 <= i < |ms| ==> Scored(score, ms, i, threaded[i])
  {
    var scored := ScoreMessages(score, ms);
    var list := new ThreadedMessage[|scored|](i requires 0 <= i < |scored| => scored[i]);
    assert list[..] == scored;
    AssignThreadIds(list);
    threaded := list[..];
    NumberedIsThreaded(score, ms, scored, threaded);
    NumberedConversations(ParentsOf(scored), threaded);
  }
}
