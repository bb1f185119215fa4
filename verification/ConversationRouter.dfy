/**
 The conversation router of the shared groups: one buffer for each group, cut
 where the group is silent for long.  The dictionary of buffers is a sequence
 with distinct groups, in insertion order.  `stamp` is the message's timestamp,
 or the clock when it has none.
 */
module ConversationRouter {
  import opened Messages
  import opened Ordering

  datatype GroupBuffer = GroupBuffer(groupId: string, messages: seq<Message>, lastMsgTs: int)

  ghost predicate DistinctGroups(buffers: seq<GroupBuffer>) {
    forall i, j :: 0 <= i < j < |buffers| ==> buffers[i].groupId != buffers[j].groupId
  }

  /** The position of the group among the first n, or the length. */
  function Find(buffers: seq<GroupBuffer>, group: string, n: nat): (i: nat)
    requires n <= |buffers|
    ensures i <= |buffers| && (i < |buffers| ==> i < n && buffers[i].groupId == group)
    ensures i == |buffers| ==> forall k :: 0 <= k < n ==> buffers[k].groupId != group
  {
    if n == 0 then |buffers|
    else if buffers[n - 1].groupId == group then n - 1
    else Find(buffers, group, n - 1)
  }

  function IndexOf(buffers: seq<GroupBuffer>, group: string): nat {
    Find(buffers, group, |buffers|)
  }

  predicate Silent(buf: GroupBuffer, now: int, gap: int) {
    buf.messages != [] && now - buf.lastMsgTs > gap
  }

  function FlushedByFeed(buffers: seq<GroupBuffer>, m: Message, stamp: int, gap: int): seq<GroupBuffer> {
    var i := IndexOf(buffers, m.groupId);
    if i < |buffers| && Silent(buffers[i], stamp, gap) then [buffers[i]] else []
  }

  /** A flushed buffer is replaced where it was. */
  function AfterFeed(buffers: seq<GroupBuffer>, m: Message, stamp: int, gap: int): seq<GroupBuffer> {
    var i := IndexOf(buffers, m.groupId);
    if i == |buffers| then buffers + [GroupBuffer(m.groupId, [m], stamp)]
    else if Silent(buffers[i], stamp, gap) then buffers[i := GroupBuffer(m.groupId, [m], stamp)]
    else buffers[i := GroupBuffer(m.groupId, buffers[i].messages + [m], stamp)]
  }

  function SilentOnes(now: int, gap: int): GroupBuffer -> bool {
    (buf: GroupBuffer) => Silent(buf, now, gap)
  }

  function OtherOnes(now: int, gap: int): GroupBuffer -> bool {
    (buf: GroupBuffer) => !Silent(buf, now, gap)
  }

  function NonEmpty(): GroupBuffer -> bool {
    (buf: GroupBuffer) => buf.messages != []
  }

  class Router {
    const gap: int
    var buffers: seq<GroupBuffer>

    ghost predicate Valid()
      reads this
    {
      DistinctGroups(buffers)
    }

    constructor (gap: int)
      ensures Valid() && this.gap == gap && buffers == []
    {
      this.gap, buffers := gap, [];
    }

    method IndexFor(group: string) returns (i: nat)
      requires Valid()
      ensures i == IndexOf(buffers, group)
    {
      i := 0;
      while i < |buffers|
        invariant i <= |buffers|
        invariant forall k :: 0 <= k < i ==> buffers[k].groupId != group
      {
        if buffers[i].groupId == group {
          return;
        }
        i := i + 1;
      }
    }

    /** At most one segment goes: the group's own buffer. */
    method Feed(m: Message, stamp: int) returns (flushed: seq<GroupBuffer>)
      requires Valid()
      modifies this
      ensures Valid()
      ensures flushed == FlushedByFeed(old(buffers), m, stamp, gap)
      ensures buffers == AfterFeed(old(buffers), m, stamp, gap)
    {
      flushed := [];
      var i := IndexFor(m.groupId);
      if i < |buffers| {
        if stamp - buffers[i].lastMsgTs > gap && buffers[i].messages != [] {
          flushed := [buffers[i]];
          buffers := buffers[i := GroupBuffer(m.groupId, [], 0)];
        }
      } else {
        buffers := buffers + [GroupBuffer(m.groupId, [], 0)];
      }
      assert [] + [m] == [m];
      buffers := buffers[i := GroupBuffer(m.groupId, buffers[i].messages + [m], stamp)];
      assert i == |old(buffers)| ==> buffers == old(buffers) + [GroupBuffer(m.groupId, [m], stamp)];
    }

    /** `now` has been resolved against the clock. */
    method FlushStale(now: int) returns (flushed: seq<GroupBuffer>)
      requires Valid()
      modifies this
      ensures Valid()
      ensures flushed == Filter(SilentOnes(now, gap), old(buffers)) && buffers == Filter(OtherOnes(now, gap), old(buffers))
    {
      var all, kept := buffers, [];
      flushed := [];
      for i := 0 to |all|
        invariant flushed == Filter(SilentOnes(now, gap), all[..i])
        invariant kept == Filter(OtherOnes(now, gap), all[..i])
      {
        assert all[..i + 1] == all[..i] + [all[i]];
        FilterAppend(SilentOnes(now, gap), all[..i], all[i]);
        FilterAppend(OtherOnes(now, gap), all[..i], all[i]);
        if all[i].messages != [] && now - all[i].lastMsgTs > gap {
          flushed := flushed + [all[i]];
        } else {
          kept := kept + [all[i]];
        }
      }
      assert all[..|all|] == all;
      FilterGroups(OtherOnes(now, gap), all);
      buffers := kept;
    }

    method FlushAll() returns (flushed: seq<GroupBuffer>)
      requires Valid()
      modifies this
      ensures Valid() && flushed == Filter(NonEmpty(), old(buffers)) && buffers == []
    {
      flushed := [];
      for i := 0 to |buffers|
        invariant buffers == old(buffers) && flushed == Filter(NonEmpty(), buffers[..i])
      {
        assert buffers[..i + 1] == buffers[..i] + [buffers[i]];
        FilterAppend(NonEmpty(), buffers[..i], buffers[i]);
        if buffers[i].messages != [] {
          flushed := flushed + [buffers[i]];
        }
      }
      assert buffers[..|buffers|] == buffers;
      buffers := [];
    }
  }

  lemma {:induction false} FilterGroups(keep: GroupBuffer -> bool, buffers: seq<GroupBuffer>)
    requires DistinctGroups(buffers)
    ensures DistinctGroups(Filter(keep, buffers))
  {
    if buffers != [] {
      var n := |buffers| - 1;
      FilterGroups(keep, buffers[..n]);
      FilterMembers(keep, buffers[..n]);
      var rest := Filter(keep, buffers[..n]);
      forall i | 0 <= i < |rest|
        ensures rest[i].groupId != buffers[n].groupId
      {
        assert rest[i] in buffers[..n];
      }
    }
  }

  // ---- What holds for any sequence of calls ----

  datatype Op = Feed(m: Message, stamp: int) | FlushStale(now: int) | FlushAll

  /** The live buffers, and the segments flushed so far. */
  datatype State = State(live: seq<GroupBuffer>, out: seq<GroupBuffer>)

  function Step(gap: int, s: State, op: Op): State {
    match op
    case Feed(m, stamp) => State(AfterFeed(s.live, m, stamp, gap), s.out + FlushedByFeed(s.live, m, stamp, gap))
    case FlushStale(now) => State(Filter(OtherOnes(now, gap), s.live), s.out + Filter(SilentOnes(now, gap), s.live))
    case FlushAll => State([], s.out + Filter(NonEmpty(), s.live))
  }

  function Run(gap: int, ops: seq<Op>, n: nat): State
    requires n <= |ops|
  {
    if n == 0 then State([], []) else Step(gap, Run(gap, ops, n - 1), ops[n - 1])
  }

  /** The messages that the first n segments hold for a group. */
  function Held(buffers: seq<GroupBuffer>, n: nat, group: string): seq<Message>
    requires n <= |buffers|
  {
    if n == 0 then []
    else if buffers[n - 1].groupId == group then Held(buffers, n - 1, group) + buffers[n - 1].messages
    else Held(buffers, n - 1, group)
  }

  /** The messages that the first n calls fed to a group. */
  function Fed(ops: seq<Op>, n: nat, group: string): seq<Message>
    requires n <= |ops|
  {
    if n == 0 then []
    else if ops[n - 1].Feed? && ops[n - 1].m.groupId == group then Fed(ops, n - 1, group) + [ops[n - 1].m]
    else Fed(ops, n - 1, group)
  }

  /** Between two neighbours of a segment the group is never silent for longer than the gap. */
  ghost predicate Unbroken(buf: GroupBuffer, gap: int) {
    && buf.messages != [] && buf.lastMsgTs == buf.messages[|buf.messages| - 1].timestamp
    && forall i :: 0 <= i < |buf.messages| - 1 ==> buf.messages[i + 1].timestamp - buf.messages[i].timestamp <= gap
  }

  /** Live buffers are distinct and never empty, and hold messages of their group alone. */
  ghost predicate Sound(buf: GroupBuffer) {
    buf.messages != [] && forall i :: 0 <= i < |buf.messages| ==> buf.messages[i].groupId == buf.groupId
  }

  ghost predicate AllSound(s: State) {
    && DistinctGroups(s.live)
    && (forall i :: 0 <= i < |s.live| ==> Sound(s.live[i]))
    && forall i :: 0 <= i < |s.out| ==> Sound(s.out[i])
  }

  lemma {:induction false} FilterOf(keep: GroupBuffer -> bool, buffers: seq<GroupBuffer>)
    ensures forall i :: 0 <= i < |Filter(keep, buffers)| ==> Filter(keep, buffers)[i] in buffers
  {
    FilterMembers(keep, buffers);
  }

  lemma {:induction false} StepSound(gap: int, s: State, op: Op)
    requires AllSound(s)
    ensures AllSound(Step(gap, s, op))
  {
    match op
    case Feed(_, _) =>
    case FlushStale(now) =>
      FilterGroups(OtherOnes(now, gap), s.live);
      FilterOf(OtherOnes(now, gap), s.live);
      FilterOf(SilentOnes(now, gap), s.live);
    case FlushAll =>
      FilterOf(NonEmpty(), s.live);
  }

  /** Segments never mix groups and are never empty. */
  lemma {:induction false} SegmentsSound(gap: int, ops: seq<Op>, n: nat)
    requires n <= |ops|
    ensures AllSound(Run(gap, ops, n))
  {
    if n > 0 {
      SegmentsSound(gap, ops, n - 1);
      StepSound(gap, Run(gap, ops, n - 1), ops[n - 1]);
    }
  }

  ghost predicate AllUnbroken(s: State, gap: int) {
    && (forall i :: 0 <= i < |s.live| ==> Unbroken(s.live[i], gap))
    && forall i :: 0 <= i < |s.out| ==> Unbroken(s.out[i], gap)
  }

  lemma {:induction false} StepUnbroken(gap: int, s: State, op: Op)
    requires AllUnbroken(s, gap) && (op.Feed? ==> op.stamp == op.m.timestamp)
    ensures AllUnbroken(Step(gap, s, op), gap)
  {
    match op
    case Feed(m, stamp) =>
    case FlushStale(now) =>
      FilterOf(OtherOnes(now, gap), s.live);
      FilterOf(SilentOnes(now, gap), s.live);
    case FlushAll =>
      FilterOf(NonEmpty(), s.live);
  }

  /** No silence inside a segment is longer than the gap, if the messages carry their timestamps. */
  lemma {:induction false} SegmentsUnbroken(gap: int, ops: seq<Op>, n: nat)
    requires n <= |ops| && forall i :: 0 <= i < n && ops[i].Feed? ==> ops[i].stamp == ops[i].m.timestamp
    ensures AllUnbroken(Run(gap, ops, n), gap)
  {
    if n > 0 {
      SegmentsUnbroken(gap, ops, n - 1);
      StepUnbroken(gap, Run(gap, ops, n - 1), ops[n - 1]);
    }
  }

  // ---- Nothing is lost, doubled or reordered ----

  lemma {:induction false} HeldFrame(a: seq<GroupBuffer>, b: seq<GroupBuffer>, n: nat, group: string)
    requires n <= |a| && n <= |b| && forall i :: 0 <= i < n ==> a[i] == b[i]
    ensures Held(a, n, group) == Held(b, n, group)
  {
    if n > 0 {
      HeldFrame(a, b, n - 1, group);
    }
  }

  lemma {:induction false} HeldNone(buffers: seq<GroupBuffer>, n: nat, group: string)
    requires n <= |buffers| && forall i :: 0 <= i < n ==> buffers[i].groupId != group
    ensures Held(buffers, n, group) == []
  {
    if n > 0 {
      HeldNone(buffers, n - 1, group);
    }
  }

  /** With distinct groups one buffer holds all that there is for a group. */
  lemma {:induction false} HeldAt(buffers: seq<GroupBuffer>, n: nat, i: nat)
    requires i < n <= |buffers| && DistinctGroups(buffers)
    ensures Held(buffers, n, buffers[i].groupId) == buffers[i].messages
  {
    if i == n - 1 {
      HeldNone(buffers, n - 1, buffers[i].groupId);
    } else {
      HeldAt(buffers, n - 1, i);
    }
  }

  lemma {:induction false} HeldConcat(a: seq<GroupBuffer>, b: seq<GroupBuffer>, n: nat, group: string)
    requires n <= |b|
    ensures Held(a + b, |a| + n, group) == Held(a, |a|, group) + Held(b, n, group)
  {
    if n == 0 {
      HeldFrame(a + b, a, |a|, group);
    } else {
      HeldConcat(a, b, n - 1, group);
    }
  }

  /** What the flushed segments and the live buffer hold for a group. */
  function Total(s: State, group: string): seq<Message> {
    Held(s.out, |s.out|, group) + Held(s.live, |s.live|, group)
  }

  /** Moving buffers of a group out keeps the total. */
  lemma {:induction false} MoveOut(s: State, flushed: seq<GroupBuffer>, live: seq<GroupBuffer>, more: seq<Message>,
                                   group: string)
    requires Held(flushed, |flushed|, group) + Held(live, |live|, group) == Held(s.live, |s.live|, group) + more
    ensures Total(State(live, s.out + flushed), group) == Total(s, group) + more
  {
    HeldConcat(s.out, flushed, |flushed|, group);
    var out, gone, rest := Held(s.out, |s.out|, group), Held(flushed, |flushed|, group), Held(live, |live|, group);
    assert (out + gone) + rest == out + (gone + rest);
  }

  lemma {:induction false} FeedKeepsTotal(buffers: seq<GroupBuffer>, m: Message, stamp: int, gap: int, group: string)
    requires DistinctGroups(buffers)
    ensures var flushed, live := FlushedByFeed(buffers, m, stamp, gap), AfterFeed(buffers, m, stamp, gap);
      Held(flushed, |flushed|, group) + Held(live, |live|, group)
      == Held(buffers, |buffers|, group) + if m.groupId == group then [m] else []
  {
    var i := IndexOf(buffers, m.groupId);
    var live := AfterFeed(buffers, m, stamp, gap);
    if i < |buffers| && Silent(buffers[i], stamp, gap) {
      assert Held([buffers[i]], 0, group) == [];
    }
    if m.groupId == group {
      if i < |buffers| {
        HeldAt(buffers, |buffers|, i);
        HeldAt(live, |live|, i);
      } else {
        HeldFrame(live, buffers, |buffers|, group);
      }
    } else if j :| 0 <= j < |buffers| && buffers[j].groupId == group {
      HeldAt(buffers, |buffers|, j);
      HeldAt(live, |live|, j);
    } else {
      HeldNone(buffers, |buffers|, group);
      HeldNone(live, |live|, group);
    }
  }

  lemma {:induction false} HeldAppend(buffers: seq<GroupBuffer>, last: GroupBuffer, group: string)
    ensures Held(buffers + [last], |buffers| + 1, group)
         == if last.groupId == group then Held(buffers, |buffers|, group) + last.messages
            else Held(buffers, |buffers|, group)
  {
    HeldFrame(buffers + [last], buffers, |buffers|, group);
  }

  /** Splitting buffers by a test that empty ones fail splits what they hold. */
  lemma {:induction false} SplitKeepsTotal(buffers: seq<GroupBuffer>, now: int, gap: int, group: string)
    requires DistinctGroups(buffers)
    ensures var silent, rest := Filter(SilentOnes(now, gap), buffers), Filter(OtherOnes(now, gap), buffers);
      Held(silent, |silent|, group) + Held(rest, |rest|, group) == Held(buffers, |buffers|, group)
  {
    if buffers != [] {
      var n := |buffers| - 1;
      var before, last := buffers[..n], buffers[n];
      assert buffers == before + [last];
      SplitKeepsTotal(before, now, gap, group);
      HeldFrame(buffers, before, n, group);
      var silent, rest := Filter(SilentOnes(now, gap), before), Filter(OtherOnes(now, gap), before);
      if last.groupId == group {
        HeldNone(before, n, group);
      }
      if SilentOnes(now, gap)(last) {
        HeldAppend(silent, last, group);
        assert Filter(SilentOnes(now, gap), buffers) == silent + [last] && Filter(OtherOnes(now, gap), buffers) == rest;
      } else {
        HeldAppend(rest, last, group);
        assert Filter(SilentOnes(now, gap), buffers) == silent && Filter(OtherOnes(now, gap), buffers) == rest + [last];
      }
    }
  }

  lemma {:induction false} StepKeepsTotal(gap: int, s: State, op: Op, group: string)
    requires AllSound(s)
    ensures Total(Step(gap, s, op), group)
      == Total(s, group) + if op.Feed? && op.m.groupId == group then [op.m] else []
  {
    match op
    case Feed(m, stamp) =>
      FeedKeepsTotal(s.live, m, stamp, gap, group);
      MoveOut(s, FlushedByFeed(s.live, m, stamp, gap), AfterFeed(s.live, m, stamp, gap),
              if m.groupId == group then [m] else [], group);
    case FlushStale(now) =>
      SplitKeepsTotal(s.live, now, gap, group);
      MoveOut(s, Filter(SilentOnes(now, gap), s.live), Filter(OtherOnes(now, gap), s.live), [], group);
    case FlushAll =>
      FilterAll(NonEmpty(), s.live);
      assert Held([], 0, group) == [];
      MoveOut(s, s.live, [], [], group);
  }

  lemma {:induction false} RunKeepsTotal(gap: int, ops: seq<Op>, n: nat, group: string)
    requires n < |ops| && Total(Run(gap, ops, n), group) == Fed(ops, n, group)
    ensures Total(Run(gap, ops, n + 1), group) == Fed(ops, n + 1, group)
  {
    SegmentsSound(gap, ops, n);
    StepKeepsTotal(gap, Run(gap, ops, n), ops[n], group);
    assert Run(gap, ops, n + 1) == Step(gap, Run(gap, ops, n), ops[n]);
  }

  /** A group's segments followed by its buffer are the messages fed to it, in order, once each. */
  lemma {:induction false} RouterConserves(gap: int, ops: seq<Op>, n: nat, group: string)
    requires n <= |ops|
    ensures Total(Run(gap, ops, n), group) == Fed(ops, n, group)
  {
    var k := 0;
    while k != n
      invariant k <= n && Total(Run(gap, ops, k), group) == Fed(ops, k, group)
      decreases n - k
    {
      RunKeepsTotal(gap, ops, k, group);
      k := k + 1;
    }
  }

  // ---- When a message joins, and when it does not ----

  /**
   A message joins its group's buffer if that one is empty or heard within the
   gap; a longer silence sends the buffer off as a segment, and the message starts
   a new one in its place.
   */
  lemma {:induction false} MessageJoins(gap: int, s: State, m: Message, stamp: int)
    requires DistinctGroups(s.live)
    ensures var after := Step(gap, s, Feed(m, stamp));
      && (forall i :: 0 <= i < |s.live| && s.live[i].groupId == m.groupId ==>
            if s.live[i].messages == [] || stamp - s.live[i].lastMsgTs <= gap then
              && after.out == s.out
              && after.live == s.live[i := GroupBuffer(m.groupId, s.live[i].messages + [m], stamp)]
            else
              && after.out == s.out + [s.live[i]]
              && after.live == s.live[i := GroupBuffer(m.groupId, [m], stamp)])
      && ((forall i :: 0 <= i < |s.live| ==> s.live[i].groupId != m.groupId) ==>
            after.out == s.out && after.live == s.live + [GroupBuffer(m.groupId, [m], stamp)])
  {
    var i := IndexOf(s.live, m.groupId);
    assert s.out + [] == s.out;
  }

  /** A flush of the silent groups sends off exactly those whose silence is longer than the gap. */
  lemma {:induction false} SilentGroupsGo(gap: int, s: State, now: int)
    ensures var after := Step(gap, s, FlushStale(now));
      && (forall buf :: buf in after.out <==> buf in s.out || (buf in s.live && buf.messages != [] && now - buf.lastMsgTs > gap))
      && forall buf :: buf in after.live <==> buf in s.live && (buf.messages == [] || now - buf.lastMsgTs <= gap)
  {
    FilterMembers(SilentOnes(now, gap), s.live);
    FilterMembers(OtherOnes(now, gap), s.live);
  }
}
