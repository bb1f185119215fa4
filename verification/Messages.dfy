/**
 The parts of a chat message that the conversation engines look at.  The sender
 is a name or number as the group shows it, the body may be empty, and the
 timestamp counts whole seconds since 1970, with 0 for a message that carries
 none.  Lists of messages are split by sender and cut into parts; what splitting
 and cutting keep is stated here.
 */
module Messages {

  datatype Message = Message(id: string, groupId: string, sender: string, body: string, timestamp: int)

  /** Timestamps never decrease along the list. */
  ghost predicate Chronological(messages: seq<Message>) {
    forall i, j :: 0 <= i < j < |messages| ==> messages[i].timestamp <= messages[j].timestamp
  }

  /** One sender's messages, in order. */
  function MessagesOf(messages: seq<Message>, sender: string): (strand: seq<Message>) {
    if messages == [] then []
    else
      var n := |messages| - 1;
      if messages[n].sender == sender then MessagesOf(messages[..n], sender) + [messages[n]]
      else MessagesOf(messages[..n], sender)
  }

  lemma {:induction false} MessagesOfMembers(messages: seq<Message>, sender: string)
    ensures forall m :: m in MessagesOf(messages, sender) <==> m in messages && m.sender == sender
  {
    if messages != [] {
      var n := |messages| - 1;
      MessagesOfMembers(messages[..n], sender);
      assert messages == messages[..n] + [messages[n]];
    }
  }

  lemma {:induction false} MessagesOfChronological(messages: seq<Message>, sender: string)
    requires Chronological(messages)
    ensures Chronological(MessagesOf(messages, sender))
  {
    if messages != [] {
      var n := |messages| - 1;
      MessagesOfChronological(messages[..n], sender);
      MessagesOfMembers(messages[..n], sender);
    }
  }

  function Concat<T>(parts: seq<seq<T>>): seq<T> {
    if parts == [] then [] else Concat(parts[..|parts| - 1]) + parts[|parts| - 1]
  }

  lemma {:induction false} ConcatMembers<T>(parts: seq<seq<T>>)
    ensures forall x :: x in Concat(parts) <==> exists k :: 0 <= k < |parts| && x in parts[k]
  {
    if parts != [] {
      var n := |parts| - 1;
      ConcatMembers(parts[..n]);
      assert forall k :: 0 <= k < n ==> parts[..n][k] == parts[k];
    }
  }

  /** Concatenation when one more element goes into the last part, or starts a new one. */
  lemma {:induction false} ConcatAppend<T>(parts: seq<seq<T>>, x: T)
    ensures Concat(parts + [[x]]) == Concat(parts) + [x]
    ensures parts != [] ==>
      Concat(parts[..|parts| - 1] + [parts[|parts| - 1] + [x]]) == Concat(parts) + [x]
  {
    assert (parts + [[x]])[..|parts|] == parts;
    if parts != [] {
      var n := |parts| - 1;
      assert (parts[..n] + [parts[n] + [x]])[..n] == parts[..n];
    }
  }
}
