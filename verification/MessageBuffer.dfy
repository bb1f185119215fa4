/**
 Sender scraps of the entity groups: a buffer that collects consecutive
 messages of one sender for one entity until they fall silent or become too
 many.  The dictionary of scraps is a sequence with distinct keys, in insertion
 order.  A missing text or number is the empty or zero one: `or` treats them
 alike.
 */
module MessageBuffer {
  import opened Ordering

  const SCRAP_GAP_S := 60
  const SCRAP_MAX_SIZE := 10

  datatype Incoming = Incoming(id: string, senderJid: string, senderName: string, timestamp: int)

  datatype Key = Key(entity: string, sender: string)

  datatype SenderScrap = SenderScrap(key: Key, messages: seq<Incoming>, events: seq<string>, lastTs: int)

  /** `sender_jid or sender or "unknown"` */
  function SenderOf(m: Incoming): string {
    if m.senderJid != "" then m.senderJid else if m.senderName != "" then m.senderName else "unknown"
  }

  /** `now or timestamp or clock` */
  function Stamp(now: int, m: Incoming, clock: int): int {
    if now != 0 then now else if m.timestamp != 0 then m.timestamp else clock
  }

  // ---- One addition, as a function ----

  ghost predicate DistinctKeys(scraps: seq<SenderScrap>) {
    forall i, j :: 0 <= i < j < |scraps| ==> scraps[i].key != scraps[j].key
  }

  /** The position of the key, or the length. */
  function Find(scraps: seq<SenderScrap>, key: Key, n: nat): (i: nat)
    requires n <= |scraps|
    ensures i <= |scraps| && (i < |scraps| ==> i < n && scraps[i].key == key)
    ensures i == |scraps| ==> forall k :: 0 <= k < n ==> scraps[k].key != key
  {
    if n == 0 then |scraps|
    else if scraps[n - 1].key == key then n - 1
    else Find(scraps, key, n - 1)
  }

  function IndexOf(scraps: seq<SenderScrap>, key: Key): nat {
    Find(scraps, key, |scraps|)
  }

  /** The scrap must go before a message stamped `ts` can be added. */
  predicate Due(scrap: SenderScrap, ts: int, gap: int, maxSize: int) {
    (if scrap.lastTs != 0 then ts - scrap.lastTs else 0) > gap || |scrap.messages| >= maxSize
  }

  function EventOf(event: string): seq<string> {
    if event != "" then [event] else []
  }

  function Without(scraps: seq<SenderScrap>, i: nat): seq<SenderScrap>
    requires i < |scraps|
  {
    scraps[..i] + scraps[i + 1..]
  }

  function FlushedByAdd(scraps: seq<SenderScrap>, key: Key, ts: int, gap: int, maxSize: int): seq<SenderScrap> {
    var i := IndexOf(scraps, key);
    if i < |scraps| && Due(scraps[i], ts, gap, maxSize) then [scraps[i]] else []
  }

  function Extended(scrap: SenderScrap, m: Incoming, event: string, ts: int): SenderScrap {
    scrap.(messages := scrap.messages + [m], events := scrap.events + EventOf(event), lastTs := ts)
  }

  function AfterAdd(scraps: seq<SenderScrap>, key: Key, m: Incoming, event: string, ts: int, gap: int, maxSize: int):
      seq<SenderScrap>
  {
    var i := IndexOf(scraps, key);
    if i == |scraps| then scraps + [SenderScrap(key, [m], EventOf(event), ts)]
    else if Due(scraps[i], ts, gap, maxSize) then Without(scraps, i) + [SenderScrap(key, [m], EventOf(event), ts)]
    else scraps[i := Extended(scraps[i], m, event, ts)]
  }

  predicate Stale(scrap: SenderScrap, now: int, gap: int) {
    now - scrap.lastTs >= gap
  }

  function StaleOnes(now: int, gap: int): SenderScrap -> bool {
    (scrap: SenderScrap) => Stale(scrap, now, gap)
  }

  function FreshOnes(now: int, gap: int): SenderScrap -> bool {
    (scrap: SenderScrap) => !Stale(scrap, now, gap)
  }

  lemma {:induction false} DistinctAfterAdd(scraps: seq<SenderScrap>, key: Key, m: Incoming, event: string, ts: int,
                                            gap: int, maxSize: int)
    requires DistinctKeys(scraps)
    ensures DistinctKeys(AfterAdd(scraps, key, m, event, ts, gap, maxSize))
  {
  }

  // ---- The buffer ----

  class Buffer {
    const gap: int
    const maxSize: int
    var scraps: seq<SenderScrap>

    ghost predicate Valid()
      reads this
    {
      DistinctKeys(scraps)
    }

    constructor (gap: int, maxSize: int)
      ensures Valid() && this.gap == gap && this.maxSize == maxSize && scraps == []
    {
      this.gap, this.maxSize, scraps := gap, maxSize, [];
    }

    method IndexFor(key: Key) returns (i: nat)
      requires Valid()
      ensures i == IndexOf(scraps, key)
    {
      i := 0;
      while i < |scraps|
        invariant i <= |scraps|
        invariant forall k :: 0 <= k < i ==> scraps[k].key != key
      {
        if scraps[i].key == key {
          return;
        }
        i := i + 1;
      }
    }

    method Add(entity: string, m: Incoming, event: string, now: int, clock: int) returns (flushed: seq<SenderScrap>)
      requires Valid()
      modifies this
      ensures Valid()
      ensures var key, ts := Key(entity, SenderOf(m)), Stamp(now, m, clock);
        && flushed == FlushedByAdd(old(scraps), key, ts, gap, maxSize)
        && scraps == AfterAdd(old(scraps), key, m, event, ts, gap, maxSize)
    {
      var key, ts := Key(entity, SenderOf(m)), Stamp(now, m, clock);
      flushed := [];
      var i := IndexFor(key);
      if i < |scraps| {
        var elapsed := if scraps[i].lastTs != 0 then ts - scraps[i].lastTs else 0;
        if elapsed > gap || |scraps[i].messages| >= maxSize {
          flushed := [scraps[i]];
          scraps := Without(scraps, i);
          i := |scraps|;
        }
      }
      ghost var rest := scraps;
      if i == |scraps| {
        scraps := scraps + [SenderScrap(key, [], [], 0)];
      }
      var scrap := scraps[i];
      scrap := scrap.(messages := scrap.messages + [m], lastTs := ts);
      if event != "" {
        scrap := scrap.(events := scrap.events + [event]);
      }
      scraps := scraps[i := scrap];
      assert [] + [m] == [m] && [] + [event] == [event];
      assert i < |rest| ==> scrap == Extended(rest[i], m, event, ts);
      assert i == |rest| ==> scraps == rest + [SenderScrap(key, [m], EventOf(event), ts)];
      DistinctAfterAdd(old(scraps), key, m, event, ts, gap, maxSize);
    }

    /** `now` has been resolved against the clock. */
    method FlushStale(now: int) returns (flushed: seq<SenderScrap>)
      requires Valid()
      modifies this
      ensures Valid()
      ensures flushed == Filter(StaleOnes(now, gap), old(scraps)) && scraps == Filter(FreshOnes(now, gap), old(scraps))
    {
      var all, kept := scraps, [];
      flushed := [];
      for i := 0 to |all|
        invariant flushed == Filter(StaleOnes(now, gap), all[..i])
        invariant kept == Filter(FreshOnes(now, gap), all[..i])
      {
        assert all[..i + 1] == all[..i] + [all[i]];
        FilterAppend(StaleOnes(now, gap), all[..i], all[i]);
        FilterAppend(FreshOnes(now, gap), all[..i], all[i]);
        if now - all[i].lastTs >= gap {
          flushed := flushed + [all[i]];
        } else {
          kept := kept + [all[i]];
        }
      }
      assert all[..|all|] == all;
      FilterDistinct(FreshOnes(now, gap), all);
      scraps := kept;
    }

    method FlushAll() returns (flushed: seq<SenderScrap>)
      requires Valid()
      modifies this
      ensures Valid() && flushed == old(scraps) && scraps == []
    {
      flushed := scraps;
      scraps := [];
    }
  }

  lemma {:induction false} FilterDistinct(keep: SenderScrap -> bool, scraps: seq<SenderScrap>)
    requires DistinctKeys(scraps)
    ensures DistinctKeys(Filter(keep, scraps))
  {
    if scraps != [] {
      var n := |scraps| - 1;
      FilterDistinct(keep, scraps[..n]);
      FilterMembers(keep, scraps[..n]);
      var rest := Filter(keep, scraps[..n]);
      forall i | 0 <= i < |rest|
        ensures rest[i].key != scraps[n].key
      {
        assert rest[i] in scraps[..n];
      }
    }
  }
}
