/**
 What a conversation assignment means, without any state: each scrap's label
 is read off the scraps of the same sender.
 */
module ConversationLabels {

  const CARRY_MAX_S := 1800
  const BACKPROP_MAX_S := 3600
  const BOOKKEEPING_ENTITY_REF := "singleton:bookkeeping"

  /** What the assignment looks at in a scrap. */
  datatype Piece = Piece(sender: string, first: int, last: int, evidence: seq<string>, payment: bool)

  /** The last scrap of the sender before position n, or -1. */
  function Previous(ps: seq<Piece>, sender: string, n: int): (j: int)
    requires n <= |ps|
    ensures -1 <= j && (0 <= j ==> j < n && ps[j].sender == sender)
    ensures forall k :: 0 <= k && j < k < n ==> ps[k].sender != sender
  {
    if n <= 0 then -1
    else if ps[n - 1].sender == sender then n - 1
    else Previous(ps, sender, n - 1)
  }

  /** The first scrap of the sender at or after k and before n that has evidence, or n. */
  function NextEvidence(ps: seq<Piece>, sender: string, k: int, n: int): (j: int)
    requires 0 <= k && n <= |ps|
    ensures j < n ==> k <= j && ps[j].sender == sender && ps[j].evidence != []
    ensures n <= j ==> forall i :: k <= i < n && ps[i].sender == sender ==> ps[i].evidence == []
    ensures forall i :: k <= i < j && i < n && ps[i].sender == sender ==> ps[i].evidence == []
    decreases n - k
  {
    if n <= k then n
    else if ps[k].sender == sender && ps[k].evidence != [] then k
    else NextEvidence(ps, sender, k + 1, n)
  }

  /** A scrap at `first` continues what ended at `last`; a missing timestamp (0) never does. */
  predicate Continues(last: int, first: int) {
    last != 0 && first - last <= CARRY_MAX_S
  }

  /** The context in force after scrap i of its sender; "" is none. */
  function Context(ps: seq<Piece>, i: int): string
    requires 0 <= i < |ps|
    decreases i
  {
    var p := ps[i];
    if p.evidence != [] then p.evidence[0]
    else
      var j := Previous(ps, p.sender, i);
      if 0 <= j && Continues(ps[j].last, p.first) then Context(ps, j) else ""
  }

  /** The context of a sender after the first n scraps. */
  function ContextOf(ps: seq<Piece>, sender: string, n: int): string
    requires n <= |ps|
  {
    var j := Previous(ps, sender, n);
    if j < 0 then "" else Context(ps, j)
  }

  /**
   The conversations scrap i belongs to once the first n scraps are known.  A
   scrap is labelled by its own evidence; else by the context its sender's
   previous scrap left behind, if that one ended at most half an hour earlier;
   else by the sender's next scrap with evidence, if that one starts within an
   hour; else not at all.
   */
  function Label(ps: seq<Piece>, i: int, n: int): seq<string>
    requires 0 <= i < |ps| && n <= |ps|
  {
    if n <= i then []
    else if ps[i].evidence != [] then ps[i].evidence
    else if Context(ps, i) != "" then [Context(ps, i)]
    else
      var j := NextEvidence(ps, ps[i].sender, i + 1, n);
      if j < n && ps[j].first - ps[i].last <= BACKPROP_MAX_S then [ps[j].evidence[0]] else []
  }

  /** How often conversation `ref` holds scrap i; payments are entered in the bookkeeping conversation as well. */
  function Copies(ps: seq<Piece>, i: int, n: int, ref: string): nat
    requires 0 <= i < |ps| && n <= |ps|
  {
    multiset(Label(ps, i, n))[ref] + if i < n && ps[i].payment && ref == BOOKKEEPING_ENTITY_REF then 1 else 0
  }

  /** Scrap i is waiting for evidence from its sender. */
  predicate Pending(ps: seq<Piece>, i: int, n: int)
    requires 0 <= i < |ps| && n <= |ps|
  {
    i < n && ps[i].evidence == [] && Context(ps, i) == "" && NextEvidence(ps, ps[i].sender, i + 1, n) >= n
  }

  // ---- One more scrap ----

  lemma {:induction false} NextEvidenceStep(ps: seq<Piece>, sender: string, k: int, n: int)
    requires 0 <= k <= n < |ps|
    ensures NextEvidence(ps, sender, k, n + 1) ==
            var j := NextEvidence(ps, sender, k, n);
            if j < n then j
            else if ps[n].sender == sender && ps[n].evidence != [] then n
            else n + 1
    decreases n - k
  {
    if k < n {
      NextEvidenceStep(ps, sender, k + 1, n);
    }
  }

  /** How the (n+1)st scrap changes the label of an earlier one: only a waiting scrap of the same sender gains one. */
  lemma {:induction false} LabelStep(ps: seq<Piece>, i: int, n: int)
    requires 0 <= i < n < |ps|
    ensures var released := Pending(ps, i, n) && ps[i].sender == ps[n].sender && ps[n].evidence != [];
            && Label(ps, i, n + 1) ==
               (if released && ps[n].first - ps[i].last <= BACKPROP_MAX_S then [ps[n].evidence[0]]
                else Label(ps, i, n))
            && Pending(ps, i, n + 1) == (Pending(ps, i, n) && !released)
            && (Pending(ps, i, n) ==> Label(ps, i, n) == [])
  {
    NextEvidenceStep(ps, ps[i].sender, i + 1, n);
  }

  /** The newest scrap: labelled by evidence or context, or waiting. */
  lemma {:induction false} LabelNewest(ps: seq<Piece>, n: int)
    requires 0 <= n < |ps|
    ensures Label(ps, n, n + 1) ==
            if ps[n].evidence != [] then ps[n].evidence
            else if Context(ps, n) != "" then [Context(ps, n)] else []
    ensures Pending(ps, n, n + 1) <==> ps[n].evidence == [] && Context(ps, n) == ""
    ensures Label(ps, n, n) == [] && !Pending(ps, n, n)
  {
  }

  /** While a sender has a context, none of the sender's scraps is waiting. */
  lemma {:induction false} ContextClearsBuffer(ps: seq<Piece>, i: int, j: int, n: int)
    requires 0 <= i <= j < n <= |ps|
    requires ps[i].sender == ps[j].sender && Context(ps, j) != ""
    ensures !Pending(ps, i, n)
    decreases j
  {
    if i < j && ps[j].evidence == [] {
      var k := Previous(ps, ps[j].sender, j);
      assert i <= k;
      ContextClearsBuffer(ps, i, k, n);
    }
  }

  lemma {:induction false} NothingWaits(ps: seq<Piece>, sender: string, n: int)
    requires 0 <= n <= |ps| && ContextOf(ps, sender, n) != ""
    ensures forall i :: 0 <= i < |ps| && ps[i].sender == sender ==> !Pending(ps, i, n)
  {
    var j := Previous(ps, sender, n);
    forall i | 0 <= i < |ps| && ps[i].sender == sender
      ensures !Pending(ps, i, n)
    {
      if i < n {
        ContextClearsBuffer(ps, i, j, n);
      }
    }
  }

  // ---- A sender's labels depend on that sender's scraps alone ----

  /** The scraps of one sender among the first n. */
  function Own(ps: seq<Piece>, sender: string, n: int): (own: seq<Piece>)
    requires n <= |ps|
    ensures forall k :: 0 <= k < |own| ==> own[k].sender == sender
  {
    if n <= 0 then []
    else if ps[n - 1].sender == sender then Own(ps, sender, n - 1) + [ps[n - 1]]
    else Own(ps, sender, n - 1)
  }

  /** The position of scrap i among its sender's own scraps. */
  function Rank(ps: seq<Piece>, i: int): int
    requires 0 <= i <= |ps|
  {
    if i == |ps| then 0 else |Own(ps, ps[i].sender, i)|
  }

  lemma {:induction false} OwnPrefix(ps: seq<Piece>, sender: string, m: int, n: int)
    requires 0 <= m <= n <= |ps|
    ensures Own(ps, sender, m) <= Own(ps, sender, n)
    decreases n - m
  {
    if m < n {
      OwnPrefix(ps, sender, m, n - 1);
    }
  }

  lemma {:induction false} OwnAt(ps: seq<Piece>, i: int)
    requires 0 <= i < |ps|
    ensures var own := Own(ps, ps[i].sender, |ps|); Rank(ps, i) < |own| && own[Rank(ps, i)] == ps[i]
  {
    OwnPrefix(ps, ps[i].sender, i + 1, |ps|);
  }

  /** Positions between two scraps of the sender hold nothing of the sender. */
  lemma {:induction false} OwnUnchanged(ps: seq<Piece>, sender: string, m: int, n: int)
    requires 0 <= m <= n <= |ps| && forall k :: m <= k < n ==> ps[k].sender != sender
    ensures Own(ps, sender, m) == Own(ps, sender, n)
    decreases n - m
  {
    if m < n {
      OwnUnchanged(ps, sender, m, n - 1);
    }
  }

  lemma {:induction false} PreviousOwn(ps: seq<Piece>, i: int)
    requires 0 <= i < |ps|
    ensures var own, j := Own(ps, ps[i].sender, |ps|), Previous(ps, ps[i].sender, i);
            && Rank(ps, i) <= |own|
            && Previous(own, ps[i].sender, Rank(ps, i)) == (if j < 0 then -1 else Rank(ps, j))
            && (0 <= j ==> Rank(ps, j) == Rank(ps, i) - 1)
  {
    var sender, j := ps[i].sender, Previous(ps, ps[i].sender, i);
    OwnAt(ps, i);
    OwnUnchanged(ps, sender, j + 1, i);
  }

  lemma {:induction false} ContextOwn(ps: seq<Piece>, i: int)
    requires 0 <= i < |ps|
    ensures Rank(ps, i) < |Own(ps, ps[i].sender, |ps|)|
    ensures Context(ps, i) == Context(Own(ps, ps[i].sender, |ps|), Rank(ps, i))
    decreases i
  {
    OwnAt(ps, i);
    PreviousOwn(ps, i);
    var j := Previous(ps, ps[i].sender, i);
    if 0 <= j {
      OwnAt(ps, j);
      ContextOwn(ps, j);
    }
  }

  lemma {:induction false} NextEvidenceOwn(ps: seq<Piece>, sender: string, k: int)
    requires 0 <= k <= |ps|
    ensures var own, j := Own(ps, sender, |ps|), NextEvidence(ps, sender, k, |ps|);
            && |Own(ps, sender, k)| <= |own|
            && NextEvidence(own, sender, |Own(ps, sender, k)|, |own|)
               == if j < |ps| then |Own(ps, sender, j)| else |own|
    decreases |ps| - k
  {
    OwnPrefix(ps, sender, k, |ps|);
    if k < |ps| {
      NextEvidenceOwn(ps, sender, k + 1);
      if ps[k].sender == sender {
        OwnAt(ps, k);
      }
    }
  }

  /** Interleaving other senders' scraps changes none of a sender's labels. */
  lemma {:induction false} LabelsAreOwn(ps: seq<Piece>, i: int)
    requires 0 <= i < |ps|
    ensures var own := Own(ps, ps[i].sender, |ps|);
            Rank(ps, i) < |own| && Label(ps, i, |ps|) == Label(own, Rank(ps, i), |own|)
  {
    var sender := ps[i].sender;
    OwnAt(ps, i);
    ContextOwn(ps, i);
    NextEvidenceOwn(ps, sender, i + 1);
    var j := NextEvidence(ps, sender, i + 1, |ps|);
    if j < |ps| {
      OwnAt(ps, j);
    }
  }

  // ---- How often a conversation holds a scrap ----

  /** Scrap j's evidence is carried to scrap i: nothing new in between, and no silence of the sender over half an hour. */
  ghost predicate Carried(ps: seq<Piece>, j: int, i: int) {
    && 0 <= j <= i < |ps| && ps[j].sender == ps[i].sender && ps[j].evidence != []
    && forall k :: j < k <= i && ps[k].sender == ps[i].sender ==>
         var h := Previous(ps, ps[i].sender, k);
         ps[k].evidence == [] && ps[h].last != 0 && ps[k].first - ps[h].last <= 1800
  }

  /** Scrap j is the next evidence of scrap i's sender, and starts within an hour of i's end. */
  ghost predicate ReachesBack(ps: seq<Piece>, i: int, j: int) {
    && 0 <= i < j < |ps| && ps[j].sender == ps[i].sender && ps[j].evidence != []
    && (forall k :: i < k < j && ps[k].sender == ps[i].sender ==> ps[k].evidence == [])
    && ps[j].first - ps[i].last <= 3600
  }

  /** What the scraps themselves say: scrap i is about `ref` by its own, by carried, or by the next evidence. */
  ghost predicate IsAbout(ps: seq<Piece>, i: int, ref: string)
    requires 0 <= i < |ps|
  {
    if ps[i].evidence != [] then ref in ps[i].evidence
    else if exists j :: Carried(ps, j, i) && ps[j].evidence[0] != "" then
      exists j :: Carried(ps, j, i) && ps[j].evidence[0] == ref
    else
      exists j :: ReachesBack(ps, i, j) && ps[j].evidence[0] == ref
  }

  lemma {:induction false} CarriedByPrevious(ps: seq<Piece>, i: int, j: int)
    requires 0 <= i < |ps| && ps[i].evidence == []
    ensures var p := Previous(ps, ps[i].sender, i);
      Carried(ps, j, i) <==> 0 <= p && Continues(ps[p].last, ps[i].first) && Carried(ps, j, p)
  {
  }

  /** The context of the loop is the carried evidence. */
  lemma {:induction false} ContextIsCarried(ps: seq<Piece>, i: int, ref: string)
    requires 0 <= i < |ps| && ref != ""
    ensures Context(ps, i) == ref <==> exists j :: Carried(ps, j, i) && ps[j].evidence[0] == ref
    decreases i
  {
    if ps[i].evidence != [] {
      assert Carried(ps, i, i);
    } else {
      var p := Previous(ps, ps[i].sender, i);
      forall j
        ensures Carried(ps, j, i) <==> 0 <= p && Continues(ps[p].last, ps[i].first) && Carried(ps, j, p)
      {
        CarriedByPrevious(ps, i, j);
      }
      if 0 <= p {
        ContextIsCarried(ps, p, ref);
      }
    }
  }

  /** The labels of the loop, read off the scraps. */
  lemma {:induction false} LabelMeans(ps: seq<Piece>, i: int, ref: string)
    requires 0 <= i < |ps| && ref != ""
    ensures ref in Label(ps, i, |ps|) <==> IsAbout(ps, i, ref)
  {
    if ps[i].evidence == [] {
      ContextIsCarried(ps, i, ref);
      if Context(ps, i) != "" {
        ContextIsCarried(ps, i, Context(ps, i));
      } else {
        forall j | Carried(ps, j, i)
          ensures ps[j].evidence[0] == ""
        {
          if ps[j].evidence[0] != "" {
            ContextIsCarried(ps, i, ps[j].evidence[0]);
          }
        }
        var next := NextEvidence(ps, ps[i].sender, i + 1, |ps|);
        assert forall j :: ReachesBack(ps, i, j) ==> j == next;
      }
    }
  }

  ghost predicate NoRepetitions(ps: seq<Piece>) {
    forall i, c :: 0 <= i < |ps| ==> multiset(ps[i].evidence)[c] <= 1
  }

  ghost predicate HeldOnce(ps: seq<Piece>) {
    forall i, ref :: 0 <= i < |ps| ==> Copies(ps, i, |ps|, ref) <= 1
  }

  lemma {:induction false} HeldTwiceMeans(ps: seq<Piece>, i: int, ref: string)
    requires 0 <= i < |ps| && forall c :: multiset(ps[i].evidence)[c] <= 1
    ensures Copies(ps, i, |ps|, ref) <= 1 <==>
      !(ref == BOOKKEEPING_ENTITY_REF && ps[i].payment && IsAbout(ps, i, ref))
  {
    var refs := Label(ps, i, |ps|);
    assert multiset(refs)[ref] <= 1;
    assert ref in refs <==> ref in multiset(refs);
    LabelMeans(ps, i, BOOKKEEPING_ENTITY_REF);
  }

  /**
   With evidence lists free of repetitions every conversation holds every scrap
   at most once, exactly if no payment is about the bookkeeping reference itself.
   */
  lemma {:induction false} HeldAtMostOnce(ps: seq<Piece>)
    requires NoRepetitions(ps)
    ensures HeldOnce(ps) <==>
      forall i :: 0 <= i < |ps| && ps[i].payment ==> !IsAbout(ps, i, "singleton:bookkeeping")
  {
    forall i | 0 <= i < |ps|
      ensures (forall ref :: Copies(ps, i, |ps|, ref) <= 1) <==>
        !(ps[i].payment && IsAbout(ps, i, BOOKKEEPING_ENTITY_REF))
    {
      forall ref
        ensures Copies(ps, i, |ps|, ref) <= 1 <==>
          !(ref == BOOKKEEPING_ENTITY_REF && ps[i].payment && IsAbout(ps, i, ref))
      {
        HeldTwiceMeans(ps, i, ref);
      }
      HeldTwiceMeans(ps, i, BOOKKEEPING_ENTITY_REF);
    }
  }

  /** So if no text ever names the bookkeeping reference, no conversation holds a scrap twice. */
  lemma {:induction false} HeldOnceUnlessNamed(ps: seq<Piece>)
    requires NoRepetitions(ps) && forall i :: 0 <= i < |ps| ==> BOOKKEEPING_ENTITY_REF !in ps[i].evidence
    ensures HeldOnce(ps)
  {
    forall i | 0 <= i < |ps|
      ensures !IsAbout(ps, i, BOOKKEEPING_ENTITY_REF)
    {
      assert forall j :: 0 <= j < |ps| && ps[j].evidence != [] ==> ps[j].evidence[0] in ps[j].evidence;
    }
    HeldAtMostOnce(ps);
  }

  /** One payment that names it is held twice. */
  lemma {:induction false} PaymentHeldTwice()
    ensures var ps := [Piece("s", 1, 1, [BOOKKEEPING_ENTITY_REF], true)];
      NoRepetitions(ps) && Copies(ps, 0, 1, BOOKKEEPING_ENTITY_REF) == 2 && !HeldOnce(ps)
  {
    var ps := [Piece("s", 1, 1, [BOOKKEEPING_ENTITY_REF], true)];
    assert Label(ps, 0, 1) == [BOOKKEEPING_ENTITY_REF];
    assert Copies(ps, 0, |ps|, BOOKKEEPING_ENTITY_REF) == 2;
  }

  // ---- The book: the positions of the scraps each conversation holds, in order ----

  type Book = map<string, seq<nat>>

  function Entries(book: Book, ref: string): seq<nat> {
    if ref in book then book[ref] else []
  }

  function Enter(book: Book, ref: string, i: nat): Book {
    book[ref := Entries(book, ref) + [i]]
  }

  /** One scrap under each of the first n references. */
  function EnterUnder(book: Book, refs: seq<string>, n: nat, i: nat): Book
    requires n <= |refs|
  {
    if n == 0 then book else Enter(EnterUnder(book, refs, n - 1, i), refs[n - 1], i)
  }

  /** The first n of the given scraps under one reference. */
  function EnterEach(book: Book, ref: string, scraps: seq<nat>, n: nat): Book
    requires n <= |scraps|
  {
    if n == 0 then book else Enter(EnterEach(book, ref, scraps, n - 1), ref, scraps[n - 1])
  }

  /** How often conversation `ref` holds scrap i. */
  function Times(book: Book, ref: string, i: nat): nat {
    multiset(Entries(book, ref))[i]
  }

  lemma {:induction false} FirstIsEntered(book: Book, refs: seq<string>, n: nat, i: nat)
    requires 0 < n <= |refs|
    ensures refs[0] in EnterUnder(book, refs, n, i)
  {
    if 1 < n {
      FirstIsEntered(book, refs, n - 1, i);
    }
  }

  lemma {:induction false} CountAppend<T>(xs: seq<T>, y: T, x: T)
    ensures multiset(xs + [y])[x] == multiset(xs)[x] + if x == y then 1 else 0
  {
    assert multiset(xs + [y]) == multiset(xs) + multiset{y};
  }

  lemma {:induction false} CountPrefix<T>(xs: seq<T>, n: nat, x: T)
    requires 0 < n <= |xs|
    ensures multiset(xs[..n])[x] == multiset(xs[..n - 1])[x] + if x == xs[n - 1] then 1 else 0
  {
    assert xs[..n] == xs[..n - 1] + [xs[n - 1]];
    CountAppend(xs[..n - 1], xs[n - 1], x);
  }

  lemma {:induction false} CountEnter(book: Book, ref: string, i: nat, c: string, k: nat)
    ensures Times(Enter(book, ref, i), c, k) == Times(book, c, k) + if c == ref && k == i then 1 else 0
  {
    CountAppend(Entries(book, ref), i, k);
  }

  lemma {:induction false} CountUnder(book: Book, refs: seq<string>, n: nat, i: nat, ref: string, k: nat)
    requires n <= |refs|
    ensures Times(EnterUnder(book, refs, n, i), ref, k)
            == Times(book, ref, k) + if k == i then multiset(refs[..n])[ref] else 0
  {
    if 0 < n {
      CountUnder(book, refs, n - 1, i, ref, k);
      CountEnter(EnterUnder(book, refs, n - 1, i), refs[n - 1], i, ref, k);
      CountPrefix(refs, n, ref);
    }
  }

  lemma {:induction false} CountEach(book: Book, ref: string, scraps: seq<nat>, n: nat, c: string, k: nat)
    requires n <= |scraps|
    ensures Times(EnterEach(book, ref, scraps, n), c, k)
            == Times(book, c, k) + if c == ref then multiset(scraps[..n])[k] else 0
  {
    if 0 < n {
      CountEach(book, ref, scraps, n - 1, c, k);
      CountEnter(EnterEach(book, ref, scraps, n - 1), ref, scraps[n - 1], c, k);
      CountPrefix(scraps, n, k);
    }
  }

  /** The book after n scraps. */
  ghost predicate Kept(ps: seq<Piece>, n: int, book: Book)
    requires n <= |ps|
  {
    forall ref, i :: 0 <= i < |ps| ==> Times(book, ref, i) == Copies(ps, i, n, ref)
  }

  /** The positions of the waiting scraps of a sender, each once. */
  ghost predicate Waiting(ps: seq<Piece>, sender: string, n: int, waiting: seq<nat>)
    requires n <= |ps|
  {
    && (forall i :: 0 <= i < |waiting| ==> waiting[i] < n)
    && forall i :: 0 <= i < |ps| ==>
         multiset(waiting)[i] == if Pending(ps, i, n) && ps[i].sender == sender then 1 else 0
  }

  /** A sender with a context has an empty buffer. */
  lemma {:induction false} BufferEmpty(ps: seq<Piece>, sender: string, n: int, waiting: seq<nat>)
    requires 0 <= n <= |ps| && Waiting(ps, sender, n, waiting) && ContextOf(ps, sender, n) != ""
    ensures waiting == []
  {
    forall k | 0 <= k < |waiting|
      ensures multiset(waiting)[waiting[k]] > 0
    {
      assert waiting[k] in multiset(waiting);
    }
    NothingWaits(ps, sender, n);
  }

  lemma {:induction false} WaitingOther(ps: seq<Piece>, sender: string, n: int, waiting: seq<nat>)
    requires 0 <= n < |ps| && Waiting(ps, sender, n, waiting) && sender != ps[n].sender
    ensures Waiting(ps, sender, n + 1, waiting)
    ensures ContextOf(ps, sender, n + 1) == ContextOf(ps, sender, n)
  {
    forall i | 0 <= i < |ps|
      ensures multiset(waiting)[i] == if Pending(ps, i, n + 1) && ps[i].sender == sender then 1 else 0
    {
      if i < n {
        LabelStep(ps, i, n);
      }
    }
  }

  lemma {:induction false} WaitingReleased(ps: seq<Piece>, n: int)
    requires 0 <= n < |ps| && ps[n].evidence != []
    ensures Waiting(ps, ps[n].sender, n + 1, [])
  {
    forall i | 0 <= i < |ps|
      ensures !(Pending(ps, i, n + 1) && ps[i].sender == ps[n].sender)
    {
      if i < n {
        LabelStep(ps, i, n);
      }
    }
  }

  lemma {:induction false} WaitingCarried(ps: seq<Piece>, n: int, waiting: seq<nat>)
    requires 0 <= n < |ps| && Waiting(ps, ps[n].sender, n, waiting)
    requires ps[n].evidence == [] && Context(ps, n) != ""
    ensures Waiting(ps, ps[n].sender, n + 1, waiting)
  {
    forall i | 0 <= i < |ps|
      ensures multiset(waiting)[i] == if Pending(ps, i, n + 1) && ps[i].sender == ps[n].sender then 1 else 0
    {
      PendingCarried(ps, n, i);
    }
  }

  lemma {:induction false} PendingCarried(ps: seq<Piece>, n: int, i: int)
    requires 0 <= n < |ps| && 0 <= i < |ps| && ps[n].evidence == [] && Context(ps, n) != ""
    ensures Pending(ps, i, n + 1) <==> Pending(ps, i, n)
  {
    LabelNewest(ps, n);
    if i < n {
      LabelStep(ps, i, n);
    }
  }

  lemma {:induction false} WaitingBuffered(ps: seq<Piece>, n: nat, waiting: seq<nat>)
    requires 0 <= n < |ps| && Waiting(ps, ps[n].sender, n, waiting)
    requires ps[n].evidence == [] && Context(ps, n) == ""
    ensures Waiting(ps, ps[n].sender, n + 1, waiting + [n])
  {
    forall i | 0 <= i < |ps|
      ensures multiset(waiting + [n])[i] == if Pending(ps, i, n + 1) && ps[i].sender == ps[n].sender then 1 else 0
    {
      WaitCount(ps, i, n);
      CountAppend(waiting, n, i);
      assert multiset(waiting)[i] == if Pending(ps, i, n) && ps[i].sender == ps[n].sender then 1 else 0;
    }
  }

  lemma {:induction false} WaitCount(ps: seq<Piece>, i: int, n: int)
    requires 0 <= n < |ps| && 0 <= i < |ps| && ps[n].evidence == [] && Context(ps, n) == ""
    ensures Pending(ps, i, n + 1) <==> Pending(ps, i, n) || i == n
    ensures !Pending(ps, n, n)
  {
    LabelNewest(ps, n);
    if i < n {
      LabelStep(ps, i, n);
    }
  }

  function EnterPayment(ps: seq<Piece>, n: nat, book: Book): Book
    requires n < |ps|
  {
    if ps[n].payment then Enter(book, BOOKKEEPING_ENTITY_REF, n) else book
  }

  /** Scrap i is waiting for scrap n and ended at most an hour before it. */
  predicate Released(ps: seq<Piece>, i: int, n: int)
    requires 0 <= i < |ps| && 0 <= n < |ps|
  {
    Pending(ps, i, n) && ps[i].sender == ps[n].sender && ps[n].first - ps[i].last <= BACKPROP_MAX_S
  }

  /** Of the first m waiting scraps, those that ended at most an hour before scrap n. */
  function Recent(ps: seq<Piece>, n: nat, waiting: seq<nat>, m: nat): (recent: seq<nat>)
    requires n < |ps| && m <= |waiting| && forall k :: 0 <= k < |waiting| ==> waiting[k] < n
    ensures forall k :: 0 <= k < |recent| ==> recent[k] < n
  {
    if m == 0 then []
    else
      var before := Recent(ps, n, waiting, m - 1);
      if ps[n].first - ps[waiting[m - 1]].last <= BACKPROP_MAX_S then before + [waiting[m - 1]] else before
  }

  lemma {:induction false} CountRecentStep(ps: seq<Piece>, n: nat, waiting: seq<nat>, m: nat, i: nat)
    requires n < |ps| && i < |ps| && m < |waiting| && forall k :: 0 <= k < |waiting| ==> waiting[k] < n
    ensures multiset(Recent(ps, n, waiting, m + 1))[i] ==
            multiset(Recent(ps, n, waiting, m))[i]
            + if waiting[m] == i && ps[n].first - ps[i].last <= BACKPROP_MAX_S then 1 else 0
  {
    var before, w := Recent(ps, n, waiting, m), waiting[m];
    CountAppend(before, w, i);
    if ps[n].first - ps[w].last <= BACKPROP_MAX_S {
      assert Recent(ps, n, waiting, m + 1) == before + [w];
    } else {
      assert Recent(ps, n, waiting, m + 1) == before;
    }
  }

  ghost predicate RecentCounted(ps: seq<Piece>, n: nat, waiting: seq<nat>, m: nat, i: nat)
    requires n < |ps| && i < |ps| && m <= |waiting| && forall k :: 0 <= k < |waiting| ==> waiting[k] < n
  {
    multiset(Recent(ps, n, waiting, m))[i] ==
      if ps[n].first - ps[i].last <= BACKPROP_MAX_S then multiset(waiting[..m])[i] else 0
  }

  lemma {:induction false} RecentCountedStep(ps: seq<Piece>, n: nat, waiting: seq<nat>, m: nat, i: nat)
    requires n < |ps| && i < |ps| && m < |waiting| && forall k :: 0 <= k < |waiting| ==> waiting[k] < n
    requires RecentCounted(ps, n, waiting, m, i)
    ensures RecentCounted(ps, n, waiting, m + 1, i)
  {
    CountRecentStep(ps, n, waiting, m, i);
    CountPrefix(waiting, m + 1, i);
  }

  lemma {:induction false} CountRecent(ps: seq<Piece>, n: nat, waiting: seq<nat>, i: nat)
    requires n < |ps| && i < |ps| && forall k :: 0 <= k < |waiting| ==> waiting[k] < n
    ensures multiset(Recent(ps, n, waiting, |waiting|))[i] ==
            if ps[n].first - ps[i].last <= BACKPROP_MAX_S then multiset(waiting)[i] else 0
  {
    var m := 0;
    while m != |waiting|
      invariant m <= |waiting| && RecentCounted(ps, n, waiting, m, i)
      decreases |waiting| - m
    {
      RecentCountedStep(ps, n, waiting, m, i);
      m := m + 1;
    }
    assert waiting[..|waiting|] == waiting;
  }

  lemma {:induction false} RecentIsReleased(ps: seq<Piece>, n: nat, waiting: seq<nat>)
    requires n < |ps| && Waiting(ps, ps[n].sender, n, waiting)
    ensures forall i :: 0 <= i < |ps| ==>
      multiset(Recent(ps, n, waiting, |waiting|))[i] == if Released(ps, i, n) then 1 else 0
  {
    forall i: nat | i < |ps|
      ensures multiset(Recent(ps, n, waiting, |waiting|))[i] == if Released(ps, i, n) then 1 else 0
    {
      CountRecent(ps, n, waiting, i);
      assert multiset(waiting)[i] == if Pending(ps, i, n) && ps[i].sender == ps[n].sender then 1 else 0;
    }
  }

  lemma {:induction false} RecentMembers(ps: seq<Piece>, n: nat, waiting: seq<nat>)
    requires n < |ps| && Waiting(ps, ps[n].sender, n, waiting)
    ensures forall i :: 0 <= i < |ps| ==> (i in Recent(ps, n, waiting, |waiting|) <==> Released(ps, i, n))
  {
    RecentIsReleased(ps, n, waiting);
    var recent := Recent(ps, n, waiting, |waiting|);
    assert forall i: nat :: i in recent <==> i in multiset(recent);
  }

  /** How the copies of scrap i grow when scrap n is taken. */
  lemma {:induction false} CopiesStep(ps: seq<Piece>, n: nat, ref: string, i: nat)
    requires n < |ps| && i < |ps|
    ensures Copies(ps, i, n + 1, ref) == Copies(ps, i, n, ref)
            + (if i == n then multiset(Label(ps, n, n + 1))[ref] else 0)
            + (if ps[n].evidence != [] && Released(ps, i, n) && ref == ps[n].evidence[0] then 1 else 0)
            + (if i == n && ps[n].payment && ref == BOOKKEEPING_ENTITY_REF then 1 else 0)
  {
    LabelNewest(ps, n);
    if i < n {
      LabelStep(ps, i, n);
    }
  }

  lemma {:induction false} CountPayment(ps: seq<Piece>, n: nat, book: Book, ref: string, i: nat)
    requires n < |ps|
    ensures Times(EnterPayment(ps, n, book), ref, i) ==
            Times(book, ref, i) + if i == n && ps[n].payment && ref == BOOKKEEPING_ENTITY_REF then 1 else 0
  {
    CountEnter(book, BOOKKEEPING_ENTITY_REF, n, ref, i);
  }

  /** The book after a scrap with evidence: it is entered, and the recent waiting scraps under its first entity. */
  function EnterEvidence(ps: seq<Piece>, n: nat, book: Book, waiting: seq<nat>): Book
    requires n < |ps| && ps[n].evidence != []
    requires forall k :: 0 <= k < |waiting| ==> waiting[k] < n
  {
    var recent := Recent(ps, n, waiting, |waiting|);
    EnterEach(EnterUnder(book, ps[n].evidence, |ps[n].evidence|, n), ps[n].evidence[0], recent, |recent|)
  }

  lemma {:induction false} CountEvidence(ps: seq<Piece>, n: nat, book: Book, waiting: seq<nat>, ref: string, i: nat)
    requires n < |ps| && i < |ps| && ps[n].evidence != []
    requires Waiting(ps, ps[n].sender, n, waiting)
    ensures Times(EnterEvidence(ps, n, book, waiting), ref, i) == Times(book, ref, i)
            + (if i == n then multiset(ps[n].evidence)[ref] else 0)
            + (if ref == ps[n].evidence[0] && Released(ps, i, n) then 1 else 0)
  {
    var evidence, recent := ps[n].evidence, Recent(ps, n, waiting, |waiting|);
    assert evidence[..|evidence|] == evidence && recent[..|recent|] == recent;
    CountUnder(book, evidence, |evidence|, n, ref, i);
    CountEach(EnterUnder(book, evidence, |evidence|, n), evidence[0], recent, |recent|, ref, i);
    RecentIsReleased(ps, n, waiting);
  }

  lemma {:induction false} KeptByEvidence(ps: seq<Piece>, n: nat, book: Book, waiting: seq<nat>)
    requires n < |ps| && ps[n].evidence != []
    requires Kept(ps, n, book) && Waiting(ps, ps[n].sender, n, waiting)
    ensures Kept(ps, n + 1, EnterPayment(ps, n, EnterEvidence(ps, n, book, waiting)))
  {
    var entered := EnterEvidence(ps, n, book, waiting);
    forall ref, i: nat | i < |ps|
      ensures Times(EnterPayment(ps, n, entered), ref, i) == Copies(ps, i, n + 1, ref)
    {
      CountPayment(ps, n, entered, ref, i);
      CountEvidence(ps, n, book, waiting, ref, i);
      CopiesStep(ps, n, ref, i);
      LabelNewest(ps, n);
      assert Times(book, ref, i) == Copies(ps, i, n, ref);
    }
  }

  /** The book after a scrap without evidence: it is entered under its context, or not at all. */
  function EnterContext(ps: seq<Piece>, n: nat, book: Book): Book
    requires n < |ps|
  {
    if Context(ps, n) != "" then Enter(book, Context(ps, n), n) else book
  }

  /** The book after scrap n, before it is looked at as a payment. */
  function EnterScrap(ps: seq<Piece>, n: nat, book: Book, waiting: seq<nat>): Book
    requires n < |ps| && forall k :: 0 <= k < |waiting| ==> waiting[k] < n
  {
    if ps[n].evidence != [] then EnterEvidence(ps, n, book, waiting) else EnterContext(ps, n, book)
  }

  lemma {:induction false} CountContext(ps: seq<Piece>, n: nat, book: Book, ref: string, i: nat)
    requires n < |ps| && i < |ps| && ps[n].evidence == []
    ensures Times(EnterContext(ps, n, book), ref, i) == Times(book, ref, i)
            + if i == n then multiset(Label(ps, n, n + 1))[ref] else 0
  {
    LabelNewest(ps, n);
    if Context(ps, n) != "" {
      CountEnter(book, Context(ps, n), n, ref, i);
    }
  }

  lemma {:induction false} KeptWithoutEvidence(ps: seq<Piece>, n: nat, book: Book)
    requires n < |ps| && ps[n].evidence == []
    requires Kept(ps, n, book)
    ensures Kept(ps, n + 1, EnterPayment(ps, n, EnterContext(ps, n, book)))
  {
    var entered := EnterContext(ps, n, book);
    forall ref, i: nat | i < |ps|
      ensures Times(EnterPayment(ps, n, entered), ref, i) == Copies(ps, i, n + 1, ref)
    {
      CountPayment(ps, n, entered, ref, i);
      CountContext(ps, n, book, ref, i);
      CopiesStep(ps, n, ref, i);
      assert Times(book, ref, i) == Copies(ps, i, n, ref);
    }
  }

  // ---- The whole book ----

  /** A sender's buffer after scrap n. */
  function NextWaiting(ps: seq<Piece>, sender: string, n: nat, waiting: seq<nat>): (after: seq<nat>)
    requires n < |ps| && forall k :: 0 <= k < |waiting| ==> waiting[k] < n
    ensures forall k :: 0 <= k < |after| ==> after[k] < n + 1
  {
    if ps[n].sender != sender then waiting
    else if ps[n].evidence != [] then []
    else if Context(ps, n) != "" then waiting
    else waiting + [n]
  }

  /** The sender's scraps that wait for evidence after n scraps, in order. */
  function WaitingOf(ps: seq<Piece>, sender: string, n: nat): (waiting: seq<nat>)
    requires n <= |ps|
    ensures forall k :: 0 <= k < |waiting| ==> waiting[k] < n
  {
    if n == 0 then [] else NextWaiting(ps, sender, n - 1, WaitingOf(ps, sender, n - 1))
  }

  lemma {:induction false} NextWaitingWaits(ps: seq<Piece>, sender: string, n: nat, waiting: seq<nat>)
    requires n < |ps| && Waiting(ps, sender, n, waiting)
    ensures Waiting(ps, sender, n + 1, NextWaiting(ps, sender, n, waiting))
  {
    if ps[n].sender != sender {
      WaitingOther(ps, sender, n, waiting);
    } else if ps[n].evidence != [] {
      WaitingReleased(ps, n);
    } else if Context(ps, n) != "" {
      WaitingCarried(ps, n, waiting);
    } else {
      WaitingBuffered(ps, n, waiting);
    }
  }

  lemma {:induction false} WaitingOfWaits(ps: seq<Piece>, sender: string, n: nat)
    requires n <= |ps|
    ensures Waiting(ps, sender, n, WaitingOf(ps, sender, n))
  {
    for k := 0 to n
      invariant Waiting(ps, sender, k, WaitingOf(ps, sender, k))
    {
      NextWaitingWaits(ps, sender, k, WaitingOf(ps, sender, k));
    }
  }

  /** The book after scrap n. */
  function NextBook(ps: seq<Piece>, n: nat, book: Book, waiting: seq<nat>): Book
    requires n < |ps| && forall k :: 0 <= k < |waiting| ==> waiting[k] < n
  {
    EnterPayment(ps, n, EnterScrap(ps, n, book, waiting))
  }

  /** The conversations after n scraps: which scraps each holds, in the order in which they came to belong to it. */
  function BookUpTo(ps: seq<Piece>, n: nat): Book
    requires n <= |ps|
  {
    if n == 0 then map[] else NextBook(ps, n - 1, BookUpTo(ps, n - 1), WaitingOf(ps, ps[n - 1].sender, n - 1))
  }

  lemma {:induction false} NextBookKept(ps: seq<Piece>, n: nat, book: Book, waiting: seq<nat>)
    requires n < |ps| && Kept(ps, n, book) && Waiting(ps, ps[n].sender, n, waiting)
    ensures Kept(ps, n + 1, NextBook(ps, n, book, waiting))
  {
    if ps[n].evidence != [] {
      KeptByEvidence(ps, n, book, waiting);
    } else {
      KeptWithoutEvidence(ps, n, book);
    }
  }

  /** After any number of scraps the book holds each scrap as often as its label says. */
  lemma {:induction false} BookIsKept(ps: seq<Piece>, n: nat)
    requires n <= |ps|
    ensures Kept(ps, n, BookUpTo(ps, n))
  {
    assert forall ref, i: nat :: Times(map[], ref, i) == 0;
    for k := 0 to n
      invariant Kept(ps, k, BookUpTo(ps, k))
    {
      WaitingOfWaits(ps, ps[k].sender, k);
      NextBookKept(ps, k, BookUpTo(ps, k), WaitingOf(ps, ps[k].sender, k));
    }
  }

  /** The book grows at the ends of its entries, by scraps below `limit`, and has no empty entry. */
  ghost predicate GrownBelow(before: Book, after: Book, limit: nat) {
    && (forall ref :: Entries(before, ref) <= Entries(after, ref))
    && (forall ref, k :: |Entries(before, ref)| <= k < |Entries(after, ref)| ==> Entries(after, ref)[k] < limit)
    && (forall ref :: ref in after && after[ref] == [] ==> ref in before && before[ref] == [])
  }

  lemma {:induction false} GrownTwice(a: Book, b: Book, c: Book, limit: nat)
    requires GrownBelow(a, b, limit) && GrownBelow(b, c, limit)
    ensures GrownBelow(a, c, limit)
  {
    forall ref
      ensures Entries(a, ref) <= Entries(c, ref)
      ensures forall k :: |Entries(a, ref)| <= k < |Entries(c, ref)| ==> Entries(c, ref)[k] < limit
    {
      assert Entries(a, ref) <= Entries(b, ref) <= Entries(c, ref);
    }
  }

  lemma {:induction false} EnterGrows(book: Book, ref: string, i: nat, limit: nat)
    requires i < limit
    ensures GrownBelow(book, Enter(book, ref, i), limit)
  {
  }

  lemma {:induction false} EnterUnderGrows(book: Book, refs: seq<string>, n: nat, i: nat, limit: nat)
    requires n <= |refs| && i < limit
    ensures GrownBelow(book, EnterUnder(book, refs, n, i), limit)
  {
    for k := 0 to n
      invariant GrownBelow(book, EnterUnder(book, refs, k, i), limit)
    {
      EnterGrows(EnterUnder(book, refs, k, i), refs[k], i, limit);
      GrownTwice(book, EnterUnder(book, refs, k, i), EnterUnder(book, refs, k + 1, i), limit);
    }
  }

  lemma {:induction false} EnterEachGrows(book: Book, ref: string, scraps: seq<nat>, n: nat, limit: nat)
    requires n <= |scraps| && forall k :: 0 <= k < |scraps| ==> scraps[k] < limit
    ensures GrownBelow(book, EnterEach(book, ref, scraps, n), limit)
  {
    for k := 0 to n
      invariant GrownBelow(book, EnterEach(book, ref, scraps, k), limit)
    {
      EnterGrows(EnterEach(book, ref, scraps, k), ref, scraps[k], limit);
      GrownTwice(book, EnterEach(book, ref, scraps, k), EnterEach(book, ref, scraps, k + 1), limit);
    }
  }

  lemma {:induction false} EnterScrapGrows(ps: seq<Piece>, n: nat, book: Book, waiting: seq<nat>)
    requires n < |ps| && forall k :: 0 <= k < |waiting| ==> waiting[k] < n
    ensures GrownBelow(book, EnterScrap(ps, n, book, waiting), n + 1)
  {
    if ps[n].evidence != [] {
      var evidence, recent := ps[n].evidence, Recent(ps, n, waiting, |waiting|);
      var own := EnterUnder(book, evidence, |evidence|, n);
      EnterUnderGrows(book, evidence, |evidence|, n, n + 1);
      EnterEachGrows(own, evidence[0], recent, |recent|, n + 1);
      GrownTwice(book, own, EnterScrap(ps, n, book, waiting), n + 1);
    } else if Context(ps, n) != "" {
      EnterGrows(book, Context(ps, n), n, n + 1);
    }
  }

  lemma {:induction false} NextBookGrows(ps: seq<Piece>, n: nat, book: Book, waiting: seq<nat>)
    requires n < |ps| && forall k :: 0 <= k < |waiting| ==> waiting[k] < n
    ensures GrownBelow(book, NextBook(ps, n, book, waiting), n + 1)
  {
    var entered := EnterScrap(ps, n, book, waiting);
    EnterScrapGrows(ps, n, book, waiting);
    if ps[n].payment {
      EnterGrows(entered, BOOKKEEPING_ENTITY_REF, n, n + 1);
      GrownTwice(book, entered, EnterPayment(ps, n, entered), n + 1);
    }
  }

  lemma {:induction false} GrownWider(a: Book, b: Book, limit: nat, wider: nat)
    requires GrownBelow(a, b, limit) && limit <= wider
    ensures GrownBelow(a, b, wider)
  {
  }

  lemma {:induction false} GrownNot(book: Book, limit: nat)
    ensures GrownBelow(book, book, limit)
  {
  }

  lemma {:induction false} GrownAlong(books: seq<Book>, m: nat, n: nat)
    requires m <= n < |books| && forall k :: m <= k < n ==> GrownBelow(books[k], books[k + 1], k + 1)
    ensures GrownBelow(books[m], books[n], n)
  {
    if m == n {
      GrownNot(books[m], n);
    } else {
      GrownAlong(books, m, n - 1);
      GrownWider(books[m], books[n - 1], n - 1, n);
      GrownTwice(books[m], books[n - 1], books[n], n);
    }
  }

  lemma {:induction false} BookGrows(ps: seq<Piece>, n: nat)
    requires n < |ps|
    ensures GrownBelow(BookUpTo(ps, n), BookUpTo(ps, n + 1), n + 1)
  {
    NextBookGrows(ps, n, BookUpTo(ps, n), WaitingOf(ps, ps[n].sender, n));
  }

  /** Entries are never reordered: what a conversation held after m scraps stays in front, and newer scraps follow. */
  lemma {:induction false} BookOnlyGrows(ps: seq<Piece>, m: nat, n: nat)
    requires m <= n <= |ps|
    ensures GrownBelow(BookUpTo(ps, m), BookUpTo(ps, n), n)
  {
    var books := seq(n + 1, k requires 0 <= k <= n => BookUpTo(ps, k));
    forall k | m <= k < n
      ensures GrownBelow(books[k], books[k + 1], k + 1)
    {
      BookGrows(ps, k);
    }
    GrownAlong(books, m, n);
  }

  /** A conversation exists exactly if some scrap belongs to it, and holds nothing but scraps of the list. */
  lemma {:induction false} BookIsTight(ps: seq<Piece>, n: nat)
    requires n <= |ps|
    ensures forall ref :: ref in BookUpTo(ps, n) <==> exists i :: 0 <= i < |ps| && Copies(ps, i, n, ref) > 0
    ensures forall ref, k :: ref in BookUpTo(ps, n) && 0 <= k < |BookUpTo(ps, n)[ref]| ==> BookUpTo(ps, n)[ref][k] < n
  {
    var book := BookUpTo(ps, n);
    BookIsKept(ps, n);
    BookOnlyGrows(ps, 0, n);
    forall ref
      ensures ref in book ==> forall k :: 0 <= k < |book[ref]| ==> book[ref][k] < n
      ensures ref in book <==> exists i :: 0 <= i < |ps| && Copies(ps, i, n, ref) > 0
    {
      assert Entries(BookUpTo(ps, 0), ref) == [];
      if ref in book {
        assert Entries(book, ref) == book[ref] != [];
        var i := book[ref][0];
        assert i in multiset(book[ref]);
        assert Times(book, ref, i) == Copies(ps, i, n, ref);
      }
      if i :| 0 <= i < |ps| && Copies(ps, i, n, ref) > 0 {
        assert Times(book, ref, i) == Copies(ps, i, n, ref);
      }
    }
  }

  // ---- The order within a conversation ----

  ghost predicate Ascends(xs: seq<nat>) {
    forall a, b :: 0 <= a < b < |xs| ==> xs[a] < xs[b]
  }

  lemma {:induction false} UnderAdds(book: Book, refs: seq<string>, n: nat, i: nat, ref: string)
    requires n <= |refs|
    ensures Entries(book, ref) <= Entries(EnterUnder(book, refs, n, i), ref)
    ensures forall a :: |Entries(book, ref)| <= a < |Entries(EnterUnder(book, refs, n, i), ref)| ==>
      Entries(EnterUnder(book, refs, n, i), ref)[a] == i
  {
    if 0 < n {
      UnderAdds(book, refs, n - 1, i, ref);
    }
  }

  lemma {:induction false} EachAdds(book: Book, ref: string, scraps: seq<nat>, n: nat, c: string)
    requires n <= |scraps|
    ensures Entries(EnterEach(book, ref, scraps, n), c) == Entries(book, c) + if c == ref then scraps[..n] else []
  {
    if 0 < n {
      EachAdds(book, ref, scraps, n - 1, c);
      assert scraps[..n] == scraps[..n - 1] + [scraps[n - 1]];
    }
  }

  lemma {:induction false} WaitingAscends(ps: seq<Piece>, sender: string, n: nat)
    requires n <= |ps|
    ensures Ascends(WaitingOf(ps, sender, n))
  {
    if 0 < n {
      WaitingAscends(ps, sender, n - 1);
    }
  }

  lemma {:induction false} RecentAscends(ps: seq<Piece>, n: nat, waiting: seq<nat>, m: nat)
    requires n < |ps| && m <= |waiting| && forall k :: 0 <= k < |waiting| ==> waiting[k] < n
    requires Ascends(waiting)
    ensures Ascends(Recent(ps, n, waiting, m))
    ensures forall x :: x in Recent(ps, n, waiting, m) ==> exists k :: 0 <= k < m && waiting[k] == x
  {
    if 0 < m {
      RecentAscends(ps, n, waiting, m - 1);
      var before := Recent(ps, n, waiting, m - 1);
      forall a | 0 <= a < |before|
        ensures before[a] < waiting[m - 1]
      {
        assert before[a] in before;
      }
    }
  }

  /** Behind the entries that were there before come scrap n, then older ones in order, then scrap n again if it is a payment. */
  ghost predicate JoinsInOrder(before: seq<nat>, after: seq<nat>, n: nat) {
    && before <= after
    && forall a, b :: |before| <= a < b < |after| && after[b] != n ==> after[a] == n || after[a] < after[b]
  }

  lemma {:induction false} EvidenceJoins(ps: seq<Piece>, n: nat, book: Book, ref: string)
    requires n < |ps| && ps[n].evidence != []
    ensures var waiting := WaitingOf(ps, ps[n].sender, n);
      JoinsInOrder(Entries(book, ref), Entries(EnterEvidence(ps, n, book, waiting), ref), n)
  {
    var evidence, waiting := ps[n].evidence, WaitingOf(ps, ps[n].sender, n);
    var recent, own := Recent(ps, n, waiting, |waiting|), EnterUnder(book, evidence, |evidence|, n);
    WaitingAscends(ps, ps[n].sender, n);
    RecentAscends(ps, n, waiting, |waiting|);
    UnderAdds(book, evidence, |evidence|, n, ref);
    EachAdds(own, evidence[0], recent, |recent|, ref);
    assert recent[..|recent|] == recent;
  }

  /**
   The order within a conversation: what a scrap brings is put behind what was
   there, the scrap itself first, and behind it the waiting ones it reaches back
   to, in their order.
   */
  lemma {:induction false} ScrapsJoinInOrder(ps: seq<Piece>, n: nat, ref: string)
    requires n < |ps|
    ensures JoinsInOrder(Entries(BookUpTo(ps, n), ref), Entries(BookUpTo(ps, n + 1), ref), n)
  {
    var book, waiting := BookUpTo(ps, n), WaitingOf(ps, ps[n].sender, n);
    ScrapJoins(ps, n, book, ref);
    PaymentJoins(ps, n, book, EnterScrap(ps, n, book, waiting), ref);
  }

  lemma {:induction false} ScrapJoins(ps: seq<Piece>, n: nat, book: Book, ref: string)
    requires n < |ps|
    ensures var waiting := WaitingOf(ps, ps[n].sender, n);
      JoinsInOrder(Entries(book, ref), Entries(EnterScrap(ps, n, book, waiting), ref), n)
  {
    if ps[n].evidence != [] {
      EvidenceJoins(ps, n, book, ref);
    }
  }

  lemma {:induction false} PaymentJoins(ps: seq<Piece>, n: nat, book: Book, entered: Book, ref: string)
    requires n < |ps| && JoinsInOrder(Entries(book, ref), Entries(entered, ref), n)
    ensures JoinsInOrder(Entries(book, ref), Entries(EnterPayment(ps, n, entered), ref), n)
  {
  }
}
