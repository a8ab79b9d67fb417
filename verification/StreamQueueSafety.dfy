/** The invariant of the lock-granularity queue: it holds at the start and every step keeps it. */
module StreamQueueSafety {
  import opened FifoPool
  import opened Tally
  import opened StreamQueueSteps

  lemma InitInv(n: nat)
    requires n >= 1
    ensures Inv(Init(n))
  {
    var s := Init(n);
    forall id | 0 <= id < n ensures multiset(s.streams)[id] == 1 {
      CountUpTo(n, id);
    }
  }

  lemma {:induction false} CountUpTo(n: nat, id: int)
    ensures multiset(seq(n, i => i as int))[id] == if 0 <= id < n then 1 else 0
  {
    if n > 0 {
      CountUpTo(n - 1, id);
      assert seq(n, i => i as int) == seq(n - 1, i => i as int) + [n - 1];
    }
  }

  // ---- How a step changes a sum over the threads ----

  /** The thread, other than the moving one, that a step changes. */
  function Peer(th: Thread): Option<nat> {
    if th.Inside? && th.at.Fulfilling? then Some(th.at.ticket) else None
  }

  lemma StepTally(s: State, t: nat, c: Choice, w: Thread -> nat)
    requires WellFormed(s) && t < |s.threads| && Step(s, t, c).Some?
    requires Peer(s.threads[t]) != Some(t)
    ensures
      var s' := Step(s, t, c).value;
      var p := Peer(s.threads[t]);
      && |s'.threads| == |s.threads|
      && s'.threads[t] == Next(s, t, c).value
      && (forall u :: 0 <= u < |s.threads| && u != t && Some(u) != p ==> s'.threads[u] == s.threads[u])
      && (p.None? ==> Sum(s'.threads, w) + w(s.threads[t]) == Sum(s.threads, w) + w(s'.threads[t]))
      && (p.Some? ==>
            && s'.threads[p.value] == Fulfilled(s.threads[p.value], s.threads[t].at.id)
            && Sum(s'.threads, w) + w(s.threads[t]) + w(s.threads[p.value])
               == Sum(s.threads, w) + w(s'.threads[t]) + w(s'.threads[p.value]))
  {
    var s' := Step(s, t, c).value;
    SumUpdate(s.threads, t, s'.threads[t], w);
    var p := Peer(s.threads[t]);
    if p.Some? {
      SumUpdate(s.threads[t := s'.threads[t]], p.value, s'.threads[p.value], w);
    }
  }

  /** The promise being fulfilled belongs to another thread, past its own critical section. */
  predicate PeerReady(s: State, t: nat)
    requires WellFormed(s) && t < |s.threads|
  {
    var p := Peer(s.threads[t]);
    p.Some? ==>
      p.value != t &&
      (s.threads[p.value] == Inside(true, LeavingFront(None)) || s.threads[p.value] == Inside(true, Waiting(None)))
  }

  lemma PeerAwaits(s: State, t: nat)
    requires WellFormed(s) && Promised(s) && Metered(s) && t < |s.threads|
    ensures PeerReady(s, t)
  {
    if Peer(s.threads[t]).Some? {
      var p := Peer(s.threads[t]).value;
      SumBoundsItem(s.threads, t, Serves(p));
      assert AwaitsId(s.threads[p]);
      assert RightKind(s.threads[p]);
    }
  }

  // ---- Each clause is kept, thread by thread ----

  lemma NextInRange(s: State, t: nat, c: Choice)
    requires WellFormed(s) && t < |s.threads| && Step(s, t, c).Some?
    requires OwnSlot(s, s.threads[t])
    ensures PointInRange(s.n, Next(s, t, c).value)
    ensures TicketOf(Next(s, t, c).value).Some? ==> TicketOf(Next(s, t, c).value).value < |s.threads|
  {
    assert PointInRange(s.n, s.threads[t]);
  }

  lemma StepKeepsWellFormed(s: State, t: nat, c: Choice)
    requires WellFormed(s) && t < |s.threads| && Step(s, t, c).Some?
    requires OwnSlot(s, s.threads[t])
    ensures WellFormed(Step(s, t, c).value)
  {
    var s' := Step(s, t, c).value;
    NextInRange(s, t, c);
    forall u | 0 <= u < |s'.threads|
      ensures PointInRange(s.n, s'.threads[u])
      ensures TicketOf(s'.threads[u]).Some? ==> TicketOf(s'.threads[u]).value < |s.threads|
    {
      assert PointInRange(s.n, s.threads[u]);
      assert PointInRange(s.n, s.threads[t]);
    }
  }

  lemma LockedAt(s: State, t: nat, c: Choice, u: nat)
    requires WellFormed(s) && t < |s.threads| && Step(s, t, c).Some? && u < |s.threads|
    requires HoldsFront(s.threads[t]) <==> s.frontOwner == Some(t)
    requires HoldsQueue(s.threads[t]) <==> s.queueOwner == Some(t)
    requires HoldsFront(s.threads[u]) <==> s.frontOwner == Some(u)
    requires HoldsQueue(s.threads[u]) <==> s.queueOwner == Some(u)
    ensures
      var s' := Step(s, t, c).value;
      && |s'.threads| == |s.threads|
      && (HoldsFront(s'.threads[u]) <==> s'.frontOwner == Some(u))
      && (HoldsQueue(s'.threads[u]) <==> s'.queueOwner == Some(u))
  {}

  lemma StepKeepsLocked(s: State, t: nat, c: Choice)
    requires WellFormed(s) && Locked(s) && t < |s.threads| && Step(s, t, c).Some?
    ensures Locked(Step(s, t, c).value)
  {
    forall u | 0 <= u < |s.threads|
      ensures
        var s' := Step(s, t, c).value;
        && |s'.threads| == |s.threads|
        && (HoldsFront(s'.threads[u]) <==> s'.frontOwner == Some(u))
        && (HoldsQueue(s'.threads[u]) <==> s'.queueOwner == Some(u))
    {
      LockedAt(s, t, c, u);
    }
  }

  // The next lemmas say what one step does to one thread and to one queue; the rest is the sum.

  lemma CarriedAfter(s: State, t: nat, c: Choice)
    requires WellFormed(s) && t < |s.threads| && Step(s, t, c).Some?
    ensures
      var th := s.threads[t];
      CarriedId(Next(s, t, c).value) ==
        if th.Inside? && th.at.Read? then Some(th.at.id)
        else if th.Inside? && (th.at.Reserved? || th.at.Fulfilling?) then None
        else CarriedId(th)
  {}

  lemma StreamsDelta(s: State, th: Thread, id: int)
    requires WellFormed(s) && PointInRange(s.n, th) && OwnSlot(s, th) && 0 <= id < s.n
    requires th.Inside? && th.at.Reserved? ==> s.streams[th.at.slot] == -1
    ensures
      multiset(StreamsAfter(s, th))[id] + (if th.Inside? && th.at.Read? && th.at.id == id then 1 else 0)
      == multiset(s.streams)[id] + if th.Inside? && th.at.Reserved? && th.at.id == id then 1 else 0
  {}

  lemma ConservedAt(s: State, t: nat, c: Choice, id: int)
    requires WellFormed(s) && t < |s.threads| && Step(s, t, c).Some? && PeerReady(s, t)
    requires OwnSlot(s, s.threads[t]) && 0 <= id < s.n
    requires s.threads[t].Inside? && s.threads[t].at.Reserved? ==> s.streams[s.threads[t].at.slot] == -1
    ensures
      var s' := Step(s, t, c).value;
      multiset(s'.streams)[id] + Sum(s'.threads, Carries(id)) == multiset(s.streams)[id] + Sum(s.threads, Carries(id))
  {
    StepTally(s, t, c, Carries(id));
    CarriedAfter(s, t, c);
    StreamsDelta(s, s.threads[t], id);
  }

  lemma TicketAfter(s: State, t: nat, c: Choice)
    requires WellFormed(s) && t < |s.threads| && Step(s, t, c).Some?
    ensures
      var th := s.threads[t];
      var next := Next(s, t, c).value;
      && TicketOf(next) == (if th.Inside? && th.at.AtQueue? && s.promises != [] then Some(s.promises[0])
                            else if th.Inside? && th.at.Fulfilling? then None
                            else TicketOf(th))
      && (AwaitsId(next) <==> AwaitsId(th) || (th.Inside? && th.at.Enqueuing?))
  {}

  lemma PromisesDelta(s: State, t: nat, u: nat)
    requires WellFormed(s) && t < |s.threads|
    ensures
      var th := s.threads[t];
      multiset(PromisesAfter(s, t, th))[u]
      + (if th.Inside? && th.at.AtQueue? && s.promises != [] && s.promises[0] == u then 1 else 0)
      == multiset(s.promises)[u] + if th.Inside? && th.at.Enqueuing? && u == t then 1 else 0
  {
    if s.promises != [] {
      assert s.promises == [s.promises[0]] + s.promises[1..];
    }
  }

  lemma AwaitsAfter(s: State, t: nat, c: Choice, u: nat)
    requires WellFormed(s) && t < |s.threads| && Step(s, t, c).Some? && PeerReady(s, t) && u < |s.threads|
    ensures
      var th, s', p := s.threads[t], Step(s, t, c).value, Peer(s.threads[t]);
      && |s'.threads| == |s.threads| && s'.promises == PromisesAfter(s, t, th)
      && (AwaitsId(s'.threads[u]) <==>
            (AwaitsId(s.threads[u]) && p != Some(u)) || (u == t && th.Inside? && th.at.Enqueuing?))
      && (p == Some(u) ==> AwaitsId(s.threads[u]) && TicketOf(th) == Some(u) && TicketOf(s.threads[u]).None?)
  {
    TicketAfter(s, t, c);
  }

  lemma PromisedAt(s: State, t: nat, c: Choice, u: nat)
    requires WellFormed(s) && t < |s.threads| && Step(s, t, c).Some? && PeerReady(s, t) && u < |s.threads|
    requires multiset(s.promises)[u] + Sum(s.threads, Serves(u)) == if AwaitsId(s.threads[u]) then 1 else 0
    ensures
      var s' := Step(s, t, c).value;
      multiset(s'.promises)[u] + Sum(s'.threads, Serves(u)) == if AwaitsId(s'.threads[u]) then 1 else 0
  {
    StepTally(s, t, c, Serves(u));
    TicketAfter(s, t, c);
    AwaitsAfter(s, t, c, u);
    PromisesDelta(s, t, u);
  }

  lemma MeterDelta(s: State, t: nat, c: Choice)
    requires WellFormed(s) && t < |s.threads| && Step(s, t, c).Some? && RightKind(s.threads[t])
    ensures
      var th := s.threads[t];
      && RightKind(Next(s, t, c).value)
      && CurrentAfter(s, th, c) + InGuard()(th) == s.currentRequests + InGuard()(Next(s, t, c).value)
      && ActiveAfter(s, th) + Infers()(th) == s.inferReqActive + Infers()(Next(s, t, c).value)
  {}

  lemma StepKeepsMetered(s: State, t: nat, c: Choice)
    requires WellFormed(s) && Metered(s) && t < |s.threads| && Step(s, t, c).Some? && PeerReady(s, t)
    ensures Metered(Step(s, t, c).value)
  {
    assert RightKind(s.threads[t]);
    StepTally(s, t, c, InGuard());
    StepTally(s, t, c, Infers());
    MeterDelta(s, t, c);
  }

  // ---- The circular window ----

  // the four steps that change it

  predicate Takes(th: Thread) {
    th.Inside? && th.at.Read?
  }

  predicate MovesFront(th: Thread) {
    th.Inside? && th.at.Cleared?
  }

  predicate MovesBack(s: State, th: Thread, c: Choice) {
    th.Inside? && th.at.TryAdvance? && s.back == th.at.seen && !c.spurious
  }

  predicate Stores(th: Thread) {
    th.Inside? && th.at.Reserved?
  }

  function WidthStep(s: State, th: Thread, c: Choice): int {
    Width(s) + (if MovesBack(s, th, c) then 1 else 0) - if MovesFront(th) then 1 else 0
  }

  lemma AwayAfter(s: State, t: nat, c: Choice)
    requires WellFormed(s) && t < |s.threads| && Step(s, t, c).Some?
    ensures
      var th := s.threads[t];
      AwayOf(Next(s, t, c).value) + (if MovesBack(s, th, c) || Peer(th).Some? then 1 else 0)
      == AwayOf(th) + if MovesFront(th) then 1 else 0
  {}

  lemma WidthAfter(s: State, t: nat, c: Choice)
    requires WellFormed(s) && t < |s.threads| && Step(s, t, c).Some? && PeerReady(s, t)
    ensures Width(Step(s, t, c).value) == WidthStep(s, s.threads[t], c)
  {
    StepTally(s, t, c, Away());
    AwayAfter(s, t, c);
  }

  lemma FrontClearedAfter(s: State, t: nat, c: Choice)
    requires WellFormed(s) && Locked(s) && t < |s.threads| && Step(s, t, c).Some? && PeerReady(s, t)
    ensures
      var th := s.threads[t];
      FrontCleared(Step(s, t, c).value) <==> Takes(th) || (FrontCleared(s) && !MovesFront(th))
  {
    var s' := Step(s, t, c).value;
    assert HoldsFront(s.threads[t]) <==> s.frontOwner == Some(t);
    if s.frontOwner.Some? {
      assert HoldsFront(s.threads[s.frontOwner.value]);
    }
  }

  lemma BackReservedAfter(s: State, t: nat, c: Choice)
    requires WellFormed(s) && Locked(s) && t < |s.threads| && Step(s, t, c).Some? && PeerReady(s, t)
    ensures
      var th := s.threads[t];
      BackReserved(Step(s, t, c).value) <==> MovesBack(s, th, c) || (BackReserved(s) && !Stores(th))
  {
    var s' := Step(s, t, c).value;
    assert HoldsQueue(s.threads[t]) <==> s.queueOwner == Some(t);
    if s.queueOwner.Some? {
      assert HoldsQueue(s.threads[s.queueOwner.value]);
    }
  }

  lemma RingTake(streams: seq<int>, front: nat, back: nat, width: int, hi: int)
    requires Ring(streams, front, back, width, 0, hi) && streams[front] >= 0
    ensures Ring(streams[front := -1], front, back, width, 1, hi)
  {
    assert Slot(front, 0, |streams|) == front;
  }

  lemma RingMoveFront(streams: seq<int>, front: nat, back: nat, width: int, hi: int)
    requires Ring(streams, front, back, width, 1, hi)
    ensures Ring(streams, Slot(front, 1, |streams|), back, width - 1, 0, hi - 1)
  {
    var n := |streams|;
    var next := Slot(front, 1, n);
    forall k | 0 <= k < n ensures streams[Slot(next, k, n)] >= 0 <==> 0 <= k < hi - 1 {
      assert Slot(next, k, n) == if k + 1 == n then Slot(front, 0, n) else Slot(front, k + 1, n);
    }
  }

  lemma RingMoveBack(streams: seq<int>, front: nat, back: nat, width: int, lo: int)
    requires Ring(streams, front, back, width, lo, width) && width < |streams|
    ensures Ring(streams, front, Slot(back, 1, |streams|), width + 1, lo, width)
  {}

  lemma RingStore(streams: seq<int>, front: nat, back: nat, width: int, lo: int, id: int)
    requires Ring(streams, front, back, width, lo, width - 1) && id >= 0
    ensures Ring(streams[Slot(front, width - 1, |streams|) := id], front, back, width, lo, width)
  {}

  function LoStep(s: State, th: Thread): int {
    if Takes(th) || (FrontCleared(s) && !MovesFront(th)) then 1 else 0
  }

  function HiStep(s: State, th: Thread, c: Choice): int {
    WidthStep(s, th, c) - if MovesBack(s, th, c) || (BackReserved(s) && !Stores(th)) then 1 else 0
  }

  /** The ring after a step of thread th, whatever happens to the threads. */
  lemma RingAfter(s: State, th: Thread, c: Choice)
    requires WellFormed(s) && PointInRange(s.n, th) && OwnSlot(s, th)
    requires Ring(s.streams, s.front, s.back, Width(s), Lo(s), Hi(s))
    requires Takes(th) ==> !FrontCleared(s)
    requires MovesFront(th) ==> FrontCleared(s)
    requires MovesBack(s, th, c) ==> !BackReserved(s) && Width(s) < s.n
    requires Stores(th) ==> BackReserved(s)
    ensures Ring(StreamsAfter(s, th), FrontAfter(s, th), BackAfter(s, th, c),
                 WidthStep(s, th, c), LoStep(s, th), HiStep(s, th, c))
  {
    if Takes(th) {
      RingAfterTake(s, th, c);
    } else if MovesFront(th) {
      RingAfterFront(s, th, c);
    } else if Stores(th) {
      RingAfterStore(s, th, c);
    } else {
      RingAfterBack(s, th, c);
    }
  }

  lemma RingAfterTake(s: State, th: Thread, c: Choice)
    requires WellFormed(s) && PointInRange(s.n, th) && OwnSlot(s, th)
    requires Ring(s.streams, s.front, s.back, Width(s), Lo(s), Hi(s))
    requires Takes(th) && !FrontCleared(s)
    ensures Ring(StreamsAfter(s, th), FrontAfter(s, th), BackAfter(s, th, c),
                 WidthStep(s, th, c), LoStep(s, th), HiStep(s, th, c))
  {
    RingTake(s.streams, s.front, s.back, Width(s), Hi(s));
  }

  lemma RingAfterFront(s: State, th: Thread, c: Choice)
    requires WellFormed(s) && PointInRange(s.n, th)
    requires Ring(s.streams, s.front, s.back, Width(s), Lo(s), Hi(s))
    requires MovesFront(th) && FrontCleared(s)
    ensures Ring(StreamsAfter(s, th), FrontAfter(s, th), BackAfter(s, th, c),
                 WidthStep(s, th, c), LoStep(s, th), HiStep(s, th, c))
  {
    NextSlot(s.front, s.n);
    RingMoveFront(s.streams, s.front, s.back, Width(s), Hi(s));
  }

  lemma RingAfterStore(s: State, th: Thread, c: Choice)
    requires WellFormed(s) && PointInRange(s.n, th) && OwnSlot(s, th)
    requires Ring(s.streams, s.front, s.back, Width(s), Lo(s), Hi(s))
    requires Stores(th) && BackReserved(s)
    ensures Ring(StreamsAfter(s, th), FrontAfter(s, th), BackAfter(s, th, c),
                 WidthStep(s, th, c), LoStep(s, th), HiStep(s, th, c))
  {
    RingStore(s.streams, s.front, s.back, Width(s), Lo(s), th.at.id);
  }

  lemma RingAfterBack(s: State, th: Thread, c: Choice)
    requires WellFormed(s) && PointInRange(s.n, th)
    requires Ring(s.streams, s.front, s.back, Width(s), Lo(s), Hi(s))
    requires !Takes(th) && !MovesFront(th) && !Stores(th)
    requires MovesBack(s, th, c) ==> !BackReserved(s) && Width(s) < s.n
    ensures Ring(StreamsAfter(s, th), FrontAfter(s, th), BackAfter(s, th, c),
                 WidthStep(s, th, c), LoStep(s, th), HiStep(s, th, c))
  {
    if MovesBack(s, th, c) {
      NextSlot(s.back, s.n);
      RingMoveBack(s.streams, s.front, s.back, Width(s), Lo(s));
    }
  }

  /** Who may change the ring in which way, from the two locks. */
  lemma RingRights(s: State, t: nat, c: Choice)
    requires WellFormed(s) && Locked(s) && t < |s.threads|
    ensures
      var th := s.threads[t];
      && (Takes(th) ==> !FrontCleared(s))
      && (MovesFront(th) ==> FrontCleared(s))
      && (MovesBack(s, th, c) ==> !BackReserved(s) && Width(s) < s.n)
      && (Stores(th) ==> BackReserved(s))
  {
    var th := s.threads[t];
    assert HoldsFront(th) <==> s.frontOwner == Some(t);
    assert HoldsQueue(th) <==> s.queueOwner == Some(t);
    if MovesBack(s, th, c) {
      SumBoundsItem(s.threads, t, Away());
    }
  }

  /** The offsets of the window after a step. */
  lemma OffsetsAfter(s: State, t: nat, c: Choice)
    requires WellFormed(s) && Locked(s) && t < |s.threads| && Step(s, t, c).Some? && PeerReady(s, t)
    ensures
      var th, s' := s.threads[t], Step(s, t, c).value;
      Width(s') == WidthStep(s, th, c) && Lo(s') == LoStep(s, th) && Hi(s') == HiStep(s, th, c)
  {
    WidthAfter(s, t, c);
    FrontClearedAfter(s, t, c);
    BackReservedAfter(s, t, c);
  }

  lemma StepKeepsRing(s: State, t: nat, c: Choice)
    requires WellFormed(s) && Locked(s) && t < |s.threads| && Step(s, t, c).Some? && PeerReady(s, t)
    requires Ring(s.streams, s.front, s.back, Width(s), Lo(s), Hi(s)) && OwnSlot(s, s.threads[t])
    ensures
      var s' := Step(s, t, c).value;
      Ring(s'.streams, s'.front, s'.back, Width(s'), Lo(s'), Hi(s'))
  {
    assert PointInRange(s.n, s.threads[t]);
    OffsetsAfter(s, t, c);
    RingRights(s, t, c);
    RingAfter(s, s.threads[t], c);
  }

  lemma OwnSlotOfMover(s: State, t: nat, c: Choice)
    requires WellFormed(s) && t < |s.threads| && Step(s, t, c).Some? && OwnSlot(s, s.threads[t])
    requires Ring(s.streams, s.front, s.back, Width(s), Lo(s), Hi(s))
    ensures
      var th := s.threads[t];
      OwnSlotIn(Next(s, t, c).value, StreamsAfter(s, th), FrontAfter(s, th), WidthStep(s, th, c))
  {
    var th := s.threads[t];
    if MovesBack(s, th, c) {
      assert Next(s, t, c).value == Inside(th.guarded, Reserved(th.at.id, s.back));
    }
  }

  lemma OwnSlotOfOther(s: State, th: Thread, c: Choice, other: Thread)
    requires WellFormed(s) && PointInRange(s.n, th) && PointInRange(s.n, other)
    requires OwnSlot(s, th) && OwnSlot(s, other)
    requires Ring(s.streams, s.front, s.back, Width(s), Lo(s), Hi(s))
    requires !(HoldsFront(th) && HoldsFront(other)) && !(HoldsQueue(th) && HoldsQueue(other))
    requires MovesFront(th) ==> FrontCleared(s)
    requires Stores(other) || Stores(th) ==> BackReserved(s)
    ensures OwnSlotIn(other, StreamsAfter(s, th), FrontAfter(s, th), WidthStep(s, th, c))
  {
    NextSlot(s.front, s.n);
    assert Slot(s.front, 0, s.n) == s.front;
    if Stores(th) {
      assert s.streams[Slot(s.front, Width(s) - 1, s.n)] < 0;
    }
  }

  lemma OwnSlotAt(s: State, t: nat, c: Choice, u: nat)
    requires WellFormed(s) && Locked(s) && Windowed(s) && t < |s.threads| && Step(s, t, c).Some? && PeerReady(s, t)
    requires u < |s.threads|
    ensures
      var s' := Step(s, t, c).value;
      |s'.threads| == |s.threads| && OwnSlot(s', s'.threads[u])
  {
    var th := s.threads[t];
    assert OwnSlot(s, th);
    WidthAfter(s, t, c);
    if u == t {
      OwnSlotOfMover(s, t, c);
    } else if Peer(th) != Some(u) {
      assert OwnSlot(s, s.threads[u]) && PointInRange(s.n, th) && PointInRange(s.n, s.threads[u]);
      assert HoldsFront(th) <==> s.frontOwner == Some(t);
      assert HoldsQueue(th) <==> s.queueOwner == Some(t);
      assert HoldsFront(s.threads[u]) <==> s.frontOwner == Some(u);
      assert HoldsQueue(s.threads[u]) <==> s.queueOwner == Some(u);
      RingRights(s, t, c);
      RingRights(s, u, c);
      OwnSlotOfOther(s, th, c, s.threads[u]);
    }
  }

  lemma StepKeepsWindowed(s: State, t: nat, c: Choice)
    requires WellFormed(s) && Locked(s) && Windowed(s) && t < |s.threads| && Step(s, t, c).Some? && PeerReady(s, t)
    ensures WellFormed(Step(s, t, c).value) && Windowed(Step(s, t, c).value)
  {
    assert OwnSlot(s, s.threads[t]);
    StepKeepsWellFormed(s, t, c);
    StepKeepsRing(s, t, c);
    forall u | 0 <= u < |s.threads|
      ensures
        var s' := Step(s, t, c).value;
        |s'.threads| == |s.threads| && OwnSlot(s', s'.threads[u])
    {
      OwnSlotAt(s, t, c, u);
    }
  }

  // ---- The whole invariant ----

  /** returnStream never overwrites an idle slot. */
  lemma SlotFree(s: State, t: nat)
    requires Inv(s) && t < |s.threads| && Stores(s.threads[t])
    ensures s.streams[s.threads[t].at.slot] == -1
  {
    assert OwnSlot(s, s.threads[t]);
    assert HoldsQueue(s.threads[t]) <==> s.queueOwner == Some(t);
    assert Hi(s) == Width(s) - 1;
    assert s.streams[Slot(s.front, Width(s) - 1, s.n)] < 0;
  }

  lemma StepKeepsConserved(s: State, t: nat, c: Choice)
    requires Inv(s) && t < |s.threads| && Step(s, t, c).Some? && PeerReady(s, t)
    ensures Conserved(Step(s, t, c).value)
  {
    assert OwnSlot(s, s.threads[t]);
    if Stores(s.threads[t]) {
      SlotFree(s, t);
    }
    forall id | 0 <= id < s.n
      ensures
        var s' := Step(s, t, c).value;
        multiset(s'.streams)[id] + Sum(s'.threads, Carries(id)) == 1
    {
      ConservedAt(s, t, c, id);
    }
  }

  /** How a thread comes to push a promise, and to put an id back. */
  lemma PushingAfter(s: State, t: nat, c: Choice)
    requires WellFormed(s) && t < |s.threads| && Step(s, t, c).Some?
    ensures
      var th := s.threads[t];
      var next := Next(s, t, c).value;
      && (next.Inside? && next.at.Enqueued? ==> th.Inside? && th.at.Enqueuing?)
      && (PutsBack(next) ==> (PutsBack(th) && !Stores(th)) || (th.Inside? && th.at.AtQueue? && s.promises == []))
  {}

  lemma TicketNotPushing(s: State, t: nat, c: Choice, u: nat)
    requires WellFormed(s) && Locked(s) && Promised(s) && t < |s.threads| && Step(s, t, c).Some? && PeerReady(s, t)
    requires u < |s.threads|
    ensures
      var s' := Step(s, t, c).value;
      && |s'.threads| == |s.threads|
      && var p := TicketOf(s'.threads[u]);
         p.Some? ==> p.value < |s.threads| && s'.threads[p.value] != Inside(true, Enqueued)
  {
    TicketFrom(s, t, c, u);
    var p := TicketOf(Step(s, t, c).value.threads[u]);
    if p.Some? {
      if p == TicketOf(s.threads[u]) {
        OldTicketNotPushing(s, t, c, u);
      } else {
        NewTicketNotPushing(s, t, c);
      }
    }
  }

  lemma TicketFrom(s: State, t: nat, c: Choice, u: nat)
    requires WellFormed(s) && t < |s.threads| && Step(s, t, c).Some? && u < |s.threads|
    ensures
      var th, s' := s.threads[t], Step(s, t, c).value;
      && |s'.threads| == |s.threads|
      && var p := TicketOf(s'.threads[u]);
         || p.None? || p == TicketOf(s.threads[u])
         || (th.Inside? && th.at.AtQueue? && s.promises != [] && p == Some(s.promises[0]))
  {
    TicketAfter(s, t, c);
  }

  lemma OldTicketNotPushing(s: State, t: nat, c: Choice, u: nat)
    requires WellFormed(s) && Promised(s) && t < |s.threads| && Step(s, t, c).Some? && PeerReady(s, t)
    requires u < |s.threads| && TicketOf(s.threads[u]).Some?
    ensures Step(s, t, c).value.threads[TicketOf(s.threads[u]).value] != Inside(true, Enqueued)
  {
    PushingAfter(s, t, c);
    if TicketOf(s.threads[u]) == Some(t) {
      SumBoundsItem(s.threads, u, Serves(t));
      assert AwaitsId(s.threads[t]);
    }
  }

  /** A popped promise is not one that its thread is just pushing: both hold queue_mutex. */
  lemma NewTicketNotPushing(s: State, t: nat, c: Choice)
    requires WellFormed(s) && Locked(s) && t < |s.threads| && Step(s, t, c).Some?
    requires s.threads[t].Inside? && s.threads[t].at.AtQueue? && s.promises != []
    ensures Step(s, t, c).value.threads[s.promises[0]] != Inside(true, Enqueued)
  {
    var p := s.promises[0];
    assert HoldsQueue(s.threads[t]) <==> s.queueOwner == Some(t);
    assert HoldsQueue(s.threads[p]) <==> s.queueOwner == Some(p);
  }

  lemma PutsBackAfter(s: State, t: nat, c: Choice, u: nat)
    requires WellFormed(s) && Locked(s) && Promised(s) && t < |s.threads| && Step(s, t, c).Some? && PeerReady(s, t)
    requires u < |s.threads|
    ensures
      var s' := Step(s, t, c).value;
      |s'.threads| == |s.threads| && (PutsBack(s'.threads[u]) ==> s'.promises == [])
  {
    var th := s.threads[t];
    assert PutsBack(th) ==> s.promises == [];
    assert PutsBack(s.threads[u]) ==> s.promises == [];
    PushingAfter(s, t, c);
    OtherPutsBack(s, t, c, u);
    OneOwnsQueue(s, t, u);
    assert th.Inside? && th.at.Enqueuing? ==> HoldsQueue(th);
  }

  lemma OtherPutsBack(s: State, t: nat, c: Choice, u: nat)
    requires WellFormed(s) && t < |s.threads| && Step(s, t, c).Some? && PeerReady(s, t) && u < |s.threads|
    ensures
      var s' := Step(s, t, c).value;
      && |s'.threads| == |s.threads| && s'.threads[t] == Next(s, t, c).value
      && s'.promises == PromisesAfter(s, t, s.threads[t])
      && (u != t && PutsBack(s'.threads[u]) ==> PutsBack(s.threads[u]))
  {}

  lemma OneOwnsQueue(s: State, t: nat, u: nat)
    requires Locked(s) && t < |s.threads| && u < |s.threads|
    ensures HoldsQueue(s.threads[t]) && HoldsQueue(s.threads[u]) ==> t == u
  {}

  lemma StepKeepsPromised(s: State, t: nat, c: Choice)
    requires Inv(s) && t < |s.threads| && Step(s, t, c).Some? && PeerReady(s, t)
    requires WellFormed(Step(s, t, c).value)
    ensures Promised(Step(s, t, c).value)
  {
    forall u | 0 <= u < |s.threads|
      ensures
        var s' := Step(s, t, c).value;
        && |s'.threads| == |s.threads|
        && multiset(s'.promises)[u] + Sum(s'.threads, Serves(u)) == (if AwaitsId(s'.threads[u]) then 1 else 0)
        && (TicketOf(s'.threads[u]).Some? ==> s'.threads[TicketOf(s'.threads[u]).value] != Inside(true, Enqueued))
        && (PutsBack(s'.threads[u]) ==> s'.promises == [])
    {
      PromisedAt(s, t, c, u);
      TicketNotPushing(s, t, c, u);
      PutsBackAfter(s, t, c, u);
    }
  }

  /** Every step of every thread keeps the invariant. */
  lemma StepKeepsInv(s: State, t: nat, c: Choice)
    requires Inv(s) && t < |s.threads| && Step(s, t, c).Some?
    ensures Inv(Step(s, t, c).value)
  {
    assert OwnSlot(s, s.threads[t]);
    PeerAwaits(s, t);
    StepKeepsWindowed(s, t, c);
    StepKeepsLocked(s, t, c);
    StepKeepsConserved(s, t, c);
    StepKeepsPromised(s, t, c);
    StepKeepsMetered(s, t, c);
  }

  function Spawn(s: State): State {
    s.(threads := s.threads + [Outside])
  }

  lemma SpawnTally(s: State, w: Thread -> nat)
    requires w(Outside) == 0
    ensures Sum(Spawn(s).threads, w) == Sum(s.threads, w)
  {
    SumAppend(s.threads, Outside, w);
  }

  lemma SpawnKeepsWellFormed(s: State)
    requires WellFormed(s)
    ensures WellFormed(Spawn(s))
  {}

  lemma SpawnKeepsPromised(s: State)
    requires WellFormed(s) && Promised(s)
    ensures WellFormed(Spawn(s)) && Promised(Spawn(s))
  {
    var s' := Spawn(s);
    SpawnKeepsWellFormed(s);
    NewTicketUnused(s);
    forall u | 0 <= u < |s'.threads|
      ensures multiset(s'.promises)[u] + Sum(s'.threads, Serves(u)) == if AwaitsId(s'.threads[u]) then 1 else 0
    {
      SpawnTally(s, Serves(u));
    }
  }

  lemma NewTicketUnused(s: State)
    requires WellFormed(s)
    ensures multiset(s.promises)[|s.threads|] == 0 && Sum(s.threads, Serves(|s.threads|)) == 0
  {
    assert |s.threads| !in s.promises;
    SumZero(s.threads, Serves(|s.threads|));
  }

  lemma SpawnKeepsConserved(s: State)
    requires Conserved(s)
    ensures Conserved(Spawn(s))
  {
    forall id | 0 <= id < s.n ensures Sum(Spawn(s).threads, Carries(id)) == Sum(s.threads, Carries(id)) {
      SpawnTally(s, Carries(id));
    }
  }

  lemma SpawnKeepsOffsets(s: State)
    ensures Width(Spawn(s)) == Width(s) && Lo(Spawn(s)) == Lo(s) && Hi(Spawn(s)) == Hi(s)
  {
    SpawnTally(s, Away());
  }

  lemma SpawnKeepsWindowed(s: State)
    requires WellFormed(s) && Windowed(s)
    ensures WellFormed(Spawn(s)) && Windowed(Spawn(s))
  {
    SpawnKeepsWellFormed(s);
    SpawnKeepsOffsets(s);
    forall t | 0 <= t < |Spawn(s).threads| ensures OwnSlot(Spawn(s), Spawn(s).threads[t]) {
      assert t < |s.threads| ==> OwnSlot(s, s.threads[t]);
    }
  }

  lemma SpawnKeepsRest(s: State)
    requires Locked(s) && Metered(s)
    ensures Locked(Spawn(s)) && Metered(Spawn(s))
  {
    SpawnTally(s, InGuard());
    SpawnTally(s, Infers());
  }

  /** So does the arrival of a new thread. */
  lemma SpawnKeepsInv(s: State)
    requires Inv(s)
    ensures Inv(Spawn(s))
  {
    SpawnKeepsPromised(s);
    SpawnKeepsConserved(s);
    SpawnKeepsWindowed(s);
    SpawnKeepsRest(s);
  }
}
