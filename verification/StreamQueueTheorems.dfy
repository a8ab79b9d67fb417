/** What holds of the lock-granularity queue in every run. */
module StreamQueueTheorems {
  import opened FifoPool
  import opened Tally
  import opened StreamQueueSteps
  import opened StreamQueueSafety

  // ---- Runs ----

  datatype Event = Spawned | Moved(t: nat, c: Choice)

  predicate Fires(s: State, e: Event, s': State) {
    WellFormed(s) &&
    match e
    case Spawned => s' == Spawn(s)
    case Moved(t, c) => t < |s.threads| && Step(s, t, c) == Some(s')
  }

  predicate Run(n: nat, states: seq<State>, events: seq<Event>) {
    && |states| == |events| + 1
    && states[0] == Init(n)
    && (forall i :: 0 <= i < |events| ==> Fires(states[i], events[i], states[i + 1]))
  }

  lemma FiringKeepsInv(s: State, e: Event, s': State)
    requires Inv(s) && Fires(s, e, s')
    ensures Inv(s')
  {
    match e
    case Spawned => SpawnKeepsInv(s);
    case Moved(t, c) => StepKeepsInv(s, t, c);
  }

  /** Every state of every run, with any number of threads, satisfies the invariant. */
  lemma {:induction false} RunKeepsInv(n: nat, states: seq<State>, events: seq<Event>, i: nat)
    requires n >= 1 && Run(n, states, events) && i < |states|
    ensures Inv(states[i])
  {
    if i == 0 {
      InitInv(n);
    } else {
      RunKeepsInv(n, states, events, i - 1);
      FiringKeepsInv(states[i - 1], events[i - 1], states[i]);
    }
  }

  ghost predicate Reachable(n: nat, s: State) {
    exists states, events :: Run(n, states, events) && states[|states| - 1] == s
  }

  lemma ReachableInit(n: nat)
    ensures Reachable(n, Init(n))
  {
    assert Run(n, [Init(n)], []);
  }

  lemma ReachableStep(n: nat, s: State, e: Event, s': State)
    requires Reachable(n, s) && Fires(s, e, s')
    ensures Reachable(n, s')
  {
    var states, events :| Run(n, states, events) && states[|states| - 1] == s;
    assert Run(n, states + [s'], events + [e]);
  }

  // ---- Ownership ----

  predicate InSlot(s: State, id: int) {
    exists i :: 0 <= i < |s.streams| && s.streams[i] == id
  }

  predicate Carried(s: State, id: int) {
    exists t :: 0 <= t < |s.threads| && CarriedId(s.threads[t]) == Some(id)
  }

  /** Every id is in a slot or with a thread, never both. */
  lemma EveryIdInOnePlace(s: State, id: int)
    requires Inv(s) && 0 <= id < s.n
    ensures InSlot(s, id) <==> !Carried(s, id)
  {
    if InSlot(s, id) {
      assert multiset(s.streams)[id] >= 1;
    } else {
      assert id !in s.streams;
    }
    if Sum(s.threads, Carries(id)) > 0 {
      var t := SumPositive(s.threads, Carries(id));
    } else if Carried(s, id) {
      var t :| 0 <= t < |s.threads| && CarriedId(s.threads[t]) == Some(id);
      SumBoundsItem(s.threads, t, Carries(id));
    }
  }

  /** Two threads never carry the same id. */
  lemma CarriersDiffer(s: State, t: nat, u: nat)
    requires Inv(s) && t < u < |s.threads| && CarriedId(s.threads[t]).Some?
    ensures CarriedId(s.threads[t]) != CarriedId(s.threads[u])
  {
    assert PointInRange(s.n, s.threads[t]);
    if CarriedId(s.threads[t]) == CarriedId(s.threads[u]) {
      SumBoundsPair(s.threads, t, u, Carries(CarriedId(s.threads[t]).value));
    }
  }

  /** Two slots never hold the same id. */
  lemma SlotsDiffer(s: State, i: nat, j: nat)
    requires Inv(s) && i < j < s.n && s.streams[i] >= 0
    ensures s.streams[i] != s.streams[j]
  {
    CountTwice(s.streams, i, j);
  }

  lemma CountTwice(items: seq<int>, i: nat, j: nat)
    requires i < j < |items|
    ensures items[i] == items[j] ==> multiset(items)[items[i]] >= 2
  {
    assert items == items[..j] + [items[j]] + items[j + 1..];
    assert items[i] in items[..j];
  }

  /** The gauges: no more running inferences than streams, nor than requests in a guard. */
  lemma GaugesBounded(s: State)
    requires Inv(s)
    ensures 0 <= s.inferReqActive <= s.n
    ensures s.inferReqActive <= s.currentRequests
  {
    SumMonotone(s.threads, Infers(), Away());
    forall t | 0 <= t < |s.threads| ensures Infers()(s.threads[t]) <= InGuard()(s.threads[t]) {
      assert RightKind(s.threads[t]);
    }
    SumMonotone(s.threads, Infers(), InGuard());
  }

  /** The first promise belongs to a thread that waits for it. */
  lemma FirstIsAwaited(s: State)
    requires Inv(s) && s.promises != []
    ensures s.promises[0] < |s.threads| && AwaitsId(s.threads[s.promises[0]])
  {
    assert multiset(s.promises)[s.promises[0]] >= 1;
  }

  /** With every thread out of the queue all n ids are idle and no promise is pending. */
  lemma QuietQueueIsWhole(s: State)
    requires Inv(s) && (forall t :: 0 <= t < |s.threads| ==> s.threads[t].Outside?)
    ensures s.promises == [] && s.front == s.back
    ensures forall i :: 0 <= i < s.n ==> s.streams[i] >= 0
    ensures s.currentRequests == s.inferReqActive == 0
  {
    SumZero(s.threads, Away());
    SumZero(s.threads, InGuard());
    SumZero(s.threads, Infers());
    if s.promises != [] {
      FirstIsAwaited(s);
    }
    forall i | 0 <= i < s.n ensures s.streams[i] >= 0 {
      var k := if i >= s.front then i - s.front else i + s.n - s.front;
      assert i == Slot(s.front, k, s.n);
    }
  }

  // ---- Progress ----

  predicate Blocked(th: Thread) {
    th.Inside? && th.at == Waiting(None)
  }

  lemma QueueOwnerMoves(s: State, t: nat, c: Choice)
    requires WellFormed(s) && t < |s.threads| && HoldsQueue(s.threads[t])
    ensures Step(s, t, c).Some?
  {}

  lemma FrontOwnerMoves(s: State, t: nat, c: Choice)
    requires WellFormed(s) && t < |s.threads| && HoldsFront(s.threads[t]) && s.queueOwner.None?
    ensures Step(s, t, c).Some?
  {}

  lemma OthersMove(s: State, t: nat, c: Choice)
    requires WellFormed(s) && t < |s.threads| && s.threads[t].Inside? && !Blocked(s.threads[t])
    requires s.queueOwner.None? && s.frontOwner.None?
    ensures Step(s, t, c).Some?
  {}

  /** The two locks never deadlock: unless everybody inside waits for an id, a thread inside can move. */
  lemma OnlyWaitersBlock(s: State, u: nat, c: Choice) returns (t: nat)
    requires Inv(s) && u < |s.threads| && s.threads[u].Inside? && !Blocked(s.threads[u])
    ensures t < |s.threads| && s.threads[t].Inside? && Step(s, t, c).Some?
  {
    if s.queueOwner.Some? {
      t := s.queueOwner.value;
      QueueOwnerMoves(s, t, c);
    } else if s.frontOwner.Some? {
      t := s.frontOwner.value;
      FrontOwnerMoves(s, t, c);
    } else {
      t := u;
      OthersMove(s, t, c);
    }
  }

  // ---- Refinement of the first-in-first-out pool ----

  function IdleIds(streams: seq<int>, front: nat, lo: int, hi: int): seq<int>
    requires front < |streams| && 0 <= lo <= hi <= |streams|
  {
    seq(hi - lo, k requires 0 <= k < hi - lo => streams[Slot(front, lo + k, |streams|)])
  }

  /** The abstract pool: idle ids in slot order, promises in queue order. */
  function Abs(s: State): Pool
    requires WellFormed(s) && Windowed(s)
  {
    Pool(IdleIds(s.streams, s.front, Lo(s), Hi(s)), s.promises)
  }

  /** A promise is pushed although the front slot has been filled since it was tested. */
  predicate StalePush(s: State, t: nat)
    requires WellFormed(s) && t < |s.threads|
  {
    s.threads[t].Inside? && s.threads[t].at.Enqueuing? && s.streams[s.front] >= 0
  }

  /** The pool operation that takes effect at this step, if any. */
  predicate TakesEffect(s: State, t: nat, c: Choice, s': State)
    requires Inv(s) && t < |s.threads| && Step(s, t, c) == Some(s') && Inv(s')
  {
    var th := s.threads[t];
    if Takes(th) then Abs(s).Get(t) == (Abs(s'), Some(th.at.id))
    else if th.Inside? && th.at.Enqueuing? then
      Abs(s') == Pool(Abs(s).idle, Abs(s).waiters + [t]) && (!StalePush(s, t) <==> Abs(s).Get(t) == (Abs(s'), None))
    else if th.Inside? && th.at.AtQueue? && s.promises != [] then
      Abs(s).Return(th.at.id) == (Abs(s'), Some(s.promises[0])) && TicketOf(s'.threads[t]) == Some(s.promises[0])
    else if Stores(th) then Abs(s).Return(th.at.id) == (Abs(s'), None)
    else Abs(s') == Abs(s)
  }

  // what each kind of step does to the idle ids

  lemma IdleIdsTake(streams: seq<int>, front: nat, back: nat, width: int, hi: int)
    requires Ring(streams, front, back, width, 0, hi) && streams[front] >= 0
    ensures
      var idle := IdleIds(streams, front, 0, hi);
      hi > 0 && idle[0] == streams[front] && IdleIds(streams[front := -1], front, 1, hi) == idle[1..]
  {
    assert Slot(front, 0, |streams|) == front;
  }

  lemma IdleIdsMoveFront(streams: seq<int>, front: nat, back: nat, width: int, hi: int)
    requires Ring(streams, front, back, width, 1, hi)
    ensures
      var next := Slot(front, 1, |streams|);
      next < |streams| && IdleIds(streams, next, 0, hi - 1) == IdleIds(streams, front, 1, hi)
  {
    var n, next := |streams|, Slot(front, 1, |streams|);
    forall k | 0 <= k < hi - 1 ensures streams[Slot(next, k, n)] == streams[Slot(front, 1 + k, n)] {
      assert Slot(next, k, n) == Slot(front, 1 + k, n);
    }
  }

  lemma IdleIdsStore(streams: seq<int>, front: nat, back: nat, width: int, lo: int, id: int)
    requires Ring(streams, front, back, width, lo, width - 1)
    ensures
      IdleIds(streams[Slot(front, width - 1, |streams|) := id], front, lo, width)
      == IdleIds(streams, front, lo, width - 1) + [id]
  {}

  lemma IdleIdsAfter(s: State, th: Thread, c: Choice)
    requires WellFormed(s) && PointInRange(s.n, th) && OwnSlot(s, th)
    requires Ring(s.streams, s.front, s.back, Width(s), Lo(s), Hi(s))
    requires 0 <= LoStep(s, th) <= HiStep(s, th, c) <= s.n
    requires Takes(th) ==> !FrontCleared(s)
    requires MovesFront(th) ==> FrontCleared(s)
    requires MovesBack(s, th, c) ==> !BackReserved(s)
    requires Stores(th) ==> BackReserved(s)
    ensures
      var before := IdleIds(s.streams, s.front, Lo(s), Hi(s));
      var after := IdleIds(StreamsAfter(s, th), FrontAfter(s, th), LoStep(s, th), HiStep(s, th, c));
      if Takes(th) then before != [] && before[0] == th.at.id && after == before[1..]
      else if Stores(th) then after == before + [th.at.id]
      else after == before
  {
    if Takes(th) {
      IdleIdsTake(s.streams, s.front, s.back, Width(s), Hi(s));
    } else if MovesFront(th) {
      assert th.at.Cleared?;
      NextSlot(s.front, s.n);
      IdleIdsMoveFront(s.streams, s.front, s.back, Width(s), Hi(s));
    } else if Stores(th) {
      IdleIdsStore(s.streams, s.front, s.back, Width(s), Lo(s), th.at.id);
    }
  }

  lemma IdleIdsStep(s: State, t: nat, c: Choice)
    requires Inv(s) && t < |s.threads| && Step(s, t, c).Some? && Inv(Step(s, t, c).value)
    ensures
      var th := s.threads[t];
      var before, after := Abs(s).idle, Abs(Step(s, t, c).value).idle;
      if Takes(th) then before != [] && before[0] == th.at.id && after == before[1..]
      else if Stores(th) then after == before + [th.at.id]
      else after == before
  {
    PeerAwaits(s, t);
    IdleIdsBeside(s, t, c);
  }

  lemma IdleIdsBeside(s: State, t: nat, c: Choice)
    requires WellFormed(s) && Locked(s) && Windowed(s) && t < |s.threads| && Step(s, t, c).Some?
    requires PeerReady(s, t)
    ensures
      var th, s' := s.threads[t], Step(s, t, c).value;
      && 0 <= Lo(s') <= Hi(s') <= s.n && s'.front < |s'.streams| == s.n
      && var before := IdleIds(s.streams, s.front, Lo(s), Hi(s));
         var after := IdleIds(s'.streams, s'.front, Lo(s'), Hi(s'));
         if Takes(th) then before != [] && before[0] == th.at.id && after == before[1..]
         else if Stores(th) then after == before + [th.at.id]
         else after == before
  {
    var th := s.threads[t];
    assert OwnSlot(s, th) && PointInRange(s.n, th);
    OffsetsAfter(s, t, c);
    RingRights(s, t, c);
    RingAfter(s, th, c);
    IdleIdsAfter(s, th, c);
  }

  lemma StaleMeansIdle(s: State, t: nat)
    requires Inv(s) && t < |s.threads| && s.threads[t].Inside? && s.threads[t].at.Enqueuing?
    ensures StalePush(s, t) <==> Abs(s).idle != []
  {
    assert HoldsFront(s.threads[t]) <==> s.frontOwner == Some(t);
    assert HoldsQueue(s.threads[t]) <==> s.queueOwner == Some(t);
    assert Lo(s) == 0;
    assert s.streams[Slot(s.front, 0, s.n)] >= 0 <==> 0 < Hi(s);
  }

  /**
   * Refinement: every step is invisible, or takes effect as one operation of the
   * first-in-first-out pool with the same result. A push agrees with getIdleStream of
   * the pool exactly when it is not stale.
   */
  lemma StepRefinesPool(s: State, t: nat, c: Choice)
    requires Inv(s) && t < |s.threads| && Step(s, t, c).Some?
    ensures Inv(Step(s, t, c).value) && TakesEffect(s, t, c, Step(s, t, c).value)
  {
    StepKeepsInv(s, t, c);
    if s.threads[t].Inside? && s.threads[t].at.Enqueuing? {
      PushTakesEffect(s, t, c);
    } else {
      RestTakesEffect(s, t, c);
    }
  }

  lemma PushTakesEffect(s: State, t: nat, c: Choice)
    requires Inv(s) && t < |s.threads| && Step(s, t, c).Some? && Inv(Step(s, t, c).value)
    requires s.threads[t].Inside? && s.threads[t].at.Enqueuing?
    ensures TakesEffect(s, t, c, Step(s, t, c).value)
  {
    IdleIdsStep(s, t, c);
    StaleMeansIdle(s, t);
    assert |s.promises + [t]| == |s.promises| + 1;
  }

  /** What a step that pushes no promise does to the waiting ones. */
  lemma PromisesStep(s: State, t: nat, c: Choice)
    requires WellFormed(s) && t < |s.threads| && Step(s, t, c).Some?
    requires s.threads[t].Inside? ==> !s.threads[t].at.Enqueuing?
    ensures
      var th, s' := s.threads[t], Step(s, t, c).value;
      if th.Inside? && th.at.AtQueue? && s.promises != [] then
        s'.promises == s.promises[1..] && !Takes(th) && !Stores(th) && TicketOf(s'.threads[t]) == Some(s.promises[0])
      else s'.promises == s.promises && (Stores(th) ==> PutsBack(th))
  {}

  lemma RestTakesEffect(s: State, t: nat, c: Choice)
    requires Inv(s) && t < |s.threads| && Step(s, t, c).Some? && Inv(Step(s, t, c).value)
    requires s.threads[t].Inside? ==> !s.threads[t].at.Enqueuing?
    ensures TakesEffect(s, t, c, Step(s, t, c).value)
  {
    IdleIdsStep(s, t, c);
    PromisesStep(s, t, c);
    if Stores(s.threads[t]) {
      assert PutsBack(s.threads[t]);
    }
  }

  predicate StaleEvent(s: State, e: Event) {
    WellFormed(s) && e.Moved? && e.t < |s.threads| && StalePush(s, e.t)
  }

  lemma FiringKeepsSettled(s: State, e: Event, s': State)
    requires Inv(s) && Fires(s, e, s') && Abs(s).Settled()
    ensures Inv(s') && (Abs(s').Settled() <==> !StaleEvent(s, e))
  {
    match e
    case Spawned =>
      SpawnKeepsInv(s);
      SpawnTally(s, Away());
    case Moved(t, c) =>
      StepRefinesPool(s, t, c);
      if s.threads[t].Inside? && s.threads[t].at.Enqueuing? {
        StaleMeansIdle(s, t);
      }
  }

  ghost predicate SettledAt(states: seq<State>, i: nat)
    requires i < |states|
  {
    Inv(states[i]) && Abs(states[i]).Settled()
  }

  /**
   * In a run nobody ever waits while an id is idle if and only if no push of the run is
   * stale, that is, if no promise is pushed while streams[front_idx] is filled.
   */
  lemma NoWaiterBehindIdleIffNoStalePush(n: nat, states: seq<State>, events: seq<Event>)
    requires n >= 1 && Run(n, states, events)
    ensures
      (forall i :: 0 <= i < |states| ==> SettledAt(states, i))
      <==> (forall i :: 0 <= i < |events| ==> !StaleEvent(states[i], events[i]))
  {
    if forall i :: 0 <= i < |states| ==> SettledAt(states, i) {
      forall i | 0 <= i < |events| ensures !StaleEvent(states[i], events[i]) {
        assert SettledAt(states, i) && SettledAt(states, i + 1);
        FiringKeepsSettled(states[i], events[i], states[i + 1]);
      }
    } else if forall i :: 0 <= i < |events| ==> !StaleEvent(states[i], events[i]) {
      forall i | 0 <= i < |states| ensures SettledAt(states, i) {
        SettledUpTo(n, states, events, i);
      }
    }
  }

  lemma {:induction false} SettledUpTo(n: nat, states: seq<State>, events: seq<Event>, i: nat)
    requires n >= 1 && Run(n, states, events) && i < |states|
    requires forall k :: 0 <= k < |events| ==> !StaleEvent(states[k], events[k])
    ensures SettledAt(states, i)
  {
    RunKeepsInv(n, states, events, i);
    if i > 0 {
      SettledUpTo(n, states, events, i - 1);
      FiringKeepsSettled(states[i - 1], events[i - 1], states[i]);
    }
  }
}
