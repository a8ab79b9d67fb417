/**
 * The limit of the lock-granularity queue: a run of two requests on one stream that ends with a
 * request waiting although the only stream is idle. It waits until another request comes.
 */
module StreamQueueStranded {
  import opened FifoPool
  import opened StreamQueueSteps
  import opened StreamQueueSafety
  import opened StreamQueueTheorems

  /** A queue of one stream used by two threads; its indices are always 0. */
  function One(slot: int, frontOwner: Option<nat>, queueOwner: Option<nat>, promises: seq<nat>,
               current: int, active: int, first: Thread, second: Thread): State
  {
    State(1, [slot], 0, 0, frontOwner, queueOwner, promises, current, active, [first, second])
  }

  /** A set of well-formed states that contains the initial one and is closed under steps. */
  ghost predicate Closed(reach: State -> bool) {
    && reach(Init(1))
    && (forall s :: reach(s) ==> WellFormed(s))
    && (forall s, e, s' :: reach(s) && Fires(s, e, s') ==> reach(s'))
  }

  /** The run goes on with one step of thread t to the state next. */
  lemma Move(reach: State -> bool, s: State, t: nat, next: State) returns (moved: State)
    requires Closed(reach) && reach(s)
    requires |next.streams| == 1 && |next.threads| == 2 && next.n == 1 && next.front == next.back == 0
    requires s.n == 1 && |s.threads| == 2 && t < 2
    requires
      var c, th := Choice(true, false), s.threads[t];
      && Peer(th).None? && PointInRange(1, th)
      && Next(s, t, c) == Some(next.threads[t])
      && next.threads[1 - t] == s.threads[1 - t]
      && StreamsAfter(s, th)[0] == next.streams[0]
      && FrontOwnerAfter(s, t, th) == next.frontOwner
      && QueueOwnerAfter(s, t, th) == next.queueOwner
      && PromisesAfter(s, t, th) == next.promises
      && CurrentAfter(s, th, c) == next.currentRequests
      && ActiveAfter(s, th) == next.inferReqActive
    ensures moved == next && reach(next)
  {
    moved := next;
    var c, th := Choice(true, false), s.threads[t];
    assert StreamsAfter(s, th) == next.streams;
    assert s.threads[t := next.threads[t]] == next.threads;
    assert FrontAfter(s, th) == 0 && BackAfter(s, th, c) == 0;
    assert Fires(s, Moved(t, c), next);
  }

  lemma BothArrive(reach: State -> bool)
    requires Closed(reach)
    ensures reach(One(0, None, None, [], 0, 0, Outside, Outside))
  {
    assert Fires(Init(1), Spawned, Spawn(Init(1)));
    assert Fires(Spawn(Init(1)), Spawned, Spawn(Spawn(Init(1))));
    assert Init(1).streams == [0];
    assert Spawn(Spawn(Init(1))).threads == [Outside, Outside];
  }

  /** The first request takes the only stream. */
  lemma FirstEnters(reach: State -> bool)
    requires Closed(reach)
    ensures reach(One(0, Some(0), None, [], 1, 0, Inside(true, FoundIdle), Outside))
  {
    BothArrive(reach);
    var s := One(0, None, None, [], 0, 0, Outside, Outside);
    s := Move(reach, s, 0, One(0, None, None, [], 1, 0, Inside(true, WantFront), Outside));
    s := Move(reach, s, 0, One(0, Some(0), None, [], 1, 0, Inside(true, AtFront), Outside));
    s := Move(reach, s, 0, One(0, Some(0), None, [], 1, 0, Inside(true, FoundIdle), Outside));
  }

  lemma FirstTakes(reach: State -> bool)
    requires Closed(reach)
    ensures reach(One(-1, None, None, [], 1, 0, Inside(true, Delivering(0)), Outside))
  {
    FirstEnters(reach);
    var s := One(0, Some(0), None, [], 1, 0, Inside(true, FoundIdle), Outside);
    s := Move(reach, s, 0, One(0, Some(0), None, [], 1, 0, Inside(true, Read(0)), Outside));
    s := Move(reach, s, 0, One(-1, Some(0), None, [], 1, 0, Inside(true, Cleared(0)), Outside));
    s := Move(reach, s, 0, One(-1, Some(0), None, [], 1, 0, Inside(true, Advanced(0)), Outside));
    s := Move(reach, s, 0, One(-1, None, None, [], 1, 0, Inside(true, Delivering(0)), Outside));
  }

  /** It infers and starts to return it: back_idx is advanced, the slot still empty. */
  lemma FirstInfers(reach: State -> bool)
    requires Closed(reach)
    ensures reach(One(-1, None, None, [], 1, 0, Inside(true, Releasing(0)), Outside))
  {
    FirstTakes(reach);
    var s := One(-1, None, None, [], 1, 0, Inside(true, Delivering(0)), Outside);
    s := Move(reach, s, 0, One(-1, None, None, [], 1, 0, Inside(true, Granted(0)), Outside));
    s := Move(reach, s, 0, One(-1, None, None, [], 1, 1, Inside(true, Active(0)), Outside));
    s := Move(reach, s, 0, One(-1, None, None, [], 1, 0, Inside(true, Releasing(0)), Outside));
  }

  lemma FirstReturns(reach: State -> bool)
    requires Closed(reach)
    ensures reach(One(-1, None, Some(0), [], 1, 0, Inside(true, Reserved(0, 0)), Outside))
  {
    FirstInfers(reach);
    var s := One(-1, None, None, [], 1, 0, Inside(true, Releasing(0)), Outside);
    s := Move(reach, s, 0, One(-1, None, Some(0), [], 1, 0, Inside(true, AtQueue(0)), Outside));
    s := Move(reach, s, 0, One(-1, None, Some(0), [], 1, 0, Inside(true, LoadBack(0)), Outside));
    s := Move(reach, s, 0, One(-1, None, Some(0), [], 1, 0, Inside(true, TryAdvance(0, 0)), Outside));
    s := Move(reach, s, 0, One(-1, None, Some(0), [], 1, 0, Inside(true, Reserved(0, 0)), Outside));
  }

  /** The second request sees the empty slot; then the id is stored. */
  lemma SecondTests(reach: State -> bool)
    requires Closed(reach)
    ensures reach(One(0, Some(1), None, [], 1, 0, Outside, Inside(true, WantQueue)))
  {
    FirstReturns(reach);
    var s := One(-1, None, Some(0), [], 1, 0, Inside(true, Reserved(0, 0)), Outside);
    s := Move(reach, s, 1, One(-1, None, Some(0), [], 2, 0, Inside(true, Reserved(0, 0)), Inside(true, WantFront)));
    s := Move(reach, s, 1, One(-1, Some(1), Some(0), [], 2, 0, Inside(true, Reserved(0, 0)), Inside(true, AtFront)));
    s := Move(reach, s, 1, One(-1, Some(1), Some(0), [], 2, 0, Inside(true, Reserved(0, 0)), Inside(true, WantQueue)));
    s := Move(reach, s, 0, One(0, Some(1), Some(0), [], 2, 0, Inside(true, Stored), Inside(true, WantQueue)));
    s := Move(reach, s, 0, One(0, Some(1), None, [], 2, 0, Inside(true, Closing), Inside(true, WantQueue)));
    s := Move(reach, s, 0, One(0, Some(1), None, [], 1, 0, Outside, Inside(true, WantQueue)));
  }

  /** It pushes its promise and waits. */
  lemma SecondWaits(reach: State -> bool)
    requires Closed(reach)
    ensures reach(One(0, None, None, [1], 1, 0, Outside, Inside(true, Waiting(None))))
  {
    SecondTests(reach);
    var s := One(0, Some(1), None, [], 1, 0, Outside, Inside(true, WantQueue));
    s := Move(reach, s, 1, One(0, Some(1), Some(1), [], 1, 0, Outside, Inside(true, Enqueuing)));
    s := Move(reach, s, 1, One(0, Some(1), Some(1), [1], 1, 0, Outside, Inside(true, Enqueued)));
    s := Move(reach, s, 1, One(0, Some(1), None, [1], 1, 0, Outside, Inside(true, LeavingFront(None))));
    s := Move(reach, s, 1, One(0, None, None, [1], 1, 0, Outside, Inside(true, Waiting(None))));
  }

  /** The second request waits, the stream is idle, and nobody is inside to return one. */
  function Stranded(): State {
    One(0, None, None, [1], 1, 0, Outside, Inside(true, Waiting(None)))
  }

  // ---- Until the next request ----

  /** Everybody is outside or waits for an id. */
  predicate Asleep(s: State) {
    forall t :: 0 <= t < |s.threads| ==> s.threads[t].Outside? || Blocked(s.threads[t])
  }

  /** A continuation in which threads may be created but none enters the queue. */
  predicate NobodyEnters(states: seq<State>, events: seq<Event>) {
    && |states| == |events| + 1
    && (forall i :: 0 <= i < |events| ==> Fires(states[i], events[i], states[i + 1]))
    && (forall i :: 0 <= i < |events| && events[i].Moved? && events[i].t < |states[i].threads| ==>
          states[i].threads[events[i].t].Inside?)
  }

  /** As long as nobody enters, whoever waits goes on waiting and whatever is idle stays idle. */
  lemma {:induction false} WaitsUntilEntry(states: seq<State>, events: seq<Event>, i: nat)
    requires NobodyEnters(states, events) && Asleep(states[0]) && i < |states|
    ensures Asleep(states[i]) && states[i].streams == states[0].streams && states[i].promises == states[0].promises
    ensures states[0].threads <= states[i].threads
  {
    if i > 0 {
      WaitsUntilEntry(states, events, i - 1);
      assert Fires(states[i - 1], events[i - 1], states[i]);
      assert events[i - 1].Spawned?;
    }
  }

  predicate StillStranded(s: State) {
    |s.threads| >= 2 && s.threads[1] == Inside(true, Waiting(None)) && s.streams == [0]
  }

  /**
   * Some run of the queue ends with its only id idle and a request waiting for it, and however the
   * run goes on without another request entering, this stays so.
   */
  lemma WaiterCanBeStranded()
    ensures Reachable(1, Stranded())
    ensures forall states: seq<State>, events: seq<Event> ::
              NobodyEnters(states, events) && states[0] == Stranded() ==> StillStranded(states[|events|])
  {
    ReachableIsClosed();
    SecondWaits(x => Reachable(1, x));
    forall states: seq<State>, events: seq<Event> | NobodyEnters(states, events) && states[0] == Stranded()
      ensures StillStranded(states[|events|])
    {
      WaitsUntilEntry(states, events, |events|);
      assert states[0].threads[1] == Inside(true, Waiting(None));
    }
  }

  lemma ReachableIsClosed()
    ensures Closed(x => Reachable(1, x))
  {
    ReachableInit(1);
    forall s | Reachable(1, s) ensures WellFormed(s) {
      var states, events :| Run(1, states, events) && states[|states| - 1] == s;
      RunKeepsInv(1, states, events, |states| - 1);
    }
    forall s, e, s' | Reachable(1, s) && Fires(s, e, s') ensures Reachable(1, s') {
      ReachableStep(1, s, e, s');
    }
  }

  // ---- The next request ----

  /** The next request takes the idle id, and when it returns it the waiting request gets it. */
  lemma NextRequestFreesWaiter()
    ensures Reachable(1, One(-1, None, None, [], 1, 0, Outside, Inside(true, Waiting(Some(0)))))
  {
    ReachableIsClosed();
    NextReturns(x => Reachable(1, x));
  }

  lemma NextEnters(reach: State -> bool)
    requires Closed(reach)
    ensures reach(One(0, Some(0), None, [1], 2, 0, Inside(true, FoundIdle), Inside(true, Waiting(None))))
  {
    SecondWaits(reach);
    var s, waiter := Stranded(), Inside(true, Waiting(None));
    s := Move(reach, s, 0, One(0, None, None, [1], 2, 0, Inside(true, WantFront), waiter));
    s := Move(reach, s, 0, One(0, Some(0), None, [1], 2, 0, Inside(true, AtFront), waiter));
    s := Move(reach, s, 0, One(0, Some(0), None, [1], 2, 0, Inside(true, FoundIdle), waiter));
  }

  lemma NextTakes(reach: State -> bool)
    requires Closed(reach)
    ensures reach(One(-1, None, None, [1], 2, 0, Inside(true, Delivering(0)), Inside(true, Waiting(None))))
  {
    NextEnters(reach);
    var waiter := Inside(true, Waiting(None));
    var s := One(0, Some(0), None, [1], 2, 0, Inside(true, FoundIdle), waiter);
    s := Move(reach, s, 0, One(0, Some(0), None, [1], 2, 0, Inside(true, Read(0)), waiter));
    s := Move(reach, s, 0, One(-1, Some(0), None, [1], 2, 0, Inside(true, Cleared(0)), waiter));
    s := Move(reach, s, 0, One(-1, Some(0), None, [1], 2, 0, Inside(true, Advanced(0)), waiter));
    s := Move(reach, s, 0, One(-1, None, None, [1], 2, 0, Inside(true, Delivering(0)), waiter));
  }

  lemma NextInfers(reach: State -> bool)
    requires Closed(reach)
    ensures reach(One(-1, None, None, [1], 2, 0, Inside(true, Releasing(0)), Inside(true, Waiting(None))))
  {
    NextTakes(reach);
    var waiter := Inside(true, Waiting(None));
    var s := One(-1, None, None, [1], 2, 0, Inside(true, Delivering(0)), waiter);
    s := Move(reach, s, 0, One(-1, None, None, [1], 2, 0, Inside(true, Granted(0)), waiter));
    s := Move(reach, s, 0, One(-1, None, None, [1], 2, 1, Inside(true, Active(0)), waiter));
    s := Move(reach, s, 0, One(-1, None, None, [1], 2, 0, Inside(true, Releasing(0)), waiter));
  }

  lemma NextReturns(reach: State -> bool)
    requires Closed(reach)
    ensures reach(One(-1, None, None, [], 1, 0, Outside, Inside(true, Waiting(Some(0)))))
  {
    NextInfers(reach);
    var waiter := Inside(true, Waiting(None));
    var s := One(-1, None, None, [1], 2, 0, Inside(true, Releasing(0)), waiter);
    s := Move(reach, s, 0, One(-1, None, Some(0), [1], 2, 0, Inside(true, AtQueue(0)), waiter));
    s := Move(reach, s, 0, One(-1, None, Some(0), [], 2, 0, Inside(true, Serving(0, 1)), waiter));
    s := Move(reach, s, 0, One(-1, None, None, [], 2, 0, Inside(true, Fulfilling(0, 1)), waiter));
    s := Fulfil(reach, s);
    s := Move(reach, s, 0, One(-1, None, None, [], 1, 0, Outside, Inside(true, Waiting(Some(0)))));
  }

  /** The first thread sets the value of the second one's promise. */
  lemma Fulfil(reach: State -> bool, s: State) returns (moved: State)
    requires Closed(reach) && reach(s)
    requires s == One(-1, None, None, [], 2, 0, Inside(true, Fulfilling(0, 1)), Inside(true, Waiting(None)))
    ensures moved == One(-1, None, None, [], 2, 0, Inside(true, Closing), Inside(true, Waiting(Some(0))))
    ensures reach(moved)
  {
    moved := One(-1, None, None, [], 2, 0, Inside(true, Closing), Inside(true, Waiting(Some(0))));
    var c := Choice(true, false);
    assert WellFormed(s);
    assert Next(s, 0, c) == Some(Inside(true, Closing));
    assert ThreadsAfter(s, 0, Inside(true, Closing)) == moved.threads;
    assert Fires(s, Moved(0, c), moved);
  }
}
