/**
 * The queue at the granularity of single accesses under the unload guard: a request uses the queue
 * only between the increment and the decrement of the handle counter, and a drain waits for the
 * counter to reach zero. A drain that waits for a stranded request never ends.
 */
module StrandedDrain {
  import opened StreamQueueSteps
  import opened StreamQueueSafety
  import opened StreamQueueTheorems
  import opened StreamQueueStranded

  /** Without a guard; with a guard that has not been used for a stream; with one that has. */
  datatype Phase = Unguarded | Admitted | Used

  /** The instance admits requests until it is closed; drained says that the drain has ended. */
  datatype System = System(queue: State, phases: seq<Phase>, admits: bool, drained: bool)

  function Begin(n: nat): System {
    System(Init(n), [], true, false)
  }

  /** The handle counter is zero. */
  predicate NobodyCounts(g: System) {
    forall t :: 0 <= t < |g.phases| ==> g.phases[t] == Unguarded
  }

  datatype Act =
    | Arrive
    | Admit(t: nat)              // waitForLoaded succeeds
    | Move(t: nat, c: Choice)    // one step in the queue
    | Release(t: nat)            // the guard is dropped
    | Close                      // the status is set to LOADING or UNLOADING before the drain
    | Finish                     // the drain finds the counter zero

  ghost predicate Takes(g: System, a: Act, next: System) {
    match a
    case Arrive => next == g.(queue := Spawn(g.queue), phases := g.phases + [Unguarded])
    case Admit(t) =>
      t < |g.phases| && g.admits && g.phases[t] == Unguarded && next == g.(phases := g.phases[t := Admitted])
    case Move(t, c) =>
      && t < |g.phases| && t < |g.queue.threads| && Fires(g.queue, Moved(t, c), next.queue)
      && g.phases[t] == (if g.queue.threads[t].Outside? then Admitted else Used)
      && next == g.(queue := next.queue, phases := g.phases[t := Used])
    case Release(t) =>
      && t < |g.phases| && t < |g.queue.threads| && g.queue.threads[t].Outside? && g.phases[t] != Unguarded
      && next == g.(phases := g.phases[t := Unguarded])
    case Close => next == g.(admits := false)
    case Finish => !g.admits && NobodyCounts(g) && next == g.(drained := true)
  }

  ghost predicate Runs(g: System, systems: seq<System>, acts: seq<Act>) {
    && |systems| == |acts| + 1 && systems[0] == g
    && (forall i :: 0 <= i < |acts| ==> Takes(systems[i], acts[i], systems[i + 1]))
  }

  ghost predicate Reached(n: nat, g: System) {
    exists systems: seq<System>, acts: seq<Act> :: Runs(Begin(n), systems, acts) && systems[|acts|] == g
  }

  lemma ReachedBegin(n: nat)
    ensures Reached(n, Begin(n))
  {
    var systems, acts: seq<Act> := [Begin(n)], [];
    assert Runs(Begin(n), systems, acts) && systems[|acts|] == Begin(n);
  }

  lemma ReachedNext(n: nat, g: System, a: Act, next: System)
    requires Reached(n, g) && Takes(g, a, next)
    ensures Reached(n, next)
  {
    var systems: seq<System>, acts: seq<Act> :| Runs(Begin(n), systems, acts) && systems[|acts|] == g;
    var longer, more := systems + [next], acts + [a];
    assert Runs(Begin(n), longer, more) && longer[|more|] == next;
  }

  // ---- Every state of the queue is reached under the guard ----

  function PhaseOf(th: Thread): Phase {
    if th.Inside? then Used else Unguarded
  }

  /** The state of the queue with a guard for exactly the threads inside. */
  function Lifted(q: State): System {
    System(q, seq(|q.threads|, t requires 0 <= t < |q.threads| => PhaseOf(q.threads[t])), true, false)
  }

  lemma ReachedUnderGuard(n: nat, q: State)
    requires n >= 1 && Reachable(n, q)
    ensures Reached(n, Lifted(q))
  {
    var states, events :| Run(n, states, events) && states[|states| - 1] == q;
    RunUnderGuard(n, states, events, |events|);
  }

  lemma {:induction false} RunUnderGuard(n: nat, states: seq<State>, events: seq<Event>, i: nat)
    requires n >= 1 && Run(n, states, events) && i < |states|
    ensures Reached(n, Lifted(states[i]))
  {
    if i == 0 {
      ReachedBegin(n);
      assert Lifted(Init(n)) == Begin(n);
    } else {
      RunUnderGuard(n, states, events, i - 1);
      RunKeepsInv(n, states, events, i - 1);
      assert Fires(states[i - 1], events[i - 1], states[i]);
      match events[i - 1]
      case Spawned => SpawnUnderGuard(n, states[i - 1]);
      case Moved(t, c) => MoveUnderGuard(n, states[i - 1], t, c, states[i]);
    }
  }

  lemma SpawnUnderGuard(n: nat, q: State)
    requires Reached(n, Lifted(q))
    ensures Reached(n, Lifted(Spawn(q)))
  {
    assert Lifted(Spawn(q)).phases == Lifted(q).phases + [Unguarded];
    ReachedNext(n, Lifted(q), Arrive, Lifted(Spawn(q)));
  }

  /** A thread gets its guard before it enters and drops it when it has left. */
  lemma MoveUnderGuard(n: nat, q: State, t: nat, c: Choice, q': State)
    requires Reached(n, Lifted(q)) && Inv(q) && Fires(q, Moved(t, c), q')
    ensures Reached(n, Lifted(q'))
  {
    var g := Lifted(q);
    if q.threads[t].Outside? {
      ReachedNext(n, g, Admit(t), g.(phases := g.phases[t := Admitted]));
      g := g.(phases := g.phases[t := Admitted]);
    }
    var moved := g.(queue := q', phases := g.phases[t := Used]);
    ReachedNext(n, g, Move(t, c), moved);
    OthersKeepPhase(q, t, c, q');
    LeavesUnderGuard(n, moved, t);
  }

  lemma LeavesUnderGuard(n: nat, g: System, t: nat)
    requires Reached(n, g) && |g.phases| == |g.queue.threads| && t < |g.phases| && g.phases[t] == Used
    requires forall u :: 0 <= u < |g.phases| && u != t ==> g.phases[u] == PhaseOf(g.queue.threads[u])
    requires g.admits && !g.drained
    ensures Reached(n, Lifted(g.queue))
  {
    if g.queue.threads[t].Outside? {
      var released := g.(phases := g.phases[t := Unguarded]);
      ReachedNext(n, g, Release(t), released);
      assert released == Lifted(g.queue);
    } else {
      assert g == Lifted(g.queue);
    }
  }

  lemma OthersKeepPhase(q: State, t: nat, c: Choice, q': State)
    requires Inv(q) && Fires(q, Moved(t, c), q')
    ensures |q'.threads| == |q.threads| && t < |q.threads|
    ensures forall u :: 0 <= u < |q.threads| && u != t ==> PhaseOf(q'.threads[u]) == PhaseOf(q.threads[u])
  {
    PeerAwaits(q, t);
    StepTally(q, t, c, Away());
  }

  // ---- The drain ----

  /** The instance is closed, request u waits for an id, and nobody is going to return one. */
  ghost predicate Stuck(g: System, u: nat) {
    && !g.admits && !g.drained && |g.phases| == |g.queue.threads|
    && Asleep(g.queue) && (forall t :: 0 <= t < |g.phases| ==> g.phases[t] != Admitted)
    && u < |g.phases| && g.phases[u] == Used && Blocked(g.queue.threads[u])
  }

  lemma StaysStuck(g: System, a: Act, next: System, u: nat)
    requires Stuck(g, u) && Takes(g, a, next)
    ensures Stuck(next, u)
  {}

  lemma {:induction false} StuckForEver(g: System, systems: seq<System>, acts: seq<Act>, u: nat, i: nat)
    requires Stuck(g, u) && Runs(g, systems, acts) && i < |systems|
    ensures Stuck(systems[i], u)
  {
    if i > 0 {
      StuckForEver(g, systems, acts, u, i - 1);
      StaysStuck(systems[i - 1], acts[i - 1], systems[i], u);
    }
  }

  /** The stranded request of the run of two requests, in an instance that is then closed for a drain. */
  function ClosedWithStranded(): System {
    Lifted(Stranded()).(admits := false)
  }

  /**
   * In some run the instance is closed while a request is stranded, and however the run goes on, the
   * drain never ends: no request is admitted that could free the stranded one.
   */
  lemma DrainCanWaitForEver()
    ensures Reached(1, ClosedWithStranded())
    ensures forall systems: seq<System>, acts: seq<Act> ::
              Runs(ClosedWithStranded(), systems, acts) ==>
              !systems[|acts|].drained && !NobodyCounts(systems[|acts|])
  {
    WaiterCanBeStranded();
    ReachedUnderGuard(1, Stranded());
    ReachedNext(1, Lifted(Stranded()), Close, ClosedWithStranded());
    assert Stuck(ClosedWithStranded(), 1);
    forall systems: seq<System>, acts: seq<Act> | Runs(ClosedWithStranded(), systems, acts)
      ensures !systems[|acts|].drained && !NobodyCounts(systems[|acts|])
    {
      StuckForEver(ClosedWithStranded(), systems, acts, 1, |acts|);
    }
  }
}
