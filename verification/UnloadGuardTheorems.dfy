/** What the unload-guard protocol promises in every run. */
module UnloadGuardTheorems {
  import opened FifoPool
  import opened Tally
  import opened VersionStatus
  import opened UnloadGuardSteps
  import opened UnloadGuardSafety

  // ---- Runs ----

  /** A finite execution of any number of threads in which loadModel is called on new instances only. */
  predicate Execution(states: seq<State>, events: seq<Event>) {
    && |states| == |events| + 1
    && (forall i :: 0 <= i < |events| ==> Fires(states[i], events[i], states[i + 1]) && Allowed(states[i], events[i]))
  }

  predicate Allowed(s: State, e: Event) {
    e.Moved? && e.t < |s.threads| ==> Disciplined(s, e.t)
  }

  lemma FiringKeepsInv(s: State, e: Event, s': State)
    requires Inv(s) && Fires(s, e, s') && Allowed(s, e)
    ensures Inv(s')
  {
    match e
    case Spawned(p) => SpawnKeepsInv(s, p);
    case LoaderConfigChanged =>
      forall u | 0 <= u < |s'.threads| ensures Scripted(s', s'.threads[u]) && Shaped(s', s'.threads[u]) {
        assert Scripted(s, s.threads[u]) && Shaped(s, s.threads[u]);
      }
    case Moved(t, c) => StepKeepsInv(s, t, c);
  }

  lemma {:induction false} ExecutionKeepsInv(states: seq<State>, events: seq<Event>, i: nat)
    requires Execution(states, events) && Inv(states[0]) && i < |states|
    ensures Inv(states[i])
  {
    if i > 0 {
      ExecutionKeepsInv(states, events, i - 1);
      FiringKeepsInv(states[i - 1], events[i - 1], states[i]);
    }
  }

  // ---- Safety ----

  /** The thread has left its drain loop and is about to unload or rebuild. */
  predicate PastDrain(p: Point) {
    p.Running? && Needs(p.script) == Drained
  }

  /**
   * In every state of every run from a new instance: while a request holds a guard the
   * model is completely built, and no thread is past its drain loop.
   */
  lemma GuardKeepsModel(states: seq<State>, events: seq<Event>, i: nat, t: nat)
    requires Execution(states, events) && states[0] == Init() && i < |states|
    requires t < |states[i].threads| && HasGuard(states[i].threads[t])
    ensures Ready(states[i])
    ensures forall u :: 0 <= u < |states[i].threads| ==> !PastDrain(states[i].threads[u])
  {
    InitInv();
    ExecutionKeepsInv(states, events, i);
    forall u | 0 <= u < |states[i].threads| ensures !PastDrain(states[i].threads[u]) {
      assert Scripted(states[i], states[i].threads[u]);
    }
  }

  lemma GuardFreezesModel(s: State, e: Event, s': State, t: nat)
    requires Inv(s) && Fires(s, e, s') && t < |s.threads| && HasGuard(s.threads[t])
    ensures s'.components == s.components && s'.epoch == s.epoch
    ensures s.pool.Some? && s'.pool.Some? && s'.pool.value.n == s.pool.value.n
  {
    if e.Moved? {
      assert Scripted(s, s.threads[e.t]);
      if Alters(s.threads[e.t]) {
        AlteringIsQuiet(s, s.threads[e.t]);
      }
    }
  }

  lemma GuardFreezesReached(states: seq<State>, events: seq<Event>, k: nat, t: nat)
    requires Execution(states, events) && states[0] == Init() && k < |events|
    requires t < |states[k].threads| && HasGuard(states[k].threads[t])
    ensures states[k + 1].components == states[k].components && states[k + 1].epoch == states[k].epoch
  {
    InitInv();
    ExecutionKeepsInv(states, events, k);
    GuardFreezesModel(states[k], events[k], states[k + 1], t);
  }

  /** Nothing changes the components, or the pool but for its queues, without counting in the epoch. */
  lemma EpochTells(s: State, e: Event, s': State)
    requires Fires(s, e, s') && s'.epoch == s.epoch
    ensures s'.components == s.components && s'.pool.Some? == s.pool.Some?
    ensures s.pool.Some? ==> s'.pool.value.n == s.pool.value.n
  {}

  /** While one thread keeps its guard the loaded model and the size of its pool never change. */
  lemma {:induction false} ModelStableWhileGuarded(states: seq<State>, events: seq<Event>, i: nat, j: nat, t: nat)
    requires Execution(states, events) && states[0] == Init() && i <= j < |states|
    requires forall k :: i <= k <= j ==> t < |states[k].threads| && HasGuard(states[k].threads[t])
    ensures states[j].components == states[i].components && states[j].epoch == states[i].epoch
    ensures states[j].pool.Some? == states[i].pool.Some?
    ensures states[i].pool.Some? ==> states[j].pool.value.n == states[i].pool.value.n
  {
    if i < j {
      ModelStableWhileGuarded(states, events, i, j - 1, t);
      GuardFreezesReached(states, events, j - 1, t);
      EpochTells(states[j - 1], events[j - 1], states[j]);
    }
  }

  /**
   * A request that was validated against a shape, or reloaded the model to it, runs
   * inference on the model built for this shape, on a stream of the current pool.
   */
  lemma InferenceSeesItsShape(states: seq<State>, events: seq<Event>, i: nat, t: nat)
    requires Execution(states, events) && states[0] == Init() && i < |states|
    requires t < |states[i].threads| && states[i].threads[t].Inferring?
    ensures
      var s := states[i];
      && s.components == Built(s.threads[t].shape)
      && s.pool.Some? && 0 <= s.threads[t].id < s.pool.value.n
      && (forall u :: 0 <= u < |s.threads| && u != t ==> HeldId(s.threads[u]) != Some(s.threads[t].id))
  {
    InitInv();
    ExecutionKeepsInv(states, events, i);
    var s := states[i];
    assert Shaped(s, s.threads[t]);
    assert HeldId(s.threads[t]).Some?;
    forall u | 0 <= u < |s.threads| && u != t ensures HeldId(s.threads[u]) != Some(s.threads[t].id) {
      SumBoundsPair(s.threads, if u < t then u else t, if u < t then t else u, Holds(s.threads[t].id));
    }
  }

  /** A dynamic reload lets go of the mutex with a guard on the requested shape, or with no guard. */
  lemma ReloadOutcome(s: State, t: nat)
    requires Inv(s) && t < |s.threads| && s.threads[t].Unlock?
    ensures
      var kept := s.threads[t].kept;
      if kept.Some? then s.status.state == AVAILABLE && s.components == Built(kept.value) && HasGuard(s.threads[t])
      else !HasHandle(s.threads[t])
  {
    assert Shaped(s, s.threads[t]);
  }

  /** Whenever the pool is reset or replaced, all its ids are idle and nobody waits. */
  lemma PoolWholeWhenChanged(s: State, t: nat)
    requires Inv(s) && t < |s.threads| && Mutates(s.threads[t]) && s.pool.Some?
    ensures s.pool.value.queue.waiters == []
    ensures multiset(s.pool.value.queue.idle) == multiset(Fresh(s.pool.value.n).idle)
  {
    var n, queue := s.pool.value.n, s.pool.value.queue;
    assert Scripted(s, s.threads[t]);
    AlteringIsQuiet(s, s.threads[t]);
    if queue.waiters != [] {
      assert false;
    }
    forall id ensures multiset(queue.idle)[id] == multiset(Fresh(n).idle)[id] {
      CountUpTo(n, id);
      if 0 <= id < n {
        SumZero(s.threads, Holds(id));
      } else {
        assert id !in queue.idle;
      }
    }
  }

  // ---- Progress ----

  /** Unless the handle counter is zero, some thread that counts in it can move, whatever the environment decides. */
  lemma HandleHolderCanMove(s: State) returns (t: nat)
    requires Inv(s) && s.handles > 0
    ensures t < |s.threads| && HasHandle(s.threads[t]) && forall c :: Step(s, t, c).Some?
  {
    t := SumPositive(s.threads, Handle());
    if s.threads[t].Queued? {
      t := StreamHolder(s, t);
    }
  }

  /** A request waits for a stream only while another request holds one. */
  lemma StreamHolder(s: State, u: nat) returns (t: nat)
    requires Inv(s) && u < |s.threads| && s.threads[u].Queued?
    ensures t < |s.threads| && HeldId(s.threads[t]).Some?
  {
    var queue := s.pool.value.queue;
    assert multiset(queue.waiters)[u] == 1;
    assert queue.waiters != [];
    assert 0 !in queue.idle;
    t := SumPositive(s.threads, Holds(0));
  }

  /** No deadlock: while some thread has not finished, some thread can move. */
  lemma SomeoneCanMove(s: State, u: nat, c: Choice) returns (t: nat)
    requires Inv(s) && u < |s.threads| && !s.threads[u].Finished?
    ensures t < |s.threads| && Step(s, t, c).Some?
  {
    if s.handles > 0 {
      t := HandleHolderCanMove(s);
    } else if s.mutex.Some? {
      t := s.mutex.value;
      CountZero(s);
      assert HasMutex(s.threads[t]);
    } else {
      t := u;
      CountZero(s);
      assert !HasMutex(s.threads[t]);
    }
  }

  /**
   * A bound on the steps a thread has left while the instance admits no request and another
   * thread owns loadingMutex: in waitForLoaded every round uses up one of the checks left.
   */
  function WorkOf(p: Point): nat {
    match p
    case Enter(_, left) => 5 * left + 6
    case Check(_, left) => 5 * left + 5
    case Retreat(_, left) => 5 * left + 4
    case Recheck(left) => 5 * left + 3
    case Sleep(left) => 5 * left + 2
    case Unlock(kept) => if kept.Some? then 9 else 0
    case Holding => 8
    case Validated(_) => 7
    case Queued(_) => 6
    case Inferring(_, _) => 5
    case Returning(_, _) => 4
    case Leaving => 1
    case DropGuard(_) => 1
    case _ => 0
  }

  function Work(): Point -> nat {
    (p: Point) => WorkOf(p)
  }

  lemma NextWork(s: State, t: nat, c: Choice)
    requires t < |s.threads| && Step(s, t, c).Some? && s.status.state != AVAILABLE
    requires HasHandle(s.threads[t]) || (!HasMutex(s.threads[t]) && s.mutex.Some?)
    ensures WorkOf(Next(s, t, c).value) < WorkOf(s.threads[t])
  {}

  /** While no request is admitted each step of a handle holder, whatever it decides, reduces the work left. */
  lemma HolderStepReducesWork(s: State, t: nat, c: Choice)
    requires Inv(s) && t < |s.threads| && Step(s, t, c).Some? && HasHandle(s.threads[t])
    requires s.status.state != AVAILABLE
    ensures Sum(Step(s, t, c).value.threads, Work()) < Sum(s.threads, Work())
  {
    ServedWaits(s, t);
    StepReducesWork(s, t, c);
  }

  /** Thread u is spinning in its drain loop. */
  predicate Drains(s: State, u: nat) {
    u < |s.threads| && Head(s.threads[u]) == Some(AwaitDrain)
  }

  lemma DrainingIsClosed(s: State, u: nat)
    requires Inv(s) && Drains(s, u)
    ensures s.status.state != AVAILABLE
  {
    assert Scripted(s, s.threads[u]);
  }

  lemma BesideADrain(s: State, t: nat, u: nat)
    requires Inv(s) && Drains(s, u) && t < |s.threads| && t != u
    ensures s.status.state != AVAILABLE && s.mutex == Some(u) && !HasMutex(s.threads[t]) && ServedReady(s, t)
  {
    DrainingIsClosed(s, u);
    ServedWaits(s, t);
    assert HasMutex(s.threads[u]);
  }

  /** A closed instance: each step of a thread without the mutex, which another one has, reduces the work left. */
  lemma StepReducesWork(s: State, t: nat, c: Choice)
    requires t < |s.threads| && Step(s, t, c).Some? && ServedReady(s, t) && s.status.state != AVAILABLE
    requires HasHandle(s.threads[t]) || (!HasMutex(s.threads[t]) && s.mutex.Some?)
    ensures Sum(Step(s, t, c).value.threads, Work()) < Sum(s.threads, Work())
  {
    StepTally(s, t, c, Work());
    NextWork(s, t, c);
  }

  /** While thread u drains, each step of any other thread, whatever it decides, reduces the work left. */
  lemma OtherStepReducesWork(s: State, t: nat, c: Choice, u: nat)
    requires Inv(s) && Drains(s, u) && t < |s.threads| && t != u && Step(s, t, c).Some?
    ensures Sum(Step(s, t, c).value.threads, Work()) < Sum(s.threads, Work())
  {
    BesideADrain(s, t, u);
    StepReducesWork(s, t, c);
  }

  lemma OtherStepKeepsDrain(s: State, t: nat, c: Choice, u: nat)
    requires Inv(s) && Drains(s, u) && t < |s.threads| && t != u && Step(s, t, c).Some?
    ensures Inv(Step(s, t, c).value) && Drains(Step(s, t, c).value, u)
    ensures Step(s, t, c).value.threads[u] == s.threads[u]
  {
    BesideADrain(s, t, u);
    StepKeepsInv(s, t, c);
    StepTally(s, t, c, Work());
  }

  /** A run without new threads in which thread u does not get to move. */
  predicate OnlyOthers(states: seq<State>, events: seq<Event>, u: nat) {
    |states| == |events| + 1 &&
    forall i :: 0 <= i < |events| ==> events[i].Moved? && events[i].t != u
  }

  /** Such a run has at most as many steps as there is work at its beginning, and u goes on draining. */
  lemma {:induction false} OthersRunOut(states: seq<State>, events: seq<Event>, u: nat, i: nat)
    requires Execution(states, events) && OnlyOthers(states, events, u) && i < |states|
    requires Inv(states[0]) && Drains(states[0], u)
    ensures i + Sum(states[i].threads, Work()) <= Sum(states[0].threads, Work())
    ensures Inv(states[i]) && Drains(states[i], u)
  {
    if i > 0 {
      var s, e := states[i - 1], events[i - 1];
      OthersRunOut(states, events, u, i - 1);
      assert Fires(s, e, states[i]);
      OtherStepReducesWork(s, e.t, e.c, u);
      OtherStepKeepsDrain(s, e.t, e.c, u);
    }
  }

  /**
   * Without new threads no schedule can postpone the end of a drain for ever: whatever the other
   * threads do and decide, after a bounded number of steps none of them can move, and then the
   * handle counter is zero and the draining thread goes on.
   */
  lemma DrainEnds(states: seq<State>, events: seq<Event>, u: nat, c: Choice)
    requires Execution(states, events) && OnlyOthers(states, events, u)
    requires Inv(states[0]) && Drains(states[0], u)
    ensures |events| <= Sum(states[0].threads, Work())
    ensures
      var last := states[|events|];
      (forall t :: 0 <= t < |last.threads| && t != u ==> Step(last, t, c).None?) ==>
        last.handles == 0 && Drains(last, u) && Step(last, u, c).Some?
  {
    var last := states[|events|];
    OthersRunOut(states, events, u, |events|);
    CountZero(last);
    if last.handles > 0 {
      var t := HandleHolderCanMove(last);
      assert t != u && Step(last, t, c).Some?;
    }
  }

  predicate OnlyHolders(states: seq<State>, events: seq<Event>) {
    |states| == |events| + 1 &&
    forall i :: 0 <= i < |events| ==>
      events[i].Moved? && events[i].t < |states[i].threads| && HasHandle(states[i].threads[events[i].t])
  }

  /** From every reachable state with a draining thread the handle holders alone can end the drain. */
  lemma {:induction false} DrainCanEnd(s: State, u: nat, c: Choice) returns (states: seq<State>, events: seq<Event>)
    requires Inv(s) && Drains(s, u)
    ensures Execution(states, events) && OnlyHolders(states, events)
    ensures states[0] == s && |events| <= Sum(s.threads, Work())
    ensures
      var last := states[|events|];
      Inv(last) && Drains(last, u) && last.handles == 0 && Step(last, u, c).Some?
    decreases Sum(s.threads, Work())
  {
    CountZero(s);
    if s.handles == 0 {
      states, events := [s], [];
    } else {
      var t := HandleHolderCanMove(s);
      var next := Step(s, t, c).value;
      DrainingIsClosed(s, u);
      HolderStepReducesWork(s, t, c);
      OtherStepKeepsDrain(s, t, c, u);
      var rest, more := DrainCanEnd(next, u, c);
      states, events := [s] + rest, [Moved(t, c)] + more;
      PrependMove(s, t, c, rest, more);
    }
  }

  lemma PrependMove(s: State, t: nat, c: Choice, rest: seq<State>, more: seq<Event>)
    requires t < |s.threads| && HasHandle(s.threads[t])
    requires Execution(rest, more) && OnlyHolders(rest, more) && Step(s, t, c) == Some(rest[0])
    requires Allowed(s, Moved(t, c))
    ensures Execution([s] + rest, [Moved(t, c)] + more) && OnlyHolders([s] + rest, [Moved(t, c)] + more)
    ensures ([s] + rest)[|more| + 1] == rest[|more|]
  {
    var states, events := [s] + rest, [Moved(t, c)] + more;
    forall i | 0 <= i < |events|
      ensures Fires(states[i], events[i], states[i + 1]) && Allowed(states[i], events[i])
      ensures events[i].Moved? && events[i].t < |states[i].threads| && HasHandle(states[i].threads[events[i].t])
    {
      if i > 0 {
        assert states[i] == rest[i - 1] && states[i + 1] == rest[i] && events[i] == more[i - 1];
      }
    }
  }
}
