/** What becomes of a request: waitForLoaded and infer, in every execution. */
module UnloadGuardRequests {
  import opened FifoPool
  import opened VersionStatus
  import opened UnloadGuardSteps
  import opened UnloadGuardSafety
  import opened UnloadGuardTheorems

  // ---- What a firing does to one thread ----

  predicate Moves(e: Event, t: nat) {
    e.Moved? && e.t == t
  }

  /** Somebody else's step leaves the thread where it is, or hands it the stream it waits for. */
  lemma PointKept(s: State, e: Event, s': State, t: nat)
    requires Inv(s) && Fires(s, e, s') && t < |s.threads| && !Moves(e, t)
    ensures t < |s'.threads|
    ensures s'.threads[t] == s.threads[t] ||
            (s.threads[t].Queued? && s'.threads[t].Inferring? && s'.threads[t].shape == s.threads[t].shape)
  {
    if e.Moved? {
      ServedWaits(s, e.t);
      StepTally(s, e.t, e.c, Handle());
    }
  }

  lemma PointMoved(s: State, e: Event, s': State, t: nat)
    requires Inv(s) && Fires(s, e, s') && t < |s.threads| && Moves(e, t)
    ensures Next(s, t, e.c).Some? && t < |s'.threads| && s'.threads[t] == Next(s, t, e.c).value
  {
    ServedWaits(s, t);
    StepTally(s, t, e.c, Handle());
  }

  /** What a firing makes of one thread: its own step, or nothing, or the stream it waits for. */
  ghost predicate Becomes(s: State, e: Event, s': State, t: nat) {
    && t < |s.threads| && t < |s'.threads|
    && if Moves(e, t) then Next(s, t, e.c) == Some(s'.threads[t])
       else s'.threads[t] == s.threads[t] ||
            (s.threads[t].Queued? && s'.threads[t].Inferring? && s'.threads[t].shape == s.threads[t].shape)
  }

  lemma ThreadBecomes(states: seq<State>, events: seq<Event>, t: nat, i: nat)
    requires Execution(states, events) && Inv(states[0]) && i < |events| && t < |states[i].threads|
    ensures Becomes(states[i], events[i], states[i + 1], t)
  {
    ExecutionKeepsInv(states, events, i);
    assert Fires(states[i], events[i], states[i + 1]);
    if Moves(events[i], t) {
      PointMoved(states[i], events[i], states[i + 1], t);
    } else {
      PointKept(states[i], events[i], states[i + 1], t);
    }
  }

  ghost predicate StepsAt(states: seq<State>, events: seq<Event>, t: nat, k: nat) {
    k < |events| && k + 1 < |states| && Becomes(states[k], events[k], states[k + 1], t)
  }

  /** A stretch of one thread on its own, without the execution around it. */
  ghost predicate Stretch(states: seq<State>, events: seq<Event>, t: nat, i: nat, j: nat) {
    forall k: nat :: i <= k < j ==> StepsAt(states, events, t, k)
  }

  lemma StretchOf(states: seq<State>, events: seq<Event>, t: nat, i: nat, j: nat)
    requires Execution(states, events) && Inv(states[0]) && i <= j <= |events| && t < |states[i].threads|
    ensures Stretch(states, events, t, i, j)
  {
    forall k: nat | i <= k < j ensures StepsAt(states, events, t, k) {
      StaysAround(states, events, t, i, k);
      ThreadBecomes(states, events, t, k);
    }
  }

  // ---- waitForLoaded ----

  /** How often the thread has read the state between taking and dropping a guard. */
  function ChecksMade(states: seq<State>, events: seq<Event>, t: nat, j: nat): nat
    requires |states| == |events| + 1 && j <= |events|
  {
    if j == 0 then 0
    else
      ChecksMade(states, events, t, j - 1) +
      if Moves(events[j - 1], t) && t < |states[j - 1].threads| && states[j - 1].threads[t].Check? then 1 else 0
  }

  /** How often it has read the state again after a failed check. */
  function RechecksMade(states: seq<State>, events: seq<Event>, t: nat, j: nat): nat
    requires |states| == |events| + 1 && j <= |events|
  {
    if j == 0 then 0
    else
      RechecksMade(states, events, t, j - 1) +
      if Moves(events[j - 1], t) && t < |states[j - 1].threads| && states[j - 1].threads[t].Recheck? then 1 else 0
  }

  /** At one of the checks the instance was available. */
  ghost predicate FoundAvailable(states: seq<State>, events: seq<Event>, t: nat, j: nat)
    requires |states| == |events| + 1 && j <= |events|
  {
    exists i :: 0 <= i < j && Moves(events[i], t) && t < |states[i].threads| && states[i].threads[t].Check? &&
                states[i].status.state == AVAILABLE
  }

  /** After a failed check the thread found the instance unloading or ended. */
  ghost predicate FoundEnding(states: seq<State>, events: seq<Event>, t: nat, j: nat)
    requires |states| == |events| + 1 && j <= |events|
  {
    exists i :: 0 <= i < j && Moves(events[i], t) && t < |states[i].threads| && states[i].threads[t].Recheck? &&
                (states[i].status.state == UNLOADING || states[i].status.state == END)
  }

  /** A request that may check left more times after its first check. */
  ghost predicate Arrives(states: seq<State>, events: seq<Event>, t: nat, left: nat) {
    Execution(states, events) && Inv(states[0]) && t < |states[0].threads| && states[0].threads[t] == Enter(true, left)
  }

  /** Where a request stands that has not been admitted, with the checks it has made. */
  ghost predicate Waiting(p: Point, left: nat, checks: nat, rechecks: int, ending: bool) {
    match p
    case Enter(first, l) =>
      && l <= left && checks == left - l && (first <==> checks == 0) && !ending
      && rechecks == if first then 0 else checks - 1
    case Check(first, l) =>
      && l <= left && checks == left - l && (first <==> checks == 0) && !ending
      && rechecks == if first then 0 else checks - 1
    case Retreat(first, l) =>
      && l <= left && checks == left - l + 1 && (first <==> checks == 1) && !ending
      && rechecks == if first then 0 else checks - 2
    case Recheck(l) => l <= left && checks == left - l + 1 && !ending && rechecks == checks - 2
    case Sleep(l) => l <= left && checks == left - l + 1 && !ending && rechecks == checks - 1
    case Finished(ok) => !ok && (ending || checks == left + 1) && rechecks == checks - 1
    case _ => false
  }

  /** Unless a check found the instance available, the request is still waiting or has given up. */
  lemma {:induction false} WaitsOrGivesUp(states: seq<State>, events: seq<Event>, t: nat, left: nat, j: nat)
    requires Arrives(states, events, t, left) && j <= |events| && !FoundAvailable(states, events, t, j)
    ensures t < |states[j].threads|
    ensures Waiting(states[j].threads[t], left, ChecksMade(states, events, t, j), RechecksMade(states, events, t, j),
                    FoundEnding(states, events, t, j))
  {
    if j > 0 {
      EarlierFound(states, events, t, j);
      WaitsOrGivesUp(states, events, t, left, j - 1);
      ThreadBecomes(states, events, t, j - 1);
      WaitingStep(states[j - 1], events[j - 1], states[j], t, left, ChecksMade(states, events, t, j - 1),
                  RechecksMade(states, events, t, j - 1), FoundEnding(states, events, t, j - 1));
    }
  }

  lemma WaitingStep(s: State, e: Event, s': State, t: nat, left: nat, checks: nat, rechecks: nat, ending: bool)
    requires Becomes(s, e, s', t) && Waiting(s.threads[t], left, checks, rechecks, ending)
    requires Moves(e, t) && s.threads[t].Check? ==> s.status.state != AVAILABLE
    ensures
      Waiting(s'.threads[t], left, checks + if Moves(e, t) && s.threads[t].Check? then 1 else 0,
              rechecks + if Moves(e, t) && s.threads[t].Recheck? then 1 else 0,
              ending || (Moves(e, t) && s.threads[t].Recheck? &&
                         (s.status.state == UNLOADING || s.status.state == END)))
  {}

  lemma EarlierFound(states: seq<State>, events: seq<Event>, t: nat, j: nat)
    requires |states| == |events| + 1 && 0 < j <= |events|
    ensures FoundAvailable(states, events, t, j) <==>
            FoundAvailable(states, events, t, j - 1) ||
            (Moves(events[j - 1], t) && t < |states[j - 1].threads| && states[j - 1].threads[t].Check? &&
             states[j - 1].status.state == AVAILABLE)
    ensures FoundEnding(states, events, t, j) <==>
            FoundEnding(states, events, t, j - 1) ||
            (Moves(events[j - 1], t) && t < |states[j - 1].threads| && states[j - 1].threads[t].Recheck? &&
             (states[j - 1].status.state == UNLOADING || states[j - 1].status.state == END))
  {}

  /**
   * waitForLoaded gives up after left + 1 checks, or as soon as it finds the instance unloading or ended;
   * it looks for that after every failed check but the first. It hands out a guard only if a check finds
   * the instance available.
   */
  lemma GivesUpExactly(states: seq<State>, events: seq<Event>, t: nat, left: nat, j: nat)
    requires Arrives(states, events, t, left) && j <= |events|
    ensures t < |states[j].threads|
    ensures HasGuard(states[j].threads[t]) ==> FoundAvailable(states, events, t, j)
    ensures !FoundAvailable(states, events, t, j) && states[j].threads[t].Finished? ==>
              && !states[j].threads[t].ok
              && (FoundEnding(states, events, t, j) || ChecksMade(states, events, t, j) == left + 1)
              && RechecksMade(states, events, t, j) == ChecksMade(states, events, t, j) - 1
    ensures !FoundAvailable(states, events, t, j) && FoundEnding(states, events, t, j) ==>
              states[j].threads[t].Finished?
    ensures !FoundAvailable(states, events, t, j) ==> ChecksMade(states, events, t, j) <= left + 1
  {
    StaysAround(states, events, t, 0, j);
    if !FoundAvailable(states, events, t, j) {
      WaitsOrGivesUp(states, events, t, left, j);
    }
  }

  lemma {:induction false} StaysAround(states: seq<State>, events: seq<Event>, t: nat, i: nat, j: nat)
    requires Execution(states, events) && Inv(states[0]) && i <= j <= |events| && t < |states[i].threads|
    ensures t < |states[j].threads|
    decreases j
  {
    if i < j {
      StaysAround(states, events, t, i, j - 1);
      ThreadBecomes(states, events, t, j - 1);
    }
  }

  /** A check that finds the instance available admits the request. */
  lemma AdmittedIfAvailable(states: seq<State>, events: seq<Event>, t: nat, i: nat)
    requires Execution(states, events) && Inv(states[0]) && i < |events| && t < |states[i].threads|
    requires Moves(events[i], t) && states[i].threads[t].Check?
    ensures t < |states[i + 1].threads|
    ensures states[i + 1].threads[t].Holding? <==> states[i].status.state == AVAILABLE
  {
    ThreadBecomes(states, events, t, i);
  }

  // ---- infer, in every execution ----

  /** The thread has not inferred, and not got through without. */
  predicate BeforeInference(p: Point) {
    !p.Inferring? && !p.Returning? && !p.Leaving? && !(p.Finished? && p.ok)
  }

  ghost predicate Infers(states: seq<State>, t: nat, j: nat)
    requires j < |states|
  {
    exists i :: 0 <= i <= j && t < |states[i].threads| && states[i].threads[t].Inferring?
  }

  /** A request that is not rejected gets through only by an inference. */
  lemma {:induction false} GetsThroughByInference(states: seq<State>, events: seq<Event>, t: nat, j: nat)
    requires Execution(states, events) && Inv(states[0]) && j <= |events|
    requires t < |states[0].threads| && BeforeInference(states[0].threads[t])
    requires forall i :: 0 <= i < j && Moves(events[i], t) ==> !events[i].c.verdict.Reject?
    ensures t < |states[j].threads|
    ensures BeforeInference(states[j].threads[t]) || Infers(states, t, j)
    ensures states[j].threads[t] == Finished(true) ==> Infers(states, t, j)
  {
    if j > 0 {
      GetsThroughByInference(states, events, t, j - 1);
      ThreadBecomes(states, events, t, j - 1);
      if BeforeInference(states[j - 1].threads[t]) {
        NotThroughStep(states[j - 1], events[j - 1], states[j], t);
      }
      if Infers(states, t, j - 1) {
        var i :| 0 <= i <= j - 1 && t < |states[i].threads| && states[i].threads[t].Inferring?;
        assert 0 <= i <= j;
      }
    }
  }

  lemma NotThroughStep(s: State, e: Event, s': State, t: nat)
    requires Becomes(s, e, s', t) && BeforeInference(s.threads[t])
    requires Moves(e, t) ==> !e.c.verdict.Reject?
    ensures BeforeInference(s'.threads[t]) || s'.threads[t].Inferring?
  {}

  /** A request that is rejected, by its validation or while it is prepared, never takes a stream. */
  lemma RejectedNeverInfers(states: seq<State>, events: seq<Event>, t: nat, i: nat, j: nat)
    requires Execution(states, events) && Inv(states[0]) && i < j <= |events| && t < |states[i].threads|
    requires states[i].threads[t].Holding? || states[i].threads[t].Validated?
    requires Moves(events[i], t) && events[i].c.verdict.Reject?
    ensures t < |states[j].threads| && LetGo(states[j].threads[t])
  {
    StretchOf(states, events, t, i, j);
    assert StepsAt(states, events, t, i);
    RejectedStep(states[i], events[i], states[i + 1], t);
    StaysLetGo(states, events, t, i + 1, j);
  }

  /** The request only drops its guard, or has dropped it. */
  predicate LetGo(p: Point) {
    p.Leaving? || p == Finished(true)
  }

  lemma {:induction false} StaysLetGo(states: seq<State>, events: seq<Event>, t: nat, i: nat, j: nat)
    requires i <= j < |states| && t < |states[i].threads| && Stretch(states, events, t, i, j)
    requires LetGo(states[i].threads[t])
    ensures t < |states[j].threads| && LetGo(states[j].threads[t])
    decreases j
  {
    if i < j {
      StaysLetGo(states, events, t, i, j - 1);
      assert StepsAt(states, events, t, j - 1);
      RejectedStep(states[j - 1], events[j - 1], states[j], t);
    }
  }

  lemma RejectedStep(s: State, e: Event, s': State, t: nat)
    requires Becomes(s, e, s', t)
    requires LetGo(s.threads[t]) ||
             ((s.threads[t].Holding? || s.threads[t].Validated?) && Moves(e, t) && e.c.verdict.Reject?)
    ensures LetGo(s'.threads[t])
  {}

  /** The request has asked for this shape and has not been let go with another one. */
  predicate WantsShape(p: Point, wanted: Shape) {
    match p
    case DropGuard(w) => w == Some(wanted)
    case WantMutex(job) => job.Reshape? && job.wanted == Some(wanted)
    case Running(job, script, ok) => job.Reshape? && job.wanted == Some(wanted)
    case TakeGuard(shape) => shape == wanted
    case Unlock(kept) => kept == None || kept == Some(wanted)
    case Validated(shape) => shape == wanted
    case Queued(shape) => shape == wanted
    case Inferring(shape, id) => shape == wanted
    case Returning(shape, id) => shape == wanted
    case Leaving => true
    case Finished(ok) => true
    case _ => false
  }

  lemma {:induction false} KeepsWanting(states: seq<State>, events: seq<Event>, t: nat, i: nat, j: nat, wanted: Shape)
    requires Execution(states, events) && Inv(states[0]) && i <= j <= |events|
    requires t < |states[i].threads| && WantsShape(states[i].threads[t], wanted)
    ensures t < |states[j].threads| && WantsShape(states[j].threads[t], wanted)
    decreases j
  {
    if i < j {
      KeepsWanting(states, events, t, i, j - 1, wanted);
      ThreadBecomes(states, events, t, j - 1);
      WantsShapeStep(states[j - 1], events[j - 1], states[j], t, wanted);
    }
  }

  /** A request whose validation asks for another shape is inferred on a model of this shape, if at all. */
  lemma InfersAsAsked(states: seq<State>, events: seq<Event>, t: nat, i: nat, j: nat, wanted: Shape)
    requires Execution(states, events) && Inv(states[0]) && i < j <= |events|
    requires t < |states[i].threads| && states[i].threads[t].Holding?
    requires Moves(events[i], t) && events[i].c.verdict == NeedReload(Some(wanted))
    ensures t < |states[j].threads| && WantsShape(states[j].threads[t], wanted)
    ensures states[j].threads[t].Inferring? ==> states[j].components == Built(wanted)
  {
    ThreadBecomes(states, events, t, i);
    WantsShapeStep(states[i], events[i], states[i + 1], t, wanted);
    KeepsWanting(states, events, t, i + 1, j, wanted);
    BuiltWhenInferring(states, events, t, j);
  }

  lemma WantsShapeStep(s: State, e: Event, s': State, t: nat, wanted: Shape)
    requires Becomes(s, e, s', t)
    requires WantsShape(s.threads[t], wanted) ||
             (s.threads[t].Holding? && Moves(e, t) && e.c.verdict == NeedReload(Some(wanted)))
    ensures WantsShape(s'.threads[t], wanted)
  {}

  lemma BuiltWhenInferring(states: seq<State>, events: seq<Event>, t: nat, j: nat)
    requires Execution(states, events) && Inv(states[0]) && j < |states|
    requires t < |states[j].threads|
    ensures states[j].threads[t].Inferring? ==> states[j].components == Built(states[j].threads[t].shape)
  {
    ExecutionKeepsInv(states, events, j);
    assert Shaped(states[j], states[j].threads[t]);
  }

  // ---- infer, some execution ----

  const ACCEPTED := Choice(true, Accept, 1)

  /** A continuation in which every request is accepted, up to the given state. */
  predicate Accepts(s: State, states: seq<State>, events: seq<Event>, last: State) {
    && Execution(states, events) && states[0] == s && states[|events|] == last
    && (forall i :: 0 <= i < |events| ==> events[i].Moved? && events[i].c == ACCEPTED)
  }

  lemma Stand(s: State) returns (states: seq<State>, events: seq<Event>)
    ensures Accepts(s, states, events, s)
  {
    states, events := [s], [];
  }

  lemma Go(s: State, states: seq<State>, events: seq<Event>, last: State, t: nat)
    returns (longer: seq<State>, more: seq<Event>, next: State)
    requires Accepts(s, states, events, last) && Inv(last) && t < |last.threads| && !last.threads[t].WantMutex?
    requires Step(last, t, ACCEPTED).Some?
    ensures next == Step(last, t, ACCEPTED).value && Inv(next) && Accepts(s, longer, more, next)
    ensures states <= longer
  {
    next := Step(last, t, ACCEPTED).value;
    StepKeepsInv(last, t, ACCEPTED);
    longer, more := states + [next], events + [Moved(t, ACCEPTED)];
    assert Fires(last, Moved(t, ACCEPTED), next);
  }

  /** Where a guarded request goes by its own step; the model stays as it is. */
  predicate Leads(s: State, t: nat, p: Point) {
    && t < |s.threads| && Step(s, t, ACCEPTED).Some?
    && var next := Step(s, t, ACCEPTED).value;
       t < |next.threads| && next.threads[t] == p && next.components == s.components && next.status == s.status
  }

  lemma EnterLeads(s: State, t: nat)
    requires t < |s.threads|
    ensures s.threads[t].Enter? ==> Leads(s, t, Check(s.threads[t].first, s.threads[t].left))
    ensures s.threads[t].Check? && s.status.state == AVAILABLE ==> Leads(s, t, Holding)
    ensures s.threads[t].Holding? && s.components.Built? ==> Leads(s, t, Validated(s.components.shape))
    ensures s.threads[t].Inferring? ==> Leads(s, t, Returning(s.threads[t].shape, s.threads[t].id))
    ensures s.threads[t].Leaving? ==> Leads(s, t, Finished(true))
  {}

  lemma ReturningLeads(s: State, t: nat)
    requires Inv(s) && t < |s.threads| && s.threads[t].Returning?
    ensures Leads(s, t, Leaving)
  {
    ServedWaits(s, t);
    StepTally(s, t, ACCEPTED, Handle());
  }

  lemma ValidatedLeads(s: State, t: nat)
    requires s.pool.Some? && t < |s.threads| && s.threads[t].Validated?
    ensures Step(s, t, ACCEPTED).Some?
    ensures
      var next := Step(s, t, ACCEPTED).value;
      && t < |next.threads| && next.components == s.components
      && (next.threads[t] == Queued(s.threads[t].shape) ||
          (next.threads[t].Inferring? && next.threads[t].shape == s.threads[t].shape))
  {}

  /** A waiting request gets a stream once the requests before it are served: the holders return theirs. */
  lemma {:induction false} GetsStream(s: State, states: seq<State>, events: seq<Event>, last: State, t: nat)
    returns (longer: seq<State>, more: seq<Event>, next: State)
    requires Accepts(s, states, events, last) && Inv(last) && t < |last.threads| && last.threads[t].Queued?
    ensures Accepts(s, longer, more, next) && Inv(next) && states <= longer
    ensures t < |next.threads| && next.threads[t].Inferring? && next.threads[t].shape == last.threads[t].shape
    ensures next.components == last.components
    decreases |last.pool.value.queue.waiters|
  {
    longer, more, next := StreamComesBack(s, states, events, last, t);
    if next.threads[t].Queued? {
      longer, more, next := GetsStream(s, longer, more, next, t);
    }
  }

  /** Somebody who holds a stream returns it, and it goes to the first of the waiting ones. */
  lemma StreamComesBack(s: State, states: seq<State>, events: seq<Event>, last: State, t: nat)
    returns (longer: seq<State>, more: seq<Event>, next: State)
    requires Accepts(s, states, events, last) && Inv(last) && t < |last.threads| && last.threads[t].Queued?
    ensures Accepts(s, longer, more, next) && Inv(next) && states <= longer
    ensures t < |next.threads| && next.components == last.components
    ensures last.pool.Some? && next.pool.Some?
    ensures |next.pool.value.queue.waiters| < |last.pool.value.queue.waiters|
    ensures next.threads[t] == last.threads[t] ||
            (next.threads[t].Inferring? && next.threads[t].shape == last.threads[t].shape)
  {
    var u := StreamHolder(last, t);
    longer, more, next := states, events, last;
    if last.threads[u].Inferring? {
      InferringReturns(last, u);
      longer, more, next := Go(s, longer, more, next, u);
    }
    ReturningServes(next, u, t);
    longer, more, next := Go(s, longer, more, next, u);
  }

  lemma InferringReturns(s: State, u: nat)
    requires u < |s.threads| && s.threads[u].Inferring?
    ensures
      Step(s, u, ACCEPTED) == Some(s.(threads := s.threads[u := Returning(s.threads[u].shape, s.threads[u].id)]))
  {}

  /** Returning a stream serves the first of the waiting ones. */
  lemma ReturningServes(s: State, u: nat, t: nat)
    requires Inv(s) && u < |s.threads| && s.threads[u].Returning? && t < |s.threads| && s.threads[t].Queued?
    ensures Step(s, u, ACCEPTED).Some?
    ensures
      var next := Step(s, u, ACCEPTED).value;
      && next.pool.Some? && next.components == s.components && t < |next.threads|
      && |next.pool.value.queue.waiters| < |s.pool.value.queue.waiters|
      && (next.threads[t] == s.threads[t] ||
          (next.threads[t].Inferring? && next.threads[t].shape == s.threads[t].shape))
  {
    assert multiset(s.pool.value.queue.waiters)[t] == 1;
    assert s.pool.value.queue.waiters != [];
    ServedWaits(s, u);
    StepTally(s, u, ACCEPTED, Handle());
  }

  lemma GuardMeansReady(s: State, t: nat)
    requires Inv(s) && t < |s.threads|
    ensures HasGuard(s.threads[t]) || s.status.state == AVAILABLE ==> Ready(s)
  {}

  /** From wherever a request holds its guard before validation, it can be inferred on the loaded model. */
  lemma HolderCanInfer(s: State, states: seq<State>, events: seq<Event>, last: State, t: nat)
    returns (longer: seq<State>, more: seq<Event>, next: State)
    requires Accepts(s, states, events, last) && Inv(last) && t < |last.threads| && last.threads[t].Holding?
    ensures last.components.Built? && Accepts(s, longer, more, next) && Inv(next) && states <= longer
    ensures t < |next.threads| && next.threads[t].Inferring? && next.threads[t].shape == last.components.shape
  {
    GuardMeansReady(last, t);
    EnterLeads(last, t);
    longer, more, next := Go(s, states, events, last, t);
    GuardMeansReady(next, t);
    ValidatedLeads(next, t);
    longer, more, next := Go(s, longer, more, next, t);
    if next.threads[t].Queued? {
      longer, more, next := GetsStream(s, longer, more, next, t);
    }
  }

  /** An accepted request that holds its guard can come to infer on the loaded model. */
  lemma AcceptedCanInfer(s: State, t: nat) returns (states: seq<State>, events: seq<Event>, last: State)
    requires Inv(s) && t < |s.threads| && s.threads[t].Holding?
    ensures s.components.Built? && Accepts(s, states, events, last)
    ensures t < |last.threads| && last.threads[t].Inferring? && last.threads[t].shape == s.components.shape
  {
    states, events := Stand(s);
    states, events, last := HolderCanInfer(s, states, events, s, t);
  }

  /** A thread that infers can get through. */
  lemma InferringCanFinish(s: State, states: seq<State>, events: seq<Event>, last: State, t: nat)
    returns (longer: seq<State>, more: seq<Event>, next: State)
    requires Accepts(s, states, events, last) && Inv(last) && t < |last.threads| && last.threads[t].Inferring?
    ensures Accepts(s, longer, more, next) && states <= longer
    ensures t < |next.threads| && next.threads[t] == Finished(true)
  {
    EnterLeads(last, t);
    longer, more, next := Go(s, states, events, last, t);
    ReturningLeads(next, t);
    longer, more, next := Go(s, longer, more, next, t);
    EnterLeads(next, t);
    longer, more, next := Go(s, longer, more, next, t);
  }

  /** A request that finds the instance available can be inferred on the loaded model and get through. */
  lemma RequestCanGetThrough(s: State, t: nat, first: bool, left: nat)
    returns (states: seq<State>, events: seq<Event>, last: State, i: nat)
    requires Inv(s) && s.status.state == AVAILABLE && t < |s.threads| && s.threads[t] == Enter(first, left)
    ensures s.components.Built? && Accepts(s, states, events, last)
    ensures i < |states| && t < |states[i].threads| && states[i].threads[t].Inferring?
    ensures states[i].threads[t].shape == s.components.shape
    ensures t < |last.threads| && last.threads[t] == Finished(true)
  {
    states, events := Stand(s);
    GuardMeansReady(s, t);
    EnterLeads(s, t);
    states, events, last := Go(s, states, events, s, t);
    EnterLeads(last, t);
    states, events, last := Go(s, states, events, last, t);
    states, events, last := HolderCanInfer(s, states, events, last, t);
    i := |events|;
    var inferring := states;
    states, events, last := InferringCanFinish(s, states, events, last, t);
    assert states[i] == inferring[i];
  }
}
