/** What a call of the queue comes to, in every run: a guard infers, a try takes an id or finds none. */
module StreamQueueCalls {
  import opened FifoPool
  import opened StreamQueueSteps
  import opened StreamQueueSafety
  import opened StreamQueueTheorems

  predicate Moves(e: Event, t: nat) {
    e.Moved? && e.t == t
  }

  /** What a firing makes of one thread: its own step, or nothing, or the id it waits for. */
  ghost predicate Becomes(s: State, e: Event, s': State, t: nat) {
    && WellFormed(s) && t < |s.threads| && t < |s'.threads|
    && if Moves(e, t) then Next(s, t, e.c) == Some(s'.threads[t])
       else s'.threads[t] == s.threads[t] || Served(s.threads[t], s'.threads[t])
  }

  /** The promise of the thread has got its value. */
  predicate Served(th: Thread, th': Thread) {
    && th.Inside? && th'.Inside? && th'.guarded == th.guarded
    && ((th.at == LeavingFront(None) && th'.at.LeavingFront?) || (th.at == Waiting(None) && th'.at.Waiting?))
  }

  lemma ThreadBecomes(n: nat, states: seq<State>, events: seq<Event>, t: nat, i: nat)
    requires n >= 1 && Run(n, states, events) && i < |events| && t < |states[i].threads|
    ensures Becomes(states[i], events[i], states[i + 1], t)
  {
    RunKeepsInv(n, states, events, i);
    assert Fires(states[i], events[i], states[i + 1]);
    match events[i]
    case Spawned =>
    case Moved(u, c) => StepBecomes(states[i], u, c, t);
  }

  lemma StepBecomes(s: State, u: nat, c: Choice, t: nat)
    requires Inv(s) && u < |s.threads| && Step(s, u, c).Some? && t < |s.threads|
    ensures Becomes(s, Moved(u, c), Step(s, u, c).value, t)
  {
    PeerAwaits(s, u);
    StepTally(s, u, c, Away());
  }

  // ---- The course of a call ----

  /** The thread enters the queue at i and is inside from then on up to j. */
  ghost predicate Calls(n: nat, states: seq<State>, events: seq<Event>, t: nat, i: nat, j: nat) {
    && n >= 1 && Run(n, states, events) && i < j <= |events| && Moves(events[i], t)
    && t < |states[i].threads| && states[i].threads[t].Outside?
    && (forall k :: i < k < j && t < |states[k].threads| ==> states[k].threads[t].Inside?)
  }

  /** What the thread has found in the front slot when it tested it. */
  function Tested(states: seq<State>, events: seq<Event>, t: nat, i: nat, j: nat): Option<bool>
    requires |states| == |events| + 1 && i <= j <= |events|
    decreases j
  {
    if i == j then None
    else
      var s := states[j - 1];
      if Moves(events[j - 1], t) && t < |s.threads| && s.threads[t].Inside? && s.threads[t].at.AtFront? &&
         s.front < |s.streams|
      then Some(s.streams[s.front] >= 0)
      else Tested(states, events, t, i, j - 1)
  }

  ghost predicate Was(states: seq<State>, t: nat, i: nat, j: nat, what: Point -> bool)
    requires j < |states|
  {
    exists k :: i < k <= j && t < |states[k].threads| && states[k].threads[t].Inside? && what(states[k].threads[t].at)
  }

  function Infers(): Point -> bool {
    (p: Point) => p.Active?
  }

  function Pushes(): Point -> bool {
    (p: Point) => p.Enqueued?
  }

  function Takes(): Point -> bool {
    (p: Point) => p.Read?
  }

  /** Where a call stands: what it found decides what it does, and a guard infers before it returns its id. */
  predicate Course(th: Thread, guarded: bool, tested: Option<bool>, infers: bool, pushes: bool, takes: bool) {
    if th.Outside? then
      && tested.Some? && (takes <==> tested.value) && (infers <==> guarded) && (pushes <==> guarded && !tested.value)
    else
      && th.guarded == guarded
      && match th.at
         case WantFront => tested == None && !infers && !pushes && !takes
         case AtFront => tested == None && !infers && !pushes && !takes
         case WantQueue => guarded && tested == Some(false) && !infers && !pushes && !takes
         case Enqueuing => guarded && tested == Some(false) && !infers && !pushes && !takes
         case Enqueued => guarded && tested == Some(false) && !infers && pushes && !takes
         case LeavingFront(got) => guarded && tested == Some(false) && !infers && pushes && !takes
         case Waiting(got) => guarded && tested == Some(false) && !infers && pushes && !takes
         case FoundIdle => tested == Some(true) && !infers && !pushes && !takes
         case Read(id) => tested == Some(true) && !infers && !pushes && takes
         case Cleared(id) => tested == Some(true) && !infers && !pushes && takes
         case Advanced(id) => tested == Some(true) && !infers && !pushes && takes
         case Delivering(id) => guarded && tested == Some(true) && !infers && !pushes && takes
         case NothingIdle => !guarded && tested == Some(false) && !infers && !pushes && !takes
         case Granted(id) =>
           guarded && !infers && tested.Some? && (takes <==> tested.value) && (pushes <==> !tested.value)
         case Active(id) =>
           guarded && infers && tested.Some? && (takes <==> tested.value) && (pushes <==> !tested.value)
         case _ =>
           && tested.Some? && (infers <==> guarded) && (takes <==> tested.value) && (pushes <==> !tested.value)
           && (!guarded ==> tested == Some(true))
  }

  lemma CourseStep(s: State, e: Event, s': State, t: nat, guarded: bool, tested: Option<bool>,
                   infers: bool, pushes: bool, takes: bool)
    requires Becomes(s, e, s', t) && s.threads[t].Inside?
    requires Course(s.threads[t], guarded, tested, infers, pushes, takes)
    ensures
      var th := s'.threads[t];
      Course(th, guarded,
             if Moves(e, t) && s.threads[t].at.AtFront? then Some(s.streams[s.front] >= 0) else tested,
             infers || (th.Inside? && th.at.Active?), pushes || (th.Inside? && th.at.Enqueued?),
             takes || (th.Inside? && th.at.Read?))
  {}

  ghost predicate OnCourse(states: seq<State>, events: seq<Event>, t: nat, i: nat, j: nat)
    requires |states| == |events| + 1 && i < j <= |events| && events[i].Moved?
  {
    t < |states[j].threads| &&
    Course(states[j].threads[t], events[i].c.guarded, Tested(states, events, t, i, j),
           Was(states, t, i, j, Infers()), Was(states, t, i, j, Pushes()), Was(states, t, i, j, Takes()))
  }

  ghost predicate StepsAt(states: seq<State>, events: seq<Event>, t: nat, k: nat) {
    k < |events| && k + 1 < |states| && Becomes(states[k], events[k], states[k + 1], t)
  }

  /** A call on its own, without the run around it. */
  ghost predicate CallAlone(states: seq<State>, events: seq<Event>, t: nat, i: nat, j: nat) {
    && |states| == |events| + 1 && i < j <= |events| && Moves(events[i], t)
    && (forall k: nat :: i <= k < j ==> StepsAt(states, events, t, k))
    && t < |states[i].threads| && states[i].threads[t].Outside?
    && (forall k: nat :: i < k < j ==> t < |states[k].threads| && states[k].threads[t].Inside?)
  }

  lemma {:induction false} StepsThroughout(n: nat, states: seq<State>, events: seq<Event>, t: nat, i: nat, k: nat)
    requires n >= 1 && Run(n, states, events) && i <= k < |events| && t < |states[i].threads|
    ensures StepsAt(states, events, t, k)
    decreases k
  {
    if k > i {
      StepsThroughout(n, states, events, t, i, k - 1);
    }
    ThreadBecomes(n, states, events, t, k);
  }

  lemma CallIsInside(n: nat, states: seq<State>, events: seq<Event>, t: nat, i: nat, j: nat)
    requires Calls(n, states, events, t, i, j)
    ensures CallAlone(states, events, t, i, j)
  {
    forall k: nat | i <= k < j
      ensures StepsAt(states, events, t, k)
    {
      StepsThroughout(n, states, events, t, i, k);
    }
    forall k: nat | i < k < j
      ensures t < |states[k].threads| && states[k].threads[t].Inside?
    {
      assert StepsAt(states, events, t, k);
    }
  }

  lemma {:induction false} CallTakesCourse(states: seq<State>, events: seq<Event>, t: nat, i: nat, j: nat)
    requires CallAlone(states, events, t, i, j)
    ensures OnCourse(states, events, t, i, j)
    decreases j
  {
    assert StepsAt(states, events, t, j - 1);
    if j - 1 == i {
      FirstOnCourse(states, events, t, i);
    } else {
      CallTakesCourse(states, events, t, i, j - 1);
      NextOnCourse(states, events, t, i, j);
    }
  }

  lemma FirstOnCourse(states: seq<State>, events: seq<Event>, t: nat, i: nat)
    requires |states| == |events| + 1 && i < |events| && Moves(events[i], t)
    requires Becomes(states[i], events[i], states[i + 1], t) && states[i].threads[t].Outside?
    ensures OnCourse(states, events, t, i, i + 1)
  {
    NothingBefore(states, events, t, i);
  }

  lemma NextOnCourse(states: seq<State>, events: seq<Event>, t: nat, i: nat, j: nat)
    requires |states| == |events| + 1 && i < j - 1 < |events| && events[i].Moved?
    requires OnCourse(states, events, t, i, j - 1) && states[j - 1].threads[t].Inside?
    requires Becomes(states[j - 1], events[j - 1], states[j], t)
    ensures OnCourse(states, events, t, i, j)
  {
    CourseStep(states[j - 1], events[j - 1], states[j], t, events[i].c.guarded, Tested(states, events, t, i, j - 1),
               Was(states, t, i, j - 1, Infers()), Was(states, t, i, j - 1, Pushes()),
               Was(states, t, i, j - 1, Takes()));
    TestedMore(states, events, t, i, j);
    WasMore(states, t, i, j, Infers());
    WasMore(states, t, i, j, Pushes());
    WasMore(states, t, i, j, Takes());
  }

  lemma NothingBefore(states: seq<State>, events: seq<Event>, t: nat, i: nat)
    requires |states| == |events| + 1 && i < |events| && Moves(events[i], t) && WellFormed(states[i])
    requires t < |states[i].threads| && t < |states[i + 1].threads| && states[i].threads[t].Outside?
    requires states[i + 1].threads[t] == Inside(events[i].c.guarded, WantFront)
    ensures Tested(states, events, t, i, i + 1) == None
    ensures !Was(states, t, i, i + 1, Infers()) && !Was(states, t, i, i + 1, Pushes()) &&
            !Was(states, t, i, i + 1, Takes())
  {
    assert Tested(states, events, t, i, i) == None;
  }

  lemma TestedMore(states: seq<State>, events: seq<Event>, t: nat, i: nat, j: nat)
    requires |states| == |events| + 1 && i < j <= |events|
    requires WellFormed(states[j - 1]) && t < |states[j - 1].threads| && states[j - 1].threads[t].Inside?
    ensures Tested(states, events, t, i, j) ==
            if Moves(events[j - 1], t) && states[j - 1].threads[t].at.AtFront?
            then Some(states[j - 1].streams[states[j - 1].front] >= 0)
            else Tested(states, events, t, i, j - 1)
  {}

  lemma WasMore(states: seq<State>, t: nat, i: nat, j: nat, what: Point -> bool)
    requires i < j < |states|
    ensures Was(states, t, i, j, what) <==>
            Was(states, t, i, j - 1, what) ||
            (t < |states[j].threads| && states[j].threads[t].Inside? && what(states[j].threads[t].at))
  {}

  /**
   * A call that has left the queue again: with a guard it has inferred, and it has pushed a promise
   * exactly if it found the front slot empty; a try has taken an id exactly if it found the slot filled.
   */
  lemma CallEnds(n: nat, states: seq<State>, events: seq<Event>, t: nat, i: nat, j: nat)
    requires Calls(n, states, events, t, i, j) && t < |states[j].threads| && states[j].threads[t].Outside?
    ensures Tested(states, events, t, i, j).Some?
    ensures
      var found := Tested(states, events, t, i, j).value;
      && (Was(states, t, i, j, Infers()) <==> events[i].c.guarded)
      && (Was(states, t, i, j, Pushes()) <==> events[i].c.guarded && !found)
      && (Was(states, t, i, j, Takes()) <==> found)
  {
    CallIsInside(n, states, events, t, i, j);
    CallTakesCourse(states, events, t, i, j);
  }
}
