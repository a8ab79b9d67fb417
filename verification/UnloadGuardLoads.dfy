/** The precondition of loadModel, which takes loadingMutex but does not drain. */
module UnloadGuardLoads {
  import opened VersionStatus
  import opened UnloadGuardSteps
  import opened UnloadGuardSafety
  import opened UnloadGuardTheorems

  /**
   * A continuation of s in which thread t locks loadingMutex for its loadModel first; every other
   * loadModel is called on a new instance only.
   */
  predicate LocksNow(s: State, t: nat, states: seq<State>, events: seq<Event>) {
    && |states| == |events| + 1 && states[0] == s
    && |events| > 0 && events[0].Moved? && events[0].t == t
    && (forall i :: 0 <= i < |events| ==> Fires(states[i], events[i], states[i + 1]))
    && (forall i :: 0 < i < |events| ==> Allowed(states[i], events[i]))
  }

  /** Thread t is about to rebuild the model while a request holds a guard. */
  ghost predicate RebuildsUnderGuard(s: State, t: nat) {
    t < |s.threads| && Mutates(s.threads[t]) && !NoGuards(s)
  }

  predicate AboutToLoad(s: State, t: nat) {
    s.mutex.None? && t < |s.threads| && s.threads[t].WantMutex? && s.threads[t].job.Load?
  }

  /**
   * Called now, loadModel can come to rebuild the model under a guard if and only if the instance
   * is available or a guard is held already.
   */
  lemma LoadModelNeedsQuiet(s: State, t: nat)
    requires Inv(s) && AboutToLoad(s, t)
    ensures
      (exists states, events :: LocksNow(s, t, states, events) && RebuildsUnderGuard(states[|events|], t)) <==>
      s.status.state == AVAILABLE || !NoGuards(s)
  {
    if s.status.state == AVAILABLE {
      var states, events := RequestSlipsIn(s, t);
    } else if !NoGuards(s) {
      var states, events := LoadModelUnderGuard(s, t);
    } else {
      forall states, events | LocksNow(s, t, states, events) ensures !RebuildsUnderGuard(states[|events|], t) {
        QuietLoadIsSafe(s, t, states, events, |events|);
      }
    }
  }

  // ---- Quiet ----

  lemma {:induction false} QuietLoadKeepsInv(s: State, t: nat, states: seq<State>, events: seq<Event>, i: nat)
    requires Inv(s) && AboutToLoad(s, t) && s.status.state != AVAILABLE && NoGuards(s)
    requires LocksNow(s, t, states, events) && i < |states|
    ensures Inv(states[i])
  {
    if i == 1 {
      StepKeepsInv(s, t, events[0].c);
    } else if i > 1 {
      QuietLoadKeepsInv(s, t, states, events, i - 1);
      FiringKeepsInv(states[i - 1], events[i - 1], states[i]);
    }
  }

  lemma QuietLoadIsSafe(s: State, t: nat, states: seq<State>, events: seq<Event>, i: nat)
    requires Inv(s) && AboutToLoad(s, t) && s.status.state != AVAILABLE && NoGuards(s)
    requires LocksNow(s, t, states, events) && i < |states|
    ensures !RebuildsUnderGuard(states[i], t)
  {
    QuietLoadKeepsInv(s, t, states, events, i);
    if t < |states[i].threads| && Mutates(states[i].threads[t]) {
      assert Scripted(states[i], states[i].threads[t]);
      AlteringIsQuiet(states[i], states[i].threads[t]);
    }
  }

  // ---- Not quiet ----

  /** A step of a thread that hands no stream to another one. */
  lemma MovesAlone(s: State, t: nat, c: Choice)
    requires t < |s.threads| && !s.threads[t].Returning? && Step(s, t, c).Some?
    ensures
      var s' := Step(s, t, c).value;
      && |s'.threads| == |s.threads| && s'.threads[t] == Next(s, t, c).value
      && (forall u :: 0 <= u < |s.threads| && u != t ==> s'.threads[u] == s.threads[u])
  {}

  lemma Extend(s: State, t: nat, states: seq<State>, events: seq<Event>, e: Event, next: State)
    requires LocksNow(s, t, states, events) && Fires(states[|events|], e, next) && Allowed(states[|events|], e)
    ensures LocksNow(s, t, states + [next], events + [e]) && (states + [next])[|events + [e]|] == next
  {}

  /** The thread holds loadingMutex and is at the beginning of loadModel. */
  predicate Locked(s: State, t: nat) {
    t < |s.threads| && s.threads[t].Running? && s.threads[t].job.Load? &&
    s.threads[t].script == LoadingAnew(s.threads[t].job.shape)
  }

  const ANY := Choice(true, Reject, 1)

  lemma Lock(s: State, t: nat) returns (states: seq<State>, events: seq<Event>)
    requires AboutToLoad(s, t)
    ensures LocksNow(s, t, states, events)
    ensures
      var last := states[|events|];
      && Locked(last, t) && last.status == s.status && |last.threads| == |s.threads|
      && (forall u :: 0 <= u < |s.threads| && u != t ==> last.threads[u] == s.threads[u])
  {
    MovesAlone(s, t, ANY);
    states, events := [s, Step(s, t, ANY).value], [Moved(t, ANY)];
  }

  /** With a guard held, two more steps of loadModel lead to the rebuilding. */
  lemma Rebuild(s: State, t: nat, states: seq<State>, events: seq<Event>, u: nat)
    returns (longer: seq<State>, more: seq<Event>)
    requires LocksNow(s, t, states, events)
    requires
      var last := states[|events|];
      Locked(last, t) && u < |last.threads| && u != t && HasGuard(last.threads[u])
    ensures LocksNow(s, t, longer, more) && RebuildsUnderGuard(longer[|more|], t)
  {
    var s0 := states[|events|];
    MovesAlone(s0, t, ANY);
    var s1 := Step(s0, t, ANY).value;
    Extend(s, t, states, events, Moved(t, ANY), s1);
    MovesAlone(s1, t, ANY);
    var s2 := Step(s1, t, ANY).value;
    Extend(s, t, states + [s1], events + [Moved(t, ANY)], Moved(t, ANY), s2);
    longer, more := states + [s1] + [s2], events + [Moved(t, ANY)] + [Moved(t, ANY)];
    assert HasGuard(s2.threads[u]);
  }

  /** Called while a guard is held, loadModel can come to rebuild the model under it. */
  lemma LoadModelUnderGuard(s: State, t: nat) returns (states: seq<State>, events: seq<Event>)
    requires AboutToLoad(s, t) && !NoGuards(s)
    ensures LocksNow(s, t, states, events) && RebuildsUnderGuard(states[|events|], t)
  {
    var u: nat :| u < |s.threads| && HasGuard(s.threads[u]);
    states, events := Lock(s, t);
    states, events := Rebuild(s, t, states, events, u);
  }

  /** On an available instance a request arrives after the lock and gets its guard before the status changes. */
  lemma RequestSlipsIn(s: State, t: nat) returns (states: seq<State>, events: seq<Event>)
    requires AboutToLoad(s, t) && s.status.state == AVAILABLE
    ensures LocksNow(s, t, states, events) && RebuildsUnderGuard(states[|events|], t)
  {
    states, events := Lock(s, t);
    var s0 := states[|events|];
    var u := |s0.threads|;
    var s1 := s0.(threads := s0.threads + [Enter(true, 0)]);
    Extend(s, t, states, events, Spawned(Enter(true, 0)), s1);
    states, events := states + [s1], events + [Spawned(Enter(true, 0))];
    MovesAlone(s1, u, ANY);
    var s2 := Step(s1, u, ANY).value;
    Extend(s, t, states, events, Moved(u, ANY), s2);
    states, events := states + [s2], events + [Moved(u, ANY)];
    MovesAlone(s2, u, ANY);
    var s3 := Step(s2, u, ANY).value;
    Extend(s, t, states, events, Moved(u, ANY), s3);
    states, events := states + [s3], events + [Moved(u, ANY)];
    states, events := Rebuild(s, t, states, events, u);
  }
}
