/** A retired instance can come back: a dynamic reload that was on its way loads the model again. */
module UnloadGuardRevival {
  import opened FifoPool
  import opened Tally
  import opened VersionStatus
  import opened UnloadGuardSteps
  import opened UnloadGuardSafety
  import opened UnloadGuardTheorems

  /** The thread is between dropping its guard and locking loadingMutex for a reload to another shape. */
  predicate ReloadOnItsWay(p: Point) {
    p.WantMutex? && p.job.Reshape? && p.job.wanted.Some?
  }

  /** A call that the model manager makes to load the model. */
  predicate CalledToLoad(p: Point) {
    p.WantMutex? && (p.job.Load? || p.job.Reload?)
  }

  /** A continuation of s in which the model manager does not load the model. */
  predicate Unasked(s: State, states: seq<State>, events: seq<Event>) {
    && Execution(states, events) && states[0] == s
    && (forall i :: 0 <= i < |events| && events[i].Moved? && events[i].t < |states[i].threads| ==>
          !CalledToLoad(states[i].threads[events[i].t]))
  }

  predicate Retired(s: State) {
    s.status.state == END && s.mutex.None?
  }

  /**
   * A retired instance can become available again without a call of the model manager to load it if
   * and only if some request is on its way to reload it.
   */
  lemma RetiredComesBackExactly(s: State)
    requires Inv(s) && Retired(s)
    ensures
      (exists states: seq<State>, events: seq<Event> ::
         Unasked(s, states, events) && states[|events|].status.state == AVAILABLE) <==>
      (exists t :: 0 <= t < |s.threads| && ReloadOnItsWay(s.threads[t]))
  {
    if t :| 0 <= t < |s.threads| && ReloadOnItsWay(s.threads[t]) {
      var states, events := ComesBack(s, t);
    } else {
      forall t | 0 <= t < |s.threads| ensures Harmless(s.threads[t]) {
        assert HasMutex(s.threads[t]) ==> s.mutex == Some(t);
      }
      forall states: seq<State>, events: seq<Event> | Unasked(s, states, events)
        ensures states[|events|].status.state != AVAILABLE
      {
        StaysAway(s, states, events, |events|);
      }
    }
  }

  // ---- With a reload on its way ----

  /** The script publishes the model unless something fails. */
  predicate Publishes(script: Script) {
    script.Then? && (script.op.Publish? || script.op.CheckLoader? || Publishes(script.rest))
  }

  /** A bound on the operations left; checking the loader may put a whole retirement first. */
  function OperationsLeft(script: Script): nat {
    match script
    case Done => 0
    case Then(CheckLoader(_), _) => 10
    case Then(_, rest) => 1 + OperationsLeft(rest)
  }

  const WELL := Choice(true, Reject, 1)

  lemma Prepend(s: State, t: nat, next: State, rest: seq<State>, more: seq<Event>)
    requires Unasked(next, rest, more) && t < |s.threads| && Step(s, t, WELL) == Some(next)
    requires !CalledToLoad(s.threads[t])
    ensures Unasked(s, [s] + rest, [Moved(t, WELL)] + more)
    ensures ([s] + rest)[|[Moved(t, WELL)] + more|] == rest[|more|]
  {
    var states, events := [s] + rest, [Moved(t, WELL)] + more;
    forall i | 0 <= i < |events|
      ensures Fires(states[i], events[i], states[i + 1]) && Allowed(states[i], events[i])
      ensures events[i].Moved? && events[i].t < |states[i].threads| ==>
                !CalledToLoad(states[i].threads[events[i].t])
    {
      if i > 0 {
        assert states[i] == rest[i - 1] && states[i + 1] == rest[i] && events[i] == more[i - 1];
      }
    }
  }

  /** One operation of the script; checking the loader may prolong it. */
  lemma OperationLeads(s: State, u: nat)
    requires u < |s.threads| && s.threads[u].Running? && Publishes(s.threads[u].script)
    requires s.threads[u].script.op.AwaitDrain? ==> s.handles == 0
    requires !s.threads[u].script.op.Publish?
    ensures Step(s, u, WELL).Some?
    ensures
      var p := Step(s, u, WELL).value.threads[u];
      && u < |Step(s, u, WELL).value.threads|
      && p.Running? && Publishes(p.script) && OperationsLeft(p.script) < OperationsLeft(s.threads[u].script)
  {
    var script := s.threads[u].script;
    if script.op.CheckLoader? {
      LoadingPublishes(script.op.shape);
    }
  }

  lemma LoadingPublishes(shape: Shape)
    ensures Publishes(Loading(shape)) && OperationsLeft(Loading(shape)) == 3
    ensures Publishes(Retiring(false, Loading(shape))) && OperationsLeft(Retiring(false, Loading(shape))) == 6
  {
    assert Publishes(Then(BuildPool, Then(Publish, Done)));
    assert OperationsLeft(Then(BuildPool, Then(Publish, Done))) == 2;
    assert Publishes(Then(AwaitDrain, Then(Unload, Loading(shape))));
    assert OperationsLeft(Then(Unload, Loading(shape))) == 4;
  }

  /** The thread runs its script to the end; while it drains, the threads that count in the handle counter go on. */
  lemma {:induction false} RunsToItsEnd(s: State, u: nat) returns (states: seq<State>, events: seq<Event>)
    requires Inv(s) && u < |s.threads| && s.threads[u].Running? && Publishes(s.threads[u].script)
    ensures Unasked(s, states, events) && states[|events|].status.state == AVAILABLE
    decreases OperationsLeft(s.threads[u].script), Sum(s.threads, Work())
  {
    var script := s.threads[u].script;
    CountZero(s);
    var t, next;
    if script.op.AwaitDrain? && s.handles > 0 {
      t := HandleHolderCanMove(s);
      assert Step(s, t, WELL).Some?;
      next := Step(s, t, WELL).value;
      DrainingIsClosed(s, u);
      HolderStepReducesWork(s, t, WELL);
      OtherStepKeepsDrain(s, t, WELL, u);
    } else if script.op.Publish? {
      t, next := u, Step(s, u, WELL).value;
      states, events := [s, next], [Moved(u, WELL)];
      return;
    } else {
      t := u;
      OperationLeads(s, u);
      next := Step(s, u, WELL).value;
      StepKeepsInv(s, u, WELL);
    }
    var rest, more := RunsToItsEnd(next, u);
    states, events := [s] + rest, [Moved(t, WELL)] + more;
    Prepend(s, t, next, rest, more);
  }

  lemma ComesBack(s: State, t: nat) returns (states: seq<State>, events: seq<Event>)
    requires Inv(s) && Retired(s) && t < |s.threads| && ReloadOnItsWay(s.threads[t])
    ensures Unasked(s, states, events) && states[|events|].status.state == AVAILABLE
  {
    var next := Step(s, t, WELL).value;
    StepKeepsInv(s, t, WELL);
    assert Publishes(Then(CheckLoader(s.threads[t].job.wanted.value), Done));
    var rest, more := RunsToItsEnd(next, t);
    states, events := [s] + rest, [Moved(t, WELL)] + more;
    Prepend(s, t, next, rest, more);
  }

  // ---- Without one ----

  predicate NeverPublishes(script: Script) {
    script.Then? ==>
      !script.op.Publish? && !script.op.CheckLoader? && NeverPublishes(script.rest) &&
      (script.op.SetStatus? ==> script.op.status.state != AVAILABLE)
  }

  /** The thread will not make the model available without being called to load it. */
  predicate Harmless(p: Point) {
    && !ReloadOnItsWay(p) && !p.TakeGuard?
    && (p.Running? ==> NeverPublishes(p.script) && (p.job.Reshape? ==> p.job.wanted.None?))
  }

  ghost predicate Away(s: State) {
    && s.status.state != AVAILABLE && NoGuards(s)
    && (forall t :: 0 <= t < |s.threads| ==> Harmless(s.threads[t]))
  }

  lemma JobsHarmless(job: Job)
    requires job.Retire? || job.Cleanup? || (job.Reshape? && job.wanted.None?)
    ensures NeverPublishes(JobScript(job))
  {
    assert NeverPublishes(Then(SetStatus(Status(END, false)), Done));
    assert NeverPublishes(Then(Unload, Then(SetStatus(Status(END, false)), Done)));
    assert NeverPublishes(Then(AwaitDrain, Then(Unload, Then(SetStatus(Status(END, false)), Done))));
    assert NeverPublishes(Then(AwaitDrain, Then(Unload, Done)));
  }

  lemma NextHarmless(s: State, t: nat, c: Choice)
    requires t < |s.threads| && Step(s, t, c).Some? && Harmless(s.threads[t]) && !CalledToLoad(s.threads[t])
    requires s.status.state != AVAILABLE && !HasGuard(s.threads[t])
    ensures Harmless(Next(s, t, c).value) && StatusAfter(s, s.threads[t]).state != AVAILABLE
  {
    if s.threads[t].WantMutex? {
      JobsHarmless(s.threads[t].job);
    }
  }

  lemma StepStaysAway(s: State, t: nat, c: Choice)
    requires Inv(s) && Away(s) && t < |s.threads| && Step(s, t, c).Some? && !CalledToLoad(s.threads[t])
    ensures Away(Step(s, t, c).value)
  {
    ServedWaits(s, t);
    NextHarmless(s, t, c);
    StepKeepsNoGuards(s, t, c);
    StepTally(s, t, c, Work());
  }

  lemma FiringStaysAway(s: State, e: Event, s': State)
    requires Inv(s) && Away(s) && Fires(s, e, s') && Allowed(s, e)
    requires e.Moved? && e.t < |s.threads| ==> !CalledToLoad(s.threads[e.t])
    ensures Inv(s') && Away(s')
  {
    FiringKeepsInv(s, e, s');
    if e.Moved? {
      StepStaysAway(s, e.t, e.c);
    }
  }

  lemma {:induction false} StaysAway(s: State, states: seq<State>, events: seq<Event>, i: nat)
    requires Inv(s) && Away(s) && Unasked(s, states, events) && i < |states|
    ensures Inv(states[i]) && Away(states[i])
  {
    if i > 0 {
      StaysAway(s, states, events, i - 1);
      FiringStaysAway(states[i - 1], events[i - 1], states[i]);
    }
  }

  // ---- How a reload comes to be on its way to a retired instance ----

  ghost predicate Reached(s: State) {
    exists states: seq<State>, events: seq<Event> ::
      Execution(states, events) && states[0] == Init() && states[|events|] == s
  }

  lemma ReachedInit()
    ensures Reached(Init())
  {
    var states, events: seq<Event> := [Init()], [];
    assert Execution(states, events) && states[|events|] == Init();
  }

  lemma ReachedNext(s: State, e: Event, next: State)
    requires Reached(s) && Fires(s, e, next) && Allowed(s, e)
    ensures Reached(next)
  {
    var states: seq<State>, events: seq<Event> :|
      Execution(states, events) && states[0] == Init() && states[|events|] == s;
    var longer, more := states + [next], events + [e];
    assert Execution(longer, more) && longer[0] == Init() && longer[|more|] == next;
  }

  /** The run goes on with one step of thread t in which all goes well. */
  lemma Go(s: State, t: nat) returns (next: State)
    requires Reached(s) && t < |s.threads| && Step(s, t, WELL).Some? && Disciplined(s, t)
    ensures next == Step(s, t, WELL).value && Reached(next)
  {
    next := Step(s, t, WELL).value;
    ReachedNext(s, Moved(t, WELL), next);
  }

  lemma Arrives(s: State, p: Point) returns (next: State)
    requires Reached(s) && Starts(p)
    ensures next == s.(threads := s.threads + [p]) && Reached(next)
  {
    next := s.(threads := s.threads + [p]);
    ReachedNext(s, Spawned(p), next);
  }

  /** An instance of the given status with nobody in between. */
  function Idle(status: Status, components: Components, pool: Option<Streams>, epoch: nat, threads: seq<Point>): State {
    State(0, status, components, pool, None, false, 0, epoch, threads)
  }

  function OneStream(): Option<Streams> {
    Some(Streams(1, Fresh(1)))
  }

  function Loaded(threads: seq<Point>): State {
    Idle(Status(AVAILABLE, false), Built(0), OneStream(), 2, threads)
  }

  /** The manager loads the model. */
  lemma FirstStartsLoading()
    ensures Reached(State(0, Status(LOADING, false), Absent, None, Some(0), false, 0, 0,
                          [Running(Load(0), Loading(0), true)]))
  {
    ReachedInit();
    var s := Arrives(Init(), WantMutex(Load(0)));
    s := Go(s, 0);
    s := Go(s, 0);
    s := Go(s, 0);
    assert s.threads == [Running(Load(0), Loading(0), true)];
  }

  lemma FirstLoads()
    ensures Reached(Loaded([Finished(false)]))
  {
    FirstStartsLoading();
    var s := State(0, Status(LOADING, false), Absent, None, Some(0), false, 0, 0,
                   [Running(Load(0), Loading(0), true)]);
    s := Go(s, 0);
    s := Go(s, 0);
    s := Go(s, 0);
    s := Go(s, 0);
    s := Go(s, 0);
    assert s.threads == [Finished(false)];
  }

  /** A request for another shape drops its guard. */
  lemma RequestDropsGuard(shape: Shape)
    ensures Reached(Loaded([Finished(false), WantMutex(Reshape(Some(shape), 0))]))
  {
    FirstLoads();
    var s := Arrives(Loaded([Finished(false)]), Enter(true, 0));
    s := Go(s, 1);
    s := Go(s, 1);
    var c := Choice(true, NeedReload(Some(shape)), 1);
    var next := Step(s, 1, c).value;
    ReachedNext(s, Moved(1, c), next);
    s := Go(next, 1);
    assert s.threads == [Finished(false), WantMutex(Reshape(Some(shape), 0))];
  }

  /** Before it has locked loadingMutex, the manager retires the model. */
  lemma ThirdDrains(waiting: Point)
    requires Reached(Loaded([Finished(false), waiting]))
    ensures Reached(State(0, Status(UNLOADING, false), Built(0), OneStream(), Some(2), false, 0, 2,
                          [Finished(false), waiting,
                           Running(Retire, Then(Unload, Then(SetStatus(Status(END, false)), Done)), true)]))
  {
    var s := Arrives(Loaded([Finished(false), waiting]), WantMutex(Retire));
    s := Go(s, 2);
    s := Go(s, 2);
    s := Go(s, 2);
    assert s.threads == [Finished(false), waiting,
                         Running(Retire, Then(Unload, Then(SetStatus(Status(END, false)), Done)), true)];
  }

  lemma ThirdRetires(waiting: Point)
    requires Reached(Loaded([Finished(false), waiting]))
    ensures Reached(Idle(Status(END, false), Absent, None, 3, [Finished(false), waiting, Finished(false)]))
  {
    ThirdDrains(waiting);
    var s := State(0, Status(UNLOADING, false), Built(0), OneStream(), Some(2), false, 0, 2,
                   [Finished(false), waiting,
                    Running(Retire, Then(Unload, Then(SetStatus(Status(END, false)), Done)), true)]);
    s := Go(s, 2);
    s := Go(s, 2);
    s := Go(s, 2);
    s := Go(s, 2);
    assert s.threads == [Finished(false), waiting, Finished(false)];
  }

  /**
   * So in some run from a new instance the model is retired while a reload is on its way, and it
   * becomes available again although the manager does not load it.
   */
  lemma RetiredCanComeBack(shape: Shape) returns (s: State, states: seq<State>, events: seq<Event>)
    ensures Reached(s) && Retired(s) && Unasked(s, states, events) && states[|events|].status.state == AVAILABLE
  {
    RequestDropsGuard(shape);
    var waiting := WantMutex(Reshape(Some(shape), 0));
    ThirdRetires(waiting);
    s := Idle(Status(END, false), Absent, None, 3, [Finished(false), waiting, Finished(false)]);
    ReachedKeepsInv(s);
    states, events := ComesBack(s, 1);
  }

  lemma ReachedKeepsInv(s: State)
    requires Reached(s)
    ensures Inv(s)
  {
    var states: seq<State>, events: seq<Event> :|
      Execution(states, events) && states[0] == Init() && states[|events|] == s;
    InitInv();
    ExecutionKeepsInv(states, events, |events|);
  }
}
