/** What becomes of a call that takes loadingMutex: loads, reloads, retirements, cleanups and dynamic reloads. */
module UnloadGuardJobs {
  import opened FifoPool
  import opened VersionStatus
  import opened UnloadGuardSteps
  import opened UnloadGuardTheorems
  import opened UnloadGuardRequests

  /** What the calls change of the instance. */
  datatype Effect = Effect(status: Status, components: Components, pooled: bool, configured: Shape)

  function EffectOf(s: State): Effect {
    Effect(s.status, s.components, s.pool.Some?, s.configured)
  }

  /** What a script makes of the instance if no operation fails; a dynamic reload keeps the configuration. */
  function Result(script: Script, e: Effect, dynamic: bool): Effect {
    match script
    case Done => e
    case Then(SetStatus(status), rest) => Result(rest, e.(status := status), dynamic)
    case Then(AwaitDrain, rest) => Result(rest, e, dynamic)
    case Then(Unload, rest) => Result(rest, e.(components := Absent, pooled := false), dynamic)
    case Then(CheckLoader(shape), rest) => Loaded(shape, e, dynamic)
    case Then(Build(shape), rest) =>
      Result(rest, e.(components := Built(shape), configured := if dynamic then e.configured else shape), dynamic)
    case Then(BuildPool, rest) => Result(rest, e.(pooled := true), dynamic)
    case Then(Publish, rest) => Result(rest, e.(status := Status(AVAILABLE, false)), dynamic)
  }

  function Loaded(shape: Shape, e: Effect, dynamic: bool): Effect {
    Effect(Status(AVAILABLE, false), Built(shape), true, if dynamic then e.configured else shape)
  }

  /** What a call is for. */
  predicate Reaches(job: Job, e: Effect) {
    match job
    case Load(shape) => e == Effect(Status(AVAILABLE, false), Built(shape), true, shape)
    case Reload(shape) => e == Effect(Status(AVAILABLE, false), Built(shape), true, shape)
    case Retire => e.status == Status(END, false) && e.components == Absent && !e.pooled
    case Cleanup => e.status == Status(LOADING, true) && e.components == Absent && !e.pooled
    case Reshape(wanted, attempt) =>
      wanted.Some? ==>
        e.status == Status(AVAILABLE, false) && e.pooled &&
        e.components == Built(if attempt < 2 then wanted.value else e.configured)
  }

  // ---- Failures ----

  /** The thread fails to build the model, or is given too many infer requests. */
  predicate FailsNow(s: State, e: Event, t: nat) {
    && Moves(e, t) && t < |s.threads| && s.threads[t].Running? && s.threads[t].script.Then?
    && ((s.threads[t].script.op.Build? && !e.c.ok) ||
        (s.threads[t].script.op.BuildPool? && e.c.nireq > 100000))
  }

  function AttemptOf(job: Job): nat {
    if job.Reshape? then job.attempt else 0
  }

  /** The attempts of the call that have failed so far; only a dynamic reload has more than one. */
  function FailedAttempts(states: seq<State>, events: seq<Event>, t: nat, j: nat): set<nat>
    requires |states| == |events| + 1 && j <= |events|
  {
    if j == 0 then {}
    else
      FailedAttempts(states, events, t, j - 1) +
      if FailsNow(states[j - 1], events[j - 1], t) then {AttemptOf(states[j - 1].threads[t].job)} else {}
  }

  // ---- The course of a call ----

  /** The thread has been called and has not yet let go of the mutex. */
  predicate OnJob(p: Point) {
    p.WantMutex? || p.Running? || p.TakeGuard? || p.Unlock?
  }

  ghost predicate SameCall(job: Job, first: Job) {
    if first.Reshape? then job.Reshape? && job.wanted == first.wanted && job.attempt <= 2 else job == first
  }

  /** Where a call stands, with the attempts that have failed. */
  ghost predicate Course(p: Point, first: Job, e: Effect, failed: set<nat>) {
    match p
    case WantMutex(job) => job == first && failed == {}
    case Running(job, script, ok) =>
      && SameCall(job, first)
      && (forall a :: a in failed ==> a <= AttemptOf(job))
      && (forall a :: 0 <= a < AttemptOf(job) ==> a in failed)
      && (AttemptOf(job) in failed <==> !ok)
      && (if ok then Reaches(job, Result(script, e, job.Reshape?))
          else script == Then(SetStatus(Status(LOADING, true)), Done) ||
               (script == Done && e.status == Status(LOADING, true)))
      && (first.Reshape? && first.wanted.None? ==> ok && script == Done)
    case TakeGuard(shape) =>
      && first.Reshape? && first.wanted == Some(shape) && !(0 in failed && 1 in failed)
      && e.status == Status(AVAILABLE, false) && e.components == Built(shape)
    case Unlock(kept) => Ended(kept, first, e, failed)
    case _ => false
  }

  /** How a call ends: as it should, or failed; a dynamic reload with a guard, or without. */
  ghost predicate Ended(kept: Option<Shape>, first: Job, e: Effect, failed: set<nat>) {
    if !first.Reshape? then
      kept == None && if failed == {} then Reaches(first, e) else e.status == Status(LOADING, true)
    else if first.wanted.None? then kept == None
    else if !(0 in failed && 1 in failed) then
      kept == first.wanted && e.status == Status(AVAILABLE, false) && e.components == Built(first.wanted.value)
    else
      kept == None &&
      if 2 in failed then e.status == Status(LOADING, true)
      else e.status == Status(AVAILABLE, false) && e.components == Built(e.configured)
  }

  lemma ScriptReaches(job: Job, e: Effect)
    ensures Reaches(job, Result(JobScript(job), e, job.Reshape?)) || (job.Reshape? && job.attempt >= 2)
  {
    match job
    case Load(shape) => LoadingReaches(shape, e.(status := Status(LOADING, false)), false);
    case Reload(shape) => ReloadingReaches(shape, e, false);
    case Retire =>
      var gone := e.(status := Status(UNLOADING, false), components := Absent, pooled := false);
      assert Result(Then(SetStatus(Status(END, false)), Done), gone, false) == gone.(status := Status(END, false));
      assert Result(Then(Unload, Then(SetStatus(Status(END, false)), Done)), e.(status := Status(UNLOADING, false)),
                    false) == gone.(status := Status(END, false));
    case Cleanup =>
      assert Result(Then(Unload, Done), e.(status := Status(LOADING, true)), false)
             == e.(status := Status(LOADING, true), components := Absent, pooled := false);
    case Reshape(wanted, attempt) =>
      if wanted.Some? {
        ReloadingReaches(wanted.value, e, true);
      }
  }

  lemma LoadingReaches(shape: Shape, e: Effect, dynamic: bool)
    ensures Result(Loading(shape), e, dynamic) == Loaded(shape, e, dynamic)
    ensures Result(LoadingAnew(shape), e, dynamic) == Loaded(shape, e, dynamic)
    ensures Result(Retiring(false, Loading(shape)), e, dynamic) == Loaded(shape, e, dynamic)
  {
    BuiltReaches(shape, e, dynamic);
    BuiltReaches(shape, e.(status := Status(LOADING, false)), dynamic);
    BuiltReaches(shape, e.(status := Status(LOADING, false), components := Absent, pooled := false), dynamic);
    assert Result(Then(SetStatus(Status(LOADING, false)), Loading(shape)), e.(status := Status(START, false)), dynamic)
           == Result(Loading(shape), e.(status := Status(LOADING, false)), dynamic);
    var gone := e.(status := Status(LOADING, false), components := Absent, pooled := false);
    assert Result(Then(Unload, Loading(shape)), e.(status := Status(LOADING, false)), dynamic)
           == Result(Loading(shape), gone, dynamic);
  }

  lemma BuiltReaches(shape: Shape, e: Effect, dynamic: bool)
    ensures Result(Loading(shape), e, dynamic) == Loaded(shape, e, dynamic)
  {
    var built := e.(components := Built(shape), configured := if dynamic then e.configured else shape);
    assert Result(Then(Publish, Done), built.(pooled := true), dynamic) ==
           built.(pooled := true, status := Status(AVAILABLE, false));
  }

  lemma ReloadingReaches(shape: Shape, e: Effect, dynamic: bool)
    ensures Result(Reloading(shape), e, dynamic) == Loaded(shape, e, dynamic)
    ensures Result(Retiring(false, Reloading(shape)), e, dynamic) == Loaded(shape, e, dynamic)
  {
    var after := e.(status := Status(LOADING, false));
    assert Result(Then(CheckLoader(shape), Done), after, dynamic) == Loaded(shape, e, dynamic);
    var gone := after.(components := Absent, pooled := false);
    assert Result(Then(CheckLoader(shape), Done), gone, dynamic) == Loaded(shape, e, dynamic);
    assert Result(Then(AwaitDrain, Then(CheckLoader(shape), Done)), gone, dynamic) == Loaded(shape, e, dynamic);
    assert Result(Reloading(shape), gone, dynamic) == Loaded(shape, e, dynamic);
    assert Result(Then(Unload, Reloading(shape)), after, dynamic) == Loaded(shape, e, dynamic);
  }

  /** Nobody else changes the instance while the thread owns the mutex. */
  lemma OthersKeepEffect(s: State, e: Event, s': State, t: nat)
    requires Inv(s) && Fires(s, e, s') && t < |s.threads| && HasMutex(s.threads[t]) && !Moves(e, t)
    ensures EffectOf(s') == EffectOf(s)
  {
    assert s.mutex == Some(t);
    if e.Moved? {
      assert !HasMutex(s.threads[e.t]);
    }
  }

  /** What one operation of the thread makes of the instance. */
  function EffectAfter(s: State, t: nat, c: Choice): Effect
    requires t < |s.threads|
  {
    var p := s.threads[t];
    Effect(StatusAfter(s, p), ComponentsAfter(s, p, c), PoolAfter(s, t, p, c).Some?, ConfiguredAfter(s, p))
  }

  lemma OwnEffect(s: State, e: Event, s': State, t: nat)
    requires Fires(s, e, s') && t < |s.threads| && Moves(e, t)
    ensures EffectOf(s') == EffectAfter(s, t, e.c) && Step(s, t, e.c) == Some(s')
  {}

  lemma CourseStep(s: State, t: nat, c: Choice, first: Job, failed: set<nat>)
    requires t < |s.threads| && Step(s, t, c).Some? && OnJob(s.threads[t]) && !s.threads[t].Unlock?
    requires Course(s.threads[t], first, EffectOf(s), failed)
    requires first.Reshape? ==> first.attempt == 0
    ensures
      var more := failed + if FailsNow(s, Moved(t, c), t) then {AttemptOf(s.threads[t].job)} else {};
      Course(Next(s, t, c).value, first, EffectAfter(s, t, c), more)
  {
    match s.threads[t]
    case WantMutex(job) => ScriptReaches(job, EffectOf(s));
    case Running(job, script, ok) =>
      if script.Done? {
        EndStep(s, t, c, first, failed);
      } else {
        OperationStep(s, t, c, first, failed);
      }
    case TakeGuard(shape) =>
  }

  lemma EndStep(s: State, t: nat, c: Choice, first: Job, failed: set<nat>)
    requires t < |s.threads| && Step(s, t, c).Some? && s.threads[t].Running? && s.threads[t].script.Done?
    requires Course(s.threads[t], first, EffectOf(s), failed)
    ensures Course(Next(s, t, c).value, first, EffectAfter(s, t, c), failed)
  {
    var job := s.threads[t].job;
    if job.Reshape? && job.wanted.Some? {
      ReloadingReaches(job.wanted.value, EffectOf(s), true);
      ReloadingReaches(s.configured, EffectOf(s), true);
    }
  }

  lemma OperationStep(s: State, t: nat, c: Choice, first: Job, failed: set<nat>)
    requires t < |s.threads| && Step(s, t, c).Some? && s.threads[t].Running? && s.threads[t].script.Then?
    requires Course(s.threads[t], first, EffectOf(s), failed)
    ensures
      var more := failed + if FailsNow(s, Moved(t, c), t) then {AttemptOf(s.threads[t].job)} else {};
      Course(Next(s, t, c).value, first, EffectAfter(s, t, c), more)
  {
    var p := s.threads[t];
    if p.script.op.CheckLoader? {
      LoadingReaches(p.script.op.shape, EffectOf(s), p.job.Reshape?);
    }
  }

  /** The thread waits for the mutex to begin the call, and has not let go of it up to j. */
  ghost predicate Called(states: seq<State>, events: seq<Event>, t: nat, first: Job, j: nat) {
    && Execution(states, events) && Inv(states[0]) && j <= |events|
    && t < |states[0].threads| && states[0].threads[t] == WantMutex(first)
    && (first.Reshape? ==> first.attempt == 0)
    && (forall i :: 0 <= i < j && Moves(events[i], t) && t < |states[i].threads| ==> !states[i].threads[t].Unlock?)
  }

  lemma {:induction false} CallTakesCourse(states: seq<State>, events: seq<Event>, t: nat, first: Job, j: nat)
    requires Called(states, events, t, first, j)
    ensures t < |states[j].threads| && OnJob(states[j].threads[t])
    ensures Course(states[j].threads[t], first, EffectOf(states[j]), FailedAttempts(states, events, t, j))
  {
    if j > 0 {
      var s, e := states[j - 1], events[j - 1];
      CallTakesCourse(states, events, t, first, j - 1);
      ExecutionKeepsInv(states, events, j - 1);
      ThreadBecomes(states, events, t, j - 1);
      assert Fires(s, e, states[j]);
      if Moves(e, t) {
        OwnEffect(s, e, states[j], t);
        CourseStep(s, t, e.c, first, FailedAttempts(states, events, t, j - 1));
      } else if HasMutex(s.threads[t]) {
        OthersKeepEffect(s, e, states[j], t);
      }
    }
  }

  /**
   * When a call of the manager lets go of the mutex: a load has made the model available with its shape
   * and configuration, a retirement has ended it, a cleanup has marked it; a failed load is marked too.
   */
  lemma CallEnds(states: seq<State>, events: seq<Event>, t: nat, first: Job, j: nat)
    requires Called(states, events, t, first, j) && !first.Reshape?
    requires t < |states[j].threads| && states[j].threads[t].Unlock?
    ensures
      var s := states[j];
      if FailedAttempts(states, events, t, j) != {} then s.status == Status(LOADING, true)
      else
        match first
        case Load(shape) => s.status == Status(AVAILABLE, false) && s.components == Built(shape) && s.pool.Some? &&
                            s.configured == shape
        case Reload(shape) => s.status == Status(AVAILABLE, false) && s.components == Built(shape) && s.pool.Some? &&
                              s.configured == shape
        case Retire => s.status == Status(END, false) && s.components == Absent && s.pool.None?
        case Cleanup => s.status == Status(LOADING, true) && s.components == Absent && s.pool.None?
        case _ => true
  {
    CallTakesCourse(states, events, t, first, j);
  }

  /**
   * When a dynamic reload lets go of the mutex, the request has a guard on the requested shape if and
   * only if the first reload or the full one succeeded. Otherwise the model is back at the configured
   * shape, unless that failed as well.
   */
  lemma DynamicReloadEnds(states: seq<State>, events: seq<Event>, t: nat, shape: Shape, j: nat)
    requires Called(states, events, t, Reshape(Some(shape), 0), j)
    requires t < |states[j].threads| && states[j].threads[t].Unlock?
    ensures
      var s, failed := states[j], FailedAttempts(states, events, t, j);
      && (s.threads[t].kept == Some(shape) <==> 0 !in failed || 1 !in failed)
      && (0 !in failed || 1 !in failed ==> s.status == Status(AVAILABLE, false) && s.components == Built(shape))
      && (0 in failed && 1 in failed ==>
            s.threads[t].kept == None &&
            if 2 in failed then s.status == Status(LOADING, true)
            else s.status == Status(AVAILABLE, false) && s.components == Built(s.configured))
  {
    CallTakesCourse(states, events, t, Reshape(Some(shape), 0), j);
  }

  // ---- The size of the pool ----

  /** At i some thread builds a pool of n streams: as many as asked for, or one if none are asked for. */
  ghost predicate BuildsPool(states: seq<State>, events: seq<Event>, i: nat, n: nat) {
    && i < |events| && i < |states| && events[i].Moved? && events[i].t < |states[i].threads|
    && Head(states[i].threads[events[i].t]) == Some(BuildPool)
    && events[i].c.nireq <= 100000 && n == if events[i].c.nireq == 0 then 1 else events[i].c.nireq
  }

  /** Every pool has the size that was asked for when it was built. */
  lemma {:induction false} PoolAsAsked(states: seq<State>, events: seq<Event>, j: nat)
    requires Execution(states, events) && states[0] == Init() && j < |states|
    ensures states[j].pool.Some? ==>
              exists i :: 0 <= i < j && BuildsPool(states, events, i, states[j].pool.value.n)
  {
    if j > 0 {
      PoolAsAsked(states, events, j - 1);
      PoolFiring(states[j - 1], events[j - 1], states[j]);
      if states[j].pool.Some? && states[j - 1].pool.Some? && states[j].pool.value.n == states[j - 1].pool.value.n {
        var i :| 0 <= i < j - 1 && BuildsPool(states, events, i, states[j].pool.value.n);
        assert 0 <= i < j;
      } else if states[j].pool.Some? {
        assert BuildsPool(states, events, j - 1, states[j].pool.value.n);
      }
    }
  }

  /** A firing keeps the size of the pool, unless it unloads it or builds it; asking for too much changes nothing. */
  lemma PoolFiring(s: State, e: Event, s': State)
    requires Fires(s, e, s')
    ensures
      if e.Moved? && Head(s.threads[e.t]) == Some(BuildPool) then
        if e.c.nireq > 100000 then s'.pool == s.pool
        else s'.pool == Some(Streams(if e.c.nireq == 0 then 1 else e.c.nireq,
                                     Fresh(if e.c.nireq == 0 then 1 else e.c.nireq)))
      else if e.Moved? && Head(s.threads[e.t]) == Some(Unload) then s'.pool.None?
      else s'.pool.Some? == s.pool.Some? && (s.pool.Some? ==> s'.pool.value.n == s.pool.value.n)
  {}

  // ---- A custom loader that has changed ----

  predicate ChecksLoader(s: State, e: Event) {
    e.Moved? && e.t < |s.threads| && Head(s.threads[e.t]).Some? && Head(s.threads[e.t]).value.CheckLoader?
  }

  /** The loader has changed and no reload has looked at it since. */
  ghost predicate ChangePending(states: seq<State>, events: seq<Event>, j: nat)
    requires |states| == |events| + 1 && j <= |events|
  {
    exists i :: 0 <= i < j && events[i].LoaderConfigChanged? &&
                forall k :: i < k < j ==> !ChecksLoader(states[k], events[k])
  }

  lemma {:induction false} PendingExactly(states: seq<State>, events: seq<Event>, j: nat)
    requires Execution(states, events) && states[0] == Init() && j < |states|
    ensures states[j].loaderChanged <==> ChangePending(states, events, j)
  {
    if j > 0 {
      PendingExactly(states, events, j - 1);
      PendingMore(states, events, j);
      assert Fires(states[j - 1], events[j - 1], states[j]);
    }
  }

  lemma PendingMore(states: seq<State>, events: seq<Event>, j: nat)
    requires |states| == |events| + 1 && 0 < j <= |events|
    ensures ChangePending(states, events, j) <==>
            events[j - 1].LoaderConfigChanged? ||
            (ChangePending(states, events, j - 1) && !ChecksLoader(states[j - 1], events[j - 1]))
  {
    if ChangePending(states, events, j - 1) && !ChecksLoader(states[j - 1], events[j - 1]) {
      var i :| 0 <= i < j - 1 && events[i].LoaderConfigChanged? &&
               forall k :: i < k < j - 1 ==> !ChecksLoader(states[k], events[k]);
      assert 0 <= i < j && forall k :: i < k < j ==> !ChecksLoader(states[k], events[k]);
    }
    if events[j - 1].LoaderConfigChanged? {
      assert ChangePending(states, events, j);
    }
  }

  /** The part of a reload after the loader was checked: a changed loader makes it unload the model first. */
  predicate AfterCheck(script: Script, shape: Shape, changed: bool, before: Effect, e: Effect) {
    if changed then
      || script == Retiring(false, Loading(shape))
      || script == Then(AwaitDrain, Then(Unload, Loading(shape)))
      || script == Then(Unload, Loading(shape))
      || (script == Loading(shape) && e.components == Absent && !e.pooled)
    else script == Loading(shape) && e.components == before.components && e.pooled == before.pooled
  }

  /** The thread checks the loader at i and goes on to build the model at j. */
  ghost predicate ChecksAndBuilds(states: seq<State>, events: seq<Event>, t: nat, shape: Shape, i: nat, j: nat) {
    && Execution(states, events) && Inv(states[0]) && i < j <= |events| && Moves(events[i], t)
    && t < |states[i].threads| && Head(states[i].threads[t]) == Some(CheckLoader(shape))
    && (forall k :: i < k < j && Moves(events[k], t) && t < |states[k].threads| ==>
          Head(states[k].threads[t]).Some? && !Head(states[k].threads[t]).value.Build?)
  }

  /** While the thread owns the mutex, the instance changes by its operations only. */
  ghost predicate AffectsOnly(s: State, e: Event, s': State, t: nat) {
    t < |s.threads| && HasMutex(s.threads[t]) ==>
      EffectOf(s') == if Moves(e, t) then EffectAfter(s, t, e.c) else EffectOf(s)
  }

  lemma OnlyOwnerAffects(s: State, e: Event, s': State, t: nat)
    requires Inv(s) && Fires(s, e, s') && t < |s.threads|
    ensures AffectsOnly(s, e, s', t)
  {
    if HasMutex(s.threads[t]) {
      if Moves(e, t) {
        OwnEffect(s, e, s', t);
      } else {
        OthersKeepEffect(s, e, s', t);
      }
    }
  }

  lemma KeepsCheck(states: seq<State>, events: seq<Event>, t: nat, shape: Shape, i: nat, j: nat)
    requires ChecksAndBuilds(states, events, t, shape, i, j)
    ensures t < |states[j].threads| && states[j].threads[t].Running?
    ensures AfterCheck(states[j].threads[t].script, shape, states[i].loaderChanged, EffectOf(states[i]),
                       EffectOf(states[j]))
  {
    forall k: nat | i <= k < j ensures FiresAt(states, events, t, k) {
      StaysAround(states, events, t, i, k);
      FiringOfThread(states, events, t, k);
    }
    KeepsCheckAlone(states, events, t, shape, i, j);
  }

  lemma {:induction false} KeepsCheckAlone(states: seq<State>, events: seq<Event>, t: nat, shape: Shape,
                                           i: nat, j: nat)
    requires i < j < |states| <= |events| + 1 && t < |states[i].threads|
    requires Moves(events[i], t) && Head(states[i].threads[t]) == Some(CheckLoader(shape))
    requires forall k: nat :: i <= k < j ==> FiresAt(states, events, t, k)
    requires forall k :: i < k < j && Moves(events[k], t) && t < |states[k].threads| ==>
               Head(states[k].threads[t]).Some? && !Head(states[k].threads[t]).value.Build?
    ensures t < |states[j].threads| && states[j].threads[t].Running?
    ensures AfterCheck(states[j].threads[t].script, shape, states[i].loaderChanged, EffectOf(states[i]),
                       EffectOf(states[j]))
    decreases j
  {
    if j - 1 > i {
      KeepsCheckAlone(states, events, t, shape, i, j - 1);
    }
    assert FiresAt(states, events, t, j - 1);
    FiringAfterCheck(states[j - 1], events[j - 1], states[j], t, shape, states[i].loaderChanged, EffectOf(states[i]));
  }

  lemma FiringAfterCheck(s: State, e: Event, s': State, t: nat, shape: Shape, changed: bool, before: Effect)
    requires Becomes(s, e, s', t) && s.threads[t].Running? && AffectsOnly(s, e, s', t)
    requires if Head(s.threads[t]) == Some(CheckLoader(shape)) then
               Moves(e, t) && changed == s.loaderChanged && before == EffectOf(s)
             else
               && AfterCheck(s.threads[t].script, shape, changed, before, EffectOf(s))
               && (Moves(e, t) ==> s.threads[t].script.Then? && !s.threads[t].script.op.Build?)
    ensures s'.threads[t].Running? && AfterCheck(s'.threads[t].script, shape, changed, before, EffectOf(s'))
  {
    if Moves(e, t) {
      CheckStep(s, t, e.c, shape, changed, before);
    }
  }

  lemma CheckStep(s: State, t: nat, c: Choice, shape: Shape, changed: bool, before: Effect)
    requires t < |s.threads| && Step(s, t, c).Some? && s.threads[t].Running? && s.threads[t].script.Then?
    requires (s.threads[t].script.op == CheckLoader(shape) && changed == s.loaderChanged && before == EffectOf(s)) ||
             (!s.threads[t].script.op.Build? && AfterCheck(s.threads[t].script, shape, changed, before, EffectOf(s)))
    ensures Next(s, t, c).value.Running?
    ensures AfterCheck(Next(s, t, c).value.script, shape, changed, before, EffectAfter(s, t, c))
  {}

  /** A reload unloads the model before it builds it anew exactly if the custom loader has changed. */
  lemma ChangedLoaderUnloads(states: seq<State>, events: seq<Event>, t: nat, shape: Shape, i: nat, j: nat)
    requires ChecksAndBuilds(states, events, t, shape, i, j)
    requires t < |states[j].threads| && Head(states[j].threads[t]).Some? && Head(states[j].threads[t]).value.Build?
    ensures Head(states[j].threads[t]) == Some(Build(shape))
    ensures states[i].loaderChanged ==> states[j].components == Absent && states[j].pool.None?
    ensures !states[i].loaderChanged ==>
              states[j].components == states[i].components && states[j].pool.Some? == states[i].pool.Some?
  {
    KeepsCheck(states, events, t, shape, i, j);
  }

  // ---- A build that fails ----

  /** In a call of the manager the thread fails to build the model at i, and has not let go of the mutex up to j. */
  ghost predicate FailsToBuild(states: seq<State>, events: seq<Event>, t: nat, i: nat, j: nat) {
    && Execution(states, events) && Inv(states[0]) && i < j <= |events| && t < |states[i].threads|
    && BuildFails(states[i], events[i], t)
    && (forall k :: i < k < j && Moves(events[k], t) && t < |states[k].threads| ==> !states[k].threads[t].Unlock?)
  }

  predicate BuildFails(s: State, e: Event, t: nat)
    requires t < |s.threads|
  {
    Moves(e, t) && s.threads[t].Running? && !s.threads[t].job.Reshape? &&
    Head(s.threads[t]).Some? && Head(s.threads[t]).value.Build? && !e.c.ok
  }

  predicate HalfBuilt(p: Point, components: Components) {
    && components == Partial
    && (p.Unlock? || (p.Running? && !p.job.Reshape? &&
                      (p.script == Then(SetStatus(Status(LOADING, true)), Done) || p.script == Done)))
  }

  lemma HalfBuiltStep(s: State, e: Event, s': State, t: nat)
    requires Becomes(s, e, s', t) && AffectsOnly(s, e, s', t)
    requires BuildFails(s, e, t) ||
             (HalfBuilt(s.threads[t], s.components) && (Moves(e, t) ==> !s.threads[t].Unlock?))
    ensures HalfBuilt(s'.threads[t], s'.components)
  {
    assert EffectOf(s').components == s'.components;
  }

  /** A call of the manager that fails to build the model leaves it half built. */
  lemma FailedBuildIsPartial(states: seq<State>, events: seq<Event>, t: nat, i: nat, j: nat)
    requires FailsToBuild(states, events, t, i, j)
    ensures t < |states[j].threads| && HalfBuilt(states[j].threads[t], states[j].components)
  {
    forall k: nat | i <= k < j
      ensures FiresAt(states, events, t, k)
      ensures k > i && Moves(events[k], t) && t < |states[k].threads| ==> !states[k].threads[t].Unlock?
    {
      StaysAround(states, events, t, i, k);
      FiringOfThread(states, events, t, k);
    }
    assert FiresAt(states, events, t, i);
    HalfBuiltStep(states[i], events[i], states[i + 1], t);
    StaysHalfBuilt(states, events, t, i + 1, j);
  }

  ghost predicate FiresAt(states: seq<State>, events: seq<Event>, t: nat, k: nat) {
    && k < |events| && k + 1 < |states| && Becomes(states[k], events[k], states[k + 1], t)
    && AffectsOnly(states[k], events[k], states[k + 1], t)
  }

  lemma {:induction false} StaysHalfBuilt(states: seq<State>, events: seq<Event>, t: nat, i: nat, j: nat)
    requires i <= j < |states| <= |events| + 1 && t < |states[i].threads|
    requires HalfBuilt(states[i].threads[t], states[i].components)
    requires forall k: nat :: i <= k < j ==> FiresAt(states, events, t, k)
    requires forall k :: i <= k < j && Moves(events[k], t) && t < |states[k].threads| ==> !states[k].threads[t].Unlock?
    ensures t < |states[j].threads| && HalfBuilt(states[j].threads[t], states[j].components)
    decreases j
  {
    if i < j {
      StaysHalfBuilt(states, events, t, i, j - 1);
      assert FiresAt(states, events, t, j - 1);
      HalfBuiltStep(states[j - 1], events[j - 1], states[j], t);
    }
  }

  lemma FiringOfThread(states: seq<State>, events: seq<Event>, t: nat, i: nat)
    requires Execution(states, events) && Inv(states[0]) && i < |events| && t < |states[i].threads|
    ensures Becomes(states[i], events[i], states[i + 1], t)
    ensures AffectsOnly(states[i], events[i], states[i + 1], t)
  {
    ExecutionKeepsInv(states, events, i);
    ThreadBecomes(states, events, t, i);
    OnlyOwnerAffects(states[i], events[i], states[i + 1], t);
  }
}
