/** The invariant of the unload-guard protocol is kept by every step. */
module UnloadGuardSafety {
  import opened FifoPool
  import opened Tally
  import opened VersionStatus
  import opened UnloadGuardSteps

  lemma InitInv()
    ensures Inv(Init())
  {}

  // ---- Sums ----

  /** The thread, other than the moving one, that a step changes: a waiting request gets its id. */
  ghost predicate ServedReady(s: State, t: nat)
    requires t < |s.threads|
  {
    var served := Served(s, s.threads[t]);
    served.Some? ==> served.value < |s.threads| && served.value != t && s.threads[served.value].Queued?
  }

  lemma ServedWaits(s: State, t: nat)
    requires Streamed(s) && t < |s.threads|
    ensures ServedReady(s, t)
  {
    var served := Served(s, s.threads[t]);
    if served.Some? {
      var waiters := s.pool.value.queue.waiters;
      assert waiters[0] in multiset(waiters);
    }
  }

  lemma StepTally(s: State, t: nat, c: Choice, w: Point -> nat)
    requires t < |s.threads| && Step(s, t, c).Some? && ServedReady(s, t)
    ensures
      var s' := Step(s, t, c).value;
      var served := Served(s, s.threads[t]);
      && |s'.threads| == |s.threads|
      && s'.threads[t] == Next(s, t, c).value
      && (forall u :: 0 <= u < |s.threads| && u != t && Some(u) != served ==> s'.threads[u] == s.threads[u])
      && (served.None? ==> Sum(s'.threads, w) + w(s.threads[t]) == Sum(s.threads, w) + w(s'.threads[t]))
      && (served.Some? ==>
            && s'.threads[served.value] == Inferring(s.threads[served.value].shape, s.threads[t].id)
            && Sum(s'.threads, w) + w(s.threads[t]) + w(s.threads[served.value])
               == Sum(s.threads, w) + w(s'.threads[t]) + w(s'.threads[served.value]))
  {
    var s' := Step(s, t, c).value;
    SumUpdate(s.threads, t, s'.threads[t], w);
    var served := Served(s, s.threads[t]);
    if served.Some? {
      SumUpdate(s.threads[t := s'.threads[t]], served.value, s'.threads[served.value], w);
    }
  }

  lemma CountZero(s: State)
    requires Counted(s)
    ensures s.handles >= 0
    ensures s.handles == 0 ==> forall t :: 0 <= t < |s.threads| ==> !HasHandle(s.threads[t])
  {
    forall t | 0 <= t < |s.threads| && s.handles == 0 ensures !HasHandle(s.threads[t]) {
      SumBoundsItem(s.threads, t, Handle());
    }
  }

  // ---- Mutex and counter ----

  lemma NextMutex(s: State, t: nat, c: Choice)
    requires t < |s.threads| && Step(s, t, c).Some?
    ensures
      var p, next := s.threads[t], Next(s, t, c).value;
      && (HasMutex(next) <==> p.WantMutex? || (HasMutex(p) && !p.Unlock?))
      && (p.WantMutex? ==> s.mutex.None?)
  {}

  lemma StepKeepsOwned(s: State, t: nat, c: Choice)
    requires Owned(s) && t < |s.threads| && Step(s, t, c).Some? && ServedReady(s, t)
    ensures Owned(Step(s, t, c).value)
  {
    NextMutex(s, t, c);
    StepTally(s, t, c, Handle());
    var s' := Step(s, t, c).value;
    assert HasMutex(s.threads[t]) <==> s.mutex == Some(t);
    forall u | 0 <= u < |s'.threads| ensures HasMutex(s'.threads[u]) <==> s'.mutex == Some(u) {
      assert HasMutex(s.threads[u]) <==> s.mutex == Some(u);
    }
  }

  lemma NextHandle(s: State, t: nat, c: Choice)
    requires t < |s.threads| && Step(s, t, c).Some?
    ensures
      var p, next := s.threads[t], Next(s, t, c).value;
      HandlesAfter(s, p) + Handle()(p) == s.handles + Handle()(next)
  {}

  lemma StepKeepsCounted(s: State, t: nat, c: Choice)
    requires Counted(s) && t < |s.threads| && Step(s, t, c).Some? && ServedReady(s, t)
    ensures Counted(Step(s, t, c).value)
  {
    NextHandle(s, t, c);
    StepTally(s, t, c, Handle());
  }

  // ---- Scripts ----

  lemma LoadingFacts(shape: Shape, built: bool, pooled: bool, status: Status, components: Components)
    ensures
      var script := Loading(shape);
      && Tame(script) && Needs(script) == Drained && Prepared(script, built, pooled)
      && Delivers(script, status, components, shape)
  {
    assert Tame(Then(BuildPool, Then(Publish, Done)));
    assert Prepared(Then(BuildPool, Then(Publish, Done)), true, pooled);
    assert Delivers(Then(BuildPool, Then(Publish, Done)), status, Built(shape), shape);
  }

  lemma RetiringFacts(permanent: bool, rest: Script, built: bool, pooled: bool,
                      status: Status, components: Components, shape: Shape)
    requires Tame(rest) && Prepared(rest, false, false)
    ensures
      var script := Retiring(permanent, rest);
      && Tame(script) && Needs(script) == Any && Prepared(script, built, pooled)
      && (!permanent && Delivers(rest, Status(LOADING, false), Absent, shape) ==>
            Delivers(script, status, components, shape))
  {
    var tail := if permanent then Then(SetStatus(Status(END, false)), rest) else rest;
    assert Tame(Then(Unload, tail));
    assert Prepared(tail, false, false);
    assert Prepared(Then(Unload, tail), built, pooled);
    assert Tame(Then(AwaitDrain, Then(Unload, tail)));
    assert Prepared(Then(AwaitDrain, Then(Unload, tail)), built, pooled);
    if !permanent && Delivers(rest, Status(LOADING, false), Absent, shape) {
      assert Delivers(Then(Unload, rest), Status(LOADING, false), components, shape);
      assert Delivers(Then(AwaitDrain, Then(Unload, rest)), Status(LOADING, false), components, shape);
    }
  }

  lemma ReloadingFacts(shape: Shape, built: bool, pooled: bool, status: Status, components: Components)
    ensures
      var script := Reloading(shape);
      && Tame(script) && Needs(script) == Any && Prepared(script, built, pooled)
      && Delivers(script, status, components, shape)
  {
    assert Tame(Then(AwaitDrain, Then(CheckLoader(shape), Done)));
    assert Prepared(Then(AwaitDrain, Then(CheckLoader(shape), Done)), built, pooled);
    assert Delivers(Then(AwaitDrain, Then(CheckLoader(shape), Done)), Status(LOADING, false), components, shape);
  }

  /** The shape that a call is to make available. */
  function Asked(job: Job): Option<Shape> {
    match job
    case Load(shape) => Some(shape)
    case Reload(shape) => Some(shape)
    case Reshape(wanted, attempt) => wanted
    case _ => None
  }

  lemma JobFacts(job: Job, built: bool, pooled: bool, status: Status, components: Components)
    ensures
      var script := JobScript(job);
      && Tame(script) && Prepared(script, built, pooled)
      && Needs(script) == (if job.Load? then Drained else Any)
      && (Asked(job).Some? ==> Delivers(script, status, components, Asked(job).value))
  {
    match job
    case Load(shape) =>
      LoadingFacts(shape, built, pooled, status, components);
      assert Tame(Then(SetStatus(Status(LOADING, false)), Loading(shape)));
      assert Prepared(Then(SetStatus(Status(LOADING, false)), Loading(shape)), built, pooled);
      LoadingFacts(shape, built, pooled, Status(LOADING, false), components);
      assert Delivers(Then(SetStatus(Status(LOADING, false)), Loading(shape)), Status(START, false), components, shape);
    case Reload(shape) => ReloadingFacts(shape, built, pooled, status, components);
    case Retire => RetiringFacts(true, Done, built, pooled, status, components, 0);
    case Cleanup =>
      assert Tame(Then(AwaitDrain, Then(Unload, Done)));
      assert Prepared(Then(AwaitDrain, Then(Unload, Done)), built, pooled);
    case Reshape(wanted, attempt) =>
      if wanted.Some? {
        ReloadingFacts(wanted.value, built, pooled, status, components);
      }
  }

  // ---- Guards and changes ----

  /** A change of status, components or pool by the script's next operation. */
  predicate Alters(p: Point) {
    Mutates(p) || (Head(p).Some? && Head(p).value.Publish?)
  }

  lemma AlteringIsQuiet(s: State, p: Point)
    requires Scripted(s, p) && Alters(p)
    ensures s.status.state != AVAILABLE && NoGuards(s)
  {
    assert Needs(p.script) == Drained;
  }

  lemma NextGuard(s: State, t: nat, c: Choice)
    requires t < |s.threads| && Step(s, t, c).Some?
    ensures
      var p := s.threads[t];
      HasGuard(Next(s, t, c).value) ==>
        HasGuard(p) || p.TakeGuard? || (p.Check? && s.status.state == AVAILABLE)
  {}

  /** Without a guard before, and without an entry, there is none after. */
  lemma StepKeepsNoGuards(s: State, t: nat, c: Choice)
    requires NoGuards(s) && t < |s.threads| && Step(s, t, c).Some? && ServedReady(s, t)
    requires !s.threads[t].TakeGuard? && (s.threads[t].Check? ==> s.status.state != AVAILABLE)
    ensures NoGuards(Step(s, t, c).value)
  {
    StepTally(s, t, c, Handle());
    NextGuard(s, t, c);
  }

  lemma ReadyAfter(s: State, p: Point, t: nat, c: Choice)
    requires Ready(s) && !Mutates(p)
    ensures ComponentsAfter(s, p, c).Built? && PoolAfter(s, t, p, c).Some?
  {}

  lemma StepKeepsUsable(s: State, t: nat, c: Choice)
    requires t < |s.threads| && Step(s, t, c).Some? && ServedReady(s, t)
    requires Usable(s) && Scripted(s, s.threads[t]) && Shaped(s, s.threads[t])
    ensures Usable(Step(s, t, c).value)
  {
    var p := s.threads[t];
    if Alters(p) {
      AlteringIsQuiet(s, p);
      StepKeepsNoGuards(s, t, c);
    } else {
      StepTally(s, t, c, Handle());
      NextGuard(s, t, c);
      if Ready(s) {
        ReadyAfter(s, p, t, c);
      }
      if StatusAfter(s, p).state == START {
        assert NoGuards(s);
        StepKeepsNoGuards(s, t, c);
      }
    }
  }

  /** After its last operation a job begins a full reload or the recovery, or it is over. */
  lemma ScriptEnds(s: State, t: nat, c: Choice)
    requires t < |s.threads| && Step(s, t, c).Some?
    requires s.threads[t].Running? && s.threads[t].script.Done?
    ensures Scripted(Step(s, t, c).value, Next(s, t, c).value)
  {
    var p := s.threads[t];
    if p.job.Reshape? && p.job.wanted.Some? && !p.ok {
      var shape := if p.job.attempt == 0 then p.job.wanted.value else s.configured;
      ReloadingFacts(shape, false, false, Status(LOADING, false), Absent);
      RetiringFacts(false, Reloading(shape), s.components.Built?, s.pool.Some?, s.status, s.components, shape);
    }
  }

  /** Either way the model gets loaded with the wanted shape. */
  lemma LoaderChecked(s: State, shape: Shape)
    ensures forall script | script in [Retiring(false, Loading(shape)), Loading(shape)] ::
              && Tame(script) && Prepared(script, s.components.Built?, s.pool.Some?)
              && Delivers(script, s.status, s.components, shape)
    ensures Needs(Retiring(false, Loading(shape))) == Any && Needs(Loading(shape)) == Drained
  {
    LoadingFacts(shape, s.components.Built?, s.pool.Some?, s.status, s.components);
    LoadingFacts(shape, false, false, Status(LOADING, false), Absent);
    RetiringFacts(false, Loading(shape), s.components.Built?, s.pool.Some?, s.status, s.components, shape);
  }

  lemma ScriptGoesOn(s: State, t: nat, c: Choice)
    requires t < |s.threads| && Step(s, t, c).Some? && ServedReady(s, t)
    requires Counted(s) && Usable(s) && Scripted(s, s.threads[t]) && s.threads[t].Running?
    ensures Scripted(Step(s, t, c).value, Next(s, t, c).value)
  {
    var p := s.threads[t];
    CountZero(s);
    if p.script.Done? {
      ScriptEnds(s, t, c);
    } else if Fails(p.script.op, c) {
    } else {
      if NoGuards(s) {
        StepKeepsNoGuards(s, t, c);
      }
      OperationDone(s, t, c);
    }
  }

  lemma OperationDone(s: State, t: nat, c: Choice)
    requires t < |s.threads| && Step(s, t, c).Some? && (s.handles == 0 ==> NoGuards(s))
    requires NoGuards(s) ==> NoGuards(Step(s, t, c).value)
    requires Scripted(s, s.threads[t]) && s.threads[t].Running? && !s.threads[t].script.Done?
    requires !Fails(s.threads[t].script.op, c)
    ensures Scripted(Step(s, t, c).value, Next(s, t, c).value)
  {
    if s.threads[t].script.op.CheckLoader? {
      LoaderChecked(s, s.threads[t].script.op.shape);
    }
  }

  lemma ScriptStarts(s: State, t: nat, c: Choice)
    requires t < |s.threads| && Step(s, t, c).Some? && ServedReady(s, t)
    requires Usable(s) && LoadsQuietly(s, t) && s.threads[t].WantMutex?
    ensures Scripted(Step(s, t, c).value, Next(s, t, c).value)
  {
    var s' := Step(s, t, c).value;
    JobFacts(s.threads[t].job, s'.components.Built?, s'.pool.Some?, s'.status, s'.components);
    if NoGuards(s) {
      StepKeepsNoGuards(s, t, c);
    }
  }

  /** A step of a thread without the mutex changes nothing that a script depends on. */
  lemma OtherScriptKept(s: State, t: nat, c: Choice, p: Point)
    requires t < |s.threads| && Step(s, t, c).Some? && ServedReady(s, t)
    requires Scripted(s, p) && !HasMutex(s.threads[t])
    ensures Scripted(Step(s, t, c).value, p)
  {
    if p.Running? && Needs(p.script) == Drained {
      StepKeepsNoGuards(s, t, c);
    }
  }

  lemma ScriptedAt(s: State, t: nat, c: Choice, u: nat)
    requires t < |s.threads| && Step(s, t, c).Some? && ServedReady(s, t) && u < |s.threads|
    requires Owned(s) && Counted(s) && Usable(s) && LoadsQuietly(s, t)
    requires Scripted(s, s.threads[t]) && Scripted(s, s.threads[u])
    ensures
      var s' := Step(s, t, c).value;
      |s'.threads| == |s.threads| && Scripted(s', s'.threads[u])
  {
    StepTally(s, t, c, Handle());
    NextMutex(s, t, c);
    assert HasMutex(s.threads[t]) <==> s.mutex == Some(t);
    assert HasMutex(s.threads[u]) <==> s.mutex == Some(u);
    if u == t {
      if s.threads[t].Running? {
        ScriptGoesOn(s, t, c);
      } else if s.threads[t].WantMutex? {
        ScriptStarts(s, t, c);
      }
    } else if s.threads[u].Running? {
      OtherScriptKept(s, t, c, s.threads[u]);
    }
  }

  // ---- Shapes ----

  lemma NextShape(s: State, t: nat, c: Choice)
    requires t < |s.threads| && Step(s, t, c).Some?
    requires Scripted(s, s.threads[t]) && Shaped(s, s.threads[t])
    ensures
      var p, next := s.threads[t], Next(s, t, c).value;
      && (ExpectedShape(next).Some? ==> !Alters(p) && s.components == Built(ExpectedShape(next).value))
      && (next.TakeGuard? || (next.Unlock? && next.kept.Some?) ==> !Head(p).Some? && s.status.state == AVAILABLE)
  {}

  lemma ShapedAt(s: State, t: nat, c: Choice, u: nat)
    requires t < |s.threads| && Step(s, t, c).Some? && ServedReady(s, t) && u < |s.threads|
    requires Owned(s) && Scripted(s, s.threads[t]) && Shaped(s, s.threads[t]) && Shaped(s, s.threads[u])
    ensures
      var s' := Step(s, t, c).value;
      |s'.threads| == |s.threads| && Shaped(s', s'.threads[u])
  {
    StepTally(s, t, c, Handle());
    assert HasMutex(s.threads[t]) <==> s.mutex == Some(t);
    assert HasMutex(s.threads[u]) <==> s.mutex == Some(u);
    if u == t {
      NextShape(s, t, c);
    } else if Alters(s.threads[t]) {
      AlteringIsQuiet(s, s.threads[t]);
      assert !HasGuard(s.threads[u]);
    }
  }

  // ---- Streams ----

  lemma NextHeld(s: State, t: nat, c: Choice)
    requires t < |s.threads| && Step(s, t, c).Some?
    ensures
      var p, next := s.threads[t], Next(s, t, c).value;
      && (HeldId(next) ==
            if p.Inferring? then Some(p.id)
            else if Asks(p, c) then s.pool.value.queue.Get(t).1
            else None)
      && (next.Queued? <==> Asks(p, c) && s.pool.value.queue.Get(t).1.None?)
  {}

  /** Handing out and taking back keeps every id in one place. */
  lemma IdsConserved(s: State, t: nat, c: Choice, id: int)
    requires t < |s.threads| && Step(s, t, c).Some? && ServedReady(s, t) && Streamed(s) && s.pool.Some?
    requires !Mutates(s.threads[t]) && 0 <= id < s.pool.value.n
    ensures
      var s' := Step(s, t, c).value;
      && s'.pool.Some? && s'.pool.value.n == s.pool.value.n
      && multiset(s'.pool.value.queue.idle)[id] + Sum(s'.threads, Holds(id)) == 1
  {
    assert multiset(s.pool.value.queue.idle)[id] + Sum(s.threads, Holds(id)) == 1;
    StepTally(s, t, c, Holds(id));
    NextHeld(s, t, c);
    IdsAfter(s, t, c, id);
  }

  lemma IdsAfter(s: State, t: nat, c: Choice, id: int)
    requires t < |s.threads| && s.pool.Some? && !Mutates(s.threads[t])
    ensures
      var p, queue, next := s.threads[t], s.pool.value.queue, PoolAfter(s, t, s.threads[t], c);
      && next.Some? && next.value.n == s.pool.value.n
      && multiset(next.value.queue.idle)[id] + (if Asks(p, c) && queue.Get(t).1 == Some(id) then 1 else 0)
         == multiset(queue.idle)[id] + if p.Returning? && Served(s, p).None? && p.id == id then 1 else 0
  {
    PoolKeepsIds(s.pool.value.queue, t, id);
  }

  /** An id that leaves the idle ones is given out, and one that comes back joins them unless somebody waits. */
  lemma PoolKeepsIds(queue: Pool, ticket: nat, id: int)
    ensures multiset(queue.Get(ticket).0.idle)[id] + (if queue.Get(ticket).1 == Some(id) then 1 else 0)
            == multiset(queue.idle)[id]
    ensures forall back ::
              multiset(queue.Return(back).0.idle)[id]
              == multiset(queue.idle)[id] + if queue.Return(back).1.None? && back == id then 1 else 0
  {
    if queue.idle != [] {
      assert queue.idle == [queue.idle[0]] + queue.idle[1..];
    }
  }

  lemma WaitersKept(s: State, t: nat, c: Choice, u: nat)
    requires t < |s.threads| && Step(s, t, c).Some? && ServedReady(s, t) && s.pool.Some?
    requires !Mutates(s.threads[t]) && u < |s.threads|
    requires multiset(s.pool.value.queue.waiters)[u] == if s.threads[u].Queued? then 1 else 0
    ensures
      var s' := Step(s, t, c).value;
      && s'.pool.Some? && |s'.threads| == |s.threads|
      && multiset(s'.pool.value.queue.waiters)[u] == (if s'.threads[u].Queued? then 1 else 0)
  {
    StepTally(s, t, c, Handle());
    NextHeld(s, t, c);
    WaitersAfter(s, t, c, u);
  }

  lemma WaitersAfter(s: State, t: nat, c: Choice, u: nat)
    requires t < |s.threads| && s.pool.Some? && !Mutates(s.threads[t])
    ensures
      var p, next := s.threads[t], PoolAfter(s, t, s.threads[t], c);
      && next.Some?
      && multiset(next.value.queue.waiters)[u] + (if Served(s, p) == Some(u) then 1 else 0)
         == multiset(s.pool.value.queue.waiters)[u]
            + if Asks(p, c) && s.pool.value.queue.Get(t).1.None? && u == t then 1 else 0
  {
    PoolKeepsWaiters(s.pool.value.queue, t, u);
  }

  lemma PoolKeepsWaiters(queue: Pool, ticket: nat, u: nat)
    ensures multiset(queue.Get(ticket).0.waiters)[u]
            == multiset(queue.waiters)[u] + if queue.Get(ticket).1.None? && ticket == u then 1 else 0
    ensures forall back ::
              multiset(queue.Return(back).0.waiters)[u] + (if queue.Return(back).1 == Some(u) then 1 else 0)
              == multiset(queue.waiters)[u]
  {
    if queue.waiters != [] {
      assert queue.waiters == [queue.waiters[0]] + queue.waiters[1..];
    }
  }

  lemma HeldInRange(s: State, t: nat, c: Choice, u: nat)
    requires t < |s.threads| && Step(s, t, c).Some? && ServedReady(s, t) && Streamed(s) && s.pool.Some?
    requires u < |s.threads|
    ensures
      var held := HeldId(Step(s, t, c).value.threads[u]);
      held.Some? ==> 0 <= held.value < s.pool.value.n
  {
    StepTally(s, t, c, Handle());
    NextHeld(s, t, c);
    assert HeldId(s.threads[t]).Some? ==> 0 <= HeldId(s.threads[t]).value < s.pool.value.n;
    assert HeldId(s.threads[u]).Some? ==> 0 <= HeldId(s.threads[u]).value < s.pool.value.n;
  }

  lemma QueueKept(s: State, t: nat, c: Choice)
    requires t < |s.threads| && Step(s, t, c).Some? && Streamed(s) && s.pool.Some? && !Mutates(s.threads[t])
    ensures
      var s' := Step(s, t, c).value;
      && s'.pool.Some? && s'.pool.value.queue.Settled() && |s'.threads| == |s.threads|
      && (forall k :: 0 <= k < |s'.pool.value.queue.idle| ==> 0 <= s'.pool.value.queue.idle[k] < s.pool.value.n)
      && (forall k :: 0 <= k < |s'.pool.value.queue.waiters| ==> s'.pool.value.queue.waiters[k] < |s.threads|)
  {
    var p := s.threads[t];
    assert HeldId(p).Some? ==> 0 <= HeldId(p).value < s.pool.value.n;
  }

  lemma {:induction false} CountUpTo(n: nat, id: int)
    ensures multiset(Fresh(n).idle)[id] == if 0 <= id < n then 1 else 0
  {
    if n > 0 {
      CountUpTo(n - 1, id);
      assert Fresh(n).idle == Fresh(n - 1).idle + [n - 1];
    }
  }

  /** A new pool is put in place only when nobody holds or waits for a stream. */
  lemma NewPoolStreamed(s: State, n: nat)
    requires s.pool == Some(Streams(n, Fresh(n))) && n >= 1 && NoGuards(s)
    ensures Streamed(s)
  {
    forall id | 0 <= id < n ensures multiset(Fresh(n).idle)[id] + Sum(s.threads, Holds(id)) == 1 {
      CountUpTo(n, id);
      SumZero(s.threads, Holds(id));
    }
  }

  /** Without guards no thread holds or waits for a stream, so the threads do not matter. */
  lemma GuardlessStreamed(s: State, s': State)
    requires Streamed(s) && NoGuards(s) && NoGuards(s') && s'.pool == s.pool && |s'.threads| == |s.threads|
    ensures Streamed(s')
  {
    if s.pool.Some? {
      forall id | 0 <= id < s.pool.value.n ensures Sum(s'.threads, Holds(id)) == Sum(s.threads, Holds(id)) {
        SumZero(s.threads, Holds(id));
        SumZero(s'.threads, Holds(id));
      }
    }
  }

  lemma StepKeepsStreamed(s: State, t: nat, c: Choice)
    requires t < |s.threads| && Step(s, t, c).Some? && ServedReady(s, t)
    requires Streamed(s) && Scripted(s, s.threads[t])
    ensures Streamed(Step(s, t, c).value)
  {
    if Mutates(s.threads[t]) {
      var s' := Step(s, t, c).value;
      AlteringIsQuiet(s, s.threads[t]);
      StepKeepsNoGuards(s, t, c);
      StepTally(s, t, c, Handle());
      if Head(s.threads[t]) == Some(BuildPool) && !Fails(BuildPool, c) {
        NewPoolStreamed(s', NumOfParallelInferRequests(c.nireq));
      } else if s'.pool == s.pool {
        GuardlessStreamed(s, s');
      }
    } else if s.pool.Some? {
      QueueKept(s, t, c);
      forall id | 0 <= id < s.pool.value.n
        ensures
          var s' := Step(s, t, c).value;
          && s'.pool.Some? && s'.pool.value.n == s.pool.value.n
          && multiset(s'.pool.value.queue.idle)[id] + Sum(s'.threads, Holds(id)) == 1
      {
        IdsConserved(s, t, c, id);
      }
      forall u | 0 <= u < |s.threads|
        ensures
          var s' := Step(s, t, c).value;
          && s'.pool.Some? && |s'.threads| == |s.threads|
          && multiset(s'.pool.value.queue.waiters)[u] == (if s'.threads[u].Queued? then 1 else 0)
          && (HeldId(s'.threads[u]).Some? ==> 0 <= HeldId(s'.threads[u]).value < s.pool.value.n)
      {
        WaitersKept(s, t, c, u);
        HeldInRange(s, t, c, u);
      }
    }
  }

  // ---- The whole invariant ----

  /** Every step of every thread keeps the invariant, if loadModel only starts on a quiet instance. */
  lemma StepKeepsInv(s: State, t: nat, c: Choice)
    requires Inv(s) && t < |s.threads| && Step(s, t, c).Some? && LoadsQuietly(s, t)
    ensures Inv(Step(s, t, c).value)
  {
    ServedWaits(s, t);
    StepKeepsOwned(s, t, c);
    StepKeepsCounted(s, t, c);
    StepKeepsUsable(s, t, c);
    StepKeepsStreamed(s, t, c);
    forall u | 0 <= u < |s.threads|
      ensures
        var s' := Step(s, t, c).value;
        |s'.threads| == |s.threads| && Scripted(s', s'.threads[u]) && Shaped(s', s'.threads[u])
    {
      ScriptedAt(s, t, c, u);
      ShapedAt(s, t, c, u);
    }
  }

  lemma SpawnTally(s: State, p: Point, w: Point -> nat)
    requires w(p) == 0
    ensures Sum(s.threads + [p], w) == Sum(s.threads, w)
  {
    SumAppend(s.threads, p, w);
  }

  lemma SpawnKeepsStreamed(s: State, p: Point)
    requires Streamed(s) && Starts(p)
    ensures Streamed(s.(threads := s.threads + [p]))
  {
    if s.pool.Some? {
      forall id | 0 <= id < s.pool.value.n ensures Sum(s.threads + [p], Holds(id)) == Sum(s.threads, Holds(id)) {
        SpawnTally(s, p, Holds(id));
      }
      assert |s.threads| !in s.pool.value.queue.waiters;
    }
  }

  lemma SpawnKeepsInv(s: State, p: Point)
    requires Inv(s) && Starts(p)
    ensures Inv(s.(threads := s.threads + [p]))
  {
    var s' := s.(threads := s.threads + [p]);
    SpawnTally(s, p, Handle());
    SpawnKeepsStreamed(s, p);
    assert NoGuards(s) ==> NoGuards(s');
    forall u | 0 <= u < |s'.threads| ensures Scripted(s', s'.threads[u]) && Shaped(s', s'.threads[u]) {
      if u < |s.threads| {
        assert Scripted(s, s.threads[u]) && Shaped(s, s.threads[u]);
      }
    }
  }
}
