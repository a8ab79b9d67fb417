/**
 * Requests and loader threads of one model instance: the handle counter, the version
 * status, loadingMutex and the infer-request pool, one shared access a step.
 */
module UnloadGuardSteps {
  import opened FifoPool
  import opened Tally
  import opened VersionStatus

  /** The input shapes a model is compiled for, as an opaque value. */
  type Shape = int

  datatype Components = Absent | Partial | Built(shape: Shape)

  /** The pool with its number of streams. */
  datatype Streams = Streams(n: nat, queue: Pool)

  /** What a thread that owns loadingMutex still has to do. */
  datatype Op =
    | SetStatus(status: Status)
    | AwaitDrain                  // spin until the handle counter is zero
    | Unload                      // reset the pool and the components
    | CheckLoader(shape: Shape)   // reloadModel: retire first if the custom loader changed; then load
    | Build(shape: Shape)         // loadModelImpl up to the compiled model
    | BuildPool                   // prepareInferenceRequestsQueue
    | Publish                     // status.setAvailable()

  /** Operations in order. */
  datatype Script = Done | Then(op: Op, rest: Script)

  function Retiring(permanent: bool, rest: Script): Script {
    if permanent
    then Then(SetStatus(Status(UNLOADING, false)), Then(AwaitDrain, Then(Unload,
              Then(SetStatus(Status(END, false)), rest))))
    else Then(SetStatus(Status(LOADING, false)), Then(AwaitDrain, Then(Unload, rest)))
  }

  function CleaningUp(): Script {
    Then(SetStatus(Status(LOADING, true)), Then(AwaitDrain, Then(Unload, Done)))
  }

  function Loading(shape: Shape): Script {
    Then(Build(shape), Then(BuildPool, Then(Publish, Done)))
  }

  function Reloading(shape: Shape): Script {
    Then(SetStatus(Status(LOADING, false)), Then(AwaitDrain, Then(CheckLoader(shape), Done)))
  }

  /** loadModel: no drain. */
  function LoadingAnew(shape: Shape): Script {
    Then(SetStatus(Status(START, false)), Then(SetStatus(Status(LOADING, false)), Loading(shape)))
  }

  /** The outermost call that took loadingMutex. */
  datatype Job =
    | Load(shape: Shape)                            // loadModel
    | Reload(shape: Shape)                          // reloadModel(config)
    | Retire                                        // retireModel()
    | Cleanup                                       // cleanupFailedLoad
    | Reshape(wanted: Option<Shape>, attempt: nat)  // reloadModel(batchSize, shapes, guard)

  function JobScript(job: Job): Script {
    match job
    case Load(shape) => LoadingAnew(shape)
    case Reload(shape) => Reloading(shape)
    case Retire => Retiring(true, Done)
    case Cleanup => CleaningUp()
    case Reshape(wanted, attempt) => if wanted.Some? then Reloading(wanted.value) else Done
  }

  /** Program points; the comment says what the thread does next. */
  datatype Point =
    | Enter(first: bool, left: nat)         // waitForLoaded: increment the handle counter
    | Check(first: bool, left: nat)         // read the state
    | Retreat(first: bool, left: nat)       // (not available) decrement the counter
    | Recheck(left: nat)                    // read the state, give up if it is past AVAILABLE
    | Sleep(left: nat)                      // wait, or give up when no check is left
    | Holding                               // validate the request against the loaded model
    | Validated(shape: Shape)               // getIdleStream, or give up
    | Queued(shape: Shape)                  // wait for the future
    | Inferring(shape: Shape, id: int)      // run inference
    | Returning(shape: Shape, id: int)      // returnStream
    | Leaving                               // decrement the counter
    | DropGuard(wanted: Option<Shape>)      // reload needed: decrement the counter
    | WantMutex(job: Job)                   // lock loadingMutex
    | Running(job: Job, script: Script, ok: bool)
    | TakeGuard(shape: Shape)               // reloaded: increment the counter, mutex held
    | Unlock(kept: Option<Shape>)           // unlock loadingMutex, with the guard if Some
    | Finished(ok: bool)

  datatype State = State(
    handles: int,
    status: Status,
    components: Components,
    pool: Option<Streams>,
    mutex: Option<nat>,
    loaderChanged: bool,
    configured: Shape,
    epoch: nat,            // counts the changes of components and pool
    threads: seq<Point>
  )

  /** A registered instance before its loadModel. */
  function Init(): State {
    State(0, Status(START, false), Absent, None, None, false, 0, 0, [])
  }

  const MAX_NIREQ_COUNT := 100000

  datatype Verdict = Accept | NeedReload(wanted: Option<Shape>) | Reject

  /** What the environment decides: outcomes of loading and of validation, pool size. */
  datatype Choice = Choice(ok: bool, verdict: Verdict, nireq: nat)

  function Head(p: Point): Option<Op> {
    if p.Running? && p.script.Then? then Some(p.script.op) else None
  }

  /** getNumOfParallelInferRequests: 0 if the configured or optimal number is too high. */
  function NumOfParallelInferRequests(nireq: nat): nat {
    if nireq > MAX_NIREQ_COUNT then 0 else if nireq < 1 then 1 else nireq
  }

  predicate Fails(op: Op, c: Choice) {
    (op.Build? && !c.ok) || (op.BuildPool? && NumOfParallelInferRequests(c.nireq) == 0)
  }

  /** The request goes on to ask for a stream; preparing it can fail before that. */
  predicate Asks(p: Point, c: Choice) {
    p.Validated? && !c.verdict.Reject?
  }

  function Next(s: State, t: nat, c: Choice): Option<Point>
    requires t < |s.threads|
  {
    match s.threads[t]
    case Enter(first, left) => Some(Check(first, left))
    case Check(first, left) =>
      Some(if s.status.state == AVAILABLE then Holding else Retreat(first, left))
    case Retreat(first, left) => Some(if first then Sleep(left) else Recheck(left))
    case Recheck(left) =>
      Some(if s.status.state.Value() > AVAILABLE.Value() then Finished(false) else Sleep(left))
    case Sleep(left) => Some(if left == 0 then Finished(false) else Enter(false, left - 1))
    case Holding =>
      (match c.verdict
       case Accept => if s.components.Built? then Some(Validated(s.components.shape)) else None
       case NeedReload(wanted) => Some(DropGuard(wanted))
       case Reject => Some(Leaving))
    case Validated(shape) =>
      if !Asks(s.threads[t], c) then Some(Leaving)
      else if s.pool.None? then None
      else
        var got := s.pool.value.queue.Get(t).1;
        Some(if got.Some? then Inferring(shape, got.value) else Queued(shape))
    case Queued(shape) => None
    case Inferring(shape, id) => Some(Returning(shape, id))
    case Returning(shape, id) => if s.pool.None? then None else Some(Leaving)
    case Leaving => Some(Finished(true))
    case DropGuard(wanted) => Some(WantMutex(Reshape(wanted, 0)))
    case WantMutex(job) => if s.mutex.None? then Some(Running(job, JobScript(job), true)) else None
    case Running(job, script, ok) => NextRunning(s, job, script, ok, c)
    case TakeGuard(shape) => Some(Unlock(Some(shape)))
    case Unlock(shape) => Some(if shape.Some? then Validated(shape.value) else Finished(false))
    case Finished(ok) => None
  }

  function NextRunning(s: State, job: Job, script: Script, ok: bool, c: Choice): Option<Point> {
    if script.Done? then Some(JobEnd(s, job, ok))
    else if Fails(script.op, c) then Some(Running(job, Then(SetStatus(Status(LOADING, true)), Done), false))
    else
      match script.op
      case AwaitDrain => if s.handles == 0 then Some(Running(job, script.rest, ok)) else None
      case CheckLoader(shape) =>
        Some(Running(job, if s.loaderChanged then Retiring(false, Loading(shape)) else Loading(shape), ok))
      case _ => Some(Running(job, script.rest, ok))
  }

  /** After the last operation: reshape retries with a full reload, then recovers, then gives up. */
  function JobEnd(s: State, job: Job, ok: bool): Point {
    if !job.Reshape? || job.wanted.None? then Unlock(None)
    else if job.attempt >= 2 then Unlock(None)
    else if ok then TakeGuard(job.wanted.value)
    else if job.attempt == 0
    then Running(Reshape(job.wanted, 1), Retiring(false, Reloading(job.wanted.value)), true)
    else Running(Reshape(job.wanted, 2), Retiring(false, Reloading(s.configured)), true)
  }

  function HandlesAfter(s: State, p: Point): int {
    if p.Enter? || p.TakeGuard? then s.handles + 1
    else if p.Retreat? || p.Leaving? || p.DropGuard? then s.handles - 1
    else s.handles
  }

  function StatusAfter(s: State, p: Point): Status {
    match Head(p)
    case Some(SetStatus(status)) => status
    case Some(Publish) => Status(AVAILABLE, false)
    case _ => s.status
  }

  function ComponentsAfter(s: State, p: Point, c: Choice): Components {
    match Head(p)
    case Some(Unload) => Absent
    case Some(Build(shape)) => if c.ok then Built(shape) else Partial
    case _ => s.components
  }

  function PoolAfter(s: State, t: nat, p: Point, c: Choice): Option<Streams> {
    if s.pool.Some? && Asks(p, c) then
      Some(Streams(s.pool.value.n, s.pool.value.queue.Get(t).0))
    else if s.pool.Some? && p.Returning? then
      Some(Streams(s.pool.value.n, s.pool.value.queue.Return(p.id).0))
    else
      match Head(p)
      case Some(Unload) => None
      case Some(BuildPool) =>
        var nireq := NumOfParallelInferRequests(c.nireq);
        if nireq == 0 then s.pool else Some(Streams(nireq, Fresh(nireq)))
      case _ => s.pool
  }

  function MutexAfter(s: State, t: nat, p: Point): Option<nat> {
    if p.WantMutex? then Some(t) else if p.Unlock? then None else s.mutex
  }

  function LoaderChangedAfter(s: State, p: Point): bool {
    s.loaderChanged && !(Head(p).Some? && Head(p).value.CheckLoader?)
  }

  /** loadModelImpl stores the configuration it was given; reshape passes the stored one. */
  function ConfiguredAfter(s: State, p: Point): Shape {
    if p.Running? && !p.job.Reshape? && Head(p).Some? && Head(p).value.Build?
    then Head(p).value.shape else s.configured
  }

  predicate Mutates(p: Point) {
    Head(p).Some? && (Head(p).value.Unload? || Head(p).value.Build? || Head(p).value.BuildPool?)
  }

  /** returnStream hands the id to the longest waiting request. */
  function Served(s: State, p: Point): Option<nat> {
    if s.pool.Some? && p.Returning? then s.pool.value.queue.Return(p.id).1 else None
  }

  function Granted(waiter: Point, id: int): Point {
    if waiter.Queued? then Inferring(waiter.shape, id) else waiter
  }

  function ThreadsAfter(s: State, t: nat, next: Point): seq<Point>
    requires t < |s.threads|
  {
    var moved := s.threads[t := next];
    var served := Served(s, s.threads[t]);
    if served.Some? && served.value < |moved|
    then moved[served.value := Granted(moved[served.value], s.threads[t].id)]
    else moved
  }

  /** The next state when thread t moves; None when t cannot move. */
  function Step(s: State, t: nat, c: Choice): Option<State>
    requires t < |s.threads|
  {
    var p := s.threads[t];
    var next := Next(s, t, c);
    if next.None? then None
    else Some(State(HandlesAfter(s, p), StatusAfter(s, p), ComponentsAfter(s, p, c), PoolAfter(s, t, p, c),
                    MutexAfter(s, t, p), LoaderChangedAfter(s, p), ConfiguredAfter(s, p),
                    if Mutates(p) then s.epoch + 1 else s.epoch, ThreadsAfter(s, t, next.value)))
  }

  /** Threads start a request or, as a manager thread, one of the loader calls. */
  predicate Starts(p: Point) {
    (p.Enter? && p.first) || (p.WantMutex? && !p.job.Reshape?)
  }

  datatype Event = Spawned(p: Point) | LoaderConfigChanged | Moved(t: nat, c: Choice)

  predicate Fires(s: State, e: Event, s': State) {
    match e
    case Spawned(p) => Starts(p) && s' == s.(threads := s.threads + [p])
    case LoaderConfigChanged => s' == s.(loaderChanged := true)
    case Moved(t, c) => t < |s.threads| && Step(s, t, c) == Some(s')
  }

  // ---- Classes of program points ----

  /** The thread counts in the handle counter. */
  predicate HasHandle(p: Point) {
    p.Check? || p.Retreat? || HasGuard(p)
  }

  /** The thread holds a guard from a successful waitForLoaded or reload. */
  predicate HasGuard(p: Point) {
    p.Holding? || p.Validated? || p.Queued? || p.Inferring? || p.Returning? || p.Leaving? || p.DropGuard? ||
    (p.Unlock? && p.kept.Some?)
  }

  predicate HasMutex(p: Point) {
    p.Running? || p.TakeGuard? || p.Unlock?
  }

  function Handle(): Point -> nat {
    (p: Point) => if HasHandle(p) then 1 else 0
  }

  function HeldId(p: Point): Option<int> {
    if p.Inferring? || p.Returning? then Some(p.id) else None
  }

  function Holds(id: int): Point -> nat {
    (p: Point) => if HeldId(p) == Some(id) then 1 else 0
  }

  /** The shape the request was validated for or reloaded the model to. */
  function ExpectedShape(p: Point): Option<Shape> {
    if p.Validated? || p.Queued? || p.Inferring? || p.Returning? then Some(p.shape)
    else if p.TakeGuard? then Some(p.shape)
    else if p.Unlock? then p.kept
    else None
  }

  // ---- What a script needs before it runs ----

  /** Nothing; a state that admits no request; or, in addition, no guard left. */
  datatype Quiet = Any | Closed | Drained

  /** The weakest condition under which every change of the script meets no guard. */
  function Needs(script: Script): Quiet {
    match script
    case Done => Any
    case Then(SetStatus(status), rest) => if status.state == END || Needs(rest) == Drained then Drained else Any
    case Then(AwaitDrain, _) => Closed
    case Then(_, _) => Drained
  }

  /** Only Publish, at the end of a script, makes the instance available; only loadModel starts it anew. */
  predicate Tame(script: Script) {
    match script
    case Done => true
    case Then(SetStatus(status), rest) =>
      status.state != AVAILABLE && (status.state == START ==> Needs(rest) == Drained) && Tame(rest)
    case Then(Publish, rest) => rest.Done?
    case Then(CheckLoader(_), rest) => rest.Done?
    case Then(_, rest) => Tame(rest)
  }

  /** Publish finds the components and the pool built. */
  predicate Prepared(script: Script, built: bool, pooled: bool) {
    match script
    case Done => true
    case Then(Unload, rest) => Prepared(rest, false, false)
    case Then(Build(_), rest) => Prepared(rest, true, pooled)
    case Then(BuildPool, rest) => Prepared(rest, built, true)
    case Then(Publish, rest) => built && pooled && Prepared(rest, built, pooled)
    case Then(_, rest) => Prepared(rest, built, pooled)
  }

  ghost predicate NoGuards(s: State) {
    forall t :: 0 <= t < |s.threads| ==> !HasGuard(s.threads[t])
  }

  ghost predicate QuietEnough(s: State, q: Quiet) {
    && (q != Any ==> s.status.state != AVAILABLE)
    && (q == Drained ==> NoGuards(s))
  }

  predicate Ready(s: State) {
    s.components.Built? && s.pool.Some?
  }

  /** Run without failure, the script leaves the model available with the given shape. */
  predicate Delivers(script: Script, status: Status, components: Components, shape: Shape) {
    match script
    case Done => status.state == AVAILABLE && components == Built(shape)
    case Then(SetStatus(next), rest) => Delivers(rest, next, components, shape)
    case Then(AwaitDrain, rest) => Delivers(rest, status, components, shape)
    case Then(Unload, rest) => Delivers(rest, status, Absent, shape)
    case Then(CheckLoader(built), rest) => built == shape
    case Then(Build(built), rest) => Delivers(rest, status, Built(built), shape)
    case Then(BuildPool, rest) => Delivers(rest, status, components, shape)
    case Then(Publish, rest) => Delivers(rest, Status(AVAILABLE, false), components, shape)
  }

  // ---- The invariant ----

  predicate Owned(s: State) {
    && (s.mutex.Some? ==> s.mutex.value < |s.threads|)
    && (forall t :: 0 <= t < |s.threads| ==> (HasMutex(s.threads[t]) <==> s.mutex == Some(t)))
  }

  predicate Counted(s: State) {
    s.handles == Sum(s.threads, Handle())
  }

  /** An available instance, and one with a guard, is completely built; a new or retired one has no guard. */
  ghost predicate Usable(s: State) {
    && (s.status.state == AVAILABLE ==> Ready(s))
    && (s.status.state == START || s.status.state == END ==> NoGuards(s))
    && (forall t :: 0 <= t < |s.threads| && HasGuard(s.threads[t]) ==> Ready(s))
  }

  ghost predicate Scripted(s: State, p: Point) {
    p.Running? ==>
      && Tame(p.script)
      && QuietEnough(s, Needs(p.script))
      && Prepared(p.script, s.components.Built?, s.pool.Some?)
      && (p.job.Reshape? && p.job.wanted.Some? && p.job.attempt < 2 && p.ok ==>
            Delivers(p.script, s.status, s.components, p.job.wanted.value))
  }

  predicate Shaped(s: State, p: Point) {
    && (ExpectedShape(p).Some? ==> s.components == Built(ExpectedShape(p).value))
    && (p.TakeGuard? || (p.Unlock? && p.kept.Some?) ==> s.status.state == AVAILABLE)
  }

  ghost predicate Streamed(s: State) {
    s.pool.Some? ==>
      var n, queue := s.pool.value.n, s.pool.value.queue;
      && n >= 1 && queue.Settled()
      && (forall k :: 0 <= k < |queue.idle| ==> 0 <= queue.idle[k] < n)
      && (forall t :: 0 <= t < |s.threads| && HeldId(s.threads[t]).Some? ==> 0 <= HeldId(s.threads[t]).value < n)
      && (forall id :: 0 <= id < n ==> multiset(queue.idle)[id] + Sum(s.threads, Holds(id)) == 1)
      && (forall k :: 0 <= k < |queue.waiters| ==> queue.waiters[k] < |s.threads|)
      && (forall t :: 0 <= t < |s.threads| ==>
            multiset(queue.waiters)[t] == if s.threads[t].Queued? then 1 else 0)
  }

  ghost predicate Inv(s: State) {
    && Owned(s) && Counted(s) && Usable(s) && Streamed(s)
    && (forall t :: 0 <= t < |s.threads| ==> Scripted(s, s.threads[t]) && Shaped(s, s.threads[t]))
  }

  /** The caller's side of loadModel: it is called on a new instance. */
  predicate Disciplined(s: State, t: nat)
    requires t < |s.threads|
  {
    s.threads[t].WantMutex? && s.threads[t].job.Load? ==> s.status.state == START
  }

  /** What loadModel needs: a closed instance without guards. A new instance is one. */
  ghost predicate LoadsQuietly(s: State, t: nat)
    requires t < |s.threads|
  {
    s.threads[t].WantMutex? && s.threads[t].job.Load? ==> s.status.state != AVAILABLE && NoGuards(s)
  }
}
