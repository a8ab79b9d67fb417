/**
 * The infer-request queue at the granularity of its locks: every lock, read, write,
 * push, pop and compare-exchange of src/queue.hpp is one step of one thread.
 */
module StreamQueueSteps {
  import opened FifoPool
  import opened Tally

  /** Program points of the queue operations; the comment says what the thread does next. */
  datatype Point =
    | WantFront                               // lock front_mut
    | AtFront                                 // test streams[front_idx] < 0
    | WantQueue                               // (empty slot seen) lock queue_mutex
    | Enqueuing                               // push the promise
    | Enqueued                                // unlock queue_mutex
    | LeavingFront(got: Option<int>)          // unlock front_mut
    | Waiting(got: Option<int>)               // future.get()
    | FoundIdle                               // read streams[front_idx]
    | Read(id: int)                           // write -1 to streams[front_idx]
    | Cleared(id: int)                        // advance front_idx
    | Advanced(id: int)                       // unlock front_mut
    | Delivering(id: int)                     // set the value of the own promise
    | NothingIdle                             // (tryToGetIdleStream) unlock front_mut, give up
    | Granted(id: int)                        // increment inferReqActive
    | Active(id: int)                         // infer, then decrement inferReqActive
    | Releasing(id: int)                      // lock queue_mutex
    | AtQueue(id: int)                        // test promises.size()
    | Serving(id: int, ticket: nat)           // (promise popped) unlock queue_mutex
    | Fulfilling(id: int, ticket: nat)        // set the value of the popped promise
    | LoadBack(id: int)                       // load back_idx
    | TryAdvance(id: int, seen: nat)          // compare-exchange back_idx
    | Reserved(id: int, slot: nat)            // write the id to streams[slot]
    | Stored                                  // unlock queue_mutex
    | Closing                                 // decrement currentRequests

  /**
   * guarded: the thread runs an ExecutingStreamIdGuard, which calls getIdleStream between
   * its two gauges; otherwise it calls tryToGetIdleStream and keeps no gauge.
   */
  datatype Thread = Outside | Inside(guarded: bool, at: Point)

  datatype State = State(
    n: nat,
    streams: seq<int>,
    front: nat,
    back: nat,
    frontOwner: Option<nat>,
    queueOwner: Option<nat>,
    promises: seq<nat>,
    currentRequests: int,
    inferReqActive: int,
    threads: seq<Thread>
  )

  /** The queue of n streams as its constructor leaves it. */
  function Init(n: nat): State {
    State(n, seq(n, i => i), 0, 0, None, None, [], 0, 0, [])
  }

  /** What the environment decides: the kind of a new call, and spurious failures. */
  datatype Choice = Choice(guarded: bool, spurious: bool)

  predicate WellFormed(s: State) {
    && 1 <= s.n == |s.streams|
    && s.front < s.n
    && s.back < s.n
    && (forall i :: 0 <= i < s.n ==> -1 <= s.streams[i] < s.n)
    && (forall t :: 0 <= t < |s.threads| ==> PointInRange(s.n, s.threads[t]))
    && (forall k :: 0 <= k < |s.promises| ==> s.promises[k] < |s.threads|)
    && (forall t :: 0 <= t < |s.threads| && TicketOf(s.threads[t]).Some? ==>
          TicketOf(s.threads[t]).value < |s.threads|)
  }

  predicate PointInRange(n: nat, th: Thread) {
    th.Inside? ==>
      match th.at
      case LeavingFront(got) => got.Some? ==> 0 <= got.value < n
      case Waiting(got) => got.Some? ==> 0 <= got.value < n
      case Read(id) => 0 <= id < n
      case Cleared(id) => 0 <= id < n
      case Advanced(id) => 0 <= id < n
      case Delivering(id) => 0 <= id < n
      case Granted(id) => 0 <= id < n
      case Active(id) => 0 <= id < n
      case Releasing(id) => 0 <= id < n
      case AtQueue(id) => 0 <= id < n
      case Serving(id, ticket) => 0 <= id < n
      case Fulfilling(id, ticket) => 0 <= id < n
      case LoadBack(id) => 0 <= id < n
      case TryAdvance(id, seen) => 0 <= id < n
      case Reserved(id, slot) => 0 <= id < n && slot < n
      case _ => true
  }

  /** The ticket whose promise the thread has popped and not yet fulfilled. */
  function TicketOf(th: Thread): Option<nat> {
    if th.Inside? && th.at.Serving? then Some(th.at.ticket)
    else if th.Inside? && th.at.Fulfilling? then Some(th.at.ticket)
    else None
  }

  // ---- One step of a thread, shared variable by shared variable ----

  /** Where the thread stands after its step; None when it cannot move now. */
  function Next(s: State, t: nat, c: Choice): Option<Thread>
    requires WellFormed(s) && t < |s.threads|
  {
    var th := s.threads[t];
    if th.Outside? then Some(Inside(c.guarded, WantFront))
    else
      match th.at
      case WantFront => if s.frontOwner.None? then To(th, AtFront) else None
      case AtFront =>
        To(th, if s.streams[s.front] >= 0 then FoundIdle else if th.guarded then WantQueue else NothingIdle)
      case WantQueue => if s.queueOwner.None? then To(th, Enqueuing) else None
      case Enqueuing => To(th, Enqueued)
      case Enqueued => To(th, LeavingFront(None))
      case LeavingFront(got) => To(th, Waiting(got))
      case Waiting(got) => if got.Some? then To(th, Granted(got.value)) else None
      case FoundIdle => To(th, Read(s.streams[s.front]))
      case Read(id) => To(th, Cleared(id))
      case Cleared(id) => To(th, Advanced(id))
      case Advanced(id) => To(th, if th.guarded then Delivering(id) else Releasing(id))
      case Delivering(id) => To(th, Granted(id))
      case NothingIdle => Some(Outside)
      case Granted(id) => To(th, Active(id))
      case Active(id) => To(th, Releasing(id))
      case Releasing(id) => if s.queueOwner.None? then To(th, AtQueue(id)) else None
      case AtQueue(id) => To(th, if s.promises != [] then Serving(id, s.promises[0]) else LoadBack(id))
      case Serving(id, ticket) => To(th, Fulfilling(id, ticket))
      case Fulfilling(id, ticket) => To(th, Closing)
      case LoadBack(id) => To(th, TryAdvance(id, s.back))
      case TryAdvance(id, seen) =>
        To(th, if s.back == seen && !c.spurious then Reserved(id, seen) else TryAdvance(id, s.back))
      case Reserved(id, slot) => To(th, Stored)
      case Stored => To(th, Closing)
      case Closing => Some(Outside)
  }

  function To(th: Thread, p: Point): Option<Thread>
    requires th.Inside?
  {
    Some(Inside(th.guarded, p))
  }

  function StreamsAfter(s: State, th: Thread): seq<int>
    requires WellFormed(s) && PointInRange(s.n, th)
  {
    if th.Inside? && th.at.Read? then s.streams[s.front := -1]
    else if th.Inside? && th.at.Reserved? then s.streams[th.at.slot := th.at.id]
    else s.streams
  }

  function FrontAfter(s: State, th: Thread): nat
    requires WellFormed(s)
  {
    if th.Inside? && th.at.Cleared? then (s.front + 1) % s.n else s.front
  }

  function BackAfter(s: State, th: Thread, c: Choice): nat
    requires WellFormed(s)
  {
    if th.Inside? && th.at.TryAdvance? && s.back == th.at.seen && !c.spurious
    then (th.at.seen + 1) % s.n else s.back
  }

  function FrontOwnerAfter(s: State, t: nat, th: Thread): Option<nat> {
    if th.Inside? && th.at.WantFront? then Some(t)
    else if th.Inside? && (th.at.LeavingFront? || th.at.Advanced? || th.at.NothingIdle?) then None
    else s.frontOwner
  }

  function QueueOwnerAfter(s: State, t: nat, th: Thread): Option<nat> {
    if th.Inside? && (th.at.WantQueue? || th.at.Releasing?) then Some(t)
    else if th.Inside? && (th.at.Enqueued? || th.at.Serving? || th.at.Stored?) then None
    else s.queueOwner
  }

  function PromisesAfter(s: State, t: nat, th: Thread): seq<nat> {
    if th.Inside? && th.at.Enqueuing? then s.promises + [t]
    else if th.Inside? && th.at.AtQueue? && s.promises != [] then s.promises[1..]
    else s.promises
  }

  function CurrentAfter(s: State, th: Thread, c: Choice): int {
    if th.Outside? && c.guarded then s.currentRequests + 1
    else if th.Inside? && th.at.Closing? && th.guarded then s.currentRequests - 1
    else s.currentRequests
  }

  function ActiveAfter(s: State, th: Thread): int {
    if th.Inside? && th.at.Granted? then s.inferReqActive + 1
    else if th.Inside? && th.at.Active? then s.inferReqActive - 1
    else s.inferReqActive
  }

  /** promise.set_value: the waiting thread finds the id in its future. */
  function Fulfilled(waiter: Thread, id: int): Thread {
    if waiter.Outside? then waiter
    else
      match waiter.at
      case LeavingFront(got) => Inside(waiter.guarded, LeavingFront(Some(id)))
      case Waiting(got) => Inside(waiter.guarded, Waiting(Some(id)))
      case _ => waiter
  }

  function ThreadsAfter(s: State, t: nat, next: Thread): seq<Thread>
    requires WellFormed(s) && t < |s.threads|
  {
    var moved := s.threads[t := next];
    if s.threads[t].Inside? && s.threads[t].at.Fulfilling? then
      var ticket := s.threads[t].at.ticket;
      moved[ticket := Fulfilled(moved[ticket], s.threads[t].at.id)]
    else moved
  }

  /** The next state when thread t moves; None when t cannot move. */
  function Step(s: State, t: nat, c: Choice): Option<State>
    requires WellFormed(s) && t < |s.threads|
  {
    var th := s.threads[t];
    var next := Next(s, t, c);
    if next.None? then None
    else Some(State(s.n, StreamsAfter(s, th), FrontAfter(s, th), BackAfter(s, th, c),
                    FrontOwnerAfter(s, t, th), QueueOwnerAfter(s, t, th), PromisesAfter(s, t, th),
                    CurrentAfter(s, th, c), ActiveAfter(s, th), ThreadsAfter(s, t, next.value)))
  }

  // ---- Weights of a thread ----

  predicate HoldsFront(th: Thread) {
    th.Inside? && (th.at.AtFront? || th.at.WantQueue? || th.at.Enqueuing? || th.at.Enqueued? ||
                   th.at.LeavingFront? || th.at.FoundIdle? || th.at.Read? || th.at.Cleared? ||
                   th.at.Advanced? || th.at.NothingIdle?)
  }

  predicate HoldsQueue(th: Thread) {
    th.Inside? && (th.at.Enqueuing? || th.at.Enqueued? || th.at.AtQueue? || th.at.Serving? ||
                   th.at.LoadBack? || th.at.TryAdvance? || th.at.Reserved? || th.at.Stored?)
  }

  /** The id the thread has taken out of the slots or not yet put back. */
  function CarriedId(th: Thread): Option<int> {
    if th.Outside? then None
    else
      match th.at
      case LeavingFront(got) => got
      case Waiting(got) => got
      case Cleared(id) => Some(id)
      case Advanced(id) => Some(id)
      case Delivering(id) => Some(id)
      case Granted(id) => Some(id)
      case Active(id) => Some(id)
      case Releasing(id) => Some(id)
      case AtQueue(id) => Some(id)
      case Serving(id, ticket) => Some(id)
      case Fulfilling(id, ticket) => Some(id)
      case LoadBack(id) => Some(id)
      case TryAdvance(id, seen) => Some(id)
      case Reserved(id, slot) => Some(id)
      case _ => None
  }

  function Carries(id: int): Thread -> nat {
    (th: Thread) => if CarriedId(th) == Some(id) then 1 else 0
  }

  /** Carried ids whose slot has been given up: the window is short of them. */
  function AwayOf(th: Thread): nat {
    if CarriedId(th).Some? && !th.at.Cleared? && !th.at.Reserved? then 1 else 0
  }

  function Away(): Thread -> nat {
    (th: Thread) => AwayOf(th)
  }

  function Serves(ticket: nat): Thread -> nat {
    (th: Thread) => if TicketOf(th) == Some(ticket) then 1 else 0
  }

  function InGuard(): Thread -> nat {
    (th: Thread) => if th.Inside? && th.guarded then 1 else 0
  }

  function Infers(): Thread -> nat {
    (th: Thread) => if th.Inside? && th.at.Active? then 1 else 0
  }

  /** The thread's promise is pushed and not yet fulfilled. */
  predicate AwaitsId(th: Thread) {
    && th.Inside?
    && (th.at.Enqueued? || th.at == LeavingFront(None) || th.at == Waiting(None))
  }

  // ---- The circular window ----

  /** The k-th slot from front_idx. */
  function Slot(front: nat, k: nat, n: nat): nat {
    if front + k < n then front + k else front + k - n
  }

  lemma NextSlot(x: nat, n: nat)
    requires x < n
    ensures (x + 1) % n == Slot(x, 1, n)
  {
    if x + 1 == n {
      assert (x + 1) % n == 0;
    }
  }

  /**
   * A circular buffer: width slots from front to back, of which exactly those at
   * offsets lo..hi from the front hold an id.
   */
  predicate Ring(streams: seq<int>, front: nat, back: nat, width: int, lo: int, hi: int) {
    var n := |streams|;
    && front < n && back < n
    && 0 <= lo <= hi <= width <= n
    && back == Slot(front, width, n)
    && (forall k :: 0 <= k < n ==> (streams[Slot(front, k, n)] >= 0 <==> lo <= k < hi))
  }

  predicate FrontCleared(s: State) {
    && s.frontOwner.Some?
    && s.frontOwner.value < |s.threads|
    && s.threads[s.frontOwner.value].Inside?
    && s.threads[s.frontOwner.value].at.Cleared?
  }

  predicate BackReserved(s: State) {
    && s.queueOwner.Some?
    && s.queueOwner.value < |s.threads|
    && s.threads[s.queueOwner.value].Inside?
    && s.threads[s.queueOwner.value].at.Reserved?
  }

  /** Slots from front_idx up to back_idx. */
  function Width(s: State): int {
    s.n - Sum(s.threads, Away())
  }

  // offsets of the first idle slot and of the slot after the last one
  function Lo(s: State): nat { if FrontCleared(s) then 1 else 0 }

  function Hi(s: State): int { Width(s) - if BackReserved(s) then 1 else 0 }

  // ---- The invariant, one clause a concern ----

  predicate Locked(s: State) {
    && (s.frontOwner.Some? ==> s.frontOwner.value < |s.threads|)
    && (s.queueOwner.Some? ==> s.queueOwner.value < |s.threads|)
    && (forall t :: 0 <= t < |s.threads| ==> (HoldsFront(s.threads[t]) <==> s.frontOwner == Some(t)))
    && (forall t :: 0 <= t < |s.threads| ==> (HoldsQueue(s.threads[t]) <==> s.queueOwner == Some(t)))
  }

  /** Every id is in exactly one slot or carried by exactly one thread. */
  ghost predicate Conserved(s: State) {
    forall id :: 0 <= id < s.n ==> multiset(s.streams)[id] + Sum(s.threads, Carries(id)) == 1
  }

  predicate Windowed(s: State)
    requires WellFormed(s)
  {
    && Ring(s.streams, s.front, s.back, Width(s), Lo(s), Hi(s))
    && (forall t :: 0 <= t < |s.threads| ==> OwnSlot(s, s.threads[t]))
  }

  /** What a thread knows about the slot it is working on. */
  predicate OwnSlotIn(th: Thread, streams: seq<int>, front: nat, width: int) {
    th.Inside? && front < |streams| ==>
      && (th.at.FoundIdle? ==> streams[front] >= 0)
      && (th.at.Read? ==> streams[front] == th.at.id)
      && (th.at.Reserved? ==> width >= 1 && th.at.slot == Slot(front, width - 1, |streams|))
  }

  predicate OwnSlot(s: State, th: Thread) {
    OwnSlotIn(th, s.streams, s.front, Width(s))
  }

  /** Every promise waits in the queue or with the one thread that popped it. */
  ghost predicate Promised(s: State)
    requires WellFormed(s)
  {
    && (forall t :: 0 <= t < |s.threads| ==>
          multiset(s.promises)[t] + Sum(s.threads, Serves(t)) == if AwaitsId(s.threads[t]) then 1 else 0)
    && (forall t :: 0 <= t < |s.threads| && TicketOf(s.threads[t]).Some? ==>
          s.threads[TicketOf(s.threads[t]).value] != Inside(true, Enqueued))
    && (forall t :: 0 <= t < |s.threads| && PutsBack(s.threads[t]) ==> s.promises == [])
  }

  /** returnStream has found no promise and is putting the id back. */
  predicate PutsBack(th: Thread) {
    th.Inside? && (th.at.LoadBack? || th.at.TryAdvance? || th.at.Reserved?)
  }

  predicate Metered(s: State) {
    && s.currentRequests == Sum(s.threads, InGuard())
    && s.inferReqActive == Sum(s.threads, Infers())
    && (forall t :: 0 <= t < |s.threads| ==> RightKind(s.threads[t]))
  }

  predicate RightKind(th: Thread) {
    th.Inside? ==> (OnlyGuarded(th.at) ==> th.guarded) && (th.at.NothingIdle? ==> !th.guarded)
  }

  /** Points that tryToGetIdleStream never reaches. */
  predicate OnlyGuarded(p: Point) {
    p.WantQueue? || p.Enqueuing? || p.Enqueued? || p.LeavingFront? || p.Waiting? ||
    p.Delivering? || p.Granted? || p.Active?
  }

  ghost predicate Inv(s: State) {
    WellFormed(s) && Locked(s) && Conserved(s) && Windowed(s) && Promised(s) && Metered(s)
  }
}
