/** The infer-request pool seen as two queues: idle stream ids and waiting tickets. */
module FifoPool {
  datatype Option<+T> = None | Some(value: T)

  datatype Pool = Pool(idle: seq<int>, waiters: seq<nat>) {

    /** Nobody waits while a stream is idle. */
    predicate Settled() {
      idle == [] || waiters == []
    }

    /** getIdleStream: the oldest idle id, or a place at the end of the queue. */
    function Get(ticket: nat): (Pool, Option<int>) {
      if idle != [] then (Pool(idle[1..], waiters), Some(idle[0]))
      else (Pool(idle, waiters + [ticket]), None)
    }

    /** tryToGetIdleStream: the oldest idle id, or nothing at all. */
    function TryGet(): (Pool, Option<int>) {
      if idle != [] then (Pool(idle[1..], waiters), Some(idle[0])) else (this, None)
    }

    /** returnStream: to the longest waiting ticket, or to the end of the idle ids. */
    function Return(id: int): (Pool, Option<nat>) {
      if waiters != [] then (Pool(idle, waiters[1..]), Some(waiters[0]))
      else (Pool(idle + [id], waiters), None)
    }
  }

  /** A new pool hands out 0, 1, ..., n-1 in this order. */
  function Fresh(n: nat): Pool {
    Pool(seq(n, i => i), [])
  }

  datatype Call = GetCall(ticket: nat) | TryCall | ReturnCall(id: int)

  /** A pool with the order of everything that went in and out of it. */
  datatype History = History(
    pool: Pool,
    arrivals: seq<nat>,   // tickets, in the order they called getIdleStream
    served: seq<nat>,     // tickets, in the order they were given an id
    issued: seq<int>,     // ids, in the order they were given out
    returned: seq<int>    // ids, in the order they came back
  ) {
    function After(call: Call): History {
      match call
      case GetCall(ticket) =>
        var (next, got) := pool.Get(ticket);
        if got.Some?
        then History(next, arrivals + [ticket], served + [ticket], issued + [got.value], returned)
        else History(next, arrivals + [ticket], served, issued, returned)
      case TryCall =>
        var (next, got) := pool.TryGet();
        if got.Some? then History(next, arrivals, served, issued + [got.value], returned)
        else this.(pool := next)
      case ReturnCall(id) =>
        var (next, ticket) := pool.Return(id);
        if ticket.Some?
        then History(next, arrivals, served + [ticket.value], issued + [id], returned + [id])
        else History(next, arrivals, served, issued, returned + [id])
    }
  }

  function Replay(n: nat, calls: seq<Call>): History {
    if calls == [] then History(Fresh(n), [], [], [], [])
    else Replay(n, calls[..|calls| - 1]).After(calls[|calls| - 1])
  }

  predicate Ordered(start: seq<int>, h: History) {
    && h.pool.Settled()
    && h.served + h.pool.waiters == h.arrivals
    && h.issued + h.pool.idle == start + h.returned
  }

  lemma AfterKeepsOrder(start: seq<int>, h: History, call: Call)
    requires Ordered(start, h)
    ensures Ordered(start, h.After(call))
  {
    if h.pool.idle != [] {
      assert h.issued + [h.pool.idle[0]] + h.pool.idle[1..] == h.issued + h.pool.idle;
    }
    if h.pool.waiters != [] {
      assert h.served + [h.pool.waiters[0]] + h.pool.waiters[1..] == h.served + h.pool.waiters;
    }
    match call
    case GetCall(ticket) =>
      assert h.served + (h.pool.waiters + [ticket]) == h.arrivals + [ticket];
    case TryCall =>
    case ReturnCall(id) =>
      assert (h.issued + h.pool.idle) + [id] == start + (h.returned + [id]);
      if h.pool.waiters == [] {
        assert h.issued + (h.pool.idle + [id]) == (h.issued + h.pool.idle) + [id];
      }
  }

  /**
   * For every sequence of calls: tickets are served in the order they arrived, ids are
   * given out in the order 0..n-1 followed by the order of their return, and nobody
   * waits while an id is idle.
   */
  lemma {:induction false} FirstComeFirstServed(n: nat, calls: seq<Call>)
    ensures Ordered(Fresh(n).idle, Replay(n, calls))
  {
    if calls != [] {
      FirstComeFirstServed(n, calls[..|calls| - 1]);
      AfterKeepsOrder(Fresh(n).idle, Replay(n, calls[..|calls| - 1]), calls[|calls| - 1]);
    }
  }
}
