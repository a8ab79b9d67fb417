/** The infer-request queue of src/queue.hpp with calls that do not overlap. */
module StreamQueue {
  import opened FifoPool
  import opened StreamQueueSteps

  /** The slots from front on hold the ids, the others are empty. */
  predicate Buffers(streams: seq<int>, front: nat, ids: seq<int>)
    requires front < |streams|
  {
    forall k :: 0 <= k < |streams| ==>
      streams[Slot(front, k, |streams|)] == if k < |ids| then ids[k] else -1
  }

  class Queue {
    var streams: array<int>      // circular buffer; a negative value marks an empty slot
    var frontIdx: nat
    var backIdx: nat
    var promises: seq<nat>       // tickets whose future has no value yet, oldest first

    ghost var idle: seq<int>     // the ids in the buffer, oldest first
    ghost var lent: set<int>     // the ids given out and not returned

    ghost predicate Valid()
      reads this, streams
    {
      var n := streams.Length;
      && frontIdx < n && backIdx < n
      && |idle| + |lent| == n
      && backIdx == Slot(frontIdx, |idle|, n)
      && Buffers(streams[..], frontIdx, idle)
      && (forall k :: 0 <= k < |idle| ==> 0 <= idle[k] < n && idle[k] !in lent)
      && (forall j, k :: 0 <= j < k < |idle| ==> idle[j] != idle[k])
      && (forall id :: id in lent ==> 0 <= id < n)
      && Abs().Settled()
    }

    ghost function Abs(): Pool
      reads this
    {
      Pool(idle, promises)
    }

    constructor (streamsLength: nat)
      requires streamsLength >= 1
      ensures Valid() && fresh(streams) && streams.Length == streamsLength
      ensures Abs() == Fresh(streamsLength) && lent == {}
    {
      streams := new int[streamsLength];
      frontIdx, backIdx := 0, 0;
      promises := [];
      idle, lent := seq(streamsLength, i => i), {};
      new;
      for i := 0 to streamsLength
        invariant streams.Length == streamsLength && fresh(streams)
        invariant frontIdx == backIdx == 0 && promises == [] && lent == {}
        invariant idle == seq(streamsLength, i => i)
        invariant forall k :: 0 <= k < i ==> streams[k] == k
      {
        streams[i] := i;
      }
    }

    /** Gives out the oldest idle id, or leaves the ticket at the end of the waiting ones. */
    method GetIdleStream(ticket: nat) returns (got: Option<int>)
      requires Valid()
      modifies this`frontIdx, this`promises, this`idle, this`lent, streams
      ensures Valid() && old(Abs()).Get(ticket) == (Abs(), got)
      ensures lent == old(lent) + (if got.Some? then {got.value} else {})
      ensures got.Some? ==> got.value !in old(lent)
    {
      SlotFacts();
      if streams[frontIdx] < 0 {
        promises := promises + [ticket];
        got := None;
      } else {
        got := TakeFront();
      }
    }

    /** Gives out the oldest idle id; without one it changes nothing. */
    method TryToGetIdleStream() returns (got: Option<int>)
      requires Valid()
      modifies this`frontIdx, this`idle, this`lent, streams
      ensures Valid() && old(Abs()).TryGet() == (Abs(), got)
      ensures lent == old(lent) + (if got.Some? then {got.value} else {})
      ensures got.Some? ==> got.value !in old(lent)
      ensures got.None? <==> old(idle) == []
    {
      SlotFacts();
      if streams[frontIdx] < 0 {
        got := None;
      } else {
        got := TakeFront();
      }
    }

    /** The common branch of both: read the front slot, empty it, advance front_idx. */
    method TakeFront() returns (got: Option<int>)
      requires Valid() && idle != []
      modifies this`frontIdx, this`idle, this`lent, streams
      ensures Valid() && idle == old(idle)[1..]
      ensures got == Some(old(idle)[0]) && got.value !in old(lent) && lent == old(lent) + {got.value}
    {
      SlotFacts();
      TakenFromWindow(streams[..], frontIdx, idle);
      ghost var before := streams[..];
      var value := streams[frontIdx];
      streams[frontIdx] := -1;
      assert streams[..] == before[frontIdx := -1];
      NextSlot(frontIdx, streams.Length);
      frontIdx := (frontIdx + 1) % streams.Length;
      got := Some(value);
      lent := lent + {idle[0]};
      idle := idle[1..];
    }

    /** Hands the id to the longest waiting ticket, or stores it behind the idle ids. */
    method ReturnStream(streamId: int) returns (ticket: Option<nat>)
      requires Valid() && streamId in lent
      modifies this`backIdx, this`promises, this`idle, this`lent, streams
      ensures Valid() && old(Abs()).Return(streamId) == (Abs(), ticket)
      ensures lent == if ticket.Some? then old(lent) else old(lent) - {streamId}
    {
      if promises != [] {
        ticket := Some(promises[0]);
        promises := promises[1..];
        return;
      }
      ticket := None;
      ghost var before := streams[..];
      PutBehindIds(idle, lent, streamId);
      PutInWindow(before, frontIdx, idle, streamId);
      var oldBack := backIdx;
      NextSlot(backIdx, streams.Length);
      backIdx := (oldBack + 1) % streams.Length;
      streams[oldBack] := streamId;
      assert streams[..] == before[oldBack := streamId];
      idle := idle + [streamId];
      lent := lent - {streamId};
    }

    /** Emptying the front slot and advancing the front takes the first id out; the back keeps its place. */
    static lemma TakenFromWindow(streams: seq<int>, front: nat, ids: seq<int>)
      requires front < |streams| && 0 < |ids| <= |streams| && Buffers(streams, front, ids)
      ensures
        var n, next := |streams|, Slot(front, 1, |streams|);
        && next < n && Slot(next, |ids| - 1, n) == Slot(front, |ids|, n)
        && Buffers(streams[front := -1], next, ids[1..])
    {
      var n, next := |streams|, Slot(front, 1, |streams|);
      forall k | 0 <= k < n
        ensures streams[front := -1][Slot(next, k, n)] == if k < |ids| - 1 then ids[1..][k] else -1
      {
        TakenSlot(front, k, n);
        assert k + 1 < n ==> streams[Slot(front, k + 1, n)] == if k + 1 < |ids| then ids[k + 1] else -1;
      }
    }

    static lemma TakenSlot(front: nat, k: nat, n: nat)
      requires front < n && k < n
      ensures
        var next := Slot(front, 1, n);
        if k + 1 < n then Slot(next, k, n) == Slot(front, k + 1, n) != front else Slot(next, k, n) == front
    {
      if front + 1 == n {
        assert Slot(front, 1, n) == 0;
      }
    }

    /** The ids stay different and are idle or lent when one is returned. */
    static lemma PutBehindIds(idle: seq<int>, lent: set<int>, id: int)
      requires id in lent && forall k :: 0 <= k < |idle| ==> idle[k] !in lent
      requires forall j, k :: 0 <= j < k < |idle| ==> idle[j] != idle[k]
      ensures
        var ids, less := idle + [id], lent - {id};
        && |ids| + |less| == |idle| + |lent|
        && (forall k :: 0 <= k < |ids| ==> ids[k] !in less)
        && (forall j, k :: 0 <= j < k < |ids| ==> ids[j] != ids[k])
    {}

    /** Filling the slot behind the last id puts the id there. */
    static lemma PutInWindow(streams: seq<int>, front: nat, ids: seq<int>, id: int)
      requires front < |streams| && |ids| < |streams| && Buffers(streams, front, ids)
      ensures
        var n, back := |streams|, Slot(front, |ids|, |streams|);
        && back < n && Slot(back, 1, n) == Slot(front, |ids| + 1, n)
        && Buffers(streams[back := id], front, ids + [id])
    {}

    lemma SlotFacts()
      requires Valid()
      ensures streams[frontIdx] < 0 <==> idle == []
      ensures idle != [] ==> streams[frontIdx] == idle[0]
    {
      assert Slot(frontIdx, 0, streams.Length) == frontIdx && streams[..][frontIdx] == streams[frontIdx];
    }
  }
}
