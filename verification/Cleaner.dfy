/** The schedule of the cleaner thread: two periods on one timer. */
module Cleaner {

  const UINT32_MAX := 0xFFFF_FFFF

  /** period, 2 * period, ..., count * period */
  function Multiples(period: nat, count: nat): seq<nat> {
    seq(count, i => (i + 1) * period)
  }

  /** A timer that counts down from its period and has fired count times after elapsed. */
  predicate Timer(period: nat, left: nat, elapsed: nat, fired: seq<nat>) {
    && 1 <= left <= period
    && elapsed + left == (|fired| + 1) * period
    && fired == Multiples(period, |fired|)
  }

  function LastWake(wakes: seq<nat>): nat {
    if wakes == [] then 0 else wakes[|wakes| - 1]
  }

  /** Every wake-up cleans something, and nothing is cleaned in between. */
  ghost predicate EachCleans(wakes: seq<nat>, resources: seq<nat>, sequences: seq<nat>) {
    && (forall k :: 0 <= k < |wakes| ==> wakes[k] in resources || wakes[k] in sequences)
    && (forall time :: time in resources || time in sequences ==> time in wakes)
  }

  ghost predicate Increasing(wakes: seq<nat>) {
    forall j, k :: 0 <= j < k < |wakes| ==> wakes[j] < wakes[k]
  }

  lemma WakeUp(wakes: seq<nat>, resources: seq<nat>, sequences: seq<nat>, time: nat,
               resources': seq<nat>, sequences': seq<nat>)
    requires EachCleans(wakes, resources, sequences)
    requires resources' == resources || resources' == resources + [time]
    requires sequences' == sequences || sequences' == sequences + [time]
    requires resources' != resources || sequences' != sequences
    ensures EachCleans(wakes + [time], resources', sequences')
    ensures LastWake(wakes + [time]) == time
    ensures Increasing(wakes) && (wakes == [] || LastWake(wakes) < time) ==> Increasing(wakes + [time])
  {}

  /** The timer advances by at most what is left, and fires when nothing is left. */
  lemma Advance(period: nat, left: nat, elapsed: nat, fired: seq<nat>, wait: nat)
    requires Timer(period, left, elapsed, fired) && 1 <= wait <= left
    ensures
      var left' := if left - wait == 0 then period else left - wait;
      && (left' == period <==> wait == left)
      && Timer(period, left', elapsed + wait, if left' == period then fired + [elapsed + wait] else fired)
  {
    assert (|fired| + 2) * period == (|fired| + 1) * period + period;
    assert Multiples(period, |fired| + 1) == Multiples(period, |fired|) + [(|fired| + 1) * period];
  }

  lemma FiredCount(period: nat, left: nat, elapsed: nat, fired: seq<nat>)
    requires Timer(period, left, elapsed, fired)
    ensures |fired| == elapsed / period
  {
    var count := |fired|;
    assert elapsed == count * period + (period - left);
    DivideExactly(elapsed, period, count, period - left);
  }

  lemma DivideExactly(x: nat, d: nat, q: nat, r: nat)
    requires d >= 1 && r < d && x == q * d + r
    ensures x / d == q
  {
    var q' := x / d;
    assert x == q' * d + x % d;
    TimesStrict(q', q, d);
    TimesStrict(q, q', d);
  }

  lemma TimesStrict(a: nat, b: nat, d: nat)
    ensures a < b ==> a * d + d <= b * d
  {
    if a < b {
      assert (a + 1) * d <= b * d;
    }
  }

  /**
   * The loop for a given number of timeouts before the exit signal; the results are the times
   * at which each cleanup ran, the time of the last wake-up and the times of all of them.
   */
  method CleanerRoutine(resourcesCleanupInterval: nat, sequenceCleanerInterval: nat, timeouts: nat)
    returns (elapsed: nat, resources: seq<nat>, sequences: seq<nat>, ghost wakes: seq<nat>)
    requires resourcesCleanupInterval <= UINT32_MAX && sequenceCleanerInterval <= UINT32_MAX
    // the resources are cleaned at every multiple of their interval, nothing else
    ensures resourcesCleanupInterval > 0 ==>
              resources == Multiples(resourcesCleanupInterval, elapsed / resourcesCleanupInterval)
    // so are the sequences, unless their interval is 0
    ensures resourcesCleanupInterval > 0 && sequenceCleanerInterval > 0 ==>
              sequences == Multiples(sequenceCleanerInterval, elapsed / sequenceCleanerInterval)
    ensures sequenceCleanerInterval == 0 ==> sequences == []
    // every wake-up cleans something, and nothing is cleaned between two wake-ups
    ensures |wakes| == timeouts && elapsed == LastWake(wakes) && EachCleans(wakes, resources, sequences)
    ensures timeouts <= |resources| + |sequences|
    // and, with a positive interval, at a time of its own
    ensures resourcesCleanupInterval > 0 ==> Increasing(wakes)
    // with a zero resources interval no time passes, and every wake-up cleans everything
    ensures resourcesCleanupInterval == 0 ==> elapsed == 0 && |resources| == timeouts
    ensures resourcesCleanupInterval == 0 && sequenceCleanerInterval > 0 ==> |sequences| == timeouts
  {
    var currentResourcesWaitTime: nat := resourcesCleanupInterval;
    var currentSequenceWaitTime: nat := sequenceCleanerInterval;
    var shouldCheckForSequenceCleanup := sequenceCleanerInterval != 0;
    var currentWaitTime: nat :=
      if !shouldCheckForSequenceCleanup || currentResourcesWaitTime < currentSequenceWaitTime
      then currentResourcesWaitTime else currentSequenceWaitTime;
    elapsed, resources, sequences, wakes := 0, [], [], [];
    for wakeUps := 0 to timeouts
      invariant shouldCheckForSequenceCleanup <==> sequenceCleanerInterval != 0
      invariant currentWaitTime ==
                if !shouldCheckForSequenceCleanup || currentResourcesWaitTime < currentSequenceWaitTime
                then currentResourcesWaitTime else currentSequenceWaitTime
      invariant resourcesCleanupInterval > 0 ==>
                  Timer(resourcesCleanupInterval, currentResourcesWaitTime, elapsed, resources)
      invariant resourcesCleanupInterval > 0 && shouldCheckForSequenceCleanup ==>
                  Timer(sequenceCleanerInterval, currentSequenceWaitTime, elapsed, sequences)
      invariant !shouldCheckForSequenceCleanup ==> sequences == []
      invariant |wakes| == wakeUps && elapsed == LastWake(wakes) && EachCleans(wakes, resources, sequences)
      invariant wakeUps <= |resources| + |sequences|
      invariant resourcesCleanupInterval > 0 ==> Increasing(wakes)
      invariant resourcesCleanupInterval == 0 ==>
                  currentResourcesWaitTime == elapsed == 0 && |resources| == wakeUps &&
                  (shouldCheckForSequenceCleanup ==>
                     currentSequenceWaitTime == sequenceCleanerInterval && |sequences| == wakeUps)
    {
      if resourcesCleanupInterval > 0 {
        Advance(resourcesCleanupInterval, currentResourcesWaitTime, elapsed, resources, currentWaitTime);
        if shouldCheckForSequenceCleanup {
          Advance(sequenceCleanerInterval, currentSequenceWaitTime, elapsed, sequences, currentWaitTime);
        }
      }
      ghost var cleanedResources, cleanedSequences := resources, sequences;
      elapsed := elapsed + currentWaitTime;
      currentResourcesWaitTime :=
        if currentResourcesWaitTime - currentWaitTime == 0
        then resourcesCleanupInterval else currentResourcesWaitTime - currentWaitTime;
      if shouldCheckForSequenceCleanup {
        currentSequenceWaitTime :=
          if currentSequenceWaitTime - currentWaitTime == 0
          then sequenceCleanerInterval else currentSequenceWaitTime - currentWaitTime;
      }
      currentWaitTime :=
        if !shouldCheckForSequenceCleanup || currentResourcesWaitTime < currentSequenceWaitTime
        then currentResourcesWaitTime else currentSequenceWaitTime;

      if currentResourcesWaitTime == resourcesCleanupInterval {
        resources := resources + [elapsed];
      }
      if currentSequenceWaitTime == sequenceCleanerInterval && shouldCheckForSequenceCleanup {
        sequences := sequences + [elapsed];
      }
      WakeUp(wakes, cleanedResources, cleanedSequences, elapsed, resources, sequences);
      wakes := wakes + [elapsed];
    }
    if resourcesCleanupInterval > 0 {
      FiredCount(resourcesCleanupInterval, currentResourcesWaitTime, elapsed, resources);
      if shouldCheckForSequenceCleanup {
        FiredCount(sequenceCleanerInterval, currentSequenceWaitTime, elapsed, sequences);
      }
    }
  }
}
