/** Which failed loads the result of a call on a model without versions reports. */
module FailureReports {
  import opened DirectoryOrder
  import opened Models = Model
  import opened ModelManager
  import opened Reconciliation
  import opened ReconciliationSteps
  import opened VersionChange
  import opened VersionPolicy
  import opened VersionSearch
  import opened Versions

  /** What the result reports: the failures of the last starts and of the reloads. */
  function Reported(s: Setting, plan: Plan): set<Version> {
    FailedOf(plan.lastRound, s.loads) + FailedOf(plan.reloaded, s.loads)
  }

  // ---- The policies all and specific ----

  /** With all and specific there is one round of starts, so every selected version that fails is reported. */
  lemma AllAndSpecificReport(available: seq<Version>, s: Setting, plan: Plan, status: StatusCode)
    requires NoDuplicates(available) && FollowsSteps(map[], available, s, plan) && !s.policy.Latest?
    requires Reports(status, UpToDate(map[], s, available), s, plan)
    ensures status == LOAD_FAILED <==> exists v: Version :: v in Selected(s.policy, Elems(available)) && !s.loads(v)
  {
    OneRound(available, s);
    InOrderExactly(ToStart(map[], s, available));
    var selected := Selected(s.policy, Elems(available));
    assert forall v: Version :: v in plan.lastRound <==> v in selected;
    if v: Version :| v in selected && !s.loads(v) {
      assert v in Reported(s, plan);
    } else {
      RoundsDone(map[], s, available);
      forall v: Version | v in plan.reloaded ensures s.loads(v) {
        assert v in selected;
      }
    }
  }

  lemma OneRound(available: seq<Version>, s: Setting)
    requires NoDuplicates(available) && !s.policy.Latest?
    ensures LastOf(Rounds(map[], s, available)) == InOrder(ToStart(map[], s, available))
  {
    var batch := InOrder(ToStart(map[], s, available));
    InOrderExactly(ToStart(map[], s, available));
    var view', left := AfterRound(map[], s, batch), LeftAfterRound(s, available, batch);
    EraseAllShrinks(available, FailedIn(batch, s.loads));
    forall v: Version | v in Selected(s.policy, Elems(left)) ensures v in view' {
      assert v in Elems(available) && v in batch;
    }
    assert ToStart(view', s, left) == {};
    assert Rounds(view', s, left) == [];
    assert [batch] + [] == [batch];
    KeepExact(batch, Fails(s.loads));
  }

  // ---- latest(k) ----

  /** The registered versions among those left load and are among the k greatest. */
  ghost predicate OnTheWay(view: View, s: Setting, remaining: seq<Version>, k: nat) {
    && s.policy == Latest(k)
    && forall v: Version :: v in remaining && v in view ==> s.loads(v) && v in Selected(s.policy, Elems(remaining))
  }

  /** Coming down the list, the loop ends with a round in which everything loads. */
  lemma {:induction false} LastRoundClean(view: View, s: Setting, remaining: seq<Version>, k: nat)
    requires NoDuplicates(remaining) && OnTheWay(view, s, remaining, k) && k <= |Loadable(Elems(remaining), s)|
    requires ComesDown(remaining, k, s.loads)
    ensures FailedOf(LastOf(Rounds(view, s, remaining)), s.loads) == {}
    decreases Elems(remaining) - view.Keys
  {
    var failing, batch := FailingLatest(remaining, k, s.loads), InOrder(ToStart(view, s, remaining));
    FailingOfBatch(view, s, remaining, k);
    KeepFailed(batch, s.loads);
    if failing != {} {
      var view', left := AfterRound(view, s, batch), LeftAfterRound(s, remaining, batch);
      RoundShrinks(view, s, remaining);
      EraseAllFacts(remaining, InOrder(failing));
      RegisteredLoad(view, s, remaining, failing, left);
      StaysOnTheWay(view, s, remaining, k, left);
      SameLoadable(remaining, left, failing, s);
      SomethingToStart(view, s, remaining, k, left);
      LastRoundClean(view', s, left, k);
      LastOfRest(view, s, remaining);
    }
  }

  lemma LastOfRest(view: View, s: Setting, remaining: seq<Version>)
    requires ToStart(view, s, remaining) != {} && FailedIn(InOrder(ToStart(view, s, remaining)), s.loads) != []
    ensures
      var batch := InOrder(ToStart(view, s, remaining));
      var rest := Rounds(AfterRound(view, s, batch), s, LeftAfterRound(s, remaining, batch));
      LastOf(Rounds(view, s, remaining)) == if rest == [] then batch else LastOf(rest)
  {
    var batch := InOrder(ToStart(view, s, remaining));
    LastOfCons(batch, Rounds(AfterRound(view, s, batch), s, LeftAfterRound(s, remaining, batch)));
  }

  lemma LastOfCons(batch: seq<Version>, rest: seq<seq<Version>>)
    ensures LastOf([batch] + rest) == if rest == [] then batch else LastOf(rest)
  {}

  lemma StaysOnTheWay(view: View, s: Setting, remaining: seq<Version>, k: nat, left: seq<Version>)
    requires OnTheWay(view, s, remaining, k) && Elems(left) <= Elems(remaining)
    requires
      var batch := InOrder(ToStart(view, s, remaining));
      && (forall v: Version :: v in batch <==> v in ToStart(view, s, remaining))
      && (forall v: Version :: v in left && v in AfterRound(view, s, batch) ==> s.loads(v))
    ensures OnTheWay(AfterRound(view, s, InOrder(ToStart(view, s, remaining))), s, left, k)
    ensures forall v: Version :: v in left && v in AfterRound(view, s, InOrder(ToStart(view, s, remaining))) ==>
              v in Selected(s.policy, Elems(remaining))
  {
    var view' := AfterRound(view, s, InOrder(ToStart(view, s, remaining)));
    forall v: Version | v in left && v in view'
      ensures v in Selected(s.policy, Elems(remaining)) && v in Selected(s.policy, Elems(left))
    {
      assert v in Elems(left) && v in remaining;
      SelectedKept(s.policy, Elems(remaining), Elems(left), v);
    }
  }

  /** After a failure there are fewer than k registered versions left, so another one is to be started. */
  lemma SomethingToStart(view: View, s: Setting, remaining: seq<Version>, k: nat, left: seq<Version>)
    requires s.policy == Latest(k) && FailingLatest(remaining, k, s.loads) != {}
    requires Elems(left) <= Elems(remaining) && k <= |Loadable(Elems(left), s)|
    requires forall v: Version :: v in FailingLatest(remaining, k, s.loads) ==> v !in left
    requires forall v: Version :: v in left && v in AfterRound(view, s, InOrder(ToStart(view, s, remaining))) ==>
               v in Selected(s.policy, Elems(remaining))
    ensures ToStart(AfterRound(view, s, InOrder(ToStart(view, s, remaining))), s, left) != {}
    ensures Rounds(AfterRound(view, s, InOrder(ToStart(view, s, remaining))), s, left) != []
  {
    var view', top := AfterRound(view, s, InOrder(ToStart(view, s, remaining))), Selected(s.policy, Elems(left));
    if ToStart(view', s, left) == {} {
      var f: Version :| f in FailingLatest(remaining, k, s.loads);
      LatestAreGreatest(k, Elems(left));
      LatestAreGreatest(k, Elems(remaining));
      SubsetSize(Loadable(Elems(left), s), Elems(left));
      forall v: Version | v in top ensures v in Selected(s.policy, Elems(remaining)) {
        assert v in left && v !in ToStart(view', s, left);
      }
      assert f !in top;
      SubsetSize(top + {f}, Selected(s.policy, Elems(remaining)));
    }
  }

  /**
   * latest(k) with at least k versions that load: a failure is reported if and only if one does not
   * come down the list, which is to say that not all of the k greatest loadable versions are served.
   */
  lemma LatestReportsExactly(available: seq<Version>, s: Setting, plan: Plan, k: nat, status: StatusCode)
    requires NoDuplicates(available) && FollowsSteps(map[], available, s, plan) && s.blocked == {}
    requires s.policy == Latest(k) && k <= |Loadable(Elems(available), s)|
    requires Reports(status, UpToDate(map[], s, available), s, plan)
    ensures status == LOAD_FAILED <==> !ComesDown(available, k, s.loads)
  {
    WalkExactly(map[], s, available, k);
    RoundsDone(map[], s, available);
    if ComesDown(available, k, s.loads) {
      LastRoundClean(map[], s, available, k);
      AllSelectedLoad(available, s, plan, k);
    } else {
      var v := SomeSelectedFails(available, s, plan, k);
      assert v in plan.reloaded && v in Reported(s, plan);
    }
  }

  lemma AllSelectedLoad(available: seq<Version>, s: Setting, plan: Plan, k: nat)
    requires s.policy == Latest(k) && k <= |Loadable(Elems(available), s)|
    requires Selected(s.policy, Loadable(Elems(available), s)) <= FirstSelected(available, s, plan)
    requires forall v: Version :: v in plan.reloaded ==> v in FirstSelected(available, s, plan)
    ensures FailedOf(plan.reloaded, s.loads) == {}
  {
    var best, first := Selected(s.policy, Loadable(Elems(available), s)), FirstSelected(available, s, plan);
    LatestAreGreatest(k, Loadable(Elems(available), s));
    LatestAreGreatest(k, Elems(LeftAfterStarts(available, s, plan)));
    forall v: Version | v in first ensures s.loads(v) {
      if v !in best {
        SubsetSize(best + {v}, first);
        assert false;
      }
    }
  }

  /** Otherwise a failed version is still selected when the loop ends, and it is reloaded in vain. */
  lemma SomeSelectedFails(available: seq<Version>, s: Setting, plan: Plan, k: nat) returns (v: Version)
    requires s.policy == Latest(k) && s.blocked == {} && FollowsSteps(map[], available, s, plan)
    requires LoopDone(map[], s, available, plan.started, LeftAfterStarts(available, s, plan))
    requires !(Selected(s.policy, Loadable(Elems(available), s)) <= FirstSelected(available, s, plan))
    ensures v in plan.reloaded && !s.loads(v)
  {
    var left := Elems(LeftAfterStarts(available, s, plan));
    var first := FirstSelected(available, s, plan);
    if forall u: Version :: u in first ==> s.loads(u) {
      assert Loadable(left, s) == Loadable(Elems(available), s);
      SelectedWithin(s.policy, left, Loadable(left, s));
      assert false;
    }
    v :| v in first && !s.loads(v);
    assert v in plan.started;
    assert AfterStarts(map[], s, plan)[v] == Attempted(s.config, v, false);
  }

  /** If nothing that is tried loads, the last round has failed. */
  lemma NothingLoads(available: seq<Version>, s: Setting, plan: Plan)
    requires FollowsSteps(map[], available, s, plan) && NoDuplicates(available)
    requires Loadable(Elems(available), s) == {} && Selected(s.policy, Elems(available)) != {}
    ensures Reported(s, plan) != {}
  {
    var rounds := Rounds(map[], s, available);
    assert ToStart(map[], s, available) != {};
    assert rounds != [];
    LastIsNotEmpty(map[], s, available);
    LastRoundStarted(map[], s, available);
    RoundsDone(map[], s, available);
    var v := plan.lastRound[0];
    assert v in plan.lastRound && v in plan.started && v in Elems(available);
    assert v !in Loadable(Elems(available), s);
    assert v in FailedOf(plan.lastRound, s.loads);
  }

  lemma {:induction false} LastIsNotEmpty(view: View, s: Setting, remaining: seq<Version>)
    ensures Rounds(view, s, remaining) != [] ==> LastOf(Rounds(view, s, remaining)) != []
    decreases Elems(remaining) - view.Keys
  {
    if ToStart(view, s, remaining) != {} {
      var batch := InOrder(ToStart(view, s, remaining));
      if FailedIn(batch, s.loads) != [] {
        RoundShrinks(view, s, remaining);
        LastIsNotEmpty(AfterRound(view, s, batch), s, LeftAfterRound(s, remaining, batch));
        LastOfRest(view, s, remaining);
      }
    }
  }

  /** latest(1): a failure is reported if and only if there are versions and none is served. */
  lemma LatestOneReportsExactly(available: seq<Version>, s: Setting, plan: Plan, status: StatusCode)
    requires NoDuplicates(available) && FollowsSteps(map[], available, s, plan) && s.blocked == {}
    requires s.policy == Latest(1) && Reports(status, UpToDate(map[], s, available), s, plan)
    ensures status == LOAD_FAILED <==> available != [] && forall v: Version :: !Up(After(map[], s, plan), v)
    ensures available != [] ==> status != OK
  {
    var loadable := Loadable(Elems(available), s);
    ServedInAnyOrder(available, s, plan);
    RoundsDone(map[], s, available);
    LatestAreGreatest(1, Elems(available));
    if available == [] {
      NothingOffered(s, plan);
    } else if loadable == {} {
      assert available[0] in Elems(available);
      NothingLoads(available, s, plan);
      forall v: Version ensures !Up(After(map[], s, plan), v) {
        assert v in FirstSelected(available, s, plan) ==> v in Elems(available);
      }
      NotUpToDate(available, s, plan, status);
    } else {
      assert |loadable| >= 1;
      LatestReportsExactly(available, s, plan, 1, status);
      LatestFallsBackExactly(available, s, plan, 1);
      ServedExactlyIfBest(available, s, plan);
      NotUpToDate(available, s, plan, status);
    }
  }

  /** The greatest version that loads. */
  predicate GreatestThatLoads(available: seq<Version>, s: Setting, g: Version) {
    g in available && s.loads(g) && forall v: Version :: v in available && v > g ==> !s.loads(v)
  }

  predicate AllFoundAbove(available: seq<Version>, g: Version) {
    forall v: Version :: v in available && v > g ==> FoundAsGreatest(available, v)
  }

  /** The greatest version that loads has only versions above it that are found once they are the greatest left. */
  ghost predicate SomeIsReached(available: seq<Version>, s: Setting) {
    exists g: Version :: GreatestThatLoads(available, s, g) && AllFoundAbove(available, g)
  }

  /** In terms of the directory and the outcomes of loading alone. */
  lemma LatestOneReportsByList(available: seq<Version>, s: Setting, plan: Plan, status: StatusCode)
    requires NoDuplicates(available) && FollowsSteps(map[], available, s, plan) && s.blocked == {}
    requires s.policy == Latest(1) && Reports(status, UpToDate(map[], s, available), s, plan)
    ensures status == LOAD_FAILED <==> available != [] && !SomeIsReached(available, s)
  {
    LatestOneReportsExactly(available, s, plan, status);
    if Loadable(Elems(available), s) == {} {
      NoneIsReached(available, s);
      ServedInAnyOrder(available, s, plan);
      RoundsDone(map[], s, available);
      forall v: Version ensures !Up(After(map[], s, plan), v) {
        assert v !in Loadable(Elems(available), s);
      }
    } else {
      var g := GreatestLoadable(available, s);
      GreatestServedExactly(available, s, plan, g);
      ReachedIfFound(available, s, g);
    }
  }

  lemma NoneIsReached(available: seq<Version>, s: Setting)
    requires Loadable(Elems(available), s) == {}
    ensures !SomeIsReached(available, s)
  {
    forall g: Version ensures !GreatestThatLoads(available, s, g) {
      assert g !in Loadable(Elems(available), s);
    }
  }

  lemma ReachedIfFound(available: seq<Version>, s: Setting, g: Version)
    requires GreatestThatLoads(available, s, g)
    ensures SomeIsReached(available, s) <==> AllFoundAbove(available, g)
  {
    forall h: Version | GreatestThatLoads(available, s, h) ensures h == g {
    }
  }

  lemma NothingOffered(s: Setting, plan: Plan)
    requires FollowsSteps(map[], [], s, plan)
    ensures Reported(s, plan) == {}
  {
    assert ToStart(map[], s, []) == {};
    forall v: Version ensures v !in plan.reloaded {
      assert v !in FirstSelected([], s, plan);
    }
  }

  lemma NotUpToDate(available: seq<Version>, s: Setting, plan: Plan, status: StatusCode)
    requires s.policy == Latest(1) && available != [] && Reports(status, UpToDate(map[], s, available), s, plan)
    ensures status != OK
  {
    LatestAreGreatest(1, Elems(available));
    assert available[0] in Elems(available);
    var v: Version :| v in Selected(s.policy, Elems(available));
    assert v in Wanted(map[], Selected(s.policy, Elems(available)), s.blocked);
    assert v !in Change([], [], []).start;
  }

  /** With latest(1), the best is served exactly if something is. */
  lemma ServedExactlyIfBest(available: seq<Version>, s: Setting, plan: Plan)
    requires NoDuplicates(available) && FollowsSteps(map[], available, s, plan) && s.blocked == {}
    requires s.policy == Latest(1) && Loadable(Elems(available), s) != {}
    ensures
      (forall v: Version ::
         Up(After(map[], s, plan), v) <==> v in Selected(s.policy, Loadable(Elems(available), s))) <==>
      (exists v: Version :: Up(After(map[], s, plan), v))
  {
    var g := GreatestLoadable(available, s);
    GreatestServedExactly(available, s, plan, g);
    OneOrNone(After(map[], s, plan), g);
  }

  lemma OneOrNone(view: View, g: Version)
    requires forall v: Version :: Up(view, v) ==> v == g
    ensures (forall v: Version :: Up(view, v) <==> v in {g}) <==> exists v: Version :: Up(view, v)
  {
    if Up(view, g) {
      assert forall v: Version :: Up(view, v) <==> v in {g};
    } else {
      assert g in {g} && !Up(view, g);
    }
  }

  lemma GreatestLoadable(available: seq<Version>, s: Setting) returns (g: Version)
    requires s.policy == Latest(1) && Loadable(Elems(available), s) != {}
    ensures g in available && s.loads(g) && forall v: Version :: v in available && v > g ==> !s.loads(v)
    ensures Selected(s.policy, Loadable(Elems(available), s)) == {g}
  {
    var loadable := Loadable(Elems(available), s);
    LatestAreGreatest(1, loadable);
    g :| g in Selected(s.policy, loadable);
    assert Greater(loadable, g) == {};
    forall v: Version | v in available && v > g ensures !s.loads(v) {
      assert v !in Greater(loadable, g);
    }
    forall v: Version | v in Selected(s.policy, loadable) ensures v == g {
      assert Greater(loadable, v) == {};
      assert v !in Greater(loadable, g) && g !in Greater(loadable, v);
    }
  }

  lemma MadeUpFor(u: Version, v: Version, s: Setting, plan: Plan)
    requires u < v && s.policy == Latest(1) && s.blocked == {} && s.loads(u) && !s.loads(v)
    requires FollowsSteps(map[], [u, v], s, plan)
    ensures Up(After(map[], s, plan), u)
  {
    FoundInOrder(u, v);
    GreatestServedExactly([u, v], s, plan, u);
  }

  lemma FoundInOrder(u: Version, v: Version)
    requires u < v
    ensures AllFoundAbove([u, v], u) && NoDuplicates([u, v])
  {
    KeepAll([u, v], UpTo(v));
    FindsExactly([u, v], v);
  }

  lemma GreatestIsTried(u: Version, v: Version, s: Setting)
    requires u < v && s.policy == Latest(1) && !s.loads(v)
    ensures v in Flat(Rounds(map[], s, [u, v]))
  {
    FailedRound(map[], s, [u, v], v);
  }

  /** A failed start that is made up for by another one is not reported. */
  lemma MadeUpForIsNotReported(u: Version, v: Version, s: Setting, plan: Plan, status: StatusCode)
    requires u < v && s.policy == Latest(1) && s.blocked == {} && s.loads(u) && !s.loads(v)
    requires FollowsSteps(map[], [u, v], s, plan) && Reports(status, UpToDate(map[], s, [u, v]), s, plan)
    ensures v in Failed(s, plan) && Up(After(map[], s, plan), u) && status == OK_RELOADED
  {
    GreatestIsTried(u, v, s);
    assert v in plan.started;
    MadeUpFor(u, v, s, plan);
    LatestOneReportsExactly([u, v], s, plan, status);
  }
}
