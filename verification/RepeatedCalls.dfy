/** What further calls on the same directory do. */
module RepeatedCalls {
  import opened Models = Model
  import opened ModelConfig
  import opened Reconciliation
  import opened ReconciliationSteps
  import opened VersionChange
  import opened VersionPolicy
  import opened VersionSearch
  import opened Versions

  /**
   * A version that failed to load is reloaded by the next call, on whatever directory, exactly if
   * it is selected of the versions that are then registered or loadable.
   */
  lemma FailedIsRetried(view: View, available: set<Version>, s: Setting, plan: Plan,
                        later: set<Version>, next: Setting, nextPlan: Plan, v: Version)
    requires Follows(view, available, s, plan) && v in AllFailed(view, available, s)
    requires Follows(After(view, s, plan), later, next, nextPlan)
    ensures v in nextPlan.reloaded <==>
            v in Selected(next.policy, Usable(After(view, s, plan), later, next)) && v !in next.blocked
  {
    OnlyGoalServed(view, available, s, plan);
    assert v in nextPlan.reloaded <==> Reloads(After(view, s, plan), later, next, v);
  }

  // ---- Calls on the same directory, in any order ----

  /** Without failures nothing is erased. */
  lemma NothingErased(view: View, available: seq<Version>, s: Setting, plan: Plan)
    requires FollowsSteps(view, available, s, plan) && Failed(s, plan) == {}
    ensures LeftAfterStarts(available, s, plan) == available && LeftAtEnd(available, s, plan) == available
  {
    LastRoundStarted(view, s, available);
    assert forall v: Version :: v in FailedOf(plan.lastRound, s.loads) ==> v in Failed(s, plan);
    KeepFailed(plan.started, s.loads);
    KeepFailed(plan.lastRound, s.loads);
    KeepFailed(plan.reloaded, s.loads);
  }

  /**
   * After a call without failures the model is up to date for the same directory, in whatever order
   * it is listed, and an equal configuration.
   */
  lemma NothingLeftToDo(view: View, available: seq<Version>, s: Setting, plan: Plan, next: Config)
    requires NoDuplicates(available) && FollowsSteps(view, available, s, plan) && Failed(s, plan) == {}
    requires !ReloadRequired(s.config, next)
    ensures UpToDate(After(view, s, plan), s.(config := next), available)
  {
    var after, requested := After(view, s, plan), Selected(s.policy, Elems(available));
    NothingErased(view, available, s, plan);
    forall v: Version | v in Wanted(after, requested, s.blocked) ensures v in after && !NeedsReload(after[v], next) {
      SelectedIsFresh(view, s, requested, plan, next, v);
    }
    forall v: Version | v in after && v !in Wanted(after, requested, s.blocked)
      ensures after[v].status.WillEndUnloaded()
    {
      UnwantedIsGone(view, s, requested, plan, v);
    }
  }

  lemma SelectedIsFresh(view: View, s: Setting, requested: set<Version>, plan: Plan, next: Config, v: Version)
    requires Failed(s, plan) == {} && !ReloadRequired(s.config, next)
    requires ReloadListExact(AfterStarts(view, s, plan), s, requested, plan.reloaded)
    requires SplitExactly(AfterReloads(view, s, plan), s, requested, {}, plan.retired, plan.cleaned)
    requires v in requested && !(v in After(view, s, plan) && v in s.blocked)
    ensures v in After(view, s, plan) && !NeedsReload(After(view, s, plan)[v], next)
  {
    var started, reloaded := AfterStarts(view, s, plan), AfterReloads(view, s, plan);
    assert v in started && v !in plan.retired && v !in plan.cleaned;
    assert After(view, s, plan)[v] == reloaded[v];
    if v in plan.reloaded {
      assert s.loads(v) by {
        assert v !in Failed(s, plan);
      }
      AttemptedFresh(s.config, next, v);
    } else {
      KeptFresh(started[v], s.config, next);
    }
  }

  lemma UnwantedIsGone(view: View, s: Setting, requested: set<Version>, plan: Plan, v: Version)
    requires SplitExactly(AfterReloads(view, s, plan), s, requested, {}, plan.retired, plan.cleaned)
    requires v in After(view, s, plan) && v !in Wanted(After(view, s, plan), requested, s.blocked)
    ensures After(view, s, plan)[v].status.WillEndUnloaded()
  {
    var reloaded := AfterReloads(view, s, plan);
    assert v !in plan.cleaned;
    if v !in plan.retired {
      assert v !in Gone(reloaded, s, requested);
      assert reloaded[v].status.WillEndUnloaded();
    }
  }

  /** So a second call does nothing. */
  lemma SecondCallDoesNothing(view: View, available: seq<Version>, s: Setting, plan: Plan, next: Config, again: Plan)
    requires NoDuplicates(available) && FollowsSteps(view, available, s, plan) && Failed(s, plan) == {}
    requires !ReloadRequired(s.config, next)
    requires FollowsSteps(After(view, s, plan), available, s.(config := next), again)
    ensures again == Plan([], [], [], [], [])
    ensures After(After(view, s, plan), s.(config := next), again) == After(view, s, plan)
  {
    NothingLeftToDo(view, available, s, plan, next);
    NothingDone(After(view, s, plan), available, s.(config := next), again);
  }

  /** On an ascending list, whether anything fails is known before the call. */
  lemma NothingLeftAscending(view: View, available: seq<Version>, s: Setting, plan: Plan, next: Config)
    requires Ascending(available) && FollowsSteps(view, available, s, plan)
    requires AllFailed(view, Elems(available), s) == {} && !ReloadRequired(s.config, next)
    ensures UpToDate(After(view, s, plan), s.(config := next), available)
  {
    AscendingFollows(view, available, s, plan);
    FailuresFollow(view, available, s, plan);
    NothingLeftToDo(view, available, s, plan, next);
  }

  lemma AttemptedFresh(config: Config, next: Config, v: Version)
    requires !ReloadRequired(config, next)
    ensures !NeedsReload(Attempted(config, v, true), next)
  {}

  lemma KeptFresh(inst: Inst, config: Config, next: Config)
    requires !NeedsReload(inst, config) && !ReloadRequired(config, next)
    ensures !NeedsReload(inst, next)
  {}

  // with failures

  /** Everything that is selected of the whole directory is registered after a call. */
  lemma FirstSelectionRegistered(view: View, available: seq<Version>, s: Setting, plan: Plan)
    requires FollowsSteps(view, available, s, plan)
    ensures forall v: Version :: v in Selected(s.policy, Elems(available)) ==> v in After(view, s, plan)
  {
    var batch := InOrder(ToStart(view, s, available));
    InOrderExactly(ToStart(view, s, available));
    if ToStart(view, s, available) != {} {
      if FailedIn(batch, s.loads) == [] {
        FlatCons(batch, []);
      } else {
        RoundShrinks(view, s, available);
        FlatCons(batch, Rounds(AfterRound(view, s, batch), s, LeftAfterRound(s, available, batch)));
      }
      assert forall v: Version :: v in batch ==> v in plan.started;
    }
    forall v: Version | v in Selected(s.policy, Elems(available)) ensures v in view || v in plan.started {
      assert v in view || v in ToStart(view, s, available);
    }
  }

  /** So the next call on this directory starts nothing. */
  lemma NothingToStartAgain(view: View, available: seq<Version>, s: Setting, plan: Plan)
    requires FollowsSteps(view, available, s, plan)
    requires forall v: Version :: v in Selected(s.policy, Elems(available)) ==> v in view
    ensures Revisits(view, s, Selected(s.policy, Elems(available)), LastAfter(available, s, plan), plan)
  {
    assert ToStart(view, s, available) == {};
    assert Rounds(view, s, available) == [];
    WithoutStarts(view, available, s, plan);
  }

  lemma WithoutStarts(view: View, available: seq<Version>, s: Setting, plan: Plan)
    requires plan.started == [] && plan.lastRound == []
    ensures AfterStarts(view, s, plan) == view && LeftAfterStarts(available, s, plan) == available
    ensures LeftAtEnd(available, s, plan) == EraseAll(available, FailedIn(plan.reloaded, s.loads))
    ensures Failed(s, plan) == FailedOf(plan.reloaded, s.loads)
  {
    assert [] + FailedIn(plan.reloaded, s.loads) == FailedIn(plan.reloaded, s.loads);
  }

  /** A call that starts nothing, on a model with everything selected registered. */
  ghost predicate Revisits(view: View, s: Setting, requested: set<Version>, last: set<Version>, plan: Plan) {
    && plan.started == []
    && ReloadListExact(view, s, requested, plan.reloaded)
    && SplitExactly(Reloaded(view, plan.reloaded, s.config, s.loads), s, last, FailedOf(plan.reloaded, s.loads),
                    plan.retired, plan.cleaned)
  }

  /** The next such call reloads exactly what failed in it. */
  lemma ReloadedAgain(view: View, s: Setting, requested: set<Version>, last: set<Version>, plan: Plan, v: Version)
    requires Revisits(view, s, requested, last, plan)
    requires v in requested && v !in FailedOf(plan.reloaded, s.loads) ==> v in last
    ensures
      var after := After(view, s, plan);
      v in requested && v in after && v !in s.blocked && NeedsReload(after[v], s.config) <==>
      v in FailedOf(plan.reloaded, s.loads)
  {
    var after, reloaded := After(view, s, plan), Reloaded(view, plan.reloaded, s.config, s.loads);
    assert AfterStarts(view, s, plan) == view;
    if v in FailedOf(plan.reloaded, s.loads) {
      assert v !in plan.retired;
      assert after[v] == Attempted(s.config, v, false);
    } else if v in requested && v in after && v !in s.blocked {
      assert v in Wanted(reloaded, last, s.blocked);
      assert after[v] == reloaded[v];
    }
  }

  /** A call that reloads only what fails again, with the same last selection, leaves everything as it is. */
  lemma LeavesAsItIs(view: View, s: Setting, requested: set<Version>, last: set<Version>, plan: Plan, again: Plan,
                     v: Version)
    requires Revisits(view, s, requested, last, plan)
    requires Revisits(After(view, s, plan), s, requested, last, again)
    requires forall u: Version :: u in again.reloaded <==> u in FailedOf(plan.reloaded, s.loads)
    requires v in view
    ensures v in After(view, s, plan) && v in After(After(view, s, plan), s, again)
    ensures After(After(view, s, plan), s, again)[v] == After(view, s, plan)[v] && v !in again.retired
  {
    var after, reloaded := After(view, s, plan), Reloaded(view, plan.reloaded, s.config, s.loads);
    assert AfterStarts(view, s, plan) == view && AfterStarts(after, s, again) == after;
    assert FailedOf(again.reloaded, s.loads) == FailedOf(plan.reloaded, s.loads);
    var againReloaded := Reloaded(after, again.reloaded, s.config, s.loads);
    assert againReloaded[v] == after[v];
    assert v in Wanted(reloaded, last, s.blocked) <==> v in Wanted(againReloaded, last, s.blocked);
    assert v !in again.retired;
  }

  /**
   * From the second call on nothing changes any more: whatever the model was, in whatever order the
   * directory is listed and whatever failed, a third equal call leaves every version as it is.
   */
  lemma SecondCallIsFinal(view: View, available: seq<Version>, s: Setting, first: Plan, second: Plan, third: Plan)
    requires NoDuplicates(available) && FollowsSteps(view, available, s, first)
    requires FollowsSteps(After(view, s, first), available, s, second)
    requires FollowsSteps(After(After(view, s, first), s, second), available, s, third)
    ensures After(After(After(view, s, first), s, second), s, third) == After(After(view, s, first), s, second)
    ensures third.started == [] && third.retired == [] && FailedOf(third.reloaded, s.loads) == Elems(third.reloaded)
  {
    var before := After(view, s, first);
    FirstSelectionRegistered(view, available, s, first);
    NothingToStartAgain(before, available, s, second);
    NothingToStartAgain(After(before, s, second), available, s, third);
    SameAgain(before, available, s, second, third);
  }

  ghost function LastAfter(available: seq<Version>, s: Setting, plan: Plan): set<Version> {
    Selected(s.policy, Elems(EraseAll(available, FailedIn(plan.reloaded, s.loads))))
  }

  lemma SameAgain(view: View, available: seq<Version>, s: Setting, plan: Plan, again: Plan)
    requires NoDuplicates(available)
    requires Revisits(view, s, Selected(s.policy, Elems(available)), LastAfter(available, s, plan), plan)
    requires Revisits(After(view, s, plan), s, Selected(s.policy, Elems(available)), LastAfter(available, s, again),
                      again)
    ensures After(After(view, s, plan), s, again) == After(view, s, plan)
    ensures again.retired == [] && FailedOf(again.reloaded, s.loads) == Elems(again.reloaded)
  {
    var requested, last := Selected(s.policy, Elems(available)), LastAfter(available, s, plan);
    forall v: Version ensures v in again.reloaded <==> v in FailedOf(plan.reloaded, s.loads) {
      LoadedStaysSelected(available, s, plan, v);
      ReloadedAgain(view, s, requested, last, plan, v);
    }
    SameFailures(plan.reloaded, again.reloaded, s.loads);
    NothingChanges(view, s, requested, last, plan, again);
  }

  lemma LoadedStaysSelected(available: seq<Version>, s: Setting, plan: Plan, v: Version)
    requires NoDuplicates(available)
    ensures v in Selected(s.policy, Elems(available)) && v !in FailedOf(plan.reloaded, s.loads) ==>
              v in LastAfter(available, s, plan)
  {
    var failed := FailedIn(plan.reloaded, s.loads);
    EraseAllFacts(available, failed);
    KeepFailed(plan.reloaded, s.loads);
    if v in Selected(s.policy, Elems(available)) && v !in FailedOf(plan.reloaded, s.loads) {
      SelectedKept(s.policy, Elems(available), Elems(EraseAll(available, failed)), v);
    }
  }

  lemma NothingChanges(view: View, s: Setting, requested: set<Version>, last: set<Version>, plan: Plan, again: Plan)
    requires Revisits(view, s, requested, last, plan)
    requires Revisits(After(view, s, plan), s, requested, last, again)
    requires forall u: Version :: u in again.reloaded <==> u in FailedOf(plan.reloaded, s.loads)
    ensures After(After(view, s, plan), s, again) == After(view, s, plan) && again.retired == []
  {
    var after := After(view, s, plan);
    assert AfterStarts(view, s, plan) == view && AfterStarts(after, s, again) == after;
    forall v: Version | v in view
      ensures v in after && v in After(after, s, again)
      ensures After(after, s, again)[v] == after[v] && v !in again.retired
    {
      LeavesAsItIs(view, s, requested, last, plan, again, v);
    }
    assert forall v: Version :: v in again.retired ==> v in view;
    EmptyExactly(again.retired);
  }

  /** The states of a model over repeated calls on a directory. */
  ghost predicate Polls(views: seq<View>, available: seq<Version>, s: Setting, plans: seq<Plan>) {
    && |views| == |plans| + 1
    && forall k :: 0 <= k < |plans| ==>
         FollowsSteps(views[k], available, s, plans[k]) && views[k + 1] == After(views[k], s, plans[k])
  }

  lemma PollIsCall(views: seq<View>, available: seq<Version>, s: Setting, plans: seq<Plan>, k: nat)
    requires Polls(views, available, s, plans) && k < |plans|
    ensures FollowsSteps(views[k], available, s, plans[k]) && views[k + 1] == After(views[k], s, plans[k])
  {}

  lemma {:induction false} SecondPollIsFinal(views: seq<View>, available: seq<Version>, s: Setting, plans: seq<Plan>,
                                             i: nat)
    requires NoDuplicates(available) && Polls(views, available, s, plans) && 2 <= i < |views|
    ensures views[i] == views[2]
  {
    if i > 2 {
      SecondPollIsFinal(views, available, s, plans, i - 1);
      PollIsCall(views, available, s, plans, i - 3);
      PollIsCall(views, available, s, plans, i - 2);
      PollIsCall(views, available, s, plans, i - 1);
      SecondCallIsFinal(views[i - 3], available, s, plans[i - 3], plans[i - 2], plans[i - 1]);
    }
  }

  lemma SameFailures(reloaded: seq<Version>, again: seq<Version>, loads: Version -> bool)
    requires Ascending(reloaded) && Ascending(again)
    requires forall v: Version :: v in again <==> v in FailedOf(reloaded, loads)
    ensures FailedIn(again, loads) == FailedIn(reloaded, loads) == again && FailedOf(again, loads) == Elems(again)
  {
    KeepFailed(reloaded, loads);
    KeepAscends(reloaded, Fails(loads));
    assert forall v: Version :: v in FailedIn(reloaded, loads) <==> v in Elems(FailedIn(reloaded, loads));
    AscendingUnique(again, FailedIn(reloaded, loads));
    KeepAll(again, Fails(loads));
  }

  // ---- Two calls on a new model ----

  /** The versions that a second call loads again in vain: selected of the directory and not blacklisted. */
  ghost function FailedSelected(available: set<Version>, s: Setting): set<Version> {
    set v | v in Selected(s.policy, available) && !s.loads(v) && v !in s.blocked
  }

  /** What the first call leaves: the versions it tried, those that load available, the others failed. */
  lemma AfterFirstCall(available: set<Version>, s: Setting, plan: Plan, v: Version)
    requires Follows(map[], available, s, plan)
    ensures
      var after := After(map[], s, plan);
      && (v in after <==> Tried(map[], available, s, v))
      && (v in after && s.loads(v) && v !in s.blocked ==> Up(after, v) && !NeedsReload(after[v], s.config))
      && (v in after && !s.loads(v) ==> after[v].status.IsFailedLoading())
  {
    OnlyGoalServed(map[], available, s, plan);
    VersionAfterReloads(map[], available, s, plan, v);
    if Tried(map[], available, s, v) && s.loads(v) && v !in s.blocked {
      LoadedInGoal(available, s, v);
      GoalUntouched(map[], available, s, plan, v);
    }
  }

  lemma LoadedInGoal(available: set<Version>, s: Setting, v: Version)
    requires Tried(map[], available, s, v) && s.loads(v) && v !in s.blocked
    ensures v in Goal(map[], available, s)
  {
    assert Usable(map[], available, s) + {v} == Usable(map[], available, s);
    assert FailedReloads(map[], available, s) == {};
    LastIsFirst(map[], available, s);
  }

  lemma TriedAgain(available: set<Version>, s: Setting, plan: Plan)
    requires Follows(map[], available, s, plan)
    ensures
      var after := After(map[], s, plan);
      && (forall v: Version :: v in after <==> Tried(map[], available, s, v))
      && (forall v: Version :: v in after && !s.loads(v) ==> NeedsReload(after[v], s.config))
  {
    var after := After(map[], s, plan);
    forall v: Version
      ensures (v in after <==> Tried(map[], available, s, v)) &&
              (v in after && !s.loads(v) ==> NeedsReload(after[v], s.config))
    {
      AfterFirstCall(available, s, plan, v);
    }
  }

  /** A second equal call chooses first what is selected of the whole directory. */
  lemma SecondChoice(available: set<Version>, s: Setting, after: View)
    requires forall v: Version :: v in after <==> Tried(map[], available, s, v)
    ensures FirstChoice(after, available, s) == Selected(s.policy, available)
  {
    forall v: Version | v in Selected(s.policy, available) ensures v in Usable(after, available, s) {
      SelectedKept(s.policy, available, Usable(map[], available, s) + {v}, v);
    }
    SelectedWithin(s.policy, available, Usable(after, available, s));
  }

  /** No start fails in it, and exactly the selected versions that failed before fail again. */
  lemma SecondFailures(available: set<Version>, s: Setting, after: View)
    requires forall v: Version :: v in after <==> Tried(map[], available, s, v)
    requires forall v: Version :: v in after && !s.loads(v) ==> NeedsReload(after[v], s.config)
    ensures AllFailed(after, available, s) == FailedSelected(available, s)
  {
    SecondChoice(available, s, after);
    forall v: Version | v in available && v !in after && !s.loads(v) ensures !Tried(after, available, s, v) {
      var usable := Usable(after, available, s);
      if v in Selected(s.policy, usable + {v}) {
        SelectedKept(s.policy, usable + {v}, Usable(map[], available, s) + {v}, v);
      }
    }
    forall v: Version | v in FailedSelected(available, s) ensures v in after {
      assert v in Usable(after, available, s);
    }
  }

  /**
   * A second equal call on the same directory serves, of what the first call served, what is also
   * selected of the directory without the selected versions that failed.
   */
  lemma SecondCallServes(available: set<Version>, s: Setting, first: Plan, second: Plan)
    requires Follows(map[], available, s, first) && Follows(After(map[], s, first), available, s, second)
    ensures forall v: Version ::
              Up(After(After(map[], s, first), s, second), v) <==>
              v in Selected(s.policy, Loadable(available, s)) - s.blocked &&
              v in Selected(s.policy, available - FailedSelected(available, s))
  {
    var after := After(map[], s, first);
    TriedAgain(available, s, first);
    SecondChoice(available, s, after);
    SecondFailures(available, s, after);
    StaysSettled(map[], s, first);
    ServedExactly(after, available, s, second);
    FallsBack(available, s, first);
    forall v: Version | v in Selected(s.policy, available) && v in Goal(after, available, s)
      ensures v in Selected(s.policy, Loadable(available, s)) - s.blocked
    {
      SelectedIsTried(available, s, after, v);
      assert v !in FailedSelected(available, s);
      SelectedKept(s.policy, available, Loadable(available, s), v);
    }
  }

  lemma SelectedIsTried(available: set<Version>, s: Setting, after: View, v: Version)
    requires forall u: Version :: u in after <==> Tried(map[], available, s, u)
    requires v in Selected(s.policy, available)
    ensures v in after
  {
    SelectedKept(s.policy, available, Usable(map[], available, s) + {v}, v);
  }

  /** So everything stays served exactly if the second selection includes it. */
  lemma StaysServedExactly(available: set<Version>, s: Setting, first: Plan, second: Plan)
    requires Follows(map[], available, s, first) && Follows(After(map[], s, first), available, s, second)
    ensures
      (forall v: Version :: Up(After(map[], s, first), v) ==> Up(After(After(map[], s, first), s, second), v)) <==>
      Selected(s.policy, Loadable(available, s)) - s.blocked
      <= Selected(s.policy, available - FailedSelected(available, s))
  {
    FallsBack(available, s, first);
    SecondCallServes(available, s, first, second);
  }

  /**
   * With latest(1): the served version survives a second call exactly if at most one version is
   * greater, which is not blacklisted.
   */
  lemma LatestOneStaysServedExactly(available: set<Version>, s: Setting, first: Plan, second: Plan, g: Version)
    requires s.policy == Latest(1) && Follows(map[], available, s, first)
    requires Follows(After(map[], s, first), available, s, second) && Up(After(map[], s, first), g)
    ensures Up(After(After(map[], s, first), s, second), g) <==>
            |Greater(available, g)| <= 1 && Greater(available, g) !! s.blocked
  {
    FallsBack(available, s, first);
    SecondCallServes(available, s, first, second);
    var left := available - FailedSelected(available, s);
    assert g in left && Greater(left, g) <= Greater(available, g);
    assert Greater(Loadable(available, s), g) == {};
    forall v: Version | v in Greater(available, g) ensures !s.loads(v) {
      assert v !in Greater(Loadable(available, s), g);
    }
    OneSelected(available, s, g);
  }

  lemma OneSelected(available: set<Version>, s: Setting, g: Version)
    requires s.policy == Latest(1) && g in available && s.loads(g)
    requires forall v: Version :: v in Greater(available, g) ==> !s.loads(v)
    ensures
      |Greater(available - FailedSelected(available, s), g)| < 1 <==>
      |Greater(available, g)| <= 1 && Greater(available, g) !! s.blocked
  {
    var above, left := Greater(available, g), available - FailedSelected(available, s);
    LatestAreGreatest(1, available);
    if above == {} {
      assert Greater(left, g) == {};
    } else {
      var top: Version :| top in Selected(s.policy, available);
      TopIsAbove(available, g, top);
      assert forall v: Version :: v in Selected(s.policy, available) ==> v == top;
      assert Greater(left, g) == if top in s.blocked then above else above - {top};
      assert |above - {top}| == |above| - 1;
      assert |above| == 1 ==> forall v: Version :: v in above ==> v == top || v in above - {top};
    }
  }

  /** The only version that latest(1) selects is greater than one that has a greater one. */
  lemma TopIsAbove(available: set<Version>, g: Version, top: Version)
    requires g in available && Greater(available, g) != {} && top in Selected(Latest(1), available)
    ensures top in Greater(available, g)
    ensures forall v: Version :: v in Selected(Latest(1), available) ==> v == top
  {
    assert Greater(available, top) == {};
    var v: Version :| v in Greater(available, g);
    assert v !in Greater(available, top);
    forall u: Version | u in Selected(Latest(1), available) ensures u == top {
      assert Greater(available, u) == {};
      assert u !in Greater(available, top) && top !in Greater(available, u);
    }
  }

  // ---- A failed reload is not replaced ----

  /** One version is served and its configuration changed, or it failed already. */
  ghost predicate Stuck(view: View, v: Version, s: Setting) {
    view.Keys == {v} && NeedsReload(view[v], s.config)
  }

  /**
   * latest(1), versions u < v available in any order, only v registered: if v cannot be loaded any more
   * while u can, no version is served after the call, and the model is stuck again.
   */
  lemma FailedReloadIsNotReplaced(view: View, available: seq<Version>, u: Version, v: Version, s: Setting, plan: Plan)
    requires u < v && s.policy == Latest(1) && s.blocked == {} && s.loads(u) && !s.loads(v)
    requires NoDuplicates(available) && Elems(available) == {u, v}
    requires Stuck(view, v, s) && FollowsSteps(view, available, s, plan)
    ensures Stuck(After(view, s, plan), v, s) && forall w: Version :: !Up(After(view, s, plan), w)
    ensures u in Loadable({u, v}, s)
  {
    GreaterOfTwo(u, v);
    NothingToStartAgain(view, available, s, plan);
    OnlyReloaded(view, v, s, LastAfter(available, s, plan), plan);
  }

  lemma GreaterOfTwo(u: Version, v: Version)
    requires u < v
    ensures Selected(Latest(1), {u, v}) == {v}
  {
    assert Greater({u, v}, u) == {v} && Greater({u, v}, v) == {};
  }

  lemma OnlyReloaded(view: View, v: Version, s: Setting, last: set<Version>, plan: Plan)
    requires Stuck(view, v, s) && s.blocked == {} && !s.loads(v) && Revisits(view, s, {v}, last, plan)
    ensures Stuck(After(view, s, plan), v, s) && forall w: Version :: !Up(After(view, s, plan), w)
  {
    assert AfterStarts(view, s, plan) == view;
    assert v in plan.reloaded && v in FailedOf(plan.reloaded, s.loads);
    assert v !in plan.retired;
    assert After(view, s, plan)[v] == Attempted(s.config, v, false);
  }

  /** So no number of calls brings the loadable version up. */
  lemma {:induction false} NeverReplaced(views: seq<View>, available: seq<Version>, u: Version, v: Version, s: Setting,
                                         plans: seq<Plan>)
    requires u < v && s.policy == Latest(1) && s.blocked == {} && s.loads(u) && !s.loads(v)
    requires NoDuplicates(available) && Elems(available) == {u, v}
    requires Polls(views, available, s, plans) && Stuck(views[0], v, s) && |plans| > 0
    ensures forall w: Version :: !Up(views[|plans|], w)
    ensures Stuck(views[|plans|], v, s)
    decreases |plans|
  {
    var n := |plans| - 1;
    if n > 0 {
      NeverReplaced(views[..n + 1], available, u, v, s, plans[..n]);
    }
    FailedReloadIsNotReplaced(views[n], available, u, v, s, plans[n]);
  }
}
