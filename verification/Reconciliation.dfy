/** What one reconciliation achieves when the available versions are in ascending order. */
module Reconciliation {
  import opened Models = Model
  import opened ReconciliationSteps
  import opened VersionChange
  import opened VersionPolicy
  import opened VersionSearch
  import opened Versions
  import opened VersionStatus

  // ---- The outcome of a call, from the model, the directory and the outcomes of loading ----

  /** The available versions that are registered or can be loaded. */
  ghost function Usable(view: View, available: set<Version>, s: Setting): set<Version> {
    set v | v in available && (v in view || s.loads(v))
  }

  /** What is selected when the start loop ends. */
  ghost function FirstChoice(view: View, available: set<Version>, s: Setting): set<Version> {
    Selected(s.policy, Usable(view, available, s))
  }

  /** The start loop tries a new version exactly if it would be selected beside the usable ones. */
  ghost predicate Tried(view: View, available: set<Version>, s: Setting, v: Version) {
    v in available && v !in view && v in Selected(s.policy, Usable(view, available, s) + {v})
  }

  ghost function FailedStarts(view: View, available: set<Version>, s: Setting): set<Version> {
    set v | v in available && Tried(view, available, s, v) && !s.loads(v)
  }

  ghost predicate Reloads(view: View, available: set<Version>, s: Setting, v: Version) {
    v in FirstChoice(view, available, s) && v in view && v !in s.blocked && NeedsReload(view[v], s.config)
  }

  ghost function FailedReloads(view: View, available: set<Version>, s: Setting): set<Version> {
    set v | v in available && Reloads(view, available, s, v) && !s.loads(v)
  }

  ghost function AllFailed(view: View, available: set<Version>, s: Setting): set<Version> {
    FailedStarts(view, available, s) + FailedReloads(view, available, s)
  }

  /** What is selected once every failed version is out. */
  ghost function LastChoice(view: View, available: set<Version>, s: Setting): set<Version> {
    Selected(s.policy, available - AllFailed(view, available, s))
  }

  /** What the model should serve: the last choice without what the loader keeps out. */
  ghost function Goal(view: View, available: set<Version>, s: Setting): set<Version> {
    set v | v in LastChoice(view, available, s) &&
            !(v in s.blocked && (v in view || v in FirstChoice(view, available, s)))
  }

  /** What a call starts, reloads, retires and cleans up. */
  ghost predicate Follows(view: View, available: set<Version>, s: Setting, plan: Plan) {
    && (forall v: Version :: v in plan.started <==> Tried(view, available, s, v))
    && (forall v: Version :: v in plan.reloaded <==> Reloads(view, available, s, v))
    && (forall v: Version :: v in plan.retired <==> Retires(view, available, s, plan, v))
    && (forall v: Version :: v in plan.cleaned <==> v in AllFailed(view, available, s))
  }

  ghost predicate Retires(view: View, available: set<Version>, s: Setting, plan: Plan, v: Version) {
    var after := AfterReloads(view, s, plan);
    && v in after && !after[v].status.WillEndUnloaded()
    && v !in Goal(view, available, s) && v !in AllFailed(view, available, s)
  }

  // ---- The steps of a call on an ascending list lead to this outcome ----

  lemma AscendingFollows(view: View, available: seq<Version>, s: Setting, plan: Plan)
    requires Ascending(available) && FollowsSteps(view, available, s, plan)
    ensures Follows(view, Elems(available), s, plan)
  {
    RoundsDone(view, s, available);
    StartsFollow(view, available, s, plan);
    ReloadsFollow(view, available, s, plan);
    FailuresFollow(view, available, s, plan);
    LastRoundStarted(view, s, available);
    LeftFollows(view, available, s, plan);
    SplitFollows(view, Elems(available), s, plan);
  }

  lemma LeftExactly(available: seq<Version>, gone: seq<Version>)
    requires Ascending(available)
    ensures Elems(EraseAll(available, gone)) == Elems(available) - Elems(gone)
    ensures Ascending(EraseAll(available, gone))
  {
    EraseAllFacts(available, gone);
  }

  lemma StartsFollow(view: View, available: seq<Version>, s: Setting, plan: Plan)
    requires Ascending(available) && plan.started == Flat(Rounds(view, s, available))
    requires LoopDone(view, s, available, plan.started, LeftAfterStarts(available, s, plan))
    ensures FirstSelected(available, s, plan) == FirstChoice(view, Elems(available), s)
    ensures forall v: Version :: v in plan.started <==> Tried(view, Elems(available), s, v)
  {
    var left, usable := Elems(LeftAfterStarts(available, s, plan)), Usable(view, Elems(available), s);
    LeftExactly(available, FailedIn(plan.started, s.loads));
    KeepFailed(plan.started, s.loads);
    assert left == Elems(available) - FailedOf(plan.started, s.loads);
    SelectedWithin(s.policy, left, usable);
    forall v: Version | v in plan.started ensures Tried(view, Elems(available), s, v) {
      StartedWasSelected(view, s, available, usable, v);
    }
    forall v: Version | Tried(view, Elems(available), s, v) ensures v in plan.started {
      if v !in plan.started {
        SelectedWithin(s.policy, left, usable + {v});
      }
    }
  }

  lemma ReloadsFollow(view: View, available: seq<Version>, s: Setting, plan: Plan)
    requires FirstSelected(available, s, plan) == FirstChoice(view, Elems(available), s)
    requires forall v: Version :: v in plan.started <==> Tried(view, Elems(available), s, v)
    requires ReloadListExact(AfterStarts(view, s, plan), s, FirstSelected(available, s, plan), plan.reloaded)
    ensures forall v: Version :: v in plan.reloaded <==> Reloads(view, Elems(available), s, v)
  {
    var afterStarts := AfterStarts(view, s, plan);
    forall v: Version | v in FirstChoice(view, Elems(available), s) && v !in view
      ensures v in afterStarts && !NeedsReload(afterStarts[v], s.config)
    {
      assert s.loads(v);
    }
  }

  lemma FailuresFollow(view: View, available: seq<Version>, s: Setting, plan: Plan)
    requires forall v: Version :: v in plan.started <==> Tried(view, Elems(available), s, v)
    requires forall v: Version :: v in plan.reloaded <==> Reloads(view, Elems(available), s, v)
    ensures FailedOf(plan.started, s.loads) == FailedStarts(view, Elems(available), s)
    ensures FailedOf(plan.reloaded, s.loads) == FailedReloads(view, Elems(available), s)
  {
    assert forall v: Version :: v in FirstChoice(view, Elems(available), s) ==> v in available;
  }

  lemma LeftFollows(view: View, available: seq<Version>, s: Setting, plan: Plan)
    requires Ascending(available) && Failed(s, plan) == AllFailed(view, Elems(available), s)
    requires forall v: Version :: v in plan.lastRound ==> v in plan.started
    ensures LastSelected(available, s, plan) == LastChoice(view, Elems(available), s)
  {
    var again := FailedIn(plan.lastRound, s.loads) + FailedIn(plan.reloaded, s.loads);
    LeftExactly(available, FailedIn(plan.started, s.loads));
    LeftExactly(LeftAfterStarts(available, s, plan), again);
    KeepFailed(plan.started, s.loads);
    KeepFailed(plan.lastRound, s.loads);
    KeepFailed(plan.reloaded, s.loads);
    assert Elems(again) == FailedOf(plan.lastRound, s.loads) + FailedOf(plan.reloaded, s.loads);
    assert Elems(LeftAtEnd(available, s, plan)) == Elems(available) - Failed(s, plan);
  }

  /** A version that is started and stays selected is in the first choice. */
  lemma StartedInGoal(view: View, available: set<Version>, s: Setting, v: Version)
    requires Tried(view, available, s, v) && v in LastChoice(view, available, s)
    ensures s.loads(v) && v in FirstChoice(view, available, s)
  {
    assert v !in FailedStarts(view, available, s);
    assert Usable(view, available, s) + {v} == Usable(view, available, s);
  }

  lemma SplitFollows(view: View, available: set<Version>, s: Setting, plan: Plan)
    requires forall v: Version :: v in plan.started <==> Tried(view, available, s, v)
    requires forall v: Version :: v in plan.reloaded <==> Reloads(view, available, s, v)
    requires Failed(s, plan) == AllFailed(view, available, s)
    requires SplitExactly(AfterReloads(view, s, plan), s, LastChoice(view, available, s), Failed(s, plan),
                          plan.retired, plan.cleaned)
    requires forall v: Version :: v in FirstChoice(view, available, s) ==> v in AfterStarts(view, s, plan)
    ensures forall v: Version :: v in plan.retired <==> Retires(view, available, s, plan, v)
    ensures forall v: Version :: v in plan.cleaned <==> v in AllFailed(view, available, s)
  {
    var after := AfterReloads(view, s, plan);
    forall v: Version | v in after
      ensures v in Wanted(after, LastChoice(view, available, s), s.blocked) <==> v in Goal(view, available, s)
    {
      if v in LastChoice(view, available, s) && v !in view {
        StartedInGoal(view, available, s, v);
      }
    }
    forall v: Version | v in AllFailed(view, available, s)
      ensures v in Gone(after, s, LastChoice(view, available, s))
    {
      assert v !in LastChoice(view, available, s);
      assert after[v].status.IsFailedLoading();
    }
  }

  /** The model, the available versions and the outcomes of loading determine what a call leaves. */
  lemma OutcomeUnique(view: View, available: set<Version>, s: Setting, p: Plan, q: Plan)
    requires Follows(view, available, s, p) && Follows(view, available, s, q)
    ensures After(view, s, p) == After(view, s, q)
  {
    assert Elems(p.started) == Elems(q.started);
    assert AfterStarts(view, s, p) == AfterStarts(view, s, q);
    assert AfterReloads(view, s, p) == AfterReloads(view, s, q);
  }

  // ---- What a call leaves behind ----

  lemma VersionAfterReloads(view: View, available: set<Version>, s: Setting, plan: Plan, v: Version)
    requires forall v: Version :: v in plan.started <==> Tried(view, available, s, v)
    requires forall v: Version :: v in plan.reloaded <==> Reloads(view, available, s, v)
    ensures
      var after := AfterReloads(view, s, plan);
      && (v in after <==> v in view || Tried(view, available, s, v))
      && (v in after ==> after[v] == if Tried(view, available, s, v) || Reloads(view, available, s, v)
                                     then Attempted(s.config, v, s.loads(v)) else view[v])
  {}

  /** Between two calls no version is on its way: each is served, ended or failed to load. */
  ghost predicate Settled(view: View) {
    forall v: Version :: v in view ==>
      view[v].Available() || view[v].status.state == END || view[v].status.IsFailedLoading()
  }

  lemma FirstChoiceRegistered(view: View, available: set<Version>, s: Setting, plan: Plan, v: Version)
    requires Follows(view, available, s, plan) && v in FirstChoice(view, available, s) && v !in view
    ensures v in plan.started && s.loads(v)
  {
    assert Usable(view, available, s) + {v} == Usable(view, available, s);
    assert Tried(view, available, s, v);
  }

  /**
   * No version outside the goal is served, every failed version is marked so that the next
   * call can see it, and no version of the goal was retired.
   */
  lemma OnlyGoalServed(view: View, available: set<Version>, s: Setting, plan: Plan)
    requires Follows(view, available, s, plan)
    ensures
      var after := After(view, s, plan);
      && (forall v: Version :: Up(after, v) ==> v in Goal(view, available, s))
      && (forall v: Version :: v in AllFailed(view, available, s) ==> v in after && after[v].status.IsFailedLoading())
      && (forall v: Version :: v in plan.retired ==> v in after && after[v].status.state == END)
      && (forall v: Version :: v in plan.retired || v in plan.cleaned ==> v !in Goal(view, available, s))
  {
    forall v: Version
      ensures VersionLeft(view, available, s, plan, v)
    {
      LeavesVersion(view, available, s, plan, v);
    }
    assert forall v: Version :: VersionLeft(view, available, s, plan, v);
  }

  /** What OnlyGoalServed says about one version. */
  ghost predicate VersionLeft(view: View, available: set<Version>, s: Setting, plan: Plan, v: Version) {
    var after := After(view, s, plan);
    && (Up(after, v) ==> v in Goal(view, available, s))
    && (v in AllFailed(view, available, s) ==> v in after && after[v].status.IsFailedLoading())
    && (v in plan.retired ==> v in after && after[v].status.state == END)
    && (v in plan.retired || v in plan.cleaned ==> v !in Goal(view, available, s))
  }

  lemma LeavesVersion(view: View, available: set<Version>, s: Setting, plan: Plan, v: Version)
    requires Follows(view, available, s, plan)
    ensures VersionLeft(view, available, s, plan, v)
  {
    VersionAfterReloads(view, available, s, plan, v);
    if v in AllFailed(view, available, s) {
      assert v !in LastChoice(view, available, s);
      assert v in plan.cleaned;
    }
  }

  /** Exactly these versions are served: of the goal, what was chosen first and what was served before. */
  lemma ServedExactly(view: View, available: set<Version>, s: Setting, plan: Plan)
    requires Follows(view, available, s, plan) && Settled(view)
    ensures forall v: Version ::
              Up(After(view, s, plan), v) <==>
              v in Goal(view, available, s) && (v in FirstChoice(view, available, s) || Up(view, v))
  {
    OnlyGoalServed(view, available, s, plan);
    forall v: Version | v in Goal(view, available, s)
      ensures Up(After(view, s, plan), v) <==> v in FirstChoice(view, available, s) || Up(view, v)
    {
      GoalVersionServed(view, available, s, plan, v);
    }
  }

  lemma GoalVersionServed(view: View, available: set<Version>, s: Setting, plan: Plan, v: Version)
    requires Follows(view, available, s, plan) && Settled(view) && v in Goal(view, available, s)
    ensures Up(After(view, s, plan), v) <==> v in FirstChoice(view, available, s) || Up(view, v)
  {
    GoalUntouched(view, available, s, plan, v);
    if v in FirstChoice(view, available, s) {
      if v !in view {
        FirstChoiceRegistered(view, available, s, plan, v);
      }
    } else if v !in view && v in plan.started {
      StartedInGoal(view, available, s, v);
    }
  }

  lemma GoalUntouched(view: View, available: set<Version>, s: Setting, plan: Plan, v: Version)
    requires Follows(view, available, s, plan) && v in Goal(view, available, s)
    ensures v !in AllFailed(view, available, s) && v !in plan.retired && v !in plan.cleaned
    ensures v in plan.reloaded ==> s.loads(v)
    ensures
      var before, after := AfterReloads(view, s, plan), After(view, s, plan);
      (v in after <==> v in before) && (v in after ==> after[v] == before[v])
  {}

  /**
   * Every version of the goal is served exactly if those that came into the goal by a failed
   * reload were served already: nothing is started or reloaded after the reloads.
   */
  lemma GoalServedExactly(view: View, available: set<Version>, s: Setting, plan: Plan)
    requires Follows(view, available, s, plan) && Settled(view)
    ensures
      (forall v: Version :: v in Goal(view, available, s) ==> Up(After(view, s, plan), v)) <==>
      (forall v: Version :: v in Goal(view, available, s) - FirstChoice(view, available, s) ==> Up(view, v))
  {
    ServedExactly(view, available, s, plan);
  }

  /** Without a failed reload the last choice is the first one. */
  lemma LastIsFirst(view: View, available: set<Version>, s: Setting)
    requires FailedReloads(view, available, s) == {}
    ensures LastChoice(view, available, s) == FirstChoice(view, available, s)
  {
    var left, usable := available - AllFailed(view, available, s), Usable(view, available, s);
    forall v: Version | v in Selected(s.policy, left) ensures v in usable {
      if v !in usable {
        SelectedKept(s.policy, left, usable + {v}, v);
      }
    }
    assert usable <= left;
    SelectedWithin(s.policy, left, usable);
  }

  /** If every reload succeeds, exactly the first choice is served, without what the loader keeps out. */
  lemma GoalReached(view: View, available: set<Version>, s: Setting, plan: Plan)
    requires Follows(view, available, s, plan) && Settled(view)
    requires FailedReloads(view, available, s) == {}
    ensures forall v: Version ::
              Up(After(view, s, plan), v) <==> v in FirstChoice(view, available, s) && v !in s.blocked
  {
    LastIsFirst(view, available, s);
    ServedExactly(view, available, s, plan);
  }

  /** Whatever a call starts, reloads, retires and cleans up. */
  lemma StaysSettled(view: View, s: Setting, plan: Plan)
    requires Settled(view)
    ensures Settled(After(view, s, plan))
  {
    var after, reloaded := After(view, s, plan), AfterReloads(view, s, plan);
    forall v: Version | v in after
      ensures after[v].Available() || after[v].status.state == END || after[v].status.IsFailedLoading()
    {
      assert reloaded[v].Available() || reloaded[v].status.state == END || reloaded[v].status.IsFailedLoading();
    }
  }

  // ---- Fallback ----

  ghost function Loadable(available: set<Version>, s: Setting): set<Version> {
    set v | v in available && s.loads(v)
  }

  /** On a model without versions the call serves exactly what the policy selects of the loadable versions. */
  lemma FallsBack(available: set<Version>, s: Setting, plan: Plan)
    requires Follows(map[], available, s, plan)
    ensures forall v: Version ::
              Up(After(map[], s, plan), v) <==> v in Selected(s.policy, Loadable(available, s)) && v !in s.blocked
  {
    assert Usable(map[], available, s) == Loadable(available, s);
    assert FailedReloads(map[], available, s) == {};
    GoalReached(map[], available, s, plan);
  }

  /** latest(k) on a model without versions: the k greatest loadable versions, or all if there are fewer. */
  lemma FallsBackToGreatest(available: set<Version>, s: Setting, plan: Plan, served: set<Version>)
    requires Follows(map[], available, s, plan) && s.policy.Latest? && s.blocked == {}
    requires forall v: Version :: v in served <==> Up(After(map[], s, plan), v)
    ensures
      var loadable := Loadable(available, s);
      && served <= loadable
      && |served| == (if |loadable| < s.policy.numVersions then |loadable| else s.policy.numVersions)
      && (forall u, v :: u in served && v in loadable - served ==> v < u)
  {
    FallsBack(available, s, plan);
    LatestAreGreatest(s.policy.numVersions, Loadable(available, s));
    assert served == Selected(s.policy, Loadable(available, s));
  }
}
