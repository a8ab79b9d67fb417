/** Which default version a call leaves, and when it is the right one. */
module DefaultVersion {
  import opened Models = Model
  import opened ModelConfig
  import opened Reconciliation
  import opened ReconciliationSteps
  import opened RepeatedCalls
  import opened VersionChange
  import opened VersionPolicy
  import opened VersionSearch
  import opened Versions

  /** Every version fits in the int parameter of updateDefaultVersion. */
  ghost predicate Fits(versions: set<Version>) {
    forall v: Version :: v in versions ==> 0 < v < 0x8000_0000
  }

  /** What the starts left as default becomes this one by the reloads, the unloads and the cleanups. */
  ghost predicate DefaultAfterAll(view: View, before: Version, s: Setting, plan: Plan, d: Version) {
    if plan.retired != [] || plan.cleaned != [] then IsDefault(After(view, s, plan), NOTHING_IGNORED, d)
    else DefaultAfterReloads(before, AfterStarts(view, s, plan), plan.reloaded, s.config, s.loads, d)
  }

  /**
   * The default version after a call: computed at its last unload or cleanup; without one, at the
   * last reload that succeeded; without one, at the last start that succeeded; else the one before.
   */
  ghost predicate DefaultLeft(view: View, before: Version, s: Setting, plan: Plan, d: Version) {
    exists between: Version ::
      && Corrected(SomeLoads(plan.started, s.loads), before, AfterStarts(view, s, plan), between)
      && DefaultAfterAll(view, between, s, plan, d)
  }

  /** The greatest available version, or 0. */
  ghost function DefaultOf(view: View): (d: Version)
    ensures IsDefault(view, NOTHING_IGNORED, d)
  {
    var candidates := set v | v in view && Candidate(view, NOTHING_IGNORED, v);
    if candidates == {} then
      assert forall v: Version :: Candidate(view, NOTHING_IGNORED, v) ==> v in candidates;
      0
    else
      assert forall v: Version :: Candidate(view, NOTHING_IGNORED, v) ==> v in candidates;
      Maximum(candidates)
  }

  lemma OneDefault(view: View, d: Version)
    requires IsDefault(view, NOTHING_IGNORED, d)
    ensures d == DefaultOf(view)
  {}

  /** The model at the last reload that succeeded, or before the reloads. */
  function LastGoodView(view: View, s: Setting, plan: Plan): View {
    var started := AfterStarts(view, s, plan);
    Reloaded(started, UpToLast(plan.reloaded, LoadsIn(started.Keys, s.loads)), s.config, s.loads)
  }

  /**
   * If the default version was right before the call, it is right afterwards if and only if something
   * was unloaded or cleaned up, or the greatest available version at the last reload that succeeded
   * is not one whose reload failed afterwards.
   */
  lemma DefaultRightExactly(view: View, before: Version, s: Setting, plan: Plan, d: Version)
    requires IsDefault(view, NOTHING_IGNORED, before) && DefaultLeft(view, before, s, plan, d)
    requires Fits(AfterStarts(view, s, plan).Keys) && Registered(AfterStarts(view, s, plan), plan.reloaded)
    ensures IsDefault(After(view, s, plan), NOTHING_IGNORED, d) <==>
            plan.retired != [] || plan.cleaned != [] ||
            DefaultOf(LastGoodView(view, s, plan)) !in FailedOf(plan.reloaded, s.loads)
  {
    var started := AfterStarts(view, s, plan);
    var between: Version :|
      && Corrected(SomeLoads(plan.started, s.loads), before, started, between)
      && DefaultAfterAll(view, between, s, plan, d);
    if plan.retired == [] && plan.cleaned == [] {
      FailedStartsKeepDefault(view, plan.started, s.config, s.loads, before, between);
      NothingReloaded(started, s);
      OneDefault(LastGoodView(view, s, plan), d);
      RightAfterReloads(started, plan.reloaded, s, d);
      NothingUnloaded(AfterReloads(view, s, plan));
    }
  }

  lemma NothingReloaded(view: View, s: Setting)
    ensures Reloaded(view, [], s.config, s.loads) == view
  {}

  lemma NothingUnloaded(view: View)
    ensures CleanedUp(Retired(view, []), []) == view
  {}

  lemma {:induction false} UpToLastExactly(versions: seq<Version>, good: Version -> bool)
    ensures forall v: Version :: v in UpToLast(versions, good) ==> v in versions
    ensures forall v: Version :: v in versions && good(v) ==> v in UpToLast(versions, good)
  {
    if versions != [] && !good(versions[|versions| - 1]) {
      UpToLastExactly(versions[..|versions| - 1], good);
      assert versions == versions[..|versions| - 1] + [versions[|versions| - 1]];
    }
  }

  lemma RightAfterReloads(view: View, versions: seq<Version>, s: Setting, d: Version)
    requires Fits(view.Keys) && Registered(view, versions)
    requires IsDefault(Reloaded(view, UpToLast(versions, LoadsIn(view.Keys, s.loads)), s.config, s.loads),
                       NOTHING_IGNORED, d)
    ensures IsDefault(Reloaded(view, versions, s.config, s.loads), NOTHING_IGNORED, d) <==>
            d !in FailedOf(versions, s.loads)
  {
    var last := UpToLast(versions, LoadsIn(view.Keys, s.loads));
    var good, all := Reloaded(view, last, s.config, s.loads), Reloaded(view, versions, s.config, s.loads);
    UpToLastExactly(versions, LoadsIn(view.Keys, s.loads));
    forall v: Version
      ensures Candidate(all, NOTHING_IGNORED, v) <==>
              Candidate(good, NOTHING_IGNORED, v) && v !in FailedOf(versions, s.loads)
    {
      if v in versions && s.loads(v) {
        assert LoadsIn(view.Keys, s.loads)(v);
      }
    }
  }

  /** On an ascending list a failed reload is always cleaned up, so a right default stays right. */
  lemma DefaultKeptAscending(view: View, available: seq<Version>, s: Setting, plan: Plan, before: Version, d: Version)
    requires Ascending(available) && FollowsSteps(view, available, s, plan)
    requires Fits(AfterStarts(view, s, plan).Keys) && DefaultLeft(view, before, s, plan, d)
    ensures KeepsDefault(view, before, After(view, s, plan), d)
  {
    if IsDefault(view, NOTHING_IGNORED, before) {
      DefaultRightExactly(view, before, s, plan, d);
      AscendingFollows(view, available, s, plan);
      FailedReloadIsCleaned(view, Elems(available), s, plan);
    }
  }

  lemma FailedReloadIsCleaned(view: View, available: set<Version>, s: Setting, plan: Plan)
    requires Follows(view, available, s, plan)
    ensures FailedOf(plan.reloaded, s.loads) != {} ==> plan.cleaned != []
  {
    if FailedOf(plan.reloaded, s.loads) != {} {
      var v: Version :| v in FailedOf(plan.reloaded, s.loads);
      assert Reloads(view, available, s, v) && v in FailedReloads(view, available, s);
      assert v in plan.cleaned;
    }
  }

  // ---- A default left behind ----

  /** Both versions are available, and their configuration has changed. */
  ghost predicate BothOutdated(view: View, u: Version, v: Version, s: Setting) {
    && view.Keys == {u, v} && view[u].Available() && view[v].Available()
    && ReloadRequired(view[u].config, s.config) && ReloadRequired(view[v].config, s.config)
  }

  /**
   * With directories "10" and "9" and all versions wanted: 9 is reloaded while 10 is still available,
   * then the reload of 10 fails, and 10 is not found in the list, so nothing is cleaned up. Version 10
   * stays the default although only 9 is served.
   */
  lemma DefaultLeftBehind(view: View, u: Version, v: Version, s: Setting, plan: Plan, before: Version, d: Version)
    requires 0 < u < v < 0x8000_0000 && s.policy == All && s.blocked == {} && s.loads(u) && !s.loads(v)
    requires BothOutdated(view, u, v, s) && FollowsSteps(view, [v, u], s, plan)
    requires IsDefault(view, NOTHING_IGNORED, before) && DefaultLeft(view, before, s, plan, d)
    ensures d == v && (forall w: Version :: Up(After(view, s, plan), w) <==> w == u)
    ensures !IsDefault(After(view, s, plan), NOTHING_IGNORED, d)
  {
    BothRevisited(view, u, v, s, plan);
    PlanOfReloads(view, u, v, s, plan);
    NothingStarted(view, s, plan);
    LastGoodIsFirst(view, u, v, s);
    DefaultRightExactly(view, before, s, plan, d);
    LeftAtReload(view, s, plan, before, d);
    OneDefault(LastGoodView(view, s, plan), d);
    AfterBoth(view, u, v, s, plan);
  }

  lemma NothingStarted(view: View, s: Setting, plan: Plan)
    requires plan.started == []
    ensures AfterStarts(view, s, plan) == view && !SomeLoads(plan.started, s.loads)
  {}

  lemma LeftAtReload(view: View, s: Setting, plan: Plan, before: Version, d: Version)
    requires DefaultLeft(view, before, s, plan, d) && plan.retired == [] && plan.cleaned == []
    requires UpToLast(plan.reloaded, LoadsIn(AfterStarts(view, s, plan).Keys, s.loads)) != []
    ensures IsDefault(LastGoodView(view, s, plan), NOTHING_IGNORED, d)
  {}

  lemma LastGoodIsFirst(view: View, u: Version, v: Version, s: Setting)
    requires 0 < u < v && s.loads(u) && !s.loads(v) && BothOutdated(view, u, v, s)
    ensures UpToLast([u, v], LoadsIn(view.Keys, s.loads)) == [u]
    ensures DefaultOf(Reloaded(view, [u], s.config, s.loads)) == v
  {
    assert [u, v][..1] == [u];
    assert Candidate(Reloaded(view, [u], s.config, s.loads), NOTHING_IGNORED, v);
  }

  lemma AfterBoth(view: View, u: Version, v: Version, s: Setting, plan: Plan)
    requires view.Keys == {u, v} && plan == Plan([], [], [u, v], [], []) && s.loads(u) && !s.loads(v)
    ensures
      var after := After(view, s, plan);
      && after.Keys == {u, v}
      && after[u] == Attempted(s.config, u, true) && after[v] == Attempted(s.config, v, false)
  {}

  /** Another call with the same outcomes reloads 10 in vain and leaves the default as it is. */
  lemma StaysLeftBehind(view: View, u: Version, v: Version, s: Setting, plan: Plan, again: Plan,
                        before: Version, d: Version)
    requires 0 < u < v < 0x8000_0000 && s.policy == All && s.blocked == {} && s.loads(u) && !s.loads(v)
    requires BothOutdated(view, u, v, s) && FollowsSteps(view, [v, u], s, plan)
    requires FollowsSteps(After(view, s, plan), [v, u], s, again)
    requires DefaultLeft(After(view, s, plan), before, s, again, d)
    ensures d == before && After(After(view, s, plan), s, again) == After(view, s, plan)
  {
    var after := After(view, s, plan);
    BothRevisited(view, u, v, s, plan);
    PlanOfReloads(view, u, v, s, plan);
    AfterBoth(view, u, v, s, plan);
    BothRevisited(after, u, v, s, again);
    PlanOfAnother(after, u, v, s, again);
    LeftAsItWas(after, u, v, s, again, before, d);
  }

  lemma LeftAsItWas(view: View, u: Version, v: Version, s: Setting, plan: Plan, before: Version, d: Version)
    requires view.Keys == {u, v} && !s.loads(v) && plan == Plan([], [], [v], [], [])
    requires view[v] == Attempted(s.config, v, false) && DefaultLeft(view, before, s, plan, d)
    ensures d == before && After(view, s, plan) == view
  {
    NothingStarted(view, s, plan);
    assert [v][..0] == [];
    assert UpToLast([v], LoadsIn(view.Keys, s.loads)) == [];
  }

  lemma BothRevisited(view: View, u: Version, v: Version, s: Setting, plan: Plan)
    requires s.policy == All && view.Keys == {u, v} && FollowsSteps(view, [v, u], s, plan)
    ensures Revisits(view, s, {u, v}, LastAfter([v, u], s, plan), plan) && plan.lastRound == []
  {
    assert Elems([v, u]) == {u, v};
    NothingToStartAgain(view, [v, u], s, plan);
    assert ToStart(view, s, [v, u]) == {};
  }

  lemma PlanOfReloads(view: View, u: Version, v: Version, s: Setting, plan: Plan)
    requires u < v && s.policy == All && s.blocked == {} && s.loads(u) && !s.loads(v) && BothOutdated(view, u, v, s)
    requires Revisits(view, s, {u, v}, LastAfter([v, u], s, plan), plan) && plan.lastRound == []
    ensures plan == Plan([], [], [u, v], [], [])
  {
    AscendingUnique(plan.reloaded, [u, v]);
    OnlyGreaterFails(u, v, s.loads);
    NotErased(u, v);
    NothingGone(view, u, v, s, plan);
  }

  lemma PlanOfAnother(view: View, u: Version, v: Version, s: Setting, plan: Plan)
    requires u < v && s.policy == All && s.blocked == {} && s.loads(u) && !s.loads(v) && view.Keys == {u, v}
    requires view[u] == Attempted(s.config, u, true) && view[v] == Attempted(s.config, v, false)
    requires Revisits(view, s, {u, v}, LastAfter([v, u], s, plan), plan) && plan.lastRound == []
    ensures plan == Plan([], [], [v], [], [])
  {
    AttemptedIsFresh(s.config, u);
    AscendingUnique(plan.reloaded, [v]);
    OnlyGreaterFails(u, v, s.loads);
    NotErased(u, v);
    NothingGone(view, u, v, s, plan);
  }

  lemma AttemptedIsFresh(config: Config, v: Version)
    ensures !NeedsReload(Attempted(config, v, true), config) && NeedsReload(Attempted(config, v, false), config)
  {}

  lemma NothingGone(view: View, u: Version, v: Version, s: Setting, plan: Plan)
    requires view.Keys == {u, v} && s.blocked == {} && Revisits(view, s, {u, v}, {u, v}, plan)
    ensures plan.retired == [] && plan.cleaned == []
  {
    EmptyExactly(plan.retired);
    EmptyExactly(plan.cleaned);
  }

  lemma OnlyGreaterFails(u: Version, v: Version, loads: Version -> bool)
    requires loads(u) && !loads(v)
    ensures FailedIn([u, v], loads) == [v] && FailedIn([v], loads) == [v]
  {
    assert [u, v][1..] == [v] && [v][1..] == [];
    assert FailedIn([], loads) == [];
    assert FailedIn([v], loads) == [v];
  }

  lemma NotErased(u: Version, v: Version)
    requires u < v
    ensures EraseAll([v, u], [v]) == [v, u] && Elems(EraseAll([v, u], [v])) == {u, v}
  {
    assert [v][..0] == [];
    assert EraseAll([v, u], []) == [v, u];
    NotFoundInNameOrder([v, u]);
  }
}
