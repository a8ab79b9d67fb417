/** The reconciliation of a model with its version directory. */
module ModelManager {
  import opened DefaultVersion
  import opened FifoPool
  import opened ModelConfig
  import opened Models = Model
  import opened ReconciliationSteps
  import opened ServedVersions
  import opened VersionChange
  import opened VersionPolicy
  import opened VersionSearch
  import opened Versions

  datatype StatusCode =
    | OK
    | OK_RELOADED
    | LOAD_FAILED
    | PATH_INVALID
    | REQUESTED_DYNAMIC_PARAMETERS_ON_STATEFUL_MODEL
    | INVALID_NON_STATEFUL_MODEL_PARAMETER
    | REQUESTED_MODEL_TYPE_CHANGE
    | REQUESTED_DYNAMIC_PARAMETERS_ON_SUBSCRIBED_MODEL
    | REQUESTED_STATEFUL_PARAMETERS_ON_SUBSCRIBED_MODEL

  predicate DynamicParameterEnabled(config: Config) {
    config.batchingMode == AUTO || exists name :: name in config.shapes && config.shapes[name].shapeMode == AUTO
  }

  /**
   * The checks before anything is touched: all pass exactly for the compatible configurations, and
   * the first one that does not pass is the one reported.
   */
  function Admission(config: Config, stateful: bool, subscribed: bool): (status: StatusCode)
    ensures status == OK <==>
            && config.stateful == stateful
            && (config.stateful ==> !DynamicParameterEnabled(config) && !subscribed)
            && (config.lowLatencyTransformation ==> config.stateful)
            && (subscribed ==> !DynamicParameterEnabled(config))
    // dynamic parameters need a stateless model, and one that no pipeline uses
    ensures status == REQUESTED_DYNAMIC_PARAMETERS_ON_STATEFUL_MODEL <==>
              config.stateful && DynamicParameterEnabled(config)
    ensures status == REQUESTED_DYNAMIC_PARAMETERS_ON_SUBSCRIBED_MODEL <==>
              !config.stateful && !config.lowLatencyTransformation && !stateful && subscribed &&
              DynamicParameterEnabled(config)
    // the low latency transformation needs a stateful model
    ensures status == INVALID_NON_STATEFUL_MODEL_PARAMETER <==> !config.stateful && config.lowLatencyTransformation
    // the type of a model does not change
    ensures status == REQUESTED_MODEL_TYPE_CHANGE <==>
              config.stateful != stateful && !(config.stateful && DynamicParameterEnabled(config)) &&
              !(!config.stateful && config.lowLatencyTransformation)
    // a pipeline needs a stateless model
    ensures status == REQUESTED_STATEFUL_PARAMETERS_ON_SUBSCRIBED_MODEL <==>
              config.stateful && stateful && subscribed && !DynamicParameterEnabled(config)
  {
    if config.stateful && DynamicParameterEnabled(config) then REQUESTED_DYNAMIC_PARAMETERS_ON_STATEFUL_MODEL
    else if !config.stateful && config.lowLatencyTransformation then INVALID_NON_STATEFUL_MODEL_PARAMETER
    else if config.stateful != stateful then REQUESTED_MODEL_TYPE_CHANGE
    else if subscribed && DynamicParameterEnabled(config) then REQUESTED_DYNAMIC_PARAMETERS_ON_SUBSCRIBED_MODEL
    else if subscribed && config.stateful then REQUESTED_STATEFUL_PARAMETERS_ON_SUBSCRIBED_MODEL
    else OK
  }

  /** Erases the failed versions that the search finds; in a list that is not ascending it may miss some. */
  method EraseFailed(available: seq<Version>, failed: seq<Version>) returns (remaining: seq<Version>)
    ensures remaining == EraseAll(available, failed)
  {
    remaining := available;
    for i := 0 to |failed|
      invariant remaining == EraseAll(available, failed[..i])
    {
      var version := failed[i];
      assert failed[..i + 1][..i] == failed[..i];
      var found := BinarySearch(remaining, version);
      if found {
        remaining := Keep(remaining, Other(version));
      }
    }
    assert failed[..|failed|] == failed;
  }

  /** One round of the start loop: start the batch and, if a version failed, choose again from what is left. */
  method StartRound(model: Model, s: Setting, loader: Option<set<Version>>, available: seq<Version>, change: Change)
    returns (ok: bool, left: seq<Version>, failed: seq<Version>, next: Change)
    requires model.Valid() && s.policy.Constructed() && NoDuplicates(available)
    requires s.blocked == Blocked(s.config, loader)
    modifies model`modelVersions, model`defaultVersion, model`log
    ensures model.Valid() && model.KeepsInstances()
    ensures model.View() == Started(old(model.View()), change.start, s.config, s.loads)
    ensures Corrected(SomeLoads(change.start, s.loads), old(model.defaultVersion), model.View(), model.defaultVersion)
    ensures model.log == old(model.log) + Starts(change.start)
    ensures failed == FailedIn(change.start, s.loads) && (ok <==> failed == [])
    ensures left == EraseAll(available, failed)
    ensures if ok then next == change else ChangeFor(model.View(), s, left, next)
  {
    ok, failed := model.AddVersions(change.start, s.config, s.loads);
    left, next := available, change;
    if !ok {
      EraseAllFacts(available, failed);
      left := EraseFailed(available, failed);
      var requested := Filter(s.policy, left);
      next := GetVersionsToChange(model, s.config, requested, loader);
    }
  }

  /** How a call began: the model, its default version, its log and the directory. */
  datatype Beginning = Beginning(view: View, default_: Version, log: seq<Action>, available: seq<Version>)

  /** Where the start loop of a call stands after some rounds, with what is left and what failed. */
  ghost predicate AfterRounds(b: Beginning, s: Setting, rounds: seq<seq<Version>>, now: View, remaining: seq<Version>,
                              failed: seq<Version>, allFailed: set<Version>) {
    && now == Started(b.view, Flat(rounds), s.config, s.loads)
    && remaining == EraseAll(b.available, FailedIn(Flat(rounds), s.loads))
    && failed == FailedIn(LastOf(rounds), s.loads) && allFailed == FailedOf(Flat(rounds), s.loads)
  }

  /** The loop goes on from there with the given change. */
  ghost predicate GoesOn(b: Beginning, s: Setting, rounds: seq<seq<Version>>, now: View, remaining: seq<Version>,
                         change: Change) {
    RoundsSoFar(b.view, s, b.available, rounds, remaining) && ChangeFor(now, s, remaining, change)
  }

  /** The loop ends there, and the given list holds what needs a reload. */
  ghost predicate EndsHere(b: Beginning, s: Setting, rounds: seq<seq<Version>>, now: View, remaining: seq<Version>,
                           reload: seq<Version>) {
    rounds == Rounds(b.view, s, b.available) && ReloadListExact(now, s, Selected(s.policy, Elems(remaining)), reload)
  }

  /** A round in the course of a call. */
  method NextRound(model: Model, s: Setting, loader: Option<set<Version>>, remaining: seq<Version>, change: Change,
                   failedBefore: set<Version>, ghost b: Beginning, ghost rounds: seq<seq<Version>>,
                   ghost lastFailed: seq<Version>)
    returns (ok: bool, left: seq<Version>, failed: seq<Version>, allFailed: set<Version>, next: Change,
             ghost more: seq<seq<Version>>)
    requires model.Valid() && s.policy.Constructed() && NoDuplicates(b.available)
    requires s.blocked == Blocked(s.config, loader) && change.start != []
    requires AfterRounds(b, s, rounds, model.View(), remaining, lastFailed, failedBefore)
    requires GoesOn(b, s, rounds, model.View(), remaining, change)
    requires Corrected(SomeLoads(Flat(rounds), s.loads), b.default_, model.View(), model.defaultVersion)
    requires model.log == b.log + Starts(Flat(rounds))
    modifies model`modelVersions, model`defaultVersion, model`log
    ensures model.Valid() && model.KeepsInstances()
    ensures AfterRounds(b, s, more, model.View(), left, failed, allFailed)
    ensures if ok then EndsHere(b, s, more, model.View(), left, next.reload)
            else GoesOn(b, s, more, model.View(), left, next)
    ensures ok <==> failed == []
    ensures Corrected(SomeLoads(Flat(more), s.loads), b.default_, model.View(), model.defaultVersion)
    ensures model.log == b.log + Starts(Flat(more))
    ensures Elems(left) - model.View().Keys < Elems(remaining) - old(model.View()).Keys
  {
    ghost var before := model.View();
    more := rounds + [change.start];
    EraseAllFacts(b.available, FailedIn(Flat(rounds), s.loads));
    ok, left, failed, next := StartRound(model, s, loader, remaining, change);
    RoundDone(b.view, s, b.available, rounds, before, remaining, change);
    LastRemaining(s, b.available, rounds, remaining, change.start);
    FailedSoFar(rounds, change.start, s.loads);
    BatchOfChange(before, s, remaining, change);
    RoundShrinks(before, s, remaining);
    LoggedMore(b.log, rounds, change.start);
    CorrectedMore(before, Flat(rounds), change.start, s, b.default_, old(model.defaultVersion));
    allFailed := failedBefore + Elems(failed);
    if ok {
      AllStarted(before, s, Selected(s.policy, Elems(remaining)), change);
    }
  }

  /** Unless one of its versions loads, a round leaves the default as the rounds before it left it. */
  lemma CorrectedMore(now: View, started: seq<Version>, batch: seq<Version>, s: Setting, before: Version, d: Version)
    requires Corrected(SomeLoads(started, s.loads), before, now, d)
    ensures SomeLoads(started + batch, s.loads) <==> SomeLoads(started, s.loads) || SomeLoads(batch, s.loads)
    ensures !SomeLoads(batch, s.loads) ==>
              Corrected(SomeLoads(started + batch, s.loads), before, AfterRound(now, s, batch), d)
  {
    assert forall v: Version :: v in started + batch <==> v in started || v in batch;
    if !SomeLoads(batch, s.loads) {
      FailedStartsKeepDefault(now, batch, s.config, s.loads, d, d);
    }
  }

  lemma FailedSoFar(rounds: seq<seq<Version>>, batch: seq<Version>, loads: Version -> bool)
    ensures FailedOf(Flat(rounds + [batch]), loads) == FailedOf(Flat(rounds), loads) + Elems(FailedIn(batch, loads))
  {
    FlatOneMore(rounds, batch);
    KeepFailed(batch, loads);
  }

  /**
   * Starts the missing versions; after a failure the policy chooses again from what is left.
   * Every round registers a version that is available and was not registered, so the loop ends
   * for any list without duplicates. Only a failure in the last round is reported.
   */
  method StartVersions(model: Model, s: Setting, loader: Option<set<Version>>, available: seq<Version>, first: Change)
    returns (ok: bool, remaining: seq<Version>, failed: seq<Version>, allFailed: set<Version>, change: Change,
             ghost rounds: seq<seq<Version>>)
    requires model.Valid() && s.policy.Constructed() && NoDuplicates(available)
    requires s.blocked == Blocked(s.config, loader)
    requires ChangeFor(model.View(), s, available, first)
    modifies model`modelVersions, model`defaultVersion, model`log
    ensures model.Valid() && model.KeepsInstances()
    ensures
      var b := old(Beginning(model.View(), model.defaultVersion, model.log, available));
      && AfterRounds(b, s, rounds, model.View(), remaining, failed, allFailed)
      && EndsHere(b, s, rounds, model.View(), remaining, change.reload)
      && Corrected(SomeLoads(Flat(rounds), s.loads), b.default_, model.View(), model.defaultVersion)
      && model.log == b.log + Starts(Flat(rounds))
    ensures ok <==> failed == []
  {
    ok, remaining, failed, allFailed, change, rounds := true, available, [], {}, first, [];
    ghost var b := Beginning(model.View(), model.defaultVersion, model.log, available);
    BeginsAfterNoRound(b, s);
    while change.start != []
      invariant model.Valid() && model.KeepsInstances()
      invariant AfterRounds(b, s, rounds, model.View(), remaining, failed, allFailed)
      invariant GoesOn(b, s, rounds, model.View(), remaining, change)
      invariant Corrected(SomeLoads(Flat(rounds), s.loads), b.default_, model.View(), model.defaultVersion)
      invariant model.log == b.log + Starts(Flat(rounds))
      invariant ok <==> failed == []
      decreases Elems(remaining) - model.View().Keys
    {
      ok, remaining, failed, allFailed, change, rounds :=
        NextRound(model, s, loader, remaining, change, allFailed, b, rounds, failed);
      if ok {
        return;
      }
    }
    EndsWithNothingToStart(b, s, rounds, model.View(), remaining, change);
  }

  lemma BeginsAfterNoRound(b: Beginning, s: Setting)
    ensures AfterRounds(b, s, [], b.view, b.available, [], {}) && RoundsSoFar(b.view, s, b.available, [], b.available)
    ensures b.log + Starts(Flat([])) == b.log
  {
    LoopBegins(b.view, s, b.available);
  }

  lemma EndsWithNothingToStart(b: Beginning, s: Setting, rounds: seq<seq<Version>>, now: View,
                               remaining: seq<Version>, change: Change)
    requires GoesOn(b, s, rounds, now, remaining, change) && change.start == []
    requires now == Started(b.view, Flat(rounds), s.config, s.loads)
    ensures EndsHere(b, s, rounds, now, remaining, change.reload)
  {
    LoopEnds(b.view, s, b.available, rounds, now, remaining, change);
    NothingToStart(now, s, Selected(s.policy, Elems(remaining)), change);
  }

  /** A round without failures erases nothing. */
  lemma LastRemaining(s: Setting, available: seq<Version>, rounds: seq<seq<Version>>, remaining: seq<Version>,
                      batch: seq<Version>)
    requires remaining == EraseAll(available, FailedIn(Flat(rounds), s.loads))
    ensures FailedIn(batch, s.loads) == [] ==>
              remaining == EraseAll(available, FailedIn(Flat(rounds + [batch]), s.loads))
  {
    FlatOneMore(rounds, batch);
    LeftAfterMore(s, available, Flat(rounds), batch);
  }

  lemma LoggedMore(log: seq<Action>, rounds: seq<seq<Version>>, batch: seq<Version>)
    ensures log + Starts(Flat(rounds)) + Starts(batch) == log + Starts(Flat(rounds + [batch]))
    ensures LastOf(rounds + [batch]) == batch
  {
    FlatOneMore(rounds, batch);
    Joined(log, Starts(Flat(rounds)), Starts(batch));
    StartsMore(Flat(rounds), batch);
  }

  // ---- Retiring and cleaning up ----

  /** What to retire and, of what failed in this call, what to clean up. */
  method SplitToRetire(model: Model, s: Setting, loader: Option<set<Version>>, available: seq<Version>,
                       failed: set<Version>)
    returns (versionsToRetire: seq<Version>, versionsToCleanup: seq<Version>)
    requires s.policy.Constructed() && NoDuplicates(available) && s.blocked == Blocked(s.config, loader)
    ensures SplitExactly(model.View(), s, Selected(s.policy, Elems(available)), failed,
                         versionsToRetire, versionsToCleanup)
  {
    var requested := Filter(s.policy, available);
    var change := GetVersionsToChange(model, s.config, requested, loader);
    versionsToCleanup := Keep(change.retire, In(failed));
    versionsToRetire := Keep(change.retire, NotIn(failed));
    Split(model.View(), s, available, change, failed);
  }

  method RetireAndCleanUp(model: Model, versionsToRetire: seq<Version>, versionsToCleanup: seq<Version>)
    returns (ghost retires: seq<Action>, ghost cleanups: seq<Action>)
    requires model.Valid() && Registered(model.View(), versionsToRetire) && Registered(model.View(), versionsToCleanup)
    modifies model`defaultVersion, model`log, model.modelVersions.Values
    ensures model.View() == CleanedUp(Retired(old(model.View()), versionsToRetire), versionsToCleanup)
    ensures model.log == old(model.log) + retires + cleanups
    ensures RetiresInOrder(retires, versionsToRetire) && CleanupsInOrder(cleanups, versionsToCleanup)
    ensures Fits(old(model.View()).Keys) ==> DefaultStaysClear(retires, old(model.View()))
    ensures Fits(old(model.View()).Keys) ==>
              Corrected(versionsToRetire != [] || versionsToCleanup != [], old(model.defaultVersion),
                        model.View(), model.defaultVersion)
  {
    ghost var view := model.View();
    ListsRegistered(view, versionsToRetire, versionsToCleanup);
    retires, cleanups := [], [];
    EmptyLists(view);
    if versionsToRetire != [] {
      var ok;
      ok, retires := model.RetireVersions(versionsToRetire);
      assert ok;
    }
    ghost var afterRetires := model.View();
    assert model.log == old(model.log) + retires;
    EmptyLists(afterRetires);
    assert Fits(view.Keys) ==>
        Corrected(versionsToRetire != [], old(model.defaultVersion), afterRetires, model.defaultVersion);
    if versionsToCleanup != [] {
      var ok;
      ok, cleanups := model.CleanupFailedLoad(versionsToCleanup);
      assert ok;
    } else {
      assert old(model.log) + retires + [] == old(model.log) + retires;
    }
  }

  /** The end of a call: what is registered but not wanted any more is unloaded. */
  method Finish(model: Model, s: Setting, loader: Option<set<Version>>, available: seq<Version>, failed: set<Version>)
    returns (ghost retired: seq<Version>, ghost cleaned: seq<Version>,
             ghost retires: seq<Action>, ghost cleanups: seq<Action>)
    requires model.Valid() && s.policy.Constructed() && NoDuplicates(available)
    requires s.blocked == Blocked(s.config, loader)
    modifies model`defaultVersion, model`log, model.modelVersions.Values
    ensures model.View() == CleanedUp(Retired(old(model.View()), retired), cleaned)
    ensures SplitExactly(old(model.View()), s, Selected(s.policy, Elems(available)), failed, retired, cleaned)
    ensures model.log == old(model.log) + retires + cleanups
    ensures RetiresInOrder(retires, retired) && CleanupsInOrder(cleanups, cleaned)
    ensures Fits(old(model.View()).Keys) ==> DefaultStaysClear(retires, old(model.View()))
    ensures Fits(old(model.View()).Keys) ==>
              Corrected(retired != [] || cleaned != [], old(model.defaultVersion), model.View(), model.defaultVersion)
  {
    ghost var view := model.View();
    var versionsToRetire, versionsToCleanup := SplitToRetire(model, s, loader, available, failed);
    assert model.View() == view;
    SplitRegistered(view, s, Selected(s.policy, Elems(available)), failed, versionsToRetire, versionsToCleanup);
    retires, cleanups := RetireAndCleanUp(model, versionsToRetire, versionsToCleanup);
    retired, cleaned := versionsToRetire, versionsToCleanup;
  }

  lemma EmptyLists(view: View)
    ensures Retired(view, []) == view && CleanedUp(view, []) == view
  {}

  lemma SplitRegistered(view: View, s: Setting, requested: set<Version>, failed: set<Version>,
                        retired: seq<Version>, cleaned: seq<Version>)
    requires SplitExactly(view, s, requested, failed, retired, cleaned)
    ensures Registered(view, retired) && Registered(view, cleaned)
  {}

  lemma ListsRegistered(view: View, retired: seq<Version>, cleaned: seq<Version>)
    requires Registered(view, retired) && Registered(view, cleaned)
    ensures Registered(Retired(view, retired), cleaned)
    ensures Keep(retired, In(view.Keys)) == retired && Keep(cleaned, In(Retired(view, retired).Keys)) == cleaned
    ensures Fits(view.Keys) ==> Narrow(retired) && Narrow(cleaned)
  {
    KeepAll(retired, In(view.Keys));
    KeepAll(cleaned, In(Retired(view, retired).Keys));
  }

  // ---- The whole call ----

  method ReloadStep(model: Model, s: Setting, versions: seq<Version>, failedBefore: seq<Version>)
    returns (ok: bool, failed: seq<Version>, ghost reloads: seq<Action>)
    requires model.Valid() && Registered(model.View(), versions)
    modifies model`defaultVersion, model`log, model.modelVersions.Values
    ensures model.Valid()
    ensures model.View() == Reloaded(old(model.View()), versions, s.config, s.loads)
    ensures failed == failedBefore + FailedIn(versions, s.loads)
    ensures ok <==> FailedOf(versions, s.loads) == {}
    ensures DefaultAfterReloads(old(model.defaultVersion), old(model.View()), versions, s.config, s.loads,
                                model.defaultVersion)
    ensures model.log == old(model.log) + reloads && ReloadsInOrder(reloads, versions)
  {
    ok, failed, reloads := true, failedBefore, [];
    ReloadFailures(model.View(), s, versions);
    if versions != [] {
      ok, failed, reloads := model.ReloadVersions(versions, s.config, s.loads, failedBefore);
    }
  }

  lemma ReloadFailures(view: View, s: Setting, versions: seq<Version>)
    requires Registered(view, versions)
    ensures Keep(versions, FailsIn(view.Keys, s.loads)) == FailedIn(versions, s.loads)
    ensures AllLoad(view.Keys, versions, s.loads) <==> FailedOf(versions, s.loads) == {}
    ensures Keep(versions, In(view.Keys)) == versions
    ensures versions == [] ==> Reloaded(view, versions, s.config, s.loads) == view && FailedOf(versions, s.loads) == {}
  {
    KeepSame(versions, FailsIn(view.Keys, s.loads), Fails(s.loads));
    KeepAll(versions, In(view.Keys));
    forall v: Version | v in versions ensures s.loads(v) <==> v !in FailedOf(versions, s.loads) {
    }
  }

  /** What is left to do after the reloads, in a call that began at view. */
  method Conclude(model: Model, s: Setting, loader: Option<set<Version>>, remaining: seq<Version>,
                  failed: seq<Version>, failedBefore: set<Version>,
                  ghost view: View, ghost available: seq<Version>, ghost begun: Plan)
    returns (ghost plan: Plan, ghost retires: seq<Action>, ghost cleanups: seq<Action>)
    requires model.Valid() && s.policy.Constructed() && NoDuplicates(available)
    requires s.blocked == Blocked(s.config, loader)
    requires model.View() == AfterReloads(view, s, begun) && failedBefore == FailedOf(begun.started, s.loads)
    requires BegunAs(view, s, available, begun, remaining)
    requires failed == FailedIn(begun.lastRound, s.loads) + FailedIn(begun.reloaded, s.loads)
    modifies model`defaultVersion, model`log, model.modelVersions.Values
    ensures model.Valid()
    ensures plan.started == begun.started && plan.lastRound == begun.lastRound && plan.reloaded == begun.reloaded
    ensures model.View() == After(view, s, plan) && FollowsSteps(view, available, s, plan)
    ensures model.log == old(model.log) + retires + cleanups
    ensures RetiresInOrder(retires, plan.retired) && CleanupsInOrder(cleanups, plan.cleaned)
    ensures Fits(old(model.View()).Keys) ==> DefaultStaysClear(retires, old(model.View()))
    ensures Fits(old(model.View()).Keys) ==>
              Corrected(plan.retired != [] || plan.cleaned != [], old(model.defaultVersion),
                        model.View(), model.defaultVersion)
  {
    ghost var before := model.View();
    var left := EraseFailed(remaining, failed);
    assert model.View() == before;
    var allFailed := failedBefore + Elems(failed);
    FailuresSoFar(view, s, available, begun, remaining);
    ghost var retired, cleaned;
    retired, cleaned, retires, cleanups := Finish(model, s, loader, left, allFailed);
    plan := Plan(begun.started, begun.lastRound, begun.reloaded, retired, cleaned);
    SamePlanSoFar(view, s, begun, plan);
    assert FollowsSteps(view, available, s, plan);
  }

  /** The first part of a plan, up to the reloads. */
  ghost predicate BegunAs(view: View, s: Setting, available: seq<Version>, plan: Plan, remaining: seq<Version>) {
    && plan.started == Flat(Rounds(view, s, available)) && plan.lastRound == LastOf(Rounds(view, s, available))
    && remaining == LeftAfterStarts(available, s, plan)
    && ReloadListExact(AfterStarts(view, s, plan), s, Selected(s.policy, Elems(remaining)), plan.reloaded)
  }

  lemma FailuresSoFar(view: View, s: Setting, available: seq<Version>, plan: Plan, remaining: seq<Version>)
    requires NoDuplicates(available) && BegunAs(view, s, available, plan, remaining)
    ensures
      var failed := FailedIn(plan.lastRound, s.loads) + FailedIn(plan.reloaded, s.loads);
      && NoDuplicates(EraseAll(remaining, failed))
      && FailedOf(plan.started, s.loads) + Elems(failed) == Failed(s, plan)
  {
    var failed := FailedIn(plan.lastRound, s.loads) + FailedIn(plan.reloaded, s.loads);
    EraseAllFacts(available, FailedIn(plan.started, s.loads));
    EraseAllFacts(remaining, failed);
    KeepFailed(plan.lastRound, s.loads);
    KeepFailed(plan.reloaded, s.loads);
    LastRoundStarted(view, s, available);
    assert Elems(failed) == FailedOf(plan.lastRound, s.loads) + FailedOf(plan.reloaded, s.loads);
  }

  lemma SamePlanSoFar(view: View, s: Setting, a: Plan, b: Plan)
    requires a.started == b.started && a.reloaded == b.reloaded
    ensures AfterStarts(view, s, a) == AfterStarts(view, s, b)
    ensures AfterReloads(view, s, a) == AfterReloads(view, s, b)
    ensures Failed(s, a) == Failed(s, b)
  {}

  /** What is left to do after the starts, in a call that began at view. */
  method ReloadAndConclude(model: Model, s: Setting, loader: Option<set<Version>>, remaining: seq<Version>,
                           failedBefore: seq<Version>, allFailed: set<Version>, reload: seq<Version>,
                           ghost view: View, ghost available: seq<Version>, ghost begun: Plan)
    returns (ok: bool, ghost plan: Plan, ghost reloads: seq<Action>, ghost retires: seq<Action>,
             ghost cleanups: seq<Action>)
    requires model.Valid() && s.policy.Constructed() && NoDuplicates(available)
    requires s.blocked == Blocked(s.config, loader)
    requires model.View() == AfterStarts(view, s, begun) && reload == begun.reloaded
    requires BegunAs(view, s, available, begun, remaining) && allFailed == FailedOf(begun.started, s.loads)
    requires failedBefore == FailedIn(begun.lastRound, s.loads)
    modifies model`defaultVersion, model`log, model.modelVersions.Values
    ensures model.Valid()
    ensures plan.started == begun.started && plan.lastRound == begun.lastRound && plan.reloaded == begun.reloaded
    ensures ok <==> FailedOf(reload, s.loads) == {}
    ensures model.View() == After(view, s, plan) && FollowsSteps(view, available, s, plan)
    ensures model.log == old(model.log) + reloads + retires + cleanups
    ensures ReloadsInOrder(reloads, plan.reloaded)
    ensures RetiresInOrder(retires, plan.retired) && CleanupsInOrder(cleanups, plan.cleaned)
    ensures Fits(model.View().Keys) ==> DefaultStaysClear(retires, AfterReloads(view, s, plan))
    ensures Fits(model.View().Keys) ==>
              DefaultAfterAll(view, old(model.defaultVersion), s, plan, model.defaultVersion)
  {
    var failed;
    ok, failed, reloads := ReloadStep(model, s, reload, failedBefore);
    ghost var afterReloads := model.View();
    assert afterReloads == AfterReloads(view, s, begun);
    assert model.log == old(model.log) + reloads;
    plan, retires, cleanups := Conclude(model, s, loader, remaining, failed, allFailed, view, available, begun);
    SamePlanSoFar(view, s, begun, plan);
    assert model.View().Keys == afterReloads.Keys;
  }

  /** What the result of a call says: nothing to do, done, or the last starts or a reload failed. */
  ghost predicate Reports(status: StatusCode, upToDate: bool, s: Setting, plan: Plan) {
    && (status == OK <==> upToDate)
    && (status == LOAD_FAILED <==> FailedOf(plan.lastRound, s.loads) + FailedOf(plan.reloaded, s.loads) != {})
    && (status == OK || status == OK_RELOADED || status == LOAD_FAILED)
  }

  /** A change in progress: starts, reloads, unloads and cleanups, in a call that begins here. */
  method CarryOut(model: Model, s: Setting, loader: Option<set<Version>>, available: seq<Version>, first: Change)
    returns (ok: bool, ghost plan: Plan, ghost reloads: seq<Action>, ghost retires: seq<Action>,
             ghost cleanups: seq<Action>)
    requires model.Valid() && s.policy.Constructed() && NoDuplicates(available)
    requires s.blocked == Blocked(s.config, loader) && ChangeFor(model.View(), s, available, first)
    modifies model`modelVersions, model`defaultVersion, model`log, model.modelVersions.Values
    ensures model.Valid() && model.KeepsInstances()
    ensures ok <==> FailedIn(plan.lastRound, s.loads) == [] && FailedOf(plan.reloaded, s.loads) == {}
    ensures model.View() == After(old(model.View()), s, plan)
    ensures FollowsSteps(old(model.View()), available, s, plan)
    ensures model.log == old(model.log) + Starts(plan.started) + reloads + retires + cleanups
    ensures ReloadsInOrder(reloads, plan.reloaded)
    ensures RetiresInOrder(retires, plan.retired) && CleanupsInOrder(cleanups, plan.cleaned)
    ensures Fits(model.View().Keys) ==> DefaultStaysClear(retires, AfterReloads(old(model.View()), s, plan))
    ensures Fits(model.View().Keys) ==>
              DefaultLeft(old(model.View()), old(model.defaultVersion), s, plan, model.defaultVersion)
  {
    ghost var view := model.View();
    var remaining, failed, allFailed, change;
    ghost var rounds;
    ok, remaining, failed, allFailed, change, rounds := StartVersions(model, s, loader, available, first);
    ghost var begun := Plan(Flat(rounds), LastOf(rounds), change.reload, [], []);
    var reloaded;
    reloaded, plan, reloads, retires, cleanups :=
      ReloadAndConclude(model, s, loader, remaining, failed, allFailed, change.reload, view, available, begun);
    if !reloaded {
      ok := false;
    }
  }

  /** If all versions fit in an int: the default version, which on an ascending list is right if it was. */
  ghost predicate DefaultPromised(view: View, available: seq<Version>, s: Setting, plan: Plan,
                                  before: Version, d: Version) {
    Fits(view.Keys + Elems(available)) ==>
      && DefaultLeft(view, before, s, plan, d)
      && (Ascending(available) ==> KeepsDefault(view, before, After(view, s, plan), d))
  }

  lemma DefaultKept(view: View, available: seq<Version>, s: Setting, plan: Plan, before: Version, d: Version)
    requires NoDuplicates(available) && FollowsSteps(view, available, s, plan)
    requires Fits(After(view, s, plan).Keys) ==> DefaultLeft(view, before, s, plan, d)
    ensures DefaultPromised(view, available, s, plan, before, d)
  {
    KeysWithin(view, available, s, plan);
    assert After(view, s, plan).Keys == AfterStarts(view, s, plan).Keys;
    if Ascending(available) && Fits(view.Keys + Elems(available)) {
      DefaultKeptAscending(view, available, s, plan, before, d);
    }
  }

  lemma KeysWithin(view: View, available: seq<Version>, s: Setting, plan: Plan)
    requires NoDuplicates(available) && FollowsSteps(view, available, s, plan)
    ensures Fits(view.Keys + Elems(available)) ==> Fits(After(view, s, plan).Keys)
  {
    RoundsDone(view, s, available);
    assert forall v: Version :: v in After(view, s, plan).Keys ==> v in view.Keys + Elems(available);
  }

  /** The determined plan has happened and the result says so; nothing happens to an up-to-date model. */
  ghost predicate Reconciled(before: View, available: seq<Version>, s: Setting, status: StatusCode, plan: Plan,
                             after: View) {
    && after == After(before, s, plan) && FollowsSteps(before, available, s, plan)
    && Reports(status, UpToDate(before, s, available), s, plan)
    && (UpToDate(before, s, available) ==> plan == Plan([], [], [], [], []))
  }

  method Reconcile(model: Model, s: Setting, loader: Option<set<Version>>, available: seq<Version>)
    returns (status: StatusCode, ghost plan: Plan, ghost reloads: seq<Action>, ghost retires: seq<Action>,
             ghost cleanups: seq<Action>)
    requires model.Valid() && s.policy.Constructed() && NoDuplicates(available)
    requires s.blocked == Blocked(s.config, loader)
    modifies model`modelVersions, model`defaultVersion, model`log, model.modelVersions.Values
    ensures model.Valid() && model.KeepsInstances()
    ensures Reconciled(old(model.View()), available, s, status, plan, model.View())
    ensures model.log == old(model.log) + Starts(plan.started) + reloads + retires + cleanups
    ensures ReloadsInOrder(reloads, plan.reloaded)
    ensures RetiresInOrder(retires, plan.retired) && CleanupsInOrder(cleanups, plan.cleaned)
    ensures Fits(model.View().Keys) ==> DefaultStaysClear(retires, AfterReloads(old(model.View()), s, plan))
    ensures Fits(model.View().Keys) ==>
              DefaultLeft(old(model.View()), old(model.defaultVersion), s, plan, model.defaultVersion)
    ensures DefaultPromised(old(model.View()), available, s, plan, old(model.defaultVersion), model.defaultVersion)
    ensures ServesAsAsked(old(model.View()), available, s.config, s.policy, loader, s.loads, model.View())
  {
    ghost var view := model.View();
    var requested := Filter(s.policy, available);
    var first := GetVersionsToChange(model, s.config, requested, loader);
    assert model.View() == view;
    var reloadNeeded := first.start != [] || first.reload != [] || first.retire != [];
    var ok;
    ok, plan, reloads, retires, cleanups := CarryOut(model, s, loader, available, first);
    DefaultKept(view, available, s, plan, old(model.defaultVersion), model.defaultVersion);
    CallServesAsAsked(view, available, s, loader, plan);
    status := if ok then if reloadNeeded then OK_RELOADED else OK else LOAD_FAILED;
    ReportsRight(view, s, available, first, plan, status);
  }

  lemma ReportsRight(view: View, s: Setting, available: seq<Version>, first: Change, plan: Plan, status: StatusCode)
    requires ChangeFor(view, s, available, first) && FollowsSteps(view, available, s, plan)
    requires status == if FailedIn(plan.lastRound, s.loads) != [] || FailedOf(plan.reloaded, s.loads) != {}
                       then LOAD_FAILED
                       else if first == Change([], [], []) then OK else OK_RELOADED
    ensures Reports(status, UpToDate(view, s, available), s, plan)
    ensures UpToDate(view, s, available) ==> plan == Plan([], [], [], [], [])
  {
    KeepFailed(plan.lastRound, s.loads);
    if UpToDate(view, s, available) {
      ChangeUnique(view, s.config, Wanted(view, Selected(s.policy, Elems(available)), s.blocked),
                   first, Change([], [], []));
      NothingDone(view, available, s, plan);
    }
  }

  /**
   * The model is checked, then reconciled. directory holds the available versions, or nothing if
   * they could not be read; loader holds what a found custom loader blacklists.
   */
  method ReloadModelWithVersions(model: Model, config: Config, policy: Policy, loader: Option<set<Version>>,
                                 directory: Option<seq<Version>>, loads: Version -> bool)
    returns (status: StatusCode, ghost plan: Plan)
    requires model.Valid() && policy.Constructed()
    requires directory.Some? ==> NoDuplicates(directory.value)
    modifies model`modelVersions, model`defaultVersion, model`log, model.modelVersions.Values
    ensures model.Valid() && model.KeepsInstances()
    ensures
      var refused := Admission(config, model.stateful, model.subscribed);
      var s := Setting(config, policy, Blocked(config, loader), loads);
      if refused != OK || directory.None? then
        && status == (if refused != OK then refused else PATH_INVALID)
        && model.View() == old(model.View()) && model.defaultVersion == old(model.defaultVersion)
      else if config.customLoaderOptions != map[] && loader.None? then
        && status == OK && model.View() == AllRetired(old(model.View()))
        && (old(model.View()) != map[] ==> model.defaultVersion == 0)
      else
        && Reconciled(old(model.View()), directory.value, s, status, plan, model.View())
        && DefaultPromised(old(model.View()), directory.value, s, plan, old(model.defaultVersion), model.defaultVersion)
        && ServesAsAsked(old(model.View()), directory.value, config, policy, loader, loads, model.View())
    // without custom loader options the model is reconciled, and nothing is kept out
    ensures
      Admission(config, model.stateful, model.subscribed) == OK && directory.Some? &&
      config.customLoaderOptions == map[] ==>
        Reconciled(old(model.View()), directory.value, Setting(config, policy, {}, loads), status, plan, model.View())
  {
    plan := Plan([], [], [], [], []);
    status := Admission(config, model.stateful, model.subscribed);
    if status != OK {
      return;
    }
    if directory.None? {
      return PATH_INVALID, plan;
    }
    if LoaderMissing(config, loader) {
      model.RetireAllVersions();
      return;
    }
    ghost var reloads, retires, cleanups;
    status, plan, reloads, retires, cleanups :=
      Reconcile(model, Setting(config, policy, Blocked(config, loader), loads), loader, directory.value);
    assert config.customLoaderOptions == map[] ==> Blocked(config, loader) == {};
  }

  predicate LoaderMissing(config: Config, loader: Option<set<Version>>) {
    |config.customLoaderOptions| > 0 && loader.None?
  }
}
