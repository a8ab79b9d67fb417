/** What a call serves, in terms of the policy, the directory, the blacklist and the outcomes of loading. */
module ServedVersions {
  import opened DirectoryOrder
  import opened FifoPool
  import opened ModelConfig
  import opened Models = Model
  import opened Reconciliation
  import opened ReconciliationSteps
  import opened RepeatedCalls
  import opened VersionChange
  import opened VersionPolicy
  import opened Versions
  import opened VersionStatus

  /**
   * On a model without versions and an ascending directory: the loadable versions that the policy
   * names, with latest(k) those with fewer than k greater loadable ones, without the blacklisted ones.
   */
  lemma FirstCallServes(available: seq<Version>, config: Config, policy: Policy, loader: Option<set<Version>>,
                        loads: Version -> bool, plan: Plan)
    requires Ascending(available)
    requires FollowsSteps(map[], available, Setting(config, policy, Blocked(config, loader), loads), plan)
    ensures
      var after := After(map[], Setting(config, policy, Blocked(config, loader), loads), plan);
      forall v: Version ::
        (v in after && after[v].status.state == AVAILABLE) <==>
        && v in available && loads(v)
        && !(config.customLoaderOptions != map[] && loader.Some? && v in loader.value)
        && (policy.Specific? ==> v in policy.specificVersions)
        && (policy.Latest? ==> |set u | u in available && loads(u) && u > v| < policy.numVersions)
  {
    var s := Setting(config, policy, Blocked(config, loader), loads);
    AscendingFollows(map[], available, s, plan);
    FallsBack(Elems(available), s, plan);
    LoadableSelected(available, s);
    BlockedExactly(config, loader);
  }

  lemma BlockedExactly(config: Config, loader: Option<set<Version>>)
    ensures forall v: Version ::
              v in Blocked(config, loader) <==>
              config.customLoaderOptions != map[] && loader.Some? && v in loader.value
  {}

  /** Every version gets the requested configuration under its own number, whatever becomes of it. */
  lemma FirstCallConfigures(s: Setting, plan: Plan)
    ensures
      var after := After(map[], s, plan);
      forall v: Version :: v in after ==> after[v].config == s.config.(version := v)
  {}

  /** With all and specific the order of the directory does not matter. */
  lemma FirstCallServesInAnyOrder(available: seq<Version>, s: Setting, plan: Plan)
    requires NoDuplicates(available) && FollowsSteps(map[], available, s, plan) && !s.policy.Latest?
    ensures
      var after := After(map[], s, plan);
      forall v: Version ::
        (v in after && after[v].status.state == AVAILABLE) <==>
        && v in available && s.loads(v) && v !in s.blocked
        && (s.policy.Specific? ==> v in s.policy.specificVersions)
  {
    AllAndSpecificFallBack(available, s, plan);
    LoadableSelected(available, s);
  }

  lemma LoadableSelected(available: seq<Version>, s: Setting)
    ensures forall v: Version ::
              v in Selected(s.policy, Loadable(Elems(available), s)) <==>
              && v in available && s.loads(v)
              && (s.policy.Specific? ==> v in s.policy.specificVersions)
              && (s.policy.Latest? ==> |set u | u in available && s.loads(u) && u > v| < s.policy.numVersions)
  {
    var loadable := Loadable(Elems(available), s);
    forall v: Version ensures v in loadable <==> v in available && s.loads(v) {
    }
    forall v: Version ensures Greater(loadable, v) == set u | u in available && s.loads(u) && u > v {
    }
  }

  /**
   * After a call without failures, on any model and in any order, exactly the versions that the policy
   * names are served, with latest(k) those with fewer than k greater ones, without the blacklisted ones.
   */
  lemma ServedWithoutFailures(view: View, available: seq<Version>, s: Setting, plan: Plan)
    requires NoDuplicates(available) && FollowsSteps(view, available, s, plan) && Failed(s, plan) == {}
    requires Settled(view)
    ensures
      var after := After(view, s, plan);
      forall v: Version ::
        (v in after && after[v].status.state == AVAILABLE) <==>
        && v in available && v !in s.blocked
        && (s.policy.Specific? ==> v in s.policy.specificVersions)
        && (s.policy.Latest? ==> |set u | u in available && u > v| < s.policy.numVersions)
  {
    var after, requested := After(view, s, plan), Selected(s.policy, Elems(available));
    NothingLeftToDo(view, available, s, plan, s.config);
    StaysSettled(view, s, plan);
    SelectedExactly(s.policy, available);
    forall v: Version ensures Up(after, v) <==> v in requested && v !in s.blocked {
      ServedIfWanted(after, s, available, v);
    }
  }

  /** An up-to-date model serves exactly what is wanted. */
  lemma ServedIfWanted(view: View, s: Setting, available: seq<Version>, v: Version)
    requires Settled(view) && UpToDate(view, s, available)
    ensures Up(view, v) <==> v in Selected(s.policy, Elems(available)) && v !in s.blocked
  {
    var none: seq<Version> := [];
    assert v !in none;
    assert v in Wanted(view, Selected(s.policy, Elems(available)), s.blocked) <==>
           v in Selected(s.policy, Elems(available)) && !(v in view && v in s.blocked);
  }

  /** And they are loaded with the requested configuration, but for version and cache directory. */
  lemma ServedWithConfig(view: View, available: seq<Version>, s: Setting, plan: Plan, v: Version)
    requires NoDuplicates(available) && FollowsSteps(view, available, s, plan) && Failed(s, plan) == {}
    requires Settled(view) && Up(After(view, s, plan), v)
    ensures After(view, s, plan)[v].config.(version := s.config.version, cacheDir := s.config.cacheDir) == s.config
  {
    var after := After(view, s, plan);
    NothingLeftToDo(view, available, s, plan, s.config);
    StaysSettled(view, s, plan);
    ServedIfWanted(after, s, available, v);
    var none: seq<Version> := [];
    assert v !in none;
    assert !NeedsReload(after[v], s.config);
    ReloadRequiredExactly(after[v].config, s.config);
  }

  /** Nothing is reloaded that is served already with this configuration. */
  lemma ReloadedIfNeeded(view: View, available: seq<Version>, s: Setting, plan: Plan, v: Version)
    requires FollowsSteps(view, available, s, plan) && v in plan.reloaded && v in view
    ensures
      || view[v].status.state in {UNLOADING, END}
      || (view[v].status.state == LOADING && view[v].status.failed)
      || view[v].config.(version := s.config.version, cacheDir := s.config.cacheDir) != s.config
    ensures v !in s.blocked
  {
    ReloadRequiredExactly(view[v].config, s.config);
    ReloadedWasWanted(AfterStarts(view, s, plan), s, FirstSelected(available, s, plan), plan.reloaded, v);
  }

  lemma ReloadedWasWanted(view: View, s: Setting, requested: set<Version>, reloaded: seq<Version>, v: Version)
    requires ReloadListExact(view, s, requested, reloaded) && v in reloaded
    ensures v in view && v !in s.blocked && NeedsReload(view[v], s.config)
  {}

  /** A blacklisted version is not served after a call, whatever fails and in whatever order. */
  lemma BlacklistedNotServed(view: View, available: seq<Version>, s: Setting, plan: Plan, v: Version)
    requires FollowsSteps(view, available, s, plan) && v in s.blocked
    ensures !Up(After(view, s, plan), v)
  {
    UnwantedNotServed(AfterReloads(view, s, plan), s, LastSelected(available, s, plan), Failed(s, plan),
                      plan.retired, plan.cleaned, v);
  }

  lemma UnwantedNotServed(view: View, s: Setting, requested: set<Version>, failed: set<Version>,
                          retired: seq<Version>, cleaned: seq<Version>, v: Version)
    requires SplitExactly(view, s, requested, failed, retired, cleaned) && v in s.blocked
    ensures !Up(CleanedUp(Retired(view, retired), cleaned), v)
  {
    if v in view && !view[v].status.WillEndUnloaded() {
      assert v in Gone(view, s, requested);
    }
  }

  /**
   * What a call leaves served. A model without versions comes to serve what can be loaded of what the
   * policy names in an ascending directory, with the requested configuration; blacklisted versions are never
   * served.
   */
  ghost predicate ServesAsAsked(before: View, available: seq<Version>, config: Config, policy: Policy,
                                loader: Option<set<Version>>, loads: Version -> bool, after: View) {
    && (before == map[] && Ascending(available) ==>
          forall v: Version ::
            (v in after && after[v].status.state == AVAILABLE) <==>
            && v in available && loads(v)
            && !(config.customLoaderOptions != map[] && loader.Some? && v in loader.value)
            && (policy.Specific? ==> v in policy.specificVersions)
            && (policy.Latest? ==> |set u | u in available && loads(u) && u > v| < policy.numVersions))
    && (before == map[] ==> forall v: Version :: v in after ==> after[v].config == config.(version := v))
    && (config.customLoaderOptions != map[] && loader.Some? ==>
          forall v: Version :: v in loader.value && v in after ==> after[v].status.state != AVAILABLE)
  }

  lemma CallServesAsAsked(view: View, available: seq<Version>, s: Setting, loader: Option<set<Version>>, plan: Plan)
    requires s.blocked == Blocked(s.config, loader) && FollowsSteps(view, available, s, plan)
    ensures ServesAsAsked(view, available, s.config, s.policy, loader, s.loads, After(view, s, plan))
  {
    if Ascending(available) && view == map[] {
      assert s == Setting(s.config, s.policy, Blocked(s.config, loader), s.loads);
      FirstCallServes(available, s.config, s.policy, loader, s.loads, plan);
    }
    FirstCallConfigures(s, plan);
    BlockedExactly(s.config, loader);
    forall v: Version | v in s.blocked ensures !Up(After(view, s, plan), v) {
      BlacklistedNotServed(view, available, s, plan, v);
    }
  }
}
