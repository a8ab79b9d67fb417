/** What a model manager has to start, reload and retire to serve the requested versions. */
module VersionChange {
  import opened FifoPool
  import opened ModelConfig
  import opened Models = Model
  import opened Versions
  import opened VersionStatus

  datatype Change = Change(start: seq<Version>, reload: seq<Version>, retire: seq<Version>)

  predicate NeedsReload(inst: Inst, config: Config) {
    || inst.status.WillEndUnloaded()
    || inst.status.IsFailedLoading()
    || ReloadRequired(inst.config, config)
  }

  /** The versions a custom loader keeps out; without a loader, none. */
  function Blocked(config: Config, loader: Option<set<Version>>): set<Version> {
    if |config.customLoaderOptions| > 0 && loader.Some? then loader.value else {}
  }

  /** A blocked version counts as not requested, but only once it is registered. */
  ghost function Wanted(view: View, requested: set<Version>, blocked: set<Version>): set<Version> {
    set v | v in requested && !(v in view && v in blocked)
  }

  /** The three lists are ascending and hold exactly the versions to start, to reload and to retire. */
  ghost predicate IsChange(view: View, config: Config, wanted: set<Version>, change: Change) {
    && Ascending(change.start) && Ascending(change.reload) && Ascending(change.retire)
    && (forall v: Version :: v in change.start <==> v in wanted && v !in view)
    && (forall v: Version :: v in change.reload <==> v in wanted && v in view && NeedsReload(view[v], config))
    && (forall v: Version :: v in change.retire <==> v in view && v !in wanted && !view[v].status.WillEndUnloaded())
  }

  ghost function Reloadable(view: View, config: Config): Version -> bool {
    (v: Version) => v in view && NeedsReload(view[v], config)
  }

  ghost function Retirable(view: View): Version -> bool {
    (v: Version) => v in view && !view[v].status.WillEndUnloaded()
  }

  /** requestedVersions without the registered versions that the loader blacklists. */
  method EraseBlacklisted(requested: seq<Version>, registered: seq<Version>, blacklist: set<Version>)
    returns (wanted: seq<Version>)
    requires Ascending(requested)
    ensures Ascending(wanted)
    ensures forall v: Version :: v in wanted <==> v in requested && !(v in registered && v in blacklist)
  {
    wanted := requested;
    for i := 0 to |registered|
      invariant Ascending(wanted)
      invariant forall v: Version :: v in wanted <==> v in requested && !(v in registered[..i] && v in blacklist)
    {
      var version := registered[i];
      assert registered[..i + 1] == registered[..i] + [version];
      if version in blacklist {
        KeepExact(wanted, Other(version));
        KeepAscends(wanted, Other(version));
        wanted := Keep(wanted, Other(version));
      }
    }
    assert registered[..|registered|] == registered;
  }

  /** Of the registered and requested versions, those that ended, failed or changed. */
  method ToReload(model: Model, versions: seq<Version>, config: Config) returns (reload: seq<Version>)
    requires forall v: Version :: v in versions ==> v in model.modelVersions
    ensures reload == Keep(versions, Reloadable(model.View(), config))
  {
    reload := [];
    for i := 0 to |versions|
      invariant reload == Keep(versions[..i], Reloadable(model.View(), config))
    {
      var version := versions[i];
      assert versions[..i + 1] == versions[..i] + [version];
      KeepMore(versions[..i], version, Reloadable(model.View(), config));
      var instance := model.modelVersions[version];
      var reloadRequired := IsReloadRequired(instance.config, config);
      if instance.status.WillEndUnloaded() || instance.status.IsFailedLoading() || reloadRequired {
        reload := reload + [version];
      }
    }
    assert versions[..|versions|] == versions;
  }

  /** Of the given registered versions, those that are not ending already. */
  method ToRetire(model: Model, versions: seq<Version>) returns (retire: seq<Version>)
    requires forall v: Version :: v in versions ==> v in model.modelVersions
    ensures retire == Keep(versions, Retirable(model.View()))
  {
    retire := [];
    for i := 0 to |versions|
      invariant retire == Keep(versions[..i], Retirable(model.View()))
    {
      var version := versions[i];
      assert versions[..i + 1] == versions[..i] + [version];
      KeepMore(versions[..i], version, Retirable(model.View()));
      if !model.modelVersions[version].status.WillEndUnloaded() {
        retire := retire + [version];
      }
    }
    assert versions[..|versions|] == versions;
  }

  /** The requested versions in ascending order, without those registered and blacklisted. */
  method SortWanted(requested: seq<Version>, registered: seq<Version>, config: Config, loader: Option<set<Version>>)
    returns (wanted: seq<Version>)
    requires NoDuplicates(requested)
    ensures Ascending(wanted)
    ensures forall v: Version ::
              v in wanted <==> v in Elems(requested) && !(v in registered && v in Blocked(config, loader))
  {
    SortAscends(requested);
    wanted := Sort(requested);
    assert forall v: Version :: v in wanted <==> v in Elems(wanted);
    if |config.customLoaderOptions| > 0 && loader.Some? {
      wanted := EraseBlacklisted(wanted, registered, loader.value);
    }
  }

  /** The version is requested and not, being registered, kept out by the custom loader. */
  ghost predicate Asked(view: View, config: Config, requested: seq<Version>, loader: Option<set<Version>>, v: Version) {
    && v in requested
    && !(v in view && config.customLoaderOptions != map[] && loader.Some? && v in loader.value)
  }

  /** The instance has ended, has failed to load, or has been loaded with another configuration. */
  predicate Outdated(inst: Inst, config: Config) {
    || inst.status.state == UNLOADING || inst.status.state == END
    || (inst.status.state == LOADING && inst.status.failed)
    || inst.config.(version := config.version, cacheDir := config.cacheDir) != config
  }

  /** What the three lists hold, list by list. */
  lemma ChangeExactly(view: View, config: Config, requested: seq<Version>, loader: Option<set<Version>>, change: Change)
    requires IsChange(view, config, Wanted(view, Elems(requested), Blocked(config, loader)), change)
    ensures forall v: Version :: v in change.start <==> Asked(view, config, requested, loader, v) && v !in view
    ensures forall v: Version ::
              v in change.reload <==>
              Asked(view, config, requested, loader, v) && v in view && Outdated(view[v], config)
    ensures forall v: Version ::
              v in change.retire <==>
              !Asked(view, config, requested, loader, v) && v in view &&
              view[v].status.state != UNLOADING && view[v].status.state != END
  {
    forall v: Version
      ensures v in Wanted(view, Elems(requested), Blocked(config, loader)) <==>
              Asked(view, config, requested, loader, v)
    {
    }
    forall v: Version | v in view ensures NeedsReload(view[v], config) <==> Outdated(view[v], config) {
      ReloadRequiredExactly(view[v].config, config);
    }
  }

  method GetVersionsToChange(model: Model, config: Config, requested: seq<Version>, loader: Option<set<Version>>)
    returns (change: Change)
    requires NoDuplicates(requested)
    ensures
      var view := model.View();
      IsChange(view, config, Wanted(view, Elems(requested), Blocked(config, loader)), change)
    // missing ones are started, outdated ones reloaded, and what is not asked for is retired
    ensures
      var view := model.View();
      && (forall v: Version :: v in change.start <==> Asked(view, config, requested, loader, v) && v !in view)
      && (forall v: Version ::
            v in change.reload <==>
            Asked(view, config, requested, loader, v) && v in view && Outdated(view[v], config))
      && (forall v: Version ::
            v in change.retire <==>
            !Asked(view, config, requested, loader, v) && v in view &&
            view[v].status.state != UNLOADING && view[v].status.state != END)
  {
    var registered := KeysInOrder(model.modelVersions.Keys);
    var wanted := SortWanted(requested, registered, config, loader);
    MergesInside(wanted, registered);
    var reload := ToReload(model, SetIntersection(wanted, registered), config);
    var retire := ToRetire(model, SetDifference(registered, wanted));
    change := Change(SetDifference(wanted, registered), reload, retire);
    ChangeExact(model.View(), config, wanted, registered, Elems(requested), Blocked(config, loader), change);
    ChangeExactly(model.View(), config, requested, loader, change);
  }

  lemma MergesInside(wanted: seq<Version>, registered: seq<Version>)
    requires Ascending(wanted) && Ascending(registered)
    ensures forall v: Version :: v in SetIntersection(wanted, registered) ==> v in Elems(registered)
    ensures forall v: Version :: v in SetDifference(registered, wanted) ==> v in Elems(registered)
  {
    IntersectionExact(wanted, registered);
    DifferenceExact(registered, wanted);
  }

  /** The merges of the sorted lists, filtered, give the change. */
  lemma ChangeExact(view: View, config: Config, wanted: seq<Version>, registered: seq<Version>,
                    requested: set<Version>, blocked: set<Version>, change: Change)
    requires Ascending(wanted) && Ascending(registered) && Elems(registered) == view.Keys
    requires forall v: Version :: v in wanted <==> v in requested && !(v in registered && v in blocked)
    requires change.start == SetDifference(wanted, registered)
    requires change.reload == Keep(SetIntersection(wanted, registered), Reloadable(view, config))
    requires change.retire == Keep(SetDifference(registered, wanted), Retirable(view))
    ensures IsChange(view, config, Wanted(view, requested, blocked), change)
  {
    assert forall v: Version :: v in registered <==> v in Elems(registered);
    var both, obsolete := SetIntersection(wanted, registered), SetDifference(registered, wanted);
    IntersectionExact(wanted, registered);
    DifferenceExact(registered, wanted);
    DifferenceExact(wanted, registered);
    KeepExact(both, Reloadable(view, config));
    KeepAscends(both, Reloadable(view, config));
    KeepExact(obsolete, Retirable(view));
    KeepAscends(obsolete, Retirable(view));
  }

  lemma ChangeUnique(view: View, config: Config, wanted: set<Version>, a: Change, b: Change)
    requires IsChange(view, config, wanted, a) && IsChange(view, config, wanted, b)
    ensures a == b
  {
    AscendingUnique(a.start, b.start);
    AscendingUnique(a.reload, b.reload);
    AscendingUnique(a.retire, b.retire);
  }
}
