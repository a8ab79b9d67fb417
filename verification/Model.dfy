/** A served model: its registered versions and the default one. */
module Model {
  import opened ModelConfig
  import opened Versions
  import opened VersionStatus

  /** What a version instance shows to the model manager. */
  datatype Inst = Inst(status: Status, config: Config) {
    predicate Available() {
      status.state == AVAILABLE
    }
  }

  type View = map<Version, Inst>

  /** An instance after an attempt to load it with a configuration. */
  function Attempted(config: Config, version: Version, loads: bool): Inst {
    Inst(if loads then Status(AVAILABLE, false) else Status(LOADING, true), config.(version := version))
  }

  class ModelInstance {
    var status: Status
    var config: Config

    ghost function Shown(): Inst
      reads this
    {
      Inst(status, config)
    }

    constructor (initial: Config)
      ensures Shown() == Inst(Status(START, false), initial)
    {
      status := Status(START, false);
      config := initial;
    }

    /** loads is the outcome of reading, compiling and preparing the model. */
    method LoadModelImpl(config: Config, loads: bool) returns (ok: bool)
      modifies this
      ensures ok == loads && Shown() == Attempted(config, config.version, loads)
    {
      this.config := config;
      if !loads {
        status := Status(LOADING, true);
        return false;
      }
      status := Status(AVAILABLE, false);
      ok := true;
    }

    method LoadModel(config: Config, loads: bool) returns (ok: bool)
      modifies this
      ensures ok == loads && Shown() == Attempted(config, config.version, loads)
    {
      status := Status(START, false);
      status := Status(LOADING, false);
      ok := LoadModelImpl(config, loads);
    }

    method ReloadModel(config: Config, loads: bool) returns (ok: bool)
      modifies this
      ensures ok == loads && Shown() == Attempted(config, config.version, loads)
    {
      status := Status(LOADING, false);
      ok := LoadModelImpl(config, loads);
    }

    method RetireModel(isPermanent: bool)
      modifies this
      ensures Shown() == Inst(Status(if isPermanent then END else LOADING, false), old(config))
    {
      status := Status(if isPermanent then UNLOADING else LOADING, false);
      if isPermanent {
        status := Status(END, false);
      }
    }

    method CleanupFailedLoad()
      modifies this
      ensures Shown() == Inst(Status(LOADING, true), old(config))
    {
      status := Status(LOADING, true);
    }
  }

  // ---- The default version ----

  /** The default parameter of updateDefaultVersion is an int: versions are narrowed to 32 bits. */
  function ToInt32(v: int): int {
    var low := v % 0x1_0000_0000;
    if low < 0x8000_0000 then low else low - 0x1_0000_0000
  }

  predicate Candidate(view: View, ignored: int, v: Version) {
    v in view && v != ignored && v > 0 && view[v].Available()
  }

  /** d is the greatest candidate, or 0 if there is none. */
  ghost predicate IsDefault(view: View, ignored: int, d: Version) {
    (d != 0 ==> Candidate(view, ignored, d)) && forall v: Version :: Candidate(view, ignored, v) ==> v <= d
  }

  const NOTHING_IGNORED := 0

  // ---- The effect of the operations on the registered versions ----

  function Started(view: View, versions: seq<Version>, config: Config, loads: Version -> bool): View {
    map v | v in view.Keys + Elems(versions) :: if v in view then view[v] else Attempted(config, v, loads(v))
  }

  function Reloaded(view: View, versions: seq<Version>, config: Config, loads: Version -> bool): View {
    map v | v in view :: if v in versions then Attempted(config, v, loads(v)) else view[v]
  }

  function Retired(view: View, versions: seq<Version>): View {
    map v | v in view :: if v in versions then Inst(Status(END, false), view[v].config) else view[v]
  }

  function CleanedUp(view: View, versions: seq<Version>): View {
    map v | v in view :: if v in versions then Inst(Status(LOADING, true), view[v].config) else view[v]
  }

  function AllRetired(view: View): View {
    map v | v in view :: Inst(Status(END, false), view[v].config)
  }

  ghost predicate KeepsDefault(before: View, default_: Version, after: View, newDefault: Version) {
    IsDefault(before, NOTHING_IGNORED, default_) ==> IsDefault(after, NOTHING_IGNORED, newDefault)
  }

  /** The default version was computed for this view if some load succeeded, and is the one before otherwise. */
  ghost predicate Corrected(some: bool, before: Version, view: View, d: Version) {
    if some then IsDefault(view, NOTHING_IGNORED, d) else d == before
  }

  ghost predicate SomeLoads(versions: seq<Version>, loads: Version -> bool) {
    exists v: Version :: v in versions && loads(v)
  }

  /** The versions up to the last good one. */
  function UpToLast(versions: seq<Version>, good: Version -> bool): seq<Version> {
    if versions == [] || good(versions[|versions| - 1]) then versions else UpToLast(versions[..|versions| - 1], good)
  }

  /** The default version after reloads: computed at the last one that succeeded, while the later ones were still up. */
  ghost predicate DefaultAfterReloads(before: Version, view: View, versions: seq<Version>, config: Config,
                                      loads: Version -> bool, d: Version) {
    var last := UpToLast(versions, LoadsIn(view.Keys, loads));
    Corrected(last != [], before, Reloaded(view, last, config, loads), d)
  }

  /** What was done to which version, with the default version at the moment of an unload. */
  datatype Action =
    | Start(version: Version)
    | Reload(version: Version)
    | Retire(version: Version, default_: Version)
    | Cleanup(version: Version, default_: Version)

  class Model {
    var modelVersions: map<Version, ModelInstance>
    var defaultVersion: Version
    const stateful: bool
    var subscribed: bool
    ghost var log: seq<Action>

    constructor (stateful: bool)
      ensures Valid() && View() == map[] && defaultVersion == 0 && log == [] && !subscribed
      ensures this.stateful == stateful
    {
      modelVersions := map[];
      defaultVersion := 0;
      this.stateful := stateful;
      subscribed := false;
      log := [];
    }

    /** Every version has its own instance. */
    ghost predicate Valid()
      reads this`modelVersions
    {
      forall u, v :: u in modelVersions && v in modelVersions && u != v ==> modelVersions[u] != modelVersions[v]
    }

    ghost function View(): View
      reads this`modelVersions, modelVersions.Values
    {
      map v | v in modelVersions :: modelVersions[v].Shown()
    }

    /** A registered version keeps its instance, and a new one gets a new instance. */
    twostate predicate KeepsInstances()
      reads this`modelVersions
    {
      forall v: Version :: v in modelVersions ==>
        (v in old(modelVersions) && modelVersions[v] == old(modelVersions)[v]) || fresh(modelVersions[v])
    }

    /** The registered versions in the order of the map. */
    method RegisteredVersions() returns (versions: seq<Version>)
      ensures forall v: Version :: v in versions <==> v in modelVersions
    {
      versions := KeysInOrder(modelVersions.Keys);
      assert forall v: Version :: v in versions <==> v in Elems(versions);
    }

    method UpdateDefaultVersion(ignoredVersion: int)
      modifies this`defaultVersion
      ensures View() == old(View()) && IsDefault(View(), ignoredVersion, defaultVersion)
    {
      var newDefaultVersion: Version := 0;
      var versions := RegisteredVersions();
      ghost var view := View();
      for i := 0 to |versions|
        invariant newDefaultVersion != 0 ==> Candidate(view, ignoredVersion, newDefaultVersion)
        invariant forall v: Version ::
                    v in versions[..i] && Candidate(view, ignoredVersion, v) ==> v <= newDefaultVersion
      {
        var version := versions[i];
        assert versions[..i + 1] == versions[..i] + [version];
        if version != ignoredVersion && version > newDefaultVersion
           && modelVersions[version].status.state == AVAILABLE
        {
          newDefaultVersion := version;
        }
      }
      assert versions[..|versions|] == versions;
      defaultVersion := newDefaultVersion;
      assert View() == view;
    }

    /** modelVersions.emplace and loadModel: a version that is already registered keeps its instance. */
    method Launch(version: Version, config: Config, loads: bool) returns (ok: bool)
      requires Valid()
      modifies this`modelVersions
      ensures Valid() && KeepsInstances()
      ensures ok == loads
      ensures View() ==
              if version in old(View()) then old(View())
              else old(View())[version := Attempted(config, config.version, loads)]
    {
      var instance := new ModelInstance(config);
      if version !in modelVersions {
        modelVersions := modelVersions[version := instance];
      }
      ok := instance.LoadModel(config, loads);
    }

    method AddVersion(version: Version, config: Config, loads: Version -> bool) returns (ok: bool)
      requires Valid()
      modifies this`modelVersions, this`defaultVersion, this`log
      ensures Valid() && KeepsInstances()
      ensures ok == loads(version)
      ensures View() == Started(old(View()), [version], config, loads)
      ensures Corrected(ok, old(defaultVersion), View(), defaultVersion)
      ensures KeepsDefault(old(View()), old(defaultVersion), View(), defaultVersion)
      ensures log == old(log) + [Start(version)]
    {
      log := log + [Start(version)];
      StartedOne(View(), version, config, loads);
      ok := Launch(version, config.(version := version), loads(version));
      if !ok {
        FailedStartKeepsDefault(old(View()), version, config, loads, defaultVersion);
        return;
      }
      UpdateDefaultVersion(NOTHING_IGNORED);
    }

    /** What addVersions has done when it has added these versions to a model that looked like view. */
    ghost predicate HasAdded(view: View, default_: Version, log_: seq<Action>, config: Config, loads: Version -> bool,
                             done: seq<Version>, ok: bool, failed: seq<Version>)
      reads this`modelVersions, this`defaultVersion, this`log, modelVersions.Values
    {
      && View() == Started(view, done, config, loads)
      && Corrected(SomeLoads(done, loads), default_, View(), defaultVersion)
      && log == log_ + Starts(done)
      && failed == Keep(done, Fails(loads)) && (ok <==> failed == [])
    }

    /** Adds the version at i in the course of addVersions. */
    method AddNext(versions: seq<Version>, i: nat, config: Config, loads: Version -> bool, okBefore: bool,
                   failedBefore: seq<Version>, ghost view: View, ghost default_: Version, ghost log_: seq<Action>)
      returns (ok: bool, failed: seq<Version>)
      requires i < |versions| && Valid()
      requires HasAdded(view, default_, log_, config, loads, versions[..i], okBefore, failedBefore)
      modifies this`modelVersions, this`defaultVersion, this`log
      ensures Valid() && KeepsInstances()
      ensures HasAdded(view, default_, log_, config, loads, versions[..i + 1], ok, failed)
    {
      var version := versions[i];
      ghost var done := versions[..i];
      PrefixMore(versions, i);
      StartedMore(view, done, [version], config, loads);
      SomeLoadsMore(done, version, loads);
      FailedStartKeepsDefault(View(), version, config, loads, defaultVersion);
      KeepMore(done, version, Fails(loads));
      LoggedOneMore(log_, done, version);
      ok, failed := okBefore, failedBefore;
      var loaded := AddVersion(version, config, loads);
      if !loaded {
        ok, failed := false, failed + [version];
      }
    }

    /** Loads every listed version; failed lists those whose load failed, in order. */
    method AddVersions(versions: seq<Version>, config: Config, loads: Version -> bool)
      returns (ok: bool, failed: seq<Version>)
      requires Valid()
      modifies this`modelVersions, this`defaultVersion, this`log
      ensures Valid() && KeepsInstances()
      ensures View() == Started(old(View()), versions, config, loads)
      ensures failed == Keep(versions, Fails(loads)) && (ok <==> failed == [])
      ensures Corrected(SomeLoads(versions, loads), old(defaultVersion), View(), defaultVersion)
      ensures log == old(log) + Starts(versions)
    {
      ok, failed := true, [];
      ghost var view, default_, log_ := View(), defaultVersion, log;
      NoneStarted(view, config, loads);
      for i := 0 to |versions|
        invariant Valid() && KeepsInstances()
        invariant HasAdded(view, default_, log_, config, loads, versions[..i], ok, failed)
      {
        ok, failed := AddNext(versions, i, config, loads, ok, failed, view, default_, log_);
      }
      assert versions[..|versions|] == versions;
    }

    method ReloadOne(version: Version, config: Config, loads: Version -> bool) returns (ok: bool)
      requires Valid() && version in modelVersions
      modifies this`defaultVersion, this`log, modelVersions.Values
      ensures ok == loads(version)
      ensures View() == Reloaded(old(View()), [version], config, loads)
      ensures if ok then IsDefault(View(), NOTHING_IGNORED, defaultVersion) else defaultVersion == old(defaultVersion)
      ensures log == old(log) + [Reload(version)]
    {
      log := log + [Reload(version)];
      var instance := modelVersions[version];
      ok := instance.ReloadModel(config.(version := version), loads(version));
      assert View() == Reloaded(old(View()), [version], config, loads);
      if ok {
        UpdateDefaultVersion(NOTHING_IGNORED);
      }
    }

    /** What reloadVersions has done when it has been through these versions of a model that looked like view. */
    ghost predicate HasReloaded(view: View, default_: Version, log_: seq<Action>, config: Config,
                                loads: Version -> bool, earlier: seq<Version>, done: seq<Version>, ok: bool,
                                failed: seq<Version>, reloads: seq<Action>)
      reads this`modelVersions, this`defaultVersion, this`log, modelVersions.Values
    {
      && View() == Reloaded(view, done, config, loads) && (ok <==> AllLoad(view.Keys, done, loads))
      && failed == earlier + Keep(done, FailsIn(view.Keys, loads))
      && DefaultAfterReloads(default_, view, done, config, loads, defaultVersion)
      && log == log_ + reloads && ReloadsInOrder(reloads, Keep(done, In(view.Keys)))
    }

    /** Goes on to the version at i in the course of reloadVersions. */
    method ReloadNext(versions: seq<Version>, i: nat, config: Config, loads: Version -> bool, okBefore: bool,
                      failedBefore: seq<Version>, ghost view: View, ghost default_: Version,
                      ghost log_: seq<Action>, ghost earlier: seq<Version>, ghost before: seq<Action>)
      returns (ok: bool, failed: seq<Version>, ghost reloads: seq<Action>)
      requires i < |versions| && Valid()
      requires HasReloaded(view, default_, log_, config, loads, earlier, versions[..i], okBefore, failedBefore, before)
      modifies this`defaultVersion, this`log, modelVersions.Values
      ensures HasReloaded(view, default_, log_, config, loads, earlier, versions[..i + 1], ok, failed, reloads)
    {
      var version := versions[i];
      ghost var done := versions[..i];
      PrefixMore(versions, i);
      ReloadedMore(view, done, version, config, loads);
      AllLoadMore(view.Keys, done, version, loads);
      KeepMore(done, version, FailsIn(view.Keys, loads));
      UpToLastMore(done, version, LoadsIn(view.Keys, loads));
      NotRegistered(view, done, version);
      ok, failed, reloads := false, failedBefore, before;
      assert version in view <==> version in View();
      if version !in modelVersions {
        return;
      }
      ok := ReloadOne(version, config, loads);
      ReloadsOneMore(log_, before, view, done, version);
      reloads := before + [Reload(version)];
      if !ok {
        Assoc(earlier, Keep(done, FailsIn(view.Keys, loads)), version);
        failed := failed + [version];
      }
      ok := ok && okBefore;
    }

    /** Reloads every listed version that is registered, appending those that failed. */
    method ReloadVersions(versions: seq<Version>, config: Config, loads: Version -> bool, failedBefore: seq<Version>)
      returns (ok: bool, failed: seq<Version>, ghost reloads: seq<Action>)
      requires Valid()
      modifies this`defaultVersion, this`log, modelVersions.Values
      ensures View() == Reloaded(old(View()), versions, config, loads)
      ensures failed == failedBefore + Keep(versions, FailsIn(old(View()).Keys, loads))
      ensures ok <==> AllLoad(old(View()).Keys, versions, loads)
      ensures DefaultAfterReloads(old(defaultVersion), old(View()), versions, config, loads, defaultVersion)
      ensures log == old(log) + reloads && ReloadsInOrder(reloads, Keep(versions, In(old(View()).Keys)))
    {
      ok, failed, reloads := true, failedBefore, [];
      ghost var view, default_, log_ := View(), defaultVersion, log;
      NoneReloaded(view, config, loads);
      for i := 0 to |versions|
        invariant HasReloaded(view, default_, log_, config, loads, failedBefore, versions[..i], ok, failed, reloads)
      {
        ok, failed, reloads :=
          ReloadNext(versions, i, config, loads, ok, failed, view, default_, log_, failedBefore, reloads);
      }
      assert versions[..|versions|] == versions;
    }

    /** One version of retireVersions: first the default version is moved away, then the model is unloaded. */
    method RetireOne(version: Version)
      requires Valid() && version in modelVersions
      modifies this`defaultVersion, this`log, modelVersions.Values
      ensures View() == Retired(old(View()), [version])
      ensures IsDefault(old(View()), ToInt32(version), defaultVersion)
      ensures log == old(log) + [Retire(version, defaultVersion)]
    {
      UpdateDefaultVersion(ToInt32(version));
      log := log + [Retire(version, defaultVersion)];
      var instance := modelVersions[version];
      instance.RetireModel(true);
    }

    method CleanupOne(version: Version)
      requires Valid() && version in modelVersions
      modifies this`defaultVersion, this`log, modelVersions.Values
      ensures View() == CleanedUp(old(View()), [version])
      ensures IsDefault(old(View()), ToInt32(version), defaultVersion)
      ensures log == old(log) + [Cleanup(version, defaultVersion)]
    {
      UpdateDefaultVersion(ToInt32(version));
      log := log + [Cleanup(version, defaultVersion)];
      var instance := modelVersions[version];
      instance.CleanupFailedLoad();
    }

    /** What retireVersions has done when it has been through these versions of a model that looked like view. */
    ghost predicate HasRetired(view: View, default_: Version, log_: seq<Action>, done: seq<Version>, ok: bool,
                               retires: seq<Action>)
      reads this`modelVersions, this`defaultVersion, this`log, modelVersions.Values
    {
      && View() == Retired(view, done) && (ok <==> Registered(view, done))
      && log == log_ + retires && RetiresInOrder(retires, Keep(done, In(view.Keys)))
      && (Narrow(done) ==>
            && DefaultStaysClear(retires, view)
            && KeepsDefault(view, default_, View(), defaultVersion)
            && (ok && done != [] ==> IsDefault(View(), NOTHING_IGNORED, defaultVersion)))
    }

    /** Goes on to the version at i in the course of retireVersions. */
    method RetireNext(versions: seq<Version>, i: nat, okBefore: bool, ghost view: View, ghost default_: Version,
                      ghost log_: seq<Action>, ghost before: seq<Action>)
      returns (ok: bool, ghost retires: seq<Action>)
      requires i < |versions| && Valid() && HasRetired(view, default_, log_, versions[..i], okBefore, before)
      modifies this`defaultVersion, this`log, modelVersions.Values
      ensures HasRetired(view, default_, log_, versions[..i + 1], ok, retires)
    {
      var version := versions[i];
      ghost var now, done := View(), versions[..i];
      PrefixMore(versions, i);
      NarrowMore(done, version);
      RetiredMore(view, done, version);
      RegisteredMore(view, done, version);
      NotRegistered(view, done, version);
      assert version in view <==> version in View();
      retires := before;
      if version !in modelVersions {
        return false, retires;
      }
      RetireOne(version);
      if Narrow(versions[..i + 1]) {
        RetiredDefault(now, version, defaultVersion);
        StaysClearMore(before, view, done, version, defaultVersion);
      }
      RetiresOneMore(log_, before, view, done, version, defaultVersion);
      ok, retires := okBefore, before + [Retire(version, defaultVersion)];
    }

    /**
     * Unloads every listed version that is registered. If the versions fit in 32 bits the
     * default version never names one that is being unloaded or has been unloaded.
     */
    method RetireVersions(versions: seq<Version>) returns (ok: bool, ghost retires: seq<Action>)
      requires Valid()
      modifies this`defaultVersion, this`log, modelVersions.Values
      ensures View() == Retired(old(View()), versions)
      ensures ok <==> Registered(old(View()), versions)
      ensures Narrow(versions) ==> KeepsDefault(old(View()), old(defaultVersion), View(), defaultVersion)
      ensures Narrow(versions) && ok && versions != [] ==> IsDefault(View(), NOTHING_IGNORED, defaultVersion)
      ensures log == old(log) + retires && RetiresInOrder(retires, Keep(versions, In(old(View()).Keys)))
      ensures Narrow(versions) ==> DefaultStaysClear(retires, old(View()))
    {
      ok, retires := true, [];
      ghost var view, default_, log_ := View(), defaultVersion, log;
      NoneRetired(view);
      for i := 0 to |versions|
        invariant HasRetired(view, default_, log_, versions[..i], ok, retires)
      {
        ok, retires := RetireNext(versions, i, ok, view, default_, log_, retires);
      }
      assert versions[..|versions|] == versions;
    }

    /** What cleanupFailedLoad has done when it has been through these versions of a model that looked like view. */
    ghost predicate HasCleanedUp(view: View, default_: Version, log_: seq<Action>, done: seq<Version>, ok: bool,
                                 cleanups: seq<Action>)
      reads this`modelVersions, this`defaultVersion, this`log, modelVersions.Values
    {
      && View() == CleanedUp(view, done) && (ok <==> Registered(view, done))
      && log == log_ + cleanups && CleanupsInOrder(cleanups, Keep(done, In(view.Keys)))
      && (Narrow(done) ==>
            && KeepsDefault(view, default_, View(), defaultVersion)
            && (ok && done != [] ==> IsDefault(View(), NOTHING_IGNORED, defaultVersion)))
    }

    /** Goes on to the version at i in the course of cleanupFailedLoad. */
    method CleanUpNext(versions: seq<Version>, i: nat, okBefore: bool, ghost view: View, ghost default_: Version,
                       ghost log_: seq<Action>, ghost before: seq<Action>)
      returns (ok: bool, ghost cleanups: seq<Action>)
      requires i < |versions| && Valid() && HasCleanedUp(view, default_, log_, versions[..i], okBefore, before)
      modifies this`defaultVersion, this`log, modelVersions.Values
      ensures HasCleanedUp(view, default_, log_, versions[..i + 1], ok, cleanups)
    {
      var version := versions[i];
      ghost var now, done := View(), versions[..i];
      PrefixMore(versions, i);
      NarrowMore(done, version);
      CleanedUpMore(view, done, version);
      RegisteredMore(view, done, version);
      NotRegistered(view, done, version);
      assert version in view <==> version in View();
      cleanups := before;
      if version !in modelVersions {
        return false, cleanups;
      }
      CleanupOne(version);
      if Narrow(versions[..i + 1]) {
        CleanedUpDefault(now, version, defaultVersion);
      }
      CleanupsOneMore(log_, before, view, done, version, defaultVersion);
      ok, cleanups := okBefore, before + [Cleanup(version, defaultVersion)];
    }

    /** Unloads what is left of every listed version after a failed load and marks it as failed. */
    method CleanupFailedLoad(versions: seq<Version>) returns (ok: bool, ghost cleanups: seq<Action>)
      requires Valid()
      modifies this`defaultVersion, this`log, modelVersions.Values
      ensures View() == CleanedUp(old(View()), versions)
      ensures ok <==> Registered(old(View()), versions)
      ensures Narrow(versions) ==> KeepsDefault(old(View()), old(defaultVersion), View(), defaultVersion)
      ensures Narrow(versions) && ok && versions != [] ==> IsDefault(View(), NOTHING_IGNORED, defaultVersion)
      ensures log == old(log) + cleanups && CleanupsInOrder(cleanups, Keep(versions, In(old(View()).Keys)))
    {
      ok, cleanups := true, [];
      ghost var view, default_, log_ := View(), defaultVersion, log;
      NoneRetired(view);
      for i := 0 to |versions|
        invariant HasCleanedUp(view, default_, log_, versions[..i], ok, cleanups)
      {
        ok, cleanups := CleanUpNext(versions, i, ok, view, default_, log_, cleanups);
      }
      assert versions[..|versions|] == versions;
    }

    /**
     * One version of retireAllVersions, which began at view and has retired the versions done: here
     * the default version is corrected after the unload.
     */
    method RetireThis(version: Version, ghost view: View, ghost done: seq<Version>)
      requires Valid() && version in modelVersions && View() == Retired(view, done)
      modifies this`defaultVersion, this`log, modelVersions.Values
      ensures View() == Retired(view, done + [version])
      ensures IsDefault(Retired(view, done + [version]), NOTHING_IGNORED, defaultVersion)
      ensures log == old(log) + [Retire(version, old(defaultVersion))]
    {
      log := log + [Retire(version, defaultVersion)];
      var instance := modelVersions[version];
      instance.RetireModel(true);
      assert View() == Retired(old(View()), [version]);
      RetiredMore(view, done, version);
      UpdateDefaultVersion(NOTHING_IGNORED);
    }

    /** Unloads every registered version. */
    method RetireAllVersions()
      requires Valid()
      modifies this`defaultVersion, this`log, modelVersions.Values
      ensures View() == AllRetired(old(View()))
      ensures old(View()) != map[] ==> defaultVersion == 0
    {
      var versions := RegisteredVersions();
      ghost var view, done := View(), [];
      NoneRetired(view);
      assert forall v: Version :: v in versions <==> v in view;
      for i := 0 to |versions|
        invariant done == versions[..i] && View() == Retired(view, done)
        invariant i > 0 ==> IsDefault(Retired(view, done), NOTHING_IGNORED, defaultVersion)
      {
        assert versions[i] in modelVersions;
        PrefixMore(versions, i);
        RetireThis(versions[i], view, done);
        done := done + [versions[i]];
      }
      assert done == versions;
      NoneLeft(view, versions, defaultVersion);
    }
  }

  lemma PrefixMore(s: seq<Version>, i: nat)
    requires i < |s|
    ensures s[..i + 1] == s[..i] + [s[i]]
  {}

  lemma NoneRetired(view: View)
    ensures Retired(view, []) == view && CleanedUp(view, []) == view
  {}

  lemma NoneStarted(view: View, config: Config, loads: Version -> bool)
    ensures Started(view, [], config, loads) == view
  {}

  lemma NoneReloaded(view: View, config: Config, loads: Version -> bool)
    ensures Reloaded(view, [], config, loads) == view
  {}

  /** Every version fits in the int parameter of updateDefaultVersion. */
  predicate Narrow(versions: seq<Version>) {
    forall v :: v in versions ==> 0 < v < 0x8000_0000
  }

  lemma NarrowMore(versions: seq<Version>, v: Version)
    ensures Narrow(versions + [v]) <==> Narrow(versions) && 0 < v < 0x8000_0000
  {
    assert v in versions + [v];
    assert forall u: Version :: u in versions + [v] <==> u in versions || u == v;
  }

  function Fails(loads: Version -> bool): Version -> bool {
    (v: Version) => !loads(v)
  }

  function LoadsIn(registered: set<Version>, loads: Version -> bool): Version -> bool {
    (v: Version) => v in registered && loads(v)
  }

  function FailsIn(registered: set<Version>, loads: Version -> bool): Version -> bool {
    (v: Version) => v in registered && !loads(v)
  }

  ghost predicate Registered(view: View, versions: seq<Version>) {
    forall v: Version :: v in versions ==> v in view
  }

  ghost predicate AllLoad(registered: set<Version>, versions: seq<Version>, loads: Version -> bool) {
    forall v: Version :: v in versions ==> v in registered && loads(v)
  }

  function Starts(versions: seq<Version>): seq<Action> {
    seq(|versions|, i requires 0 <= i < |versions| => Start(versions[i]))
  }

  // the actions are these operations on these versions, in this order

  predicate ReloadsInOrder(actions: seq<Action>, versions: seq<Version>) {
    |actions| == |versions| && forall k :: 0 <= k < |actions| ==> actions[k] == Reload(versions[k])
  }

  predicate RetiresInOrder(actions: seq<Action>, versions: seq<Version>) {
    && |actions| == |versions|
    && forall k :: 0 <= k < |actions| ==> actions[k].Retire? && actions[k].version == versions[k]
  }

  predicate CleanupsInOrder(actions: seq<Action>, versions: seq<Version>) {
    && |actions| == |versions|
    && forall k :: 0 <= k < |actions| ==> actions[k].Cleanup? && actions[k].version == versions[k]
  }

  /** At every unload the default is none or an available version that is not among those unloaded so far or now. */
  ghost predicate DefaultStaysClear(retires: seq<Action>, view: View) {
    forall k :: 0 <= k < |retires| && retires[k].Retire? && retires[k].default_ != 0 ==>
      var d := retires[k].default_;
      && d in view && view[d].Available()
      && (forall j :: 0 <= j <= k && retires[j].Retire? ==> retires[j].version != d)
  }

  // ---- The operations one version at a time ----

  lemma StartedOne(view: View, v: Version, config: Config, loads: Version -> bool)
    ensures Started(view, [v], config, loads) ==
            if v in view then view else view[v := Attempted(config, v, loads(v))]
  {}

  lemma StartedMore(view: View, versions: seq<Version>, more: seq<Version>, config: Config, loads: Version -> bool)
    ensures Started(Started(view, versions, config, loads), more, config, loads) ==
            Started(view, versions + more, config, loads)
  {}

  lemma ReloadedMore(view: View, versions: seq<Version>, v: Version, config: Config, loads: Version -> bool)
    ensures Reloaded(Reloaded(view, versions, config, loads), [v], config, loads) ==
            Reloaded(view, versions + [v], config, loads)
    ensures v !in view ==> Reloaded(view, versions + [v], config, loads) == Reloaded(view, versions, config, loads)
  {}

  lemma RetiredMore(view: View, versions: seq<Version>, v: Version)
    ensures Retired(Retired(view, versions), [v]) == Retired(view, versions + [v])
    ensures v !in view ==> Retired(view, versions + [v]) == Retired(view, versions)
  {}

  lemma CleanedUpMore(view: View, versions: seq<Version>, v: Version)
    ensures CleanedUp(CleanedUp(view, versions), [v]) == CleanedUp(view, versions + [v])
    ensures v !in view ==> CleanedUp(view, versions + [v]) == CleanedUp(view, versions)
  {}

  lemma {:induction false} KeepMore(s: seq<Version>, v: Version, keep: Version -> bool)
    ensures Keep(s + [v], keep) == Keep(s, keep) + if keep(v) then [v] else []
  {
    if s == [] {
      assert s + [v] == [v];
    } else {
      assert (s + [v])[1..] == s[1..] + [v];
      KeepMore(s[1..], v, keep);
    }
  }

  lemma AllLoadMore(registered: set<Version>, s: seq<Version>, v: Version, loads: Version -> bool)
    ensures AllLoad(registered, s + [v], loads) <==> AllLoad(registered, s, loads) && v in registered && loads(v)
  {
    assert v in s + [v];
    assert forall u: Version :: u in s + [v] <==> u in s || u == v;
  }

  lemma Assoc<T>(a: seq<T>, b: seq<T>, x: T)
    ensures a + b + [x] == a + (b + [x])
  {}

  lemma StartsMore(s: seq<Version>, more: seq<Version>)
    ensures Starts(s + more) == Starts(s) + Starts(more)
  {}

  lemma StartsOneMore(s: seq<Version>, v: Version)
    ensures Starts(s + [v]) == Starts(s) + [Start(v)]
  {}

  lemma LoggedOneMore(log: seq<Action>, s: seq<Version>, v: Version)
    ensures log + Starts(s) + [Start(v)] == log + Starts(s + [v])
  {
    StartsOneMore(s, v);
    Assoc(log, Starts(s), Start(v));
  }

  lemma Joined<T>(a: seq<T>, b: seq<T>, c: seq<T>)
    ensures a + b + c == a + (b + c)
  {}

  lemma ReloadsOneMore(log: seq<Action>, actions: seq<Action>, view: View, done: seq<Version>, v: Version)
    requires ReloadsInOrder(actions, Keep(done, In(view.Keys))) && v in view
    ensures ReloadsInOrder(actions + [Reload(v)], Keep(done + [v], In(view.Keys)))
    ensures log + actions + [Reload(v)] == log + (actions + [Reload(v)])
  {
    KeepMore(done, v, In(view.Keys));
  }

  lemma NotRegistered(view: View, done: seq<Version>, v: Version)
    ensures v !in view ==> Keep(done + [v], In(view.Keys)) == Keep(done, In(view.Keys))
  {
    KeepMore(done, v, In(view.Keys));
  }

  lemma RetiresOneMore(log: seq<Action>, actions: seq<Action>, view: View, done: seq<Version>, v: Version, d: Version)
    requires RetiresInOrder(actions, Keep(done, In(view.Keys))) && v in view
    ensures RetiresInOrder(actions + [Retire(v, d)], Keep(done + [v], In(view.Keys)))
    ensures log + actions + [Retire(v, d)] == log + (actions + [Retire(v, d)])
  {
    KeepMore(done, v, In(view.Keys));
  }

  lemma CleanupsOneMore(log: seq<Action>, actions: seq<Action>, view: View, done: seq<Version>, v: Version, d: Version)
    requires CleanupsInOrder(actions, Keep(done, In(view.Keys))) && v in view
    ensures CleanupsInOrder(actions + [Cleanup(v, d)], Keep(done + [v], In(view.Keys)))
    ensures log + actions + [Cleanup(v, d)] == log + (actions + [Cleanup(v, d)])
  {
    KeepMore(done, v, In(view.Keys));
  }

  lemma RegisteredMore(view: View, s: seq<Version>, v: Version)
    ensures Registered(view, s + [v]) <==> Registered(view, s) && v in view
  {
    assert v in s + [v];
    assert forall u: Version :: u in s + [v] <==> u in s || u == v;
  }

  lemma FailedStartKeepsDefault(view: View, version: Version, config: Config, loads: Version -> bool, d: Version)
    ensures !loads(version) && IsDefault(view, NOTHING_IGNORED, d) ==>
              IsDefault(Started(view, [version], config, loads), NOTHING_IGNORED, d)
  {
    var next := Started(view, [version], config, loads);
    if !loads(version) {
      assert forall v: Version :: Candidate(next, NOTHING_IGNORED, v) <==> Candidate(view, NOTHING_IGNORED, v);
    }
  }

  /** Starts of which none loads keep a correct default correct. */
  lemma FailedStartsKeepDefault(view: View, versions: seq<Version>, config: Config, loads: Version -> bool,
                                before: Version, d: Version)
    requires Corrected(SomeLoads(versions, loads), before, Started(view, versions, config, loads), d)
    ensures KeepsDefault(view, before, Started(view, versions, config, loads), d)
  {
    var next := Started(view, versions, config, loads);
    if !SomeLoads(versions, loads) {
      assert forall v: Version :: Candidate(next, NOTHING_IGNORED, v) <==> Candidate(view, NOTHING_IGNORED, v);
    }
  }

  lemma SomeLoadsMore(versions: seq<Version>, v: Version, loads: Version -> bool)
    ensures SomeLoads(versions + [v], loads) <==> SomeLoads(versions, loads) || loads(v)
  {
    assert v in versions + [v];
    assert forall u: Version :: u in versions + [v] <==> u in versions || u == v;
  }

  lemma UpToLastMore(versions: seq<Version>, v: Version, good: Version -> bool)
    ensures UpToLast(versions + [v], good) == if good(v) then versions + [v] else UpToLast(versions, good)
  {
    assert (versions + [v])[..|versions|] == versions;
  }

  /** Reloads that all succeed keep a correct default correct. */
  lemma ReloadsKeepDefault(view: View, versions: seq<Version>, config: Config, loads: Version -> bool,
                           before: Version, d: Version)
    requires AllLoad(view.Keys, versions, loads) && DefaultAfterReloads(before, view, versions, config, loads, d)
    ensures KeepsDefault(view, before, Reloaded(view, versions, config, loads), d)
  {
    if versions == [] {
      assert Reloaded(view, versions, config, loads) == view;
    } else {
      assert versions[|versions| - 1] in versions;
    }
  }

  /** The default chosen while ignoring v is the default once v is unloaded. */
  lemma RetiredDefault(view: View, v: Version, d: Version)
    requires 0 < v < 0x8000_0000 && IsDefault(view, ToInt32(v), d)
    ensures d != v && IsDefault(Retired(view, [v]), NOTHING_IGNORED, d)
  {
    var next := Retired(view, [v]);
    assert forall u: Version :: Candidate(next, NOTHING_IGNORED, u) <==> Candidate(view, ToInt32(v), u);
  }

  lemma CleanedUpDefault(view: View, v: Version, d: Version)
    requires 0 < v < 0x8000_0000 && IsDefault(view, ToInt32(v), d)
    ensures d != v && IsDefault(CleanedUp(view, [v]), NOTHING_IGNORED, d)
  {
    var next := CleanedUp(view, [v]);
    assert forall u: Version :: Candidate(next, NOTHING_IGNORED, u) <==> Candidate(view, ToInt32(v), u);
  }

  lemma NoneLeft(view: View, versions: seq<Version>, d: Version)
    requires forall v: Version :: v in versions <==> v in view
    ensures Retired(view, versions) == AllRetired(view)
    ensures view != map[] ==> versions != []
    ensures IsDefault(Retired(view, versions), NOTHING_IGNORED, d) ==> d == 0
  {
    if view != map[] {
      var v: Version :| v in view;
      assert v in versions;
    }
  }

  lemma StaysClearMore(retires: seq<Action>, view: View, done: seq<Version>, v: Version, d: Version)
    requires DefaultStaysClear(retires, view) && RetiresInOrder(retires, Keep(done, In(view.Keys)))
    requires d != v && IsDefault(Retired(view, done), ToInt32(v), d)
    ensures DefaultStaysClear(retires + [Retire(v, d)], view)
  {
    var more, retired := retires + [Retire(v, d)], Keep(done, In(view.Keys));
    KeepExact(done, In(view.Keys));
    assert forall k :: 0 <= k < |retires| ==> more[k] == retires[k] && retired[k] in retired;
    if d != 0 {
      assert Candidate(Retired(view, done), ToInt32(v), d);
      assert d !in done;
    }
  }

  /**
   * When v is retired, the default chosen while ignoring the narrowed v is right for afterwards if
   * and only if v fits in an int, or there is no default, or the default so far is neither v nor
   * the version that the narrowed v names.
   */
  lemma IgnoredExactlyWhenNarrow(view: View, v: Version, before: Version, chosen: Version)
    requires v > 0 && IsDefault(view, NOTHING_IGNORED, before) && IsDefault(view, ToInt32(v), chosen)
    ensures IsDefault(Retired(view, [v]), NOTHING_IGNORED, chosen) <==>
            v < 0x8000_0000 || before == 0 || (before != v && before != ToInt32(v))
  {
    var after := Retired(view, [v]);
    assert forall u: Version :: Candidate(after, NOTHING_IGNORED, u) <==> Candidate(view, NOTHING_IGNORED, u) && u != v;
    assert forall u: Version :: Candidate(view, ToInt32(v), u) ==> Candidate(view, NOTHING_IGNORED, u);
    if v < 0x8000_0000 {
      RetiredDefault(view, v, chosen);
    } else if before != 0 && before == v {
      assert Candidate(view, ToInt32(v), v);
    } else if before != 0 && before == ToInt32(v) {
      assert Candidate(after, NOTHING_IGNORED, before);
      assert chosen != before;
    } else if before != 0 {
      assert Candidate(view, ToInt32(v), before);
    }
  }
}
