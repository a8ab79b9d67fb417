/** Which changes of a model's configuration require a reload. */
module ModelConfig {
  import opened FifoPool

  datatype Mode = FIXED | AUTO

  /** A static or ranged dimension; two are equal if both bounds are. */
  datatype Dimension = Dimension(minimum: int, maximum: int)

  datatype ShapeInfo = ShapeInfo(shapeMode: Mode, shape: seq<Dimension>)

  datatype LayoutConfiguration = LayoutConfiguration(tensor: string, model: string)

  datatype Config = Config(
    name: string,
    basePath: string,
    targetDevice: string,
    batchingMode: Mode,
    batchSize: Option<Dimension>,
    nireq: nat,
    stateful: bool,
    idleSequenceCleanup: bool,
    lowLatencyTransformation: bool,
    maxSequenceNumber: nat,
    isAllowCacheTrue: bool,
    version: nat,
    cacheDir: string,
    pluginConfig: map<string, string>,
    layout: LayoutConfiguration,
    shapes: map<string, ShapeInfo>,
    layouts: map<string, LayoutConfiguration>,
    customLoaderOptions: map<string, string>
  ) {
    /** The configuration without its version and cache directory, the fields here that may change without a reload. */
    function Essence(): Config {
      this.(version := 0, cacheDir := "")
    }
  }

  /** Two configurations that differ in what a loaded model depends on. */
  predicate ReloadRequired(loaded: Config, requested: Config) {
    loaded.Essence() != requested.Essence()
  }

  /** The loops over named layouts and named shapes: equal sizes and every entry found. */
  method IsMapEqual<V(==)>(lhs: map<string, V>, rhs: map<string, V>) returns (equal: bool)
    ensures equal <==> lhs == rhs
  {
    if |lhs| != |rhs| {
      return false;
    }
    var remaining := lhs.Keys;
    while remaining != {}
      invariant remaining <= lhs.Keys
      invariant forall name :: name in lhs.Keys - remaining ==> name in rhs && rhs[name] == lhs[name]
      decreases remaining
    {
      var name :| name in remaining;
      if name !in rhs {
        return false;
      }
      if lhs[name] != rhs[name] {
        return false;
      }
      remaining := remaining - {name};
    }
    SameSizeSubset(lhs.Keys, rhs.Keys);
    equal := true;
  }

  /** A subset of the same size is the whole set. */
  lemma SameSizeSubset<T>(a: set<T>, b: set<T>)
    requires a <= b && |a| == |b|
    ensures a == b
  {
    assert |b - a| == |b| - |a| by {
      assert b == a + (b - a);
    }
  }

  method IsCustomLoaderConfigChanged(loaded: Config, requested: Config) returns (changed: bool)
    ensures changed <==> loaded.customLoaderOptions != requested.customLoaderOptions
  {
    if |loaded.customLoaderOptions| != |requested.customLoaderOptions| {
      return true;
    }
    if |loaded.customLoaderOptions| > 0 && |requested.customLoaderOptions| > 0 {
      if !(loaded.customLoaderOptions == requested.customLoaderOptions) {
        return true;
      }
    }
    changed := false;
  }

  method IsBatchSizeConfigurationEqual(loaded: Config, requested: Config) returns (equal: bool)
    ensures equal <==> loaded.batchSize == requested.batchSize
  {
    if loaded.batchSize.Some? != requested.batchSize.Some? {
      return false;
    }
    if loaded.batchSize.Some? && loaded.batchSize.value != requested.batchSize.value {
      return false;
    }
    equal := true;
  }

  method IsLayoutConfigurationEqual(loaded: Config, requested: Config) returns (equal: bool)
    ensures equal <==> loaded.layout == requested.layout && loaded.layouts == requested.layouts
  {
    if loaded.layout != requested.layout {
      return false;
    }
    equal := IsMapEqual(loaded.layouts, requested.layouts);
  }

  predicate SameScalars(loaded: Config, requested: Config) {
    && loaded.name == requested.name
    && loaded.stateful == requested.stateful
    && loaded.idleSequenceCleanup == requested.idleSequenceCleanup
    && loaded.maxSequenceNumber == requested.maxSequenceNumber
    && loaded.lowLatencyTransformation == requested.lowLatencyTransformation
    && loaded.basePath == requested.basePath
    && loaded.targetDevice == requested.targetDevice
    && loaded.batchingMode == requested.batchingMode
    && loaded.nireq == requested.nireq
    && loaded.isAllowCacheTrue == requested.isAllowCacheTrue
  }

  lemma EssenceByField(loaded: Config, requested: Config)
    ensures ReloadRequired(loaded, requested) <==>
            !SameScalars(loaded, requested)
            || loaded.batchSize != requested.batchSize
            || loaded.pluginConfig != requested.pluginConfig
            || loaded.layout != requested.layout
            || loaded.layouts != requested.layouts
            || loaded.shapes != requested.shapes
            || loaded.customLoaderOptions != requested.customLoaderOptions
  {}

  /** Only versions and cache directories may differ without a reload, and they do not matter. */
  lemma ReloadRequiredExactly(loaded: Config, requested: Config)
    ensures ReloadRequired(loaded, requested) <==>
            loaded.(version := requested.version, cacheDir := requested.cacheDir) != requested
    ensures loaded.version == requested.version && loaded.cacheDir == requested.cacheDir ==>
              (ReloadRequired(loaded, requested) <==> loaded != requested)
    ensures forall v, w, dir, other ::
              ReloadRequired(loaded.(version := v, cacheDir := dir), requested.(version := w, cacheDir := other)) <==>
              ReloadRequired(loaded, requested)
  {}

  /** The chain of comparisons decides exactly whether anything but the version and the cache directory differs. */
  method IsReloadRequired(loaded: Config, requested: Config) returns (required: bool)
    ensures required <==> loaded.(version := requested.version, cacheDir := requested.cacheDir) != requested
    ensures required <==> ReloadRequired(loaded, requested)
  {
    ReloadRequiredExactly(loaded, requested);
    EssenceByField(loaded, requested);
    if !SameScalars(loaded, requested) {
      return true;
    }
    var batchEqual := IsBatchSizeConfigurationEqual(loaded, requested);
    if !batchEqual {
      return true;
    }
    if loaded.pluginConfig != requested.pluginConfig {
      return true;
    }
    var layoutEqual := IsLayoutConfigurationEqual(loaded, requested);
    if !layoutEqual {
      return true;
    }
    var shapeEqual := IsMapEqual(loaded.shapes, requested.shapes);
    if !shapeEqual {
      return true;
    }
    required := IsCustomLoaderConfigChanged(loaded, requested);
  }
}
