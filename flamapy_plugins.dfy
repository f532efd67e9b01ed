/** flamapy/core/plugins.py: a plugin groups the operation and transformation
    classes of one metamodel package; the plugin list finds plugins by name or
    by the extension of their variability model. */
module FlamapyPlugins {
  import opened Wrappers
  import opened Registry
  import FlamapyUtils
  import FamapyUtils

  /** The filter of `Operations.search_by_name`: the class itself or its base
      class carries the name. */
  predicate NamedBy(op: OperationClass, name: string) {
    name == op.name || name == op.baseName
  }

  /** `Operations.search_by_name`: the first operation named `name` directly or
      through its base class; `OperationNotFound` otherwise. */
  function SearchByName(ops: seq<OperationClass>, name: string): (r: Result<OperationClass, Failure>)
    ensures r.Ok? ==> exists k :: 0 <= k < |ops| && ops[k] == r.value && NamedBy(ops[k], name)
                        && forall j :: 0 <= j < k ==> !NamedBy(ops[j], name)
    ensures r.Err? ==> r.error == OperationNotFound && forall op :: op in ops ==> !NamedBy(op, name)
  {
    match FirstOf(ops, op => NamedBy(op, name))
    case None => Err(OperationNotFound)
    case Some(op) => Ok(op)
  }

  /** An operation found under its base name is also found under its own
      class name, unless an earlier one claims that name. */
  lemma SearchByNameFindsBoth(ops: seq<OperationClass>, k: nat)
    requires k < |ops| && forall j :: 0 <= j < k ==> !NamedBy(ops[j], ops[k].name) && !NamedBy(ops[j], ops[k].baseName)
    ensures SearchByName(ops, ops[k].name) == Ok(ops[k])
    ensures SearchByName(ops, ops[k].baseName) == Ok(ops[k])
  {
    var r := SearchByName(ops, ops[k].name);
    assert NamedBy(ops[k], ops[k].name);
    var i :| 0 <= i < |ops| && ops[i] == r.value && NamedBy(ops[i], ops[k].name)
             && forall j :: 0 <= j < i ==> !NamedBy(ops[j], ops[k].name);
    assert i == k;
    var s := SearchByName(ops, ops[k].baseName);
    assert NamedBy(ops[k], ops[k].baseName);
    var i' :| 0 <= i' < |ops| && ops[i'] == s.value && NamedBy(ops[i'], ops[k].baseName)
              && forall j :: 0 <= j < i' ==> !NamedBy(ops[j], ops[k].baseName);
    assert i' == k;
  }

  /** The three entries of `Plugin.get_stats`. */
  datatype PluginStats = PluginStats(amountOperations: nat, amountTransformations: nat, variabilityModel: bool)

  class Plugin {
    /** `module.__name__`. */
    const moduleName: string
    /** The extension of the plugin's variability model; `None` until the
        discoverer sets one. */
    var variabilityModel: Option<string>
    var operations: seq<OperationClass>
    var transformations: seq<TransformationClass>

    constructor (moduleName: string)
      ensures this.moduleName == moduleName
      ensures variabilityModel == None && operations == [] && transformations == []
    {
      this.moduleName := moduleName;
      variabilityModel := None;
      operations := [];
      transformations := [];
    }

    /** `append_operation`: one more operation, the rest untouched. */
    method AppendOperation(op: OperationClass)
      modifies this
      ensures operations == old(operations) + [op]
      ensures transformations == old(transformations) && variabilityModel == old(variabilityModel)
      ensures GetStats() == old(GetStats()).(amountOperations := old(GetStats()).amountOperations + 1)
    {
      operations := operations + [op];
    }

    /** `append_transformations`: one more transformation, the rest untouched. */
    method AppendTransformation(t: TransformationClass)
      modifies this
      ensures transformations == old(transformations) + [t]
      ensures operations == old(operations) && variabilityModel == old(variabilityModel)
      ensures GetStats() == old(GetStats()).(amountTransformations := old(GetStats()).amountTransformations + 1)
    {
      transformations := transformations + [t];
    }

    /** `get_operation` up to the instantiation of the class it finds. */
    function GetOperation(name: string): (r: Result<OperationClass, Failure>)
      reads this
      ensures r.Ok? ==> r.value in operations && NamedBy(r.value, name)
      ensures r.Ok? ==> exists k :: 0 <= k < |operations| && operations[k] == r.value
                          && forall j :: 0 <= j < k ==> !NamedBy(operations[j], name)
      ensures r.Err? <==> forall op :: op in operations ==> !NamedBy(op, name)
      ensures r.Err? ==> r.error == OperationNotFound
    {
      SearchByName(operations, name)
    }

    /** `__get_transformation`: the first registered transformation passing
        the filter, `TransformationNotFound` otherwise. */
    function GetTransformation(f: TransformationClass -> bool): (r: Result<TransformationClass, Failure>)
      reads this
      ensures r.Ok? ==> exists k :: 0 <= k < |transformations| && transformations[k] == r.value && f(r.value)
                          && forall j :: 0 <= j < k ==> !f(transformations[j])
      ensures r.Err? ==> r.error == TransformationNotFound && forall t :: t in transformations ==> !f(t)
    {
      match FirstOf(transformations, f)
      case None => Err(TransformationNotFound)
      case Some(t) => Ok(t)
    }

    /** `use_transformation_t2m` up to running the transformation: the
        text-to-model transformation reading the file's extension. */
    function UseTransformationT2M(src: string): (r: Result<TransformationClass, Failure>)
      reads this
      ensures r.Ok? ==> r.value in transformations && r.value.kind == TextToModel
                          && r.value.source == FlamapyUtils.ExtractFilenameExtension(src)
      ensures r.Ok? ==> exists k :: 0 <= k < |transformations| && transformations[k] == r.value
                          && forall j :: 0 <= j < k ==> !ReadsFrom(transformations[j], FlamapyUtils.ExtractFilenameExtension(src))
      ensures r.Err? ==> r.error == TransformationNotFound
                           && forall t :: t in transformations && t.kind == TextToModel
                                ==> t.source != FlamapyUtils.ExtractFilenameExtension(src)
    {
      var extension := FlamapyUtils.ExtractFilenameExtension(src);
      GetTransformation((t: TransformationClass) => ReadsFrom(t, extension))
    }

    /** `use_transformation_m2t` up to running the transformation: the
        model-to-text transformation writing the destination's extension. */
    function UseTransformationM2T(dst: string): (r: Result<TransformationClass, Failure>)
      reads this
      ensures r.Ok? ==> r.value in transformations && r.value.kind == ModelToText
                          && r.value.destination == FlamapyUtils.ExtractFilenameExtension(dst)
      ensures r.Ok? ==> exists k :: 0 <= k < |transformations| && transformations[k] == r.value
                          && forall j :: 0 <= j < k ==> !WritesTo(transformations[j], FlamapyUtils.ExtractFilenameExtension(dst))
      ensures r.Err? ==> r.error == TransformationNotFound
                           && forall t :: t in transformations && t.kind == ModelToText
                                ==> t.destination != FlamapyUtils.ExtractFilenameExtension(dst)
    {
      var extension := FlamapyUtils.ExtractFilenameExtension(dst);
      GetTransformation((t: TransformationClass) => WritesTo(t, extension))
    }

    /** `use_transformation_m2m` up to running the transformation: the
        model-to-model transformation from the source model's extension to
        `dst` (compared whole, not as a file name). */
    function UseTransformationM2M(srcExtension: string, dst: string): (r: Result<TransformationClass, Failure>)
      reads this
      ensures r.Ok? ==> r.value in transformations && r.value.kind == ModelToModel
                          && r.value.destination == dst && r.value.source == srcExtension
      ensures r.Ok? ==> exists k :: 0 <= k < |transformations| && transformations[k] == r.value
                          && forall j :: 0 <= j < k ==> !Converts(transformations[j], srcExtension, dst)
      ensures r.Err? ==> r.error == TransformationNotFound
                           && forall t :: t in transformations && t.kind == ModelToModel
                                ==> t.destination != dst || t.source != srcExtension
    {
      GetTransformation((t: TransformationClass) => Converts(t, srcExtension, dst))
    }

    /** `get_extension`: reading the extension of an unset variability model
        raises `AttributeError`. */
    function GetExtension(): (r: Result<string, Failure>)
      reads this
      ensures r.Ok? <==> variabilityModel.Some?
      ensures r.Ok? ==> variabilityModel == Some(r.value)
      ensures r.Err? ==> r.error == AttributeError
    {
      match variabilityModel
      case None => Err(AttributeError)
      case Some(e) => Ok(e)
    }

    /** The `name` property: the last dotted component of the module name. */
    function Name(): (r: string)
      ensures '.' !in r
    {
      FamapyUtils.ExtractFilenameExtension(moduleName)
    }

    /** The name is a suffix of the module name, and the whole of it when
        the module is not in a package. */
    lemma NameIsLastComponent()
      ensures |Name()| <= |moduleName| && moduleName[|moduleName| - |Name()|..] == Name()
      ensures '.' !in moduleName ==> Name() == moduleName
    {
    }

    /** `get_stats`: the counts of both lists and whether a variability model
        is set; the flag agrees with whether `get_extension` succeeds. */
    function GetStats(): (r: PluginStats)
      reads this
      ensures r.amountOperations == |operations| && r.amountTransformations == |transformations|
      ensures r.variabilityModel <==> GetExtension().Ok?
    {
      PluginStats(|operations|, |transformations|, variabilityModel.Some?)
    }
  }

  /** `Plugins.get_plugin_by_name`: the first plugin with that name,
      `PluginNotFound` otherwise. The plugin list is a sequence of plugin
      objects. */
  function GetPluginByName(ps: seq<Plugin>, name: string): (r: Result<Plugin, Failure>)
    ensures r.Ok? ==> exists k :: 0 <= k < |ps| && ps[k] == r.value && r.value.Name() == name
                        && forall j :: 0 <= j < k ==> ps[j].Name() != name
    ensures r.Err? ==> r.error == PluginNotFound && forall p :: p in ps ==> p.Name() != name
  {
    var names := GetPluginNames(ps);
    match FirstWhere(names, (n: string) => n == name)
    case None =>
      assert forall p :: p in ps ==> exists k :: 0 <= k < |ps| && ps[k] == p;
      Err(PluginNotFound)
    case Some(k) => Ok(ps[k])
  }

  /** `Plugins.get_plugin_by_extension`: the filter asks every plugin it
      passes for its extension, so a plugin without a variability model met
      before a match raises `AttributeError`. */
  function GetPluginByExtension(ps: seq<Plugin>, extension: string): (r: Result<Plugin, Failure>)
    reads ps
    ensures r.Ok? ==> r.value in ps && r.value.variabilityModel == Some(extension)
    ensures r.Err? ==> r.error == PluginNotFound || r.error == AttributeError
  {
    if ps == [] then Err(PluginNotFound)
    else match ps[0].GetExtension()
      case Err(e) => Err(e)
      case Ok(e) => if e == extension then Ok(ps[0]) else GetPluginByExtension(ps[1..], extension)
  }

  /** The plugins before position `k` all have a variability model that is
      not `extension`. */
  ghost predicate PassedBy(ps: seq<Plugin>, extension: string, k: nat)
    requires k <= |ps|
    reads ps
  {
    forall j :: 0 <= j < k ==> ps[j].variabilityModel.Some? && ps[j].variabilityModel != Some(extension)
  }

  /** What `get_plugin_by_extension` returns, position by position: the first
      plugin that either lacks a variability model or has the extension
      decides; `PluginNotFound` only when every plugin was passed. */
  lemma {:induction false} GetPluginByExtensionDecides(ps: seq<Plugin>, extension: string)
    ensures GetPluginByExtension(ps, extension) == Err(PluginNotFound) <==> PassedBy(ps, extension, |ps|)
    ensures forall k :: 0 <= k < |ps| && PassedBy(ps, extension, k) && ps[k].variabilityModel == Some(extension)
              ==> GetPluginByExtension(ps, extension) == Ok(ps[k])
    ensures forall k :: 0 <= k < |ps| && PassedBy(ps, extension, k) && ps[k].variabilityModel == None
              ==> GetPluginByExtension(ps, extension) == Err(AttributeError)
    decreases |ps|
  {
    if ps != [] {
      GetPluginByExtensionDecides(ps[1..], extension);
      assert forall k :: 0 < k <= |ps| && PassedBy(ps, extension, k) ==> PassedBy(ps[1..], extension, k - 1);
      if ps[0].variabilityModel.Some? && ps[0].variabilityModel != Some(extension) {
        assert forall k :: 0 < k <= |ps| && PassedBy(ps[1..], extension, k - 1) ==> PassedBy(ps, extension, k);
      }
    }
  }

  /** With a variability model on every plugin, `AttributeError` cannot
      arise and the first plugin of that extension is found. */
  lemma GetPluginByExtensionAllSet(ps: seq<Plugin>, extension: string, k: nat)
    requires forall p :: p in ps ==> p.variabilityModel.Some?
    requires k < |ps| && ps[k].variabilityModel == Some(extension)
    requires forall j :: 0 <= j < k ==> ps[j].variabilityModel != Some(extension)
    ensures GetPluginByExtension(ps, extension) == Ok(ps[k])
  {
    assert forall j :: 0 <= j < k ==> ps[j] in ps;
    assert PassedBy(ps, extension, k);
    GetPluginByExtensionDecides(ps, extension);
  }

  /** `Plugins.get_plugin_names`. */
  function GetPluginNames(ps: seq<Plugin>): (r: seq<string>)
    ensures |r| == |ps|
    ensures forall k :: 0 <= k < |ps| ==> r[k] == ps[k].Name()
  {
    seq(|ps|, k requires 0 <= k < |ps| => ps[k].Name())
  }

  /** `Plugins.get_variability_models`, as the extensions (or their absence). */
  function GetVariabilityModels(ps: seq<Plugin>): (r: seq<Option<string>>)
    reads ps
    ensures |r| == |ps|
    ensures forall k :: 0 <= k < |ps| ==> r[k] == ps[k].variabilityModel
  {
    seq(|ps|, k requires 0 <= k < |ps| reads ps => ps[k].variabilityModel)
  }

  /** `Plugins.get_operations_by_plugin_name`: the operations of the plugin
      `get_plugin_by_name` finds, and no operations for an unknown name. */
  function GetOperationsByPluginName(ps: seq<Plugin>, name: string): (r: seq<OperationClass>)
    reads ps
    ensures (forall p :: p in ps ==> p.Name() != name) ==> r == []
    ensures forall k :: 0 <= k < |ps| && ps[k].Name() == name && (forall j :: 0 <= j < k ==> ps[j].Name() != name)
              ==> r == ps[k].operations
  {
    match GetPluginByName(ps, name)
    case Ok(p) => p.operations
    case Err(_) => []
  }

  /** With distinct plugin names every plugin's own operations come back. */
  lemma OperationsByOwnName(ps: seq<Plugin>, k: nat)
    requires k < |ps|
    requires forall i, j :: 0 <= i < j < |ps| ==> ps[i].Name() != ps[j].Name()
    ensures GetOperationsByPluginName(ps, ps[k].Name()) == ps[k].operations
  {
  }

  /** A value of the dictionary `Plugins.get_stats` builds. */
  datatype StatValue = Amount(n: nat) | Entry(stats: PluginStats)

  /** The dictionary after the loop of `Plugins.get_stats` has visited the
      first `i` plugins. */
  function StatsUpTo(ps: seq<Plugin>, i: nat): (r: map<string, StatValue>)
    requires i <= |ps|
    reads ps
    ensures "amount_plugins" in r
    ensures forall k :: 0 <= k < i ==> ps[k].Name() in r
  {
    if i == 0 then map["amount_plugins" := Amount(|ps|)]
    else StatsUpTo(ps, i - 1)[ps[i - 1].Name() := Entry(ps[i - 1].GetStats())]
  }

  /** `Plugins.get_stats`: the plugin count, then one entry per plugin name. */
  method GetPluginsStats(ps: seq<Plugin>) returns (stats: map<string, StatValue>)
    ensures stats == StatsUpTo(ps, |ps|)
  {
    stats := map["amount_plugins" := Amount(|ps|)];
    for i := 0 to |ps|
      invariant stats == StatsUpTo(ps, i)
    {
      stats := stats[ps[i].Name() := Entry(ps[i].GetStats())];
    }
  }

  /** The keys are the count's key and the plugin names. */
  lemma {:induction false} StatsKeys(ps: seq<Plugin>, i: nat)
    requires i <= |ps|
    ensures forall x :: x in StatsUpTo(ps, i) <==> x == "amount_plugins" || x in GetPluginNames(ps)[..i]
  {
    if i > 0 {
      StatsKeys(ps, i - 1);
      assert GetPluginNames(ps)[..i] == GetPluginNames(ps)[..i - 1] + [ps[i - 1].Name()];
    }
  }

  /** A name shared by several plugins keeps the statistics of the last of
      them. */
  lemma {:induction false} StatsLastWins(ps: seq<Plugin>, i: nat, k: nat)
    requires k < i <= |ps|
    requires forall j :: k < j < i ==> ps[j].Name() != ps[k].Name()
    ensures ps[k].Name() in StatsUpTo(ps, i) && StatsUpTo(ps, i)[ps[k].Name()] == Entry(ps[k].GetStats())
  {
    if k < i - 1 {
      StatsLastWins(ps, i - 1, k);
    }
  }

  /** The count survives unless a plugin is itself named "amount_plugins". */
  lemma {:induction false} StatsAmount(ps: seq<Plugin>, i: nat)
    requires i <= |ps|
    requires forall j :: 0 <= j < i ==> ps[j].Name() != "amount_plugins"
    ensures "amount_plugins" in StatsUpTo(ps, i) && StatsUpTo(ps, i)["amount_plugins"] == Amount(|ps|)
  {
    if i > 0 {
      StatsAmount(ps, i - 1);
    }
  }

  /** A plugin named "amount_plugins" replaces the plugin count. */
  lemma StatsCountOverwritten(ps: seq<Plugin>)
    requires |ps| > 0 && ps[|ps| - 1].Name() == "amount_plugins"
    ensures StatsUpTo(ps, |ps|)["amount_plugins"] == Entry(ps[|ps| - 1].GetStats())
  {
  }
}
