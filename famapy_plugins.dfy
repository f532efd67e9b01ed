/** famapy/core/plugins.py: the earlier generation of the plugin registry. Its
    plugin and plugin-list code is the flamapy code, except that operations
    are found by their base class name only and that a failed search yields
    `None`, which the caller then tries to instantiate. */
module FamapyPlugins {
  import opened Wrappers
  import opened Registry
  import FlamapyPlugins
  import FamapyUtils
  import FlamapyUtils

  /** `Operations.search_by_name`: the first operation whose base class has the
      name; `None` on a miss (the `StopIteration` handler is unreachable). */
  function SearchByName(ops: seq<OperationClass>, name: string): (r: Option<OperationClass>)
    ensures r.Some? ==> exists k :: 0 <= k < |ops| && ops[k] == r.value && ops[k].baseName == name
                          && forall j :: 0 <= j < k ==> ops[j].baseName != name
    ensures r.None? ==> forall op :: op in ops ==> op.baseName != name
  {
    FirstOf(ops, (op: OperationClass) => op.baseName == name)
  }

  /** When no class is itself called `name`, both generations find the same
      operation. */
  lemma {:induction false} SearchByNameAgrees(ops: seq<OperationClass>, name: string)
    requires forall op :: op in ops ==> op.name != name
    ensures match SearchByName(ops, name)
      case Some(op) => FlamapyPlugins.SearchByName(ops, name) == Ok(op)
      case None => FlamapyPlugins.SearchByName(ops, name) == Err(OperationNotFound)
  {
    if ops != [] {
      SearchByNameAgrees(ops[1..], name);
      assert FlamapyPlugins.NamedBy(ops[0], name) <==> ops[0].baseName == name;
      if ops[0].baseName != name {
        assert forall k :: 0 <= k < |ops| - 1 ==> ops[1..][k] == ops[k + 1];
      }
    }
  }

  /** An operation asked for by its own class name is missed here but found by
      flamapy. */
  lemma OwnNameMissed()
    ensures SearchByName([OperationClass("Glucose3Valid", "Valid", false)], "Glucose3Valid") == None
    ensures FlamapyPlugins.SearchByName([OperationClass("Glucose3Valid", "Valid", false)], "Glucose3Valid")
              == Ok(OperationClass("Glucose3Valid", "Valid", false))
  {
    var ops := [OperationClass("Glucose3Valid", "Valid", false)];
    assert ops[0].baseName != "Glucose3Valid";
    assert FlamapyPlugins.NamedBy(ops[0], "Glucose3Valid");
  }

  /** `Plugin.use_operation` up to executing it: instantiating a missed
      operation calls `None`. */
  function UseOperation(p: FlamapyPlugins.Plugin, name: string): (r: Result<OperationClass, Failure>)
    reads p
    ensures r.Ok? ==> r.value in p.operations && r.value.baseName == name
    ensures r.Err? <==> forall op :: op in p.operations ==> op.baseName != name
    ensures r.Err? ==> r.error == TypeError
  {
    match SearchByName(p.operations, name)
    case None => Err(TypeError)
    case Some(op) => Ok(op)
  }

  /** `Plugin.__get_transformation`: the first transformation passing the
      filter, or `None`. */
  function GetTransformation(p: FlamapyPlugins.Plugin, f: TransformationClass -> bool): (r: Option<TransformationClass>)
    reads p
    ensures r.Some? ==> exists k :: 0 <= k < |p.transformations| && p.transformations[k] == r.value && f(r.value)
                          && forall j :: 0 <= j < k ==> !f(p.transformations[j])
    ensures r.None? ==> forall t :: t in p.transformations ==> !f(t)
  {
    FirstOf(p.transformations, f)
  }

  /** Running the transformation a lookup produced: `None` cannot be called. */
  function Instantiate(t: Option<TransformationClass>): (r: Result<TransformationClass, Failure>)
    ensures r.Ok? <==> t.Some?
    ensures r.Ok? ==> r.value == t.value
    ensures r.Err? ==> r.error == TypeError
  {
    match t
    case None => Err(TypeError)
    case Some(x) => Ok(x)
  }

  /** `Plugin.use_transformation_t2m` up to running the transformation, with
      the `split`-based extension. */
  function UseTransformationT2M(p: FlamapyPlugins.Plugin, src: string): (r: Result<TransformationClass, Failure>)
    reads p
    ensures r.Ok? ==> r.value in p.transformations && r.value.kind == TextToModel
                        && r.value.source == FamapyUtils.ExtractFilenameExtension(src)
    ensures r.Ok? ==> exists k :: 0 <= k < |p.transformations| && p.transformations[k] == r.value
                        && forall j :: 0 <= j < k ==> !ReadsFrom(p.transformations[j], FamapyUtils.ExtractFilenameExtension(src))
    ensures r.Err? <==> forall t :: t in p.transformations ==> !ReadsFrom(t, FamapyUtils.ExtractFilenameExtension(src))
    ensures r.Err? ==> r.error == TypeError
  {
    var extension := FamapyUtils.ExtractFilenameExtension(src);
    Instantiate(GetTransformation(p, (t: TransformationClass) => ReadsFrom(t, extension)))
  }

  /** `Plugin.use_transformation_m2t` up to running the transformation. */
  function UseTransformationM2T(p: FlamapyPlugins.Plugin, dst: string): (r: Result<TransformationClass, Failure>)
    reads p
    ensures r.Ok? ==> r.value in p.transformations && r.value.kind == ModelToText
                        && r.value.destination == FamapyUtils.ExtractFilenameExtension(dst)
    ensures r.Ok? ==> exists k :: 0 <= k < |p.transformations| && p.transformations[k] == r.value
                        && forall j :: 0 <= j < k ==> !WritesTo(p.transformations[j], FamapyUtils.ExtractFilenameExtension(dst))
    ensures r.Err? <==> forall t :: t in p.transformations ==> !WritesTo(t, FamapyUtils.ExtractFilenameExtension(dst))
    ensures r.Err? ==> r.error == TypeError
  {
    var extension := FamapyUtils.ExtractFilenameExtension(dst);
    Instantiate(GetTransformation(p, (t: TransformationClass) => WritesTo(t, extension)))
  }

  /** `Plugin.use_transformation_m2m` up to running the transformation. */
  function UseTransformationM2M(p: FlamapyPlugins.Plugin, srcExtension: string, dst: string): (r: Result<TransformationClass, Failure>)
    reads p
    ensures r.Ok? ==> r.value in p.transformations && r.value.kind == ModelToModel
                        && r.value.destination == dst && r.value.source == srcExtension
    ensures r.Ok? ==> exists k :: 0 <= k < |p.transformations| && p.transformations[k] == r.value
                        && forall j :: 0 <= j < k ==> !Converts(p.transformations[j], srcExtension, dst)
    ensures r.Err? <==> forall t :: t in p.transformations ==> !Converts(t, srcExtension, dst)
    ensures r.Err? ==> r.error == TypeError
  {
    Instantiate(GetTransformation(p, (t: TransformationClass) => Converts(t, srcExtension, dst)))
  }

  /** The text-to-model lookup picks what flamapy picks; only the failure
      differs (`TypeError` instead of `TransformationNotFound`). */
  lemma T2MAgrees(p: FlamapyPlugins.Plugin, src: string)
    ensures UseTransformationT2M(p, src) == (match p.UseTransformationT2M(src) case Ok(t) => Ok(t) case Err(_) => Err(TypeError))
  {
    FamapyUtils.AgreesWithRsplit(src);
    var e := FamapyUtils.ExtractFilenameExtension(src);
    var e' := FlamapyUtils.ExtractFilenameExtension(src);
    var f := (t: TransformationClass) => ReadsFrom(t, e);
    var f' := (t: TransformationClass) => ReadsFrom(t, e');
    FirstWhereExtensional(p.transformations, f, f');
    assert FirstOf(p.transformations, f) == FirstOf(p.transformations, f');
    assert UseTransformationT2M(p, src) == Instantiate(FirstOf(p.transformations, f));
    assert p.UseTransformationT2M(src) == p.GetTransformation(f');
  }

  /** The same for the model-to-text lookup. */
  lemma M2TAgrees(p: FlamapyPlugins.Plugin, dst: string)
    ensures UseTransformationM2T(p, dst) == (match p.UseTransformationM2T(dst) case Ok(t) => Ok(t) case Err(_) => Err(TypeError))
  {
    FamapyUtils.AgreesWithRsplit(dst);
    var e := FamapyUtils.ExtractFilenameExtension(dst);
    var e' := FlamapyUtils.ExtractFilenameExtension(dst);
    var f := (t: TransformationClass) => WritesTo(t, e);
    var f' := (t: TransformationClass) => WritesTo(t, e');
    FirstWhereExtensional(p.transformations, f, f');
    assert FirstOf(p.transformations, f) == FirstOf(p.transformations, f');
    assert UseTransformationM2T(p, dst) == Instantiate(FirstOf(p.transformations, f));
    assert p.UseTransformationM2T(dst) == p.GetTransformation(f');
  }
}
