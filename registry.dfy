/** The classes a plugin registers, as plain records: what the registries and
    `DiscoverMetamodels` ask of them (class name, base-class name, the
    transformation family and its extensions). */
module Registry {
  import opened Wrappers

  /** An operation class: `__name__`, `__base__.__name__`, and whether its
      instances follow the `OperationWithConfiguration` protocol. */
  datatype OperationClass = OperationClass(name: string, baseName: string, configurable: bool)

  /** The family a transformation class derives from. */
  datatype TransformationKind = TextToModel | ModelToText | ModelToModel | OtherTransformation

  /** A transformation class with `get_source_extension()` and
      `get_destination_extension()`; `produces` is the extension of the
      model its `transform()` builds (running it is not part of this
      model). */
  datatype TransformationClass = TransformationClass(name: string, kind: TransformationKind, source: string, destination: string, produces: string)

  /** The filters of `use_transformation_t2m`, `use_transformation_m2t` and
      `use_transformation_m2m`. */
  predicate ReadsFrom(t: TransformationClass, extension: string) {
    t.kind == TextToModel && t.source == extension
  }

  predicate WritesTo(t: TransformationClass, extension: string) {
    t.kind == ModelToText && t.destination == extension
  }

  predicate Converts(t: TransformationClass, source: string, destination: string) {
    t.kind == ModelToModel && t.destination == destination && t.source == source
  }

  /** The filter of the transformation listings of one family. */
  function OfKind(kind: TransformationKind): TransformationClass -> bool {
    (t: TransformationClass) => t.kind == kind
  }

  /** The exceptions the registries and the discoverer raise; `TypeError` is
      what calling a missing (`None`) class raises. */
  datatype Failure =
    | OperationNotFound
    | TransformationNotFound
    | PluginNotFound
    | ConfigurationNotFound
    | NotImplemented
    | AttributeError
    | TypeError

  /** `next(filter(f, xs), None)`: the position of the first element passing
      the filter, if any. */
  function FirstWhere<T>(xs: seq<T>, f: T -> bool): (r: Option<nat>)
    ensures r.Some? ==> r.value < |xs| && f(xs[r.value]) && forall k :: 0 <= k < r.value ==> !f(xs[k])
    ensures r.None? ==> forall k :: 0 <= k < |xs| ==> !f(xs[k])
  {
    if xs == [] then None
    else if f(xs[0]) then Some(0)
    else match FirstWhere(xs[1..], f)
      case None => None
      case Some(k) => Some(k + 1)
  }

  /** `next(filter(f, xs), None)` as the element itself. */
  function FirstOf<T>(xs: seq<T>, f: T -> bool): (r: Option<T>)
    ensures r.Some? <==> exists k :: 0 <= k < |xs| && f(xs[k])
    ensures r.Some? ==> exists k :: 0 <= k < |xs| && xs[k] == r.value && f(xs[k]) && forall j :: 0 <= j < k ==> !f(xs[j])
  {
    match FirstWhere(xs, f)
    case None => None
    case Some(k) => Some(xs[k])
  }

  /** The first match depends only on what the filter answers. */
  lemma {:induction false} FirstWhereExtensional<T>(xs: seq<T>, f: T -> bool, g: T -> bool)
    requires forall x :: x in xs ==> f(x) == g(x)
    ensures FirstWhere(xs, f) == FirstWhere(xs, g)
    ensures FirstOf(xs, f) == FirstOf(xs, g)
  {
    if xs != [] {
      assert forall x :: x in xs[1..] ==> x in xs;
      FirstWhereExtensional(xs[1..], f, g);
    }
  }

  /** The elements passing the filter, in order: a list comprehension with a
      condition. */
  function Filter<T>(xs: seq<T>, f: T -> bool): (r: seq<T>)
    ensures |r| <= |xs|
    ensures forall k :: 0 <= k < |r| ==> r[k] in xs && f(r[k])
    ensures forall k :: 0 <= k < |xs| && f(xs[k]) ==> xs[k] in r
  {
    if xs == [] then []
    else (if f(xs[0]) then [xs[0]] else []) + Filter(xs[1..], f)
  }

  /** Filtering keeps the order of the input: the survivors of a front part
      come before those of the rest. */
  lemma {:induction false} FilterAppend<T>(a: seq<T>, b: seq<T>, f: T -> bool)
    ensures Filter(a + b, f) == Filter(a, f) + Filter(b, f)
  {
    if a == [] {
      assert a + b == b;
    } else {
      assert (a + b)[0] == a[0];
      assert (a + b)[1..] == a[1..] + b;
      FilterAppend(a[1..], b, f);
    }
  }

  /** The elements whose flag is set, in order: a list comprehension whose
      condition was evaluated beforehand. */
  function Select<T>(xs: seq<T>, keep: seq<bool>): (r: seq<T>)
    requires |keep| == |xs|
    ensures |r| <= |xs|
  {
    if xs == [] then [] else (if keep[0] then [xs[0]] else []) + Select(xs[1..], keep[1..])
  }

  /** Each selected element is a flagged one, and every flagged one is
      selected. */
  lemma SelectMembers<T>(xs: seq<T>, keep: seq<bool>)
    requires |keep| == |xs|
    ensures forall k :: 0 <= k < |Select(xs, keep)| ==>
              keep[SelectOrigin(xs, keep, k)] && Select(xs, keep)[k] == xs[SelectOrigin(xs, keep, k)]
    ensures forall j :: 0 <= j < |xs| && keep[j] ==> xs[j] in Select(xs, keep)
  {
    forall j | 0 <= j < |xs| && keep[j]
      ensures xs[j] in Select(xs, keep)
    {
      SelectKeeps(xs, keep, j);
    }
  }

  /** The position of the `k`-th selected element. */
  ghost function SelectOrigin<T>(xs: seq<T>, keep: seq<bool>, k: nat): (j: nat)
    requires |keep| == |xs| && k < |Select(xs, keep)|
    ensures j < |xs| && keep[j] && Select(xs, keep)[k] == xs[j]
  {
    if keep[0] && k == 0 then 0
    else
      var k' := if keep[0] then k - 1 else k;
      assert Select(xs, keep)[k] == Select(xs[1..], keep[1..])[k'];
      SelectOrigin(xs[1..], keep[1..], k') + 1
  }

  /** Selection keeps the order of the input: the selected elements of a
      front part come before those of the rest. */
  lemma {:induction false} SelectAppend<T>(a: seq<T>, ka: seq<bool>, b: seq<T>, kb: seq<bool>)
    requires |ka| == |a| && |kb| == |b|
    ensures Select(a + b, ka + kb) == Select(a, ka) + Select(b, kb)
  {
    if a == [] {
      assert a + b == b && ka + kb == kb;
    } else {
      assert (a + b)[0] == a[0] && (ka + kb)[0] == ka[0];
      assert (a + b)[1..] == a[1..] + b && (ka + kb)[1..] == ka[1..] + kb;
      SelectAppend(a[1..], ka[1..], b, kb);
    }
  }

  /** The selected elements appear in the order of their positions in the
      input. */
  lemma {:induction false} SelectInOrder<T>(xs: seq<T>, keep: seq<bool>, i: nat, j: nat)
    requires |keep| == |xs| && i < j < |Select(xs, keep)|
    ensures SelectOrigin(xs, keep, i) < SelectOrigin(xs, keep, j)
  {
    assert xs != [];
    if keep[0] {
      assert Select(xs, keep) == [xs[0]] + Select(xs[1..], keep[1..]);
      if i > 0 {
        SelectInOrder(xs[1..], keep[1..], i - 1, j - 1);
      }
    } else {
      assert Select(xs, keep) == Select(xs[1..], keep[1..]);
      SelectInOrder(xs[1..], keep[1..], i, j);
    }
  }

  lemma {:induction false} SelectKeeps<T>(xs: seq<T>, keep: seq<bool>, j: nat)
    requires |keep| == |xs| && j < |xs| && keep[j]
    ensures xs[j] in Select(xs, keep)
  {
    if j > 0 {
      assert xs[1..][j - 1] == xs[j] && keep[1..][j - 1] == keep[j];
      SelectKeeps(xs[1..], keep[1..], j - 1);
    }
  }
}
