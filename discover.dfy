/** flamapy/core/discover.py: `DiscoverMetamodels` answers questions about the
    discovered plugins (which operations exist, which plugins offer one) and
    runs an operation on a model file, converting the model through a chain of
    model-to-model transformations when the plugin that read the file does not
    offer the operation. */
module Discover {
  import opened Wrappers
  import opened Registry
  import opened FlamapyPlugins
  import FamapyUtils

  // ---------------------------------------------------------------------
  // Listings

  /** The operations of all plugins, in plugin order (`get_operations`). */
  function AllOperations(ps: seq<Plugin>): (r: seq<OperationClass>)
    reads ps
    ensures forall op :: op in r <==> exists k :: 0 <= k < |ps| && op in ps[k].operations
  {
    if ps == [] then []
    else
      var front := ps[..|ps| - 1];
      assert forall k :: 0 <= k < |front| ==> front[k] == ps[k];
      AllOperations(front) + ps[|ps| - 1].operations
  }

  /** The listing is made plugin by plugin, each plugin's operations in the
      order it registered them. */
  lemma {:induction false} AllOperationsAppend(a: seq<Plugin>, b: seq<Plugin>)
    ensures AllOperations(a + b) == AllOperations(a) + AllOperations(b)
    ensures |b| == 1 ==> AllOperations(b) == b[0].operations
    decreases |b|
  {
    if b == [] {
      assert a + b == a;
    } else {
      var b' := b[..|b| - 1];
      assert (a + b)[..|a + b| - 1] == a + b';
      assert (a + b)[|a + b| - 1] == b[|b| - 1];
      AllOperationsAppend(a, b');
      if |b| == 1 {
        assert b' == [];
      }
    }
  }

  /** The names `get_name_operations` collects: each operation's class name,
      then its base-class name unless that is "ABC". */
  function NameOperations(ops: seq<OperationClass>): (r: seq<string>)
    ensures |ops| <= |r| <= 2 * |ops|
    ensures forall x :: x in r <==> exists k :: 0 <= k < |ops| && (x == ops[k].name || (x == ops[k].baseName && x != "ABC"))
  {
    if ops == [] then []
    else
      var op := ops[|ops| - 1];
      var front := ops[..|ops| - 1];
      assert forall k :: 0 <= k < |front| ==> front[k] == ops[k];
      NameOperations(front) + [op.name] + (if op.baseName != "ABC" then [op.baseName] else [])
  }

  /** The listing is made operation by operation. */
  lemma {:induction false} NameOperationsAppend(a: seq<OperationClass>, b: seq<OperationClass>)
    ensures NameOperations(a + b) == NameOperations(a) + NameOperations(b)
    decreases |b|
  {
    if b == [] {
      assert a + b == a;
    } else {
      var b' := b[..|b| - 1];
      assert (a + b)[..|a + b| - 1] == a + b';
      assert (a + b)[|a + b| - 1] == b[|b| - 1];
      NameOperationsAppend(a, b');
    }
  }

  /** A listed name other than "ABC" is one that `search_by_name` finds. */
  lemma ListedNamesAreFound(ops: seq<OperationClass>, x: string)
    requires x in NameOperations(ops)
    ensures SearchByName(ops, x).Ok?
  {
    var k :| 0 <= k < |ops| && (x == ops[k].name || (x == ops[k].baseName && x != "ABC"));
    assert NamedBy(ops[k], x);
  }

  /** An operation reached only through the base name "ABC" is found by
      `search_by_name` but never listed. */
  lemma AbcBaseNotListed()
    ensures "ABC" !in NameOperations([OperationClass("Operation", "ABC", false)])
    ensures SearchByName([OperationClass("Operation", "ABC", false)], "ABC").Ok?
  {
    assert NamedBy(OperationClass("Operation", "ABC", false), "ABC");
  }

  /** The transformations of one family over all plugins, in plugin order
      (`get_transformations_t2m`, `get_transformations_m2m`). */
  function TransformationsOfKind(ps: seq<Plugin>, kind: TransformationKind): (r: seq<TransformationClass>)
    reads ps
    ensures forall k :: 0 <= k < |r| ==> r[k].kind == kind
    ensures forall t :: t in r <==> t.kind == kind && exists k :: 0 <= k < |ps| && t in ps[k].transformations
  {
    if ps == [] then []
    else
      var front := ps[..|ps| - 1];
      assert forall k :: 0 <= k < |front| ==> front[k] == ps[k];
      var last := ps[|ps| - 1].transformations;
      var mine := Filter(last, OfKind(kind));
      assert forall t :: t in mine <==> t in last && t.kind == kind by {
        forall t | t in last && t.kind == kind ensures t in mine {
          var i :| 0 <= i < |last| && last[i] == t;
        }
      }
      TransformationsOfKind(front, kind) + mine
  }

  /** The listing is made plugin by plugin, each plugin's transformations of
      the family in the order it registered them. */
  lemma {:induction false} TransformationsOfKindAppend(a: seq<Plugin>, b: seq<Plugin>, kind: TransformationKind)
    ensures TransformationsOfKind(a + b, kind) == TransformationsOfKind(a, kind) + TransformationsOfKind(b, kind)
    decreases |b|
  {
    if b == [] {
      assert a + b == a;
    } else {
      var b' := b[..|b| - 1];
      assert (a + b)[..|a + b| - 1] == a + b';
      assert (a + b)[|a + b| - 1] == b[|b| - 1];
      var mine := Filter(b[|b| - 1].transformations, OfKind(kind));
      calc {
        TransformationsOfKind(a + b, kind);
        == { TransformationsOfKindLast(a + b, kind); }
        TransformationsOfKind(a + b', kind) + mine;
        == { TransformationsOfKindAppend(a, b', kind); }
        (TransformationsOfKind(a, kind) + TransformationsOfKind(b', kind)) + mine;
        == { SeqAssociative(TransformationsOfKind(a, kind), TransformationsOfKind(b', kind), mine); }
        TransformationsOfKind(a, kind) + (TransformationsOfKind(b', kind) + mine);
        == { TransformationsOfKindLast(b, kind); }
        TransformationsOfKind(a, kind) + TransformationsOfKind(b, kind);
      }
    }
  }

  lemma SeqAssociative<T>(x: seq<T>, y: seq<T>, z: seq<T>)
    ensures (x + y) + z == x + (y + z)
  {
  }

  lemma TransformationsOfKindLast(ps: seq<Plugin>, kind: TransformationKind)
    requires ps != []
    ensures TransformationsOfKind(ps, kind)
              == TransformationsOfKind(ps[..|ps| - 1], kind) + Filter(ps[|ps| - 1].transformations, OfKind(kind))
  {
  }

  /** One plugin's share of the listing. */
  lemma TransformationsOfOne(p: Plugin, kind: TransformationKind)
    ensures TransformationsOfKind([p], kind) == Filter(p.transformations, OfKind(kind))
  {
    assert [p][..0] == [];
  }

  /** `get_plugins_with_operation` tests a plugin by looking its name up
      again: the first plugin of that name decides. */
  predicate Offers(ps: seq<Plugin>, p: Plugin, opName: string)
    reads ps
  {
    opName in NameOperations(GetOperationsByPluginName(ps, p.Name()))
  }

  /** The condition of the comprehension of `get_plugins_with_operation`,
      for each candidate. */
  function OfferFlags(ps: seq<Plugin>, candidates: seq<Plugin>, opName: string): (r: seq<bool>)
    reads ps
    ensures |r| == |candidates|
    ensures forall k :: 0 <= k < |candidates| ==> r[k] == Offers(ps, candidates[k], opName)
  {
    seq(|candidates|, k requires 0 <= k < |candidates| reads ps => Offers(ps, candidates[k], opName))
  }

  /** `get_plugins_with_operation`: the plugins offering the operation, in
      plugin order. */
  function PluginsWithOperation(ps: seq<Plugin>, opName: string): (r: seq<Plugin>)
    reads ps
    ensures |r| <= |ps|
    ensures forall k :: 0 <= k < |r| ==> r[k] in ps && Offers(ps, r[k], opName)
    ensures forall k :: 0 <= k < |ps| && Offers(ps, ps[k], opName) ==> ps[k] in r
  {
    SelectMembers(ps, OfferFlags(ps, ps, opName));
    Select(ps, OfferFlags(ps, ps, opName))
  }

  /** The offering plugins of a front part of the list come before those of
      the rest. */
  lemma PluginsWithOperationAppend(ps: seq<Plugin>, a: seq<Plugin>, b: seq<Plugin>, opName: string)
    requires ps == a + b
    ensures PluginsWithOperation(ps, opName)
              == Select(a, OfferFlags(ps, a, opName)) + Select(b, OfferFlags(ps, b, opName))
  {
    calc {
      PluginsWithOperation(ps, opName);
      Select(a + b, OfferFlags(ps, a + b, opName));
      == { OfferFlagsAppend(ps, a, b, opName); }
      Select(a + b, OfferFlags(ps, a, opName) + OfferFlags(ps, b, opName));
      == { SelectAppend(a, OfferFlags(ps, a, opName), b, OfferFlags(ps, b, opName)); }
      Select(a, OfferFlags(ps, a, opName)) + Select(b, OfferFlags(ps, b, opName));
    }
  }

  /** The flags of a split candidate list are the flags of its parts. */
  lemma OfferFlagsAppend(ps: seq<Plugin>, a: seq<Plugin>, b: seq<Plugin>, opName: string)
    ensures OfferFlags(ps, a + b, opName) == OfferFlags(ps, a, opName) + OfferFlags(ps, b, opName)
  {
    var flags := OfferFlags(ps, a, opName) + OfferFlags(ps, b, opName);
    forall k | 0 <= k < |a + b|
      ensures OfferFlags(ps, a + b, opName)[k] == flags[k]
    {
      if k < |a| {
        assert (a + b)[k] == a[k];
      } else {
        assert (a + b)[k] == b[k - |a|];
      }
    }
  }

  /** Of two listed plugins, the earlier one comes from an earlier position of
      the plugin list. */
  lemma PluginsWithOperationInOrder(ps: seq<Plugin>, opName: string, i: nat, j: nat)
    requires i < j < |PluginsWithOperation(ps, opName)|
    ensures exists x, y :: 0 <= x < y < |ps| && PluginsWithOperation(ps, opName)[i] == ps[x]
                             && PluginsWithOperation(ps, opName)[j] == ps[y]
                             && Offers(ps, ps[x], opName) && Offers(ps, ps[y], opName)
  {
    var keep := OfferFlags(ps, ps, opName);
    SelectMembers(ps, keep);
    SelectInOrder(ps, keep, i, j);
    var x := SelectOrigin(ps, keep, i);
    var y := SelectOrigin(ps, keep, j);
    assert keep[x] && keep[y];
  }

  /** With distinct plugin names, a plugin offers exactly the operations its
      own list names. */
  lemma OffersOwnOperations(ps: seq<Plugin>, k: nat, opName: string)
    requires k < |ps|
    requires forall i, j :: 0 <= i < j < |ps| ==> ps[i].Name() != ps[j].Name()
    ensures ps[k] in PluginsWithOperation(ps, opName) <==> opName in NameOperations(ps[k].operations)
  {
    OperationsByOwnName(ps, k);
  }

  /** Of two plugins sharing a name, the second is judged by the first one's
      operations. */
  lemma SharedNameJudgedByFirst(ps: seq<Plugin>, opName: string)
    requires |ps| == 2 && ps[0].Name() == ps[1].Name()
    ensures ps[1] in PluginsWithOperation(ps, opName) <==> opName in NameOperations(ps[0].operations)
  {
    assert GetOperationsByPluginName(ps, ps[1].Name()) == ps[0].operations;
  }

  // ---------------------------------------------------------------------
  // Reading a model file

  /** `__transform_to_model_from_file` up to running the transformation: the
      first text-to-model transformation of any plugin whose source extension
      is the text after the file's last ".". */
  function TransformToModelFromFile(ps: seq<Plugin>, file: string): (r: Result<TransformationClass, Failure>)
    reads ps
    ensures r.Ok? ==> r.value.kind == TextToModel && r.value.source == FamapyUtils.ExtractFilenameExtension(file)
                        && exists k :: 0 <= k < |ps| && r.value in ps[k].transformations
    ensures r.Ok? ==> exists i :: 0 <= i < |TransformationsOfKind(ps, TextToModel)|
                        && TransformationsOfKind(ps, TextToModel)[i] == r.value
                        && forall j :: 0 <= j < i ==>
                             TransformationsOfKind(ps, TextToModel)[j].source != FamapyUtils.ExtractFilenameExtension(file)
    ensures r.Err? ==> r.error == TransformationNotFound
                         && forall k, t :: 0 <= k < |ps| && t in ps[k].transformations && t.kind == TextToModel
                              ==> t.source != FamapyUtils.ExtractFilenameExtension(file)
  {
    var extension := FamapyUtils.ExtractFilenameExtension(file);
    var t2ms := TransformationsOfKind(ps, TextToModel);
    match FirstOf(t2ms, (t: TransformationClass) => t.source == extension)
    case None =>
      assert forall t :: t in t2ms ==> t.source != extension by {
        forall t | t in t2ms ensures t.source != extension {
          var i :| 0 <= i < |t2ms| && t2ms[i] == t;
        }
      }
      Err(TransformationNotFound)
    case Some(t) => Ok(t)
  }

  /** A transformation whose source extension contains a "." is never
      chosen. */
  lemma CompoundExtensionNeverChosen(ps: seq<Plugin>, file: string)
    requires TransformToModelFromFile(ps, file).Ok?
    ensures '.' !in TransformToModelFromFile(ps, file).value.source
  {
  }

  // ---------------------------------------------------------------------
  // The transformation way

  /** The (source, destination) pair of a transformation. */
  function Pair(t: TransformationClass): (string, string) {
    (t.source, t.destination)
  }

  /** The test of the loop in `__search_recursive_way`: a transformation
      into `output` whose pair is not yet on the way. */
  predicate Leads(t: TransformationClass, output: string, way: seq<(string, string)>) {
    t.destination == output && Pair(t) !in way
  }

  /** How many of the transformations have a pair not yet on the way; the
      recursion uses one up on every call. */
  function Unused(ts: seq<TransformationClass>, way: seq<(string, string)>): (r: nat)
    ensures r <= |ts|
  {
    if ts == [] then 0
    else (if Pair(ts[0]) in way then 0 else 1) + Unused(ts[1..], way)
  }

  lemma {:induction false} UnusedMonotone(ts: seq<TransformationClass>, way: seq<(string, string)>, x: (string, string))
    ensures Unused(ts, [x] + way) <= Unused(ts, way)
  {
    if ts != [] {
      UnusedMonotone(ts[1..], way, x);
    }
  }

  lemma {:induction false} UnusedDrops(ts: seq<TransformationClass>, way: seq<(string, string)>, k: nat)
    requires k < |ts| && Pair(ts[k]) !in way
    ensures Unused(ts, [Pair(ts[k])] + way) < Unused(ts, way)
  {
    if k == 0 {
      UnusedMonotone(ts[1..], way, Pair(ts[0]));
    } else {
      assert ts[1..][k - 1] == ts[k];
      UnusedDrops(ts[1..], way, k - 1);
    }
  }

  /** `__search_recursive_way`: commit to the first transformation leading
      into `output` whose pair is new, put its pair in front, and stop once
      its source is the input, else continue towards that source; with no
      such transformation the way is returned as it stands. */
  function RecursiveWay(m2ms: seq<TransformationClass>, input: string, output: string, way: seq<(string, string)>): (r: seq<(string, string)>)
    ensures |way| <= |r| <= |way| + Unused(m2ms, way)
    decreases Unused(m2ms, way)
  {
    match FirstWhere(m2ms, (t: TransformationClass) => Leads(t, output, way))
    case None => way
    case Some(k) =>
      var next := Pair(m2ms[k]);
      UnusedDrops(m2ms, way, k);
      if input == next.0 then [next] + way
      else RecursiveWay(m2ms, input, next.0, [next] + way)
  }

  /** Each pair's destination is the next pair's source. */
  predicate Chain(way: seq<(string, string)>) {
    forall k :: 0 <= k < |way| - 1 ==> way[k].1 == way[k + 1].0
  }

  predicate Distinct(way: seq<(string, string)>) {
    forall i, j :: 0 <= i < j < |way| ==> way[i] != way[j]
  }

  /** No transformation leads into `output` with a new pair. */
  predicate Exhausted(m2ms: seq<TransformationClass>, output: string, way: seq<(string, string)>) {
    forall k :: 0 <= k < |m2ms| ==> !Leads(m2ms[k], output, way)
  }

  /** The recursion only adds pairs in front of the way it was given, at
      most one per unused transformation. */
  lemma {:induction false} RecursiveWayExtends(m2ms: seq<TransformationClass>, input: string, output: string, way: seq<(string, string)>)
    ensures var r := RecursiveWay(m2ms, input, output, way);
      && |way| <= |r| <= |way| + Unused(m2ms, way)
      && r[|r| - |way|..] == way
    decreases Unused(m2ms, way)
  {
    match FirstWhere(m2ms, (t: TransformationClass) => Leads(t, output, way))
    case None =>
    case Some(k) =>
      var next := Pair(m2ms[k]);
      var way' := [next] + way;
      UnusedDrops(m2ms, way, k);
      if input != next.0 {
        RecursiveWayExtends(m2ms, input, next.0, way');
        var r := RecursiveWay(m2ms, input, next.0, way');
        assert r[|r| - |way|..] == way'[1..];
      }
  }

  /** Every pair the recursion adds is that of a model-to-model
      transformation. */
  lemma {:induction false} RecursiveWayPairs(m2ms: seq<TransformationClass>, input: string, output: string, way: seq<(string, string)>)
    ensures var r := RecursiveWay(m2ms, input, output, way);
      forall x :: x in r ==> x in way || exists t :: t in m2ms && Pair(t) == x
    decreases Unused(m2ms, way)
  {
    match FirstWhere(m2ms, (t: TransformationClass) => Leads(t, output, way))
    case None =>
    case Some(k) =>
      var next := Pair(m2ms[k]);
      var way' := [next] + way;
      UnusedDrops(m2ms, way, k);
      assert m2ms[k] in m2ms;
      if input != next.0 {
        RecursiveWayPairs(m2ms, input, next.0, way');
      }
  }

  /** Started from a duplicate-free chain beginning at `output`, the
      recursion returns a duplicate-free chain with the same end. */
  lemma {:induction false} RecursiveWayIsChain(m2ms: seq<TransformationClass>, input: string, output: string, way: seq<(string, string)>)
    requires Chain(way) && Distinct(way) && (way != [] ==> way[0].0 == output)
    ensures var r := RecursiveWay(m2ms, input, output, way);
      && Chain(r) && Distinct(r)
      && (r != [] ==> r[|r| - 1].1 == (if way == [] then output else way[|way| - 1].1))
    decreases Unused(m2ms, way)
  {
    match FirstWhere(m2ms, (t: TransformationClass) => Leads(t, output, way))
    case None =>
    case Some(k) =>
      var next := Pair(m2ms[k]);
      var way' := [next] + way;
      UnusedDrops(m2ms, way, k);
      assert Chain(way') && Distinct(way');
      if input != next.0 {
        RecursiveWayIsChain(m2ms, input, next.0, way');
      }
  }

  /** The recursion stops at the input or when nothing new leads into the
      way's first source, handing back a partial way in that case. */
  lemma {:induction false} RecursiveWayStops(m2ms: seq<TransformationClass>, input: string, output: string, way: seq<(string, string)>)
    requires way != [] ==> way[0].0 == output
    ensures var r := RecursiveWay(m2ms, input, output, way);
      (|r| > |way| && r[0].0 == input) || Exhausted(m2ms, if r == [] then output else r[0].0, r)
    decreases Unused(m2ms, way)
  {
    match FirstWhere(m2ms, (t: TransformationClass) => Leads(t, output, way))
    case None =>
    case Some(k) =>
      var next := Pair(m2ms[k]);
      var way' := [next] + way;
      UnusedDrops(m2ms, way, k);
      if input != next.0 {
        RecursiveWayStops(m2ms, input, next.0, way');
        RecursiveWayExtends(m2ms, input, next.0, way');
      }
  }

  /** The way never holds more pairs than there are model-to-model
      transformations. */
  lemma RecursiveWayBounded(m2ms: seq<TransformationClass>, input: string, output: string)
    ensures |RecursiveWay(m2ms, input, output, [])| <= |m2ms|
  {
    RecursiveWayExtends(m2ms, input, output, []);
  }

  /** The loop of `__search_transformation_way` over the plugins offering
      the operation: the first non-empty way ending at that plugin's
      extension, `NotImplementedError` when there is none. */
  function FindWay(candidates: seq<Plugin>, m2ms: seq<TransformationClass>, input: string): (r: Result<seq<(string, string)>, Failure>)
    reads candidates
    ensures r.Ok? ==> r.value != []
    ensures r.Err? ==> r.error == NotImplemented || r.error == AttributeError
    ensures candidates == [] ==> r == Err(NotImplemented)
  {
    if candidates == [] then Err(NotImplemented)
    else
      var output :- candidates[0].GetExtension();
      var way := RecursiveWay(m2ms, input, output, []);
      if way != [] && output == way[|way| - 1].1 then Ok(way)
      else FindWay(candidates[1..], m2ms, input)
  }

  /** The acceptance test `way and output == way[-1][1]` only asks for a
      non-empty way; a found way is a duplicate-free chain into the
      extension of a plugin offering the operation. */
  lemma FindWayFound(candidates: seq<Plugin>, m2ms: seq<TransformationClass>, input: string)
    requires FindWay(candidates, m2ms, input).Ok?
    ensures var w := FindWay(candidates, m2ms, input).value;
      && w != [] && Chain(w) && Distinct(w) && |w| <= |m2ms|
      && exists k :: 0 <= k < |candidates| && candidates[k].variabilityModel == Some(w[|w| - 1].1)
  {
    var k := FindWayOwner(candidates, m2ms, input);
    FreshWayShape(m2ms, input, candidates[k].variabilityModel.value);
  }

  /** The way found is the one searched for the first candidate it leads
      into. */
  lemma {:induction false} FindWayOwner(candidates: seq<Plugin>, m2ms: seq<TransformationClass>, input: string) returns (k: nat)
    requires FindWay(candidates, m2ms, input).Ok?
    ensures k < |candidates| && candidates[k].variabilityModel.Some?
    ensures var w := FindWay(candidates, m2ms, input).value;
      && w == RecursiveWay(m2ms, input, candidates[k].variabilityModel.value, [])
      && w != [] && w[|w| - 1].1 == candidates[k].variabilityModel.value
    decreases |candidates|
  {
    var output := candidates[0].GetExtension().value;
    var way := RecursiveWay(m2ms, input, output, []);
    if way != [] && output == way[|way| - 1].1 {
      k := 0;
    } else {
      assert FindWay(candidates, m2ms, input) == FindWay(candidates[1..], m2ms, input);
      var j := FindWayOwner(candidates[1..], m2ms, input);
      assert candidates[j + 1] == candidates[1..][j];
      k := j + 1;
    }
  }

  /** A way searched from scratch is a duplicate-free chain, no longer than
      the list of transformations. */
  lemma FreshWayShape(m2ms: seq<TransformationClass>, input: string, output: string)
    ensures var w := RecursiveWay(m2ms, input, output, []);
      Chain(w) && Distinct(w) && |w| <= |m2ms|
  {
    RecursiveWayBounded(m2ms, input, output);
    RecursiveWayIsChain(m2ms, input, output, []);
  }

  /** `NotImplementedError` is raised exactly when every plugin offering the
      operation has a variability model and no way leads into it. */
  lemma {:induction false} FindWayNone(candidates: seq<Plugin>, m2ms: seq<TransformationClass>, input: string)
    ensures FindWay(candidates, m2ms, input) == Err(NotImplemented) <==>
      forall k :: 0 <= k < |candidates| ==>
        (candidates[k].variabilityModel.Some? && RecursiveWay(m2ms, input, candidates[k].variabilityModel.value, []) == [])
    decreases |candidates|
  {
    if candidates != [] {
      FindWayNone(candidates[1..], m2ms, input);
      assert forall k :: 0 < k < |candidates| ==> candidates[1..][k - 1] == candidates[k];
      if candidates[0].variabilityModel.Some? {
        var output := candidates[0].variabilityModel.value;
        RecursiveWayIsChain(m2ms, input, output, []);
      }
    }
  }

  /** `__search_transformation_way` up to the loop: the plugins offering the
      operation, all model-to-model transformations, and the extension of
      the starting plugin (AttributeError without a variability model). */
  function TransformationWay(ps: seq<Plugin>, plugin: Plugin, opName: string): (r: Result<seq<(string, string)>, Failure>)
    reads ps, plugin
    ensures plugin.variabilityModel.None? ==> r == Err(AttributeError)
    ensures r.Ok? ==> r.value != []
  {
    var candidates := PluginsWithOperation(ps, opName);
    var m2ms := TransformationsOfKind(ps, ModelToModel);
    var input :- plugin.GetExtension();
    FindWay(candidates, m2ms, input)
  }

  /** Since the search never backtracks and the acceptance test ignores the
      first source, a way that does not start at the input is returned:
      here the model is "a" but the way starts at "c". */
  lemma PartialWayAccepted()
    ensures RecursiveWay([TransformationClass("C2B", ModelToModel, "c", "b", "b")], "a", "b", []) == [("c", "b")]
  {
    var m2ms := [TransformationClass("C2B", ModelToModel, "c", "b", "b")];
    assert Leads(m2ms[0], "b", []);
    assert !Leads(m2ms[0], "c", [("c", "b")]);
    assert RecursiveWay(m2ms, "a", "c", [("c", "b")]) == [("c", "b")];
  }

  // ---------------------------------------------------------------------
  // Running an operation on a model file

  /** Where `use_operation_from_file` stands: the plugin it will ask for the
      operation, the extension of the model it holds, and the transformations
      applied so far. What a transformation produces is not part of this
      model; `t.produces` is the extension of the model that `t` yields. */
  datatype Stage = Stage(plugin: Plugin, model: string, steps: seq<TransformationClass>)

  /** The chosen operation and, for a configurable one, the transformation
      reading its configuration file. */
  datatype Execution = Execution(stage: Stage, operation: OperationClass, configuration: Option<TransformationClass>)

  /** The model a stage holds came out of its steps: the first reads the
      file, each later one converts the previous step's model, and the last
      produced the current model. */
  ghost predicate Flows(st: Stage) {
    && |st.steps| > 0
    && st.steps[0].kind == TextToModel
    && (forall k :: 0 < k < |st.steps| ==> st.steps[k].kind == ModelToModel && st.steps[k].source == st.steps[k - 1].produces)
    && st.model == st.steps[|st.steps| - 1].produces
  }

  /** The loop over the way: for each pair, the plugin of its destination
      and that plugin's transformation from the current model into it. */
  function FollowWay(ps: seq<Plugin>, way: seq<(string, string)>, st: Stage): (r: Result<Stage, Failure>)
    reads ps
    ensures r.Ok? ==> |r.value.steps| == |st.steps| + |way| && r.value.steps[..|st.steps|] == st.steps
    ensures r.Ok? && way != [] ==> r.value.plugin in ps && r.value.plugin.variabilityModel == Some(way[|way| - 1].1)
    decreases |way|
  {
    if way == [] then Ok(st)
    else
      var dst := way[0].1;
      var p :- GetPluginByExtension(ps, dst);
      var t :- p.UseTransformationM2M(st.model, dst);
      var r := FollowWay(ps, way[1..], Stage(p, t.produces, st.steps + [t]));
      assert r.Ok? ==> r.value.steps[..|st.steps|] == (st.steps + [t])[..|st.steps|];
      r
  }

  /** Each step of the way converts the model the previous step produced. */
  lemma {:induction false} FollowWayFlows(ps: seq<Plugin>, way: seq<(string, string)>, st: Stage)
    requires Flows(st) && FollowWay(ps, way, st).Ok?
    ensures Flows(FollowWay(ps, way, st).value)
    decreases |way|
  {
    if way != [] {
      var dst := way[0].1;
      var p := GetPluginByExtension(ps, dst).value;
      var t := p.UseTransformationM2M(st.model, dst).value;
      var next := Stage(p, t.produces, st.steps + [t]);
      assert FollowWay(ps, way, st) == FollowWay(ps, way[1..], next);
      assert Flows(next) by {
        forall k | 0 < k < |next.steps|
          ensures next.steps[k].kind == ModelToModel && next.steps[k].source == next.steps[k - 1].produces
        {
          if k < |st.steps| {
            assert next.steps[k] == st.steps[k] && next.steps[k - 1] == st.steps[k - 1];
          }
        }
      }
      FollowWayFlows(ps, way[1..], next);
    }
  }

  /** Lines 233-234: the named plugin reads the file itself. */
  function StageFromNamedPlugin(ps: seq<Plugin>, pluginName: string, file: string): (r: Result<Stage, Failure>)
    reads ps
    ensures r.Ok? ==> r.value.plugin in ps && r.value.plugin.Name() == pluginName && |r.value.steps| == 1
                        && r.value.steps[0] in r.value.plugin.transformations && r.value.steps[0].kind == TextToModel
                        && r.value.model == r.value.steps[0].produces
  {
    var p :- GetPluginByName(ps, pluginName);
    var t :- p.UseTransformationT2M(file);
    Ok(Stage(p, t.produces, [t]))
  }

  /** Lines 240-247: a plugin without the operation hands the model along a
      transformation way. */
  function Rerouted(ps: seq<Plugin>, opName: string, st: Stage): (r: Result<Stage, Failure>)
    reads ps, st.plugin
    ensures r.Ok? && r.value.plugin != st.plugin ==> r.value.plugin in ps
  {
    if opName in NameOperations(GetOperationsByPluginName(ps, st.plugin.Name())) then Ok(st)
    else AlongWay(ps, opName, st)
  }

  /** Lines 241-247: search the way, then follow it. */
  function AlongWay(ps: seq<Plugin>, opName: string, st: Stage): (r: Result<Stage, Failure>)
    reads ps, st.plugin
    ensures r.Ok? && r.value.plugin != st.plugin ==> r.value.plugin in ps
  {
    var way :- TransformationWay(ps, st.plugin, opName);
    FollowWay(ps, way, st)
  }

  /** Rerouting fails as the way search does, or follows exactly the way found. */
  lemma AlongFoundWay(ps: seq<Plugin>, opName: string, st: Stage)
    ensures TransformationWay(ps, st.plugin, opName).Err? ==>
              AlongWay(ps, opName, st) == Err(TransformationWay(ps, st.plugin, opName).error)
    ensures TransformationWay(ps, st.plugin, opName).Ok? ==>
              AlongWay(ps, opName, st) == FollowWay(ps, TransformationWay(ps, st.plugin, opName).value, st)
  {
  }

  /** Once the starting plugin's extension is known, the way is the first
      one found among the plugins offering the operation. */
  lemma TransformationWayFrom(ps: seq<Plugin>, plugin: Plugin, opName: string)
    requires plugin.GetExtension().Ok?
    ensures TransformationWay(ps, plugin, opName)
              == FindWay(PluginsWithOperation(ps, opName), TransformationsOfKind(ps, ModelToModel), plugin.GetExtension().value)
  {
  }

  /** Once the file is read and its model's plugin found, the stage is
      where rerouting leads. */
  lemma StageFromExtensionVia(ps: seq<Plugin>, opName: string, file: string)
    requires TransformToModelFromFile(ps, file).Ok?
    requires GetPluginByExtension(ps, TransformToModelFromFile(ps, file).value.produces).Ok?
    ensures var t := TransformToModelFromFile(ps, file).value;
      StageFromExtension(ps, opName, file)
        == Rerouted(ps, opName, Stage(GetPluginByExtension(ps, t.produces).value, t.produces, [t]))
  {
  }

  /** Lines 236-247: the file is read by the first matching reader of any
      plugin, and the plugin of the resulting model takes over. */
  function StageFromExtension(ps: seq<Plugin>, opName: string, file: string): (r: Result<Stage, Failure>)
    reads ps
    ensures r.Ok? ==> r.value.plugin in ps
  {
    var t :- TransformToModelFromFile(ps, file);
    var p :- GetPluginByExtension(ps, t.produces);
    Rerouted(ps, opName, Stage(p, t.produces, [t]))
  }

  /** Lines 232-247: the model read from the file and the plugin that will run
      the operation. */
  function StageFromFile(ps: seq<Plugin>, opName: string, file: string, pluginName: Option<string>): (r: Result<Stage, Failure>)
    reads ps
    ensures r.Ok? ==> r.value.plugin in ps
    ensures r.Ok? && pluginName.Some? ==> r.value.plugin.Name() == pluginName.value && |r.value.steps| == 1
                                           && r.value.steps[0] in r.value.plugin.transformations
  {
    if pluginName.Some? then StageFromNamedPlugin(ps, pluginName.value, file)
    else StageFromExtension(ps, opName, file)
  }

  /** Whichever plugin ends up with the model, the model came out of
      reading the file and converting it step by step. */
  lemma StageFromFileFlows(ps: seq<Plugin>, opName: string, file: string, pluginName: Option<string>)
    requires StageFromFile(ps, opName, file, pluginName).Ok?
    ensures Flows(StageFromFile(ps, opName, file, pluginName).value)
  {
    if pluginName.None? {
      StageFromExtensionFlows(ps, opName, file);
    }
  }

  lemma StageFromExtensionFlows(ps: seq<Plugin>, opName: string, file: string)
    requires StageFromExtension(ps, opName, file).Ok?
    ensures Flows(StageFromExtension(ps, opName, file).value)
  {
    var t := TransformToModelFromFile(ps, file).value;
    var st := Stage(GetPluginByExtension(ps, t.produces).value, t.produces, [t]);
    StageFromExtensionVia(ps, opName, file);
    ReroutedFlows(ps, opName, st);
  }

  lemma ReroutedFlows(ps: seq<Plugin>, opName: string, st: Stage)
    requires Flows(st) && Rerouted(ps, opName, st).Ok?
    ensures Flows(Rerouted(ps, opName, st).value)
  {
    if opName !in NameOperations(GetOperationsByPluginName(ps, st.plugin.Name())) {
      var way := TransformationWay(ps, st.plugin, opName).value;
      assert Rerouted(ps, opName, st) == FollowWay(ps, way, st);
      FollowWayFlows(ps, way, st);
    }
  }

  /** Lines 249-254: the operation of the chosen plugin and, when it takes a
      configuration, the configuration file's reader. */
  function Configure(ps: seq<Plugin>, opName: string, st: Stage, configurationFile: Option<string>): (r: Result<Execution, Failure>)
    reads ps, st.plugin
    ensures r.Ok? ==> r.value.stage == st && r.value.operation in st.plugin.operations && NamedBy(r.value.operation, opName)
    ensures r.Ok? ==> (r.value.configuration.Some? <==> r.value.operation.configurable)
    ensures r.Ok? && r.value.configuration.Some? ==> configurationFile.Some?
    ensures (st.plugin.GetOperation(opName).Ok? && st.plugin.GetOperation(opName).value.configurable && configurationFile.None?)
              ==> r == Err(ConfigurationNotFound)
  {
    var op :- st.plugin.GetOperation(opName);
    if !op.configurable then Ok(Execution(st, op, None))
    else if configurationFile.None? then Err(ConfigurationNotFound)
    else
      var c :- TransformToModelFromFile(ps, configurationFile.value);
      Ok(Execution(st, op, Some(c)))
  }

  /** `use_operation_from_file` up to executing the operation. */
  function ExecutionFromFile(ps: seq<Plugin>, opName: string, file: string, pluginName: Option<string>,
                                configurationFile: Option<string>): (r: Result<Execution, Failure>)
    reads ps
    ensures r.Ok? ==> opName in NameOperations(AllOperations(ps))
    ensures r.Ok? ==> (r.value.configuration.Some? <==> r.value.operation.configurable)
  {
    if opName !in NameOperations(AllOperations(ps)) then Err(OperationNotFound)
    else
      var st :- StageFromFile(ps, opName, file, pluginName);
      Configure(ps, opName, st, configurationFile)
  }

  /** Past the name check and with a model, the run is the configuration
      step. */
  lemma ExecutionFromFileVia(ps: seq<Plugin>, opName: string, file: string, pluginName: Option<string>,
                             configurationFile: Option<string>)
    requires opName in NameOperations(AllOperations(ps))
    requires StageFromFile(ps, opName, file, pluginName).Ok?
    ensures ExecutionFromFile(ps, opName, file, pluginName, configurationFile)
              == Configure(ps, opName, StageFromFile(ps, opName, file, pluginName).value, configurationFile)
  {
  }

  /** What a successful run chose: a plugin of the list, an operation of that
      plugin answering to the name, a model that came out of reading the file
      and converting it step by step, and a configuration exactly when the
      operation takes one. With an explicit plugin name, that plugin reads
      the file itself. */
  lemma UseOperationFromFileChoice(ps: seq<Plugin>, opName: string, file: string, pluginName: Option<string>,
                                   configurationFile: Option<string>)
    requires ExecutionFromFile(ps, opName, file, pluginName, configurationFile).Ok?
    ensures var e := ExecutionFromFile(ps, opName, file, pluginName, configurationFile).value;
      && opName in NameOperations(AllOperations(ps))
      && e.stage.plugin in ps
      && e.operation in e.stage.plugin.operations && NamedBy(e.operation, opName)
      && Flows(e.stage)
      && (e.configuration.Some? <==> e.operation.configurable)
      && (e.configuration.Some? ==> configurationFile.Some?)
      && (pluginName.Some? ==> e.stage.plugin.Name() == pluginName.value && |e.stage.steps| == 1
                                && e.stage.steps[0] in e.stage.plugin.transformations)
  {
    StageFromFileFlows(ps, opName, file, pluginName);
  }

  /** The name check comes before anything else: an unknown operation is
      reported whatever the file, the plugin and the configuration. */
  lemma UnknownOperationFirst(ps: seq<Plugin>, opName: string, file: string, pluginName: Option<string>,
                              configurationFile: Option<string>)
    requires forall k :: 0 <= k < |ps| ==> forall op :: op in ps[k].operations ==> op.name != opName && (op.baseName != opName || opName == "ABC")
    ensures ExecutionFromFile(ps, opName, file, pluginName, configurationFile) == Err(OperationNotFound)
  {
    ListedNameOwner(ps, opName);
  }

  /** A listed name belongs to an operation of some plugin. */
  lemma ListedNameOwner(ps: seq<Plugin>, x: string)
    ensures x in NameOperations(AllOperations(ps)) ==>
      exists k, op :: 0 <= k < |ps| && op in ps[k].operations && (x == op.name || (x == op.baseName && x != "ABC"))
  {
    var ops := AllOperations(ps);
    if x in NameOperations(ops) {
      var i :| 0 <= i < |ops| && (x == ops[i].name || (x == ops[i].baseName && x != "ABC"));
      assert ops[i] in ops;
    }
  }

  /** A configurable operation without a configuration file stops the run,
      once the model and the operation are found. */
  lemma ConfigurationRequired(ps: seq<Plugin>, opName: string, file: string, pluginName: Option<string>)
    requires opName in NameOperations(AllOperations(ps))
    requires StageFromFile(ps, opName, file, pluginName).Ok?
    requires var p := StageFromFile(ps, opName, file, pluginName).value.plugin;
      p.GetOperation(opName).Ok? && p.GetOperation(opName).value.configurable
    ensures ExecutionFromFile(ps, opName, file, pluginName, None) == Err(ConfigurationNotFound)
  {
  }

  // ---------------------------------------------------------------------
  // The discoverer

  /** `DiscoverMetamodels` over a plugin list given to it (discovery by
      reflection is not part of this model). */
  class DiscoverMetamodels {
    var plugins: seq<Plugin>

    constructor (plugins: seq<Plugin>)
      ensures this.plugins == plugins
    {
      this.plugins := plugins;
    }

    /** `get_operations`. */
    method GetOperations() returns (r: seq<OperationClass>)
      ensures r == AllOperations(plugins)
    {
      r := [];
      for i := 0 to |plugins|
        invariant r == AllOperations(plugins[..i])
      {
        assert plugins[..i + 1][..i] == plugins[..i];
        r := r + plugins[i].operations;
      }
      assert plugins[..|plugins|] == plugins;
    }

    /** The loop shared by `get_name_operations` and
        `get_name_operations_by_plugin`. */
    static method ListNames(ops: seq<OperationClass>) returns (r: seq<string>)
      ensures r == NameOperations(ops)
    {
      r := [];
      for i := 0 to |ops|
        invariant r == NameOperations(ops[..i])
      {
        assert ops[..i + 1][..i] == ops[..i];
        r := r + [ops[i].name];
        var base := ops[i].baseName;
        if base != "ABC" {
          r := r + [base];
        }
      }
      assert ops[..|ops|] == ops;
    }

    /** `get_name_operations`. */
    method GetNameOperations() returns (r: seq<string>)
      ensures r == NameOperations(AllOperations(plugins))
    {
      var ops := GetOperations();
      r := ListNames(ops);
    }

    /** `get_name_operations_by_plugin`. */
    method GetNameOperationsByPlugin(pluginName: string) returns (r: seq<string>)
      ensures r == NameOperations(GetOperationsByPluginName(plugins, pluginName))
    {
      r := ListNames(GetOperationsByPluginName(plugins, pluginName));
    }

    /** `get_transformations_t2m` and `get_transformations_m2m`. */
    method GetTransformationsOfKind(kind: TransformationKind) returns (r: seq<TransformationClass>)
      ensures r == TransformationsOfKind(plugins, kind)
    {
      r := [];
      for i := 0 to |plugins|
        invariant r == TransformationsOfKind(plugins[..i], kind)
      {
        assert plugins[..i + 1][..i] == plugins[..i];
        r := r + Filter(plugins[i].transformations, (t: TransformationClass) => t.kind == kind);
      }
      assert plugins[..|plugins|] == plugins;
    }

    /** `__search_recursive_way`, inserting at the front of the way. */
    static method SearchRecursiveWay(m2ms: seq<TransformationClass>, input: string, output: string, way: seq<(string, string)>)
      returns (r: seq<(string, string)>)
      ensures r == RecursiveWay(m2ms, input, output, way)
      decreases Unused(m2ms, way)
    {
      var k := 0;
      while k < |m2ms|
        invariant 0 <= k <= |m2ms|
        invariant forall j :: 0 <= j < k ==> !Leads(m2ms[j], output, way)
      {
        var inM2m := m2ms[k].source;
        var outM2m := m2ms[k].destination;
        if outM2m == output {
          var next := (inM2m, outM2m);
          if next !in way {
            assert Leads(m2ms[k], output, way);
            UnusedDrops(m2ms, way, k);
            var tmpWay := [next] + way;
            if input == inM2m {
              return tmpWay;
            }
            r := SearchRecursiveWay(m2ms, input, inM2m, tmpWay);
            return;
          }
        }
        k := k + 1;
      }
      r := way;
    }

    /** The loop of `__search_transformation_way` over the plugins offering
        the operation. */
    static method FirstWay(candidates: seq<Plugin>, m2ms: seq<TransformationClass>, input: string)
      returns (r: Result<seq<(string, string)>, Failure>)
      ensures r == FindWay(candidates, m2ms, input)
    {
      for i := 0 to |candidates|
        invariant FindWay(candidates, m2ms, input) == FindWay(candidates[i..], m2ms, input)
      {
        assert candidates[i..][0] == candidates[i] && candidates[i..][1..] == candidates[i + 1..];
        var output :- candidates[i].GetExtension();
        var way := SearchRecursiveWay(m2ms, input, output, []);
        if way != [] && output == way[|way| - 1].1 {
          return Ok(way);
        }
      }
      r := Err(NotImplemented);
    }

    /** `__search_transformation_way`. */
    method SearchTransformationWay(plugin: Plugin, opName: string) returns (r: Result<seq<(string, string)>, Failure>)
      ensures r == TransformationWay(plugins, plugin, opName)
    {
      var m2ms := GetTransformationsOfKind(ModelToModel);
      var candidates := PluginsWithOperation(plugins, opName);
      var input := plugin.GetExtension();
      if input.Err? {
        return Err(input.error);
      }
      TransformationWayFrom(plugins, plugin, opName);
      ghost var way := TransformationWay(plugins, plugin, opName);
      ghost var found := FindWay(candidates, m2ms, input.value);
      r := FirstWay(candidates, m2ms, input.value);
      assert FindWay(candidates, m2ms, input.value) == found;
      assert TransformationWay(plugins, plugin, opName) == way;
    }

    /** The loop over the way in `use_operation_from_file`, lines 244-247. */
    method FollowTransformationWay(way: seq<(string, string)>, start: Stage)
      returns (r: Result<Stage, Failure>)
      ensures r == FollowWay(plugins, way, start)
    {
      var st := start;
      for k := 0 to |way|
        invariant FollowWay(plugins, way, start) == FollowWay(plugins, way[k..], st)
      {
        assert way[k..][0] == way[k] && way[k..][1..] == way[k + 1..];
        var dst := way[k].1;
        var next :- GetPluginByExtension(plugins, dst);
        var m2m :- next.UseTransformationM2M(st.model, dst);
        st := Stage(next, m2m.produces, st.steps + [m2m]);
      }
      r := Ok(st);
    }

    /** Lines 240-247 of `use_operation_from_file`. */
    method Reroute(opName: string, st: Stage) returns (r: Result<Stage, Failure>)
      ensures r == Rerouted(plugins, opName, st)
    {
      var names := GetNameOperationsByPlugin(st.plugin.Name());
      if opName in names {
        return Ok(st);
      }
      r := RerouteAlongWay(opName, st);
    }

    /** Lines 241-247, as a method. */
    method RerouteAlongWay(opName: string, st: Stage) returns (r: Result<Stage, Failure>)
      ensures r == AlongWay(plugins, opName, st)
    {
      var way := SearchTransformationWay(st.plugin, opName);
      AlongFoundWay(plugins, opName, st);
      if way.Err? {
        return Err(way.error);
      }
      ghost var target := FollowWay(plugins, way.value, st);
      assert AlongWay(plugins, opName, st) == target;
      r := FollowTransformationWay(way.value, st);
      assert r == target;
    }

    /** Lines 232-247 of `use_operation_from_file`. */
    method ModelFromFile(opName: string, file: string, pluginName: Option<string>)
      returns (r: Result<Stage, Failure>)
      ensures r == StageFromFile(plugins, opName, file, pluginName)
    {
      if pluginName.Some? {
        var plugin :- GetPluginByName(plugins, pluginName.value);
        var t :- plugin.UseTransformationT2M(file);
        return Ok(Stage(plugin, t.produces, [t]));
      }
      r := ModelFromExtension(opName, file);
    }

    /** Lines 236-247 of `use_operation_from_file`. */
    method ModelFromExtension(opName: string, file: string) returns (r: Result<Stage, Failure>)
      ensures r == StageFromExtension(plugins, opName, file)
    {
      var t := TransformToModelFromFile(plugins, file);
      if t.Err? {
        return Err(t.error);
      }
      var plugin := GetPluginByExtension(plugins, t.value.produces);
      if plugin.Err? {
        return Err(plugin.error);
      }
      var start := Stage(plugin.value, t.value.produces, [t.value]);
      ghost var read := TransformToModelFromFile(plugins, file);
      ghost var owner := GetPluginByExtension(plugins, t.value.produces);
      r := Reroute(opName, start);
      assert TransformToModelFromFile(plugins, file) == read;
      assert GetPluginByExtension(plugins, t.value.produces) == owner;
      StageFromExtensionVia(plugins, opName, file);
    }

    /** `use_operation_from_file` up to executing the operation. */
    method UseOperationFromFile(opName: string, file: string, pluginName: Option<string>,
                                configurationFile: Option<string>)
      returns (r: Result<Execution, Failure>)
      ensures r == ExecutionFromFile(plugins, opName, file, pluginName, configurationFile)
    {
      var names := GetNameOperations();
      if opName !in names {
        return Err(OperationNotFound);
      }
      var st := ModelFromFile(opName, file, pluginName);
      if st.Err? {
        return Err(st.error);
      }
      r := Configure(plugins, opName, st.value, configurationFile);
      ExecutionFromFileVia(plugins, opName, file, pluginName, configurationFile);
    }
  }
}
