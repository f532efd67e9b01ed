/** flamapy/metamodels/configuration_metamodel/models/configuration.py: a
    configuration maps element names to a selected flag. The Python `dict` is
    modelled by its items in insertion order, with distinct keys. */
module Configurations {
  import Text

  datatype Configuration = Configuration(elements: seq<(string, bool)>)

  /** Anything `__eq__` can be handed: a configuration or an object of another type. */
  datatype PyObject = ConfigurationObject(config: Configuration) | OtherObject

  /** The dictionary invariant: every key occurs once. */
  predicate Valid(c: Configuration)
  {
    forall i, j :: 0 <= i < j < |c.elements| ==> c.elements[i].0 != c.elements[j].0
  }

  /** The dictionary the items denote. */
  function ToMap(items: seq<(string, bool)>): map<string, bool>
  {
    if items == [] then map[] else ToMap(items[1..])[items[0].0 := items[0].1]
  }

  /** The set of `(key, value)` pairs, what `frozenset(elements.items())` holds. */
  function Items(c: Configuration): set<(string, bool)>
  {
    set i | 0 <= i < |c.elements| :: c.elements[i]
  }

  /** `get_extension`: always "configuration". */
  function GetExtension(): (r: string)
    ensures r == "configuration"
  {
    "configuration"
  }

  /** `__iter__`: the keys of the dictionary, in insertion order. */
  function Iter(c: Configuration): (r: seq<string>)
    ensures |r| == |c.elements|
    ensures forall i :: 0 <= i < |r| ==> r[i] == c.elements[i].0
  {
    seq(|c.elements|, i requires 0 <= i < |c.elements| => c.elements[i].0)
  }

  /** The keys mapped to true, in insertion order. */
  function Selected(items: seq<(string, bool)>): (r: seq<string>)
    ensures |r| <= |items|
    ensures forall x :: x in r <==> (x, true) in items
  {
    if items == [] then []
    else (if items[0].1 then [items[0].0] else []) + Selected(items[1..])
  }

  /** `get_selected_elements`. */
  function GetSelectedElements(c: Configuration): (r: seq<string>)
    ensures forall x :: x in r <==> (x, true) in c.elements
  {
    Selected(c.elements)
  }

  /** Each selected element is listed once. */
  lemma SelectedOnce(c: Configuration)
    requires Valid(c)
    ensures var r := GetSelectedElements(c); forall i, j :: 0 <= i < j < |r| ==> r[i] != r[j]
  {
    SelectedDistinct(c.elements);
  }

  /** `__eq__`: another configuration with an equal dictionary; false otherwise. */
  function Equals(c: Configuration, other: PyObject): (r: bool)
    ensures other.OtherObject? ==> !r
  {
    match other
    case ConfigurationObject(d) => ToMap(c.elements) == ToMap(d.elements)
    case OtherObject => false
  }

  /** `__hash__`: a hash of the item set; Python's `hash` on frozensets is `h`. */
  function Hash(c: Configuration, h: set<(string, bool)> -> int): int
  {
    h(Items(c))
  }

  /** `__str__`: the selected elements joined by ", ". */
  function ToString(c: Configuration): (r: string)
    ensures GetSelectedElements(c) == [] ==> r == ""
    ensures |GetSelectedElements(c)| == 1 ==> r == GetSelectedElements(c)[0]
  {
    Text.Join(GetSelectedElements(c), ", ")
  }

  /** Selection distributes over concatenation, so it keeps insertion order. */
  lemma {:induction false} SelectedAppend(a: seq<(string, bool)>, b: seq<(string, bool)>)
    ensures Selected(a + b) == Selected(a) + Selected(b)
  {
    if a == [] {
      assert a + b == b;
    } else {
      assert (a + b)[0] == a[0] && (a + b)[1..] == a[1..] + b;
      SelectedAppend(a[1..], b);
    }
  }

  lemma {:induction false} SelectedDistinct(items: seq<(string, bool)>)
    requires forall i, j :: 0 <= i < j < |items| ==> items[i].0 != items[j].0
    ensures forall i, j :: 0 <= i < j < |Selected(items)| ==> Selected(items)[i] != Selected(items)[j]
  {
    if items != [] {
      SelectedDistinct(items[1..]);
      var rest := Selected(items[1..]);
      if items[0].1 {
        forall x | x in rest ensures x != items[0].0 {
          assert (x, true) in items[1..];
        }
      }
    }
  }

  lemma {:induction false} ToMapHas(items: seq<(string, bool)>, k: string)
    requires k in ToMap(items)
    ensures (k, ToMap(items)[k]) in items
  {
    if items[0].0 != k {
      ToMapHas(items[1..], k);
    }
  }

  lemma {:induction false} ToMapOf(items: seq<(string, bool)>, k: string, v: bool)
    requires forall i, j :: 0 <= i < j < |items| ==> items[i].0 != items[j].0
    requires (k, v) in items
    ensures k in ToMap(items) && ToMap(items)[k] == v
  {
    if items[0] != (k, v) {
      var i :| 0 <= i < |items| && items[i] == (k, v);
      assert items[0].0 != k;
      assert (k, v) in items[1..];
      ToMapOf(items[1..], k, v);
    }
  }

  lemma ItemsAreElements(c: Configuration)
    ensures forall p :: p in Items(c) <==> p in c.elements
  {
    forall p | p in c.elements ensures p in Items(c) {
      var i :| 0 <= i < |c.elements| && c.elements[i] == p;
    }
  }

  /** For valid configurations, `__eq__` holds exactly when the item sets agree. */
  lemma EqualsIffSameItems(c: Configuration, d: Configuration)
    requires Valid(c) && Valid(d)
    ensures Equals(c, ConfigurationObject(d)) <==> Items(c) == Items(d)
  {
    ItemsAreElements(c);
    ItemsAreElements(d);
    var mc, md := ToMap(c.elements), ToMap(d.elements);
    if Items(c) == Items(d) {
      forall k | k in mc ensures k in md && md[k] == mc[k] {
        ToMapHas(c.elements, k);
        ToMapOf(d.elements, k, mc[k]);
      }
      forall k | k in md ensures k in mc {
        ToMapHas(d.elements, k);
        ToMapOf(c.elements, k, md[k]);
      }
    }
    if mc == md {
      forall p | p in c.elements ensures p in d.elements {
        ToMapOf(c.elements, p.0, p.1);
        ToMapHas(d.elements, p.0);
      }
      forall p | p in d.elements ensures p in c.elements {
        ToMapOf(d.elements, p.0, p.1);
        ToMapHas(c.elements, p.0);
      }
    }
  }

  /** Equal configurations have equal hashes, whatever the set hash is. */
  lemma EqualHash(c: Configuration, d: Configuration, h: set<(string, bool)> -> int)
    requires Valid(c) && Valid(d)
    requires Equals(c, ConfigurationObject(d))
    ensures Hash(c, h) == Hash(d, h)
  {
    EqualsIffSameItems(c, d);
  }

  lemma EqualsIsSymmetric(c: Configuration, d: Configuration)
    ensures Equals(c, ConfigurationObject(d)) == Equals(d, ConfigurationObject(c))
  {
  }
}
