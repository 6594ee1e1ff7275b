/**
 * A JSON object as JavaScript holds it after parsing: a property map whose
 * keys `Object.keys` lists in a fixed order, each key once.
 */
module JsObject {

  /** The property names and values of an object, unconstrained. */
  datatype RawObject<V> = RawObject(keys: seq<string>, props: map<string, V>)

  /**
   * `keys` lists every property exactly once: its entries are distinct
   * properties, and there are as many of them as properties.
   */
  predicate WellFormed<V>(o: RawObject<V>)
  {
    && (forall i, j :: 0 <= i < j < |o.keys| ==> o.keys[i] != o.keys[j])
    && (forall i :: 0 <= i < |o.keys| ==> o.keys[i] in o.props)
    && |o.props| == |o.keys|
  }

  type Object<V> = o: RawObject<V> | WellFormed(o) witness RawObject([], map[])

  /** `keys.map(key => props[key])`. */
  function Lookup<V>(keys: seq<string>, props: map<string, V>): (r: seq<V>)
    requires forall i :: 0 <= i < |keys| ==> keys[i] in props
    ensures |r| == |keys|
    ensures forall i :: 0 <= i < |keys| ==> r[i] == props[keys[i]]
    decreases |keys|
  {
    if |keys| == 0 then [] else [props[keys[0]]] + Lookup(keys[1..], props)
  }

  /** The elements of a non-empty sequence are its head and the elements of its tail. */
  lemma Elements(s: seq<string>)
    requires |s| > 0
    ensures (set i | 0 <= i < |s| :: s[i]) == (set i | 0 <= i < |s| - 1 :: s[1..][i]) + {s[0]}
  {
    var all := set i | 0 <= i < |s| :: s[i];
    var rest := set i | 0 <= i < |s| - 1 :: s[1..][i];
    forall x | x in all ensures x in rest + {s[0]} {
      var i :| 0 <= i < |s| && s[i] == x;
      if i > 0 { assert s[1..][i - 1] == x; }
    }
    forall x | x in rest ensures x in all {
      var i :| 0 <= i < |s| - 1 && s[1..][i] == x;
      assert s[i + 1] == x;
    }
  }

  /** A sequence without repetitions has as many elements as the set of its elements. */
  lemma {:induction false} DistinctCardinality(s: seq<string>)
    requires forall i, j :: 0 <= i < j < |s| ==> s[i] != s[j]
    ensures |set i | 0 <= i < |s| :: s[i]| == |s|
    decreases |s|
  {
    if |s| > 0 {
      var tail := s[1..];
      assert forall i, j :: 0 <= i < j < |tail| ==> tail[i] != tail[j] by {
        forall i, j | 0 <= i < j < |tail| ensures tail[i] != tail[j] {
          assert tail[i] == s[i + 1] && tail[j] == s[j + 1];
        }
      }
      DistinctCardinality(tail);
      Elements(s);
      assert s[0] !in set i | 0 <= i < |tail| :: tail[i] by {
        forall i | 0 <= i < |tail| ensures tail[i] != s[0] {
          assert tail[i] == s[i + 1];
        }
      }
    }
  }

  /** A subset has at most as many elements as its superset. */
  lemma {:induction false} SubsetCardinality(a: set<string>, b: set<string>)
    requires a <= b
    ensures |a| <= |b|
    decreases a
  {
    if a != {} {
      var x :| x in a;
      SubsetCardinality(a - {x}, b - {x});
    }
  }

  /**
   * `Object.keys(o).map(key => o[key])`: one value per property, in key
   * order, so as many values as the object has properties.
   */
  function Values<V>(o: Object<V>): (r: seq<V>)
    ensures |r| == |o.keys| == |o.props|
    ensures forall i :: 0 <= i < |r| ==> r[i] == o.props[o.keys[i]]
  {
    Lookup(o.keys, o.props)
  }

  /** `Object.keys` lists every property, so every property's value is among the values. */
  lemma ValuesCoverProperties<V>(o: Object<V>, k: string)
    requires k in o.props
    ensures exists i :: 0 <= i < |o.keys| && o.keys[i] == k
    ensures o.props[k] in Values(o)
  {
    var listed := set i | 0 <= i < |o.keys| :: o.keys[i];
    DistinctCardinality(o.keys);
    assert listed <= o.props.Keys;
    if k !in listed {
      assert listed <= o.props.Keys - {k};
      SubsetCardinality(listed, o.props.Keys - {k});
      assert false;
    }
    var i :| 0 <= i < |o.keys| && o.keys[i] == k;
    assert Values(o)[i] == o.props[k];
  }
}
