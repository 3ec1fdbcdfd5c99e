/**
 Python's insertion-ordered `dict` with string keys: a key sequence in insertion order beside a
 `map`. Assigning to a present key replaces its value in place; assigning to a
 new key appends it. `dict.values()` and the filtering loops over it walk the
 keys in that order.
 */
module OrderedMaps {
  import opened Seqs

  datatype OMap<V> = OMap(keys: seq<string>, entries: map<string, V>)

  function Empty<V>(): OMap<V> {
    OMap([], map[])
  }

  /** The key sequence lists each key of the map exactly once. */
  ghost predicate WellFormed<V>(om: OMap<V>) {
    && Distinct(om.keys)
    && (forall k :: k in om.entries ==> k in om.keys)
    && (forall i :: 0 <= i < |om.keys| ==> om.keys[i] in om.entries)
  }

  /** Python's `d[k] = v`. */
  function Put<V>(om: OMap<V>, k: string, v: V): (r: OMap<V>)
    ensures k in r.entries && r.entries[k] == v
    ensures forall k' :: k' != k && k' in om.entries ==> k' in r.entries && r.entries[k'] == om.entries[k']
    ensures forall k' :: k' in r.entries ==> k' == k || k' in om.entries
    ensures k in om.entries ==> r.keys == om.keys
    ensures k !in om.entries ==> r.keys == om.keys + [k]
    ensures WellFormed(om) ==> WellFormed(r)
  {
    if k in om.entries then OMap(om.keys, om.entries[k := v])
    else OMap(om.keys + [k], om.entries[k := v])
  }

  /** Python's `d.values()`: the value of every key, in key order (keys
      missing from `entries`, which a valid map does not have, are skipped). */
  function Values<V>(om: OMap<V>): (vs: seq<V>)
    ensures |vs| <= |om.keys|
    ensures (forall i :: 0 <= i < |om.keys| ==> om.keys[i] in om.entries) ==>
      |vs| == |om.keys| && forall i :: 0 <= i < |vs| ==> vs[i] == om.entries[om.keys[i]]
    decreases |om.keys|
  {
    if om.keys == [] then []
    else
      var k := om.keys[|om.keys| - 1];
      var rest := Values(OMap(om.keys[..|om.keys| - 1], om.entries));
      if k in om.entries then rest + [om.entries[k]] else rest
  }

  /** The values of the keys of `om` that satisfy `p`, in key order: the list
      a `for v in d.values(): if p(v): out.append(v)` loop builds. */
  function Filter<V>(om: OMap<V>, p: V -> bool): (r: seq<V>)
    ensures forall i :: 0 <= i < |r| ==> p(r[i])
    ensures IsSubseq(r, Values(om))
    ensures forall j :: 0 <= j < |om.keys| && om.keys[j] in om.entries && p(om.entries[om.keys[j]]) ==>
      om.entries[om.keys[j]] in r
    ensures |r| == CountIf(Values(om), p)
    decreases |om.keys|
  {
    if om.keys == [] then []
    else
      var om' := OMap(om.keys[..|om.keys| - 1], om.entries);
      var k := om.keys[|om.keys| - 1];
      var rest := Filter(om', p);
      var r := if k in om.entries && p(om.entries[k]) then rest + [om.entries[k]] else rest;
      FilterStep(om, om', p, rest, r);
      FilterStepCount(om, om', p, rest, r);
      r
  }

  /** The induction step of `Filter`: the contract of the filter of all keys
      but the last carries over once the last key's value is appended, if it
      satisfies `p`. */
  lemma FilterStep<V>(om: OMap<V>, om': OMap<V>, p: V -> bool, rest: seq<V>, r: seq<V>)
    requires om.keys != [] && om' == OMap(om.keys[..|om.keys| - 1], om.entries)
    requires forall i :: 0 <= i < |rest| ==> p(rest[i])
    requires IsSubseq(rest, Values(om'))
    requires forall j :: 0 <= j < |om'.keys| && om'.keys[j] in om'.entries && p(om'.entries[om'.keys[j]]) ==>
      om'.entries[om'.keys[j]] in rest
    requires var k := om.keys[|om.keys| - 1];
      r == if k in om.entries && p(om.entries[k]) then rest + [om.entries[k]] else rest
    ensures forall i :: 0 <= i < |r| ==> p(r[i])
    ensures IsSubseq(r, Values(om))
    ensures forall j :: 0 <= j < |om.keys| && om.keys[j] in om.entries && p(om.entries[om.keys[j]]) ==>
      om.entries[om.keys[j]] in r
  {
    FilterStepKept(om, p, rest, r);
    FilterStepOrder(om, om', p, rest, r);
    FilterStepComplete(om, om', p, rest, r);
  }

  /** The soundness part of the step: only a value satisfying `p` is added. */
  lemma FilterStepKept<V>(om: OMap<V>, p: V -> bool, rest: seq<V>, r: seq<V>)
    requires om.keys != []
    requires forall i :: 0 <= i < |rest| ==> p(rest[i])
    requires var k := om.keys[|om.keys| - 1];
      r == if k in om.entries && p(om.entries[k]) then rest + [om.entries[k]] else rest
    ensures forall i :: 0 <= i < |r| ==> p(r[i])
  {
    forall i | 0 <= i < |r| ensures p(r[i]) {
      if i < |rest| {
        assert r[i] == rest[i];
      }
    }
  }

  /** The order part of the step: when the last key's value is kept it
      extends both the filtered list and the value list. */
  lemma FilterStepOrder<V>(om: OMap<V>, om': OMap<V>, p: V -> bool, rest: seq<V>, r: seq<V>)
    requires om.keys != [] && om' == OMap(om.keys[..|om.keys| - 1], om.entries)
    requires IsSubseq(rest, Values(om'))
    requires var k := om.keys[|om.keys| - 1];
      r == if k in om.entries && p(om.entries[k]) then rest + [om.entries[k]] else rest
    ensures IsSubseq(r, Values(om))
  {
    var k := om.keys[|om.keys| - 1];
    var vs := Values(om');
    if k in om.entries {
      assert Values(om) == vs + [om.entries[k]];
      if p(om.entries[k]) {
        SubseqExtend(rest, vs, om.entries[k]);
      } else {
        SubseqAppend(rest, vs, om.entries[k]);
      }
    }
  }

  /** The completeness part of the step: every kept value of the first keys
      is still there, and the last key's one is added. */
  lemma FilterStepComplete<V>(om: OMap<V>, om': OMap<V>, p: V -> bool, rest: seq<V>, r: seq<V>)
    requires om.keys != [] && om' == OMap(om.keys[..|om.keys| - 1], om.entries)
    requires forall j :: 0 <= j < |om'.keys| && om'.keys[j] in om'.entries && p(om'.entries[om'.keys[j]]) ==>
      om'.entries[om'.keys[j]] in rest
    requires var k := om.keys[|om.keys| - 1];
      r == if k in om.entries && p(om.entries[k]) then rest + [om.entries[k]] else rest
    ensures forall j :: 0 <= j < |om.keys| && om.keys[j] in om.entries && p(om.entries[om.keys[j]]) ==>
      om.entries[om.keys[j]] in r
  {
    forall j | 0 <= j < |om.keys| && om.keys[j] in om.entries && p(om.entries[om.keys[j]])
      ensures om.entries[om.keys[j]] in r
    {
      if j < |om.keys| - 1 {
        assert om'.keys[j] == om.keys[j];
        assert om.entries[om.keys[j]] in rest;
      }
    }
  }

  /** The count part of the step: the last key's value adds one entry
      exactly when it is present and satisfies `p`. */
  lemma FilterStepCount<V>(om: OMap<V>, om': OMap<V>, p: V -> bool, rest: seq<V>, r: seq<V>)
    requires om.keys != [] && om' == OMap(om.keys[..|om.keys| - 1], om.entries)
    requires |rest| == CountIf(Values(om'), p)
    requires var k := om.keys[|om.keys| - 1];
      r == if k in om.entries && p(om.entries[k]) then rest + [om.entries[k]] else rest
    ensures |r| == CountIf(Values(om), p)
  {
    var k := om.keys[|om.keys| - 1];
    var vs := Values(om');
    if k in om.entries {
      var v := om.entries[k];
      assert Values(om) == vs + [v];
      CountIfSnoc(vs, v, p);
    } else {
      assert Values(om) == vs;
    }
  }

  /** The contract of `Filter` determines its result: a list of values
      satisfying `p`, in `d.values()` order, with one entry per key whose
      value satisfies `p`, is the filter's list. */
  lemma FilterUnique<V>(om: OMap<V>, p: V -> bool, r: seq<V>)
    requires forall i :: 0 <= i < |r| ==> p(r[i])
    requires IsSubseq(r, Values(om))
    requires |r| == CountIf(Values(om), p)
    ensures r == Filter(om, p)
  {
    SubseqCountUnique(r, Filter(om, p), Values(om), p);
  }

  /** A filter that keeps every value returns all of `d.values()`. */
  lemma {:induction false} FilterAll<V>(om: OMap<V>, p: V -> bool)
    requires forall i :: 0 <= i < |om.keys| ==> om.keys[i] in om.entries && p(om.entries[om.keys[i]])
    ensures Filter(om, p) == Values(om)
    decreases |om.keys|
  {
    if om.keys != [] {
      FilterAll(OMap(om.keys[..|om.keys| - 1], om.entries), p);
    }
  }

  /** In a well-formed map, the filter holds exactly the stored values that
      satisfy `p`. */
  lemma FilterMembers<V>(om: OMap<V>, p: V -> bool)
    requires WellFormed(om)
    ensures forall v :: v in Filter(om, p) <==> p(v) && exists k :: k in om.entries && om.entries[k] == v
  {
    var r := Filter(om, p);
    var vs := Values(om);
    SubseqMembers(r, vs);
    forall v ensures v in r <==> p(v) && exists k :: k in om.entries && om.entries[k] == v {
      if v in r {
        StoredValue(om, vs, v);
      }
      if p(v) && exists k :: k in om.entries && om.entries[k] == v {
        KeptValue(om, p, r, v);
      }
    }
  }

  /** A value listed by `d.values()` of a well-formed map is stored under
      some key. */
  lemma StoredValue<V>(om: OMap<V>, vs: seq<V>, v: V)
    requires WellFormed(om)
    requires |vs| == |om.keys| && forall i :: 0 <= i < |vs| ==> vs[i] == om.entries[om.keys[i]]
    requires v in vs
    ensures exists k :: k in om.entries && om.entries[k] == v
  {
    var i :| 0 <= i < |vs| && vs[i] == v;
    assert om.keys[i] in om.entries;
  }

  /** A stored value that satisfies `p` is in a list that holds the value of
      every key satisfying `p`. */
  lemma KeptValue<V>(om: OMap<V>, p: V -> bool, r: seq<V>, v: V)
    requires WellFormed(om)
    requires forall j :: 0 <= j < |om.keys| && om.keys[j] in om.entries && p(om.entries[om.keys[j]]) ==>
      om.entries[om.keys[j]] in r
    requires p(v) && exists k :: k in om.entries && om.entries[k] == v
    ensures v in r
  {
    var k :| k in om.entries && om.entries[k] == v;
    var j :| 0 <= j < |om.keys| && om.keys[j] == k;
    assert om.entries[om.keys[j]] in r;
  }

  /** The filter is empty exactly when no stored value satisfies `p`. */
  lemma FilterEmpty<V>(om: OMap<V>, p: V -> bool)
    requires WellFormed(om)
    ensures Filter(om, p) == [] <==> forall k :: k in om.entries ==> !p(om.entries[k])
  {
    var r := Filter(om, p);
    if r != [] {
      var vs := Values(om);
      SubseqMembers(r, vs);
      StoredValue(om, vs, r[0]);
      assert p(r[0]);
    }
    if k :| k in om.entries && p(om.entries[k]) {
      KeptValue(om, p, r, om.entries[k]);
    }
  }
}
