/**
 * Deep merge of configuration fragments: a left-to-right fold in which
 * arrays at the same key are concatenated, plain objects are merged key
 * by key, opaque instances are replaced whole, and on any other conflict
 * the later value wins.
 */
module DeepMerger {
  import opened ConfigValues

  /** Merges the incoming value `inc` over the accumulated value `acc`. */
  function MergeValue(acc: Value, inc: Value): (r: Value)
    decreases inc, 1
    ensures SameKind(r, inc)
    ensures acc.Opaque? || inc.Opaque? ==> r == inc
    ensures IsScalar(inc) ==> r == inc
    ensures acc.Arr? && inc.Arr? ==> r == Arr(acc.items + inc.items)
    ensures acc.Arr? && inc.Arr? ==> |r.items| == |acc.items| + |inc.items|
    ensures acc.Obj? && inc.Obj? ==> r.fields.Keys == acc.fields.Keys + inc.fields.Keys
    ensures !(acc.Arr? && inc.Arr?) && !(acc.Obj? && inc.Obj?) ==> r == inc
  {
    if acc.Opaque? || inc.Opaque? then inc
    else if acc.Arr? && inc.Arr? then Arr(acc.items + inc.items)
    else if acc.Obj? && inc.Obj? then Obj(MergeMaps(acc.fields, inc.fields))
    else inc
  }

  /** Merges the properties of `inc` over those of `acc`. */
  function MergeMaps(acc: Config, inc: Config): (r: Config)
    decreases Obj(inc), 0
    ensures r.Keys == acc.Keys + inc.Keys
    ensures forall k :: k in inc && k !in acc ==> r[k] == inc[k]
    ensures forall k :: k in acc && k !in inc ==> r[k] == acc[k]
    ensures forall k :: k in acc && k in inc ==> r[k] == MergeValue(acc[k], inc[k])
  {
    map k | k in acc.Keys + inc.Keys ::
      if k in acc && k in inc then MergeValue(acc[k], inc[k])
      else if k in inc then inc[k]
      else acc[k]
  }

  /** mergeConfigs: folds the fragments' data, left to right, into an empty object. */
  function MergeConfigs(fragments: seq<Fragment>): (r: Config)
    ensures r.Keys == DeclaredKeys(fragments)
    ensures fragments != [] ==> fragments[|fragments| - 1].data.Keys <= r.Keys
  {
    if fragments == [] then map[]
    else MergeMaps(MergeConfigs(fragments[..|fragments| - 1]), fragments[|fragments| - 1].data)
  }

  /** Every property name declared by some fragment's data. */
  ghost function DeclaredKeys(fragments: seq<Fragment>): set<string>
  {
    if fragments == [] then {}
    else DeclaredKeys(fragments[..|fragments| - 1]) + fragments[|fragments| - 1].data.Keys
  }

  /** The array items found at `key`, fragment after fragment. */
  function ArraysAt(fragments: seq<Fragment>, key: string): seq<Value>
  {
    if fragments == [] then []
    else
      var last := fragments[|fragments| - 1].data;
      ArraysAt(fragments[..|fragments| - 1], key)
        + (if key in last && last[key].Arr? then last[key].items else [])
  }

  /** The merged object holds exactly the keys declared by some fragment. */
  lemma {:induction false} MergeConfigsKeys(fragments: seq<Fragment>)
    ensures MergeConfigs(fragments).Keys == DeclaredKeys(fragments)
    ensures forall k :: k in MergeConfigs(fragments) <==> exists i :: 0 <= i < |fragments| && k in fragments[i].data
  {
    if fragments != [] {
      var init := fragments[..|fragments| - 1];
      MergeConfigsKeys(init);
      forall k ensures k in MergeConfigs(fragments) <==> exists i :: 0 <= i < |fragments| && k in fragments[i].data {
        if k in MergeConfigs(init) {
          var i :| 0 <= i < |init| && k in init[i].data;
          assert fragments[i] == init[i];
        }
        if exists i :: 0 <= i < |fragments| && k in fragments[i].data {
          var i :| 0 <= i < |fragments| && k in fragments[i].data;
          if i < |init| {
            assert init[i] == fragments[i];
          }
        }
      }
    }
  }

  /** Merging a single fragment into the empty object yields its data unchanged. */
  lemma MergeSingle(f: Fragment)
    ensures MergeConfigs([f]) == f.data
  {
    assert [f][..0] == [];
  }

  /** Merging two fragments is one merge of the second's data over the first's. */
  lemma MergePair(first: Fragment, second: Fragment)
    ensures MergeConfigs([first, second]) == MergeMaps(first.data, second.data)
  {
    assert [first, second][..1] == [first];
    MergeSingle(first);
  }

  /**
   * Arrays under the same key in two fragments are concatenated: the
   * first fragment's items, in order, then the second's.
   */
  lemma MergeArraysConcatenate(first: Fragment, second: Fragment, key: string)
    requires key in first.data && first.data[key].Arr?
    requires key in second.data && second.data[key].Arr?
    ensures key in MergeConfigs([first, second])
    ensures MergeConfigs([first, second])[key] == Arr(first.data[key].items + second.data[key].items)
    ensures var merged := MergeConfigs([first, second])[key].items;
      var xs, ys := first.data[key].items, second.data[key].items;
      && |merged| == |xs| + |ys|
      && (forall i :: 0 <= i < |xs| ==> merged[i] == xs[i])
      && (forall j :: 0 <= j < |ys| ==> merged[|xs| + j] == ys[j])
  {
    MergePair(first, second);
    var xs, ys := first.data[key].items, second.data[key].items;
    assert MergeMaps(first.data, second.data)[key] == MergeValue(Arr(xs), Arr(ys));
    assert MergeValue(Arr(xs), Arr(ys)) == Arr(xs + ys);
  }

  /** A key present only in the later fragment is adopted with its value unchanged. */
  lemma MergeAdoptsNewKey(first: Fragment, second: Fragment, key: string)
    requires key in second.data && key !in first.data
    ensures key in MergeConfigs([first, second])
    ensures MergeConfigs([first, second])[key] == second.data[key]
  {
    MergePair(first, second);
  }

  /** A key present only in the earlier fragment is kept with its value unchanged. */
  lemma MergeKeepsOldKey(first: Fragment, second: Fragment, key: string)
    requires key in first.data && key !in second.data
    ensures key in MergeConfigs([first, second])
    ensures MergeConfigs([first, second])[key] == first.data[key]
  {
    MergePair(first, second);
  }

  /** On a conflict where the later value is a scalar, the later value wins. */
  lemma MergeLaterScalarWins(first: Fragment, second: Fragment, key: string)
    requires key in first.data && key in second.data
    requires IsScalar(second.data[key])
    ensures MergeConfigs([first, second])[key] == second.data[key]
  {
    MergePair(first, second);
  }

  /**
   * An opaque (colour) value on either side of a conflict is never merged
   * field by field: the later value is taken whole, and the result is an
   * opaque value exactly when the later value is one.
   */
  lemma MergeOpaqueIsAtomic(first: Fragment, second: Fragment, key: string)
    requires key in first.data && key in second.data
    requires first.data[key].Opaque? || second.data[key].Opaque?
    ensures MergeConfigs([first, second])[key] == second.data[key]
    ensures MergeConfigs([first, second])[key].Opaque? <==> second.data[key].Opaque?
    ensures IsColor(MergeConfigs([first, second])[key]) <==> IsColor(second.data[key])
  {
    MergePair(first, second);
  }

  /**
   * Inside two plain objects merged under the same key, arrays under the
   * same nested key are concatenated too, earlier items first.
   */
  lemma MergeNestedArraysConcatenate(first: Fragment, second: Fragment, key: string, inner: string)
    requires key in first.data && first.data[key].Obj?
    requires key in second.data && second.data[key].Obj?
    requires inner in first.data[key].fields && first.data[key].fields[inner].Arr?
    requires inner in second.data[key].fields && second.data[key].fields[inner].Arr?
    ensures MergeConfigs([first, second])[key].Obj?
    ensures MergeConfigs([first, second])[key].fields[inner]
      == Arr(first.data[key].fields[inner].items + second.data[key].fields[inner].items)
  {
    MergePair(first, second);
  }

  /** Two plain objects under the same key are merged recursively, key by key. */
  lemma MergeObjectsRecursively(first: Fragment, second: Fragment, key: string)
    requires key in first.data && first.data[key].Obj?
    requires key in second.data && second.data[key].Obj?
    ensures var m := MergeConfigs([first, second])[key];
      var a, b := first.data[key].fields, second.data[key].fields;
      && m == Obj(MergeMaps(a, b))
      && m.fields.Keys == a.Keys + b.Keys
      && (forall k :: k in b && k !in a ==> m.fields[k] == b[k])
      && (forall k :: k in a && k !in b ==> m.fields[k] == a[k])
  {
    MergePair(first, second);
  }

  /**
   * Over any number of fragments, the last fragment that declares `key`
   * decides its value when that value is a scalar or an opaque value.
   */
  lemma {:induction false} MergeLastDeclarationWins(fragments: seq<Fragment>, i: nat, key: string)
    requires i < |fragments| && key in fragments[i].data
    requires IsScalar(fragments[i].data[key]) || fragments[i].data[key].Opaque?
    requires forall j :: i < j < |fragments| ==> key !in fragments[j].data
    ensures key in MergeConfigs(fragments)
    ensures MergeConfigs(fragments)[key] == fragments[i].data[key]
  {
    var init := fragments[..|fragments| - 1];
    var last := fragments[|fragments| - 1].data;
    var v := fragments[i].data[key];
    assert MergeConfigs(fragments) == MergeMaps(MergeConfigs(init), last);
    if i < |fragments| - 1 {
      assert init[i] == fragments[i];
      forall j | i < j < |init| ensures key !in init[j].data {
        assert init[j] == fragments[j];
      }
      MergeLastDeclarationWins(init, i, key);
      assert key !in last;
    } else if key in MergeConfigs(init) {
      assert last[key] == v;
    }
  }

  /**
   * When every fragment that declares `key` holds an array there, the
   * merged value is the concatenation of all those arrays in fragment order.
   */
  lemma {:induction false} MergeArraysAcrossFragments(fragments: seq<Fragment>, key: string)
    requires exists i :: 0 <= i < |fragments| && key in fragments[i].data
    requires forall i :: 0 <= i < |fragments| && key in fragments[i].data ==> fragments[i].data[key].Arr?
    ensures key in MergeConfigs(fragments)
    ensures MergeConfigs(fragments)[key] == Arr(ArraysAt(fragments, key))
  {
    var init := fragments[..|fragments| - 1];
    var last := fragments[|fragments| - 1].data;
    assert MergeConfigs(fragments) == MergeMaps(MergeConfigs(init), last);
    assert ArraysAt(fragments, key) == ArraysAt(init, key)
      + (if key in last && last[key].Arr? then last[key].items else []);
    forall i | 0 <= i < |init| && key in init[i].data ensures init[i].data[key].Arr? {
      assert init[i] == fragments[i];
    }
    MergeConfigsKeys(init);
    if exists i :: 0 <= i < |init| && key in init[i].data {
      MergeArraysAcrossFragments(init, key);
      if key in last {
        assert last[key].Arr?;
        var acc := MergeConfigs(init)[key];
        assert MergeConfigs(fragments)[key] == MergeValue(acc, last[key]);
        assert MergeValue(acc, last[key]) == Arr(acc.items + last[key].items);
      }
    } else {
      NoArraysWhereUndeclared(init, key);
      var i :| 0 <= i < |fragments| && key in fragments[i].data;
      assert i == |fragments| - 1;
      assert key !in MergeConfigs(init);
    }
  }

  lemma {:induction false} NoArraysWhereUndeclared(fragments: seq<Fragment>, key: string)
    requires forall i :: 0 <= i < |fragments| ==> key !in fragments[i].data
    ensures ArraysAt(fragments, key) == []
  {
    if fragments != [] {
      NoArraysWhereUndeclared(fragments[..|fragments| - 1], key);
    }
  }
}
