/**
 * Layer allocation: folds per-fragment declarations "layer -> member
 * names" into one map in which every layer lists each member once, in
 * the order the members were first declared for that layer.
 */
module LayerAllocator {

  /** Layer name to the member names rendered into that layer. */
  type Allocation = map<string, seq<string>>

  predicate NoDuplicates(s: seq<string>)
  {
    forall i, j :: 0 <= i < j < |s| ==> s[i] != s[j]
  }

  /**
   * Reference definition: the first occurrence of every element of `s`,
   * in the order of those first occurrences.
   */
  function FirstOccurrences(s: seq<string>): (r: seq<string>)
    ensures NoDuplicates(r)
    ensures forall x :: x in r <==> x in s
  {
    if s == [] then []
    else
      var seen := FirstOccurrences(s[..|s| - 1]);
      if s[|s| - 1] in seen then seen else seen + [s[|s| - 1]]
  }

  /** Appends `member` to `list` unless it is already there. */
  function AddMember(list: seq<string>, member: string): (r: seq<string>)
    ensures NoDuplicates(list) ==> NoDuplicates(r)
    ensures forall x :: x in r <==> x in list || x == member
    ensures list <= r
  {
    if member in list then list else list + [member]
  }

  /** Appends each of `members` in turn, skipping those already present. */
  function AddMembers(list: seq<string>, members: seq<string>): (r: seq<string>)
    ensures NoDuplicates(list) ==> NoDuplicates(r)
    ensures forall x :: x in r <==> x in list || x in members
    ensures list <= r
    decreases members
  {
    if members == [] then list
    else AddMembers(AddMember(list, members[0]), members[1..])
  }

  /** Adds one input's declarations to the accumulated allocation. */
  function AllocateOne(acc: Allocation, input: Allocation): (r: Allocation)
    ensures r.Keys == acc.Keys + input.Keys
    ensures forall layer :: layer in acc && layer !in input ==> r[layer] == acc[layer]
    ensures forall layer :: layer in acc ==> acc[layer] <= r[layer]
  {
    map layer | layer in acc.Keys + input.Keys ::
      if layer in input then AddMembers(if layer in acc then acc[layer] else [], input[layer])
      else acc[layer]
  }

  /** allocateToLayers: folds the inputs, left to right, into an empty allocation. */
  function AllocateToLayers(inputs: seq<Allocation>): (r: Allocation)
    ensures r.Keys == LayersNamed(inputs)
    ensures forall layer :: layer in r ==> NoDuplicates(r[layer])
  {
    if inputs == [] then map[]
    else AllocateOne(AllocateToLayers(inputs[..|inputs| - 1]), inputs[|inputs| - 1])
  }

  /** Every layer named by some input. */
  function LayersNamed(inputs: seq<Allocation>): set<string>
  {
    if inputs == [] then {}
    else LayersNamed(inputs[..|inputs| - 1]) + inputs[|inputs| - 1].Keys
  }

  /** Every member declared for `layer`, input after input, duplicates included. */
  function Declared(inputs: seq<Allocation>, layer: string): seq<string>
  {
    if inputs == [] then []
    else
      var last := inputs[|inputs| - 1];
      Declared(inputs[..|inputs| - 1], layer) + (if layer in last then last[layer] else [])
  }

  /** Appending one member keeps the list equal to the first occurrences of everything seen. */
  lemma AddMemberFirstOccurrences(seen: seq<string>, member: string)
    ensures AddMember(FirstOccurrences(seen), member) == FirstOccurrences(seen + [member])
  {
    assert (seen + [member])[..|seen|] == seen;
  }

  /** Appending members one by one computes the first occurrences of the whole sequence. */
  lemma {:induction false} AddMembersFirstOccurrences(seen: seq<string>, members: seq<string>)
    ensures AddMembers(FirstOccurrences(seen), members) == FirstOccurrences(seen + members)
    decreases members
  {
    if members == [] {
      assert seen + members == seen;
    } else {
      var grown := seen + [members[0]];
      calc {
        AddMembers(FirstOccurrences(seen), members);
        AddMembers(AddMember(FirstOccurrences(seen), members[0]), members[1..]);
        { AddMemberFirstOccurrences(seen, members[0]); }
        AddMembers(FirstOccurrences(grown), members[1..]);
        { AddMembersFirstOccurrences(grown, members[1..]); }
        FirstOccurrences(grown + members[1..]);
        { assert grown + members[1..] == seen + members; }
        FirstOccurrences(seen + members);
      }
    }
  }

  /** The allocation holds exactly the layers named by some input. */
  lemma {:induction false} AllocatedLayers(inputs: seq<Allocation>)
    ensures forall layer :: layer in AllocateToLayers(inputs) <==>
      exists i :: 0 <= i < |inputs| && layer in inputs[i]
  {
    if inputs != [] {
      var init := inputs[..|inputs| - 1];
      var last := inputs[|inputs| - 1];
      AllocatedLayers(init);
      var acc := AllocateToLayers(init);
      assert AllocateToLayers(inputs) == AllocateOne(acc, last);
      forall layer ensures layer in AllocateToLayers(inputs) <==>
        exists i :: 0 <= i < |inputs| && layer in inputs[i]
      {
        if layer in acc {
          var i :| 0 <= i < |init| && layer in init[i];
          assert inputs[i] == init[i];
        }
        if exists i :: 0 <= i < |inputs| && layer in inputs[i] {
          var i :| 0 <= i < |inputs| && layer in inputs[i];
          if i < |init| {
            assert init[i] == inputs[i];
          }
        }
      }
    }
  }

  /**
   * Each layer's list is the first occurrences of all members declared
   * for that layer, input after input.
   */
  lemma {:induction false} AllocatedMembers(inputs: seq<Allocation>, layer: string)
    requires layer in AllocateToLayers(inputs)
    ensures AllocateToLayers(inputs)[layer] == FirstOccurrences(Declared(inputs, layer))
  {
    var init := inputs[..|inputs| - 1];
    var last := inputs[|inputs| - 1];
    var acc := AllocateToLayers(init);
    assert AllocateToLayers(inputs) == AllocateOne(acc, last);
    assert Declared(inputs, layer) == Declared(init, layer) + (if layer in last then last[layer] else []);
    if layer in acc {
      AllocatedMembers(init, layer);
      if layer in last {
        AddMembersFirstOccurrences(Declared(init, layer), last[layer]);
      } else {
        assert Declared(inputs, layer) == Declared(init, layer);
      }
    } else {
      AllocatedLayers(init);
      NothingDeclared(init, layer);
      AddMembersFirstOccurrences([], last[layer]);
    }
  }

  lemma {:induction false} NothingDeclared(inputs: seq<Allocation>, layer: string)
    requires forall i :: 0 <= i < |inputs| ==> layer !in inputs[i]
    ensures Declared(inputs, layer) == []
    ensures FirstOccurrences(Declared(inputs, layer)) == []
  {
    if inputs != [] {
      NothingDeclared(inputs[..|inputs| - 1], layer);
    }
  }

  /** A member appears in the declarations for `layer` exactly when some input lists it there. */
  lemma {:induction false} DeclaredMembers(inputs: seq<Allocation>, layer: string, member: string)
    ensures member in Declared(inputs, layer) <==>
      exists i :: 0 <= i < |inputs| && layer in inputs[i] && member in inputs[i][layer]
  {
    if inputs != [] {
      var init := inputs[..|inputs| - 1];
      DeclaredMembers(init, layer, member);
      if exists i :: 0 <= i < |init| && layer in init[i] && member in init[i][layer] {
        var i :| 0 <= i < |init| && layer in init[i] && member in init[i][layer];
        assert inputs[i] == init[i];
      }
      if exists i :: 0 <= i < |inputs| && layer in inputs[i] && member in inputs[i][layer] {
        var i :| 0 <= i < |inputs| && layer in inputs[i] && member in inputs[i][layer];
        if i < |init| {
          assert init[i] == inputs[i];
        }
      }
    }
  }

  /**
   * Every layer named by any input is in the result; each layer's list has
   * no duplicates and holds exactly the members declared for that layer
   * across all inputs.
   */
  lemma AllocatedLayersAreDistinctUnions(inputs: seq<Allocation>, layer: string)
    requires exists i :: 0 <= i < |inputs| && layer in inputs[i]
    ensures layer in AllocateToLayers(inputs)
    ensures NoDuplicates(AllocateToLayers(inputs)[layer])
    ensures forall member :: member in AllocateToLayers(inputs)[layer] <==>
      exists i :: 0 <= i < |inputs| && layer in inputs[i] && member in inputs[i][layer]
  {
    AllocatedLayers(inputs);
    AllocatedMembers(inputs, layer);
    forall member ensures member in AllocateToLayers(inputs)[layer] <==>
      exists i :: 0 <= i < |inputs| && layer in inputs[i] && member in inputs[i][layer]
    {
      DeclaredMembers(inputs, layer, member);
    }
  }

  /**
   * A later input never removes or reorders members already allocated to a
   * layer: the earlier list is a prefix of the later one.
   */
  lemma {:induction false} AllocationOnlyAppends(inputs: seq<Allocation>, n: nat, layer: string)
    requires n <= |inputs|
    ensures layer in AllocateToLayers(inputs[..n]) ==>
      && layer in AllocateToLayers(inputs)
      && AllocateToLayers(inputs[..n])[layer] <= AllocateToLayers(inputs)[layer]
  {
    if n < |inputs| {
      var init := inputs[..|inputs| - 1];
      assert init[..n] == inputs[..n];
      AllocationOnlyAppends(init, n, layer);
    } else {
      assert inputs[..n] == inputs;
    }
  }

  /** The position at which `x` first occurs in `s`. */
  function FirstIndex(s: seq<string>, x: string): (i: nat)
    requires x in s
    ensures i < |s| && s[i] == x && x !in s[..i]
  {
    if s[0] == x then 0
    else
      var i := 1 + FirstIndex(s[1..], x);
      assert s[..i] == [s[0]] + s[1..][..i - 1];
      i
  }

  /** A position holding `x` with no earlier `x` is the first index of `x`. */
  lemma FirstIndexUnique(s: seq<string>, x: string, i: nat)
    requires i < |s| && s[i] == x && x !in s[..i]
    ensures FirstIndex(s, x) == i
  {
  }

  /**
   * First-seen order: members come out in the order of their first
   * occurrence in the declarations.
   */
  lemma {:induction false} FirstOccurrencesOrder(s: seq<string>, i: nat, j: nat)
    requires i < j < |FirstOccurrences(s)|
    ensures FirstIndex(s, FirstOccurrences(s)[i]) < FirstIndex(s, FirstOccurrences(s)[j])
  {
    var p := s[..|s| - 1];
    var seen := FirstOccurrences(p);
    var r := FirstOccurrences(s);
    var x, y := r[i], r[j];
    assert x in seen;
    var fx := FirstIndex(p, x);
    assert p[..fx] == s[..fx];
    FirstIndexUnique(s, x, fx);
    if j < |seen| {
      FirstOccurrencesOrder(p, i, j);
      var fy := FirstIndex(p, y);
      assert p[..fy] == s[..fy];
      FirstIndexUnique(s, y, fy);
    } else {
      assert y == s[|s| - 1] && y !in p;
      assert s[..|s| - 1] == p;
      FirstIndexUnique(s, y, |s| - 1);
    }
  }
}
