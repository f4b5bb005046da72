/** The append-only OpenMM `Modeller` the sheet builders add molecules to. */
module Modelling {
  import opened Geometry

  /** What the assembly needs of a molecule template's topology. */
  datatype Topology = Topology(resName: string, nAtoms: nat)

  /** One molecule added to the modeller: its topology and its own copy of
      the transformed coordinates. */
  datatype Instance = Instance(top: Topology, positions: seq<Point>)

  /** A `[start, stop)` atom-index span, as the builders return it. */
  datatype AtomRange = AtomRange(start: nat, stop: nat)

  /** Number of atoms contributed by a sequence of instances. */
  function AtomCount(xs: seq<Instance>): nat
  {
    if xs == [] then 0 else AtomCount(xs[..|xs| - 1]) + xs[|xs| - 1].top.nAtoms
  }

  /** The concatenated positions array, in insertion order. */
  function Flatten(xs: seq<Instance>): seq<Point>
  {
    if xs == [] then [] else Flatten(xs[..|xs| - 1]) + xs[|xs| - 1].positions
  }

  /** Every instance carries one position per atom of its topology. */
  predicate Consistent(xs: seq<Instance>)
  {
    forall i :: 0 <= i < |xs| ==> |xs[i].positions| == xs[i].top.nAtoms
  }

  lemma {:induction false} AtomCountAppend(a: seq<Instance>, b: seq<Instance>)
    ensures AtomCount(a + b) == AtomCount(a) + AtomCount(b)
    decreases |b|
  {
    if b == [] {
      assert a + b == a;
    } else {
      assert (a + b)[..|a + b| - 1] == a + b[..|b| - 1];
      AtomCountAppend(a, b[..|b| - 1]);
    }
  }

  lemma {:induction false} FlattenAppend(a: seq<Instance>, b: seq<Instance>)
    ensures Flatten(a + b) == Flatten(a) + Flatten(b)
    decreases |b|
  {
    if b == [] {
      assert a + b == a;
    } else {
      assert (a + b)[..|a + b| - 1] == a + b[..|b| - 1];
      FlattenAppend(a, b[..|b| - 1]);
    }
  }

  /** Adding one molecule adds its atoms to the count. */
  lemma AtomCountSnoc(xs: seq<Instance>, m: Instance)
    ensures AtomCount(xs + [m]) == AtomCount(xs) + m.top.nAtoms
  {
    assert (xs + [m])[..|xs|] == xs;
  }

  lemma ConsistentAppend(a: seq<Instance>, b: seq<Instance>)
    requires Consistent(a) && Consistent(b)
    ensures Consistent(a + b)
  {
    forall i | 0 <= i < |a + b| ensures |(a + b)[i].positions| == (a + b)[i].top.nAtoms {
      if i >= |a| {
        assert (a + b)[i] == b[i - |a|];
      }
    }
  }

  /** The positions array has exactly one entry per atom. */
  lemma {:induction false} FlattenLength(xs: seq<Instance>)
    requires Consistent(xs)
    ensures |Flatten(xs)| == AtomCount(xs)
    decreases |xs|
  {
    if xs != [] {
      FlattenLength(xs[..|xs| - 1]);
    }
  }

  class Modeller {
    /** The molecules added so far, in insertion order. */
    var instances: seq<Instance>

    predicate Valid()
      reads this
    {
      Consistent(instances)
    }

    /** `model.topology.getNumAtoms()` */
    function NumAtoms(): nat
      reads this
    {
      AtomCount(instances)
    }

    /** `model.positions`: one position per atom. */
    function Positions(): (r: seq<Point>)
      reads this
      ensures Valid() ==> |r| == NumAtoms()
    {
      if Valid() then FlattenLength(instances); Flatten(instances) else Flatten(instances)
    }

    /** A modeller emptied right after construction, as `simulate` does. */
    constructor ()
      ensures Valid() && instances == []
    {
      instances := [];
    }

    /** `model.add(top, pos)`: appends one molecule. The atom count then
        grows by `top.nAtoms` and the positions array by `pos`
        (`AtomCountAppend`, `FlattenAppend`). */
    method Add(top: Topology, pos: seq<Point>)
      requires Valid()
      requires |pos| == top.nAtoms
      modifies this
      ensures Valid()
      ensures instances == old(instances) + [Instance(top, pos)]
    {
      instances := instances + [Instance(top, pos)];
    }
  }
}
