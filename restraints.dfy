/** The harmonic position restraint `simulate` puts on the base sheet
    (ribose_sheet.py): one particle per restrained atom, anchored at that
    atom's starting position. */
module Restraints {
  import opened Geometry
  import opened Modelling

  /** `k` of `k*((x-x0)^2+(y-y0)^2+(z-z0)^2)`, in kJ/mol/Å². */
  const ForceConstant: real := 100.0

  /** One `addParticle(i, model.positions[i])` call. */
  datatype Particle = Particle(index: nat, anchor: Point)

  /** The custom external force, as far as the restraint loop uses it. */
  class PositionRestraint {
    var k: real
    var particles: seq<Particle>

    constructor ()
      ensures k == ForceConstant && particles == []
    {
      k := ForceConstant;
      particles := [];
    }

    /** `restraint.addParticle(i, pos)` */
    method AddParticle(i: nat, pos: Point)
      modifies this
      ensures k == old(k)
      ensures particles == old(particles) + [Particle(i, pos)]
    {
      particles := particles + [Particle(i, pos)];
    }
  }

  /** Every range lies inside the positions array. */
  predicate RangesFit(ranges: seq<AtomRange>, n: nat)
  {
    forall r :: 0 <= r < |ranges| ==> ranges[r].start <= ranges[r].stop <= n
  }

  /** The particles for atoms `start .. stop-1`, in index order. */
  function Span(start: nat, stop: nat, positions: seq<Point>): seq<Particle>
    requires start <= stop <= |positions|
    decreases stop - start
  {
    if start == stop then [] else Span(start, stop - 1, positions) + [Particle(stop - 1, positions[stop - 1])]
  }

  /** The particles the restraint loop adds for `ranges`, in order. */
  function Anchors(ranges: seq<AtomRange>, positions: seq<Point>): seq<Particle>
    requires RangesFit(ranges, |positions|)
  {
    if ranges == [] then []
    else
      var last := ranges[|ranges| - 1];
      Anchors(ranges[..|ranges| - 1], positions) + Span(last.start, last.stop, positions)
  }

  /** How many particles restrain atom `i`. */
  function Occurrences(ps: seq<Particle>, i: nat): nat
  {
    if ps == [] then 0 else Occurrences(ps[..|ps| - 1], i) + (if ps[|ps| - 1].index == i then 1 else 0)
  }

  /** How many of the ranges contain atom `i`. */
  function Covering(ranges: seq<AtomRange>, i: nat): nat
  {
    if ranges == [] then 0
    else
      var last := ranges[|ranges| - 1];
      Covering(ranges[..|ranges| - 1], i) + (if last.start <= i < last.stop then 1 else 0)
  }

  lemma {:induction false} OccurrencesAppend(a: seq<Particle>, b: seq<Particle>, i: nat)
    ensures Occurrences(a + b, i) == Occurrences(a, i) + Occurrences(b, i)
    decreases |b|
  {
    if b == [] {
      assert a + b == a;
    } else {
      assert (a + b)[..|a + b| - 1] == a + b[..|b| - 1];
      OccurrencesAppend(a, b[..|b| - 1], i);
    }
  }

  /** A span restrains each of its atoms once and no other atom. */
  lemma {:induction false} SpanOccurrences(start: nat, stop: nat, positions: seq<Point>, i: nat)
    requires start <= stop <= |positions|
    ensures Occurrences(Span(start, stop, positions), i) == if start <= i < stop then 1 else 0
    decreases stop - start
  {
    if start < stop {
      var prev := Span(start, stop - 1, positions);
      var last := [Particle(stop - 1, positions[stop - 1])];
      SpanOccurrences(start, stop - 1, positions, i);
      OccurrencesAppend(prev, last, i);
      assert last[..0] == [];
    }
  }

  /** Atom `i` is restrained once for each range that contains it, so
      exactly once when a single range covers it and never when none
      does. */
  lemma {:induction false} AnchorsOccurrences(ranges: seq<AtomRange>, positions: seq<Point>, i: nat)
    requires RangesFit(ranges, |positions|)
    ensures Occurrences(Anchors(ranges, positions), i) == Covering(ranges, i)
  {
    if ranges != [] {
      var last := ranges[|ranges| - 1];
      AnchorsOccurrences(ranges[..|ranges| - 1], positions, i);
      SpanOccurrences(last.start, last.stop, positions, i);
      OccurrencesAppend(Anchors(ranges[..|ranges| - 1], positions), Span(last.start, last.stop, positions), i);
    }
  }

  /** Every particle of a span is anchored at its own atom's position. */
  lemma {:induction false} SpanAnchored(start: nat, stop: nat, positions: seq<Point>, t: nat)
    requires start <= stop <= |positions| && t < stop - start
    ensures |Span(start, stop, positions)| == stop - start
    ensures Span(start, stop, positions)[t] == Particle(start + t, positions[start + t])
    decreases stop - start
  {
    if t < stop - start - 1 {
      SpanAnchored(start, stop - 1, positions, t);
    } else if start < stop - 1 {
      SpanAnchored(start, stop - 1, positions, 0);
    }
  }

  // ----- the restraint loop -----

  /** `for i in range(start, stop): restraint.addParticle(i, model.positions[i])` */
  method AddSpan(restraint: PositionRestraint, start: nat, stop: nat, positions: seq<Point>)
    requires start <= stop <= |positions|
    modifies restraint
    ensures restraint.k == old(restraint.k)
    ensures restraint.particles == old(restraint.particles) + Span(start, stop, positions)
  {
    for i := start to stop
      invariant restraint.k == old(restraint.k)
      invariant restraint.particles == old(restraint.particles) + Span(start, i, positions)
    {
      restraint.AddParticle(i, positions[i]);
    }
  }

  /** `for start, stop in sheet_indices: ...`: restrains the atoms of every
      recorded range. */
  method AddRestraints(restraint: PositionRestraint, ranges: seq<AtomRange>, positions: seq<Point>)
    requires RangesFit(ranges, |positions|)
    modifies restraint
    ensures restraint.k == old(restraint.k)
    ensures restraint.particles == old(restraint.particles) + Anchors(ranges, positions)
  {
    for r := 0 to |ranges|
      invariant restraint.k == old(restraint.k)
      invariant restraint.particles == old(restraint.particles) + Anchors(ranges[..r], positions)
    {
      assert ranges[..r + 1][..r] == ranges[..r];
      AddSpan(restraint, ranges[r].start, ranges[r].stop, positions);
    }
    assert ranges[..|ranges|] == ranges;
  }
}
