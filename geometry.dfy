/** Rigid-body placement primitives for molecule conformers (ribose_sheet.py). */
module Geometry {

  /** One atom position, in ångström. */
  datatype Point = Point(x: real, y: real, z: real)

  /** The axis names `translate` and `rotate` are called with. Kept as
      named constants so that every use denotes the same string. */
  const AxisX: string := "x"
  const AxisY: string := "y"
  const AxisZ: string := "z"

  /** The point moved by `step` along one column: "x", "y", and every
      other axis name falls through to z. */
  function Shift(p: Point, step: real, axis: string): Point
  {
    if axis == AxisX then p.(x := p.x + step)
    else if axis == AxisY then p.(y := p.y + step)
    else p.(z := p.z + step)
  }

  /** `translate(mol, step, axis)`: adds `step` to one coordinate column of
      every point. Only the column named by `axis` changes. */
  function Translate(mol: seq<Point>, step: real, axis: string): (r: seq<Point>)
    ensures |r| == |mol|
    ensures forall i :: 0 <= i < |r| ==>
      && r[i].x == mol[i].x + (if axis == AxisX then step else 0.0)
      && r[i].y == mol[i].y + (if axis == AxisY then step else 0.0)
      && r[i].z == mol[i].z + (if axis != AxisX && axis != AxisY then step else 0.0)
  {
    seq(|mol|, i requires 0 <= i < |mol| => Shift(mol[i], step, axis))
  }

  /** Two translations along the same axis add up. */
  lemma TranslateCompose(mol: seq<Point>, a: real, b: real, axis: string)
    ensures Translate(Translate(mol, a, axis), b, axis) == Translate(mol, a + b, axis)
  {
    var lhs := Translate(Translate(mol, a, axis), b, axis);
    var rhs := Translate(mol, a + b, axis);
    assert |lhs| == |rhs|;
    forall i | 0 <= i < |lhs| ensures lhs[i] == rhs[i] {
    }
  }

  /** Translating by zero leaves the conformer as it is. */
  lemma TranslateZero(mol: seq<Point>, axis: string)
    ensures Translate(mol, 0.0, axis) == mol
  {
    var r := Translate(mol, 0.0, axis);
    forall i | 0 <= i < |r| ensures r[i] == mol[i] {
    }
  }

  /** A translation followed by the opposite translation is the identity. */
  lemma TranslateRoundTrip(mol: seq<Point>, step: real, axis: string)
    ensures Translate(Translate(mol, step, axis), -step, axis) == mol
  {
    TranslateCompose(mol, step, -step, axis);
    TranslateZero(mol, axis);
  }

  /** `rotate(mol, angle, axis)` with the angle in whole degrees. Its
      trigonometry is not modelled; all the assembly relies on is that a
      rotation returns one point per input point. */
  type Rotation = f: (seq<Point>, int, string) -> seq<Point>
    | forall mol, angle, axis :: |f(mol, angle, axis)| == |mol|
    witness (mol: seq<Point>, angle: int, axis: string) => mol
}
