/** `make_sheet`: the deterministic base sheet of alternating templates
    (ribose_sheet.py). */
module Sheet {
  import opened Geometry
  import opened Modelling
  import Arith

  /** The templates can be placed: one conformer per topology, each with
      one position per atom. */
  predicate TemplatesFit(tops: seq<Topology>, poss: seq<seq<Point>>)
  {
    && |tops| <= |poss|
    && forall k :: 0 <= k < |tops| ==> |poss[k]| == tops[k].nAtoms
  }

  /** Total atom count of one copy of every template. */
  function TemplateAtoms(tops: seq<Topology>): nat
  {
    if tops == [] then 0 else TemplateAtoms(tops[..|tops| - 1]) + tops[|tops| - 1].nAtoms
  }

  lemma TemplateAtomsStep(tops: seq<Topology>, k: nat)
    requires k < |tops|
    ensures TemplateAtoms(tops[..k + 1]) == TemplateAtoms(tops[..k]) + tops[k].nAtoms
  {
    assert tops[..k + 1][..k] == tops[..k];
  }

  /** `n` steps of `spacing` ångström. */
  function Offset(spacing: real, n: nat): real
  {
    spacing * (n as real)
  }

  /** Copy `i` of sheet column `x` (copy 0 is the column's base): the
      columns cycle through the templates, column `x` lies `x` steps along
      x and its copy `i` a further `i` steps along y. */
  function Copy(tops: seq<Topology>, poss: seq<seq<Point>>, spacing: real, x: nat, i: nat): Instance
    requires 0 < |tops| <= |poss|
  {
    var k := x % |tops|;
    Instance(tops[k], Translate(Translate(poss[k], Offset(spacing, x), AxisX), Offset(spacing, i), AxisY))
  }

  /** The molecules of a sheet whose columns hold `height + 1` copies
      each, in insertion order, up to copy `i` of column `x` (exclusive):
      all of columns `0 .. x-1`, then copies `0 .. i-1` of column `x`. */
  function Layout(tops: seq<Topology>, poss: seq<seq<Point>>, spacing: real, height: nat, x: nat, i: nat): seq<Instance>
    requires |tops| <= |poss| && i <= height + 1
    decreases x, i
  {
    if tops == [] then []
    else if i > 0 then Layout(tops, poss, spacing, height, x, i - 1) + [Copy(tops, poss, spacing, x, i - 1)]
    else if x > 0 then Layout(tops, poss, spacing, height, x - 1, height + 1)
    else []
  }

  /** The molecules `make_sheet` adds: `width * len(tops)` full columns. */
  function Sheet(tops: seq<Topology>, poss: seq<seq<Point>>, spacing: real, height: nat, width: nat): seq<Instance>
    requires |tops| <= |poss|
  {
    Layout(tops, poss, spacing, height, width * |tops|, 0)
  }

  /** Copy `i` of column `x` is molecule number `x * (height + 1) + i`. */
  lemma {:induction false} LayoutLength(tops: seq<Topology>, poss: seq<seq<Point>>, spacing: real, height: nat, x: nat, i: nat)
    requires 0 < |tops| <= |poss| && i <= height + 1
    ensures |Layout(tops, poss, spacing, height, x, i)| == x * (height + 1) + i
    decreases x, i
  {
    if i > 0 {
      LayoutLength(tops, poss, spacing, height, x, i - 1);
    } else if x > 0 {
      LayoutLength(tops, poss, spacing, height, x - 1, height + 1);
      Arith.MulSucc(x - 1, height + 1);
    }
  }

  /** A layout that stops earlier is a prefix of one that stops later. */
  lemma {:induction false} LayoutPrefix(tops: seq<Topology>, poss: seq<seq<Point>>, spacing: real, height: nat,
                                        x: nat, i: nat, x2: nat, i2: nat)
    requires |tops| <= |poss| && i <= height + 1 && i2 <= height + 1
    requires x < x2 || (x == x2 && i <= i2)
    ensures Layout(tops, poss, spacing, height, x, i) <= Layout(tops, poss, spacing, height, x2, i2)
    decreases x2, i2
  {
    if tops != [] && !(x == x2 && i == i2) {
      if i2 > 0 {
        LayoutPrefix(tops, poss, spacing, height, x, i, x2, i2 - 1);
      } else {
        LayoutPrefix(tops, poss, spacing, height, x, i, x2 - 1, height + 1);
      }
    }
  }

  /** Copy `i` of column `x` sits at index `x * (height + 1) + i` of every
      layout that goes past it. */
  lemma LayoutCell(tops: seq<Topology>, poss: seq<seq<Point>>, spacing: real, height: nat,
                   x2: nat, i2: nat, x: nat, i: nat)
    requires 0 < |tops| <= |poss| && i <= height && i2 <= height + 1
    requires x < x2 || (x == x2 && i < i2)
    ensures x * (height + 1) + i < |Layout(tops, poss, spacing, height, x2, i2)|
    ensures Layout(tops, poss, spacing, height, x2, i2)[x * (height + 1) + i] == Copy(tops, poss, spacing, x, i)
  {
    LayoutPrefix(tops, poss, spacing, height, x, i + 1, x2, i2);
    LayoutLength(tops, poss, spacing, height, x, i);
    LayoutLength(tops, poss, spacing, height, x2, i2);
  }

  /** `make_sheet` adds `width * len(tops) * (height + 1)` molecules. */
  lemma SheetLength(tops: seq<Topology>, poss: seq<seq<Point>>, spacing: real, height: nat, width: nat)
    requires |tops| <= |poss|
    ensures |Sheet(tops, poss, spacing, height, width)| == width * |tops| * (height + 1)
  {
    if tops != [] {
      LayoutLength(tops, poss, spacing, height, width * |tops|, 0);
    }
  }

  /** For every outer step `j < width`, template `k` and copy `i <= height`,
      molecule `(j * len(tops) + k) * (height + 1) + i` of the sheet is
      built from `tops[k]`, and every atom of it sits at the template's
      position moved `spacing * (j * len(tops) + k)` along x and
      `spacing * i` along y. */
  lemma SheetPlacement(tops: seq<Topology>, poss: seq<seq<Point>>, spacing: real, height: nat, width: nat,
                       j: nat, k: nat, i: nat, a: nat)
    requires TemplatesFit(tops, poss)
    requires j < width && k < |tops| && i <= height && a < tops[k].nAtoms
    ensures (j * |tops| + k) * (height + 1) + i < |Sheet(tops, poss, spacing, height, width)|
    ensures var m := Sheet(tops, poss, spacing, height, width)[(j * |tops| + k) * (height + 1) + i];
      && m.top == tops[k]
      && |m.positions| == tops[k].nAtoms
      && m.positions[a] == Point(poss[k][a].x + spacing * ((j * |tops| + k) as real),
                                 poss[k][a].y + spacing * (i as real),
                                 poss[k][a].z)
  {
    var x := j * |tops| + k;
    assert x < width * |tops| by {
      Arith.MulSucc(j, |tops|);
      Arith.MulMono(j + 1, width, |tops|);
    }
    LayoutCell(tops, poss, spacing, height, width * |tops|, 0, x, i);
    Arith.MultipleMod(j, |tops|);
    Arith.ModAfterMultiple(j * |tops|, |tops|, k);
  }

  /** Conversely, molecule `n` of the sheet is copy `n % (height + 1)`
      of column `n / (height + 1)`, a column of the sheet; so distinct
      molecules occupy distinct grid cells. */
  lemma SheetCells(tops: seq<Topology>, poss: seq<seq<Point>>, spacing: real, height: nat, width: nat, n: nat)
    requires |tops| <= |poss|
    requires n < |Sheet(tops, poss, spacing, height, width)|
    ensures tops != []
    ensures n / (height + 1) < width * |tops|
    ensures Sheet(tops, poss, spacing, height, width)[n] == Copy(tops, poss, spacing, n / (height + 1), n % (height + 1))
  {
    LayoutLength(tops, poss, spacing, height, width * |tops|, 0);
    Arith.BlockOf(n, height + 1, width * |tops|);
    LayoutCell(tops, poss, spacing, height, width * |tops|, 0, n / (height + 1), n % (height + 1));
  }

  // ----- the builder -----

  /** `model.add(tops[k], pos)` for copy `i` of column `x`. */
  method AddCopy(model: Modeller, tops: seq<Topology>, poss: seq<seq<Point>>, spacing: real, height: nat,
                 x: nat, k: nat, i: nat, pos: seq<Point>, ghost before: seq<Instance>)
    requires model.Valid() && TemplatesFit(tops, poss)
    requires k < |tops| && k == x % |tops| && i <= height
    requires pos == Translate(Translate(poss[k], Offset(spacing, x), AxisX), Offset(spacing, i), AxisY)
    requires model.instances == before + Layout(tops, poss, spacing, height, x, i)
    modifies model
    ensures model.Valid()
    ensures model.instances == before + Layout(tops, poss, spacing, height, x, i + 1)
    ensures model.NumAtoms() == old(model.NumAtoms()) + tops[k].nAtoms
  {
    AtomCountSnoc(model.instances, Instance(tops[k], pos));
    model.Add(tops[k], pos);
  }

  /** One column of `make_sheet`: the base copy at `base`, then `height`
      copies, each `spacing` further along y than the one before. */
  method AddColumn(model: Modeller, tops: seq<Topology>, poss: seq<seq<Point>>, spacing: real, height: nat,
                   x: nat, k: nat, base: seq<Point>, ghost before: seq<Instance>)
    requires model.Valid() && TemplatesFit(tops, poss)
    requires k < |tops| && k == x % |tops|
    requires base == Translate(poss[k], Offset(spacing, x), AxisX)
    requires model.instances == before + Layout(tops, poss, spacing, height, x, 0)
    modifies model
    ensures model.Valid()
    ensures model.instances == before + Layout(tops, poss, spacing, height, x + 1, 0)
    ensures model.NumAtoms() == old(model.NumAtoms()) + (height + 1) * tops[k].nAtoms
  {
    var pos := base;
    TranslateZero(base, AxisY);
    assert Offset(spacing, 0) == 0.0;
    AddCopy(model, tops, poss, spacing, height, x, k, 0, pos, before);
    for i := 0 to height
      invariant model.Valid()
      invariant pos == Translate(base, Offset(spacing, i), AxisY)
      invariant model.instances == before + Layout(tops, poss, spacing, height, x, i + 1)
      invariant model.NumAtoms() == old(model.NumAtoms()) + (i + 1) * tops[k].nAtoms
    {
      TranslateCompose(base, Offset(spacing, i), spacing, AxisY);
      assert Offset(spacing, i) + spacing == Offset(spacing, i + 1);
      pos := Translate(pos, spacing, AxisY);
      AddCopy(model, tops, poss, spacing, height, x, k, i + 1, pos, before);
      Arith.MulSucc(i + 1, tops[k].nAtoms);
    }
  }

  /** One pass of `make_sheet`'s loop over the templates: a column per
      template, the column counter `xspacing` advancing by one each. */
  method AddRow(model: Modeller, tops: seq<Topology>, poss: seq<seq<Point>>, spacing: real, height: nat,
                xspacing: nat, ghost before: seq<Instance>)
    returns (xnext: nat)
    requires model.Valid() && TemplatesFit(tops, poss)
    requires tops != [] ==> xspacing % |tops| == 0
    requires model.instances == before + Layout(tops, poss, spacing, height, xspacing, 0)
    modifies model
    ensures model.Valid()
    ensures xnext == xspacing + |tops|
    ensures model.instances == before + Layout(tops, poss, spacing, height, xnext, 0)
    ensures model.NumAtoms() == old(model.NumAtoms()) + (height + 1) * TemplateAtoms(tops)
  {
    xnext := xspacing;
    assert tops[..0] == [];
    for k := 0 to |tops|
      invariant model.Valid()
      invariant xnext == xspacing + k
      invariant model.instances == before + Layout(tops, poss, spacing, height, xnext, 0)
      invariant model.NumAtoms() == old(model.NumAtoms()) + (height + 1) * TemplateAtoms(tops[..k])
    {
      var pos := Translate(poss[k], Offset(spacing, xnext), AxisX);
      Arith.ModAfterMultiple(xspacing, |tops|, k);
      AddColumn(model, tops, poss, spacing, height, xnext, k, pos, before);
      TemplateAtomsStep(tops, k);
      Arith.MulDistrib(height + 1, TemplateAtoms(tops[..k]), tops[k].nAtoms);
      xnext := xnext + 1;
    }
    assert tops[..|tops|] == tops;
  }

  /** `make_sheet(height, width, tops, poss, model, step)`: the molecules
      it adds are the sheet (placed as `SheetPlacement` says), and the atom
      range it returns spans `width * (height + 1)` copies of the
      templates' atoms. */
  method MakeSheet(height: nat, width: nat, tops: seq<Topology>, poss: seq<seq<Point>>, model: Modeller, step: real)
    returns (range: AtomRange)
    requires model.Valid()
    requires TemplatesFit(tops, poss)
    modifies model
    ensures model.Valid()
    ensures model.instances == old(model.instances) + Sheet(tops, poss, step * (|tops| as real), height, width)
    ensures range == AtomRange(old(model.NumAtoms()), model.NumAtoms())
    ensures range.stop - range.start == width * (height + 1) * TemplateAtoms(tops)
  {
    var sheetStartingIndex := model.NumAtoms();
    var xspacing: nat := 0;
    var spacing := step * (|tops| as real);
    ghost var before := model.instances;
    ghost var rowAtoms := (height + 1) * TemplateAtoms(tops);

    for j := 0 to width
      invariant model.Valid()
      invariant xspacing == j * |tops|
      invariant model.instances == before + Layout(tops, poss, spacing, height, xspacing, 0)
      invariant model.NumAtoms() == sheetStartingIndex + j * rowAtoms
    {
      if tops != [] {
        Arith.MultipleMod(j, |tops|);
      }
      xspacing := AddRow(model, tops, poss, spacing, height, xspacing, before);
      Arith.MulSucc(j, |tops|);
      Arith.MulSucc(j, rowAtoms);
    }
    Arith.MulAssoc(width, height + 1, TemplateAtoms(tops));
    range := AtomRange(sheetStartingIndex, model.NumAtoms());
  }
}
