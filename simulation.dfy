/** The system-building part of `simulate` (ribose_sheet.py): the
    conformers are placed, the base sheet of guanine and cytosine is laid,
    the sugar layer is scattered above it, and the base sheet alone is
    restrained. */
module Simulation {
  import opened Geometry
  import opened Modelling
  import Sheet
  import SheetRandom
  import Restraints
  import Arith

  /** One entry of `load_mols`: a topology and its first conformer. */
  datatype Template = Template(top: Topology, positions: seq<Point>)

  predicate TemplateFits(t: Template)
  {
    |t.positions| == t.top.nAtoms
  }

  /** A sugar conformer moved above the middle of the sheet: 14 Å up,
      5 Å along y, 5 Å along x. */
  function SugarConformer(pos: seq<Point>): (r: seq<Point>)
    ensures |r| == |pos|
  {
    Translate(Translate(Translate(pos, 14.0, AxisZ), 5.0, AxisY), 5.0, AxisX)
  }

  /** The cytosine conformer: turned 300° about z, 180° about y and 190°
      about x, then moved 1 Å along z, 4 Å along x and 4 Å along y. */
  function CytosineConformer(pos: seq<Point>, rotate: Rotation): (r: seq<Point>)
    ensures |r| == |pos|
  {
    var turned := rotate(rotate(rotate(pos, 300, AxisZ), 180, AxisY), 190, AxisX);
    Translate(Translate(Translate(turned, 1.0, AxisZ), 4.0, AxisX), 4.0, AxisY)
  }

  /** The guanine conformer: turned -50° about z, then moved 4.7 Å along x,
      4 Å along y and 1 Å along z, so that it faces the cytosine. */
  function GuanineConformer(pos: seq<Point>, rotate: Rotation): (r: seq<Point>)
    ensures |r| == |pos|
  {
    Translate(Translate(Translate(rotate(pos, -50, AxisZ), 4.7, AxisX), 4.0, AxisY), 1.0, AxisZ)
  }

  /** Every sugar atom ends up exactly (5, 5, 14) Å from where the
      template had it. */
  lemma SugarLift(pos: seq<Point>, a: nat)
    requires a < |pos|
    ensures SugarConformer(pos)[a] == Point(pos[a].x + 5.0, pos[a].y + 5.0, pos[a].z + 14.0)
  {
  }

  /** After the turns, every cytosine atom is moved by (4, 4, 1) Å and
      every guanine atom by (4.7, 4, 1) Å. */
  lemma BaseShifts(gpos: seq<Point>, cpos: seq<Point>, rotate: Rotation, a: nat, b: nat)
    requires a < |gpos| && b < |cpos|
    ensures var gt := rotate(gpos, -50, AxisZ);
      GuanineConformer(gpos, rotate)[a] == Point(gt[a].x + 4.7, gt[a].y + 4.0, gt[a].z + 1.0)
    ensures var ct := rotate(rotate(rotate(cpos, 300, AxisZ), 180, AxisY), 190, AxisX);
      CytosineConformer(cpos, rotate)[b] == Point(ct[b].x + 4.0, ct[b].y + 4.0, ct[b].z + 1.0)
  {
  }

  /** The two base templates together carry `g + c` atoms. */
  lemma PairAtoms(g: Topology, c: Topology)
    ensures Sheet.TemplateAtoms([g, c]) == g.nAtoms + c.nAtoms
  {
    assert [g, c][..1] == [g];
    assert [g][..0] == [];
    assert Sheet.TemplateAtoms([g]) == g.nAtoms;
  }

  /** With only the base sheet's range recorded, every base-sheet atom is
      restrained exactly once and no other atom is restrained. */
  lemma BaseSheetRestrained(base: AtomRange, positions: seq<Point>, i: nat)
    requires base.start <= base.stop <= |positions|
    ensures Restraints.Occurrences(Restraints.Anchors([base], positions), i) == if base.start <= i < base.stop then 1 else 0
  {
    Restraints.AnchorsOccurrences([base], positions, i);
    assert [base][..0] == [];
  }

  /** The base sheet `simulate` lays: guanine and cytosine, `sh` high, and
      `sw // 2 + 1` wide at step 3.3 Å. */
  function BaseSheet(sh: nat, sw: nat, gua: Template, cyt: Template, rotate: Rotation): seq<Instance>
  {
    Sheet.Sheet([gua.top, cyt.top], [GuanineConformer(gua.positions, rotate), CytosineConformer(cyt.positions, rotate)],
                3.3 * 2.0, sh, sw / 2 + 1)
  }

  /** An append keeps what was there, atoms included. */
  lemma AppendKeeps(a: seq<Instance>, b: seq<Instance>)
    ensures a <= a + b && AtomCount(a) <= AtomCount(a + b)
  {
    AtomCountAppend(a, b);
  }

  /** The molecules `make_sheet_random(sh, sw, [D, L], [ad, al], model,
      lconc, step=8)` appends: one per visited site of the shuffled
      selection, D-ribose for a 0 and L-ribose for a 1. Every site is
      visited when `0 <= lconc <= sh * sw`; otherwise the first `sh * sw`
      are, and the next draw raises. */
  function SugarLayer(sh: nat, sw: nat, lconc: int, dRib: Template, lRib: Template, rotate: Rotation,
                      swaps: seq<SheetRandom.Swap>, draws: seq<SheetRandom.SiteDraw>): (r: seq<Instance>)
    requires SheetRandom.FisherYates(swaps, |SheetRandom.Selection(lconc, sh * sw)|)
    requires |draws| == sh * sw
    ensures |r| <= sh * sw
    ensures forall n :: 0 <= n < |r| ==> r[n].top in [dRib.top, lRib.top]
  {
    var sites := sh * sw;
    var idx := SugarIndices(lconc, sites, swaps);
    var visited := if |idx| <= sites then |idx| else sites;
    var tops := [dRib.top, lRib.top];
    var poss := [SugarConformer(dRib.positions), SugarConformer(lRib.positions)];
    SugarWidth(sh, sw, visited);
    SugarTops(idx, visited, tops, poss, draws, sw, rotate);
    SheetRandom.RandomLayout(idx, visited, tops, poss, draws, sw, 8.0, rotate)
  }

  /** `idx` after the shuffle; every entry names one of the two sugars. */
  function SugarIndices(lconc: int, sites: int, swaps: seq<SheetRandom.Swap>): (idx: seq<int>)
    requires SheetRandom.FisherYates(swaps, |SheetRandom.Selection(lconc, sites)|)
    ensures SheetRandom.IndicesFit(idx, 2)
  {
    SheetRandom.FisherYatesFits(swaps, |SheetRandom.Selection(lconc, sites)|);
    SheetRandom.ShuffledIndicesFit(lconc, sites, swaps, 2);
    SheetRandom.ApplySwaps(SheetRandom.Selection(lconc, sites), swaps)
  }

  /** Sites are visited only on a sheet at least one molecule wide. */
  lemma SugarWidth(sh: nat, sw: nat, visited: nat)
    requires visited <= sh * sw
    ensures visited == 0 || sw > 0
  {
    if visited > 0 {
      Arith.PositiveFactor(sh, sw);
    }
  }

  /** Every molecule of a layout over the two sugar templates is one of them. */
  lemma {:induction false} SugarTops(idx: seq<int>, n: nat, tops: seq<Topology>, poss: seq<seq<Point>>,
                                     draws: seq<SheetRandom.SiteDraw>, width: nat, rotate: Rotation)
    requires n <= |idx| && n <= |draws| && (n == 0 || width > 0)
    requires SheetRandom.IndicesFit(idx, |tops|) && |tops| == 2 <= |poss|
    ensures forall m :: 0 <= m < n ==> SheetRandom.RandomLayout(idx, n, tops, poss, draws, width, 8.0, rotate)[m].top in tops
  {
    if n > 0 {
      SugarTops(idx, n - 1, tops, poss, draws, width, rotate);
      var prev := SheetRandom.RandomLayout(idx, n - 1, tops, poss, draws, width, 8.0, rotate);
      var r := SheetRandom.RandomLayout(idx, n, tops, poss, draws, width, 8.0, rotate);
      assert r == prev + [r[n - 1]];
      forall m | 0 <= m < n
        ensures r[m].top in tops
      {
        if m < n - 1 {
          assert r[m] == prev[m];
        }
      }
    }
  }

  /** A completed sugar layer holds `lconc` L-ribose and `sh * sw - lconc`
      D-ribose molecules. */
  lemma SugarConcentration(sh: nat, sw: nat, lconc: int, dRib: Template, lRib: Template, rotate: Rotation,
                           swaps: seq<SheetRandom.Swap>, draws: seq<SheetRandom.SiteDraw>)
    requires 0 <= lconc <= sh * sw && dRib.top != lRib.top
    requires SheetRandom.FisherYates(swaps, |SheetRandom.Selection(lconc, sh * sw)|)
    requires |draws| == sh * sw
    ensures |SugarLayer(sh, sw, lconc, dRib, lRib, rotate, swaps, draws)| == sh * sw
    ensures SheetRandom.CountTop(SugarLayer(sh, sw, lconc, dRib, lRib, rotate, swaps, draws), lRib.top) == lconc
    ensures SheetRandom.CountTop(SugarLayer(sh, sw, lconc, dRib, lRib, rotate, swaps, draws), dRib.top) == sh * sw - lconc
  {
    SheetRandom.FisherYatesFits(swaps, |SheetRandom.Selection(lconc, sh * sw)|);
    SheetRandom.LConcentration(sh, sw, [dRib.top, lRib.top], [SugarConformer(dRib.positions), SugarConformer(lRib.positions)],
                               lconc, 8.0, swaps, draws, rotate);
  }

  /** The sugar layer: `make_sheet_random(sh, sw, [D, L], ..., lconc, step=8)`
      on top of what the modeller already holds. */
  method AddSugars(model: Modeller, sh: nat, sw: nat, lconc: int, dRib: Template, lRib: Template,
                   rotate: Rotation, swaps: seq<SheetRandom.Swap>, draws: seq<SheetRandom.SiteDraw>)
    returns (outcome: SheetRandom.Placement)
    requires model.Valid() && TemplateFits(dRib) && TemplateFits(lRib)
    requires SheetRandom.FisherYates(swaps, |SheetRandom.Selection(lconc, sh * sw)|)
    requires |draws| == sh * sw
    modifies model
    ensures model.Valid()
    ensures old(model.instances) <= model.instances
    ensures model.instances == old(model.instances) + SugarLayer(sh, sw, lconc, dRib, lRib, rotate, swaps, draws)
    ensures old(model.NumAtoms()) <= model.NumAtoms()
    ensures outcome.Placed? <==> 0 <= lconc <= sh * sw
  {
    var ad := SugarConformer(dRib.positions);
    var al := SugarConformer(lRib.positions);
    ghost var before := model.instances;
    outcome := SheetRandom.MakeSheetRandom(sh, sw, [dRib.top, lRib.top], [ad, al], model, lconc, 8.0,
                                           swaps, draws, rotate);
    AppendKeeps(before, model.instances[|before|..]);
    assert model.instances == before + model.instances[|before|..];
  }

  /** The modeller part of `simulate`: a fresh, emptied modeller, the base
      sheet (whose range is the one recorded), then the sugar layer. */
  method BuildSheets(sh: nat, sw: nat, lconc: int, dRib: Template, lRib: Template, gua: Template, cyt: Template,
                     rotate: Rotation, swaps: seq<SheetRandom.Swap>, draws: seq<SheetRandom.SiteDraw>)
    returns (model: Modeller, base: AtomRange, outcome: SheetRandom.Placement)
    requires TemplateFits(dRib) && TemplateFits(lRib) && TemplateFits(gua) && TemplateFits(cyt)
    requires SheetRandom.FisherYates(swaps, |SheetRandom.Selection(lconc, sh * sw)|)
    requires |draws| == sh * sw
    ensures fresh(model) && model.Valid()
    ensures base == AtomRange(0, (sw / 2 + 1) * (sh + 1) * (gua.top.nAtoms + cyt.top.nAtoms))
    ensures base.stop == AtomCount(BaseSheet(sh, sw, gua, cyt, rotate)) <= model.NumAtoms()
    ensures model.instances == BaseSheet(sh, sw, gua, cyt, rotate) + SugarLayer(sh, sw, lconc, dRib, lRib, rotate, swaps, draws)
    ensures outcome.Placed? <==> 0 <= lconc <= sh * sw
  {
    var c := CytosineConformer(cyt.positions, rotate);
    var g := GuanineConformer(gua.positions, rotate);

    model := new Modeller();
    PairAtoms(gua.top, cyt.top);
    base := Sheet.MakeSheet(sh, sw / 2 + 1, [gua.top, cyt.top], [g, c], model, 3.3);
    assert model.instances == BaseSheet(sh, sw, gua, cyt, rotate);
    outcome := AddSugars(model, sh, sw, lconc, dRib, lRib, rotate, swaps, draws);
  }

  /** The restraint loop over `sheet_indices == [base]`. */
  method RestrainBase(model: Modeller, base: AtomRange) returns (restraint: Restraints.PositionRestraint)
    requires model.Valid() && base.start <= base.stop <= model.NumAtoms()
    ensures fresh(restraint)
    ensures restraint.k == Restraints.ForceConstant
    ensures restraint.particles == Restraints.Anchors([base], model.Positions())
    ensures forall i: nat :: Restraints.Occurrences(restraint.particles, i) == if base.start <= i < base.stop then 1 else 0
  {
    restraint := new Restraints.PositionRestraint();
    Restraints.AddRestraints(restraint, [base], model.Positions());
    assert restraint.particles == Restraints.Anchors([base], model.Positions());
    forall i: nat ensures Restraints.Occurrences(restraint.particles, i) == if base.start <= i < base.stop then 1 else 0 {
      BaseSheetRestrained(base, model.Positions(), i);
    }
  }

  /** `simulate` up to the restraint loop. The force field, solvent,
      integrator and reporters are not modelled; `rotate`, the shuffle's
      exchanges and the per-site draws are parameters. The sugar layer
      raises an `IndexError` (and no restraint is made) exactly when
      `lconc` lies outside `[0, sh * sw]`; otherwise every atom of the base
      sheet, and no sugar atom, is restrained once at its own position. */
  method Simulate(sh: nat, sw: nat, lconc: int, dRib: Template, lRib: Template, gua: Template, cyt: Template,
                  rotate: Rotation, swaps: seq<SheetRandom.Swap>, draws: seq<SheetRandom.SiteDraw>)
    returns (model: Modeller, base: AtomRange, restraint: Restraints.PositionRestraint?)
    requires TemplateFits(dRib) && TemplateFits(lRib) && TemplateFits(gua) && TemplateFits(cyt)
    requires SheetRandom.FisherYates(swaps, |SheetRandom.Selection(lconc, sh * sw)|)
    requires |draws| == sh * sw
    ensures fresh(model) && model.Valid()
    ensures base == AtomRange(0, (sw / 2 + 1) * (sh + 1) * (gua.top.nAtoms + cyt.top.nAtoms))
    ensures base.stop == AtomCount(BaseSheet(sh, sw, gua, cyt, rotate)) <= model.NumAtoms()
    ensures model.instances == BaseSheet(sh, sw, gua, cyt, rotate) + SugarLayer(sh, sw, lconc, dRib, lRib, rotate, swaps, draws)
    ensures restraint == null <==> !(0 <= lconc <= sh * sw)
    ensures restraint != null ==>
      && fresh(restraint)
      && restraint.k == Restraints.ForceConstant
      && restraint.particles == Restraints.Anchors([base], model.Positions())
      && forall i: nat :: Restraints.Occurrences(restraint.particles, i) == if i < base.stop then 1 else 0
  {
    var outcome;
    model, base, outcome := BuildSheets(sh, sw, lconc, dRib, lRib, gua, cyt, rotate, swaps, draws);
    if outcome.SiteIndexError? {
      restraint := null;
      return;
    }
    restraint := RestrainBase(model, base);
  }
}
