/** `make_sheet_random`: the ribose sheet with a fixed number of L
    molecules in a random order and random orientations (ribose_sheet.py). */
module SheetRandom {
  import opened Geometry
  import opened Modelling
  import Sheet
  import Arith

  // ----- which template goes where -----

  /** `[v] * n`: a negative repeat count gives the empty list, as in Python. */
  function Repeat(v: int, n: int): (r: seq<int>)
    ensures |r| == if n <= 0 then 0 else n
    ensures forall t :: 0 <= t < |r| ==> r[t] == v
  {
    if n <= 0 then [] else Repeat(v, n - 1) + [v]
  }

  /** `[*([1] * lconc), *([0] * (sites - lconc))]`: template 1 (L) `lconc`
      times, then template 0 (D) for the remaining sites. */
  function Selection(lconc: int, sites: int): seq<int>
  {
    Repeat(1, lconc) + Repeat(0, sites - lconc)
  }

  function Max0(n: int): nat
  {
    if n <= 0 then 0 else n
  }

  lemma {:induction false} RepeatMultiset(v: int, n: int, w: int)
    ensures multiset(Repeat(v, n))[w] == if w == v then Max0(n) else 0
    decreases if n <= 0 then 0 else n
  {
    if n > 0 {
      RepeatMultiset(v, n - 1, w);
      assert multiset(Repeat(v, n)) == multiset(Repeat(v, n - 1)) + multiset{v};
    }
  }

  /** The selection holds `lconc` ones and `sites - lconc` zeros (none of
      either when the count is negative), and nothing else. */
  lemma SelectionCounts(lconc: int, sites: int)
    ensures multiset(Selection(lconc, sites))[1] == Max0(lconc)
    ensures multiset(Selection(lconc, sites))[0] == Max0(sites - lconc)
    ensures forall w :: w != 0 && w != 1 ==> multiset(Selection(lconc, sites))[w] == 0
  {
    forall w | true
      ensures multiset(Selection(lconc, sites))[w]
           == (if w == 1 then Max0(lconc) else 0) + (if w == 0 then Max0(sites - lconc) else 0)
    {
      RepeatMultiset(1, lconc, w);
      RepeatMultiset(0, sites - lconc, w);
    }
  }

  /** There is exactly one entry per site if and only if `0 <= lconc <= sites`;
      otherwise there are more entries than sites. */
  lemma SelectionLength(lconc: int, sites: nat)
    ensures |Selection(lconc, sites)| >= sites
    ensures |Selection(lconc, sites)| == sites <==> 0 <= lconc <= sites
  {
  }

  // ----- np.random.shuffle -----

  /** One exchange of two list entries. */
  datatype Swap = Swap(i: nat, j: nat)

  predicate SwapsFit(swaps: seq<Swap>, n: nat)
  {
    forall t :: 0 <= t < |swaps| ==> swaps[t].i < n && swaps[t].j < n
  }

  /** The swaps a Fisher-Yates shuffle of `n` entries performs: for `i`
      from `n - 1` down to 1, entry `i` is exchanged with a drawn `j <= i`. */
  predicate FisherYates(swaps: seq<Swap>, n: nat)
  {
    && |swaps| == (if n == 0 then 0 else n - 1)
    && forall t :: 0 <= t < |swaps| ==> swaps[t].i == n - 1 - t && swaps[t].j <= swaps[t].i
  }

  lemma FisherYatesFits(swaps: seq<Swap>, n: nat)
    requires FisherYates(swaps, n)
    ensures SwapsFit(swaps, n)
  {
  }

  function SwapAt(s: seq<int>, w: Swap): (r: seq<int>)
    requires w.i < |s| && w.j < |s|
    ensures |r| == |s|
  {
    s[w.i := s[w.j]][w.j := s[w.i]]
  }

  /** The list after the swaps, in order. */
  function ApplySwaps(s: seq<int>, swaps: seq<Swap>): (r: seq<int>)
    requires SwapsFit(swaps, |s|)
    ensures |r| == |s|
  {
    if swaps == [] then s
    else SwapAt(ApplySwaps(s, swaps[..|swaps| - 1]), swaps[|swaps| - 1])
  }

  lemma SwapPermutes(s: seq<int>, w: Swap)
    requires w.i < |s| && w.j < |s|
    ensures multiset(SwapAt(s, w)) == multiset(s)
  {
    if w.i != w.j {
      var a := s[w.i := s[w.j]];
      assert multiset(a) == multiset(s) - multiset{s[w.i]} + multiset{s[w.j]};
      assert multiset(a[w.j := s[w.i]]) == multiset(a) - multiset{a[w.j]} + multiset{s[w.i]};
    }
  }

  /** Shuffling only reorders: every value keeps its number of occurrences. */
  lemma {:induction false} ApplySwapsPermutes(s: seq<int>, swaps: seq<Swap>)
    requires SwapsFit(swaps, |s|)
    ensures multiset(ApplySwaps(s, swaps)) == multiset(s)
    decreases |swaps|
  {
    if swaps != [] {
      ApplySwapsPermutes(s, swaps[..|swaps| - 1]);
      SwapPermutes(ApplySwaps(s, swaps[..|swaps| - 1]), swaps[|swaps| - 1]);
    }
  }

  /** `np.random.shuffle(idx)`, with the random exchanges given. */
  method Shuffle(a: array<int>, swaps: seq<Swap>)
    requires SwapsFit(swaps, a.Length)
    modifies a
    ensures a[..] == ApplySwaps(old(a[..]), swaps)
  {
    for t := 0 to |swaps|
      invariant a[..] == ApplySwaps(old(a[..]), swaps[..t])
    {
      assert swaps[..t + 1][..t] == swaps[..t];
      var w := swaps[t];
      var tmp := a[w.i];
      a[w.i] := a[w.j];
      a[w.j] := tmp;
    }
    assert swaps[..|swaps|] == swaps;
  }

  /** Every template number a shuffled selection holds names a template. */
  predicate IndicesFit(idx: seq<int>, n: nat)
  {
    forall t :: 0 <= t < |idx| ==> 0 <= idx[t] < n
  }

  /** The templates a selection reaches exist: template 1 when some L is
      asked for, template 0 when some site is left for D. */
  predicate TemplatesCover(n: nat, lconc: int, sites: int)
  {
    && (lconc > 0 ==> 1 < n)
    && (sites - lconc > 0 ==> 0 < n)
  }

  lemma ShuffledIndicesFit(lconc: int, sites: int, swaps: seq<Swap>, n: nat)
    requires TemplatesCover(n, lconc, sites)
    requires SwapsFit(swaps, |Selection(lconc, sites)|)
    ensures IndicesFit(ApplySwaps(Selection(lconc, sites), swaps), n)
  {
    var idx := ApplySwaps(Selection(lconc, sites), swaps);
    ApplySwapsPermutes(Selection(lconc, sites), swaps);
    SelectionCounts(lconc, sites);
    forall t | 0 <= t < |idx| ensures 0 <= idx[t] < n {
      assert idx[t] in multiset(idx);
    }
  }

  // ----- where each site goes -----

  /** The random draws for one site: the two in-plane jitters, the height
      offset, the rotation axis and the rotation angle in whole degrees. */
  datatype SiteDraw = SiteDraw(jitterX: real, jitterY: real, zOffset: real, axis: string, angleDeg: int)

  /** The ranges `make_sheet_random` draws from: `uniform(-1, 1)`,
      `uniform(-4.5, 2)`, `choice(['x', 'y', 'z'])`, `randint(0, 360)`. */
  predicate DrawInRange(d: SiteDraw)
  {
    && -1.0 <= d.jitterX < 1.0
    && -1.0 <= d.jitterY < 1.0
    && -4.5 <= d.zOffset < 2.0
    && (d.axis == AxisX || d.axis == AxisY || d.axis == AxisZ)
    && 0 <= d.angleDeg < 360
  }

  /** The grid cell of site `k`: `np.tile(arange(width), height)[k]` and
      `np.repeat(arange(height), width)[k]`. */
  function GridColumn(k: nat, width: nat): nat
    requires width > 0
  {
    k % width
  }

  function GridRow(k: nat, width: nat): nat
    requires width > 0
  {
    k / width
  }

  /** The `height * width` sites fill the grid: each lands in a cell of
      it, and no two land in the same cell. */
  lemma SiteGrid(height: nat, width: nat, k1: nat, k2: nat)
    requires width > 0 && k1 < height * width && k2 < height * width
    ensures GridColumn(k1, width) < width && GridRow(k1, width) < height
    ensures (GridColumn(k1, width), GridRow(k1, width)) == (GridColumn(k2, width), GridRow(k2, width)) ==> k1 == k2
  {
    assert k1 == GridRow(k1, width) * width + GridColumn(k1, width);
    assert k2 == GridRow(k2, width) * width + GridColumn(k2, width);
  }

  /** The conformer of site `k`: rotated, then moved by the tiled offset
      along **y** and the repeated offset along **x** (`make_sheet_random` passes
      `xpos` to the y translation and `ypos` to the x one), then lifted by
      the height offset. */
  function SitePosition(mol: seq<Point>, d: SiteDraw, k: nat, width: nat, step: real, rotate: Rotation): (r: seq<Point>)
    requires width > 0
    ensures |r| == |mol|
    ensures var rotated := rotate(mol, d.angleDeg, d.axis);
      forall a :: 0 <= a < |r| ==>
        r[a] == Point(rotated[a].x + ((GridRow(k, width) as real) * step - d.jitterY),
                      rotated[a].y + ((GridColumn(k, width) as real) * step - d.jitterX),
                      rotated[a].z + d.zOffset)
  {
    var xpos := (GridColumn(k, width) as real) * step - d.jitterX;
    var ypos := (GridRow(k, width) as real) * step - d.jitterY;
    var pos := rotate(mol, d.angleDeg, d.axis);
    var pos1 := Translate(pos, xpos, AxisY);
    var pos2 := Translate(pos1, ypos, AxisX);
    Translate(pos2, d.zOffset, AxisZ)
  }

  /** With in-range draws, a site's molecule sits within one ångström of
      its grid point in both in-plane directions. */
  lemma SiteNearGrid(mol: seq<Point>, d: SiteDraw, k: nat, width: nat, step: real, rotate: Rotation, a: nat)
    requires width > 0 && DrawInRange(d) && a < |mol|
    ensures var r := SitePosition(mol, d, k, width, step, rotate);
      var rotated := rotate(mol, d.angleDeg, d.axis);
      var gx := (GridRow(k, width) as real) * step;
      var gy := (GridColumn(k, width) as real) * step;
      && gx - 1.0 < r[a].x - rotated[a].x <= gx + 1.0
      && gy - 1.0 < r[a].y - rotated[a].y <= gy + 1.0
      && -4.5 <= r[a].z - rotated[a].z < 2.0
  {
  }

  /** The molecules the first `n` sites contribute, in site order. */
  function RandomLayout(idx: seq<int>, n: nat, tops: seq<Topology>, poss: seq<seq<Point>>,
                        draws: seq<SiteDraw>, width: nat, step: real, rotate: Rotation): (r: seq<Instance>)
    requires n <= |idx| && n <= |draws| && (n == 0 || width > 0)
    requires IndicesFit(idx, |tops|) && |tops| <= |poss|
    ensures |r| == n
  {
    if n == 0 then []
    else RandomLayout(idx, n - 1, tops, poss, draws, width, step, rotate)
         + [Instance(tops[idx[n - 1]], SitePosition(poss[idx[n - 1]], draws[n - 1], n - 1, width, step, rotate))]
  }

  lemma RandomLayoutStep(idx: seq<int>, k: nat, tops: seq<Topology>, poss: seq<seq<Point>>,
                         draws: seq<SiteDraw>, width: nat, step: real, rotate: Rotation)
    requires k < |idx| && k < |draws| && width > 0
    requires IndicesFit(idx, |tops|) && |tops| <= |poss|
    ensures RandomLayout(idx, k + 1, tops, poss, draws, width, step, rotate)
         == RandomLayout(idx, k, tops, poss, draws, width, step, rotate)
            + [Instance(tops[idx[k]], SitePosition(poss[idx[k]], draws[k], k, width, step, rotate))]
  {
  }

  lemma {:induction false} RandomLayoutConsistent(idx: seq<int>, n: nat, tops: seq<Topology>, poss: seq<seq<Point>>,
                                                  draws: seq<SiteDraw>, width: nat, step: real, rotate: Rotation)
    requires n <= |idx| && n <= |draws| && (n == 0 || width > 0)
    requires IndicesFit(idx, |tops|) && Sheet.TemplatesFit(tops, poss)
    ensures Consistent(RandomLayout(idx, n, tops, poss, draws, width, step, rotate))
  {
    if n > 0 {
      var t := idx[n - 1];
      RandomLayoutConsistent(idx, n - 1, tops, poss, draws, width, step, rotate);
      ConsistentAppend(RandomLayout(idx, n - 1, tops, poss, draws, width, step, rotate),
                       [Instance(tops[t], SitePosition(poss[t], draws[n - 1], n - 1, width, step, rotate))]);
    }
  }

  /** How many molecules use topology `top`. */
  function CountTop(xs: seq<Instance>, top: Topology): nat
  {
    if xs == [] then 0 else CountTop(xs[..|xs| - 1], top) + (if xs[|xs| - 1].top == top then 1 else 0)
  }

  /** Different template numbers name different topologies. */
  predicate TopsDistinct(tops: seq<Topology>)
  {
    forall a, b :: 0 <= a < b < |tops| ==> tops[a] != tops[b]
  }

  /** Template `v` is used once for every `v` among the first `n` entries. */
  lemma {:induction false} RandomLayoutCount(idx: seq<int>, n: nat, tops: seq<Topology>, poss: seq<seq<Point>>,
                                             draws: seq<SiteDraw>, width: nat, step: real, rotate: Rotation, v: nat)
    requires n <= |idx| && n <= |draws| && (n == 0 || width > 0)
    requires IndicesFit(idx, |tops|) && |tops| <= |poss| && TopsDistinct(tops) && v < |tops|
    ensures CountTop(RandomLayout(idx, n, tops, poss, draws, width, step, rotate), tops[v]) == multiset(idx[..n])[v]
  {
    if n > 0 {
      var prev := RandomLayout(idx, n - 1, tops, poss, draws, width, step, rotate);
      var r := RandomLayout(idx, n, tops, poss, draws, width, step, rotate);
      RandomLayoutCount(idx, n - 1, tops, poss, draws, width, step, rotate, v);
      assert r[..n - 1] == prev;
      assert idx[..n] == idx[..n - 1] + [idx[n - 1]];
      assert r[n - 1].top == tops[v] <==> idx[n - 1] == v;
    }
  }

  // ----- the builder -----

  /** What `make_sheet_random` does: returns the atom range it added, or
      stops with an `IndexError` at site `site` of the per-site draws. */
  datatype Placement = Placed(range: AtomRange) | SiteIndexError(site: nat)

  /** The template numbers of the sites, built and shuffled as an array. */
  method ShuffledSelection(lconc: int, sites: int, swaps: seq<Swap>) returns (idx: array<int>)
    requires FisherYates(swaps, |Selection(lconc, sites)|)
    ensures fresh(idx)
    ensures idx[..] == ApplySwaps(Selection(lconc, sites), swaps)
  {
    var ls := Repeat(1, lconc);
    var ds := Repeat(0, sites - lconc);
    var sel := ls + ds;
    idx := new int[|sel|](t requires 0 <= t < |sel| => sel[t]);
    assert idx[..] == sel;
    FisherYatesFits(swaps, |sel|);
    Shuffle(idx, swaps);
  }

  /** One pass of `make_sheet_random`'s loop: site `k`, with template
      number `t = idx[k]`. */
  method AddSite(model: Modeller, ghost idx: seq<int>, k: nat, t: int, tops: seq<Topology>, poss: seq<seq<Point>>,
                 draws: seq<SiteDraw>, width: nat, step: real, rotate: Rotation, ghost before: seq<Instance>)
    requires model.Valid()
    requires k < |idx| && k < |draws| && width > 0 && t == idx[k]
    requires IndicesFit(idx, |tops|) && Sheet.TemplatesFit(tops, poss)
    requires model.instances == before + RandomLayout(idx, k, tops, poss, draws, width, step, rotate)
    modifies model
    ensures model.Valid()
    ensures model.instances == before + RandomLayout(idx, k + 1, tops, poss, draws, width, step, rotate)
  {
    var pos := SitePosition(poss[t], draws[k], k, width, step, rotate);
    RandomLayoutStep(idx, k, tops, poss, draws, width, step, rotate);
    model.Add(tops[t], pos);
  }

  /** `make_sheet_random(height, width, tops, poss, model, lconc, step)`,
      given the shuffle's exchanges, the per-site draws and the rotation. */
  method MakeSheetRandom(height: nat, width: nat, tops: seq<Topology>, poss: seq<seq<Point>>, model: Modeller,
                         lconc: int, step: real, swaps: seq<Swap>, draws: seq<SiteDraw>, rotate: Rotation)
    returns (outcome: Placement)
    requires model.Valid()
    requires Sheet.TemplatesFit(tops, poss) && TemplatesCover(|tops|, lconc, height * width)
    requires FisherYates(swaps, |Selection(lconc, height * width)|)
    requires |draws| == height * width
    modifies model
    ensures model.Valid()
    ensures var idx := ApplySwaps(Selection(lconc, height * width), swaps);
      && IndicesFit(idx, |tops|)
      && model.instances == old(model.instances)
           + RandomLayout(idx, if |idx| <= height * width then |idx| else height * width, tops, poss, draws, width, step, rotate)
    ensures outcome == if 0 <= lconc <= height * width
      then Placed(AtomRange(old(model.NumAtoms()), model.NumAtoms()))
      else SiteIndexError(height * width)
  {
    var sheetStartingIndex := model.NumAtoms();
    var sites := height * width;
    var idx := ShuffledSelection(lconc, sites, swaps);
    ghost var shuffled := idx[..];
    ShuffledIndicesFit(lconc, sites, swaps, |tops|);
    SelectionLength(lconc, sites);

    for k := 0 to idx.Length
      invariant model.Valid()
      invariant idx[..] == shuffled
      invariant k <= sites
      invariant model.instances == old(model.instances) + RandomLayout(shuffled, k, tops, poss, draws, width, step, rotate)
    {
      if k == sites {
        outcome := SiteIndexError(k);
        return;
      }
      Arith.PositiveFactor(height, width);
      AddSite(model, shuffled, k, idx[k], tops, poss, draws, width, step, rotate, old(model.instances));
    }
    outcome := Placed(AtomRange(sheetStartingIndex, model.NumAtoms()));
  }

  /** In a completed run the sheet holds `lconc` molecules of template 1
      (L) and `height * width - lconc` of template 0 (D). */
  lemma LConcentration(height: nat, width: nat, tops: seq<Topology>, poss: seq<seq<Point>>, lconc: int,
                       step: real, swaps: seq<Swap>, draws: seq<SiteDraw>, rotate: Rotation)
    requires 0 <= lconc <= height * width && |draws| == height * width
    requires 2 <= |tops| <= |poss| && TopsDistinct(tops)
    requires SwapsFit(swaps, |Selection(lconc, height * width)|)
    ensures var idx := ApplySwaps(Selection(lconc, height * width), swaps);
      && IndicesFit(idx, |tops|)
      && |idx| == height * width
      && CountTop(RandomLayout(idx, |idx|, tops, poss, draws, width, step, rotate), tops[1]) == lconc
      && CountTop(RandomLayout(idx, |idx|, tops, poss, draws, width, step, rotate), tops[0]) == height * width - lconc
  {
    var sel := Selection(lconc, height * width);
    var idx := ApplySwaps(sel, swaps);
    SelectionLength(lconc, height * width);
    ShuffledIndicesFit(lconc, height * width, swaps, |tops|);
    ApplySwapsPermutes(sel, swaps);
    SelectionCounts(lconc, height * width);
    assert idx[..|idx|] == idx;
    if |idx| > 0 {
      Arith.PositiveFactor(height, width);
    }
    RandomLayoutCount(idx, |idx|, tops, poss, draws, width, step, rotate, 1);
    RandomLayoutCount(idx, |idx|, tops, poss, draws, width, step, rotate, 0);
  }
}
