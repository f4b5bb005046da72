/** `compute_hbonds` (ribose_analysis.py): every hydrogen bond of every
    frame is put in at most one residue-pair category, counted per frame,
    and recorded in a two-level tally keyed by residue names and by atom
    roles. The bond detector is replaced by its output: per frame, the
    (donor, hydrogen, acceptor) atom triples it reports. */
module HBonds {
  import opened Text
  import opened Sums
  import Arith

  const DRibose := "DRI"
  const LRibose := "LRI"
  const Guanine := "G"
  const Cytosine := "C"

  /** The residue an atom belongs to, as far as the analysis reads it. */
  datatype Residue = Residue(name: string, nAtoms: nat)

  /** `frame.topology.atom(i).residue` for every atom index; a residue
      always has atoms. */
  type Residues = f: nat -> Residue | forall i :: f(i).nAtoms > 0
    witness (i: nat) => Residue(DRibose, 1)

  /** One triple reported by the bond detector. */
  datatype Bond = Bond(donor: nat, hydrogen: nat, acceptor: nat)

  /** The seven counted residue pairs, and the pairs no counter takes. */
  datatype Category = DG | DC | LG | LC | DD | DL | LL | Uncounted

  /** The `if`/`elif` chain on the donor's and acceptor's residue names. */
  function Classify(n1: string, n2: string): Category
  {
    if (n1 == Guanine && n2 == DRibose) || (n1 == DRibose && n2 == Guanine) then DG
    else if (n1 == Cytosine && n2 == DRibose) || (n1 == DRibose && n2 == Cytosine) then DC
    else if (n1 == Guanine && n2 == LRibose) || (n1 == LRibose && n2 == Guanine) then LG
    else if (n1 == Cytosine && n2 == LRibose) || (n1 == LRibose && n2 == Cytosine) then LC
    else if n1 == DRibose && n2 == DRibose then DD
    else if (n1 == DRibose && n2 == LRibose) || (n1 == LRibose && n2 == DRibose) then DL
    else if n1 == LRibose && n2 == LRibose then LL
    else Uncounted
  }

  /** The unordered pair of residue names each counted category stands for. */
  function Members(c: Category): multiset<string>
    requires c != Uncounted
  {
    match c
    case DG => multiset{Guanine, DRibose}
    case DC => multiset{Cytosine, DRibose}
    case LG => multiset{Guanine, LRibose}
    case LC => multiset{Cytosine, LRibose}
    case DD => multiset{DRibose, DRibose}
    case DL => multiset{DRibose, LRibose}
    case LL => multiset{LRibose, LRibose}
  }

  /** Two two-element multisets are equal exactly when their elements
      agree in one order or the other. */
  lemma PairMultiset(a: string, b: string, x: string, y: string)
    ensures multiset{a, b} == multiset{x, y} <==> (a == x && b == y) || (a == y && b == x)
  {
    if multiset{a, b} == multiset{x, y} {
      assert a in multiset{x, y};
      if a == x {
        assert multiset{a, b} - multiset{a} == multiset{b};
        assert multiset{x, y} - multiset{x} == multiset{y};
      } else {
        assert multiset{a, b} - multiset{a} == multiset{b};
        assert multiset{x, y} - multiset{y} == multiset{x};
      }
    }
  }

  lemma NamesDistinct()
    ensures DRibose != LRibose && DRibose != Guanine && DRibose != Cytosine
    ensures LRibose != Guanine && LRibose != Cytosine && Guanine != Cytosine
  {
    assert DRibose[0] != LRibose[0];
    assert Guanine[0] != Cytosine[0];
  }

  lemma MeaningDG(n1: string, n2: string)
    ensures Classify(n1, n2) == DG <==> multiset{n1, n2} == Members(DG)
  {
    NamesDistinct();
    PairMultiset(n1, n2, Guanine, DRibose);
  }

  lemma MeaningDC(n1: string, n2: string)
    ensures Classify(n1, n2) == DC <==> multiset{n1, n2} == Members(DC)
  {
    NamesDistinct();
    PairMultiset(n1, n2, Cytosine, DRibose);
  }

  lemma MeaningLG(n1: string, n2: string)
    ensures Classify(n1, n2) == LG <==> multiset{n1, n2} == Members(LG)
  {
    NamesDistinct();
    PairMultiset(n1, n2, Guanine, LRibose);
  }

  lemma MeaningLC(n1: string, n2: string)
    ensures Classify(n1, n2) == LC <==> multiset{n1, n2} == Members(LC)
  {
    NamesDistinct();
    PairMultiset(n1, n2, Cytosine, LRibose);
  }

  lemma MeaningDD(n1: string, n2: string)
    ensures Classify(n1, n2) == DD <==> multiset{n1, n2} == Members(DD)
  {
    NamesDistinct();
    PairMultiset(n1, n2, DRibose, DRibose);
  }

  lemma MeaningDL(n1: string, n2: string)
    ensures Classify(n1, n2) == DL <==> multiset{n1, n2} == Members(DL)
  {
    NamesDistinct();
    PairMultiset(n1, n2, DRibose, LRibose);
  }

  lemma MeaningLL(n1: string, n2: string)
    ensures Classify(n1, n2) == LL <==> multiset{n1, n2} == Members(LL)
  {
    NamesDistinct();
    PairMultiset(n1, n2, LRibose, LRibose);
  }

  /** The chain puts a bond in category `c` exactly when its two residue
      names, in either order, are the pair `c` stands for. */
  lemma ClassifyMeaning(n1: string, n2: string, c: Category)
    requires c != Uncounted
    ensures Classify(n1, n2) == c <==> multiset{n1, n2} == Members(c)
  {
    match c
    case DG => MeaningDG(n1, n2);
    case DC => MeaningDC(n1, n2);
    case LG => MeaningLG(n1, n2);
    case LC => MeaningLC(n1, n2);
    case DD => MeaningDD(n1, n2);
    case DL => MeaningDL(n1, n2);
    case LL => MeaningLL(n1, n2);
  }

  /** A pair is classified the same with donor and acceptor exchanged. */
  lemma ClassifySymmetric(n1: string, n2: string)
    ensures Classify(n1, n2) == Classify(n2, n1)
  {
    assert multiset{n1, n2} == multiset{n2, n1};
    if Classify(n1, n2) != Uncounted {
      ClassifyMeaning(n1, n2, Classify(n1, n2));
      ClassifyMeaning(n2, n1, Classify(n1, n2));
    } else if Classify(n2, n1) != Uncounted {
      ClassifyMeaning(n2, n1, Classify(n2, n1));
      ClassifyMeaning(n1, n2, Classify(n2, n1));
    }
  }

  /** `atom.index % residue.n_atoms`, the atom's role in its residue. */
  function Role(atom: nat, residues: Residues): (r: nat)
    ensures r < residues(atom).nAtoms
  {
    atom % residues(atom).nAtoms
  }

  /** When a residue's first atom index is a multiple of its size, the role
      of each of its atoms is that atom's place in the residue. */
  lemma RoleInResidue(first: nat, r: nat, residues: Residues)
    requires first % residues(first + r).nAtoms == 0 && r < residues(first + r).nAtoms
    ensures Role(first + r, residues) == r
  {
    Arith.ModAfterMultiple(first, residues(first + r).nAtoms, r);
  }

  /** `f'{res1.name}-{res2.name}'` */
  function ResidueKey(b: Bond, residues: Residues): string
  {
    residues(b.donor).name + [Dash] + residues(b.acceptor).name
  }

  /** `f"{atom1_index}-{atom2_index}"` */
  function RoleKey(b: Bond, residues: Residues): string
  {
    NatToString(Role(b.donor, residues)) + [Dash] + NatToString(Role(b.acceptor, residues))
  }

  /** A role key splits back into the two roles it was made of. */
  lemma RoleKeyParts(b: Bond, residues: Residues)
    ensures Split(RoleKey(b, residues), Dash)
         == [NatToString(Role(b.donor, residues)), NatToString(Role(b.acceptor, residues))]
  {
    SplitPair(NatToString(Role(b.donor, residues)), NatToString(Role(b.acceptor, residues)));
  }

  // ----- the tally -----

  /** `hbond_counts`: residue key, then role key, to a count. */
  type Tally = map<string, map<string, nat>>

  /** The count under `rk` and `ak`, zero where there is none. */
  function Count(t: Tally, rk: string, ak: string): nat
  {
    if rk in t && ak in t[rk] then t[rk][ak] else 0
  }

  /** Every key of `t` is still in `u` and no count of `t` is larger in `u`. */
  predicate Extends(t: Tally, u: Tally)
  {
    forall rk :: rk in t ==> rk in u && forall ak :: ak in t[rk] ==> ak in u[rk] && t[rk][ak] <= u[rk][ak]
  }

  lemma ExtendsTransitive(t: Tally, u: Tally, v: Tally)
    requires Extends(t, u) && Extends(u, v)
    ensures Extends(t, v)
  {
  }

  /** One tally update: the inner dictionary is created if missing, the
      entry set to zero if missing, then raised by one. */
  function Record(t: Tally, rk: string, ak: string): (r: Tally)
    ensures rk in r && ak in r[rk] && Count(r, rk, ak) == Count(t, rk, ak) + 1
    ensures forall k, a :: k != rk || a != ak ==> Count(r, k, a) == Count(t, k, a)
    ensures Extends(t, r)
  {
    var inner := if rk in t then t[rk] else map[];
    t[rk := inner[ak := Count(t, rk, ak) + 1]]
  }

  /** The counts, as the set of (residue key, role key) pairs present. */
  ghost function Entries(t: Tally): set<(string, string)>
  {
    set rk, ak | rk in t && ak in t[rk] :: (rk, ak)
  }

  /** The sum of all counts in the tally. */
  ghost function Total(t: Tally): int
  {
    SetSum(Entries(t), (e: (string, string)) => Count(t, e.0, e.1))
  }

  /** One update raises the total by exactly one. */
  lemma RecordTotal(t: Tally, rk: string, ak: string)
    ensures Total(Record(t, rk, ak)) == Total(t) + 1
  {
    var u := Record(t, rk, ak);
    var e := (rk, ak);
    var f := (x: (string, string)) => Count(t, x.0, x.1);
    var g := (x: (string, string)) => Count(u, x.0, x.1);
    assert Entries(u) == Entries(t) + {e} by {
      forall x | x in Entries(u) ensures x in Entries(t) + {e} {
        if x != e {
          assert Count(u, x.0, x.1) == Count(t, x.0, x.1);
        }
      }
    }
    SetSumExt(Entries(t) - {e}, f, g);
    if e in Entries(t) {
      SetSumRemove(Entries(t), f, e);
      SetSumRemove(Entries(u), g, e);
      assert Entries(u) - {e} == Entries(t) - {e};
    } else {
      SetSumExt(Entries(t), f, g);
      SetSumInsert(Entries(t), g, e);
    }
  }

  /** The tally after the bonds of one frame, recorded in order. */
  function RecordFrame(t: Tally, bonds: seq<Bond>, residues: Residues): Tally
  {
    if bonds == [] then t
    else
      var b := bonds[|bonds| - 1];
      Record(RecordFrame(t, bonds[..|bonds| - 1], residues), ResidueKey(b, residues), RoleKey(b, residues))
  }

  /** The tally after every frame of a chunk. */
  function RecordChunk(t: Tally, chunk: seq<seq<Bond>>, residues: Residues): Tally
  {
    if chunk == [] then t
    else RecordFrame(RecordChunk(t, chunk[..|chunk| - 1], residues), chunk[|chunk| - 1], residues)
  }

  /** How many of `bonds` have residue key `rk` and role key `ak`. */
  function Matching(bonds: seq<Bond>, residues: Residues, rk: string, ak: string): nat
  {
    if bonds == [] then 0
    else
      var b := bonds[|bonds| - 1];
      Matching(bonds[..|bonds| - 1], residues, rk, ak)
        + (if ResidueKey(b, residues) == rk && RoleKey(b, residues) == ak then 1 else 0)
  }

  /** How many bonds a chunk holds. */
  function BondCount(chunk: seq<seq<Bond>>): nat
  {
    if chunk == [] then 0 else BondCount(chunk[..|chunk| - 1]) + |chunk[|chunk| - 1]|
  }

  /** Every entry of the tally rises by the number of bonds with its keys,
      whatever their category. */
  lemma {:induction false} RecordFrameCount(t: Tally, bonds: seq<Bond>, residues: Residues, rk: string, ak: string)
    ensures Count(RecordFrame(t, bonds, residues), rk, ak) == Count(t, rk, ak) + Matching(bonds, residues, rk, ak)
  {
    if bonds != [] {
      RecordFrameCount(t, bonds[..|bonds| - 1], residues, rk, ak);
    }
  }

  /** A frame's bonds raise the total by their number. */
  lemma {:induction false} RecordFrameTotal(t: Tally, bonds: seq<Bond>, residues: Residues)
    ensures Total(RecordFrame(t, bonds, residues)) == Total(t) + |bonds|
  {
    if bonds != [] {
      var b := bonds[|bonds| - 1];
      RecordFrameTotal(t, bonds[..|bonds| - 1], residues);
      RecordTotal(RecordFrame(t, bonds[..|bonds| - 1], residues), ResidueKey(b, residues), RoleKey(b, residues));
    }
  }

  /** A chunk raises the total by the number of bonds in it. */
  lemma {:induction false} RecordChunkTotal(t: Tally, chunk: seq<seq<Bond>>, residues: Residues)
    ensures Total(RecordChunk(t, chunk, residues)) == Total(t) + BondCount(chunk)
  {
    if chunk != [] {
      RecordChunkTotal(t, chunk[..|chunk| - 1], residues);
      RecordFrameTotal(RecordChunk(t, chunk[..|chunk| - 1], residues), chunk[|chunk| - 1], residues);
    }
  }

  /** Recording never removes a key and never lowers a count. */
  lemma {:induction false} RecordChunkExtends(t: Tally, chunk: seq<seq<Bond>>, residues: Residues)
    ensures Extends(t, RecordChunk(t, chunk, residues))
  {
    if chunk != [] {
      var prev := RecordChunk(t, chunk[..|chunk| - 1], residues);
      RecordChunkExtends(t, chunk[..|chunk| - 1], residues);
      RecordFrameExtends(prev, chunk[|chunk| - 1], residues);
      ExtendsTransitive(t, prev, RecordChunk(t, chunk, residues));
    }
  }

  lemma {:induction false} RecordFrameExtends(t: Tally, bonds: seq<Bond>, residues: Residues)
    ensures Extends(t, RecordFrame(t, bonds, residues))
  {
    if bonds != [] {
      var prev := RecordFrame(t, bonds[..|bonds| - 1], residues);
      RecordFrameExtends(t, bonds[..|bonds| - 1], residues);
      ExtendsTransitive(t, prev, RecordFrame(t, bonds, residues));
    }
  }

  /** The dictionary `compute_hbonds` is handed and updates in place. */
  class HBondTally {
    var counts: Tally

    constructor (initial: Tally)
      ensures counts == initial
    {
      counts := initial;
    }

    /** The three dictionary statements run for one bond. */
    method Add(rk: string, ak: string)
      modifies this
      ensures counts == Record(old(counts), rk, ak)
    {
      ghost var inner := if rk in counts then counts[rk] else map[];
      ghost var before := Count(counts, rk, ak);
      if rk !in counts {
        counts := counts[rk := map[]];
      }
      assert counts[rk] == inner;
      if ak !in counts[rk] {
        counts := counts[rk := counts[rk][ak := 0]];
      }
      assert counts[rk][ak] == before;
      assert counts[rk][ak := before + 1] == inner[ak := before + 1];
      counts := counts[rk := counts[rk][ak := counts[rk][ak] + 1]];
    }
  }

  // ----- per-frame counts -----

  /** How many of `bonds` fall in category `c`. */
  function FrameCount(bonds: seq<Bond>, residues: Residues, c: Category): nat
  {
    if bonds == [] then 0
    else
      var b := bonds[|bonds| - 1];
      FrameCount(bonds[..|bonds| - 1], residues, c)
        + (if Classify(residues(b.donor).name, residues(b.acceptor).name) == c then 1 else 0)
  }

  /** Every bond is in exactly one category, so the seven counters of a
      frame add up to at most its number of bonds. */
  lemma {:induction false} CategoriesPartition(bonds: seq<Bond>, residues: Residues)
    ensures FrameCount(bonds, residues, DG) + FrameCount(bonds, residues, DC)
          + FrameCount(bonds, residues, LG) + FrameCount(bonds, residues, LC)
          + FrameCount(bonds, residues, DD) + FrameCount(bonds, residues, DL)
          + FrameCount(bonds, residues, LL) + FrameCount(bonds, residues, Uncounted) == |bonds|
  {
    if bonds != [] {
      CategoriesPartition(bonds[..|bonds| - 1], residues);
    }
  }

  /** The seven counters of one frame. */
  datatype FrameCounts = FrameCounts(dg: nat, dc: nat, lg: nat, lc: nat, dd: nat, dl: nat, ll: nat)

  /** The counters after one more bond of category `c`. */
  function Bump(fc: FrameCounts, c: Category): FrameCounts
  {
    match c
    case DG => fc.(dg := fc.dg + 1)
    case DC => fc.(dc := fc.dc + 1)
    case LG => fc.(lg := fc.lg + 1)
    case LC => fc.(lc := fc.lc + 1)
    case DD => fc.(dd := fc.dd + 1)
    case DL => fc.(dl := fc.dl + 1)
    case LL => fc.(ll := fc.ll + 1)
    case Uncounted => fc
  }

  /** The counters after the bonds, counted one at a time. */
  function CountsOf(bonds: seq<Bond>, residues: Residues): FrameCounts
  {
    if bonds == [] then FrameCounts(0, 0, 0, 0, 0, 0, 0)
    else
      var b := bonds[|bonds| - 1];
      Bump(CountsOf(bonds[..|bonds| - 1], residues), Classify(residues(b.donor).name, residues(b.acceptor).name))
  }

  /** Each counter ends at the number of the frame's bonds in its category. */
  lemma {:induction false} CountsOfFields(bonds: seq<Bond>, residues: Residues)
    ensures CountsOf(bonds, residues)
         == FrameCounts(FrameCount(bonds, residues, DG), FrameCount(bonds, residues, DC),
                        FrameCount(bonds, residues, LG), FrameCount(bonds, residues, LC),
                        FrameCount(bonds, residues, DD), FrameCount(bonds, residues, DL),
                        FrameCount(bonds, residues, LL))
  {
    if bonds != [] {
      CountsOfFields(bonds[..|bonds| - 1], residues);
    }
  }

  /** One more bond raises exactly the counter of its category. */
  lemma CountsOfStep(bonds: seq<Bond>, residues: Residues, n: nat)
    requires n < |bonds|
    ensures CountsOf(bonds[..n + 1], residues)
         == Bump(CountsOf(bonds[..n], residues), Classify(residues(bonds[n].donor).name, residues(bonds[n].acceptor).name))
  {
    assert bonds[..n + 1][..n] == bonds[..n];
  }

  /** One more bond is one more tally update. */
  lemma RecordFrameStep(t: Tally, bonds: seq<Bond>, residues: Residues, n: nat)
    requires n < |bonds|
    ensures RecordFrame(t, bonds[..n + 1], residues)
         == Record(RecordFrame(t, bonds[..n], residues), ResidueKey(bonds[n], residues), RoleKey(bonds[n], residues))
  {
    assert bonds[..n + 1][..n] == bonds[..n];
  }

  /** The body of `for frame in chunk`: counts the frame's bonds by
      category and records each of them in the tally. */
  method CountFrame(bonds: seq<Bond>, residues: Residues, tally: HBondTally) returns (fc: FrameCounts)
    modifies tally
    ensures tally.counts == RecordFrame(old(tally.counts), bonds, residues)
    ensures fc == CountsOf(bonds, residues)
    ensures fc == FrameCounts(FrameCount(bonds, residues, DG), FrameCount(bonds, residues, DC),
                              FrameCount(bonds, residues, LG), FrameCount(bonds, residues, LC),
                              FrameCount(bonds, residues, DD), FrameCount(bonds, residues, DL),
                              FrameCount(bonds, residues, LL))
  {
    fc := FrameCounts(0, 0, 0, 0, 0, 0, 0);
    for n := 0 to |bonds|
      invariant tally.counts == RecordFrame(old(tally.counts), bonds[..n], residues)
      invariant fc == CountsOf(bonds[..n], residues)
    {
      var b := bonds[n];
      var res1, res2 := residues(b.donor), residues(b.acceptor);
      CountsOfStep(bonds, residues, n);
      RecordFrameStep(old(tally.counts), bonds, residues, n);
      fc := Bump(fc, Classify(res1.name, res2.name));
      tally.Add(ResidueKey(b, residues), RoleKey(b, residues));
    }
    assert bonds[..|bonds|] == bonds;
    CountsOfFields(bonds, residues);
  }

  /** The nine lists `compute_hbonds` returns next to the tally. */
  datatype Series = Series(dG: seq<nat>, dC: seq<nat>, dB: seq<nat>,
                           lG: seq<nat>, lC: seq<nat>, lB: seq<nat>,
                           dD: seq<nat>, dL: seq<nat>, lL: seq<nat>)

  /** Every list has one entry per frame. */
  predicate SeriesLength(s: Series, n: nat)
  {
    |s.dG| == n && |s.dC| == n && |s.dB| == n && |s.lG| == n && |s.lC| == n
    && |s.lB| == n && |s.dD| == n && |s.dL| == n && |s.lL| == n
  }

  /** Entry `f` of every list holds counter set `fc`, the base columns
      being the sums of their guanine and cytosine columns. */
  predicate SeriesEntry(s: Series, f: nat, fc: FrameCounts)
    requires SeriesLength(s, |s.dG|) && f < |s.dG|
  {
    s.dG[f] == fc.dg && s.dC[f] == fc.dc && s.dB[f] == fc.dg + fc.dc
    && s.lG[f] == fc.lg && s.lC[f] == fc.lc && s.lB[f] == fc.lg + fc.lc
    && s.dD[f] == fc.dd && s.dL[f] == fc.dl && s.lL[f] == fc.ll
  }

  /** The nine `append` calls at the end of a frame. */
  function Append(s: Series, fc: FrameCounts): Series
  {
    Series(s.dG + [fc.dg], s.dC + [fc.dc], s.dB + [fc.dg + fc.dc],
           s.lG + [fc.lg], s.lC + [fc.lc], s.lB + [fc.lg + fc.lc],
           s.dD + [fc.dd], s.dL + [fc.dl], s.lL + [fc.ll])
  }

  /** Appending keeps the earlier entries and adds the frame's counters
      as entry `n`. */
  lemma AppendEntry(s: Series, n: nat, fc: FrameCounts)
    requires SeriesLength(s, n)
    ensures SeriesLength(Append(s, fc), n + 1)
    ensures SeriesEntry(Append(s, fc), n, fc)
    ensures forall g, other :: 0 <= g < n && SeriesEntry(s, g, other) ==> SeriesEntry(Append(s, fc), g, other)
  {
  }

  /** The lists built from a sequence of counter sets, one frame each. */
  function SeriesFrom(fcs: seq<FrameCounts>): Series
  {
    if fcs == [] then Series([], [], [], [], [], [], [], [], [])
    else Append(SeriesFrom(fcs[..|fcs| - 1]), fcs[|fcs| - 1])
  }

  /** Entry `f` of the lists is the `f`-th counter set. */
  lemma {:induction false} SeriesFromEntries(fcs: seq<FrameCounts>)
    ensures SeriesLength(SeriesFrom(fcs), |fcs|)
    ensures forall f :: 0 <= f < |fcs| ==> SeriesEntry(SeriesFrom(fcs), f, fcs[f])
  {
    if fcs != [] {
      var init := fcs[..|fcs| - 1];
      SeriesFromEntries(init);
      AppendEntry(SeriesFrom(init), |init|, fcs[|fcs| - 1]);
    }
  }

  /** The counters of every frame of a chunk, in frame order. */
  function PerFrame(chunk: seq<seq<Bond>>, residues: Residues): (r: seq<FrameCounts>)
    ensures |r| == |chunk|
  {
    if chunk == [] then [] else PerFrame(chunk[..|chunk| - 1], residues) + [CountsOf(chunk[|chunk| - 1], residues)]
  }

  /** Frame `f`'s counters count frame `f`'s bonds by category, the seven
      of them adding up to at most the frame's number of bonds. */
  lemma {:induction false} PerFrameCounts(chunk: seq<seq<Bond>>, residues: Residues, f: nat)
    requires f < |chunk|
    ensures PerFrame(chunk, residues)[f] == CountsOf(chunk[f], residues)
    ensures var fc := PerFrame(chunk, residues)[f];
      fc.dg + fc.dc + fc.lg + fc.lc + fc.dd + fc.dl + fc.ll <= |chunk[f]|
  {
    if f < |chunk| - 1 {
      PerFrameCounts(chunk[..|chunk| - 1], residues, f);
    } else {
      CountsOfFields(chunk[f], residues);
      CategoriesPartition(chunk[f], residues);
    }
  }

  /** One more frame is one more frame's worth of tally updates. */
  lemma RecordChunkStep(t: Tally, chunk: seq<seq<Bond>>, residues: Residues, f: nat)
    requires f < |chunk|
    ensures RecordChunk(t, chunk[..f + 1], residues) == RecordFrame(RecordChunk(t, chunk[..f], residues), chunk[f], residues)
  {
    assert chunk[..f + 1][..f] == chunk[..f];
  }

  /** One more frame adds that frame's counters. */
  lemma PerFrameStep(chunk: seq<seq<Bond>>, residues: Residues, f: nat)
    requires f < |chunk|
    ensures PerFrame(chunk[..f + 1], residues) == PerFrame(chunk[..f], residues) + [CountsOf(chunk[f], residues)]
  {
    assert chunk[..f + 1][..f] == chunk[..f];
  }

  /** `compute_hbonds(chunk, hbond_counts)`: the tally takes every bond of
      every frame; the lists take each frame's counters, in frame order. */
  method ComputeHBonds(chunk: seq<seq<Bond>>, residues: Residues, tally: HBondTally) returns (s: Series)
    modifies tally
    ensures tally.counts == RecordChunk(old(tally.counts), chunk, residues)
    ensures s == SeriesFrom(PerFrame(chunk, residues))
    ensures SeriesLength(s, |chunk|)
    ensures forall f :: 0 <= f < |chunk| ==> SeriesEntry(s, f, PerFrame(chunk, residues)[f])
  {
    s := Series([], [], [], [], [], [], [], [], []);
    for f := 0 to |chunk|
      invariant tally.counts == RecordChunk(old(tally.counts), chunk[..f], residues)
      invariant s == SeriesFrom(PerFrame(chunk[..f], residues))
    {
      RecordChunkStep(old(tally.counts), chunk, residues, f);
      PerFrameStep(chunk, residues, f);
      var fc := CountFrame(chunk[f], residues, tally);
      s := Append(s, fc);
      assert PerFrame(chunk[..f + 1], residues)[..f] == PerFrame(chunk[..f], residues);
    }
    assert chunk[..|chunk|] == chunk;
    SeriesFromEntries(PerFrame(chunk, residues));
  }
}
