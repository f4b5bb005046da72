/** The data part of `hbond_heatmap` (ribose_analysis.py): the donor and
    acceptor labels of the D-ribose/base and L-ribose/base tally entries,
    sorted, and the donor × acceptor matrices of summed counts. Plotting is
    not modelled. */
module Heatmap {
  import opened Text
  import opened Sums
  import opened HBonds
  import opened LabelSort

  /** The residue keys read into the D-ribose map. */
  const DKeys: set<string> := {DRibose + [Dash] + Guanine, DRibose + [Dash] + Cytosine,
                               Guanine + [Dash] + DRibose, Cytosine + [Dash] + DRibose}

  /** The residue keys read into the L-ribose map. */
  const LKeys: set<string> := {LRibose + [Dash] + Cytosine, LRibose + [Dash] + Guanine,
                               Guanine + [Dash] + LRibose, Cytosine + [Dash] + LRibose}

  /** Piece `i` of `s.split('-')`, empty where there is none. */
  function Piece(s: string, i: nat): string
  {
    var p := Split(s, Dash);
    if i < |p| then p[i] else []
  }

  /** `f"{donor_residue}-{atom.split('-')[0]}"` */
  function DonorLabel(rk: string, ak: string): string
  {
    Piece(rk, 0) + [Dash] + Piece(ak, 0)
  }

  /** `f"{acceptor_residue}-{atom.split('-')[1]}"` */
  function AcceptorLabel(rk: string, ak: string): string
  {
    Piece(rk, 1) + [Dash] + Piece(ak, 1)
  }

  /** Every selected residue key unpacks into a donor and an acceptor
      residue, and neither is empty. */
  predicate PairKeys(keys: set<string>)
  {
    forall rk :: rk in keys ==> |Split(rk, Dash)| == 2
  }

  /** `f"{a}-{b}"` unpacks into `a` and `b`. */
  lemma KeyPieces(a: string, b: string)
    requires Dash !in a && Dash !in b
    ensures |Split(a + [Dash] + b, Dash)| == 2
    ensures Piece(a + [Dash] + b, 0) == a && Piece(a + [Dash] + b, 1) == b
  {
    SplitPair(a, b);
  }

  lemma NamesDashFree()
    ensures Dash !in DRibose && Dash !in LRibose && Dash !in Guanine && Dash !in Cytosine
  {
  }

  /** The four D-ribose keys unpack into a sugar and a base. */
  lemma DKeyPieces(rk: string)
    requires rk in DKeys
    ensures |Split(rk, Dash)| == 2
    ensures IsBaseOrSugar(Piece(rk, 0)) && IsBaseOrSugar(Piece(rk, 1))
  {
    NamesDashFree();
    if rk == DRibose + [Dash] + Guanine {
      KeyPieces(DRibose, Guanine);
    } else if rk == DRibose + [Dash] + Cytosine {
      KeyPieces(DRibose, Cytosine);
    } else if rk == Guanine + [Dash] + DRibose {
      KeyPieces(Guanine, DRibose);
    } else {
      KeyPieces(Cytosine, DRibose);
    }
  }

  /** The four L-ribose keys unpack into a sugar and a base. */
  lemma LKeyPieces(rk: string)
    requires rk in LKeys
    ensures |Split(rk, Dash)| == 2
    ensures IsBaseOrSugar(Piece(rk, 0)) && IsBaseOrSugar(Piece(rk, 1))
  {
    NamesDashFree();
    if rk == LRibose + [Dash] + Cytosine {
      KeyPieces(LRibose, Cytosine);
    } else if rk == LRibose + [Dash] + Guanine {
      KeyPieces(LRibose, Guanine);
    } else if rk == Guanine + [Dash] + LRibose {
      KeyPieces(Guanine, LRibose);
    } else {
      KeyPieces(Cytosine, LRibose);
    }
  }

  lemma MapKeySets()
    ensures PairKeys(DKeys) && PairKeys(LKeys)
  {
    forall rk | rk in DKeys
      ensures |Split(rk, Dash)| == 2
    {
      DKeyPieces(rk);
    }
    forall rk | rk in LKeys
      ensures |Split(rk, Dash)| == 2
    {
      LKeyPieces(rk);
    }
  }

  /** The tally entries under the residue keys `keys`. */
  ghost function Selected(t: Tally, keys: set<string>): set<(string, string)>
  {
    set rk, ak | rk in keys && rk in t && ak in t[rk] :: (rk, ak)
  }

  ghost function DonorLabels(t: Tally, keys: set<string>): set<string>
  {
    set rk, ak | rk in keys && rk in t && ak in t[rk] :: DonorLabel(rk, ak)
  }

  ghost function AcceptorLabels(t: Tally, keys: set<string>): set<string>
  {
    set rk, ak | rk in keys && rk in t && ak in t[rk] :: AcceptorLabel(rk, ak)
  }

  /** `atom.split('-')[1]` does not raise on any selected entry. */
  predicate Indexable(t: Tally, keys: set<string>)
  {
    forall rk, ak :: rk in keys && rk in t && ak in t[rk] ==> |Split(ak, Dash)| >= 2
  }

  /** `donor, acceptor = atom.split('-')` does not raise on any selected
      entry. */
  predicate Unpackable(t: Tally, keys: set<string>)
  {
    forall rk, ak :: rk in keys && rk in t && ak in t[rk] ==> |Split(ak, Dash)| == 2
  }

  /** `hbond_heatmap` gets through a map: its entries unpack and each of
      its labels has a sort key. */
  ghost predicate Drawable(t: Tally, keys: set<string>)
  {
    Unpackable(t, keys) && Keyed(DonorLabels(t, keys)) && Keyed(AcceptorLabels(t, keys))
  }

  // ----- first pass: the label sets -----

  /** The labels one residue key contributes. */
  lemma LabelsAddKey(t: Tally, ks: set<string>, rk: string)
    requires rk in t
    ensures DonorLabels(t, ks + {rk}) == DonorLabels(t, ks) + DonorsOf(rk, t[rk].Keys)
    ensures AcceptorLabels(t, ks + {rk}) == AcceptorLabels(t, ks) + AcceptorsOf(rk, t[rk].Keys)
  {
  }

  /** The labels of an entry from the pieces of its two keys. */
  lemma LabelsOfPieces(rk: string, ak: string)
    requires |Split(rk, Dash)| == 2 && |Split(ak, Dash)| >= 2
    ensures DonorLabel(rk, ak) == Split(rk, Dash)[0] + [Dash] + Split(ak, Dash)[0]
    ensures AcceptorLabel(rk, ak) == Split(rk, Dash)[1] + [Dash] + Split(ak, Dash)[1]
  {
  }

  /** A selected entry's labels are among the axis labels. */
  lemma EntryLabels(t: Tally, keys: set<string>, rk: string, ak: string)
    requires rk in keys && rk in t && ak in t[rk]
    ensures (rk, ak) in Selected(t, keys)
    ensures DonorLabel(rk, ak) in DonorLabels(t, keys) && AcceptorLabel(rk, ak) in AcceptorLabels(t, keys)
  {
  }

  /** The donor labels residue key `rk` gives the role keys `aks`. */
  function DonorsOf(rk: string, aks: set<string>): set<string>
  {
    set ak | ak in aks :: DonorLabel(rk, ak)
  }

  /** The acceptor labels residue key `rk` gives the role keys `aks`. */
  function AcceptorsOf(rk: string, aks: set<string>): set<string>
  {
    set ak | ak in aks :: AcceptorLabel(rk, ak)
  }

  /** Taking one more role key into the processed ones adds its labels. */
  lemma LabelsStep(rk: string, aks: set<string>, ak: string)
    ensures DonorsOf(rk, aks + {ak}) == DonorsOf(rk, aks) + {DonorLabel(rk, ak)}
    ensures AcceptorsOf(rk, aks + {ak}) == AcceptorsOf(rk, aks) + {AcceptorLabel(rk, ak)}
  {
  }

  /** The inner loop of the first pass, for one selected residue key. */
  method CollectResidue(rk: string, atoms: map<string, nat>, donors: set<string>, acceptors: set<string>)
    returns (ok: bool, donors': set<string>, acceptors': set<string>)
    requires |Split(rk, Dash)| == 2
    ensures ok <==> forall ak :: ak in atoms ==> |Split(ak, Dash)| >= 2
    ensures ok ==> donors' == donors + DonorsOf(rk, atoms.Keys)
    ensures ok ==> acceptors' == acceptors + AcceptorsOf(rk, atoms.Keys)
  {
    var residues := Split(rk, Dash);
    var donorResidue, acceptorResidue := residues[0], residues[1];
    donors', acceptors' := donors, acceptors;
    ghost var seen: set<string> := {};
    var rest := atoms.Keys;
    while rest != {}
      invariant rest <= atoms.Keys && seen == atoms.Keys - rest
      invariant forall ak :: ak in seen ==> |Split(ak, Dash)| >= 2
      invariant donors' == donors + DonorsOf(rk, seen)
      invariant acceptors' == acceptors + AcceptorsOf(rk, seen)
      decreases rest
    {
      var ak :| ak in rest;
      var parts := Split(ak, Dash);
      if |parts| < 2 {
        return false, donors', acceptors';
      }
      LabelsStep(rk, seen, ak);
      LabelsOfPieces(rk, ak);
      donors' := donors' + {donorResidue + [Dash] + parts[0]};
      acceptors' := acceptors' + {acceptorResidue + [Dash] + parts[1]};
      seen := seen + {ak};
      rest := rest - {ak};
    }
    ok := true;
  }

  /** The first pass over `hbonds.items()` for one map: the set of donor
      labels and the set of acceptor labels of the selected entries. */
  method CollectLabels(t: Tally, keys: set<string>) returns (ok: bool, donors: set<string>, acceptors: set<string>)
    requires PairKeys(keys)
    ensures ok <==> Indexable(t, keys)
    ensures ok ==> donors == DonorLabels(t, keys) && acceptors == AcceptorLabels(t, keys)
  {
    donors, acceptors := {}, {};
    var rest := t.Keys;
    while rest != {}
      invariant rest <= t.Keys
      invariant Indexable(t, keys - rest)
      invariant donors == DonorLabels(t, keys - rest) && acceptors == AcceptorLabels(t, keys - rest)
      decreases rest
    {
      var rk :| rk in rest;
      if rk in keys {
        var okr;
        okr, donors, acceptors := CollectResidue(rk, t[rk], donors, acceptors);
        if !okr {
          return false, donors, acceptors;
        }
        LabelsAddKey(t, keys - rest, rk);
        assert keys - (rest - {rk}) == (keys - rest) + {rk};
      } else {
        assert keys - (rest - {rk}) == keys - rest;
      }
      rest := rest - {rk};
    }
    assert keys - rest == keys;
    ok := true;
  }

  // ----- second pass: the matrices -----

  /** What one tally entry adds to the cell of donor `dl` and acceptor `al`. */
  function CellTerm(t: Tally, dl: string, al: string): ((string, string)) -> int
  {
    (e: (string, string)) => if DonorLabel(e.0, e.1) == dl && AcceptorLabel(e.0, e.1) == al then Count(t, e.0, e.1) else 0
  }

  /** The cell of `dl` and `al`: the counts of all selected entries with
      these labels. */
  ghost function Cell(t: Tally, keys: set<string>, dl: string, al: string): int
  {
    SetSum(Selected(t, keys), CellTerm(t, dl, al))
  }

  /** `xs.index(x)`: the first position of `x`. */
  method IndexOf(xs: seq<string>, x: string) returns (i: nat)
    requires x in xs
    ensures i < |xs| && xs[i] == x
    ensures forall k :: 0 <= k < i ==> xs[k] != x
  {
    i := 0;
    while xs[i] != x
      invariant i < |xs| && x in xs[i..]
      invariant forall k :: 0 <= k < i ==> xs[k] != x
      decreases |xs| - i
    {
      i := i + 1;
    }
  }

  /** The matrix holds, in every cell, the counts of the entries in `done`
      with that cell's labels. */
  ghost predicate CellsMatch(data: array2<int>, t: Tally, donors: seq<string>, acceptors: seq<string>,
                             done: set<(string, string)>)
    reads data
  {
    && data.Length0 == |donors| && data.Length1 == |acceptors|
    && forall d, a :: 0 <= d < |donors| && 0 <= a < |acceptors| ==>
         data[d, a] == SetSum(done, CellTerm(t, donors[d], acceptors[a]))
  }

  /** Adding entry `e` to `done` changes the sum of the cell of its labels
      by its count and of no other cell. */
  lemma CellsStep(t: Tally, donors: seq<string>, acceptors: seq<string>, done: set<(string, string)>,
                  e: (string, string), di: nat, ai: nat)
    requires e !in done && Distinct(donors) && Distinct(acceptors)
    requires di < |donors| && donors[di] == DonorLabel(e.0, e.1)
    requires ai < |acceptors| && acceptors[ai] == AcceptorLabel(e.0, e.1)
    ensures forall d, a :: 0 <= d < |donors| && 0 <= a < |acceptors| ==>
      SetSum(done + {e}, CellTerm(t, donors[d], acceptors[a]))
        == SetSum(done, CellTerm(t, donors[d], acceptors[a])) + (if d == di && a == ai then Count(t, e.0, e.1) else 0)
  {
    forall d, a | 0 <= d < |donors| && 0 <= a < |acceptors|
      ensures SetSum(done + {e}, CellTerm(t, donors[d], acceptors[a]))
        == SetSum(done, CellTerm(t, donors[d], acceptors[a])) + (if d == di && a == ai then Count(t, e.0, e.1) else 0)
    {
      SetSumInsert(done, CellTerm(t, donors[d], acceptors[a]), e);
    }
  }

  /** `data[donor_index, acceptor_index] += count` for tally entry `e`,
      which keeps the matrix matching the entries added so far. */
  method AddEntry(data: array2<int>, di: nat, ai: nat, count: nat, ghost t: Tally, ghost donors: seq<string>,
                  ghost acceptors: seq<string>, ghost done: set<(string, string)>, ghost e: (string, string))
    requires CellsMatch(data, t, donors, acceptors, done)
    requires e !in done && Distinct(donors) && Distinct(acceptors) && count == Count(t, e.0, e.1)
    requires di < |donors| && donors[di] == DonorLabel(e.0, e.1)
    requires ai < |acceptors| && acceptors[ai] == AcceptorLabel(e.0, e.1)
    modifies data
    ensures CellsMatch(data, t, donors, acceptors, done + {e})
  {
    CellsStep(t, donors, acceptors, done, e, di, ai);
    data[di, ai] := data[di, ai] + count;
  }

  /** The entries of residue key `rk` for the atom keys in `aks`. */
  function KeyEntries(rk: string, aks: set<string>): set<(string, string)>
  {
    set ak | ak in aks :: (rk, ak)
  }

  lemma KeyEntriesAdd(rk: string, aks: set<string>, ak: string)
    ensures KeyEntries(rk, aks + {ak}) == KeyEntries(rk, aks) + {(rk, ak)}
  {
  }

  /** The inner loop of the second pass, for one selected residue key. */
  method FillResidue(t: Tally, keys: set<string>, rk: string, donors: seq<string>, acceptors: seq<string>,
                     data: array2<int>, ghost done: set<(string, string)>)
    returns (ok: bool, ghost done': set<(string, string)>)
    requires rk in keys && rk in t && |Split(rk, Dash)| == 2
    requires Lists(donors, DonorLabels(t, keys)) && Lists(acceptors, AcceptorLabels(t, keys))
    requires forall e :: e in done ==> e.0 != rk
    requires CellsMatch(data, t, donors, acceptors, done)
    modifies data
    ensures ok <==> forall ak :: ak in t[rk] ==> |Split(ak, Dash)| == 2
    ensures ok ==> done' == done + KeyEntries(rk, t[rk].Keys)
    ensures ok ==> CellsMatch(data, t, donors, acceptors, done')
  {
    var residues := Split(rk, Dash);
    var donorResidue, acceptorResidue := residues[0], residues[1];
    done' := done;
    ghost var seen: set<string> := {};
    var rest := t[rk].Keys;
    while rest != {}
      invariant rest <= t[rk].Keys && seen == t[rk].Keys - rest
      invariant forall ak :: ak in seen ==> |Split(ak, Dash)| == 2
      invariant done' == done + KeyEntries(rk, seen)
      invariant CellsMatch(data, t, donors, acceptors, done')
      decreases rest
    {
      var ak :| ak in rest;
      var count := t[rk][ak];
      var parts := Split(ak, Dash);
      if |parts| != 2 {
        return false, done';
      }
      var donorLabel := donorResidue + [Dash] + parts[0];
      var acceptorLabel := acceptorResidue + [Dash] + parts[1];
      LabelsOfPieces(rk, ak);
      EntryLabels(t, keys, rk, ak);
      var donorIndex := IndexOf(donors, donorLabel);
      var acceptorIndex := IndexOf(acceptors, acceptorLabel);
      AddEntry(data, donorIndex, acceptorIndex, count, t, donors, acceptors, done', (rk, ak));
      KeyEntriesAdd(rk, seen, ak);
      done' := done' + {(rk, ak)};
      seen := seen + {ak};
      rest := rest - {ak};
    }
    ok := true;
  }

  /** The entries of one more residue key. */
  lemma SelectedAddKey(t: Tally, ks: set<string>, rk: string)
    requires rk in t
    ensures Selected(t, ks + {rk}) == Selected(t, ks) + KeyEntries(rk, t[rk].Keys)
    ensures forall e :: e in Selected(t, ks) ==> e.0 in ks
  {
  }

  /** The second pass over one key set: a zero matrix of the axes' sizes,
      then each selected entry's count added to the cell of its labels. */
  method FillMap(t: Tally, keys: set<string>, donors: seq<string>, acceptors: seq<string>)
    returns (ok: bool, data: array2<int>)
    requires PairKeys(keys)
    requires Lists(donors, DonorLabels(t, keys)) && Lists(acceptors, AcceptorLabels(t, keys))
    ensures fresh(data)
    ensures ok <==> Unpackable(t, keys)
    ensures ok ==> CellsMatch(data, t, donors, acceptors, Selected(t, keys))
  {
    data := new int[|donors|, |acceptors|]((d, a) => 0);
    ghost var done: set<(string, string)> := {};
    var rest := t.Keys;
    while rest != {}
      invariant rest <= t.Keys
      invariant Unpackable(t, keys - rest)
      invariant done == Selected(t, keys - rest)
      invariant CellsMatch(data, t, donors, acceptors, done)
      decreases rest
    {
      var rk :| rk in rest;
      if rk in keys {
        var okr;
        SelectedAddKey(t, keys - rest, rk);
        okr, done := FillResidue(t, keys, rk, donors, acceptors, data, done);
        if !okr {
          return false, data;
        }
        assert keys - (rest - {rk}) == (keys - rest) + {rk};
      } else {
        assert keys - (rest - {rk}) == keys - rest;
      }
      rest := rest - {rk};
    }
    assert keys - rest == keys;
    ok := true;
  }

  /** One contact map: the donor labels down the side in key order, the
      acceptor labels along the top in reverse key order, and the summed
      counts. */
  datatype ContactMap = ContactMap(donors: seq<string>, acceptors: seq<string>, data: array2<int>)

  /** `m` is the contact map of the entries under `keys`. */
  ghost predicate Describes(m: ContactMap, t: Tally, keys: set<string>)
    reads m.data
  {
    && Lists(m.donors, DonorLabels(t, keys)) && AllKeyed(m.donors) && SortedBy(m.donors, false)
    && Lists(m.acceptors, AcceptorLabels(t, keys)) && AllKeyed(m.acceptors) && SortedBy(m.acceptors, true)
    && m.data.Length0 == |m.donors| && m.data.Length1 == |m.acceptors|
    && (forall d, a :: 0 <= d < |m.donors| && 0 <= a < |m.acceptors| ==>
          m.data[d, a] == Cell(t, keys, m.donors[d], m.acceptors[a]))
    && MatrixSum(m.data) == SelectedTotal(t, keys)
  }

  /** The contact map of one key set, or `false` where `hbond_heatmap`
      raises on it. */
  method BuildMap(t: Tally, keys: set<string>) returns (ok: bool, m: ContactMap)
    requires PairKeys(keys)
    ensures ok <==> Drawable(t, keys)
    ensures fresh(m.data)
    ensures ok ==> Describes(m, t, keys)
  {
    var collected, donorSet, acceptorSet := CollectLabels(t, keys);
    if !collected || !Keyed(donorSet) || !Keyed(acceptorSet) {
      ok := false;
      var empty := new int[0, 0];
      m := ContactMap([], [], empty);
      return;
    }
    var donors := SortLabels(donorSet, false);
    var acceptors := SortLabels(acceptorSet, true);
    var data;
    ok, data := FillMap(t, keys, donors, acceptors);
    m := ContactMap(donors, acceptors, data);
    if ok {
      MatchDescribes(data, t, keys, donors, acceptors);
    }
  }

  /** `hbond_heatmap`: the D-ribose and the L-ribose contact maps of a
      tally, or `false` where it raises. */
  method HBondHeatmap(t: Tally) returns (ok: bool, dMap: ContactMap, lMap: ContactMap)
    ensures ok <==> Drawable(t, DKeys) && Drawable(t, LKeys)
    ensures fresh(dMap.data) && fresh(lMap.data) && dMap.data != lMap.data
    ensures ok ==> Describes(dMap, t, DKeys) && Describes(lMap, t, LKeys)
  {
    MapKeySets();
    var dOk, lOk;
    dOk, dMap := BuildMap(t, DKeys);
    lOk, lMap := BuildMap(t, LKeys);
    ok := dOk && lOk;
  }

  // ----- the matrix total -----

  function CountTerm(t: Tally): ((string, string)) -> int
  {
    (e: (string, string)) => Count(t, e.0, e.1)
  }

  /** The counts under the selected residue keys, added up. */
  ghost function SelectedTotal(t: Tally, keys: set<string>): int
  {
    SetSum(Selected(t, keys), CountTerm(t))
  }

  /** What an entry adds to the cells of donor `dl` and the acceptors `als`. */
  function RowTerm(t: Tally, dl: string, als: seq<string>): ((string, string)) -> int
  {
    (e: (string, string)) => if DonorLabel(e.0, e.1) == dl && AcceptorLabel(e.0, e.1) in als then Count(t, e.0, e.1) else 0
  }

  /** What an entry adds to the cells of the donors `dls` and the acceptors `als`. */
  function GridTerm(t: Tally, dls: seq<string>, als: seq<string>): ((string, string)) -> int
  {
    (e: (string, string)) => if DonorLabel(e.0, e.1) in dls && AcceptorLabel(e.0, e.1) in als then Count(t, e.0, e.1) else 0
  }

  /** The first `n` cells of row `d`, added up. */
  ghost function RowTotal(data: array2<int>, d: nat, n: nat): int
    requires d < data.Length0 && n <= data.Length1
    reads data
  {
    if n == 0 then 0 else RowTotal(data, d, n - 1) + data[d, n - 1]
  }

  /** The cells of the first `m` rows, added up. */
  ghost function RowsTotal(data: array2<int>, m: nat): int
    requires m <= data.Length0
    reads data
  {
    if m == 0 then 0 else RowsTotal(data, m - 1) + RowTotal(data, m - 1, data.Length1)
  }

  /** `data.sum()` */
  ghost function MatrixSum(data: array2<int>): int
    reads data
  {
    RowsTotal(data, data.Length0)
  }

  lemma {:induction false} RowTotalCells(data: array2<int>, t: Tally, donors: seq<string>, acceptors: seq<string>,
                                         done: set<(string, string)>, d: nat, n: nat)
    requires CellsMatch(data, t, donors, acceptors, done) && Distinct(acceptors)
    requires d < |donors| && n <= |acceptors|
    ensures RowTotal(data, d, n) == SetSum(done, RowTerm(t, donors[d], acceptors[..n]))
  {
    if n == 0 {
      SetSumZero(done, RowTerm(t, donors[d], acceptors[..0]));
    } else {
      RowTotalCells(data, t, donors, acceptors, done, d, n - 1);
      var al := acceptors[n - 1];
      assert acceptors[..n] == acceptors[..n - 1] + [al];
      assert al !in acceptors[..n - 1];
      SetSumAdd(done, RowTerm(t, donors[d], acceptors[..n - 1]), CellTerm(t, donors[d], al),
                RowTerm(t, donors[d], acceptors[..n]));
    }
  }

  lemma {:induction false} RowsTotalCells(data: array2<int>, t: Tally, donors: seq<string>, acceptors: seq<string>,
                                          done: set<(string, string)>, m: nat)
    requires CellsMatch(data, t, donors, acceptors, done) && Distinct(donors) && Distinct(acceptors)
    requires m <= |donors|
    ensures RowsTotal(data, m) == SetSum(done, GridTerm(t, donors[..m], acceptors))
  {
    if m == 0 {
      SetSumZero(done, GridTerm(t, donors[..0], acceptors));
    } else {
      RowsTotalCells(data, t, donors, acceptors, done, m - 1);
      RowTotalCells(data, t, donors, acceptors, done, m - 1, |acceptors|);
      var dl := donors[m - 1];
      assert acceptors[..|acceptors|] == acceptors;
      assert donors[..m] == donors[..m - 1] + [dl];
      assert dl !in donors[..m - 1];
      SetSumAdd(done, GridTerm(t, donors[..m - 1], acceptors), RowTerm(t, dl, acceptors),
                GridTerm(t, donors[..m], acceptors));
    }
  }

  /** A matrix matching all selected entries, with every label on its
      axes, sums to the selected counts. */
  lemma MatrixSumTotal(data: array2<int>, t: Tally, keys: set<string>, donors: seq<string>, acceptors: seq<string>)
    requires CellsMatch(data, t, donors, acceptors, Selected(t, keys))
    requires Lists(donors, DonorLabels(t, keys)) && Lists(acceptors, AcceptorLabels(t, keys))
    ensures MatrixSum(data) == SelectedTotal(t, keys)
  {
    RowsTotalCells(data, t, donors, acceptors, Selected(t, keys), |donors|);
    assert donors[..|donors|] == donors;
    forall e | e in Selected(t, keys)
      ensures GridTerm(t, donors, acceptors)(e) == CountTerm(t)(e)
    {
      EntryLabels(t, keys, e.0, e.1);
    }
    SetSumExt(Selected(t, keys), GridTerm(t, donors, acceptors), CountTerm(t));
  }

  /** A filled matrix with its sorted axes is the contact map. */
  lemma MatchDescribes(data: array2<int>, t: Tally, keys: set<string>, donors: seq<string>, acceptors: seq<string>)
    requires CellsMatch(data, t, donors, acceptors, Selected(t, keys))
    requires Lists(donors, DonorLabels(t, keys)) && AllKeyed(donors) && SortedBy(donors, false)
    requires Lists(acceptors, AcceptorLabels(t, keys)) && AllKeyed(acceptors) && SortedBy(acceptors, true)
    ensures Describes(ContactMap(donors, acceptors, data), t, keys)
  {
    MatrixSumTotal(data, t, keys, donors, acceptors);
  }

  // ----- properties of the maps -----

  /** Only the entries under the selected residue keys matter: two tallies
      that agree there give the same labels, the same cells, and fail or
      succeed alike. */
  lemma IgnoresOtherKeys(t: Tally, u: Tally, keys: set<string>)
    requires forall rk :: rk in keys ==> (rk in t <==> rk in u) && (rk in t ==> t[rk] == u[rk])
    ensures Selected(t, keys) == Selected(u, keys)
    ensures DonorLabels(t, keys) == DonorLabels(u, keys) && AcceptorLabels(t, keys) == AcceptorLabels(u, keys)
    ensures Drawable(t, keys) <==> Drawable(u, keys)
    ensures forall dl, al :: Cell(t, keys, dl, al) == Cell(u, keys, dl, al)
    ensures SelectedTotal(t, keys) == SelectedTotal(u, keys)
  {
    assert Selected(t, keys) == Selected(u, keys);
    SetSumExt(Selected(t, keys), CountTerm(t), CountTerm(u));
    forall dl, al
      ensures Cell(t, keys, dl, al) == Cell(u, keys, dl, al)
    {
      SetSumExt(Selected(t, keys), CellTerm(t, dl, al), CellTerm(u, dl, al));
    }
  }

  /** No cell is negative. */
  lemma CellNonNegative(t: Tally, keys: set<string>, dl: string, al: string)
    ensures Cell(t, keys, dl, al) >= 0
  {
    SetSumNonNegative(Selected(t, keys), CellTerm(t, dl, al));
  }

  /** A cell no selected entry is labelled with is zero. */
  lemma CellEmpty(t: Tally, keys: set<string>, dl: string, al: string)
    requires forall rk, ak :: rk in keys && rk in t && ak in t[rk] ==>
      DonorLabel(rk, ak) != dl || AcceptorLabel(rk, ak) != al
    ensures Cell(t, keys, dl, al) == 0
  {
    SetSumZero(Selected(t, keys), CellTerm(t, dl, al));
  }

  /** A cell only one selected entry is labelled with holds that entry's
      count. */
  lemma CellSingle(t: Tally, keys: set<string>, rk: string, ak: string)
    requires rk in keys && rk in t && ak in t[rk]
    requires forall k, a :: k in keys && k in t && a in t[k] && (k, a) != (rk, ak) ==>
      DonorLabel(k, a) != DonorLabel(rk, ak) || AcceptorLabel(k, a) != AcceptorLabel(rk, ak)
    ensures Cell(t, keys, DonorLabel(rk, ak), AcceptorLabel(rk, ak)) == t[rk][ak]
  {
    SetSumSingle(Selected(t, keys), CellTerm(t, DonorLabel(rk, ak), AcceptorLabel(rk, ak)), (rk, ak));
  }

  // ----- what compute_hbonds records can be drawn -----

  /** A role index as `str` writes it. */
  predicate Digits(s: string)
  {
    |s| > 0 && AllDigits(s)
  }

  /** Every role key of `t` is two runs of digits joined by a dash. */
  predicate RoleKeyed(t: Tally)
  {
    forall rk, ak :: rk in t && ak in t[rk] ==>
      |Split(ak, Dash)| == 2 && Digits(Split(ak, Dash)[0]) && Digits(Split(ak, Dash)[1])
  }

  lemma RecordRoleKeyed(t: Tally, b: Bond, residues: Residues)
    requires RoleKeyed(t)
    ensures RoleKeyed(Record(t, ResidueKey(b, residues), RoleKey(b, residues)))
  {
    RoleKeyParts(b, residues);
  }

  lemma {:induction false} RecordFrameRoleKeyed(t: Tally, bonds: seq<Bond>, residues: Residues)
    requires RoleKeyed(t)
    ensures RoleKeyed(RecordFrame(t, bonds, residues))
  {
    if bonds != [] {
      RecordFrameRoleKeyed(t, bonds[..|bonds| - 1], residues);
      RecordRoleKeyed(RecordFrame(t, bonds[..|bonds| - 1], residues), bonds[|bonds| - 1], residues);
    }
  }

  lemma {:induction false} RecordChunkRoleKeyed(t: Tally, chunk: seq<seq<Bond>>, residues: Residues)
    requires RoleKeyed(t)
    ensures RoleKeyed(RecordChunk(t, chunk, residues))
  {
    if chunk != [] {
      RecordChunkRoleKeyed(t, chunk[..|chunk| - 1], residues);
      RecordFrameRoleKeyed(RecordChunk(t, chunk[..|chunk| - 1], residues), chunk[|chunk| - 1], residues);
    }
  }

  /** Residue keys that unpack into two of the four residue names. */
  predicate NamedKeys(keys: set<string>)
  {
    forall rk :: rk in keys ==> |Split(rk, Dash)| == 2 && IsBaseOrSugar(Piece(rk, 0)) && IsBaseOrSugar(Piece(rk, 1))
  }

  lemma MapKeysNamed()
    ensures NamedKeys(DKeys) && NamedKeys(LKeys)
  {
    forall rk | rk in DKeys
      ensures |Split(rk, Dash)| == 2 && IsBaseOrSugar(Piece(rk, 0)) && IsBaseOrSugar(Piece(rk, 1))
    {
      DKeyPieces(rk);
    }
    forall rk | rk in LKeys
      ensures |Split(rk, Dash)| == 2 && IsBaseOrSugar(Piece(rk, 0)) && IsBaseOrSugar(Piece(rk, 1))
    {
      LKeyPieces(rk);
    }
  }

  /** With role keys of digits and residue keys of residue names, every
      entry unpacks and every label has a sort key. */
  lemma RoleKeyedDrawable(t: Tally, keys: set<string>)
    requires RoleKeyed(t) && NamedKeys(keys)
    ensures Drawable(t, keys)
  {
    forall l | l in DonorLabels(t, keys)
      ensures RiboseLabelSort(l).Some?
    {
      var rk, ak :| rk in keys && rk in t && ak in t[rk] && l == DonorLabel(rk, ak);
      DigitLabelKey(Piece(rk, 0), Piece(ak, 0));
    }
    forall l | l in AcceptorLabels(t, keys)
      ensures RiboseLabelSort(l).Some?
    {
      var rk, ak :| rk in keys && rk in t && ak in t[rk] && l == AcceptorLabel(rk, ak);
      DigitLabelKey(Piece(rk, 1), Piece(ak, 1));
    }
  }

  /** `hbond_heatmap` does not raise on a tally `compute_hbonds` filled
      from an empty dictionary. */
  lemma ComputedTallyDrawable(chunk: seq<seq<Bond>>, residues: Residues)
    ensures Drawable(RecordChunk(map[], chunk, residues), DKeys)
    ensures Drawable(RecordChunk(map[], chunk, residues), LKeys)
  {
    RecordChunkRoleKeyed(map[], chunk, residues);
    MapKeysNamed();
    RoleKeyedDrawable(RecordChunk(map[], chunk, residues), DKeys);
    RoleKeyedDrawable(RecordChunk(map[], chunk, residues), LKeys);
  }
}
