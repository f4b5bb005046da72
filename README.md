# Ribose monolayer: sheet assembly, restraints and hydrogen-bond maps

This project models two pieces of a molecular-monolayer simulation and
analysis package in Dafny and proves properties of them.

**Building the system** (`ribose_sheet.py`):
- `translate` moves a conformer along one axis.
- `make_sheet` lays a regular guanine/cytosine base sheet into an append-only OpenMM `Modeller`.
- `make_sheet_random` scatters a layer of D- and L-ribose molecules above it. Exactly `lconc` of them are L, the order is shuffled, and each molecule gets a random orientation.
- `simulate` records the base sheet's atom range and anchors every atom of that range with a harmonic position restraint.

**Analysing the trajectories** (`ribose_analysis.py`):
- `compute_hbonds` puts each detected hydrogen bond of each frame into at most one of seven residue-pair categories and counts them per frame. It also records every bond in a two-level tally keyed `"res1-res2"` → `"role1-role2"`.
- `ribose_label_sort` is the sort key for contact-map labels.
- `hbond_heatmap` turns the tally into a D-ribose and an L-ribose donor × acceptor contact matrix.

Modules, in dependency order:
- `Geometry`: points, `translate`, and `rotate` as a parameter.
- `Modelling`: the `Modeller` class.
- `Sheet`: `make_sheet`.
- `SheetRandom`: `make_sheet_random`.
- `Restraints`: the restraint force and its loop.
- `Simulation`: `simulate` up to the restraint loop.
- `Text`: `str`, `int`, `split` and slicing as the analysis uses them.
- `Sums`: sums over finite sets.
- `HBonds`: `compute_hbonds`.
- `LabelSort`: `ribose_label_sort` and the `sorted` calls.
- `Heatmap`: `hbond_heatmap` without the plotting.
- `Arith`: small facts about multiplication and remainders.

Behaviour the model keeps exactly as the code has it:
- **`lconc` is not checked.** A value outside `[0, height*width]` is not rejected up front. A negative `lconc` gives an empty L list, and one above the site count gives a selection longer than the per-site draws. The loop then stops with an `IndexError` at the first draw past the end. `MakeSheetRandom` returns `SiteIndexError` in exactly those cases, and `Simulate` then makes no restraint.
- **Every bond reaches the tally,** whatever its residue pairing. Only the seven category counters skip unmatched pairs.
- **Residue-pair keys are not canonicalised.** `"DRI-G"` and `"G-DRI"` are different tally keys. The categories are symmetric (`HBonds.ClassifySymmetric`).
- **The label sort key holds the negated role.** The slice after the residue prefix keeps the dash, so `int("-5")` gives `-5`. Within one residue, donor labels therefore sort by decreasing role (`LabelSort.LabelKey`).

## Model

| member | source | states |
|---|---|---|
| Geometry.Translate | ribose_sheet.py:28-35 | one point per input point; only the coordinate named by the axis moves, by exactly `step`; "x" and "y" name their columns and every other axis name falls through to z |
| Geometry.TranslateCompose | ribose_sheet.py:28-35 | two translations along one axis are one translation by the sum |
| Geometry.TranslateZero | ribose_sheet.py:28-35 | translating by zero changes nothing |
| Geometry.TranslateRoundTrip | ribose_sheet.py:28-35 | translating by `s` and then by `-s` along the same axis gives back the conformer |
| Modelling.Modeller.constructor | ribose_sheet.py:208-209 | the modeller `simulate` starts from holds no molecule |
| Modelling.Modeller.Add | ribose_sheet.py:89 | `model.add` appends exactly one molecule (topology and its own positions) and keeps one position per atom |
| Modelling.Modeller.Positions | ribose_sheet.py:243 | `model.positions` has one entry per atom of the topology |
| Modelling.AtomCountAppend | ribose_sheet.py:81-96 | the atom count of the modeller is additive over appended molecules |
| Modelling.FlattenAppend | ribose_sheet.py:243 | the positions array of appended molecules is the concatenation of their positions |
| Modelling.FlattenLength | ribose_sheet.py:243 | with one position per atom in each molecule, the positions array is as long as the atom count |
| Sheet.Copy | ribose_sheet.py:88-93 | copy `i` of column `x`: template `x % len(tops)` shifted `spacing * x` along x and then `spacing * i` along y (the inner `translate` calls); placement proved in `Sheet.SheetPlacement` |
| Sheet.Layout | ribose_sheet.py:85-95 | the molecules the nested loops have added, in insertion order, up to copy `i` of column `x`; shape proved in `Sheet.LayoutLength` and `Sheet.LayoutCell` |
| Sheet.Sheet | ribose_sheet.py:85-95 | all `width * len(tops)` columns of `height + 1` copies each; size and contents proved in `Sheet.SheetLength`, `Sheet.SheetPlacement` and `Sheet.SheetCells` |
| Sheet.MakeSheet | ribose_sheet.py:67-96 | adds exactly the sheet layout (`Sheet`) at spacing `step * len(tops)`, returns `[atoms before, atoms after]`, and that range spans `width * (height + 1)` copies of all templates' atoms |
| Sheet.AddRow | ribose_sheet.py:86-95 | one outer step adds a column per template, in template order, advancing `xspacing` by `len(tops)` |
| Sheet.AddColumn | ribose_sheet.py:88-93 | one template's column: the base copy plus `height` copies each one spacing further along y, adding `(height + 1)` times its atoms |
| Sheet.AddCopy | ribose_sheet.py:93 | adding one copy extends the layout by that copy and the atom count by its template's atoms |
| Sheet.LayoutLength | ribose_sheet.py:85-95 | copy `i` of column `x` is molecule number `x * (height + 1) + i` |
| Sheet.LayoutPrefix | ribose_sheet.py:85-95 | the molecules added up to any point are a prefix of those added later (append-only) |
| Sheet.LayoutCell | ribose_sheet.py:85-95 | every later layout holds copy `i` of column `x` at index `x * (height + 1) + i` |
| Sheet.SheetLength | ribose_sheet.py:85-95 | `make_sheet` adds `width * len(tops) * (height + 1)` molecules |
| Sheet.SheetPlacement | ribose_sheet.py:82-93 | the molecule for outer step `j`, template `k`, copy `i` is built from `tops[k]`, and each of its atoms sits `spacing * (j * len(tops) + k)` along x and `spacing * i` along y from the template's position |
| Sheet.SheetCells | ribose_sheet.py:85-95 | conversely, molecule `n` is copy `n % (height + 1)` of column `n / (height + 1)`, which is a column of the sheet |
| SheetRandom.Selection | ribose_sheet.py:117-119 | `idx = [*[1] * lconc, *[0] * (h*w - lconc)]` before the shuffle; contents proved in `SheetRandom.SelectionCounts` and `SheetRandom.SelectionLength` |
| SheetRandom.Repeat | ribose_sheet.py:117-118 | `[v] * n` has `max(n, 0)` entries, all equal to `v` |
| SheetRandom.RepeatMultiset | ribose_sheet.py:117-118 | `[v] * n` holds `v` exactly `max(n, 0)` times and nothing else |
| SheetRandom.SelectionCounts | ribose_sheet.py:116-119 | the selection holds `max(lconc, 0)` ones, `max(sites - lconc, 0)` zeros and no other value |
| SheetRandom.SelectionLength | ribose_sheet.py:117-119 | the selection has at least one entry per site, and exactly one per site if and only if `0 <= lconc <= sites` |
| SheetRandom.SwapAt | ribose_sheet.py:120 | one exchange of the shuffle: the two entries trade places and the length stays; `SheetRandom.SwapPermutes` proves the entries stay |
| SheetRandom.ApplySwaps | ribose_sheet.py:120 | the shuffled list: the exchanges applied in order, keeping the length; a permutation by `SheetRandom.ApplySwapsPermutes` |
| SheetRandom.FisherYatesFits | ribose_sheet.py:120 | the exchanges of a Fisher-Yates shuffle stay inside the list |
| SheetRandom.SwapPermutes | ribose_sheet.py:120 | one exchange keeps the multiset of entries |
| SheetRandom.ApplySwapsPermutes | ribose_sheet.py:120 | shuffling only reorders: the multiset of entries is unchanged |
| SheetRandom.Shuffle | ribose_sheet.py:120 | the in-place shuffle of the array leaves it holding the list after the given exchanges |
| SheetRandom.ShuffledIndicesFit | ribose_sheet.py:116-134 | every shuffled entry names an existing template when the templates cover the selected numbers |
| SheetRandom.ShuffledSelection | ribose_sheet.py:117-121 | the freshly built array holds the selection after the shuffle's exchanges |
| SheetRandom.GridColumn | ribose_sheet.py:124-125 | the grid column `np.tile(np.arange(0, width), height)` gives site `k`, i.e. `k % width`; range and injectivity in `SheetRandom.SiteGrid` |
| SheetRandom.GridRow | ribose_sheet.py:126-127 | the grid row `np.repeat(np.arange(0, height), width)` gives site `k`, i.e. `k // width`; range and injectivity in `SheetRandom.SiteGrid` |
| SheetRandom.SiteGrid | ribose_sheet.py:124-127 | the `height * width` sites from `tile` and `repeat` each land in a grid cell, and no two land in the same cell |
| SheetRandom.SitePosition | ribose_sheet.py:124-137 | a site's conformer is the rotated template shifted by the repeated offset along x, the tiled offset along y (the swapped `xpos`/`ypos` of the code) and the height offset along z |
| SheetRandom.SiteNearGrid | ribose_sheet.py:124-137 | with in-range draws, each atom lies within one ångström of its grid point in x and y and within [-4.5, 2) Å in z of the rotated template |
| SheetRandom.RandomLayout | ribose_sheet.py:133-138 | the molecules the site loop appends for its first `n` sites: one per site, in site order |
| SheetRandom.RandomLayoutStep | ribose_sheet.py:133-138 | site `k` appends one molecule of template `idx[k]` at its site position |
| SheetRandom.RandomLayoutConsistent | ribose_sheet.py:133-138 | every molecule added carries one position per atom |
| SheetRandom.RandomLayoutCount | ribose_sheet.py:133-138 | template `v` is used once for every occurrence of `v` among the visited entries |
| SheetRandom.AddSite | ribose_sheet.py:134-138 | one loop pass appends exactly site `k`'s molecule |
| SheetRandom.MakeSheetRandom | ribose_sheet.py:98-140 | appends one molecule per visited site in site order; returns `[atoms before, atoms after]` when `0 <= lconc <= height*width`, and otherwise stops with an `IndexError` at site `height*width` |
| SheetRandom.LConcentration | ribose_sheet.py:116-138 | a completed run places exactly `lconc` molecules of template 1 and `height*width - lconc` of template 0 |
| Restraints.PositionRestraint.constructor | ribose_sheet.py:234-239 | the restraint starts with no particle and with `k = 100` kJ/mol/Å² |
| Restraints.PositionRestraint.AddParticle | ribose_sheet.py:243 | `addParticle` appends one (index, anchor) pair and leaves `k` alone |
| Restraints.Span | ribose_sheet.py:242-243 | the particles `for i in range(start, stop): addParticle(i, positions[i])` adds, in order; proved in `Restraints.SpanOccurrences` and `Restraints.SpanAnchored` |
| Restraints.Anchors | ribose_sheet.py:241-243 | the particles the outer loop adds over `sheet_indices`, range after range; proved in `Restraints.AnchorsOccurrences` |
| Restraints.SpanOccurrences | ribose_sheet.py:242-243 | one range restrains each of its atoms once and no other atom |
| Restraints.AnchorsOccurrences | ribose_sheet.py:241-243 | each atom is restrained once for every recorded range that contains it |
| Restraints.SpanAnchored | ribose_sheet.py:242-243 | particle `t` of a range is atom `start + t`, anchored at that atom's own position |
| Restraints.AddSpan | ribose_sheet.py:242-243 | the inner loop appends the particles of one range in index order |
| Restraints.AddRestraints | ribose_sheet.py:241-243 | the outer loop appends the particles of every recorded range, in order |
| Simulation.SugarConformer | ribose_sheet.py:182-188 | the sugar conformers keep one point per atom |
| Simulation.SugarLift | ribose_sheet.py:182-188 | every sugar atom moves exactly (5, 5, 14) Å |
| Simulation.CytosineConformer | ribose_sheet.py:193-198 | the cytosine conformer keeps one point per atom |
| Simulation.GuanineConformer | ribose_sheet.py:200-203 | the guanine conformer keeps one point per atom |
| Simulation.BaseShifts | ribose_sheet.py:193-203 | after their turns, cytosine atoms move (4, 4, 1) Å and guanine atoms (4.7, 4, 1) Å |
| Simulation.PairAtoms | ribose_sheet.py:214 | one guanine and one cytosine together carry their two atom counts |
| Simulation.BaseSheet | ribose_sheet.py:214 | the base sheet `make_sheet(sh, sw//2 + 1, [G, C], [g, c], model, step=3.3)` lays down; its atom count is the recorded range's end (`Simulation.BuildSheets`) |
| Simulation.BaseSheetRestrained | ribose_sheet.py:212-243 | with only the base-sheet range recorded, base-sheet atoms are restrained exactly once and all others never |
| Simulation.SugarLayer | ribose_sheet.py:98-138 | the molecules `make_sheet_random(sh, sw, [D, L], [ad, al], model, lconc, step=8)` appends: the shuffled selection's sites in order, each a D- or an L-ribose; at most `sh * sw` of them |
| Simulation.SugarIndices | ribose_sheet.py:117-121 | the shuffled `idx` of the sugar layer; every entry picks one of the two sugars |
| Simulation.SugarConcentration | ribose_sheet.py:116-138 | a completed sugar layer has `sh * sw` molecules: exactly `lconc` L-ribose and `sh * sw - lconc` D-ribose (when the two topologies differ) |
| Simulation.AddSugars | ribose_sheet.py:216 | the sugar layer call appends exactly `SugarLayer` (D template first, L second, step 8) after what the modeller held, and completes if and only if `0 <= lconc <= sh * sw` |
| Simulation.BuildSheets | ribose_sheet.py:208-216 | the recorded range is `[0, (sw // 2 + 1) * (sh + 1) * (atoms(G) + atoms(C)))` and ends exactly at the base sheet's atom count, and the modeller holds exactly the base sheet followed by the sugar layer (so the sugar atoms start at the range's end); the sugar layer's outcome is as above |
| Simulation.RestrainBase | ribose_sheet.py:241-243 | the restraint anchors exactly the base-sheet atoms, each once at its own position, with `k = 100` |
| Simulation.Simulate | ribose_sheet.py:208-243 | end to end: the modeller holds the base sheet followed by `SugarLayer`, the range ending at the base sheet's atom count; no restraint exactly when the sugar layer raises; otherwise every atom below that count (the base sheet) is restrained once and every atom from it on (the sugar layer) never |
| Text.ParseInt | ribose_analysis.py:120-128 | `int(s)` on ASCII text, `None` where it raises; a success needs a non-empty string, and it inverts `str` by `Text.ParseNatToString` |
| Text.StartsWith | ribose_analysis.py:119-125 | `s.startswith(p)`: `p` is the first `len(p)` characters of `s` |
| Text.NatToString | ribose_analysis.py:98 | `str(n)` is a non-empty run of digits without a dash |
| Text.DigitsOfNat | ribose_analysis.py:98 | the digits `str` writes denote the number |
| Text.ParseNatToString | ribose_analysis.py:120 | `int(str(n)) == n` and `int("-" + str(n)) == -n` |
| Text.ParseNegative | ribose_analysis.py:120 | `int("-" + s)` on a run of digits is minus their value |
| Text.NatToStringInjective | ribose_analysis.py:98 | different roles give different strings |
| Text.Drop | ribose_analysis.py:120 | `s[n:]` is what follows the first `n` characters, or empty when `s` is shorter |
| Text.Split | ribose_analysis.py:142 | `s.split('-')`: at least one piece; it inverts `Text.Join` by `Text.SplitJoin` and `Text.JoinSplit` |
| Text.Join | ribose_analysis.py:142 | the reference inverse of `split`: the pieces with the separator between them |
| Text.SplitJoin | ribose_analysis.py:142 | `split` pieces rejoin to the string, and no piece holds the separator |
| Text.SplitWhole | ribose_analysis.py:142 | a string without the separator splits into itself |
| Text.SplitAppend | ribose_analysis.py:142 | appending a separator and a separator-free piece adds exactly that piece |
| Text.JoinSplit | ribose_analysis.py:142 | joining separator-free pieces and splitting gives back the pieces |
| Text.SplitPair | ribose_analysis.py:97-98 | `f"{a}-{b}".split('-') == [a, b]` when neither part holds a dash |
| HBonds.Classify | ribose_analysis.py:82-95 | the `if`/`elif` chain itself, first match wins and no category when nothing matches; its meaning is proved in `HBonds.ClassifyMeaning` and `HBonds.ClassifySymmetric` |
| HBonds.MeaningDG | ribose_analysis.py:82-83 | a bond is DG exactly when its residues are {G, DRI} in either order |
| HBonds.MeaningDC | ribose_analysis.py:84-85 | a bond is DC exactly when its residues are {C, DRI} in either order |
| HBonds.MeaningLG | ribose_analysis.py:86-87 | a bond is LG exactly when its residues are {G, LRI} in either order |
| HBonds.MeaningLC | ribose_analysis.py:88-89 | a bond is LC exactly when its residues are {C, LRI} in either order |
| HBonds.MeaningDD | ribose_analysis.py:90-91 | a bond is DD exactly when both residues are DRI |
| HBonds.MeaningDL | ribose_analysis.py:92-93 | a bond is DL exactly when its residues are {DRI, LRI} in either order |
| HBonds.MeaningLL | ribose_analysis.py:94-95 | a bond is LL exactly when both residues are LRI |
| HBonds.ClassifyMeaning | ribose_analysis.py:82-95 | for each counted category, the chain picks it if and only if the unordered residue pair is that category's pair |
| HBonds.ClassifySymmetric | ribose_analysis.py:82-95 | swapping donor and acceptor never changes the category |
| HBonds.NamesDistinct | ribose_analysis.py:82-95 | the four residue names are pairwise different |
| HBonds.Role | ribose_analysis.py:80 | an atom's role `index % n_atoms` lies in `[0, n_atoms)` of its residue |
| HBonds.RoleInResidue | ribose_analysis.py:80 | the atom `r` places after a residue-aligned first atom has role `r` |
| HBonds.ResidueKey | ribose_analysis.py:97 | `f'{res1.name}-{res2.name}'`: the donor's residue name, a dash, the acceptor's; unpacked again by `Heatmap.KeyPieces` |
| HBonds.RoleKey | ribose_analysis.py:98 | `f"{atom1_index}-{atom2_index}"` over the two roles; unpacked again by `HBonds.RoleKeyParts` |
| HBonds.RoleKeyParts | ribose_analysis.py:98 | a role key splits back into the two roles' strings |
| HBonds.Record | ribose_analysis.py:100-104 | one update raises the count under its two keys by one, leaves every other count unchanged, and removes no key |
| HBonds.RecordTotal | ribose_analysis.py:100-104 | one update raises the tally's total by exactly one |
| HBonds.ExtendsTransitive | ribose_analysis.py:100-104 | "no key removed, no count lowered" composes over successive updates |
| HBonds.HBondTally.constructor | ribose_analysis.py:62 | the tally object holds the dictionary it is given |
| HBonds.HBondTally.Add | ribose_analysis.py:100-104 | the in-place create-if-missing, zero-if-missing, `+= 1` sequence is exactly `Record` |
| HBonds.RecordFrameCount | ribose_analysis.py:77-104 | after a frame, each count has grown by the number of its bonds with that residue key and role key |
| HBonds.RecordFrameTotal | ribose_analysis.py:77-104 | a frame raises the total by its number of bonds, whatever their category |
| HBonds.RecordFrameExtends | ribose_analysis.py:77-104 | a frame removes no key and lowers no count |
| HBonds.RecordChunkTotal | ribose_analysis.py:66-104 | a chunk raises the total by its number of bonds |
| HBonds.RecordChunkExtends | ribose_analysis.py:66-104 | a chunk removes no key and lowers no count |
| HBonds.CategoriesPartition | ribose_analysis.py:77-95 | every bond is in exactly one of the seven categories or none, so the eight counts add up to the number of bonds |
| HBonds.Bump | ribose_analysis.py:82-95 | the one `+= 1` the chain performs: the chosen category's counter, or none; proved in `HBonds.CountsOfStep` |
| HBonds.CountsOf | ribose_analysis.py:67-95 | the seven counters after the bond loop, starting from zero; proved in `HBonds.CountsOfFields` and `HBonds.CategoriesPartition` |
| HBonds.CountsOfFields | ribose_analysis.py:67-95 | the counters a frame ends with are the numbers of its bonds in each category |
| HBonds.CountsOfStep | ribose_analysis.py:77-95 | one more bond raises exactly its category's counter |
| HBonds.CountFrame | ribose_analysis.py:67-104 | the frame loop records every bond in the tally and returns the seven category counts of the frame |
| HBonds.Append | ribose_analysis.py:106-114 | the nine `append` calls of one frame; proved in `HBonds.AppendEntry` |
| HBonds.AppendEntry | ribose_analysis.py:106-114 | the nine appends add the frame's counters as the new last entry, with `D_B = D_G + D_C` and `L_B = L_G + L_C`, and keep the earlier entries |
| HBonds.SeriesFromEntries | ribose_analysis.py:106-116 | the nine lists have one entry per frame, entry `f` holding frame `f`'s counters |
| HBonds.PerFrameCounts | ribose_analysis.py:66-114 | frame `f`'s counters count frame `f`'s bonds, and the seven add up to at most its number of bonds |
| HBonds.ComputeHBonds | ribose_analysis.py:62-116 | the tally takes every bond of every frame; the nine lists have one entry per frame holding that frame's counters |
| LabelSort.Rank | ribose_analysis.py:118-127 | the rank the prefix tests give each residue name (DRI 0, LRI 1, C 2, G 3); that the key uses it is `LabelSort.DigitLabelKey` |
| LabelSort.RiboseLabelSort | ribose_analysis.py:118-128 | where `int` does not raise, the first key component is one of the five ranks 0–4 |
| LabelSort.DigitLabelKey | ribose_analysis.py:118-128 | a label `name-digits` of one of the four residues has key (rank of the residue by the prefix tests in order, minus the digits' value) |
| LabelSort.LabelKey | ribose_analysis.py:118-128 | the key of `f"{name}-{role}"` is (rank of the residue, `-role`) |
| LabelSort.LabelOrder | ribose_analysis.py:118-128 | on contact-map labels the key orders by residue (DRI, LRI, C, G) and, within a residue, by decreasing role |
| LabelSort.NotPrefix | ribose_analysis.py:119-125 | a label whose first character differs from a prefix's fails that `startswith` test |
| LabelSort.BeforeTotal | ribose_analysis.py:153-157 | any two keyed labels are ordered one way or the other |
| LabelSort.BeforeTransitive | ribose_analysis.py:153-157 | the key order is transitive |
| LabelSort.First | ribose_analysis.py:153-157 | picks a label that may come first among the remaining ones |
| LabelSort.SortLabels | ribose_analysis.py:153-157 | `sorted(labels, key=ribose_label_sort, reverse=r)` lists every label of the set exactly once, in key order (reversed when asked) |
| Heatmap.DonorLabel | ribose_analysis.py:144 | `f"{donor_residue}-{atom.split('-')[0]}"`, the same label the second pass builds at lines 168 and 170; proved equal in `Heatmap.LabelsOfPieces` |
| Heatmap.AcceptorLabel | ribose_analysis.py:145 | `f"{acceptor_residue}-{atom.split('-')[1]}"`, the same label the second pass builds at lines 169 and 171; proved equal in `Heatmap.LabelsOfPieces` |
| Heatmap.KeyPieces | ribose_analysis.py:142 | a key `f"{a}-{b}"` of dash-free names unpacks into `a` and `b` |
| Heatmap.DKeyPieces | ribose_analysis.py:141-142 | the four D-ribose keys unpack into two of the residue names |
| Heatmap.LKeyPieces | ribose_analysis.py:147-148 | the four L-ribose keys unpack into two of the residue names |
| Heatmap.MapKeySets | ribose_analysis.py:141-148 | `residue.split('-')` unpacks on every selected residue key |
| Heatmap.MapKeysNamed | ribose_analysis.py:141-148 | both halves of every selected residue key are residue names with a sort rank |
| Heatmap.LabelsOfPieces | ribose_analysis.py:167-169 | the labels built in the second pass are those of the first pass |
| Heatmap.EntryLabels | ribose_analysis.py:170-171 | every selected entry's labels are among the collected labels, so `.index` never fails |
| Heatmap.LabelsAddKey | ribose_analysis.py:140-151 | one more residue key adds exactly the labels of its role keys |
| Heatmap.LabelsStep | ribose_analysis.py:143-145 | one more role key adds exactly its donor and its acceptor label |
| Heatmap.CollectResidue | ribose_analysis.py:142-145 | the inner loop adds the donor and acceptor labels of every role key, and fails exactly when some role key has no `[1]` piece |
| Heatmap.CollectLabels | ribose_analysis.py:140-151 | the first pass gives exactly the donor and acceptor label sets of the selected entries, and fails exactly when an entry's `split('-')[1]` raises |
| Heatmap.Cell | ribose_analysis.py:166-172 | what `bond_data[donor_index, acceptor_index] += count` accumulates in one cell: the counts of the selected entries whose labels are that cell's; proved in `Heatmap.FillMap`, `Heatmap.CellEmpty` and `Heatmap.CellSingle` |
| Heatmap.IndexOf | ribose_analysis.py:170-171 | `.index` finds the first position holding the label |
| Heatmap.CellsStep | ribose_analysis.py:172 | adding an entry changes only the cell of its labels, by its count |
| Heatmap.AddEntry | ribose_analysis.py:172 | the `+=` keeps every cell equal to the counts of the entries added so far with that cell's labels |
| Heatmap.FillResidue | ribose_analysis.py:164-172 | the inner loop adds every role key's count to the cell of its labels, and fails exactly when some role key does not unpack into two pieces |
| Heatmap.SelectedAddKey | ribose_analysis.py:162-163 | one more residue key adds exactly its entries to those filled |
| Heatmap.FillMap | ribose_analysis.py:159-172 | a zero matrix of the axes' sizes into which every selected entry's count is added; each cell ends as its `Cell`; fails exactly when an entry does not unpack |
| Heatmap.RowTotalCells | ribose_analysis.py:159-172 | a row's first `n` cells add up to the counts of the entries labelled with that donor and one of the first `n` acceptors |
| Heatmap.RowsTotalCells | ribose_analysis.py:159-172 | the first `m` rows add up to the counts of the entries labelled with one of the first `m` donors |
| Heatmap.MatrixSumTotal | ribose_analysis.py:162-182 | the matrix entries add up to the sum of all counts under the map's residue keys |
| Heatmap.MatchDescribes | ribose_analysis.py:153-172 | the filled matrix with its sorted axes is the contact map |
| Heatmap.Describes | ribose_analysis.py:153-172 | what a finished contact map (axes and `ContactMap` matrix) holds: each axis lists its label set once in sorted order (donors ascending, acceptors descending), the matrix is `len(donors) x len(acceptors)`, each cell is its `Cell`, and the entries add up to the selected counts; established by `Heatmap.MatchDescribes` |
| Heatmap.BuildMap | ribose_analysis.py:140-172 | one map is built exactly when its entries unpack and its labels have keys, and it then has labels sorted (donors ascending, acceptors descending), cells summing the matching counts, and total equal to the selected counts |
| Heatmap.HBondHeatmap | ribose_analysis.py:130-182 | `hbond_heatmap` succeeds exactly when both maps can be drawn, and its two matrices are then the contact maps of the D-ribose and L-ribose keys |
| Heatmap.IgnoresOtherKeys | ribose_analysis.py:141-174 | keys outside a map's four (DRI-DRI, DRI-LRI, LRI-LRI, anything else) change neither its labels, cells, total nor whether it succeeds |
| Heatmap.CellNonNegative | ribose_analysis.py:159-172 | no cell is negative |
| Heatmap.CellEmpty | ribose_analysis.py:159-172 | a cell that no selected entry is labelled with stays zero |
| Heatmap.CellSingle | ribose_analysis.py:166-172 | a cell only one selected entry is labelled with holds that entry's count |
| Heatmap.RecordRoleKeyed | ribose_analysis.py:97-104 | a tally update keeps every role key two runs of digits joined by a dash |
| Heatmap.RecordFrameRoleKeyed | ribose_analysis.py:77-104 | so does a frame's worth of updates |
| Heatmap.RecordChunkRoleKeyed | ribose_analysis.py:66-104 | so does a chunk's worth |
| Heatmap.RoleKeyedDrawable | ribose_analysis.py:140-172 | with such role keys, every selected entry unpacks and every label has a sort key |
| Heatmap.ComputedTallyDrawable | ribose_analysis.py:62-182 | `hbond_heatmap` does not raise on a tally `compute_hbonds` filled from an empty dictionary |

## Left out

- `rotate` (ribose_sheet.py:37-64) is a parameter of type `Rotation`, which keeps the number of points. Its centring and trigonometry are not modelled.
- The random draws of `make_sheet_random` are parameters. These are the shuffle's exchanges (a Fisher-Yates sequence of swaps) and, per site, the jitters, height offset, axis and whole-degree angle. Their ranges are used only by `SheetRandom.SiteNearGrid`.
- Simulation.Simulate: the sheet dimensions `sh` and `sw` are natural numbers here, as are `height` and `width` in `Sheet.MakeSheet` and `SheetRandom.MakeSheetRandom`. The code reads them from the configuration without a check (ribose_sheet.py:169-170). With a negative dimension, `make_sheet` still runs: a negative `height` gives each column one copy, and a negative width adds no column. `make_sheet_random` then has numpy raise on a negative size or repeat count, so `simulate` stops before any restraint exists. The model does not cover those runs.
- `translate` returns a new sequence. The in-place `+=` on the caller's array, and any aliasing it causes, is not modelled.
- Coordinates are Dafny `real`s. Floating-point rounding and OpenMM units are not modelled.
- The following are library calls or I/O and are not modelled:
  - `load_mols`, `get_config` and the configuration reads;
  - the force field and template generator;
  - `addSolvent`, the periodic box and `createSystem`;
  - the integrator, the CUDA platform, minimisation and the reporters;
  - the PDB and trajectory output;
  - `main` in both files, with its worker pool.
- Also not modelled: `compute_heights`, `nematic_order`, `sasa`, `autocorr`, `hbond_order` and every plotting section of ribose_analysis.py. They are floating-point statistics over mdtraj calls and figures.
- `md.baker_hubbard` is replaced by its output: per frame, a sequence of (donor, hydrogen, acceptor) atom triples.
- `frame.topology` is a single function from atom index to (residue name, residue atom count), shared by every frame of a chunk.
- `Text.ParseInt`: models `int` on ASCII text with an optional sign. Python's acceptance of surrounding whitespace, `_` digit separators and non-ASCII digits is not modelled. None of these can occur in the labels the tally produces.
- The numpy `float` matrices are `array2<int>`. Their entries are sums of integer counts, so no rounding occurs at realistic sizes.
- Dictionary and set iteration order is not modelled. Every loop over `items()`, `keys()` or a set takes an arbitrary remaining element, so each proved property holds for every order.
- `LabelSort.SortLabels`: labels with equal keys (e.g. `DRI-5` and `DRI-05`) come out in an unspecified relative order. Python's stable sort keeps the set's iteration order for them. Labels built from a `compute_hbonds` tally never tie. By `LabelSort.LabelKey`, such a label's key is (rank of its residue, minus its role). The four residue names differ (`HBonds.NamesDistinct`), so their ranks do too, and two different labels get different keys.
- `Heatmap.HBondHeatmap`:
  - The D-ribose and L-ribose maps are built one after the other. The code interleaves them within each of its passes.
  - Any exception aborts the whole call, so success means the same in both: both maps can be drawn.
  - Which exception is raised, and where, is reported only as `ok == false`.
- `Heatmap.HBondHeatmap`: the figure (`imshow`, ticks, labels, `show`) is not modelled.

