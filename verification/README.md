# cellmech link remodeling, modelled in Dafny

cellmech simulates cells as nodes joined by elastic links. Between mechanical
relaxations, the *remodeling* step changes the link graph in three stages:

1. It removes links until no two link segments cross (`checkLinkX`).
2. It builds a list of links that may be removed and a list of node pairs
   that may be linked (`delLinkList`, `tryLink`, `addLinkList`).
3. It picks one event with Gillespie's direct method (`pickEvent`) and
   carries it out through the link store (`addlink`, `removelink`).

This project models that link-graph and remodeling logic for the main variant
(`cell.py`) and for the earlier variant (`cell2.py`).

Modules, one per file:

- `Vectors` (vectors.dfy): 3-vectors, 3x3 matrices and `Option`. The
  floating-point helpers become fields of a `Numerics` value passed in by the
  caller: the rotation matrix (cos/sin), normalisation, the Euclidean norm
  (sqrt) and `exp`.
- `Geometry` (geometry.dfy): the strict turn test `ccw` and the two segment
  crossing tests:
  - `intersect` (cell2.py), whose proximity guards reject a distance below 0.01;
  - the vectorised test of `intersect_all` / `intersect_withone` (cell.py),
    which accepts only distances above 0.01.

  Distances are compared squared against 0.0001.
- `Links` (links.dfy): links as index pairs; the row-major order of
  `np.where` and `np.unique`; `np.where` over a 2-D array; the "first index
  greater" filter of `getLinkList`.
- `Store` (store.dfy): the classes `NodeConfiguration` and
  `SubsConfiguration` of cell.py. Their N x N (or N x Nsubs) arrays are Dafny
  `array2` fields that `AddLink` and `RemoveLink` update in place. Each
  contract states the new value of every entry.
- `Greedy` (greedy.dfy): greedy crossing resolution, with two tie-breaks:
  - `SortedFirst`: `np.unique` followed by `argmax`, as in cell.py;
  - `SeenFirst`: the first link met, standing in for `max` over a `Counter`
    in cell2.py. Python 2 leaves the order of a dictionary, and so the
    tie-break of that `max`, unspecified; this is one choice it may make.

  `GreedyDeletes` specifies the result, and `ResolveCrossings` is the
  `while` loop proved against it.
- `Gillespie` (gillespie.dfy): the rate sums, the waiting-time test and the
  cumulative-sum walks of `pickEvent`. The two random draws are parameters.
- `CellMech` (cellmech.dfy): the class `CellMech` of cell.py, covering
  `getLinkList`, `getLinkTuple`, `intersect_all`, `intersect_withone`,
  `checkLinkX`, `delLinkList`, `tryLink`, `addLinkList`, `pickEvent` and
  `modlink`. It also holds the pair normalisation of `VoronoiNeighbors`.
- `Cell2` (cell2.dfy): the class `Configuration` of cell2.py, covering
  `addlink`, `removelink`, `getLinkList`, `checkLinkX`, `tryLink`,
  `addLinkList` and `pickEvent`.

Floating-point numbers are modelled as exact reals. The random draws are
parameters of the members that use them:

- `wait` is `-log` of the first uniform draw of `pickEvent`;
- `u` is the second uniform draw of `pickEvent`.

Simplex lists are also parameters. Where cell2.py cannot run as written,
the model follows the evident intent, as listed below.

## Model

| member | source | states |
|---|---|---|
| Geometry.Ccw | cell.py:50-52 | the turn test holds exactly when the signed area of the projected triangle is positive, so it is strict |
| Geometry.Intersect | cell2.py:44-51 | `intersect` reports a crossing only for segments whose endpoints a-c, a-d and b-c differ and that straddle each other |
| Geometry.LinksCross | cell.py:556-576 | the vectorised test of `intersect_all` and `intersect_withone` reports a crossing only under the same two conditions |
| Geometry.CcwTrichotomy | cell2.py:20-21 | for collinear points neither order turns counter-clockwise; otherwise exactly one of the two orders of b and c does |
| Geometry.CcwCyclic | cell.py:50-52 | rotating the three points leaves the turn unchanged |
| Geometry.IntersectSymmetric | cell2.py:44-51 | `intersect` and the vectorised test give the same answer when the two segments are swapped |
| Geometry.SharedEndpointNeverCrosses | cell2.py:44-51 | segments that share an endpoint are never reported as crossing, by either test |
| Geometry.LinksCrossVersusIntersect | cell.py:556-576 | the vectorised test implies `intersect`, and the two agree except when a guarded distance is exactly 0.01 |
| Geometry.StraddlesInGeneralPosition | cell2.py:51 | with no three points collinear, the straddle test is the textbook one (each segment strictly separates the other's endpoints) and does not depend on endpoint order |
| Geometry.TouchingDependsOnOrder | cell2.py:51 | a concrete touching configuration is reported for one endpoint order of a segment and not for the other |
| Links.Indices | cell.py:540 | `np.where`: exactly the entries that pass the test, in strictly increasing row-major order |
| Links.UpperFirst | cell.py:541 | keeps exactly the pairs whose first index is greater, and keeps row-major order |
| Store.NormalAxisSound | cell.py:198-202 | the default normal axis is perpendicular to the link direction, and for a unit direction the fallback axis is never degenerate |
| Store.SetBendTwist | cell.py:178-181 | a supplied bend goes to both entries; a supplied twist goes to twist[mi, ni] and then overrides bend[ni, mi]; nothing else changes |
| Store.NodeConfiguration.constructor | cell.py:113-159 | no links: k = 0, d0 = 0, d = 0, bend = 10, twist = 1, every vector and node position zero; only 2 or 3 dimensions and at least one node are accepted (the source computes 1 / N) |
| Store.NodeConfiguration.AddLink | cell.py:172-207 | flags the pair both ways; sets k (15 if omitted) and d0 (current d if omitted) both ways; applies the bend/twist writes; stores the rotated tangents and normals of both ends; Flink, Mlink and every other entry are unchanged; symmetry of islink, k and d0 is kept |
| Store.NodeConfiguration.RemoveLink | cell.py:209-213 | clears the flag and zeroes Flink, Mlink, t, norm, k and d0 in both directions; bend and twist and every other pair are unchanged; symmetry is kept |
| Store.LinkLifecycle | cell.py:172-213 | `addlink` then `removelink` on a pair leaves it unflagged with k, d0, t, norm, Flink and Mlink zero, for any parameters, and no other pair changes |
| Store.NodeConfiguration.LinkedEntries | cell.py:223 | the index selection of `compactStuffINeed`: exactly the flagged entries, in row-major order |
| Store.NodeConfiguration.LinkedEntriesBothWays | cell.py:223 | with a symmetric flag array an entry is selected exactly when its transpose is |
| Store.NodeConfiguration.Compact | cell.py:221-232 | one record per selected entry, in selection order, holding that entry's t, norm, bend, twist, k, d0 and the transposed normal |
| Store.NodeConfiguration.CompactTransposePartner | cell.py:226 | with a symmetric flag array, the transposed normal of each record is the normal of the record for the reverse entry, and vice versa |
| Store.SubsConfiguration.constructor | cell.py:282-322 | no cell-substrate links: k = 0, d0 = 0, d = 0, bend = 10, twist = 1, the direction, both tangents, both normals, both torques, the force and the substrate positions and orientations all zero; only 2 or 3 dimensions are accepted |
| Store.SubsConfiguration.AddLink | cell.py:324-356 | sets one directed entry: flag, k (15 if omitted), bend and twist if supplied, d0 (current d if omitted), and the cell and substrate tangents (t1 at both ends if supplied, else e and -e) and normals; nothing else changes |
| Store.SubsConfiguration.RemoveLink | cell.py:358-362 | clears the flag and zeroes force, both torques, both tangents, both normals, k and d0 of the entry; bend and twist stay and nothing else changes |
| Greedy.Flat | cell.py:622 | the reshape into a link list: two links per clash, in order; a link occurs in it exactly when some clash involves it |
| Greedy.Pick | cell.py:622-625 | the link picked in a round occurs in some remaining clash |
| Greedy.Best | cell.py:624-625 | the chosen position has the greatest count; with `SortedFirst` no equally counted link comes earlier in row-major order; with `SeenFirst` every earlier position has a strictly smaller count |
| Greedy.PickMostFrequent | cell.py:622-625 | the picked link occurs in the most remaining clashes, with ties going to the first in row-major order (`np.unique` + `argmax`) or to the first met (`SeenFirst`, the choice made for `max` over a `Counter`, whose tie-break is unspecified) |
| Greedy.Without | cell.py:627-632 | keeps exactly the clashes that do not involve the pick; it is strictly shorter when the pick occurs in some clash, so the loop terminates |
| Greedy.GreedyDeletes | cell.py:619-632 | the deletions of the `while` loop: at least one link is deleted whenever a crossing pair exists; the lemmas below state the rest |
| Greedy.DropInvolving | cell.py:627-632 | the filtering loop computes `Without` |
| Greedy.CoveredBy | cell.py:621-632 | every clash loses at least one of its links to some round |
| Greedy.GreedyCovers | cell.py:618-634 | every crossing pair found at the start contains a deleted link |
| Greedy.GreedyOnlyClashing | cell.py:618-634 | only links that occur in some crossing pair are deleted |
| Greedy.GreedyDistinct | cell.py:618-634 | no link is deleted twice, and there are no more deletions than crossing pairs |
| Greedy.GreedySound | cell.py:618-634 | the three facts above together |
| Greedy.ResolveCrossings | cell.py:619-632 | the `while` loop returns the greedy deletion list: it covers every crossing pair, has no repeats and holds only clashing links |
| Gillespie.SumMonotone | cell.py:668-673 | with non-negative rates the running sums are non-negative and never decrease |
| Gillespie.Rates | cell.py:669-673 | one rate p * rate per candidate, all non-negative when the rate and the propensities are |
| Gillespie.Total | cell.py:668-670 | the accumulating loop computes the sum of the rates, which is non-negative for non-negative rates |
| Gillespie.FirstAbove | cell.py:686-690 | the first position whose running sum exceeds r, or -1 when there is none |
| Gillespie.FirstAboveInterval | cell.py:684-690 | for r in [0, total) the walk always stops, at the position whose interval of the cumulative sum contains r |
| Gillespie.Walk | cell.py:686-690 | the decrementing loop stops at `FirstAbove`, leaving r0 minus the running sum |
| Gillespie.Select | cell.py:675-697 | a removal index is within the removal list, and an addition index is within the addition list |
| Gillespie.Decide | cell.py:684-697 | the chosen indices are in range and carry the waiting time |
| Gillespie.DecideSound | cell.py:684-697 | for r in [0, s1 + s2): never a fall-through; a removal exactly when r < s1; the chosen entry's cumulative interval contains r (for an addition, r - s1) |
| Gillespie.SelectSound | cell.py:667-697 | "nothing to do" (1.0 returned) exactly when S < 1e-7 or the waiting time exceeds 1; otherwise, with u in [0, 1), r = S * u lies in [0, S) and exactly one event is chosen |
| Gillespie.ChooseEvent | cell.py:667-697 | the loops of `pickEvent` compute `Select` |
| Gillespie.Decision | cell.py:675-682 | the two early returns and the walks compute `Select` |
| Gillespie.WalkBoth | cell.py:684-697 | the two walking loops compute `Decide` |
| CellMech.NoSelfCrossing | cell.py:556-576 | a link never crosses itself |
| CellMech.CrossesAny | cell.py:584-616 | `intersect_withone` over a link list: a segment from a node to itself never crosses anything |
| CellMech.CrossesAnyVersusClashes | cell.py:548-616 | for a link of a row-major list, `intersect_withone` reports a crossing exactly when the link occurs in a pair of `intersect_all` |
| CellMech.ClashRow | cell.py:575-580 | one row of the upper triangle: only crossing pairs of links of the list, ordered when the list is, every crossing pair of the row present, none twice, and none with a second link before the row |
| CellMech.ClashesFrom | cell.py:575-580 | the upper triangle from a given row on: only crossing pairs, all of them, none twice, and none whose first link lies before that row |
| CellMech.Clashes | cell.py:548-582 | `intersect_all`: only pairs of distinct links of the list that cross, each in row-major orientation, and no pair twice when the list is in row-major order |
| CellMech.ClashesComplete | cell.py:548-582 | every crossing pair of links of a row-major list is reported |
| CellMech.NoClashesLeft | cell.py:618-634 | when the deletions meet every crossing pair, what is left has no crossing pair |
| CellMech.Normalize | cell.py:103-107 | the pair with the smaller index first, holding the same two vertices |
| CellMech.VoronoiNeighbors | cell.py:101-109 | every pair in the set has i <= j |
| CellMech.VoronoiPair | cell.py:101-109 | two distinct vertices of a simplex give one pair, the same in either order, with the smaller index first |
| CellMech.VoronoiStrict | cell.py:101-109 | when no simplex repeats a vertex, every pair has i < j |
| CellMech.SelectedEvent | cell.py:667-697 | the event chosen from the candidate lists names an entry of the right list |
| CellMech.SelectedEventActs | cell.py:667-697 | with non-negative rates and u in [0, 1) the event is "nothing to do" exactly when S < 1e-7 or the waiting time exceeds 1, and it is never a fall-through |
| CellMech.TimeTaken | cell.py:675-697 | the value `pickEvent` returns: nothing exactly for a fall-through, 1.0 when idle, the waiting time otherwise |
| CellMech.CellMech.constructor | cell.py:434-466 | a fresh store with the given parameters and the initial state of `NodeConfiguration`: no links, k = 0, d0 = 0, d = 0, bend = 10, twist = 1, every vector and node position zero; at least one cell is required (the source computes 1 / N) |
| CellMech.CellMech.LinkList | cell.py:539-541 | exactly the flagged entries [a, b] with a > b, in row-major order |
| CellMech.CellMech.LinkListOncePerPair | cell.py:539-541 | with a symmetric flag array each linked pair of distinct nodes appears exactly once, higher index first |
| CellMech.CellMech.LinkTuple | cell.py:543-546 | the same links as two index columns |
| CellMech.CellMech.IntersectAll | cell.py:548-582 | `intersect_all` on the store: only pairs of current links (higher index first), in row-major orientation, that cross, with no pair twice |
| CellMech.CellMech.IntersectWithOne | cell.py:584-616 | true exactly when some current link [p, q], p > q, crosses the segment n1-n2 |
| CellMech.CellMech.NoLinkCrossesAny | cell.py:584-634 | once `intersect_all` finds nothing, `intersect_withone` reports no crossing for any current link |
| CellMech.CellMech.RemoveAll | cell.py:633-634 | after the removal loop a pair is linked exactly when it was linked before and neither orientation was deleted; each deleted pair has Flink, Mlink, t, norm, k and d0 zeroed both ways, bend and twist stay, and nothing else changes; symmetry is kept |
| CellMech.CellMech.CheckLinkX | cell.py:618-634 | the links removed are exactly those the greedy loop picks from the crossing pairs of the old store (ties to the first in row-major order), in both orientations, with their force, torque, tangents, normals, k and d0 zeroed; afterwards no two links cross, and the flag array stays symmetric |
| CellMech.CellMech.RemovePicked | cell.py:633-634 | removing the picked links leaves only links of the old list that were not picked, zeroes the removed pairs' vectors, k and d0, and removes only links that occur in a crossing pair |
| CellMech.CellMech.NoClashesAfter | cell.py:618-634 | when every remaining link was in the old list and was not picked, and the picks cover the crossing pairs, no crossing pair is left |
| CellMech.CellMech.DelCandidates | cell.py:636-645 | removal candidates name nodes of the store, at most one per link |
| CellMech.CellMech.DelCandidatesMembers | cell.py:636-645 | the removal candidates are exactly the listed links that are not compressed (d >= d0), with propensity exp(\|Flink\| / force_limit) |
| CellMech.CellMech.DelLinkList | cell.py:636-645 | the append loop over the current links computes `DelCandidates` |
| CellMech.CellMech.TryLink | cell.py:647-656 | -1 for an already-linked pair, for a pair that crosses a link when dims == 2, or for a pair farther apart than d0max; otherwise the distance |
| CellMech.CellMech.AddCandidates | cell.py:658-665 | addition candidates name nodes of the store, at most one per neighbour pair |
| CellMech.CellMech.AddCandidatesMembers | cell.py:658-665 | the addition candidates are exactly the neighbour pairs that `tryLink` accepts with d > 1e-5, with propensity 1 - d / d0max |
| CellMech.CellMech.AddCandidatesInRange | cell.py:658-665 | every addition candidate is unlinked, has 1e-5 < d <= d0max, and has a propensity in [0, 1) |
| CellMech.CellMech.AddLinkList | cell.py:658-665 | the append loop computes `AddCandidates` |
| CellMech.CellMech.ApplyEvent | cell.py:684-697 | returns 1.0 for an idle event, the waiting time for a removal or an addition, nothing for a fall-through; idle and fall-through change nothing; a removal unlinks exactly the chosen pair (vectors, k and d0 zeroed, bend and twist kept); an addition links exactly the chosen pair with k = 15 and d0 = d, tangents and normals from the rotated link direction, bend, twist, force and torque untouched |
| CellMech.CellMech.PickEvent | cell.py:667-697 | as `ApplyEvent`, for the event `Select` chooses from the rates of the two lists; at most one pair changes and symmetry is kept |
| CellMech.CellMech.ModLink | cell.py:705-712 | without crossing resolution: the candidate lists are those of `delLinkList` and `addLinkList` on the old store, the time returned and the effect are those of the event chosen from them, and at most one pair changes; with it: each removal candidate is an old link that survived crossing resolution; always at most one pair was added and every addition candidate is a neighbour pair |
| Cell2.MeetsRow | cell2.py:266-268 | the crossing pairs of one link with the links after it: only crossing pairs of links of the list, all of them, and none twice |
| Cell2.MeetsFrom | cell2.py:266-268 | the crossing pairs among `combinations` from a given link on: only crossing pairs, all of them, and none twice |
| Cell2.Crossings | cell2.py:263-268 | the list `Xs`: only crossing pairs of links of the list, each in list order, and no pair twice when the list is in row-major order |
| Cell2.CrossingsComplete | cell2.py:266-268 | every pair of links of a row-major list that crosses, in either orientation of `intersect`, is reported |
| Cell2.NeverMeetsItself | cell2.py:44-46 | a link never meets itself |
| Cell2.NoCrossingsLeft | cell2.py:262-279 | when the deletions meet every crossing pair, no two remaining links cross in either order |
| Cell2.FreeTangent | cell2.py:163-170 | a supplied tangent is normalised but not rotated; an omitted one is the rotated link direction |
| Cell2.FreeTangentVersusTangent | cell2.py:163-170 | this differs from the main variant only by the missing rotation of a supplied tangent |
| Cell2.Acceptance | cell2.py:291-300 | -1 when the pair crosses an existing link (in any dimension) or is farther apart than d0max; otherwise the distance |
| Cell2.AddCandidates | cell2.py:302-310 | addition candidates name nodes of the store, at most one per pair tried |
| Cell2.AddCandidatesMembers | cell2.py:302-310 | the addition candidates are exactly the accepted pairs with d > 1e-5, with propensity 1 - d / 2 |
| Cell2.AddCandidatesBounds | cell2.py:302-310 | every candidate has 1e-5 < d <= d0max and a propensity in [1 - d0max / 2, 1) |
| Cell2.Configuration.constructor | cell2.py:102-141 | no links: k = 0, d0 = 0, d = 0, bend = 10, twist = 1, every vector and node position zero, and the given parameters |
| Cell2.Configuration.AddLink | cell2.py:143-181 | as the main variant's `addlink`, except that a supplied tangent is stored normalised but not rotated; Flink, Mlink and every other entry are unchanged; symmetry of islink, k and d0 is kept |
| Cell2.Configuration.RemoveLink | cell2.py:183-188 | clears the flag and zeroes Flink and Mlink in both directions only; k, d0, t, norm, bend and twist stay; symmetry is kept |
| Cell2.StaleParameters | cell2.py:183-188 | after `addlink` then `removelink` the pair is unlinked, but k and d0 still hold the values it was added with |
| Cell2.Configuration.LinkList | cell2.py:258-260 | exactly the flagged entries [a, b] with a > b, in row-major order |
| Cell2.Configuration.RemoveAll | cell2.py:278-279 | after the removal loop a pair is linked exactly when it was before and neither orientation was deleted; the deleted pairs have Flink and Mlink zeroed and nothing else changes |
| Cell2.Configuration.CheckLinkX | cell2.py:262-279 | the links removed are exactly those the greedy loop picks from the crossing pairs `Xs` of the old store (ties to the first met), in both orientations, with force and torque zeroed; afterwards no two links meet, and the flag array stays symmetric |
| Cell2.Configuration.RemovePicked | cell2.py:278-279 | only links of the old list that were not picked are left, the removed pairs' force and torque are zeroed, and only links from crossing pairs were removed |
| Cell2.Configuration.NoMeetsLeft | cell2.py:262-279 | when the picks cover the crossing pairs, no two remaining links meet |
| Cell2.Configuration.TryLink | cell2.py:291-300 | the early-return loop computes `Acceptance` |
| Cell2.Configuration.Near | cell2.py:304 | exactly the entries with d < d0max, in row-major order |
| Cell2.Configuration.AddLinkList | cell2.py:302-310 | computes `AddCandidates` over the near pairs |
| Cell2.Configuration.CollectAdditions | cell2.py:305-309 | the append loop computes `AddCandidates` |
| Cell2.Configuration.ApplyEvent | cell2.py:329-342 | returns 1.0 for an idle event and the waiting time for an event; idle and fall-through change nothing; a removal unlinks exactly the chosen pair, zeroes its force and torque and keeps its parameters; an addition links exactly the chosen pair with k = 15 and d0 = d and the rotated link direction as tangents, leaving bend, twist, force and torque as they were |
| Cell2.Configuration.PickEvent | cell2.py:312-342 | as `ApplyEvent`, for the event `Select` chooses from the rates of the two lists; exactly the chosen pair flips, so at most one pair changes |

## Left out

- Forces, torques and relaxation are not modelled: `updateLinkForces2D`/`3D`, `getForces`, `mechEquilibrium_nosubs`/`_withsubs`, `oneequil` and cell2's `updateLinkForces`/`mechEquilibrium`. They are floating-point vector numerics and RK4 integration.
- `updateDists` is not modelled. The distances `d` and directions `e` are store fields that the model reads but never computes.
- `getRotMat`, `getRotMatArray`, `getNormvec`, `getNormtoo`, `exp`, `log`, `sqrt` and `npr.random` are not computed. Their results enter through `Numerics` and through the `wait` and `u` parameters.
- `VoronoiNeighbors` is modelled only from the simplices on: the `Delaunay` triangulation is a foreign library call, so the simplex list is an input.
- The neighbour pairs of `addLinkList` are an input (`nbrs`), both their content and their order. The source computes them from a Delaunay triangulation (scipy's `Delaunay`, a foreign call; `CellMech.VoronoiNeighbors` models only the pairing of each simplex's vertices) and iterates over them as a Python set, whose order is unspecified.
- `default_update_d0` (random drift of d0) is not modelled. CellMech.CellMech.ModLink therefore ends after `pickEvent`.
- I/O and driver code are not modelled: `update_progress`, `makesnap`, `savedata`, `timeevo`, `print`, and the test script test_bilayer.py.
- `SubsConfiguration.compactStuffINeed` is not modelled, nor the cell-substrate link handling in relaxation.
- In `CellMech`, the substrate configuration is not a field of the class, because no remodeling step touches it.
- cell2's `compactStuffINeed`, `getForces` and `delLinkList` are not modelled, because the first two are broken. cell2's removal list has the same shape as the main variant's.
- Floating-point rounding is not modelled: numbers are exact reals. As a result:
  - the 0.01 guards are compared squared;
  - the Gillespie walk provably always stops (`Gillespie.DecideSound`), whereas in floating point it could fall through.

  The fall-through is still modelled, as the event `FellThrough` (the source then returns `None`).
- CellMech.CellMech.DelCandidates requires force_limit != 0, because the source divides by it.
- The cell2 constructor calls `np.ones(self.N, self.N)` (cell2.py:135-136), which raises. Cell2.Configuration.constructor allocates the N x N arrays of 10 and 1 that are evidently meant.
- cell2's tests `self.islink is True` (cell2.py:259, 292) never hold for an array. In `getLinkList` the two-name unpacking of `np.where(False)`, a one-element tuple, then raises, so the function fails as written:
  - Cell2.Configuration.LinkList models the evidently intended selection of flagged entries, as in cell.py;
  - Cell2.Acceptance models the test as written: no pair is rejected for being linked already.
- cell2's `Counter` over numpy rows (cell2.py:272) cannot hash its keys. Links are modelled as integer pairs. The `Counter`'s tie-break follows Python 2 dictionary order, which is unspecified; the model breaks ties towards the first link met (`SeenFirst`).
- Cell2.Configuration.TryLink: returns only the distance. The normalised direction `e` that the source also returns is never used by its caller.
- The constructors do not model the per-node arrays (`Fnode`, `Mnode`, `F0`, `X0`, `knode`), the `nodesum` choice or the snapshot lists.
- Cell2.Configuration.CheckLinkX: promises removal of exactly the links picked with ties going to the first link met (`SeenFirst`); with another tie order the source may remove a different set of links, possibly of a different size (for the clash path L0-L1, L1-L2, L2-L3, L3-L4 the first-met rule removes L1 and L3, while picking L2 first removes three links).
- CellMech.CellMech.ModLink: with crossing resolution on, only the membership of the removal and addition candidates, the returned time and "at most one pair added" are promised, not the event's full effect relative to the store before the call; that effect follows from `CheckLinkX` and `PickEvent`, which state it for their own calls. The candidate lists are the values of `DelCandidates` and `AddCandidates`, which `DelLinkList` and `AddLinkList` are proved to compute; the lists are returned as ghost results.
