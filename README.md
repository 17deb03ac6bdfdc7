# Regular polytopes, Conway operators and a chaos trail, modelled in Dafny

This project models the computational core of a set of browser labs about polyhedra,
4-dimensional polytopes and chaotic systems, and proves properties of that model. It covers
these parts:

- **The 4-D polytope engine** (`polytope-xd`):
  - the vector helpers and the `toFixed`-keyed deduplication;
  - the registry of V/E/F/C counts and duals;
  - the memoising `getPolytope` cache (a class with a map field);
  - the 5-cell, tesseract, 16-cell and 24-cell builders, and the combinatorial part of the
    600-cell builder (even-permutation table, sign expansion, closing triangles into cells);
  - the 120-cell flags and `buildAdj`;
  - the tesseract net positions;
  - the six plane rotations with their fixed order, and the two central projections;
  - the cubic convex-hull triangulator and the cell-edge remap of the cell mesh;
  - the hyperplane slicer and the slice analysis.
- **The older 4-D variant** (`platonic-lab/js/polytopes4d.js`): its builders, the relative
  threshold edge finder, the four-plane rotation and the projections with their default view
  distance.
- **The Conway operators** (`platonic-lab/js/conway.js`):
  - the seeds, `dual`, `ambo`, `truncate`, `expand` and `snub`, built on the memoised
    edge-vertex tables;
  - `orientFace` and the angular orderings;
  - the fan triangulation and the edge walk of the buffer conversions;
  - `getInfo`'s V/E/F/Euler counts;
  - `interpolateVertices`.
- **3-D cross-sections** (`platonic-lab/js/cross-section.js`): triangle–plane intersection,
  greedy chaining of segments into a polygon, projection onto the plane, the polygon metrics
  and the polygon names.
- **The binary STL serialiser** (`platonic-lab/js/stl-exporter.js`): triangle extraction,
  scaling, and the exact byte layout of the buffer, written through a running offset into an
  array.
- **The ChaosLab trail and analyzer** (`chaos-lab/js/renderer.js`,
  `chaos-lab/js/analyzer.js`):
  - the trail is a class over three arrays, with the overflow shift, the append loop, the
    colour modes, fading and reset;
  - the analyzer covers trajectory statistics, parameter merging, the state check and the
    unknown-system guards.
- **The Platonic-solid lookups** (`platonic-lab/js/geometry.js`): the solids table (its
  counts, names and duals, and its metric coefficients with the corrections assigned after
  the literal), the construction steps, the dual scales, the net data and the morph loop.

Modelling conventions:

- **Numbers.** Coordinates are `real`.
- **Transcendentals.** `Math.sqrt`, `cos`/`sin` and `Math.atan2` are function parameters.
  - A square root is assumed only through the predicate `RealMath.IsSqrt`: a non-negative
    result whose square is its argument.
  - Rotations assume cos² + sin² = 1 where they need it.
- **Dedup keys.** The `toFixed` key of the deduplications is a parameter.
- **Float encoding.** The float32 encoding of the STL writer is a parameter returning four
  bytes.
- **JavaScript failures.** Where the source would throw (an undefined dereference), the
  operation has a precondition. The one exception is the 120-cell builder, which returns
  `None` (see "Left out"). Where the source quietly goes on (a missing key, an empty list,
  a typed-array write past the end), the model follows it.
- **Loops.** Each loop in the source is a `method` with a `while` loop. Each such method is
  proved equal to a specification function, and the lemmas beside it state the source's
  promises about that function.

Each source file is one or more modules:

| module | models |
|---|---|
| `Wrappers`, `RealMath`, `NumberText`, `KeySort`, `Polygon2D`, `PairLoops`, `FirstOccurrence`, `MinSearch` | shared helpers: options, real arithmetic facts, decimal text, stable sort by key, shoelace sums, the `i < j` pair loops, first-occurrence filters, minimum search |
| `Vectors`, `Dedup`, `PolytopeRegistry`, `PolytopeCacheModule`, `PolytopeBuilders`, `SixteenCell`, `TwentyFourCell`, `SixHundredCell`, `Cliques`, `OneTwentyCell`, `TesseractNet`, `PlaneRotation`, `View4D`, `ConvexHull`, `CellMesh` | `polytope-xd/js/polytopes.js` |
| `Slicer`, `HyperplaneBasis`, `SliceAnalysis` | `polytope-xd/js/slicer.js` |
| `Platonic4D`, `PlatonicView` | `platonic-lab/js/polytopes4d.js` |
| `ConwayPoly`, `ConwayInfo`, `Memo`, `ConwayAmbo`, `ConwayDual`, `ConwayTruncate`, `ConwaySnub` | `platonic-lab/js/conway.js` |
| `CrossSection` | `platonic-lab/js/cross-section.js` |
| `StlExport` | `platonic-lab/js/stl-exporter.js` |
| `ChaosTrail` | `chaos-lab/js/renderer.js` |
| `ChaosAnalyzer` | `chaos-lab/js/analyzer.js` |
| `PlatonicGeometry` | `platonic-lab/js/geometry.js` |

## Model

| member | source | states |
|---|---|---|
| `Vectors.Normalize4` | polytope-xd/js/polytopes.js:10-12 | a vector whose length is not positive normalises to the zero vector |
| `Vectors.Normalize4Unit` | polytope-xd/js/polytopes.js:10-12 | a vector with positive squared length normalises to the unit vector `v / len(v)` pointing the same way |
| `Vectors.Normalize4Zero` | polytope-xd/js/polytopes.js:12 | the zero vector normalises to itself |
| `Vectors.Normalize3` | polytope-xd/js/polytopes.js:22-23 | a 3-vector whose length is not positive normalises to the zero vector |
| `Vectors.CrossPerpendicular` | polytope-xd/js/polytopes.js:25-27 | the cross product is orthogonal to both factors |
| `Vectors.CrossAntisymmetric` | polytope-xd/js/polytopes.js:25-27 | swapping the factors negates the cross product |
| `Dedup.Dedup4Loop` | polytope-xd/js/polytopes.js:29-37 | the loop with its `seen` set returns the first-occurrence deduplication of the input by the key |
| `Dedup.Dedup4Properties` | polytope-xd/js/polytopes.js:29-37 | the kept points are input points, no two share a key, and the set of keys is unchanged |
| `Dedup.FirstOccurrenceKept` | polytope-xd/js/polytopes.js:32-35 | the first point carrying a key is the one kept |
| `Dedup.DistinctKeysKeepAll` | polytope-xd/js/polytopes.js:29-37 | when no key repeats, nothing is removed |
| `PolytopeRegistry.KeyRoundTrip` | polytope-xd/js/polytopes.js:41-48 | every registry key string looks up its own entry |
| `PolytopeRegistry.RegistryEuler` | polytope-xd/js/polytopes.js:41-48 | every entry satisfies V - E + F - C = 0 |
| `PolytopeRegistry.RegistryDuals` | polytope-xd/js/polytopes.js:41-48 | duality is an involution and swaps V with C and E with F |
| `PolytopeRegistry.RegistrySchlafliReversed` | polytope-xd/js/polytopes.js:41-48 | the dual's Schläfli symbol is the reversed symbol |
| `PolytopeCacheModule.PolytopeCache.constructor` | polytope-xd/js/polytopes.js:52 | the cache starts empty |
| `PolytopeCacheModule.PolytopeCache.Get` | polytope-xd/js/polytopes.js:54-59 | a cached key returns its entry and leaves the table unchanged; otherwise the builder's result is stored under the key; no existing entry changes, and only the key itself and (for the 120-cell) the 600-cell can be added |
| `PolytopeCacheModule.PolytopeCache.Build120` | polytope-xd/js/polytopes.js:261-287 | building the 120-cell fetches (and if needed stores) the 600-cell through the table, changes no other entry, and the result has no cells |
| `PolytopeCacheModule.OneTwentyEntryShape` | polytope-xd/js/polytopes.js:261-287 | a stored 120-cell has `cells = []` and `hasCells = false` |
| `PolytopeCacheModule.StoreKeepsOk` | polytope-xd/js/polytopes.js:56-58 | storing a built entry keeps every entry equal to its key's builder result |
| `PolytopeBuilders.Build5Cell` | polytope-xd/js/polytopes.js:61-83 | the builder's loops produce the 5-cell specification |
| `PolytopeBuilders.FiveCellEdges` | polytope-xd/js/polytopes.js:70-73 | the edges are exactly the ten pairs `i < j < 5`, in loop order |
| `PolytopeBuilders.FiveCellCellsExcept` | polytope-xd/js/polytopes.js:75-80 | cell `k` is the tetrahedron on every index except `k` |
| `PolytopeBuilders.AllPairsCount` | polytope-xd/js/polytopes.js:71-73 | the all-pairs loop emits `n(n-1)/2` pairs |
| `PolytopeBuilders.BuildTesseract` | polytope-xd/js/polytopes.js:85-114 | the builder's loops produce the tesseract specification |
| `PolytopeBuilders.TesseractVertexLoops` | polytope-xd/js/polytopes.js:86-91 | the four sign loops produce the sixteen `(±½, ±½, ±½, ±½)` vertices in loop order |
| `PolytopeBuilders.TesseractEdgeLoops` | polytope-xd/js/polytopes.js:93-100 | the edge loops keep exactly the pairs with one coordinate differing by more than 0.01 |
| `PolytopeBuilders.TesseractCellLoops` | polytope-xd/js/polytopes.js:102-111 | the cell loops collect, per axis and sign, the indices on that facet |
| `PolytopeBuilders.TesseractVertexBits` | polytope-xd/js/polytopes.js:86-91 | coordinate `k` of vertex `i` is +½ iff bit `k` of `i` is set, else -½ |
| `PolytopeBuilders.TesseractEdgesHamming` | polytope-xd/js/polytopes.js:93-100 | the edges are exactly the index pairs differing in one bit, strictly ordered |
| `PolytopeBuilders.TesseractEdgeCount` | polytope-xd/js/polytopes.js:93-100 | there are 32 edges |
| `PolytopeBuilders.TesseractNeighbours` | polytope-xd/js/polytopes.js:93-100 | `x` is a neighbour of `v` iff some edge joins them |
| `PolytopeBuilders.TesseractDegree` | polytope-xd/js/polytopes.js:93-100 | every vertex has degree 4 |
| `PolytopeBuilders.TesseractCells` | polytope-xd/js/polytopes.js:102-111 | cell `2·axis + s` is the cube of the 8 indices whose bit `axis` is set (s = 0) or clear (s = 1) |
| `SixteenCell.Build16Cell` | polytope-xd/js/polytopes.js:116-138 | the builder's loops produce the 16-cell specification |
| `SixteenCell.SixteenVertexLoops` | polytope-xd/js/polytopes.js:117-121 | the axis and sign loops produce the eight unit axis vectors in loop order |
| `SixteenCell.SixteenCellLoops` | polytope-xd/js/polytopes.js:129-135 | the four 0/1 loops produce the sixteen cells `[a, 2+b, 4+c, 6+d]` |
| `SixteenCell.SixteenVertexAxes` | polytope-xd/js/polytopes.js:117-122 | vertex `2a+s` is -1 (s = 0) or +1 (s = 1) on axis `a` and 0 elsewhere |
| `SixteenCell.SixteenDistSq` | polytope-xd/js/polytopes.js:124-127 | two vertices are at squared distance 0, 4 (opposite) or 2 |
| `SixteenCell.SixteenKeepIsNotOpposite` | polytope-xd/js/polytopes.js:124-127 | the `dist < 1.5` test keeps exactly the non-opposite pairs |
| `SixteenCell.SixteenEdges` | polytope-xd/js/polytopes.js:124-127 | the edges are all pairs `i < j < 8` except `{2a, 2a+1}`, strictly ordered, 24 of them |
| `SixteenCell.SixteenCellsTransversal` | polytope-xd/js/polytopes.js:129-135 | cell `q` takes exactly one vertex from each opposite pair, chosen by the bits of `q` |
| `SixteenCell.SixteenCellsDistinct` | polytope-xd/js/polytopes.js:129-135 | different cells have different vertex lists |
| `TwentyFourCell.PairsLoop` | polytope-xd/js/polytopes.js:141-145 | the pair loop yields `[0,1],[0,2],[0,3],[1,2],[1,3],[2,3]` |
| `TwentyFourCell.Build24Cell` | polytope-xd/js/polytopes.js:140-191 | the builder's loops produce the 24-cell specification |
| `TwentyFourCell.VertexLoops` | polytope-xd/js/polytopes.js:147-154 | the pair and sign loops produce the 24 vertices in index order `4p + signCombo` |
| `TwentyFourCell.VertexSupport` | polytope-xd/js/polytopes.js:147-154 | vertex `4p+k` is ±1 exactly on the two axes of pair `p` and 0 elsewhere |
| `TwentyFourCell.IntDistValues` | polytope-xd/js/polytopes.js:156-161 | distinct vertices lie at squared distance 2, 4, 6 or 8 |
| `TwentyFourCell.RootTwoTest` | polytope-xd/js/polytopes.js:157-160 | among those distances only squared distance 2 passes `abs(d - SQRT2) < 0.01` |
| `TwentyFourCell.RootTwoKeepIsDistTwo` | polytope-xd/js/polytopes.js:156-161 | the tolerance-checked pair loop keeps exactly the pairs at squared distance 2 |
| `TwentyFourCell.TwentyFourEdges` | polytope-xd/js/polytopes.js:156-161 | the edges are exactly the pairs `i < j < 24` at squared distance 2, strictly ordered |
| `TwentyFourCell.AxisCellLoops` | polytope-xd/js/polytopes.js:166-173 | the axis and sign loops produce the eight type-1 cells |
| `TwentyFourCell.AxisCellMembers` | polytope-xd/js/polytopes.js:166-173 | type-1 cell `2·axis + s` holds exactly the six vertices with that sign on that axis |
| `TwentyFourCell.SignCellLoops` | polytope-xd/js/polytopes.js:175-188 | the four sign loops produce the sixteen type-2 cells in loop order |
| `TwentyFourCell.PickLoop` | polytope-xd/js/polytopes.js:182-186 | the pair loop pushes the index formula `p*4 + (signs[i]==-1?2:0) + (signs[j]==-1?1:0)` for each pair |
| `TwentyFourCell.SignCellMembers` | polytope-xd/js/polytopes.js:175-188 | type-2 cell `q` has 6 vertices; its `p`-th is a vertex of pair `p` whose nonzero entries equal the sign vector's entries on that pair |
| `TwentyFourCell.TwentyFourCellCount` | polytope-xd/js/polytopes.js:163-188 | the cells are the 8 type-1 cells followed by the 16 type-2 cells, 24 in all |
| `SixHundredCell.EvenPermsTable` | polytope-xd/js/polytopes.js:212-217 | the table holds twelve distinct permutations of 0..3, each with an even number of inversions |
| `SixHundredCell.EvenPermRow` | polytope-xd/js/polytopes.js:212-217 | each row is an even permutation, the rows increase in code order, and each permuted template has three nonzero slots |
| `SixHundredCell.GoldenTemplate` | polytope-xd/js/polytopes.js:210-211 | the template is `[0, a, 1/2, c]` with `a` near 0.309 and `c` near 0.809 |
| `SixHundredCell.HalfVertexLoops` | polytope-xd/js/polytopes.js:202-207 | the four sign loops produce the sixteen `(±½, ±½, ±½, ±½)` points in loop order |
| `SixHundredCell.HalfVertexInjective` | polytope-xd/js/polytopes.js:202-207 | the sixteen half-integer points are pairwise different |
| `SixHundredCell.PermLoops` | polytope-xd/js/polytopes.js:219-229 | the permutation loop with its `nzPos` list and eight sign masks produces the 96 signed permuted template points |
| `SixHundredCell.SignLoop` | polytope-xd/js/polytopes.js:223-228 | the mask loop produces eight rows, row `s` being the template point signed by mask `s` |
| `SixHundredCell.FlipLoop` | polytope-xd/js/polytopes.js:224-226 | the inner loop negates position `nzPos[k]` exactly for the set bits `k` of the mask |
| `SixHundredCell.FlipAt` | polytope-xd/js/polytopes.js:225-226 | after `m` steps position `nz[k]` is negated iff `k < m` and bit `k` of the mask is set |
| `SixHundredCell.NzPosOfIndices` | polytope-xd/js/polytopes.js:220-222 | `nzPos` is the list of positions not taking template slot 0 |
| `SixHundredCell.SignedPointsDiffer` | polytope-xd/js/polytopes.js:223-228 | different masks give different points when three slots are nonzero |
| `SixHundredCell.PermPointsDistinct` | polytope-xd/js/polytopes.js:219-229 | the 96 permuted, signed points are pairwise different |
| `SixHundredCell.PermPointShape` | polytope-xd/js/polytopes.js:219-229 | each signed point has exactly one zero coordinate and only template values |
| `SixHundredCell.RawVerticesDistinct` | polytope-xd/js/polytopes.js:194-229 | the 120 raw points are pairwise different and every coordinate is one of the golden values |
| `SixHundredCell.RawVertexShape` | polytope-xd/js/polytopes.js:194-229 | axis points have three zero coordinates, half-integer points none, the others one |
| `SixHundredCell.SixHundredVertexCount` | polytope-xd/js/polytopes.js:231 | with a key that tells apart values more than 0.18 apart, `dedup4` keeps all 120 raw points in order |
| `SixHundredCell.Build600Cell` | polytope-xd/js/polytopes.js:193-259 | the vertices are the deduplicated raw points, the edges the pairs whose distance is within 0.02 of `1/phi`, and the cells are distinct tetrahedra, exactly the 4-cliques of the edge graph |
| `Cliques.BuildAdj` | polytope-xd/js/polytopes.js:301-305 | the loop produces the adjacency lists of the modelled function (`n` empty sets, then each edge added both ways) |
| `Cliques.AdjSpecMembers` | polytope-xd/js/polytopes.js:301-305 | `w` is in the set of `v` iff an edge joins them; each neighbour appears once, so adjacency is symmetric |
| `Cliques.CommonLoop` | polytope-xd/js/polytopes.js:244-245 | the loop collects the common neighbours of `u` and `v` |
| `Cliques.CommonMembers` | polytope-xd/js/polytopes.js:244-245 | the common list holds exactly the members of both sets, each once |
| `Cliques.SortAscProperties` | polytope-xd/js/polytopes.js:249 | the numeric sort keeps the elements and makes a distinct list strictly increasing |
| `Cliques.IncreasingUnique` | polytope-xd/js/polytopes.js:249-251 | a strictly increasing list is determined by its elements, so its `join(',')` key names one cell |
| `Cliques.TetraCells` | polytope-xd/js/polytopes.js:239-256 | the cell search records each key once, every cell is a tetrahedron, every 4-clique of the edge graph is found, and without self-loops every cell found is a 4-clique |
| `Cliques.EdgeCells` | polytope-xd/js/polytopes.js:246-255 | the double loop over the common neighbours of one edge keeps `cellSet` equal to the keys of the cells pushed |
| `Cliques.CliqueThroughEdge` | polytope-xd/js/polytopes.js:243-255 | a 4-clique through the edge `{u, v}` has its other two vertices among the common neighbours |
| `Cliques.CellIsTetra` | polytope-xd/js/polytopes.js:248-249 | on a loop-free edge list, the sorted `[u, v, common[i], common[j]]` of an adjacent pair is a 4-clique |
| `OneTwentyCell.FindMinEdgeLen` | polytope-xd/js/polytopes.js:290-299 | the double loop returns the modelled minimum over the first `min(n, 80)` vertices |
| `OneTwentyCell.MinEdgeLenIsMinimum` | polytope-xd/js/polytopes.js:290-299 | the result is the least distance above 0.001 among the first 80 vertices, attained by a pair, and `Infinity` exactly when no pair qualifies |
| `OneTwentyCell.Window` | polytope-xd/js/polytopes.js:292 | the window is at most the vertex count and at most 80 |
| `OneTwentyCell.CentroidLoop` | polytope-xd/js/polytopes.js:268-273 | one centroid per 600-cell cell |
| `OneTwentyCell.CentroidOf` | polytope-xd/js/polytopes.js:269-272 | the accumulation loop returns the mean of the cell's vertices |
| `OneTwentyCell.Build120Cell` | polytope-xd/js/polytopes.js:261-288 | the builder's loops produce the 120-cell specification |
| `OneTwentyCell.OneTwentyShape` | polytope-xd/js/polytopes.js:261-288 | no result exactly when the 600-cell has no cell or its first centre is the origin; otherwise one vertex per cell, the first of unit length, no cells, and every edge a pair `i < j` within 5% of the minimum edge length |
| `OneTwentyCell.DivideByLength` | polytope-xd/js/polytopes.js:276-277 | a nonzero vector divided by its length has unit length |
| `TesseractNet.CubeVertexLoops` | polytope-xd/js/polytopes.js:322-327 | the z, y, x loops produce the eight cube corners `(±½, ±½, ±½)` in loop order |
| `TesseractNet.CubeVertexDigits` | polytope-xd/js/polytopes.js:324-327 | the loop counters spell the local corner index in binary |
| `TesseractNet.CubeLocalEdgesAreOneBit` | polytope-xd/js/polytopes.js:329-336 | the coordinate-difference edge loop is the loop over index pairs one bit apart |
| `TesseractNet.CubeLocalEdgesMembers` | polytope-xd/js/polytopes.js:329-336 | the edges are exactly the pairs `i < j < 8` one bit apart, strictly ordered |
| `TesseractNet.CubeLocalEdgeCount` | polytope-xd/js/polytopes.js:329-336 | the cube has 12 edges |
| `TesseractNet.CubeFaceSides` | polytope-xd/js/polytopes.js:338-343 | cyclically consecutive corners of each face differ in one bit |
| `TesseractNet.CubeFacesAreCycles` | polytope-xd/js/polytopes.js:338-343 | every face is a 4-cycle of cube edges |
| `TesseractNet.NetMapOnFacet` | polytope-xd/js/polytopes.js:311-320 | every corner of net cube `ci` folds to a tesseract vertex on the cube's facet |
| `TesseractNet.NetEdgesFold` | polytope-xd/js/polytopes.js:311-336 | the folded image of a cube edge is a tesseract edge (one coordinate differs) |
| `TesseractNet.GetNetPositions` | polytope-xd/js/polytopes.js:345-364 | eight cubes, each with the eight corners blended between net and projected positions by `foldT` |
| `TesseractNet.NetCubeCorners` | polytope-xd/js/polytopes.js:350-360 | the inner loop yields the blended corners of one cube |
| `TesseractNet.NetFoldEnds` | polytope-xd/js/polytopes.js:353-358 | at `t = 0` a corner sits at its net position, at `t = 1` at its projected folded position |
| `PlaneRotation.RotatePlaneProperties` | polytope-xd/js/polytopes.js:368-373 | a plane rotation changes only its two coordinates and keeps the squared length when c² + s² = 1 |
| `PlaneRotation.RotatePlaneInverse` | polytope-xd/js/polytopes.js:368-373 | rotating back by the opposite sine undoes the rotation |
| `PlaneRotation.StepProperties` | polytope-xd/js/polytopes.js:375-383 | one guarded step of `rotate4D` (skipped for a falsy angle) keeps length, is undone by its inverse step, and touches only its plane |
| `View4D.Rotate4DIsometry` | polytope-xd/js/polytopes.js:375-384 | the composed rotation xy, xz, xw, yz, yw, zw keeps the squared length and is undone by the reverse composition |
| `View4D.Rotate4DOnlyXW` | polytope-xd/js/polytopes.js:375-384 | with only the xw angle set, y and z are unchanged |
| `View4D.ProjectionProperties` | polytope-xd/js/polytopes.js:388-402 | any type other than 'stereographic' projects in perspective; the projections mirror each other in w; w = 0 keeps x, y, z |
| `View4D.PerspectiveMirror` | polytope-xd/js/polytopes.js:388-396 | `d/(d+w)` is `d/(d-w)` of the point mirrored in w |
| `View4D.FlatProjection` | polytope-xd/js/polytopes.js:388-396 | a point with w = 0 keeps x, y, z under both projections |
| `ConvexHull.ConvexHullTriangles` | polytope-xd/js/polytopes.js:406-434 | the triple loop returns the modelled hull list |
| `ConvexHull.LoopJ` | polytope-xd/js/polytopes.js:413-432 | the `j` loop appends row `i`'s faces |
| `ConvexHull.LoopK` | polytope-xd/js/polytopes.js:414-432 | the `k` loop appends row `(i, j)`'s faces |
| `ConvexHull.TryTriple` | polytope-xd/js/polytopes.js:415-431 | the loop body returns the face of `(i, j, k)`, if any |
| `ConvexHull.ScanSide` | polytope-xd/js/polytopes.js:420-428 | the `l` loop with its early `break` computes the side scan |
| `ConvexHull.ScanSpec` | polytope-xd/js/polytopes.js:420-428 | the scan succeeds iff the off-plane points it tests agree on one side, and reports that side (0 when none is off the plane) |
| `ConvexHull.TriNormalSwap` | polytope-xd/js/polytopes.js:415-417 | swapping `j` and `k` negates the normal |
| `ConvexHull.FacetProperties` | polytope-xd/js/polytopes.js:415-431 | a triple is pushed iff its normal has length ≥ 1e-4, some point is off its plane and all such points are on one side; the face is `[i,j,k]` or `[i,k,j]` with every off-plane point strictly behind its own normal |
| `ConvexHull.HullMembers` | polytope-xd/js/polytopes.js:406-434 | fewer than 3 points give `[]`, exactly 3 give `[[0,1,2]]` (collinear or not), and from 4 points a face is in the result iff the loop body pushes it for some `i < j < k` |
| `CellMesh.IndexOf` | polytope-xd/js/polytopes.js:506 | `indexOf` is −1 iff the value is absent, else its first position |
| `CellMesh.BuildCellEdges` | polytope-xd/js/polytopes.js:491-506 | the edge loop returns the modelled remapped cell edges, or none |
| `CellMesh.AddCellEdge` | polytope-xd/js/polytopes.js:504-506 | one pass renumbers and keeps an edge with both ends in the cell |
| `CellMesh.RemapProperties` | polytope-xd/js/polytopes.js:502-506 | each remapped pair names two cell positions joined by an edge, and every edge with both ends in the cell is remapped |
| `CellMesh.CellEdgesProperties` | polytope-xd/js/polytopes.js:492-506 | `null` exactly when the polytope has no cells or the index is past the last one |
| `Slicer.SliceNormalProperties` | polytope-xd/js/slicer.js:10-31 | 'w' and unknown cut types give `[0,0,0,1]`, 'diagonal' gives `(½,½,½,½)`, 'vertex' and 'edge' normalise the first vertex and the first edge's midpoint; every normal is a unit vector or, for a zero vector, zero |
| `Slicer.GetSliceRange` | polytope-xd/js/slicer.js:33-43 | the running `minD`/`maxD` loop returns the modelled range of the vertices' offsets |
| `Slicer.RangeProperties` | polytope-xd/js/slicer.js:33-43 | no vertices give no finite range; otherwise min ≤ every offset ≤ max and both ends are attained |
| `Slicer.CollectIntersections` | polytope-xd/js/slicer.js:53-64 | the edge loop fills `intersections` with the modelled crossing points in edge order |
| `Slicer.ComputeSlice` | polytope-xd/js/slicer.js:47-77 | the method returns the modelled slice for the cut's normal and the position |
| `Slicer.CrossingParameter` | polytope-xd/js/slicer.js:57-58 | for `di·dj < 0`, `t = di/(di − dj)` lies strictly between 0 and 1 |
| `Slicer.CrossingOnPlane` | polytope-xd/js/slicer.js:55-60 | a crossing edge contributes `vi + t(vj − vi)` with `0 < t < 1`, exactly on the hyperplane |
| `Slicer.CrossingProperties` | polytope-xd/js/slicer.js:57-63 | without a sign change only endpoint `i` is examined, so an endpoint `j` on the hyperplane is never added by its edge; whatever an edge adds is within 1e-4 of the hyperplane |
| `Slicer.IntersectionsOnPlane` | polytope-xd/js/slicer.js:53-64 | at most one point per edge, each within 1e-4 of the hyperplane |
| `Slicer.SliceProperties` | polytope-xd/js/slicer.js:66-76 | `null` with fewer than 3 raw or 3 deduplicated points; otherwise the deduplicated points with the caller's normal and offset unchanged |
| `Slicer.OutOfRangeIsEmpty` | polytope-xd/js/slicer.js:33-43 | an offset more than 1e-4 outside the vertex range meets no edge, so the slice is `null` |
| `Slicer.NothingCrosses` | polytope-xd/js/slicer.js:54-64 | when every vertex is beyond the tolerance on one side, no edge contributes |
| `HyperplaneBasis.OrthonormalBasis4` | polytope-xd/js/slicer.js:180-197 | the candidate loop returns the modelled basis |
| `HyperplaneBasis.RejectAllOrthogonal` | polytope-xd/js/slicer.js:186-189 | after the inner loop the candidate is orthogonal to every basis vector so far |
| `HyperplaneBasis.CandidateOrthogonal` | polytope-xd/js/slicer.js:185-189 | the candidate after both rejections is orthogonal to the normal and to the basis |
| `HyperplaneBasis.AppendKeepsOrthonormal` | polytope-xd/js/slicer.js:190-193 | appending the normalised candidate keeps the basis orthonormal |
| `HyperplaneBasis.BasisFromProperties` | polytope-xd/js/slicer.js:184-195 | the loop stops at three vectors and keeps an orthonormal basis orthonormal |
| `HyperplaneBasis.OrthonormalBasisProperties` | polytope-xd/js/slicer.js:180-197 | at most 3 vectors; for a unit or zero normal exactly 3, unit length, pairwise orthogonal and orthogonal to the normal |
| `HyperplaneBasis.BasisFromResidual` | polytope-xd/js/slicer.js:184-195 | from any candidate on, the loop either stops at three vectors or leaves every axis a residual of at most 0.01², and keeps the basis orthonormal |
| `HyperplaneBasis.KeptStep` | polytope-xd/js/slicer.js:190-193 | keeping a candidate leaves its own residual at zero and the earlier ones no larger |
| `HyperplaneBasis.DroppedSmall` | polytope-xd/js/slicer.js:190 | a dropped candidate (length at most 0.01) has squared length at most 0.0001 |
| `HyperplaneBasis.CandidateSquare` | polytope-xd/js/slicer.js:185-189 | the candidate's squared length after both rejections is its squared length less what the normal and the basis capture |
| `HyperplaneBasis.NoneLeftOver` | polytope-xd/js/slicer.js:181-195 | an orthonormal basis that leaves all four axes residuals of at most 0.01² has at least three vectors, since the four residuals add up to 4 less the normal's squared length less the basis size |
| `SliceAnalysis.SliceBasisDefined` | polytope-xd/js/slicer.js:311-319 | for every cut type, the normal of the slice `computeSlice` returns has a three-vector basis, so `analyzeSlice` can always read `basis[0]` and `basis[1]` |
| `SliceAnalysis.AnalyzeSlice` | polytope-xd/js/slicer.js:311-361 | the method returns the modelled analysis |
| `SliceAnalysis.PerimeterLoop` | polytope-xd/js/slicer.js:339-348 | the loop pushes the n cyclic side lengths and the perimeter is their sum |
| `SliceAnalysis.SideOf` | polytope-xd/js/slicer.js:342-345 | the loop body's length is the side from vertex i to the next, wrapping to vertex 0 |
| `SliceAnalysis.Points2D` | polytope-xd/js/slicer.js:316-319 | one 2-D point per slice point, its coordinates along `basis[0]` and `basis[1]` of the point less `normal·offset` |
| `SliceAnalysis.AnalyzeProperties` | polytope-xd/js/slicer.js:311-328 | `null` exactly for a missing slice or fewer than 3 points; otherwise the polygon described is the 2-D points reordered by angle about their centroid |
| `SliceAnalysis.DescribeProperties` | polytope-xd/js/slicer.js:321-360 | `vertices` is the point count, `area` is half the absolute shoelace sum (≥ 0), `perimeter` the sum of the n cyclic sides, and `isRegular` holds iff every side is within 5% of the mean |
| `SliceAnalysis.EqualSidesDescribedRegular` | polytope-xd/js/slicer.js:350-358 | equal positive sides are reported regular and the name ends in " regular" |
| `SliceAnalysis.ShapeNameProperties` | polytope-xd/js/slicer.js:354-358 | the table names 3, 4, 5, 6, 8, 10 and 12 sides, every other count gives "n-gono", and " regular" is appended iff regular |
| `SliceAnalysis.FallbackNamesDistinct` | polytope-xd/js/slicer.js:357 | two counts outside the table never get the same name |
| `NumberText.ValueOfNatToString` | polytope-xd/js/slicer.js:357 | the decimal text of `n` reads back as `n` |
| `NumberText.NatToStringInjective` | polytope-xd/js/slicer.js:357 | different counts have different decimal texts |
| `KeySort.SortBy` | polytope-xd/js/slicer.js:326-328 | the sort by angle returns a permutation of its input |
| `KeySort.SortBySorted` | polytope-xd/js/slicer.js:326-328 | the sort's result is ordered by the key |
| `Polygon2D.ShoelaceLoop` | polytope-xd/js/slicer.js:331-335 | the loop computes the shoelace sum over the n cyclic sides |
| `Polygon2D.TranslationInvariant` | polytope-xd/js/slicer.js:331-336 | moving the polygon changes neither the shoelace sum nor the area |
| `Polygon2D.EqualSidesAreRegular` | polytope-xd/js/slicer.js:351-352 | equal positive sides pass the regularity test for any positive tolerance |
| `PairLoops.CollectPairs` | polytope-xd/js/polytopes.js:93-100 | the nested `i < j` loop with a test pushes the modelled pair list |
| `PairLoops.FilterPairsMembers` | polytope-xd/js/polytopes.js:93-100 | the pair loop keeps exactly the pairs `i < j < n` that pass the test, each once, in order |
| `PairLoops.CollectIndices` | polytope-xd/js/polytopes.js:106-108 | the index loop with a test pushes the modelled index list |
| `PairLoops.FilterIndicesMembers` | polytope-xd/js/polytopes.js:106-108 | the index loop keeps exactly the indices below `n` that pass the test, in increasing order |
| `Platonic4D.Build5Cell` | platonic-lab/js/polytopes4d.js:72-92 | the normalised simplex with every pair `i < j < 5` as an edge, and no cell list |
| `Platonic4D.FiveCellMesh` | platonic-lab/js/polytopes4d.js:83-89 | 5 vertices and exactly the 10 pairs `i < j < 5` as edges |
| `Platonic4D.BuildTesseract` | platonic-lab/js/polytopes4d.js:94-120 | the sixteen half-unit sign vectors, edges where exactly one coordinate differs by more than 0.01 |
| `Platonic4D.TesseractMesh` | platonic-lab/js/polytopes4d.js:94-120 | 16 vertices and 32 edges, exactly the index pairs one bit apart |
| `Platonic4D.Build16Cell` | platonic-lab/js/polytopes4d.js:122-144 | the eight unit axis vectors, edges at distance below 1.5 |
| `Platonic4D.SixteenCellMesh` | platonic-lab/js/polytopes4d.js:133-141 | 24 edges, every pair except the four antipodal ones |
| `Platonic4D.Build24Cell` | platonic-lab/js/polytopes4d.js:146-199 | the builder as written: axis and pair loops, the inline first-occurrence dedup, and the `0.1 < d < sqrt(2)·1.01` edge test |
| `Platonic4D.PairSignLoops` | platonic-lab/js/polytopes4d.js:163-174 | the `i < j` pair loops with both sign loops produce the 24 two-entry vectors |
| `Platonic4D.RawPointsAre` | platonic-lab/js/polytopes4d.js:151-174 | the raw list is the 8 axis vectors followed by the 24 two-entry vectors |
| `Platonic4D.RawKeysDistinct` | platonic-lab/js/polytopes4d.js:176-185 | under a key that only confuses points less than 1 apart on every axis, the 32 raw points have 32 different keys |
| `Platonic4D.NearTest` | platonic-lab/js/polytopes4d.js:189-194 | on whole squared distances the edge test accepts exactly 1 and 2 |
| `Platonic4D.TwentyFourKeepsAll` | platonic-lab/js/polytopes4d.js:176-196 | as written the dedup removes nothing: 32 vertices, and the edges join points at squared distance 1 or 2 |
| `Platonic4D.IntendedTwentyFourProperties` | platonic-lab/js/polytopes4d.js:160-196 | without the axis loop: 24 vertices, the same set as the polytope-xd 24-cell, with edges exactly the pairs at distance `sqrt(2)` |
| `Platonic4D.FindEdges4D` | platonic-lab/js/polytopes4d.js:487-507 | the two loops return the modelled edge list, whatever `threshold` is |
| `Platonic4D.FindEdgesProperties` | platonic-lab/js/polytopes4d.js:487-507 | a pair is an edge iff its distance is below `1.05·minDist` (every pair when `minDist` is `Infinity`); `minDist` is above 0.01, attained by a pair in the 50-vertex window, and at most every window distance above 0.01 |
| `Platonic4D.MinDistNone` | platonic-lab/js/polytopes4d.js:489-495 | `minDist` stays `Infinity` exactly when no pair among the first 50 vertices is more than 0.01 apart |
| `Platonic4D.MinDistLeast` | platonic-lab/js/polytopes4d.js:489-495 | a finite `minDist` is the least window distance above 0.01 |
| `MinSearch.MinPairDistance` | platonic-lab/js/polytopes4d.js:489-495 | the double loop over the first `n` vertices returns the modelled row minimum |
| `MinSearch.RowsMinProperties` | platonic-lab/js/polytopes4d.js:489-495 | the search returns the least visited distance above the floor, and `Infinity` exactly when no visited pair exceeds the floor |
| `PlatonicView.SinglePlaneForms` | platonic-lab/js/polytopes4d.js:326-373 | each of the four rotations is the plane rotation of its two coordinates |
| `PlatonicView.SinglePlaneIsometry` | platonic-lab/js/polytopes4d.js:326-373 | each single-plane rotation keeps the squared length |
| `PlatonicView.Rotate4DIsometry` | platonic-lab/js/polytopes4d.js:378-385 | `rotate4D` keeps the squared length and is undone by the reverse composition |
| `PlatonicView.Rotate4DSkips` | platonic-lab/js/polytopes4d.js:378-385 | falsy angles are skipped: all zero leaves the point unchanged, and each set angle applies its own rotation, in the order xw, yw, zw, xy |
| `PlatonicView.EnginesAgreeWithoutXY` | platonic-lab/js/polytopes4d.js:378-385 | with no xy angle this engine and the polytope-xd engine apply the three w-plane rotations in the same order and agree |
| `PlatonicView.ViewDistance` | platonic-lab/js/polytopes4d.js:305 | the default view distance: an absent or zero distance becomes 3, any other is kept |
| `PlatonicView.ProjectionProperties` | platonic-lab/js/polytopes4d.js:304-319 | both projections substitute 3 for a falsy view distance, mirror each other in w, and keep x, y, z when w = 0; otherwise every coordinate is scaled by one factor |
| `PlatonicView.ProjectedEdges` | platonic-lab/js/polytopes4d.js:397-414 | the edge loop fills `points` and `colors` with the modelled lists |
| `PlatonicView.ProjectEdge` | platonic-lab/js/polytopes4d.js:398-412 | one pass rotates, projects in perspective and scales both endpoints, and computes their shades |
| `PlatonicView.EdgePointsProperties` | platonic-lab/js/polytopes4d.js:397-406 | exactly two points per edge, its endpoints in order, both through the perspective projection |
| `PlatonicView.EdgeColorsProperties` | platonic-lab/js/polytopes4d.js:408-413 | six shades per edge, three per endpoint, when colouring by w, and none otherwise |
| `ConwayPoly.EdgeKey` | platonic-lab/js/conway.js:311 | the key of an edge is its two endpoints in ascending order, whichever order they are given in |
| `ConwayPoly.KeyTextInjective` | platonic-lab/js/conway.js:311 | two index pairs spelling the same `"a-b"` text are the same pair, so the string keys stand for the pairs |
| `ConwayPoly.EdgeKeySymmetric` | platonic-lab/js/conway.js:311 | both orders of an edge share a key, and any two edges with one key are the same unordered pair |
| `ConwayPoly.NormalizeUp` | platonic-lab/js/conway.js:641-644 | a vector of positive length is scaled to unit length; the zero vector becomes `[0, 0, 1]` |
| `ConwayPoly.Centroids` | platonic-lab/js/conway.js:271-275 | one point per face, and each non-empty face's point is the mean of its vertices |
| `ConwayPoly.CentroidOf` | platonic-lab/js/conway.js:675-679 | the summing loop followed by the division gives the face's centroid |
| `ConwayPoly.OrderAround` | platonic-lab/js/conway.js:694-731 | the indices come back sorted by their angle around the centre and form a permutation of the input |
| `ConwayPoly.PermutationSame` | platonic-lab/js/conway.js:714-715 | sorting the projections keeps the length and exactly the same indices |
| `ConwayPoly.Reverse` | platonic-lab/js/conway.js:689 | the reversed face has the same length and entry i is entry length − 1 − i of the face |
| `ConwayPoly.ReverseProperties` | platonic-lab/js/conway.js:689 | reversing twice restores the face, and reversing keeps its vertex multiset |
| `ConwayPoly.OrientFace` | platonic-lab/js/conway.js:681-692 | the result is the face or its reverse, with the same vertices, and is the face itself when the normal does not point at the centre |
| `ConwayPoly.ReverseTriangleTest` | platonic-lab/js/conway.js:686-688 | reversing a triangle negates the test of its normal against the centre |
| `ConwayPoly.OrientTriangleOutward` | platonic-lab/js/conway.js:681-692 | after orientation a triangle's normal never points towards the centre |
| `ConwayPoly.GetSeed` | platonic-lab/js/conway.js:17-26 | `cube` and `octahedron` give their seeds, `dodecahedron` and `icosahedron` the supplied ones, and any other name the tetrahedron |
| `ConwayPoly.ExplicitSeeds` | platonic-lab/js/conway.js:28-67 | the tetrahedron has 4 triangles on 4 vertices, the cube 6 squares on 8, the octahedron 8 triangles on 6, all indices in range |
| `ConwayPoly.Lerp3Ends` | platonic-lab/js/conway.js:491-493 | the blend of two points is the first at t = 0 and the second at t = 1 |
| `ConwayPoly.InterpolateVertices` | platonic-lab/js/conway.js:482-496 | the loop over as many positions as the longer list has returns the modelled interpolation |
| `ConwayPoly.InterpolationProperties` | platonic-lab/js/conway.js:482-496 | the blend is as long as the longer list, wraps the shorter one cyclically, and runs from the first list at t = 0 to the second at t = 1 |
| `ConwayPoly.InterpolationEnds` | platonic-lab/js/conway.js:488-490 | entry i is a's entry i mod its length at t = 0 and b's entry i mod its length at t = 1 |
| `ConwayPoly.InterpolationSameLength` | platonic-lab/js/conway.js:482-496 | for two lists of one length the blend is the first list at t = 0 and the second at t = 1 |
| `ConwayInfo.FaceWalk` | platonic-lab/js/conway.js:584-587 | one directed pair per face position: each vertex with its cyclic successor |
| `ConwayInfo.WalkMembers` | platonic-lab/js/conway.js:583-589 | a directed pair is in the walk exactly when it is a vertex and its cyclic successor in some face |
| `ConwayInfo.EdgeKeysMembers` | platonic-lab/js/conway.js:582-590 | `edgeSet` holds a key exactly when it is the key of two cyclically consecutive vertices of some face |
| `ConwayInfo.AddFaceKeys` | platonic-lab/js/conway.js:584-588 | the inner loop over one face extends the walked pairs by the face and keeps `edgeSet` equal to their keys |
| `ConwayInfo.GetInfo` | platonic-lab/js/conway.js:580-598 | the method returns the modelled info of the polyhedron |
| `ConwayInfo.SizeCountsProperties` | platonic-lab/js/conway.js:592-595 | the face-size counts add up to the number of faces, and every size counted occurs in some face |
| `ConwayInfo.InfoProperties` | platonic-lab/js/conway.js:580-598 | V is the vertex count, E the number of distinct edge keys, F the face count, `euler = V − E + F`, and the size counts add up to F |
| `ConwayInfo.TetrahedronInfo` | platonic-lab/js/conway.js:28-37 | the tetrahedron seed reports V = 4, E = 6, F = 4 and euler 2 |
| `ConwayInfo.ScaleOr` | platonic-lab/js/conway.js:505 | a missing or zero scale is 1, any other scale is kept, and the result is never 0 |
| `ConwayInfo.WalkInRange` | platonic-lab/js/conway.js:556-564 | every pair the edge loop visits has both ends inside the vertex list |
| `ConwayInfo.EdgePoints` | platonic-lab/js/conway.js:563-568 | two scaled points per drawn edge |
| `ConwayInfo.AddSegment` | platonic-lab/js/conway.js:558-569 | one visited pair: a key already seen adds nothing, a new key records the pair and pushes its two scaled endpoints |
| `ConwayInfo.AddFaceSegments` | platonic-lab/js/conway.js:557-570 | the inner loop over one face keeps `edgeSet`, the drawn edges and the points in step with the walk extended by that face |
| `ConwayInfo.ToEdgeGeometry` | platonic-lab/js/conway.js:551-575 | the points are the scaled endpoints of the first pair seen under each key, in the order visited |
| `ConwayInfo.EdgeGeometryProperties` | platonic-lab/js/conway.js:551-575 | one segment per edge key that `getInfo` counts, no key drawn twice, two points per segment |
| `ConwayInfo.FanTriangles` | platonic-lab/js/conway.js:510-539 | a face of fewer than three vertices gives no triangle; otherwise the fan `(face[0], face[i], face[i + 1])` |
| `ConwayInfo.TriPositions` | platonic-lab/js/conway.js:525-536 | nine scaled coordinates per triangle |
| `ConwayInfo.TriNormals` | platonic-lab/js/conway.js:526-537 | nine normal coordinates per triangle |
| `ConwayInfo.OneTriangle` | platonic-lab/js/conway.js:521-527 | the corner loop of a triangle pushes exactly the positions of its one fan triangle |
| `ConwayInfo.TriangleBuffers` | platonic-lab/js/conway.js:521-527 | a triangle adds its three scaled corners and three copies of the face normal |
| `ConwayInfo.FanBuffers` | platonic-lab/js/conway.js:528-539 | a longer face adds the fan triangles' corners and a normal per corner, length − 2 triangles |
| `ConwayInfo.FaceBuffers` | platonic-lab/js/conway.js:512-539 | a face of three or more vertices adds its fan triangles with the face normal from its first three vertices |
| `ConwayInfo.BufferFace` | platonic-lab/js/conway.js:509-540 | one pass of the face loop moves both buffers from the first fi faces to the first fi + 1 |
| `ConwayInfo.ToBufferGeometry` | platonic-lab/js/conway.js:504-546 | positions and normals are the modelled buffers over all faces with a missing or zero scale taken as 1 |
| `ConwayInfo.BufferProperties` | platonic-lab/js/conway.js:504-546 | both buffers hold nine numbers per triangle; faces below three vertices add none, a k-gon adds k − 2 |
| `Memo.Lookup` | platonic-lab/js/conway.js:310-322 | a present key returns its stored index and leaves the table alone; a new key gets the next index and appends its point |
| `Memo.LookupNew` | platonic-lab/js/conway.js:319-321 | a new key is mapped to the index of the point just appended, and the table stays consistent |
| `Memo.LookupValid` | platonic-lab/js/conway.js:310-322 | a lookup with the key's own point keeps every stored index pointing at that key's point |
| `Memo.LookupProperties` | platonic-lab/js/conway.js:310-322 | a lookup keeps the table consistent, only extends it, adds exactly the key, and returns the index of a vertex at the key's point |
| `Memo.LookupAll` | platonic-lab/js/conway.js:394-423 | one index per key looked up |
| `Memo.LookupAllExtends` | platonic-lab/js/conway.js:394-423 | a run of lookups never removes or changes an entry |
| `Memo.LookupAllValid` | platonic-lab/js/conway.js:394-423 | a run of lookups keeps a consistent table consistent |
| `Memo.LookupAllKeys` | platonic-lab/js/conway.js:394-423 | after the run the keys are the old keys and the keys looked up |
| `Memo.LookupAllIndices` | platonic-lab/js/conway.js:394-423 | each returned index is that key's index in the final table and in any table extending it |
| `Memo.LookupAllHits` | platonic-lab/js/conway.js:404-423 | when every key is already present the table does not change |
| `Memo.VertexTable.constructor` | platonic-lab/js/conway.js:307-308 | the table starts with no keys and no vertices |
| `Memo.VertexTable.Get` | platonic-lab/js/conway.js:310-322 | the table's new state and the returned index are those of the modelled lookup |
| `ConwayAmbo.MidSymmetric` | platonic-lab/js/conway.js:313-317 | the midpoint of an edge does not depend on the order of its ends |
| `ConwayAmbo.EdgeVertexPoint` | platonic-lab/js/conway.js:311-319 | the midpoint pushed for `(i, j)` is the point the edge's key stands for |
| `ConwayAmbo.EdgeVertexSymmetric` | platonic-lab/js/conway.js:310-322 | `getEdgeVertex(i, j)` and `getEdgeVertex(j, i)` give the same index and the same table |
| `ConwayAmbo.FaceRing` | platonic-lab/js/conway.js:327-331 | walking i positions of a face yields i edge-vertex indices |
| `ConwayAmbo.FaceRings` | platonic-lab/js/conway.js:325-333 | the first face loop yields one ring per face walked |
| `ConwayAmbo.FaceRingExtends` | platonic-lab/js/conway.js:327-331 | walking a face never removes or changes a table entry |
| `ConwayAmbo.FaceRingValid` | platonic-lab/js/conway.js:327-331 | walking a face keeps every key's vertex at the midpoint of its edge |
| `ConwayAmbo.FaceRingKeys` | platonic-lab/js/conway.js:327-331 | walking a face adds exactly the keys of the edges walked |
| `ConwayAmbo.FaceRingIndices` | platonic-lab/js/conway.js:327-331 | ring position k holds the index of edge k in every table extending the ring's |
| `ConwayAmbo.FaceRingsExtends` | platonic-lab/js/conway.js:325-333 | the first face loop only adds to the table |
| `ConwayAmbo.FaceRingsValid` | platonic-lab/js/conway.js:325-333 | the first face loop keeps every key's vertex at the midpoint of its edge |
| `ConwayAmbo.FaceRingsKeys` | platonic-lab/js/conway.js:325-333 | after the first face loop the table holds exactly the edge keys of the faces |
| `ConwayAmbo.FaceRingsIndices` | platonic-lab/js/conway.js:325-333 | each ring's position k holds the index of its face's edge k in any extending table |
| `ConwayAmbo.EmptyLists` | platonic-lab/js/conway.js:336 | one empty list per old vertex |
| `ConwayAmbo.Incidence` | platonic-lab/js/conway.js:338-343 | the second loop over one face keeps one list per old vertex |
| `ConwayAmbo.Incidences` | platonic-lab/js/conway.js:337-344 | the second face loop keeps one list per old vertex |
| `ConwayAmbo.IncidenceProperties` | platonic-lab/js/conway.js:338-343 | once every edge has its vertex, the loop over a face leaves the table alone and gives vertex v exactly the indices of the face's edges ending at v |
| `ConwayAmbo.IncidencesProperties` | platonic-lab/js/conway.js:337-344 | over all faces the second loop leaves the table alone and gives each vertex exactly the indices of the edges ending at it |
| `ConwayAmbo.VertexFacesProperties` | platonic-lab/js/conway.js:346-352 | each vertex face is a vertex's de-duplicated list, of at least three entries, reordered by angle |
| `ConwayAmbo.NormalizeAll` | platonic-lab/js/conway.js:354 | every new vertex is normalised, in order |
| `ConwayAmbo.AmboTables` | platonic-lab/js/conway.js:303-355 | the table after the first loop holds exactly the edge keys, consistently, and the second loop adds nothing to it |
| `ConwayAmbo.AmboFaceFaces` | platonic-lab/js/conway.js:303-355 | one new vertex per undirected edge, at its normalised midpoint; each old face keeps its length and two positions share a vertex exactly when they are the same edge |
| `ConwayAmbo.AmboVertexFace` | platonic-lab/js/conway.js:346-352 | one vertex-derived face belongs to one old vertex |
| `ConwayAmbo.AmboVertexFaces` | platonic-lab/js/conway.js:346-352 | each vertex-derived face has at least three vertices, none twice, exactly the edge vertices around one old vertex |
| `ConwayAmbo.AmboInRange` | platonic-lab/js/conway.js:303-355 | `ambo` keeps every index in range and polygons stay polygons |
| `ConwayAmbo.RingOfFace` | platonic-lab/js/conway.js:327-331 | the inner loop's table state and ring are those of the modelled ring |
| `ConwayAmbo.RingFaces` | platonic-lab/js/conway.js:325-333 | the first face loop's table state and rings are those of the modelled |
| `ConwayAmbo.IncidenceOfFace` | platonic-lab/js/conway.js:338-343 | the inner loop's table state and lists are those of the modelled incidence |
| `ConwayAmbo.Incident` | platonic-lab/js/conway.js:336-344 | `vertToEdges` and the table are those of the modelled incidences |
| `ConwayAmbo.VertexFacesLoop` | platonic-lab/js/conway.js:346-352 | the vertex loop returns the modelled vertex faces |
| `ConwayAmbo.Ambo` | platonic-lab/js/conway.js:303-355 | the method returns the modelled rectification |
| `ConwayAmbo.ExpandProperties` | platonic-lab/js/conway.js:432-434 | `expand` keeps indices in range and polygons polygons; its vertices are the edges of the rectified solid and its first faces are that solid's faces turned into rings of edge midpoints |
| `ConwayAmbo.Expand` | platonic-lab/js/conway.js:432-434 | the method returns `ambo(ambo(p))` |
| `ConwayDual.IncidentFacesCount` | platonic-lab/js/conway.js:277-280 | face f is listed for vertex v as often as v occurs in f |
| `ConwayDual.IncidentFacesMember` | platonic-lab/js/conway.js:277-280 | face f is listed for v exactly when v is one of its vertices |
| `ConwayDual.PushIncidence` | platonic-lab/js/conway.js:279 | one push keeps the lists equal to the incidences seen so far |
| `ConwayDual.VertToFaces` | platonic-lab/js/conway.js:277-280 | `vertToFaces[v]` lists the faces on v, in face order |
| `ConwayDual.DualProperties` | platonic-lab/js/conway.js:266-296 | one vertex per old face at its normalised centroid; each new face comes from a vertex on at least three corners, lists exactly the faces on it, sorted by angle; every such vertex gets its face |
| `ConwayDual.DualFaceSource` | platonic-lab/js/conway.js:283-291 | each dual face is the ordered face list of some surrounded vertex |
| `ConwayDual.DualFaceComplete` | platonic-lab/js/conway.js:283-291 | every surrounded vertex has its face in the dual |
| `ConwayDual.FacesAroundProperties` | platonic-lab/js/conway.js:694-716 | the face of vertex v lists the faces on v, once per corner, in angular order |
| `ConwayDual.DualOfClosed` | platonic-lab/js/conway.js:283-291 | when every vertex is surrounded, dual face v is the face of vertex v |
| `ConwayDual.DualInRange` | platonic-lab/js/conway.js:266-296 | the dual's faces index its own vertices and have at least three corners |
| `ConwayDual.DualVertices` | platonic-lab/js/conway.js:270-274 | one vertex per face, the normalised centroid of that face |
| `ConwayDual.AddDualFace` | platonic-lab/js/conway.js:284-291 | one pass of the vertex loop moves the faces from the first vi vertices to the first vi + 1 |
| `ConwayDual.DualFacesLoop` | platonic-lab/js/conway.js:283-291 | the vertex loop returns the modelled dual faces |
| `ConwayDual.Dual` | platonic-lab/js/conway.js:266-296 | the method returns the modelled dual |
| `ConwayTruncate.AddToMember` | platonic-lab/js/conway.js:374-375 | after `Set.add(x)` the set holds what it held and x |
| `ConwayTruncate.AddToNoRepeats` | platonic-lab/js/conway.js:374-375 | `Set.add` never makes an entry appear twice |
| `ConwayTruncate.LinkMembers` | platonic-lab/js/conway.js:374-375 | one edge step adds y to x's set and x to y's, and nothing else |
| `ConwayTruncate.LinkNoRepeats` | platonic-lab/js/conway.js:374-375 | one edge step keeps every set free of repeats |
| `ConwayTruncate.AdjacencyMember` | platonic-lab/js/conway.js:372-376 | the loop over one face adds to a's set exactly the vertices its edges join to a |
| `ConwayTruncate.AdjacencyNoRepeats` | platonic-lab/js/conway.js:372-376 | the loop over one face adds no vertex twice |
| `ConwayTruncate.AdjacenciesMember` | platonic-lab/js/conway.js:370-377 | `vertEdges[a]` holds b exactly when some face edge joins a and b |
| `ConwayTruncate.AdjacenciesNoRepeats` | platonic-lab/js/conway.js:370-377 | no set of `vertEdges` holds a vertex twice |
| `ConwayTruncate.NeighbourLists` | platonic-lab/js/conway.js:370-377 | the final `vertEdges` lists the neighbours of each vertex exactly, once each, all of them vertices |
| `ConwayTruncate.NeighbourKeys` | platonic-lab/js/conway.js:396-397 | the keys looked up for a vertex are `(vi, vj)` for each listed neighbour, in order |
| `ConwayTruncate.NeighbourKeysMembers` | platonic-lab/js/conway.js:396-397 | a key is looked up for vi exactly when it pairs vi with one of its neighbours |
| `ConwayTruncate.InitTableValid` | platonic-lab/js/conway.js:394-399 | initialisation keeps every key's vertex at its cut point |
| `ConwayTruncate.InitTableKeys` | platonic-lab/js/conway.js:394-399 | initialisation adds exactly the ordered pairs of each vertex with its listed neighbours |
| `ConwayTruncate.RingKeys` | platonic-lab/js/conway.js:406-411 | a face looks up two keys per edge: `(vi, vj)` then `(vj, vi)` |
| `ConwayTruncate.RingKeyAt` | platonic-lab/js/conway.js:406-411 | ring position i lies on edge i / 2, at its start when i is even and at its end when odd |
| `ConwayTruncate.RingKeysAdjacent` | platonic-lab/js/conway.js:406-411 | every key a face looks up joins two adjacent vertices |
| `ConwayTruncate.TruncRingsHit` | platonic-lab/js/conway.js:404-413 | once the table holds every key a face looks up, the face loop creates nothing and each old face gets its ring |
| `ConwayTruncate.VertexFace` | platonic-lab/js/conway.js:419-422 | a face is added exactly when a vertex has at least three cut vertices, and it is a reordering of them |
| `ConwayTruncate.CutsOfVertex` | platonic-lab/js/conway.js:417-418 | with every neighbour pair present, the lookups for a vertex create nothing and return its cut vertices, none twice |
| `ConwayTruncate.CutFacesHit` | platonic-lab/js/conway.js:416-423 | with every neighbour pair present, the vertex loop creates no vertex |
| `ConwayTruncate.CutFacesProperties` | platonic-lab/js/conway.js:416-423 | each face the vertex loop adds belongs to one vertex with at least three neighbours and holds its cut vertices once each |
| `ConwayTruncate.Neighbours` | platonic-lab/js/conway.js:370-377 | one neighbour list per old vertex |
| `ConwayTruncate.CutTableProperties` | platonic-lab/js/conway.js:394-399 | initialisation creates one vertex per ordered pair of adjacent vertices, at its cut point |
| `ConwayTruncate.CutTableHits` | platonic-lab/js/conway.js:401-423 | every key the face loop and the vertex loop look up is already in the table |
| `ConwayTruncate.TruncateRings` | platonic-lab/js/conway.js:404-413 | the face loop creates no vertex, and ring position i holds the vertex of ring key i |
| `ConwayTruncate.TruncateCuts` | platonic-lab/js/conway.js:416-423 | the vertex loop creates no vertex, and each face it adds is the cut face of one vertex |
| `ConwayTruncate.Amount` | platonic-lab/js/conway.js:362 | a given amount is used as it is; a missing one is 1/3 |
| `ConwayTruncate.TruncateRingsFirst` | platonic-lab/js/conway.js:401-423 | the face loop's rings are the result's first faces, and the vertex loop adds at most one face per vertex |
| `ConwayTruncate.TruncateCounts` | platonic-lab/js/conway.js:361-426 | one vertex per ordered pair of adjacent vertices, every old face kept, at most one face per old vertex, named `t(…)` |
| `ConwayTruncate.TruncateRingVertices` | platonic-lab/js/conway.js:404-413 | each old face doubles its length: position 2k holds the normalised cut near `face[k]` on edge k, position 2k + 1 the cut near the edge's other end |
| `ConwayTruncate.TruncateRingSharing` | platonic-lab/js/conway.js:404-413 | two ring positions share a vertex exactly when they look up the same ordered pair |
| `ConwayTruncate.CutsAtIffNear` | platonic-lab/js/conway.js:404-423 | the cut vertices of v are exactly the vertices the face-derived faces place near v |
| `ConwayTruncate.TruncateVertexFace` | platonic-lab/js/conway.js:416-423 | one vertex-derived face belongs to one old vertex |
| `ConwayTruncate.TruncateVertexFaces` | platonic-lab/js/conway.js:416-423 | each vertex-derived face has one entry per neighbour of its vertex, at least three, none twice, exactly the vertices the face-derived faces cut near it |
| `ConwayTruncate.TruncateInRange` | platonic-lab/js/conway.js:361-426 | `truncate` keeps every index in range, and polygons stay polygons |
| `ConwayTruncate.AdjacencyOfFace` | platonic-lab/js/conway.js:372-376 | the inner adjacency loop returns the modelled adjacency of the face |
| `ConwayTruncate.AdjacencyLoop` | platonic-lab/js/conway.js:370-377 | the adjacency loop returns the modelled neighbour lists |
| `ConwayTruncate.CutLoop` | platonic-lab/js/conway.js:396-398 | the lookups for one vertex leave the table and the indices of the modelled run |
| `ConwayTruncate.InitLoop` | platonic-lab/js/conway.js:394-399 | the initialisation loop leaves the modelled table |
| `ConwayTruncate.TruncRingOfFace` | platonic-lab/js/conway.js:405-412 | one face's lookups leave the table and the ring of the modelled run |
| `ConwayTruncate.TruncRingFaces` | platonic-lab/js/conway.js:404-413 | the face loop leaves the modelled table and rings |
| `ConwayTruncate.CutFacesLoop` | platonic-lab/js/conway.js:416-423 | the vertex loop leaves the modelled table and faces |
| `ConwayTruncate.Truncate` | platonic-lab/js/conway.js:361-426 | the method returns the modelled truncation |
| `ConwaySnub.Fan` | platonic-lab/js/conway.js:465-468 | one triangle `[face[i], face[(i + 1) % length], ci]` per face position |
| `ConwaySnub.SnubFaces` | platonic-lab/js/conway.js:446-470 | the vertex list only grows |
| `ConwaySnub.SnubFacesShape` | platonic-lab/js/conway.js:446-470 | the loop appends one vertex per non-triangle, and every face it makes is a triangle on existing vertices |
| `ConwaySnub.SnubFacesGrow` | platonic-lab/js/conway.js:446-470 | vertices appended for earlier faces stay in place |
| `ConwaySnub.SnubFacesKeep` | platonic-lab/js/conway.js:446-470 | faces made for earlier faces stay a prefix of the later list |
| `ConwaySnub.SnubFacesCovered` | platonic-lab/js/conway.js:448-469 | a triangle is kept as it is; any other face gets a vertex at its normalised centroid and one fan triangle per position |
| `ConwaySnub.SnubFacesSource` | platonic-lab/js/conway.js:448-469 | every face made is an earlier triangle itself or a triangle of an earlier face's fan |
| `ConwaySnub.SnubShape` | platonic-lab/js/conway.js:440-473 | `snub` keeps the vertices of `ambo(poly)` and adds one per non-triangle; every face it returns is a triangle on existing vertices |
| `ConwaySnub.SnubCovers` | platonic-lab/js/conway.js:440-473 | each face of `ambo(poly)` is kept when a triangle and fanned around its new centre otherwise |
| `ConwaySnub.SnubSource` | platonic-lab/js/conway.js:440-473 | each face of `snub` is a triangle of `ambo(poly)` or a triangle of one of its faces' fans |
| `ConwaySnub.SnubFace` | platonic-lab/js/conway.js:448-470 | one pass of the face loop moves the state from the first fi faces to the first fi + 1 |
| `ConwaySnub.Snub` | platonic-lab/js/conway.js:440-473 | the method returns the modelled snub |
| `CrossSection.DistanceLerp` | platonic-lab/js/cross-section.js:82-85 | the signed distance of the blended point is the blend of the two end distances |
| `CrossSection.LerpEdgeOnPlane` | platonic-lab/js/cross-section.js:82-85 | with end distances of opposite sign, `t = d1 / (d1 − d2)` lies strictly between 0 and 1 and the point is on the plane |
| `CrossSection.EdgeCrossing` | platonic-lab/js/cross-section.js:53-55 | an edge contributes at most one crossing |
| `CrossSection.CornerOnPlane` | platonic-lab/js/cross-section.js:58-61 | a corner contributes at most one point |
| `CrossSection.TrianglePoints` | platonic-lab/js/cross-section.js:51-61 | a triangle gives at most six candidate points |
| `CrossSection.KeepApart` | platonic-lab/js/cross-section.js:65-72 | the kept list is never longer than the points examined |
| `CrossSection.KeepApartMembers` | platonic-lab/js/cross-section.js:65-72 | the first point is always kept, and every kept point is one of the points |
| `CrossSection.KeepApartSingle` | platonic-lab/js/cross-section.js:65-72 | while every point is within `1e-5` of the first, only the first is kept |
| `CrossSection.KeepApartSecond` | platonic-lab/js/cross-section.js:65-72 | the second kept point is the earliest point not within `1e-5` of the first |
| `CrossSection.FirstFar` | platonic-lab/js/cross-section.js:66-72 | gives the position of the earliest point not near the first, or the length when there is none, with every point before it near the first |
| `CrossSection.TriangleSegmentProperties` | platonic-lab/js/cross-section.js:64-76 | a triangle gives a segment exactly when one of its points is not near its first point, and the segment joins the first point to the earliest such point |
| `CrossSection.CrossingClose` | platonic-lab/js/cross-section.js:53-55 | a crossing, when there is one, is within `1e-7` of the plane |
| `CrossSection.TrianglePointsOnPlane` | platonic-lab/js/cross-section.js:51-61 | every candidate point of a triangle is within `1e-7` of the plane |
| `CrossSection.TriangleSegmentOnPlane` | platonic-lab/js/cross-section.js:51-76 | both ends of a triangle's segment are within `1e-7` of the plane |
| `CrossSection.IntersectionProperties` | platonic-lab/js/cross-section.js:31-80 | no index gives no segment; otherwise at most one segment per triangle, each the segment of some triangle, both ends within `1e-7` of the plane |
| `CrossSection.Unique` | platonic-lab/js/cross-section.js:65-72 | the dedup loop returns the modelled kept list |
| `CrossSection.SegmentOfTriangle` | platonic-lab/js/cross-section.js:39-76 | the loop body returns the triangle's modelled segment |
| `CrossSection.AddTriangle` | platonic-lab/js/cross-section.js:38-77 | one pass moves the segments from the first t triangles to the first t + 1 |
| `CrossSection.ComputeIntersection` | platonic-lab/js/cross-section.js:31-80 | the method returns the modelled intersection |
| `CrossSection.ScanProperties` | platonic-lab/js/cross-section.js:103-118 | the scan finds the first unused segment from i on with an end within `1e-4` of the last point, with its far end, and finds nothing exactly when there is none |
| `CrossSection.ChainCounts` | platonic-lab/js/cross-section.js:95-121 | each pass marks one more segment used, so there are no more picks than passes or unused segments |
| `CrossSection.ChainPick` | platonic-lab/js/cross-section.js:99-121 | pick k is what the scan finds from the previous point with the earlier picks already used |
| `CrossSection.UsedAfterContains` | platonic-lab/js/cross-section.js:96-108 | the used set only grows and holds every picked segment |
| `CrossSection.ChainPickProperties` | platonic-lab/js/cross-section.js:99-121 | the picks are distinct, never already used, each the first segment linked to the point before it, and each contributes its far end |
| `CrossSection.ChainStops` | platonic-lab/js/cross-section.js:98-121 | the `safety` bound never cuts the chain short: it stops only when every segment is used or none is linked to the last point |
| `CrossSection.OrderedPolygonProperties` | platonic-lab/js/cross-section.js:91-129 | no segments give no points; otherwise both ends of the first segment, then the picks' far ends in order, at most one point per segment plus one, and the last point dropped exactly when it returns to the first |
| `CrossSection.ScanLoop` | platonic-lab/js/cross-section.js:103-118 | the inner loop returns the modelled scan from 0 |
| `CrossSection.ChainPass` | platonic-lab/js/cross-section.js:100-120 | a pass that finds a segment keeps the chain invariant with one less `safety`; one that finds none has the final chain |
| `CrossSection.ChainDone` | platonic-lab/js/cross-section.js:99 | when the loop condition fails, the state is the final chain |
| `CrossSection.OrderSegments` | platonic-lab/js/cross-section.js:91-129 | the method returns the modelled polygon |
| `CrossSection.ProjectAllAt` | platonic-lab/js/cross-section.js:149-152 | entry i of the projection is point i projected |
| `CrossSection.OffsetsCancel` | platonic-lab/js/cross-section.js:144-151 | the offsets from the centroid along any direction add up to zero |
| `CrossSection.NormalizeKeepsPerpendicular` | platonic-lab/js/cross-section.js:141-142 | normalising keeps a vector perpendicular to what it was perpendicular to |
| `CrossSection.PlaneAxesPerpendicular` | platonic-lab/js/cross-section.js:138-142 | both in-plane axes are perpendicular to the normal and to each other |
| `CrossSection.ProjectTo2DProperties` | platonic-lab/js/cross-section.js:134-153 | fewer than three points give nothing; otherwise one plane point per point, the centroid offset against the two axes, with x and y each adding up to zero |
| `CrossSection.CentroidLoop` | platonic-lab/js/cross-section.js:145-147 | the summing loop and the division give the centroid |
| `CrossSection.ProjectPoints` | platonic-lab/js/cross-section.js:134-153 | the method returns the modelled projection |
| `CrossSection.SideLengths3` | platonic-lab/js/cross-section.js:163-166 | one side length per point |
| `CrossSection.AnalyzedPolygonProperties` | platonic-lab/js/cross-section.js:158-191 | `null` exactly below three points; otherwise n sides, the n cyclic distances, their sum as perimeter, half the absolute shoelace sum as area, the 8 % regularity test and the table name |
| `CrossSection.PerimeterNonNegative` | platonic-lab/js/cross-section.js:168 | the perimeter is never negative |
| `CrossSection.PolygonNameProperties` | platonic-lab/js/cross-section.js:193-207 | the table's names for 3 to 10 sides and 12, `n-gono` for any other count (11 included), with ` regular` appended exactly for a regular polygon |
| `CrossSection.PolygonFallbackDistinct` | platonic-lab/js/cross-section.js:193-207 | two counts outside the table never share a name |
| `CrossSection.SideLoop` | platonic-lab/js/cross-section.js:163-166 | the side loop returns the modelled side lengths |
| `CrossSection.SumLoop` | platonic-lab/js/cross-section.js:168 | the accumulation returns the sum of the sides |
| `CrossSection.AnalyzePolygon` | platonic-lab/js/cross-section.js:158-191 | the method returns the modelled analysis |
| `StlExport.CornerIndex` | platonic-lab/js/stl-exporter.js:27-35 | the corner's position index lies inside the position attribute |
| `StlExport.FaceNormalPerpendicular` | platonic-lab/js/stl-exporter.js:47-60 | the computed face normal is perpendicular to both edges from the first corner |
| `StlExport.FaceNormalUnit` | platonic-lab/js/stl-exporter.js:55-60 | with a positive length the computed face normal has unit length |
| `StlExport.TriangleOfProperties` | platonic-lab/js/stl-exporter.js:25-63 | triangle t has the positions of corners 3t, 3t + 1, 3t + 2, or of those index entries; its normal is the first corner's normal attribute if present, else the face normal |
| `StlExport.TrianglesProperties` | platonic-lab/js/stl-exporter.js:10-67 | one triangle per three index entries, or per three positions without an index, in order |
| `StlExport.ExtractTriangles` | platonic-lab/js/stl-exporter.js:25-66 | the triangle loop returns the modelled triangles |
| `StlExport.ScaleTriangles` | platonic-lab/js/stl-exporter.js:73-78 | one scaled triangle per triangle |
| `StlExport.ScaleTrianglesProperties` | platonic-lab/js/stl-exporter.js:73-78 | scaling multiplies every corner coordinate and keeps every normal |
| `StlExport.ScaleTrianglesInverse` | platonic-lab/js/stl-exporter.js:73-78 | scaling by a non-zero factor and then by its inverse gives the triangles back |
| `StlExport.HeaderBytes` | platonic-lab/js/stl-exporter.js:97-100 | the header is 80 bytes |
| `StlExport.Uint32LE` | platonic-lab/js/stl-exporter.js:103 | a uint32 is four bytes |
| `StlExport.Uint32RoundTrip` | platonic-lab/js/stl-exporter.js:103 | the count written reads back as the count modulo 2^32 |
| `StlExport.FloatBytesAt` | platonic-lab/js/stl-exporter.js:109-117 | number k is encoded at bytes 4k to 4k + 4 |
| `StlExport.Record` | platonic-lab/js/stl-exporter.js:85-88 | a record is 50 bytes |
| `StlExport.RecordsAt` | platonic-lab/js/stl-exporter.js:107-120 | record t sits at bytes 50t to 50t + 50 of the records |
| `StlExport.StlLayout` | platonic-lab/js/stl-exporter.js:90-123 | 84 + 50n bytes: the header's code units modulo 256 (the em dash becomes 0x14), zero padding to 80, then n as a little-endian uint32 that reads back as n modulo 2^32 |
| `StlExport.StlRecord` | platonic-lab/js/stl-exporter.js:106-120 | record t is at 84 + 50t: the normal's three floats, the nine corner floats in corner order, then two zero bytes |
| `StlExport.SetFloat32` | platonic-lab/js/stl-exporter.js:109 | the four bytes at the offset become the float's encoding, and earlier bytes stay |
| `StlExport.SetUint32` | platonic-lab/js/stl-exporter.js:103 | the four bytes at the offset become the little-endian count, and earlier bytes stay |
| `StlExport.SetFloats` | platonic-lab/js/stl-exporter.js:109-117 | successive writes leave the encodings of the numbers after the start, and move the offset four bytes per number |
| `StlExport.WriteRecord` | platonic-lab/js/stl-exporter.js:107-120 | one record's writes leave the 50-byte record after the start |
| `StlExport.WriteHeader` | platonic-lab/js/stl-exporter.js:97-100 | the first 80 bytes become the header |
| `StlExport.ToBinarySTL` | platonic-lab/js/stl-exporter.js:90-123 | a fresh buffer holding the modelled STL bytes |
| `StlExport.ExportProperties` | platonic-lab/js/stl-exporter.js:146-161 | nothing is downloaded exactly without geometry or `position`; otherwise the file is `filename` or `model.stl`, the scale `scaleMM` or 50, and the bytes the STL of the scaled triangles |
| `StlExport.ExportSTL` | platonic-lab/js/stl-exporter.js:146-161 | the method returns the modelled export |
| `ChaosTrail.Clamp` | chaos-lab/js/renderer.js:116-117 | a `copyWithin` index made absolute never exceeds the length |
| `ChaosTrail.CopyToFront` | chaos-lab/js/renderer.js:116-117 | `copyWithin` keeps the array's length |
| `ChaosTrail.AfterShift` | chaos-lab/js/renderer.js:113-119 | the overflow shift keeps the buffer's length |
| `ChaosTrail.WriteAt` | chaos-lab/js/renderer.js:127-129 | typed-array writes keep the buffer's length |
| `ChaosTrail.WriteAtProperties` | chaos-lab/js/renderer.js:127-129 | written slots inside the buffer hold the values in order, writes past the end are dropped, every other slot keeps its value |
| `ChaosTrail.WriteAtAppend` | chaos-lab/js/renderer.js:122-169 | two consecutive writes are one write of the concatenated values |
| `ChaosTrail.ShiftKeepsNewest` | chaos-lab/js/renderer.js:112-119 | with between `keep` and `maxPoints` points held, the newest `keep` points move in order to the front, the rest stays, and the count becomes `keep` |
| `ChaosTrail.ShiftWhenShort` | chaos-lab/js/renderer.js:112-119 | with fewer than `keep` points held, the negative source offset makes the copy empty, yet the count still rises to `keep` |
| `ChaosTrail.CountStaysBounded` | chaos-lab/js/renderer.js:112-119 | the count never grows past the buffer while each batch fits beside the kept half, and the shift never raises it |
| `ChaosTrail.ColorValues` | chaos-lab/js/renderer.js:131-168 | three colour components per new point |
| `ChaosTrail.ColorValuesAt` | chaos-lab/js/renderer.js:166-168 | component c of new point i sits at flat index 3i + c |
| `ChaosTrail.PointColorProperties` | chaos-lab/js/renderer.js:134-164 | an unknown mode gives the base colour; the time colour stays within [0.3, 0.8) × (0, 0.8] × [0.8, 1); the height colour within [0.2, 1] × [0, 0.8] × [0, 0.8]; for a non-negative speed the velocity colour within [0, 1] × [0.1, 0.7] × [0.6, 1] |
| `ChaosTrail.TimeFractionRange` | chaos-lab/js/renderer.js:145 | the time fraction lies in [0, 1) |
| `ChaosTrail.BrightnessProperties` | chaos-lab/js/renderer.js:191-194 | brightness lies in [0.05, 1) and never decreases from oldest to newest |
| `ChaosTrail.Faded` | chaos-lab/js/renderer.js:190-200 | fading keeps the colour buffer's length |
| `ChaosTrail.FadedAt` | chaos-lab/js/renderer.js:196-199 | component c of a held point is its raw colour times its brightness; other slots keep their colour |
| `ChaosTrail.Trail.constructor` | chaos-lab/js/renderer.js:76-103 | three fresh zeroed buffers of 3 · maxPoints numbers, no points and an empty draw range |
| `ChaosTrail.Trail.SetIfInBounds` | chaos-lab/js/renderer.js:127 | one typed-array write, ignored past the end |
| `ChaosTrail.Trail.CopyWithinFront` | chaos-lab/js/renderer.js:116-117 | the array becomes the modelled `copyWithin` result |
| `ChaosTrail.Trail.SetThree` | chaos-lab/js/renderer.js:127-129 | three consecutive writes are the modelled write of the three values |
| `ChaosTrail.Trail.AppendPoint` | chaos-lab/js/renderer.js:123-168 | one pass writes point i's position and raw colour beside those of the earlier points |
| `ChaosTrail.Trail.AppendAll` | chaos-lab/js/renderer.js:122-169 | the append loop writes every new position and raw colour from slot `count` on |
| `ChaosTrail.Trail.Update` | chaos-lab/js/renderer.js:105-179 | an empty batch changes nothing; otherwise the shifted buffers, the written batch, the new count and draw range, and the fading; the count stays within the buffer while batches fit |
| `ChaosTrail.Trail.ApplyFading` | chaos-lab/js/renderer.js:183-201 | the colours become the modelled fading of the raw colours over the held points |
| `ChaosTrail.Trail.FadeStep` | chaos-lab/js/renderer.js:196-199 | one point's three faded components, written only inside the buffer |
| `ChaosTrail.Trail.Reset` | chaos-lab/js/renderer.js:205-208 | no points and an empty draw range; the buffers are untouched |
| `ChaosAnalyzer.MinUpToProperties` | chaos-lab/js/analyzer.js:80-91 | after at least one point the running minimum is set, at or below every point seen, and attained by one of them |
| `ChaosAnalyzer.MaxUpToProperties` | chaos-lab/js/analyzer.js:80-91 | after at least one point the running maximum is set, at or above every point seen, and attained by one of them |
| `ChaosAnalyzer.StatsOfNothing` | chaos-lab/js/analyzer.js:76-78 | with no points every field is zero |
| `ChaosAnalyzer.StatsBounds` | chaos-lab/js/analyzer.js:84-92 | each coordinate of every point lies between `min` and `max`, and both bounds are attained |
| `ChaosAnalyzer.StatsCentroid` | chaos-lab/js/analyzer.js:94 | the centroid times the count is the coordinate sum |
| `ChaosAnalyzer.CentroidAt` | chaos-lab/js/analyzer.js:94 | each centroid coordinate is the coordinate sum divided by the count |
| `ChaosAnalyzer.StatsSpread` | chaos-lab/js/analyzer.js:95-99 | the spread is never negative and is zero exactly when the bounding box is a single point |
| `ChaosAnalyzer.SpreadIsLength` | chaos-lab/js/analyzer.js:95-99 | the diagonal of a box is non-negative and zero only when its corners coincide |
| `ChaosAnalyzer.StatsStep` | chaos-lab/js/analyzer.js:85-91 | the inner loop for point i moves the bounds and sums from the first i points to the first i + 1 |
| `ChaosAnalyzer.ComputeTrajectoryStats` | chaos-lab/js/analyzer.js:75-102 | the method returns the modelled statistics |
| `ChaosAnalyzer.BuiltParamsKeys` | chaos-lab/js/analyzer.js:266-273 | the keys are exactly the declared keys, so undeclared override keys are ignored |
| `ChaosAnalyzer.BuiltParamsAt` | chaos-lab/js/analyzer.js:268-271 | the last declaration of a key decides it: its override when defined, else its default |
| `ChaosAnalyzer.BuildParams` | chaos-lab/js/analyzer.js:266-273 | the method returns the modelled parameter map |
| `ChaosAnalyzer.IsStateValid` | chaos-lab/js/analyzer.js:275-280 | valid exactly when the state has three components, each at most 1e8 in absolute value (a missing one is not finite) |
| `ChaosAnalyzer.UnknownSystemGuards` | chaos-lab/js/analyzer.js:23-27 | an unregistered key gives exponent 0 and empty bifurcation and divergence data; a registered one runs on its parameters merged with the overrides |
| `PlatonicGeometry.KeyOf` | platonic-lab/js/geometry.js:8-155 | a key that is found names that solid in the table |
| `PlatonicGeometry.SolidsTableProperties` | platonic-lab/js/geometry.js:8-155 | every solid has V − E + F = 2 and F · faceSides = 2E = V · edgesPerVertex, and its Schläfli symbol is {faceSides, facesPerVertex}; duality is an involution that swaps V with F and faceSides with facesPerVertex, keeps E and the symmetry group, names the dual, and fixes only the tetrahedron |
| `PlatonicGeometry.ConstructionStepsProperties` | platonic-lab/js/geometry.js:174-208 | an unknown key gets the tetrahedron's list; every list has four steps with the shared titles, showing vertices, edges, faces and the complete solid in that order |
| `PlatonicGeometry.OrOne` | platonic-lab/js/geometry.js:148 | the fallback to 1 for a zero denominator is never zero and keeps every nonzero denominator |
| `PlatonicGeometry.MeasuresProperties` | platonic-lab/js/geometry.js:30-169 | for a unit edge, every solid's final coefficients satisfy R² = ρ² + 1/4 and 0 < r < ρ < R; the area is F faces of the solid's face type; the volume is r · A / 3 for all but the dodecahedron; the tetrahedron's r is R/3 |
| `PlatonicGeometry.TetrahedronMeasures` | platonic-lab/js/geometry.js:30-34 | the tetrahedron's coefficients are in those proportions, including r = R/3 |
| `PlatonicGeometry.CubeMeasures` | platonic-lab/js/geometry.js:59-63 | the cube's coefficients are in those proportions |
| `PlatonicGeometry.OctahedronMeasures` | platonic-lab/js/geometry.js:88-92 | the octahedron's coefficients are in those proportions |
| `PlatonicGeometry.DodecahedronMeasures` | platonic-lab/js/geometry.js:117-169 | the dodecahedron's coefficients, with the insphere reassigned to 1.11352, satisfy R² = ρ² + 1/4 and 0 < r < ρ < R, and its area is 12 pentagons |
| `PlatonicGeometry.IcosahedronMeasures` | platonic-lab/js/geometry.js:146-163 | the icosahedron's coefficients, with the circumradius reassigned, are in those proportions |
| `PlatonicGeometry.DodecahedronInsphere` | platonic-lab/js/geometry.js:120-169 | the literal's dodecahedron insphere is the icosahedron's formula and lies below the corrected 1.11352 |
| `PlatonicGeometry.TableFixes` | platonic-lab/js/geometry.js:148-169 | the literal's icosahedron circumradius breaks R² = ρ² + 1/4 and the reassignment repairs it; the icosahedron's insphere is reassigned the value it already had; the dodecahedron's is changed |
| `PlatonicGeometry.PhiProperties` | platonic-lab/js/geometry.js:6 | φ exceeds 3/2 and φ · φ = φ + 1 |
| `PlatonicGeometry.DualScaleProperties` | platonic-lab/js/geometry.js:213-222 | an unknown key scales by 0.5; every known scale lies strictly between 0 and 1; the tetrahedron's is 1/3, the cube's equals the octahedron's, the icosahedron's is 1/φ and the dodecahedron's is its square |
| `PlatonicGeometry.NetDataProperties` | platonic-lab/js/geometry.js:265-282 | an unknown key gets the tetrahedron's entry; only the tetrahedron's and the cube's nets are available; every entry's face count is its solid's F |
| `PlatonicGeometry.Cycled` | platonic-lab/js/geometry.js:255-256 | `i < length ? list[i] : list[i % length]` is `list[i % length]` |
| `PlatonicGeometry.MorphLength` | platonic-lab/js/geometry.js:251-252 | the morph is as long as the longer list |
| `PlatonicGeometry.MorphAt` | platonic-lab/js/geometry.js:254-258 | entry i is from's entry i mod its length, moved towards to's entry i mod its length by the fraction t; at t = 0 it is `from[i]` and at t = 1 it is `to[i]` where those exist |
| `PlatonicGeometry.GetMorphVertices` | platonic-lab/js/geometry.js:250-260 | a fresh array holding the modelled morph |
| `PolytopeRegistry.KeyOf` | polytope-xd/js/polytopes.js:41-48 | a string that is found is that entry's key |
| `PolytopeCacheModule.BuildDirect` | polytope-xd/js/polytopes.js:56-57 | every key except the 120-cell gets its own builder's result |
| `PolytopeCacheModule.PolytopeCache.StoreDirect` | polytope-xd/js/polytopes.js:57 | the builder's result is stored under its key, and every stored entry still fits its key |
| `NumberText.NatToString` | platonic-lab/js/conway.js:311 | the text of a number is a non-empty run of decimal digits without a leading zero |

## Left out

- Three.js objects: every geometry, material, line, mesh and group construction. This covers `buildProjectedEdges`/`buildProjectedVertices`, the mesh half of `buildCellMesh`/`buildCellExploded`, `buildSliceMesh`, `buildPlaneHelper`, `createOutline`, `createFill`, `createPlaneHelper`, `createAxes`, `setupBloom`, `disposeTrail` and the draw-range and `needsUpdate` plumbing. The model keeps the numbers these objects are made from. The library itself is not part of this model.
- `computePlane` (cross-section.js): it only turns UI angles into a plane through `sin`/`cos`. The cross-section takes the plane as given.
- UI, DOM, canvas drawing (`draw2D`, `drawBifurcation`, the Schlegel drawing), audio, animation and `download`: they are input/output. `ExportSTL` returns the file name and bytes it would hand to `download`.
- `schlegel.js`: static tables and drawing, with nothing computed from them.
- `lyapunovExponent`, `bifurcationData`, `sensitivityDivergence`: only the unknown-system guards and the parameter merge are modelled. The RK4 integration and the estimates are function parameters, because they are floating-point numerics.
- Floating point: reals are exact and unbounded. Float32 rounding in the typed arrays and the STL floats, `NaN` and the infinities are not modelled. A float32 encoding is any function returning four bytes. `Infinity` as the start of a running minimum is written as `None`.
- `Math.sqrt`, `cos`/`sin` and `atan2` are parameters. Sorting by `atan2` is a stable insertion sort by that key. The source's sort is only claimed to return a permutation, sorted by the key.
- `toFixed` keys are an abstract key function. Decimal rounding is not modelled.
- The 600-cell and 120-cell geometry: the golden-ratio coordinates, the φ-based edge-length test and `findMinEdgeLen` sampling are kept literally, but nothing is proved about 720 edges, 600 cells or the 120-cell counts. The clique closure is proved over an arbitrary edge list instead.
- The dodecahedron and icosahedron seeds of `getSeed` come from the face walk `findFaces`/`nextInFace`, with its safety counter of 20 and signed angles. That walk is a geometric heuristic and is not modelled: those two seeds are parameters of `ConwayPoly.GetSeed`.
- `orderConvex` (polytopes.js) is used only to build meshes and is not modelled.
- `getFaceCentroids` (geometry.js) only feeds the Three.js dual display and is not modelled.
- The 120-cell and 600-cell builders of `polytopes4d.js` are not modelled: the source itself calls them simplifications.
- `TwentyFourCell.TwentyFourEdges`: states the edge set exactly (the pairs at squared distance 2) but not its size, 96. Counting it would unfold the distance of each of the 276 pairs, which exceeds the verifier's resource bound.
- `Slicer.ComputeSlice`: the tesseract cut `'w'` at position 0 giving exactly the eight points (±½, ±½, ±½, 0) is not derived, for the same reason. The general slice properties say which points a slice holds, but no lemma evaluates them for that instance.
- `OneTwentyCell.Build120Cell` and `OneTwentyCell.OneTwentySpec`: `None` stands for two different failures of the source. A 600-cell with no cells makes `len4(verts[0])` throw (polytopes.js:276). A first centre at the origin makes `R` zero, and the division then fills the vertices with `NaN` (line 277). The model does not tell the two apart.
- `PlatonicGeometry.Solid`: the presentation fields `color`, `accentColor`, `threeGeometry` and `elementEmoji` are not modelled. They feed only the Three.js display.
- `PlatonicGeometry.Measures`: `dihedralAngleDeg`, `dihedralAngleExact` and `solidAngleSr` are kept as the literals they are, but nothing is proved about them. They are rounded values of arccos and arctan, and trigonometry is not modelled.
- `PlatonicGeometry.DodecahedronMeasures`: does not state V = r · A / 3. The dodecahedron's insphere is the rounded decimal 1.11352, so the relation holds only approximately.
- `ChaosTrail.Trail.Update`: requires a whole number of points (`newPoints.length % 3 == 0`). With a fraction of a point the source's `numNew` is not an integer.
- `StlExport.ExportProperties` and `StlExport.ExtractTriangles`: require a readable geometry: an index, or else a position list, whose length is a multiple of three and whose entries exist, and normals as many as positions. Otherwise the source reads `undefined`.
- `PlatonicGeometry.GetMorphVertices` and `ConwayPoly.InterpolateVertices`: require that both lists or neither have entries. An empty list beside a non-empty one makes the source read `undefined` and produce `NaN`.
- `ChaosTrail.TimeFraction`: with `maxPoints == 0` the source computes `NaN`. The value is never stored, since the buffer has no slots, so the model takes 0.
- `ConwayPoly.Centroids`: the centroid of an empty face is the zero vector where the source computes `NaN`. No vertex lies on an empty face, so it is never ordered.
- Concurrency and time: none of the modelled code depends on them.
- `platonic-lab/js/polytopes4d.js:45` table counts are not taken as postconditions, because the 24-cell builder does not meet them. See the findings.

## Findings

| source | as written | input that shows it | evidently intended | confidence | as-written member | corrected member |
|---|---|---|---|---|---|---|
| platonic-lab/js/polytopes4d.js:176-196 | the dedup "removes" the 8 axis points, on the claim that they are included in the second set; no `(±1,0,0,0)` ever equals a `(±1,±1,0,0)` point, so all 32 points survive, and the `d < √2·1.01` edge test also joins axis points to neighbours at distance 1 | `build24Cell()` | the 24 vertices `(±1,±1,0,0)` and permutations, with edges exactly the pairs at distance √2 | not executed | `Platonic4D.TwentyFourKeepsAll` | `Platonic4D.IntendedTwentyFourProperties` |
