# Verified model of the track generator's geometry, miners and protocols

The repository generates Trackmania tracks. Under its database and game plumbing sits a small
integer-geometry kernel, and on that kernel a number of algorithms whose correctness is not visible
from any single function. This project models those algorithms in Dafny and proves what they promise,
for every input, every random seed and every interleaving.

`dafny verify dfyconfig.toml` checks everything.

## The modules

| module | what it models | main results |
|---|---|---|
| `Rotation`, `Poses` | quarter-turns of faces, vectors and re-anchored footprint cells; relative placements | re-anchored rotation composes as a group action; relative placements replay, reverse and are unchanged by moving the scene |
| `Catalogue`, `Occupancy`, `Collections`, `Lexicographic` | block variants and ports, the cell index, shared facts | ports are exactly the side clips; the index is "last placement wins" |
| `ClipWalker`, `WalkerStock` | the backtracking route search over a mutable route and occupancy set | every returned route is legal; a dead end means that no legal route exists from the drawn start; a hopeless search is decided exactly when the budget is at least the number of legal prefixes; failed branches restore the state exactly; the stock holds each block at its four turns, cells and ports turned together |
| `PackedKeys`, `PairMiner`, `SortedCounter` | the bit-packed sort-merge join and the sorted-array counter | the join equals the naive all-pairs count; totals do not depend on the compaction schedule; mining is symmetric and heading-invariant |
| `ClipMeeting` | whether clips of two blocks meet | heading invariance with the exact condition under which the uncorrected displacement is right |
| `Grammar` | moves and the bounded vocabulary search | the vocabulary is exactly the set reachable in the given number of rounds |
| `Layers`, `BeamSearch`, `BeamRanking` | beam search between anchors | success, blocks and reject reason in closed form, for one interval and for the whole map; synthesised cells never collide; children, layers and winner are the best scored, ties in order; width one is the greedy walk |
| `Assembly`, `AssemblyChoice`, `ValidatedAssembly` | route assembly and the finishability gate | exactly when a validator can change the verdict: not unless an empty path hangs on a tie; with unique ids the outcome does not depend on candidate order, validator pass included; which corridor the seed picks |
| `RouteRuns`, `RouteMacros` | chains of through-pieces and their canonical form | chains are maximal, simple, disjoint, complete, and determined by the pointers they follow; the canonical form is a complete invariant |
| `RouteJumps` | gaps between open ends | the scan finds exactly the flights; exact condition for a flight to have its way back; closure under reversal |
| `FaceTransitions` | port-to-port transitions | counts symmetric and the total even, although dictionary entries overwrite each other |
| `BlockKeys`, `Adjacency`, `GraphBuild`, `GraphPipeline`, `PipelineEvidence` | the constraint-graph builder as a claim-then-merge protocol with crashes | evidence equals the merged claims in every interleaving; labels only rise; a crash loses its claim for good; exactly when a second run changes nothing; which rows a run merges and what its edges then count |
| `Realisation` | tokens to grid blocks and back | a revisit returns to the block it names; nothing is emitted exactly when no translation fits; the round trip is one translation |

## How to read it

Each step-by-step algorithm is a `method` (or a class with methods) whose `ensures` states its result
outright or through a specification that does not mention the algorithm; lemmas then say what that
result means. Randomness is an arbitrary stream of draws, digests and travel times are arbitrary
functions, and scores are arbitrary reals, so every result holds for all of them. Integers are
unbounded, as in Python, except the packed cells and pair keys of the miner, which are 64-bit numpy
integers: `PackedKeys.Int64` models their wrap-around, and `PackedKeys.CellKeyFitsInt64` and
`PackedKeys.PackFitsInt64` say when it does not happen. The counter's value columns, 64-bit pair totals and
32-bit map totals, are taken as unbounded; `PairMiner.PairTotalsBounded` and `PairMiner.MapTotalsBounded`
bound what they hold. Sets and dictionaries whose iteration order the
source does not rely on are walked in an arbitrary order.

Places where the code and its own text disagree, or where a promise turned out not to hold as stated.
The model follows the code.

- Turning a mined displacement without a correction is wrong for footprints wider than one cell
  (`ClipMeeting.PlainTurnExact` gives the exact condition, `ClipMeeting.UnitFootprintsAgree` the failing
  2x1x1 block).
- A packed lookup that leaves its bit field, 20 bits for y and z and 24 for x, finds some other cell
  (`PackedKeys.LookupExact` gives the exact condition, `PackedKeys.LookupAliases` two such hits).
- A jump need not have its way back: a flight over the taking-off block's own cells, or from a cell that
  another block overwrote, has none (`RouteJumps.ReverseExact` gives the exact condition,
  `RouteJumps.OverOwnCell` and `RouteJumps.FromSharedCell` one map of each kind).
- The validator is given the rank of an interval among those with candidates; the comment says that this is
  the index of the assembly loop (`Assembly.IndexAgrees` gives the exact condition, `Assembly.IndexOnFullRoute`
  the case in which it holds, `Assembly.IndexShifted` inputs for which it does not).
- The tie-break docstrings say that the learned score stays authoritative; an empty path that hangs on a tie
  still lets the validator turn a verified route into a rejected one (`Assembly.InterferenceExact` gives the
  exact condition, `ValidatedAssembly.EmptyPathInterferes` such a route).
- The comment above the through-piece scan asks for exactly two neighbours on opposing sides; the code
  accepts any number of neighbours as long as two of them oppose (`RouteRuns.CommentAgrees` gives the exact
  condition, `RouteRuns.CommentFails` maps for which they differ).
- The docstring of `tokens_to_blocks` says that blocks still outside the grid are dropped and counted;
  the code refuses the whole sequence (`Realisation.EmittedFaithful` gives the exact condition,
  `Realisation.OversizeIsDropped` two blocks that are both lost).
- The graph builder claims a map before it extracts it, so a malformed block name or a failed merge leaves
  the map claimed and its evidence lost in every continuation (`GraphBuild.CrashLosesClaim`,
  `GraphPipeline.RerunChangesNothing`).
- The walker's branches for a finish with exits left, or a through block without exactly one exit, cannot
  be taken, because the stock is filtered by port count; `ClipWalker.Walk.PlaceEntry` proves it.
- The `chain_broken` rejection of the assembly cannot occur (`Assembly.ChoicesShareAnchors`).

## Model

| member | source | states |
|---|---|---|
| Rotation.RotateVectorAction | src/catalogue/loader.py:94-114 | free rotation by a then b is rotation by a + b, depends on the angle modulo 4 only, and -a undoes a |
| Rotation.RotateVectorLinear | src/catalogue/loader.py:94-114 | free rotation is linear |
| Rotation.RotateOffsetIsShiftedVector | src/catalogue/loader.py:70-91 | a re-anchored cell is the freely rotated cell plus a shift that depends on direction and size only |
| Rotation.ShiftCocycle | src/catalogue/loader.py:70-91 | how the shifts of two successive turns combine |
| Rotation.RotateOffsetAction | src/catalogue/loader.py:70-119 | turning the already turned footprint composes: re-anchored rotation is an action as well |
| Rotation.RotateOffsetFillsRotatedBox | src/catalogue/loader.py:70-119 | a turn maps the footprint one to one onto the footprint of the rotated size, minimum corner at the origin, and the opposite turn undoes it |
| Rotation.RotatedSizeIsParity | src/catalogue/loader.py:117-119 | extents swap exactly at odd turns, for negative directions as well |
| Rotation.RotateFaceAction | src/catalogue/loader.py:65-67 | face rotation composes |
| Rotation.FaceDeltaEquivariant | src/catalogue/loader.py:53-67 | turning a face turns the cell delta it looks along |
| Rotation.OppositeFaces | src/catalogue/loader.py:53-62 | opposite faces look opposite ways and opposition is an involution |
| Rotation.OppositeIsHalfTurn | src/catalogue/loader.py:61-62 | the opposite face is the face turned twice, as the source computes it |
| Rotation.OppositeFacesTurn | src/catalogue/loader.py:61-67 | faces that are opposite stay opposite under every turn |
| Rotation.AlongIsScaled | src/constraints/route_jumps.py:147-151 | the cell k steps away through a face is the cell plus k times the face delta |
| Catalogue.SidePortsAre | src/catalogue/loader.py:147-154 | a port exists exactly for each clip entry on a side face of some unit |
| Catalogue.SideClipsByName | src/catalogue/loader.py:43-47 | the side faces are the clip keys n, e, s, w in that order, and a missing key has no clips |
| Catalogue.FindVariantFinds | src/catalogue/loader.py:167-171 | the variant found is the first of its kind and index, and none is found exactly when there is none |
| Catalogue.GroundVariantFinds | src/generation/clip_walker.py:143 | the ground variant is the first of kind "ground" with index 0 |
| Catalogue.TurnedPortsAre | src/generation/clip_walker.py:147-164 | the turned ports of a choice of clips are exactly those clips on the side faces of the units, each at its turned cell and face |
| Poses.Replays | src/generation/grammar.py:60-68 | the relative placement of b seen from a, applied to a, is b |
| Poses.SeenFromOther | src/constraints/route_macros.py:171-174 | the reverse relative placement in terms of the forward one |
| Poses.DoubleReverse | src/constraints/route_macros.py:171-174 | reversing a relative placement twice gives it back |
| Poses.MovedTogether | src/constraints/route_macros.py:171-174 | relative placements do not change when the whole scene is turned and translated |
| Poses.DisplaceMoves | src/generation/grammar.py:60-68 | applying a relative placement commutes with moving the scene |
| ClipWalker.Build | src/generation/clip_walker.py:188-235 | the four pools hold exactly the orientations of allowed blocks with the right waypoint and port count, what an orientation is being fixed by the `WalkerStock` rows; unknown names and missing ends are errors |
| WalkerStock.FourTurns | src/generation/clip_walker.py:139-175 | a block with a route clip on a side face of its ground variant is stocked at the rotations 0 to 3, in order, under its own name and waypoint; any other block not at all |
| WalkerStock.TurnedFromFirst | src/generation/clip_walker.py:153-164 | the cells and the ports of every orientation are those of rotation 0 turned by one and the same turn, clips kept, and the cells at rotation 0 are the unit offsets |
| WalkerStock.OrientedPortsAre | src/generation/clip_walker.py:146-164 | the ports of an orientation are exactly the route clips on the side faces, each at its turned cell and face |
| WalkerStock.PortCount | src/generation/clip_walker.py:146-164 | as many as there are entries of route clips on side faces |
| WalkerStock.PortsOnOwnCells | src/generation/clip_walker.py:153-164 | every port of an orientation sits on one of its own cells |
| WalkerStock.OrientationFillsBox | src/generation/clip_walker.py:153-156 | a block that fills its box fills the turned box at every rotation |
| WalkerStock.BoundsAre | src/generation/clip_walker.py:41-51 | the walker stays in 6..41 along x and z and in 9..19 along y, and starts at (24, 9, 24) |
| WalkerStock.DirectionalMeans | src/generation/clip_walker.py:62-94 | the blocks that must face travel are checkpoints, start-finish blocks, and those with Special or Penalty anywhere in the name |
| ClipWalker.Select | src/generation/clip_walker.py:216-226 | a pool is exactly the orientations of one waypoint kind with the given number of ports |
| ClipWalker.Shuffle | src/generation/clip_walker.py:250-283 | a shuffle is a permutation for every stream of draws, one draw fewer than there are candidates |
| ClipWalker.OrderCandidates | src/generation/clip_walker.py:250-283 | the weighted order is a permutation of the pool for any weights, zero and negative ones included |
| ClipWalker.DrawWeighted | src/generation/clip_walker.py:273-281 | a draw takes the first candidate at which the running weight reaches the pick, and the last one if none does |
| ClipWalker.DrawIsShare | src/generation/clip_walker.py:256-282 | with weights that are not negative, a candidate is drawn exactly when the uniform draw falls into its share of the total weight |
| ClipWalker.Generate | src/generation/clip_walker.py:285-395 | for every seed: a returned route is legal and begins with the drawn start, a dead end means no legal route begins with it; giving up means the budget is below the number of legal prefixes of the drawn start, counted with the multiplicity of the pools, and a dead end that it is not |
| ClipWalker.LegalRouteShape | src/generation/clip_walker.py:329-340 | a legal route has max(1, length) + 1 blocks, Start exactly first, Finish exactly last, checkpoints exactly at the positive multiples of the cadence below length when the stock has any |
| ClipWalker.Walk.constructor | src/generation/clip_walker.py:297-309 | the search begins with the drawn start alone on the route |
| ClipWalker.Walk.Dfs | src/generation/clip_walker.py:319-384 | success leaves a legal extension, failure restores route and occupancy exactly and proves the prefix hopeless; the search gives up exactly when the expansion count passes the budget, a failed search has counted exactly the legal prefixes below its own, and no search counts more |
| ClipWalker.SizesOfFit | src/generation/clip_walker.py:319-384 | the number of legal prefixes, entry by entry and block by block, which the search counts |
| ClipWalker.Walk.TryPool | src/generation/clip_walker.py:343-384 | a pool all of whose candidates fail leaves no legal continuation |
| ClipWalker.Walk.TryBlock | src/generation/clip_walker.py:343-383 | a candidate that fails at every entry port continues to no legal route |
| ClipWalker.Walk.TryEntry | src/generation/clip_walker.py:344-383 | every reason for skipping an entry makes that continuation illegal |
| ClipWalker.Walk.PlaceEntry | src/generation/clip_walker.py:354-383 | a finish has no exit left and closes the route; a through block has exactly one, and is skipped exactly when it must face travel and does not |
| ClipWalker.Walk.Descend | src/generation/clip_walker.py:373-383 | placing, searching on and taking back restores the state on failure |
| ClipWalker.Walk.Push | src/generation/clip_walker.py:373-376 | appending a through block keeps route and occupancy describing one legal prefix |
| ClipWalker.Walk.Pop | src/generation/clip_walker.py:382-383 | removing the footprint restores the occupancy set exactly, because footprints are disjoint |
| ClipWalker.Walk.Close | src/generation/clip_walker.py:355-361 | appending the finish completes a legal route |
| ClipWalker.ExtendPrefix | src/generation/clip_walker.py:347-376 | a legal step on free cells keeps the prefix legal and adds its cells to the occupied ones |
| ClipWalker.ShrinkPrefix | src/generation/clip_walker.py:382-383 | subtracting the last footprint leaves exactly the cells of the others |
| ClipWalker.BadStepHopeless | src/generation/clip_walker.py:345-371 | no legal route continues through an illegal step or an occupied cell |
| ClipWalker.NextStepForced | src/generation/clip_walker.py:343-352 | every legal continuation enters a pool block at the one anchor its ports allow, so trying all entries misses nothing |
| ClipWalker.AllStepsHopeless | src/generation/clip_walker.py:343-384 | when all entries of all pool blocks are hopeless, the prefix is |
| PackedKeys.UnpackInvertsPack | src/constraints/placement_grammar.py:395-412 | unpacking inverts packing |
| PackedKeys.PackInvertsUnpack | src/constraints/placement_grammar.py:395-412 | packing inverts unpacking, and every key unpacks to a well-formed one |
| PackedKeys.PackFitsInt64 | src/constraints/placement_grammar.py:395-402 | keys fit a signed 64-bit integer, so packing does not wrap, while there are at most 2^27 offsets |
| PackedKeys.OrIsPlus | src/constraints/placement_grammar.py:395-402 | shift-and-or is a sum for 17-bit type ids |
| PackedKeys.CellKeyInjective | src/constraints/placement_grammar.py:341-346 | cells inside the 24-bit and 20-bit fields have different 64-bit keys |
| PackedKeys.CellKeyFitsInt64 | src/constraints/placement_grammar.py:341-346 | the packed form of a cell inside the fields does not wrap around |
| PackedKeys.CellKeyShifts | src/constraints/placement_grammar.py:357-360 | looking up a key plus a packed offset is looking up the displaced cell, wrap-around included |
| PackedKeys.LookupExact | src/constraints/placement_grammar.py:341-363 | a 64-bit neighbour lookup finds exactly that neighbour if and only if the neighbour stays inside the fields |
| PackedKeys.LookupAliases | src/constraints/placement_grammar.py:341-363 | two inputs outside the fields, along z and along x, for which it finds another cell |
| SortedCounter.SumRuns | src/constraints/placement_grammar.py:312-320 | summing runs of equal keys gives strictly ascending keys and changes no keyed sum |
| SortedCounter.Fold | src/constraints/placement_grammar.py:306-320 | one sort serves both value columns |
| SortedCounter.Concatenate | src/constraints/placement_grammar.py:296-301 | running totals and pending arrays together carry the sums of all calls |
| SortedCounter.ArgSortOrders | src/constraints/placement_grammar.py:306-309 | argsort lists every index once, in key order |
| SortedCounter.GatherEntries | src/constraints/placement_grammar.py:306-309 | reordering by argsort changes no keyed sum |
| SortedCounter.LookupIsSum | src/constraints/placement_grammar.py:259-320 | with ascending keys the stored value is the keyed sum |
| SortedCounter.Counter.constructor | src/constraints/placement_grammar.py:276-282 | a new counter has counted nothing |
| SortedCounter.Counter.Add | src/constraints/placement_grammar.py:284-291 | exactly the new batch is added, whether or not it triggers a compaction; empty batches are ignored |
| SortedCounter.Counter.Compact | src/constraints/placement_grammar.py:293-320 | everything pending is folded and the totals represent all calls so far |
| SortedCounter.ScheduleIndependent | src/constraints/placement_grammar.py:259-320 | keys, pair totals and map totals are determined by the calls alone, whatever the compaction schedule |
| SortedCounter.MapsCountCalls | src/constraints/placement_grammar.py:259-320 | when no call repeats a key, the map total is the number of calls containing it |
| PairMiner.BuildTable | src/constraints/placement_grammar.py:180-198 | the offsets are exactly the box, each once, and each rotation row sends an offset to its place in the rotated frame |
| PairMiner.SearchRange | src/constraints/placement_grammar.py:361-363 | the positions between the two binary searches are exactly those holding the value |
| PairMiner.ExpansionAt | src/constraints/placement_grammar.py:367-373 | which range and which rank the t-th element of the repeat-and-cumsum expansion stands for |
| PairMiner.ExpandedDistinct | src/constraints/placement_grammar.py:367-373 | the expansion emits no pair twice |
| PairMiner.JoinFinds | src/constraints/placement_grammar.py:360-373 | the expansion misses no pair |
| PairMiner.JoinSound | src/constraints/placement_grammar.py:360-373 | the expansion emits nothing else |
| PairMiner.Join | src/constraints/placement_grammar.py:354-373 | the sort-merge join yields every pair with the given key difference exactly once, several blocks per cell included |
| PairMiner.JoinIsDisplacement | src/constraints/placement_grammar.py:341-378 | on packed 64-bit cells inside the fields the join is exactly the pairs displaced by the offset, self-pairs dropped |
| PairMiner.MapPairs | src/constraints/placement_grammar.py:323-392 | the packed join counts exactly what the naive scan over ordered pairs counts, key by key |
| PairMiner.MineCorpus | src/constraints/placement_grammar.py:463-514 | over the corpus: ascending keys, exact pair and map counts, for every compaction threshold |
| PairMiner.MapTotalsBounded | src/constraints/placement_grammar.py:276-282 | a map total never exceeds the number of maps |
| PairMiner.PairTotalsBounded | src/constraints/placement_grammar.py:276-282 | a pair total never exceeds the number of ordered pairs of blocks |
| PairMiner.KeyMeansObservation | src/constraints/placement_grammar.py:395-412 | a packed key stands for exactly one (A, B, offset, relative rotation) |
| PairMiner.MinedMoveReplays | src/constraints/placement_grammar.py:380-412 | unpacking the key mined from a pair gives its two kinds, and a move that takes A's placement to B's anchor and rotation |
| PairMiner.MiningSymmetric | src/constraints/placement_grammar.py:354-392 | count(A, B, o, r) equals count(B, A, -o turned back by r, -r) |
| PairMiner.MiningHeadingInvariant | src/constraints/placement_grammar.py:354-392 | counts are unchanged when the whole map is turned and translated |
| ClipMeeting.ClipsMeet | src/constraints/placement_grammar.py:228-256 | true exactly when some port of A faces, across a cell face, the last recorded port of B there, with the same clip |
| ClipMeeting.MeetTurns | src/constraints/placement_grammar.py:204-256 | turning the scene preserves the answer when B's displacement is corrected for both re-anchorings |
| ClipMeeting.PlainTurnExact | src/constraints/placement_grammar.py:204-256 | turning the displacement alone is right for all port layouts if and only if the two re-anchoring terms agree |
| ClipMeeting.PlainTurnFails | src/constraints/placement_grammar.py:204-256 | otherwise every port of A has a counterexample |
| ClipMeeting.UnitFootprintsAgree | src/constraints/placement_grammar.py:204-256 | one-cell footprints need no correction; a 2x1x1 block at a half turn does |
| ClipMeeting.LookupTurns | src/constraints/placement_grammar.py:228-256 | the overwriting port dictionary turns with the scene |
| Grammar.ScanTargets | src/generation/grammar.py:169-201 | the inner scan with its early break yields the new ones among the first per_block distinct targets |
| Grammar.ExpandFrontier | src/generation/grammar.py:169-201 | one round yields exactly the unseen neighbours of the frontier |
| Grammar.Round | src/generation/grammar.py:169-201 | expanding only the newest blocks is as good as expanding everything found so far |
| Grammar.GrowFrom | src/generation/grammar.py:169-201 | the search, stopping early on an empty frontier, computes the set reachable in the given number of rounds |
| Grammar.RouteVocabulary | src/generation/grammar.py:128-201 | the vocabulary is exactly that set for the route filter |
| Grammar.RouteSuccessors | src/generation/grammar.py:99-126 | the moves left by the route filter are exactly those seen in enough maps, to an allowed block, at most one cell away along x and z and not in the same column |
| Grammar.RouteNeighbours | src/generation/grammar.py:169-201 | a block is a neighbour exactly when such a move leads to it before which fewer than per_block other targets occur |
| Grammar.ReachIsPaths | src/generation/grammar.py:169-201 | a block is in it exactly when a path of at most that many observed moves leads to it from a seed |
| Grammar.ReachMonotone | src/generation/grammar.py:169-201 | more rounds and wider neighbourhoods only add blocks |
| Grammar.VocabularyBounds | src/generation/grammar.py:99-201 | the vocabulary is monotone in rounds and per_block and lies between the seeds and seeds plus allowed blocks |
| Layers.LayerInvariant | src/generation/ai_generator.py:892-923 | what the first beam has and every expansion keeps, every beam of every depth has |
| Collections.SortStable | src/generation/ai_generator.py:814-817 | sorting keeps the order of elements that tie |
| Collections.BestKept | src/generation/ai_generator.py:814-817 | a cut after sorting keeps as many as it may, in order, and none worse than one left out |
| Layers.Descend | src/generation/ai_generator.py:892-929 | the depth loop reaches the arriving layer exactly when the cap allows it and that layer is inhabited, and reports whether any step was possible |
| BeamSearch.StepProgress | src/generation/ai_generator.py:492-509 | until it is close, each step cuts the XZ distance and the number of steps left by one |
| BeamSearch.GreedyProgress | src/generation/ai_generator.py:492-509 | after k steps exactly k fewer remain |
| BeamSearch.PathDistinct | src/generation/ai_generator.py:492-509 | the greedy walk never revisits a cell |
| BeamRanking.StepAlongLonger | src/generation/ai_generator.py:498-509 | a step goes along the longer axis, along x on a tie, and toward the destination |
| BeamRanking.FootprintIsAhead | src/generation/ai_generator.py:516-537 | a block takes its own cell and, if it is wider, the next ones in its direction |
| BeamSearch.ExpandKeepsPath | src/generation/ai_generator.py:748-832 | whatever the scorer prefers, a child beam is one step further on the greedy walk, on free cells |
| BeamSearch.ExpandNonEmpty | src/generation/ai_generator.py:748-832 | a beam expands exactly when there is a block and the next cell is free |
| BeamRanking.ChildrenAre | src/generation/ai_generator.py:788-832 | the children are the successors of the first top_n entries in falling order of score, entries of equal score as the catalogue lists them |
| BeamRanking.ChildCount | src/generation/ai_generator.py:778-817 | min(top_n, catalogue) children when the next cell is free, none otherwise |
| BeamRanking.ChildCarriesWorth | src/generation/ai_generator.py:788-832 | every child carries on its parent with a catalogue entry, at the score the scorer gave that entry |
| BeamRanking.LeftOutScoresLess | src/generation/ai_generator.py:814-817 | an entry whose child is not among the children scores no more than any child kept |
| BeamRanking.LayerKeepsBest | src/generation/ai_generator.py:921-923 | a depth keeps min(width, children) beams, highest total first, and none has a lower total than a child left out |
| BeamRanking.Lineage | src/generation/ai_generator.py:902-923 | every beam carries on a beam of the depth before |
| BeamRanking.WidthOneIsGreedy | src/generation/ai_generator.py:859-863 | with width one there is one beam at a time, carried on by the first best entry of the catalogue, as long as the next cell is free |
| BeamRanking.WidthOneIgnoresTopN | src/generation/ai_generator.py:859-863 | however many children are looked at |
| BeamRanking.BeamsRecorded | src/generation/ai_generator.py:817-832 | the books of every beam: its total is the sum of its blocks' scores, the two blocks remembered are its last two, the cells taken are the footprints of its blocks, each put one step toward the destination |
| BeamSearch.BeamsOnPath | src/generation/ai_generator.py:748-923 | all beams live at one depth share the same path cells |
| BeamSearch.BeamsInhabited | src/generation/ai_generator.py:892-923 | with one-cell blocks a depth is inhabited exactly while the walk is free and the catalogue non-empty |
| BeamSearch.BeamsArriveTogether | src/generation/ai_generator.py:738-745 | beams arrive all at once, after exactly the needed number of steps |
| BeamSearch.DepthReached | src/generation/ai_generator.py:892-929 | the search stops at the destination, at the depth cap, for want of a block, or in front of an occupied cell, and nowhere else |
| BeamSearch.Conclude | src/generation/ai_generator.py:925-976 | the best completed beam, or the best beam of the last depth reached, with the reason why none is complete |
| BeamSearch.BestOf | src/generation/ai_generator.py:953-968 | the beam picked is the first of those with the best mean score, fewer blocks on a tie |
| BeamSearch.IntervalClosedForm | src/generation/ai_generator.py:871-976 | success is a condition on the inputs alone: a block to place, a free greedy walk, and max(0,abs(dx)-1) + max(0,abs(dz)-1) within the depth cap; the reason is no_valid_candidates exactly when no first step is possible |
| BeamSearch.Synthesis.GenerateInterval | src/generation/ai_generator.py:835-976 | the blocks, path and score are those of the best beam of the arriving depth, or of the last depth reached when rejected; occupancy grows by exactly the winner's cells and only on success; with one-cell blocks the number of steps taken settles success and reason |
| BeamRanking.WinnerIsFirst | src/generation/ai_generator.py:964-968 | that best beam is the first of its depth, which has the highest total and the highest mean |
| BeamRanking.OutcomeIsTopBeam | src/generation/ai_generator.py:925-976 | so an interval shows the beam with the highest total of the depth it ends in, whole or partial |
| BeamSearch.GenerateMap | src/generation/ai_generator.py:1263-1309 | the route joins the results of the intervals with known ends, in order, each searched with the width clamped to one, the block at its source anchor, and the cells of the anchors and of the winners before it taken, up to the first reject; synthesised cells are pairwise distinct and never an anchor cell, also in partial routes; with one-cell blocks the outcome is either all walks, or the walks up to the first interval that cannot be built, that interval's own steps, and its reason |
| BeamSearch.MapClosedForm | src/generation/ai_generator.py:1263-1309 | a map of one-cell blocks succeeds if and only if there is a block when one is needed, every walk fits the depth cap, and the walks are pairwise disjoint and keep off the anchors |
| BeamSearch.IntervalLength | src/generation/ai_generator.py:835-976 | a successful interval has exactly the needed number of blocks and records all their cells |
| Assembly.RankingsAreOrders | src/generation/assembly.py:141-205 | both tie-break keys are total orders up to ties |
| Assembly.RankedPermutes | src/generation/assembly.py:319-323 | ranking permutes the pool and sorts it by the key in use |
| AssemblyChoice.TieBreakIsKeyOrder | src/generation/assembly.py:141-168 | the ranking is the order of the key tuples: learned score, combined score, length, id, an absent score standing for -1 |
| AssemblyChoice.ValidatedIsKeyOrder | src/generation/assembly.py:176-205 | with validation, the zero floor and the validation score come right after the learned score |
| AssemblyChoice.RankingStable | src/generation/assembly.py:319 | candidates that tie in the whole key keep the order they came in |
| Assembly.PickInRange | src/generation/assembly.py:208-225 | the pick lies in the best min(k, pool) |
| AssemblyChoice.PickReaches | src/generation/assembly.py:208-225 | every index below min(max(1, k), pool) is picked, by the digest of that value |
| AssemblyChoice.PickCongruent | src/generation/assembly.py:208-225 | digests congruent modulo that bound pick the same index |
| Assembly.IndexByInterval | src/generation/assembly.py:288-295 | the dictionary groups the candidates by interval, order kept |
| Assembly.ChooseOne | src/generation/assembly.py:303-331 | an interval gets its choice exactly when it has a scored corridor; which one is fixed by `AssemblyChoice.ChoiceReaches` and `AssemblyChoice.ChoiceCongruent` |
| AssemblyChoice.ChoiceReaches | src/generation/assembly.py:325-331 | for every p below min(max(1, k), pool), a digest of value p makes the choice the p-th of the ranking |
| AssemblyChoice.ChoiceCongruent | src/generation/assembly.py:325-331 | seeds and digests that are congruent modulo that bound choose the same corridor |
| AssemblyChoice.TopOneIsBest | src/generation/assembly.py:325-331 | with top_k at most one, the choice ranks before every scored corridor of its interval, whatever the seed |
| Assembly.ChooseAll | src/generation/assembly.py:297-372 | all choices, or the first interval without a scored corridor |
| Assembly.FirstBreak | src/generation/assembly.py:385-413 | the first neighbouring pair that does not link, and why |
| Assembly.ChoicesShareAnchors | src/generation/assembly.py:385-413 | neighbouring choices name the anchor between them, so chain_broken is unreachable |
| Assembly.BreakIsSchema | src/generation/assembly.py:385-413 | the only possible break is an empty path |
| AssemblyChoice.ContinuousIsOneStep | src/generation/assembly.py:228-238 | cells continue each other when they differ by at most one along each axis |
| Assembly.AssembleRoute | src/generation/assembly.py:244-430 | the outcome in terms of the choices: each error with its condition, or a route with exact totals and mean confidence; seed and top_k act through the choices |
| Assembly.Totals | src/generation/assembly.py:415-430 | the totals are the sums of lengths, times and learned scores |
| Assembly.RankedScores | src/generation/assembly.py:161-205 | with and without the validation tie-break the pool lists the same learned scores in the same order |
| Assembly.ChoiceScores | src/generation/assembly.py:306-331 | the two choices of an interval have equal learned scores |
| Assembly.GateClosedForm | src/generation/finishability.py:56-87 | the gate's verdict in closed form on all inputs: an empty path among the choices of a route of several intervals, or else the coverage and whether the mean learned score reaches 0.3 decide; the time is the sum over the chosen corridors, and absent for an error |
| Assembly.InterferenceExact | src/generation/assembly.py:161-205 | two uses of the validator lead to the same verdict if and only if both or neither of them chooses a corridor without cells on a route of several intervals |
| ValidatedAssembly.EmptyPathInterferes | src/generation/assembly.py:385-395 | a route of two intervals that a validator turns from verified to rejected |
| Assembly.ValidatorCannotInterfere | src/generation/assembly.py:161-205 | for every seed, top_k and validator, verified flag, reject reason and confidence are the same with and without the validation tie-break, when the route is one interval or tied candidates all have cells or all have none |
| Assembly.AllPathedSettles | src/generation/assembly.py:385-395 | which is so in particular when every corridor has cells |
| Assembly.ScoreInterval | src/generation/assembly.py:624-685 | one interval is validated and no other interval is touched |
| Assembly.ScoreTop | src/generation/assembly.py:624-685 | exactly the scored candidates among the best of each interval get the validator's score, and nothing but validation scores changes |
| Assembly.IndexIsRank | src/generation/assembly.py:647-660 | the index given to the validator is the number of intervals with candidates that sort before this one |
| Assembly.IndexAgrees | src/generation/assembly.py:647-660 | it is the index of the assembly loop if and only if exactly that many intervals with candidates sort before it |
| Assembly.IndexOnFullRoute | src/generation/assembly.py:647-660 | it is, when the intervals sort in route order, every interval so far has a candidate and no candidate is off the route |
| AssemblyChoice.RisingRouteSorted | src/generation/assembly.py:647-650 | the first of these holds when the anchors come in rising order |
| AssemblyChoice.KeyTiers | src/generation/assembly.py:647-650 | intervals sort by source order, destination order, source tag, destination tag |
| Assembly.IndexShifted | src/generation/assembly.py:647-660 | with no candidate for the first interval, the second is given index 0 |
| Assembly.AssembleWithValidator | src/generation/assembly.py:595-614 | the validator pass, capped at max(top_k, 10) per interval, followed by the assembly |
| Assembly.VerdictIgnoresValidator | src/generation/assembly.py:595-614 | any two validators, or a validator and none, lead to the same verified flag, reject reason and confidence when no empty path hangs on a tie |
| Assembly.RankedOrderIndependent | src/generation/assembly.py:141-205 | with unique ids the ranking does not depend on the order of the candidates |
| Assembly.AssemblyOrderIndependent | src/generation/assembly.py:288-430 | with unique ids the whole outcome does not depend on it |
| ValidatedAssembly.TopIsRank | src/generation/assembly.py:654-657 | with unique ids a candidate is asked for exactly when fewer than the cap rank before it in its interval |
| ValidatedAssembly.ValidatedOrderIndependent | src/generation/assembly.py:595-614 | with unique ids the outcome does not depend on candidate order, validator pass included |
| Assembly.ChoiceIsTop | src/generation/assembly.py:306-331 | every chosen corridor is among the best min(k, pool) of its own interval |
| Assembly.ConfidenceBounded | src/generation/assembly.py:415-430 | the confidence lies between the smallest and the largest chosen score |
| Occupancy.BuildOwners | src/constraints/route_macros.py:95-107 | the cell dictionary is "last placement wins" |
| Occupancy.WorldCellsAre | src/constraints/route_macros.py:99-107 | a block covers the cells of its units, turned with the block and moved to its anchor |
| Occupancy.OwnerCovers | src/constraints/route_jumps.py:120-132 | an owned cell is covered by its owner, an unowned one by nobody |
| RouteRuns.TouchSymmetric | src/constraints/route_macros.py:109-117 | sharing a cell face is symmetric |
| RouteRuns.BuildLinks | src/constraints/route_macros.py:109-117 | the links are a function of the map: two placements are linked exactly when the cell index gives one of them as the owner of a cell next to a cell of the other |
| RouteRuns.NeighboursTouch | src/constraints/route_macros.py:109-117 | linked placements share a cell face |
| RouteRuns.OpposingPair | src/constraints/route_macros.py:119-137 | an opposing pair is found exactly when two neighbours lie in opposite directions |
| RouteRuns.OpposingMeans | src/constraints/route_macros.py:119-135 | opposite directions: along every axis on different sides or both level, and not level along all |
| RouteRuns.FindThrough | src/constraints/route_macros.py:119-137 | the through-pieces are exactly the placements with an opposing pair of neighbours |
| RouteRuns.CommentAgrees | src/constraints/route_macros.py:119-137 | a placement is a through-piece exactly when it has two neighbours on opposing sides and no others, if and only if it has two neighbours or no opposing ones |
| RouteRuns.CommentFails | src/constraints/route_macros.py:119-137 | a one-cell block between two others with a third beside it is a through-piece with three neighbours |
| RouteRuns.WalkSide | src/constraints/route_macros.py:147-157 | the walk follows the pointers, takes only free through-pieces, and stops exactly when it is pointed to no through-piece or to one already taken |
| RouteRuns.WalkBoth | src/constraints/route_macros.py:144-157 | a chain is the maximal walk to one side and then to the other from the first free through-piece |
| RouteRuns.FindChains | src/constraints/route_macros.py:139-157 | every chain is maximal given the chains before it, and together they hold every through-piece |
| RouteRuns.ChainsAreValid | src/constraints/route_macros.py:139-157 | maximal chains are simple paths along the links and pairwise disjoint |
| RouteRuns.ChainsUnique | src/constraints/route_macros.py:139-157 | the pointers determine the chains: there is only one list of maximal chains that holds all through-pieces |
| RouteRuns.CutRuns | src/constraints/route_macros.py:158-163 | a chain of n pieces gives exactly its n - min_run + 1 windows |
| RouteRuns.WindowMeans | src/constraints/route_macros.py:159-161 | a window is what follows its position in the chain, as long as max_run and the chain allow |
| RouteRuns.WindowLengths | src/constraints/route_macros.py:158-163 | every window has a length within the bounds |
| RouteRuns.WindowIsRun | src/constraints/route_macros.py:158-163 | consecutive members of a window touch by a cell face |
| RouteRuns.ExtractRuns | src/constraints/route_macros.py:80-163 | the runs of a map are exactly the windows of the maximal chains of its through-pieces, and consecutive members touch |
| RouteMacros.EncodeRun | src/constraints/route_macros.py:168-175 | names and relative steps of a run |
| RouteMacros.CanonicalMacro | src/constraints/route_macros.py:166-183 | the smaller encoding of the run and its reverse |
| RouteMacros.CanonicalLeast | src/constraints/route_macros.py:177-181 | the canonical form is one of the two encodings and at most both |
| RouteMacros.LeqMeans | src/constraints/route_macros.py:181 | the first block name that differs decides, then the first step that differs, by x, y, z and turn |
| Lexicographic.StringLeqMeans | src/constraints/route_macros.py:181 | strings compare by the first character in which they differ, a prefix coming first |
| RouteMacros.LeqTotal | src/constraints/route_macros.py:181 | the comparison used is total and antisymmetric on encodings |
| RouteMacros.ReplayRebuilds | src/constraints/route_macros.py:168-175 | replaying the steps from the first placement rebuilds the run |
| RouteMacros.EncodeMoves | src/constraints/route_macros.py:168-175 | moving a run does not change its encoding |
| RouteMacros.SameEncodingCongruent | src/constraints/route_macros.py:168-175 | runs with one encoding are moved copies of each other |
| RouteMacros.EncodingIffCongruent | src/constraints/route_macros.py:168-175 | equal encodings if and only if one run is a turn and translation of the other |
| RouteMacros.CanonicalComplete | src/constraints/route_macros.py:166-183 | equal canonical forms if and only if one run is a moved copy of the other or of its reverse |
| RouteJumps.OpenEnds | src/constraints/route_jumps.py:134-142 | every open face of every listed cell, as often as the cell is listed, and nothing else |
| RouteJumps.Scan | src/constraints/route_jumps.py:145-168 | at most one flight per open end, and it is found exactly when it exists: first foreign block within the gap limit, the cell before it unowned, nobody else in between |
| RouteJumps.FlightMeans | src/constraints/route_jumps.py:144-168 | a flight crosses one to six cells in front of a covered cell, the first and last of them empty, none another block's, and lands on another block |
| RouteJumps.SameGap | src/constraints/route_jumps.py:145-168 | the distance of the first foreign block is unique |
| RouteJumps.FindFlights | src/constraints/route_jumps.py:144-168 | every flight is listed, once per listing of its take-off cell |
| RouteJumps.ExtractJumps | src/constraints/route_jumps.py:111-169 | the jumps are the named flights of the map, one for each, and never more than the open ends it reports |
| RouteJumps.JumpMeans | src/constraints/route_jumps.py:163-167 | a jump names take-off and landing, carries the gap, and its relative placement leads from the one to the other |
| RouteJumps.CellsAre | src/constraints/route_jumps.py:122-132 | a placement covers the turned cells of its ground variant, or its anchor cell when there is none |
| RouteJumps.ReverseExact | src/constraints/route_jumps.py:145-168 | a flight has its way back if and only if every cell in between is unowned and the take-off cell is owned by the taking-off block |
| RouteJumps.OverOwnCell | src/constraints/route_jumps.py:145-168 | a map in which a flight over the block's own far cell has no way back |
| RouteJumps.FromSharedCell | src/constraints/route_jumps.py:145-168 | a map in which a flight from a cell that a later block also covers has no way back |
| RouteJumps.AlwaysReversible | src/constraints/route_jumps.py:145-168 | among blocks that do not overlap and have no holes along a side direction, every flight has its way back |
| RouteJumps.SingleCellsQualify | src/constraints/route_jumps.py:120-132 | one-cell blocks on different cells are such blocks |
| RouteJumps.JumpsClosedUnderReversal | src/constraints/route_jumps.py:111-169 | their multiset of jumps is closed under reversal with the same gap |
| FaceTransitions.OpenPortsOf | src/constraints/face_transitions.py:174-194 | the port dictionary holds, at each spot, the last port entered there; unknown blocks are counted |
| FaceTransitions.EntriesAre | src/constraints/face_transitions.py:107-139 | a placement enters exactly the indexed clips on the side faces of its ground variant, at the spots they are turned to, under its name and rotation |
| FaceTransitions.KeyMeans | src/constraints/face_transitions.py:196-210 | a key names the block at the spot, the one across, their common clip, and the turn from the one's rotation to the other's |
| FaceTransitions.CountMap | src/constraints/face_transitions.py:196-213 | every key gains the number of matched spots with that key, and the map's key set is exactly the keys that occur |
| FaceTransitions.BumpAll | src/constraints/face_transitions.py:215-216 | exactly the keys of the map gain one hit |
| FaceTransitions.MineTransitions | src/constraints/face_transitions.py:141-216 | over the corpus: exact counts, hits and total |
| FaceTransitions.MapSymmetric | src/constraints/face_transitions.py:196-213 | in every map a key and its reverse are counted equally often, whatever was overwritten |
| FaceTransitions.MapTotalEven | src/constraints/face_transitions.py:196-213 | the number of transitions of a map is even |
| FaceTransitions.CorpusSymmetric | src/constraints/face_transitions.py:159-216 | counts and hits are symmetric, hits never exceed counts, and the total is even |
| FaceTransitions.TablesSymmetric | src/constraints/face_transitions.py:141-216 | the mined tables inherit all of that |
| BlockKeys.KeyRoundTrip | src/constraints/nodes.py:17-41 | storing a key and reading it back gives the same key |
| BlockKeys.StringRoundTrip | src/constraints/nodes.py:36-41 | a string that reads as a key is the string that key is stored under |
| BlockKeys.OrderPairCanonical | src/constraints/nodes.py:44-46 | an unordered pair is stored one way only, smaller key first |
| BlockKeys.SamePair | src/constraints/nodes.py:44-46 | two pairs share an identity if and only if they are the same unordered pair |
| Adjacency.IndexCells | src/constraints/extractor.py:54-66 | first block wins a cell; extraction fails exactly when some grid block has a malformed key |
| Adjacency.GridCellMeans | src/constraints/extractor.py:54-63 | a placement is in a cell exactly when it is not free and has all three coordinates |
| Adjacency.KeyMeans | src/constraints/extractor.py:31-36 | its key is written family, type and variant, an absent variant empty |
| Adjacency.ExtractAdjacencies | src/constraints/extractor.py:39-93 | exactly the pairs in face-adjacent cells are observed, each once, in storage order, with the flags of the extraction |
| Adjacency.AdjacencyMeans | src/constraints/extractor.py:68-93 | a pair is among them exactly when the two blocks stand next to each other, whichever way one looks |
| Adjacency.UniqueBlockKeys | src/constraints/extractor.py:96-108 | the endpoints of the observations, each once |
| GraphBuild.QueryFollowsPolicy | src/constraints/evidence.py:31-63 | the label inside the merge query is the policy's label, which never depends on frequency |
| GraphBuild.MergeTouchesOnce | src/constraints/pipeline.py:159-186 | because an extraction lists no pair twice, the rows of a merge touch each of its edges exactly once |
| GraphBuild.MergeTouchesNodes | src/constraints/pipeline.py:151-156 | after a merge the nodes are the old ones and the endpoints of the extraction |
| GraphBuild.TallyMore | src/constraints/pipeline.py:159-186 | one more merged job adds exactly one claim to the edges it shows |
| GraphBuild.StepKeeps | src/constraints/pipeline.py:283-338 | every claim, merge and crash keeps the protocol invariant |
| GraphBuild.RunKeeps | src/constraints/pipeline.py:283-338 | every interleaving keeps it |
| GraphBuild.EveryInterleaving | src/constraints/pipeline.py:139-186 | after any interleaving the observed count is the number of merged claims showing the edge, flagged counts never exceed it, no claim counts twice, the label is the derived one and both end nodes exist |
| GraphBuild.LabelsOnlyRise | src/constraints/pipeline.py:159-186 | edges are never lost, counts never fall, and labels only move unknown, suspicious, valid |
| GraphBuild.OrphanStays | src/constraints/pipeline.py:139-148 | a claim that nobody holds and nobody merged stays so in every continuation |
| GraphBuild.CrashLosesClaim | src/constraints/pipeline.py:309-333 | a worker that dies or fails to extract between claim and merge loses its claim for good |
| GraphBuild.OrderIrrelevant | src/constraints/pipeline.py:159-186 | runs that merged the same jobs agree on all evidence and labels |
| GraphPipeline.GraphStore.constructor | src/constraints/pipeline.py:139-148 | an empty store is the start of the protocol |
| GraphPipeline.GraphStore.ClaimMap | src/constraints/pipeline.py:189-205 | a claim is new exactly when it was absent, and is present afterwards |
| GraphPipeline.GraphStore.MergeGraph | src/constraints/pipeline.py:208-238 | merging the rows of an extraction is one merge step of the protocol, and all its node and edge rows are counted |
| GraphPipeline.RowMatches | src/constraints/pipeline.py:159-186 | an edge row is merged and counted exactly when both its end nodes are there |
| GraphPipeline.MergeClaimed | src/constraints/pipeline.py:315-333 | after a won claim: a full merge, or no change at all when extraction or transaction raises |
| GraphPipeline.KeysAreEndpoints | src/constraints/extractor.py:96-108 | the node rows of a merge are as many as the endpoints of its pairs |
| GraphPipeline.ProcessOne | src/constraints/pipeline.py:283-338 | each row is the corresponding protocol steps, and the one statistic that its ending calls for is counted: processed, no placements, already processed, or error; the job of a row is fixed by `PipelineEvidence.JobIsFromRow` |
| PipelineEvidence.JobIsFromRow | src/constraints/pipeline.py:290-325 | a job carries its row's map, parser and placements, the run's snapshot if there is one and else the row's own, is benchmark exactly when its map is in the benchmark set and broken exactly when it is in the broken set; there is none exactly when no snapshot is known |
| PipelineEvidence.EndingOf | src/constraints/pipeline.py:283-338 | which of the four ways a row ends, from what was claimed before the run and asked for by earlier rows |
| GraphPipeline.RunPipeline | src/constraints/pipeline.py:257-281 | a run is a run of the protocol, and every statistic of it is settled row by row: seen = processed + skipped + errors, each processed row is one merged claim, and observations and edge rows are those of the merged claims; what it merges and counts is said by the `PipelineEvidence` rows |
| PipelineEvidence.LogIsWonJobs | src/constraints/pipeline.py:257-338 | a run merges exactly the jobs of the rows that have placements and a snapshot, whose transactions go through, and whose claim was neither there before nor asked for by an earlier row, in order |
| PipelineEvidence.MergedFromRows | src/constraints/pipeline.py:257-338 | every job merged from an empty store comes from a row of the run, with that row's placements, parser and snapshot and the flags of its map |
| PipelineEvidence.EvidenceOfRun | src/constraints/pipeline.py:159-186 | after a run from an empty store an edge counts the merged claims that show it, its benchmark count is the number of those of benchmark maps, its broken count of broken fixtures; it is valid exactly when a benchmark map shows it, suspicious exactly when only a broken one does |
| PipelineEvidence.StatsTallyEndings | src/constraints/pipeline.py:257-338 | each statistic counts the rows that end its way, or adds up what the processed rows contributed |
| GraphPipeline.RerunChangesNothing | src/constraints/pipeline.py:257-338 | a second run over the same rows changes nothing if and only if every claim it asks for was there before or was asked for in the first run |
| GraphPipeline.ClaimsThroughSuffice | src/constraints/pipeline.py:257-338 | which is so whenever no claim transaction failed the first time, whatever merges fail in either run |
| Realisation.Accumulate | tools/realise_generated_map.py:89-103 | pass one follows places and revisits from the origin; what a revisit does is said by the rows below |
| Realisation.RevisitReturns | tools/realise_generated_map.py:99-102 | after a place and any tokens, a revisit of one more than the places among them brings the cursor back to where that place left it, and places nothing |
| Realisation.RevisitAfterPlaces | tools/realise_generated_map.py:99-102 | in particular n further places and REVISIT n + 1 |
| Realisation.RevisitOutOfRange | tools/realise_generated_map.py:99-102 | a revisit below one or beyond the placed blocks changes nothing, and neither does any other token |
| Realisation.TraceExtends | tools/realise_generated_map.py:92-98 | every place appends one block and nothing else does |
| Realisation.AbsentRotation | tools/realise_generated_map.py:132-141 | a place without a rotation is a place with rotation zero |
| Realisation.OriginMovesShape | tools/realise_generated_map.py:89-103 | another origin moves every block by the same amount, revisits included |
| Realisation.OriginIrrelevant | tools/realise_generated_map.py:89-141 | whatever origin pass one starts from, the emitted blocks are the same |
| Realisation.TokensToBlocks | tools/realise_generated_map.py:71-141 | the emitted blocks and the report, for every token list, revisits as above |
| Realisation.OversizeExact | tools/realise_generated_map.py:107-126 | a sequence is refused exactly when no translation at all brings every block inside the 48x40x48 grid |
| Realisation.EmittedFaithful | tools/realise_generated_map.py:107-141 | nothing is emitted, or everything is: in order, inside the grid, with names, rotations and all pairwise displacements kept |
| Realisation.OversizeIsDropped | tools/realise_generated_map.py:107-126 | of two blocks 48 cells apart neither is emitted |
| Realisation.EmittedRests | tools/realise_generated_map.py:123-131 | centred to within one cell in x and z; on the ground when the top then stays inside, against the top otherwise |
| Realisation.PositionForgotten | tools/realise_generated_map.py:107-141 | any translate of a shape is emitted as the same blocks |
| Realisation.BlocksToTokens | tools/export_raw_map_sequences.py:112-124 | displacements between successive blocks, rotations modulo 4 |
| Realisation.ExportTraces | tools/export_raw_map_sequences.py:112-124 | the exported tokens trace the same blocks, moved so that the first is at the origin |
| Realisation.RoundTrip | tools/export_raw_map_sequences.py:112-124 | exporting and realising is realising the blocks themselves with reduced rotations |
| Realisation.RoundTripExact | tools/realise_generated_map.py:107-141 | blocks that fit come back as one translate with the same names and rotations modulo 4; others do not come back |
| Realisation.RealisedIsStable | tools/realise_generated_map.py:107-141 | what was realised once is a fixed point of export and realisation, up to reducing rotations |

## Left out

- Database reads and upserts, catalogue loading, reconnects, command lines, file-drop channels and the C# wrapper: input and output only.
- Language-model training and sampling, and the text parser of generated tokens: other libraries; tokens are taken as already parsed.
- SHA and BLAKE digests and JSON encoding: an arbitrary function in the assembly, and left off the canonical macro, which is compared before hashing.
- SortedCounter.Counter.Compact: the 64-bit and 32-bit widths of the value columns are not modelled; the totals are unbounded integers with the bounds of `PairMiner.PairTotalsBounded` and `PairMiner.MapTotalsBounded`.
- PairMiner.MineCorpus: the same widths, for the same reason.
- Floating-point rounding: scores are real numbers; travel times are an arbitrary function of path length.
- `score_candidate`, the pair and triple priors and the walker's bias weights: arbitrary functions, because no result depends on them.
- `_detect_and_order_anchors`: anchors and the linked flag enter the assembly as inputs; the function collapses multi-cell anchors (the first row of a tag and order wins), decides linkedness from the tags present, and orders spawn, checkpoints and goal.
- Name-pattern filters for support and route-surface blocks: placements enter the run and jump miners already filtered, with rotations reduced modulo 4.
- The cells of a placement enter `RouteRuns.ExtractRuns` as an argument, because the result holds for any footprints. Which of several opposing pairs of neighbours a through-piece gets depends on Python's set order, so the model leaves it open.
- Negative neighbourhood radii and negative window widths: the model takes natural numbers there, as the constants in the source are.
- Neo4j internals: each write transaction is one atomic step, and driver retries are not modelled; timestamps and the stage version are not stored.
- Log and detail strings of errors and reports: only the reason and the interval are kept.
- Family tables, report renderers, diversity statistics and versioning: they would only add easy members.
