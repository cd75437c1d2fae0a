# Verified models of the extractors, Detour and the login server

This project models the hardest parts of a World of Warcraft server emulator's tools in Dafny and proves what they are
relied on for. `dafny verify dfyconfig.toml` checks all of it.

- **Collision trees** (`BihLayout`, `BihShape`, `BihBuild`). The builder of the bounding interval hierarchy partitions an index
  array in place and emits packed words. A reference walker, written from the emitted layout (axis in bits 30-31, clip
  flag in bit 29, right child three words after the left), is proved to answer every box query exactly like a test of
  every box, and the tree has exactly the shape the splitting rules call for. Coordinates are the ordered keys of the finite 32-bit floats, so the retry loop runs on a finite grid and
  its termination is proved; half sums, extents and the width test are arbitrary functions of which only `lo <= mid <=
  hi` and "a split is close to itself" are used.
- **Path search** (`NodeHeap`, `DetourNode`, `PathTree`, `PathSearch`, `PathLeast`, `PathFinder`, `CircleSearch`). The
  node pool with its hash chains, the hole-moving binary heap, A* with reopening of closed nodes and its least-cost
  result, and the Dijkstra variant around a circle. Costs are naturals; positions, costs, portal midpoints and the
  filter are arbitrary functions.
- **Tile manager** (`IndexLists`, `NavTile`, `NavState`, `NavLinks`, `NavAsked`, `NavRun`, `NavMesh`). Slots on a free
  list or on hash chains, salted references, and per tile a free list of links and one list per polygon. `Valid()` is
  the invariant of every run: all methods start from it and restore it. Adding and removing tiles is stated link by
  link: which must be there, which stay, and that no others appear; `NavMesh.NavMesh.Run` follows references over whole
  runs. Polygon geometry (which portal edges touch, where off-mesh connections land) is arbitrary.
- **Tile trees** (`BvTree`, `BvQuantize`). The preorder tree with escape offsets, its two readers, and quantization over
  the reals.
- **Login** (`BigNumber`, `Srp6`, `AuthSession`). Number encodings, the SRP6 handshake with SHA-1 as an arbitrary
  function to 20 bytes, from account creation to an accepted proof, and the session's command order.
- **Realm list and connections** (`RealmList`, `ConnectionTracker`). Staleness over whole poll histories; connection
  counts over all interleavings.
- **Map files and meshes** (`MapCodec`, `MapFile`, `MapRoundTrip`, `MeshLoad`, `MeshCompact`). Height packing and the
  liquid rectangle, the bytes of a file with their offsets, the way from grids through a file to the loader, the
  triangle loaders, and vertex compaction.

`Basics` holds optional values, bytes and a few facts about sequences.

Where code and documentation disagree the models follow the code:

- The tree of n polygons has 2n-1 nodes but 2n are stored and read, so the zero-filled last node acts as a leaf for
  polygon 0 (`BvTree.TreeAnswers`).
- The salt of a logon challenge is commented as 32 bytes but sent unpadded (`Srp6.SaltFillsField`).
- Quantized queries are conservative only for tiles less than 65535 steps wide (`BvQuantize.ConservativeExactly`).
- `clean_vertices` moves every vertex if some index is negative, while indices beyond the vertices are harmless
  (`MeshCompact.CompactionKeeps`).
- `proof` compares as many bytes as the message has; for the 20 bytes of a real message that is equality with the digest
  (`Srp6.ProofCompares`).

## Model

| member | source | states |
|---|---|---|
| `BihLayout.WalkIsScan` | crates/extractors/src/vmap_assemble.rs:867-1044 | Walking any node array that encodes a tree whose planes contain the boxes they guard reports exactly the objects a linear scan reports, in stored order |
| `BihLayout.OverlapsShares` | crates/extractors/src/vmap_assemble.rs:802-847 | Overlap, as queries test it, means a common point |
| `BihLayout.EncodesFrame` | crates/extractors/src/vmap_assemble.rs:987-1042 | A subtree stays readable while words outside its own node and child range are appended or patched |
| `BihLayout.CoversFrame` | crates/extractors/src/vmap_assemble.rs:1038-1043 | Rearranging primitives outside a range does not affect the subtree over that range |
| `BihBuild.SweepAllPartitions` | crates/extractors/src/vmap_assemble.rs:903-929 | A finished sweep has split the range by centre; both clip planes are attained and no box of a side crosses its plane; the node extent contains every box |
| `BihBuild.SweepAllPermutes` | crates/extractors/src/vmap_assemble.rs:909-929 | The sweep only permutes the indices of its own range |
| `BihBuild.SweptIsExact` | crates/extractors/src/vmap_assemble.rs:903-929 | A finished sweep has counted exactly the centres at or below the split, and its planes and extents are the least and greatest coordinates of its sides |
| `BihBuild.Builder.Partition` | crates/extractors/src/vmap_assemble.rs:903-929 | The in-place loop with swaps computes that sweep |
| `BihBuild.Builder.Pass` | crates/extractors/src/vmap_assemble.rs:899-929 | One pass keeps the array a permutation confined to the range and gives exactly the number of centres at or below the middle of the longest axis, the attained planes of both sides and the attained extent |
| `BihBuild.DecideStops` | crates/extractors/src/vmap_assemble.rs:931-1003 | Whatever a pass decides on (leaf, clip node, split, remembered empty side) is justified by the boxes; both halves of a split are non-empty |
| `BihBuild.DecideProgresses` | crates/extractors/src/vmap_assemble.rs:954-983 | Every retry shrinks the grid box, or leaves it alone and was not itself a repeat of the same axis and split |
| `BihBuild.DecideExact` | crates/extractors/src/vmap_assemble.rs:931-1003 | A verdict is what the turns so far call for: a clip node exactly when the extent is small against the node box, a split exactly when both sides hold something, a retry on the half grid otherwise, a leaf exactly on a repeat of axis and middle |
| `BihBuild.DecidesPermuted` | crates/extractors/src/vmap_assemble.rs:931-1003 | What is decided depends on the set of primitives only, not on their order |
| `BihBuild.Builder.ChooseSplit` | crates/extractors/src/vmap_assemble.rs:872-1004 | The retry loop terminates and returns the choice that a trail of turns over ever smaller grids calls for, with the range permuted |
| `BihBuild.Builder.CreateNode` | crates/extractors/src/vmap_assemble.rs:849-852 | The two words written are a leaf for the range, nothing else changes |
| `BihBuild.Builder.EmitNode` | crates/extractors/src/vmap_assemble.rs:939-945 | The tag word decodes to axis, clip flag and the index of the first new word; both planes decode to themselves; all other words stay |
| `BihBuild.Builder.EmitSkipped` | crates/extractors/src/vmap_assemble.rs:986-1001 | The one-sided node leads to the fresh node through its left or, with offset minus 3, through its right child |
| `BihBuild.EncodesSplit` | crates/extractors/src/vmap_assemble.rs:1006-1043 | Two subtrees built one after the other behind a split node make an encoded split |
| `BihBuild.CoversSplit` | crates/extractors/src/vmap_assemble.rs:1038-1043 | Two halves, each permuted by its own recursion, make a covered split and a permutation of the whole range |
| `BihBuild.BudgetSplit` | crates/extractors/src/vmap_assemble.rs:1006-1043 | The words both halves may append, plus 9, fit the budget of the whole |
| `BihBuild.Builder.SubdivideClip` | crates/extractors/src/vmap_assemble.rs:938-951 | A clip node over the recursive result is encoded and covered, within the budget |
| `BihBuild.Builder.SubdivideSplit` | crates/extractors/src/vmap_assemble.rs:984-1003 | The same for a split, with or without the one-sided node above it |
| `BihBuild.Builder.SubdivideHalves` | crates/extractors/src/vmap_assemble.rs:1006-1043 | The same for the two child recursions over disjoint ranges |
| `BihBuild.Builder.BuildChoice` | crates/extractors/src/vmap_assemble.rs:935-1043 | The node or nodes of the choice are built: the tree has the shape chosen |
| `BihBuild.ChoiceShapes` | crates/extractors/src/vmap_assemble.rs:935-1043 | A choice with shaped subtrees is a shaped tree |
| `BihShape.ShapedFrame` | crates/extractors/src/vmap_assemble.rs:1038-1043 | The shape over a range is not affected by rearranging primitives outside it |
| `BihShape.ShapedLeaves` | crates/extractors/src/vmap_assemble.rs:867-870 | In a shaped tree every leaf holds at most leafSize primitives, stands at depth 64, or is stuck: a trail of turns over its primitives ends in a repeat of axis and middle with all centres on one side |
| `BihBuild.Builder.Subdivide` | crates/extractors/src/vmap_assemble.rs:855-1044 | Node `at` encodes a tree whose leaves are exactly the range, every plane contains the boxes below it, child indices exceed their parent, earlier words are kept, the words appended are exactly those of the tree; and the tree has exactly the shape that leaf size, depth and the turns on the grid call for |
| `BihBuild.Bounds` | crates/extractors/src/vmap_assemble.rs:808-812 | The smallest box that contains every primitive box; all zero without primitives |
| `BihBuild.HitsCount` | crates/extractors/src/vmap_assemble.rs:802-847 | A scan reports an index as often as it occurs and overlaps |
| `BihBuild.BuiltAnswersLikeScan` | crates/extractors/src/vmap_assemble.rs:802-847 | For every query box each primitive is reported once if its box overlaps and never otherwise |
| `BihBuild.Build` | crates/extractors/src/vmap_assemble.rs:802-847 | Objects are a permutation of all primitives, bounds the smallest box around them; the tree has exactly the shape that leaf size, depth and the turns on the grid call for, so every leaf is small enough, at depth 64 or stuck; at most 192 words per primitive, so offsets stay clear of the tag bits; every query is answered like a scan |
| `NodeHeap.RiseOrders` | thirdparty/recastnavigation/Detour/Source/DetourNode.cpp:172-183 | Moving parents into the hole until the element fits restores the heap order |
| `NodeHeap.SinkOrders` | thirdparty/recastnavigation/Detour/Source/DetourNode.cpp:185-198 | Sinking the hole to a leaf along smaller children keeps order everywhere but at the hole |
| `NodeHeap.PushCorrect` | thirdparty/recastnavigation/Detour/Include/DetourNode.h:126-130 | Push keeps the order and adds exactly the element |
| `NodeHeap.PopCorrect` | thirdparty/recastnavigation/Detour/Include/DetourNode.h:118-124 | Pop takes a minimum, keeps the order and removes exactly that element |
| `NodeHeap.ModifyCorrect` | thirdparty/recastnavigation/Detour/Include/DetourNode.h:132-142 | After a decrease of its key, modify restores the order and keeps the contents |
| `DetourNode.ChainFrame` | thirdparty/recastnavigation/Detour/Source/DetourNode.cpp:108-119 | Bucket chains depend only on the ids of live nodes |
| `DetourNode.ChainExtends` | thirdparty/recastnavigation/Detour/Source/DetourNode.cpp:136-149 | Linking a new slot at the head of its bucket extends the chains, stale next entries beyond the count included |
| `DetourNode.NodePool.constructor` | thirdparty/recastnavigation/Detour/Source/DetourNode.cpp:60-74 | An empty pool |
| `DetourNode.NodePool.Clear` | thirdparty/recastnavigation/Detour/Source/DetourNode.cpp:83-87 | An empty pool again, whatever the next array still holds |
| `DetourNode.NodePool.FindNode` | thirdparty/recastnavigation/Detour/Source/DetourNode.cpp:108-119 | Finds the node of a key if and only if there is one |
| `DetourNode.NodePool.GetNode` | thirdparty/recastnavigation/Detour/Source/DetourNode.cpp:121-152 | A map from (id, state) to nodes: an existing key gives its node untouched, a new one appends one node, and it fails exactly when the key is new and the pool full |
| `DetourNode.NodeQueue.BubbleUp` | thirdparty/recastnavigation/Detour/Source/DetourNode.cpp:172-183 | The array loop computes the rise of the hole |
| `DetourNode.NodeQueue.TrickleDown` | thirdparty/recastnavigation/Detour/Source/DetourNode.cpp:185-200 | The array loop computes the sink of the hole followed by the rise |
| `DetourNode.NodeQueue.Push` | thirdparty/recastnavigation/Detour/Include/DetourNode.h:126-130 | The heap contents become the push of the node |
| `DetourNode.NodeQueue.Pop` | thirdparty/recastnavigation/Detour/Include/DetourNode.h:118-124 | Returns the root; the heap contents become the pop |
| `DetourNode.NodeQueue.Modify` | thirdparty/recastnavigation/Detour/Include/DetourNode.h:132-142 | The entry of the node rises from its position; without an entry nothing changes |
| `PathTree.TreeAdds` | thirdparty/recastnavigation/Detour/Source/DetourNavMeshQuery.cpp:1128-1134 | A first visit keeps the parent links a tree rooted at the start in which every cost is at least the parent's plus the edge |
| `PathTree.CheaperAvoids` | thirdparty/recastnavigation/Detour/Source/DetourNavMeshQuery.cpp:1121-1134 | A node that a cheaper route reaches is not an ancestor of the node being expanded |
| `PathTree.TreeImproves` | thirdparty/recastnavigation/Detour/Source/DetourNavMeshQuery.cpp:1121-1134 | Re-parenting an open or closed node at a lower cost keeps the tree acyclic |
| `PathTree.ChainIsRoute` | thirdparty/recastnavigation/Detour/Source/DetourNavMeshQuery.cpp:1167-1205 | Following parents back from a node spells a linked, filter-passing route from the start |
| `PathSearch.StepAdds` | thirdparty/recastnavigation/Detour/Source/DetourNavMeshQuery.cpp:1128-1145 | Opening a new node keeps the invariant: open exactly if in the heap, once; heap ordered; tree; no followed link of an expanded node undercuts the recorded cost of the polygon behind it |
| `PathSearch.StepReopens` | thirdparty/recastnavigation/Detour/Source/DetourNavMeshQuery.cpp:1124-1145 | So does reopening a closed node, which then no longer counts as expanded |
| `PathSearch.StepDecreases` | thirdparty/recastnavigation/Detour/Source/DetourNavMeshQuery.cpp:1121-1139 | So does lowering an open node in the heap |
| `PathSearch.StepPops` | thirdparty/recastnavigation/Detour/Source/DetourNavMeshQuery.cpp:1022-1025 | So does closing the cheapest node |
| `PathSearch.StepRunsOut` | thirdparty/recastnavigation/Detour/Source/DetourNavMeshQuery.cpp:1073-1079 | So does noting that a polygon without a node finds the pool full |
| `PathSearch.BackSettled` | thirdparty/recastnavigation/Detour/Source/DetourNavMeshQuery.cpp:1043-1052 | The link back to where a node was reached from, which the search skips, undercuts nothing |
| `PathSearch.SkipSettled` | thirdparty/recastnavigation/Detour/Source/DetourNavMeshQuery.cpp:1119-1125 | A neighbour skipped for its total has a cost no way through the current node undercuts |
| `PathSearch.NearStep` | thirdparty/recastnavigation/Detour/Source/DetourNavMeshQuery.cpp:1147-1152 | The remembered node stays the visited one with the smallest heuristic |
| `PathSearch.RouteVisited` | thirdparty/recastnavigation/Detour/Source/DetourNavMeshQuery.cpp:1020-1154 | When the open list runs empty with no allocation refused, every reachable polygon was visited |
| `PathSearch.Exhausted` | thirdparty/recastnavigation/Detour/Source/DetourNavMeshQuery.cpp:1020-1154 | Hence the goal is unreachable if such a search ends without it |
| `PathLeast.NeverRunsOut` | thirdparty/recastnavigation/Detour/Source/DetourNavMeshQuery.cpp:1073-1079 | A pool with a slot for every polygon and side that can be met never refuses one |
| `PathLeast.Follow` | thirdparty/recastnavigation/Detour/Source/DetourNavMeshQuery.cpp:1020-1154 | Any walk from the start stays among expanded nodes, each recorded at no more than the cost of walking there, until it meets an open or the current node recorded so |
| `PathLeast.ExhaustedLeast` | thirdparty/recastnavigation/Detour/Source/DetourNavMeshQuery.cpp:1020-1154 | When the open list runs empty with no allocation refused, every stop of every walk was visited at no more than its walking cost |
| `PathLeast.GoalLeast` | thirdparty/recastnavigation/Detour/Source/DetourNavMeshQuery.cpp:1020-1034 | If the heuristic is consistent and no allocation was refused, the cost of the goal when it is closed is at most the cost of every walk to it |
| `PathLeast.TreeCost` | thirdparty/recastnavigation/Detour/Source/DetourNavMeshQuery.cpp:1167-1205 | The route read off the parent links costs no more than the recorded cost of its end |
| `PathLeast.StopsLed` | thirdparty/recastnavigation/Detour/Source/DetourNavMeshQuery.cpp:1067-1070 | Every step of the stops read off the tree follows a link across the side the stop was entered by |
| `PathLeast.RouteRead` | thirdparty/recastnavigation/Detour/Source/DetourNavMeshQuery.cpp:1167-1205 | From any node a linked route from the start is read off, led stop by stop, costing no more than recorded |
| `PathFinder.Finder.Visit` | thirdparty/recastnavigation/Detour/Source/DetourNavMeshQuery.cpp:1080-1145 | One neighbour node: added, reopened, improved or skipped, each a step that keeps the invariant |
| `PathFinder.Finder.Relax` | thirdparty/recastnavigation/Detour/Source/DetourNavMeshQuery.cpp:1050-1153 | One link, including the parent and filter exits; out of nodes is noted exactly for a polygon without a node at a full pool |
| `PathFinder.Finder.Expand` | thirdparty/recastnavigation/Detour/Source/DetourNavMeshQuery.cpp:1041-1153 | All links of the closed node; afterwards none of them undercuts a recorded cost, and progress was made unless nothing changed |
| `PathFinder.Finder.Start` | thirdparty/recastnavigation/Detour/Source/DetourNavMeshQuery.cpp:1003-1016 | The initial state satisfies the invariant |
| `PathFinder.Finder.CloseBest` | thirdparty/recastnavigation/Detour/Source/DetourNavMeshQuery.cpp:1022-1025 | Pops and closes a node no dearer than any open one, keeping the invariant |
| `PathFinder.Finder.Search` | thirdparty/recastnavigation/Detour/Source/DetourNavMeshQuery.cpp:1020-1154 | Terminates; positions are portal midpoints of the first visit and totals cost plus distance left; ends at the goal, at least cost if the heuristic is consistent, or, once everything open is expanded, at the nearest visited node with the goal unreachable and all costs least, unless the pool ran out; that is noted only with a full pool and a polygon it refused |
| `PathFinder.Finder.GetPathToNode` | thirdparty/recastnavigation/Detour/Source/DetourNavMeshQuery.cpp:1167-1205 | The buffer receives the front of the chain from the root, the count is the smaller of length and buffer, too-small is reported exactly when cut |
| `PathFinder.Finder.FindPath` | thirdparty/recastnavigation/Detour/Source/DetourNavMeshQuery.cpp:973-1165 | Fails exactly on invalid input; otherwise a prefix of a real route from the start, partial exactly when its end is not the goal, and, unless nodes ran out, partial exactly when the goal is unreachable. The route and its stops are read off the parent links, every step a link across the side of its stop; the stops cost no more than recorded at the end node, and that cost, if the heuristic is consistent, no more than any walk to the goal; a partial route ends at a nearest visited polygon after everything open was expanded; out of nodes is reported only with a full pool and a reachable polygon it refused |
| `CircleSearch.CPops` | thirdparty/recastnavigation/Detour/Source/DetourNavMeshQuery.cpp:2760-2764 | Closing the cheapest node appends it to an order of non-decreasing totals without repetition |
| `CircleSearch.CAdds` | thirdparty/recastnavigation/Detour/Source/DetourNavMeshQuery.cpp:2835-2863 | A new node costs its closed parent's total plus the leg, and keeps the order |
| `CircleSearch.NewPlaced` | thirdparty/recastnavigation/Detour/Source/DetourNavMeshQuery.cpp:2832-2837 | A new node lies in the middle of the portal from the first closed polygon that leads to it |
| `CircleSearch.CDecreases` | thirdparty/recastnavigation/Detour/Source/DetourNavMeshQuery.cpp:2845-2858 | So does a cheaper way to an open node |
| `CircleSearch.CRunsOut` | thirdparty/recastnavigation/Detour/Source/DetourNavMeshQuery.cpp:2825-2830 | So does noting that a polygon without a node finds the pool full |
| `CircleSearch.CostAttained` | thirdparty/recastnavigation/Detour/Source/DetourNavMeshQuery.cpp:2760-2864 | Every reported cost is the cost of a walk from the start that stays within the circle |
| `CircleSearch.CostLeast` | thirdparty/recastnavigation/Detour/Source/DetourNavMeshQuery.cpp:2760-2864 | No such walk to a reported polygon is cheaper |
| `CircleSearch.ResultsExact` | thirdparty/recastnavigation/Detour/Source/DetourNavMeshQuery.cpp:2760-2864 | With room for every node, exactly the polygons around the start are reported, at least cost |
| `CircleSearch.Finished` | thirdparty/recastnavigation/Detour/Source/DetourNavMeshQuery.cpp:2760-2864 | In any case every hop from a reported polygon that stays within the circle leads to a reported polygon or to one refused by a full pool |
| `CircleSearch.CircleFinder.Relax` | thirdparty/recastnavigation/Detour/Source/DetourNavMeshQuery.cpp:2799-2863 | One link of the polygon being expanded, with every early exit; out of nodes is noted exactly for a polygon without a node at a full pool |
| `CircleSearch.CircleFinder.Expand` | thirdparty/recastnavigation/Detour/Source/DetourNavMeshQuery.cpp:2797-2863 | All links: afterwards no hop from the closed polygon undercuts a recorded cost |
| `CircleSearch.CircleFinder.FindPolysAroundCircle` | thirdparty/recastnavigation/Detour/Source/DetourNavMeshQuery.cpp:2720-2870 | Terminates; results are the front of a list with each polygon at most once, costs non-decreasing, each but the start lying in the middle of the portal from the first reported polygon that leads to it, parents reported earlier and costs adding up along them; too-small exactly when cut; complete and least-cost unless nodes ran out, which is reported only with a full pool and a polygon it refused, and complete up to those even then |
| `IndexLists.Exclusive` | thirdparty/recastnavigation/Detour/Source/DetourNavMesh.cpp:122-135 | No cell is on two lists or twice on one |
| `IndexLists.MoveThreads` | thirdparty/recastnavigation/Detour/Source/DetourNavMesh.cpp:122-135 | Unlinking a cell anywhere and pushing it onto another list keeps all lists threaded and exclusive |
| `NavTile.DecodeEncode` | thirdparty/recastnavigation/Detour/Include/DetourNavMesh.h:529-562 | A reference decodes to the salt, tile and polygon it was made from |
| `NavTile.SaltCycle` | thirdparty/recastnavigation/Detour/Source/DetourNavMesh.cpp:1319-1326 | The salt after k removals, in closed form: it skips 0 and cycles with period 2^saltBits - 1 |
| `NavTile.StaleReference` | thirdparty/recastnavigation/Detour/Source/DetourNavMesh.cpp:1319-1326 | Two removal counts give the same salt exactly when they differ by a multiple of 2^saltBits - 1 |
| `NavTile.BuildFreeList` | thirdparty/recastnavigation/Detour/Source/DetourNavMesh.cpp:1003-1007 | All links are free, in index order |
| `NavTile.ConnectIntLinks` | thirdparty/recastnavigation/Detour/Source/DetourNavMesh.cpp:524-559 | If the tile has links enough, every ordinary polygon's list is exactly its inner neighbours, lowest edge first; in any case the lists partition the links and show inner links only |
| `NavTile.UnlinkPoly` | thirdparty/recastnavigation/Detour/Source/DetourNavMesh.cpp:358-382 | One polygon keeps exactly its links that lead elsewhere, in order; the others become free; no other list, vertex or link content changes |
| `NavTile.UnconnectLinks` | thirdparty/recastnavigation/Detour/Source/DetourNavMesh.cpp:353-385 | The same for every polygon of the tile |
| `NavTile.StrippedTwice` | thirdparty/recastnavigation/Detour/Source/DetourNavMesh.cpp:1276-1288 | Stripping a tile again of links into the same target changes nothing more |
| `NavTile.CountLinks` | thirdparty/recastnavigation/Detour/Source/DetourNavMeshBuilder.cpp:365-385 | The link count of the builder: edges plus twice the portals plus twice the off-mesh end points |
| `NavTile.BuiltWithEnough` | thirdparty/recastnavigation/Detour/Source/DetourNavMeshBuilder.cpp:365-385 | That count covers every inner link of the tile, three links for each portal and two for each off-mesh end point, so inner links are never short |
| `NavTile.ServeOne` | thirdparty/recastnavigation/Detour/Source/DetourNavMesh.cpp:122-129 | A pushed link extends the record of requests served in order until no link is left |
| `NavTile.PushedOnly` | thirdparty/recastnavigation/Detour/Source/DetourNavMesh.cpp:387-452 | After serving requests a list shows its old links and the requests of its polygon, nothing else |
| `NavTile.PushedFront` | thirdparty/recastnavigation/Detour/Source/DetourNavMesh.cpp:387-452 | Served requests stand in front of the old links, which keep their order |
| `NavState.SlotInOnePlace` | thirdparty/recastnavigation/Detour/Source/DetourNavMesh.cpp:908-1333 | In every reachable mesh a slot is on one list only, once: the free list or the chain of its position |
| `NavState.LinkInOnePlace` | thirdparty/recastnavigation/Detour/Source/DetourNavMesh.cpp:908-1333 | In every live tile each link is free or on exactly one polygon's list, once |
| `NavState.NoDanglingLink` | thirdparty/recastnavigation/Detour/Source/DetourNavMesh.cpp:908-1333 | Every link met on a polygon's list refers to an existing polygon of a live tile at this or a neighbouring position |
| `NavState.AddLinkOk` | thirdparty/recastnavigation/Detour/Source/DetourNavMesh.cpp:122-129 | Adding a good link keeps the mesh invariant and only adds |
| `NavState.UnconnectOk` | thirdparty/recastnavigation/Detour/Source/DetourNavMesh.cpp:353-385 | Disconnecting from a tile keeps the invariant and leaves no link into it |
| `NavState.StrippingStep` | thirdparty/recastnavigation/Detour/Source/DetourNavMesh.cpp:1276-1288 | Disconnecting one more tile strips it of the links into the target and leaves the others as they were |
| `NavState.StrippingDone` | thirdparty/recastnavigation/Detour/Source/DetourNavMesh.cpp:1270-1289 | A tile that was stripped or left alone and has no link into the target lists exactly its old links without those |
| `NavState.MovedOk` | thirdparty/recastnavigation/Detour/Source/DetourNavMesh.cpp:968-1007 | A slot nobody refers to may be refilled or emptied and moved to its new list |
| `NavState.TilesAtComplete` | thirdparty/recastnavigation/Detour/Source/DetourNavMesh.cpp:1094-1114 | A chain lists exactly the live tiles at a position |
| `NavLinks.StartSnaps` | thirdparty/recastnavigation/Detour/Source/DetourNavMesh.cpp:584-585 | Moving the start of a connection onto the mesh where it lands moves that end point only |
| `NavLinks.EndSnaps` | thirdparty/recastnavigation/Detour/Source/DetourNavMesh.cpp:485-486 | So does moving its end |
| `NavLinks.EndsTrans` | thirdparty/recastnavigation/Detour/Source/DetourNavMesh.cpp:1016-1049 | Over several phases every end point stays or is the landing point of its connection |
| `NavMesh.NavMesh.constructor` | thirdparty/recastnavigation/Detour/Source/DetourNavMesh.cpp:224-265 | All slots free with salt 1 in fresh arrays, nothing on the chains, no position crowded, no removal counted |
| `NavMesh.NavMesh.AddLink` | thirdparty/recastnavigation/Detour/Source/DetourNavMesh.cpp:122-129 | The exact new mesh: one link moved from the free list to the front of a polygon's list |
| `NavMesh.NavMesh.LinkAsked` | thirdparty/recastnavigation/Detour/Source/DetourNavMesh.cpp:122-129 | The link is there afterwards unless the tile ran out of links; if it was asked for, only links asked for were added, in front of the lists |
| `NavAsked.PushAsked` | thirdparty/recastnavigation/Detour/Source/DetourNavMesh.cpp:122-129 | Pushing a link that is asked for puts only links asked for in front of the lists |
| `NavAsked.ExtAsked` | thirdparty/recastnavigation/Detour/Source/DetourNavMesh.cpp:387-452 | Serving portal requests into the tile on that side puts only links that portals ask for in front of the lists |
| `NavAsked.ExtendedTrans` | thirdparty/recastnavigation/Detour/Source/DetourNavMesh.cpp:1016-1049 | Two phases that each add only links asked for do so together: what is asked for does not depend on links |
| `NavMesh.NavMesh.Unconnect` | thirdparty/recastnavigation/Detour/Source/DetourNavMesh.cpp:353-385 | Mesh invariant kept; every polygon list of the tile is exactly its old list without the links into the target, all other tiles unchanged |
| `NavMesh.NavMesh.FindConnectingPolys` | thirdparty/recastnavigation/Detour/Source/DetourNavMesh.cpp:300-351 | The first four polygons, in index order, with a portal on the side that touches the edge |
| `NavMesh.NavMesh.ConnectExtLinks` | thirdparty/recastnavigation/Detour/Source/DetourNavMesh.cpp:387-452 | Tile gains exactly the links its portals on that side call for, in order, until it runs out of links; no other tile changes; with the target on that side every new link is asked for |
| `NavMesh.NavMesh.Attach` | thirdparty/recastnavigation/Detour/Source/DetourNavMesh.cpp:484-519 | The end point of the connection moves to where it landed, no other end point moves; the off-mesh polygon and its landing polygon are linked, back link if asked, as far as links are left; old links stay behind the new ones |
| `NavMesh.NavMesh.BaseOffMeshLinks` | thirdparty/recastnavigation/Detour/Source/DetourNavMesh.cpp:561-617 | Every connection whose start lands has its start point there afterwards and is linked both ways with the polygon it lands on, as far as links are left; no other end point moves; all old links stay, and every new one is asked for by a portal or a connection |
| `NavMesh.NavMesh.ConnectExtOffMeshLinks` | thirdparty/recastnavigation/Detour/Source/DetourNavMesh.cpp:454-522 | Connections of the target take turns: one whose start is connected by then, that leaves on the matching side and lands, has its end point there afterwards and is linked with the polygon it lands on, back link exactly for two-way ones, otherwise nothing happens; no other end point moves; all old links stay, and with the target on that side every new one is asked for |
| `NavMesh.NavMesh.GetTileAt` | thirdparty/recastnavigation/Detour/Source/DetourNavMesh.cpp:1057-1074 | Finds the tile at a place if and only if there is one |
| `NavMesh.NavMesh.GetTilesAt` | thirdparty/recastnavigation/Detour/Source/DetourNavMesh.cpp:1094-1114 | The tiles at a position in chain order, cut to 32 |
| `NavMesh.NavMesh.DisconnectNeighbours` | thirdparty/recastnavigation/Detour/Source/DetourNavMesh.cpp:1270-1289 | Afterwards no tile anywhere has a link into the tile, and every polygon list of every other tile is exactly its old list without such links |
| `NavMesh.NavMesh.ClearPlace` | thirdparty/recastnavigation/Detour/Source/DetourNavMesh.cpp:1275-1288 | No tile at the position has a link into the tile; the tiles there lost exactly such links or nothing, in order |
| `NavLinks.AllClear` | thirdparty/recastnavigation/Detour/Source/DetourNavMesh.cpp:1270-1289 | Same position and the eight neighbours are all the places such links can be |
| `NavMesh.NavMesh.Evict` | thirdparty/recastnavigation/Detour/Source/DetourNavMesh.cpp:1252-1268 | The slot leaves its chain for the free list with the given salt, all others unchanged |
| `NavMesh.NavMesh.RemoveTile` | thirdparty/recastnavigation/Detour/Source/DetourNavMesh.cpp:1240-1333 | Refused exactly for a reference that does not name a slot with its salt, then nothing changes, counters included; otherwise the slot is free under the next salt, its removal counted, no reference into it is valid, and every polygon list of every other tile is exactly its old list without the links into it; positions stay within 32 tiles |
| `NavMesh.NavMesh.FindFree` | thirdparty/recastnavigation/Detour/Source/DetourNavMesh.cpp:946-957 | Finds a slot on the free list exactly when it is free |
| `NavMesh.NavMesh.ChooseSlot` | thirdparty/recastnavigation/Detour/Source/DetourNavMesh.cpp:929-970 | A slot is found exactly when one is free, or when the one asked for is |
| `NavMesh.NavMesh.Install` | thirdparty/recastnavigation/Detour/Source/DetourNavMesh.cpp:972-1015 | The slot holds the tile on the chain of its position, exactly its inner links built, end points as delivered, all else unchanged; positions stay within 32 tiles if this one had room |
| `NavMesh.NavMesh.ConnectPair` | thirdparty/recastnavigation/Detour/Source/DetourNavMesh.cpp:1032-1035 | Both tiles have every portal link and every off-mesh link they should have into each other, unless out of links, and, lying on those sides of each other, no link that is not asked for |
| `NavMesh.NavMesh.ConnectAround` | thirdparty/recastnavigation/Detour/Source/DetourNavMesh.cpp:1024-1049 | The same with the other layers at the position and all eight neighbours, by coordinates: (x+1, y) on side 0, (x+1, y+1) on side 1 and so on round to (x+1, y-1) on side 7, each back on the side four further |
| `NavAsked.LandsThenStarts` | thirdparty/recastnavigation/Detour/Source/DetourNavMesh.cpp:561-617 | A connection that lands where it starts, in a tile with links left, is connected at its start before tiles are joined |
| `NavAsked.CrossedNow` | thirdparty/recastnavigation/Detour/Source/DetourNavMesh.cpp:1016-1049 | So its off-mesh link into the layers and neighbours is made, as is that of every neighbour connected at its start before |
| `NavMesh.NavMesh.ConnectNeighbours` | thirdparty/recastnavigation/Detour/Source/DetourNavMesh.cpp:1016-1049 | The tile is joined both ways with its other layers and all eight neighbours, by coordinates and side, off-mesh connections between them included; end points move only to where they land; existing links are kept and every new one is asked for |
| `NavMesh.NavMesh.AddTile` | thirdparty/recastnavigation/Detour/Source/DetourNavMesh.cpp:908-1055 | Each failure code exactly in its case and without effect, counters included; on success the tile occupies a formerly free slot (with lastRef: that slot and salt), its off-mesh connections are based and landed, with their end points there and no other moved; portals are joined both ways with layers and the eight neighbours, by coordinates and side; its lists end with exactly the inner links (a part of them if it came with too few), lists of other tiles with all their old links in order, and in front stand only links asked for by a portal or connection facing the tile on that side |
| `NavLinks.UncrowdedFilled` | thirdparty/recastnavigation/Detour/Source/DetourNavMesh.cpp:972-1007 | Filling a slot keeps every position within 32 tiles if its own had room |
| `NavLinks.UncrowdedEmptied` | thirdparty/recastnavigation/Detour/Source/DetourNavMesh.cpp:1252-1268 | Emptying a slot keeps every position within 32 tiles |
| `NavLinks.RefReturns` | thirdparty/recastnavigation/Detour/Source/DetourNavMesh.cpp:1319-1326 | A reference valid in one state is valid in a later one, slots filled without lastRef, exactly if its slot is live, its polygon in range, and the removals of the slot in between are a multiple of 2^saltBits - 1 |
| `NavLinks.StaysStale` | thirdparty/recastnavigation/Detour/Source/DetourNavMesh.cpp:1319-1326 | With at least one and fewer than 2^saltBits - 1 removals of its slot in between it is not valid |
| `NavMesh.NavMesh.Perform` | thirdparty/recastnavigation/Detour/Source/DetourNavMesh.cpp:908-1333 | One addition without lastRef is passed over exactly at a full position and otherwise answered and carried out as addTile promises; one removal empties the slot exactly if the reference names one in use, and otherwise changes nothing; counters follow the outcome |
| `NavMesh.NavMesh.Run` | thirdparty/recastnavigation/Detour/Source/DetourNavMesh.cpp:908-1333 | The run goes through a sequence of valid meshes, each step one operation carried out with its outcome; between any two of them a reference valid in the earlier is valid in the later exactly if its slot is in use, its polygon in range, and the slot was emptied a multiple of 2^saltBits - 1 times in between |
| `NavRun.CountedBetween` | thirdparty/recastnavigation/Detour/Source/DetourNavMesh.cpp:1319-1326 | Between any two points of a run the removal counters moved on by the slots emptied |
| `NavRun.RunFollows` | thirdparty/recastnavigation/Detour/Source/DetourNavMesh.cpp:1319-1326 | Counters that follow the outcomes make references come back exactly after full cycles, between any two points |
| `NavRun.RemovedIsStale` | thirdparty/recastnavigation/Detour/Source/DetourNavMesh.cpp:1240-1333 | A removal by a valid reference is carried out, and the reference is stale afterwards |
| `NavMesh.RunFromStart` | thirdparty/recastnavigation/Detour/Source/DetourNavMesh.cpp:224-265 | All of this for runs from a newly initialised mesh |
| `BvTree.CalcExtends` | thirdparty/recastnavigation/Detour/Source/DetourNavMeshBuilder.cpp:73-95 | The smallest box that encloses every item of the range |
| `BvTree.Subdivide` | thirdparty/recastnavigation/Detour/Source/DetourNavMeshBuilder.cpp:113-169 | Fills exactly 2n-1 nodes with a preorder tree whose boxes are the smallest around their items and whose escape offsets are subtree sizes, items permuted within the range; if the sort sorts, every inner node parts its items by minimum along the longest axis of its box, into halves that differ by one at most |
| `BvTree.PartedByOrder` | thirdparty/recastnavigation/Detour/Source/DetourNavMeshBuilder.cpp:142-163 | Sorting parts the items: none of the front half begins beyond one of the back half, and the recursion keeps it so |
| `BvTree.WalkTree` | thirdparty/recastnavigation/Detour/Source/DetourNavMesh.cpp:836-857 | The escape-offset walk of a subtree reports its overlapping items in order and goes on behind it |
| `BvTree.TreeAnswers` | thirdparty/recastnavigation/Detour/Source/DetourNavMeshBuilder.cpp:483-483 | With the unused zero node at the end, the walk is the scan plus one hit on polygon 0 when the query touches the origin corner |
| `BvTree.HitsPermuted` | thirdparty/recastnavigation/Detour/Source/DetourNavMeshBuilder.cpp:142-156 | Sorting the items rearranges the hits and loses none |
| `BvTree.CreateBVTree` | thirdparty/recastnavigation/Detour/Source/DetourNavMeshBuilder.cpp:171-241 | The built array is such a tree followed by a zero node, and answers every query like a scan of the polygons, plus that extra hit |
| `BvTree.QueryPolygonsInTile` | thirdparty/recastnavigation/Detour/Source/DetourNavMesh.cpp:836-859 | The walk, cut to the caller's buffer |
| `BvTree.QueryInBatches` | thirdparty/recastnavigation/Detour/Source/DetourNavMeshQuery.cpp:766-801 | The callback gets the filtered walk in order, in full batches of 32 except perhaps the last, none empty |
| `BvQuantize.ConservativeAxis` | thirdparty/recastnavigation/Detour/Source/DetourNavMesh.cpp:819-834 | On one axis, intervals that meet still meet after quantization |
| `BvQuantize.QueryExact` | thirdparty/recastnavigation/Detour/Source/DetourNavMesh.cpp:819-834 | The quantized query is the smallest with an even minimum at or below its real one and an odd maximum above |
| `BvQuantize.ItemExact` | thirdparty/recastnavigation/Detour/Source/DetourNavMeshBuilder.cpp:181-206 | A polygon coordinate is rounded down to a whole step |
| `BvQuantize.WrapMisses` | thirdparty/recastnavigation/Detour/Source/DetourNavMesh.cpp:828-834 | From 65535 steps on the 16-bit maximum wraps and a touching polygon is missed |
| `BvQuantize.ConservativeExactly` | thirdparty/recastnavigation/Detour/Source/DetourNavMesh.cpp:819-834 | Quantization is conservative on an axis if and only if the tile is less than 65535 steps wide |
| `BvQuantize.Conservative` | thirdparty/recastnavigation/Detour/Source/DetourNavMeshBuilder.cpp:181-206 | A polygon in the tile whose box overlaps the query still overlaps it quantized |
| `BvQuantize.TreeNeverMisses` | thirdparty/recastnavigation/Detour/Source/DetourNavMesh.cpp:861-889 | With detail-mesh bounds in the tree and vertex bounds in the plain branch, the one inside the other, the tree walk reports every polygon the plain branch finds |
| `BvQuantize.Tight` | thirdparty/recastnavigation/Detour/Source/DetourNavMesh.cpp:819-834 | Only polygons within three steps of the query on every axis overlap it quantized |
| `BvQuantize.WalkOnlyNear` | thirdparty/recastnavigation/Detour/Source/DetourNavMesh.cpp:836-857 | So the walk reports only such polygons, besides the hit of the last node |
| `BvQuantize.OverlapMeets` | thirdparty/recastnavigation/Detour/Source/DetourNavMesh.cpp:841-841 | The overlap test of quantized boxes means a common point |
| `BigNumber.DigitsOfValue` | crates/shared/src/auth/big_number.rs:114-131 | Padding a value's digits to the length it was read from restores every digit, leading zeros included |
| `BigNumber.BytesRoundTrip` | crates/shared/src/auth/big_number.rs:53-57 | Writing to k bytes what was read from k bytes gives the same bytes, high zero bytes included |
| `BigNumber.LittleEndian` | crates/shared/src/auth/big_number.rs:53-57 | The first byte counts ones |
| `BigNumber.NumberRoundTrip` | crates/shared/src/auth/big_number.rs:114-131 | Reading what was written gives the same number, whatever the padding |
| `BigNumber.ByteLength` | crates/shared/src/auth/big_number.rs:114-124 | A number takes exactly k bytes when written to k if and only if it is below 256^k |
| `BigNumber.HexRoundTrip` | crates/shared/src/auth/big_number.rs:149-154 | Text written for a number re-reads to it |
| `BigNumber.DigestText` | crates/realmd/src/auth_socket.rs:1324-1337 | The 40 digits of a digest read as the digest's big-endian value |
| `Srp6Algebra.KeyAgreement` | crates/shared/src/auth/srp6.rs:146-149 | For all a, b, x, u and any N > 0 the server key equals the client key of section 2.6 of RFC 5054 with k = 3 |
| `Srp6Algebra.PowerNeverZero` | crates/shared/src/auth/srp6.rs:134-138 | A generator with an inverse modulo N never yields 0 |
| `Srp6.IdentityRestored` | crates/shared/src/auth/srp6.rs:169-180 | The leading-zero repair restores every 20-byte digest from its text |
| `Srp6.ProofCompares` | crates/shared/src/auth/srp6.rs:238-241 | A message is accepted exactly when it is the digest cut or zero-padded to the message's length; for 20 bytes, exactly the digest |
| `Srp6.SaltFillsField` | crates/realmd/src/auth_socket.rs:441-444 | The salt fills its 32-byte field exactly when it has no high zero byte |
| `Srp6.Server.CalculateVerifier` | crates/shared/src/auth/srp6.rs:164-195 | Refused exactly when the salt text is not a positive number; otherwise 7^H(s, identity) mod N |
| `Srp6.Server.CalculateHostPublicEphemeral` | crates/shared/src/auth/srp6.rs:77-85 | (3 v + 7^b mod N) mod N; the size assertion never fails |
| `Srp6.Server.CalculateSessionKey` | crates/shared/src/auth/srp6.rs:126-152 | Refused exactly for multiples of N; otherwise the scrambler is the digest of A then B, and the key (A v^u)^b mod N |
| `Srp6.Server.HashSessionKey` | crates/shared/src/auth/srp6.rs:199-228 | The even and the odd bytes of the 32 are hashed apart, and the digests, byte by byte in turn, spell the key |
| `Srp6.Server.CalculateProof` | crates/shared/src/auth/srp6.rs:89-120 | The proof is the digest of H(N) xor H(g), H(username), s, A, B, K in this order; its 20 bytes are the digest |
| `Srp6.Server.Proof` | crates/shared/src/auth/srp6.rs:238-241 | Accepts exactly the cut or padded digest behind the stored number |
| `Srp6.LogonChallenge` | crates/realmd/src/auth_socket.rs:388-426 | Succeeds exactly for texts that read as positive numbers, and leaves verifier, salt and B in place |
| `Srp6.LogonProof` | crates/realmd/src/auth_socket.rs:632-654 | Accepted exactly when A is no multiple of N and the message is the right digest cut or padded; the session key is set whenever A is no multiple of N |
| `Srp6.CreateAccount` | crates/realmd/src/auth_socket.rs:1342-1356 | Stores texts that re-read to the verifier and the salt |
| `Srp6.AccountLogsIn` | crates/realmd/src/auth_socket.rs:1342-1356 | For every identity, salt and choice of secrets, B being the server's public value for its secret and the stored verifier, a client that hashes with any field widths is accepted exactly when the salt is not zero and its digest is that of the server's unpadded fields; then both sides hold the same key |
| `Srp6.FixedWidthLetsIn` | crates/shared/src/auth/srp6.rs:89-152 | A client that hashes A, B, s and K at fixed width is let in exactly when the four numbers fill their fields, unless the hash collides |
| `RealmList.RunExists` | crates/realmd/src/realm_list.rs:326-333 | A realm present in the last poll has a poll that starts its latest unchanged run |
| `RealmList.RunUnique` | crates/realmd/src/realm_list.rs:326-333 | That poll is unique |
| `RealmList.RealmTracks` | crates/realmd/src/realm_list.rs:326-345 | Id, population and flags are those of the last row of that name; last_seen_alive is the time of the poll that starts the run, and the realm is shown offline exactly if the database says so or its age exceeds a positive timeout; other flags are kept |
| `RealmList.PollTracks` | crates/realmd/src/realm_list.rs:247-377 | One more poll keeps the list in step with the history |
| `RealmList.FailTracks` | crates/realmd/src/realm_list.rs:379-381 | After a failed poll nothing is listed, so every run restarts |
| `RealmList.RealmList.Initialize` | crates/realmd/src/realm_list.rs:188-199 | The first poll |
| `RealmList.RealmList.UpdateIfNeeded` | crates/realmd/src/realm_list.rs:202-223 | Polls exactly when an interval is set and has passed; the list stays in step with the history of all polls |
| `RealmList.RealmList.UpdateRealms` | crates/realmd/src/realm_list.rs:226-383 | Exactly the realms of the poll are listed, the last row winning, rows with id 0 skipped |
| `RealmList.RealmList.LoadRow` | crates/realmd/src/realm_list.rs:267-370 | One row |
| `MeshCompact.Arranged` | crates/extractors/src/movemap_gen.rs:2334-2344 | In ascending order negative indices come first, those that name vertices next, the rest last |
| `MeshCompact.CompactionKeeps` | crates/extractors/src/movemap_gen.rs:2322-2354 | Compaction keeps every corner's coordinates if and only if no index is negative or none names a vertex |
| `MeshCompact.CleanVertices` | crates/extractors/src/movemap_gen.rs:2322-2354 | New indices are positions among the used ones in order, vertices are exactly the used ones, and the mesh is kept exactly under that condition |
| `MeshCompact.NumberUsed` | crates/extractors/src/vmap_extract.rs:1222-1228 | Marked vertices are numbered by how many marked ones precede them |
| `MeshCompact.WriteGroup` | crates/extractors/src/vmap_extract.rs:1201-1255 | The written indices and vertices describe exactly the collision triangles with the same coordinates; indices are dense, in order, in range and fit 16 bits |
| `MeshLoad.TriangleCorners` | crates/extractors/src/movemap_gen.rs:2204-2247 | The height triangles of a square name its four grid corners and its middle vertex, all in range |
| `MeshLoad.SquareOrder` | crates/extractors/src/movemap_gen.rs:322-333 | The order in which the triangles of a square and their corners are pushed |
| `MeshLoad.LiquidTriangles` | crates/extractors/src/movemap_gen.rs:437-448 | Two triangles per square of the portion in order, every index in range |
| `MeshLoad.TerrainTriangles` | crates/extractors/src/movemap_gen.rs:322-333 | Four triangles per square of the portion in order, every index in range |
| `MeshLoad.TileCorners` | crates/extractors/src/movemap_gen.rs:758-762 | The four index formulas of a liquid tile are its corners (x, y), (x, y+1), (x+1, y+1) and (x+1, y) in a vertex list filled column by column |
| `MeshLoad.VertexBelow` | crates/extractors/src/movemap_gen.rs:732-765 | Every grid vertex has an index below the number of vertices |
| `MeshLoad.GridInRange` | crates/extractors/src/movemap_gen.rs:752-768 | All liquid triangles of a model of any size are whole and name vertices of its grid |
| `MeshLoad.GridVertices` | crates/extractors/src/movemap_gen.rs:732-750 | The vertex list holds grid vertex (x, y) at its index, with the height of row y and column x |
| `MeshLoad.GridTiles` | crates/extractors/src/movemap_gen.rs:752-768 | The collected triples are the corners of exactly the shown tiles |
| `MeshLoad.CornersInRange` | crates/extractors/src/movemap_gen.rs:703-716 | The pushed solid indices are in range exactly when every index of the file names a vertex |
| `MeshLoad.MeshData.AddModelSolid` | crates/extractors/src/movemap_gen.rs:696-716 | Vertices and triangles are appended, and the mesh stays whole exactly when the indices of the file name vertices |
| `MeshLoad.MeshData.AddModelLiquid` | crates/extractors/src/movemap_gen.rs:719-789 | Vertices, triangles and one type per triangle, 9 for kinds 0 and 1 of four and 8 for the others, are appended; liquid triangles stay three indices per type, every index a vertex |
| `MeshLoad.MeshData.ResolveHalf` | crates/extractors/src/movemap_gen.rs:465-590 | One half square: deep water (bit 4) drops everything, a hole the terrain; liquid is kept, patched and typed, 9 with bit 1 or 3 and else 8 with bit 0 or 2, exactly if it has a type and a known height and does not lie below kept terrain |
| `MeshLoad.ResolvedKeeps` | crates/extractors/src/movemap_gen.rs:464-592 | Resolving any number of half squares keeps all earlier triangles, adds no liquid without loaded types and no terrain without terrain |
| `MeshLoad.MeshData.Resolve` | crates/extractors/src/movemap_gen.rs:456-592 | The loop resolves exactly the half squares of the portion in order; liquid triangles stay three indices per type, every index names a vertex, and earlier triangles are kept |
| `MeshLoad.MeshData.PatchHeights` | crates/extractors/src/movemap_gen.rs:498-528 | With some but not all heights known the missing ones become the mean of the known ones, otherwise nothing changes; true exactly if one is known |
| `MeshLoad.MeshData.LiquidAbove` | crates/extractors/src/movemap_gen.rs:536-567 | False exactly if every terrain corner is above every liquid corner and above the missing-height mark, and the liquid below the ceiling |
| `MeshLoad.MeshData.LoadPortion` | crates/extractors/src/movemap_gen.rs:302-594 | Vertices are appended unchanged, then the triangles of the portion resolved; all triangles are whole and in range, liquid triangles three indices per type; reports exactly whether the mesh has triangles |
| `MapCodec.ComputeHeightRange` | crates/extractors/src/map_dbc.rs:825-839 | Every height lies between the results, even beyond the loop's start bounds |
| `MapCodec.ClampHeights` | crates/extractors/src/map_dbc.rs:841-852 | Every height is raised to the minimum, none lowered |
| `MapCodec.RangeStays` | crates/extractors/src/map_dbc.rs:841-852 | Raising heights to the minimum raises the range with them: both ends are still attained |
| `MapCodec.PackError` | crates/extractors/src/movemap_gen.rs:255-282 | A decoded height is within (max-min)/510 or (max-min)/131070 of the encoded one |
| `MapCodec.WriteHeights` | crates/extractors/src/map_dbc.rs:698-711 | The section holds the clamped heights in order, flat exactly when their range is below the epsilon, or below 0.005 with float-to-int; otherwise as floats exactly without float-to-int or from a range of 2048 on, and in 8 bits exactly below 2; each height is within the tolerance of its form |
| `MapCodec.ReadHeights` | crates/extractors/src/movemap_gen.rs:251-290 | The reader's grids are within that tolerance of whatever heights the section holds |
| `MapCodec.ScanLiquid` | crates/extractors/src/map_dbc.rs:974-1012 | The extent covers every shown cell and every bound of it is attained; exactly the first corners of hidden cells are lowered |
| `MapCodec.ExtentSnug` | crates/extractors/src/map_dbc.rs:1014-1030 | The rectangle of an attained extent is the smallest, and its level and top are the lowest and highest heights scanned |
| `MapCodec.WriteLiquid` | crates/extractors/src/map_dbc.rs:974-1068 | The rectangle is the smallest on the grid that covers all four corners of every shown cell, its level the lowest height scanned, written row by row; flat exactly when the highest shown height is within the epsilon, or with float-to-int within 0.001, of the level |
| `MapCodec.IndexNext` | crates/extractors/src/movemap_gen.rs:394-421 | The running index counts the rectangle's vertices passed so far |
| `MapCodec.ReadLiquid` | crates/extractors/src/movemap_gen.rs:378-434 | Inside the rectangle each vertex gets the height the writer took from the same row and column, outside it is marked invalid |
| `MapFile.SizesFit` | crates/extractors/src/map_dbc.rs:730-769 | No contents can push an offset or a size of the header beyond 32 bits |
| `MapFile.WriteMap` | crates/extractors/src/map_dbc.rs:723-769 | Offsets computed from section sizes and sections written one after the other give the file in which every offset is where its section begins |
| `MapFile.SectionMarks` | crates/extractors/src/map_dbc.rs:723-769 | The file and its sections begin with their marks, as numbers |
| `MapFile.HeaderRead` | crates/extractors/src/movemap_gen.rs:205-225 | The ten header words of a written file read back |
| `MapFile.HeightRead` | crates/extractors/src/movemap_gen.rs:227-290 | At the offset in the header the height section reads back, in each of its four forms |
| `MapFile.LiquidIsRead` | crates/extractors/src/movemap_gen.rs:337-387 | At its offset the liquid section reads back: header, types and flags if present and spread otherwise, and the heights behind them if present |
| `MapFile.HolesRead` | crates/extractors/src/movemap_gen.rs:292-300 | At their offset the holes read back |
| `MapFile.ReadMap` | crates/extractors/src/movemap_gen.rs:205-387 | Reading a written file gives the written heights, holes and liquid, with and without liquid, types or heights; nothing exactly if there is neither terrain nor wanted liquid |
| `MapRoundTrip.BuildArea` | crates/extractors/src/map_dbc.rs:854-881 | Header and payload give back the area of every cell |
| `MapRoundTrip.BuildCells` | crates/extractors/src/map_dbc.rs:959-972 | Liquid is stored exactly if some cell has a flag or the types differ; types and flags are stored unless all agree, and then the header stands for all |
| `MapRoundTrip.SectionRoundTrip` | crates/extractors/src/map_dbc.rs:883-949 | A height section survives its bytes |
| `MapRoundTrip.LiquidRoundTrip` | crates/extractors/src/map_dbc.rs:1014-1071 | A liquid rectangle survives its bytes |
| `MapRoundTrip.ExtractTile` | crates/extractors/src/map_dbc.rs:698-769 | The file of a tile describes its areas, clamped heights with their attained range and form, its liquid and holes |
| `MapRoundTrip.ExtractThenLoad` | crates/extractors/src/movemap_gen.rs:205-434 | From grids through the bytes of a file to the loader: heights are back within the tolerance of their form, exactly without float-to-int unless the tile is flat; holes, liquid types and flags are back exactly, and every shown cell has its liquid heights, whose rectangle, level and flatness are as the scan calls for |
| `AuthSession.Session.HandleLogonChallenge` | crates/realmd/src/auth_socket.rs:280-580 | Awaits a proof exactly when everything was read, found and sent |
| `AuthSession.Session.HandleLogonProof` | crates/realmd/src/auth_socket.rs:604-705 | Authenticated exactly when build, key, proof, token and version all passed and the answer was sent |
| `AuthSession.Session.HandleReconnectChallenge` | crates/realmd/src/auth_socket.rs:919-980 | Awaits a reconnect proof exactly when everything was read, found and sent |
| `AuthSession.Session.HandleReconnectProof` | crates/realmd/src/auth_socket.rs:997-1046 | Authenticated exactly when data, digest and version passed and the answer was sent |
| `AuthSession.Session.Step` | crates/realmd/src/auth_socket.rs:87-254 | A command reaches its handler exactly when the status expects it, and the session goes on exactly if its handler says so; the transfer branches are never reached |
| `AuthSession.Session.HandleClient` | crates/realmd/src/auth_socket.rs:87-255 | The handled commands are exactly the events up to where the run stops: at an unknown or unexpected byte, after a handler that ends the session, or at the end; they are a challenge (byte 0 or 2), its proof (byte 1 or 3 to match), then realm lists (byte 16) only, the proof after a good challenge, realm lists after a proof that passed every check |
| `AuthSession.RunDetermined` | crates/realmd/src/auth_socket.rs:87-255 | The events determine what is handled: two runs that both stop handled the same commands |
| `ConnectionTracker.ConnectionTracker.TryAdd` | crates/realmd/src/main.rs:51-66 | Accepted exactly when neither limit is reached; counts equal the live connections, no zero entries, limits hold |
| `ConnectionTracker.ConnectionTracker.Remove` | crates/realmd/src/main.rs:69-79 | The same after a guard drop; the subtraction never saturates |

## Left out

- BihBuild.Build: covers up to 2^29/192 primitives, the range in which offsets cannot run into the tag bits; NaN and
  infinite coordinates and malformed boxes are excluded, and so are coordinates so large that the half sum of two of them
  overflows 32-bit floats, because a midpoint is taken to lie between its ends.
- BihLayout.WalkIsScan: the walker is a reference reader for box queries; ray queries of the game server are not part of
  this model.
- PathFinder.Finder.FindPath: costs are naturals instead of 32-bit floats; least cost is relative to the positions the
  search fixed on first visit and to walks that do not turn back, across another side, into the polygon their node was
  reached from, which the source never tries.
- CircleSearch.CircleFinder.FindPolysAroundCircle: least cost is relative to the positions the search fixed on first
  visit; costs are naturals instead of 32-bit floats.
- NavMesh.NavMesh.RemoveTile: assumes at most 32 tiles per position, the size of the source's neighbour array, and a live
  tile in the named slot, whose header the source dereferences; links are removed before the slot leaves its chain, which
  the source does the other way round with the same effect.
- NavMesh.NavMesh.AddTile: portal links are promised with the first 32 tiles of each position; `lastRef` must carry a
  non-zero salt, as every reference handed out does; how often an asked link is added is stated per portal step, not for
  the whole addition; parsing of the data block is not modelled.
- NavMesh.NavMesh.Run: leaves out additions with `lastRef`, which set a salt freely, and additions to a position that
  already has 32 tiles.
- NavMesh.NavMesh.ConnectExtLinks: the compressed portal limits of a link are not modelled.
- BvTree.CreateBVTree: the sort is an arbitrary permutation of the range for the answers to queries; that halves are parted
  by minimum is promised of a sort that sorts; tiles without polygons are excluded.
- BvQuantize.WrapMisses: the conversion of an out-of-range float to 16 bits is modelled as wrapping, as common compilers do;
  C++ leaves it undefined.
- BvQuantize.Conservative: covers items made from detail meshes; the integer path for tiles without them is not modelled.
- BigNumber.HexRoundTrip: text is hexadecimal digits with surrounding white space; signs and digit separators of the
  number library are refused here.
- MeshCompact.CleanVertices: a negative index counts as naming no vertex; a build with overflow checks would stop on it.
- MapCodec.WriteLiquid: a flat rectangle is compared with the first corners of shown cells only, as the source does.
- MapFile.ReadMap: files that the extractor did not write are read without any promise.
- MapRoundTrip.ExtractThenLoad: 32-bit floats are a set of reals with a reversible bit pattern; heights are computed over
  the reals.
- MeshLoad.MeshData.AddModelLiquid: vertex positions are an arbitrary function of grid position and height, so rotation
  and scaling of models are not modelled; so are those of the vertices `LoadPortion` and `AddModelSolid` append.
- The 64-bit reference layout, tile state storing, `findNodes`, sliced path search, raycasts, string pulling and all
  other geometry queries of Detour.
- The Recast voxel pipeline, its foreign-function wrappers, and model and terrain parsing.
- Sockets, timeouts, SQL, configuration and logging; database answers, clocks and random values are parameters.
- Realm list packets, one-time passwords, digest internals, tile-id packing and endian swaps: they would only add easy
  members.
