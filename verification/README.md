# Verified models of the graphics core

The chat client draws its window with the Dear ImGui library that the repository carries under
`client/depend/IMGUI`. This project models the four parts of that library whose correctness is not
visible from any single function, and proves what they are for. The models keep the program's form:
objects with fields are classes, loops are loops, and every method is proved against a specification
about values.

**Skyline rectangle packer** (`SkylineColumns`, `SkylinePoints`, `RectPack`, `PackRects`,
`Exhaustion`). The context is a linked list of nodes on the heap, threaded through an active and a
free list. Beside it stand the column heights the list draws (`sky`), the node positions (`line`)
and the rectangles placed so far. Any number of calls on one context, with either heuristic and any
width quantum, leaves one packing: pairwise disjoint rectangles inside the target, under a skyline
that only rises. Bottom-left finds the least (height, column) over all columns; best-fit rests at
the same height. A rectangle is refused exactly when it fits nowhere or every node is in use, and on
which targets the second can happen first is stated exactly, in both directions. Every call comes
with the skylines from one rectangle's turn to the next.

**Ear-clipping triangulator** (`Polygon`, `EarClipping`, `EarRuns`, `Bends`, `ConvexRuns`,
`RidgeRuns`, `Triangulator`). A circular doubly linked list with two unsorted pointer spans. Every
reachable state is a well-formed ring in step with its spans. A polygon determines its run: the
rings, where each is clipped, and which were turned around first. It gives n - 2 triangles that cut
a different vertex each; a listed ear is clockwise in its ring; and the signed areas account for the
whole polygon, with a sign that changes exactly at the reversals, also through the degenerate
fallback. Convex polygons, either way round, and ridges, outlines like the area under a plotted line
that may be notched in any number of places, are covered exactly; a polygon given counter-clockwise
need not be. Of a convex polygon given clockwise every single triangle is known.

**Draw lists** (`DrawCommands`, `DrawRecorder`, `DrawList`, `DrawListSplitter`, `DrawRuns`,
`DrawCallbacks`, `DrawPrimitives`, `DrawQuads`, `DrawStrokes`, `DrawFills`). Command coalescing and channel
splitting are transformations that must not change what the renderer draws. The meaning is the
renderer's loop; the reference is a recorder without commands that tags each index with the header
under which it was reserved. Whole runs of operations, over any interleaving of channels, render
what the recorder holds, and every callback is called with the data it was given. On a list whose
commands were coalesced before, a change of clip rectangle or texture leaves them so: no two
neighbouring draws under one header and no unused command but the last, and without that one no
buffer with the same record is shorter. For every other operation, and for a change of channel, it
is stated exactly when that stays so; merging channels keeps it across the seams. Lines and fills
write exactly what they reserve, and each index, after its conversion to 16 bits and from the vertex
offset of its command, finds a vertex of the very primitive it belongs to, so that a line connects
just the neighbours along it and a fill reads just its triangles.

**Decompressor, checksum and tables** (`Adler`, `TokenFormat`, `Decompressor`, `ArcSampler`,
`GlyphRanges`, `FontLookup`). A stream decompresses to a result exactly when it is, byte by byte, an
encoding of tokens that make that result position by position; the blocked checksum is the one of
section 2.2 of RFC 1950; arcs, glyph ranges and font tables come with their own round trips and
searches. `Buffers` and `CodePoints` hold what several modules share.

## Where the code and its description differ

- The header comment of the packer (`imstb_rectpack.h:145-150`, and the comment at `:254-259`) says that
  quantised widths guarantee that nodes never run out. They do not: rectangles are inserted with their
  unrounded width. It can happen exactly with fewer nodes than columns and a height of at least two, or
  a height of one and a width of at least nodes plus quantum: elsewhere no reachable state refuses a
  rectangle for want of a node (`RectPack.Context.OutOfNodes`), and there `Exhaustion.ExhaustNodes`
  packs unit squares, with either heuristic, until no node is left while one more fits.
- The waste reported by the packer's search is the wasted area on every skyline exactly when the search
  starts at a node's left edge or that node is above the floor (`SkylinePoints.WasteExactIff`).
- `_TryMergeDrawCmds` asserts one command but reads two; the model asks for two.
- The comment at `imgui_draw.cpp:2135` calls the removal of one trailing command equivalent to
  `_PopUnusedDrawCmd`, which removes all of them. It is, exactly when there are fewer than two commands
  or one of the last two is used (`DrawCommands.DropOneIsTrimmedIff`); after an explicit `AddDrawCmd` on
  a fresh list it is not (`DrawCommands.DropOneExample`). What is drawn is the same.
- `SetCurrentChannel` relabels an unused last command without comparing it with the one before
  (`imgui_draw.cpp:2206-2207`), so a channel that comes back under the header of its newest index, after
  it was left under another, gets two neighbouring draws of one header (`DrawCommands.ClashExample`,
  `DrawRuns.ClashIsReturn`; `DrawRuns.ReturnExample` is a run of six calls that does it). This is the
  only way a change of channel undoes the coalescing.
- A set of code points that contains 0 does not survive `BuildRanges` and `AddRanges`: an interval that
  starts with 0 ends the list (`GlyphRanges.GlyphRangesBuilder`, `GlyphRanges.RoundTrip`).
- `AddRemapChar` without permission to overwrite gives up for a code point that has no glyph, and
  redirects one that has (`FontLookup.RemapExample`): that one keeps its glyph exactly when both code
  points found the same (`FontLookup.RemapKeepsIff`). Behind the end of the table it leaves the advance
  -1 for the code points in between, which had the fallback's (`FontLookup.Font.AddRemapChar`).
- A font that is built again with a fallback glyph left from before, and without a space, gets its TAB
  made from the fallback, which is hidden in place of the space. The TAB's page is not marked, so the
  page map fits the glyphs exactly when another glyph is on it (`FontLookup.Font.BuildLookupTable`;
  `FontLookup.UnmarkedTab` is a font where none is).
- In the triangulator the classification and reset loops never visit the last vertex of the ring, so
  after a reversal a vertex that was marked Reflex can be linked and not listed (`EarRuns.StaleVertex`
  gives a ring). Right after a reversal every Reflex vertex is listed exactly when the vertex that was
  first before it was not Reflex (`EarRuns.RefilledListedIff`); over a whole run the list misses exactly
  that vertex, until it is clipped or gets a clockwise corner (`EarRuns.ReflexesAreListed`), so all are
  listed exactly when there is none such (`EarRuns.AllListedIff`).
- The comments ask for filled shapes in clockwise order for the sake of the fringe alone
  (`imgui_draw.cpp:1020`, `imgui.h:3131`). The triangles depend on it too: of a notched polygon given
  the other way round the notch itself is cut off first, and the triangles have more than four times its
  area (`RidgeRuns.WrongWayIsNotCovered`).

## Model

| member | source | states |
|---|---|---|
| SkylineColumns.PlaceKeepsPacking | client/depend/IMGUI/imstb_rectpack.h:487-499 | a rectangle resting on the skyline, raised over a window between its own and the searched width, is disjoint from everything placed, inside the target and covered, and no column goes down |
| SkylineColumns.RaiseArea | client/depend/IMGUI/imstb_rectpack.h:318-332 | raising a window to y + h adds to the area under the skyline exactly the rectangle and the area wasted beneath it |
| SkylinePoints.ScanHeight | client/depend/IMGUI/imstb_rectpack.h:314-335 | the search loop's height is the maximum of the columns in the window, or 0 |
| SkylinePoints.ProbeIsRest | client/depend/IMGUI/imstb_rectpack.h:291-339 | from the node left of any column, the search returns that column's resting height |
| SkylinePoints.ScanWasteFrom | client/depend/IMGUI/imstb_rectpack.h:314-335 | while every visited column is counted once, the loop's waste is the shortfall of the visited columns below its height |
| SkylinePoints.ProbeWaste | client/depend/IMGUI/imstb_rectpack.h:311-338 | the reported waste is the sum over the window of height minus column, if the search starts at the node's edge or above the floor |
| SkylinePoints.WasteExactIff | client/depend/IMGUI/imstb_rectpack.h:321-325 | the waste is exact on every skyline exactly when the search starts at a node's edge or on a node above the floor; otherwise a skyline where it is wrong exists |
| SkylinePoints.NodeIsNoWorse | client/depend/IMGUI/imstb_rectpack.h:365-391 | for any column there is a node at or left of it where the rectangle rests no higher, so looking at nodes alone misses nothing |
| SkylinePoints.InsertDraws | client/depend/IMGUI/imstb_rectpack.h:464-499 | the node list after an insertion draws the old columns with one window raised, and is again strictly increasing up to the sentinel |
| SkylinePoints.InsertOneFloor | client/depend/IMGUI/imstb_rectpack.h:464-499 | an insertion leaves no two neighbouring nodes on the floor |
| SkylinePoints.FloorLeavesColumns | client/depend/IMGUI/imstb_rectpack.h:145-152 | a free stretch of floor and all nodes but one need a column each |
| RectPack.RoundUp | client/depend/IMGUI/imstb_rectpack.h:353-356 | the searched width is the least multiple of the quantum that holds the width |
| RectPack.LeftIsBottomLeft | client/depend/IMGUI/imstb_rectpack.h:365-391 | the node kept by the bottom-left loop is the lexicographically least resting place over every column |
| RectPack.SettledIsBestFit | client/depend/IMGUI/imstb_rectpack.h:410-441 | the candidate kept by both best-fit loops is beaten by no left- or right-aligned candidate that fits, in height, then waste, then column |
| RectPack.BestFitIsTightest | client/depend/IMGUI/imstb_rectpack.h:410-441 | on the columns themselves: of all places with an edge on a node where the rectangle fits best-fit takes the lowest, of those as low one with the least area left empty below it, of those the leftmost |
| RectPack.SettledIsLowest | client/depend/IMGUI/imstb_rectpack.h:410-441 | right-aligned candidates never lower the best-fit height: it is the least over all columns |
| RectPack.NothingFits | client/depend/IMGUI/imstb_rectpack.h:347-391 | when no node leaves room under the height limit, no column does |
| RectPack.HeuristicsAgree | client/depend/IMGUI/imstb_rectpack.h:365-446 | on two contexts in the same state, one bottom-left and one best-fit, a rectangle is packed by both at the same height or refused by both |
| RectPack.BottomLeftIsLowest | client/depend/IMGUI/imstb_rectpack.h:370-375 | the bottom-left place is one of the lowest |
| RectPack.PlaceBox | client/depend/IMGUI/imstb_rectpack.h:449-499 | one placement keeps the packer's whole value invariant: nodes draw columns, columns stay under the height, boxes are a packing under them |
| RectPack.PlacementArea | client/depend/IMGUI/imstb_rectpack.h:318-332 | a placement raises the area under the skyline by rectangle plus waste, exactly when the quantum is 1, and by no less otherwise |
| RectPack.LeftEdgeWaste | client/depend/IMGUI/imstb_rectpack.h:369 | for a left-edge candidate the waste the search compares is the area the placement wastes |
| RectPack.Context.SetupAllowOutOfMem | client/depend/IMGUI/imstb_rectpack.h:245-263 | the quantum is 1 or the least one by which the nodes span the width |
| RectPack.Context.SetupHeuristic | client/depend/IMGUI/imstb_rectpack.h:233-243 | only the heuristic changes |
| RectPack.Context.InitTarget | client/depend/IMGUI/imstb_rectpack.h:265-288 | an empty, flat target: the active list is the two extra nodes, the free list the caller's storage in order |
| RectPack.Context.NeverOutOfNodes | client/depend/IMGUI/imstb_rectpack.h:145-152 | with as many nodes as columns the free list is never empty, in any reachable state |
| RectPack.Context.OutOfNodes | client/depend/IMGUI/imstb_rectpack.h:145-152 | in any reachable state without a free node in which a rectangle still fits, there are fewer nodes than columns and a second row, or one row with room for nodes and quantum together |
| RectPack.Context.FindMinY | client/depend/IMGUI/imstb_rectpack.h:291-339 | the loop over heap nodes computes the value-level scan of height and waste |
| RectPack.Context.FindLeft | client/depend/IMGUI/imstb_rectpack.h:365-391 | the loop over left edges: found or not, the choice is settled against every left-aligned candidate |
| RectPack.Context.FindRight | client/depend/IMGUI/imstb_rectpack.h:410-441 | the loop over right edges: the choice is settled against every right-aligned candidate as well |
| RectPack.Context.FindBestPos | client/depend/IMGUI/imstb_rectpack.h:347-447 | no place is returned only if none fits anywhere; a returned place is the lowest, bottom-left is lexicographically least, best-fit is the tightest candidate |
| RectPack.Context.Release | client/depend/IMGUI/imstb_rectpack.h:485-493 | swallowed nodes move to the front of the free list one by one, the last one met first, and no node is lost or shared |
| RectPack.Context.Splice | client/depend/IMGUI/imstb_rectpack.h:464-499 | the list surgery turns the node positions into the inserted ones and keeps both lists disjoint, acyclic and complete |
| RectPack.Context.PackRectangle | client/depend/IMGUI/imstb_rectpack.h:449-526 | fails exactly when no node is free or no column leaves room; on failure nothing changes, skyline, nodes and lists alike; on success one box is added at the heuristic's optimum and one window is raised |
| Exhaustion.RowIsLongEnough | client/depend/IMGUI/imstb_rectpack.h:254-261 | a quantum never makes the target too narrow to use up all nodes one by one |
| Exhaustion.RowNextPlace | client/depend/IMGUI/imstb_rectpack.h:365-446 | after a row of unit squares both heuristics put the next one right behind it, also when a right-aligned place is as low |
| Exhaustion.ExhaustNodes | client/depend/IMGUI/imstb_rectpack.h:149-150 | on every fresh target on which nodes can run out by OutOfNodes, quantised or not and with either heuristic, unit squares use up the nodes while one more would fit |
| PackRects.ComparatorsAreOrders | client/depend/IMGUI/imstb_rectpack.h:528-544 | both comparators are antisymmetric and transitive, as the sort demands |
| PackRects.SortRestoresOrder | client/depend/IMGUI/imstb_rectpack.h:572-573 | sorting by distinct keys 0 to n - 1 puts key k into slot k for any conforming sort |
| PackRects.UnsortedRequest | client/depend/IMGUI/imstb_rectpack.h:550-573 | after sort, packing and unsort, slot k holds the request that came in slot k |
| PackRects.BoxesPermute | client/depend/IMGUI/imstb_rectpack.h:528-584 | reordering the slots permutes the placed boxes and loses none |
| PackRects.NoFitStays | client/depend/IMGUI/imstb_rectpack.h:449-462 | what did not fit earlier in a call does not fit on the later, higher skyline |
| PackRects.LocatedAreDisjoint | client/depend/IMGUI/imstb_rectpack.h:558-570 | slots with a position hold pairwise disjoint rectangles when the boxes are a packing |
| PackRects.PackOne | client/depend/IMGUI/imstb_rectpack.h:559-569 | an empty rectangle is put at the origin without a node; another one gets the maximum coordinate exactly when no node is free or it fits nowhere, and else is inserted where the heuristic has it; left unplaced on a target whose nodes cannot run out, it fits nowhere |
| PackRects.PackSorted | client/depend/IMGUI/imstb_rectpack.h:558-570 | every slot has its turn on the skyline the one before left: refused exactly when all nodes are in use or it fits nowhere there, and else placed; exactly the located boxes are added |
| PackRects.Report | client/depend/IMGUI/imstb_rectpack.h:575-583 | flags are raised exactly for slots with a position, and the answer is 1 exactly when all are |
| PackRects.PackRects | client/depend/IMGUI/imstb_rectpack.h:546-584 | each slot keeps id and size, is flagged exactly if placed or empty, and the placed ones extend the context's packing; the skyline only rises; every slot had its turn, a higher rectangle before a lower one and of the same height a wider before a narrower one, placed or refused as its skyline says; where nodes cannot run out an unplaced rectangle fits nowhere even after the call |
| PackRects.PlayedIs | client/depend/IMGUI/imstb_rectpack.h:550-573 | sorting back puts what the turn of key k made into slot k, so the report of every slot is that of its own turn |
| PackRects.PackBatches | client/depend/IMGUI/imgui_draw.cpp:3039 | after any sequence of calls on one context every slot of every batch holds its own request and is served, all located rectangles are one packing, no column went down, and each call was played from the skyline the one before left |
| Polygon.TurnIsCrosses | client/depend/IMGUI/imgui_internal.h:503 | the orientation test's value is the shoelace sum of the triangle |
| Polygon.ClipCorner | client/depend/IMGUI/imgui_draw.cpp:1896-1903 | cutting a corner off a ring takes exactly that corner's triangle off its signed area |
| Polygon.RingReverse | client/depend/IMGUI/imgui_draw.cpp:1910-1930 | turning a ring around negates its signed area |
| Polygon.DistinctLength | client/depend/IMGUI/imgui_draw.cpp:1825-1827 | distinct numbers below n are at most n, so a span of n pointers never overflows |
| EarClipping.EraseIs | client/depend/IMGUI/imgui_draw.cpp:1792 | erasing from an unsorted span removes exactly the given vertex, puts the last one in its place and leaves all others where they are |
| EarClipping.CornersDoNotCount | client/depend/IMGUI/imgui_draw.cpp:1939 | the type of a corner does not depend on whether its own vertices are listed |
| EarClipping.ReclassifiedIsSound | client/depend/IMGUI/imgui_draw.cpp:1946-1971 | reclassifying one vertex keeps ear list, reflex list and types in step, and never overflows a span |
| EarClipping.ReclassifiedTyped | client/depend/IMGUI/imgui_draw.cpp:1946-1971 | a reclassified vertex has the type of its corner, and a neighbour that had its own keeps it |
| EarClipping.ClippedIsSound | client/depend/IMGUI/imgui_draw.cpp:1896-1903 | unlinking a vertex keeps the lists exact and leaves every ear but those at the gap a clockwise corner |
| EarClipping.ReversedIsSound | client/depend/IMGUI/imgui_draw.cpp:1877 | turning the ring around keeps the lists in step |
| EarClipping.BuiltIsSound | client/depend/IMGUI/imgui_draw.cpp:1847-1884 | rebuilding both lists restores the invariants, gives every vertex but the last the type of its corner, lists as reflex exactly the visited corners that turn back, and misses the last vertex exactly when its old type is Reflex, and no other |
| EarClipping.ClipArea | client/depend/IMGUI/imgui_draw.cpp:1896-1903 | ring area before a cut is ring area after it plus the triangle |
| EarClipping.FlipArea | client/depend/IMGUI/imgui_draw.cpp:1877 | a reversal flips the sign of the ring area |
| EarRuns.RefilledIs | client/depend/IMGUI/imgui_draw.cpp:1875-1884 | after a reversal exactly the visited corners that turn back are listed as reflex, only visited ones as ears, and the list misses the vertex that was first exactly when it was Reflex |
| EarRuns.FirstClip | client/depend/IMGUI/imgui_draw.cpp:1821-1896 | the ring is turned around for the first triangle exactly when every visited corner of the polygon is blocked, and else the last visited corner that nothing blocks is cut off |
| EarRuns.RebuiltEars | client/depend/IMGUI/imgui_draw.cpp:1875-1896 | a rebuild lists an ear exactly when some visited corner is clockwise and holds no visited vertex that turns back, and the one popped is such a corner |
| EarRuns.GapIsTyped | client/depend/IMGUI/imgui_draw.cpp:1901-1907 | both neighbours of the clipped vertex end with the types of their new corners |
| EarRuns.NewEarsAreLast | client/depend/IMGUI/imgui_draw.cpp:1904-1908 | a vertex at the gap that becomes an ear goes to the end of the ear list, the one behind the gap last: it is cut off next |
| EarRuns.NextRing | client/depend/IMGUI/imgui_draw.cpp:1873-1908 | each ring is the one before, reversed exactly when no ear was listed, without the clipped vertex |
| EarRuns.ClipsAreOk | client/depend/IMGUI/imgui_draw.cpp:1873-1908 | every triangle of every polygon has three distinct vertices; a listed ear is clockwise in its ring; after a reversal the last visited corner that nothing blocks is cut off, and the first node exactly when all are blocked |
| EarRuns.TipsDiffer | client/depend/IMGUI/imgui_draw.cpp:1899-1903 | no two triangles are cut off at the same vertex |
| EarRuns.AreaSoFar | client/depend/IMGUI/imgui_draw.cpp:1873-1908 | at every moment of the run the signed triangles and the ring that is left make up the polygon; the sign changes once with every reversal |
| EarRuns.ClipsMakeThePolygon | client/depend/IMGUI/imgui_draw.cpp:1873-1908 | the signed areas of all triangles sum to the polygon's |
| EarRuns.AreasAddUpIff | client/depend/IMGUI/imgui_draw.cpp:1873-1908 | the plain areas of the triangles add up to the polygon's exactly when no two of them lie opposite ways |
| EarRuns.EarsCoverPolygon | client/depend/IMGUI/imgui_draw.cpp:1873-1908 | when every triangle was a listed ear and the ring was turned at most before the first, the areas add up to the polygon's, whose sign says whether it was turned |
| ConvexRuns.ConvexIsCovered | client/depend/IMGUI/imgui_draw.cpp:1873-1908 | a convex polygon given clockwise is cut into listed ears only, its ring is never turned around, and the triangles have exactly its area |
| ConvexRuns.CounterClockwiseIsCovered | client/depend/IMGUI/imgui_draw.cpp:1873-1908 | given the other way round the ring is turned around once, before the first triangle, and the same holds |
| ConvexRuns.ConvexTriangles | client/depend/IMGUI/imgui_draw.cpp:1847-1908 | the triangles of every convex polygon of n points given clockwise, one by one: (n-3, n-2, n-1), then (n-3, n-1, 0), then (n-2-i, n-1-i, 0) for each further i, because the last vertex is not tested at first |
| Bends.BendByHeights | client/depend/IMGUI/imgui_draw.cpp:1847-1857 | a vertex higher over a line than both neighbours is a clockwise corner, and one lower than both is none, for any line and three points in the direction of it |
| RidgeRuns.InnerIsEar | client/depend/IMGUI/imgui_draw.cpp:1859-1871 | a clockwise corner in the middle of a ridge contains no other vertex |
| RidgeRuns.HasClockwise | client/depend/IMGUI/imgui_draw.cpp:1859-1871 | there always is such a corner while three vertices are left |
| RidgeRuns.CutRidge | client/depend/IMGUI/imgui_draw.cpp:1899-1903 | whichever ear is cut off, also one at either end, what is left is a ridge again |
| RidgeRuns.NextClimbing | client/depend/IMGUI/imgui_draw.cpp:1873-1908 | one triangle keeps every ear an ear, every turning-back vertex listed, and the types of all vertices right |
| RidgeRuns.RidgeIsCovered | client/depend/IMGUI/imgui_draw.cpp:1873-1908 | a polygon whose points lie each further along some direction than the one before, and on the clockwise side of the edge that closes it, is cut into listed ears only, its ring is never turned around, and the triangles have exactly its area, whichever of its corners turn back |
| RidgeRuns.NotchedRidge | client/depend/IMGUI/imgui_draw.cpp:1873-1908 | such a polygon that is not convex |
| RidgeRuns.WrongWayIsNotCovered | client/depend/IMGUI/imgui_draw.cpp:1020 | a notched polygon of four points, given counter-clockwise, whose triangles lie opposite ways and have more than four times its area |
| EarRuns.ReflexesAreListed | client/depend/IMGUI/imgui_draw.cpp:1847-1908 | in every reachable state the list of reflex vertices misses exactly one linked vertex or none: the one that was first, and Reflex, when the ring was last turned around, until it is clipped or gets a clockwise corner |
| EarRuns.AllListedIff | client/depend/IMGUI/imgui_draw.cpp:1847-1908 | in every reachable state all of them are listed exactly when there is no such vertex |
| EarRuns.RefilledListedIff | client/depend/IMGUI/imgui_draw.cpp:1873-1884 | right after a reversal all of them are listed exactly when the vertex that was first was not Reflex |
| EarRuns.NoneIsStale | client/depend/IMGUI/imgui_draw.cpp:1847-1884 | before the first reversal all of them are listed |
| EarRuns.StaleVertex | client/depend/IMGUI/imgui_draw.cpp:1875-1884 | a ring of four points after whose first triangle a linked Reflex vertex is not listed |
| Triangulator.NodeSpan.PushBack | client/depend/IMGUI/imgui_draw.cpp:1791 | appends one vertex within the capacity |
| Triangulator.NodeSpan.FindEraseUnsorted | client/depend/IMGUI/imgui_draw.cpp:1792 | the span is the one with that vertex erased by swapping in the last |
| Triangulator.Unlink | client/depend/IMGUI/imgui_draw.cpp:1783 | the rest of the ring is a well-formed cycle again |
| Triangulator.FlipNodeList | client/depend/IMGUI/imgui_draw.cpp:1910-1930 | the in-place loop reverses the ring exactly, and the new first node is the old last one |
| Triangulator.BuildNodes | client/depend/IMGUI/imgui_draw.cpp:1833-1845 | the storage is the ring 0 to n - 1 with all types Convex |
| Triangulator.Triangulator.BuildLists | client/depend/IMGUI/imgui_draw.cpp:1828-1830 | after initialisation the heap is in the start state of the value-level run, with every Reflex vertex listed |
| Triangulator.Triangulator.IsEar | client/depend/IMGUI/imgui_draw.cpp:1933-1944 | true exactly when no listed reflex vertex other than the corners lies in the triangle |
| Triangulator.Triangulator.Classify | client/depend/IMGUI/imgui_draw.cpp:1948-1957 | the type computed is the one of the corner's turn and containment test |
| Triangulator.Triangulator.ReclassifyNode | client/depend/IMGUI/imgui_draw.cpp:1946-1971 | heap and lists end in the reclassified state, whether or not the type changed |
| Triangulator.Triangulator.BuildReflexes | client/depend/IMGUI/imgui_draw.cpp:1847-1857 | the loop over all but one vertex lists the reflex ones in ring order |
| Triangulator.Triangulator.BuildEars | client/depend/IMGUI/imgui_draw.cpp:1859-1871 | the loop over all but one vertex lists the ears in ring order |
| Triangulator.Triangulator.Refill | client/depend/IMGUI/imgui_draw.cpp:1875-1884 | with no ear left the heap ends in the rebuilt state of the reversed ring |
| Triangulator.Triangulator.PickEar | client/depend/IMGUI/imgui_draw.cpp:1875-1896 | pops the last listed ear of the state the triangle is cut from, rebuilt if it had none; after a failed rebuild the first node |
| Triangulator.Triangulator.ClipEar | client/depend/IMGUI/imgui_draw.cpp:1901-1907 | the ring loses that vertex, both neighbours are classified again in order, and the state is valid, at most one Reflex vertex unlisted |
| Triangulator.Triangulator.GetNextTriangle | client/depend/IMGUI/imgui_draw.cpp:1873-1908 | triangle and next state are those of the value-level run, which ClipsAreOk and NextRing describe; the state stays valid with one triangle less to go |
| Triangulator.Triangulate | client/depend/IMGUI/imgui_draw.cpp:1989-1997 | exactly n - 2 triangles, the run's own in order, each as ClipsAreOk says, each cutting another vertex, with areas that sum to the polygon's under the sign that changes with each reversal |
| DrawCommands.RenderIsFill | client/depend/IMGUI/imgui_impl_opengl3.cpp:589-620 | commands that tile the index buffer draw exactly their tag list filled with the buffer: number and offsets of commands are invisible |
| DrawCommands.FillAt | client/depend/IMGUI/imgui_impl_opengl3.cpp:589-620 | each recorded tag is drawn in its place: an index slot under its header with its own index, a call with its callback |
| DrawCommands.SameTagsSameDrawing | client/depend/IMGUI/imgui_impl_opengl3.cpp:589-620 | two tiling buffers that record the same tags draw the same |
| DrawCommands.FillConcat | client/depend/IMGUI/imgui_impl_opengl3.cpp:589-620 | drawing a concatenation is drawing its parts one after the other |
| DrawCommands.Absorb | client/depend/IMGUI/imgui_draw.cpp:531-541 | joining two last draws of one header keeps record and tiling |
| DrawCommands.Relabel | client/depend/IMGUI/imgui_draw.cpp:545-602 | a command that draws nothing can take any header |
| DrawCommands.DropUnused | client/depend/IMGUI/imgui_draw.cpp:479-488 | a command that draws nothing can go |
| DrawCommands.Shrink | client/depend/IMGUI/imgui_draw.cpp:699-707 | giving indices back takes exactly the newest tags off the record |
| DrawCommands.RelabelStaysCoalesced | client/depend/IMGUI/imgui_draw.cpp:545-587 | a relabelled command shares its header with no neighbour unless the code would have merged them |
| DrawCommands.RelabelCoalescedIff | client/depend/IMGUI/imgui_draw.cpp:2206-2209 | an unused last command may be relabelled without joining its neighbour exactly when that is not a draw under the new header |
| DrawCommands.ClashExample | client/depend/IMGUI/imgui_draw.cpp:2206-2209 | three indices under one header and an unused command under another: coalesced, until the unused command is put back under the first |
| DrawCommands.ContinuesIs | client/depend/IMGUI/imgui_draw.cpp:589-603 | whether a command would continue its neighbour can be read off the record: the newest index has its header |
| DrawCommands.CoalescedIsShortest | client/depend/IMGUI/imgui_draw.cpp:479-488 | a coalesced buffer without its unused end has no more commands than any buffer that records the same |
| DrawCommands.DropOneIsTrimmedIff | client/depend/IMGUI/imgui_draw.cpp:2135-2136 | dropping one trailing unused command is dropping all exactly when there are fewer than two commands or one of the last two is used |
| DrawCommands.DropOneExample | client/depend/IMGUI/imgui_draw.cpp:2135-2136 | a fresh list after an explicit AddDrawCmd: two unused commands, of which only one goes |
| DrawCommands.ClippedIsIntersection | client/depend/IMGUI/imgui_draw.cpp:616-633 | a pushed clip rectangle shows exactly the points that the request and, if asked, the current rectangle show |
| DrawCommands.ClippedCorners | client/depend/IMGUI/imgui_draw.cpp:616-633 | its near corner is the one further out in each direction, and where nothing is left to show it is empty at that corner |
| DrawRecorder.ReserveFits | client/depend/IMGUI/imgui_draw.cpp:673-697 | with offsets allowed or room in the current window, and fewer than 65536 vertices, the indices of a reservation fit 16 bits and point at the vertices just reserved |
| DrawLists.DrawList.constructor | client/depend/IMGUI/imgui_draw.cpp:413-435 | one empty command under the zero header, nothing recorded |
| DrawLists.DrawList.AddDrawCmd | client/depend/IMGUI/imgui_draw.cpp:465-475 | one empty command under the current header at the end of the indices; nothing recorded changes, and the last command can grow |
| DrawLists.DrawList.PopUnusedDrawCmd | client/depend/IMGUI/imgui_draw.cpp:479-488 | exactly the trailing commands that neither draw nor call are gone, and what is recorded stays |
| DrawLists.DrawList.AddCallback | client/depend/IMGUI/imgui_draw.cpp:490-522 | exactly one call is recorded, after everything before it and under the current header, with the pointer, or with the number of its bytes and the place behind all bytes stored so far, where they are copied to; the last command is again a draw; coalesced commands stay so exactly when there was a callback |
| DrawLists.DrawList.TryMergeDrawCmds | client/depend/IMGUI/imgui_draw.cpp:531-541 | joins the two last draws exactly when they share a header; what is recorded stays |
| DrawLists.DrawList.OnChangedClipRect | client/depend/IMGUI/imgui_draw.cpp:545-565 | the last command follows the new clip rectangle, nothing recorded changes, and no two neighbouring draws come to share a header |
| DrawLists.DrawList.OnChangedTextureID | client/depend/IMGUI/imgui_draw.cpp:567-587 | the last command follows the new texture, nothing recorded changes, and no two neighbouring draws come to share a header |
| DrawLists.DrawList.OnChangedVtxOffset | client/depend/IMGUI/imgui_draw.cpp:589-603 | the last command follows the new offset, indices restart at 0, nothing recorded changes; coalesced commands stay so exactly when the newest index has another header |
| DrawLists.DrawList.PushClipRect | client/depend/IMGUI/imgui_draw.cpp:616-633 | the clip rectangle is stacked, current, ordered, and only later indices see it; texture and offset stay |
| DrawLists.DrawList.PopClipRect | client/depend/IMGUI/imgui_draw.cpp:640-645 | the stack loses its top, and the rectangle below, or the full screen, is current; texture and offset stay |
| DrawLists.DrawList.PushTextureID | client/depend/IMGUI/imgui_draw.cpp:647-652 | the texture is stacked and current; clip rectangle and offset stay |
| DrawLists.DrawList.PopTextureID | client/depend/IMGUI/imgui_draw.cpp:654-659 | the stack loses its top, and the texture below, or none, is current; clip rectangle and offset stay |
| DrawLists.DrawList.SetTextureID | client/depend/IMGUI/imgui_draw.cpp:662-668 | the texture is current without being stacked; clip rectangle and offset stay |
| DrawLists.DrawList.PrimReserve | client/depend/IMGUI/imgui_draw.cpp:673-697 | unless offsets are allowed and the current index with the new vertices reaches 65536, header, current index and number of commands stay; else the header differs in the offset only, which becomes the number of vertices, and the current index in being 0; index slots are tagged with that header, vertices stand behind all others; coalesced commands stay so exactly when no new window reopens the newest index's |
| DrawLists.DrawList.PrimUnreserve | client/depend/IMGUI/imgui_draw.cpp:699-707 | the newest slots, vertices and tags are gone; header, current index and write positions stay |
| DrawLists.DrawList.PrimWriteVtx | client/depend/IMGUI/imgui.h:3179 | writes the next reserved vertex and nothing else; write position and current index go one further |
| DrawLists.DrawList.PrimWriteIdx | client/depend/IMGUI/imgui.h:3180 | writes the next reserved index modulo 65536 and nothing else |
| DrawLists.DrawsWhatWasRecorded | client/depend/IMGUI/imgui_impl_opengl3.cpp:589-620 | a sound list renders the naive recording |
| DrawListSplitters.TilesFromFirst | client/depend/IMGUI/imgui_draw.cpp:2142-2148 | what follows the first command of a tiling run tiles the rest |
| DrawListSplitters.SeamKeepsTags | client/depend/IMGUI/imgui_draw.cpp:2138-2150 | moving a channel's first indices into the previous channel's last command keeps the record |
| DrawListSplitters.SeamFits | client/depend/IMGUI/imgui_draw.cpp:2142-2149 | after a seam is merged no command of the channel can be joined to the last one before it |
| DrawListSplitters.Renumber | client/depend/IMGUI/imgui_draw.cpp:2155-2159 | rewritten offsets tile on from where the channels before end, and tags are untouched |
| DrawListSplitters.JoinedReplaceLast | client/depend/IMGUI/imgui_draw.cpp:2146-2152 | growing the last command through the remembered pointer grows the last command of all joined channels, also across empty ones |
| DrawListSplitters.ConcatDraws | client/depend/IMGUI/imgui_draw.cpp:2118-2187 | drawing the logs of all channels one after another is drawing each channel, one after another |
| DrawListSplitters.ConcatAt | client/depend/IMGUI/imgui_draw.cpp:2161-2173 | what is joined stands part behind part, each element at its own place behind all parts before |
| DrawListSplitters.DrawListSplitter.Split | client/depend/IMGUI/imgui_draw.cpp:2088-2116 | channel 0 goes on, all others start empty, also on reused storage |
| DrawListSplitters.DrawListSplitter.Exchange | client/depend/IMGUI/imgui_draw.cpp:2195-2201 | the buffers swap and no channel's record changes |
| DrawListSplitters.DrawListSplitter.SetCurrentChannel | client/depend/IMGUI/imgui_draw.cpp:2189-2211 | header, clip rectangles, textures, vertices, current index, stored bytes and everything else but commands and indices stay; those become the other channel's, whose last command takes the header; every channel's record and indices stay; coalesced channels all stay so exactly when the one taken out does not end in an unused command that now clashes with the one before |
| DrawListSplitters.DrawListSplitter.FoldChannel | client/depend/IMGUI/imgui_draw.cpp:2134-2159 | one channel joins: unused command off, seam merged, renumbered, and the joined commands record one log more |
| DrawListSplitters.DrawListSplitter.FoldAll | client/depend/IMGUI/imgui_draw.cpp:2130-2160 | all commands together tile and record the logs in channel order |
| DrawListSplitters.DrawListSplitter.AppendAll | client/depend/IMGUI/imgui_draw.cpp:2161-2173 | commands and indices are copied in channel order |
| DrawListSplitters.DrawListSplitter.Merge | client/depend/IMGUI/imgui_draw.cpp:2118-2187 | the list holds the concatenated logs over the concatenated index buffers, ends in a command that can grow, and is no longer split; all that is not commands or indices stays; coalesced channels give a coalesced list, also across the seams |
| DrawRuns.Perform | client/depend/IMGUI/imgui_draw.cpp:465-707 | each operation on the list is the recorder's operation, changes the stacks, the texture, the buffers and the write positions as only it should, and keeps the commands coalesced exactly when it is tidy |
| DrawRuns.Run | client/depend/IMGUI/imgui_draw.cpp:465-707 | every run of operations renders the naive recording, with commands that tile the indices and a last one that can grow; a tidy run keeps them coalesced |
| DrawRuns.AlwaysIndexable | client/depend/IMGUI/imgui_draw.cpp:673-697 | over every run that fills its reservations, each vertex is reached by its 16-bit index from the current offset |
| DrawRuns.PopUndoesPushClip | client/depend/IMGUI/imgui_draw.cpp:616-645 | a push, any operations whose pops take only what they pushed themselves, and the pop leave the stack as it was, and the clip rectangle exactly when there was one on the stack or the full screen was current |
| DrawRuns.PopUndoesPushTexture | client/depend/IMGUI/imgui_draw.cpp:647-659 | the same of textures: after the pop the texture on top of the stack is current, or none, so one set without the stack is not restored |
| DrawRuns.ChannelsIndexable | client/depend/IMGUI/imgui_draw.cpp:673-697 | the same for any interleaving with changes of channel: the channels share vertices and window, so every vertex stays reached by its 16-bit index |
| DrawRuns.DisciplinedIsTidy | client/depend/IMGUI/imgui_draw.cpp:465-707 | a run that fills its reservations before the next one is tidy exactly when it adds no command without need |
| DrawRuns.ClashIsReturn | client/depend/IMGUI/imgui_draw.cpp:2203-2210 | taking a channel out clashes exactly when it was left under another header and comes back under that of its newest index |
| DrawRuns.ReturnExample | client/depend/IMGUI/imgui_draw.cpp:2203-2210 | a run of six calls, on any list with room for three vertices, that is allowed and takes a channel out with a clash |
| DrawRuns.DrawInChannels | client/depend/IMGUI/imgui_draw.cpp:2088-2211 | split, any interleaving of drawing and channel changes, merge: the rendering is each channel's own, in channel order, and the merged commands are coalesced when every action was tidy |
| DrawCallbacks.StepDelivers | client/depend/IMGUI/imgui_draw.cpp:490-522 | one operation adds exactly the call that was asked for, with its pointer or its bytes, and leaves all others and their data alone |
| DrawCallbacks.ChannelDelivers | client/depend/IMGUI/imgui_draw.cpp:490-522 | over any interleaving each channel's record delivers exactly the calls asked for while it was current, in order and each with its own data |
| DrawCallbacks.MergedDeliver | client/depend/IMGUI/imgui_draw.cpp:2260-2264 | resolved when the frame is finished, the callbacks of the merged list are all that were asked for, one channel after another, each with the data it was given |
| DrawPrimitives.FindsPoint | client/depend/IMGUI/imgui_draw.cpp:840-876 | an index survives the 16-bit conversion and finds the vertex of its point and rail |
| DrawPrimitives.FoundSplits | client/depend/IMGUI/imgui_draw.cpp:860-875 | the index table of each stroke cuts the quads between neighbouring rails along a diagonal |
| DrawPrimitives.PathIsStrips | client/depend/IMGUI/imgui_draw.cpp:840-878 | the indices of a whole path, closed or open, are the quads of its segments and nothing else |
| DrawPrimitives.WritePath | client/depend/IMGUI/imgui_draw.cpp:936-972 | the running index computes each segment's ends, including the wrap to the first point |
| DrawPrimitives.WriteRows | client/depend/IMGUI/imgui_draw.cpp:880-911 | one row of vertices for each point, filling exactly what was reserved |
| DrawStrokes.StrokeSmooth | client/depend/IMGUI/imgui_draw.cpp:772-984 | an anti-aliased line writes all it reserved, and its new indices find only its own new vertices |
| DrawStrokes.StrokePlain | client/depend/IMGUI/imgui_draw.cpp:986-1016 | a plain line writes four vertices and one quad for each segment, all of them reached by its own indices |
| DrawStrokes.AddPolyline | client/depend/IMGUI/imgui_draw.cpp:763-1017 | nothing for fewer than two points or an invisible colour; else, for each of the four paths, the numbers of new indices and vertices, the quads of each segment between its two ends and rails, and that some new triangle connects two points exactly when one follows the other or they are the ends of a closed line |
| DrawQuads.StripsConnect | client/depend/IMGUI/imgui_draw.cpp:770-1015 | a line's triangles connect each point with the next, the last with the first exactly when it is closed, and no other two points |
| DrawQuads.StripsAre | client/depend/IMGUI/imgui_draw.cpp:770-1015 | each segment's indices are its quads, in order: two triangles over one diagonal of the corners at its two ends and two rails |
| DrawStrokes.PrimRect | client/depend/IMGUI/imgui_draw.cpp:710-723 | six indices that find the corners (ax, ay), (cx, ay), (cx, cy) and (ax, ay), (cx, cy), (ax, cy) |
| DrawFills.FanAreas | client/depend/IMGUI/imgui_draw.cpp:1094-1098 | the fan's signed areas telescope |
| DrawFills.FanCovers | client/depend/IMGUI/imgui_draw.cpp:1040-1044 | the triangles of a fan have together exactly the polygon's signed area |
| DrawFills.TrisFind | client/depend/IMGUI/imgui_draw.cpp:2001-2006 | indices of triangles find the inner vertices of their corners |
| DrawFills.FringeFinds | client/depend/IMGUI/imgui_draw.cpp:1076-1079 | the fringe's indices are one quad for each edge between its inner and outer rail |
| DrawFills.FillsAt | client/depend/IMGUI/imgui_draw.cpp:1021-1101 | a fill read vertex by vertex: the inner vertices of each triangle's corners in order, and each edge's quad |
| DrawFills.WriteFringe | client/depend/IMGUI/imgui_draw.cpp:1060-1081 | vertices and fringe indices of all points, filling what was reserved |
| DrawFills.AddConvexPolyFilled | client/depend/IMGUI/imgui_draw.cpp:1021-1101 | fills the triangles (0, k+1, k+2) over the inner vertices and, if asked, one quad for each edge from its inner to its outer vertices, in 3(n-2) and 6n indices and one or two vertices for each point, or nothing at all |
| DrawFills.AddConcavePolyFilled | client/depend/IMGUI/imgui_draw.cpp:1978-2066 | fills exactly the triangles of the run, in order over the inner vertices, which are proper and account for the polygon's area, with one quad for each edge if asked, writing exactly what it reserved |
| Adler.RawReduces | client/depend/IMGUI/imgui_draw.cpp:4599 | reducing once per block equals reducing at every byte |
| Adler.ChecksumIs | client/depend/IMGUI/imgui_draw.cpp:4582-4599 | the two sums in closed form: the bytes once each, and each as often as there are bytes from it to the end, both with their start and modulo 65521 |
| Adler.ChecksumConcat | client/depend/IMGUI/imgui_draw.cpp:4582-4602 | a checksum can be continued block by block |
| Adler.BlockFits | client/depend/IMGUI/imgui_draw.cpp:4579-4599 | in a block of at most 5552 bytes no sum leaves 32 bits, whatever the bytes and the starting halves |
| Adler.BlockIsTight | client/depend/IMGUI/imgui_draw.cpp:4601 | one byte more and there are bytes that overflow |
| Adler.Block | client/depend/IMGUI/imgui_draw.cpp:4583-4597 | eight bytes to a turn and the rest one by one is every byte once, in order |
| Adler.Adler32 | client/depend/IMGUI/imgui_draw.cpp:4575-4604 | the low half is the sum of the bytes and the start's, the high half the sum weighted by distance from the end, both modulo 65521, which is the checksum of section 2.2 of RFC 1950, for every length and every start; for no bytes it is the start itself |
| Adler.SplitReduced | client/depend/IMGUI/imgui_draw.cpp:4582-4603 | for no bytes, program and standard agree exactly when both halves of the start are reduced |
| TokenFormat.CopyHeads | client/depend/IMGUI/imgui_draw.cpp:4561-4571 | memory reads as a copy token exactly when it holds that token's bytes, in each of the six forms |
| TokenFormat.LiteralHeads | client/depend/IMGUI/imgui_draw.cpp:4563-4569 | memory reads as a literal token exactly when it holds its head and data, in each of the three forms |
| TokenFormat.ReadsBack | client/depend/IMGUI/imgui_draw.cpp:4558-4573 | a token's encoding is what reads back as that token, and nothing else |
| TokenFormat.TokenForms | client/depend/IMGUI/imgui_draw.cpp:4554-4573 | the nine forms byte by byte: for each first byte whether a copy or a literal stands there, its distance, length or data, and how many bytes it takes |
| Decompressor.CopyBackIsPeriodic | client/depend/IMGUI/imgui_draw.cpp:4542 | a copy repeats the bytes one distance back, also those it has just written |
| Decompressor.ExpandIs | client/depend/IMGUI/imgui_draw.cpp:4536-4552 | a token list makes a result exactly when their lengths agree and each token stands in its place: a literal's bytes in order, a copy's each equal to the one a distance before |
| Decompressor.UnpackInverts | client/depend/IMGUI/imgui_draw.cpp:4617-4635 | reading the encoding of any token list gives its expansion |
| Decompressor.UnpackIsSound | client/depend/IMGUI/imgui_draw.cpp:4617-4635 | whatever is accepted is the encoding of some token list |
| Decompressor.StreamsAreEncodings | client/depend/IMGUI/imgui_draw.cpp:4606-4636 | a stream decompresses to a result exactly when it is a header and an encoding of that result |
| Decompressor.StreamsDecompress | client/depend/IMGUI/imgui_draw.cpp:4606-4636 | it does so exactly when it is, byte by byte, mark, length, tokens that make the result position by position, end mark and the result's two sums |
| Decompressor.StreamExample | client/depend/IMGUI/imgui_draw.cpp:4606-4636 | a stream of a two-byte literal and an overlapping copy, and the five bytes it makes |
| Decompressor.Decoder.Match | client/depend/IMGUI/imgui_draw.cpp:4536-4543 | a copy within the barriers makes each byte it writes equal to the one a distance before it and writes nothing else; otherwise the write position passes the end and nothing is written |
| Decompressor.Decoder.Lit | client/depend/IMGUI/imgui_draw.cpp:4545-4552 | a literal within the barriers writes its bytes, in the order of the input, and nothing else; otherwise nothing is written |
| Decompressor.Decoder.Token | client/depend/IMGUI/imgui_draw.cpp:4558-4573 | one token has its effect and advances by its encoding; no token, no change |
| Decompressor.Decoder.Step | client/depend/IMGUI/imgui_draw.cpp:4618-4634 | each token uses up output space or trips the barrier, so the loop ends |
| Decompressor.Decoder.Decompress | client/depend/IMGUI/imgui_draw.cpp:4606-4636 | returns the length and writes the result exactly when the input is a stream of tokens that make it, position by position, and else returns 0; bytes behind the announced length are untouched; ends on every input |
| ArcSampler.CountIs | client/depend/IMGUI/imgui_draw.cpp:1153 | a range of q whole steps and a rest takes q + 1 samples |
| ArcSampler.FirstStepCount | client/depend/IMGUI/imgui_draw.cpp:1121-1138 | with the shortened first step the loop still takes the number of samples reserved |
| ArcSampler.ArcPath.SweepUp | client/depend/IMGUI/imgui_draw.cpp:1151-1164 | every table index is in range and stands for its sample number with one wrap correction, going up |
| ArcSampler.ArcPath.SweepDown | client/depend/IMGUI/imgui_draw.cpp:1165-1178 | the same going down |
| ArcSampler.LastGap | client/depend/IMGUI/imgui_draw.cpp:1133-1136 | the shortened first step and the last one differ by at most one |
| ArcSampler.ArcPath.PathArcToFastEx | client/depend/IMGUI/imgui_draw.cpp:1103-1193 | writes exactly the samples reserved: the first stands for the arc's start and the last for its end, modulo 48; with the step limited to 1 to 12, no gap is longer and all but the first and the last are whole, in either direction |
| GlyphRanges.MasksDiffer | client/depend/IMGUI/imgui.h:3279-3280 | bits of one word do not overlap |
| GlyphRanges.WithSets | client/depend/IMGUI/imgui.h:3280 | setting a bit of a word sets that bit only |
| GlyphRanges.BitAfterOr | client/depend/IMGUI/imgui.h:3280 | setting a code point adds it and no other, across words |
| GlyphRanges.ReadsBack | client/depend/IMGUI/imgui_draw.cpp:3651-3656 | a written list reads back whole, or as empty when it starts at 0 |
| GlyphRanges.ReadAt | client/depend/IMGUI/imgui_draw.cpp:3651-3656 | what a reader takes from a list, by the list's own numbers: pairs up to the first that starts with zero, bounds included |
| GlyphRanges.WrittenThenRead | client/depend/IMGUI/imgui_draw.cpp:3651-3670 | for a set without 0 the reader gets the writer's intervals; for one with 0 it gets none |
| GlyphRanges.GlyphRangesBuilder.GetBit | client/depend/IMGUI/imgui.h:3279 | whether the code point is in the set, which is bit n mod 32 of word n / 32 |
| GlyphRanges.GlyphRangesBuilder.SetBit | client/depend/IMGUI/imgui.h:3280 | the set gains that code point |
| GlyphRanges.GlyphRangesBuilder.AddRanges | client/depend/IMGUI/imgui_draw.cpp:3651-3656 | the set gains exactly the numbers between the two bounds of some pair in front of the first pair that starts with zero |
| GlyphRanges.GlyphRangesBuilder.BuildRanges | client/depend/IMGUI/imgui_draw.cpp:3658-3670 | pairs of bounds, ascending and with a number missing between neighbours, then a zero; a number is between the bounds of a pair exactly when it is in the set |
| GlyphRanges.RoundTrip | client/depend/IMGUI/imgui_draw.cpp:3651-3670 | writing and reading into a cleared builder gives the same set exactly when 0 is not in it |
| FontLookup.PagesPush | client/depend/IMGUI/imgui_draw.cpp:3743-3745 | marking a code point's page keeps the map equal to the pages in use |
| FontLookup.Font.FindsLast | client/depend/IMGUI/imgui_draw.cpp:3909-3917 | the table finds the last glyph of a code point, as a search from the end does |
| FontLookup.Font.NeverMissing | client/depend/IMGUI/imgui_draw.cpp:3899-3907 | once built, every code point has a glyph: its own or the fallback |
| FontLookup.Font.GrowIndex | client/depend/IMGUI/imgui_draw.cpp:3826-3833 | new entries are empty, old ones stay |
| FontLookup.Font.BuildTables | client/depend/IMGUI/imgui_draw.cpp:3725-3746 | table, advances and page map belong to the glyphs |
| FontLookup.Font.AddTab | client/depend/IMGUI/imgui_draw.cpp:3748-3760 | the TAB glyph, four times as wide as what the space shows, is last and found, replacing one that was last; with neither a space nor a fallback there is none; the page map goes on fitting exactly when none was made or its page was in use |
| FontLookup.Font.SetGlyphVisible | client/depend/IMGUI/imgui_draw.cpp:3820-3824 | the glyph that the lookup finds, own or fallback, is shown or hidden and nothing else changes; tables that fit the glyphs go on fitting, before and after the fallback is chosen |
| FontLookup.Font.FindFirstExistingGlyph | client/depend/IMGUI/imgui_draw.cpp:3715-3721 | the first candidate that has a glyph, or 0 when none has |
| FontLookup.Font.SetupFallback | client/depend/IMGUI/imgui_draw.cpp:3766-3779 | the last glyph of the first code point that has one, of the preferred one, U+FFFD, the question mark, the space and 0; without any, the last glyph |
| FontLookup.Font.BuildLookupTable | client/depend/IMGUI/imgui_draw.cpp:3723-3782 | every lookup agrees with a search of the glyphs, and none is ever missing, for a first build and for one more; glyph by glyph, a TAB of four times the space's advance ends them, in place of one that was last, and it and the space stop showing, or without a space only a TAB does; the fallback is chosen in the stated order; when the page map fits the glyphs is stated exactly |
| FontLookup.Font.AdvanceAgrees | client/depend/IMGUI/imgui.h:3466 | the advance by table is that of the glyph found exactly when it is not negative or equals the fallback's |
| FontLookup.Font.IsGlyphRangeUnused | client/depend/IMGUI/imgui_draw.cpp:3809-3818 | true exactly when no glyph lies on a page of the range; then none lies in the range |
| FontLookup.Font.AddRemapChar | client/depend/IMGUI/imgui_draw.cpp:3883-3896 | the table becomes the remapped one, and what the advances of all code points become |
| FontLookup.RemappedFinds | client/depend/IMGUI/imgui_draw.cpp:3888-3895 | the remapped table finds at the redirected code point what the other one found, and everywhere else what it found before |
| FontLookup.RemapKeepsIff | client/depend/IMGUI/imgui_draw.cpp:3888-3895 | a code point with a glyph keeps it exactly when the other one found the same, with or without permission to overwrite; one without a glyph stays so exactly when the other found none or it may not be overwritten |
| FontLookup.RemapExample | client/depend/IMGUI/imgui_draw.cpp:3888-3895 | a code point with a glyph is redirected although it is not to be overwritten |
| FontLookup.UnmarkedTab | client/depend/IMGUI/imgui_draw.cpp:3748-3760 | a font with a fallback from before whose page map does not fit the glyphs once the TAB is made |

## Left out

- Floating point: clip rectangles, polygon corners and glyph advances are real numbers. Header comparison is by value; the program compares bytes, which differs for NaN and for the two zeros.
- Machine integers: counters, areas and offsets are unbounded, except where width matters (16-bit indices and code points, 32-bit checksum sums and words). The packer's height is at most 2^30, the value of its sentinel, and its width below its coordinate maximum.
- RectPack.Context.PackRectangle: with a quantum above 1 it states that between w and the rounded width columns are raised, because a right-aligned best-fit place may stitch to the next node; with quantum 1 it is exactly w.
- PackRects.PackRects: requests have non-negative sizes; negative ones mean nothing to the packer.
- The library sort is a parameter: any function returning an ordered permutation, stable or not.
- Assertions of the program count as disabled; where they are a demand on the caller they are preconditions.
- EarRuns.ClipsAreOk: for an ear listed before the latest cut it states that it is clockwise in the ring it is cut from; which vertices lie inside it is stated for the first ear after a build or a rebuild (`EarRuns.FirstClip`, `EarRuns.RebuiltEars`) and on convex polygons and ridges, because on others later cuts may list new reflex vertices without testing old ears again.
- EarRuns.AreasAddUpIff: its condition is on the triangles of the run. From the points alone it is established for convex polygons, either way round, and for ridges; for other simple polygons it is not, in either direction.
- DrawFills.AddConcavePolyFilled: takes all triangles first and writes them afterwards, where the program alternates.
- DrawStrokes.AddPolyline: vertex positions, normals and fringes are not computed; a vertex is known by its input point and rail. Whether a line is textured or thick is an input.
- DrawLists.DrawList.AddCallback: the bytes given are those the pointer leads to when the callback is added; that the size of all bytes stored fits the program's 32-bit counter is not modelled.
- Commands with an empty clip rectangle are skipped by the renderer; the model renders them. This depends on the header alone, so equal renderings stay equal.
- `CloneOutput`, `_ClearFreeMemory`, `_ResetForNewFrame` and the path and shape helpers built on the primitives: assignments and calls only.
- ArcSampler.ArcPath.PathArcToFastEx: the circle's segment count and whether the radius is tiny are inputs; the table's contents are not modelled.
- FontLookup.Font.BuildLookupTable: a fallback left from an earlier build is a position, where the program keeps a pointer that resizing the glyphs may leave dangling; with such a fallback it asks for some code point of at least 9, so that the tables have an entry for the TAB. The ellipsis character is not chosen.
- GlyphRanges: UTF-8 text input.
- Decompressor.Decoder.Decompress: requires room for the length the header announces, as the program's caller allocates it; allocation and base85 decoding are not modelled.
- Vectors are sequences; growth policy and allocation are not modelled.
- The chat protocol, sockets, the thread-safe queue, logging, window handling, OpenGL calls, TrueType parsing, text layout and the embedded font data.
