/** The packer runs out of nodes although there is room exactly on the targets of NodesCanRunOut.
    RectPack.Context.OutOfNodes is one half; the run below is the other: unit squares, packed by either heuristic
    until no node is free although one more fits. */
module Exhaustion {
  import opened SkylineColumns
  import opened SkylinePoints
  import opened RectPack

  /** The skyline after i unit squares in a row. */
  function RowSky(i: nat, width: nat): seq<int>
    requires i <= width
  {
    Flat(i, 1) + Flat(width - i, 0)
  }

  function RowLine(i: nat, width: nat): seq<Point>
    requires i < width
  {
    seq(i, j => Point(j, 1)) + [Point(i, 0), Point(width, TOP)]
  }

  lemma ProductBounds(p: int, q: int)
    requires 0 <= p && 0 <= q
    ensures 0 <= p * q
  {}

  /** A quantum never makes the row too short to use up the nodes. */
  lemma RowIsLongEnough(width: int, n: int)
    requires 0 < n < width
    ensures n + CeilDiv(width, n) <= width + 1
  {
    var a := CeilDiv(width, n);
    ProductBounds(n - 1, a - 2);
    assert (n - 1) * (a - 2) == n * (a - 1) - n - (a - 2);
  }

  lemma RowStart(width: nat)
    requires 0 < width
    ensures RowLine(0, width) == [Point(0, 0), Point(width, TOP)] && RowSky(0, width) == Flat(width, 0)
  {}

  lemma RowInsert(i: nat, width: nat)
    requires i + 1 < width
    ensures Insert(RowLine(i, width), i, i, 1, 1) == RowLine(i + 1, width)
    ensures RightEnd(RowLine(i, width), i, i, 1) == i + 1
    ensures Raise(RowSky(i, width), i, 1, 1) == RowSky(i + 1, width)
  {
    var s := RowLine(i, width);
    assert s[i] == Point(i, 0) && s[i + 1] == Point(width, TOP);
    assert SkipTo(s, i, i + 1) == i;
    assert RowLine(i + 1, width)[..i] == s[..i];
  }

  /** The bottom-left place for the next unit square is right after the row. */
  lemma RowNext(i: nat, width: nat, window: int, x: int, y: int)
    requires 0 < window && i + window <= width
    requires BottomLeft(RowSky(i, width), window, x, y)
    ensures x == i && y == 0
  {
    var sky := RowSky(i, width);
    assert AtLeftMost(sky, window, x, y, i);
    assert Rest(sky, i, window) == 0;
    assert sky[x] <= Rest(sky, x, window);
  }

  /** The search reports a unit square on the free floor as resting at 0 without waste, wherever it is aligned. */
  lemma RowChoice(i: nat, width: nat, window: int, x: int)
    requires i < width && 0 < window && i <= x && x + window <= width
    ensures Skyline(RowLine(i, width), width) && ChoiceAt(RowLine(i, width), width, window, x) == Choice(0, 0, x)
  {
    var s := RowLine(i, width);
    assert s[i] == Point(i, 0) && s[i + 1] == Point(width, TOP);
    ChoiceIsScan(s, width, window, x, i);
    var st := ScanStep(START, s[i], s[i + 1].x, x, window);
    assert ScanFrom(s, i + 1, x, window, st) == st;
  }

  /** The best-fit place is there as well: a right-aligned place at the end of the floor is no lower and wastes no
      less, and lies further right. */
  lemma RowNextBest(i: nat, width: nat, window: int, height: int, x: int, y: int)
    requires 0 < window && i + window <= width && 0 < height
    requires LowestRest(RowSky(i, width), window, x, y) && BestFit(RowLine(i, width), width, window, 1, height, x)
    ensures x == i && y == 0
  {
    hide ChoiceAt;
    var s, sky := RowLine(i, width), RowSky(i, width);
    assert Rest(sky, i, window) == 0;
    assert y <= Rest(sky, i, window);
    assert sky[x] <= Rest(sky, x, window);
    assert x >= i;
    RowChoice(i, width, window, i);
    RowChoice(i, width, window, x);
    assert s[i].x == i && Candidate(s, width, window, i);
    assert Beats(s, width, window, 1, height, x, i);
  }

  /** Either heuristic puts the next unit square right after the row. */
  lemma RowNextPlace(heur: Heuristic, i: nat, width: nat, window: int, height: int, x: int, y: int)
    requires 0 < window && i + window <= width && 0 < height && LowestRest(RowSky(i, width), window, x, y)
    requires heur == SkylineBottomLeft ==> BottomLeft(RowSky(i, width), window, x, y)
    requires heur == SkylineBestFit ==> BestFit(RowLine(i, width), width, window, 1, height, x)
    ensures x == i && y == 0
  {
    if heur == SkylineBottomLeft {
      RowNext(i, width, window, x, y);
    } else {
      RowNextBest(i, width, window, height, x, y);
    }
  }

  lemma RowNextPlacement(heur: Heuristic, line: seq<Point>, sky: seq<int>, line': seq<Point>, sky': seq<int>,
                         fr: FindResult, lift: int, k: int, window: int, height: int, i: nat, width: nat)
    requires 0 < window && i + window <= width && i + 1 < width && line == RowLine(i, width) && sky == RowSky(i, width)
    requires Placement(heur, line, sky, sky', Box(fr.x, fr.y, 1, 1), lift, window, height)
    requires InsertedAt(line, line', k, lift, fr.x, 1, fr.y + 1)
    ensures line' == RowLine(i + 1, width) && sky' == RowSky(i + 1, width)
  {
    hide LowestRest, BottomLeft, BestFit, Raise, Insert, RightEnd, Rest;
    PlacementFacts(heur, line, sky, sky', Box(fr.x, fr.y, 1, 1), lift, window, height);
    hide Placement;
    RowSkyLength(i, width);
    RowNextPlace(heur, i, width, window, height, fr.x, fr.y);
    RowSegment(i, width, k);
    RowInsert(i, width);
  }

  lemma RowSkyLength(i: nat, width: nat)
    requires i <= width
    ensures |RowSky(i, width)| == width
  {}

  lemma PlacementFacts(heur: Heuristic, line: seq<Point>, sky: seq<int>, sky': seq<int>, b: Box, lift: int,
                       window: int, height: int)
    requires Placement(heur, line, sky, sky', b, lift, window, height)
    ensures LowestRest(sky, window, b.x, b.y) && (heur == SkylineBottomLeft ==> BottomLeft(sky, window, b.x, b.y))
    ensures heur == SkylineBestFit ==> BestFit(line, |sky|, window, b.h, height, b.x)
    ensures b.y + b.h <= height && 0 < b.h && 0 <= b.x && b.w <= lift <= window && b.x + window <= |sky| && 0 <= b.y
    ensures sky' == Raise(sky, b.x, lift, b.y + b.h)
  {}

  lemma RowSegment(i: nat, width: nat, k: int)
    requires i < width && 0 <= k <= i && RowLine(i, width)[k].x <= i < RowLine(i, width)[k + 1].x
    ensures k == i
  {}

  lemma RowFits(i: nat, width: nat, window: int, height: int)
    requires 0 < window && i + window <= width && 0 < height
    ensures FitsSomewhere(RowSky(i, width), window, 1, height)
  {
    assert FitsAt(RowSky(i, width), window, 1, height, i);
  }

  lemma RowHasRoomAbove(i: nat, width: nat, window: int, height: int)
    requires i <= width && 0 < window <= width && 2 <= height
    ensures FitsSomewhere(RowSky(i, width), window, 1, height)
  {
    var sky := RowSky(i, width);
    assert Rest(sky, 0, window) <= 1;
    assert FitsAt(sky, window, 1, height, 0);
  }

  ghost predicate InRow(ctx: Context, i: nat)
    reads ctx, ctx.active, ctx.free
  {
    && ctx.Valid() && i < ctx.width
    && ctx.line == RowLine(i, ctx.width) && ctx.sky == RowSky(i, ctx.width)
  }

  method PackInRow(ctx: Context, ghost i: nat)
    requires InRow(ctx, i) && i < ctx.numNodes < ctx.width && i + ctx.align <= ctx.width && 1 <= ctx.height
    modifies ctx`activeHead, ctx`freeHead, ctx`active, ctx`free, ctx`line, ctx`sky, ctx`placed, ctx.nodes
    ensures InRow(ctx, i + 1)
  {
    hide RowLine, RowSky, FitsSomewhere, Context.Valid, RoundUp, Placement, InsertedAt;
    InRowFacts(ctx, i);
    SmallWindow(ctx.align);
    RowFits(i, ctx.width, ctx.align, ctx.height);
    ghost var sky, line := ctx.sky, ctx.line;
    var fr, lift, k := ctx.PackRectangle(1, 1);
    RowNextPlacement(ctx.heuristic, line, sky, ctx.line, ctx.sky, fr, lift, k, ctx.align, ctx.height, i, ctx.width);
  }

  /** The state InitTarget leaves behind, before or after SetupAllowOutOfMem and SetupHeuristic. */
  ghost predicate FreshTarget(ctx: Context)
    reads ctx, ctx.active, ctx.free
  {
    && ctx.Valid()
    && (ctx.align == 1 || ctx.align == CeilDiv(ctx.width, ctx.numNodes))
    && ctx.line == [Point(0, 0), Point(ctx.width, TOP)] && ctx.sky == Flat(ctx.width, 0)
  }

  lemma FreshIsRow(ctx: Context)
    requires FreshTarget(ctx) && ctx.numNodes < ctx.width
    ensures 0 < ctx.numNodes && InRow(ctx, 0) && ctx.numNodes + ctx.align <= ctx.width + 1
  {
    hide RowLine, RowSky;
    RowStart(ctx.width);
    RowIsLongEnough(ctx.width, ctx.numNodes);
  }

  /** On any freshly initialised target on which nodes can run out, quantised or not and with either heuristic, this
      run leaves no free node, while a unit square still fits by the search's own criterion: the next packing is
      refused for want of a node. */
  method ExhaustNodes(ctx: Context) returns (fr: FindResult)
    requires FreshTarget(ctx) && NodesCanRunOut(ctx.width, ctx.height, ctx.align, ctx.numNodes)
    modifies ctx`activeHead, ctx`freeHead, ctx`active, ctx`free, ctx`line, ctx`sky, ctx`placed, ctx.nodes
    ensures ctx.Valid() && ctx.free == []
    ensures FitsSomewhere(ctx.sky, RoundUp(1, ctx.align), 1, ctx.height) && fr.link == Missing
  {
    hide Context.Valid, FitsSomewhere, RoundUp, InRow, FreshTarget, RowSky, RowLine, Placement, InsertedAt;
    FreshIsRow(ctx);
    RunRow(ctx);
    InRowFacts(ctx, ctx.numNodes);
    SmallWindow(ctx.align);
    if ctx.height >= 2 {
      RowHasRoomAbove(ctx.numNodes, ctx.width, ctx.align, ctx.height);
    } else {
      RowFits(ctx.numNodes, ctx.width, ctx.align, ctx.height);
    }
    ghost var k, lift;
    fr, lift, k := ctx.PackRectangle(1, 1);
  }

  method RunRow(ctx: Context)
    requires FreshTarget(ctx) && ctx.numNodes < ctx.width && 1 <= ctx.height
    modifies ctx`activeHead, ctx`freeHead, ctx`active, ctx`free, ctx`line, ctx`sky, ctx`placed, ctx.nodes
    ensures InRow(ctx, ctx.numNodes) && ctx.align <= ctx.width
  {
    hide InRow, FreshTarget;
    FreshIsRow(ctx);
    var n := ctx.numNodes;
    var i := 0;
    while i < n
      invariant 0 <= i <= n && InRow(ctx, i)
    {
      PackInRow(ctx, i);
      i := i + 1;
    }
  }

  lemma InRowFacts(ctx: Context, i: nat)
    requires InRow(ctx, i)
    ensures ctx.Valid() && i < ctx.width && |ctx.free| == ctx.numNodes - i
    ensures 0 < ctx.align && ctx.line == RowLine(i, ctx.width) && ctx.sky == RowSky(i, ctx.width)
  {
    NodesLeft(ctx, i);
  }

  lemma SmallWindow(align: int)
    requires 0 < align
    ensures RoundUp(1, align) == align
  {
  }

  lemma NodesLeft(ctx: Context, i: nat)
    requires ctx.Valid() && i < ctx.width && ctx.line == RowLine(i, ctx.width)
    ensures |ctx.free| == ctx.numNodes - i
  {}
}
