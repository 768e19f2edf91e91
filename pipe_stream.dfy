/**
 * The pipe queue as values: the geometry of one pipe's two barriers and the
 * per-tick rule of the pipe manager (spawn check, retirement of the head,
 * leftward translation), with the invariants that rule keeps.
 */
module PipeStream {
  import opened Geometry

  /** How far the barriers reach above and below the gap. */
  const Inf: real := 1000.0

  /** The opening position is drawn from the inclusive range
      [OpeningMin, OpeningMax(openingHeight)]. */
  const OpeningMin: int := 10

  function OpeningMax(openingHeight: real): real {
    ScreenHeight - openingHeight - 30.0
  }

  /** Drawing from an empty range raises, as the random source does. */
  predicate OpeningRangeNonEmpty(openingHeight: real) {
    OpeningMin as real <= OpeningMax(openingHeight)
  }

  predicate InOpeningRange(openingPos: int, openingHeight: real) {
    OpeningMin <= openingPos && openingPos as real <= OpeningMax(openingHeight)
  }

  /** The upper barrier: from far above the screen down to the opening. */
  function TopBox(x: real, width: real, openingPos: int): (b: BoundingBox)
    ensures b.x == x && b.width == width
    ensures forall px, py :: b.ContainsPoint(px, py) <==> x <= px <= x + width && -Inf <= py <= openingPos as real
  {
    BoundingBox(x, -Inf, width, Inf + openingPos as real)
  }

  /** The lower barrier: from the end of the opening down to far below. */
  function BottomBox(x: real, width: real, openingPos: int, openingHeight: real): (b: BoundingBox)
    ensures b.x == x && b.width == width
    ensures forall px, py :: b.ContainsPoint(px, py) <==>
              x <= px <= x + width && openingPos as real + openingHeight <= py <= openingPos as real + openingHeight + Inf
  {
    BoundingBox(x, openingHeight + openingPos as real, width, Inf)
  }

  /** The gap between the two barriers is exactly the opening height, and both
      barriers share the pipe's column. */
  lemma GapIsOpeningHeight(x: real, width: real, openingPos: int, openingHeight: real)
    ensures BottomBox(x, width, openingPos, openingHeight).y
            - (TopBox(x, width, openingPos).y + TopBox(x, width, openingPos).height)
            == openingHeight
    ensures TopBox(x, width, openingPos).x == BottomBox(x, width, openingPos, openingHeight).x
  {
  }

  /** What the queue needs to know of one pipe. */
  datatype PipeState = PipeState(x: real, openingPos: int)

  /** Why a tick can fail: indexing the head of an empty queue, or drawing an
      opening position from an empty range. */
  datatype Fault = EmptyQueue | EmptyOpeningRange

  datatype Outcome = Advanced(retired: bool) | Crashed(fault: Fault)

  predicate Ascending(ps: seq<PipeState>) {
    forall i, j :: 0 <= i < j < |ps| ==> ps[i].x < ps[j].x
  }

  /** Consecutive pipes are exactly `gap` apart. */
  predicate Spaced(ps: seq<PipeState>, gap: real) {
    forall i :: 0 <= i < |ps| - 1 ==> ps[i + 1].x == ps[i].x + gap
  }

  /** Every opening position was drawn from the allowed range. */
  predicate OpeningsInRange(ps: seq<PipeState>, openingHeight: real) {
    forall i :: 0 <= i < |ps| ==> InOpeningRange(ps[i].openingPos, openingHeight)
  }

  /** The right edge of the newest pipe, or 0 for an empty queue. */
  function TrailingEdge(ps: seq<PipeState>, pipeWidth: real): real {
    if ps == [] then 0.0 else ps[|ps| - 1].x + pipeWidth
  }

  predicate SpawnDue(ps: seq<PipeState>, pipeWidth: real, spacing: real) {
    ScreenWidth - TrailingEdge(ps, pipeWidth) >= spacing
  }

  /** Where a new pipe lands; the pipe width enters twice. */
  function SpawnX(ps: seq<PipeState>, pipeWidth: real, spacing: real): (x: real)
    ensures ps == [] ==> x == ScreenWidth
    ensures ps != [] ==> x == ps[|ps| - 1].x + 2.0 * pipeWidth + spacing
  {
    var lastX := if ps != [] then ps[|ps| - 1].x + pipeWidth else ScreenWidth - spacing - pipeWidth;
    lastX + pipeWidth + spacing
  }

  /** The queue after the spawn check: the old pipes, unchanged, and at most
      one new pipe behind them. */
  function Spawned(ps: seq<PipeState>, pipeWidth: real, spacing: real, openingPos: int): (grown: seq<PipeState>)
    ensures |grown| == |ps| + (if SpawnDue(ps, pipeWidth, spacing) then 1 else 0)
    ensures grown[..|ps|] == ps
  {
    if SpawnDue(ps, pipeWidth, spacing) then ps + [PipeState(SpawnX(ps, pipeWidth, spacing), openingPos)] else ps
  }

  /** Every pipe moved left by `speed`. */
  function Shifted(ps: seq<PipeState>, speed: real): (moved: seq<PipeState>)
    ensures |moved| == |ps|
    ensures forall i :: 0 <= i < |ps| ==> ps[i].x - moved[i].x == speed && moved[i].openingPos == ps[i].openingPos
  {
    seq(|ps|, i requires 0 <= i < |ps| => ps[i].(x := ps[i].x - speed))
  }

  /** One tick of the pipe manager: the outcome and the new queue. On a crash
      the queue is left as it was, since nothing is written before the fault. */
  function TickSpec(ps: seq<PipeState>, pipeWidth: real, openingHeight: real, spacing: real,
                    speed: real, openingPos: int): (r: (Outcome, seq<PipeState>))
    ensures r.0.Crashed? ==> r.1 == ps
    ensures r.0 == Crashed(EmptyOpeningRange) <==> SpawnDue(ps, pipeWidth, spacing) && !OpeningRangeNonEmpty(openingHeight)
  {
    if SpawnDue(ps, pipeWidth, spacing) && !OpeningRangeNonEmpty(openingHeight) then
      (Crashed(EmptyOpeningRange), ps)
    else
      var grown := Spawned(ps, pipeWidth, spacing, openingPos);
      if grown == [] then (Crashed(EmptyQueue), ps)
      else if grown[0].x + pipeWidth <= 0.0 then (Advanced(true), Shifted(grown[1..], speed))
      else (Advanced(false), Shifted(grown, speed))
  }

  /** The tick that neither crashes on the draw nor on an empty queue, in the
      two-step form the manager's method computes it (spawn, then retire and
      shift). It unfolds `TickSpec`'s last branch and adds no property of its
      own; it is the bridge that `PipeManager.Update`'s proof uses. */
  lemma TickAdvances(ps: seq<PipeState>, pipeWidth: real, openingHeight: real, spacing: real,
                     speed: real, openingPos: int)
    requires SpawnDue(ps, pipeWidth, spacing) ==> OpeningRangeNonEmpty(openingHeight)
    requires Spawned(ps, pipeWidth, spacing, openingPos) != []
    ensures var grown := Spawned(ps, pipeWidth, spacing, openingPos);
            var retired := grown[0].x + pipeWidth <= 0.0;
            TickSpec(ps, pipeWidth, openingHeight, spacing, speed, openingPos)
            == (Advanced(retired), Shifted(if retired then grown[1..] else grown, speed))
  {
  }

  /** With spacing at most the screen width the queue is never found empty:
      an empty queue always spawns, and a single pipe that does not spawn a
      successor is still on screen. A non-negative width keeps a freshly
      spawned pipe on screen too, so the queue is non-empty afterwards. */
  lemma TickNeverEmpties(ps: seq<PipeState>, pipeWidth: real, openingHeight: real, spacing: real,
                         speed: real, openingPos: int)
    requires spacing <= ScreenWidth && pipeWidth >= 0.0
    ensures TickSpec(ps, pipeWidth, openingHeight, spacing, speed, openingPos).0 != Crashed(EmptyQueue)
    ensures OpeningRangeNonEmpty(openingHeight) ==>
              TickSpec(ps, pipeWidth, openingHeight, spacing, speed, openingPos).0.Advanced?
    ensures TickSpec(ps, pipeWidth, openingHeight, spacing, speed, openingPos).0.Advanced? ==>
              |TickSpec(ps, pipeWidth, openingHeight, spacing, speed, openingPos).1| > 0
  {
    var grown := Spawned(ps, pipeWidth, spacing, openingPos);
    if !SpawnDue(ps, pipeWidth, spacing) {
      assert ps != [] && ps[|ps| - 1].x + pipeWidth > 0.0;
      assert grown == ps;
      if ps[0].x + pipeWidth <= 0.0 {
        assert |ps| != 1;
        assert TickSpec(ps, pipeWidth, openingHeight, spacing, speed, openingPos).1 == Shifted(ps[1..], speed);
      } else {
        assert TickSpec(ps, pipeWidth, openingHeight, spacing, speed, openingPos).1 == Shifted(ps, speed);
      }
    }
  }

  /** Without a spawn an empty queue has no head: spacing wider than the
      screen crashes the very first tick. */
  lemma WideSpacingCrashesFirstTick(pipeWidth: real, openingHeight: real, spacing: real,
                                    speed: real, openingPos: int)
    requires spacing > ScreenWidth
    ensures TickSpec([], pipeWidth, openingHeight, spacing, speed, openingPos) == (Crashed(EmptyQueue), [])
  {
  }

  /** At most one pipe leaves per tick, and only the head, exactly when its
      right edge is at or left of 0 before this tick's translation; every
      remaining pipe moves left by exactly `speed`. */
  lemma TickRetiresOnlyHead(ps: seq<PipeState>, pipeWidth: real, openingHeight: real, spacing: real,
                            speed: real, openingPos: int)
    requires TickSpec(ps, pipeWidth, openingHeight, spacing, speed, openingPos).0.Advanced?
    ensures var (o, next) := TickSpec(ps, pipeWidth, openingHeight, spacing, speed, openingPos);
            var grown := Spawned(ps, pipeWidth, spacing, openingPos);
            var gone := if o.retired then 1 else 0;
            && grown != []
            && (o.retired <==> grown[0].x + pipeWidth <= 0.0)
            && |next| == |grown| - gone
            && forall i :: 0 <= i < |next| ==>
                 next[i].x == grown[i + gone].x - speed && next[i].openingPos == grown[i + gone].openingPos
  {
  }

  /** Pipes are spaced `2 * pipeWidth + spacing` apart, whatever happens. */
  lemma TickKeepsSpacing(ps: seq<PipeState>, pipeWidth: real, openingHeight: real, spacing: real,
                         speed: real, openingPos: int)
    requires Spaced(ps, 2.0 * pipeWidth + spacing)
    ensures Spaced(TickSpec(ps, pipeWidth, openingHeight, spacing, speed, openingPos).1, 2.0 * pipeWidth + spacing)
  {
    var gap := 2.0 * pipeWidth + spacing;
    var grown := Spawned(ps, pipeWidth, spacing, openingPos);
    SpawnKeepsSpacing(ps, pipeWidth, spacing, openingPos);
    if grown != [] {
      SpacedSuffix(grown, gap);
      ShiftedKeepsSpacing(grown, gap, speed);
      ShiftedKeepsSpacing(grown[1..], gap, speed);
    }
  }

  /** A pipe spawned at `SpawnX` keeps the queue spaced. */
  lemma SpawnKeepsSpacing(ps: seq<PipeState>, pipeWidth: real, spacing: real, openingPos: int)
    requires Spaced(ps, 2.0 * pipeWidth + spacing)
    ensures Spaced(ps + [PipeState(SpawnX(ps, pipeWidth, spacing), openingPos)], 2.0 * pipeWidth + spacing)
  {
    var grown := ps + [PipeState(SpawnX(ps, pipeWidth, spacing), openingPos)];
    forall i | 0 <= i < |grown| - 1 ensures grown[i + 1].x == grown[i].x + 2.0 * pipeWidth + spacing {
      if i < |ps| - 1 {
        assert grown[i + 1] == ps[i + 1] && grown[i] == ps[i];
      }
    }
  }

  lemma ShiftedKeepsOpenings(ps: seq<PipeState>, openingHeight: real, speed: real)
    requires OpeningsInRange(ps, openingHeight)
    ensures OpeningsInRange(Shifted(ps, speed), openingHeight)
  {
  }

  lemma ShiftedKeepsSpacing(ps: seq<PipeState>, gap: real, speed: real)
    requires Spaced(ps, gap)
    ensures Spaced(Shifted(ps, speed), gap)
  {
  }

  lemma SpacedSuffix(ps: seq<PipeState>, gap: real)
    requires Spaced(ps, gap) && ps != []
    ensures Spaced(ps[1..], gap)
  {
    forall i | 0 <= i < |ps[1..]| - 1 ensures ps[1..][i + 1].x == ps[1..][i].x + gap {
      assert ps[1..][i + 1] == ps[i + 2] && ps[1..][i] == ps[i + 1];
    }
  }

  /** A positive spacing keeps the queue strictly ascending along x. */
  lemma {:induction false} SpacedAscending(ps: seq<PipeState>, gap: real)
    requires Spaced(ps, gap) && gap > 0.0
    ensures Ascending(ps)
  {
    forall i, j | 0 <= i < j < |ps| ensures ps[i].x < ps[j].x {
      SpacedIncreases(ps, gap, i, j);
    }
  }

  lemma {:induction false} SpacedIncreases(ps: seq<PipeState>, gap: real, i: nat, j: nat)
    requires Spaced(ps, gap) && gap > 0.0
    requires i < j < |ps|
    ensures ps[i].x < ps[j].x
    decreases j - i
  {
    if i + 1 < j {
      SpacedIncreases(ps, gap, i, j - 1);
      assert ps[j - 1 + 1].x == ps[j - 1].x + gap;
    } else {
      assert ps[i + 1].x == ps[i].x + gap;
    }
  }

  /** With positive width and spacing the queue stays ascending. */
  lemma TickKeepsAscending(ps: seq<PipeState>, pipeWidth: real, openingHeight: real, spacing: real,
                           speed: real, openingPos: int)
    requires pipeWidth > 0.0 && spacing > 0.0
    requires Spaced(ps, 2.0 * pipeWidth + spacing)
    ensures Ascending(TickSpec(ps, pipeWidth, openingHeight, spacing, speed, openingPos).1)
  {
    TickKeepsSpacing(ps, pipeWidth, openingHeight, spacing, speed, openingPos);
    SpacedAscending(TickSpec(ps, pipeWidth, openingHeight, spacing, speed, openingPos).1, 2.0 * pipeWidth + spacing);
  }

  /** New openings come from the drawn value, so every opening stays in range. */
  lemma TickKeepsOpeningsInRange(ps: seq<PipeState>, pipeWidth: real, openingHeight: real, spacing: real,
                                 speed: real, openingPos: int)
    requires OpeningsInRange(ps, openingHeight)
    requires OpeningRangeNonEmpty(openingHeight) ==> InOpeningRange(openingPos, openingHeight)
    ensures OpeningsInRange(TickSpec(ps, pipeWidth, openingHeight, spacing, speed, openingPos).1, openingHeight)
  {
  }

  /** The barriers a bird can hit, in the order they are collected: for each
      pipe its top box, then its bottom box. */
  function Barriers(ps: seq<PipeState>, pipeWidth: real, openingHeight: real): (bs: seq<BoundingBox>)
    ensures |bs| == 2 * |ps|
  {
    if ps == [] then []
    else
      var last := ps[|ps| - 1];
      Barriers(ps[..|ps| - 1], pipeWidth, openingHeight)
        + [TopBox(last.x, pipeWidth, last.openingPos), BottomBox(last.x, pipeWidth, last.openingPos, openingHeight)]
  }

  /** Position 2i holds pipe i's top barrier, 2i + 1 its bottom barrier. */
  lemma {:induction false} BarriersAt(ps: seq<PipeState>, pipeWidth: real, openingHeight: real, i: nat)
    requires i < |ps|
    ensures Barriers(ps, pipeWidth, openingHeight)[2 * i] == TopBox(ps[i].x, pipeWidth, ps[i].openingPos)
    ensures Barriers(ps, pipeWidth, openingHeight)[2 * i + 1]
            == BottomBox(ps[i].x, pipeWidth, ps[i].openingPos, openingHeight)
  {
    var init := ps[..|ps| - 1];
    if i < |ps| - 1 {
      BarriersAt(init, pipeWidth, openingHeight, i);
      assert init[i] == ps[i];
    }
  }
}
