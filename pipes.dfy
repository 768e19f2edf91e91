/**
 * The pipe objects and the pipe manager that owns them. A pipe's two
 * barrier boxes are derived from its column `x` and its opening; the manager
 * keeps its pipes in a queue, oldest (leftmost) first, and changes them in
 * place every tick as `PipeStream.TickSpec` prescribes.
 */
module Pipes {
  import opened Geometry
  import opened PipeStream

  /** The values of a sequence of pipes. */
  ghost function States(ps: seq<Pipe>): (v: seq<PipeState>)
    reads ps
    ensures |v| == |ps|
  {
    if ps == [] then [] else [PipeState(ps[0].x, ps[0].openingPos)] + States(ps[1..])
  }

  lemma {:induction false} StatesAt(ps: seq<Pipe>, i: nat)
    requires i < |ps|
    ensures States(ps)[i] == PipeState(ps[i].x, ps[i].openingPos)
  {
    if i > 0 {
      StatesAt(ps[1..], i - 1);
    }
  }

  lemma {:induction false} StatesAppend(ps: seq<Pipe>, p: Pipe)
    ensures States(ps + [p]) == States(ps) + [PipeState(p.x, p.openingPos)]
  {
    if ps != [] {
      assert (ps + [p])[1..] == ps[1..] + [p];
      StatesAppend(ps[1..], p);
    } else {
      assert ([] + [p])[1..] == [];
    }
  }

  /** No pipe object occurs twice. */
  ghost predicate Distinct(ps: seq<Pipe>) {
    forall i, j :: 0 <= i < j < |ps| ==> ps[i] != ps[j]
  }

  class Pipe {
    var x: real
    const openingPos: int
    const width: real
    const openingHeight: real
    var top: BoundingBox
    var bottom: BoundingBox

    /** Both barriers sit in the pipe's column and frame its opening. */
    ghost predicate Valid()
      reads this
    {
      top == TopBox(x, width, openingPos) && bottom == BottomBox(x, width, openingPos, openingHeight)
    }

    constructor (openingPos: int, x: real, width: real, openingHeight: real)
      ensures Valid()
      ensures this.x == x && this.openingPos == openingPos
      ensures this.width == width && this.openingHeight == openingHeight
    {
      this.x := x;
      this.openingPos := openingPos;
      this.width := width;
      this.openingHeight := openingHeight;
      top := TopBox(x, width, openingPos);
      bottom := BottomBox(x, width, openingPos, openingHeight);
    }

    /** Copies the pipe's column into both barriers; nothing else changes. */
    method UpdateTopBottom()
      modifies this
      ensures x == old(x)
      ensures top == old(top).(x := x) && bottom == old(bottom).(x := x)
    {
      top := top.(x := x);
      bottom := bottom.(x := x);
    }

    /** The per-tick hook of a pipe: it only re-derives the barriers. */
    method Update()
      modifies this
      ensures x == old(x)
      ensures top == old(top).(x := x) && bottom == old(bottom).(x := x)
    {
      UpdateTopBottom();
    }
  }

  class PipeManager {
    const pipeWidth: real
    const openingHeight: real
    const spacing: real
    var pipes: seq<Pipe>
    /** Every pipe object the manager has created; the queue is drawn from it. */
    ghost var Repr: set<Pipe>
    /** The queue as values, oldest first. */
    ghost var Contents: seq<PipeState>

    /** Distinct pipe objects, each with the manager's sizes and well-placed
        barriers; openings drawn from the allowed range; consecutive pipes
        exactly `2 * pipeWidth + spacing` apart. */
    ghost predicate Valid()
      reads this, pipes
    {
      && Contents == States(pipes)
      && Distinct(pipes)
      && (forall i :: 0 <= i < |pipes| ==> pipes[i] in Repr)
      && (forall i :: 0 <= i < |pipes| ==>
            pipes[i].Valid() && pipes[i].width == pipeWidth && pipes[i].openingHeight == openingHeight)
      && OpeningsInRange(Contents, openingHeight)
      && Spaced(Contents, 2.0 * pipeWidth + spacing)
    }

    constructor (pipeWidth: real, openingHeight: real, spacing: real)
      ensures Valid() && pipes == [] && Repr == {} && Contents == []
      ensures this.pipeWidth == pipeWidth && this.openingHeight == openingHeight && this.spacing == spacing
    {
      this.pipeWidth := pipeWidth;
      this.openingHeight := openingHeight;
      this.spacing := spacing;
      pipes := [];
      Repr := {};
      Contents := [];
    }

    /** Appends one pipe at `SpawnX` with the drawn opening position, leaving
        the existing pipes as they are; `ok` is false, and nothing changes,
        when the range to draw from is empty. */
    method GeneratePipe(openingPos: int) returns (ok: bool)
      requires Valid()
      requires OpeningRangeNonEmpty(openingHeight) ==> InOpeningRange(openingPos, openingHeight)
      modifies this
      ensures Valid()
      ensures ok == OpeningRangeNonEmpty(openingHeight)
      ensures ok ==> Contents == old(Contents) + [PipeState(SpawnX(old(Contents), pipeWidth, spacing), openingPos)]
      ensures ok ==> |pipes| == |old(pipes)| + 1 && pipes == old(pipes) + [pipes[|old(pipes)|]]
      ensures ok ==> fresh(pipes[|old(pipes)|]) && Repr == old(Repr) + {pipes[|old(pipes)|]}
      ensures !ok ==> pipes == old(pipes) && Repr == old(Repr) && Contents == old(Contents)
    {
      var lastX := if |pipes| > 0 then pipes[|pipes| - 1].x + pipeWidth else ScreenWidth - spacing - pipeWidth;
      if !OpeningRangeNonEmpty(openingHeight) {
        return false;
      }
      if |pipes| > 0 {
        StatesAt(pipes, |pipes| - 1);
      }
      var p := new Pipe(openingPos, lastX + pipeWidth + spacing, pipeWidth, openingHeight);
      SpawnKeepsSpacing(Contents, pipeWidth, spacing, openingPos);
      Append(p);
      ok := true;
    }

    /** Enqueues a well-formed pipe object the manager did not own before. */
    method Append(p: Pipe)
      requires Valid() && p !in Repr
      requires p.Valid() && p.width == pipeWidth && p.openingHeight == openingHeight
      requires InOpeningRange(p.openingPos, openingHeight)
      requires Spaced(Contents + [PipeState(p.x, p.openingPos)], 2.0 * pipeWidth + spacing)
      modifies this
      ensures Valid()
      ensures pipes == old(pipes) + [p] && Repr == old(Repr) + {p}
      ensures Contents == old(Contents) + [PipeState(p.x, p.openingPos)]
    {
      StatesAppend(pipes, p);
      pipes := pipes + [p];
      Repr := Repr + {p};
      Contents := Contents + [PipeState(p.x, p.openingPos)];
    }

    /** One tick: spawn check, retirement of at most the head, then every pipe
        moves left by `speed`. The outcome and the new queue are exactly those
        of `TickSpec`. */
    method Update(speed: real, openingPos: int) returns (outcome: Outcome)
      requires Valid()
      requires OpeningRangeNonEmpty(openingHeight) ==> InOpeningRange(openingPos, openingHeight)
      modifies this, Repr
      ensures Valid() && fresh(Repr - old(Repr))
      ensures (outcome, Contents) == TickSpec(old(Contents), pipeWidth, openingHeight, spacing, speed, openingPos)
    {
      if |pipes| > 0 {
        StatesAt(pipes, |pipes| - 1);
      }
      var lastXBack := if |pipes| > 0 then pipes[|pipes| - 1].x + pipeWidth else 0.0;
      if ScreenWidth - lastXBack >= spacing {
        var ok := GeneratePipe(openingPos);
        if !ok {
          return Crashed(EmptyOpeningRange);
        }
      }
      assert Contents == Spawned(old(Contents), pipeWidth, spacing, openingPos);
      if |pipes| == 0 {
        return Crashed(EmptyQueue);
      }
      var retired := Advance(speed);
      outcome := Advanced(retired);
      TickAdvances(old(Contents), pipeWidth, openingHeight, spacing, speed, openingPos);
    }

    /** The second half of a tick on a non-empty queue: retire the head when it
        has left the screen, then move every pipe left. */
    method Advance(speed: real) returns (retired: bool)
      requires Valid() && |pipes| > 0
      modifies this, Repr
      ensures Valid() && Repr == old(Repr)
      ensures retired == (old(Contents[0].x) + pipeWidth <= 0.0)
      ensures Contents == Shifted(if retired then old(Contents[1..]) else old(Contents), speed)
    {
      StatesAt(pipes, 0);
      retired := RetireHead();
      Translate(speed);
    }

    /** Drops the head pipe when its right edge is at or left of 0. */
    method RetireHead() returns (retired: bool)
      requires Valid() && |pipes| > 0
      modifies this
      ensures Valid() && Repr == old(Repr)
      ensures retired == (old(pipes[0].x) + pipeWidth <= 0.0)
      ensures pipes == if retired then old(pipes[1..]) else old(pipes)
      ensures Contents == if retired then old(Contents[1..]) else old(Contents)
    {
      retired := false;
      if pipes[0].x + pipeWidth <= 0.0 {
        SpacedSuffix(Contents, 2.0 * pipeWidth + spacing);
        pipes := pipes[1..];
        Contents := Contents[1..];
        retired := true;
      }
    }

    /** Moves every pipe left by `speed` and re-derives its barriers. */
    method Translate(speed: real)
      requires Valid()
      modifies this, Repr
      ensures Valid() && pipes == old(pipes) && Repr == old(Repr)
      ensures Contents == Shifted(old(Contents), speed)
    {
      ghost var before := Contents;
      forall j | 0 <= j < |pipes| ensures before[j] == PipeState(pipes[j].x, pipes[j].openingPos) {
        StatesAt(pipes, j);
      }
      ShiftPipes(speed);
      Contents := Shifted(before, speed);
      forall j | 0 <= j < |pipes| ensures States(pipes)[j] == Contents[j] {
        StatesAt(pipes, j);
      }
      ShiftedKeepsSpacing(before, 2.0 * pipeWidth + spacing, speed);
      ShiftedKeepsOpenings(before, openingHeight, speed);
    }

    /** The loop of `Translate`: each pipe object in the queue, in order. */
    method ShiftPipes(speed: real)
      requires Distinct(pipes)
      requires forall j :: 0 <= j < |pipes| ==> pipes[j] in Repr && pipes[j].Valid()
      modifies Repr
      ensures forall j :: 0 <= j < |pipes| ==> pipes[j].Valid() && pipes[j].x == old(pipes[j].x) - speed
    {
      for i := 0 to |pipes|
        invariant forall j :: 0 <= j < |pipes| ==> pipes[j].Valid()
        invariant forall j :: 0 <= j < i ==> pipes[j].x == old(pipes[j].x) - speed
        invariant forall j :: i <= j < |pipes| ==> pipes[j].x == old(pipes[j].x)
      {
        pipes[i].x := pipes[i].x - speed;
        pipes[i].Update();
      }
    }
  }
}
