/**
 * The player's bird: vertical physics per tick and the collision test
 * against the floor and every pipe's two barriers. A collision is reported
 * to the caller, which owns the decision to start a new session.
 */
module Birds {
  import opened Geometry
  import opened PipeStream
  import opened Pipes
  import opened Flight

  /** Where every session's bird starts. */
  const BirdStart: BoundingBox := BoundingBox(10.0, 100.0, 30.0, 30.0)

  /** The boxes a bird is tested against, in the order they are tested. */
  function Collidables(floor: BoundingBox, ps: seq<PipeState>, pipeWidth: real, openingHeight: real): (cs: seq<BoundingBox>)
    ensures |cs| == 1 + 2 * |ps| && cs[0] == floor
  {
    [floor] + Barriers(ps, pipeWidth, openingHeight)
  }

  /** The round ends iff the bird hits the floor or one barrier of some pipe. */
  lemma CollisionIff(b: BoundingBox, floor: BoundingBox, ps: seq<PipeState>, pipeWidth: real, openingHeight: real)
    ensures HitsAny(b, Collidables(floor, ps, pipeWidth, openingHeight)) <==>
            || b.Intersects(floor)
            || exists i :: 0 <= i < |ps| &&
                 (|| b.Intersects(TopBox(ps[i].x, pipeWidth, ps[i].openingPos))
                  || b.Intersects(BottomBox(ps[i].x, pipeWidth, ps[i].openingPos, openingHeight)))
  {
    var cs := Collidables(floor, ps, pipeWidth, openingHeight);
    var bs := Barriers(ps, pipeWidth, openingHeight);
    assert cs[0] == floor;
    if HitsAny(b, cs) && !b.Intersects(floor) {
      var k :| 0 <= k < |cs| && b.Intersects(cs[k]);
      var i := (k - 1) / 2;
      BarriersAt(ps, pipeWidth, openingHeight, i);
      assert cs[k] == bs[k - 1];
      assert k - 1 == 2 * i || k - 1 == 2 * i + 1;
    }
    forall i | 0 <= i < |ps|
      ensures b.Intersects(TopBox(ps[i].x, pipeWidth, ps[i].openingPos)) ==> HitsAny(b, cs)
      ensures b.Intersects(BottomBox(ps[i].x, pipeWidth, ps[i].openingPos, openingHeight)) ==> HitsAny(b, cs)
    {
      BarriersAt(ps, pipeWidth, openingHeight, i);
      assert cs[2 * i + 1] == bs[2 * i] && cs[2 * i + 2] == bs[2 * i + 1];
    }
  }

  class Bird {
    var box: BoundingBox
    var verticalSpeed: real
    const gravity: real
    const jumpMagnitude: real
    const manager: PipeManager
    const floor: BoundingBox

    constructor (manager: PipeManager, floor: BoundingBox, gravity: real, jumpMagnitude: real)
      ensures box == BirdStart && verticalSpeed == 0.0
      ensures this.manager == manager && this.floor == floor
      ensures this.gravity == gravity && this.jumpMagnitude == jumpMagnitude
    {
      box := BirdStart;
      verticalSpeed := 0.0;
      this.gravity := gravity;
      this.jumpMagnitude := jumpMagnitude;
      this.manager := manager;
      this.floor := floor;
    }

    /** One tick: gravity, then the position, then any Space press sets the
        speed to `-jumpMagnitude`; then the collision test against the floor
        and every pipe's barriers as they stand after this tick's pipe update.
        Only `y` of the box changes. */
    method Update(events: seq<Event>) returns (collided: bool)
      requires manager.Valid()
      modifies this
      ensures manager.Valid()
      ensures Motion(box.y, verticalSpeed)
              == Step(Motion(old(box.y), old(verticalSpeed)), gravity, jumpMagnitude, events)
      ensures box == old(box).(y := box.y)
      ensures collided == HitsAny(box, Collidables(floor, manager.Contents, manager.pipeWidth, manager.openingHeight))
    {
      verticalSpeed := verticalSpeed + gravity;
      box := box.(y := box.y + verticalSpeed);

      for i := 0 to |events|
        invariant box == old(box).(y := old(box.y) + old(verticalSpeed) + gravity)
        invariant verticalSpeed == if JumpPressed(events[..i]) then -jumpMagnitude else old(verticalSpeed) + gravity
      {
        if events[i].KeyDown? && events[i].key == Space {
          verticalSpeed := -jumpMagnitude;
        }
        assert events[..i + 1] == events[..i] + [events[i]];
        JumpPressedAppend(events[..i], events[i]);
      }
      assert events[..|events|] == events;
      ghost var moved := box;
      ghost var speed := verticalSpeed;

      var collidable := CollidableBoxes();

      collided := false;
      for k := 0 to |collidable|
        invariant box == moved && verticalSpeed == speed
        invariant !collided ==> forall j :: 0 <= j < k ==> !box.Intersects(collidable[j])
        invariant collided ==> HitsAny(box, collidable)
      {
        if box.Intersects(collidable[k]) {
          collided := true;
          break;
        }
      }
    }

    /** The floor, then the top and bottom box of every pipe, oldest first. */
    method CollidableBoxes() returns (collidable: seq<BoundingBox>)
      requires manager.Valid()
      ensures collidable == Collidables(floor, manager.Contents, manager.pipeWidth, manager.openingHeight)
    {
      ghost var ps := manager.Contents;
      collidable := [floor];
      for i := 0 to |manager.pipes|
        invariant collidable == Collidables(floor, ps[..i], manager.pipeWidth, manager.openingHeight)
      {
        StatesAt(manager.pipes, i);
        assert ps[..i + 1][..i] == ps[..i];
        collidable := collidable + [manager.pipes[i].top, manager.pipes[i].bottom];
      }
      assert ps[..|ps|] == ps;
    }
  }
}
