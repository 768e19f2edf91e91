/**
 * A game session and the application around it. A session owns the floor,
 * the pipe manager, the bird, the score and the scrolling speed; the
 * application owns the top score and starts a new session whenever the bird
 * collides.
 */
module Session {
  import opened Geometry
  import opened PipeStream
  import opened Pipes
  import opened Flight
  import opened Birds

  /** The floor: 30 pixels above the bottom edge, reaching 100 below it. */
  const FloorHeight: real := 30.0
  const FloorBox: BoundingBox := BoundingBox(0.0, ScreenHeight - FloorHeight, ScreenWidth, FloorHeight + 100.0)

  /** The floor spans the screen's width from y = 450 down to y = 580. */
  lemma FloorPlacement()
    ensures FloorBox == BoundingBox(0.0, 450.0, 640.0, 130.0)
    ensures FloorBox.NonNegative()
  {
  }

  /** The configuration every new session is built from. */
  datatype Settings = Settings(
    startingSpeed: real,
    acceleration: real,
    gravity: real,
    jumpMagnitude: real,
    pipeWidth: real,
    openingHeight: real,
    spacing: real)

  /** The configuration used when none is stored. */
  const DefaultSettings: Settings := Settings(2.0, 1.1, 2.0, 20.0, 70.0, 150.0, 100.0)

  /** The defaults meet every condition the pipe-queue lemmas ask for: the
      spacing fits the screen, width and spacing are positive, the opening
      range is [10, 300], and pipes are 240 apart. */
  lemma DefaultsAreSafe()
    ensures 0.0 < DefaultSettings.spacing <= ScreenWidth
    ensures DefaultSettings.pipeWidth > 0.0
    ensures OpeningRangeNonEmpty(DefaultSettings.openingHeight)
    ensures OpeningMax(DefaultSettings.openingHeight) == 300.0
    ensures 2.0 * DefaultSettings.pipeWidth + DefaultSettings.spacing == 240.0
  {
  }

  /** Under the defaults, with a draw from the range, every tick of a spaced
      queue advances, leaves the queue non-empty, spaced and strictly
      ascending, and keeps every opening in range. */
  lemma DefaultTickIsSafe(ps: seq<PipeState>, speed: real, openingPos: int)
    requires Spaced(ps, 2.0 * DefaultSettings.pipeWidth + DefaultSettings.spacing)
    requires OpeningsInRange(ps, DefaultSettings.openingHeight)
    requires InOpeningRange(openingPos, DefaultSettings.openingHeight)
    ensures var (o, next) := TickSpec(ps, DefaultSettings.pipeWidth, DefaultSettings.openingHeight,
                                      DefaultSettings.spacing, speed, openingPos);
            && o.Advanced? && |next| > 0
            && Spaced(next, 2.0 * DefaultSettings.pipeWidth + DefaultSettings.spacing)
            && Ascending(next) && OpeningsInRange(next, DefaultSettings.openingHeight)
  {
    var d := DefaultSettings;
    DefaultsAreSafe();
    TickNeverEmpties(ps, d.pipeWidth, d.openingHeight, d.spacing, speed, openingPos);
    TickKeepsSpacing(ps, d.pipeWidth, d.openingHeight, d.spacing, speed, openingPos);
    TickKeepsAscending(ps, d.pipeWidth, d.openingHeight, d.spacing, speed, openingPos);
    TickKeepsOpeningsInRange(ps, d.pipeWidth, d.openingHeight, d.spacing, speed, openingPos);
  }

  /** The clock mark of the last speed increase and the current speed. */
  datatype Pace = Pace(markedTime: real, speed: real)

  /** The once-a-second ramp: when more than a second has passed since the
      mark, the mark moves to `now` and the speed is multiplied. */
  function Ramp(p: Pace, acceleration: real, now: real): (next: Pace)
    ensures next == p || (next.markedTime == now > p.markedTime + 1.0 && next.speed == p.speed * acceleration)
    ensures p.markedTime + 1.0 < now ==> next == Pace(now, p.speed * acceleration)
    ensures next.markedTime >= p.markedTime
  {
    if p.markedTime + 1.0 < now then Pace(now, p.speed * acceleration) else p
  }

  /** The ramp applied over successive clock readings. */
  function RampAll(p: Pace, acceleration: real, nows: seq<real>): Pace
    decreases |nows|
  {
    if nows == [] then p else RampAll(Ramp(p, acceleration, nows[0]), acceleration, nows[1..])
  }

  /** How many of the readings trigger the ramp, starting from mark `t`. */
  function Ramps(t: real, nows: seq<real>): nat
    decreases |nows|
  {
    if nows == [] then 0
    else if t + 1.0 < nows[0] then 1 + Ramps(nows[0], nows[1..])
    else Ramps(t, nows[1..])
  }

  function Pow(b: real, k: nat): real {
    if k == 0 then 1.0 else b * Pow(b, k - 1)
  }

  /** Over any readings, the speed is the start speed times acceleration to
      the number of ramps, and each ramp moves the mark on by more than one
      second, so at most one ramp falls in any elapsed second. */
  lemma {:induction false} RampAllClosedForm(p: Pace, acceleration: real, nows: seq<real>)
    ensures RampAll(p, acceleration, nows).speed == p.speed * Pow(acceleration, Ramps(p.markedTime, nows))
    ensures RampAll(p, acceleration, nows).markedTime >= p.markedTime + Ramps(p.markedTime, nows) as real
    ensures Ramps(p.markedTime, nows) > 0 ==>
              RampAll(p, acceleration, nows).markedTime > p.markedTime + Ramps(p.markedTime, nows) as real
    decreases |nows|
  {
    if nows != [] {
      var q := Ramp(p, acceleration, nows[0]);
      RampAllClosedForm(q, acceleration, nows[1..]);
      if p.markedTime + 1.0 < nows[0] {
        var k := Ramps(q.markedTime, nows[1..]);
        assert p.speed * acceleration * Pow(acceleration, k) == p.speed * Pow(acceleration, k + 1);
      }
    }
  }

  /** With acceleration at least 1 and a non-negative speed, the ramp never
      slows the game down. */
  lemma RampNeverSlows(p: Pace, acceleration: real, now: real)
    requires acceleration >= 1.0 && p.speed >= 0.0
    ensures Ramp(p, acceleration, now).speed >= p.speed
  {
    if p.markedTime + 1.0 < now {
      assert p.speed * acceleration >= p.speed * 1.0;
    }
  }

  /** What one session tick reports to the application. */
  datatype Status = Playing | Collided | Faulted(fault: Fault)

  /** The score added by one pipe-manager tick. */
  function Gained(o: Outcome): nat {
    if o.Advanced? && o.retired then 1 else 0
  }

  class Game {
    const acceleration: real
    var speed: real
    var score: nat
    var time: real
    const floor: BoundingBox
    const manager: PipeManager
    const bird: Bird

    ghost predicate Valid()
      reads manager, manager.pipes
    {
      manager.Valid() && bird.manager == manager && bird.floor == floor
    }

    /** A fresh session: score 0, the starting speed, no pipes, the floor
        box, and the bird at rest at its start box. */
    constructor (startingSpeed: real, acceleration: real, gravity: real, jumpMagnitude: real,
                 pipeWidth: real, openingHeight: real, spacing: real, now: real)
      ensures Valid() && fresh(manager) && fresh(bird)
      ensures score == 0 && speed == startingSpeed && time == now && this.acceleration == acceleration
      ensures floor == FloorBox
      ensures manager.pipes == [] && manager.Repr == {}
      ensures manager.pipeWidth == pipeWidth && manager.openingHeight == openingHeight && manager.spacing == spacing
      ensures bird.box == BirdStart && bird.verticalSpeed == 0.0
      ensures bird.gravity == gravity && bird.jumpMagnitude == jumpMagnitude
    {
      time := now;
      speed := startingSpeed;
      this.acceleration := acceleration;
      score := 0;
      floor := FloorBox;
      var m := new PipeManager(pipeWidth, openingHeight, spacing);
      manager := m;
      bird := new Bird(m, FloorBox, gravity, jumpMagnitude);
    }

    /** One tick: the pipe manager, then the bird, then the speed ramp. The
        score grows by the number of retired pipes (0 or 1). A fault in the
        pipe manager stops the tick before the bird moves. */
    method Update(events: seq<Event>, openingPos: int, now: real) returns (status: Status, ghost tick: Outcome)
      requires Valid()
      requires OpeningRangeNonEmpty(manager.openingHeight) ==> InOpeningRange(openingPos, manager.openingHeight)
      modifies this, manager, manager.Repr, bird
      ensures Valid() && fresh(manager.Repr - old(manager.Repr))
      ensures (tick, manager.Contents)
              == TickSpec(old(manager.Contents), manager.pipeWidth, manager.openingHeight, manager.spacing, old(speed), openingPos)
      ensures manager.spacing <= ScreenWidth && manager.pipeWidth >= 0.0 && OpeningRangeNonEmpty(manager.openingHeight)
              ==> tick.Advanced? && |manager.Contents| > 0
      ensures score == old(score) + Gained(tick)
      ensures tick.Crashed? ==> status == Faulted(tick.fault)
      ensures tick.Crashed? ==> speed == old(speed) && time == old(time)
      ensures tick.Crashed? ==> bird.box == old(bird.box) && bird.verticalSpeed == old(bird.verticalSpeed)
      ensures tick.Advanced? ==>
                Motion(bird.box.y, bird.verticalSpeed)
                == Step(Motion(old(bird.box.y), old(bird.verticalSpeed)), bird.gravity, bird.jumpMagnitude, events)
      ensures bird.box == old(bird.box).(y := bird.box.y)
      ensures tick.Advanced? ==>
                (status == Collided <==>
                 HitsAny(bird.box, Collidables(floor, manager.Contents, manager.pipeWidth, manager.openingHeight)))
      ensures tick.Advanced? ==> status != Collided ==> status == Playing
      ensures tick.Advanced? ==> Pace(time, speed) == Ramp(Pace(old(time), old(speed)), acceleration, now)
    {
      ghost var before := manager.Contents;
      var outcome := manager.Update(speed, openingPos);
      tick := outcome;
      if manager.spacing <= ScreenWidth && manager.pipeWidth >= 0.0 {
        TickNeverEmpties(before, manager.pipeWidth, manager.openingHeight, manager.spacing, old(speed), openingPos);
      }
      if outcome.Crashed? {
        return Faulted(outcome.fault), tick;
      }
      if outcome.retired {
        score := score + 1;
      }
      var collided := MoveBird(events, now);
      status := if collided then Collided else Playing;
    }

    /** The second half of a tick that advanced: the bird moves and checks for
        a collision, then the speed ramp runs. The pipes and the score stay. */
    method MoveBird(events: seq<Event>, now: real) returns (collided: bool)
      requires Valid()
      modifies this, bird
      ensures Valid() && score == old(score)
      ensures Motion(bird.box.y, bird.verticalSpeed)
              == Step(Motion(old(bird.box.y), old(bird.verticalSpeed)), bird.gravity, bird.jumpMagnitude, events)
      ensures bird.box == old(bird.box).(y := bird.box.y)
      ensures collided == HitsAny(bird.box, Collidables(floor, manager.Contents, manager.pipeWidth, manager.openingHeight))
      ensures Pace(time, speed) == Ramp(Pace(old(time), old(speed)), acceleration, now)
    {
      collided := bird.Update(events);
      Accelerate(now);
    }

    /** The once-a-second speed ramp; nothing but the mark and the speed changes. */
    method Accelerate(now: real)
      requires Valid()
      modifies this
      ensures Valid()
      ensures Pace(time, speed) == Ramp(Pace(old(time), old(speed)), acceleration, now)
      ensures score == old(score)
    {
      if time + 1.0 < now {
        time := now;
        speed := speed * acceleration;
      }
    }
  }

  /** The application: the top score, the settings, and the current session. */
  class App {
    var topScore: int
    const settings: Settings
    var game: Game

    ghost predicate Valid()
      reads this, game.manager, game.manager.pipes
    {
      game.Valid()
    }

    ghost predicate FreshFrom(g: Game, now: real)
      reads g, g.manager, g.bird
    {
      && g.score == 0 && g.speed == settings.startingSpeed && g.time == now
      && g.acceleration == settings.acceleration
      && g.floor == FloorBox
      && g.manager.pipes == [] && g.manager.Repr == {}
      && g.manager.pipeWidth == settings.pipeWidth && g.manager.openingHeight == settings.openingHeight
      && g.manager.spacing == settings.spacing
      && g.bird.box == BirdStart && g.bird.verticalSpeed == 0.0
      && g.bird.gravity == settings.gravity && g.bird.jumpMagnitude == settings.jumpMagnitude
    }

    /** Start-up: the stored top score and a first session. */
    constructor (storedTopScore: int, settings: Settings, now: real)
      ensures Valid() && topScore == storedTopScore && this.settings == settings
      ensures fresh(game) && fresh(game.manager) && fresh(game.bird) && FreshFrom(game, now)
    {
      topScore := storedTopScore;
      this.settings := settings;
      game := new Game(settings.startingSpeed, settings.acceleration, settings.gravity, settings.jumpMagnitude,
                       settings.pipeWidth, settings.openingHeight, settings.spacing, now);
    }

    /** Raises the top score to the finished session's score, if higher, and
        replaces the session by a fresh one. */
    method NewGame(now: real)
      requires Valid()
      modifies this
      ensures Valid()
      ensures topScore == if old(game.score) > old(topScore) then old(game.score) else old(topScore)
      ensures topScore >= old(topScore) && topScore >= old(game.score)
      ensures fresh(game) && fresh(game.manager) && fresh(game.bird) && FreshFrom(game, now)
    {
      if game.score > topScore {
        topScore := game.score;
      }
      game := new Game(settings.startingSpeed, settings.acceleration, settings.gravity, settings.jumpMagnitude,
                       settings.pipeWidth, settings.openingHeight, settings.spacing, now);
    }

    /** One frame: a session tick, and a new session when the bird collided.
        Without a collision the session stays and carries the tick's effects;
        a fault leaves it as it was. */
    method Frame(events: seq<Event>, openingPos: int, now: real) returns (status: Status, ghost tick: Outcome)
      requires Valid()
      requires OpeningRangeNonEmpty(game.manager.openingHeight) ==>
                 InOpeningRange(openingPos, game.manager.openingHeight)
      modifies this, game, game.manager, game.manager.Repr, game.bird
      ensures Valid()
      ensures topScore >= old(topScore)
      ensures tick == TickSpec(old(game.manager.Contents), old(game.manager.pipeWidth), old(game.manager.openingHeight),
                               old(game.manager.spacing), old(game.speed), openingPos).0
      ensures tick.Crashed? ==> status == Faulted(tick.fault)
      ensures status == Collided ==>
                var final := old(game.score) + Gained(tick);
                && topScore == (if final > old(topScore) then final else old(topScore))
                && fresh(game) && fresh(game.manager) && fresh(game.bird) && FreshFrom(game, now)
      ensures status == Collided ==>
                && tick.Advanced?
                && HitsAny(old(game.bird.box).(y := Step(Motion(old(game.bird.box.y), old(game.bird.verticalSpeed)),
                                                         old(game.bird.gravity), old(game.bird.jumpMagnitude), events).y),
                           Collidables(old(game.floor),
                                       TickSpec(old(game.manager.Contents), old(game.manager.pipeWidth),
                                                old(game.manager.openingHeight), old(game.manager.spacing),
                                                old(game.speed), openingPos).1,
                                       old(game.manager.pipeWidth), old(game.manager.openingHeight)))
      ensures status != Collided ==> game == old(game) && topScore == old(topScore)
      ensures status != Collided ==> fresh(game.manager.Repr - old(game.manager.Repr))
      ensures status != Collided ==>
                && game.manager.Contents
                   == TickSpec(old(game.manager.Contents), game.manager.pipeWidth, game.manager.openingHeight,
                               game.manager.spacing, old(game.speed), openingPos).1
                && game.score == old(game.score) + Gained(tick)
                && game.bird.box == old(game.bird.box).(y := game.bird.box.y)
      ensures status != Collided && tick.Crashed? ==>
                && game.speed == old(game.speed) && game.time == old(game.time)
                && game.bird.box == old(game.bird.box) && game.bird.verticalSpeed == old(game.bird.verticalSpeed)
      ensures status != Collided && tick.Advanced? ==>
                && status == Playing
                && Motion(game.bird.box.y, game.bird.verticalSpeed)
                   == Step(Motion(old(game.bird.box.y), old(game.bird.verticalSpeed)),
                           game.bird.gravity, game.bird.jumpMagnitude, events)
                && !HitsAny(game.bird.box, Collidables(game.floor, game.manager.Contents,
                                                       game.manager.pipeWidth, game.manager.openingHeight))
                && Pace(game.time, game.speed) == Ramp(Pace(old(game.time), old(game.speed)), game.acceleration, now)
    {
      status, tick := game.Update(events, openingPos, now);
      if status == Collided {
        NewGame(now);
      }
    }
  }
}
