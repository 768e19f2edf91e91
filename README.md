# PyBird game core in Dafny

This project models the simulation core of PyBird, a Flappy-Bird clone written
in Python on pygame (`main.py`). It covers:

- the corner-containment collision test of its bounding boxes;
- the pipes and their two barriers;
- the pipe manager, whose queue is spawned at the tail, retired at the head and
  translated left every tick;
- the bird's vertical physics and its collision check;
- a game session: score, scrolling speed and the once-a-second speed ramp;
- the application around the session, which keeps the top score and starts a
  new session after a collision.

Modules:

- `Geometry` (`geometry.dfy`): `BoundingBox` as a value and its `Intersects`
  predicate, exactly as the four corner tests of the source. The lemmas show
  that the test is sound, show the two kinds of overlap it misses by design,
  and give the concrete asymmetry.
- `PipeStream` (`pipe_stream.dfy`): the pipe queue as values (`PipeState`).
  It defines the barrier boxes and `TickSpec`, the specification of one
  pipe-manager tick, including the two ways the source's tick raises. The
  lemmas state what a tick keeps: the queue never empties, pipes stay spaced
  and ascending, only the head retires, and openings stay in range.
- `Pipes` (`pipes.dfy`): the `Pipe` and `PipeManager` classes. Pipes are
  objects whose `x` and boxes are updated in place. The manager keeps
  `pipes: seq<Pipe>` and a ghost view `Contents` of their values.
  `PipeManager.Update` is proved against `TickSpec`. Its parts are proved
  against the pieces `TickSpec` is built from: `GeneratePipe` against
  `SpawnX`, `RetireHead` against the tail of the queue, and `Translate`
  against `Shifted`.
- `Flight` (`flight.dfy`): one tick of the bird's vertical motion as a
  function, with the closed form of a free fall.
- `Birds` (`birds.dfy`): the `Bird` class. Its `Update` runs the source's
  three loops (events, collidable list, hit test) and returns the collision
  flag instead of restarting the game itself.
- `Session` (`session.dfy`): the settings and their defaults, the speed ramp,
  and the `Game` and `App` classes.

Modelling decisions:

- Coordinates, speeds and sizes are exact `real`s. The drawn opening position
  is an `int`, since the random source yields integers.
- A tick of the source can raise in two places, and the model returns these
  as the outcome `Crashed(fault)`, which the session reports as the status
  `Faulted(fault)`:
  - `EmptyQueue`: reading `pipes[0]` of an empty list.
  - `EmptyOpeningRange`: drawing from an empty range.

  Nothing is written before either fault, so on a crash the state is left
  unchanged.
- The random draw (main.py:158) becomes the parameter `openingPos`. The
  clock readings (main.py:31, 64-65) become the parameter `now`. The event
  queue (main.py:50) becomes the parameter `events`.

Spawn arithmetic as written:

- **First pipe.** For an empty queue, `last_x` on main.py:156 is
  `640 - spacing - width`. main.py:159 adds the width and the spacing back,
  so the first pipe lands at x = 640.
- **Spacing.** For a non-empty queue, `last_x` is `last.x + width`
  (main.py:156), and main.py:159 adds `width + spacing` to it. Consecutive
  pipes are therefore `2 * width + spacing` apart (`PipeStream.Spaced`).
- **Opening range.** `randint` on main.py:158 includes both ends, so the
  opening position lies in `[10, 480 - openingHeight - 30]`.

## Model

| member | source | states |
|---|---|---|
| Geometry.BoundingBox.Intersects | main.py:99-109 | true iff one of this box's four corners lies in the other box, edges included |
| Geometry.HitsAny | main.py:206-209 | true iff the box intersects some box of the list |
| Geometry.IntersectsSound | main.py:99-109 | for a box of non-negative size, a corner hit implies that the two closed rectangles overlap; touching edges count |
| Geometry.ContainedBoxIsMissed | main.py:100-109 | a box strictly inside another is hit by the inner box's corners but not the other way round, although the rectangles overlap |
| Geometry.AsymmetryExample | main.py:100-109 | (10,10,5,5) intersects (0,0,100,100), but not conversely |
| Geometry.CrossingBarsAreMissed | main.py:101-109 | two crossing bars overlap, yet neither's corners lie in the other |
| PipeStream.TopBox | main.py:131-132 | a point lies in the top barrier iff it is in the pipe's column and its y is between -1000 and the opening position |
| PipeStream.BottomBox | main.py:131-134 | a point lies in the bottom barrier iff it is in the pipe's column and its y is between opening position + opening height and 1000 below that |
| PipeStream.GapIsOpeningHeight | main.py:131-134 | the vertical gap between the two barriers is exactly the opening height, and both share one x |
| PipeStream.SpawnX | main.py:156-159 | the first pipe lands at the screen width; a later one at the last pipe's x + 2 * width + spacing |
| PipeStream.Spawned | main.py:168-170 | the old pipes stay as a prefix, and exactly one pipe is added iff the tail has left at least `spacing` of free screen |
| PipeStream.Shifted | main.py:176-177 | every pipe moves left by `speed` and keeps its opening |
| PipeStream.TickSpec | main.py:167-178 | a crash leaves the queue as it was; the tick fails on the draw iff a spawn is due and the draw range is empty |
| PipeStream.TickAdvances | main.py:167-178 | proof bridge, no property of its own: `TickSpec`'s non-crashing branch unfolded into the spawn, retire and shift steps the manager's method takes |
| PipeStream.TickNeverEmpties | main.py:167-172 | with spacing at most the screen width and a non-negative width, `pipes[0]` never fails; with a non-empty draw range the tick advances and leaves the queue non-empty |
| PipeStream.WideSpacingCrashesFirstTick | main.py:167-172 | spacing wider than the screen makes the very first tick index an empty queue |
| PipeStream.TickRetiresOnlyHead | main.py:172-178 | at most one pipe leaves, only the head, exactly when its pre-translation right edge is at or left of 0; every other pipe keeps its opening and moves left by exactly `speed` |
| PipeStream.TickKeepsSpacing | main.py:155-178 | consecutive pipes stay exactly 2 * width + spacing apart across any tick |
| PipeStream.SpawnKeepsSpacing | main.py:155-161 | appending at the spawn position keeps the queue spaced |
| PipeStream.ShiftedKeepsSpacing | main.py:176-177 | a uniform translation keeps the spacing |
| PipeStream.ShiftedKeepsOpenings | main.py:176-177 | a translation leaves every opening position in range |
| PipeStream.SpacedSuffix | main.py:172-173 | dropping the head keeps the spacing |
| PipeStream.SpacedAscending | main.py:155-178 | a positive spacing makes the pipes' x strictly ascending |
| PipeStream.TickKeepsAscending | main.py:155-178 | with positive width and spacing, pipe x-values stay strictly ascending after any tick |
| PipeStream.TickKeepsOpeningsInRange | main.py:155-178 | every opening position in the queue stays within the drawing range |
| PipeStream.Barriers | main.py:201-203 | two barriers are collected per pipe |
| PipeStream.BarriersAt | main.py:201-203 | position 2i holds pipe i's top barrier and 2i+1 its bottom barrier |
| Pipes.Pipe.constructor | main.py:126-134 | a new pipe has the given fields and the two barriers derived from them |
| Pipes.Pipe.UpdateTopBottom | main.py:136-138 | both barriers take the pipe's x; y, width and height are unchanged |
| Pipes.Pipe.Update | main.py:144-145 | the per-tick hook only re-derives the barriers' x |
| Pipes.PipeManager.constructor | main.py:149-153 | the manager starts with an empty queue and the given sizes |
| Pipes.PipeManager.GeneratePipe | main.py:155-161 | appends exactly one fresh pipe at the spawn position with the drawn opening, leaving the existing pipes as they are; on an empty draw range nothing changes |
| Pipes.PipeManager.Append | main.py:157-161 | appending a well-formed pipe keeps the manager's invariant |
| Pipes.PipeManager.Update | main.py:167-178 | the outcome and the new queue are exactly `TickSpec` of the old queue, and the manager's invariant is kept |
| Pipes.PipeManager.Advance | main.py:172-178 | on a non-empty queue, the head is dropped exactly when its right edge is at or left of 0, and the rest is `Shifted` by `speed` |
| Pipes.PipeManager.RetireHead | main.py:172-174 | the head is dropped exactly when its right edge is at or left of 0, and the result reports it |
| Pipes.PipeManager.Translate | main.py:176-178 | every pipe, and both its barriers, moves left by exactly `speed`; the queue's objects stay the same |
| Pipes.PipeManager.ShiftPipes | main.py:176-178 | the in-place loop: each pipe's x drops by `speed` and its barriers follow |
| Flight.Step | main.py:193-199 | the speed gains gravity and the position the new speed; a Space press in the tick's events then sets the speed to minus the jump magnitude |
| Flight.JumpPressedAppend | main.py:196-198 | after one more event, a jump has been seen iff the earlier events or the new one contain one |
| Flight.PositionIgnoresEvents | main.py:193-198 | the new position is y + speed + gravity whatever the events, because the jump applies after the move |
| Flight.JumpCountIrrelevant | main.py:196-198 | any number of Space presses equals one, and the speed is overwritten, not incremented |
| Flight.FreeFallClosedForm | main.py:183-194 | from rest with no jumps, after n ticks the speed is n * g and y is y0 + g * n * (n + 1) / 2 |
| Flight.FreeFallDescends | main.py:193-194 | with positive gravity and no jumps, y strictly increases every tick |
| Birds.Collidables | main.py:201-204 | the collidable list has one box for the floor, first, and two per pipe |
| Birds.CollisionIff | main.py:200-209 | the bird collides iff it intersects the floor or the top or bottom box of some pipe |
| Birds.Bird.constructor | main.py:183-189 | the bird starts at (10, 100, 30, 30) at rest |
| Birds.Bird.Update | main.py:193-209 | the motion is exactly `Step`; only y of the box changes; the returned flag is true iff the moved box hits the floor or any barrier of the current queue |
| Birds.Bird.CollidableBoxes | main.py:200-203 | the collected list is the floor followed by each pipe's top and bottom box, oldest first |
| Session.FloorPlacement | main.py:36-37 | the floor box is (0, 450, 640, 130) |
| Session.DefaultsAreSafe | main.py:255-261 | under the defaults the draw range is [10, 300], width and spacing are positive, the spacing fits the screen, and pipes are 240 apart |
| Session.DefaultTickIsSafe | main.py:155-178 | under the defaults every tick of a spaced queue advances and leaves it non-empty, spaced, ascending and with openings in range |
| Session.Ramp | main.py:64-66 | a reading more than one second past the mark sets the mark to the reading and multiplies the speed by the acceleration; otherwise nothing changes; the mark never moves back |
| Session.RampAllClosedForm | main.py:64-66 | over any clock readings, the speed is the start speed times acceleration to the number of ramps, and each ramp moves the mark more than one second on |
| Session.RampNeverSlows | main.py:64-66 | with acceleration at least 1 and a non-negative speed, the ramp never lowers the speed |
| Session.Game.constructor | main.py:25-41 | a fresh session: score 0, the starting speed, the clock mark, the floor, an empty manager and the bird at rest at its start box |
| Session.Game.Update | main.py:49-66 | the pipes follow `TickSpec`; the score grows by exactly the retired count; the bird moves by `Step`; the result is `Collided` iff it hits something; the ramp is applied; on a fault the bird, speed and mark are untouched; under safe settings the tick advances and the queue is non-empty |
| Session.Game.MoveBird | main.py:58-66 | the bird moves by `Step`, only its y changes, the flag is `HitsAny` over the current collidables, the ramp follows `Ramp`, and the score stays |
| Session.Game.Accelerate | main.py:64-66 | the mark and the speed change exactly as `Ramp` prescribes |
| Session.App.constructor | main.py:242-264 | the stored top score and a first fresh session, whose game, pipe manager and bird are new objects and whose manager owns no pipes |
| Session.App.NewGame | main.py:77-89 | the top score becomes max(top score, finished score), and the session is replaced by a fresh one with a new pipe manager owning no pipes and a new bird |
| Session.App.Frame | main.py:58-66 | the pipes' outcome is `TickSpec`'s; a new session starts exactly when the moved bird hits the floor or a barrier of the ticked queue, and then the top score absorbs the final score and the new game, manager and bird are new objects; otherwise the same session carries the tick: its queue is `TickSpec`'s, every pipe it gained is a new object, its score grows by the retired count, only the bird's y changes, and on an advance the bird moves by `Step`, hits nothing and the ramp is applied, while on a fault the bird, speed and mark stay |

## Left out

- Rendering is not modelled: the `draw` methods, colours, the score label and the window and display calls. They hold no game logic.
- Event polling (`pygame.event.get`) is not modelled. Each tick's events arrive as a `seq<Event>` parameter.
- The quit handler (main.py:51-56) is left out. Its condition on main.py:52 is malformed, so it cannot be read. The handler writes `max(top_score, score)` to the score file and quits.
- The score and settings files, and the JSON defaults, are not modelled. The stored top score and the settings are constructor parameters of `App`; the built-in defaults are `DefaultSettings`.
- The frame limiter (`fps_clock.tick(30)`) is not modelled.
- The wall clock is not modelled. The two `clock()` readings on main.py:64-65 are taken as one value `now`.
- `randint` is not modelled. Its result is the parameter `openingPos`, which the caller guarantees lies in the drawing range whenever that range is non-empty. A non-integral upper bound, which the random source would reject, is treated as its integer floor.
- `Bird.__update` (main.py:211-232) is left out. It is a name-mangled debug mover that is never called.
- Re-entrancy through the globals is not modelled literally. In the source, the bird calls `new_game()` partway through the old session's update, and the old session's ramp then still runs on the discarded object. The model returns a `Collided` status instead. `App.Frame` starts the new session after the old tick completes.
- Session.App.Frame: the new session's clock mark is the frame's `now`. In the source, `new_game()` reads `clock()` for the new session (main.py:31) during the bird's update, before the display update and the frame limiter (main.py:61-62) and before the old session's ramp readings (main.py:64-65). The model's mark can therefore be later than the source's by up to that interval, so the new session's first ramp can come one frame later.
- Floating-point rounding is not modelled; `speed *= 1.1` is exact multiplication on reals.
- The session's `objects` list is replaced by the session's `floor`, `manager` and `bird` fields. The floor's update is a no-op, and the pipe manager always updates before the bird.
- The parts of the pipe manager's `update` are split into the methods `GeneratePipe`, `Append`, `Advance`, `RetireHead`, `Translate` and `ShiftPipes`, and the bird-and-ramp half of the session's `update` is `Game.MoveBird`. They run in the source's order.
- The collision loop's `obj is not self` test is dropped. The list never contains the bird, so the test is always true.
- Pipes.PipeManager.Update and the other manager methods require the manager's invariant `Valid()`. The source states no such condition, but its own code establishes and keeps the invariant.
- PipeStream.TickNeverEmpties requires `pipeWidth >= 0` in addition to the spacing bound. With a width of -640 or less, a freshly spawned pipe would be retired at once.
