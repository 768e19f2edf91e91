/**
 * The bird's vertical motion as values: one tick is gravity, then the
 * position update, then the jump override; the lemmas give the closed form of
 * a free fall and show that the count of jump presses in a tick is irrelevant.
 */
module Flight {

  datatype Key = Space | Escape | OtherKey

  /** One input event of a tick's batch. */
  datatype Event = KeyDown(key: Key) | QuitRequest | OtherEvent

  predicate IsJump(e: Event) {
    e.KeyDown? && e.key == Space
  }

  /** The batch holds at least one Space key-down. */
  predicate JumpPressed(events: seq<Event>) {
    exists i :: 0 <= i < |events| && IsJump(events[i])
  }

  /** A batch extended by one event holds a jump iff the batch or the event does. */
  lemma JumpPressedAppend(events: seq<Event>, e: Event)
    ensures JumpPressed(events + [e]) <==> JumpPressed(events) || IsJump(e)
  {
    var es := events + [e];
    if JumpPressed(es) && !IsJump(e) {
      var j :| 0 <= j < |es| && IsJump(es[j]);
      assert j < |events| && events[j] == es[j];
    }
    if JumpPressed(events) {
      var j :| 0 <= j < |events| && IsJump(events[j]);
      assert es[j] == events[j];
    }
    if IsJump(e) {
      assert es[|events|] == e;
    }
  }

  /** Vertical position (downwards) and vertical speed of the bird. */
  datatype Motion = Motion(y: real, verticalSpeed: real)

  /** One tick of vertical motion. */
  function Step(m: Motion, gravity: real, jumpMagnitude: real, events: seq<Event>): (next: Motion)
    ensures JumpPressed(events) ==> next.verticalSpeed == -jumpMagnitude
    ensures !JumpPressed(events) ==> next.verticalSpeed - m.verticalSpeed == gravity
  {
    var v := m.verticalSpeed + gravity;
    Motion(m.y + v, if JumpPressed(events) then -jumpMagnitude else v)
  }

  /** `n` ticks with empty event batches. */
  function Glide(m: Motion, gravity: real, jumpMagnitude: real, n: nat): Motion {
    if n == 0 then m else Step(Glide(m, gravity, jumpMagnitude, n - 1), gravity, jumpMagnitude, [])
  }

  /** The jump is applied after the position update: the new position is the
      same whatever the events, and only the speed reacts to a jump. */
  lemma PositionIgnoresEvents(m: Motion, gravity: real, jumpMagnitude: real, e1: seq<Event>, e2: seq<Event>)
    ensures Step(m, gravity, jumpMagnitude, e1).y == Step(m, gravity, jumpMagnitude, e2).y == m.y + m.verticalSpeed + gravity
    ensures !JumpPressed(e1) ==> Step(m, gravity, jumpMagnitude, e1).verticalSpeed == m.verticalSpeed + gravity
  {
  }

  /** Any number of Space presses in one batch acts like exactly one, and the
      speed is overridden, not incremented. */
  lemma JumpCountIrrelevant(m: Motion, gravity: real, jumpMagnitude: real, events: seq<Event>)
    requires JumpPressed(events)
    ensures Step(m, gravity, jumpMagnitude, events) == Step(m, gravity, jumpMagnitude, [KeyDown(Space)])
    ensures Step(m, gravity, jumpMagnitude, events).verticalSpeed == -jumpMagnitude
  {
    assert IsJump([KeyDown(Space)][0]);
  }

  /** From rest, after n ticks without jumps: speed n*g and
      position y0 + g*n*(n+1)/2. */
  lemma {:induction false} FreeFallClosedForm(y0: real, gravity: real, jumpMagnitude: real, n: nat)
    ensures Glide(Motion(y0, 0.0), gravity, jumpMagnitude, n).verticalSpeed == (n as real) * gravity
    ensures Glide(Motion(y0, 0.0), gravity, jumpMagnitude, n).y
            == y0 + gravity * (n as real) * (n as real + 1.0) / 2.0
  {
    if n > 0 {
      FreeFallClosedForm(y0, gravity, jumpMagnitude, n - 1);
      var k := (n - 1) as real;
      assert k * gravity + gravity == (k + 1.0) * gravity;
      assert gravity * k * (k + 1.0) / 2.0 + (k + 1.0) * gravity == gravity * (k + 1.0) * (k + 2.0) / 2.0;
    }
  }

  /** With positive gravity and no jumps the bird descends strictly every tick. */
  lemma FreeFallDescends(y0: real, gravity: real, jumpMagnitude: real, n: nat)
    requires gravity > 0.0
    ensures Glide(Motion(y0, 0.0), gravity, jumpMagnitude, n + 1).y > Glide(Motion(y0, 0.0), gravity, jumpMagnitude, n).y
  {
    FreeFallClosedForm(y0, gravity, jumpMagnitude, n);
    assert (n as real) * gravity + gravity > 0.0;
  }
}
