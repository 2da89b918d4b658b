/**
 * `MarioFireballAnimation` (public/animations.js:470-548): a fireball that
 * travels right at 1.5 pixels per update while bouncing between the ground
 * and 16.5 pixels above it (the bounce turns back only once it is past -16),
 * and starts over once it is off screen.
 *
 * `halfX` and `halfBounce` are the source's `x` and `bounceHeight` in
 * half-pixel units, so every step is an exact integer step.
 */
module MarioFireball {
  /** The fields `update` reads and writes; `y` never changes. */
  datatype State = State(frameCount: nat, halfX: int, y: int, halfBounce: int, bounceDirection: int)

  const StartHalfX: int := -24   // x = -12
  const WrapHalfX: int := 152    // x = 76
  const StepHalves: int := 3     // 1.5 pixels
  const PeakHalves: int := -32   // bounceHeight = -16

  /** The constructor's state: the invariant holds, no update has run, and the fireball is on the ground rising. */
  function Initial(): (s: State)
    ensures Inv(s) && s.frameCount == 0
    ensures s.halfBounce == 0 && s.bounceDirection == -1
  {
    State(0, StartHalfX, 44, 0, -1)
  }

  /** One `update()`: move, bounce, then wrap. */
  function Step(s: State): (r: State)
    ensures r.frameCount == s.frameCount + 1 && r.y == s.y
    ensures r.halfBounce <= 0
  {
    var frameCount := s.frameCount + 1;
    var halfX := s.halfX + StepHalves;
    var bounce := s.halfBounce + s.bounceDirection * StepHalves;
    var direction := if bounce < PeakHalves then 1 else if bounce > 0 then -1 else s.bounceDirection;
    var height := if bounce < PeakHalves then bounce else if bounce > 0 then 0 else bounce;
    if halfX > WrapHalfX then State(frameCount, StartHalfX, s.y, 0, direction)
    else State(frameCount, halfX, s.y, height, direction)
  }

  /**
   * The configuration every reachable state keeps: -12 <= x <= 76, the
   * direction is a unit, and the height stays in [-17.5, 0]; while
   * `bounceDirection` is still -1 it is no lower than -16.
   */
  predicate Inv(s: State) {
    && StartHalfX <= s.halfX <= WrapHalfX
    && s.y == 44
    && (s.bounceDirection == -1 || s.bounceDirection == 1)
    && PeakHalves - StepHalves <= s.halfBounce <= 0
    && (s.bounceDirection == -1 ==> PeakHalves <= s.halfBounce)
  }

  lemma StepInv(s: State)
    requires Inv(s)
    ensures Inv(Step(s))
  {
  }

  function Steps(s: State, n: nat): State {
    if n == 0 then s else Step(Steps(s, n - 1))
  }

  /** The fireball's run is a cycle of 59 positions: after n updates x = -12 + 1.5 * (n mod 59). */
  lemma {:induction false} ReachableX(n: nat)
    ensures Steps(Initial(), n).halfX == StartHalfX + StepHalves * (n % 59)
  {
    if n > 0 {
      ReachableX(n - 1);
      CycleSucc(n);
    }
  }

  /** One more update moves the position in the 59-cycle on by one, wrapping from the last position to 0. */
  lemma CycleSucc(n: nat)
    requires n > 0
    ensures n % 59 == if (n - 1) % 59 == 58 then 0 else (n - 1) % 59 + 1
  {
    assert n == 59 * ((n - 1) / 59) + (n - 1) % 59 + 1;
  }

  class MarioFireballAnimation {
    var halfX: int
    var y: int
    var halfBounce: int
    var bounceDirection: int
    var frameCount: nat
    var hueShift: int
    /** Whether the `engine` back-reference is set. */
    var attached: bool

    function Current(): State
      reads this
    {
      State(frameCount, halfX, y, halfBounce, bounceDirection)
    }

    constructor ()
      ensures Current() == Initial()
      ensures hueShift == 0 && !attached
    {
      halfX, y, halfBounce, bounceDirection := StartHalfX, 44, 0, -1;
      frameCount, hueShift, attached := 0, 0, false;
    }

    method Update()
      modifies this
      ensures Current() == Step(old(Current()))
      ensures hueShift == old(hueShift) && attached == old(attached)
    {
      frameCount := frameCount + 1;
      halfX := halfX + StepHalves;
      halfBounce := halfBounce + bounceDirection * StepHalves;
      if halfBounce < PeakHalves {
        bounceDirection := 1;
      } else if halfBounce > 0 {
        bounceDirection := -1;
        halfBounce := 0;
      }
      if halfX > WrapHalfX {
        halfX := StartHalfX;
        halfBounce := 0;
      }
    }
  }
}
