/**
 * `ZeldaHeartAnimation` (public/animations.js:401-468). Only the frame
 * counter is modelled: the pulsing `scale` moves in steps of 0.03, which
 * binary floating point does not represent exactly.
 */
module ZeldaHeart {
  class ZeldaHeartAnimation {
    var frameCount: nat
    var hueShift: int
    /** Whether the `engine` back-reference is set. */
    var attached: bool

    constructor ()
      ensures frameCount == 0 && hueShift == 0 && !attached
    {
      frameCount, hueShift, attached := 0, 0, false;
    }

    method Update()
      modifies this
      ensures frameCount == old(frameCount) + 1
      ensures hueShift == old(hueShift) && attached == old(attached)
    {
      frameCount := frameCount + 1;
    }
  }
}
