/**
 * The retrowave variants of public/animations.js:550-983: `NeonGridAnimation`,
 * `RetroSunsetAnimation`, `SynthCarAnimation`, `GeometricMountainsAnimation`,
 * `NeonCityscapeAnimation` and `DigitalRainAnimation`.
 *
 * The grid offset is kept in half-pixel units (`halfOffset` is twice the
 * source's `gridOffset`). For the sunset only the frame counter is
 * modelled (its sun moves in steps of 0.3), and for the digital rain only
 * the frame counter as well (its drops are drawn from `Math.random`).
 */
module Retrowave {
  // ---------------------------------------------------------------------------
  // NeonGrid
  // ---------------------------------------------------------------------------

  datatype GridState = GridState(frameCount: nat, halfOffset: int)

  /** `gridOffset` wraps back to 0 on reaching 8 pixels. */
  const GridPeriodHalves: int := 16

  function GridInitial(): (s: GridState)
    ensures GridInv(s) && s.frameCount == 0
  {
    GridState(0, 0)
  }

  /** `update()`: advance half a pixel, wrap at 8. */
  function GridStep(s: GridState): (r: GridState)
    ensures r.frameCount == s.frameCount + 1
    ensures GridInv(s) ==> r.halfOffset == (s.halfOffset + 1) % GridPeriodHalves
  {
    var offset := s.halfOffset + 1;
    GridState(s.frameCount + 1, if offset >= GridPeriodHalves then 0 else offset)
  }

  /** `gridOffset` stays in [0, 8). */
  predicate GridInv(s: GridState) {
    0 <= s.halfOffset < GridPeriodHalves
  }

  lemma GridStepInv(s: GridState)
    requires GridInv(s)
    ensures GridInv(GridStep(s))
  {
  }

  function GridSteps(s: GridState, n: nat): GridState {
    if n == 0 then s else GridStep(GridSteps(s, n - 1))
  }

  /** After n updates the offset is (n mod 16) half pixels: a sawtooth of period 16. */
  lemma {:induction false} GridReachable(n: nat)
    ensures GridSteps(GridInitial(), n) == GridState(n, n % GridPeriodHalves)
    ensures GridInv(GridSteps(GridInitial(), n))
  {
    if n > 0 {
      GridReachable(n - 1);
      GridCycleSucc(n);
    }
  }

  /** One more update moves the grid on by one in its 16-cycle, wrapping from 15 to 0. */
  lemma GridCycleSucc(n: nat)
    requires n > 0
    ensures n % 16 == if (n - 1) % 16 == 15 then 0 else (n - 1) % 16 + 1
  {
    assert n == 16 * ((n - 1) / 16) + (n - 1) % 16 + 1;
  }

  class NeonGridAnimation {
    var frameCount: nat
    var halfOffset: int
    var hueShift: int
    /** Whether the `engine` back-reference is set. */
    var attached: bool

    function Current(): GridState
      reads this
    {
      GridState(frameCount, halfOffset)
    }

    constructor ()
      ensures Current() == GridInitial() && hueShift == 0 && !attached
    {
      frameCount, halfOffset, hueShift, attached := 0, 0, 0, false;
    }

    method Update()
      modifies this
      ensures Current() == GridStep(old(Current()))
      ensures hueShift == old(hueShift) && attached == old(attached)
    {
      frameCount := frameCount + 1;
      halfOffset := halfOffset + 1;
      if halfOffset >= GridPeriodHalves {
        halfOffset := 0;
      }
    }
  }

  // ---------------------------------------------------------------------------
  // RetroSunset
  // ---------------------------------------------------------------------------

  class RetroSunsetAnimation {
    var frameCount: nat
    var hueShift: int
    /** Whether the `engine` back-reference is set. */
    var attached: bool

    constructor ()
      ensures frameCount == 0 && hueShift == 0 && !attached
    {
      frameCount, hueShift, attached := 0, 0, false;
    }

    method Update()
      modifies this
      ensures frameCount == old(frameCount) + 1
      ensures hueShift == old(hueShift) && attached == old(attached)
    {
      frameCount := frameCount + 1;
    }
  }

  // ---------------------------------------------------------------------------
  // SynthCar
  // ---------------------------------------------------------------------------

  datatype CarState = CarState(frameCount: nat, carX: int, roadOffset: int)

  const CarStartX: int := -20
  const CarWrapX: int := 80

  function CarInitial(): (s: CarState)
    ensures CarInv(s) && s.frameCount == 0
  {
    CarState(0, CarStartX, 0)
  }

  /** `update()`: the car moves one pixel, the road two; each wraps independently. */
  function CarStep(s: CarState): (r: CarState)
    ensures r.frameCount == s.frameCount + 1
    ensures CarInv(s) ==> r.carX - CarStartX == (s.carX - CarStartX + 1) % 101
    ensures CarInv(s) ==> r.roadOffset == (s.roadOffset + 2) % 8
  {
    var x := s.carX + 1;
    var offset := s.roadOffset + 2;
    CarState(s.frameCount + 1, if x > CarWrapX then CarStartX else x, if offset >= 8 then 0 else offset)
  }

  /** `carX` stays in [-20, 80] and `roadOffset` in {0, 2, 4, 6}. */
  predicate CarInv(s: CarState) {
    CarStartX <= s.carX <= CarWrapX && s.roadOffset in {0, 2, 4, 6}
  }

  lemma CarStepInv(s: CarState)
    requires CarInv(s)
    ensures CarInv(CarStep(s))
  {
  }

  function CarSteps(s: CarState, n: nat): CarState {
    if n == 0 then s else CarStep(CarSteps(s, n - 1))
  }

  /** After n updates the car has made n mod 101 one-pixel moves since its last wrap, the road n mod 4 two-pixel moves. */
  lemma {:induction false} CarReachable(n: nat)
    ensures CarSteps(CarInitial(), n) == CarState(n, CarStartX + n % 101, 2 * (n % 4))
    ensures CarInv(CarSteps(CarInitial(), n))
  {
    if n > 0 {
      CarReachable(n - 1);
      CarCycleSucc(n);
    }
  }

  /** One more update moves the car on by one in its 101-cycle and the road on by one in its 4-cycle. */
  lemma CarCycleSucc(n: nat)
    requires n > 0
    ensures n % 101 == if (n - 1) % 101 == 100 then 0 else (n - 1) % 101 + 1
    ensures n % 4 == if (n - 1) % 4 == 3 then 0 else (n - 1) % 4 + 1
  {
    assert n == 101 * ((n - 1) / 101) + (n - 1) % 101 + 1;
    assert n == 4 * ((n - 1) / 4) + (n - 1) % 4 + 1;
  }

  class SynthCarAnimation {
    var frameCount: nat
    var carX: int
    var roadOffset: int
    var hueShift: int
    /** Whether the `engine` back-reference is set. */
    var attached: bool

    function Current(): CarState
      reads this
    {
      CarState(frameCount, carX, roadOffset)
    }

    constructor ()
      ensures Current() == CarInitial() && hueShift == 0 && !attached
    {
      frameCount, carX, roadOffset, hueShift, attached := 0, CarStartX, 0, 0, false;
    }

    method Update()
      modifies this
      ensures Current() == CarStep(old(Current()))
      ensures hueShift == old(hueShift) && attached == old(attached)
    {
      frameCount := frameCount + 1;
      carX := carX + 1;
      roadOffset := roadOffset + 2;
      if carX > CarWrapX {
        carX := CarStartX;
      }
      if roadOffset >= 8 {
        roadOffset := 0;
      }
    }
  }

  // ---------------------------------------------------------------------------
  // GeometricMountains, NeonCityscape and DigitalRain
  // ---------------------------------------------------------------------------

  /** Its `update()` only counts frames; everything else is computed by `draw()`. */
  class GeometricMountainsAnimation {
    var frameCount: nat
    var hueShift: int
    /** Whether the `engine` back-reference is set. */
    var attached: bool

    constructor ()
      ensures frameCount == 0 && hueShift == 0 && !attached
    {
      frameCount, hueShift, attached := 0, 0, false;
    }

    method Update()
      modifies this
      ensures frameCount == old(frameCount) + 1
      ensures hueShift == old(hueShift) && attached == old(attached)
    {
      frameCount := frameCount + 1;
    }
  }

  /** Its `update()` only counts frames; the buildings table is read by `draw()` alone. */
  class NeonCityscapeAnimation {
    var frameCount: nat
    var hueShift: int
    /** Whether the `engine` back-reference is set. */
    var attached: bool

    constructor ()
      ensures frameCount == 0 && hueShift == 0 && !attached
    {
      frameCount, hueShift, attached := 0, 0, false;
    }

    method Update()
      modifies this
      ensures frameCount == old(frameCount) + 1
      ensures hueShift == old(hueShift) && attached == old(attached)
    {
      frameCount := frameCount + 1;
    }
  }

  /** Only the frame counter: the drops are created and moved with `Math.random`. */
  class DigitalRainAnimation {
    var frameCount: nat
    var hueShift: int
    /** Whether the `engine` back-reference is set. */
    var attached: bool

    constructor ()
      ensures frameCount == 0 && hueShift == 0 && !attached
    {
      frameCount, hueShift, attached := 0, 0, false;
    }

    method Update()
      modifies this
      ensures frameCount == old(frameCount) + 1
      ensures hueShift == old(hueShift) && attached == old(attached)
    {
      frameCount := frameCount + 1;
    }
  }
}
