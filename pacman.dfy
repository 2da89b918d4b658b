/**
 * `PacmanAnimation` (public/animations.js:206-300): Pac-Man crosses the lane
 * at 1.5 pixels per update, toggles its mouth every fifth update, eats the
 * dots it passes and wraps around once it is off screen.
 *
 * Horizontal positions are kept in half-pixel units (`halfX` is twice the
 * source's `x`), so every step is an exact integer step.
 */
module Pacman {
  /** One dot on the lane, in whole pixels. */
  datatype Dot = Dot(x: int, y: int, eaten: bool)

  /** The fields `update` reads and writes. */
  datatype State = State(frameCount: nat, halfX: int, y: int, mouthOpen: bool, dots: seq<Dot>)

  const StartHalfX: int := -32   // x = -16
  const WrapHalfX: int := 160    // x = 80
  const StepHalves: int := 3     // 1.5 pixels
  const DotCount: nat := 7

  /** The dot the constructor's loop pushes at position `i`: x = 8, 16, ..., 56 and y = 32. */
  function InitialDot(i: nat): Dot {
    Dot(8 * (i + 1), 32, false)
  }

  /** The constructor's state: every reachable-state invariant holds, no update yet, no dot eaten. */
  function Initial(): (s: State)
    ensures Inv(s) && s.frameCount == 0
    ensures forall i :: 0 <= i < |s.dots| ==> !s.dots[i].eaten
  {
    State(0, StartHalfX, 28, true, seq(DotCount, i requires 0 <= i < DotCount => InitialDot(i)))
  }

  /** `Math.abs(this.x + 8 - dot.x) < 6`, in half pixels. */
  predicate InReach(halfX: int, d: Dot) {
    -12 < halfX + 16 - 2 * d.x < 12
  }

  function Eat(halfX: int, d: Dot): Dot {
    if !d.eaten && InReach(halfX, d) then d.(eaten := true) else d
  }

  function EatAll(halfX: int, dots: seq<Dot>): (r: seq<Dot>)
    ensures |r| == |dots|
  {
    seq(|dots|, i requires 0 <= i < |dots| => Eat(halfX, dots[i]))
  }

  function Uneat(d: Dot): Dot {
    d.(eaten := false)
  }

  function UneatAll(dots: seq<Dot>): (r: seq<Dot>)
    ensures |r| == |dots|
  {
    seq(|dots|, i requires 0 <= i < |dots| => Uneat(dots[i]))
  }

  /** Whether the update that starts in `s` runs Pac-Man off the right edge. */
  predicate Wraps(s: State) {
    s.halfX + StepHalves > WrapHalfX
  }

  /** One `update()`: count, move, toggle the mouth, eat, then wrap. */
  function Step(s: State): (r: State)
    ensures r.frameCount == s.frameCount + 1
    ensures r.mouthOpen != s.mouthOpen <==> r.frameCount % 5 == 0
    ensures r.y == s.y && |r.dots| == |s.dots|
    ensures r.halfX == if Wraps(s) then StartHalfX else s.halfX + StepHalves
  {
    var frameCount := s.frameCount + 1;
    var halfX := s.halfX + StepHalves;
    var mouthOpen := if frameCount % 5 == 0 then !s.mouthOpen else s.mouthOpen;
    var dots := EatAll(halfX, s.dots);
    if halfX > WrapHalfX then State(frameCount, StartHalfX, s.y, mouthOpen, UneatAll(dots))
    else State(frameCount, halfX, s.y, mouthOpen, dots)
  }

  /** The configuration every reachable state keeps: the dot layout and -16 <= x <= 80. */
  predicate Inv(s: State) {
    && StartHalfX <= s.halfX <= WrapHalfX
    && s.y == 28
    && |s.dots| == DotCount
    && forall i :: 0 <= i < DotCount ==> s.dots[i].x == InitialDot(i).x && s.dots[i].y == InitialDot(i).y
  }

  lemma StepInv(s: State)
    requires Inv(s)
    ensures Inv(Step(s))
  {
    var r := Step(s);
    forall i | 0 <= i < DotCount
      ensures r.dots[i].x == s.dots[i].x && r.dots[i].y == s.dots[i].y
    {
      StepDot(s, i);
    }
  }

  /** What one update does to dot `i`. */
  lemma StepDot(s: State, i: nat)
    requires i < |s.dots|
    ensures Step(s).dots[i].x == s.dots[i].x && Step(s).dots[i].y == s.dots[i].y
    ensures Step(s).dots[i].eaten == (!Wraps(s) && (s.dots[i].eaten || InReach(s.halfX + StepHalves, s.dots[i])))
  {
  }

  /**
   * A dot once eaten stays eaten until the wrap, and the wrap restores every
   * dot; between wraps a dot becomes eaten exactly when Pac-Man's new
   * position is within reach of it.
   */
  lemma EatenStaysEatenUntilWrap(s: State)
    ensures !Wraps(s) ==> forall i :: 0 <= i < |s.dots| && s.dots[i].eaten ==> Step(s).dots[i].eaten
    ensures Wraps(s) ==> forall i :: 0 <= i < |s.dots| ==> !Step(s).dots[i].eaten
  {
    forall i | 0 <= i < |s.dots| {
      StepDot(s, i);
    }
  }

  /** `n` updates from `s`. */
  function Steps(s: State, n: nat): State {
    if n == 0 then s else Step(Steps(s, n - 1))
  }

  /** Pac-Man's lane is a cycle of 65 positions: after n updates x = -16 + 1.5 * (n mod 65). */
  lemma {:induction false} ReachableX(n: nat)
    ensures Steps(Initial(), n).halfX == StartHalfX + StepHalves * (n % 65)
  {
    if n > 0 {
      ReachableX(n - 1);
      CycleSucc(n);
    }
  }

  /** One more update moves the position in the 65-cycle on by one, wrapping from the last position to 0. */
  lemma CycleSucc(n: nat)
    requires n > 0
    ensures n % 65 == if (n - 1) % 65 == 64 then 0 else (n - 1) % 65 + 1
  {
    assert n == 65 * ((n - 1) / 65) + (n - 1) % 65 + 1;
  }

  class PacmanAnimation {
    var halfX: int
    var y: int
    var mouthOpen: bool
    var frameCount: nat
    var hueShift: int
    /** Whether the `engine` back-reference is set. */
    var attached: bool
    /** The array is created once; `update` changes its elements in place. */
    const dots: array<Dot>

    function Current(): State
      reads this, dots
    {
      State(frameCount, halfX, y, mouthOpen, dots[..])
    }

    constructor ()
      ensures Current() == Initial() && fresh(dots)
      ensures hueShift == 0 && !attached
    {
      var ds := new Dot[DotCount];
      var i, k := 8, 0;
      while i < 64
        invariant k <= DotCount && i == 8 * (k + 1)
        invariant forall j :: 0 <= j < k ==> ds[j] == InitialDot(j)
      {
        ds[k] := Dot(i, 32, false);
        i, k := i + 8, k + 1;
      }
      halfX, y, mouthOpen, frameCount := StartHalfX, 28, true, 0;
      hueShift, attached := 0, false;
      dots := ds;
      new;
      assert dots[..] == Initial().dots;
    }

    method Update()
      modifies this, dots
      ensures Current() == Step(old(Current()))
      ensures hueShift == old(hueShift) && attached == old(attached)
    {
      frameCount := frameCount + 1;
      halfX := halfX + StepHalves;
      if frameCount % 5 == 0 {
        mouthOpen := !mouthOpen;
      }
      var i := 0;
      while i < dots.Length
        modifies dots
        invariant 0 <= i <= dots.Length
        invariant forall j :: 0 <= j < i ==> dots[j] == Eat(halfX, old(dots[j]))
        invariant forall j :: i <= j < dots.Length ==> dots[j] == old(dots[j])
      {
        var dot := dots[i];
        if !dot.eaten && InReach(halfX, dot) {
          dots[i] := dot.(eaten := true);
        }
        i := i + 1;
      }
      assert dots[..] == EatAll(halfX, old(dots[..]));
      if halfX > WrapHalfX {
        halfX := StartHalfX;
        ghost var eaten := dots[..];
        i := 0;
        while i < dots.Length
          modifies dots
          invariant 0 <= i <= dots.Length
          invariant forall j :: 0 <= j < i ==> dots[j] == Uneat(eaten[j])
          invariant forall j :: i <= j < dots.Length ==> dots[j] == eaten[j]
        {
          dots[i] := dots[i].(eaten := false);
          i := i + 1;
        }
        assert dots[..] == UneatAll(eaten);
      }
    }
  }
}
