/**
 * `PixelAnimationEngine` (public/animations.js:15-204) and the global
 * `getAnimationMatrix` wrapper (public/animations.js:1123-1127).
 *
 * The canvas is not part of this model: `draw()` is an action that changes
 * no field of the engine or of any animation, and what `getImageData`
 * returns after it is an input buffer. The `engine` back-reference a
 * variant receives is its `attached` flag, and the registered callback is
 * represented by whether one is set and by the event the frame hands it.
 */
module Engine {
  import opened Options
  import opened Raster
  import A = Animations

  const FPS: int := 15

  /**
   * `timestamp - lastFrameTime >= FRAME_DURATION` with
   * `FRAME_DURATION = 1000 / FPS`, multiplied through by FPS so that it
   * stays exact. On whole milliseconds a frame is due exactly when 67 ms
   * or more have passed.
   */
  function FrameDue(lastFrameTime: int, timestamp: int): (due: bool)
    ensures due <==> timestamp - lastFrameTime >= 67
  {
    FPS * (timestamp - lastFrameTime) >= 1000
  }

  /** The arguments `onMatrixUpdate(matrix, currentAnimationType, animationFrame)` receives. */
  datatype FrameEvent = FrameEvent(matrix: Matrix, animationType: string, frame: nat)

  /** How often `for (let i = 0; i < frameNumber; i++)` runs its body. */
  function Iterations(frameNumber: int): (n: nat)
    ensures n >= frameNumber && (n == 0 || n == frameNumber)
  {
    if frameNumber > 0 then frameNumber else 0
  }

  class PixelAnimationEngine {
    var currentAnimation: Option<A.Variant>
    var animationFrame: nat
    var lastFrameTime: int
    var hueShift: int
    var currentAnimationType: string
    /** Whether `onMatrixUpdate` is set. */
    var hasCallback: bool

    /** The objects of the active animation. */
    function Footprint(): set<object>
      reads this
    {
      if currentAnimation.Some? then currentAnimation.value.Repr() else {}
    }

    /** The active animation carries the engine's hue shift and its back-reference. */
    ghost predicate Valid()
      reads this, Footprint()
    {
      currentAnimation.Some? ==> currentAnimation.value.HueShift() == hueShift && currentAnimation.value.Attached()
    }

    constructor ()
      ensures Valid()
      ensures currentAnimation == None && animationFrame == 0 && lastFrameTime == 0
      ensures hueShift == 0 && currentAnimationType == "" && !hasCallback
    {
      currentAnimation, animationFrame, lastFrameTime := None, 0, 0;
      hueShift, currentAnimationType, hasCallback := 0, "", false;
    }

    /**
     * `startAnimation(type)`: a recognised name installs a fresh instance;
     * any other name keeps whatever instance was active. Either way the
     * name is recorded and the frame counter reset.
     */
    method StartAnimation(name: string)
      requires Valid()
      modifies this, Footprint()
      ensures Valid()
      ensures currentAnimationType == name && animationFrame == 0
      ensures hueShift == old(hueShift) && lastFrameTime == old(lastFrameTime) && hasCallback == old(hasCallback)
      ensures A.KindOf(name).Some? ==>
        && currentAnimation.Some? && fresh(currentAnimation.value.Repr())
        && currentAnimation.value.Kind() == A.KindOf(name).value
        && currentAnimation.value.Snapshot() == A.Initial(A.KindOf(name).value)
        && unchanged(old(Footprint()))
      ensures A.KindOf(name).None? ==>
        && currentAnimation == old(currentAnimation)
        && (currentAnimation.Some? ==> currentAnimation.value.Snapshot() == old(currentAnimation.value.Snapshot()))
    {
      currentAnimationType := name;
      var kind := A.KindOf(name);
      if kind.Some? {
        var v := A.NewVariant(kind.value);
        A.SetHueShift(v, hueShift);
        A.Attach(v);
        currentAnimation := Some(v);
      } else if currentAnimation.Some? {
        A.SetHueShift(currentAnimation.value, hueShift);
        A.Attach(currentAnimation.value);
      }
      animationFrame := 0;
    }

    /**
     * `getAnimationMatrix(animationName, frameNumber)`: start the named
     * animation, update it max(frameNumber, 0) times, draw, read the canvas
     * back, and restore the saved reference, frame counter and name.
     * `sampled` is the instance that was advanced and drawn.
     */
    method GetAnimationMatrix(animationName: string, frameNumber: int, imageData: seq<int>)
      returns (matrix: Matrix, ghost sampled: Option<A.Variant>)
      requires Valid() && |imageData| == ImageDataLength
      modifies this, Footprint()
      ensures Valid()
      ensures matrix == MatrixOf(imageData)
      ensures currentAnimation == old(currentAnimation) && animationFrame == old(animationFrame)
      ensures currentAnimationType == old(currentAnimationType)
      ensures hueShift == old(hueShift) && lastFrameTime == old(lastFrameTime) && hasCallback == old(hasCallback)
      ensures A.KindOf(animationName).Some? ==>
        && sampled.Some? && fresh(sampled.value.Repr())
        && sampled.value.Snapshot() == A.AdvanceN(A.Initial(A.KindOf(animationName).value), Iterations(frameNumber))
        && sampled.value.HueShift() == hueShift && sampled.value.Attached()
        && unchanged(old(Footprint()))
      ensures A.KindOf(animationName).None? ==>
        && sampled == old(currentAnimation)
        && (old(currentAnimation).Some? ==>
              currentAnimation.value.Snapshot() == A.AdvanceN(old(currentAnimation.value.Snapshot()), Iterations(frameNumber)))
    {
      var savedAnimation := currentAnimation;
      var savedFrame := animationFrame;
      var savedType := currentAnimationType;

      sampled := SampleFrames(animationName, frameNumber);
      // `draw()` paints the canvas and changes no field; `imageData` is what it leaves.
      matrix := GetPixelMatrix(imageData);

      currentAnimation := savedAnimation;
      animationFrame := savedFrame;
      currentAnimationType := savedType;
    }

    /**
     * The first half of `getAnimationMatrix`: start the named animation and
     * update it max(frameNumber, 0) times. `sampled` is the instance left active.
     */
    method SampleFrames(animationName: string, frameNumber: int) returns (ghost sampled: Option<A.Variant>)
      requires Valid()
      modifies this, Footprint()
      ensures Valid() && sampled == currentAnimation
      ensures currentAnimationType == animationName
      ensures hueShift == old(hueShift) && lastFrameTime == old(lastFrameTime) && hasCallback == old(hasCallback)
      ensures A.KindOf(animationName).Some? ==>
        && sampled.Some? && fresh(sampled.value.Repr())
        && sampled.value.Snapshot() == A.AdvanceN(A.Initial(A.KindOf(animationName).value), Iterations(frameNumber))
        && unchanged(old(Footprint()))
      ensures A.KindOf(animationName).None? ==>
        && sampled == old(currentAnimation)
        && (sampled.Some? ==>
              sampled.value.Snapshot() == A.AdvanceN(old(currentAnimation.value.Snapshot()), Iterations(frameNumber)))
    {
      StartAnimation(animationName);
      sampled := currentAnimation;
      RunFrames(frameNumber);
    }

    /**
     * The sampling loop of `getAnimationMatrix`: `frameNumber` passes, each
     * of which updates the active animation if there is one.
     */
    method RunFrames(frameNumber: int)
      requires Valid()
      modifies Footprint()
      ensures Valid()
      ensures currentAnimation.Some? ==>
        currentAnimation.value.Snapshot() == A.AdvanceN(old(currentAnimation.value.Snapshot()), Iterations(frameNumber))
    {
      ghost var start := if currentAnimation.Some? then currentAnimation.value.Snapshot() else A.Initial(A.Pacman);
      var i := 0;
      while i < frameNumber
        invariant 0 <= i <= Iterations(frameNumber)
        invariant currentAnimation.Some? ==> currentAnimation.value.Snapshot() == A.AdvanceN(start, i)
        invariant Valid()
      {
        if currentAnimation.Some? {
          A.Update(currentAnimation.value);
        }
        i := i + 1;
      }
    }

    /** `setHueShift(hue)`: the engine's shift, and the active animation's if there is one. */
    method SetHueShift(hue: int)
      requires Valid()
      modifies this, Footprint()
      ensures Valid()
      ensures hueShift == hue
      ensures currentAnimation == old(currentAnimation) && animationFrame == old(animationFrame)
      ensures lastFrameTime == old(lastFrameTime) && currentAnimationType == old(currentAnimationType)
      ensures hasCallback == old(hasCallback)
      ensures currentAnimation.Some? ==>
        && currentAnimation.value.HueShift() == hue
        && currentAnimation.value.Snapshot() == old(currentAnimation.value.Snapshot())
    {
      hueShift := hue;
      if currentAnimation.Some? {
        A.SetHueShift(currentAnimation.value, hue);
      }
    }

    /**
     * One call of `gameLoop(timestamp)`: when a frame is due, update and
     * draw the active animation, hand the frame to the callback with the
     * frame number before the increment, then record the time and count
     * the frame, whether or not an animation is active. `event` is the
     * callback invocation, if any.
     */
    method GameLoop(timestamp: int, imageData: seq<int>) returns (event: Option<FrameEvent>)
      requires Valid() && |imageData| == ImageDataLength
      modifies this, Footprint()
      ensures Valid()
      ensures currentAnimation == old(currentAnimation) && currentAnimationType == old(currentAnimationType)
      ensures hueShift == old(hueShift) && hasCallback == old(hasCallback)
      ensures FrameDue(old(lastFrameTime), timestamp) ==>
        && lastFrameTime == timestamp && animationFrame == old(animationFrame) + 1
        && (currentAnimation.Some? ==>
              currentAnimation.value.Snapshot() == A.Advance(old(currentAnimation.value.Snapshot())))
      ensures !FrameDue(old(lastFrameTime), timestamp) ==>
        && lastFrameTime == old(lastFrameTime) && animationFrame == old(animationFrame)
        && unchanged(old(Footprint()))
      ensures event.Some? <==> FrameDue(old(lastFrameTime), timestamp) && currentAnimation.Some? && hasCallback
      ensures event.Some? ==> event.value == FrameEvent(MatrixOf(imageData), currentAnimationType, old(animationFrame))
    {
      event := None;
      if FrameDue(lastFrameTime, timestamp) {
        if currentAnimation.Some? {
          A.Update(currentAnimation.value);
          // `draw()` paints the canvas and changes no field; `imageData` is what it leaves.
          if hasCallback {
            var matrix := GetPixelMatrix(imageData);
            event := Some(FrameEvent(matrix, currentAnimationType, animationFrame));
          }
        }
        lastFrameTime := timestamp;
        animationFrame := animationFrame + 1;
      }
    }

    /**
     * `setMatrixUpdateCallback(callback)`: the value is stored as given, so
     * `null` or `undefined` switches the callback off again. `callbackSet`
     * says whether the value passed is a function.
     */
    method SetMatrixUpdateCallback(callbackSet: bool)
      modifies this
      ensures hasCallback == callbackSet
      ensures currentAnimation == old(currentAnimation) && animationFrame == old(animationFrame)
      ensures lastFrameTime == old(lastFrameTime) && hueShift == old(hueShift)
      ensures currentAnimationType == old(currentAnimationType)
    {
      hasCallback := callbackSet;
    }
  }

  /** The global `getAnimationMatrix`: `null` when no engine exists, the engine's matrix otherwise. */
  method GetAnimationMatrix(engine: PixelAnimationEngine?, animationName: string, frameNumber: int, imageData: seq<int>)
    returns (result: Option<Matrix>)
    requires engine != null ==> engine.Valid()
    requires |imageData| == ImageDataLength
    modifies if engine != null then {engine} + engine.Footprint() else {}
    ensures result.None? <==> engine == null
    ensures result.Some? ==> result.value == MatrixOf(imageData)
    ensures engine != null ==> engine.Valid()
  {
    if engine == null {
      result := None;
    } else {
      var matrix, _ := engine.GetAnimationMatrix(animationName, frameNumber, imageData);
      result := Some(matrix);
    }
  }
}
