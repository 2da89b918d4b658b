/**
 * The ten animation variants as the engine sees them: the closed set of
 * names `startAnimation` recognises (public/animations.js:139-170), a
 * reference to one live instance of whichever class the name selects, and
 * the value-level view of that instance's state that `update` advances.
 */
module Animations {
  import opened Options
  import P = Pacman
  import SI = SpaceInvaders
  import ZH = ZeldaHeart
  import MF = MarioFireball
  import RW = Retrowave

  datatype Kind =
    | Pacman | SpaceInvaders | Zelda | Mario | NeonGrid
    | Sunset | SynthCar | Mountains | Cityscape | DigitalRain

  /** The name the `switch` of `startAnimation` matches for each variant. */
  function Name(k: Kind): string {
    match k
    case Pacman => "pacman"
    case SpaceInvaders => "spaceinvaders"
    case Zelda => "zelda"
    case Mario => "mario"
    case NeonGrid => "neongrid"
    case Sunset => "sunset"
    case SynthCar => "synthcar"
    case Mountains => "mountains"
    case Cityscape => "cityscape"
    case DigitalRain => "digitalrain"
  }

  /** The `switch` itself: `None` for a name no case matches. */
  function KindOf(name: string): (k: Option<Kind>)
    ensures k.Some? ==> Name(k.value) == name
  {
    if name == "pacman" then Some(Pacman)
    else if name == "spaceinvaders" then Some(SpaceInvaders)
    else if name == "zelda" then Some(Zelda)
    else if name == "mario" then Some(Mario)
    else if name == "neongrid" then Some(NeonGrid)
    else if name == "sunset" then Some(Sunset)
    else if name == "synthcar" then Some(SynthCar)
    else if name == "mountains" then Some(Mountains)
    else if name == "cityscape" then Some(Cityscape)
    else if name == "digitalrain" then Some(DigitalRain)
    else None
  }

  /** Every variant is selected by its own name, so the ten names are distinct. */
  lemma KindOfName(k: Kind)
    ensures KindOf(Name(k)) == Some(k)
  {
  }

  /** The value-level state of a variant instance, as far as this model follows it. */
  datatype Snapshot =
    | PacmanS(pacman: P.State)
    | InvadersS(invaders: SI.State)
    | MarioS(mario: MF.State)
    | GridS(grid: RW.GridState)
    | CarS(car: RW.CarState)
      /** Zelda, Sunset, Mountains, Cityscape and DigitalRain: only the frame counter. */
    | CounterS(kind: Kind, frameCount: nat)

  function KindOfSnapshot(s: Snapshot): Kind {
    match s
    case PacmanS(_) => Pacman
    case InvadersS(_) => SpaceInvaders
    case MarioS(_) => Mario
    case GridS(_) => NeonGrid
    case CarS(_) => SynthCar
    case CounterS(k, _) => k
  }

  function FrameCount(s: Snapshot): nat {
    match s
    case PacmanS(p) => p.frameCount
    case InvadersS(i) => i.frameCount
    case MarioS(m) => m.frameCount
    case GridS(g) => g.frameCount
    case CarS(c) => c.frameCount
    case CounterS(_, n) => n
  }

  /** The state each constructor leaves behind. */
  function Initial(k: Kind): (s: Snapshot)
    ensures KindOfSnapshot(s) == k && FrameCount(s) == 0
  {
    match k
    case Pacman => PacmanS(P.Initial())
    case SpaceInvaders => InvadersS(SI.Initial())
    case Mario => MarioS(MF.Initial())
    case NeonGrid => GridS(RW.GridInitial())
    case SynthCar => CarS(RW.CarInitial())
    case _ => CounterS(k, 0)
  }

  /** One `update()` of whichever variant `s` belongs to. */
  function Advance(s: Snapshot): (r: Snapshot)
    ensures KindOfSnapshot(r) == KindOfSnapshot(s)
    ensures FrameCount(r) == FrameCount(s) + 1
  {
    match s
    case PacmanS(p) => PacmanS(P.Step(p))
    case InvadersS(i) => InvadersS(SI.Step(i))
    case MarioS(m) => MarioS(MF.Step(m))
    case GridS(g) => GridS(RW.GridStep(g))
    case CarS(c) => CarS(RW.CarStep(c))
    case CounterS(k, n) => CounterS(k, n + 1)
  }

  /** `n` updates. */
  function AdvanceN(s: Snapshot, n: nat): Snapshot {
    if n == 0 then s else Advance(AdvanceN(s, n - 1))
  }

  /** n updates keep the variant and add n to its frame counter. */
  lemma {:induction false} AdvanceNCounts(s: Snapshot, n: nat)
    ensures KindOfSnapshot(AdvanceN(s, n)) == KindOfSnapshot(s)
    ensures FrameCount(AdvanceN(s, n)) == FrameCount(s) + n
  {
    if n > 0 {
      AdvanceNCounts(s, n - 1);
    }
  }

  /** The per-variant invariants, as a property of a snapshot. */
  predicate Inv(s: Snapshot) {
    match s
    case PacmanS(p) => P.Inv(p)
    case InvadersS(i) => SI.Inv(i)
    case MarioS(m) => MF.Inv(m)
    case GridS(g) => RW.GridInv(g)
    case CarS(c) => RW.CarInv(c)
    case CounterS(k, _) => IsCounterOnly(k)
  }

  lemma AdvanceInv(s: Snapshot)
    requires Inv(s)
    ensures Inv(Advance(s))
  {
    match s
    case PacmanS(p) => P.StepInv(p);
    case InvadersS(i) => SI.StepInv(i);
    case MarioS(m) => MF.StepInv(m);
    case GridS(g) => RW.GridStepInv(g);
    case CarS(c) => RW.CarStepInv(c);
    case CounterS(_, _) =>
  }

  /** Whatever name was started, every number of updates leaves a state that keeps its variant's invariant. */
  lemma {:induction false} ReachableInv(k: Kind, n: nat)
    ensures Inv(AdvanceN(Initial(k), n))
  {
    if n > 0 {
      ReachableInv(k, n - 1);
      AdvanceInv(AdvanceN(Initial(k), n - 1));
    }
  }

  /** The variants with only a frame counter in this model. */
  predicate IsCounterOnly(k: Kind) {
    k == Zelda || k == Sunset || k == Mountains || k == Cityscape || k == DigitalRain
  }

  /** n updates of a fresh instance of `k`, taken with that variant's own step function. */
  function InitialRun(k: Kind, n: nat): Snapshot {
    match k
    case Pacman => PacmanS(P.Steps(P.Initial(), n))
    case SpaceInvaders => InvadersS(SI.Steps(SI.Initial(), n))
    case Mario => MarioS(MF.Steps(MF.Initial(), n))
    case NeonGrid => GridS(RW.GridSteps(RW.GridInitial(), n))
    case SynthCar => CarS(RW.CarSteps(RW.CarInitial(), n))
    case _ => CounterS(k, n)
  }

  /**
   * n dispatched updates from a fresh instance are n updates of that
   * variant's own step function, so what each variant module proves about
   * its reachable states holds of the state `getAnimationMatrix` samples.
   */
  lemma {:induction false} AdvanceNFromInitial(k: Kind, n: nat)
    ensures AdvanceN(Initial(k), n) == InitialRun(k, n)
  {
    if n > 0 {
      AdvanceNFromInitial(k, n - 1);
    }
  }

  /**
   * The closed forms of the sampled positions: Pac-Man's and the
   * fireball's x, the grid offset, and the car and road offsets after n
   * updates of a fresh instance.
   */
  lemma SampledPositions(n: nat)
    ensures AdvanceN(Initial(Pacman), n).PacmanS?
      && AdvanceN(Initial(Pacman), n).pacman.halfX == P.StartHalfX + P.StepHalves * (n % 65)
    ensures AdvanceN(Initial(Mario), n).MarioS?
      && AdvanceN(Initial(Mario), n).mario.halfX == MF.StartHalfX + MF.StepHalves * (n % 59)
    ensures AdvanceN(Initial(NeonGrid), n) == GridS(RW.GridState(n, n % RW.GridPeriodHalves))
    ensures AdvanceN(Initial(SynthCar), n) == CarS(RW.CarState(n, RW.CarStartX + n % 101, 2 * (n % 4)))
  {
    AdvanceNFromInitial(Pacman, n);
    AdvanceNFromInitial(Mario, n);
    AdvanceNFromInitial(NeonGrid, n);
    AdvanceNFromInitial(SynthCar, n);
    P.ReachableX(n);
    MF.ReachableX(n);
    RW.GridReachable(n);
    RW.CarReachable(n);
  }

  /** A reference to the live instance of one variant class. */
  datatype Variant =
    | PacmanV(pacman: P.PacmanAnimation)
    | InvadersV(invaders: SI.SpaceInvadersAnimation)
    | ZeldaV(zelda: ZH.ZeldaHeartAnimation)
    | MarioV(mario: MF.MarioFireballAnimation)
    | GridV(grid: RW.NeonGridAnimation)
    | SunsetV(sunset: RW.RetroSunsetAnimation)
    | CarV(car: RW.SynthCarAnimation)
    | MountainsV(mountains: RW.GeometricMountainsAnimation)
    | CityscapeV(cityscape: RW.NeonCityscapeAnimation)
    | RainV(rain: RW.DigitalRainAnimation)
  {
    function Kind(): Kind {
      match this
      case PacmanV(_) => Pacman
      case InvadersV(_) => SpaceInvaders
      case ZeldaV(_) => Zelda
      case MarioV(_) => Mario
      case GridV(_) => NeonGrid
      case SunsetV(_) => Sunset
      case CarV(_) => SynthCar
      case MountainsV(_) => Mountains
      case CityscapeV(_) => Cityscape
      case RainV(_) => DigitalRain
    }

    /** The instance object itself, which holds `hueShift` and the `engine` back-reference. */
    function Obj(): object {
      match this
      case PacmanV(a) => a
      case InvadersV(a) => a
      case ZeldaV(a) => a
      case MarioV(a) => a
      case GridV(a) => a
      case SunsetV(a) => a
      case CarV(a) => a
      case MountainsV(a) => a
      case CityscapeV(a) => a
      case RainV(a) => a
    }

    /** The objects `update` writes: the instance and, for two variants, its array. */
    function Repr(): (r: set<object>)
      ensures Obj() in r
    {
      match this
      case PacmanV(a) => {a, a.dots}
      case InvadersV(a) => {a, a.invaders}
      case _ => {Obj()}
    }

    function HueShift(): int
      reads Obj()
    {
      match this
      case PacmanV(a) => a.hueShift
      case InvadersV(a) => a.hueShift
      case ZeldaV(a) => a.hueShift
      case MarioV(a) => a.hueShift
      case GridV(a) => a.hueShift
      case SunsetV(a) => a.hueShift
      case CarV(a) => a.hueShift
      case MountainsV(a) => a.hueShift
      case CityscapeV(a) => a.hueShift
      case RainV(a) => a.hueShift
    }

    function Attached(): bool
      reads Obj()
    {
      match this
      case PacmanV(a) => a.attached
      case InvadersV(a) => a.attached
      case ZeldaV(a) => a.attached
      case MarioV(a) => a.attached
      case GridV(a) => a.attached
      case SunsetV(a) => a.attached
      case CarV(a) => a.attached
      case MountainsV(a) => a.attached
      case CityscapeV(a) => a.attached
      case RainV(a) => a.attached
    }

    function Snapshot(): (s: Snapshot)
      reads Repr()
      ensures KindOfSnapshot(s) == Kind()
    {
      match this
      case PacmanV(a) => PacmanS(a.Current())
      case InvadersV(a) => InvadersS(a.Current())
      case ZeldaV(a) => CounterS(Zelda, a.frameCount)
      case MarioV(a) => MarioS(a.Current())
      case GridV(a) => GridS(a.Current())
      case SunsetV(a) => CounterS(Sunset, a.frameCount)
      case CarV(a) => CarS(a.Current())
      case MountainsV(a) => CounterS(Mountains, a.frameCount)
      case CityscapeV(a) => CounterS(Cityscape, a.frameCount)
      case RainV(a) => CounterS(DigitalRain, a.frameCount)
    }
  }

  /** `new XAnimation(this.ctx)` for the class the kind selects. */
  method NewVariant(k: Kind) returns (v: Variant)
    ensures fresh(v.Repr())
    ensures v.Kind() == k && v.Snapshot() == Initial(k)
    ensures v.HueShift() == 0 && !v.Attached()
  {
    match k
    case Pacman => var a := new P.PacmanAnimation(); v := PacmanV(a);
    case SpaceInvaders => var a := new SI.SpaceInvadersAnimation(); v := InvadersV(a);
    case Zelda => var a := new ZH.ZeldaHeartAnimation(); v := ZeldaV(a);
    case Mario => var a := new MF.MarioFireballAnimation(); v := MarioV(a);
    case NeonGrid => var a := new RW.NeonGridAnimation(); v := GridV(a);
    case Sunset => var a := new RW.RetroSunsetAnimation(); v := SunsetV(a);
    case SynthCar => var a := new RW.SynthCarAnimation(); v := CarV(a);
    case Mountains => var a := new RW.GeometricMountainsAnimation(); v := MountainsV(a);
    case Cityscape => var a := new RW.NeonCityscapeAnimation(); v := CityscapeV(a);
    case DigitalRain => var a := new RW.DigitalRainAnimation(); v := RainV(a);
  }

  /** `currentAnimation.update()`, dispatched on the instance's class. */
  method Update(v: Variant)
    modifies v.Repr()
    ensures v.Snapshot() == Advance(old(v.Snapshot()))
    ensures v.HueShift() == old(v.HueShift()) && v.Attached() == old(v.Attached())
  {
    match v
    case PacmanV(a) => a.Update();
    case InvadersV(a) => a.Update();
    case ZeldaV(a) => a.Update();
    case MarioV(a) => a.Update();
    case GridV(a) => a.Update();
    case SunsetV(a) => a.Update();
    case CarV(a) => a.Update();
    case MountainsV(a) => a.Update();
    case CityscapeV(a) => a.Update();
    case RainV(a) => a.Update();
  }

  /** `currentAnimation.hueShift = hue`. */
  method SetHueShift(v: Variant, hue: int)
    modifies v.Obj()
    ensures v.HueShift() == hue && v.Attached() == old(v.Attached())
    ensures v.Snapshot() == old(v.Snapshot())
  {
    match v
    case PacmanV(a) => a.hueShift := hue;
    case InvadersV(a) => a.hueShift := hue;
    case ZeldaV(a) => a.hueShift := hue;
    case MarioV(a) => a.hueShift := hue;
    case GridV(a) => a.hueShift := hue;
    case SunsetV(a) => a.hueShift := hue;
    case CarV(a) => a.hueShift := hue;
    case MountainsV(a) => a.hueShift := hue;
    case CityscapeV(a) => a.hueShift := hue;
    case RainV(a) => a.hueShift := hue;
  }

  /** `currentAnimation.engine = this`. */
  method Attach(v: Variant)
    modifies v.Obj()
    ensures v.Attached() && v.HueShift() == old(v.HueShift())
    ensures v.Snapshot() == old(v.Snapshot())
  {
    match v
    case PacmanV(a) => a.attached := true;
    case InvadersV(a) => a.attached := true;
    case ZeldaV(a) => a.attached := true;
    case MarioV(a) => a.attached := true;
    case GridV(a) => a.attached := true;
    case SunsetV(a) => a.attached := true;
    case CarV(a) => a.attached := true;
    case MountainsV(a) => a.attached := true;
    case CityscapeV(a) => a.attached := true;
    case RainV(a) => a.attached := true;
  }
}
