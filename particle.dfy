/**
 * Particles as records, the activation hook, and the specification of one
 * frame of the particle pool: what visiting a slot does, what a whole frame
 * does to the pool, what stopping does, and how the eligible slice grows.
 */
module Particles {
  import opened Geometry
  import opened Tweens

  datatype Color = Color(r: int, g: int, b: int)

  /** The system colour before any `changeColor`. */
  const RED: Color := Color(255, 0, 0)

  /** Name of the track every activation adds and plays. */
  const ACTIVE: string := "active"
  const ALPHA: string := "alpha"

  /** Gravity factor: each frame a particle's vertical velocity grows by mass times this. */
  const MASS_ACCELERATION: real := 10.0

  /** Frame deltas arrive in seconds, particle ages are kept in milliseconds. */
  const MS_PER_SECOND: real := 1000.0

  datatype Particle = Particle(
    inUse: bool,
    age: real,          // milliseconds of life left
    position: Vec2,
    vel: Vec2,
    mass: real,
    color: Color,
    alpha: real,
    tweens: TweenTable)

  /**
   * A slot as the pool is first filled: not in use, at `position`, with
   * `mass`. Every other field is overwritten by the first activation.
   */
  function PooledParticle(position: Vec2, mass: real): (p: Particle)
    ensures !p.inUse && p.position == position && p.mass == mass
    ensures p.tweens.tracks == map[] && p.tweens.playing == {}
  {
    Particle(false, 0.0, position, ZERO, mass, RED, 1.0, NO_TWEENS)
  }

  // The particle's own operations. Their bodies are the plain field updates
  // their names describe.

  function SetParticleActive(p: Particle, lifetime: real, position: Vec2): Particle {
    p.(inUse := true, age := lifetime, position := position)
  }

  function SetParticleInactive(p: Particle): Particle {
    p.(inUse := false)
  }

  function DecrementAge(p: Particle, ms: real): Particle {
    p.(age := p.age - ms)
  }

  function Move(p: Particle, delta: Vec2): Particle {
    p.(position := p.position.Plus(delta))
  }

  /** Which `setParticleAnimation` a system runs: the base one or the alpha-fade override. */
  datatype AnimationHook = DefaultAnimation | AlphaFadeAnimation

  /** The range `RandUtils.randVec(-50, 50, -100, 100)` draws the default velocity from. */
  predicate InRandomVelocityRange(v: Vec2) {
    -50.0 <= v.x <= 50.0 && -100.0 <= v.y <= 100.0
  }

  /** The `"active"` track the base hook adds: it lasts `lifetime` and animates nothing. */
  function ActiveTrack(lifetime: real): TweenData {
    TweenData(0.0, lifetime, [])
  }

  /** The `"active"` track of the alpha-fade override: alpha from 1 to 0 over `lifetime`. */
  function FadeTrack(lifetime: real): TweenData {
    TweenData(0.0, lifetime, [TweenEffect(ALPHA, 1.0, 0.0, InOutQuad)])
  }

  /**
   * The base hook: the particle takes the randomly drawn velocity `draw` and
   * gets an `"active"` track without effects.
   */
  function DefaultAnimated(p: Particle, lifetime: real, draw: Vec2): (q: Particle)
    ensures q.vel == draw
    ensures ACTIVE in q.tweens.tracks
    ensures q.tweens.tracks[ACTIVE].startDelay == 0.0 && q.tweens.tracks[ACTIVE].duration == lifetime
    ensures q.tweens.tracks[ACTIVE].effects == []
    ensures q.tweens.tracks.Keys == p.tweens.tracks.Keys + {ACTIVE}
    ensures forall name :: name in p.tweens.tracks && name != ACTIVE ==> q.tweens.tracks[name] == p.tweens.tracks[name]
    ensures q.tweens.playing == p.tweens.playing
    ensures q == p.(vel := q.vel, tweens := q.tweens)
  {
    p.(vel := draw, tweens := p.tweens.Add(ACTIVE, ActiveTrack(lifetime)))
  }

  /**
   * The alpha-fade override: the base hook first, then a second `"active"`
   * track which, being added under the same name, replaces the base one.
   */
  function FadeAnimated(p: Particle, lifetime: real, draw: Vec2): (q: Particle)
    ensures q.vel == draw
    ensures ACTIVE in q.tweens.tracks
    ensures q.tweens.tracks[ACTIVE].startDelay == 0.0 && q.tweens.tracks[ACTIVE].duration == lifetime
    ensures |q.tweens.tracks[ACTIVE].effects| == 1
    ensures q.tweens.tracks[ACTIVE].effects[0].property == ALPHA
    ensures q.tweens.tracks[ACTIVE].effects[0].start == 1.0 && q.tweens.tracks[ACTIVE].effects[0].end == 0.0
    ensures q.tweens.tracks[ACTIVE].effects[0].ease == InOutQuad
    ensures q.tweens.tracks[ACTIVE] != DefaultAnimated(p, lifetime, draw).tweens.tracks[ACTIVE]
    ensures q.tweens.tracks.Keys == p.tweens.tracks.Keys + {ACTIVE}
    ensures forall name :: name in p.tweens.tracks && name != ACTIVE ==> q.tweens.tracks[name] == p.tweens.tracks[name]
    ensures q.tweens.playing == p.tweens.playing
    ensures q == p.(vel := q.vel, tweens := q.tweens)
  {
    var base := DefaultAnimated(p, lifetime, draw);
    base.(tweens := base.tweens.Add(ACTIVE, FadeTrack(lifetime)))
  }

  /** The hook a system of the given kind runs on each activation. */
  function Animated(hook: AnimationHook, p: Particle, lifetime: real, draw: Vec2): Particle {
    match hook
    case DefaultAnimation => DefaultAnimated(p, lifetime, draw)
    case AlphaFadeAnimation => FadeAnimated(p, lifetime, draw)
  }

  /** The system fields a frame reads: lifetime, source point, colour, mass and hook. */
  datatype Settings = Settings(lifetime: real, sourcePoint: Vec2, color: Color, mass: real, hook: AnimationHook)

  /**
   * An in-use slot on a running frame: its age drops by the frame time in ms,
   * it is set inactive when the age reaches zero, and in either case its
   * vertical velocity grows by the SYSTEM mass times 10 and it moves by the
   * updated velocity times the frame time.
   */
  function Advanced(p: Particle, deltaT: real, systemMass: real): (q: Particle)
    ensures q.age == p.age - deltaT * MS_PER_SECOND
    ensures q.inUse <==> p.inUse && q.age > 0.0
    ensures q.vel.x == p.vel.x && q.vel.y == p.vel.y + systemMass * MASS_ACCELERATION
    ensures q.position == p.position.Plus(q.vel.Scaled(deltaT))
    ensures q.mass == p.mass && q.color == p.color && q.alpha == p.alpha && q.tweens == p.tweens
  {
    var aged := DecrementAge(p, deltaT * MS_PER_SECOND);
    var checked := if aged.age <= 0.0 then SetParticleInactive(aged) else aged;
    var accelerated := checked.(vel := checked.vel.(y := checked.vel.y + systemMass * MASS_ACCELERATION));
    Move(accelerated, accelerated.vel.Scaled(deltaT))
  }

  /**
   * An inactive slot on a running frame: it comes into use with the system's
   * lifetime, source point, colour and mass and alpha 1, the hook gives it
   * its velocity and `"active"` track, and that track is played. It is
   * neither accelerated nor moved on this frame.
   */
  function Activated(p: Particle, s: Settings, draw: Vec2): (q: Particle)
    ensures q.inUse && q.age == s.lifetime && q.position == s.sourcePoint
    ensures q.color == s.color && q.alpha == 1.0 && q.mass == s.mass
    ensures q.vel == draw
    ensures ACTIVE in q.tweens.tracks && ACTIVE in q.tweens.playing
    ensures q.tweens.tracks[ACTIVE] == (if s.hook == AlphaFadeAnimation then FadeTrack(s.lifetime) else ActiveTrack(s.lifetime))
    ensures q.tweens.tracks[ACTIVE].duration == q.age
    ensures q.tweens.playing == p.tweens.playing + {ACTIVE}
    ensures q.tweens.tracks == p.tweens.tracks[ACTIVE := q.tweens.tracks[ACTIVE]]
  {
    var live := SetParticleActive(p, s.lifetime, s.sourcePoint);
    var painted := live.(color := s.color, alpha := 1.0, mass := s.mass);
    var animated := Animated(s.hook, painted, s.lifetime, draw);
    animated.(tweens := animated.tweens.Play(ACTIVE))
  }

  /** One visited slot: in-use slots advance, the others are (re)activated. */
  function Visited(p: Particle, s: Settings, deltaT: real, draw: Vec2): Particle {
    if p.inUse then Advanced(p, deltaT, s.mass) else Activated(p, s, draw)
  }

  /**
   * The pool after a running frame has visited slots 0 .. n-1 in order;
   * `draws[i]` is the random velocity slot i gets if it is activated.
   */
  function Frame(pool: seq<Particle>, n: nat, s: Settings, deltaT: real, draws: seq<Vec2>): (r: seq<Particle>)
    requires n <= |pool| && |draws| == |pool|
    ensures |r| == |pool|
    ensures forall i :: n <= i < |pool| ==> r[i] == pool[i]
    ensures forall i :: 0 <= i < n ==> r[i] == Visited(pool[i], s, deltaT, draws[i])
    decreases n
  {
    if n == 0 then pool
    else
      var prev := Frame(pool, n - 1, s, deltaT, draws);
      prev[n - 1 := Visited(prev[n - 1], s, deltaT, draws[n - 1])]
  }

  /** The pool after `stopSystem`: every in-use particle set inactive, slot by slot. */
  function Deactivated(pool: seq<Particle>): (r: seq<Particle>)
    ensures |r| == |pool|
    ensures forall i :: 0 <= i < |r| ==> !r[i].inUse
    ensures forall i :: 0 <= i < |r| ==> r[i] == pool[i].(inUse := false)
  {
    if |pool| == 0 then []
    else
      var last := pool[|pool| - 1];
      Deactivated(pool[..|pool| - 1]) + [if last.inUse then SetParticleInactive(last) else last]
  }

  /** How many particles of the pool are in use. */
  function InUseCount(pool: seq<Particle>): (c: nat)
    ensures c <= |pool|
  {
    if |pool| == 0 then 0
    else InUseCount(pool[..|pool| - 1]) + (if pool[|pool| - 1].inUse then 1 else 0)
  }

  /**
   * The eligible slice after a running frame: grown by the per-frame quota
   * and clamped to the pool length.
   */
  function NextToRender(n: nat, perFrame: nat, poolLength: nat): (r: nat)
    ensures r == if n + perFrame <= poolLength then n + perFrame else poolLength
    ensures r <= poolLength
    ensures n <= poolLength ==> n <= r
    ensures perFrame <= poolLength ==> perFrame <= r
  {
    Clamp(n + perFrame, 0, poolLength)
  }
}
