/**
 * The particle pool engine: a fixed pool of particle records, a run/stop
 * state, and the counter of how many leading slots a frame visits.
 */
module ParticleSystems {
  import opened Geometry
  import opened Tweens
  import opened Particles

  datatype Option<T> = None | Some(value: T)

  class ParticleSystem {
    /** Pool for all particles; its length never changes. */
    const particlePool: array<Particle>
    /** Lifetime in ms every particle starts with. */
    const lifetime: real
    const particleSize: Vec2
    /** Particles the visited slice grows by each frame. */
    const particlesPerFrame: nat
    /** Which `setParticleAnimation` this system runs. */
    const hook: AnimationHook

    var sourcePoint: Vec2
    /** Duration the run timer was last armed with; whether it has run out is an input of `Update`. */
    var systemLifetime: real
    var systemRunning: bool
    var color: Color
    /** Number of leading slots visited on the next frame. */
    var particlesToRender: nat
    var particleMass: real
    /**
     * Whether `initializePool` has filled the slots. Until then the pool's
     * slots are empty, and anything that reads a particle out of one fails;
     * the slot values present before that are never read.
     */
    var initialized: bool

    /** The pool can be read: it has been filled, or it has no slots at all. */
    predicate Readable()
      reads this
    {
      initialized || particlePool.Length == 0
    }

    /**
     * The visited slice is never shorter than one quota and never longer than
     * the pool, and only a readable pool is ever running.
     */
    ghost predicate Valid()
      reads this
    {
      && particlesPerFrame <= particlesToRender <= particlePool.Length
      && (systemRunning ==> Readable())
    }

    function CurrentSettings(): (s: Settings)
      reads this
      ensures s.lifetime == lifetime && s.sourcePoint == sourcePoint && s.color == color
      ensures s.mass == particleMass && s.hook == hook
    {
      Settings(lifetime, sourcePoint, color, particleMass, hook)
    }

    /**
     * A stopped system whose pool has `poolSize` slots, not yet filled. A
     * quota larger than the pool would make the first frame index past the
     * pool's end, so it is refused.
     */
    constructor (poolSize: nat, sourcePoint: Vec2, lifetime: real, size: real, mass: real,
                 maxParticlesPerFrame: nat, hook: AnimationHook)
      requires maxParticlesPerFrame <= poolSize
      ensures Valid() && fresh(particlePool)
      ensures particlePool.Length == poolSize && !initialized
      ensures !systemRunning
      ensures particlesPerFrame == maxParticlesPerFrame && particlesToRender == particlesPerFrame
      ensures this.sourcePoint == sourcePoint && this.lifetime == lifetime && particleMass == mass
      ensures particleSize == Vec2(size, size) && color == RED && this.hook == hook
    {
      // Placeholder slot values: nothing reads them before `InitializePool`.
      var blank := PooledParticle(sourcePoint, mass);
      particlePool := new Particle[poolSize](_ => blank);
      initialized := false;
      this.sourcePoint := sourcePoint;
      this.lifetime := lifetime;
      particleSize := Vec2(size, size);
      systemRunning := false;
      particlesPerFrame := maxParticlesPerFrame;
      particlesToRender := maxParticlesPerFrame;
      particleMass := mass;
      color := RED;
      this.hook := hook;
      systemLifetime := 0.0;
    }

    /** Fills every slot with a fresh inactive particle at the source point with the current mass. */
    method InitializePool()
      requires Valid()
      modifies particlePool, this`initialized
      ensures Valid() && initialized
      ensures forall i :: 0 <= i < particlePool.Length ==> particlePool[i] == PooledParticle(sourcePoint, particleMass)
    {
      for i := 0 to particlePool.Length
        invariant forall k :: 0 <= k < i ==> particlePool[k] == PooledParticle(sourcePoint, particleMass)
      {
        particlePool[i] := PooledParticle(sourcePoint, particleMass);
      }
      initialized := true;
    }

    /**
     * Resets through `StopSystem`, arms the run timer with `time`, applies
     * the optional mass and source point, and starts with one quota visible.
     */
    method StartSystem(time: real, mass: Option<real>, startPoint: Option<Vec2>)
      requires Valid() && Readable()
      modifies this`systemRunning, this`systemLifetime, this`particleMass, this`sourcePoint,
               this`particlesToRender, particlePool
      ensures Valid() && systemRunning && particlesToRender == particlesPerFrame
      ensures particlePool[..] == Deactivated(old(particlePool[..]))
      ensures forall i :: 0 <= i < particlePool.Length ==> !particlePool[i].inUse
      ensures systemLifetime == time
      ensures particleMass == if mass.Some? then mass.value else old(particleMass)
      ensures sourcePoint == if startPoint.Some? then startPoint.value else old(sourcePoint)
    {
      StopSystem();
      systemLifetime := time;
      if mass.Some? {
        particleMass := mass.value;
      }
      if startPoint.Some? {
        sourcePoint := startPoint.value;
      }
      systemRunning := true;
      particlesToRender := particlesPerFrame;
    }

    /**
     * Clears the running flag and sets every in-use particle inactive. It
     * reads every slot, so the pool must have been filled.
     */
    method StopSystem()
      requires Valid() && Readable()
      modifies this`systemRunning, particlePool
      ensures Valid() && !systemRunning
      ensures particlePool[..] == Deactivated(old(particlePool[..]))
    {
      systemRunning := false;
      for i := 0 to particlePool.Length
        invariant !systemRunning
        invariant forall k :: 0 <= k < i ==> particlePool[k] == old(particlePool[k]).(inUse := false)
        invariant forall k :: i <= k < particlePool.Length ==> particlePool[k] == old(particlePool[k])
      {
        if particlePool[i].inUse {
          particlePool[i] := SetParticleInactive(particlePool[i]);
        }
      }
      assert particlePool[..] == Deactivated(old(particlePool[..]));
    }

    /** Changes the colour later activations take; particles already active keep theirs. */
    method ChangeColor(c: Color)
      requires Valid()
      modifies this`color
      ensures Valid() && color == c
    {
      color := c;
    }

    /** The base hook: random velocity `draw` and an `"active"` track without effects. */
    method DefaultParticleAnimation(particle: Particle, draw: Vec2) returns (animated: Particle)
      ensures animated == DefaultAnimated(particle, lifetime, draw)
    {
      animated := particle.(vel := draw);
      animated := animated.(tweens := animated.tweens.Add(ACTIVE, ActiveTrack(lifetime)));
    }

    /** The alpha-fade override: the base hook, then the fading `"active"` track. */
    method FadeParticleAnimation(particle: Particle, draw: Vec2) returns (animated: Particle)
      ensures animated == FadeAnimated(particle, lifetime, draw)
    {
      animated := DefaultParticleAnimation(particle, draw);
      animated := animated.(tweens := animated.tweens.Add(ACTIVE, FadeTrack(lifetime)));
    }

    /** `setParticleAnimation` as this system's kind overrides it. */
    method SetParticleAnimation(particle: Particle, draw: Vec2) returns (animated: Particle)
      ensures animated == Animated(hook, particle, lifetime, draw)
    {
      match hook {
        case DefaultAnimation =>
          animated := DefaultParticleAnimation(particle, draw);
        case AlphaFadeAnimation =>
          animated := FadeParticleAnimation(particle, draw);
      }
    }

    /**
     * One frame of `deltaT` seconds. `timerStopped` is the run timer's
     * `isStopped()`; `randomVelocities[i]` is what `RandUtils.randVec` yields
     * if slot i is activated on this frame.
     */
    method Update(deltaT: real, timerStopped: bool, randomVelocities: seq<Vec2>)
      requires Valid() && |randomVelocities| == particlePool.Length
      modifies this`systemRunning, this`particlesToRender, particlePool
      ensures Valid()
      ensures !old(systemRunning) ==>
        !systemRunning && particlesToRender == old(particlesToRender) && particlePool[..] == old(particlePool[..])
      ensures old(systemRunning) && timerStopped ==>
        !systemRunning && particlesToRender == old(particlesToRender)
        && particlePool[..] == Deactivated(old(particlePool[..]))
      ensures old(systemRunning) && !timerStopped ==>
        systemRunning
        && particlePool[..] == Frame(old(particlePool[..]), old(particlesToRender), CurrentSettings(), deltaT, randomVelocities)
        && particlesToRender == NextToRender(old(particlesToRender), particlesPerFrame, particlePool.Length)
    {
      if !systemRunning {
        return;
      }
      if timerStopped {
        StopSystem();
      } else {
        ghost var before := particlePool[..];
        var i := 0;
        while i < particlesToRender
          invariant systemRunning && particlesToRender == old(particlesToRender) && Valid()
          invariant 0 <= i <= particlesToRender
          invariant particlePool[..] == Frame(before, i, CurrentSettings(), deltaT, randomVelocities)
        {
          var particle := particlePool[i];
          if particle.inUse {
            particle := DecrementAge(particle, deltaT * MS_PER_SECOND);
            if particle.age <= 0.0 {
              particle := SetParticleInactive(particle);
            }
            particle := particle.(vel := particle.vel.(y := particle.vel.y + particleMass * MASS_ACCELERATION));
            particle := Move(particle, particle.vel.Scaled(deltaT));
          } else {
            particle := SetParticleActive(particle, lifetime, sourcePoint);
            particle := particle.(color := color, alpha := 1.0, mass := particleMass);
            particle := SetParticleAnimation(particle, randomVelocities[i]);
            particle := particle.(tweens := particle.tweens.Play(ACTIVE));
          }
          particlePool[i] := particle;
          i := i + 1;
        }
        particlesToRender := Clamp(particlesToRender + particlesPerFrame, 0, particlePool.Length);
      }
    }
  }
}
