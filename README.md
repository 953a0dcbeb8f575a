# Particle pool engine and zero-gravity balloon state

A Dafny model of the particle system of a Wolfie2D game (Homework 5 of a
platformer course) and of one balloon AI state.

- **Particle pool engine** (`ParticleSystem`). A system owns a fixed array
  of particles. It also holds a run flag, a run timer, a source point, a
  colour, a particle mass and the counter `particlesToRender`.
  - `StartSystem` resets the pool, applies the optional mass and source
    point, and marks the system running.
  - `StopSystem` deactivates every in-use particle.
  - Each `Update` frame visits only the leading `particlesToRender` slots.
    In-use particles age, may expire, are accelerated by the system mass and
    are moved. Inactive particles are re-activated from the system's
    settings. The counter then grows by `particlesPerFrame`, clamped to the
    pool length.
- **Alpha-fade hook** (`HW5_ParticleSystem.setParticleAnimation`). The base
  hook gives a particle a random velocity and an empty `"active"` tween
  track. The override then replaces that track with one that fades alpha
  from 1 to 0 over the particle lifetime, with IN_OUT_QUAD easing.
- **Zero-gravity balloon state** (`ZeroGravity`).
  - On entry it zeroes vertical velocity and gravity.
  - On each update it sets the horizontal velocity to direction times speed.
    That value is doubled while the player is strictly closer than 320
    pixels horizontally. It then moves the balloon by velocity times the
    frame time.

Files:
- `geometry.dfy`: vectors, `Abs`, `Clamp`.
- `tweens.dfy`: tween tracks as data.
- `particle.dfy`: particle records, the hooks, and one frame as functions.
- `particle_system.dfy`: the `ParticleSystem` class over an `array<Particle>`.
- `particle_properties.dfy`: properties spanning a whole pool or several frames.
- `zero_gravity.dfy`: the balloon state.

Modelling choices:
- Particles are records in the pool array. A method writes a slot back after
  updating a copy of it.
- `Particle.ts` is not part of this model. Its operations are taken to be the
  obvious field updates:
  - `setParticleActive` sets `inUse`, `age := lifetime` and the position;
  - `setParticleInactive` clears `inUse`;
  - `decrementAge` subtracts from `age`;
  - `move` adds the delta to the position.
- The pool starts with `poolSize` empty slots, as `new Array(poolSize)`
  does. The flag `initialized` records whether `InitializePool` has filled
  them. `StopSystem` and `StartSystem` read every slot, so they require a
  filled pool or an empty one (`Readable`). `Valid` keeps a running system
  readable, so `Update`'s running branch never reads an empty slot.
- The overridable hook is the class constant `hook`, with value
  `DefaultAnimation` or `AlphaFadeAnimation`. `SetParticleAnimation`
  dispatches on it.
- Randomness, the clock and the player position are inputs:
  - `RandUtils.randVec`: `Update` takes `randomVelocities`, the velocity each
    slot gets if it is activated on that frame. `InRandomVelocityRange` names
    the range the base hook draws from.
  - The run timer: `Update` takes `timerStopped`, the value of `isStopped()`.
  - `BalloonState.update`: the inherited step is abstract. `Update` takes the
    velocity and direction it leaves as `superVelocity` and `superDirection`.
  - The player position is a field of the state, set from game events.
- Numbers are `real` (and `nat` for counts). Floating point is not modelled.
- One frame follows the code's order: decrement age, deactivate if age ≤ 0,
  add `particleMass * 10` to `vel.y`, move. This holds whether or not the
  particle just expired. Expiry is therefore seen on the same frame, and an
  expiring particle moves one last time.
- The acceleration uses the system's `particleMass`, not the particle's own
  `mass` field.
- Quantities accumulated over k frames are written `Times(k, x)`, that is
  x added up k times. `TimesIsProduct` proves this equals k·x. The rows
  below write k·x for it.

## Model

| member | source | states |
|---|---|---|
| `Particles.PooledParticle` | src/Wolfie2D/Rendering/Animations/ParticleSystem.ts:63-71 | a slot as the pool is filled is not in use, sits at the given source point with the given mass, and has no tween tracks |
| `ParticleSystems.ParticleSystem.constructor` | src/Wolfie2D/Rendering/Animations/ParticleSystem.ts:49-60 | a new system is not running, `particlesToRender == particlesPerFrame`, its pool has `poolSize` slots that are not yet filled (`!initialized`), and every parameter is stored |
| `ParticleSystems.ParticleSystem.InitializePool` | src/Wolfie2D/Rendering/Animations/ParticleSystem.ts:63-71 | afterwards the pool is filled (`initialized`) and every slot holds an inactive particle at the current source point with the current mass |
| `ParticleSystems.ParticleSystem.StartSystem` | src/Wolfie2D/Rendering/Animations/ParticleSystem.ts:79-97 | the system is running with `particlesToRender == particlesPerFrame`; the pool is the stopped pool, so nothing is in use; the timer holds `time`; mass and source point change only when supplied |
| `ParticleSystems.ParticleSystem.StopSystem` | src/Wolfie2D/Rendering/Animations/ParticleSystem.ts:99-106 | it needs a filled (or empty) pool, since it reads every slot; the system is not running and the pool is `Deactivated` of the old pool; colour, mass, source point and counter are untouched |
| `ParticleSystems.ParticleSystem.ChangeColor` | src/Wolfie2D/Rendering/Animations/ParticleSystem.ts:108-110 | only the system colour changes; the pool is not touched, so active particles keep their colour |
| `ParticleSystems.ParticleSystem.DefaultParticleAnimation` | src/Wolfie2D/Rendering/Animations/ParticleSystem.ts:118-125 | the straight-line updates yield `DefaultAnimated` of the particle |
| `Particles.DefaultAnimated` | src/Wolfie2D/Rendering/Animations/ParticleSystem.ts:118-125 | the particle takes the drawn velocity; its `"active"` track has delay 0, duration = lifetime and no effects; other tracks and the played set are unchanged; nothing else changes |
| `ParticleSystems.ParticleSystem.FadeParticleAnimation` | src/Homework5/HW5_ParticleSystem.ts:22-41 | the base hook then the second `add` yield `FadeAnimated` of the particle |
| `Particles.FadeAnimated` | src/Homework5/HW5_ParticleSystem.ts:22-41 | the velocity is still the base hook's draw; the `"active"` track in force has delay 0, duration = lifetime and exactly one effect, alpha from 1 to 0 with IN_OUT_QUAD; it differs from the base's track, so the later add wins; other tracks are unchanged |
| `ParticleSystems.ParticleSystem.SetParticleAnimation` | src/Wolfie2D/Rendering/Animations/ParticleSystem.ts:172-173 | the hook call dispatches to the base or the fade version according to the system's kind |
| `Particles.Advanced` | src/Wolfie2D/Rendering/Animations/ParticleSystem.ts:141-162 | an in-use particle's age drops by exactly `deltaT*1000`; it stays in use iff the new age is > 0; `vel.y` grows by system mass × 10 and `vel.x` is kept; it moves by the updated velocity × `deltaT`; mass, colour, alpha and tweens are kept |
| `Particles.Activated` | src/Wolfie2D/Rendering/Animations/ParticleSystem.ts:163-176 | an inactive particle comes into use with age = lifetime, position = source point, system colour, alpha 1, system mass and the drawn velocity, so it is neither accelerated nor moved; its `"active"` track is the hook's, its duration equals the new age, and it is played |
| `Particles.Frame` | src/Wolfie2D/Rendering/Animations/ParticleSystem.ts:137-177 | visiting slots 0..n-1 in order leaves the pool length unchanged; every slot ≥ n is untouched; every slot < n is its `Visited` image |
| `Particles.Deactivated` | src/Wolfie2D/Rendering/Animations/ParticleSystem.ts:101-105 | the stopped pool has the same length; no particle is in use; each particle differs from before only in its `inUse` flag |
| `Particles.NextToRender` | src/Wolfie2D/Rendering/Animations/ParticleSystem.ts:178-180 | the new counter is `min(old + perFrame, poolLength)`: it is never above the pool length, never below the old value, and never below one quota |
| `ParticleSystems.ParticleSystem.Update` | src/Wolfie2D/Rendering/Animations/ParticleSystem.ts:127-182 | when not running nothing changes; when the timer has stopped, it acts as `StopSystem` and leaves the counter unchanged; otherwise the pool becomes `Frame` of the old pool over the old counter and the counter becomes `NextToRender`; in all cases `particlesPerFrame <= particlesToRender <= pool length` stays true |
| `ParticleProperties.InUseCountZeroIff` | src/Wolfie2D/Rendering/Animations/ParticleSystem.ts:101-105 | the in-use count is zero exactly when no particle is in use |
| `ParticleProperties.StopIsTotal` | src/Wolfie2D/Rendering/Animations/ParticleSystem.ts:99-106 | after stopping, zero particles are in use, whatever the pool held before |
| `ParticleProperties.InUseCountOfPrefix` | src/Wolfie2D/Rendering/Animations/ParticleSystem.ts:137-138 | a pool whose first n slots, and only those, are in use has exactly n particles in use |
| `ParticleProperties.FirstFrameActivatesQuota` | src/Wolfie2D/Rendering/Animations/ParticleSystem.ts:137-176 | on a pool with nothing in use, as after a start, a frame over n slots brings exactly n particles into use, each with the full lifetime |
| `ParticleProperties.RenderCountAfterFrames` | src/Wolfie2D/Rendering/Animations/ParticleSystem.ts:178-180 | k running frames after a start, the counter is `min(perFrame × (k+1), poolLength)` |
| `ParticleProperties.RenderCountMonotone` | src/Wolfie2D/Rendering/Animations/ParticleSystem.ts:178-180 | over consecutive running frames the counter never decreases and never exceeds the pool length |
| `ParticleProperties.TimesIsProduct` | src/Wolfie2D/Rendering/Animations/ParticleSystem.ts:142-153 | what k frames add up to, one per-frame amount (ms of age, velocity gain) at a time, is exactly k times that amount |
| `ParticleProperties.AdvancedAge` | src/Wolfie2D/Rendering/Animations/ParticleSystem.ts:142 | after k advances, age = initial age − k·`deltaT`·1000 |
| `ParticleProperties.AgeNeverIncreases` | src/Wolfie2D/Rendering/Animations/ParticleSystem.ts:142 | with `deltaT >= 0`, a particle's age after k advances is at most its age after any j ≤ k advances |
| `ParticleProperties.AdvancedVelocity` | src/Wolfie2D/Rendering/Animations/ParticleSystem.ts:153 | after k advances, `vel.y` has grown by k · mass · 10 and `vel.x` is unchanged; the increase is not capped |
| `ParticleProperties.AdvancedPosition` | src/Wolfie2D/Rendering/Animations/ParticleSystem.ts:161 | after k advances, the particle has moved by the sum of the updated velocities × `deltaT` (`Drift`) |
| `ParticleProperties.AdvancedKeeps` | src/Wolfie2D/Rendering/Animations/ParticleSystem.ts:141-162 | advancing never changes mass, colour, alpha or tween tracks |
| `ParticleProperties.ActiveFramesAdvance` | src/Wolfie2D/Rendering/Animations/ParticleSystem.ts:141-163 | while k frames' worth of ms is below its age, an in-use slot stays in use and each frame only advances it (it is never re-activated) |
| `ParticleProperties.ActiveRun` | src/Wolfie2D/Rendering/Animations/ParticleSystem.ts:141-162 | a particle with enough age left over k frames stays in use; its age is down by exactly k·`deltaT`·1000; `vel.y` is up by k · mass · 10; it has moved by `Drift`; its other fields are kept |
| `ParticleProperties.DriftClosedForm` | src/Wolfie2D/Rendering/Animations/ParticleSystem.ts:153-161 | the k-frame displacement is k·`vel.x`·`deltaT` horizontally and (k·`vel.y` + g·k(k+1)/2)·`deltaT` vertically, which is quadratic in k |
| `ParticleProperties.ExpiresOnCrossingFrame` | src/Wolfie2D/Rendering/Animations/ParticleSystem.ts:142-161 | on the frame whose decrement takes the age to ≤ 0, the particle goes inactive on that same frame, yet is still accelerated and moved by its updated velocity |
| `ParticleProperties.HeavierFallsFaster` | src/Wolfie2D/Rendering/Animations/ParticleSystem.ts:153 | under a larger system mass, a particle's vertical velocity after k ≥ 1 frames is strictly larger |
| `ParticleProperties.FadeKeepsBaseVelocity` | src/Homework5/HW5_ParticleSystem.ts:23 | the fade override keeps the base hook's velocity, and so the base's velocity range |
| `ParticleProperties.FrameActivationsInRange` | src/Wolfie2D/Rendering/Animations/ParticleSystem.ts:163-176 | every slot a frame activates takes the velocity drawn for it, so draws in the random range give activated velocities in that range, under either hook |
| `ParticleProperties.FadeEndsWithLifetime` | src/Homework5/HW5_ParticleSystem.ts:26-28 | after a fade activation, the track in force is the fade track; k ≥ 1 frames later (before any re-activation) the particle is in use iff the elapsed ms are below the fade duration, so fade and life end together |
| `ZeroGravityState.ZeroGravityVelocityX` | src/Homework5/Enemies/ZeroGravity.ts:38-48 | the horizontal velocity is direction × speed, doubled iff the horizontal distance to the player is strictly below 320; the previous velocity plays no part |
| `ZeroGravityState.BoostIsStrict` | src/Homework5/Enemies/ZeroGravity.ts:44 | at a distance of exactly 320, on either side, the velocity is not doubled |
| `ZeroGravityState.BoostedIffClose` | src/Homework5/Enemies/ZeroGravity.ts:44-46 | a moving balloon goes at double cruising speed exactly when the player is within 320 |
| `ZeroGravityState.ZeroGravity.OnEnter` | src/Homework5/Enemies/ZeroGravity.ts:24-33 | the parent's `velocity.y` becomes 0 with `velocity.x` kept, the state's gravity becomes 0, and the owner's IDLE animation loops |
| `ZeroGravityState.ZeroGravity.Update` | src/Homework5/Enemies/ZeroGravity.ts:35-51 | after the inherited step, `velocity.x` is `ZeroGravityVelocityX` of the direction, speed and player/owner x, and does not depend on the old `velocity.x`; `velocity.y` is whatever the inherited step left; the owner moves by exactly the new velocity × `deltaT` |
| `ZeroGravityState.ZeroGravity.OnExit` | src/Homework5/Enemies/ZeroGravity.ts:55-58 | the owner's animation is stopped and the returned record is empty |
| `ZeroGravityState.GameNode.Move` | src/Homework5/Enemies/ZeroGravity.ts:50 | the node's position is translated by exactly the given delta |

## Left out

- Scene-graph plumbing of `initializePool` is not modelled: `scene.add.graphic`, `addPhysics`, `isCollidable`, `visible`. The pool is modelled only as N inactive particles. The particle's size (`particleSize`, passed at creation) is never changed afterwards and only affects rendering, so particles carry no size here. The initial age, colour, alpha and velocity that `PooledParticle` fills in are placeholders, since activation overwrites each of them.
- `ParticleSystemManager` registration is left out: it is a global registry with no behaviour here.
- `Timer` internals are left out. The timer is the `timerStopped` input, and `systemLifetime` records the duration it was armed with.
- `RandUtils.randVec` is not part of this model. Its draw is an input. The bound `[-50,50] × [-100,100]` is stated as `InRandomVelocityRange`. `FrameActivationsInRange` takes it as a hypothesis on `Update`'s `randomVelocities`.
- Tween evaluation is left out: easing curves, interpolation over time, and the auto-stop after `duration`. `EaseFunctions` is not part of this model. Tracks are data, and `play` only records the track's name as started.
- `AnimatedSprite` animations are recorded as a started/stopped value only.
- `BalloonState`'s constructor is not part of this model. The source keeps two references: `this.owner`, which is moved, and `this.parent.owner`, whose position gives the player distance. The model assumes they are the same node (`ZeroGravity.Valid`, and the constructor sets `owner := parent.owner`).
- `BalloonState.update` is not part of this model. Its effect is the `superVelocity` and `superDirection` inputs, so the model does not let it change the speed, the player position or the owner's position. Event handling that updates `playerPosition` is left out.
- `move` on a physics-enabled node is deferred to the physics engine in Wolfie2D. Here it is an immediate translation.
- `particle.color = this.color` shares a `Color` object, and `this.sourcePoint = startPoint` shares a `Vec2`. Colours and points are values here, so later mutation through a shared reference is not modelled. `changeColor` replaces the object, and values express that faithfully.
- `ParticleSystems.ParticleSystem.constructor`: the array of unfilled slots is given placeholder values that are never read. Calling `startSystem` or `stopSystem` on a non-empty pool before `initializePool` throws in the source. Here that use is excluded by `Readable`, and the throw itself is not represented.
- `ParticleSystems.ParticleSystem.constructor`: requires `maxParticlesPerFrame <= poolSize`. With a larger quota the first frame would read past the end of the pool and fail, and the model does not represent that failure.
- The commented-out `Rising` reference and the death-tween block are dead code and are not modelled.
