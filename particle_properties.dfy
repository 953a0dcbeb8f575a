/**
 * Properties of the pool that span a whole pool or several frames: stop is
 * total, the first frame after a start activates exactly one quota, the
 * eligible slice grows by the quota until it covers the pool, and a slot's
 * age, fall and fade over consecutive frames.
 */
module ParticleProperties {
  import opened Geometry
  import opened Tweens
  import opened Particles

  /** No particle is in use exactly when the in-use count is zero. */
  lemma {:induction false} InUseCountZeroIff(pool: seq<Particle>)
    ensures InUseCount(pool) == 0 <==> forall i :: 0 <= i < |pool| ==> !pool[i].inUse
  {
    if |pool| > 0 {
      var front := pool[..|pool| - 1];
      InUseCountZeroIff(front);
      assert forall i :: 0 <= i < |front| ==> front[i] == pool[i];
    }
  }

  /** Stopping leaves no particle in use, whatever was in use before. */
  lemma {:induction false} StopIsTotal(pool: seq<Particle>)
    ensures InUseCount(Deactivated(pool)) == 0
  {
    InUseCountZeroIff(Deactivated(pool));
  }

  /** A pool whose first n slots, and only those, are in use has n particles in use. */
  lemma {:induction false} InUseCountOfPrefix(pool: seq<Particle>, n: nat)
    requires n <= |pool|
    requires forall i :: 0 <= i < n ==> pool[i].inUse
    requires forall i :: n <= i < |pool| ==> !pool[i].inUse
    ensures InUseCount(pool) == n
  {
    if |pool| > 0 {
      var front := pool[..|pool| - 1];
      assert forall i :: 0 <= i < |front| ==> front[i] == pool[i];
      if n == |pool| {
        InUseCountOfPrefix(front, n - 1);
      } else {
        InUseCountOfPrefix(front, n);
      }
    }
  }

  /**
   * The first frame after a start, with a pool where nothing is in use,
   * brings exactly the first n slots into use, each with the full lifetime.
   */
  lemma {:induction false} FirstFrameActivatesQuota(pool: seq<Particle>, n: nat, s: Settings, deltaT: real, draws: seq<Vec2>)
    requires n <= |pool| && |draws| == |pool|
    requires forall i :: 0 <= i < |pool| ==> !pool[i].inUse
    ensures InUseCount(Frame(pool, n, s, deltaT, draws)) == n
    ensures forall i :: 0 <= i < n ==> Frame(pool, n, s, deltaT, draws)[i].age == s.lifetime
  {
    InUseCountOfPrefix(Frame(pool, n, s, deltaT, draws), n);
  }

  /** The eligible slice after k running frames that follow a start. */
  function RenderCountAfter(perFrame: nat, poolLength: nat, k: nat): nat {
    if k == 0 then perFrame
    else NextToRender(RenderCountAfter(perFrame, poolLength, k - 1), perFrame, poolLength)
  }

  /** After k running frames the slice covers min(quota * (k + 1), pool length) slots. */
  lemma {:induction false} RenderCountAfterFrames(perFrame: nat, poolLength: nat, k: nat)
    requires perFrame <= poolLength
    ensures RenderCountAfter(perFrame, poolLength, k)
            == if perFrame * (k + 1) <= poolLength then perFrame * (k + 1) else poolLength
  {
    if k > 0 {
      RenderCountAfterFrames(perFrame, poolLength, k - 1);
      assert perFrame * (k + 1) == perFrame * k + perFrame;
    }
  }

  /** The slice never shrinks from one running frame to the next and never exceeds the pool. */
  lemma {:induction false} RenderCountMonotone(perFrame: nat, poolLength: nat, j: nat, k: nat)
    requires perFrame <= poolLength && j <= k
    ensures RenderCountAfter(perFrame, poolLength, j) <= RenderCountAfter(perFrame, poolLength, k) <= poolLength
  {
    if j < k {
      RenderCountMonotone(perFrame, poolLength, j, k - 1);
    } else if k > 0 {
      RenderCountMonotone(perFrame, poolLength, k - 1, k - 1);
    }
  }

  /** One slot over k consecutive running frames with the same settings, frame time and draw. */
  function VisitedFrames(p: Particle, s: Settings, deltaT: real, draw: Vec2, k: nat): Particle {
    if k == 0 then p else Visited(VisitedFrames(p, s, deltaT, draw, k - 1), s, deltaT, draw)
  }

  /** x added up k times: what k frames each contributing x amount to. */
  function Times(k: nat, x: real): real {
    if k == 0 then 0.0 else Times(k - 1, x) + x
  }

  /** k frames of x each amount to k * x. */
  lemma {:induction false} TimesIsProduct(k: nat, x: real)
    ensures Times(k, x) == (k as real) * x
  {
    if k > 0 {
      TimesIsProduct(k - 1, x);
      assert (k as real) * x == ((k - 1) as real) * x + x;
    }
  }

  /** Adding up a non-negative amount never decreases the total. */
  lemma {:induction false} TimesMonotone(j: nat, k: nat, x: real)
    requires j <= k && x >= 0.0
    ensures Times(j, x) <= Times(k, x)
  {
    if j < k {
      TimesMonotone(j, k - 1, x);
    }
  }

  /** Over k >= 1 frames the larger per-frame amount gives the strictly larger total. */
  lemma {:induction false} TimesStrict(k: nat, x: real, y: real)
    requires k >= 1 && x < y
    ensures Times(k, x) < Times(k, y)
  {
    if k > 1 {
      TimesStrict(k - 1, x, y);
    }
  }

  /** An in-use particle's state after k frame advances, as long as nothing reactivates it. */
  function AdvancedFrames(p: Particle, deltaT: real, systemMass: real, k: nat): Particle {
    if k == 0 then p else Advanced(AdvancedFrames(p, deltaT, systemMass, k - 1), deltaT, systemMass)
  }

  /** After k advances the age is down by exactly k frames' worth of milliseconds. */
  lemma {:induction false} AdvancedAge(p: Particle, deltaT: real, systemMass: real, k: nat)
    ensures AdvancedFrames(p, deltaT, systemMass, k).age == p.age - Times(k, deltaT * MS_PER_SECOND)
  {
    if k > 0 {
      AdvancedAge(p, deltaT, systemMass, k - 1);
    }
  }

  /** With a non-negative frame time, a particle's age never goes up from one frame to a later one. */
  lemma {:induction false} AgeNeverIncreases(p: Particle, deltaT: real, systemMass: real, j: nat, k: nat)
    requires j <= k && deltaT >= 0.0
    ensures AdvancedFrames(p, deltaT, systemMass, k).age <= AdvancedFrames(p, deltaT, systemMass, j).age
  {
    AdvancedAge(p, deltaT, systemMass, j);
    AdvancedAge(p, deltaT, systemMass, k);
    TimesMonotone(j, k, deltaT * MS_PER_SECOND);
  }

  /** After k advances the vertical velocity is up by k times the system mass times 10. */
  lemma {:induction false} AdvancedVelocity(p: Particle, deltaT: real, systemMass: real, k: nat)
    ensures AdvancedFrames(p, deltaT, systemMass, k).vel
            == Vec2(p.vel.x, p.vel.y + Times(k, systemMass * MASS_ACCELERATION))
  {
    if k > 0 {
      AdvancedVelocity(p, deltaT, systemMass, k - 1);
    }
  }

  /** Total displacement over k frames of a particle starting with velocity v0 and gaining g per frame. */
  function Drift(v0: Vec2, g: real, deltaT: real, k: nat): Vec2 {
    if k == 0 then ZERO
    else Drift(v0, g, deltaT, k - 1).Plus(Vec2(v0.x, v0.y + Times(k, g)).Scaled(deltaT))
  }

  /** After k advances the particle has moved by the updated velocity of every one of those frames. */
  lemma {:induction false} AdvancedPosition(p: Particle, deltaT: real, systemMass: real, k: nat)
    ensures AdvancedFrames(p, deltaT, systemMass, k).position
            == p.position.Plus(Drift(p.vel, systemMass * MASS_ACCELERATION, deltaT, k))
  {
    if k > 0 {
      AdvancedPosition(p, deltaT, systemMass, k - 1);
      AdvancedVelocity(p, deltaT, systemMass, k);
    }
  }

  /** Advancing never touches mass, colour, alpha or tweens. */
  lemma {:induction false} AdvancedKeeps(p: Particle, deltaT: real, systemMass: real, k: nat)
    ensures var q := AdvancedFrames(p, deltaT, systemMass, k);
      q.mass == p.mass && q.color == p.color && q.alpha == p.alpha && q.tweens == p.tweens
  {
    if k > 0 {
      AdvancedKeeps(p, deltaT, systemMass, k - 1);
    }
  }

  /**
   * While k frames' worth of milliseconds is less than its age, an in-use
   * particle stays in use and each frame only advances it: it is never
   * reactivated in between.
   */
  lemma {:induction false} ActiveFramesAdvance(p: Particle, s: Settings, deltaT: real, draw: Vec2, k: nat)
    requires p.inUse && deltaT >= 0.0
    requires Times(k, deltaT * MS_PER_SECOND) < p.age
    ensures VisitedFrames(p, s, deltaT, draw, k) == AdvancedFrames(p, deltaT, s.mass, k)
    ensures AdvancedFrames(p, deltaT, s.mass, k).inUse
  {
    if k > 0 {
      ActiveFramesAdvance(p, s, deltaT, draw, k - 1);
      AdvancedAge(p, deltaT, s.mass, k);
    }
  }

  /**
   * While k frames' worth of milliseconds is less than its age, an in-use
   * particle stays in use, its age drops by exactly that much, its vertical
   * velocity grows by k times the system mass times 10, and it is moved by
   * the updated velocity on every frame.
   */
  lemma {:induction false} ActiveRun(p: Particle, s: Settings, deltaT: real, draw: Vec2, k: nat)
    requires p.inUse && deltaT >= 0.0
    requires Times(k, deltaT * MS_PER_SECOND) < p.age
    ensures var q := VisitedFrames(p, s, deltaT, draw, k);
      && q.inUse
      && q.age == p.age - Times(k, deltaT * MS_PER_SECOND)
      && q.vel == Vec2(p.vel.x, p.vel.y + Times(k, s.mass * MASS_ACCELERATION))
      && q.position == p.position.Plus(Drift(p.vel, s.mass * MASS_ACCELERATION, deltaT, k))
      && q.mass == p.mass && q.color == p.color && q.alpha == p.alpha && q.tweens == p.tweens
  {
    ActiveFramesAdvance(p, s, deltaT, draw, k);
    AdvancedAge(p, deltaT, s.mass, k);
    AdvancedVelocity(p, deltaT, s.mass, k);
    AdvancedPosition(p, deltaT, s.mass, k);
    AdvancedKeeps(p, deltaT, s.mass, k);
  }

  /** The displacement in closed form: linear in k horizontally, quadratic in k vertically. */
  lemma {:induction false} DriftClosedForm(v0: Vec2, g: real, deltaT: real, k: nat)
    ensures Drift(v0, g, deltaT, k)
            == Vec2((k as real) * (v0.x * deltaT),
                    ((k as real) * v0.y + g * ((k as real) * ((k as real) + 1.0) / 2.0)) * deltaT)
  {
    if k > 0 {
      DriftClosedForm(v0, g, deltaT, k - 1);
      TimesIsProduct(k, g);
      assert (k as real) * (v0.x * deltaT) == ((k - 1) as real) * (v0.x * deltaT) + v0.x * deltaT;
      TriangleStep((k - 1) as real, k as real, g, v0.y, deltaT);
    }
  }

  /** The vertical step of DriftClosedForm, over plain reals. */
  lemma TriangleStep(kr: real, kk: real, g: real, v: real, deltaT: real)
    requires kk == kr + 1.0
    ensures (kr * v + g * (kr * (kr + 1.0) / 2.0)) * deltaT + (v + kk * g) * deltaT
            == (kk * v + g * (kk * (kk + 1.0) / 2.0)) * deltaT
  {
    assert kr * v + g * (kr * (kr + 1.0) / 2.0) + (v + kk * g)
           == kk * v + g * (kk * (kk + 1.0) / 2.0);
  }

  /**
   * On the frame whose decrement takes the age to zero or below the particle
   * goes inactive on that same frame, and it is still accelerated and moved
   * once more.
   */
  lemma {:induction false} ExpiresOnCrossingFrame(p: Particle, s: Settings, deltaT: real, draw: Vec2, k: nat)
    requires p.inUse && deltaT >= 0.0
    requires Times(k, deltaT * MS_PER_SECOND) < p.age <= Times(k + 1, deltaT * MS_PER_SECOND)
    ensures var before := VisitedFrames(p, s, deltaT, draw, k);
            var q := VisitedFrames(p, s, deltaT, draw, k + 1);
      && !q.inUse
      && q.age == p.age - Times(k + 1, deltaT * MS_PER_SECOND)
      && q.vel.y == p.vel.y + Times(k + 1, s.mass * MASS_ACCELERATION)
      && q.position == before.position.Plus(q.vel.Scaled(deltaT))
  {
    ActiveFramesAdvance(p, s, deltaT, draw, k);
    AdvancedAge(p, deltaT, s.mass, k + 1);
    AdvancedVelocity(p, deltaT, s.mass, k + 1);
    var before := VisitedFrames(p, s, deltaT, draw, k);
    assert VisitedFrames(p, s, deltaT, draw, k + 1) == Advanced(before, deltaT, s.mass)
                                                    == AdvancedFrames(p, deltaT, s.mass, k + 1);
  }

  /**
   * Two particles with the same velocity fall at different rates under two
   * system masses: after k >= 1 frames the one under the larger mass has the
   * strictly larger vertical velocity.
   */
  lemma {:induction false} HeavierFallsFaster(p: Particle, s1: Settings, s2: Settings, deltaT: real, draw: Vec2, k: nat)
    requires p.inUse && deltaT >= 0.0 && k >= 1
    requires Times(k, deltaT * MS_PER_SECOND) < p.age
    requires s1.mass < s2.mass
    ensures VisitedFrames(p, s1, deltaT, draw, k).vel.y < VisitedFrames(p, s2, deltaT, draw, k).vel.y
  {
    ActiveRun(p, s1, deltaT, draw, k);
    ActiveRun(p, s2, deltaT, draw, k);
    TimesStrict(k, s1.mass * MASS_ACCELERATION, s2.mass * MASS_ACCELERATION);
  }

  /** The alpha-fade hook keeps the velocity the base hook drew, and so its range. */
  lemma FadeKeepsBaseVelocity(p: Particle, lifetime: real, draw: Vec2)
    requires InRandomVelocityRange(draw)
    ensures FadeAnimated(p, lifetime, draw).vel == DefaultAnimated(p, lifetime, draw).vel
    ensures InRandomVelocityRange(FadeAnimated(p, lifetime, draw).vel)
  {
  }

  /**
   * Under either hook, every slot a frame activates takes the velocity drawn
   * for it, so when the draws lie in the random range the activated
   * particles' velocities do too.
   */
  lemma FrameActivationsInRange(pool: seq<Particle>, n: nat, s: Settings, deltaT: real, draws: seq<Vec2>)
    requires n <= |pool| && |draws| == |pool|
    requires forall i :: 0 <= i < |draws| ==> InRandomVelocityRange(draws[i])
    ensures forall i :: 0 <= i < n && !pool[i].inUse ==>
      Frame(pool, n, s, deltaT, draws)[i].vel == draws[i]
      && InRandomVelocityRange(Frame(pool, n, s, deltaT, draws)[i].vel)
  {
  }

  /**
   * Under the alpha-fade hook the fade and the particle end together: k >= 1
   * frames after its activation (and before any later reactivation), a
   * particle is still in use exactly when the elapsed time is shorter than
   * its fade track's duration, and the fade track is still the one in place.
   */
  lemma {:induction false} FadeEndsWithLifetime(p: Particle, s: Settings, deltaT: real, draw: Vec2, k: nat)
    requires !p.inUse && s.hook == AlphaFadeAnimation && deltaT >= 0.0 && k >= 1
    requires Times(k - 1, deltaT * MS_PER_SECOND) < s.lifetime
    ensures var q := Activated(p, s, draw);
      && q.tweens.tracks[ACTIVE] == FadeTrack(s.lifetime)
      && (VisitedFrames(q, s, deltaT, draw, k).inUse
          <==> Times(k, deltaT * MS_PER_SECOND) < q.tweens.tracks[ACTIVE].duration)
  {
    var q := Activated(p, s, draw);
    if Times(k, deltaT * MS_PER_SECOND) < s.lifetime {
      ActiveRun(q, s, deltaT, draw, k);
    } else {
      ExpiresOnCrossingFrame(q, s, deltaT, draw, k - 1);
    }
  }
}
