/**
 * One particle of the animated background: the tuning constants of an
 * engine copy, the creation of a particle from six random draws, and its
 * per-frame motion with axis-aligned reflection.
 *
 * Coordinates are exact reals; the source works in IEEE-754 doubles.
 */
module Particles {

  /** The tuning constants of one copy of the engine. A new particle's size is
      `r * sizeSpread + sizeMin` and its alpha `r * alphaSpread + alphaMin`. */
  datatype Config = Config(
    particleCount: nat,
    connectionDistance: real,
    moveSpeed: real,
    sizeMin: real,
    sizeSpread: real,
    alphaMin: real,
    alphaSpread: real)
  {
    /** Positive threshold, speed and spreads: what both copies' constants satisfy. */
    predicate WellFormed() {
      connectionDistance > 0.0 && moveSpeed > 0.0 && sizeSpread > 0.0 && alphaSpread > 0.0
    }
  }

  /** The value of a particle at one instant. */
  datatype ParticleState = ParticleState(x: real, y: real, vx: real, vy: real, size: real, alpha: real)

  function Abs(v: real): real {
    if v < 0.0 then -v else v
  }

  /** Draws as `Math.random` returns them: in the half-open interval [0, 1). */
  predicate UnitDraws(r: seq<real>) {
    forall k :: 0 <= k < |r| ==> 0.0 <= r[k] < 1.0
  }

  /** A new particle from the draws for x, y, vx, vy, size and alpha, in that order. */
  function Spawn(cfg: Config, w: real, h: real, r: seq<real>): ParticleState
    requires |r| == 6
  {
    ParticleState(
      r[0] * w,
      r[1] * h,
      (r[2] - 0.5) * cfg.moveSpeed,
      (r[3] - 0.5) * cfg.moveSpeed,
      r[4] * cfg.sizeSpread + cfg.sizeMin,
      r[5] * cfg.alphaSpread + cfg.alphaMin)
  }

  /** A draw scales a non-negative extent into [0, extent), or to 0 when the extent is 0. */
  lemma ScaleWithin(r: real, e: real, v: real)
    requires 0.0 <= r < 1.0 && 0.0 <= e && v == r * e
    ensures 0.0 <= v <= e
    ensures e > 0.0 ==> v < e
  {
    assert e - v == (1.0 - r) * e;
    if e > 0.0 {
      assert (1.0 - r) * e > 0.0;
    }
  }

  /** A centred draw scales a positive speed into [-speed/2, speed/2). */
  lemma CenteredWithin(r: real, s: real, v: real)
    requires 0.0 <= r < 1.0 && 0.0 < s && v == (r - 0.5) * s
    ensures -s / 2.0 <= v < s / 2.0
  {
    ScaleWithin(r, s, r * s);
    assert v == r * s - s / 2.0;
  }

  /** Where a freshly spawned particle lies and how fast it moves. */
  ghost predicate SpawnedWithin(p: ParticleState, cfg: Config, w: real, h: real) {
    && 0.0 <= p.x <= w && (w > 0.0 ==> p.x < w)
    && 0.0 <= p.y <= h && (h > 0.0 ==> p.y < h)
    && -cfg.moveSpeed / 2.0 <= p.vx < cfg.moveSpeed / 2.0
    && -cfg.moveSpeed / 2.0 <= p.vy < cfg.moveSpeed / 2.0
    && cfg.sizeMin <= p.size < cfg.sizeMin + cfg.sizeSpread
    && cfg.alphaMin <= p.alpha < cfg.alphaMin + cfg.alphaSpread
  }

  lemma SpawnRanges(cfg: Config, w: real, h: real, r: seq<real>)
    requires |r| == 6 && UnitDraws(r)
    requires cfg.WellFormed() && 0.0 <= w && 0.0 <= h
    ensures SpawnedWithin(Spawn(cfg, w, h, r), cfg, w, h)
  {
    SpawnPlaceWithin(cfg, w, h, r);
    SpawnLookWithin(cfg, w, h, r);
    SpawnSpeedWithin(cfg, w, h, r);
  }

  lemma SpawnPlaceWithin(cfg: Config, w: real, h: real, r: seq<real>)
    requires |r| == 6 && UnitDraws(r)
    requires 0.0 <= w && 0.0 <= h
    ensures var p := Spawn(cfg, w, h, r);
      && 0.0 <= p.x <= w && (w > 0.0 ==> p.x < w)
      && 0.0 <= p.y <= h && (h > 0.0 ==> p.y < h)
  {
    assert 0.0 <= r[0] < 1.0 && 0.0 <= r[1] < 1.0;
    var p := Spawn(cfg, w, h, r);
    ScaleWithin(r[0], w, p.x);
    ScaleWithin(r[1], h, p.y);
  }

  lemma SpawnLookWithin(cfg: Config, w: real, h: real, r: seq<real>)
    requires |r| == 6 && UnitDraws(r)
    requires cfg.WellFormed()
    ensures var p := Spawn(cfg, w, h, r);
      && cfg.sizeMin <= p.size < cfg.sizeMin + cfg.sizeSpread
      && cfg.alphaMin <= p.alpha < cfg.alphaMin + cfg.alphaSpread
  {
    assert 0.0 <= r[4] < 1.0 && 0.0 <= r[5] < 1.0;
    var p := Spawn(cfg, w, h, r);
    ScaleWithin(r[4], cfg.sizeSpread, p.size - cfg.sizeMin);
    ScaleWithin(r[5], cfg.alphaSpread, p.alpha - cfg.alphaMin);
  }

  lemma SpawnSpeedWithin(cfg: Config, w: real, h: real, r: seq<real>)
    requires |r| == 6 && UnitDraws(r)
    requires cfg.WellFormed()
    ensures var p := Spawn(cfg, w, h, r);
      && -cfg.moveSpeed / 2.0 <= p.vx < cfg.moveSpeed / 2.0
      && -cfg.moveSpeed / 2.0 <= p.vy < cfg.moveSpeed / 2.0
  {
    assert 0.0 <= r[2] < 1.0 && 0.0 <= r[3] < 1.0;
    var p := Spawn(cfg, w, h, r);
    CenteredWithin(r[2], cfg.moveSpeed, p.vx);
    CenteredWithin(r[3], cfg.moveSpeed, p.vy);
  }

  /** True when a coordinate has left [0, limit] and its velocity component is to be negated. */
  predicate Outside(pos: real, limit: real) {
    pos < 0.0 || pos > limit
  }

  /** One frame of motion: add the velocity, then negate each velocity component
      whose moved coordinate lies outside the box. The position is never clamped. */
  function Advance(p: ParticleState, w: real, h: real): ParticleState {
    var x := p.x + p.vx;
    var y := p.y + p.vy;
    p.(x := x, y := y,
       vx := if Outside(x, w) then -p.vx else p.vx,
       vy := if Outside(y, h) then -p.vy else p.vy)
  }

  lemma AdvanceLaw(p: ParticleState, w: real, h: real)
    ensures var q := Advance(p, w, h);
      && q.x == p.x + p.vx && q.y == p.y + p.vy
      && Abs(q.vx) == Abs(p.vx) && Abs(q.vy) == Abs(p.vy)
      && q.size == p.size && q.alpha == p.alpha
      && (p.vx != 0.0 ==> (q.vx != p.vx <==> Outside(q.x, w)))
      && (p.vy != 0.0 ==> (q.vy != p.vy <==> Outside(q.y, h)))
  {
  }

  /** One axis of the overshoot invariant: at most one step outside [0, limit],
      and when outside, the velocity points back in. */
  predicate NearAxis(pos: real, v: real, limit: real) {
    && -Abs(v) <= pos <= limit + Abs(v)
    && (pos < 0.0 ==> v >= 0.0)
    && (pos > limit ==> v <= 0.0)
  }

  predicate NearBox(p: ParticleState, w: real, h: real) {
    NearAxis(p.x, p.vx, w) && NearAxis(p.y, p.vy, h)
  }

  lemma AxisStepKeepsNear(pos: real, v: real, limit: real)
    requires 0.0 <= limit && NearAxis(pos, v, limit)
    ensures var moved := pos + v;
      NearAxis(moved, if Outside(moved, limit) then -v else v, limit)
  {
  }

  lemma AdvanceKeepsNearBox(p: ParticleState, w: real, h: real)
    requires 0.0 <= w && 0.0 <= h && NearBox(p, w, h)
    ensures NearBox(Advance(p, w, h), w, h)
  {
    AxisStepKeepsNear(p.x, p.vx, w);
    AxisStepKeepsNear(p.y, p.vy, h);
  }

  /** The particle after `n` frames in a box that does not change. */
  function Run(p: ParticleState, w: real, h: real, n: nat): ParticleState {
    if n == 0 then p else Advance(Run(p, w, h, n - 1), w, h)
  }

  lemma {:induction false} RunStaysNearBox(p: ParticleState, w: real, h: real, n: nat)
    requires 0.0 <= w && 0.0 <= h && NearBox(p, w, h)
    ensures var q := Run(p, w, h, n);
      && NearBox(q, w, h)
      && Abs(q.vx) == Abs(p.vx) && Abs(q.vy) == Abs(p.vy)
      && q.size == p.size && q.alpha == p.alpha
  {
    if n > 0 {
      RunStaysNearBox(p, w, h, n - 1);
      var q := Run(p, w, h, n - 1);
      AdvanceKeepsNearBox(q, w, h);
      AdvanceLaw(q, w, h);
    }
  }

  /** A spawned particle, however many frames it runs in an unchanged box, stays
      within half the move speed of the box and keeps its size and alpha. */
  lemma SpawnedStaysInBand(cfg: Config, w: real, h: real, r: seq<real>, n: nat)
    requires |r| == 6 && UnitDraws(r)
    requires cfg.WellFormed() && 0.0 <= w && 0.0 <= h
    ensures var p := Spawn(cfg, w, h, r);
      var q := Run(p, w, h, n);
      && -cfg.moveSpeed / 2.0 <= q.x <= w + cfg.moveSpeed / 2.0
      && -cfg.moveSpeed / 2.0 <= q.y <= h + cfg.moveSpeed / 2.0
      && q.size == p.size && q.alpha == p.alpha
  {
    SpawnRanges(cfg, w, h, r);
    RunStaysNearBox(Spawn(cfg, w, h, r), w, h, n);
  }

  /** Reflection at the right edge: the overshooting step flips the velocity,
      the next step brings the particle back and does not flip it again. */
  lemma ReflectionLaw(p: ParticleState, w: real, h: real)
    requires 0.1 <= w && p.x == w - 0.1 && p.vx == 0.5
    ensures var q := Advance(p, w, h);
      && q.x > w && q.vx == -0.5
      && Advance(q, w, h).x == w - 0.1 && Advance(q, w, h).vx == -0.5
  {
  }

  /** A particle object: position and velocity change every frame, size and alpha never. */
  class Particle {
    var x: real
    var y: real
    var vx: real
    var vy: real
    const size: real
    const alpha: real

    function Current(): ParticleState
      reads this
    {
      ParticleState(x, y, vx, vy, size, alpha)
    }

    /** `r` holds this particle's six draws of `Math.random()`. */
    constructor (cfg: Config, w: real, h: real, r: seq<real>)
      requires |r| == 6
      ensures Current() == Spawn(cfg, w, h, r)
    {
      var moveSpeed := cfg.moveSpeed;
      x := r[0] * w;
      y := r[1] * h;
      vx := (r[2] - 0.5) * moveSpeed;
      vy := (r[3] - 0.5) * moveSpeed;
      size := r[4] * cfg.sizeSpread + cfg.sizeMin;
      alpha := r[5] * cfg.alphaSpread + cfg.alphaMin;
    }

    /** Moves the particle in place within a `w` by `h` surface. */
    method Update(w: real, h: real)
      modifies this
      ensures Current() == Advance(old(Current()), w, h)
    {
      x := x + vx;
      y := y + vy;
      if x < 0.0 || x > w {
        vx := vx * -1.0;
      }
      if y < 0.0 || y > h {
        vy := vy * -1.0;
      }
    }
  }
}
