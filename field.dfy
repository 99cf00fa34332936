/**
 * The particle field: the surface size, the particle collection and the three
 * operations that change them (sizing, reinitialisation and one animation
 * frame), together with the start-up of each of the two engine copies.
 *
 * Drawing calls are not modelled; a frame returns the lines it would stroke.
 */
module ParticleField {
  import opened Particles
  import opened Links

  /** The containing layout element, if the page has one: its rendered size. */
  datatype Layout = Missing | Measured(offsetWidth: nat, offsetHeight: nat)

  /** The surface size after sizing against `container`. */
  function Resized(w: nat, h: nat, container: Layout): (nat, nat) {
    match container
    case Missing => (w, h)
    case Measured(ow, oh) => (ow, oh)
  }

  /** Sizing twice against the same container is sizing once, and a missing
      container leaves the size as it was. */
  lemma ResizeIdempotent(w: nat, h: nat, container: Layout)
    ensures var (w1, h1) := Resized(w, h, container);
      Resized(w1, h1, container) == (w1, h1)
    ensures container.Missing? ==> Resized(w, h, container) == (w, h)
    ensures container.Measured? ==>
      Resized(w, h, container) == (container.offsetWidth, container.offsetHeight)
  {
  }

  /** The constants of `static/js/script.js`. */
  const StaticConfig := Config(80, 150.0, 0.8, 1.5, 2.0, 0.4, 0.5)

  /** The constants of the older `script.js`. */
  const HeroConfig := Config(80, 150.0, 0.3, 1.0, 2.0, 0.2, 0.5)

  /** The particles a reinitialisation creates, from six draws each. */
  function InitialStates(cfg: Config, w: real, h: real, draws: seq<real>): (ps: seq<ParticleState>)
    requires |draws| >= 6 * cfg.particleCount
    ensures |ps| == cfg.particleCount
  {
    seq(cfg.particleCount, k requires 0 <= k < cfg.particleCount => Spawn(cfg, w, h, draws[6 * k .. 6 * k + 6]))
  }

  /** Every particle advanced by one frame. */
  function AdvanceAll(ps: seq<ParticleState>, w: real, h: real): (qs: seq<ParticleState>)
    ensures |qs| == |ps|
  {
    seq(|ps|, k requires 0 <= k < |ps| => Advance(ps[k], w, h))
  }

  /** What a particle of a field satisfies between frames: within one step of
      the box, moving back in when outside it, no faster than half the move
      speed on either axis, and with size and alpha in their spawn ranges. */
  ghost predicate Settled(p: ParticleState, cfg: Config, w: real, h: real) {
    && NearBox(p, w, h)
    && Abs(p.vx) <= cfg.moveSpeed / 2.0 && Abs(p.vy) <= cfg.moveSpeed / 2.0
    && cfg.sizeMin <= p.size < cfg.sizeMin + cfg.sizeSpread
    && cfg.alphaMin <= p.alpha < cfg.alphaMin + cfg.alphaSpread
  }

  lemma AdvanceKeepsSettled(p: ParticleState, cfg: Config, w: real, h: real)
    requires 0.0 <= w && 0.0 <= h && Settled(p, cfg, w, h)
    ensures Settled(Advance(p, w, h), cfg, w, h)
  {
    AdvanceKeepsNearBox(p, w, h);
    AdvanceLaw(p, w, h);
  }

  ghost predicate SettledAll(ps: seq<ParticleState>, cfg: Config, w: real, h: real) {
    forall k :: 0 <= k < |ps| ==> Settled(ps[k], cfg, w, h)
  }

  lemma AdvanceAllKeepsSettled(ps: seq<ParticleState>, cfg: Config, w: real, h: real)
    requires 0.0 <= w && 0.0 <= h && SettledAll(ps, cfg, w, h)
    ensures SettledAll(AdvanceAll(ps, w, h), cfg, w, h)
  {
    forall k | 0 <= k < |ps|
      ensures Settled(AdvanceAll(ps, w, h)[k], cfg, w, h)
    {
      AdvanceKeepsSettled(ps[k], cfg, w, h);
    }
  }

  lemma InitialStatesSettled(cfg: Config, w: real, h: real, draws: seq<real>)
    requires cfg.WellFormed() && 0.0 <= w && 0.0 <= h
    requires |draws| >= 6 * cfg.particleCount && UnitDraws(draws)
    ensures SettledAll(InitialStates(cfg, w, h, draws), cfg, w, h)
  {
    forall k | 0 <= k < cfg.particleCount
      ensures Settled(InitialStates(cfg, w, h, draws)[k], cfg, w, h)
    {
      var r := draws[6 * k .. 6 * k + 6];
      assert UnitDraws(r) by {
        forall m | 0 <= m < 6 ensures 0.0 <= r[m] < 1.0 {
          assert r[m] == draws[6 * k + m];
        }
      }
      SpawnRanges(cfg, w, h, r);
    }
  }

  /** A spawned particle of the `static/js/script.js` engine. */
  lemma StaticSpawnRanges(w: real, h: real, r: seq<real>)
    requires |r| == 6 && UnitDraws(r) && 0.0 <= w && 0.0 <= h
    ensures var p := Spawn(StaticConfig, w, h, r);
      && 0.0 <= p.x <= w && (w > 0.0 ==> p.x < w)
      && 0.0 <= p.y <= h && (h > 0.0 ==> p.y < h)
      && -0.4 <= p.vx < 0.4 && -0.4 <= p.vy < 0.4
      && 1.5 <= p.size < 3.5 && 0.4 <= p.alpha < 0.9
  {
    SpawnRanges(StaticConfig, w, h, r);
  }

  /** A spawned particle of the `script.js` engine. */
  lemma HeroSpawnRanges(w: real, h: real, r: seq<real>)
    requires |r| == 6 && UnitDraws(r) && 0.0 <= w && 0.0 <= h
    ensures var p := Spawn(HeroConfig, w, h, r);
      && 0.0 <= p.x <= w && (w > 0.0 ==> p.x < w)
      && 0.0 <= p.y <= h && (h > 0.0 ==> p.y < h)
      && -0.15 <= p.vx < 0.15 && -0.15 <= p.vy < 0.15
      && 1.0 <= p.size < 3.0 && 0.2 <= p.alpha < 0.7
  {
    SpawnRanges(HeroConfig, w, h, r);
  }

  /** A particle of the `static/js/script.js` engine never strays more than 0.4
      outside the surface, however many frames it runs. */
  lemma StaticStaysInBand(w: real, h: real, r: seq<real>, n: nat)
    requires |r| == 6 && UnitDraws(r) && 0.0 <= w && 0.0 <= h
    ensures var q := Run(Spawn(StaticConfig, w, h, r), w, h, n);
      -0.4 <= q.x <= w + 0.4 && -0.4 <= q.y <= h + 0.4
  {
    SpawnedStaysInBand(StaticConfig, w, h, r, n);
  }

  /** A particle of the `script.js` engine never strays more than 0.15
      outside the surface, however many frames it runs. */
  lemma HeroStaysInBand(w: real, h: real, r: seq<real>, n: nat)
    requires |r| == 6 && UnitDraws(r) && 0.0 <= w && 0.0 <= h
    ensures var q := Run(Spawn(HeroConfig, w, h, r), w, h, n);
      -0.15 <= q.x <= w + 0.15 && -0.15 <= q.y <= h + 0.15
  {
    SpawnedStaysInBand(HeroConfig, w, h, r, n);
  }

  /** No particle object occurs twice in `ps`. */
  ghost predicate Distinct(ps: seq<Particle>) {
    |ps| == 0 || (ps[|ps| - 1] !in ps[..|ps| - 1] && Distinct(ps[..|ps| - 1]))
  }

  lemma {:induction false} DistinctApart(ps: seq<Particle>, a: nat, b: nat)
    requires Distinct(ps) && a < b < |ps|
    ensures ps[a] != ps[b]
  {
    var n := |ps| - 1;
    if b < n {
      assert ps[..n][a] == ps[a] && ps[..n][b] == ps[b];
      DistinctApart(ps[..n], a, b);
    } else {
      assert ps[a] in ps[..n];
    }
  }

  lemma DistinctAppend(ps: seq<Particle>, p: Particle)
    requires Distinct(ps) && p !in ps
    ensures Distinct(ps + [p])
  {
    assert (ps + [p])[..|ps|] == ps;
  }

  /** Pushing a new object that holds the next spawned state keeps the
      collection duplicate-free and in step with the spawned states. */
  lemma PushSpawned(ps: seq<Particle>, p: Particle, spawned: seq<ParticleState>)
    requires |ps| < |spawned| && Distinct(ps) && p !in ps
    requires forall k :: 0 <= k < |ps| ==> ps[k].Current() == spawned[k]
    requires p.Current() == spawned[|ps|]
    ensures Distinct(ps + [p])
    ensures forall k :: 0 <= k <= |ps| ==> (ps + [p])[k].Current() == spawned[k]
  {
    DistinctAppend(ps, p);
  }

  class Field {
    const cfg: Config
    var width: nat
    var height: nat
    var particles: seq<Particle>

    /** Well-formed constants, and no particle object held twice. */
    ghost predicate Valid()
      reads this
    {
      && cfg.WellFormed()
      && Distinct(particles)
    }

    /** The values of the particles, in collection order. */
    ghost function States(): (ps: seq<ParticleState>)
      reads this, particles
      ensures |ps| == |particles|
    {
      seq(|particles|, k reads this, particles requires 0 <= k < |particles| => particles[k].Current())
    }

    /** Every particle is settled in the current box. */
    ghost predicate AllSettled()
      reads this, particles
    {
      SettledAll(States(), cfg, width as real, height as real)
    }

    /** The page-ready state: no particles, and a surface not sized yet. */
    constructor (cfg: Config)
      requires cfg.WellFormed()
      ensures Valid() && this.cfg == cfg
      ensures width == 0 && height == 0 && particles == []
    {
      this.cfg := cfg;
      width, height := 0, 0;
      particles := [];
    }

    /** Sizes the surface to the container, or leaves it when there is none. */
    method Resize(container: Layout)
      modifies this`width, this`height
      ensures (width, height) == Resized(old(width), old(height), container)
    {
      match container {
        case Measured(ow, oh) =>
          width := ow;
          height := oh;
        case Missing =>
      }
    }

    /** Sizes the surface, then replaces every particle by a new one. */
    method Init(container: Layout, draws: seq<real>)
      requires Valid()
      requires |draws| >= 6 * cfg.particleCount && UnitDraws(draws)
      modifies this
      ensures Valid()
      ensures (width, height) == Resized(old(width), old(height), container)
      ensures |particles| == cfg.particleCount
      ensures forall k :: 0 <= k < |particles| ==> fresh(particles[k])
      ensures States() == InitialStates(cfg, width as real, height as real, draws)
      ensures AllSettled()
    {
      Resize(container);
      var w, h := width as real, height as real;
      ghost var spawned := InitialStates(cfg, w, h, draws);
      particles := [];
      var i := 0;
      while i < cfg.particleCount
        modifies this`particles
        invariant 0 <= i <= cfg.particleCount
        invariant Valid() && |particles| == i
        invariant forall k :: 0 <= k < i ==> fresh(particles[k])
        invariant forall k :: 0 <= k < i ==> particles[k].Current() == spawned[k]
      {
        var p := new Particle(cfg, w, h, draws[6 * i .. 6 * i + 6]);
        assert p.Current() == spawned[i];
        PushSpawned(particles, p, spawned);
        particles := particles + [p];
        i := i + 1;
      }
      AllSpawned(spawned);
      InitialStatesSettled(cfg, w, h, draws);
    }

    /** Once every particle has been created, the field holds their initial states. */
    lemma AllSpawned(spawned: seq<ParticleState>)
      requires |particles| == |spawned|
      requires forall k :: 0 <= k < |particles| ==> particles[k].Current() == spawned[k]
      ensures States() == spawned
    {
      forall k | 0 <= k < |particles|
        ensures States()[k] == spawned[k]
      {
        assert States()[k] == particles[k].Current();
      }
    }

    /** The resize handler: size the surface, then reinitialise (which sizes it again). */
    method OnResize(container: Layout, draws: seq<real>)
      requires Valid()
      requires |draws| >= 6 * cfg.particleCount && UnitDraws(draws)
      modifies this
      ensures Valid()
      ensures (width, height) == Resized(old(width), old(height), container)
      ensures |particles| == cfg.particleCount
      ensures forall k :: 0 <= k < |particles| ==> fresh(particles[k])
      ensures States() == InitialStates(cfg, width as real, height as real, draws)
      ensures AllSettled()
    {
      Resize(container);
      ResizeIdempotent(old(width), old(height), container);
      Init(container, draws);
    }

    /** The inner scan of a frame: particle `i`, at its current position,
        against every later particle at its current position. */
    method ScanRow(i: nat, sqrt: real -> real) returns (row: seq<Link>)
      requires Valid() && i < |particles|
      ensures row == RowLinks(i, Distances(particles[i].Current(), States(), sqrt), |particles|,
                              cfg.connectionDistance)
    {
      var p := particles[i];
      var cd := cfg.connectionDistance;
      row := [];
      var j := i + 1;
      while j < |particles|
        invariant i + 1 <= j <= |particles|
        invariant row == RowLinks(i, Distances(p.Current(), States(), sqrt), j, cd)
      {
        var p2 := particles[j];
        var dx := p.x - p2.x;
        var dy := p.y - p2.y;
        var distance := sqrt(dx * dx + dy * dy);
        assert States()[j] == p2.Current();
        assert dx * dx + dy * dy == Dist2(p.Current(), p2.Current());
        if distance < cd {
          var opacity := 1.0 - distance / cd;
          row := row + [Link(i, j, opacity * 0.2)];
        }
        j := j + 1;
      }
    }

    /** Part-way through a frame that started from `before`: the first `i`
        particles have moved by one step, the others still hold their old values. */
    ghost predicate MovedUpTo(before: seq<ParticleState>, i: nat)
      reads this, particles
    {
      && i <= |particles| == |before|
      && (forall k :: 0 <= k < i ==>
            particles[k].Current() == Advance(before[k], width as real, height as real))
      && (forall k :: i <= k < |particles| ==> particles[k].Current() == before[k])
    }

    /** Row `i` of a frame: moves particle `i` in place, then scans it against
        the later particles, which still hold their values from before the frame. */
    method Step(i: nat, ghost before: seq<ParticleState>, sqrt: real -> real) returns (row: seq<Link>)
      requires Valid() && i < |particles| && MovedUpTo(before, i)
      modifies particles[i]
      ensures MovedUpTo(before, i + 1)
      ensures row == RowLinks(i, Distances(Advance(before[i], width as real, height as real), before, sqrt),
                              |before|, cfg.connectionDistance)
    {
      forall k | 0 <= k < |particles| && k != i
        ensures particles[k] != particles[i]
      {
        if k < i { DistinctApart(particles, k, i); } else { DistinctApart(particles, i, k); }
      }
      particles[i].Update(width as real, height as real);
      row := ScanRow(i, sqrt);
      forall j | i < j < |particles|
        ensures States()[j] == before[j]
      {
        assert States()[j] == particles[j].Current();
      }
      RowLinksAgree(i, Distances(particles[i].Current(), States(), sqrt),
                    Distances(Advance(before[i], width as real, height as real), before, sqrt),
                    |particles|, cfg.connectionDistance);
    }

    /** Once every particle has moved, the field holds `before` advanced by one frame. */
    lemma AllMoved(before: seq<ParticleState>)
      requires MovedUpTo(before, |particles|)
      ensures States() == AdvanceAll(before, width as real, height as real)
    {
      forall k | 0 <= k < |particles|
        ensures States()[k] == AdvanceAll(before, width as real, height as real)[k]
      {
        assert States()[k] == particles[k].Current();
      }
    }

    /** A field that was settled before a frame is settled after it. */
    lemma SettledAfterFrame(before: seq<ParticleState>)
      requires cfg.WellFormed() && SettledAll(before, cfg, width as real, height as real)
      requires States() == AdvanceAll(before, width as real, height as real)
      ensures AllSettled()
    {
      AdvanceAllKeepsSettled(before, cfg, width as real, height as real);
    }

    /** One animation frame: each particle in collection order is moved, then
        compared with every later particle, which has not moved yet in this
        frame; a close pair is recorded as a link. */
    method Frame(sqrt: real -> real) returns (links: seq<Link>)
      requires Valid()
      modifies particles
      ensures Valid()
      ensures links == FrameLinks(old(States()), width as real, height as real, cfg.connectionDistance, sqrt,
                                  |particles|)
      ensures States() == AdvanceAll(old(States()), width as real, height as real)
      ensures old(AllSettled()) ==> AllSettled()
    {
      ghost var before := States();
      ghost var wasSettled := AllSettled();
      assert MovedUpTo(before, 0) by {
        assert forall k :: 0 <= k < |particles| ==> before[k] == particles[k].Current();
      }
      links := [];
      var i := 0;
      while i < |particles|
        invariant MovedUpTo(before, i)
        invariant links == FrameLinks(before, width as real, height as real, cfg.connectionDistance, sqrt, i)
      {
        var row := Step(i, before, sqrt);
        FrameLinksStep(before, width as real, height as real, cfg.connectionDistance, sqrt, i);
        links := links + row;
        i := i + 1;
      }
      AllMoved(before);
      if wasSettled {
        SettledAfterFrame(before);
      }
    }
  }

  /** Page start-up of one engine copy: nothing at all without a canvas;
      otherwise a field is created, initialised and animated for its first frame. */
  method Start(cfg: Config, canvasPresent: bool, container: Layout, draws: seq<real>, sqrt: real -> real)
    returns (field: Field?, links: seq<Link>)
    requires cfg.WellFormed()
    requires |draws| >= 6 * cfg.particleCount && UnitDraws(draws)
    ensures canvasPresent <==> field != null
    ensures field == null ==> links == []
    ensures field != null ==>
      && fresh(field) && field.Valid() && field.cfg == cfg
      && (field.width, field.height) == Resized(0, 0, container)
      && |field.particles| == cfg.particleCount
      && field.AllSettled()
      && var w, h := field.width as real, field.height as real;
         var spawned := InitialStates(cfg, w, h, draws);
         && field.States() == AdvanceAll(spawned, w, h)
         && links == FrameLinks(spawned, w, h, cfg.connectionDistance, sqrt, cfg.particleCount)
  {
    if !canvasPresent {
      return null, [];
    }
    field := new Field(cfg);
    field.Init(container, draws);
    ghost var spawned := field.States();
    links := field.Frame(sqrt);
    AdvanceAllKeepsSettled(spawned, cfg, field.width as real, field.height as real);
  }

  /** Start-up of the `static/js/script.js` engine, sized by the canvas's parent element. */
  method StartStatic(canvasPresent: bool, parent: Layout, draws: seq<real>, sqrt: real -> real)
    returns (field: Field?, links: seq<Link>)
    requires |draws| >= 480 && UnitDraws(draws)
    ensures canvasPresent <==> field != null
    ensures field == null ==> links == []
    ensures field != null ==>
      && fresh(field) && field.Valid() && field.cfg == StaticConfig
      && (field.width, field.height) == Resized(0, 0, parent)
      && |field.particles| == 80 && field.AllSettled()
  {
    field, links := Start(StaticConfig, canvasPresent, parent, draws, sqrt);
  }

  /** Start-up of the `script.js` engine, sized by the `.hero` section. */
  method StartHero(canvasPresent: bool, hero: Layout, draws: seq<real>, sqrt: real -> real)
    returns (field: Field?, links: seq<Link>)
    requires |draws| >= 480 && UnitDraws(draws)
    ensures canvasPresent <==> field != null
    ensures field == null ==> links == []
    ensures field != null ==>
      && fresh(field) && field.Valid() && field.cfg == HeroConfig
      && (field.width, field.height) == Resized(0, 0, hero)
      && |field.particles| == 80 && field.AllSettled()
  {
    field, links := Start(HeroConfig, canvasPresent, hero, draws, sqrt);
  }
}
