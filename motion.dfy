/**
 * One frame of the particle pool, as functions on values: the lifetime
 * filter, the per-particle update (flicker, drift, edge wrap, trail), the
 * burst of a flickering line and the top-up to the pool capacity.
 */
module Motion {
  import opened Particle

  // ---------------------------------------------------------------------
  // Lifetime filter
  // ---------------------------------------------------------------------

  /** JavaScript truthiness of `flickerStartTime`: present and not zero. */
  predicate Started(start: Option<int>)
  {
    start.Some? && start.value != 0
  }

  /** The start time a flickering particle's age is measured from: its start time, or 0 when absent. */
  function StartOrZero(start: Option<int>): int
  {
    if start.Some? then start.value else 0
  }

  /** The filter callback: is the particle still alive at `now`? */
  predicate Alive(t: Triangle, now: int)
  {
    if t.isFlickering && Started(t.flickerStartTime) then
      now - t.flickerStartTime.value < FlickerDuration
    else
      now as real >= t.spawnDelay
  }

  /**
   * What the filter keeps: a started flickering particle of the pool survives
   * for less than 2000 time units after its start, and every other particle
   * of the pool (ordinary, or flickering with no truthy start time) survives
   * exactly when the clock has reached its spawn delay.
   */
  lemma FlickerLifetime(pool: seq<Triangle>, now: int, t: Triangle)
    requires t in pool
    ensures t.isFlickering && Started(t.flickerStartTime) ==>
      (t in Survivors(pool, now) <==> now - t.flickerStartTime.value < FlickerDuration)
    ensures !(t.isFlickering && Started(t.flickerStartTime)) ==>
      (t in Survivors(pool, now) <==> now as real >= t.spawnDelay)
  {
    SurvivorsMembership(pool, now, t);
  }

  /**
   * The pool's filter: the particles alive at `now`, in their original order.
   */
  function Survivors(pool: seq<Triangle>, now: int): (s: seq<Triangle>)
    ensures |s| <= |pool|
    ensures forall t :: t in s ==> t in pool && Alive(t, now)
  {
    if pool == [] then []
    else (if Alive(pool[0], now) then [pool[0]] else []) + Survivors(pool[1..], now)
  }

  /** The filter keeps exactly the live particles. */
  lemma {:induction false} SurvivorsMembership(pool: seq<Triangle>, now: int, t: Triangle)
    ensures t in Survivors(pool, now) <==> t in pool && Alive(t, now)
  {
    if pool != [] {
      SurvivorsMembership(pool[1..], now, t);
      assert pool == [pool[0]] + pool[1..];
    }
  }

  /** The filter keeps relative order: it distributes over concatenation. */
  lemma {:induction false} SurvivorsAppend(a: seq<Triangle>, b: seq<Triangle>, now: int)
    ensures Survivors(a + b, now) == Survivors(a, now) + Survivors(b, now)
  {
    if a == [] {
      assert a + b == b;
    } else {
      assert (a + b)[0] == a[0];
      assert (a + b)[1..] == a[1..] + b;
      SurvivorsAppend(a[1..], b, now);
    }
  }

  /** A pool whose particles are all alive passes the filter unchanged. */
  lemma {:induction false} SurvivorsAllAlive(pool: seq<Triangle>, now: int)
    requires forall i :: 0 <= i < |pool| ==> Alive(pool[i], now)
    ensures Survivors(pool, now) == pool
  {
    if pool != [] {
      SurvivorsAllAlive(pool[1..], now);
    }
  }

  /** A pool none of whose particles is alive is filtered away entirely. */
  lemma {:induction false} SurvivorsNoneAlive(pool: seq<Triangle>, now: int)
    requires forall i :: 0 <= i < |pool| ==> !Alive(pool[i], now)
    ensures Survivors(pool, now) == []
  {
    if pool != [] {
      SurvivorsNoneAlive(pool[1..], now);
    }
  }

  /**
   * The spawn delay is compared with the absolute clock, and is below 3000:
   * once the clock has passed 3000, every ordinary particle survives the filter.
   */
  lemma OrdinaryParticleAlive(width: nat, height: nat, d: TriangleDraws, created: int, now: int)
    requires now >= 3000
    ensures Alive(CreateRandomTriangle(width, height, false, d, created), now)
  {
  }

  // ---------------------------------------------------------------------
  // Per-particle update
  // ---------------------------------------------------------------------

  /**
   * The edge wrap of one coordinate with the particle's size as margin: the
   * first test moves a value below the margin to the far side, the second a
   * value beyond the far margin to the near one.
   */
  function WrapCoordinate(v: real, size: real, extent: nat): (r: real)
    ensures size >= 0.0 ==> -size <= r <= extent as real + size
    ensures v < -size ==> r == extent as real + size
    ensures size >= 0.0 && v > extent as real + size ==> r == -size
    ensures -size <= v <= extent as real + size ==> r == v
  {
    var first := if v < -size then extent as real + size else v;
    if first > extent as real + size then -size else first
  }

  /**
   * `trail.unshift(p)` followed by one `pop()` when the trail has grown
   * beyond five entries: a bounded FIFO, newest first.
   */
  function PushTrail(trail: seq<TrailPoint>, p: TrailPoint): (r: seq<TrailPoint>)
    ensures |r| == if |trail| < TrailLength then |trail| + 1 else |trail|
    ensures |r| > 0 && r[0] == p
    ensures r[1..] == trail[..|r| - 1]
  {
    var pushed := [p] + trail;
    if |pushed| > TrailLength then pushed[..|pushed| - 1] else pushed
  }

  /** For a trail of at most five entries the new length is min(old length + 1, 5). */
  lemma PushTrailBounded(trail: seq<TrailPoint>, p: TrailPoint)
    requires |trail| <= TrailLength
    ensures |PushTrail(trail, p)| == Min(|trail| + 1, TrailLength)
    ensures |PushTrail(trail, p)| <= TrailLength
  {
  }

  /** The update of a non-flickering particle: rotate, move, wrap, record the trail. */
  function Drift(t: Triangle, width: nat, height: nat): Triangle
  {
    var angle := t.angle + t.rotationSpeed;
    var x := WrapCoordinate(t.centerX + t.velocityX, t.size, width);
    var y := WrapCoordinate(t.centerY + t.velocityY, t.size, height);
    t.(angle := angle, centerX := x, centerY := y,
       trail := if t.hasTrail then PushTrail(t.trail, TrailPoint(x, y, angle)) else t.trail)
  }

  /**
   * The map callback: a flickering particle only gets the opacity that
   * `opacityOf` gives for its age; any other drifts.
   */
  function Step(t: Triangle, now: int, opacityOf: int -> real, width: nat, height: nat): Triangle
  {
    if t.isFlickering then t.(opacity := opacityOf(now - StartOrZero(t.flickerStartTime)))
    else Drift(t, width, height)
  }

  /** Whether moving by the velocity leaves both coordinates within the margins. */
  predicate NoWrapEvent(t: Triangle, width: nat, height: nat)
  {
    -t.size <= t.centerX + t.velocityX <= width as real + t.size &&
    -t.size <= t.centerY + t.velocityY <= height as real + t.size
  }

  /** A flickering particle keeps everything but its opacity. */
  lemma FlickerStaysPut(t: Triangle, now: int, opacityOf: int -> real, width: nat, height: nat)
    requires t.isFlickering
    ensures var u := Step(t, now, opacityOf, width, height);
      u.centerX == t.centerX && u.centerY == t.centerY && u.angle == t.angle &&
      u.trail == t.trail && u.size == t.size && u.isFlickering &&
      u == t.(opacity := u.opacity)
  {
  }

  /** Without a wrap event, a drifting particle advances by exactly its velocity and rotation speed. */
  lemma DriftStep(t: Triangle, now: int, opacityOf: int -> real, width: nat, height: nat)
    requires !t.isFlickering && NoWrapEvent(t, width, height)
    ensures var u := Step(t, now, opacityOf, width, height);
      u.angle == t.angle + t.rotationSpeed &&
      u.centerX == t.centerX + t.velocityX &&
      u.centerY == t.centerY + t.velocityY
  {
  }

  /** After the update, a drifting particle lies within its margins and only its pose and trail changed. */
  lemma DriftWithinBounds(t: Triangle, now: int, opacityOf: int -> real, width: nat, height: nat)
    requires !t.isFlickering && t.size >= 0.0
    ensures var u := Step(t, now, opacityOf, width, height);
      -t.size <= u.centerX <= width as real + t.size &&
      -t.size <= u.centerY <= height as real + t.size &&
      u == t.(angle := u.angle, centerX := u.centerX, centerY := u.centerY, trail := u.trail)
  {
  }

  /**
   * A trailing particle's new trail starts with its new pose, followed by the
   * old entries in order; a particle without a trail keeps its trail.
   */
  lemma StepTrail(t: Triangle, now: int, opacityOf: int -> real, width: nat, height: nat)
    ensures var u := Step(t, now, opacityOf, width, height);
      (!t.isFlickering && t.hasTrail ==>
        |u.trail| > 0 && u.trail[0] == TrailPoint(u.centerX, u.centerY, u.angle) &&
        u.trail[1..] == t.trail[..|u.trail| - 1] &&
        (|t.trail| <= TrailLength ==> |u.trail| == Min(|t.trail| + 1, TrailLength))) &&
      (!t.hasTrail ==> u.trail == t.trail)
  {
    if !t.isFlickering && t.hasTrail && |t.trail| <= TrailLength {
      var u := Step(t, now, opacityOf, width, height);
      PushTrailBounded(t.trail, TrailPoint(u.centerX, u.centerY, u.angle));
    }
  }

  /** The update keeps a particle well formed. */
  lemma StepWellFormed(t: Triangle, now: int, opacityOf: int -> real, width: nat, height: nat)
    requires WellFormed(t)
    ensures WellFormed(Step(t, now, opacityOf, width, height))
  {
    if !t.isFlickering && t.hasTrail {
      var u := Step(t, now, opacityOf, width, height);
      PushTrailBounded(t.trail, TrailPoint(u.centerX, u.centerY, u.angle));
    }
  }

  // ---------------------------------------------------------------------
  // Many frames of one particle
  // ---------------------------------------------------------------------

  /** The particle after one update per frame time in `times`. */
  function Frames(t: Triangle, times: seq<int>, opacityOf: int -> real, width: nat, height: nat): Triangle
    decreases |times|
  {
    if times == [] then t
    else Frames(Step(t, times[0], opacityOf, width, height), times[1..], opacityOf, width, height)
  }

  /** No update over the frames in `times` wraps the particle. */
  predicate NoWrapDuring(t: Triangle, times: seq<int>, opacityOf: int -> real, width: nat, height: nat)
    decreases |times|
  {
    times == [] ||
    (NoWrapEvent(t, width, height) &&
     NoWrapDuring(Step(t, times[0], opacityOf, width, height), times[1..], opacityOf, width, height))
  }

  /** `n` times `v`, as repeated addition; `TimesIsProduct` equates it with `n * v`. */
  function Times(n: nat, v: real): real
  {
    if n == 0 then 0.0 else Times(n - 1, v) + v
  }

  /** Repeated addition is multiplication. */
  lemma {:induction false} TimesIsProduct(n: nat, v: real)
    ensures Times(n, v) == n as real * v
  {
    if n > 0 {
      TimesIsProduct(n - 1, v);
      assert n as real * v == (n - 1) as real * v + v;
    }
  }

  /**
   * Without wrap events, N updates move a drifting particle by N times its
   * velocity and turn it by N times its rotation speed.
   */
  lemma {:induction false} DriftRepeated(t: Triangle, times: seq<int>, opacityOf: int -> real,
                                        width: nat, height: nat)
    requires !t.isFlickering && NoWrapDuring(t, times, opacityOf, width, height)
    ensures var u := Frames(t, times, opacityOf, width, height);
      u.velocityX == t.velocityX && u.velocityY == t.velocityY && u.rotationSpeed == t.rotationSpeed &&
      u.centerX == t.centerX + Times(|times|, t.velocityX) &&
      u.centerY == t.centerY + Times(|times|, t.velocityY) &&
      u.angle == t.angle + Times(|times|, t.rotationSpeed)
    decreases |times|
  {
    if times != [] {
      var s := Step(t, times[0], opacityOf, width, height);
      DriftStep(t, times[0], opacityOf, width, height);
      DriftRepeated(s, times[1..], opacityOf, width, height);
    }
  }

  /** A well-formed particle stays well formed, so its trail never exceeds five entries. */
  lemma {:induction false} FramesWellFormed(t: Triangle, times: seq<int>, opacityOf: int -> real,
                                           width: nat, height: nat)
    requires WellFormed(t)
    ensures WellFormed(Frames(t, times, opacityOf, width, height))
    ensures |Frames(t, times, opacityOf, width, height).trail| <= TrailLength
    decreases |times|
  {
    if times != [] {
      StepWellFormed(t, times[0], opacityOf, width, height);
      FramesWellFormed(Step(t, times[0], opacityOf, width, height), times[1..], opacityOf, width, height);
    }
  }

  /** A particle without a trail never gains trail entries, however many frames pass. */
  lemma {:induction false} NoTrailNeverGrows(t: Triangle, times: seq<int>, opacityOf: int -> real,
                                            width: nat, height: nat)
    requires !t.hasTrail
    ensures Frames(t, times, opacityOf, width, height).trail == t.trail
    ensures !Frames(t, times, opacityOf, width, height).hasTrail
    decreases |times|
  {
    if times != [] {
      StepTrail(t, times[0], opacityOf, width, height);
      NoTrailNeverGrows(Step(t, times[0], opacityOf, width, height), times[1..], opacityOf, width, height);
    }
  }

  /** A flickering particle never moves, however many frames pass. */
  lemma {:induction false} FlickerNeverMoves(t: Triangle, times: seq<int>, opacityOf: int -> real,
                                            width: nat, height: nat)
    requires t.isFlickering
    ensures var u := Frames(t, times, opacityOf, width, height);
      u.centerX == t.centerX && u.centerY == t.centerY && u.angle == t.angle && u.trail == t.trail
    decreases |times|
  {
    if times != [] {
      FlickerStaysPut(t, times[0], opacityOf, width, height);
      FlickerNeverMoves(Step(t, times[0], opacityOf, width, height), times[1..], opacityOf, width, height);
    }
  }

  // ---------------------------------------------------------------------
  // The pool
  // ---------------------------------------------------------------------

  /**
   * The pool's update: every particle updated, in order. A flickering particle
   * keeps everything but its opacity; a drifting one ends within its margins
   * with only its pose and trail changed.
   */
  function UpdateAll(pool: seq<Triangle>, now: int, opacityOf: int -> real, width: nat, height: nat): (r: seq<Triangle>)
    ensures |r| == |pool|
    ensures forall i :: 0 <= i < |pool| ==> r[i] == Step(pool[i], now, opacityOf, width, height)
    ensures forall i :: 0 <= i < |pool| && pool[i].isFlickering ==>
      r[i] == pool[i].(opacity := r[i].opacity)
    ensures forall i :: 0 <= i < |pool| && !pool[i].isFlickering && pool[i].size >= 0.0 ==>
      -pool[i].size <= r[i].centerX <= width as real + pool[i].size &&
      -pool[i].size <= r[i].centerY <= height as real + pool[i].size &&
      r[i] == pool[i].(angle := r[i].angle, centerX := r[i].centerX, centerY := r[i].centerY, trail := r[i].trail)
  {
    seq(|pool|, i requires 0 <= i < |pool| => Step(pool[i], now, opacityOf, width, height))
  }

  /** The update keeps a well-formed pool well formed. */
  lemma UpdateAllWellFormed(pool: seq<Triangle>, now: int, opacityOf: int -> real, width: nat, height: nat)
    requires forall t :: t in pool ==> WellFormed(t)
    ensures forall u :: u in UpdateAll(pool, now, opacityOf, width, height) ==> WellFormed(u)
  {
    var r := UpdateAll(pool, now, opacityOf, width, height);
    forall u | u in r ensures WellFormed(u) {
      var i :| 0 <= i < |r| && r[i] == u;
      StepWellFormed(pool[i], now, opacityOf, width, height);
    }
  }

  /** The number of particles the top-up adds to a pool of `n`. */
  function Shortfall(n: nat): nat
  {
    if n < MaxTriangles then MaxTriangles - n else 0
  }

  /**
   * The top-up loop as a value: the pool followed by fresh ordinary particles,
   * the k-th built from `draws(k)`, until it holds 55.
   */
  function Replenish(pool: seq<Triangle>, width: nat, height: nat,
                     draws: nat -> TriangleDraws, now: int): (r: seq<Triangle>)
    ensures |r| == if |pool| < MaxTriangles then MaxTriangles else |pool|
    ensures r[..|pool|] == pool
    ensures forall k :: |pool| <= k < |r| ==> !r[k].isFlickering && WellFormed(r[k])
  {
    var added := seq(Shortfall(|pool|), k requires 0 <= k => CreateRandomTriangle(width, height, false, draws(k), now));
    forall k | 0 <= k < |added| ensures !added[k].isFlickering && WellFormed(added[k]) {
      assert added[k] == CreateRandomTriangle(width, height, false, draws(k), now);
    }
    pool + added
  }

  // ---------------------------------------------------------------------
  // Bursts
  // ---------------------------------------------------------------------

  /** Whether the frame at `now` starts a new flickering line. */
  predicate BurstDue(now: int, lastLineSpawnTime: int)
  {
    now - lastLineSpawnTime > LineSpawnInterval
  }

  /** The i-th particle of a line at `x`: a flicker particle moved to `(x, (height / 10) * i)`. */
  function LineMember(width: nat, height: nat, x: real, i: nat, d: FlickerDraws, now: int): Triangle
  {
    CreateRandomFlickerTriangle(width, height, d, now)
      .(centerX := x, centerY := (height as real / TrianglesPerLine as real) * i as real)
  }

  /** `createFlickeringLine`: ten flickering particles on the vertical line at `x`, evenly spaced. */
  function FlickerLine(width: nat, height: nat, x: real, draws: nat -> FlickerDraws, now: int): (line: seq<Triangle>)
    ensures |line| == TrianglesPerLine
    ensures forall i :: 0 <= i < |line| ==>
      line[i].centerX == x &&
      line[i].centerY == (height as real / TrianglesPerLine as real) * i as real &&
      line[i].isFlickering && line[i].flickerStartTime == Some(now) &&
      line[i].size == FlickerSize && line[i].velocityX == 0.0 && line[i].velocityY == 0.0 &&
      line[i].color == White && !line[i].hasTrail && WellFormed(line[i])
  {
    var line := seq(TrianglesPerLine, i requires 0 <= i => LineMember(width, height, x, i, draws(i), now));
    assert forall i :: 0 <= i < |line| ==> line[i] == LineMember(width, height, x, i, draws(i), now);
    line
  }

  /**
   * A line created at a non-zero `created` meets a later filter at `now`
   * whole while it is younger than 2000 time units, and not at all after.
   */
  lemma BurstSurvives(width: nat, height: nat, x: real, draws: nat -> FlickerDraws, created: int, now: int)
    requires created != 0
    ensures now - created < FlickerDuration ==>
      Survivors(FlickerLine(width, height, x, draws, created), now) == FlickerLine(width, height, x, draws, created)
    ensures now - created >= FlickerDuration ==>
      Survivors(FlickerLine(width, height, x, draws, created), now) == []
  {
    var line := FlickerLine(width, height, x, draws, created);
    forall i | 0 <= i < |line| ensures Started(line[i].flickerStartTime) {
    }
    if now - created < FlickerDuration {
      SurvivorsAllAlive(line, now);
    } else {
      SurvivorsNoneAlive(line, now);
    }
  }

  // ---------------------------------------------------------------------
  // A frame of the whole pool
  // ---------------------------------------------------------------------

  /**
   * The pool after one frame: the dead are dropped, the living updated, the
   * pool topped up to 55, and then the burst (possibly empty) that the frame
   * scheduled is appended, since its timer callbacks run after the frame.
   */
  function NextPool(pool: seq<Triangle>, burst: seq<Triangle>, now: int, opacityOf: int -> real,
                    width: nat, height: nat, draws: nat -> TriangleDraws): (r: seq<Triangle>)
    requires forall t :: t in pool ==> WellFormed(t)
    requires forall t :: t in burst ==> WellFormed(t)
    ensures var n := |Survivors(pool, now)|;
      |r| == (if n < MaxTriangles then MaxTriangles else n) + |burst|
    ensures |r| >= MaxTriangles
    ensures r[|r| - |burst|..] == burst
    ensures forall u :: u in r ==> WellFormed(u)
  {
    var live := Survivors(pool, now);
    var updated := UpdateAll(live, now, opacityOf, width, height);
    UpdateAllWellFormed(live, now, opacityOf, width, height);
    var topped := Replenish(updated, width, height, draws, now);
    assert forall u :: u in topped ==> WellFormed(u) by {
      forall u | u in topped ensures WellFormed(u) {
        var k :| 0 <= k < |topped| && topped[k] == u;
        if k < |updated| {
          assert u == topped[..|updated|][k];
        }
      }
    }
    var r := topped + burst;
    assert r[|r| - |burst|..] == burst;
    r
  }

  /**
   * In a frame that schedules a burst, the pool ends with max(55, survivors of
   * the old pool) particles followed by the ten particles of the line.
   */
  lemma BurstFramePoolSize(pool: seq<Triangle>, now: int, x: real, lineDraws: nat -> FlickerDraws,
                           opacityOf: int -> real, width: nat, height: nat, draws: nat -> TriangleDraws)
    requires forall t :: t in pool ==> WellFormed(t)
    ensures var n := |Survivors(pool, now)|;
      var r := NextPool(pool, FlickerLine(width, height, x, lineDraws, now), now, opacityOf, width, height, draws);
      |r| == (if n < MaxTriangles then MaxTriangles else n) + TrianglesPerLine &&
      r[|r| - TrianglesPerLine..] == FlickerLine(width, height, x, lineDraws, now)
  {
  }

  /**
   * The frame after a burst: while the line is younger than 2000 time units
   * and was stamped at a non-zero time, the filter keeps all ten of its
   * particles, after the survivors of the rest of the pool.
   */
  lemma BurstLivesNextFrame(pool: seq<Triangle>, created: int, now: int, x: real,
                            lineDraws: nat -> FlickerDraws, opacityOf: int -> real,
                            width: nat, height: nat, draws: nat -> TriangleDraws)
    requires created != 0 && now - created < FlickerDuration
    requires forall t :: t in pool ==> WellFormed(t)
    ensures var line := FlickerLine(width, height, x, lineDraws, created);
      var r := NextPool(pool, line, created, opacityOf, width, height, draws);
      Survivors(r, now) == Survivors(r[..|r| - TrianglesPerLine], now) + line
  {
    var line := FlickerLine(width, height, x, lineDraws, created);
    var r := NextPool(pool, line, created, opacityOf, width, height, draws);
    var front := r[..|r| - TrianglesPerLine];
    assert r == front + line;
    SurvivorsAppend(front, line, now);
    BurstSurvives(width, height, x, lineDraws, created, now);
  }
}
