# Triangle canvas particle pool, modelled in Dafny

The landing page of this website draws a full-screen animation of drifting
triangles on a canvas (`app/components/canvasComponent.tsx`). The component
keeps a pool of particle records and a last-burst timestamp. Once per frame it:

1. schedules a burst of ten flickering particles on a vertical line, when more
   than 5000 ms have passed since the last burst. The particles are pushed by
   timer callbacks, which run only after the frame has finished;
2. drops expired particles. A flickering particle lives for 2000 ms. Any other
   particle lives once the clock has reached its spawn delay;
3. updates each survivor in place. A flickering particle only changes its
   opacity. Any other particle rotates, moves by its velocity, wraps around the
   canvas edges with its own size as margin, and, if it has a trail, pushes its
   new pose onto a trail of at most five entries;
4. tops the pool up to 55 particles with fresh ordinary particles.

The model has three modules:

- `Particle` (`particle.dfy`): the particle record, the constants, and the two
  constructors `createRandomTriangle` and `createRandomFlickerTriangle` as functions.
- `Motion` (`motion.dfy`): each step of the frame as a function on values.
  These are the lifetime filter, the per-particle update, the edge wrap, the
  trail push, the flickering line and the top-up. The module also holds the
  lemmas about them.
- `Animator` (`animator.dfy`): the component's mutable state as a class,
  `TriangleCanvas`. Its fields are the pool, the last-burst time and the canvas
  size. Its methods are `CreateFlickeringLine`, which has the source's `for`
  loop; `Render`, one frame followed by the burst callbacks it scheduled; and
  `TopUp`, the `while` loop that ends `render`.
  Each method is proved against the `Motion` functions.

Randomness, the clock and floating-point effects are parameters:

- Every `Math.random()` call is a field of a draws record (`TriangleDraws`,
  `FlickerDraws`). Its type `Unit` is the half-open interval [0, 1). The top-up
  and the burst take one record per particle, as a function from the particle's
  index.
- `Date.now()` is the `currentTime` / `now` argument.
- The flicker opacity `|sin(age * 0.01)|` is the parameter `opacityOf`, a
  function of the particle's age.
- Positions, sizes and angles are `real`. Times are `int`, as `Date.now()`
  gives whole milliseconds. Canvas sizes are `nat`, as canvas sizes are whole
  pixels.

Modelling notes:

- The source reads the optional `flickerStartTime` through JavaScript
  truthiness: a start time of 0 counts as absent. The filter test then falls
  back to the spawn-delay test (`Motion.Started`). The update uses
  `flickerStartTime || 0`.
- When the smaller canvas side is 0, `size / min(width, height)` is an IEEE
  infinity, so the particle gets the large-particle multiplier, 0.5.
  `SpeedFactor` reproduces this.
- The spawn delay (less than 3000) is compared with the absolute clock value.
  With wall-clock times, therefore, it never holds a particle back.
  `Motion.OrdinaryParticleAlive` states this: once the clock is at 3000 or
  more, every particle `createRandomTriangle` builds passes the filter. This is
  modelled as written.
- An optional trail that is absent is the empty sequence. So
  `if (!triangle.trail) triangle.trail = []` has no counterpart.

## Model

| member | source | states |
|---|---|---|
| `Particle.SpeedFactor` | app/components/canvasComponent.tsx:48-49 | the speed multiplier is always 0.5 (large particles) or 2 (small ones) |
| `Particle.SpeedFactorThreshold` | app/components/canvasComponent.tsx:48-49 | the multiplier is 0.5 exactly when the size exceeds half the smaller canvas side, and 2 otherwise; this includes a zero-size canvas |
| `Particle.PaletteColor` | app/components/canvasComponent.tsx:47 | the drawn colour is one of the six palette entries |
| `Particle.CreateRandomTriangle` | app/components/canvasComponent.tsx:43-65 | the result is well formed and its trail starts empty. A flickering result has size 50, zero velocity, colour white, no trail and start time `now`. An ordinary result has a size in [50, 50 + 0.6·min(w, h)], no start time and opacity 1. Its centre is on the canvas and its spawn delay is in [0, 3000). It has a trail exactly when it is not flickering and the trail draw is below 0.1. Its velocity per axis is within ±0.75·factor and its rotation speed within ±0.005·factor |
| `Particle.CreateRandomFlickerTriangle` | app/components/canvasComponent.tsx:67-89 | a well-formed, flickering, white particle of size 50 starting at `now`. It has zero velocity and rotation, spawn delay 0, no trail and opacity in [0, 1). Its centre is on the canvas, on the left edge when the x coin fails and on the bottom edge when the y coin fails |
| `Motion.Started` | app/components/canvasComponent.tsx:175 | the truthiness test of `flickerStartTime`: present and not 0 (used by `Motion.FlickerLifetime`) |
| `Motion.StartOrZero` | app/components/canvasComponent.tsx:182 | `flickerStartTime || 0`: the start time a flickering particle's age is measured from (used by `Motion.FlickerStaysPut`) |
| `Motion.Alive` | app/components/canvasComponent.tsx:174-179 | the filter callback; what it keeps is stated by `Motion.FlickerLifetime` and `Motion.SurvivorsMembership` |
| `Motion.FlickerLifetime` | app/components/canvasComponent.tsx:174-179 | for a particle of the pool: if it is flickering with a truthy start time, it is kept iff `now - start < 2000`; otherwise (ordinary, or flickering with no start time or start time 0) it is kept iff `now >= spawnDelay` |
| `Motion.Survivors` | app/components/canvasComponent.tsx:173-179 | the filter never lengthens the pool, and every particle it keeps was in the pool and is alive |
| `Motion.SurvivorsMembership` | app/components/canvasComponent.tsx:173-179 | a particle is in the filtered pool iff it was in the pool and is alive (both directions) |
| `Motion.SurvivorsAppend` | app/components/canvasComponent.tsx:173-179 | the filter keeps relative order: filtering `a + b` gives the filtered `a` followed by the filtered `b` |
| `Motion.SurvivorsAllAlive` | app/components/canvasComponent.tsx:173-179 | a pool whose particles are all alive passes the filter unchanged |
| `Motion.SurvivorsNoneAlive` | app/components/canvasComponent.tsx:173-179 | a pool none of whose particles is alive is filtered to the empty pool |
| `Motion.OrdinaryParticleAlive` | app/components/canvasComponent.tsx:178 | the spawn delay is compared with the absolute clock, so from time 3000 on every freshly created ordinary particle passes the filter |
| `Motion.WrapCoordinate` | app/components/canvasComponent.tsx:188-191 | for a non-negative size, a wrapped coordinate lies within [-size, extent + size]. Going below `-size` lands at `extent + size`. Going above `extent + size` lands at `-size`. A value within the margins is unchanged |
| `Motion.PushTrail` | app/components/canvasComponent.tsx:196-197 | the new head is the pushed point, followed by the old entries in order. The length grows by one below five entries and stays the same otherwise (one pop) |
| `Motion.PushTrailBounded` | app/components/canvasComponent.tsx:196-197 | for a trail of at most 5 entries, the new length is min(old length + 1, 5) and never above 5 |
| `Motion.Drift` | app/components/canvasComponent.tsx:184-198 | the update of a non-flickering particle; its effect is stated by `Motion.DriftStep`, `Motion.DriftWithinBounds` and `Motion.StepTrail` |
| `Motion.Step` | app/components/canvasComponent.tsx:180-199 | the map callback; its effect is stated by `Motion.FlickerStaysPut`, `Motion.DriftWithinBounds`, `Motion.StepTrail` and `Motion.StepWellFormed` |
| `Motion.FlickerStaysPut` | app/components/canvasComponent.tsx:181-182 | updating a flickering particle changes only its opacity; position, angle, size and trail stay the same |
| `Motion.DriftStep` | app/components/canvasComponent.tsx:184-186 | without a wrap event, the new angle is `angle + rotationSpeed` and the new centre is `(centerX + velocityX, centerY + velocityY)` |
| `Motion.DriftWithinBounds` | app/components/canvasComponent.tsx:184-191 | after the update, a drifting particle lies within `[-size, width + size] × [-size, height + size]`, and only its angle, centre and trail changed |
| `Motion.StepTrail` | app/components/canvasComponent.tsx:193-198 | a trailing particle's new trail begins with its post-wrap `(centerX, centerY, angle)`, followed by the old entries in order, and reaches min(old length + 1, 5). A particle without a trail keeps its trail |
| `Motion.StepWellFormed` | app/components/canvasComponent.tsx:180-199 | the update keeps a particle well formed: trail at most 5 entries, trail only when not flickering, flickering particles at rest, size at least 50 |
| `Motion.TimesIsProduct` | app/components/canvasComponent.tsx:185-186 | adding a velocity once per frame for N frames adds N times the velocity |
| `Motion.DriftRepeated` | app/components/canvasComponent.tsx:184-186 | over N frames without a wrap event, a drifting particle keeps its velocity and rotation speed. Its centre moves by N times its velocity (`Times`) and its angle by N times its rotation speed |
| `Motion.FramesWellFormed` | app/components/canvasComponent.tsx:180-199 | a well-formed particle stays well formed however many frames pass; in particular its trail never exceeds 5 entries |
| `Motion.NoTrailNeverGrows` | app/components/canvasComponent.tsx:194-198 | a particle with `hasTrail = false` never gains trail entries, however many frames pass |
| `Motion.FlickerNeverMoves` | app/components/canvasComponent.tsx:181-182 | a flickering particle keeps its centre, angle and trail over any number of frames |
| `Motion.UpdateAll` | app/components/canvasComponent.tsx:180-203 | the update keeps the pool's length and order. Every flickering particle equals its old record with only the opacity replaced. Every drifting particle of non-negative size ends within `[-size, width + size] × [-size, height + size]`, with only its angle, centre and trail changed |
| `Motion.UpdateAllWellFormed` | app/components/canvasComponent.tsx:180-203 | updating a well-formed pool gives a well-formed pool |
| `Motion.Replenish` | app/components/canvasComponent.tsx:205-207 | the topped-up pool has length max(55, old length). The old pool is an unchanged prefix, so the top-up only appends. Every appended particle is ordinary and well formed |
| `Motion.FlickerLine` | app/components/canvasComponent.tsx:92-101 | a burst is exactly 10 particles, all at the same x, the i-th at y = (height / 10)·i. Each is flickering, started at `now`, of size 50, at rest, white, without a trail, and well formed |
| `Motion.BurstDue` | app/components/canvasComponent.tsx:168 | the burst gate `currentTime - last > 5000`, used by `Animator.TriangleCanvas.Render` |
| `Motion.LineMember` | app/components/canvasComponent.tsx:96-98 | one timer callback's particle: a flicker particle moved to `(x, (height / 10)·i)`; stated by `Motion.FlickerLine` |
| `Motion.BurstSurvives` | app/components/canvasComponent.tsx:173-177 | a line stamped at a non-zero time passes a later filter whole while it is younger than 2000 ms, and is dropped whole once it is 2000 ms old |
| `Motion.NextPool` | app/components/canvasComponent.tsx:168-207 | after a frame the pool has max(55, survivors of the old pool) particles, followed by the scheduled burst, which the top-up does not count. All are well formed |
| `Motion.BurstFramePoolSize` | app/components/canvasComponent.tsx:168-207 | in a frame that schedules a burst, the pool ends with max(55, survivors of the old pool) + 10 particles, the last ten being the line |
| `Motion.BurstLivesNextFrame` | app/components/canvasComponent.tsx:95-99 | in the frame after a burst, while the line is younger than 2000 ms, the filter keeps all ten of its particles, after the survivors of the rest of the pool |
| `Animator.TriangleCanvas.constructor` | app/components/canvasComponent.tsx:37-38 | a new canvas has an empty pool and last-burst time 0 |
| `Animator.TriangleCanvas.CreateFlickeringLine` | app/components/canvasComponent.tsx:92-101 | the loop appends exactly the ten particles of `FlickerLine` at x = draw·width and leaves the rest of the pool in place |
| `Animator.TriangleCanvas.TopUp` | app/components/canvasComponent.tsx:205-207 | the `while` loop leaves the pool equal to `Replenish` of the old pool, so it is filled to 55 by appending only |
| `Animator.TriangleCanvas.Render` | app/components/canvasComponent.tsx:160-210 | the burst gate: the last-burst time becomes `currentTime` exactly when `currentTime - last > 5000`, and stays otherwise. The new pool is `NextPool` of the old one, with the line appended after the top-up when a burst was due, so it holds at least 55 well-formed particles |

## Left out

- Drawing (`drawTriangle`, lines 104-146) and every canvas call. This is
  rendering through a browser API with floating-point trigonometry.
- The flicker opacity `|sin(age * 0.01)|` (line 182). It is floating-point
  numerics, so it is the parameter `opacityOf`. The trail-opacity formula and
  `TRAIL_DELAY` (line 113) are drawing only. The rebuilding of colour strings
  (lines 127 and 143) is presentation only.
- Double-precision rounding. Arithmetic is exact over `real`. `Math.PI` is the
  shortest decimal that rounds to it, 3.141592653589793.
- The staggered timers of a burst (`setTimeout` with a random delay below
  1000 ms, line 95). They are timer-driven. The model runs all ten callbacks
  right after the frame that scheduled them, so the line is appended after
  that frame's top-up and meets the next frame's filter. In the source each
  callback runs after its own delay, so the ten particles usually arrive
  spread over several later frames. Each is stamped with `Date.now()` at its
  callback; the model stamps them with the scheduling frame's time.
- `requestAnimationFrame`, the resize listener and canvas sizing (lines
  155-158, 209, 212-219). These are browser I/O and scheduling. The canvas size
  is given to the constructor. `render` is one call of `Render`.
- Object identity. The source mutates each particle object inside the `map`
  callback. Particles here are values: the update returns a new record. No
  other code holds a reference to a particle, so this changes nothing but
  aliasing.
- `Motion.DriftRepeated`: it states the N-fold movement through `Times`, that
  is, repeated addition. The proof that this equals `N * velocity` is the
  separate lemma `Motion.TimesIsProduct`. The two are not combined into one
  contract.
- `app/page.tsx`, `app/components/logo.tsx` and `app/components/Navbar.tsx`.
  They are declarative UI glue, a mouse-driven float transform and static
  markup. They are not part of this model.
